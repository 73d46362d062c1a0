/**
 * The request parser of tritonhttp/server.go: `parseFirstLine`,
 * `parseHeaders` and `ReadRequest`. The pure request-line check is a
 * function; the two procedures that advance the reader and fill in a
 * `*Request` are methods, each proved against a specification function
 * (`ScanHeaders`, `ScanRequest`) over the unread input.
 */
module HttpServer {
  import opened Wrappers
  import opened GoStrings
  import opened Bufio

  /** Every way `ReadRequest` can fail. `EndOfInput` is the `io.EOF` that
      `ReadString` returns when the input ends before a newline; the other
      five are the `fmt.Errorf` errors of the parser. */
  datatype ParseError =
    | EndOfInput
    | InvalidFirstLine
    | InvalidMethod
    | InvalidURL
    | InvalidProtocol
    | InvalidHeader

  /** A Go `map[string]string`; `None` is the nil map. */
  type HeaderMap = Option<map<string, string>>

  /** Go's `m[key]`: the stored value, or the zero value "" for a missing
      key or a nil map. */
  function Lookup(m: HeaderMap, key: string): (v: string)
    ensures m.Some? && key in m.value ==> v == m.value[key]
    ensures v != "" ==> m.Some? && key in m.value && m.value[key] == v
  {
    if m.Some? && key in m.value then m.value[key] else ""
  }

  /** The three fields `parseFirstLine` stores into the request. */
  datatype FirstLine = FirstLine(httpMethod: string, url: string, proto: string)

  /** `parseFirstLine`: split the raw line (newline included) on single
      spaces, and accept only `GET <url starting with /> HTTP/1.1`, where
      the third field may carry white space (the line end) around it. */
  function ParseFirstLine(line: string): (r: Result<FirstLine, ParseError>)
    ensures r == Err(InvalidFirstLine) <==> Count(line, ' ') != 2
    ensures r.Ok? ==> && r.value.httpMethod == "GET"
                      && HasPrefix(r.value.url, "/") && ' ' !in r.value.url
                      && r.value.proto == "HTTP/1.1"
  {
    var parts := Split(line, ' ');
    if |parts| != 3 then Err(InvalidFirstLine)
    else if parts[0] != "GET" then Err(InvalidMethod)
    else if !HasPrefix(parts[1], "/") then Err(InvalidURL)
    else
      var protocol := TrimSpace(parts[2]);
      if protocol != "HTTP/1.1" then Err(InvalidProtocol)
      else Ok(FirstLine(parts[0], parts[1], protocol))
  }

  /** What `parseHeaders` leaves behind: the request's header map, how many
      characters it consumed, and the error it returned, if any. */
  datatype HeaderOutcome = HeaderOutcome(headers: HeaderMap, consumed: nat, err: Option<ParseError>)

  /** The effect of `parseHeaders` on the unread input `s`, starting from
      the header map `h`: read lines until one that is blank once trimmed;
      split every other line at its first colon and store the trimmed key
      and value in a newly made map, which replaces the previous one. */
  function ScanHeaders(s: string, h: HeaderMap): (o: HeaderOutcome)
    ensures o.consumed <= |s|
    ensures o.err != Some(EndOfInput) ==> 0 < o.consumed && s[o.consumed - 1] == '\n'
    ensures o.err == Some(EndOfInput) ==> o.consumed == |s|
    ensures o.err.None? || o.err == Some(EndOfInput) || o.err == Some(InvalidHeader)
    ensures o.headers == h || (o.headers.Some? && |o.headers.value| == 1)
    decreases |s|
  {
    match LineEnd(s, '\n')
    case None => HeaderOutcome(h, |s|, Some(EndOfInput))
    case Some(k) =>
      var line := TrimSpace(s[..k]);
      if line == [] then HeaderOutcome(h, k, None)
      else
        var parts := SplitFirst(line, ':');
        if |parts| != 2 then HeaderOutcome(h, k, Some(InvalidHeader))
        else
          var key, value := TrimSpace(parts[0]), TrimSpace(parts[1]);
          var single := map[key := value];
          assert |single| == 1 by { assert single.Keys == {key}; }
          var next := ScanHeaders(s[k..], Some(single));
          assert next.err != Some(EndOfInput) ==> s[k..][next.consumed - 1] == s[k + next.consumed - 1];
          next.(consumed := k + next.consumed)
  }

  /** The value `ReadRequest` returns on success. */
  datatype RequestValue = RequestValue(
    httpMethod: string, url: string, proto: string,
    headers: HeaderMap, host: string, close: bool)

  /** What `ReadRequest` does to the unread input: its result and how many
      characters it consumed. */
  datatype ReadOutcome = ReadOutcome(result: Result<RequestValue, ParseError>, consumed: nat)

  /** The effect of `ReadRequest` on the unread input `s`: the request line,
      then the header block, then `Host` and `Close` derived from the
      headers. */
  function ScanRequest(s: string): (o: ReadOutcome)
    ensures o.consumed <= |s|
    ensures o.result.Ok? ==> o.result.value.httpMethod == "GET" && o.result.value.proto == "HTTP/1.1"
    ensures o.result.Ok? ==> 0 < o.consumed && s[o.consumed - 1] == '\n'
  {
    match LineEnd(s, '\n')
    case None => ReadOutcome(Err(EndOfInput), |s|)
    case Some(k) =>
      match ParseFirstLine(s[..k])
      case Err(e) => ReadOutcome(Err(e), k)
      case Ok(first) =>
        var hs := ScanHeaders(s[k..], None);
        if hs.err.Some? then ReadOutcome(Err(hs.err.value), k + hs.consumed)
        else
          assert s[k..][hs.consumed - 1] == s[k + hs.consumed - 1];
          var host := Lookup(hs.headers, "Host");
          var close := Lookup(hs.headers, "Connection") == "close";
          var v := RequestValue(first.httpMethod, first.url, first.proto, hs.headers, host, close);
          assert v.httpMethod == "GET" && v.proto == "HTTP/1.1";
          ReadOutcome(Ok(v), k + hs.consumed)
  }

  /** The `Request` that `ReadRequest` allocates and fills in. */
  class Request {
    var Method: string
    var URL: string
    var Proto: string
    var Headers: HeaderMap
    var Host: string
    var Close: bool

    /** `&Request{}`: every field holds its zero value. */
    constructor ()
      ensures Method == [] && URL == [] && Proto == []
      ensures Headers.None? && Host == [] && !Close
    {
      Method, URL, Proto := [], [], [];
      Headers := None;
      Host, Close := [], false;
    }

    function Value(): RequestValue
      reads this
    {
      RequestValue(Method, URL, Proto, Headers, Host, Close)
    }
  }

  /** `o` with `n` more characters consumed in front of it. */
  function After(n: nat, o: HeaderOutcome): HeaderOutcome {
    o.(consumed := n + o.consumed)
  }

  /** `parseHeaders(br, req)`. */
  method ParseHeaders(br: Reader, req: Request) returns (err: Option<ParseError>)
    requires br.Valid()
    modifies br, req`Headers
    ensures br.Valid()
    ensures var o := ScanHeaders(old(br.Rest()), old(req.Headers));
      && err == o.err && req.Headers == o.headers
      && br.pos == old(br.pos) + o.consumed
  {
    ghost var goal := ScanHeaders(br.Rest(), req.Headers);
    ghost var start := br.pos;
    while true
      invariant br.Valid() && start <= br.pos
      invariant goal == After(br.pos - start, ScanHeaders(br.Rest(), req.Headers))
      decreases |br.data| - br.pos
    {
      ghost var rest, here, h := br.Rest(), br.pos, req.Headers;
      var line, eof := br.ReadString('\n');
      if eof {
        assert ScanHeaders(rest, h) == HeaderOutcome(h, |rest|, Some(EndOfInput));
        return Some(EndOfInput);
      }
      ghost var k := br.pos - here;
      assert LineEnd(rest, '\n') == Some(k) && line == rest[..k];
      line := TrimSpace(line);
      if line == [] {
        assert ScanHeaders(rest, h) == HeaderOutcome(h, k, None);
        break;
      }
      var parts := SplitFirst(line, ':');
      if |parts| != 2 {
        assert ScanHeaders(rest, h) == HeaderOutcome(h, k, Some(InvalidHeader));
        return Some(InvalidHeader);
      }
      var key := TrimSpace(parts[0]);
      var value := TrimSpace(parts[1]);
      req.Headers := Some(map[]);
      req.Headers := Some(req.Headers.value[key := value]);
      assert ScanHeaders(rest, h) == After(k, ScanHeaders(rest[k..], Some(map[key := value])));
    }
    return None;
  }

  /** `ScanRequest` on input without a complete request line. */
  lemma ScanRequestNoLine(s: string)
    requires LineEnd(s, '\n').None?
    ensures ScanRequest(s) == ReadOutcome(Err(EndOfInput), |s|)
  {
  }

  /** `ScanRequest` once the request line has been read and rejected. */
  lemma ScanRequestBadLine(s: string, k: nat, e: ParseError)
    requires LineEnd(s, '\n') == Some(k) && ParseFirstLine(s[..k]) == Err(e)
    ensures ScanRequest(s) == ReadOutcome(Err(e), k)
  {
  }

  /** `ScanRequest` once the request line has been read and accepted. */
  lemma ScanRequestAfterFirstLine(s: string, k: nat, first: FirstLine)
    requires LineEnd(s, '\n') == Some(k) && ParseFirstLine(s[..k]) == Ok(first)
    ensures var hs := ScanHeaders(s[k..], None);
      ScanRequest(s) ==
        if hs.err.Some? then ReadOutcome(Err(hs.err.value), k + hs.consumed)
        else ReadOutcome(Ok(RequestValue(first.httpMethod, first.url, first.proto, hs.headers,
               Lookup(hs.headers, "Host"), Lookup(hs.headers, "Connection") == "close")), k + hs.consumed)
  {
  }

  /** `parseFirstLine(firstLine, req)`: each field is stored as soon as it
      has been checked, so a line rejected for its URL or protocol still
      leaves the method (and the URL) behind in `req`. */
  method ParseFirstLineInto(firstLine: string, req: Request) returns (err: Option<ParseError>)
    modifies req`Method, req`URL, req`Proto
    ensures match ParseFirstLine(firstLine)
      case Ok(f) => err.None? && req.Method == f.httpMethod && req.URL == f.url && req.Proto == f.proto
      case Err(e) => err == Some(e)
    ensures err == Some(InvalidFirstLine) || err == Some(InvalidMethod) ==> unchanged(req)
    ensures err == Some(InvalidURL) ==> req.Method == "GET" && req.URL == old(req.URL) && req.Proto == old(req.Proto)
    ensures err == Some(InvalidProtocol) ==>
      && |Split(firstLine, ' ')| == 3 && req.URL == Split(firstLine, ' ')[1]
      && req.Method == "GET" && HasPrefix(req.URL, "/") && req.Proto == old(req.Proto)
  {
    var parts := Split(firstLine, ' ');
    if |parts| != 3 {
      return Some(InvalidFirstLine);
    }
    if parts[0] != "GET" {
      return Some(InvalidMethod);
    }
    req.Method := parts[0];
    if !HasPrefix(parts[1], "/") {
      return Some(InvalidURL);
    }
    req.URL := parts[1];
    var protocol := TrimSpace(parts[2]);
    if protocol != "HTTP/1.1" {
      return Some(InvalidProtocol);
    }
    req.Proto := protocol;
    return None;
  }

  /** `ReadRequest(br)`: a fresh request on success, or no request and the
      error; either way the reader has advanced past what was consumed. */
  method ReadRequest(br: Reader) returns (req: Request?, err: Option<ParseError>)
    requires br.Valid()
    modifies br
    ensures br.Valid()
    ensures var o := ScanRequest(old(br.Rest()));
      && br.pos == old(br.pos) + o.consumed
      && (o.result.Err? ==> req == null && err == Some(o.result.error))
      && (o.result.Ok? ==> req != null && fresh(req) && err.None? && req.Value() == o.result.value)
  {
    ghost var s := br.Rest();
    req := new Request();
    var firstLine, eof := br.ReadString('\n');
    if eof {
      ScanRequestNoLine(s);
      return null, Some(EndOfInput);
    }
    ghost var k := |firstLine|;
    assert LineEnd(s, '\n') == Some(k) && firstLine == s[..k];
    err := ParseFirstLineInto(firstLine, req);
    if err.Some? {
      ScanRequestBadLine(s, k, err.value);
      return null, err;
    }
    ghost var first := ParseFirstLine(firstLine).value;
    assert req.Method == first.httpMethod && req.URL == first.url && req.Proto == first.proto;
    ghost var hs := ScanHeaders(s[k..], None);
    err := ParseHeaders(br, req);
    ScanRequestAfterFirstLine(s, k, first);
    if err.Some? {
      return null, err;
    }
    assert req.Method == first.httpMethod && req.URL == first.url && req.Proto == first.proto;
    assert req.Headers == hs.headers;
    req.Host := Lookup(req.Headers, "Host");
    req.Close := Lookup(req.Headers, "Connection") == "close";
  }
}

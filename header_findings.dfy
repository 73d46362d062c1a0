/**
 * `parseHeaders` (tritonhttp/server.go) makes a new map for every header
 * line, so a request keeps only its last header. This module shows the
 * consequence on a concrete request, and defines the header scan the code
 * evidently intends, which adds every line to one map, with its lookup
 * property proved.
 */
module HeaderFindings {
  import opened Wrappers
  import opened GoStrings
  import opened Bufio
  import opened HttpServer
  import opened HttpServerProofs

  /** A colon after a name without one splits at the end of the name. */
  lemma ColonSplit(name: string, z: string)
    requires ':' !in name
    ensures ':' in name + [':'] + z
    ensures var x := name + [':'] + z;
      IndexOf(x, ':') == |name| && x[..|name|] == name && x[|name| + 1..] == z
  {
    var x := name + [':'] + z;
    assert x[|name|] == ':';
    var i := IndexOf(x, ':');
    if i < |name| {
      assert false;
    } else if i > |name| {
      assert false;
    }
  }

  lemma SpaceLiterals()
    ensures AllSpace("\r\n") && AllSpace(" ") && AllSpace([])
  {
    assert IsSpace("\r\n"[0]) && IsSpace("\r\n"[1]) && IsSpace(" "[0]);
  }

  /** The header line `name: value`, ended by CRLF, as a client sends it. */
  function HeaderLine(name: string, value: string): string {
    name + ": " + value + "\r\n"
  }

  /** A name and a value without white space at their ends make a header
      line whose field is that name and that value. */
  lemma FieldOfLine(name: string, value: string)
    requires name != [] && value != [] && ':' !in name && '\n' !in name && '\n' !in value
    requires !IsSpace(name[0]) && !IsSpace(name[|name| - 1])
    requires !IsSpace(value[0]) && !IsSpace(value[|value| - 1])
    ensures IsHeaderLine(HeaderLine(name, value)) && Field(HeaderLine(name, value)) == (name, value)
  {
    HeaderLineShape(name, value);
    var z := " " + value;
    TrimmedHeaderLine(name, value);
    ColonSplit(name, z);
    AlreadyTrimmed(name);
    TrimLeadingBlank(value);
  }

  /** Trimming a header line cuts off just its CRLF. */
  lemma TrimmedHeaderLine(name: string, value: string)
    requires name != [] && value != []
    requires !IsSpace(name[0]) && !IsSpace(value[|value| - 1])
    ensures TrimSpace(HeaderLine(name, value)) == name + [':'] + (" " + value)
  {
    var x := name + [':'] + (" " + value);
    assert HeaderLine(name, value) == [] + x + "\r\n";
    SpaceLiterals();
    TrimSpaceAround([], x, "\r\n");
  }

  lemma AlreadyTrimmed(x: string)
    requires x == [] || (!IsSpace(x[0]) && !IsSpace(x[|x| - 1]))
    ensures TrimSpace(x) == x
  {
    assert [] + x + [] == x;
    SpaceLiterals();
    TrimSpaceAround([], x, []);
  }

  lemma TrimLeadingBlank(value: string)
    requires value != [] && !IsSpace(value[0]) && !IsSpace(value[|value| - 1])
    ensures TrimSpace(" " + value) == value
  {
    assert " " + value + [] == " " + value;
    SpaceLiterals();
    TrimSpaceAround(" ", value, []);
  }

  /** Without a line feed in the name or the value, a header line is one
      line holding a colon. */
  lemma HeaderLineShape(name: string, value: string)
    requires '\n' !in name && '\n' !in value
    ensures IsHeaderLine(HeaderLine(name, value))
  {
    var line := HeaderLine(name, value);
    var body := name + ": " + value + "\r";
    assert line == body + "\n";
    assert line[..|line| - 1] == body;
    assert ':' == line[|name|];
  }

  const RequestLine: string := "GET " + "/" + " " + "HTTP/1.1\r\n"

  /** The request line `GET / HTTP/1.1` is well formed. */
  lemma ExampleRequestLine()
    ensures IsLine(RequestLine, '\n')
    ensures ' ' !in "/" && ' ' !in "HTTP/1.1\r\n" && HasPrefix("/", "/")
    ensures TrimSpace("HTTP/1.1\r\n") == "HTTP/1.1"
  {
    LineOfParts("GET ", "/", " ", "HTTP/1.1\r\n");
    ExampleFields();
    ExampleProtocol();
  }

  lemma ExampleFields()
    ensures ' ' !in "/" && ' ' !in "HTTP/1.1\r\n" && HasPrefix("/", "/")
  {
  }

  lemma ExampleProtocol()
    ensures TrimSpace("HTTP/1.1\r\n") == "HTTP/1.1"
  {
    SpaceLiterals();
    TrimSpaceAround([], "HTTP/1.1", "\r\n");
    assert [] + "HTTP/1.1" + "\r\n" == "HTTP/1.1\r\n";
  }

  /** Pieces without a line feed in front of a line make a longer line. */
  lemma LineOfParts(a: string, b: string, c: string, d: string)
    requires '\n' !in a && '\n' !in b && '\n' !in c && IsLine(d, '\n')
    ensures IsLine(a + b + c + d, '\n')
  {
    var s := a + b + c + d;
    assert s[..|s| - 1] == a + b + c + d[..|d| - 1];
  }

  lemma Regroup(a: string, b: string, c: string, d: string)
    ensures a + (b + c) + d + [] == a + b + c + d
  {
  }

  lemma HostLineField(host: string)
    requires host != [] && '\n' !in host && !IsSpace(host[0]) && !IsSpace(host[|host| - 1])
    ensures IsHeaderLine(HeaderLine("Host", host)) && Field(HeaderLine("Host", host)) == ("Host", host)
  {
    FieldOfLine("Host", host);
  }

  lemma CloseLineField()
    ensures IsHeaderLine(HeaderLine("Connection", "close"))
    ensures Field(HeaderLine("Connection", "close")) == ("Connection", "close")
  {
    FieldOfLine("Connection", "close");
  }

  /** A block of two header lines is read as the second one alone. */
  lemma TwoHeaderLines(a: string, b: string, name: string)
    requires IsHeaderLine(a) && IsHeaderLine(b)
    ensures AllHeaderLines([a, b]) && Concat([a, b]) == a + b
    ensures LastHeader([a, b], None) == Some(map[Field(b).0 := Field(b).1])
    ensures LastFieldValue([a, b], name) == if Field(b).0 == name then Field(b).1 else ""
  {
    var lines := [a, b];
    assert AllHeaderLines(lines) by {
      forall i | 0 <= i < |lines| ensures IsHeaderLine(lines[i]) {
        if i == 0 { assert lines[i] == a; } else { assert lines[i] == b; }
      }
    }
    assert lines[1..][1..] == [];
    assert Concat(lines[1..]) == b + [];
  }

  /** The header lines `Host: host` and `Connection: close`, in that order. */
  lemma HostThenClose(host: string) returns (lines: seq<string>)
    requires host != [] && '\n' !in host && !IsSpace(host[0]) && !IsSpace(host[|host| - 1])
    ensures lines == [HeaderLine("Host", host), HeaderLine("Connection", "close")] && AllHeaderLines(lines)
    ensures Concat(lines) == HeaderLine("Host", host) + HeaderLine("Connection", "close")
    ensures LastHeader(lines, None) == Some(map["Connection" := "close"])
    ensures LastFieldValue(lines, "Host") == "" && LastFieldValue(lines, "Connection") == "close"
  {
    var hostLine, closeLine := HeaderLine("Host", host), HeaderLine("Connection", "close");
    HostLineField(host);
    CloseLineField();
    lines := [hostLine, closeLine];
    TwoHeaderLines(hostLine, closeLine, "Host");
    TwoHeaderLines(hostLine, closeLine, "Connection");
  }

  /** AS WRITTEN: a request that names its host and then asks for the
      connection to be closed is read with an empty `Host`, because the
      `Connection` line replaced the map that held `Host`. */
  lemma LaterHeaderDropsHost(host: string)
    requires host != [] && '\n' !in host && !IsSpace(host[0]) && !IsSpace(host[|host| - 1])
    ensures var hostLine, closeLine := HeaderLine("Host", host), HeaderLine("Connection", "close");
      ScanRequest(RequestLine + hostLine + closeLine + "\r\n").result
        == Ok(RequestValue("GET", "/", "HTTP/1.1", Some(map["Connection" := "close"]), "", true))
  {
    ExampleRequestLine();
    var lines := HostThenClose(host);
    SpaceLiterals();
    assert IsBlankLine("\r\n");
    RequestAccepted("/", "HTTP/1.1\r\n", lines, "\r\n", []);
    Regroup(RequestLine, HeaderLine("Host", host), HeaderLine("Connection", "close"), "\r\n");
  }

  /** The concrete instance: `Host: example.com` is lost. */
  lemma ExampleLosesHost()
    ensures ScanRequest(RequestLine + HeaderLine("Host", "example.com") + HeaderLine("Connection", "close") + "\r\n").result
      == Ok(RequestValue("GET", "/", "HTTP/1.1", Some(map["Connection" := "close"]), "", true))
  {
    LaterHeaderDropsHost("example.com");
  }

  /** The fields of header lines, in order. */
  function Fields(lines: seq<string>): (fs: seq<(string, string)>)
    ensures |fs| == |lines|
  {
    if lines == [] then [] else [Field(lines[0])] + Fields(lines[1..])
  }

  /** The map `m` with the fields `fs` stored into it in order. */
  function StoreAll(fs: seq<(string, string)>, m: map<string, string>): map<string, string> {
    if fs == [] then m else StoreAll(fs[1..], m[fs[0].0 := fs[0].1])
  }

  /** The value of the last field of `fs` named `name`, or `d` when no
      field has that name. */
  function LastValueOr(fs: seq<(string, string)>, name: string, d: string): (v: string)
    ensures v == d || exists i | 0 <= i < |fs| :: fs[i] == (name, v)
  {
    if fs == [] then d
    else if fs[|fs| - 1].0 == name then
      assert fs[|fs| - 1] == (name, fs[|fs| - 1].1);
      fs[|fs| - 1].1
    else
      var v := LastValueOr(fs[..|fs| - 1], name, d);
      assert forall i | 0 <= i < |fs| - 1 :: fs[..|fs| - 1][i] == fs[i];
      v
  }

  /** Looking past the first field: it becomes the default. */
  lemma {:induction false} LastValueOrFirst(fs: seq<(string, string)>, name: string, d: string)
    requires fs != []
    ensures LastValueOr(fs, name, d) == LastValueOr(fs[1..], name, if fs[0].0 == name then fs[0].1 else d)
    decreases |fs|
  {
    if |fs| == 1 {
      assert fs[1..] == [] && fs[..0] == [];
    } else {
      var init := fs[..|fs| - 1];
      assert fs[1..][..|fs| - 2] == init[1..];
      if fs[|fs| - 1].0 != name {
        LastValueOrFirst(init, name, d);
      }
    }
  }

  /** Storing fields one after another leaves, under each name, the value
      of the last field with that name, and keeps what was there before
      when no field has it. */
  lemma {:induction false} StoreAllLookup(fs: seq<(string, string)>, m: map<string, string>, name: string)
    ensures Lookup(Some(StoreAll(fs, m)), name) == LastValueOr(fs, name, Lookup(Some(m), name))
    decreases |fs|
  {
    if fs != [] {
      LastValueOrFirst(fs, name, Lookup(Some(m), name));
      StoreAllLookup(fs[1..], m[fs[0].0 := fs[0].1], name);
    }
  }

  /** CORRECTED: `parseHeaders` as it is evidently meant to work. The map
      is made only when the request has none yet, and every header line is
      stored into it. */
  function AccumulateHeaders(s: string, h: HeaderMap): (o: HeaderOutcome)
    ensures o.consumed <= |s|
    decreases |s|
  {
    match LineEnd(s, '\n')
    case None => HeaderOutcome(h, |s|, Some(EndOfInput))
    case Some(k) =>
      var line := TrimSpace(s[..k]);
      if line == [] then HeaderOutcome(h, k, None)
      else
        var parts := SplitFirst(line, ':');
        if |parts| != 2 then HeaderOutcome(h, k, Some(InvalidHeader))
        else
          var m := if h.Some? then h.value else map[];
          var next := AccumulateHeaders(s[k..], Some(m[TrimSpace(parts[0]) := TrimSpace(parts[1])]));
          next.(consumed := k + next.consumed)
  }

  /** The map a request starts its headers with: the existing one, or a
      new empty one. */
  function Base(h: HeaderMap): map<string, string> {
    if h.Some? then h.value else map[]
  }

  lemma AccumulateStep(s: string, h: HeaderMap, k: nat)
    requires LineEnd(s, '\n') == Some(k) && ':' in s[..k]
    ensures var f := Field(s[..k]);
      AccumulateHeaders(s, h) == After(k, AccumulateHeaders(s[k..], Some(Base(h)[f.0 := f.1])))
  {
    var t := TrimSpace(s[..k]);
    TrimSpaceKeeps(s[..k], ':');
    assert t != [];
    var parts := SplitFirst(t, ':');
    assert |parts| == 2;
    var i := IndexOf(t, ':');
    assert parts == [t[..i], t[i + 1..]];
    var f := Field(s[..k]);
    assert f == (TrimSpace(parts[0]), TrimSpace(parts[1]));
    var next := AccumulateHeaders(s[k..], Some(Base(h)[f.0 := f.1]));
    assert AccumulateHeaders(s, h) == next.(consumed := k + next.consumed);
  }

  lemma StoreAllFields(lines: seq<string>, m: map<string, string>)
    requires lines != []
    ensures var f := Field(lines[0]);
      StoreAll(Fields(lines), m) == StoreAll(Fields(lines[1..]), m[f.0 := f.1])
  {
    var fs := Fields(lines);
    assert fs[0] == Field(lines[0]) && fs[1..] == Fields(lines[1..]);
  }

  /** Header lines are consumed one by one into one map. */
  lemma {:induction false} AccumulateLines(lines: seq<string>, s: string, h: HeaderMap)
    requires AllHeaderLines(lines)
    ensures AccumulateHeaders(Concat(lines) + s, h)
      == After(|Concat(lines)|, AccumulateHeaders(s, if lines == [] then h else Some(StoreAll(Fields(lines), Base(h)))))
    decreases |lines|
  {
    if lines != [] {
      AllHeaderLinesTail(lines);
      var line, tail := lines[0], Concat(lines[1..]) + s;
      var f := Field(line);
      var h' := Some(Base(h)[f.0 := f.1]);
      LineEndOfLine(line, '\n', tail);
      assert (line + tail)[..|line|] == line && (line + tail)[|line|..] == tail;
      AccumulateStep(line + tail, h, |line|);
      AccumulateLines(lines[1..], s, h');
      ConcatCons(lines, s);
      StoreAllFields(lines, Base(h));
      var h'' := Some(StoreAll(Fields(lines), Base(h)));
      assert (if lines[1..] == [] then h' else Some(StoreAll(Fields(lines[1..]), Base(h')))) == h'';
      var o := AccumulateHeaders(s, h'');
      assert AccumulateHeaders(tail, h') == After(|Concat(lines[1..])|, o);
      assert AccumulateHeaders(Concat(lines) + s, h) == After(|line|, After(|Concat(lines[1..])|, o));
    } else {
      assert Concat(lines) + s == s;
    }
  }

  /** CORRECTED, the intended property: a header block is accepted as
      before, and afterwards every header name maps to the value of its
      last line, while names no line mentions keep their old value. */
  lemma AccumulatedLookup(lines: seq<string>, blank: string, rest: string, h: HeaderMap, name: string)
    requires AllHeaderLines(lines) && IsBlankLine(blank)
    ensures var o := AccumulateHeaders(Concat(lines) + blank + rest, h);
      && o.err.None? && o.consumed == |Concat(lines)| + |blank|
      && (lines != [] ==> Lookup(o.headers, name) == LastValueOr(Fields(lines), name, Lookup(h, name)))
      && (lines == [] ==> o.headers == h)
  {
    assert Concat(lines) + blank + rest == Concat(lines) + (blank + rest);
    AccumulateLines(lines, blank + rest, h);
    LineEndOfLine(blank, '\n', rest);
    assert (blank + rest)[..|blank|] == blank;
    TrimSpaceEmpty(blank);
    if lines != [] {
      StoreAllLookup(Fields(lines), Base(h), name);
      assert Lookup(Some(Base(h)), name) == Lookup(h, name);
    }
  }

  lemma TwoFields(a: string, b: string, name: string, d: string)
    requires IsHeaderLine(a) && IsHeaderLine(b) && AllHeaderLines([a, b])
    ensures Fields([a, b]) == [Field(a), Field(b)]
    ensures LastValueOr(Fields([a, b]), name, d)
      == if Field(b).0 == name then Field(b).1 else if Field(a).0 == name then Field(a).1 else d
  {
    var lines := [a, b];
    assert lines[1..] == [b] && lines[1..][1..] == [];
    var fs := [Field(a), Field(b)];
    assert fs[..1] == [Field(a)] && fs[..1][..0] == [];
  }

  /** CORRECTED, on the request that loses its host as written: both
      `Host` and `Connection` are kept. */
  lemma AccumulatedKeepsHost(host: string)
    requires host != [] && '\n' !in host && !IsSpace(host[0]) && !IsSpace(host[|host| - 1])
    ensures var o := AccumulateHeaders(HeaderLine("Host", host) + HeaderLine("Connection", "close") + "\r\n", None);
      o.err.None? && Lookup(o.headers, "Host") == host && Lookup(o.headers, "Connection") == "close"
  {
    var hostLine, closeLine := HeaderLine("Host", host), HeaderLine("Connection", "close");
    var lines := HostThenClose(host);
    HostLineField(host);
    CloseLineField();
    TwoFields(hostLine, closeLine, "Host", "");
    TwoFields(hostLine, closeLine, "Connection", "");
    SpaceLiterals();
    assert IsBlankLine("\r\n");
    AccumulatedLookup(lines, "\r\n", [], None, "Host");
    AccumulatedLookup(lines, "\r\n", [], None, "Connection");
    assert Concat(lines) + "\r\n" + [] == hostLine + closeLine + "\r\n";
  }
}

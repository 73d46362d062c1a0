/**
 * What the request parser of tritonhttp/server.go accepts and produces,
 * stated over the lines of the input rather than over its characters, and
 * proved of `ParseFirstLine`, `ScanHeaders` and `ScanRequest`.
 */
module HttpServerProofs {
  import opened Wrappers
  import opened GoStrings
  import opened Bufio
  import opened HttpServer

  /** A header line: one line that holds a colon. */
  predicate IsHeaderLine(line: string) {
    IsLine(line, '\n') && ':' in line
  }

  /** The line that ends the header block: nothing but white space. */
  predicate IsBlankLine(line: string) {
    IsLine(line, '\n') && AllSpace(line)
  }

  predicate AllHeaderLines(lines: seq<string>) {
    forall i {:trigger IsHeaderLine(lines[i])} | 0 <= i < |lines| :: IsHeaderLine(lines[i])
  }

  /** The name and value of a header line: the trimmed text before and
      after its first colon. (A line without a colon, which is never a
      header line, gives its trimmed text and no value.) */
  function Field(line: string): (string, string) {
    var t := TrimSpace(line);
    if ':' in t then
      var i := IndexOf(t, ':');
      (TrimSpace(t[..i]), TrimSpace(t[i + 1..]))
    else (t, [])
  }

  function Concat(lines: seq<string>): string {
    if lines == [] then [] else lines[0] + Concat(lines[1..])
  }

  /** The header map after the lines `lines`, starting from `h`: each line
      replaces the whole map, so only the last line's field is left. */
  function LastHeader(lines: seq<string>, h: HeaderMap): HeaderMap {
    if lines == [] then h
    else
      var f := Field(lines[|lines| - 1]);
      Some(map[f.0 := f.1])
  }

  /** One header line: consumed, and its field becomes the whole map. */
  lemma ScanHeaderLine(line: string, tail: string, h: HeaderMap)
    requires IsHeaderLine(line)
    ensures var f := Field(line);
      ScanHeaders(line + tail, h) == After(|line|, ScanHeaders(tail, Some(map[f.0 := f.1])))
  {
    LineEndOfLine(line, '\n', tail);
    assert (line + tail)[..|line|] == line && (line + tail)[|line|..] == tail;
    ScanHeadersStep(line + tail, h, |line|);
  }

  /** `parseHeaders` on a line with a colon: the line's field replaces the
      map, and reading goes on after the line. */
  lemma ScanHeadersStep(s: string, h: HeaderMap, k: nat)
    requires LineEnd(s, '\n') == Some(k) && ':' in s[..k]
    ensures var f := Field(s[..k]);
      ScanHeaders(s, h) == After(k, ScanHeaders(s[k..], Some(map[f.0 := f.1])))
  {
    var t := TrimSpace(s[..k]);
    TrimSpaceKeeps(s[..k], ':');
    assert t != [];
    var parts := SplitFirst(t, ':');
    assert |parts| == 2;
    var i := IndexOf(t, ':');
    assert parts == [t[..i], t[i + 1..]];
    var f := Field(s[..k]);
    assert f == (TrimSpace(parts[0]), TrimSpace(parts[1]));
    var next := ScanHeaders(s[k..], Some(map[f.0 := f.1]));
    assert ScanHeaders(s, h) == next.(consumed := k + next.consumed);
  }

  lemma AllHeaderLinesTail(lines: seq<string>)
    requires lines != [] && AllHeaderLines(lines)
    ensures IsHeaderLine(lines[0]) && AllHeaderLines(lines[1..])
  {
    assert IsHeaderLine(lines[0]);
    forall i | 0 <= i < |lines| - 1 ensures IsHeaderLine(lines[1..][i]) {
      assert lines[1..][i] == lines[i + 1];
      assert IsHeaderLine(lines[i + 1]);
    }
  }

  /** Reading the first header line and then the others leaves what
      reading them all leaves. */
  lemma LastHeaderTail(lines: seq<string>, h: HeaderMap)
    requires lines != []
    ensures var f := Field(lines[0]);
      LastHeader(lines[1..], Some(map[f.0 := f.1])) == LastHeader(lines, h)
  {
    if |lines| > 1 {
      assert lines[1..][|lines| - 2] == lines[|lines| - 1];
    }
  }

  lemma ConcatCons(lines: seq<string>, s: string)
    requires lines != []
    ensures Concat(lines) + s == lines[0] + (Concat(lines[1..]) + s)
    ensures |Concat(lines)| == |lines[0]| + |Concat(lines[1..])|
  {
    var a, b := lines[0], Concat(lines[1..]);
    assert Concat(lines) == a + b;
    AppendAssoc(a, b, s);
  }

  lemma AppendAssoc(a: string, b: string, c: string)
    ensures a + b + c == a + (b + c)
  {
    assert |a + b + c| == |a + (b + c)|;
    forall i | 0 <= i < |a + b + c| ensures (a + b + c)[i] == (a + (b + c))[i] {
      if i < |a| {
      } else if i < |a| + |b| {
      } else {
      }
    }
  }

  /** Header lines are consumed one by one, and all they leave behind is
      the field of the last one. */
  lemma {:induction false} ScanHeaderLines(lines: seq<string>, s: string, h: HeaderMap)
    requires AllHeaderLines(lines)
    ensures ScanHeaders(Concat(lines) + s, h) == After(|Concat(lines)|, ScanHeaders(s, LastHeader(lines, h)))
    decreases |lines|
  {
    if lines != [] {
      LastHeaderTail(lines, h);
      var line, tail := lines[0], Concat(lines[1..]) + s;
      var f := Field(line);
      var h' := Some(map[f.0 := f.1]);
      ScanHeaderLine(line, tail, h);
      ScanHeaderLines(lines[1..], s, h');
      ConcatCons(lines, s);
    } else {
      assert Concat(lines) + s == s;
    }
  }

  /** IF: header lines followed by a blank line are accepted, and exactly
      they are consumed. */
  lemma HeaderBlockAccepted(lines: seq<string>, blank: string, rest: string, h: HeaderMap)
    requires AllHeaderLines(lines) && IsBlankLine(blank)
    ensures ScanHeaders(Concat(lines) + blank + rest, h)
            == HeaderOutcome(LastHeader(lines, h), |Concat(lines)| + |blank|, None)
  {
    var h' := LastHeader(lines, h);
    BlankHeaderLine(blank, rest, h');
    ScanHeaderLines(lines, blank + rest, h);
    AppendAssoc(Concat(lines), blank, rest);
    assert ScanHeaders(Concat(lines) + (blank + rest), h)
      == After(|Concat(lines)|, HeaderOutcome(h', |blank|, None));
  }

  lemma BlankHeaderLine(blank: string, rest: string, h: HeaderMap)
    requires IsBlankLine(blank)
    ensures ScanHeaders(blank + rest, h) == HeaderOutcome(h, |blank|, None)
  {
    LineEndOfLine(blank, '\n', rest);
    assert (blank + rest)[..|blank|] == blank;
    TrimSpaceEmpty(blank);
  }

  /** A non-blank line without a colon after the header lines is rejected
      once it has been read. */
  lemma HeaderLineRejected(lines: seq<string>, bad: string, rest: string, h: HeaderMap)
    requires AllHeaderLines(lines) && IsLine(bad, '\n') && !AllSpace(bad) && ':' !in bad
    ensures ScanHeaders(Concat(lines) + bad + rest, h)
            == HeaderOutcome(LastHeader(lines, h), |Concat(lines)| + |bad|, Some(InvalidHeader))
  {
    var h' := LastHeader(lines, h);
    BadHeaderLine(bad, rest, h');
    ScanHeaderLines(lines, bad + rest, h);
    assert Concat(lines) + bad + rest == Concat(lines) + (bad + rest);
    assert ScanHeaders(Concat(lines) + (bad + rest), h)
      == After(|Concat(lines)|, HeaderOutcome(h', |bad|, Some(InvalidHeader)));
  }

  lemma BadHeaderLine(bad: string, rest: string, h: HeaderMap)
    requires IsLine(bad, '\n') && !AllSpace(bad) && ':' !in bad
    ensures ScanHeaders(bad + rest, h) == HeaderOutcome(h, |bad|, Some(InvalidHeader))
  {
    LineEndOfLine(bad, '\n', rest);
    assert (bad + rest)[..|bad|] == bad;
    TrimSpaceEmpty(bad);
    TrimSpaceKeeps(bad, ':');
  }

  /** Input that ends inside the header block is an end-of-input error and
      is consumed to the end. */
  lemma HeadersTruncated(lines: seq<string>, tail: string, h: HeaderMap)
    requires AllHeaderLines(lines) && '\n' !in tail
    ensures ScanHeaders(Concat(lines) + tail, h)
            == HeaderOutcome(LastHeader(lines, h), |Concat(lines)| + |tail|, Some(EndOfInput))
  {
    ScanHeaderLines(lines, tail, h);
  }

  /** `s` starts with the header block `lines` + `blank`, which `o` reports. */
  predicate HeaderBlockOf(s: string, o: HeaderOutcome, lines: seq<string>, blank: string, h: HeaderMap) {
    && AllHeaderLines(lines) && IsBlankLine(blank)
    && o.consumed <= |s| && s[..o.consumed] == Concat(lines) + blank
    && o.headers == LastHeader(lines, h)
  }

  /** ONLY IF: whatever `parseHeaders` accepts is header lines and a blank
      line, and it leaves the last line's field. */
  lemma {:induction false} HeaderBlockSound(s: string, h: HeaderMap) returns (lines: seq<string>, blank: string)
    requires ScanHeaders(s, h).err.None?
    ensures HeaderBlockOf(s, ScanHeaders(s, h), lines, blank, h)
    decreases |s|
  {
    var k := HeaderLineStep(s, h);
    var line := s[..k];
    if AllSpace(line) {
      lines, blank := [], line;
      assert Concat(lines) + blank == blank;
    } else {
      var f := Field(line);
      var h' := Some(map[f.0 := f.1]);
      var lines';
      lines', blank := HeaderBlockSound(s[k..], h');
      ConsHeaderBlockAt(s, k, h, ScanHeaders(s[k..], h'), lines', blank);
      lines := [line] + lines';
    }
  }

  /** The first line `parseHeaders` reads from input it accepts: either the
      blank line that ends the block, or a header line whose field becomes
      the whole map. */
  lemma HeaderLineStep(s: string, h: HeaderMap) returns (k: nat)
    requires ScanHeaders(s, h).err.None?
    ensures 0 < k <= |s| && IsLine(s[..k], '\n') && LineEnd(s, '\n') == Some(k)
    ensures AllSpace(s[..k]) ==> ScanHeaders(s, h) == HeaderOutcome(h, k, None)
    ensures !AllSpace(s[..k]) ==> IsHeaderLine(s[..k])
    ensures !AllSpace(s[..k]) ==>
      var f := Field(s[..k]);
      ScanHeaders(s, h) == After(k, ScanHeaders(s[k..], Some(map[f.0 := f.1])))
  {
    k := LineEnd(s, '\n').value;
    var line := s[..k];
    LineEndIsLine(s, '\n');
    TrimSpaceEmpty(line);
    if !AllSpace(line) {
      AcceptedLineHasColon(s, h, k);
      ScanHeadersStep(s, h, k);
    }
  }

  /** A non-blank line `parseHeaders` gets past holds a colon. */
  lemma AcceptedLineHasColon(s: string, h: HeaderMap, k: nat)
    requires LineEnd(s, '\n') == Some(k) && !AllSpace(s[..k])
    ensures ScanHeaders(s, h).err.None? ==> ':' in s[..k]
  {
    TrimSpaceEmpty(s[..k]);
    TrimSpaceKeeps(s[..k], ':');
  }

  /** A header line in front of a header block makes a longer block. */
  lemma ConsHeaderBlock(line: string, rest: string, h: HeaderMap, o': HeaderOutcome, lines': seq<string>, blank: string)
    requires IsHeaderLine(line)
    requires HeaderBlockOf(rest, o', lines', blank, Some(map[Field(line).0 := Field(line).1]))
    ensures HeaderBlockOf(line + rest, After(|line|, o'), [line] + lines', blank, h)
  {
    HeaderLinesCons(line, lines', h);
    PrefixConcat(line, rest, o'.consumed, Concat(lines'), blank);
  }

  lemma ConsHeaderBlockAt(s: string, k: nat, h: HeaderMap, o': HeaderOutcome, lines': seq<string>, blank: string)
    requires 0 < k <= |s| && IsHeaderLine(s[..k])
    requires HeaderBlockOf(s[k..], o', lines', blank, Some(map[Field(s[..k]).0 := Field(s[..k]).1]))
    ensures HeaderBlockOf(s, After(k, o'), [s[..k]] + lines', blank, h)
  {
    ConsHeaderBlock(s[..k], s[k..], h, o', lines', blank);
    assert s[..k] + s[k..] == s;
  }

  lemma PrefixConcat(line: string, rest: string, n: nat, c: string, blank: string)
    requires n <= |rest| && rest[..n] == c + blank
    ensures (line + rest)[..|line| + n] == (line + c) + blank
  {
    assert (line + rest)[..|line| + n] == line + rest[..n];
  }

  /** Putting a header line in front of header lines. */
  lemma HeaderLinesCons(line: string, lines': seq<string>, h: HeaderMap)
    requires IsHeaderLine(line) && AllHeaderLines(lines')
    ensures AllHeaderLines([line] + lines')
    ensures Concat([line] + lines') == line + Concat(lines')
    ensures LastHeader([line] + lines', h) == LastHeader(lines', Some(map[Field(line).0 := Field(line).1]))
  {
    var lines := [line] + lines';
    assert lines[1..] == lines';
    assert AllHeaderLines(lines) by {
      forall i | 0 <= i < |lines| ensures IsHeaderLine(lines[i]) {
        if i > 0 { assert lines[i] == lines'[i - 1]; }
      }
    }
    assert lines' != [] ==> lines[|lines| - 1] == lines'[|lines'| - 1];
  }

  /** `parseFirstLine` judges a line field by field once it has exactly
      two spaces: the method, then the URL, then the trimmed protocol. */
  lemma FirstLineFields(m: string, url: string, raw: string)
    requires ' ' !in m && ' ' !in url && ' ' !in raw
    ensures ParseFirstLine(m + " " + url + " " + raw) ==
      if m != "GET" then Err(InvalidMethod)
      else if !HasPrefix(url, "/") then Err(InvalidURL)
      else if TrimSpace(raw) != "HTTP/1.1" then Err(InvalidProtocol)
      else Ok(FirstLine("GET", url, "HTTP/1.1"))
  {
    var line := m + " " + url + " " + raw;
    assert line == m + [' '] + (url + [' '] + raw);
    SplitAfter(m, ' ', url + [' '] + raw);
    SplitAfter(url, ' ', raw);
    SplitWhole(raw, ' ');
    assert Split(line, ' ') == [m, url, raw];
  }

  /** Every accepted request line is `GET <url> <raw>` with `raw` trimming
      to `HTTP/1.1`. */
  lemma FirstLineSound(line: string)
    requires ParseFirstLine(line).Ok?
    ensures var url := ParseFirstLine(line).value.url;
      && |"GET " + url + " "| <= |line|
      && line == "GET " + url + " " + line[|url| + 5..]
      && ' ' !in line[|url| + 5..] && TrimSpace(line[|url| + 5..]) == "HTTP/1.1"
  {
    var parts := Split(line, ' ');
    var url, raw := parts[1], parts[2];
    assert ' ' !in parts[2];
    JoinThree(parts, ' ');
    assert line == "GET " + url + " " + raw;
    assert line[|url| + 5..] == raw;
  }

  lemma JoinThree(parts: seq<string>, c: char)
    requires |parts| == 3
    ensures Join(parts, c) == parts[0] + [c] + parts[1] + [c] + parts[2]
  {
    assert parts[1..][1..] == [parts[2]];
    assert Join(parts[1..], c) == parts[1] + [c] + parts[2];
  }

  /** The single field the header map keeps, read the way `ReadRequest`
      reads `Host` and `Connection`. */
  function LastFieldValue(lines: seq<string>, name: string): string {
    if lines == [] then ""
    else
      var f := Field(lines[|lines| - 1]);
      if f.0 == name then f.1 else ""
  }

  /** A well-formed request is read in full: the request line and the
      header block are consumed and the rest is left unread; `Host` and
      `Close` come from the last header line alone. */
  lemma RequestAccepted(url: string, raw: string, lines: seq<string>, blank: string, rest: string)
    requires IsLine("GET " + url + " " + raw, '\n')
    requires ' ' !in url && ' ' !in raw && HasPrefix(url, "/") && TrimSpace(raw) == "HTTP/1.1"
    requires AllHeaderLines(lines) && IsBlankLine(blank)
    ensures var first := "GET " + url + " " + raw;
      ScanRequest(first + Concat(lines) + blank + rest) == ReadOutcome(
        Ok(RequestValue("GET", url, "HTTP/1.1", LastHeader(lines, None),
                        LastFieldValue(lines, "Host"), LastFieldValue(lines, "Connection") == "close")),
        |first| + |Concat(lines)| + |blank|)
  {
    var first := "GET " + url + " " + raw;
    var c := Concat(lines);
    var tail := c + blank + rest;
    var s := first + c + blank + rest;
    AppendAssoc(first, c, blank);
    AppendAssoc(first, c + blank, rest);
    assert s == first + tail;
    RequestLineAccepted(url, raw, tail);
    ScanRequestAfterFirstLine(s, |first|, FirstLine("GET", url, "HTTP/1.1"));
    HeaderBlockAccepted(lines, blank, rest, None);
    assert ScanHeaders(tail, None) == HeaderOutcome(LastHeader(lines, None), |c| + |blank|, None);
    LastFieldLookup(lines, "Host");
    LastFieldLookup(lines, "Connection");
  }

  /** A good request line is read as one line and accepted. */
  lemma RequestLineAccepted(url: string, raw: string, tail: string)
    requires IsLine("GET " + url + " " + raw, '\n')
    requires ' ' !in url && ' ' !in raw && HasPrefix(url, "/") && TrimSpace(raw) == "HTTP/1.1"
    ensures var first := "GET " + url + " " + raw;
      && LineEnd(first + tail, '\n') == Some(|first|)
      && (first + tail)[..|first|] == first && (first + tail)[|first|..] == tail
      && ParseFirstLine(first) == Ok(FirstLine("GET", url, "HTTP/1.1"))
  {
    var first := "GET " + url + " " + raw;
    LineEndOfLine(first, '\n', tail);
    assert (first + tail)[..|first|] == first && (first + tail)[|first|..] == tail;
    GoodFirstLine(url, raw);
  }

  lemma GoodFirstLine(url: string, raw: string)
    requires ' ' !in url && ' ' !in raw && HasPrefix(url, "/") && TrimSpace(raw) == "HTTP/1.1"
    ensures ParseFirstLine("GET " + url + " " + raw) == Ok(FirstLine("GET", url, "HTTP/1.1"))
  {
    FirstLineFields("GET", url, raw);
    assert "GET" + " " == "GET ";
  }

  lemma LastFieldLookup(lines: seq<string>, name: string)
    ensures Lookup(LastHeader(lines, None), name) == LastFieldValue(lines, name)
  {
  }

  /** A request line that `parseFirstLine` rejects ends the read right after
      that line, with its error. */
  lemma RequestLineRejected(line: string, rest: string)
    requires IsLine(line, '\n') && ParseFirstLine(line).Err?
    ensures ScanRequest(line + rest) == ReadOutcome(Err(ParseFirstLine(line).error), |line|)
  {
    LineEndOfLine(line, '\n', rest);
    assert (line + rest)[..|line|] == line;
  }

  /** A header-block error after a good request line is returned as it is,
      with everything up to it consumed. */
  lemma RequestHeadersRejected(line: string, rest: string)
    requires IsLine(line, '\n') && ParseFirstLine(line).Ok? && ScanHeaders(rest, None).err.Some?
    ensures var hs := ScanHeaders(rest, None);
      ScanRequest(line + rest) == ReadOutcome(Err(hs.err.value), |line| + hs.consumed)
  {
    LineEndOfLine(line, '\n', rest);
    assert (line + rest)[..|line|] == line && (line + rest)[|line|..] == rest;
  }

  /** With the header map rebuilt for every line, a request that asks for
      the connection to be closed has lost its `Host`: its only header is
      `Connection: close`. */
  lemma CloseLosesHost(s: string)
    requires ScanRequest(s).result.Ok? && ScanRequest(s).result.value.close
    ensures ScanRequest(s).result.value.host == ""
    ensures ScanRequest(s).result.value.headers == Some(map["Connection" := "close"])
  {
    var hs := AcceptedHeaders(s);
    SingletonMap(hs.headers.value, "Connection");
  }

  /** The header block of an accepted request, which its `Host`, `Close`
      and header map come from. */
  lemma AcceptedHeaders(s: string) returns (hs: HeaderOutcome)
    requires ScanRequest(s).result.Ok?
    ensures var r := ScanRequest(s).result.value;
      && r.headers == hs.headers && hs.err.None? && (hs.headers.None? || |hs.headers.value| == 1)
      && r.host == Lookup(hs.headers, "Host") && r.close == (Lookup(hs.headers, "Connection") == "close")
  {
    var k := LineEnd(s, '\n').value;
    var first := ParseFirstLine(s[..k]).value;
    ScanRequestAfterFirstLine(s, k, first);
    hs := ScanHeaders(s[k..], None);
  }

  /** A map with one entry is that entry alone. */
  lemma SingletonMap(m: map<string, string>, key: string)
    requires |m| == 1 && key in m
    ensures m == map[key := m[key]]
  {
    if exists x :: x in m && x != key {
      var x :| x in m && x != key;
      assert {x, key} <= m.Keys;
      SubsetCard({x, key}, m.Keys);
      assert false;
    }
    assert m.Keys == {key};
  }

  lemma SubsetCard<T>(a: set<T>, b: set<T>)
    requires a <= b
    ensures |a| <= |b|
  {
    if a != {} {
      var x :| x in a;
      SubsetCard(a - {x}, b - {x});
    }
  }
}

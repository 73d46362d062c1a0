/**
 * The buffered reader the request parser reads from, reduced to what the
 * parser observes: the characters the peer sends, in order, and how many of
 * them have been consumed so far.
 */
module Bufio {
  import opened Wrappers
  import opened GoStrings

  /** The length of the first line of `s` ending in `delim`, delimiter
      included, or `None` when `s` holds no `delim` at all. */
  function LineEnd(s: string, delim: char): (k: Option<nat>)
    ensures k.None? <==> delim !in s
    ensures k.Some? ==> 0 < k.value <= |s| && s[k.value - 1] == delim && delim !in s[..k.value - 1]
  {
    if delim in s then Some(IndexOf(s, delim) + 1) else None
  }

  /** `line` is one whole line: it ends in its only `delim`. */
  predicate IsLine(line: string, delim: char) {
    |line| > 0 && line[|line| - 1] == delim && delim !in line[..|line| - 1]
  }

  /** What the reader stops at is a whole line. */
  lemma LineEndIsLine(s: string, delim: char)
    requires LineEnd(s, delim).Some?
    ensures IsLine(s[..LineEnd(s, delim).value], delim)
  {
    var k := LineEnd(s, delim).value;
    assert s[..k][..k - 1] == s[..k - 1];
  }

  /** Whatever follows a whole line, the reader stops right after that line. */
  lemma LineEndOfLine(line: string, delim: char, rest: string)
    requires IsLine(line, delim)
    ensures LineEnd(line + rest, delim) == Some(|line|)
  {
    var s := line + rest;
    assert s[..|line| - 1] == line[..|line| - 1];
    assert s[|line| - 1] == delim;
  }

  /** `bufio.Reader` over a connection: `data` is everything the peer sends,
      `pos` how much of it has been consumed. */
  class Reader {
    const data: string
    var pos: nat

    ghost predicate Valid()
      reads this
    {
      pos <= |data|
    }

    /** The input not consumed yet. */
    function Rest(): string
      reads this
      requires Valid()
    {
      data[pos..]
    }

    constructor (input: string)
      ensures Valid() && data == input && pos == 0
    {
      data := input;
      pos := 0;
    }

    /** `ReadString(delim)`: the input up to and including the next `delim`.
        When no `delim` is left, it consumes and returns everything that
        remains and reports end of input (`eof`), as Go's `io.EOF`. */
    method ReadString(delim: char) returns (line: string, eof: bool)
      requires Valid()
      modifies this
      ensures Valid()
      ensures match LineEnd(old(Rest()), delim)
        case None => eof && line == old(Rest()) && pos == |data|
        case Some(k) => !eof && line == old(Rest())[..k] && pos == old(pos) + k && Rest() == old(Rest())[k..]
    {
      var i := pos;
      while i < |data| && data[i] != delim
        invariant pos <= i <= |data|
        invariant delim !in data[pos..i]
      {
        i := i + 1;
      }
      if i < |data| {
        assert data[pos..][..i + 1 - pos] == data[pos..i + 1];
        assert data[pos..i + 1][..i - pos] == data[pos..i];
        line, eof := data[pos..i + 1], false;
        pos := i + 1;
      } else {
        assert data[pos..i] == data[pos..];
        line, eof := data[pos..], true;
        pos := |data|;
      }
    }
  }
}

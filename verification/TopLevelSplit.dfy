/** Splitting the text of a list of literals on separators outside quotes. */
module TopLevelSplit {

  import opened Wrappers

  predicate IsQuote(c: char) { c == '"' || c == '\'' }

  /** The quote that is open after a character, given the one open before it. */
  function After(open: Option<char>, c: char): Option<char> {
    if open.Some? then (if c == open.value then None else open)
    else if IsQuote(c) then Some(c) else None
  }

  /** The quote that is open at the end of a text. */
  function Open(s: string): Option<char> {
    if s == [] then None else After(Open(s[..|s| - 1]), s[|s| - 1])
  }

  /** No separator in it is outside quotes. */
  predicate Whole(part: string, sep: char) {
    forall i :: 0 <= i < |part| && part[i] == sep && !IsQuote(sep) ==> Open(part[..i]).Some?
  }

  function Join(parts: seq<string>, sep: char): string
    requires parts != []
  {
    if |parts| == 1 then parts[0] else Join(parts[..|parts| - 1], sep) + [sep] + parts[|parts| - 1]
  }

  /** The parts, none of which could be split further, each but the last ending outside quotes. */
  ghost predicate Split(s: string, sep: char, parts: seq<string>) {
    && parts != [] && Join(parts, sep) == s
    && (forall i :: 0 <= i < |parts| ==> Whole(parts[i], sep))
    && (forall i :: 0 <= i < |parts| - 1 ==> Open(parts[i]).None?)
  }

  lemma WholeAppend(part: string, c: char, sep: char)
    requires Whole(part, sep) && (c == sep && !IsQuote(sep) ==> Open(part).Some?)
    ensures Whole(part + [c], sep) && Open(part + [c]) == After(Open(part), c)
  {
    var more := part + [c];
    assert more[..|part|] == part;
    forall i | 0 <= i < |more| && more[i] == sep && !IsQuote(sep) ensures Open(more[..i]).Some? {
      if i < |part| {
        assert more[..i] == part[..i];
      }
    }
  }

  method SplitTopLevel(s: string, sep: char) returns (parts: seq<string>)
    ensures Split(s, sep, parts)
  {
    var done: seq<string>, buf: string, open: Option<char> := [], [], None;
    for i := 0 to |s|
      invariant open == Open(buf)
      invariant Join(done + [buf], sep) == s[..i]
      invariant Whole(buf, sep) && forall k :: 0 <= k < |done| ==> Whole(done[k], sep) && Open(done[k]).None?
    {
      var c := s[i];
      assert s[..i + 1] == s[..i] + [c];
      assert (done + [buf])[..|done|] == done;
      if open.Some? {
        WholeAppend(buf, c, sep);
        JoinGrows(done, buf, c, sep);
        buf := buf + [c];
        if c == open.value {
          open := None;
        }
      } else if IsQuote(c) {
        WholeAppend(buf, c, sep);
        JoinGrows(done, buf, c, sep);
        open := Some(c);
        buf := buf + [c];
      } else if c == sep {
        JoinNext(done, buf, sep);
        done, buf := done + [buf], [];
      } else {
        WholeAppend(buf, c, sep);
        JoinGrows(done, buf, c, sep);
        buf := buf + [c];
      }
    }
    assert s[..|s|] == s;
    parts := done + [buf];
  }

  lemma JoinGrows(done: seq<string>, buf: string, c: char, sep: char)
    ensures Join(done + [buf + [c]], sep) == Join(done + [buf], sep) + [c]
  {
    assert (done + [buf + [c]])[..|done|] == done == (done + [buf])[..|done|];
    if done == [] {
      assert done + [buf] == [buf] && done + [buf + [c]] == [buf + [c]];
    }
  }

  lemma JoinNext(done: seq<string>, buf: string, sep: char)
    ensures Join(done + [buf] + [[]], sep) == Join(done + [buf], sep) + [sep]
  {
    var more := done + [buf] + [[]];
    assert more[..|more| - 1] == done + [buf];
  }

  // ----- there is one way to split -----

  lemma {:induction false} JoinFront(parts: seq<string>, sep: char)
    requires |parts| > 1
    ensures Join(parts, sep) == parts[0] + [sep] + Join(parts[1..], sep)
    decreases |parts|
  {
    if |parts| > 2 {
      var front := parts[..|parts| - 1];
      JoinFront(front, sep);
      assert front[1..] == parts[1..][..|parts| - 2];
    }
  }

  /** The first part ends at the first separator outside quotes. */
  lemma FirstPart(s: string, sep: char, parts: seq<string>, other: seq<string>)
    requires !IsQuote(sep) && Split(s, sep, parts) && Split(s, sep, other)
    ensures |parts[0]| <= |other[0]|
  {
    if |other| > 1 {
      JoinFront(other, sep);
    }
    if |parts| > 1 {
      JoinFront(parts, sep);
    }
    var k := |other[0]|;
    assert parts[0] == s[..|parts[0]|] && other[0] == s[..k];
    assert k <= |parts[0]| ==> parts[0][..k] == other[0];
  }

  lemma {:induction false} SplitIsUnique(s: string, sep: char, parts: seq<string>, other: seq<string>)
    requires !IsQuote(sep) && Split(s, sep, parts) && Split(s, sep, other)
    ensures parts == other
    decreases |s|
  {
    FirstPart(s, sep, parts, other);
    FirstPart(s, sep, other, parts);
    if |parts| > 1 {
      JoinFront(parts, sep);
    }
    if |other| > 1 {
      JoinFront(other, sep);
    }
    assert parts[0] == s[..|parts[0]|] == other[0];
    if |parts| > 1 {
      var rest := s[|parts[0]| + 1..];
      assert rest == Join(parts[1..], sep) == Join(other[1..], sep);
      SplitIsUnique(rest, sep, parts[1..], other[1..]);
      assert parts == [parts[0]] + parts[1..] && other == [other[0]] + other[1..];
    }
  }
}

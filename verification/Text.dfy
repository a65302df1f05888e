/** Splitting, joining and trimming of text, as the Go and Python standard libraries do it. */
module Text {
  import opened Wrappers

  /** The text before the first c, or all of it. */
  function Before(s: string, c: char): (r: string)
    ensures c !in r && r <= s
    ensures c !in s ==> r == s
    ensures c in s ==> |r| < |s| && s[|r|] == c
  {
    if s == "" || s[0] == c then "" else [s[0]] + Before(s[1..], c)
  }

  /** The pieces of s between occurrences of c: strings.Split and str.split with one character. */
  function Split(s: string, c: char): (parts: seq<string>)
    ensures parts != []
    decreases |s|
  {
    var first := Before(s, c);
    if c in s then [first] + Split(s[|first| + 1..], c) else [first]
  }

  function Join(parts: seq<string>, sep: string): string {
    if parts == [] then "" else if |parts| == 1 then parts[0] else parts[0] + sep + Join(parts[1..], sep)
  }

  lemma {:induction false} SplitParts(s: string, c: char)
    ensures forall part | part in Split(s, c) :: c !in part
    decreases |s|
  {
    if c in s { SplitParts(s[|Before(s, c)| + 1..], c); }
  }

  lemma BeforeAppend(s: string, c: char, rest: string)
    requires c !in s
    ensures Before(s + [c] + rest, c) == s
  {
    if s != "" {
      BeforeAppend(s[1..], c, rest);
      assert (s + [c] + rest)[1..] == s[1..] + [c] + rest;
    }
  }

  lemma JoinCons(first: string, parts: seq<string>, sep: string)
    requires parts != []
    ensures Join([first] + parts, sep) == first + sep + Join(parts, sep)
  {
    assert ([first] + parts)[1..] == parts;
  }

  lemma AtFirst(s: string, first: string, c: char)
    requires first <= s && |first| < |s| && s[|first|] == c
    ensures s == first + [c] + s[|first| + 1..]
  {
  }

  lemma {:induction false} JoinSplit(s: string, c: char)
    ensures Join(Split(s, c), [c]) == s
    decreases |s|
  {
    if c in s {
      var first := Before(s, c);
      var rest := s[|first| + 1..];
      JoinSplit(rest, c);
      JoinCons(first, Split(rest, c), [c]);
      AtFirst(s, first, c);
    }
  }

  lemma {:induction false} SplitJoin(parts: seq<string>, c: char)
    requires parts != [] && forall part | part in parts :: c !in part
    ensures Split(Join(parts, [c]), c) == parts
  {
    var s := Join(parts, [c]);
    if |parts| > 1 {
      SplitJoin(parts[1..], c);
      BeforeAppend(parts[0], c, Join(parts[1..], [c]));
      assert s == parts[0] + [c] + Join(parts[1..], [c]);
      assert s[|parts[0]| + 1..] == Join(parts[1..], [c]);
      assert s[|parts[0]|] == c;
    }
  }

  lemma SplitAppend(first: string, c: char, rest: string)
    requires c !in first
    ensures Split(first + [c] + rest, c) == [first] + Split(rest, c)
  {
    BeforeAppend(first, c, rest);
    var s := first + [c] + rest;
    assert s[|first|] == c;
    assert s[|first| + 1..] == rest;
  }

  // Unicode white space, as unicode.IsSpace.
  predicate IsSpace(c: char) {
    || c == ' ' || '\t' <= c <= '\r' || c == '\U{0085}' || c == '\U{00A0}' || c == '\U{1680}'
    || '\U{2000}' <= c <= '\U{200A}' || c == '\U{2028}' || c == '\U{2029}' || c == '\U{202F}'
    || c == '\U{205F}' || c == '\U{3000}'
  }

  function TrimLeft(s: string): (r: string)
    ensures r == "" || !IsSpace(r[0])
    ensures |r| <= |s| && r == s[|s| - |r|..]
  {
    if s != "" && IsSpace(s[0]) then TrimLeft(s[1..]) else s
  }

  function TrimRight(s: string): (r: string)
    ensures r == "" || !IsSpace(r[|r| - 1])
    ensures r <= s
  {
    if s != "" && IsSpace(s[|s| - 1]) then TrimRight(s[..|s| - 1]) else s
  }

  /** strings.TrimSpace */
  function Trim(s: string): (r: string)
    ensures Trimmed(r)
    ensures Trimmed(s) ==> r == s
  {
    TrimRight(TrimLeft(s))
  }

  lemma TrimAddsNothing(s: string, c: char)
    requires c !in s
    ensures c !in Trim(s)
  {
  }

  predicate Trimmed(s: string) {
    s == "" || (!IsSpace(s[0]) && !IsSpace(s[|s| - 1]))
  }

  function Mapped<T, U>(f: T -> U, s: seq<T>): (r: seq<U>)
    ensures |r| == |s|
  {
    seq(|s|, i requires 0 <= i < |s| => f(s[i]))
  }

  lemma MappedAppend<T, U>(f: T -> U, a: seq<T>, b: seq<T>)
    ensures Mapped(f, a + b) == Mapped(f, a) + Mapped(f, b)
  {
  }

  function Concat(parts: seq<string>): string {
    if parts == [] then "" else parts[0] + Concat(parts[1..])
  }

  lemma ConcatAppend(a: seq<string>, b: seq<string>)
    ensures Concat(a + b) == Concat(a) + Concat(b)
  {
    if a == [] {
      assert a + b == b;
    } else {
      assert (a + b)[1..] == a[1..] + b;
    }
  }

  /** Where two adjacent occurrences of c begin first, if anywhere. */
  function PairAt(s: string, c: char): (r: Option<nat>)
    ensures r.Some? ==> r.value + 2 <= |s|
  {
    if |s| < 2 then None
    else if s[0] == c && s[1] == c then Some(0)
    else
      match PairAt(s[1..], c)
      case None => None
      case Some(n) => Some(n + 1)
  }

  // A text with which no pair begins when one c, or more, follows.
  predicate Unpaired(s: string, c: char) {
    PairAt(s, c).None? && (s == "" || s[|s| - 1] != c)
  }

  lemma {:induction false} PairAfter(s: string, c: char, rest: string)
    requires Unpaired(s, c)
    ensures PairAt(s + [c, c] + rest, c) == Some(|s|)
  {
    var t := s + [c, c] + rest;
    if s != "" {
      assert t[0] == s[0] && t[1..] == s[1..] + [c, c] + rest;
      if |s| > 1 { assert t[1] == s[1]; }
      PairAfter(s[1..], c, rest);
    }
  }

  lemma {:induction false} BeforePair(s: string, c: char)
    requires PairAt(s, c).Some?
    ensures var n := PairAt(s, c).value;
            s == s[..n] + [c, c] + s[n + 2..] && Unpaired(s[..n], c)
  {
    var n := PairAt(s, c).value;
    if n > 0 {
      BeforePair(s[1..], c);
      assert s[1..][..n - 1] == s[..n][1..];
      if n > 1 { assert s[1..][n - 2] == s[n - 1]; }
    }
  }
}

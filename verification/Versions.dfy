/**
 Package versions: how a build chooses the version of a package (platform/bazel/version-compute.py), how the
 choices are remembered from one upload to the next (platform/bazel/cache-compute.py and
 platform/upload/src/doupload.py), and the order of versions by section 5.6.12 of the Debian Policy Manual.
 */
module Versions {
  import opened Wrappers
  import opened Text

  // ---- Numbers ----

  predicate IsDigit(c: char) {
    '0' <= c <= '9'
  }

  predicate OnlyDigits(s: string) {
    forall i | 0 <= i < |s| :: IsDigit(s[i])
  }

  predicate Digits(s: string) {
    s != "" && OnlyDigits(s)
  }

  // int(s)
  function Value(s: string): nat
    requires OnlyDigits(s)
  {
    if s == "" then 0
    else
      var last := s[|s| - 1];
      assert IsDigit(last);
      10 * Value(s[..|s| - 1]) + (last - '0') as nat
  }

  // str(n)
  function Decimal(n: nat): (s: string)
    ensures Digits(s) && Value(s) == n
  {
    var last := '0' + (n % 10) as char;
    if n < 10 then
      assert [last][..0] == "";
      [last]
    else
      var s := Decimal(n / 10) + [last];
      assert s[..|s| - 1] == Decimal(n / 10);
      s
  }

  // ---- Versions ----

  predicate AllDigits(parts: seq<string>) {
    forall i | 0 <= i < |parts| :: Digits(parts[i])
  }

  predicate Dotted(version: string) {
    AllDigits(Split(version, '.'))
  }

  function Numbers(parts: seq<string>): (numbers: seq<nat>)
    requires AllDigits(parts)
    ensures |numbers| == |parts| && forall i | 0 <= i < |parts| :: numbers[i] == Value(parts[i])
  {
    if parts == [] then [] else [Value(parts[0])] + Numbers(parts[1..])
  }

  function NumbersOf(version: string): seq<nat>
    requires Dotted(version)
  {
    Numbers(Split(version, '.'))
  }

  predicate IsLater(a: seq<nat>, b: seq<nat>) {
    if a == [] then false
    else if b == [] then true
    else if a[0] == b[0] then IsLater(a[1..], b[1..])
    else a[0] > b[0]
  }

  function LatestVersion(a: string, b: string): string
    requires Dotted(a) && Dotted(b)
  {
    if IsLater(NumbersOf(a), NumbersOf(b)) then a else b
  }

  // None is a failed assertion: the last number is not written as str would write it.
  method IncrementVersion(x: string) returns (r: Option<string>)
    requires Dotted(x)
    ensures r == Incremented(x)
    ensures r.Some? ==> Dotted(r.value) && NumbersOf(r.value) == OneMore(NumbersOf(x))
    ensures r.None? <==> Padded(LastPart(x))
  {
    var parts := Split(x, '.');
    var last := |parts| - 1;
    CanonicalExactly(parts[last]);
    if parts[last] != Decimal(Value(parts[last])) { return None; }
    IncrementAddsOne(x);
    var number := Decimal(Value(parts[last]) + 1);
    parts := parts[last := number];
    r := Some(Join(parts, "."));
  }

  // The list with one added to its last number.
  function OneMore(numbers: seq<nat>): seq<nat>
    requires numbers != []
  {
    numbers[|numbers| - 1 := numbers[|numbers| - 1] + 1]
  }

  function LastPart(version: string): string {
    var parts := Split(version, '.');
    parts[|parts| - 1]
  }

  // More than one digit, of which the first is a zero.
  predicate Padded(digits: string) {
    |digits| > 1 && digits[0] == '0'
  }

  function Incremented(x: string): Option<string>
    requires Dotted(x)
  {
    var parts := Split(x, '.');
    var last := |parts| - 1;
    if parts[last] != Decimal(Value(parts[last])) then None
    else Some(Join(parts[last := Decimal(Value(parts[last]) + 1)], "."))
  }

  // ---- What increment_version does ----

  lemma InitDigits(s: string)
    requires OnlyDigits(s) && |s| > 1
    ensures var init := s[..|s| - 1];
            && Digits(init) && init[0] == s[0] && IsDigit(s[|s| - 1])
            && Value(s) == 10 * Value(init) + (s[|s| - 1] - '0') as nat
  {
    assert forall i | 0 <= i < |s| :: IsDigit(s[i]);
  }

  lemma DecimalSnoc(n: nat, c: char)
    requires n > 0 && IsDigit(c)
    ensures Decimal(10 * n + (c - '0') as nat) == Decimal(n) + [c]
  {
  }

  // A number without leading zeros is what str writes for its value.
  lemma {:induction false} DecimalOfValue(s: string)
    requires Digits(s) && !Padded(s)
    ensures Decimal(Value(s)) == s
  {
    assert IsDigit(s[|s| - 1]);
    if |s| > 1 {
      var init := s[..|s| - 1];
      InitDigits(s);
      DecimalOfValue(init);
      PositiveValue(init);
      DecimalSnoc(Value(init), s[|s| - 1]);
      assert s == init + [s[|s| - 1]];
    } else {
      assert s == [s[0]] && Value(s[..0]) == 0;
    }
  }

  lemma {:induction false} PositiveValue(s: string)
    requires Digits(s) && s[0] != '0'
    ensures Value(s) > 0
  {
    assert IsDigit(s[0]);
    if |s| > 1 {
      InitDigits(s);
      PositiveValue(s[..|s| - 1]);
    }
  }

  lemma {:induction false} DecimalIsNotPadded(n: nat)
    ensures !Padded(Decimal(n)) && (n > 0 ==> Decimal(n)[0] != '0')
  {
    if n >= 10 { DecimalIsNotPadded(n / 10); }
  }

  /** The assertion holds exactly of numbers without leading zeros. */
  lemma CanonicalExactly(s: string)
    requires Digits(s)
    ensures s == Decimal(Value(s)) <==> !Padded(s)
  {
    DecimalIsNotPadded(Value(s));
    if !Padded(s) { DecimalOfValue(s); }
  }

  lemma NoDotInDigits(s: string)
    requires OnlyDigits(s)
    ensures '.' !in s
  {
    assert forall i | 0 <= i < |s| :: IsDigit(s[i]);
  }

  /** The last number goes up by one, and the others stay. */
  lemma IncrementAddsOne(x: string)
    requires Dotted(x) && Incremented(x).Some?
    ensures Dotted(Incremented(x).value) && NumbersOf(Incremented(x).value) == OneMore(NumbersOf(x))
  {
    var parts := Split(x, '.');
    var last := |parts| - 1;
    var number := Decimal(Value(parts[last]) + 1);
    SplitParts(x, '.');
    NoDotInDigits(number);
    SplitJoin(parts[last := number], '.');
    LastNumber(parts, number);
  }

  lemma LastNumber(parts: seq<string>, number: string)
    requires parts != [] && AllDigits(parts) && Digits(number)
    ensures var parts' := parts[|parts| - 1 := number];
            AllDigits(parts') && Numbers(parts') == Numbers(parts)[|parts| - 1 := Value(number)]
  {
  }

  // ---- The order of versions ----

  /** Whatever the lists, exactly one of the two is later, or they are equal; and the order is transitive. */
  lemma {:induction false} StrictTotalOrder(a: seq<nat>, b: seq<nat>)
    ensures !IsLater(a, a)
    ensures a == b || IsLater(a, b) || IsLater(b, a)
    ensures !(IsLater(a, b) && IsLater(b, a))
  {
    if a != [] { NotLaterThanItself(a); }
    if a != [] && b != [] && a[0] == b[0] {
      StrictTotalOrder(a[1..], b[1..]);
      assert a == [a[0]] + a[1..] && b == [b[0]] + b[1..];
    }
  }

  lemma {:induction false} NotLaterThanItself(a: seq<nat>)
    ensures !IsLater(a, a)
  {
    if a != [] { NotLaterThanItself(a[1..]); }
  }

  lemma {:induction false} LaterIsTransitive(a: seq<nat>, b: seq<nat>, c: seq<nat>)
    requires IsLater(a, b) && IsLater(b, c)
    ensures IsLater(a, c)
  {
    if b != [] && c != [] && a[0] == b[0] && b[0] == c[0] { LaterIsTransitive(a[1..], b[1..], c[1..]); }
  }

  // ---- The Debian order ----

  function NonDigits(s: string): (r: string)
    ensures r <= s && (forall i | 0 <= i < |r| :: !IsDigit(r[i]))
    ensures |r| < |s| ==> IsDigit(s[|r|])
  {
    if s == "" || IsDigit(s[0]) then "" else [s[0]] + NonDigits(s[1..])
  }

  function DigitsOf(s: string): (r: string)
    ensures r <= s && OnlyDigits(r)
    ensures |r| < |s| ==> !IsDigit(s[|r|])
  {
    if s == "" || !IsDigit(s[0]) then "" else [s[0]] + DigitsOf(s[1..])
  }

  // A tilde sorts before the end of the part, the end before letters, and letters before the rest.
  function Weight(s: string): int {
    if s == "" then 0
    else if s[0] == '~' then -1
    else if 'a' <= s[0] <= 'z' || 'A' <= s[0] <= 'Z' then s[0] as int
    else s[0] as int + 0x110000
  }

  datatype Order = Earlier | Same | Later

  function CompareText(a: string, b: string): Order
    decreases |a| + |b|
  {
    if Weight(a) < Weight(b) then Earlier
    else if Weight(a) > Weight(b) then Later
    else if a == "" || b == "" then Same
    else CompareText(a[1..], b[1..])
  }

  function CompareNumbers(a: nat, b: nat): Order {
    if a < b then Earlier else if a > b then Later else Same
  }

  // The comparison of upstream versions: text and numbers in turn.
  function Compare(a: string, b: string): Order
    decreases |a| + |b|, 1
  {
    var ta, tb := NonDigits(a), NonDigits(b);
    var text := CompareText(ta, tb);
    if text != Same then text else CompareNumberFirst(a[|ta|..], b[|tb|..])
  }

  function CompareNumberFirst(a: string, b: string): Order
    requires NonDigits(a) == NonDigits(b) == ""
    decreases |a| + |b|, 0
  {
    if a == "" && b == "" then Same
    else
      var na, nb := DigitsOf(a), DigitsOf(b);
      var numbers := CompareNumbers(Value(na), Value(nb));
      if numbers != Same then numbers else Compare(a[|na|..], b[|nb|..])
  }

  function OrderOf(a: seq<nat>, b: seq<nat>): Order {
    if IsLater(a, b) then Later else if a == b then Same else Earlier
  }

  lemma {:induction false} DigitsFirst(d: string, rest: string)
    requires Digits(d) && (rest == "" || rest[0] == '.')
    ensures NonDigits(d + rest) == "" && DigitsOf(d + rest) == d
  {
    assert (d + rest)[0] == d[0] && (d + rest)[1..] == d[1..] + rest;
    assert IsDigit(d[0]);
    if |d| > 1 { DigitsFirst(d[1..], rest); } else { assert d[1..] + rest == rest; }
  }

  // What follows the first number, with its dot.
  function Tail(parts: seq<string>): string {
    if |parts| <= 1 then "" else "." + Join(parts[1..], ".")
  }

  lemma FirstNumber(parts: seq<string>)
    requires parts != [] && AllDigits(parts)
    ensures var s := Join(parts, ".");
            && s != "" && NonDigits(s) == "" && DigitsOf(s) == parts[0] && s[|parts[0]|..] == Tail(parts)
  {
    assert Join(parts, ".") == parts[0] + Tail(parts);
    DigitsFirst(parts[0], Tail(parts));
  }

  lemma DotFirst(s: string)
    requires NonDigits(s) == ""
    ensures NonDigits("." + s) == "." && ("." + s)[1..] == s
  {
    assert ("." + s)[1..] == s;
  }

  // With equal numbers in front, what counts is what follows.
  lemma CompareTails(x: string, y: string)
    requires NonDigits(x) == NonDigits(y) == ""
    ensures Compare("." + x, "." + y) == Compare(x, y)
  {
    DotFirst(x);
    DotFirst(y);
    assert "."[1..] == "" && CompareText("", "") == Same;
    assert CompareText(".", ".") == Same;
    assert x[0..] == x && y[0..] == y;
  }

  lemma CompareFirst(a: seq<string>, b: seq<string>)
    requires a != [] && b != [] && AllDigits(a) && AllDigits(b)
    ensures Compare(Join(a, "."), Join(b, ".")) ==
            var first := CompareNumbers(Value(a[0]), Value(b[0]));
            if first != Same then first else Compare(Tail(a), Tail(b))
  {
    FirstNumber(a);
    FirstNumber(b);
    var x, y := Join(a, "."), Join(b, ".");
    assert x[0..] == x && y[0..] == y && CompareText("", "") == Same;
  }

  lemma CompareEnd(a: seq<string>)
    requires |a| > 1 && AllDigits(a)
    ensures Compare(Tail(a), "") == Later && Compare("", Tail(a)) == Earlier
  {
    FirstNumber(a[1..]);
    DotFirst(Join(a[1..], "."));
  }

  lemma {:induction false} DebianOrderOfParts(a: seq<string>, b: seq<string>)
    requires a != [] && b != [] && AllDigits(a) && AllDigits(b)
    ensures Compare(Join(a, "."), Join(b, ".")) == OrderOf(Numbers(a), Numbers(b))
  {
    CompareFirst(a, b);
    OrderOfFirst(Numbers(a), Numbers(b));
    assert Numbers(a)[1..] == Numbers(a[1..]) && Numbers(b)[1..] == Numbers(b[1..]);
    if Value(a[0]) == Value(b[0]) {
      TailsInOrder(a, b);
      if |a| > 1 && |b| > 1 { DebianOrderOfParts(a[1..], b[1..]); }
    }
  }

  lemma TailsInOrder(a: seq<string>, b: seq<string>)
    requires a != [] && b != [] && AllDigits(a) && AllDigits(b)
    ensures Compare(Tail(a), Tail(b)) ==
            if |a| > 1 && |b| > 1 then Compare(Join(a[1..], "."), Join(b[1..], "."))
            else OrderOf(Numbers(a[1..]), Numbers(b[1..]))
  {
    if |a| > 1 && |b| > 1 {
      FirstNumber(a[1..]);
      FirstNumber(b[1..]);
      CompareTails(Join(a[1..], "."), Join(b[1..], "."));
    } else if |a| > 1 {
      CompareEnd(a);
    } else if |b| > 1 {
      CompareEnd(b);
    }
  }

  lemma OrderOfFirst(a: seq<nat>, b: seq<nat>)
    requires a != [] && b != []
    ensures OrderOf(a, b) == if a[0] == b[0] then OrderOf(a[1..], b[1..]) else CompareNumbers(a[0], b[0])
  {
    assert a == [a[0]] + a[1..] && b == [b[0]] + b[1..];
  }

  /** On dotted numbers, is_later is the order of the Debian Policy Manual. */
  lemma AgreesWithDebian(a: string, b: string)
    requires Dotted(a) && Dotted(b)
    ensures Compare(a, b) == OrderOf(NumbersOf(a), NumbersOf(b))
  {
    JoinSplit(a, '.');
    JoinSplit(b, '.');
    DebianOrderOfParts(Split(a, '.'), Split(b, '.'));
  }

  // ---- The production version ----

  function Count(s: string, c: char): nat {
    if s == "" then 0 else (if s[0] == c then 1 else 0) + Count(s[1..], c)
  }

  // ".." in s
  predicate Doubled(s: string) {
    exists i :: 0 < i < |s| && s[i - 1] == s[i] == '.'
  }

  // ".." in "." + s + "."
  predicate Edged(s: string) {
    Doubled("." + s + ".")
  }

  // The assertion about the production version.
  predicate ProductionOk(version: string) {
    && DigitsAndDots(version)
    && (exists i :: 0 <= i < |version| && version[i] != '.')
    && Count(version, '.') == 2 && !Edged(version)
  }

  lemma {:induction false} CountNone(s: string, c: char)
    requires c !in s
    ensures Count(s, c) == 0
  {
    if s != "" { CountNone(s[1..], c); }
  }

  lemma {:induction false} CountAfter(first: string, c: char, rest: string)
    requires c !in first
    ensures Count(first + [c] + rest, c) == 1 + Count(rest, c)
  {
    var s := first + [c] + rest;
    if first == "" {
      assert s[1..] == rest;
    } else {
      CountAfter(first[1..], c, rest);
      assert s[1..] == first[1..] + [c] + rest;
    }
  }

  lemma {:induction false} CountParts(s: string, c: char)
    ensures |Split(s, c)| == Count(s, c) + 1
    decreases |s|
  {
    if c in s {
      var first := Before(s, c);
      var rest := s[|first| + 1..];
      assert s == first + [c] + rest;
      CountAfter(first, c, rest);
      CountParts(rest, c);
    } else {
      CountNone(s, c);
    }
  }

  predicate NonEmpty(parts: seq<string>) {
    forall i | 0 <= i < |parts| :: parts[i] != ""
  }

  lemma DoubledAfter(first: string, tail: string)
    requires '.' !in first && tail != "" && tail[0] == '.'
    ensures Doubled("." + first + tail) <==> first == "" || Doubled(tail)
  {
    var s := "." + first + tail;
    if first == "" {
      assert s[0] == '.' && s[1] == tail[0] == '.';
    } else if Doubled(tail) {
      var i :| 0 < i < |tail| && tail[i - 1] == tail[i] == '.';
      assert s[|first| + i] == tail[i - 1] && s[|first| + i + 1] == tail[i];
    }
  }

  lemma NonEmptyInParts(first: string, rest: seq<string>)
    ensures NonEmpty([first] + rest) <==> first != "" && NonEmpty(rest)
  {
    var all := [first] + rest;
    assert all[0] == first && forall i | 0 <= i < |rest| :: rest[i] == all[i + 1];
  }

  lemma DotsStep(first: string, rest: string, parts: seq<string>)
    requires '.' !in first && (NonEmpty(parts) <==> !Edged(rest))
    ensures NonEmpty([first] + parts) <==> !Edged(first + "." + rest)
  {
    assert "." + (first + "." + rest) + "." == "." + first + ("." + rest + ".");
    DoubledAfter(first, "." + rest + ".");
    NonEmptyInParts(first, parts);
  }

  lemma DotsEnd(s: string)
    requires '.' !in s
    ensures NonEmpty([s]) <==> !Edged(s)
  {
    DoubledAfter(s, ".");
    NonEmptyInParts(s, []);
    assert [s] + [] == [s];
  }

  lemma {:induction false} DotsSeparate(s: string)
    ensures NonEmpty(Split(s, '.')) <==> !Edged(s)
    decreases |s|
  {
    var first := Before(s, '.');
    if '.' in s {
      var rest := s[|first| + 1..];
      assert s == first + "." + rest;
      DotsSeparate(rest);
      DotsStep(first, rest, Split(rest, '.'));
    } else {
      DotsEnd(s);
    }
  }

  predicate DigitsAndDots(s: string) {
    forall i | 0 <= i < |s| :: IsDigit(s[i]) || s[i] == '.'
  }

  lemma DigitsThenDot(first: string, rest: string)
    requires '.' !in first
    ensures DigitsAndDots(first) <==> OnlyDigits(first)
    ensures DigitsAndDots(first + "." + rest) <==> OnlyDigits(first) && DigitsAndDots(rest)
  {
    var s := first + "." + rest;
    assert forall i | 0 <= i < |first| :: s[i] == first[i] && first[i] in first;
    assert forall i | 0 <= i < |rest| :: rest[i] == s[|first| + 1 + i];
    assert forall i | |first| < i < |s| :: s[i] == rest[i - |first| - 1];
  }

  predicate NoOtherThanDigits(parts: seq<string>) {
    forall i | 0 <= i < |parts| :: OnlyDigits(parts[i])
  }

  lemma {:induction false} PartsOfDigits(s: string)
    ensures DigitsAndDots(s) <==> NoOtherThanDigits(Split(s, '.'))
    decreases |s|
  {
    var first := Before(s, '.');
    if '.' in s {
      var rest := s[|first| + 1..];
      PartsOfDigits(rest);
      assert s == first + "." + rest;
      DigitsThenDot(first, rest);
      DigitsInParts(first, Split(rest, '.'));
    } else {
      DigitsThenDot(s, "");
      DigitsInParts(s, []);
      assert Split(s, '.') == [s] + [];
    }
  }

  lemma DigitsInParts(first: string, rest: seq<string>)
    ensures NoOtherThanDigits([first] + rest) <==> OnlyDigits(first) && NoOtherThanDigits(rest)
  {
    var all := [first] + rest;
    assert all[0] == first && forall i | 0 <= i < |rest| :: rest[i] == all[i + 1];
  }

  /** The assertion about the production version accepts exactly three numbers with dots between them. */
  lemma ProductionIsDotted(version: string)
    ensures ProductionOk(version) <==> Dotted(version) && |Split(version, '.')| == 3
  {
    CountParts(version, '.');
    DotsSeparate(version);
    PartsOfDigits(version);
    if Dotted(version) && |Split(version, '.')| == 3 {
      var first := Before(version, '.');
      assert Split(version, '.')[0] == first && Digits(first);
      assert version[0] == first[0] && IsDigit(first[0]);
    }
  }
}

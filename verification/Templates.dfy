/** Templates with holes in double braces and conditional lines (platform/spire/src/template.py). */
module Templates {
  import opened Wrappers
  import opened Text

  // A value of the dictionary: what str makes of it, and whether it counts as true.
  datatype Value = Value(text: string, truth: bool)

  type Keys = map<string, Value>

  // A line: holes, each with the text before it and its key, and the text after the last.
  datatype Line = Line(holes: seq<(string, string)>, tail: string)

  // Text up to the first "{{" that closes no hole, and a key up to the first "}}".
  predicate WellFormedHole(hole: (string, string)) {
    Unpaired(hole.0, '{') && PairAt(hole.0, '}').None? && Unpaired(hole.1, '}')
  }

  predicate WellFormed(line: Line) {
    && (forall i | 0 <= i < |line.holes| :: WellFormedHole(line.holes[i]))
    && PairAt(line.tail, '{').None? && PairAt(line.tail, '}').None?
  }

  function Unparse(line: Line): string
    decreases |line.holes|
  {
    if line.holes == [] then line.tail
    else line.holes[0].0 + "{{" + line.holes[0].1 + "}}" + Unparse(Line(line.holes[1..], line.tail))
  }

  predicate AllDefined(line: Line, keys: Keys) {
    forall i | 0 <= i < |line.holes| :: line.holes[i].1 in keys
  }

  function Render(line: Line, keys: Keys): string
    requires AllDefined(line, keys)
    decreases |line.holes|
  {
    if line.holes == [] then line.tail
    else line.holes[0].0 + keys[line.holes[0].1].text + Render(Line(line.holes[1..], line.tail), keys)
  }

  // ---- The program ----

  // str.split with a separator of two equal characters that occurs, and 1.
  function CutAt(s: string, c: char): (string, string)
    requires PairAt(s, c).Some?
  {
    var n := PairAt(s, c).value;
    (s[..n], s[n + 2..])
  }

  // None is an exception: braces that do not match, or a key that is not defined.
  function FillLine(line: string, keys: Keys): Option<string>
    decreases |line|
  {
    if PairAt(line, '{').None? then (if PairAt(line, '}').Some? then None else Some(line))
    else
      var (prefix, rest) := CutAt(line, '{');
      if PairAt(prefix, '}').Some? || PairAt(rest, '}').None? then None
      else
        var (key, more) := CutAt(rest, '}');
        if key !in keys then None
        else
          match FillLine(more, keys)
          case None => None
          case Some(text) => Some(prefix + keys[key].text + text)
  }

  method FillOne(text: string, keys: Keys) returns (r: Option<string>)
    ensures r == FillLine(text, keys)
  {
    var line, fragments := text, "";
    PrependNothing(FillLine(text, keys));
    while PairAt(line, '{').Some?
      invariant FillLine(text, keys) == Prepend(fragments, FillLine(line, keys))
      decreases |line|
    {
      var (prefix, rest) := CutAt(line, '{');
      if PairAt(prefix, '}').Some? { return None; }
      if PairAt(rest, '}').None? { return None; }
      var (key, more) := CutAt(rest, '}');
      if key !in keys { return None; }
      PrependTwice(fragments, prefix + keys[key].text, FillLine(more, keys));
      fragments := fragments + (prefix + keys[key].text);
      line := more;
    }
    if PairAt(line, '}').Some? { return None; }
    r := Some(fragments + line);
  }

  function Prepend(first: string, rest: Option<string>): Option<string> {
    match rest
    case None => None
    case Some(text) => Some(first + text)
  }

  lemma PrependNothing(rest: Option<string>)
    ensures Prepend("", rest) == rest
  {
    if rest.Some? { assert "" + rest.value == rest.value; }
  }

  lemma PrependTwice(a: string, b: string, rest: Option<string>)
    ensures Prepend(a, Prepend(b, rest)) == Prepend(a + b, rest)
  {
    if rest.Some? { assert a + (b + rest.value) == a + b + rest.value; }
  }

  // A line of the template, with its condition taken off.
  datatype Visible = Shown(line: string) | Hidden | NoCondition

  function Look(line: string, keys: Keys): Visible {
    if line != "" && line[0] == '[' && ']' in line then
      var condition := Before(line[1..], ']');
      if condition !in keys then NoCondition
      else if !keys[condition].truth then Hidden
      else Shown(line[|condition| + 2..] + "\n")
    else Shown(line + "\n")
  }

  function FillAll(lines: seq<string>, keys: Keys): Option<string> {
    if lines == [] then Some("")
    else
      match Look(lines[0], keys)
      case NoCondition => None
      case Hidden => FillAll(lines[1..], keys)
      case Shown(line) =>
        match FillLine(line, keys)
        case None => None
        case Some(text) => Prepend(text, FillAll(lines[1..], keys))
  }

  class Template {
    const lines: seq<string>

    constructor (contents: string)
      ensures lines == Split(contents, '\n')
    {
      lines := Split(contents, '\n');
    }

    method Fill(keys: Keys) returns (r: Option<string>)
      ensures r == FillAll(lines, keys)
    {
      var fragments := "";
      PrependNothing(FillAll(lines, keys));
      assert lines[0..] == lines;
      for i := 0 to |lines|
        invariant FillAll(lines, keys) == Prepend(fragments, FillAll(lines[i..], keys))
      {
        assert lines[i..][0] == lines[i] && lines[i..][1..] == lines[i + 1..];
        match Look(lines[i], keys) {
          case NoCondition => return None;
          case Hidden =>
          case Shown(line) =>
            var text := FillOne(line, keys);
            if text.None? { return None; }
            PrependTwice(fragments, text.value, FillAll(lines[i + 1..], keys));
            fragments := fragments + text.value;
        }
      }
      assert fragments + "" == fragments;
      r := Some(fragments);
    }
  }

  // ---- Proofs ----

  // The first hole of a line, and the rest.
  lemma FirstHole(prefix: string, key: string, more: string)
    requires WellFormedHole((prefix, key))
    ensures var line := prefix + "{{" + key + "}}" + more;
            && PairAt(line, '{').Some? && CutAt(line, '{') == (prefix, key + "}}" + more)
            && PairAt(key + "}}" + more, '}').Some? && CutAt(key + "}}" + more, '}') == (key, more)
  {
    var rest := key + "}}" + more;
    var line := prefix + "{{" + key + "}}" + more;
    assert ['{', '{'] == "{{" && ['}', '}'] == "}}";
    assert line == prefix + ['{', '{'] + rest && rest == key + ['}', '}'] + more;
    PairAfter(prefix, '{', rest);
    PairAfter(key, '}', more);
    assert line[..|prefix|] == prefix && line[|prefix| + 2..] == rest;
    assert rest[..|key|] == key && rest[|key| + 2..] == more;
  }

  lemma {:induction false} UnparsedIsFilled(line: Line, keys: Keys)
    requires WellFormed(line)
    ensures FillLine(Unparse(line), keys) == if AllDefined(line, keys) then Some(Render(line, keys)) else None
    decreases |line.holes|
  {
    if line.holes != [] {
      var (prefix, key) := line.holes[0];
      var rest := Line(line.holes[1..], line.tail);
      assert WellFormedHole(line.holes[0]);
      FirstHole(prefix, key, Unparse(rest));
      UnparsedIsFilled(rest, keys);
      assert AllDefined(line, keys) <==> key in keys && AllDefined(rest, keys);
    }
  }

  // Text that begins with a hole.
  lemma HoleIsCut(text: string)
    requires PairAt(text, '{').Some?
    requires var (prefix, rest) := CutAt(text, '{'); PairAt(prefix, '}').None? && PairAt(rest, '}').Some?
    ensures var (prefix, rest) := CutAt(text, '{');
            var (key, more) := CutAt(rest, '}');
            WellFormedHole((prefix, key)) && text == prefix + "{{" + key + "}}" + more
  {
    var (prefix, rest) := CutAt(text, '{');
    var (key, more) := CutAt(rest, '}');
    BeforePair(text, '{');
    BeforePair(rest, '}');
    HoleText(text, prefix, rest, key, more);
  }

  lemma HoleText(text: string, prefix: string, rest: string, key: string, more: string)
    requires text == prefix + ['{', '{'] + rest && rest == key + ['}', '}'] + more
    ensures text == prefix + "{{" + key + "}}" + more
  {
  }

  lemma OneMoreHole(hole: (string, string), line: Line)
    requires WellFormedHole(hole) && WellFormed(line)
    ensures var line' := Line([hole] + line.holes, line.tail);
            && WellFormed(line') && Unparse(line') == hole.0 + "{{" + hole.1 + "}}" + Unparse(line)
            && forall keys :: AllDefined(line', keys) <==> hole.1 in keys && AllDefined(line, keys)
  {
    var holes := [hole] + line.holes;
    assert holes[0] == hole && holes[1..] == line.holes;
    assert forall i | 0 <= i < |line.holes| :: holes[i + 1] == line.holes[i];
  }

  // The holes that the program finds, when it finds no fault.
  lemma {:induction false} FilledHasParse(text: string, keys: Keys) returns (line: Line)
    requires FillLine(text, keys).Some?
    ensures WellFormed(line) && Unparse(line) == text && AllDefined(line, keys)
    decreases |text|
  {
    if PairAt(text, '{').None? {
      line := Line([], text);
    } else {
      var (prefix, rest) := CutAt(text, '{');
      var (key, more) := CutAt(rest, '}');
      HoleIsCut(text);
      var tail := FilledHasParse(more, keys);
      OneMoreHole((prefix, key), tail);
      line := Line([(prefix, key)] + tail.holes, tail.tail);
    }
  }

  /**
   A line is filled in exactly if it can be cut into text and keys, all of which are defined; each key is then
   replaced once, whatever braces its value has.
   */
  lemma FilledExactly(text: string, keys: Keys, r: string)
    ensures FillLine(text, keys) == Some(r) <==>
            exists line :: WellFormed(line) && Unparse(line) == text && AllDefined(line, keys) && Render(line, keys) == r
  {
    if FillLine(text, keys).Some? {
      var line := FilledHasParse(text, keys);
      UnparsedIsFilled(line, keys);
    }
    forall line | WellFormed(line) && Unparse(line) == text && AllDefined(line, keys)
      ensures FillLine(text, keys) == Some(Render(line, keys))
    {
      UnparsedIsFilled(line, keys);
    }
  }

  /** A key with two opening braces in it is one key. */
  lemma KeyWithBraces(value: Value)
    ensures FillLine("{{a{{b}}", map["a{{b" := value]) == Some(value.text)
  {
    var hole := ("", "a{{b");
    var line := Line([hole], "");
    assert hole.1[1..] == "{{b" && hole.1[1..][1..] == "{b" && hole.1[1..][1..][1..] == "b";
    assert WellFormedHole(hole) && WellFormed(line);
    assert line.holes[1..] == [] && Unparse(Line([], "")) == "";
    assert Unparse(line) == "{{a{{b}}";
    UnparsedIsFilled(line, map["a{{b" := value]);
    assert Render(line, map["a{{b" := value]) == value.text;
  }

  /** There is at most one way to cut it. */
  lemma {:induction false} OneParse(a: Line, b: Line)
    requires WellFormed(a) && WellFormed(b) && Unparse(a) == Unparse(b)
    ensures a == b
    decreases |a.holes|
  {
    if a.holes != [] {
      assert WellFormedHole(a.holes[0]);
      FirstHole(a.holes[0].0, a.holes[0].1, Unparse(Line(a.holes[1..], a.tail)));
    }
    if b.holes != [] {
      assert WellFormedHole(b.holes[0]);
      FirstHole(b.holes[0].0, b.holes[0].1, Unparse(Line(b.holes[1..], b.tail)));
    }
    if a.holes != [] && b.holes != [] {
      OneParse(Line(a.holes[1..], a.tail), Line(b.holes[1..], b.tail));
      assert a.holes == [a.holes[0]] + a.holes[1..] && b.holes == [b.holes[0]] + b.holes[1..];
    }
  }

  // ---- Whole templates ----

  // The lines that are shown, without their conditions.
  function ShownLines(lines: seq<string>, keys: Keys): seq<string> {
    if lines == [] then []
    else
      (match Look(lines[0], keys) case Shown(line) => [line] case _ => []) + ShownLines(lines[1..], keys)
  }

  function Contents(filled: seq<Option<string>>): string
    requires forall i | 0 <= i < |filled| :: filled[i].Some?
  {
    if filled == [] then "" else filled[0].value + Contents(filled[1..])
  }

  function Filled(lines: seq<string>, keys: Keys): (r: seq<Option<string>>)
    ensures |r| == |lines| && forall i | 0 <= i < |r| :: r[i] == FillLine(lines[i], keys)
  {
    if lines == [] then [] else [FillLine(lines[0], keys)] + Filled(lines[1..], keys)
  }

  predicate AllConditions(lines: seq<string>, keys: Keys) {
    forall i | 0 <= i < |lines| :: !Look(lines[i], keys).NoCondition?
  }

  predicate AllFilled(lines: seq<string>, keys: Keys) {
    forall i | 0 <= i < |lines| :: FillLine(lines[i], keys).Some?
  }

  lemma FirstCondition(first: string, rest: seq<string>, keys: Keys)
    ensures AllConditions([first] + rest, keys) <==> !Look(first, keys).NoCondition? && AllConditions(rest, keys)
  {
    var all := [first] + rest;
    assert all[0] == first && forall i | 0 <= i < |rest| :: rest[i] == all[i + 1];
  }

  lemma FirstFilled(first: string, rest: seq<string>, keys: Keys)
    ensures AllFilled([first] + rest, keys) <==> FillLine(first, keys).Some? && AllFilled(rest, keys)
    ensures Filled([first] + rest, keys) == [FillLine(first, keys)] + Filled(rest, keys)
  {
    var all := [first] + rest;
    assert all[0] == first && all[1..] == rest && forall i | 0 <= i < |rest| :: rest[i] == all[i + 1];
  }

  /**
   A template succeeds exactly if all conditions are defined and all lines shown can be filled in; a hidden
   line may have any fault.  The result is the lines shown, in order.
   */
  lemma {:induction false} TemplateExactly(lines: seq<string>, keys: Keys)
    ensures var shown := ShownLines(lines, keys);
            && (FillAll(lines, keys).Some? <==> AllConditions(lines, keys) && AllFilled(shown, keys))
            && (FillAll(lines, keys).Some? ==> FillAll(lines, keys) == Some(Contents(Filled(shown, keys))))
  {
    if lines != [] {
      var rest := ShownLines(lines[1..], keys);
      TemplateExactly(lines[1..], keys);
      assert lines == [lines[0]] + lines[1..];
      FirstCondition(lines[0], lines[1..], keys);
      match Look(lines[0], keys) {
        case NoCondition =>
        case Hidden => assert ShownLines(lines, keys) == rest;
        case Shown(line) =>
          assert ShownLines(lines, keys) == [line] + rest;
          FirstFilled(line, rest, keys);
      }
    }
  }

  // ---- Conditional lines ----

  /**
   A line that begins with a condition in brackets is filled in without it if the condition holds, left out if it does
   not, and fails if it is not defined.
   */
  lemma ConditionDecides(condition: string, line: string, more: seq<string>, keys: Keys)
    requires ']' !in condition
    ensures FillAll(["[" + condition + "]" + line] + more, keys) ==
            if condition !in keys then None
            else if !keys[condition].truth then FillAll(more, keys)
            else match FillLine(line + "\n", keys)
                 case None => None
                 case Some(text) => Prepend(text, FillAll(more, keys))
  {
    var all := "[" + condition + "]" + line;
    assert all[1..] == condition + "]" + line;
    BeforeAppend(condition, ']', line);
    assert all[|condition| + 1] == ']' && all[|condition| + 2..] == line;
    assert ([all] + more)[1..] == more;
  }

  /** Any other line is filled in as it is. */
  lemma WithoutCondition(line: string, more: seq<string>, keys: Keys)
    requires line == "" || line[0] != '[' || ']' !in line
    ensures FillAll([line] + more, keys) ==
            match FillLine(line + "\n", keys)
            case None => None
            case Some(text) => Prepend(text, FillAll(more, keys))
  {
    assert ([line] + more)[1..] == more;
  }
}

/** Substitution of variables in parentheses (platform/util/strutil/substitute.go). */
module Substitution {
  import opened Wrappers
  import opened Text

  // A text cut at its parentheses: what comes first, and then each name with the text behind it.
  datatype Template = Template(first: string, rest: seq<(string, string)>)

  predicate Plain(s: string) {
    '(' !in s && ')' !in s
  }

  predicate WellFormed(t: Template) {
    Plain(t.first) && forall i | 0 <= i < |t.rest| :: Plain(t.rest[i].0) && Plain(t.rest[i].1)
  }

  function Unparse(t: Template): string {
    t.first + UnparseAll(t.rest)
  }

  function UnparseAll(rest: seq<(string, string)>): string {
    if rest == [] then "" else "(" + rest[0].0 + ")" + rest[0].1 + UnparseAll(rest[1..])
  }

  // A variable that is not there has the empty value, and an empty value counts as not there.
  function ValueOf(vars: map<string, string>, name: string): string {
    if name in vars then vars[name] else ""
  }

  predicate AllDefined(t: Template, vars: map<string, string>) {
    forall i | 0 <= i < |t.rest| :: ValueOf(vars, t.rest[i].0) != ""
  }

  function Render(t: Template, vars: map<string, string>): string {
    t.first + RenderAll(t.rest, vars)
  }

  function RenderAll(rest: seq<(string, string)>, vars: map<string, string>): string {
    if rest == [] then "" else ValueOf(vars, rest[0].0) + rest[0].1 + RenderAll(rest[1..], vars)
  }

  // ---- The scanner ----

  // One pass over the text, character by character: outside parentheses, or in a name.
  datatype Position = Outside(text: string) | Inside(text: string, name: string)

  function Scan(s: string, at: Position): Option<Template>
    decreases |s|
  {
    if s == "" then (if at.Outside? then Some(Template(at.text, [])) else None)
    else
      match at
      case Outside(text) =>
        if s[0] == ')' then None
        else if s[0] == '(' then Scan(s[1..], Inside(text, ""))
        else Scan(s[1..], Outside(text + [s[0]]))
      case Inside(text, name) =>
        if s[0] == '(' then None
        else if s[0] == ')' then
          (match Scan(s[1..], Outside(""))
           case None => None
           case Some(t) => Some(Template(text, [(name, t.first)] + t.rest)))
        else Scan(s[1..], Inside(text, name + [s[0]]))
  }

  function Read(at: Position): string {
    match at
    case Outside(text) => text
    case Inside(text, name) => text + "(" + name
  }

  /** The scanner accepts balanced text that is not nested, and finds its only parse. */
  lemma {:induction false} ScanIsUnparse(s: string, at: Position, t: Template)
    requires Plain(at.text) && (at.Inside? ==> Plain(at.name))
    ensures Scan(s, at) == Some(t) ==> WellFormed(t) && Unparse(t) == Read(at) + s
    decreases |s|
  {
    if s != "" {
      var c, rest := s[0], s[1..];
      assert s == [c] + rest;
      match at {
        case Outside(text) =>
          if c == '(' {
            ScanIsUnparse(rest, Inside(text, ""), t);
            assert text + "(" + "" + rest == text + s;
          } else if c != ')' {
            ScanIsUnparse(rest, Outside(text + [c]), t);
            assert text + [c] + rest == text + s;
          }
        case Inside(text, name) =>
          if c == ')' {
            if Scan(rest, Outside("")).Some? {
              var tail := Scan(rest, Outside("")).value;
              ScanIsUnparse(rest, Outside(""), tail);
              Closed(text, name, tail, rest, s);
            }
          } else if c != '(' {
            ScanIsUnparse(rest, Inside(text, name + [c]), t);
            assert text + "(" + (name + [c]) + rest == text + "(" + name + s;
          }
      }
    }
  }

  lemma Closed(text: string, name: string, tail: Template, rest: string, s: string)
    requires s == ")" + rest && Unparse(tail) == rest && WellFormed(tail) && Plain(text) && Plain(name)
    ensures var t := Template(text, [(name, tail.first)] + tail.rest);
            WellFormed(t) && Unparse(t) == text + "(" + name + s
  {
    var all := [(name, tail.first)] + tail.rest;
    assert all[0] == (name, tail.first) && all[1..] == tail.rest;
    assert UnparseAll(all) == "(" + name + ")" + tail.first + UnparseAll(tail.rest);
    assert "(" + name + ")" + tail.first + UnparseAll(tail.rest) == "(" + name + (")" + rest);
  }

  lemma {:induction false} ScanPlain(s: string, text: string, rest: string)
    requires Plain(s)
    ensures Scan(s + rest, Outside(text)) == Scan(rest, Outside(text + s))
  {
    if s == "" {
      assert s + rest == rest && text + s == text;
    } else {
      assert (s + rest)[0] == s[0] && (s + rest)[1..] == s[1..] + rest;
      ScanPlain(s[1..], text + [s[0]], rest);
      assert text + [s[0]] + s[1..] == text + s;
    }
  }

  lemma {:induction false} ScanName(s: string, text: string, name: string, rest: string)
    requires Plain(s)
    ensures Scan(s + rest, Inside(text, name)) == Scan(rest, Inside(text, name + s))
  {
    if s == "" {
      assert s + rest == rest && name + s == name;
    } else {
      assert (s + rest)[0] == s[0] && (s + rest)[1..] == s[1..] + rest;
      ScanName(s[1..], text, name + [s[0]], rest);
      assert name + [s[0]] + s[1..] == name + s;
    }
  }

  lemma {:induction false} UnparseIsScanned(t: Template)
    requires WellFormed(t)
    ensures Scan(Unparse(t), Outside("")) == Some(t)
    decreases |t.rest|
  {
    ScanPlain(t.first, "", UnparseAll(t.rest));
    assert "" + t.first == t.first;
    if t.rest != [] {
      var name := t.rest[0].0;
      var tail := Template(t.rest[0].1, t.rest[1..]);
      UnparseIsScanned(tail);
      var closing := ")" + Unparse(tail);
      assert UnparseAll(t.rest) == "(" + (name + closing);
      assert ("(" + (name + closing))[1..] == name + closing && closing[1..] == Unparse(tail);
      ScanName(name, t.first, "", closing);
      assert "" + name == name;
      assert [(name, tail.first)] + tail.rest == t.rest;
    }
  }

  // ---- The program ----

  function Parsed(within: string): Option<Template> {
    Scan(within, Outside(""))
  }

  // None is an error: parentheses that do not match, or a variable that is not defined.
  function Substituted(within: string, vars: map<string, string>): Option<string> {
    match Parsed(within)
    case None => None
    case Some(t) => if AllDefined(t, vars) then Some(Render(t, vars)) else None
  }

  // The pieces after the first parenthesis; all of them must be a name and a text.
  function NamesAndTexts(parts: seq<string>): Option<seq<(string, string)>> {
    if parts == [] then Some([])
    else
      var subparts := Split(parts[0], ')');
      if |subparts| != 2 then None
      else
        match NamesAndTexts(parts[1..])
        case None => None
        case Some(rest) => Some([(subparts[0], subparts[1])] + rest)
  }

  lemma {:induction false} PiecesOfPlain(rest: seq<(string, string)>, parts: seq<string>)
    requires |parts| == |rest| && forall i | 0 <= i < |parts| :: parts[i] == rest[i].0 + ")" + rest[i].1
    requires forall i | 0 <= i < |rest| :: Plain(rest[i].0) && Plain(rest[i].1)
    ensures NamesAndTexts(parts) == Some(rest)
  {
    if rest != [] {
      SplitAppend(rest[0].0, ')', rest[0].1);
      PiecesOfPlain(rest[1..], parts[1..]);
      assert [(rest[0].0, rest[0].1)] + rest[1..] == rest;
    }
  }

  lemma {:induction false} PiecesArePlain(parts: seq<string>)
    requires forall i | 0 <= i < |parts| :: '(' !in parts[i]
    ensures var r := NamesAndTexts(parts);
            r.Some? ==>
              && |r.value| == |parts|
              && forall i | 0 <= i < |parts| :: Plain(r.value[i].0) && Plain(r.value[i].1) &&
                                                parts[i] == r.value[i].0 + ")" + r.value[i].1
  {
    if parts != [] {
      PiecesArePlain(parts[1..]);
      var subparts := Split(parts[0], ')');
      SplitParts(parts[0], ')');
      JoinSplit(parts[0], ')');
      if |subparts| == 2 {
        TwoParts(subparts, parts[0]);
      }
    }
  }

  lemma TwoParts(subparts: seq<string>, s: string)
    requires |subparts| == 2 && Join(subparts, [')']) == s && '(' !in s
    requires forall part | part in subparts :: ')' !in part
    ensures Plain(subparts[0]) && Plain(subparts[1]) && s == subparts[0] + ")" + subparts[1]
  {
    assert Join(subparts[1..], [')']) == subparts[1];
    assert s == subparts[0] + [')'] + subparts[1];
    assert subparts[0] in subparts && subparts[1] in subparts;
    assert forall c | c in subparts[0] :: c in s;
    assert forall c | c in subparts[1] :: c in s;
  }

  lemma {:induction false} JoinPieces(rest: seq<(string, string)>, parts: seq<string>, first: string)
    requires |parts| == |rest| && forall i | 0 <= i < |parts| :: parts[i] == rest[i].0 + ")" + rest[i].1
    ensures Join([first] + parts, ['(']) == first + UnparseAll(rest)
  {
    var all := [first] + parts;
    assert all[1..] == parts;
    if parts == [] {
      assert first + "" == first;
    } else {
      JoinPieces(rest[1..], parts[1..], parts[0]);
      assert parts == [parts[0]] + parts[1..];
      assert Join(all, ['(']) == first + ['('] + Join(parts, ['(']);
      assert first + ['('] + (rest[0].0 + ")" + rest[0].1 + UnparseAll(rest[1..])) == first + UnparseAll(rest);
    }
  }

  /** Cutting the text at all parentheses finds what the scanner finds. */
  lemma SplitIsScan(within: string)
    ensures var parts := Split(within, '(');
            var pieces := NamesAndTexts(parts[1..]);
            Parsed(within) == if ')' in parts[0] || pieces.None? then None else Some(Template(parts[0], pieces.value))
  {
    var parts := Split(within, '(');
    var pieces := NamesAndTexts(parts[1..]);
    SplitParts(within, '(');
    JoinSplit(within, '(');
    assert parts == [parts[0]] + parts[1..] && parts[0] in parts;
    if ')' !in parts[0] && pieces.Some? {
      var t := Template(parts[0], pieces.value);
      PiecesArePlain(parts[1..]);
      JoinPieces(pieces.value, parts[1..], parts[0]);
      UnparseIsScanned(t);
    } else if Parsed(within).Some? {
      var t := Parsed(within).value;
      ScanIsUnparse(within, Outside(""), t);
      assert Unparse(t) == "" + within == within;
      var parts' := Cut(t);
      assert parts' == parts;
      PiecesOfPlain(t.rest, parts[1..]);
    }
  }

  lemma Cut(t: Template) returns (parts: seq<string>)
    requires WellFormed(t)
    ensures parts == Split(Unparse(t), '(') && parts[0] == t.first && |parts| == |t.rest| + 1
    ensures forall i | 0 <= i < |t.rest| :: parts[1..][i] == t.rest[i].0 + ")" + t.rest[i].1
  {
    var pieces := seq(|t.rest|, i requires 0 <= i < |t.rest| => t.rest[i].0 + ")" + t.rest[i].1);
    parts := [t.first] + pieces;
    JoinPieces(t.rest, pieces, t.first);
    assert parts[1..] == pieces;
    forall part | part in parts ensures '(' !in part {
      if part != t.first {
        var i :| 0 <= i < |pieces| && pieces[i] == part;
        assert Plain(t.rest[i].0) && Plain(t.rest[i].1);
      }
    }
    SplitJoin(parts, '(');
  }

  lemma RenderSnoc(rest: seq<(string, string)>, piece: (string, string), vars: map<string, string>)
    ensures RenderAll(rest + [piece], vars) == RenderAll(rest, vars) + (ValueOf(vars, piece.0) + piece.1)
  {
    if rest == [] {
      assert rest + [piece] == [piece] && [piece][1..] == [];
    } else {
      assert (rest + [piece])[0] == rest[0] && (rest + [piece])[1..] == rest[1..] + [piece];
      RenderSnoc(rest[1..], piece, vars);
    }
  }

  method SubstituteVars(within: string, vars: map<string, string>) returns (r: Option<string>)
    ensures r == Substituted(within, vars)
  {
    var parts := Split(within, '(');
    SplitIsScan(within);
    if ')' in parts[0] { return None; }
    var snippets := parts[0];
    ghost var pieces := [];
    FirstPiece(parts, vars);
    for i := 1 to |parts|
      invariant SoFar(parts, pieces, i, snippets, vars)
    {
      var subparts := Split(parts[i], ')');
      if |subparts| != 2 {
        NoPiece(parts, pieces, i, snippets, vars);
        return None;
      }
      var value := if subparts[0] in vars then vars[subparts[0]] else "";
      if value == "" {
        NoPiece(parts, pieces, i, snippets, vars);
        return None;
      }
      NextPiece(parts, pieces, i, snippets, vars);
      pieces := pieces + [(subparts[0], subparts[1])];
      snippets := snippets + (value + subparts[1]);
    }
    LastPiece(parts, pieces, snippets, vars);
    r := Some(snippets);
  }

  // The pieces found in the first parts, all of them defined, and their substitution.
  predicate SoFar(parts: seq<string>, pieces: seq<(string, string)>, i: nat, snippets: string, vars: map<string, string>) {
    && 0 < i <= |parts| && snippets == parts[0] + RenderAll(pieces, vars)
    && AllDefined(Template("", pieces), vars)
    && NamesAndTexts(parts[1..]) == Joined(pieces, NamesAndTexts(parts[i..]))
  }

  lemma FirstPiece(parts: seq<string>, vars: map<string, string>)
    requires parts != []
    ensures SoFar(parts, [], 1, parts[0], vars)
  {
    JoinedNothing(NamesAndTexts(parts[1..]));
    assert parts[0] + "" == parts[0];
  }

  lemma NextPiece(parts: seq<string>, pieces: seq<(string, string)>, i: nat, snippets: string, vars: map<string, string>)
    requires SoFar(parts, pieces, i, snippets, vars) && i < |parts| && |Split(parts[i], ')')| == 2
    requires ValueOf(vars, Split(parts[i], ')')[0]) != ""
    ensures var piece := (Split(parts[i], ')')[0], Split(parts[i], ')')[1]);
            SoFar(parts, pieces + [piece], i + 1, snippets + (ValueOf(vars, piece.0) + piece.1), vars)
  {
    var piece := (Split(parts[i], ')')[0], Split(parts[i], ')')[1]);
    assert parts[i..][1..] == parts[i + 1..];
    JoinedNext(pieces, piece, NamesAndTexts(parts[i + 1..]));
    RenderSnoc(pieces, piece, vars);
    assert parts[0] + (RenderAll(pieces, vars) + (ValueOf(vars, piece.0) + piece.1)) ==
           snippets + (ValueOf(vars, piece.0) + piece.1);
  }

  lemma NoPiece(parts: seq<string>, pieces: seq<(string, string)>, i: nat, snippets: string, vars: map<string, string>)
    requires SoFar(parts, pieces, i, snippets, vars) && i < |parts|
    requires |Split(parts[i], ')')| == 2 ==> ValueOf(vars, Split(parts[i], ')')[0]) == ""
    ensures var all := NamesAndTexts(parts[1..]); all.Some? ==> !AllDefined(Template(parts[0], all.value), vars)
  {
    if |Split(parts[i], ')')| == 2 {
      var piece := (Split(parts[i], ')')[0], Split(parts[i], ')')[1]);
      assert parts[i..][1..] == parts[i + 1..];
      JoinedNext(pieces, piece, NamesAndTexts(parts[i + 1..]));
      Undefined(pieces, piece, NamesAndTexts(parts[i + 1..]), vars);
    }
  }

  lemma LastPiece(parts: seq<string>, pieces: seq<(string, string)>, snippets: string, vars: map<string, string>)
    requires SoFar(parts, pieces, |parts|, snippets, vars)
    ensures NamesAndTexts(parts[1..]) == Some(pieces)
    ensures AllDefined(Template(parts[0], pieces), vars) && snippets == Render(Template(parts[0], pieces), vars)
  {
    assert parts[|parts|..] == [] && pieces + [] == pieces;
    forall i | 0 <= i < |pieces| ensures ValueOf(vars, pieces[i].0) != "" {
      assert ValueOf(vars, Template("", pieces).rest[i].0) != "";
    }
  }

  function Joined(pieces: seq<(string, string)>, rest: Option<seq<(string, string)>>): Option<seq<(string, string)>> {
    match rest
    case None => None
    case Some(r) => Some(pieces + r)
  }

  lemma JoinedNothing(rest: Option<seq<(string, string)>>)
    ensures Joined([], rest) == rest
  {
    if rest.Some? { assert [] + rest.value == rest.value; }
  }

  lemma JoinedNext(pieces: seq<(string, string)>, piece: (string, string), rest: Option<seq<(string, string)>>)
    ensures Joined(pieces, Joined([piece], rest)) == Joined(pieces + [piece], rest)
  {
    if rest.Some? { assert pieces + ([piece] + rest.value) == pieces + [piece] + rest.value; }
  }

  lemma Undefined(pieces: seq<(string, string)>, piece: (string, string), rest: Option<seq<(string, string)>>,
                  vars: map<string, string>)
    requires ValueOf(vars, piece.0) == ""
    ensures var all := Joined(pieces + [piece], rest);
            all.Some? ==> forall first :: !AllDefined(Template(first, all.value), vars)
  {
    if rest.Some? { assert (pieces + [piece] + rest.value)[|pieces|] == piece; }
  }

  method SubstituteAllVars(within: seq<string>, vars: map<string, string>) returns (r: Option<seq<string>>)
    ensures r.Some? <==> forall i | 0 <= i < |within| :: Substituted(within[i], vars).Some?
    ensures r.Some? ==> |r.value| == |within| &&
                        forall i | 0 <= i < |within| :: Substituted(within[i], vars) == Some(r.value[i])
  {
    var out := new string[|within|];
    for i := 0 to |within|
      invariant forall k | 0 <= k < i :: Substituted(within[k], vars) == Some(out[k])
    {
      var value := SubstituteVars(within[i], vars);
      if value.None? { return None; }
      out[i] := value.value;
    }
    r := Some(out[..]);
  }

  /**
   Substitution succeeds exactly if the text can be cut at its parentheses into a template all of whose
   variables have values; the result is that template with each variable replaced once, whatever parentheses
   the values have.
   */
  lemma SubstitutedExactly(within: string, vars: map<string, string>, r: string)
    ensures Substituted(within, vars) == Some(r) <==>
            exists t :: WellFormed(t) && Unparse(t) == within && AllDefined(t, vars) && Render(t, vars) == r
  {
    if Parsed(within).Some? {
      var t := Parsed(within).value;
      ScanIsUnparse(within, Outside(""), t);
      assert "" + within == within;
    }
    forall t | WellFormed(t) && Unparse(t) == within ensures Parsed(within) == Some(t) {
      UnparseIsScanned(t);
    }
  }

  /** There is at most one such template. */
  lemma OneTemplate(a: Template, b: Template)
    requires WellFormed(a) && WellFormed(b) && Unparse(a) == Unparse(b)
    ensures a == b
  {
    UnparseIsScanned(a);
    UnparseIsScanned(b);
  }
}

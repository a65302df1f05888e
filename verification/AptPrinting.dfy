/** Writing the files that Apt reads: what is written is read back. */
module AptPrinting {
  import opened Wrappers
  import opened Text
  import opened Apt

  // A field: the text on the line of its key, if any, and the lines that continue it.
  datatype Field = Field(key: string, first: Option<string>, more: seq<string>)

  predicate WellFormed(f: Field) {
    && ':' !in f.key && '\n' !in f.key && !Indented(f.key)
    && (f.first.Some? ==> '\n' !in f.first.value)
    && (forall i | 0 <= i < |f.more| :: '\n' !in f.more[i])
  }

  // The last of its lines is not blank.
  predicate EndsInText(f: Field) {
    f.more != [] ==> !Blank(f.more[|f.more| - 1])
  }

  // The lines up to the last that is not blank.
  function Stripped(lines: seq<string>): (r: seq<string>)
    ensures |r| <= |lines|
  {
    if lines != [] && Blank(lines[|lines| - 1]) then Stripped(lines[..|lines| - 1]) else lines
  }

  predicate AllBlank(lines: seq<string>) {
    lines == [] || (Blank(lines[0]) && AllBlank(lines[1..]))
  }

  lemma {:induction false} AllBlankSnoc(lines: seq<string>, line: string)
    requires AllBlank(lines) && Blank(line)
    ensures AllBlank(lines + [line])
  {
    if lines != [] {
      AllBlankSnoc(lines[1..], line);
      assert (lines + [line])[1..] == lines[1..] + [line];
    }
  }

  lemma {:induction false} StrippedFacts(lines: seq<string>)
    ensures var kept := Stripped(lines);
            && lines == kept + lines[|kept|..] && AllBlank(lines[|kept|..])
            && (kept != [] ==> !Blank(kept[|kept| - 1]))
            && (kept == lines <==> lines == [] || !Blank(lines[|lines| - 1]))
  {
    if lines != [] && Blank(lines[|lines| - 1]) {
      var init, last := lines[..|lines| - 1], lines[|lines| - 1];
      StrippedFacts(init);
      AllBlankSnoc(init[|Stripped(init)|..], last);
      SplitSnoc(lines, Stripped(init), init[|Stripped(init)|..], last);
    }
  }

  lemma SplitSnoc<T>(all: seq<T>, a: seq<T>, b: seq<T>, last: T)
    requires all != [] && all[..|all| - 1] == a + b && all[|all| - 1] == last
    ensures all == a + (b + [last]) && all[|a|..] == b + [last]
  {
    assert all == all[..|all| - 1] + [last];
    assert all == a + (b + [last]);
  }

  function StripField(f: Field): Field {
    f.(more := Stripped(f.more))
  }

  function StripAll(fields: seq<Field>): (r: seq<Field>)
    ensures |r| == |fields| && forall i | 0 <= i < |r| :: r[i] == StripField(fields[i])
  {
    if fields == [] then [] else StripAll(fields[..|fields| - 1]) + [StripField(fields[|fields| - 1])]
  }

  predicate AllWellFormed(fields: seq<Field>) {
    forall i | 0 <= i < |fields| :: WellFormed(fields[i])
  }

  function HeadLine(f: Field): string {
    f.key + ":" + match f.first case None => "" case Some(text) => " " + text
  }

  function InFront(line: string): string {
    " " + line
  }

  function Indent(lines: seq<string>): seq<string> {
    if lines == [] then [] else [InFront(lines[0])] + Indent(lines[1..])
  }

  function LinesOf(fields: seq<Field>): seq<string> {
    if fields == [] then []
    else LinesOf(fields[..|fields| - 1]) + ([HeadLine(fields[|fields| - 1])] + Indent(fields[|fields| - 1].more))
  }

  function EntryOf(f: Field): Entry {
    Entry(f.key, (match f.first case None => [] case Some(text) => [text]) + f.more)
  }

  function EntriesOf(fields: seq<Field>): (r: seq<Entry>)
    ensures |r| == |fields| && forall i | 0 <= i < |r| :: r[i] == EntryOf(fields[i])
  {
    if fields == [] then [] else EntriesOf(fields[..|fields| - 1]) + [EntryOf(fields[|fields| - 1])]
  }

  // ---- Reading what was written ----

  function Steps(scan: Scan, lines: seq<string>): Scan
    decreases |lines|
  {
    if lines == [] then scan else Steps(Step(scan, lines[0]), lines[1..])
  }

  lemma {:induction false} StepsSnoc(scan: Scan, lines: seq<string>, line: string)
    ensures Steps(scan, lines + [line]) == Step(Steps(scan, lines), line)
    decreases |lines|
  {
    if lines == [] {
      assert lines + [line] == [line] && [line][1..] == [];
    } else {
      assert (lines + [line])[0] == lines[0] && (lines + [line])[1..] == lines[1..] + [line];
      StepsSnoc(Step(scan, lines[0]), lines[1..], line);
    }
  }

  lemma {:induction false} ForwardAppend(a: seq<string>, b: seq<string>)
    ensures Forward(a + b) == Steps(Forward(a), b)
    decreases |b|
  {
    if b == [] {
      assert a + b == a;
    } else {
      InitLast(b);
      ForwardAppend(a, Init(b));
      StepsSnoc(Forward(a), Init(b), Last(b));
      assert a + b == (a + Init(b)) + [Last(b)];
      LastInit(a + Init(b), Last(b));
    }
  }

  lemma BlankIndent(line: string)
    ensures Indented(" " + line) && (Blank(" " + line) <==> Blank(line)) && (" " + line)[1..] == line
  {
    assert (" " + line)[1..] == line;
  }

  lemma MoreStep(entries: seq<Entry>, pending: seq<string>, line: string)
    requires entries != []
    ensures Step(Scan(entries, true, pending), InFront(line)) ==
            if Blank(line) then Scan(entries, true, pending + [line])
            else Scan(Extend(entries, pending + [line]), true, [])
  {
    BlankIndent(line);
  }

  lemma FirstStep(scan: Scan, next: Scan, line: string, rest: seq<string>)
    requires Step(scan, line) == next
    ensures Steps(scan, [line] + rest) == Steps(next, rest)
  {
    assert ([line] + rest)[1..] == rest;
  }

  lemma {:induction false} MoreLines(entries: seq<Entry>, pending: seq<string>, more: seq<string>)
    requires entries != [] && more != [] && !Blank(more[|more| - 1])
    ensures Steps(Scan(entries, true, pending), Indent(more)) == Scan(Extend(entries, pending + more), true, [])
    decreases |more|
  {
    var line, rest := more[0], more[1..];
    MoreStep(entries, pending, line);
    var scan := Scan(entries, true, pending);
    FirstStep(scan, Step(scan, InFront(line)), InFront(line), Indent(rest));
    if rest == [] {
      assert more == [line] && Steps(Step(scan, InFront(line)), []) == Step(scan, InFront(line));
    } else {
      AfterOneMore(entries, pending, more);
      if Blank(line) {
        MoreLines(entries, pending + [line], rest);
      } else {
        MoreLines(Extend(entries, pending + [line]), [], rest);
      }
    }
  }

  lemma AfterOneMore(entries: seq<Entry>, pending: seq<string>, more: seq<string>)
    requires entries != [] && more != []
    ensures Extend(entries, (pending + [more[0]]) + more[1..]) == Extend(entries, pending + more)
    ensures Extend(Extend(entries, pending + [more[0]]), [] + more[1..]) == Extend(entries, pending + more)
  {
    assert pending + [more[0]] + more[1..] == pending + more && [] + more[1..] == more[1..];
    ExtendTwice(entries, pending + [more[0]], more[1..], pending + more);
  }

  lemma {:induction false} ColonAfter(key: string, text: string)
    requires ':' !in key
    ensures Colon(key + ": " + text) == Some(|key|)
  {
    var line := key + ": " + text;
    if key != "" {
      ColonAfter(key[1..], text);
      assert line[0] == key[0] && line[1..] == key[1..] + ": " + text;
    }
  }

  lemma HeadIsKeyLine(f: Field)
    requires WellFormed(f)
    ensures !Indented(HeadLine(f)) && !Blank(HeadLine(f)) && HeadLine(f) != ""
    ensures KeyLine(HeadLine(f)) == Some(EntryOf(f.(more := [])))
  {
    var line := HeadLine(f);
    assert line[|f.key|] == ':' && !Space(line[|f.key|]);
    if Blank(line) { BlankIsSpace(line, |f.key|); }
    assert EntryOf(f.(more := [])).values == match f.first case None => [] case Some(text) => [text];
    match f.first
    case None =>
      assert line == f.key + ":";
      assert line[..|line| - 1] == f.key;
    case Some(text) =>
      assert line == f.key + ": " + text;
      ColonAfter(f.key, text);
      assert line[..|line| - 1][|f.key|] == ':';
      assert line[..|f.key|] == f.key && line[|f.key| + 2..] == text;
  }

  lemma HeadStep(scan: Scan, f: Field)
    requires WellFormed(f) && scan.Scan?
    ensures Step(scan, HeadLine(f)) == Scan(scan.entries + [EntryOf(f.(more := []))], true, [])
  {
    HeadIsKeyLine(f);
  }

  lemma {:induction false} StepsAppend(scan: Scan, a: seq<string>, b: seq<string>)
    ensures Steps(scan, a + b) == Steps(Steps(scan, a), b)
    decreases |a|
  {
    if a == [] {
      assert a + b == b;
    } else {
      assert (a + b)[0] == a[0] && (a + b)[1..] == a[1..] + b;
      StepsAppend(Step(scan, a[0]), a[1..], b);
    }
  }

  // Blank lines wait for one that is not.
  lemma {:induction false} BlankLines(entries: seq<Entry>, pending: seq<string>, lines: seq<string>)
    requires entries != [] && AllBlank(lines)
    ensures Steps(Scan(entries, true, pending), Indent(lines)) == Scan(entries, true, pending + lines)
    decreases |lines|
  {
    if lines == [] {
      assert pending + lines == pending;
    } else {
      var line, rest := lines[0], lines[1..];
      MoreStep(entries, pending, line);
      var scan := Scan(entries, true, pending);
      FirstStep(scan, Step(scan, InFront(line)), InFront(line), Indent(rest));
      BlankLines(entries, pending + [line], rest);
      assert pending + [line] + rest == pending + lines;
    }
  }

  lemma {:induction false} IndentAppend(a: seq<string>, b: seq<string>)
    ensures Indent(a + b) == Indent(a) + Indent(b)
  {
    if a == [] {
      assert a + b == b;
    } else {
      IndentAppend(a[1..], b);
      assert (a + b)[0] == a[0] && (a + b)[1..] == a[1..] + b;
      Grouped([InFront(a[0])], Indent(a[1..]), Indent(b));
    }
  }

  lemma TextIsRead(scan: Scan, f: Field)
    requires WellFormed(f) && EndsInText(f) && scan.Scan?
    ensures Steps(scan, [HeadLine(f)] + Indent(f.more)) == Scan(scan.entries + [EntryOf(f)], true, [])
  {
    HeadStep(scan, f);
    var e := EntryOf(f.(more := []));
    FirstStep(scan, Scan(scan.entries + [e], true, []), HeadLine(f), Indent(f.more));
    if f.more == [] {
      assert f.(more := []) == f;
    } else {
      MoreLines(scan.entries + [e], [], f.more);
      WithMore(scan.entries, f);
    }
  }

  /** Reading a field gives it without the blank lines at its end, which stay pending. */
  lemma FieldIsRead(scan: Scan, f: Field)
    requires WellFormed(f) && scan.Scan?
    ensures Steps(scan, [HeadLine(f)] + Indent(f.more)) ==
            Scan(scan.entries + [EntryOf(StripField(f))], true, f.more[|Stripped(f.more)|..])
  {
    var kept := StripField(f);
    var blank := f.more[|kept.more|..];
    StrippedFacts(f.more);
    StripIsWellFormed(f);
    TextIsRead(scan, kept);
    LinesApart(HeadLine(f), f.more, kept.more, blank);
    PendingIsRead(scan, Scan(scan.entries + [EntryOf(kept)], true, []), [HeadLine(kept)] + Indent(kept.more), blank);
  }

  lemma LinesApart(head: string, more: seq<string>, kept: seq<string>, blank: seq<string>)
    requires more == kept + blank
    ensures [head] + Indent(more) == ([head] + Indent(kept)) + Indent(blank)
  {
    IndentAppend(kept, blank);
  }

  lemma StripIsWellFormed(f: Field)
    requires WellFormed(f)
    ensures WellFormed(StripField(f)) && EndsInText(StripField(f)) && HeadLine(StripField(f)) == HeadLine(f)
  {
    StrippedFacts(f.more);
    assert forall i | 0 <= i < |Stripped(f.more)| :: Stripped(f.more)[i] == f.more[i];
  }

  lemma PendingIsRead(scan: Scan, next: Scan, lines: seq<string>, blank: seq<string>)
    requires Steps(scan, lines) == next && next.Scan? && next.open && next.entries != [] && next.pending == []
    requires AllBlank(blank)
    ensures Steps(scan, lines + Indent(blank)) == next.(pending := blank)
  {
    StepsAppend(scan, lines, Indent(blank));
    BlankLines(next.entries, [], blank);
    assert [] + blank == blank;
  }

  lemma WithMore(entries: seq<Entry>, f: Field)
    ensures Extend(entries + [EntryOf(f.(more := []))], [] + f.more) == entries + [EntryOf(f)]
  {
    var e := EntryOf(f.(more := []));
    assert [] + f.more == f.more;
    ExtendNew(entries, e, f.more);
    assert e.values + f.more == EntryOf(f).values;
  }

  lemma {:induction false} FieldsAreRead(fields: seq<Field>)
    requires AllWellFormed(fields)
    ensures Forward(LinesOf(fields)).Scan? && Forward(LinesOf(fields)).entries == EntriesOf(StripAll(fields))
  {
    if fields != [] {
      var before, f := fields[..|fields| - 1], fields[|fields| - 1];
      FieldsAreRead(before);
      ForwardAppend(LinesOf(before), [HeadLine(f)] + Indent(f.more));
      FieldIsRead(Forward(LinesOf(before)), f);
    }
  }

  // Lines after the last field that do not matter.
  lemma {:induction false} BlanksAreSkipped(scan: Scan, blanks: seq<string>)
    requires scan.Scan? && forall i | 0 <= i < |blanks| :: blanks[i] == ""
    ensures Steps(scan, blanks).Scan? && Steps(scan, blanks).entries == scan.entries
    decreases |blanks|
  {
    if blanks != [] { BlanksAreSkipped(Step(scan, blanks[0]), blanks[1..]); }
  }

  lemma {:induction false} IndentHasNone(lines: seq<string>)
    requires forall i | 0 <= i < |lines| :: '\n' !in lines[i]
    ensures forall i | 0 <= i < |Indent(lines)| :: '\n' !in Indent(lines)[i] && Indent(lines)[i] != ""
  {
    if lines != [] {
      assert '\n' !in lines[0];
      assert forall i | 0 <= i < |lines| - 1 :: lines[1..][i] == lines[i + 1];
      IndentHasNone(lines[1..]);
    }
  }

  lemma {:induction false} NoNewlines(fields: seq<Field>)
    requires AllWellFormed(fields)
    ensures forall i | 0 <= i < |LinesOf(fields)| :: '\n' !in LinesOf(fields)[i] && LinesOf(fields)[i] != ""
  {
    if fields != [] {
      var before, f := fields[..|fields| - 1], fields[|fields| - 1];
      NoNewlines(before);
      HeadIsKeyLine(f);
      assert '\n' !in HeadLine(f);
      IndentHasNone(f.more);
    }
  }

  // The fields as a text, with any number of empty lines after them.
  function Print(fields: seq<Field>, blanks: seq<string>): string {
    Join(LinesOf(fields) + blanks, "\n")
  }

  lemma SameEntry(f: Field)
    ensures EntryOf(StripField(f)) == EntryOf(f) <==> EndsInText(f)
  {
    StrippedFacts(f.more);
    assert |EntryOf(f).values| - |EntryOf(StripField(f)).values| == |f.more| - |Stripped(f.more)|;
  }

  /** What is read back are the fields themselves exactly if none of them ends in a blank line. */
  lemma FieldsAreReadExactly(fields: seq<Field>)
    requires AllWellFormed(fields)
    ensures Forward(LinesOf(fields)).Scan?
    ensures Forward(LinesOf(fields)).entries == EntriesOf(fields) <==>
            forall i | 0 <= i < |fields| :: EndsInText(fields[i])
  {
    FieldsAreRead(fields);
    forall i | 0 <= i < |fields|
      ensures EntriesOf(StripAll(fields))[i] == EntriesOf(fields)[i] <==> EndsInText(fields[i])
    {
      SameEntry(fields[i]);
    }
  }

  lemma StripKeepsKeys(fields: seq<Field>)
    ensures Distinct(EntriesOf(StripAll(fields))) <==> Distinct(EntriesOf(fields))
  {
    var a, b := EntriesOf(StripAll(fields)), EntriesOf(fields);
    assert forall i | 0 <= i < |fields| :: a[i].key == b[i].key;
  }

  /**
   A text written from fields is read back as the map of the fields without the blank lines at their ends,
   unless two have the same key.
   */
  lemma PrintedIsParsed(fields: seq<Field>, blanks: seq<string>)
    requires AllWellFormed(fields) && forall i | 0 <= i < |blanks| :: blanks[i] == ""
    ensures Parsed(Print(fields, blanks)) ==
            if Distinct(EntriesOf(fields)) then Some(AsMap(EntriesOf(StripAll(fields)))) else None
  {
    PrintedIsScanned(fields, blanks);
    ParsedIsForward(Print(fields, blanks));
    StripKeepsKeys(fields);
  }

  lemma PrintedIsScanned(fields: seq<Field>, blanks: seq<string>)
    requires AllWellFormed(fields) && forall i | 0 <= i < |blanks| :: blanks[i] == ""
    ensures var scan := Forward(Split(Print(fields, blanks), '\n'));
            scan.Scan? && scan.entries == EntriesOf(StripAll(fields))
  {
    var lines := LinesOf(fields) + blanks;
    FieldsAreRead(fields);
    ForwardAppend(LinesOf(fields), blanks);
    BlanksAreSkipped(Forward(LinesOf(fields)), blanks);
    if lines == [] {
      EmptyIsBlank();
    } else {
      NoNewlines(fields);
      SplitJoin(lines, '\n');
    }
  }

  lemma EmptyIsBlank()
    ensures Forward(Split("", '\n')) == Scan([], false, [])
  {
    assert Split("", '\n') == [""] && Init([""]) == [];
    assert Forward([]) == Scan([], false, []);
  }

  // ---- When the map is the one that was written ----

  function ValueOf(f: Field): string {
    Join(EntryOf(f).values, "\n")
  }

  // Its value is read back: it ends in text, or is nothing but one empty line, which counts for nothing.
  predicate Survives(f: Field) {
    EndsInText(f) || (f.first.None? && f.more == [""])
  }

  lemma {:induction false} JoinLength(parts: seq<string>)
    ensures |Join(parts, "\n")| >= |parts| - 1
    ensures |parts| == 1 ==> Join(parts, "\n") == parts[0]
  {
    if |parts| > 1 { JoinLength(parts[1..]); }
  }

  lemma {:induction false} JoinGrows(a: seq<string>, b: seq<string>)
    requires a != [] && b != []
    ensures |Join(a + b, "\n")| > |Join(a, "\n")|
  {
    assert (a + b)[0] == a[0] && (a + b)[1..] == a[1..] + b;
    if |a| == 1 {
      assert a[1..] + b == b;
    } else {
      JoinGrows(a[1..], b);
    }
  }

  // The value of the lines a changes when the lines b are added, unless that is one empty line to none.
  lemma ValueChanges(a: seq<string>, b: seq<string>)
    ensures Join(a + b, "\n") == Join(a, "\n") <==> b == [] || (a == [] && b == [""])
  {
    if b == [] {
      assert a + b == a;
    } else if a != [] {
      JoinGrows(a, b);
    } else {
      assert a + b == b;
      JoinLength(b);
      assert b == [""] <==> |b| == 1 && b[0] == "";
    }
  }

  lemma SameValue(f: Field)
    ensures ValueOf(StripField(f)) == ValueOf(f) <==> Survives(f)
  {
    var blank := f.more[|Stripped(f.more)|..];
    ValuesApart(f, blank);
    ValueChanges(EntryOf(StripField(f)).values, blank);
    OneEmptyLine(f, EntryOf(StripField(f)).values, blank);
  }

  lemma ValuesApart(f: Field, blank: seq<string>)
    requires blank == f.more[|Stripped(f.more)|..]
    ensures f.more == Stripped(f.more) + blank && (blank == [] <==> EndsInText(f))
    ensures EntryOf(f).values == EntryOf(StripField(f)).values + blank
  {
    StrippedFacts(f.more);
    Grouped(match f.first case None => [] case Some(text) => [text], Stripped(f.more), blank);
  }

  lemma Grouped<T>(a: seq<T>, b: seq<T>, c: seq<T>)
    ensures a + (b + c) == a + b + c
  {
  }

  lemma OneEmptyLine(f: Field, kept: seq<string>, blank: seq<string>)
    requires f.more == Stripped(f.more) + blank && kept == EntryOf(StripField(f)).values
    requires blank == [] <==> EndsInText(f)
    ensures blank == [] || (kept == [] && blank == [""]) <==> Survives(f)
  {
    assert kept == [] <==> f.first.None? && Stripped(f.more) == [];
    if f.more == [""] {
      assert Blank("") && [""][..0] == [];
      assert Stripped([""]) == Stripped([]) == [];
    }
  }

  /**
   Printing and parsing give back exactly the fields that were written, if and only if no two have the same key
   and none ends in a blank line, but for a field that is nothing else than one empty line.
   */
  lemma PrintedIsParsedExactly(fields: seq<Field>, blanks: seq<string>)
    requires AllWellFormed(fields) && forall i | 0 <= i < |blanks| :: blanks[i] == ""
    ensures Parsed(Print(fields, blanks)) == Some(AsMap(EntriesOf(fields))) <==>
            Distinct(EntriesOf(fields)) && AllSurvive(fields)
  {
    PrintedIsParsed(fields, blanks);
    if Distinct(EntriesOf(fields)) { MapsSurvive(fields); }
  }

  predicate AllSurvive(fields: seq<Field>) {
    forall i | 0 <= i < |fields| :: Survives(fields[i])
  }

  lemma MapsSurvive(fields: seq<Field>)
    requires Distinct(EntriesOf(fields))
    ensures AsMap(EntriesOf(StripAll(fields))) == AsMap(EntriesOf(fields)) <==> AllSurvive(fields)
  {
    StripKeepsKeys(fields);
    StripKeepsValues(fields);
    MapsAreEqual(EntriesOf(StripAll(fields)), EntriesOf(fields));
  }

  // Two lists of entries with the same keys, in the same order.
  predicate SameKeys(a: seq<Entry>, b: seq<Entry>) {
    |a| == |b| && forall i | 0 <= i < |a| :: a[i].key == b[i].key
  }

  predicate SameValues(a: seq<Entry>, b: seq<Entry>)
    requires |a| == |b|
  {
    forall i | 0 <= i < |a| :: SameText(a[i], b[i])
  }

  lemma StripKeepsValues(fields: seq<Field>)
    ensures SameKeys(EntriesOf(StripAll(fields)), EntriesOf(fields))
    ensures SameValues(EntriesOf(StripAll(fields)), EntriesOf(fields)) <==>
            AllSurvive(fields)
  {
    var a, b := EntriesOf(StripAll(fields)), EntriesOf(fields);
    forall i | 0 <= i < |fields|
      ensures a[i].key == b[i].key
      ensures SameText(a[i], b[i]) <==> Survives(fields[i])
    {
      assert a[i] == EntryOf(StripField(fields[i])) && b[i] == EntryOf(fields[i]);
      SameValue(fields[i]);
    }
  }

  predicate SameText(a: Entry, b: Entry) {
    Join(a.values, "\n") == Join(b.values, "\n")
  }

  lemma {:induction false} MapsAreEqual(a: seq<Entry>, b: seq<Entry>)
    requires SameKeys(a, b) && Distinct(a) && Distinct(b)
    ensures AsMap(a) == AsMap(b) <==> SameValues(a, b)
  {
    AsMapEntries(a);
    AsMapEntries(b);
    if SameValues(a, b) {
      forall key ensures key in AsMap(a) <==> key in AsMap(b)
                 ensures key in AsMap(a) ==> AsMap(a)[key] == AsMap(b)[key]
      {
        SameAt(a, b, key);
      }
    } else {
      var i :| 0 <= i < |a| && !SameText(a[i], b[i]);
      assert AsMap(a)[a[i].key] != AsMap(b)[b[i].key];
    }
  }

  lemma SameAt(a: seq<Entry>, b: seq<Entry>, key: string)
    requires SameKeys(a, b) && SameValues(a, b) && Distinct(a) && Distinct(b)
    ensures key in AsMap(a) <==> key in AsMap(b)
    ensures key in AsMap(a) ==> AsMap(a)[key] == AsMap(b)[key]
  {
    AsMapEntries(a);
    AsMapEntries(b);
    if key in AsMap(a) {
      var i :| 0 <= i < |a| && a[i].key == key;
      assert b[i].key == key;
    }
    if key in AsMap(b) {
      var i :| 0 <= i < |b| && b[i].key == key;
      assert a[i].key == key;
    }
  }

  /** A field that does not survive: of "k:" with the one value line " ", which is blank, nothing is left. */
  lemma TrailingBlankIsLost()
    ensures var f := Field("k", None, [" "]);
            WellFormed(f) && ValueOf(f) == " " && Parsed(Print([f], [])) != Some(AsMap(EntriesOf([f])))
  {
    var f := Field("k", None, [" "]);
    assert Blank(" ") by { assert Space(' ') && " "[1..] == ""; }
    assert !Survives(f) by { assert f.more[0] == " " && " " != ""; }
    assert AllWellFormed([f]) && [f][0] == f;
    PrintedIsParsedExactly([f], []);
    assert EntryOf(f).values == [" "];
  }

  // The lines of a value, with newlines between them.
  function LinesText(values: seq<string>): string {
    if values == [] then "" else if |values| == 1 then values[0] else values[0] + "\n" + LinesText(values[1..])
  }

  lemma {:induction false} LinesTextIsJoin(values: seq<string>)
    ensures LinesText(values) == Join(values, "\n")
  {
    if |values| > 1 { LinesTextIsJoin(values[1..]); }
  }

  /**
   What the program reads of fields with different keys: those keys and no others, each with the lines of its field, up to
   the last that is not blank, with newlines between them.
   */
  lemma {:induction false} ValuesAreRead(fields: seq<Field>, blanks: seq<string>)
    requires AllWellFormed(fields) && (forall i | 0 <= i < |blanks| :: blanks[i] == "") && Distinct(EntriesOf(fields))
    ensures var r := Parsed(Print(fields, blanks));
            && r.Some?
            && (forall key :: key in r.value <==> exists i :: 0 <= i < |fields| && fields[i].key == key)
            && forall i | 0 <= i < |fields| ::
                 fields[i].key in r.value && r.value[fields[i].key] == LinesText(EntryOf(StripField(fields[i])).values)
  {
    PrintedIsParsed(fields, blanks);
    StripKeepsKeys(fields);
    var entries := EntriesOf(StripAll(fields));
    AsMapEntries(entries);
    forall i | 0 <= i < |fields| ensures entries[i].key == fields[i].key {
      LinesTextIsJoin(EntryOf(StripField(fields[i])).values);
    }
    forall i | 0 <= i < |fields|
      ensures AsMap(entries)[fields[i].key] == LinesText(EntryOf(StripField(fields[i])).values)
    {
      LinesTextIsJoin(EntryOf(StripField(fields[i])).values);
      assert entries[i].key == fields[i].key;
    }
  }
}

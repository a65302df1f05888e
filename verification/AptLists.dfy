/** Lists of stanzas with empty lines between them, looked up by one of their fields. */
module AptLists {
  import opened Wrappers
  import opened Text
  import opened Apt
  import opened AptPrinting

  // data.split("\n\n")
  function Sections(data: string): seq<string>
    decreases |data|
  {
    match PairAt(data, '\n')
    case None => [data]
    case Some(n) => [data[..n]] + Sections(data[n + 2..])
  }

  type Stanza = map<string, string>

  function Lookup(sections: seq<string>, sortKey: string, lookup: map<string, Stanza>): Option<map<string, Stanza>>
    decreases |sections|
  {
    if sections == [] then Some(lookup)
    else if Blank(sections[0]) then Lookup(sections[1..], sortKey, lookup)
    else
      match Parsed(sections[0])
      case None => None
      case Some(kvs) =>
        if sortKey !in kvs || kvs[sortKey] in lookup then None
        else Lookup(sections[1..], sortKey, lookup[kvs[sortKey] := kvs])
  }

  method ParseAptKvList(data: string, sortKey: string) returns (r: Option<map<string, Stanza>>)
    ensures r == Lookup(Sections(data), sortKey, map[])
  {
    var sections := Sections(data);
    var lookup: map<string, Stanza> := map[];
    for i := 0 to |sections|
      invariant Lookup(sections, sortKey, map[]) == Lookup(sections[i..], sortKey, lookup)
    {
      assert sections[i..][1..] == sections[i + 1..] && sections[i..][0] == sections[i];
      if Blank(sections[i]) { continue; }
      var kvs := ParseAptKvs(sections[i]);
      if kvs.None? || sortKey !in kvs.value || kvs.value[sortKey] in lookup { return None; }
      lookup := lookup[kvs.value[sortKey] := kvs.value];
    }
    r := Some(lookup);
  }

  // ---- Sections ----

  // A section that can be told from its neighbours.
  predicate Compact(s: string) {
    s != "" && s[|s| - 1] != '\n' && PairAt(s, '\n').None?
  }

  predicate AllCompact(parts: seq<string>) {
    forall i | 0 <= i < |parts| :: Compact(parts[i])
  }

  lemma FirstSection(s: string, rest: string)
    requires Compact(s)
    ensures Sections(s + "\n\n" + rest) == [s] + Sections(rest)
  {
    var all := s + "\n\n" + rest;
    PairAfter(s, '\n', rest);
    assert ['\n', '\n'] == "\n\n";
    assert all[..|s|] == s && all[|s| + 2..] == rest;
  }

  // The last section may be followed by a newline.
  lemma {:induction false} SectionsOfJoin(parts: seq<string>, last: string)
    requires AllCompact(parts) && PairAt(last, '\n').None?
    ensures Sections(Join(parts + [last], "\n\n")) == parts + [last]
  {
    var all := parts + [last];
    if parts != [] {
      assert all[0] == parts[0] && all[1..] == parts[1..] + [last];
      SectionsOfJoin(parts[1..], last);
      FirstSection(parts[0], Join(all[1..], "\n\n"));
    }
  }

  // Or by anything that begins with an empty line.
  lemma {:induction false} SectionsThen(parts: seq<string>, rest: string)
    requires parts != [] && AllCompact(parts)
    ensures Sections(Join(parts, "\n\n") + "\n\n" + rest) == parts + Sections(rest)
  {
    if |parts| == 1 {
      FirstSection(parts[0], rest);
      assert parts == [parts[0]];
    } else {
      var tail := Join(parts[1..], "\n\n");
      SectionsThen(parts[1..], rest);
      FirstSection(parts[0], tail + "\n\n" + rest);
      Regroup(parts[0], tail, rest);
      assert parts == [parts[0]] + parts[1..];
      assert [parts[0]] + (parts[1..] + Sections(rest)) == ([parts[0]] + parts[1..]) + Sections(rest);
    }
  }

  lemma Regroup(a: string, b: string, c: string)
    ensures (a + "\n\n" + b) + "\n\n" + c == a + "\n\n" + (b + "\n\n" + c)
  {
  }

  function Newlines(n: nat): string {
    if n == 0 then "" else "\n" + Newlines(n - 1)
  }

  lemma {:induction false} NewlinesAreBlank(n: nat)
    ensures Blank(Newlines(n)) && AllBlank(Sections(Newlines(n)))
  {
    if n > 0 {
      NewlinesAreBlank(n - 1);
      assert Space('\n') && Newlines(n)[1..] == Newlines(n - 1);
    }
    if n >= 2 {
      NewlinesAreBlank(n - 2);
      assert Newlines(n)[1..] == Newlines(n - 1) && Newlines(n - 1)[1..] == Newlines(n - 2);
      assert Newlines(n)[1] == Newlines(n - 1)[0] == '\n' && Newlines(n)[2..] == Newlines(n - 2);
      assert PairAt(Newlines(n), '\n') == Some(0) && Blank("");
    }
  }

  lemma {:induction false} NoGap(line: string)
    requires '\n' !in line
    ensures PairAt(line, '\n').None?
  {
    if |line| >= 2 { NoGap(line[1..]); }
  }

  lemma {:induction false} GapBeyond(line: string, rest: string)
    requires line != "" && '\n' !in line && Compact(rest) && rest[0] != '\n'
    ensures Compact(line + "\n" + rest)
  {
    var s := line + "\n" + rest;
    assert s[|s| - 1] == rest[|rest| - 1];
    assert s[0] == line[0] && s[1..] == line[1..] + "\n" + rest;
    if |line| == 1 {
      assert s[1..] == "\n" + rest && s[1..][1..] == rest;
      assert PairAt(s[1..], '\n') == match PairAt(rest, '\n') case None => None case Some(n) => Some(n + 1);
    } else {
      GapBeyond(line[1..], rest);
    }
  }

  lemma {:induction false} JoinedLinesAreCompact(lines: seq<string>)
    requires lines != [] && forall i | 0 <= i < |lines| :: '\n' !in lines[i] && lines[i] != ""
    ensures Compact(Join(lines, "\n")) && Join(lines, "\n")[0] == lines[0][0] != '\n'
  {
    NoGap(lines[0]);
    assert lines[0][0] in lines[0] && lines[0][|lines[0]| - 1] in lines[0];
    if |lines| > 1 {
      JoinedLinesAreCompact(lines[1..]);
      GapBeyond(lines[0], Join(lines[1..], "\n"));
    }
  }

  // ---- Lists of stanzas ----

  ghost predicate WellFormedList(stanzas: seq<seq<Field>>) {
    forall i | 0 <= i < |stanzas| :: stanzas[i] != [] && AllWellFormed(stanzas[i])
  }

  function Texts(stanzas: seq<seq<Field>>): (r: seq<string>)
    ensures |r| == |stanzas| && forall i | 0 <= i < |r| :: r[i] == Print(stanzas[i], [])
  {
    seq(|stanzas|, i requires 0 <= i < |stanzas| => Print(stanzas[i], []))
  }

  // The stanzas as a text, with any number of newlines behind the last one.
  function PrintList(stanzas: seq<seq<Field>>, newlines: nat): string {
    Join(Texts(stanzas), "\n\n") + Newlines(newlines)
  }

  lemma StanzaText(fields: seq<Field>)
    requires fields != [] && AllWellFormed(fields)
    ensures Compact(Print(fields, [])) && !Blank(Print(fields, []))
    ensures Parsed(Print(fields, [])) ==
            if Distinct(EntriesOf(fields)) then Some(AsMap(EntriesOf(StripAll(fields)))) else None
  {
    var lines := LinesOf(fields);
    assert lines + [] == lines;
    NoNewlines(fields);
    FirstLineHasColon(fields);
    JoinedLinesAreCompact(lines);
    PrintedIsParsed(fields, []);
    var text := Print(fields, []);
    if Blank(text) {
      var k := |fields[0].key|;
      assert text[k] == ':' by { JoinStarts(lines); }
      BlankIsSpace(text, k);
    }
  }

  lemma JoinStarts(lines: seq<string>)
    requires lines != []
    ensures lines[0] <= Join(lines, "\n")
  {
  }

  lemma {:induction false} FirstLineHasColon(fields: seq<Field>)
    requires fields != []
    ensures var lines := LinesOf(fields);
            lines != [] && |fields[0].key| < |lines[0]| && lines[0][|fields[0].key|] == ':'
  {
    if |fields| > 1 { FirstLineHasColon(fields[..|fields| - 1]); } else { assert LinesOf(fields[..0]) == []; }
  }

  // What reading a stanza gives, without the blank lines at the ends of its fields; None if it gives a key twice.
  function StanzaOf(fields: seq<Field>): Option<Stanza> {
    if Distinct(EntriesOf(fields)) then Some(AsMap(EntriesOf(StripAll(fields)))) else None
  }

  function StanzasOf(stanzas: seq<seq<Field>>): (r: seq<Option<Stanza>>)
    ensures |r| == |stanzas| && forall i | 0 <= i < |r| :: r[i] == StanzaOf(stanzas[i])
  {
    seq(|stanzas|, i requires 0 <= i < |stanzas| => StanzaOf(stanzas[i]))
  }

  // What can be looked up: every stanza is a map, has the sort key, and is the only one with that value.
  predicate Sortable(stanzas: seq<Option<Stanza>>, sortKey: string) {
    && (forall i | 0 <= i < |stanzas| :: stanzas[i].Some? && sortKey in stanzas[i].value)
    && forall i, j | 0 <= i < j < |stanzas| :: stanzas[i].value[sortKey] != stanzas[j].value[sortKey]
  }

  // The lookup that belongs to the stanzas.
  ghost predicate LooksUp(lookup: map<string, Stanza>, stanzas: seq<Option<Stanza>>, sortKey: string)
    requires Sortable(stanzas, sortKey)
  {
    && (forall i | 0 <= i < |stanzas| ::
          var kvs := stanzas[i].value; kvs[sortKey] in lookup && lookup[kvs[sortKey]] == kvs)
    && forall key | key in lookup :: exists i :: 0 <= i < |stanzas| && stanzas[i].value[sortKey] == key
  }

  lemma SortableSnoc(stanzas: seq<Option<Stanza>>, last: Option<Stanza>, sortKey: string, lookup: map<string, Stanza>)
    requires Sortable(stanzas, sortKey) && LooksUp(lookup, stanzas, sortKey)
    ensures Sortable(stanzas + [last], sortKey) <==>
              last.Some? && sortKey in last.value && last.value[sortKey] !in lookup
    ensures Sortable(stanzas + [last], sortKey) ==>
              LooksUp(lookup[last.value[sortKey] := last.value], stanzas + [last], sortKey)
  {
    var all := stanzas + [last];
    var n := |stanzas|;
    assert all[n] == last && forall i | 0 <= i < n :: all[i] == stanzas[i];
    if Sortable(all, sortKey) {
      var lookup' := lookup[last.value[sortKey] := last.value];
      forall key | key in lookup' ensures exists i :: 0 <= i < |all| && all[i].value[sortKey] == key {
        if key == last.value[sortKey] {
          assert all[n].value[sortKey] == key;
        } else {
          var i :| 0 <= i < n && stanzas[i].value[sortKey] == key;
          assert all[i].value[sortKey] == key;
        }
      }
    }
  }

  // One section of the list.
  lemma LookupSection(fields: seq<Field>, rest: seq<string>, sortKey: string, lookup: map<string, Stanza>)
    requires fields != [] && AllWellFormed(fields)
    ensures var kvs := StanzaOf(fields);
            Lookup([Print(fields, [])] + rest, sortKey, lookup) ==
            if kvs.None? || sortKey !in kvs.value || kvs.value[sortKey] in lookup then None
            else Lookup(rest, sortKey, lookup[kvs.value[sortKey] := kvs.value])
  {
    StanzaText(fields);
    assert ([Print(fields, [])] + rest)[1..] == rest;
  }

  // Whether one more stanza can be added to the lookup.
  predicate Fits(kvs: Option<Stanza>, sortKey: string, lookup: map<string, Stanza>) {
    kvs.Some? && sortKey in kvs.value && kvs.value[sortKey] !in lookup
  }

  function With(kvs: Option<Stanza>, sortKey: string, lookup: map<string, Stanza>): map<string, Stanza>
    requires Fits(kvs, sortKey, lookup)
  {
    lookup[kvs.value[sortKey] := kvs.value]
  }

  lemma TextsFrom(stanzas: seq<seq<Field>>, n: nat)
    requires n < |stanzas|
    ensures Texts(stanzas)[n..] == [Print(stanzas[n], [])] + Texts(stanzas)[n + 1..]
  {
  }

  lemma LookupNext(stanzas: seq<seq<Field>>, n: nat, sortKey: string, lookup: map<string, Stanza>)
    requires WellFormedList(stanzas) && n < |stanzas|
    ensures var kvs := StanzasOf(stanzas)[n];
            Lookup(Texts(stanzas)[n..], sortKey, lookup) ==
            if Fits(kvs, sortKey, lookup) then Lookup(Texts(stanzas)[n + 1..], sortKey, With(kvs, sortKey, lookup)) else None
  {
    TextsFrom(stanzas, n);
    LookupSection(stanzas[n], Texts(stanzas)[n + 1..], sortKey, lookup);
  }

  lemma SortableNext(all: seq<Option<Stanza>>, n: nat, sortKey: string, lookup: map<string, Stanza>)
    requires n < |all| && Sortable(all[..n], sortKey) && LooksUp(lookup, all[..n], sortKey)
    ensures if Fits(all[n], sortKey, lookup)
            then Sortable(all[..n + 1], sortKey) && LooksUp(With(all[n], sortKey, lookup), all[..n + 1], sortKey)
            else !Sortable(all, sortKey)
  {
    assert all[..n + 1] == all[..n] + [all[n]];
    SortableSnoc(all[..n], all[n], sortKey, lookup);
    if !Fits(all[n], sortKey, lookup) { PrefixIsSortable(all, n + 1, sortKey); }
  }

  lemma {:induction false} LookupFrom(stanzas: seq<seq<Field>>, n: nat, sortKey: string, lookup: map<string, Stanza>)
    requires WellFormedList(stanzas) && n <= |stanzas|
    requires Sortable(StanzasOf(stanzas)[..n], sortKey) && LooksUp(lookup, StanzasOf(stanzas)[..n], sortKey)
    ensures var r := Lookup(Texts(stanzas)[n..], sortKey, lookup);
            && (r.Some? <==> Sortable(StanzasOf(stanzas), sortKey))
            && (r.Some? ==> LooksUp(r.value, StanzasOf(stanzas), sortKey))
    decreases |stanzas| - n
  {
    var all := StanzasOf(stanzas);
    if n == |stanzas| {
      assert all[..n] == all;
    } else {
      LookupNext(stanzas, n, sortKey, lookup);
      SortableNext(all, n, sortKey, lookup);
      if Fits(all[n], sortKey, lookup) { LookupFrom(stanzas, n + 1, sortKey, With(all[n], sortKey, lookup)); }
    }
  }

  lemma PrefixIsSortable(stanzas: seq<Option<Stanza>>, n: nat, sortKey: string)
    requires n <= |stanzas| && !Sortable(stanzas[..n], sortKey)
    ensures !Sortable(stanzas, sortKey)
  {
    assert forall i | 0 <= i < n :: stanzas[..n][i] == stanzas[i];
  }

  // ---- Newlines behind the list ----

  lemma {:induction false} LookupBlanks(sections: seq<string>, blanks: seq<string>, sortKey: string,
                                        lookup: map<string, Stanza>)
    requires AllBlank(blanks)
    ensures Lookup(sections + blanks, sortKey, lookup) == Lookup(sections, sortKey, lookup)
    decreases |sections| + |blanks|
  {
    if sections != [] {
      assert (sections + blanks)[0] == sections[0] && (sections + blanks)[1..] == sections[1..] + blanks;
      if Blank(sections[0]) {
        LookupBlanks(sections[1..], blanks, sortKey, lookup);
      } else if Fits(Parsed(sections[0]), sortKey, lookup) {
        LookupBlanks(sections[1..], blanks, sortKey, With(Parsed(sections[0]), sortKey, lookup));
      }
    } else {
      assert sections + blanks == blanks;
      if blanks != [] {
        LookupBlanks([], blanks[1..], sortKey, lookup);
        assert [] + blanks[1..] == blanks[1..];
      }
    }
  }

  lemma {:induction false} LookupLast(sections: seq<string>, a: string, b: string, sortKey: string, lookup: map<string, Stanza>)
    requires Blank(a) == Blank(b) && Parsed(a) == Parsed(b)
    ensures Lookup(sections + [a], sortKey, lookup) == Lookup(sections + [b], sortKey, lookup)
    decreases |sections|
  {
    if sections == [] {
      assert sections + [a] == [a] && sections + [b] == [b] && [a][1..] == [b][1..] == [];
    } else {
      assert (sections + [a])[0] == sections[0] && (sections + [a])[1..] == sections[1..] + [a];
      assert (sections + [b])[0] == sections[0] && (sections + [b])[1..] == sections[1..] + [b];
      if Blank(sections[0]) {
        LookupLast(sections[1..], a, b, sortKey, lookup);
      } else if Fits(Parsed(sections[0]), sortKey, lookup) {
        LookupLast(sections[1..], a, b, sortKey, With(Parsed(sections[0]), sortKey, lookup));
      }
    }
  }

  lemma {:induction false} JoinSnoc(lines: seq<string>, last: string, sep: string)
    requires lines != []
    ensures Join(lines + [last], sep) == Join(lines, sep) + sep + last
  {
    assert (lines + [last])[0] == lines[0] && (lines + [last])[1..] == lines[1..] + [last];
    if |lines| > 1 {
      JoinSnoc(lines[1..], last, sep);
      assert lines[0] + sep + (Join(lines[1..], sep) + sep + last) == Join(lines, sep) + sep + last;
    } else {
      assert lines[1..] + [last] == [last];
    }
  }

  lemma {:induction false} BlankPrefix(s: string, n: nat)
    requires n <= |s| && Blank(s)
    ensures Blank(s[..n])
  {
    if n > 0 {
      BlankPrefix(s[1..], n - 1);
      assert s[..n][1..] == s[1..][..n - 1];
    }
  }

  // A stanza with its newline.
  lemma StanzaLine(fields: seq<Field>)
    requires fields != [] && AllWellFormed(fields)
    ensures EndsFreely(Print(fields, []))
  {
    var text := Print(fields, []);
    StanzaText(fields);
    FirstLineHasColon(fields);
    assert LinesOf(fields) + [] == LinesOf(fields);
    JoinSnoc(LinesOf(fields), "", "\n");
    assert text + "\n" + "" == text + "\n";
    PrintedIsParsed(fields, [""]);
    NoPairWithNewline(text);
    assert (text + "\n")[..|text|] == text;
    if Blank(text + "\n") { BlankPrefix(text + "\n", |text|); }
  }

  lemma {:induction false} NoPairWithNewline(s: string)
    requires PairAt(s, '\n').None? && s != "" && s[|s| - 1] != '\n'
    ensures PairAt(s + "\n", '\n').None?
  {
    var t := s + "\n";
    assert t[0] == s[0] && t[1..] == s[1..] + "\n";
    if |s| > 1 { NoPairWithNewline(s[1..]); }
  }

  // Newlines behind the list change nothing.
  lemma ListWithNewlines(stanzas: seq<seq<Field>>, newlines: nat, sortKey: string)
    requires stanzas != [] && WellFormedList(stanzas)
    ensures Lookup(Sections(PrintList(stanzas, newlines)), sortKey, map[]) == Lookup(Texts(stanzas), sortKey, map[])
  {
    AllTextsAreCompact(stanzas);
    StanzaLine(stanzas[|stanzas| - 1]);
    SameLookup(Texts(stanzas), newlines, sortKey);
  }

  // A section that reads the same with a newline.
  predicate EndsFreely(s: string) {
    PairAt(s + "\n", '\n').None? && Blank(s + "\n") == Blank(s) && Parsed(s + "\n") == Parsed(s)
  }

  lemma SameLookup(texts: seq<string>, newlines: nat, sortKey: string)
    requires texts != [] && AllCompact(texts) && EndsFreely(texts[|texts| - 1])
    ensures Lookup(Sections(Join(texts, "\n\n") + Newlines(newlines)), sortKey, map[]) == Lookup(texts, sortKey, map[])
  {
    var init, last := texts[..|texts| - 1], texts[|texts| - 1];
    assert texts == init + [last];
    if newlines == 0 {
      SectionsOfJoin(init, last);
      assert Join(texts, "\n\n") + "" == Join(texts, "\n\n");
    } else if newlines == 1 {
      OneNewline(init, last, texts, sortKey);
      assert Newlines(1) == "\n" + Newlines(0) == "\n";
    } else {
      MoreNewlines(texts, newlines, sortKey);
    }
  }

  lemma OneNewline(init: seq<string>, last: string, texts: seq<string>, sortKey: string)
    requires texts == init + [last] && AllCompact(init) && EndsFreely(last)
    ensures Lookup(Sections(Join(texts, "\n\n") + "\n"), sortKey, map[]) == Lookup(texts, sortKey, map[])
  {
    SectionsOfJoin(init, last + "\n");
    LookupLast(init, last + "\n", last, sortKey, map[]);
    NewlineOfLast(init, last);
  }

  lemma MoreNewlines(texts: seq<string>, newlines: nat, sortKey: string)
    requires texts != [] && AllCompact(texts) && newlines >= 2
    ensures Lookup(Sections(Join(texts, "\n\n") + Newlines(newlines)), sortKey, map[]) == Lookup(texts, sortKey, map[])
  {
    SectionsThen(texts, Newlines(newlines - 2));
    NewlinesAreBlank(newlines - 2);
    LookupBlanks(texts, Sections(Newlines(newlines - 2)), sortKey, map[]);
    TwoNewlines(Join(texts, "\n\n"), newlines);
  }

  lemma TwoNewlines(s: string, newlines: nat)
    requires newlines >= 2
    ensures s + Newlines(newlines) == s + "\n\n" + Newlines(newlines - 2)
  {
    assert Newlines(newlines) == "\n" + ("\n" + Newlines(newlines - 2));
  }

  lemma NewlineOfLast(init: seq<string>, last: string)
    ensures Join(init + [last], "\n\n") + "\n" == Join(init + [last + "\n"], "\n\n")
  {
    if init != [] {
      JoinSnoc(init, last, "\n\n");
      JoinSnoc(init, last + "\n", "\n\n");
    }
  }

  lemma AllTextsAreCompact(stanzas: seq<seq<Field>>)
    requires WellFormedList(stanzas)
    ensures AllCompact(Texts(stanzas))
  {
    forall i | 0 <= i < |stanzas| ensures Compact(Texts(stanzas)[i]) {
      StanzaText(stanzas[i]);
    }
  }

  /**
   A list of stanzas that is written out, with any number of newlines behind it, is read back, each under its sort
   key, exactly if every stanza gives each key once, has the sort key, and shares its value with no other.
   */
  lemma ListIsParsed(stanzas: seq<seq<Field>>, newlines: nat, sortKey: string)
    requires WellFormedList(stanzas)
    ensures var r := Lookup(Sections(PrintList(stanzas, newlines)), sortKey, map[]);
            && (r.Some? <==> Sortable(StanzasOf(stanzas), sortKey))
            && (r.Some? ==> LooksUp(r.value, StanzasOf(stanzas), sortKey))
  {
    if stanzas == [] {
      NewlinesAreBlank(newlines);
      assert PrintList(stanzas, newlines) == Newlines(newlines);
      LookupBlanks([], Sections(Newlines(newlines)), sortKey, map[]);
      assert [] + Sections(Newlines(newlines)) == Sections(Newlines(newlines));
    } else {
      ListWithNewlines(stanzas, newlines, sortKey);
      assert StanzasOf(stanzas)[..0] == [] && Texts(stanzas)[0..] == Texts(stanzas);
      LookupFrom(stanzas, 0, sortKey, map[]);
    }
  }
}

/**
 The files of an apt repository (parse_apt_kvs and parse_apt_kv_list in platform/spire/src/packages.py): fields
 with continuation lines, read backwards, and their syntax by section 5.1 of the Debian Policy Manual.
 */
module Apt {
  import opened Wrappers
  import opened Text

  // str.isspace
  predicate Space(c: char) {
    IsSpace(c) || '\U{001C}' <= c <= '\U{001F}'
  }

  // not line.strip()
  predicate Blank(line: string) {
    line == "" || (Space(line[0]) && Blank(line[1..]))
  }

  predicate Indented(line: string) {
    line != "" && line[0] == ' '
  }

  // A field and the lines of its value.
  datatype Entry = Entry(key: string, values: seq<string>)

  // Where ": " first occurs, if it does.
  function Colon(line: string): Option<nat> {
    if |line| < 2 then None
    else if line[0] == ':' && line[1] == ' ' then Some(0)
    else
      match Colon(line[1..])
      case None => None
      case Some(n) => Some(n + 1)
  }

  lemma {:induction false} ColonIsThere(line: string)
    ensures Colon(line).Some? ==> Colon(line).value + 2 <= |line|
  {
    if |line| >= 2 { ColonIsThere(line[1..]); }
  }

  // A line that is not indented; None if no key can be made out.
  function KeyLine(line: string): Option<Entry> {
    if line != "" && line[|line| - 1] == ':' && ':' !in line[..|line| - 1] then Some(Entry(line[..|line| - 1], []))
    else
      ColonIsThere(line);
      match Colon(line)
      case None => None
      case Some(n) => Some(Entry(line[..n], [line[n + 2..]]))
  }

  // ---- Reading backwards, as the program does ----

  function Last(lines: seq<string>): string
    requires lines != []
  {
    lines[|lines| - 1]
  }

  function Init(lines: seq<string>): seq<string>
    requires lines != []
  {
    lines[..|lines| - 1]
  }

  function Backward(lines: seq<string>): Option<seq<Entry>>
    decreases |lines|, 1
  {
    if lines == [] then Some([])
    else if Blank(Last(lines)) then Backward(Init(lines))
    else Group(lines, [])
  }

  // The lines of one field, of which the last have been collected.
  function Group(lines: seq<string>, collected: seq<string>): Option<seq<Entry>>
    decreases |lines|, 0
  {
    if lines == [] || Last(lines) == "" then None
    else if Indented(Last(lines)) then Group(Init(lines), [Last(lines)[1..]] + collected)
    else
      match KeyLine(Last(lines))
      case None => None
      case Some(e) =>
        match Backward(Init(lines))
        case None => None
        case Some(entries) => Some(entries + [Entry(e.key, e.values + collected)])
  }

  // The fields are put into a map from the last to the first; two of the same key are refused.
  function Fill(entries: seq<Entry>, kvs: map<string, string>): Option<map<string, string>>
    decreases |entries|
  {
    if entries == [] then Some(kvs)
    else
      var e := entries[|entries| - 1];
      if e.key in kvs then None else Fill(entries[..|entries| - 1], kvs[e.key := Join(e.values, "\n")])
  }

  function FillAll(entries: Option<seq<Entry>>, kvs: map<string, string>): Option<map<string, string>> {
    match entries
    case None => None
    case Some(es) => Fill(es, kvs)
  }

  // ---- Reading forwards ----

  // The fields so far; whether indented lines can follow; and blank ones that only count if others follow.
  datatype Scan = Failed | Scan(entries: seq<Entry>, open: bool, pending: seq<string>)

  function Extend(entries: seq<Entry>, values: seq<string>): seq<Entry>
    requires entries != []
  {
    var e := entries[|entries| - 1];
    entries[|entries| - 1 := Entry(e.key, e.values + values)]
  }

  function Step(scan: Scan, line: string): Scan {
    if scan.Failed? then Failed
    else if !Indented(line) then
      if Blank(line) then Scan(scan.entries, false, [])
      else
        match KeyLine(line)
        case None => Failed
        case Some(e) => Scan(scan.entries + [e], true, [])
    else if !scan.open || scan.entries == [] then (if Blank(line) then scan else Failed)
    else if Blank(line) then scan.(pending := scan.pending + [line[1..]])
    else Scan(Extend(scan.entries, scan.pending + [line[1..]]), true, [])
  }

  function Forward(lines: seq<string>): Scan {
    if lines == [] then Scan([], false, []) else Step(Forward(Init(lines)), Last(lines))
  }

  lemma {:induction false} OpenHasEntry(lines: seq<string>)
    ensures var scan := Forward(lines); scan.Scan? && scan.open ==> scan.entries != []
  {
    if lines != [] { OpenHasEntry(Init(lines)); }
  }

  lemma {:induction false} BlankIsSpace(line: string, i: nat)
    requires Blank(line) && i < |line|
    ensures Space(line[i])
  {
    if i > 0 { BlankIsSpace(line[1..], i - 1); }
  }

  lemma BlankHasNoKey(line: string)
    requires Blank(line)
    ensures KeyLine(line).None?
  {
    NoColon(line);
    if line != "" { BlankIsSpace(line, |line| - 1); }
  }

  lemma {:induction false} NoColon(line: string)
    requires Blank(line)
    ensures Colon(line).None?
  {
    if |line| >= 2 { NoColon(line[1..]); }
  }

  lemma ExtendTwice(entries: seq<Entry>, a: seq<string>, b: seq<string>, c: seq<string>)
    requires entries != [] && c == a + b
    ensures Extend(Extend(entries, a), b) == Extend(entries, c)
  {
    var e := entries[|entries| - 1];
    assert e.values + a + b == e.values + (a + b);
  }

  lemma ExtendNew(entries: seq<Entry>, e: Entry, values: seq<string>)
    ensures Extend(entries + [e], values) == entries + [Entry(e.key, e.values + values)]
  {
  }

  // What the reader from behind makes of what the reader from the front has seen.
  function AsGroup(scan: Scan, collected: seq<string>): Option<seq<Entry>> {
    if scan.Failed? || !scan.open || scan.entries == [] then None
    else Some(Extend(scan.entries, scan.pending + collected))
  }

  lemma {:induction false} GroupIsForward(lines: seq<string>, collected: seq<string>)
    ensures Group(lines, collected) == AsGroup(Forward(lines), collected)
    decreases |lines|, 0
  {
    if lines != [] {
      var before, line := Forward(Init(lines)), Last(lines);
      if line == "" {
      } else if Indented(line) {
        GroupIsForward(Init(lines), [line[1..]] + collected);
        IndentedGroup(before, line, collected);
      } else if Blank(line) {
        BlankHasNoKey(line);
      } else {
        BackwardIsForward(Init(lines));
        if KeyLine(line).Some? && before.Scan? {
          ExtendNew(before.entries, KeyLine(line).value, collected);
          assert [] + collected == collected;
        }
      }
    }
  }

  lemma IndentedGroup(before: Scan, line: string, collected: seq<string>)
    requires Indented(line)
    ensures AsGroup(before, [line[1..]] + collected) == AsGroup(Step(before, line), collected)
  {
    if before.Scan? && before.open && before.entries != [] {
      var l := [line[1..]];
      assert before.pending + (l + collected) == before.pending + l + collected;
      if !Blank(line) {
        ExtendTwice(before.entries, before.pending + l, [] + collected, before.pending + l + collected);
      }
    }
  }

  /** The program, which reads backwards, finds what the reader from the front finds, and fails where it fails. */
  lemma {:induction false} BackwardIsForward(lines: seq<string>)
    ensures Backward(lines) == match Forward(lines)
                               case Failed => None
                               case Scan(entries, _, _) => Some(entries)
    decreases |lines|, 1
  {
    if lines != [] {
      var before, line := Forward(Init(lines)), Last(lines);
      if Blank(line) {
        BackwardIsForward(Init(lines));
      } else if Indented(line) {
        GroupIsForward(Init(lines), [line[1..]] + []);
        assert [line[1..]] + [] == [line[1..]];
      } else {
        BackwardIsForward(Init(lines));
        if KeyLine(line).Some? {
          var e := KeyLine(line).value;
          assert Entry(e.key, e.values + []) == e;
        }
      }
    }
  }

  // ---- The program ----

  function Parsed(data: string): Option<map<string, string>> {
    FillAll(Backward(Split(data, '\n')), map[])
  }

  method ParseAptKvs(data: string) returns (r: Option<map<string, string>>)
    ensures r == Parsed(data)
  {
    var kvs: map<string, string> := map[];
    var lines := Split(data, '\n');
    while lines != []
      invariant Parsed(data) == FillAll(Backward(lines), kvs)
      decreases |lines|
    {
      if Blank(Last(lines)) {
        lines := Init(lines);
        continue;
      }
      var field := PopField(lines);
      if field.None? { return None; }
      var (e, rest) := field.value;
      FillOne(Backward(rest), kvs, e);
      if e.key in kvs { return None; }
      kvs := kvs[e.key := Join(e.values, "\n")];
      lines := rest;
    }
    r := Some(kvs);
  }

  function WithField(entries: Option<seq<Entry>>, e: Entry): Option<seq<Entry>> {
    match entries
    case None => None
    case Some(es) => Some(es + [e])
  }

  // Pops one line and all that belong to its field.
  method PopField(all: seq<string>) returns (r: Option<(Entry, seq<string>)>)
    requires all != [] && !Blank(Last(all))
    ensures r.None? ==> Backward(all) == None
    ensures r.Some? ==> |r.value.1| < |all| && Backward(all) == WithField(Backward(r.value.1), r.value.0)
  {
    var line, lines := Last(all), Init(all);
    var values: seq<string> := [];
    InitLast(all);
    while Indented(line)
      invariant |lines| < |all|
      invariant Backward(all) == Group(lines + [line], Reversed(values))
      decreases |lines|
    {
      LastInit(lines, line);
      ReversedSnoc(values, line[1..]);
      values := values + [line[1..]];
      assert Backward(all) == Group(lines, Reversed(values));
      if lines == [] { return None; }
      InitLast(lines);
      line := Last(lines);
      lines := Init(lines);
    }
    LastInit(lines, line);
    if line == "" { return None; }
    var field := KeyLine(line);
    if field.None? { return None; }
    assert [] + Reversed(values) == Reversed(values);
    if field.value.values != [] {
      ReversedSnoc(values, field.value.values[0]);
      assert field.value.values == [field.value.values[0]];
      values := values + field.value.values;
    }
    r := Some((Entry(field.value.key, Reversed(values)), lines));
  }

  // The list that list.reverse() leaves.
  function Reversed(s: seq<string>): seq<string> {
    if s == [] then [] else Reversed(s[1..]) + [s[0]]
  }

  lemma {:induction false} ReversedSnoc(s: seq<string>, x: string)
    ensures Reversed(s + [x]) == [x] + Reversed(s)
  {
    if s != [] {
      ReversedSnoc(s[1..], x);
      assert (s + [x])[1..] == s[1..] + [x];
    }
  }

  lemma LastInit(lines: seq<string>, line: string)
    ensures Last(lines + [line]) == line && Init(lines + [line]) == lines
  {
  }

  lemma InitLast(lines: seq<string>)
    requires lines != []
    ensures Init(lines) + [Last(lines)] == lines
  {
  }

  lemma FillOne(entries: Option<seq<Entry>>, kvs: map<string, string>, e: Entry)
    ensures FillAll(WithField(entries, e), kvs) ==
            if e.key in kvs then None else FillAll(entries, kvs[e.key := Join(e.values, "\n")])
  {
    if entries.Some? { assert (entries.value + [e])[..|entries.value|] == entries.value; }
  }

  // ---- What the map says ----

  predicate Distinct(entries: seq<Entry>) {
    forall i, j | 0 <= i < j < |entries| :: entries[i].key != entries[j].key
  }

  function AsMap(entries: seq<Entry>): map<string, string> {
    if entries == [] then map[]
    else AsMap(entries[..|entries| - 1])[entries[|entries| - 1].key := Join(entries[|entries| - 1].values, "\n")]
  }

  lemma {:induction false} AsMapEntries(entries: seq<Entry>)
    requires Distinct(entries)
    ensures forall key :: key in AsMap(entries) <==> exists i :: 0 <= i < |entries| && entries[i].key == key
    ensures forall i | 0 <= i < |entries| :: entries[i].key in AsMap(entries) &&
                                             AsMap(entries)[entries[i].key] == Join(entries[i].values, "\n")
  {
    if entries != [] {
      var before := entries[..|entries| - 1];
      AsMapEntries(before);
      assert forall i | 0 <= i < |before| :: before[i] == entries[i];
    }
  }

  // None of the keys is in the map yet.
  predicate AllNew(entries: seq<Entry>, kvs: map<string, string>) {
    forall i | 0 <= i < |entries| :: entries[i].key !in kvs
  }

  lemma LastIsNew(before: seq<Entry>, e: Entry, kvs: map<string, string>, value: string)
    requires e.key !in kvs
    ensures Distinct(before + [e]) && AllNew(before + [e], kvs) <==> Distinct(before) && AllNew(before, kvs[e.key := value])
  {
    var all := before + [e];
    assert all[|before|] == e && forall i | 0 <= i < |before| :: all[i] == before[i];
  }

  lemma {:induction false} FillIsMap(entries: seq<Entry>, kvs: map<string, string>)
    ensures Fill(entries, kvs) ==
            if Distinct(entries) && AllNew(entries, kvs) then Some(AsMap(entries) + kvs) else None
    decreases |entries|
  {
    if entries == [] {
      assert AsMap(entries) + kvs == kvs;
    } else {
      var n := |entries| - 1;
      var e, before := entries[n], entries[..n];
      var value := Join(e.values, "\n");
      assert entries == before + [e];
      FillIsMap(before, kvs[e.key := value]);
      if e.key !in kvs {
        LastIsNew(before, e, kvs, value);
        assert AsMap(before) + kvs[e.key := value] == AsMap(entries) + kvs;
      } else {
        assert !AllNew(entries, kvs);
      }
    }
  }

  /** The program succeeds exactly on texts that read well from the front and give each key once. */
  lemma ParsedIsForward(data: string)
    ensures var scan := Forward(Split(data, '\n'));
            Parsed(data) == if scan.Scan? && Distinct(scan.entries) then Some(AsMap(scan.entries)) else None
  {
    BackwardIsForward(Split(data, '\n'));
    var scan := Forward(Split(data, '\n'));
    if scan.Scan? {
      FillIsMap(scan.entries, map[]);
      assert AsMap(scan.entries) + map[] == AsMap(scan.entries);
    }
  }
}

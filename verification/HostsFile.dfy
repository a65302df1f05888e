/**
 How the virtual network adds its nodes to /etc/hosts and takes them out again (hosts_up, hosts_down and
 sudo_update_file_by_filter in platform/spire/src/virt.py).
 */
module HostsFile {
  import opened Text

  // What a file holds when it is opened in text mode: every kind of line end reads as a newline.
  function Universal(s: string): (r: string)
    ensures '\r' !in r
    ensures '\r' !in s ==> r == s
  {
    if s == "" then ""
    else if s[0] != '\r' then [s[0]] + Universal(s[1..])
    else if |s| > 1 && s[1] == '\n' then "\n" + Universal(s[2..])
    else "\n" + Universal(s[1..])
  }

  // One more character in front of some lines.
  function Push(c: char, lines: seq<string>): (r: seq<string>)
    ensures r != []
  {
    if c == '\n' then [""] + lines
    else if lines == [] then [[c]]
    else [[c] + lines[0]] + lines[1..]
  }

  // The lines of a text, without their newlines; the last one need not have any.
  function Lines(s: string): (lines: seq<string>)
    ensures lines == [] <==> s == ""
  {
    if s == "" then [] else Push(s[0], Lines(s[1..]))
  }

  function Unlines(lines: seq<string>): string {
    if lines == [] then "" else lines[0] + "\n" + Unlines(lines[1..])
  }

  predicate Terminated(s: string) {
    s == "" || s[|s| - 1] == '\n'
  }

  // The nodes by host name, each with its address; a dictionary, in its order.
  type Hosts = seq<(string, string)>

  predicate NoneOf(s: string, characters: string) {
    forall c | c in characters :: c !in s
  }

  // What hosts_up checks.
  predicate NoTabs(hosts: Hosts) {
    forall i | 0 <= i < |hosts| :: '\t' !in hosts[i].0 && '\t' !in hosts[i].1
  }

  // What it does not check, though names with line ends would break the file.
  predicate WellNamed(hosts: Hosts) {
    forall i | 0 <= i < |hosts| :: NoneOf(hosts[i].0, "\t\n\r") && NoneOf(hosts[i].1, "\t\n\r")
  }

  predicate IsOurHost(line: string, hosts: Hosts) {
    var fields := Split(line, '\t');
    |fields| == 2 && (fields[1], fields[0]) in hosts
  }

  function Entries(hosts: Hosts): seq<string> {
    if hosts == [] then [] else [hosts[0].1 + "\t" + hosts[0].0] + Entries(hosts[1..])
  }

  function Kept(lines: seq<string>, hosts: Hosts): (kept: seq<string>)
    ensures forall line :: line in kept <==> line in lines && !IsOurHost(line, hosts)
  {
    if lines == [] then []
    else if IsOurHost(lines[0], hosts) then Kept(lines[1..], hosts)
    else [lines[0]] + Kept(lines[1..], hosts)
  }

  // hosts_up
  function Added(text: string, hosts: Hosts): string {
    text + Unlines(Entries(hosts))
  }

  // hosts_down
  function Removed(text: string, hosts: Hosts): string {
    Unlines(Kept(Lines(Universal(text)), hosts))
  }

  lemma UnlinesAppend(a: seq<string>, b: seq<string>)
    ensures Unlines(a + b) == Unlines(a) + Unlines(b)
  {
    if a == [] {
      assert a + b == b;
    } else {
      assert (a + b)[1..] == a[1..] + b;
    }
  }

  method RemoveHosts(text: string, hosts: Hosts) returns (out: string)
    ensures out == Removed(text, hosts)
  {
    out := "";
    var lines := Lines(Universal(text));
    for i := 0 to |lines|
      invariant out == Unlines(Kept(lines[..i], hosts))
    {
      KeptNext(lines, i, hosts);
      if !IsOurHost(lines[i], hosts) { out := out + (lines[i] + "\n"); }
    }
    assert lines[..|lines|] == lines;
  }

  lemma KeptNext(lines: seq<string>, i: nat, hosts: Hosts)
    requires i < |lines|
    ensures Unlines(Kept(lines[..i + 1], hosts)) ==
            Unlines(Kept(lines[..i], hosts)) + if IsOurHost(lines[i], hosts) then "" else lines[i] + "\n"
  {
    assert lines[..i + 1] == lines[..i] + [lines[i]];
    KeptAppend(lines[..i], [lines[i]], hosts);
    UnlinesAppend(Kept(lines[..i], hosts), Kept([lines[i]], hosts));
    OneLine(lines[i]);
    assert [lines[i]][1..] == [];
  }

  lemma OneLine(line: string)
    ensures Unlines([line]) == line + "\n"
  {
    assert [line][1..] == [] && Unlines([line][1..]) == "";
    assert line + "\n" + "" == line + "\n";
  }

  // ---- Lines and texts ----

  lemma {:induction false} LinesHaveNoEnds(s: string)
    ensures forall line | line in Lines(s) :: '\n' !in line && ('\r' !in s ==> '\r' !in line)
  {
    if s != "" { LinesHaveNoEnds(s[1..]); }
  }

  lemma PushAppend(c: char, a: seq<string>, b: seq<string>)
    requires c == '\n' || a != []
    ensures Push(c, a + b) == Push(c, a) + b
  {
  }

  lemma {:induction false} LinesAppend(s: string, rest: string)
    requires Terminated(s)
    ensures Lines(s + rest) == Lines(s) + Lines(rest)
  {
    if s == "" {
      assert s + rest == rest;
    } else {
      LinesAppend(s[1..], rest);
      assert (s + rest)[1..] == s[1..] + rest;
      PushAppend(s[0], Lines(s[1..]), Lines(rest));
    }
  }

  lemma {:induction false} LinesOfLine(line: string)
    requires '\n' !in line
    ensures Lines(line + "\n") == [line]
  {
    if line == "" {
      assert (line + "\n")[1..] == "";
    } else {
      LinesOfLine(line[1..]);
      assert (line + "\n")[1..] == line[1..] + "\n" && (line + "\n")[0] == line[0];
      assert [line[0]] + line[1..] == line;
      assert Push(line[0], [line[1..]]) == [[line[0]] + line[1..]] == [line];
    }
  }

  lemma {:induction false} LinesUnlines(lines: seq<string>)
    requires forall line | line in lines :: '\n' !in line
    ensures Lines(Unlines(lines)) == lines && Terminated(Unlines(lines))
  {
    if lines != [] {
      LinesUnlines(lines[1..]);
      LinesOfLine(lines[0]);
      LinesAppend(lines[0] + "\n", Unlines(lines[1..]));
    }
  }

  lemma {:induction false} UnlinesLines(s: string)
    requires Terminated(s)
    ensures Unlines(Lines(s)) == s
  {
    if s != "" {
      UnlinesLines(s[1..]);
    }
  }

  lemma NoneInUnlines(lines: seq<string>, c: char)
    requires c != '\n' && forall line | line in lines :: c !in line
    ensures c !in Unlines(lines)
  {
  }

  lemma {:induction false} KeptAppend(a: seq<string>, b: seq<string>, hosts: Hosts)
    ensures Kept(a + b, hosts) == Kept(a, hosts) + Kept(b, hosts)
  {
    if a == [] {
      assert a + b == b;
    } else {
      assert (a + b)[0] == a[0] && (a + b)[1..] == a[1..] + b;
      KeptAppend(a[1..], b, hosts);
    }
  }

  lemma KeepsAll(lines: seq<string>, hosts: Hosts)
    requires forall line | line in lines :: !IsOurHost(line, hosts)
    ensures Kept(lines, hosts) == lines
  {
  }

  lemma KeepsNone(lines: seq<string>, hosts: Hosts)
    requires forall line | line in lines :: IsOurHost(line, hosts)
    ensures Kept(lines, hosts) == []
  {
  }

  // ---- What hosts_up adds, hosts_down removes ----

  lemma EntryIsOurs(ip: string, name: string, hosts: Hosts)
    requires (name, ip) in hosts && '\t' !in ip && '\t' !in name
    ensures IsOurHost(ip + "\t" + name, hosts)
  {
    SplitAppend(ip, '\t', name);
  }

  // A text that reading and writing line by line leaves alone, and that has none of the nodes.
  predicate Clean(text: string, hosts: Hosts) {
    && '\r' !in text && Terminated(text)
    && forall line | line in Lines(text) :: !IsOurHost(line, hosts)
  }

  /** hosts_down always writes such a text. */
  lemma RemovedIsClean(text: string, hosts: Hosts)
    ensures Clean(Removed(text, hosts), hosts)
  {
    var kept := Kept(Lines(Universal(text)), hosts);
    LinesHaveNoEnds(Universal(text));
    LinesUnlines(kept);
    NoneInUnlines(kept, '\r');
  }

  /** hosts_down on a file to which hosts_up was never applied changes nothing exactly if the file is clean. */
  lemma RemoveOnly(text: string, hosts: Hosts)
    ensures Removed(text, hosts) == text <==> Clean(text, hosts)
  {
    RemovedIsClean(text, hosts);
    if Clean(text, hosts) {
      KeepsAll(Lines(text), hosts);
      UnlinesLines(text);
    }
  }

  // The first character, or two, of a text that is read.
  function FirstRead(s: string): (string, nat)
    requires s != ""
  {
    if s[0] != '\r' then ([s[0]], 1) else if |s| > 1 && s[1] == '\n' then ("\n", 2) else ("\n", 1)
  }

  lemma ReadFirst(s: string)
    requires s != ""
    ensures FirstRead(s).1 <= |s| && Universal(s) == FirstRead(s).0 + Universal(s[FirstRead(s).1..])
  {
  }

  // A text whose last character can be read without the next one.
  predicate Settled(s: string) {
    s == "" || s[|s| - 1] != '\r'
  }

  lemma FirstReadAppend(s: string, rest: string)
    requires s != "" && Settled(s)
    ensures var k := FirstRead(s).1;
            k <= |s| && FirstRead(s + rest) == FirstRead(s) && (s + rest)[k..] == s[k..] + rest && Settled(s[k..])
  {
    assert (s + rest)[0] == s[0] && (|s| > 1 ==> (s + rest)[1] == s[1]);
  }

  lemma Grouped(a: string, b: string, c: string)
    ensures a + (b + c) == a + b + c
  {
  }

  lemma {:induction false} UniversalAppend(s: string, rest: string)
    requires Settled(s)
    ensures Universal(s + rest) == Universal(s) + Universal(rest)
    decreases |s|
  {
    if s == "" {
      assert s + rest == rest;
    } else {
      var tail := s[FirstRead(s).1..];
      FirstReadAppend(s, rest);
      ReadFirst(s);
      ReadFirst(s + rest);
      UniversalAppend(tail, rest);
      Grouped(FirstRead(s).0, Universal(tail), Universal(rest));
    }
  }

  // Every line that hosts_up adds is one that hosts_down looks for.
  predicate AddsOurs(hosts: Hosts) {
    forall line | line in Lines(Universal(Unlines(Entries(hosts)))) :: IsOurHost(line, hosts)
  }

  // Neither kind of line end.
  predicate OneLined(s: string) {
    '\n' !in s && '\r' !in s
  }

  // The line for this node reads as that of a node: it has no line end, or only a carriage return at the end of the
  // name, without which the name is that of a node with the same address.
  predicate ReadsBack(name: string, ip: string, hosts: Hosts) {
    OneLined(ip) &&
    (OneLined(name) ||
     (name[|name| - 1] == '\r' && OneLined(name[..|name| - 1]) && (name[..|name| - 1], ip) in hosts))
  }

  predicate AllReadBack(hosts: Hosts) {
    forall i | 0 <= i < |hosts| :: ReadsBack(hosts[i].0, hosts[i].1, hosts)
  }

  function Tabs(s: string): nat {
    if s == "" then 0 else (if s[0] == '\t' then 1 else 0) + Tabs(s[1..])
  }

  lemma {:induction false} TabsAppend(a: string, b: string)
    ensures Tabs(a + b) == Tabs(a) + Tabs(b)
  {
    if a == "" {
      assert a + b == b;
    } else {
      assert (a + b)[0] == a[0] && (a + b)[1..] == a[1..] + b;
      TabsAppend(a[1..], b);
    }
  }

  lemma {:induction false} TabsCount(s: string)
    ensures Tabs(s) > 0 <==> '\t' in s
  {
    if s != "" {
      TabsCount(s[1..]);
      assert s == [s[0]] + s[1..];
    }
  }

  lemma TabsFirst(c: char, s: string)
    ensures Tabs([c] + s) == (if c == '\t' then 1 else 0) + Tabs(s)
  {
    assert ([c] + s)[1..] == s;
  }

  lemma {:induction false} SameTabs(s: string)
    ensures Tabs(Universal(s)) == Tabs(s)
    decreases |s|
  {
    if s != "" {
      SameTabs(s[1..]);
      if s[0] != '\r' {
        TabsFirst(s[0], Universal(s[1..]));
      } else if |s| > 1 && s[1] == '\n' {
        SameTabs(s[2..]);
        TabsFirst('\n', Universal(s[2..]));
        assert s[1..][1..] == s[2..];
      } else {
        TabsFirst('\n', Universal(s[1..]));
      }
    }
  }

  lemma {:induction false} TabInEach(lines: seq<string>)
    requires forall line | line in lines :: '\t' in line
    ensures Tabs(Unlines(lines)) >= |lines|
  {
    if lines != [] {
      TabInEach(lines[1..]);
      TabsAppend(lines[0] + "\n", Unlines(lines[1..]));
      TabsAppend(lines[0], "\n");
      TabsCount(lines[0]);
    }
  }

  lemma OursHasTab(line: string, hosts: Hosts)
    requires IsOurHost(line, hosts)
    ensures '\t' in line
  {
  }

  lemma NotEmpty(s: string)
    requires s != ""
    ensures Universal(s) != ""
  {
  }

  // An entry that is read as one line.
  lemma {:induction false} ReadAsOne(entry: string, line: string)
    requires '\n' !in line
    ensures Universal(entry + "\n") == line + "\n" <==> OneLined(line) && (entry == line || entry == line + "\r")
    decreases |entry|
  {
    var text := entry + "\n";
    if entry == "" {
      assert text[1..] == "" && Universal(text) == "\n";
    } else if entry[0] == '\n' || (entry[0] == '\r' && |entry| > 1) {
      var k := if entry[0] == '\r' && entry[1] == '\n' then 2 else 1;
      assert text[1..] != "" && Universal(text) == "\n" + Universal(text[k..]);
      NotEmpty(text[k..]);
      assert |Universal(text)| > 1 && Universal(text)[0] == '\n';
      assert line != "" ==> (line + "\n")[0] == line[0];
    } else if entry[0] == '\r' {
      assert text == "\r\n" && text[2..] == "" && Universal(text) == "\n";
      if line + "\n" == "\n" { assert |line| == 0; }
    } else {
      assert text[0] == entry[0] && text[1..] == entry[1..] + "\n" && Universal(text) == [entry[0]] + Universal(text[1..]);
      if line == "" || line[0] != entry[0] {
        assert (line + "\n")[0] != entry[0];
      } else {
        assert (line + "\n")[1..] == line[1..] + "\n" && (line + "\r")[1..] == line[1..] + "\r";
        ReadAsOne(entry[1..], line[1..]);
        assert line == [line[0]] + line[1..] && entry == [entry[0]] + entry[1..];
      }
    }
  }

  lemma {:induction false} EndsInNewline(entry: string)
    ensures Terminated(Universal(entry + "\n")) && Universal(entry + "\n") != ""
    decreases |entry|
  {
    var text := entry + "\n";
    if entry != "" && text != "\r\n" {
      var k := if entry[0] == '\r' && |entry| > 1 && entry[1] == '\n' then 2 else 1;
      assert text[k..] == entry[k..] + "\n";
      EndsInNewline(entry[k..]);
    } else if entry == "" {
      assert text[1..] == "";
    } else {
      assert text[2..] == "";
    }
  }

  lemma LastOf(ip: string, name: string)
    ensures var entry := ip + "\t" + name;
            entry[|entry| - 1] == if name == "" then '\t' else name[|name| - 1]
  {
  }

  // The one line, if it is one of ours.
  lemma OneTab(name: string, ip: string, hosts: Hosts, line: string)
    requires '\t' !in name && '\t' !in ip && OneLined(line)
    requires ip + "\t" + name == line + "\r" && IsOurHost(line, hosts)
    ensures name != "" && name[|name| - 1] == '\r' && OneLined(ip) && OneLined(name[..|name| - 1])
    ensures (name[..|name| - 1], ip) in hosts
  {
    var entry := ip + "\t" + name;
    LastOf(ip, name);
    assert entry[|entry| - 1] == (line + "\r")[|line|];
    var n := name[..|name| - 1];
    assert entry[..|entry| - 1] == ip + "\t" + n && (line + "\r")[..|line|] == line;
    assert line == ip + "\t" + n;
    SplitAppend(ip, '\t', n);
  }

  // An entry whose lines are all ours is one line.
  lemma LinesAreOne(entry: string, lines: seq<string>, hosts: Hosts) returns (line: string)
    requires lines == Lines(Universal(entry + "\n")) && Tabs(entry) == 1
    requires forall l | l in lines :: IsOurHost(l, hosts)
    ensures lines == [line] && OneLined(line) && (entry == line || entry == line + "\r")
  {
    var u := Universal(entry + "\n");
    EndsInNewline(entry);
    UnlinesLines(u);
    LinesHaveNoEnds(u);
    SameTabs(entry + "\n");
    TabsAppend(entry, "\n");
    forall l | l in lines ensures '\t' in l { OursHasTab(l, hosts); }
    TabInEach(lines);
    line := lines[0];
    assert lines == [line];
    OneLine(line);
    ReadAsOne(entry, line);
  }

  lemma OneTabIn(name: string, ip: string)
    requires '\t' !in name && '\t' !in ip
    ensures Tabs(ip + "\t" + name) == 1
  {
    TabsAppend(ip + "\t", name);
    TabsAppend(ip, "\t");
    TabsCount(ip);
    TabsCount(name);
    assert "\t"[1..] == "";
  }

  // Read as this line.
  lemma ReadAs(entry: string, line: string)
    requires OneLined(line) && (entry == line || entry == line + "\r")
    ensures Lines(Universal(entry + "\n")) == [line]
  {
    ReadAsOne(entry, line);
    LinesOfLine(line);
  }

  lemma AllOursReadsBack(name: string, ip: string, hosts: Hosts)
    requires (name, ip) in hosts && '\t' !in name && '\t' !in ip
    requires forall line | line in Lines(Universal(ip + "\t" + name + "\n")) :: IsOurHost(line, hosts)
    ensures ReadsBack(name, ip, hosts)
  {
    var entry := ip + "\t" + name;
    OneTabIn(name, ip);
    var line := LinesAreOne(entry, Lines(Universal(entry + "\n")), hosts);
    if entry == line { PartsOneLined(ip, name, entry); } else { OneTab(name, ip, hosts, line); }
  }

  lemma PartsOneLined(ip: string, name: string, entry: string)
    requires entry == ip + "\t" + name
    ensures OneLined(entry) <==> OneLined(ip) && OneLined(name)
  {
  }

  lemma ReadsBackIsOurs(name: string, ip: string, hosts: Hosts)
    requires (name, ip) in hosts && '\t' !in name && '\t' !in ip && ReadsBack(name, ip, hosts)
    ensures forall line | line in Lines(Universal(ip + "\t" + name + "\n")) :: IsOurHost(line, hosts)
  {
    var n := if OneLined(name) then name else name[..|name| - 1];
    var entry, line := ip + "\t" + name, ip + "\t" + n;
    PartsOneLined(ip, n, line);
    assert n == name || entry == line + "\r";
    EntryIsOurs(ip, n, hosts);
    ReadAs(entry, line);
  }

  lemma EntryReadsBack(name: string, ip: string, hosts: Hosts)
    requires (name, ip) in hosts && '\t' !in name && '\t' !in ip
    ensures (forall line | line in Lines(Universal(ip + "\t" + name + "\n")) :: IsOurHost(line, hosts)) <==>
            ReadsBack(name, ip, hosts)
  {
    if ReadsBack(name, ip, hosts) {
      ReadsBackIsOurs(name, ip, hosts);
    } else if forall line | line in Lines(Universal(ip + "\t" + name + "\n")) :: IsOurHost(line, hosts) {
      AllOursReadsBack(name, ip, hosts);
    }
  }

  // The lines that some of the nodes add.
  lemma {:induction false} EntriesReadBack(part: Hosts, hosts: Hosts)
    requires NoTabs(part) && forall h | h in part :: h in hosts
    ensures (forall line | line in Lines(Universal(Unlines(Entries(part)))) :: IsOurHost(line, hosts)) <==>
            forall i | 0 <= i < |part| :: ReadsBack(part[i].0, part[i].1, hosts)
  {
    if part != [] {
      var first, rest := part[0].1 + "\t" + part[0].0, Unlines(Entries(part[1..]));
      EntriesReadBack(part[1..], hosts);
      EntryReadsBack(part[0].0, part[0].1, hosts);
      EndsInNewline(first);
      UniversalAppend(first + "\n", rest);
      LinesAppend(Universal(first + "\n"), Universal(rest));
      assert Unlines(Entries(part)) == first + "\n" + rest;
      assert forall i | 0 < i < |part| :: part[i] == part[1..][i - 1];
    }
  }

  /** Of the names that hosts_up accepts: each line added is ours exactly if each node's is read back. */
  lemma AddsOursExactly(hosts: Hosts)
    requires NoTabs(hosts)
    ensures AddsOurs(hosts) <==> AllReadBack(hosts)
  {
    EntriesReadBack(hosts, hosts);
  }

  /** That is so of names without tabs and line ends. */
  lemma WellNamedAddsOurs(hosts: Hosts)
    requires WellNamed(hosts)
    ensures NoTabs(hosts) && AllReadBack(hosts) && AddsOurs(hosts)
  {
    forall i | 0 <= i < |hosts|
      ensures '\t' !in hosts[i].0 && '\t' !in hosts[i].1 && ReadsBack(hosts[i].0, hosts[i].1, hosts)
    {
      assert "\t\n\r"[0] == '\t' && "\t\n\r"[1] == '\n' && "\t\n\r"[2] == '\r';
    }
    AddsOursExactly(hosts);
  }

  lemma NothingKept(lines: seq<string>, hosts: Hosts)
    ensures Unlines(Kept(lines, hosts)) == "" <==> forall line | line in lines :: IsOurHost(line, hosts)
  {
    var kept := Kept(lines, hosts);
    if kept != [] { assert kept[0] in kept && |Unlines(kept)| > 0; }
    if line :| line in lines && !IsOurHost(line, hosts) { assert line in kept; }
  }

  // From a clean file, what was added and is kept is what stays behind.
  lemma WhatStays(text: string, added: string, hosts: Hosts)
    requires Clean(text, hosts)
    ensures Removed(text + added, hosts) == text + Unlines(Kept(Lines(Universal(added)), hosts))
  {
    var more := Lines(Universal(added));
    UniversalAppend(text, added);
    LinesAppend(text, Universal(added));
    KeptAppend(Lines(text), more, hosts);
    KeepsAll(Lines(text), hosts);
    UnlinesAppend(Lines(text), Kept(more, hosts));
    UnlinesLines(text);
  }

  /**
   hosts_up and then hosts_down give the file back exactly if it was clean, and the lines added are ours: of names that
   hosts_up accepts, if each node's line is read back.
   */
  lemma AddThenRemove(text: string, hosts: Hosts)
    ensures Removed(Added(text, hosts), hosts) == text <==> Clean(text, hosts) && AddsOurs(hosts)
    ensures NoTabs(hosts) ==> (Removed(Added(text, hosts), hosts) == text <==> Clean(text, hosts) && AllReadBack(hosts))
  {
    RemovedIsClean(Added(text, hosts), hosts);
    if Clean(text, hosts) {
      var added := Unlines(Entries(hosts));
      WhatStays(text, added, hosts);
      NothingKept(Lines(Universal(added)), hosts);
      NothingAdded(text, Unlines(Kept(Lines(Universal(added)), hosts)));
    }
    if NoTabs(hosts) { AddsOursExactly(hosts); }
  }

  /** A name with a newline, which hosts_up accepts: of its two lines, neither is taken out again. */
  lemma NewlineStays()
    ensures var hosts := [("a\nb", "1")];
            NoTabs(hosts) && !AllReadBack(hosts) && Removed(Added("", hosts), hosts) != ""
  {
    var hosts := [("a\nb", "1")];
    assert "a\nb"[1] == '\n' && "a\nb"[|"a\nb"| - 1] == 'b';
    assert !ReadsBack(hosts[0].0, hosts[0].1, hosts);
    AddThenRemove("", hosts);
  }

  /** A carriage return at the end of a name is lost; the line is taken out only if the name without it is a node's. */
  lemma CarriageReturnStays()
    ensures var hosts := [("a\r", "1")];
            NoTabs(hosts) && !AllReadBack(hosts) && Removed(Added("", hosts), hosts) != ""
    ensures var hosts := [("a\r", "1"), ("a", "1")];
            NoTabs(hosts) && AllReadBack(hosts) && Removed(Added("", hosts), hosts) == ""
  {
    var name := "a\r";
    assert name[1] == '\r' && name[..1] == "a" && |name| == 2;
    var alone, both := [(name, "1")], [(name, "1"), ("a", "1")];
    assert ("a", "1") !in alone by { assert |name| != |"a"|; }
    assert !ReadsBack(alone[0].0, alone[0].1, alone);
    assert both[1] == ("a", "1") && ReadsBack(both[0].0, both[0].1, both) && ReadsBack(both[1].0, both[1].1, both);
    AddThenRemove("", alone);
    AddThenRemove("", both);
  }

  lemma NothingAdded(text: string, rest: string)
    ensures text + rest == text <==> rest == ""
  {
    assert |text + rest| == |text| + |rest|;
  }
}

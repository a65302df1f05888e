/**
 KEY=VALUE files: printed by spire (platform/spire/src/configuration.py) and by the keyserver
 (GenerateLocalConf), read back by two Go parsers with the same body (GetConf in
 platform/kubernetes/wrapper/wrap.go and readConfig in
 platform/keysystem/keyclient/actions/hostname/hostname.go), which Parse specifies once.
 */
module ConfFiles {
  import opened Wrappers
  import opened Text
  import opened Accounts

  datatype Line = Skipped | Bad | Pair(key: string, value: string)

  function ReadLine(raw: string): Line {
    ReadTrimmed(Trim(raw))
  }

  function ReadTrimmed(line: string): Line {
    if line == "" || line[0] == '#' then Skipped else ReadAfter(line, Before(line, '='))
  }

  // What follows the key and one equals sign, if there is one.
  function ReadAfter(line: string, key: string): Line
    requires key <= line
  {
    if |key| == |line| then Bad else PairOf(key, line[|key| + 1..])
  }

  function PairOf(key: string, value: string): Line {
    Pair(Trim(key), Trim(value))
  }

  function ReadLines(lines: seq<string>): seq<Line> {
    Mapped(ReadLine, lines)
  }

  // Later lines win; one bad line spoils the file.
  function Collect(lines: seq<Line>): Option<map<string, string>> {
    if lines == [] then Some(map[])
    else
      var before := Collect(lines[..|lines| - 1]);
      match lines[|lines| - 1]
      case Skipped => before
      case Bad => None
      case Pair(k, v) => if before.None? then None else Some(before.value[k := v])
  }

  function Parse(text: string): Option<map<string, string>> {
    Collect(ReadLines(Split(text, '\n')))
  }

  // The body of the loop of both parsers, up to the map update.
  method ReadOneLine(raw: string) returns (r: Line)
    ensures r == ReadLine(raw)
  {
    var line := Trim(raw);
    if line == "" || line[0] == '#' {
      return Skipped;
    }
    if '=' !in line {
      return Bad;
    }
    var key := Before(line, '=');
    return Pair(Trim(key), Trim(line[|key| + 1..]));
  }

  /** The loop of both parsers; None is the error return. */
  method ReadConf(text: string) returns (r: Option<map<string, string>>)
    ensures r == Parse(text)
  {
    var lines := Split(text, '\n');
    ghost var read := ReadLines(lines);
    var kvs: map<string, string> := map[];
    for i := 0 to |lines|
      invariant Collect(read[..i]) == Some(kvs)
    {
      CollectNext(read, i);
      var line := ReadOneLine(lines[i]);
      match line
      case Skipped =>
      case Bad =>
        BadLineIsFatal(read, i);
        return None;
      case Pair(key, value) =>
        kvs := kvs[key := value];
    }
    assert read[..|lines|] == read;
    return Some(kvs);
  }

  lemma CollectNext(lines: seq<Line>, i: nat)
    requires i < |lines|
    ensures Collect(lines[..i + 1]) ==
            match lines[i]
            case Skipped => Collect(lines[..i])
            case Bad => None
            case Pair(k, v) => if Collect(lines[..i]).None? then None else Some(Collect(lines[..i]).value[k := v])
  {
    assert lines[..i + 1][..i] == lines[..i];
  }

  lemma {:induction false} BadLineIsFatal(lines: seq<Line>, i: nat)
    requires i < |lines| && lines[i] == Bad
    ensures Collect(lines) == None
  {
    if i < |lines| - 1 {
      BadLineIsFatal(lines[..|lines| - 1], i);
    }
  }

  // What a file can carry: everything else is changed, lost or refused on the way.
  predicate Carriable(key: string, value: string) {
    && Trimmed(key) && Trimmed(value)
    && '\n' !in key && '\n' !in value
    && '=' !in key && (key == "" || key[0] != '#')
  }

  function PrintPair(pair: (string, string)): string {
    pair.0 + "=" + pair.1
  }

  function PrintLines(pairs: seq<(string, string)>): seq<string> {
    seq(|pairs|, i requires 0 <= i < |pairs| => PrintPair(pairs[i]))
  }

  function AsLines(pairs: seq<(string, string)>): seq<Line> {
    seq(|pairs|, i requires 0 <= i < |pairs| => Pair(pairs[i].0, pairs[i].1))
  }

  // A comment line and one line for each pair, as both printers write; get_cluster_conf also ends the last line.
  function Print(comment: string, pairs: seq<(string, string)>, endsWithNewline: bool): string {
    Join([comment] + PrintLines(pairs) + (if endsWithNewline then [""] else []), "\n")
  }

  function AsMap(pairs: seq<(string, string)>): map<string, string> {
    if pairs == [] then map[] else AsMap(pairs[..|pairs| - 1])[pairs[|pairs| - 1].0 := pairs[|pairs| - 1].1]
  }

  predicate IsComment(line: string) {
    line != "" && line[0] == '#' && '\n' !in line
  }

  lemma PrintedPairIsTrimmed(k: string, v: string)
    requires Carriable(k, v)
    ensures var line := PrintPair((k, v));
            Trimmed(line) && '\n' !in line && line != "" && line[0] != '#' && '=' in line
  {
    var line := PrintPair((k, v));
    assert line[0] == if k == "" then '=' else k[0];
    assert line[|line| - 1] == if v == "" then '=' else v[|v| - 1];
    assert line[|k|] == '=';
  }

  lemma PrintedPairSplits(k: string, v: string)
    requires Carriable(k, v)
    ensures Before(PrintPair((k, v)), '=') == k && PrintPair((k, v))[|k| + 1..] == v
  {
    assert PrintPair((k, v)) == k + ['='] + v;
    BeforeAppend(k, '=', v);
  }

  lemma TrimmedPair(k: string, v: string)
    requires Trimmed(k) && Trimmed(v)
    ensures PairOf(k, v) == Pair(k, v)
  {
  }

  lemma ReadPrintedPair(k: string, v: string)
    requires Carriable(k, v)
    ensures '\n' !in PrintPair((k, v)) && ReadLine(PrintPair((k, v))) == Pair(k, v)
  {
    PrintedPairIsTrimmed(k, v);
    PrintedPairSplits(k, v);
    assert ReadTrimmed(PrintPair((k, v))) == ReadAfter(PrintPair((k, v)), k);
    TrimmedPair(k, v);
  }

  predicate NoNewlines(lines: seq<string>) {
    forall line | line in lines :: '\n' !in line
  }

  lemma ReadPrintedLines(pairs: seq<(string, string)>)
    requires forall pair | pair in pairs :: Carriable(pair.0, pair.1)
    ensures NoNewlines(PrintLines(pairs)) && ReadLines(PrintLines(pairs)) == AsLines(pairs)
  {
    forall i | 0 <= i < |pairs|
      ensures '\n' !in PrintLines(pairs)[i] && ReadLines(PrintLines(pairs))[i] == AsLines(pairs)[i]
    {
      ReadPrintedPair(pairs[i].0, pairs[i].1);
    }
  }

  lemma {:induction false} CollectPairs(pairs: seq<(string, string)>)
    ensures Collect([Skipped] + AsLines(pairs)) == Some(AsMap(pairs))
  {
    var lines := [Skipped] + AsLines(pairs);
    if pairs == [] {
      assert lines == [Skipped];
    } else {
      CollectPairs(pairs[..|pairs| - 1]);
      assert lines[..|lines| - 1] == [Skipped] + AsLines(pairs[..|pairs| - 1]);
    }
  }

  lemma CommentIsSkipped(comment: string)
    requires IsComment(comment)
    ensures ReadLine(comment) == Skipped
  {
    assert !IsSpace('#');
    assert TrimLeft(comment) == comment;
    assert TrimRight(comment) != "" by {
      var t := TrimRight(comment);
      if t == "" { AllSpace(comment); }
    }
  }

  lemma AllSpace(s: string)
    requires TrimRight(s) == ""
    ensures forall c | c in s :: IsSpace(c)
  {
  }

  lemma ParseJoined(lines: seq<string>)
    requires lines != [] && NoNewlines(lines)
    ensures Parse(Join(lines, "\n")) == Collect(ReadLines(lines))
  {
    SplitJoin(lines, '\n');
  }

  lemma ReadOne(line: string)
    ensures ReadLines([line]) == [ReadLine(line)]
  {
  }

  // A final newline is the separator before one more line, which is empty.
  lemma EndsWithEmptyLine(text: seq<string>)
    requires text != [] && NoNewlines(text)
    ensures Parse(Join(text + [""], "\n")) == Collect(ReadLines(text))
  {
    ParseJoined(text + [""]);
    MappedAppend(ReadLine, text, [""]);
    ReadOne("");
    LastSkipped(ReadLines(text));
  }

  lemma LastSkipped(read: seq<Line>)
    ensures Collect(read + [Skipped]) == Collect(read)
  {
    assert (read + [Skipped])[..|read|] == read;
  }

  lemma ReadsWithComment(comment: string, lines: seq<string>)
    requires '\n' !in comment && ReadLine(comment) == Skipped && NoNewlines(lines)
    ensures Parse(Join([comment] + lines + [], "\n")) == Collect([Skipped] + ReadLines(lines))
    ensures Parse(Join([comment] + lines + [""], "\n")) == Collect([Skipped] + ReadLines(lines))
  {
    var text := [comment] + lines;
    ReadOne(comment);
    MappedAppend(ReadLine, [comment], lines);
    assert text + [] == text;
    ParseJoined(text);
    EndsWithEmptyLine(text);
  }

  /** Round trip across the languages, in any order of the pairs, with or without a final newline. */
  lemma RoundTrip(comment: string, pairs: seq<(string, string)>, endsWithNewline: bool)
    requires IsComment(comment) && forall pair | pair in pairs :: Carriable(pair.0, pair.1)
    ensures Parse(Print(comment, pairs, endsWithNewline)) == Some(AsMap(pairs))
  {
    ReadPrintedLines(pairs);
    CommentIsSkipped(comment);
    ReadsWithComment(comment, PrintLines(pairs));
    CollectPairs(pairs);
  }

  lemma TrimKeepsEnds(s: string)
    requires s != "" && !IsSpace(s[0])
    ensures Trim(s) != "" && Trim(s)[0] == s[0]
  {
    assert TrimLeft(s) == s;
    if TrimRight(s) == "" { AllSpace(s); }
  }

  lemma ReadPairIsCarriable(raw: string)
    requires '\n' !in raw && ReadLine(raw).Pair?
    ensures Carriable(ReadLine(raw).key, ReadLine(raw).value)
  {
    var line := Trim(raw);
    var key := Before(line, '=');
    TrimAddsNothing(raw, '\n');
    TrimAddsNothing(key, '\n');
    TrimAddsNothing(key, '=');
    TrimAddsNothing(line[|key| + 1..], '\n');
    if key != "" { TrimKeepsEnds(key); }
  }

  lemma {:induction false} CollectedAreRead(lines: seq<Line>)
    requires Collect(lines).Some?
    ensures forall k | k in Collect(lines).value :: Pair(k, Collect(lines).value[k]) in lines
  {
    if lines != [] {
      CollectedAreRead(lines[..|lines| - 1]);
    }
  }

  /** Nothing but carriable pairs ever comes out of a file. */
  lemma ParsedIsCarriable(text: string)
    requires Parse(text).Some?
    ensures forall k | k in Parse(text).value :: Carriable(k, Parse(text).value[k])
  {
    var lines := Split(text, '\n');
    SplitParts(text, '\n');
    CollectedAreRead(ReadLines(lines));
    forall k | k in Parse(text).value ensures Carriable(k, Parse(text).value[k]) {
      var i :| 0 <= i < |lines| && ReadLines(lines)[i] == Pair(k, Parse(text).value[k]);
      assert lines[i] in lines;
      ReadPairIsCarriable(lines[i]);
    }
  }

  lemma {:induction false} AsMapHolds(pairs: seq<(string, string)>, i: nat)
    requires i < |pairs| && forall a, b | 0 <= a < b < |pairs| :: pairs[a].0 != pairs[b].0
    ensures pairs[i].0 in AsMap(pairs) && AsMap(pairs)[pairs[i].0] == pairs[i].1
  {
    if i < |pairs| - 1 {
      AsMapHolds(pairs[..|pairs| - 1], i);
    }
  }

  /** Exactly the carriable pairs survive printing and parsing. */
  lemma RoundTripExactly(comment: string, pairs: seq<(string, string)>, endsWithNewline: bool)
    requires IsComment(comment) && forall a, b | 0 <= a < b < |pairs| :: pairs[a].0 != pairs[b].0
    ensures Parse(Print(comment, pairs, endsWithNewline)) == Some(AsMap(pairs)) <==>
            forall pair | pair in pairs :: Carriable(pair.0, pair.1)
  {
    if forall pair | pair in pairs :: Carriable(pair.0, pair.1) {
      RoundTrip(comment, pairs, endsWithNewline);
    } else {
      var i :| 0 <= i < |pairs| && !Carriable(pairs[i].0, pairs[i].1);
      AsMapHolds(pairs, i);
      var text := Print(comment, pairs, endsWithNewline);
      if Parse(text).Some? { ParsedIsCarriable(text); }
    }
  }

  // The local configuration that the keyserver serves to a node.
  function LocalPairs(conf: Setup, node: Node): seq<(string, string)> {
    [("HOST_NODE", node.hostname), ("HOST_DNS", DNS(conf, node)), ("HOST_IP", node.ip),
     ("SCHEDULE_WORK", if node.kind == Worker then "true" else "false"), ("KIND", KindName(node.kind))]
  }

  lemma LocalConfIsPrinted(conf: Setup, node: Node)
    ensures LocalConf(conf, node) == Print("# generated automatically by keyserver", LocalPairs(conf, node), false)
  {
    var p := LocalPairs(conf, node);
    var c := "# generated automatically by keyserver";
    assert PrintPair(p[0]) == "HOST_NODE=" + p[0].1 && PrintPair(p[1]) == "HOST_DNS=" + p[1].1;
    assert PrintPair(p[2]) == "HOST_IP=" + p[2].1 && PrintPair(p[3]) == "SCHEDULE_WORK=" + p[3].1;
    assert PrintPair(p[4]) == "KIND=" + p[4].1;
    assert [c] + PrintLines(p) + [] ==
      [c, PrintPair(p[0]), PrintPair(p[1]), PrintPair(p[2]), PrintPair(p[3]), PrintPair(p[4])];
  }

  lemma UpperCaseKeyIsCarriable(key: string, value: string)
    requires key != "" && (forall c | c in key :: 'A' <= c <= 'Z' || c == '_') && Trimmed(value) && '\n' !in value
    ensures Carriable(key, value)
  {
    assert key[0] in key && key[|key| - 1] in key;
  }

  lemma LocalPairsAreCarriable(conf: Setup, node: Node)
    requires forall pair | pair in LocalPairs(conf, node) :: Trimmed(pair.1) && '\n' !in pair.1
    ensures forall pair | pair in LocalPairs(conf, node) :: Carriable(pair.0, pair.1)
  {
    forall pair | pair in LocalPairs(conf, node) ensures Carriable(pair.0, pair.1) {
      UpperCaseKeyIsCarriable(pair.0, pair.1);
    }
  }

  lemma LocalKeysDiffer(conf: Setup, node: Node)
    ensures var pairs := LocalPairs(conf, node);
            forall a, b | 0 <= a < b < |pairs| :: pairs[a].0 != pairs[b].0
  {
    var pairs := LocalPairs(conf, node);
    assert |pairs[0].0| == 9 && |pairs[1].0| == 8 && |pairs[2].0| == 7 && |pairs[3].0| == 13 && |pairs[4].0| == 4;
  }

  lemma FirstOfRoundTrip(comment: string, pairs: seq<(string, string)>)
    requires IsComment(comment) && forall pair | pair in pairs :: Carriable(pair.0, pair.1)
    requires pairs != [] && forall a, b | 0 <= a < b < |pairs| :: pairs[a].0 != pairs[b].0
    ensures var kvs := Parse(Print(comment, pairs, false));
            kvs == Some(AsMap(pairs)) && pairs[0].0 in kvs.value && kvs.value[pairs[0].0] == pairs[0].1
  {
    RoundTrip(comment, pairs, false);
    AsMapHolds(pairs, 0);
  }

  /** The keyclient reads back the host name that the keyserver wrote. */
  lemma LocalConfRoundTrip(conf: Setup, node: Node)
    requires forall pair | pair in LocalPairs(conf, node) :: Trimmed(pair.1) && '\n' !in pair.1
    ensures var kvs := Parse(LocalConf(conf, node));
            && kvs == Some(AsMap(LocalPairs(conf, node)))
            && "HOST_NODE" in kvs.value && kvs.value["HOST_NODE"] == node.hostname
  {
    LocalPairsAreCarriable(conf, node);
    LocalKeysDiffer(conf, node);
    LocalConfIsPrinted(conf, node);
    FirstOfRoundTrip("# generated automatically by keyserver", LocalPairs(conf, node));
  }

  // ---- When a file is refused ----

  // Not empty, no comment, and without an equals sign.
  predicate HasNoEquals(line: string) {
    Trim(line) != "" && Trim(line)[0] != '#' && '=' !in Trim(line)
  }

  lemma {:induction false} CollectFails(lines: seq<Line>)
    ensures Collect(lines).None? <==> Bad in lines
  {
    if lines != [] {
      var n := |lines| - 1;
      CollectFails(lines[..n]);
      assert lines == lines[..n] + [lines[n]];
    }
  }

  lemma BadLine(line: string)
    ensures ReadLine(line) == Bad <==> HasNoEquals(line)
  {
    BeforeStops(Trim(line));
  }

  lemma BeforeStops(line: string)
    ensures |Before(line, '=')| == |line| <==> '=' !in line
  {
  }

  /** A file is refused exactly if one of its lines is neither empty nor a comment and has no equals sign. */
  lemma RefusedExactly(text: string)
    ensures Parse(text).None? <==> exists line :: line in Split(text, '\n') && HasNoEquals(line)
  {
    var lines := Split(text, '\n');
    CollectFails(ReadLines(lines));
    if Bad in ReadLines(lines) {
      var i :| 0 <= i < |lines| && ReadLines(lines)[i] == Bad;
      BadLine(lines[i]);
      assert lines[i] in lines;
    }
    if line :| line in lines && HasNoEquals(line) {
      var i :| 0 <= i < |lines| && lines[i] == line;
      BadLine(line);
      assert ReadLines(lines)[i] == Bad;
    }
  }
}

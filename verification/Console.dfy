/**
 Watching the console of a virtual machine (LineCollector and FingerprintExtractor in
 platform/spire/src/virt.py).  A byte is a character below 256.
 */
module Console {
  import opened Text

  // The lines of a stream that are complete, with their newlines, and what follows them.
  datatype Cut = Cut(lines: seq<string>, rest: string)

  // One more character in front.
  function Push(c: char, cut: Cut): Cut {
    if c == '\n' then Cut(["\n"] + cut.lines, cut.rest)
    else if cut.lines == [] then Cut([], [c] + cut.rest)
    else Cut([[c] + cut.lines[0]] + cut.lines[1..], cut.rest)
  }

  function CutOf(s: string): Cut {
    if s == "" then Cut([], "") else Push(s[0], CutOf(s[1..]))
  }

  function Segments(s: string): seq<string> {
    CutOf(s).lines + if CutOf(s).rest == "" then [] else [CutOf(s).rest]
  }

  // What is cut after some lines.
  function After(lines: seq<string>, cut: Cut): Cut {
    Cut(lines + cut.lines, cut.rest)
  }

  class LineCollector {
    var buffer: string
    // The arguments of all calls of line_cb.
    var called: seq<string>

    constructor ()
      ensures buffer == "" && called == []
    {
      buffer, called := "", [];
    }

    method Write(bytestring: string)
      modifies this
      ensures After(old(called), CutOf(old(buffer) + bytestring)) == Cut(called, buffer)
    {
      buffer := buffer + bytestring;
      while '\n' in buffer
        invariant After(called, CutOf(buffer)) == After(old(called), CutOf(old(buffer) + bytestring))
        decreases |buffer|
      {
        var segment := Before(buffer, '\n');
        FirstLine(buffer);
        AfterOne(called, segment + "\n", CutOf(buffer[|segment| + 1..]));
        buffer := buffer[|segment| + 1..];
        called := called + [segment + "\n"];
      }
      NoLine(buffer);
      assert called + [] == called;
    }

    method Close()
      modifies this
      ensures buffer == ""
      ensures called == old(called) + if old(buffer) == "" then [] else [old(buffer)]
    {
      if buffer != "" {
        called := called + [buffer];
        buffer := "";
      }
    }
  }

  lemma AfterOne(lines: seq<string>, line: string, cut: Cut)
    ensures After(lines, After([line], cut)) == After(lines + [line], cut)
  {
    assert lines + ([line] + cut.lines) == lines + [line] + cut.lines;
  }

  lemma {:induction false} NoLine(s: string)
    requires '\n' !in s
    ensures CutOf(s) == Cut([], s)
  {
    if s != "" { NoLine(s[1..]); }
  }

  lemma {:induction false} FirstLine(s: string)
    requires '\n' in s
    ensures var line := Before(s, '\n'); CutOf(s) == After([line + "\n"], CutOf(s[|line| + 1..]))
  {
    var line := Before(s, '\n');
    if s[0] != '\n' {
      FirstLine(s[1..]);
      assert s[1..][|line[1..]| + 1..] == s[|line| + 1..];
      PushLine(s[0], line[1..], CutOf(s[|line| + 1..]));
      assert [s[0]] + line[1..] == line;
    } else {
      assert line == "" && line + "\n" == "\n";
    }
  }

  lemma PushLine(c: char, line: string, cut: Cut)
    requires c != '\n'
    ensures Push(c, After([line + "\n"], cut)) == After([[c] + line + "\n"], cut)
  {
    var all := [line + "\n"] + cut.lines;
    assert all[0] == line + "\n" && all[1..] == cut.lines;
    assert [c] + (line + "\n") == [c] + line + "\n";
  }

  lemma PushAfter(c: char, lines: seq<string>, cut: Cut)
    ensures Push(c, After(lines, cut)) ==
            if c == '\n' then After(["\n"] + lines, cut)
            else if lines == [] then Push(c, cut)
            else After([[c] + lines[0]] + lines[1..], cut)
  {
    if c == '\n' {
      assert ["\n"] + (lines + cut.lines) == ["\n"] + lines + cut.lines;
    } else if lines == [] {
      assert After(lines, cut) == cut;
    } else {
      assert (lines + cut.lines)[1..] == lines[1..] + cut.lines;
      assert [[c] + lines[0]] + (lines[1..] + cut.lines) == [[c] + lines[0]] + lines[1..] + cut.lines;
    }
  }

  lemma {:induction false} CutAppend(a: string, b: string)
    ensures CutOf(a + b) == After(CutOf(a).lines, CutOf(CutOf(a).rest + b))
  {
    if a == "" {
      assert a + b == b && "" + b == b;
    } else {
      CutAppend(a[1..], b);
      assert (a + b)[0] == a[0] && (a + b)[1..] == a[1..] + b;
      var cut := CutOf(a[1..]);
      PushAfter(a[0], cut.lines, CutOf(cut.rest + b));
      if a[0] != '\n' && cut.lines == [] {
        var rest := [a[0]] + cut.rest;
        assert (rest + b)[0] == a[0] && (rest + b)[1..] == cut.rest + b;
        assert After([], CutOf(rest + b)) == CutOf(rest + b);
      }
    }
  }

  /** However a stream is cut into writes, the callbacks are its lines and what follows the last newline. */
  method Collect(chunks: seq<string>) returns (called: seq<string>)
    ensures called == Segments(Concat(chunks))
  {
    var collector := new LineCollector();
    for i := 0 to |chunks|
      invariant CutOf(Concat(chunks[..i])) == Cut(collector.called, collector.buffer)
    {
      ConcatNext(chunks, i);
      CutAppend(Concat(chunks[..i]), chunks[i]);
      collector.Write(chunks[i]);
    }
    assert chunks[..|chunks|] == chunks;
    collector.Close();
    called := collector.called;
  }

  lemma ConcatNext(chunks: seq<string>, i: nat)
    requires i < |chunks|
    ensures Concat(chunks[..i + 1]) == Concat(chunks[..i]) + chunks[i]
  {
    assert chunks[..i + 1] == chunks[..i] + [chunks[i]];
    ConcatAppend(chunks[..i], [chunks[i]]);
    assert [chunks[i]][1..] == [] && chunks[i] + "" == chunks[i];
  }

  // ---- What the lines are ----

  predicate IsLine(s: string) {
    s != "" && s[|s| - 1] == '\n' && '\n' !in s[..|s| - 1]
  }

  // The stream, cut behind each newline.
  predicate Behind(cut: Cut, s: string) {
    && Concat(cut.lines) + cut.rest == s && '\n' !in cut.rest
    && forall i | 0 <= i < |cut.lines| :: IsLine(cut.lines[i])
  }

  lemma PushIsBehind(c: char, cut: Cut, s: string)
    requires Behind(cut, s)
    ensures Behind(Push(c, cut), [c] + s)
  {
    if c == '\n' {
      var all := ["\n"] + cut.lines;
      assert all[1..] == cut.lines;
      assert "\n" + Concat(cut.lines) + cut.rest == [c] + s;
      assert IsLine("\n");
    } else if cut.lines != [] {
      var all := [[c] + cut.lines[0]] + cut.lines[1..];
      assert all[1..] == cut.lines[1..] && all[0][..|all[0]| - 1] == [c] + cut.lines[0][..|cut.lines[0]| - 1];
      assert Concat(all) == [c] + cut.lines[0] + Concat(cut.lines[1..]);
      assert Concat(all) + cut.rest == [c] + s;
      assert IsLine(all[0]);
    }
  }

  lemma {:induction false} CutIsBehind(s: string)
    ensures Behind(CutOf(s), s)
  {
    if s != "" {
      CutIsBehind(s[1..]);
      PushIsBehind(s[0], CutOf(s[1..]), s[1..]);
      assert [s[0]] + s[1..] == s;
    }
  }

  lemma {:induction false} BehindIsCut(cut: Cut, s: string)
    requires Behind(cut, s)
    ensures cut == CutOf(s)
    decreases |cut.lines|
  {
    if cut.lines == [] {
      assert s == cut.rest;
      NoLine(s);
    } else {
      var text := cut.lines[0][..|cut.lines[0]| - 1];
      var after := Cut(cut.lines[1..], cut.rest);
      var tail := Concat(after.lines) + after.rest;
      assert cut.lines[0] == text + "\n" && s == text + "\n" + tail;
      BeforeAppend(text, '\n', tail);
      assert s[|text|] == '\n' && s[|text| + 1..] == tail;
      BehindIsCut(after, tail);
      FirstLine(s);
      assert [cut.lines[0]] + cut.lines[1..] == cut.lines;
    }
  }

  /** The lines are the stream, cut behind each newline, and no other cut is. */
  lemma CutExactly(s: string, cut: Cut)
    ensures Behind(cut, s) <==> cut == CutOf(s)
  {
    CutIsBehind(s);
    if Behind(cut, s) { BehindIsCut(cut, s); }
  }

  /** Nothing of the stream is lost, repeated or reordered. */
  lemma SegmentsAreStream(s: string)
    ensures Concat(Segments(s)) == s
  {
    var cut := CutOf(s);
    CutIsBehind(s);
    if cut.rest != "" {
      ConcatAppend(cut.lines, [cut.rest]);
      assert [cut.rest][1..] == [] && cut.rest + "" == cut.rest;
    } else {
      assert cut.lines + [] == cut.lines && Concat(cut.lines) + "" == Concat(cut.lines);
    }
  }

  // ---- Fingerprints ----

  predicate StartsWith(s: string, part: string) {
    part <= s
  }

  predicate Contains(s: string, part: string) {
    exists i :: 0 <= i <= |s| && StartsWith(s[i..], part)
  }

  // bytes.isspace
  predicate ByteSpace(c: char) {
    c == ' ' || '\t' <= c <= '\r'
  }

  predicate Empty(line: string) {
    forall i | 0 <= i < |line| :: ByteSpace(line[i])
  }

  function Strip(s: string): string
    decreases |s|
  {
    if s != "" && ByteSpace(s[0]) then Strip(s[1..])
    else if s != "" && ByteSpace(s[|s| - 1]) then Strip(s[..|s| - 1])
    else s
  }

  // str.replace
  function Replace(s: string, part: string, other: string): string
    requires part != ""
    decreases |s|
  {
    if |s| < |part| then s
    else if s[..|part|] == part then other + Replace(s[|part|..], part, other)
    else [s[0]] + Replace(s[1..], part, other)
  }

  const ROOT := " root@temporary-hostname "

  predicate Matches(line: string) {
    Contains(line, "SHA256") && Contains(line, ROOT + "(")
  }

  function Fingerprint(line: string): string {
    Replace(Strip(line), ROOT, " no comment ")
  }

  class FingerprintExtractor {
    var processing: bool
    var fingerprints: seq<string>
    // The arguments of all calls of the callback.
    var called: seq<seq<string>>
    // All lines so far.
    ghost var lines: seq<string>

    ghost predicate Valid()
      reads this
    {
      && called == Calls(lines) && (processing <==> called == [])
      && (processing ==> fingerprints == FingerprintsOf(lines))
    }

    constructor ()
      ensures Valid() && lines == []
    {
      processing, fingerprints, called, lines := true, [], [], [];
    }

    method ProcessLine(line: string)
      requires Valid()
      modifies this
      ensures Valid() && lines == old(lines) + [line]
    {
      CallsSnoc(lines, line);
      if processing {
        if Matches(line) {
          fingerprints := fingerprints + [Fingerprint(line)];
        } else if fingerprints != [] && Empty(line) {
          called := called + [fingerprints];
          processing := false;
        }
      }
      lines := lines + [line];
    }
  }

  function FingerprintsOf(lines: seq<string>): seq<string> {
    if lines == [] then []
    else
      FingerprintsOf(lines[..|lines| - 1]) +
      if Matches(lines[|lines| - 1]) then [Fingerprint(lines[|lines| - 1])] else []
  }

  // Line i is empty, and some line before it matches.
  predicate Ends(lines: seq<string>, i: nat) {
    i < |lines| && Empty(lines[i]) && exists j :: 0 <= j < i && Matches(lines[j])
  }

  // The first such line.
  predicate FirstEnd(lines: seq<string>, i: nat) {
    Ends(lines, i) && forall j: nat | j < i :: !Ends(lines, j)
  }

  // What the callback gets: the fingerprints before the first empty line that follows a match.
  function Calls(lines: seq<string>): seq<seq<string>> {
    if lines == [] then []
    else
      var before := lines[..|lines| - 1];
      if Calls(before) == [] && Ends(lines, |before|) then [FingerprintsOf(before)] else Calls(before)
  }

  lemma {:induction false} SomeMatch(lines: seq<string>)
    ensures FingerprintsOf(lines) != [] <==> exists j :: 0 <= j < |lines| && Matches(lines[j])
  {
    if lines != [] {
      var before := lines[..|lines| - 1];
      SomeMatch(before);
      assert forall j | 0 <= j < |before| :: before[j] == lines[j];
      if FingerprintsOf(before) != [] {
        var j :| 0 <= j < |before| && Matches(before[j]);
        assert Matches(lines[j]);
      }
    }
  }

  lemma MatchIsNotEmpty(line: string)
    requires Matches(line)
    ensures !Empty(line)
  {
    var i :| 0 <= i <= |line| && StartsWith(line[i..], "SHA256");
    assert line[i] == line[i..][0] == "SHA256"[0];
    assert !ByteSpace(line[i]);
  }

  lemma CallsSnoc(lines: seq<string>, line: string)
    ensures var all := lines + [line];
            && FingerprintsOf(all) == FingerprintsOf(lines) + (if Matches(line) then [Fingerprint(line)] else [])
            && Calls(all) == if Calls(lines) == [] && Empty(line) && !Matches(line) && FingerprintsOf(lines) != []
                             then [FingerprintsOf(lines)] else Calls(lines)
  {
    var all := lines + [line];
    var n := |lines|;
    assert all[..n] == lines && all[n] == line;
    if Matches(line) { MatchIsNotEmpty(line); }
    SomeMatch(lines);
    assert forall j | 0 <= j < n :: all[j] == lines[j];
    if FingerprintsOf(lines) != [] {
      var j :| 0 <= j < n && Matches(lines[j]);
      assert Matches(all[j]);
    }
  }

  /**
   The callback is called at most once: if there is an empty line after a match, with the fingerprints of all
   matching lines before the first such line; if not, never.
   */
  lemma {:induction false} CalledAtMostOnce(lines: seq<string>)
    ensures |Calls(lines)| <= 1
    ensures Calls(lines) == [] <==> forall i: nat :: !Ends(lines, i)
    ensures forall i: nat | FirstEnd(lines, i) :: Calls(lines) == [FingerprintsOf(lines[..i])]
  {
    if lines != [] {
      var n := |lines| - 1;
      var before := lines[..n];
      CalledAtMostOnce(before);
      forall i: nat | i < n ensures Ends(lines, i) <==> Ends(before, i) {
        EndsBefore(lines, i, n);
      }
      forall i: nat | FirstEnd(lines, i) ensures Calls(lines) == [FingerprintsOf(lines[..i])] {
        if i < n {
          assert FirstEnd(before, i) && before[..i] == lines[..i];
        }
      }
    }
  }

  lemma EndsBefore(lines: seq<string>, i: nat, n: nat)
    requires i < n < |lines|
    ensures Ends(lines, i) <==> Ends(lines[..n], i)
  {
    assert forall j | 0 <= j < n :: lines[..n][j] == lines[j];
    if Ends(lines, i) {
      var j :| 0 <= j < i && Matches(lines[j]);
      assert Matches(lines[..n][j]);
    }
  }

  /** So the callback depends on the stream alone, not on how it was read. */
  method Watch(chunks: seq<string>) returns (called: seq<seq<string>>)
    ensures called == Calls(Segments(Concat(chunks)))
  {
    var extractor := new FingerprintExtractor();
    var lines := Collect(chunks);
    for i := 0 to |lines|
      invariant extractor.Valid() && extractor.lines == lines[..i]
    {
      assert lines[..i + 1] == lines[..i] + [lines[i]];
      extractor.ProcessLine(lines[i]);
    }
    assert lines[..|lines|] == lines;
    called := extractor.called;
  }

  // ---- What a line gives ----

  // The part occurs first at i.
  ghost predicate FirstAt(s: string, part: string, i: nat) {
    i <= |s| && StartsWith(s[i..], part) && forall j | 0 <= j < i :: !StartsWith(s[j..], part)
  }

  lemma {:induction false} ReplaceNone(s: string, part: string, other: string)
    requires part != "" && !Contains(s, part)
    ensures Replace(s, part, other) == s
    decreases |s|
  {
    if |s| >= |part| {
      assert s[0..] == s;
      assert !StartsWith(s[0..], part);
      forall i | 0 <= i <= |s[1..]| ensures !StartsWith(s[1..][i..], part) {
        assert s[1..][i..] == s[i + 1..];
      }
      ReplaceNone(s[1..], part, other);
    }
  }

  lemma ReplaceStep(c: char, rest: string, part: string, other: string)
    requires part != "" && !StartsWith([c] + rest, part)
    ensures Replace([c] + rest, part, other) == [c] + Replace(rest, part, other)
  {
    var s := [c] + rest;
    assert s[1..] == rest;
    if |s| >= |part| { assert s[..|part|] != part; } else { assert |rest| < |part|; }
  }

  lemma ReplaceAtStart(part: string, y: string, other: string)
    requires part != ""
    ensures Replace(part + y, part, other) == other + Replace(y, part, other)
  {
    assert (part + y)[..|part|] == part && (part + y)[|part|..] == y;
  }

  // One character less in front.
  lemma FirstLater(s: string, part: string, i: nat)
    requires FirstAt(s, part, i) && i > 0
    ensures FirstAt(s[1..], part, i - 1) && !StartsWith(s, part)
  {
    assert s[0..] == s && !StartsWith(s[0..], part);
    assert s[1..][i - 1..] == s[i..];
    forall j | 0 <= j < i - 1 ensures !StartsWith(s[1..][j..], part) {
      assert s[1..][j..] == s[j + 1..];
    }
  }

  lemma {:induction false} ReplaceOnce(s: string, part: string, i: nat, y: string, other: string)
    requires part != "" && FirstAt(s, part, i) && s[i..] == part + y && !Contains(y, part)
    ensures Replace(s, part, other) == s[..i] + (other + y)
    decreases i
  {
    if i == 0 {
      assert s == part + y && s[..0] == "";
      ReplaceAtStart(part, y, other);
      ReplaceNone(y, part, other);
    } else {
      var c, rest := s[0], s[1..];
      assert s == [c] + rest && rest[i - 1..] == s[i..];
      FirstLater(s, part, i);
      ReplaceStep(c, rest, part, other);
      ReplaceOnce(rest, part, i - 1, y, other);
      FirstBack(s, i, other + y);
    }
  }

  lemma FirstBack(s: string, i: nat, t: string)
    requires 0 < i <= |s|
    ensures [s[0]] + (s[1..][..i - 1] + t) == s[..i] + t
  {
    assert [s[0]] + s[1..][..i - 1] == s[..i];
  }

  lemma ReplaceFirst(x: string, part: string, y: string, other: string)
    requires part != "" && FirstAt(x + part + y, part, |x|) && !Contains(y, part)
    ensures Replace(x + part + y, part, other) == x + other + y
  {
    var s := x + part + y;
    assert s[|x|..] == part + y && s[..|x|] == x;
    ReplaceOnce(s, part, |x|, y, other);
  }

  predicate AllSpace(s: string) {
    forall i | 0 <= i < |s| :: ByteSpace(s[i])
  }

  // Neither end is white space.
  predicate Tight(s: string) {
    s != "" && !ByteSpace(s[0]) && !ByteSpace(s[|s| - 1])
  }

  lemma {:induction false} StripSpaces(before: string, s: string, after: string)
    requires AllSpace(before) && Tight(s) && AllSpace(after)
    ensures Strip(before + s + after) == s
    decreases |before| + |after|
  {
    var all := before + s + after;
    if before != "" {
      assert all[0] == before[0] && all[1..] == before[1..] + s + after;
      StripSpaces(before[1..], s, after);
    } else if after != "" {
      assert all[0] == s[0] && all[|all| - 1] == after[|after| - 1] && all[..|all| - 1] == before + s + after[..|after| - 1];
      StripSpaces(before, s, after[..|after| - 1]);
    } else {
      assert all == s;
    }
  }

  lemma Occurs(x: string, part: string, y: string)
    ensures Contains(x + part + y, part)
  {
    assert (x + part + y)[|x|..] == part + y;
  }

  /**
   A line of ssh-keygen with a fingerprint for root at the temporary host name matches, and gives the same line without
   white space around it, and with "no comment" for the comment.
   */
  lemma FingerprintExactly(before: string, x: string, y: string, after: string)
    requires AllSpace(before) && AllSpace(after) && Tight(x + " root@temporary-hostname " + ("(" + y))
    requires Contains(x, "SHA256")
    requires FirstAt(x + " root@temporary-hostname " + ("(" + y), " root@temporary-hostname ", |x|)
    requires !Contains("(" + y, " root@temporary-hostname ")
    ensures var line := before + (x + " root@temporary-hostname (" + y) + after;
            Matches(line) && Fingerprint(line) == x + " no comment (" + y
  {
    SameText(x, y);
    CommentReplaced(before, x, "(" + y, after);
    MatchOf(before, x, y, after);
  }

  lemma SameText(x: string, y: string)
    ensures x + " root@temporary-hostname (" + y == x + ROOT + ("(" + y)
    ensures x + " no comment (" + y == x + " no comment " + ("(" + y)
  {
    assert " root@temporary-hostname (" == ROOT + "(" && " no comment (" == " no comment " + "(";
  }

  lemma CommentReplaced(before: string, x: string, rest: string, after: string)
    requires AllSpace(before) && AllSpace(after) && Tight(x + ROOT + rest)
    requires FirstAt(x + ROOT + rest, ROOT, |x|) && !Contains(rest, ROOT)
    ensures Fingerprint(before + (x + ROOT + rest) + after) == x + " no comment " + rest
  {
    StripSpaces(before, x + ROOT + rest, after);
    ReplaceFirst(x, ROOT, rest, " no comment ");
  }

  lemma MatchOf(before: string, x: string, y: string, after: string)
    requires Contains(x, "SHA256")
    ensures Matches(before + (x + " root@temporary-hostname (" + y) + after)
  {
    var part := " root@temporary-hostname (";
    var line := before + (x + part + y) + after;
    assert ROOT + "(" == part;
    assert line == (before + x) + part + (y + after);
    Occurs(before + x, part, y + after);
    OccursWithin(before, x, part + y + after, "SHA256");
    assert line == before + x + (part + y + after);
  }

  lemma OccursWithin(before: string, x: string, after: string, part: string)
    requires Contains(x, part)
    ensures Contains(before + x + after, part)
  {
    var i :| 0 <= i <= |x| && StartsWith(x[i..], part);
    var u, v := x[..i], x[i + |part|..];
    assert x == u + part + v;
    assert before + x + after == (before + u) + part + (v + after);
    Occurs(before + u, part, v + after);
  }

  /** A line matches exactly if both texts occur in it. */
  lemma MatchesExactly(line: string)
    ensures Matches(line) <==>
            && (exists x, y :: line == x + "SHA256" + y)
            && exists x, y :: line == x + " root@temporary-hostname (" + y
  {
    assert ROOT + "(" == " root@temporary-hostname (";
    OccursExactly(line, "SHA256");
    OccursExactly(line, " root@temporary-hostname (");
  }

  lemma OccursExactly(s: string, part: string)
    ensures Contains(s, part) <==> exists x, y :: s == x + part + y
  {
    if Contains(s, part) {
      var i :| 0 <= i <= |s| && StartsWith(s[i..], part);
      assert s == s[..i] + part + s[i + |part|..];
    }
    if x, y :| s == x + part + y { Occurs(x, part, y); }
  }

  /** The fingerprints are those of the matching lines, in their order. */
  lemma {:induction false} FingerprintsInOrder(a: seq<string>, b: seq<string>, line: string)
    ensures FingerprintsOf(a + b) == FingerprintsOf(a) + FingerprintsOf(b)
    ensures FingerprintsOf([line]) == if Matches(line) then [Fingerprint(line)] else []
    decreases |b|
  {
    assert [line][..0] == [];
    if b == [] {
      assert a + b == a && FingerprintsOf(a) + [] == FingerprintsOf(a);
    } else {
      var n := |b| - 1;
      FingerprintsInOrder(a, b[..n], line);
      assert (a + b)[..|a + b| - 1] == a + b[..n] && (a + b)[|a + b| - 1] == b[n];
    }
  }
}

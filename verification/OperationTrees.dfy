/**
 Trees of operations (platform/spire/src/command.py): what a program that schedules operations, in
 subcommands and contexts, means, and what happens when it is executed and something raises.
 */
module OperationTrees {
  // One scheduled operation; contexts and callbacks are known by number.
  datatype Op =
    | Call(name: string, callback: nat)
    | Sub(name: string, ops: seq<Op>)
    | Within(name: string, context: nat, ops: seq<Op>)

  datatype Event =
    | Named(depth: nat, name: string)
    | Ran(callback: nat, ok: bool)
    | Entered(context: nat)
    | EnterFailed(context: nat)
    | Exited(context: nat, ok: bool)

  datatype Outcome = Outcome(events: seq<Event>, ok: bool)

  /**
   Execution: works says whether the n-th thing that can raise an exception goes well; n counts all events
   before it.  The __exit__ of a context may raise, but never suppresses an exception.
   */
  function Execute(ops: seq<Op>, depth: nat, works: nat -> bool, n: nat): Outcome
    decreases ops
  {
    if ops == [] then Outcome([], true)
    else
      var first := ExecuteOne(ops[0], depth, works, n);
      if !first.ok then first
      else
        var rest := Execute(ops[1..], depth, works, n + |first.events|);
        Outcome(first.events + rest.events, rest.ok)
  }

  function ExecuteOne(op: Op, depth: nat, works: nat -> bool, n: nat): Outcome
    decreases op
  {
    var named := Named(depth, op.name);
    match op
    case Call(_, callback) => Outcome([named, Ran(callback, works(n + 1))], works(n + 1))
    case Sub(_, ops) =>
      var inner := Execute(ops, depth + 1, works, n + 1);
      Outcome([named] + inner.events, inner.ok)
    case Within(_, context, ops) =>
      if !works(n + 1) then Outcome([named, EnterFailed(context)], false)
      else
        var inner := Execute(ops, depth + 1, works, n + 2);
        var left := works(n + 2 + |inner.events|);
        Outcome([named, Entered(context)] + inner.events + [Exited(context, left)], inner.ok && left)
  }

  // The names that a dry run prints, with their indentation.
  function Outline(ops: seq<Op>, depth: nat): seq<Event>
    decreases ops
  {
    if ops == [] then []
    else
      [Named(depth, ops[0].name)] + (if ops[0].Call? then [] else Outline(ops[0].ops, depth + 1)) +
      Outline(ops[1..], depth)
  }

  // The callbacks in program order, each with the contexts around it, outermost first.
  datatype Placed = Placed(callback: nat, contexts: seq<nat>)

  function Program(ops: seq<Op>, contexts: seq<nat>): seq<Placed>
    decreases ops
  {
    if ops == [] then []
    else
      (match ops[0]
       case Call(_, callback) => [Placed(callback, contexts)]
       case Sub(_, inner) => Program(inner, contexts)
       case Within(_, context, inner) => Program(inner, contexts + [context])) +
      Program(ops[1..], contexts)
  }

  // ---- What an observer makes of the events ----

  // The contexts that are open after the events; None if one was exited that was not the innermost.
  datatype Maybe = None | Some(open: seq<nat>)

  function Open(events: seq<Event>, open: seq<nat>): Maybe {
    if events == [] then Some(open)
    else
      match events[0]
      case Entered(context) => Open(events[1..], open + [context])
      case Exited(context, _) =>
        if open == [] || open[|open| - 1] != context then None else Open(events[1..], open[..|open| - 1])
      case _ => Open(events[1..], open)
  }

  // The callbacks that ran, each with the contexts open at that time.
  function Performed(events: seq<Event>, open: seq<nat>): seq<Placed> {
    if events == [] then []
    else
      match events[0]
      case Entered(context) => Performed(events[1..], open + [context])
      case Exited(_, _) => Performed(events[1..], if open == [] then [] else open[..|open| - 1])
      case Ran(callback, _) => [Placed(callback, open)] + Performed(events[1..], open)
      case _ => Performed(events[1..], open)
  }

  function Names(events: seq<Event>): seq<Event> {
    if events == [] then []
    else (if events[0].Named? then [events[0]] else []) + Names(events[1..])
  }

  predicate Raised(e: Event) {
    match e
    case Ran(_, ok) => !ok
    case EnterFailed(_) => true
    case Exited(_, ok) => !ok
    case Named(_, _) => false
    case Entered(_) => false
  }

  // After an exception, there is nothing but the exits of contexts.
  predicate FailStop(events: seq<Event>) {
    forall i, j | 0 <= i < j < |events| && Raised(events[i]) :: events[j].Exited?
  }

  predicate NoneRaised(events: seq<Event>) {
    forall i | 0 <= i < |events| :: !Raised(events[i])
  }

  predicate Prefix<T(==)>(a: seq<T>, b: seq<T>) {
    |a| <= |b| && a == b[..|a|]
  }

  // ---- How observations compose ----

  lemma {:induction false} OpenAppend(a: seq<Event>, b: seq<Event>, open: seq<nat>)
    requires Open(a, open).Some?
    ensures Open(a + b, open) == Open(b, Open(a, open).open)
    ensures Performed(a + b, open) == Performed(a, open) + Performed(b, Open(a, open).open)
  {
    if a == [] {
      assert a + b == b;
    } else {
      assert (a + b)[0] == a[0] && (a + b)[1..] == a[1..] + b;
      match a[0] {
        case Entered(context) => OpenAppend(a[1..], b, open + [context]);
        case Exited(_, _) => OpenAppend(a[1..], b, open[..|open| - 1]);
        case _ => OpenAppend(a[1..], b, open);
      }
    }
  }

  lemma {:induction false} NamesAppend(a: seq<Event>, b: seq<Event>)
    ensures Names(a + b) == Names(a) + Names(b)
  {
    if a == [] {
      assert a + b == b;
    } else {
      NamesAppend(a[1..], b);
      assert (a + b)[0] == a[0] && (a + b)[1..] == a[1..] + b;
      var first := if a[0].Named? then [a[0]] else [];
      assert first + (Names(a[1..]) + Names(b)) == (first + Names(a[1..])) + Names(b);
    }
  }

  lemma PrefixAppend<T>(a: seq<T>, b: seq<T>, c: seq<T>)
    requires Prefix(a, b)
    ensures Prefix(a, b + c)
  {
  }

  lemma PrefixAfter<T>(a: seq<T>, b: seq<T>, c: seq<T>)
    requires Prefix(b, c)
    ensures Prefix(a + b, a + c)
  {
    assert (a + c)[..|a + b|] == a + c[..|b|];
  }

  // ---- The theorems, for one operation and for a list ----

  // The outcome of executing a program whose callbacks are program and whose outline is outline.
  ghost predicate Disciplined(r: Outcome, program: seq<Placed>, outline: seq<Event>, open: seq<nat>) {
    && Open(r.events, open) == Some(open)
    && Prefix(Performed(r.events, open), program)
    && Prefix(Names(r.events), outline)
    && FailStop(r.events)
    && (r.ok ==> Performed(r.events, open) == program && Names(r.events) == outline)
    && (r.ok <==> NoneRaised(r.events))
  }

  lemma AppendDisciplined(a: Outcome, b: Outcome, pa: seq<Placed>, pb: seq<Placed>, na: seq<Event>, nb: seq<Event>,
                          open: seq<nat>)
    requires a.ok && Disciplined(a, pa, na, open) && Disciplined(b, pb, nb, open)
    ensures Disciplined(Outcome(a.events + b.events, b.ok), pa + pb, na + nb, open)
  {
    OpenAppend(a.events, b.events, open);
    NamesAppend(a.events, b.events);
    PrefixAfter(pa, Performed(b.events, open), pb);
    PrefixAfter(na, Names(b.events), nb);
    var all := a.events + b.events;
    if b.ok {
      assert forall i | 0 <= i < |all| :: !Raised(all[i]);
    } else {
      var i :| 0 <= i < |b.events| && Raised(b.events[i]);
      assert Raised(all[|a.events| + i]);
    }
  }

  lemma StopDisciplined(a: Outcome, pa: seq<Placed>, pb: seq<Placed>, na: seq<Event>, nb: seq<Event>, open: seq<nat>)
    requires !a.ok && Disciplined(a, pa, na, open)
    ensures Disciplined(a, pa + pb, na + nb, open)
  {
    PrefixAppend(Performed(a.events, open), pa, pb);
    PrefixAppend(Names(a.events), na, nb);
  }

  // Putting events in front, and an exit behind.
  lemma NamedDisciplined(named: Event, inner: Outcome, program: seq<Placed>, outline: seq<Event>, open: seq<nat>)
    requires named.Named? && Disciplined(inner, program, outline, open)
    ensures Disciplined(Outcome([named] + inner.events, inner.ok), program, [named] + outline, open)
  {
    var all := [named] + inner.events;
    assert all[1..] == inner.events;
    PrefixAfter([named], Names(inner.events), outline);
    assert forall i | 0 <= i < |inner.events| :: all[i + 1] == inner.events[i];
  }

  lemma EnterFirst(context: nat, rest: seq<Event>, open: seq<nat>)
    ensures var all := [Entered(context)] + rest;
            && Open(all, open) == Open(rest, open + [context])
            && Performed(all, open) == Performed(rest, open + [context])
            && Names(all) == Names(rest)
  {
    assert ([Entered(context)] + rest)[1..] == rest;
  }

  lemma ExitAlone(context: nat, left: bool, open: seq<nat>)
    ensures var exit := [Exited(context, left)];
            && Open(exit, open + [context]) == Some(open)
            && Performed(exit, open + [context]) == [] && Names(exit) == []
  {
    assert [Exited(context, left)][1..] == [] && (open + [context])[..|open|] == open;
  }

  // What is observed within a context, and then with its entry and exit.
  lemma BracketObserved(context: nat, inner: seq<Event>, left: bool, open: seq<nat>)
    requires Open(inner, open + [context]) == Some(open + [context])
    ensures var all := [Entered(context)] + (inner + [Exited(context, left)]);
            && Open(all, open) == Some(open)
            && Performed(all, open) == Performed(inner, open + [context])
            && Names(all) == Names(inner)
  {
    var exit := [Exited(context, left)];
    ExitAlone(context, left, open);
    OpenAppend(inner, exit, open + [context]);
    NamesAppend(inner, exit);
    EnterFirst(context, inner + exit, open);
  }

  lemma BracketStops(first: Event, inner: seq<Event>, last: Event)
    requires !Raised(first) && last.Exited? && FailStop(inner)
    ensures var all := [first] + (inner + [last]);
            FailStop(all) && (NoneRaised(all) <==> NoneRaised(inner) && !Raised(last))
  {
    var all := [first] + (inner + [last]);
    assert all[|inner| + 1] == last;
    assert forall i | 0 <= i < |inner| :: all[i + 1] == inner[i];
  }

  lemma BracketDisciplined(context: nat, inner: Outcome, left: bool, program: seq<Placed>, outline: seq<Event>, open: seq<nat>)
    requires Disciplined(inner, program, outline, open + [context])
    ensures Disciplined(Outcome([Entered(context)] + (inner.events + [Exited(context, left)]), inner.ok && left),
                        program, outline, open)
  {
    BracketObserved(context, inner.events, left, open);
    BracketStops(Entered(context), inner.events, Exited(context, left));
  }

  // Program, outline and execution of a list, by its first operation.
  lemma ListFirst(ops: seq<Op>, depth: nat, open: seq<nat>)
    requires ops != []
    ensures Program(ops, open) == ProgramOf(ops[0], open) + Program(ops[1..], open)
    ensures Outline(ops, depth) == OutlineOf(ops[0], depth) + Outline(ops[1..], depth)
  {
  }

  lemma ListRuns(ops: seq<Op>, depth: nat, works: nat -> bool, n: nat)
    requires ops != []
    ensures var first := ExecuteOne(ops[0], depth, works, n);
            Execute(ops, depth, works, n) ==
            if !first.ok then first
            else
              var rest := Execute(ops[1..], depth, works, n + |first.events|);
              Outcome(first.events + rest.events, rest.ok)
  {
  }

  lemma {:induction false} ListIsDisciplined(ops: seq<Op>, depth: nat, works: nat -> bool, n: nat, open: seq<nat>)
    ensures Disciplined(Execute(ops, depth, works, n), Program(ops, open), Outline(ops, depth), open)
    decreases ops
  {
    if ops != [] {
      var first := ExecuteOne(ops[0], depth, works, n);
      OneIsDisciplined(ops[0], depth, works, n, open);
      ListFirst(ops, depth, open);
      ListRuns(ops, depth, works, n);
      var pa, pb := ProgramOf(ops[0], open), Program(ops[1..], open);
      var na, nb := OutlineOf(ops[0], depth), Outline(ops[1..], depth);
      if first.ok {
        var rest := Execute(ops[1..], depth, works, n + |first.events|);
        ListIsDisciplined(ops[1..], depth, works, n + |first.events|, open);
        AppendDisciplined(first, rest, pa, pb, na, nb, open);
      } else {
        StopDisciplined(first, pa, pb, na, nb, open);
      }
    }
  }

  function ProgramOf(op: Op, open: seq<nat>): seq<Placed> {
    match op
    case Call(_, callback) => [Placed(callback, open)]
    case Sub(_, inner) => Program(inner, open)
    case Within(_, context, inner) => Program(inner, open + [context])
  }

  function OutlineOf(op: Op, depth: nat): seq<Event> {
    [Named(depth, op.name)] + if op.Call? then [] else Outline(op.ops, depth + 1)
  }

  lemma {:induction false} OneIsDisciplined(op: Op, depth: nat, works: nat -> bool, n: nat, open: seq<nat>)
    ensures Disciplined(ExecuteOne(op, depth, works, n), ProgramOf(op, open), OutlineOf(op, depth), open)
    decreases op
  {
    var named := Named(depth, op.name);
    match op {
      case Call(_, callback) =>
        CallDisciplined(named, callback, works(n + 1), open);
      case Sub(_, ops) =>
        ListIsDisciplined(ops, depth + 1, works, n + 1, open);
        NamedDisciplined(named, Execute(ops, depth + 1, works, n + 1), Program(ops, open), Outline(ops, depth + 1), open);
      case Within(_, context, ops) =>
        ListIsDisciplined(ops, depth + 1, works, n + 2, open + [context]);
        WithinIsDisciplined(op, depth, works, n, open);
    }
  }

  // Named, entered and exited.
  lemma EnteredDisciplined(named: Event, context: nat, inner: Outcome, left: bool, program: seq<Placed>,
                           outline: seq<Event>, open: seq<nat>)
    requires named.Named? && Disciplined(inner, program, outline, open + [context])
    ensures Disciplined(Outcome([named, Entered(context)] + inner.events + [Exited(context, left)], inner.ok && left),
                        program, [named] + outline, open)
  {
    var exit := [Exited(context, left)];
    var bracket := [Entered(context)] + (inner.events + exit);
    BracketDisciplined(context, inner, left, program, outline, open);
    NamedDisciplined(named, Outcome(bracket, inner.ok && left), program, outline, open);
    assert [named] + bracket == [named, Entered(context)] + inner.events + exit;
  }

  lemma WithinIsDisciplined(op: Op, depth: nat, works: nat -> bool, n: nat, open: seq<nat>)
    requires op.Within?
    requires Disciplined(Execute(op.ops, depth + 1, works, n + 2), Program(op.ops, open + [op.context]),
                         Outline(op.ops, depth + 1), open + [op.context])
    ensures Disciplined(ExecuteOne(op, depth, works, n), ProgramOf(op, open), OutlineOf(op, depth), open)
  {
    var named, context := Named(depth, op.name), op.context;
    var program, outline := Program(op.ops, open + [context]), Outline(op.ops, depth + 1);
    if works(n + 1) {
      var inner := Execute(op.ops, depth + 1, works, n + 2);
      EnteredDisciplined(named, context, inner, works(n + 2 + |inner.events|), program, outline, open);
    } else {
      NamedRefusal(named, context, program, outline, open);
    }
  }

  lemma NamedRefusal(named: Event, context: nat, program: seq<Placed>, outline: seq<Event>, open: seq<nat>)
    requires named.Named?
    ensures Disciplined(Outcome([named, EnterFailed(context)], false), program, [named] + outline, open)
  {
    RefusedDisciplined(context, program, outline, open);
    NamedDisciplined(named, Outcome([EnterFailed(context)], false), program, outline, open);
    assert [named] + [EnterFailed(context)] == [named, EnterFailed(context)];
  }

  lemma RefusedDisciplined(context: nat, program: seq<Placed>, outline: seq<Event>, open: seq<nat>)
    ensures Disciplined(Outcome([EnterFailed(context)], false), program, outline, open)
  {
    var events := [EnterFailed(context)];
    assert events[1..] == [] && Raised(events[0]) && !events[0].Named?;
    assert Open(events, open) == Open(events[1..], open) && Performed(events, open) == Performed(events[1..], open);
    assert Names(events) == [] + Names(events[1..]);
  }

  lemma CallDisciplined(named: Event, callback: nat, ok: bool, open: seq<nat>)
    requires named.Named?
    ensures Disciplined(Outcome([named, Ran(callback, ok)], ok), [Placed(callback, open)], [named], open)
  {
    var ran := [Ran(callback, ok)];
    var events := [named, Ran(callback, ok)];
    assert ran[1..] == [] && events[1..] == ran;
    assert Open(events, open) == Open(ran, open) == Open(ran[1..], open);
    assert Performed(ran[1..], open) == [] && Names(ran[1..]) == [] && !ran[0].Named?;
    assert Performed(ran, open) == [Placed(callback, open)] + [] && Names(ran) == [] + [];
    assert Performed(events, open) == Performed(ran, open) && Names(events) == [named] + Names(ran);
    assert Raised(events[1]) == !ok && !Raised(events[0]);
  }

  /**
   Whatever raises: the callbacks that run are a prefix of the program, each inside exactly the contexts
   written around it; every context entered is exited once, innermost first; nothing but exits follows an
   exception; the names printed are a prefix of the dry run's.  Without an exception, all of it happens.
   */
  lemma ExecutionIsDisciplined(ops: seq<Op>, works: nat -> bool)
    ensures var r := Execute(ops, 0, works, 0);
            && Open(r.events, []) == Some([])
            && Prefix(Performed(r.events, []), Program(ops, []))
            && Prefix(Names(r.events), Outline(ops, 0))
            && FailStop(r.events)
            && (r.ok <==> NoneRaised(r.events))
            && (r.ok ==> Performed(r.events, []) == Program(ops, []) && Names(r.events) == Outline(ops, 0))
  {
    ListIsDisciplined(ops, 0, works, 0, []);
  }

  // ---- What a dry run shows ----

  // Names and nesting.
  datatype Shape = Shape(name: string, inside: seq<Shape>)

  function Shapes(ops: seq<Op>): seq<Shape>
    decreases ops
  {
    if ops == [] then []
    else [Shape(ops[0].name, if ops[0].Call? then [] else Shapes(ops[0].ops))] + Shapes(ops[1..])
  }

  // Names indented further than this.
  predicate Deeper(events: seq<Event>, depth: nat) {
    forall i | 0 <= i < |events| :: events[i].Named? && events[i].depth > depth
  }

  // No names, or first one at this depth.
  predicate StartsAt(events: seq<Event>, depth: nat) {
    events == [] || (events[0].Named? && events[0].depth == depth)
  }

  function InnerOutline(op: Op, depth: nat): seq<Event> {
    if op.Call? then [] else Outline(op.ops, depth + 1)
  }

  lemma {:induction false} OutlineDepths(ops: seq<Op>, depth: nat)
    ensures StartsAt(Outline(ops, depth), depth)
    ensures forall i | 0 <= i < |Outline(ops, depth)| :: Outline(ops, depth)[i].Named? && Outline(ops, depth)[i].depth >= depth
    decreases ops
  {
    if ops != [] {
      OutlineDepths(ops[1..], depth);
      if !ops[0].Call? { OutlineDepths(ops[0].ops, depth + 1); }
      assert Outline(ops, depth) == [Named(depth, ops[0].name)] + InnerOutline(ops[0], depth) + Outline(ops[1..], depth);
    }
  }

  lemma Shorter<T>(a: seq<T>, b: seq<T>, a': seq<T>, b': seq<T>)
    requires a + b == a' + b' && |a| < |a'|
    ensures b != [] && b[0] == a'[|a|]
  {
    assert (a + b)[|a|] == (a' + b')[|a|];
  }

  lemma SameCut<T>(a: seq<T>, b: seq<T>, a': seq<T>, b': seq<T>)
    requires a + b == a' + b' && |a| == |a'|
    ensures a == a' && b == b'
  {
    assert (a + b)[..|a|] == a && (a' + b')[..|a'|] == a' && (a + b)[|a|..] == b && (a' + b')[|a'|..] == b';
  }

  lemma OneSplit(a: seq<Event>, b: seq<Event>, a': seq<Event>, b': seq<Event>, depth: nat)
    requires a + b == a' + b' && Deeper(a, depth) && Deeper(a', depth) && StartsAt(b, depth) && StartsAt(b', depth)
    ensures a == a' && b == b'
  {
    if |a| < |a'| {
      Shorter(a, b, a', b');
      assert false;
    } else if |a'| < |a| {
      Shorter(a', b', a, b);
      assert false;
    } else {
      SameCut(a, b, a', b');
    }
  }

  lemma Regroup<T>(a: seq<T>, b: seq<T>, c: seq<T>)
    ensures a + b + c == a + (b + c)
  {
  }

  lemma OutlineFirst(ops: seq<Op>, depth: nat)
    requires ops != []
    ensures Outline(ops, depth) == [Named(depth, ops[0].name)] + (InnerOutline(ops[0], depth) + Outline(ops[1..], depth))
  {
    Regroup([Named(depth, ops[0].name)], InnerOutline(ops[0], depth), Outline(ops[1..], depth));
  }

  lemma InnerIsDeeper(op: Op, depth: nat)
    ensures Deeper(InnerOutline(op, depth), depth)
  {
    if !op.Call? { OutlineDepths(op.ops, depth + 1); }
  }

  lemma SameCons(x: Event, s: seq<Event>, y: Event, t: seq<Event>)
    requires [x] + s == [y] + t
    ensures x == y && s == t
  {
    SameCut([x], s, [y], t);
    assert [x][0] == [y][0];
  }

  lemma SameFirst(a: seq<Op>, b: seq<Op>, depth: nat)
    requires a != [] && b != [] && Outline(a, depth) == Outline(b, depth)
    ensures a[0].name == b[0].name && InnerOutline(a[0], depth) == InnerOutline(b[0], depth)
    ensures Outline(a[1..], depth) == Outline(b[1..], depth)
  {
    OutlineFirst(a, depth);
    OutlineFirst(b, depth);
    SameCons(Named(depth, a[0].name), InnerOutline(a[0], depth) + Outline(a[1..], depth),
             Named(depth, b[0].name), InnerOutline(b[0], depth) + Outline(b[1..], depth));
    InnerIsDeeper(a[0], depth);
    InnerIsDeeper(b[0], depth);
    OutlineDepths(a[1..], depth);
    OutlineDepths(b[1..], depth);
    OneSplit(InnerOutline(a[0], depth), Outline(a[1..], depth), InnerOutline(b[0], depth), Outline(b[1..], depth), depth);
  }

  /** The indented names of a dry run show how the program is nested: no two programs of different shapes print the same. */
  lemma {:induction false} OutlineShowsShape(a: seq<Op>, b: seq<Op>, depth: nat)
    requires Outline(a, depth) == Outline(b, depth)
    ensures Shapes(a) == Shapes(b)
    decreases a
  {
    if a != [] && b != [] {
      SameFirst(a, b, depth);
      var inside, inside' := if a[0].Call? then [] else a[0].ops, if b[0].Call? then [] else b[0].ops;
      if !a[0].Call? { OutlineShowsShape(a[0].ops, inside', depth + 1); } else if !b[0].Call? { NothingInside(b[0].ops, depth + 1); }
      OutlineShowsShape(a[1..], b[1..], depth);
    }
  }

  lemma NothingInside(ops: seq<Op>, depth: nat)
    requires Outline(ops, depth) == []
    ensures ops == []
  {
  }
}

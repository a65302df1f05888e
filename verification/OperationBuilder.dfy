/**
 The Operations class of platform/spire/src/command.py: operations are added to a chain of objects, each
 delegating to the context that is open in it, and the objects are executed later.  Both are proved against
 the trees of OperationTrees.
 */
module OperationBuilder {
  import opened Wrappers
  import Tree = OperationTrees
  type Op = Tree.Op

  datatype Operation = Callback(id: nat) | Nested(ops: Operations)

  datatype Entry = Entry(name: string, operation: Operation)

  // ctx is Some for an OperationsContext.
  class Operations {
    const ctx: Option<nat>
    var entries: seq<Entry>
    var current: Operations?

    constructor (ctx: Option<nat>)
      ensures this.ctx == ctx && entries == [] && current == null && fresh(this)
    {
      this.ctx, entries, current := ctx, [], null;
    }

    // add_operation: chain is this object, the context open in it, the context open in that one, and so on.
    method AddOperation(name: string, operation: Operation, ghost chain: seq<Operations>)
      requires Linked(chain) && chain[0] == this
      modifies chain[|chain| - 1]
      ensures chain[|chain| - 1].current == null
      ensures chain[|chain| - 1].entries == old(chain[|chain| - 1].entries) + [Entry(name, operation)]
      decreases |chain|
    {
      LinkedTail(chain);
      if current == null {
        entries := entries + [Entry(name, operation)];
      } else {
        current.AddOperation(name, operation, chain[1..]);
      }
    }

    // The first half of context, up to its yield: owner is the object in which the context is open.
    method Context(ctx: nat, ghost chain: seq<Operations>) returns (owner: Operations, opc: Operations)
      requires Linked(chain) && chain[0] == this
      modifies chain[|chain| - 1]
      ensures chain[|chain| - 1].entries == old(chain[|chain| - 1].entries)
      ensures owner == chain[|chain| - 1] && owner.current == opc
      ensures fresh(opc) && opc.ctx == Some(ctx) && opc.entries == [] && opc.current == null
      decreases |chain|
    {
      LinkedTail(chain);
      if current == null {
        opc := new Operations(Some(ctx));
        current := opc;
        owner := this;
      } else {
        owner, opc := current.Context(ctx, chain[1..]);
      }
    }

    // The second half, on the owner, when its with-statement ends.
    method Leave(name: string, opc: Operations)
      requires opc != this
      modifies this
      ensures current == null && entries == old(entries) + [Entry(name, Nested(opc))]
    {
      current := null;
      AddOperation(name, Nested(opc), [this]);
    }

    // __call__, which for an OperationsContext enters the context unless this is a dry run.
    method Call(depth: nat, dryRun: bool, works: nat -> bool, n: nat, ghost ops: seq<Op>, ghost done: set<Operations>)
      returns (r: Tree.Outcome)
      requires Holds(this, ops, done)
      ensures dryRun ==> r == Tree.Outcome(Tree.Outline(ops, depth), true)
      ensures !dryRun ==>
                r == match ctx
                     case None => Tree.Execute(ops, depth, works, n)
                     case Some(c) => InContext(ops, c, depth, works, n)
      decreases ops, 1
    {
      if ctx.None? || dryRun {
        r := Run(depth, dryRun, works, n, ops, done);
      } else if !works(n) {
        r := Tree.Outcome([Tree.EnterFailed(ctx.value)], false);
      } else {
        var inner := Run(depth, dryRun, works, n + 1, ops, done);
        var left := works(n + 1 + |inner.events|);
        r := Tree.Outcome([Tree.Entered(ctx.value)] + inner.events + [Tree.Exited(ctx.value, left)], inner.ok && left);
      }
    }

    // Operations.__call__.
    method Run(depth: nat, dryRun: bool, works: nat -> bool, n: nat, ghost ops: seq<Op>, ghost done: set<Operations>)
      returns (r: Tree.Outcome)
      requires Holds(this, ops, done)
      ensures dryRun ==> r == Tree.Outcome(Tree.Outline(ops, depth), true)
      ensures !dryRun ==> r == Tree.Execute(ops, depth, works, n)
      decreases ops, 0
    {
      var events := [];
      for i := 0 to |entries|
        invariant dryRun ==> Tree.Outline(ops, depth) == events + Tree.Outline(ops[i..], depth)
        invariant !dryRun ==> Tree.Execute(ops, depth, works, n) == Continued(events, ops[i..], depth, works, n)
      {
        assert ops[i..][1..] == ops[i + 1..];
        var here := RunEntry(entries[i], depth, dryRun, works, n + |events|, ops[i], done);
        if !dryRun { NextEntry(events, ops[i..], depth, works, n); }
        events := events + here.events;
        if !here.ok { return Tree.Outcome(events, false); }
      }
      r := Tree.Outcome(events, true);
    }

    // One turn of its loop.
    method RunEntry(entry: Entry, depth: nat, dryRun: bool, works: nat -> bool, n: nat, ghost op: Op, ghost done: set<Operations>)
      returns (r: Tree.Outcome)
      requires Represents(entry, op, done)
      ensures dryRun ==> r == Tree.Outcome(Tree.OutlineOf(op, depth), true)
      ensures !dryRun ==> r == Tree.ExecuteOne(op, depth, works, n)
      decreases op, 2
    {
      var named := Tree.Named(depth, entry.name);
      match entry.operation {
        case Nested(inner) =>
          r := inner.Call(depth + 1, dryRun, works, n + 1, op.ops, done);
          if !dryRun && op.Within? { InContextIsWithin(op, depth, works, n); }
          r := Tree.Outcome([named] + r.events, r.ok);
        case Callback(id) =>
          if dryRun { return Tree.Outcome([named], true); }
          var ok := works(n + 1);
          r := Tree.Outcome([named, Tree.Ran(id, ok)], ok);
      }
    }
  }

  // The outcome of what remains, after some events.
  function Continued(events: seq<Tree.Event>, ops: seq<Op>, depth: nat, works: nat -> bool, n: nat): Tree.Outcome {
    var rest := Tree.Execute(ops, depth, works, n + |events|);
    Tree.Outcome(events + rest.events, rest.ok)
  }

  lemma NextEntry(events: seq<Tree.Event>, ops: seq<Op>, depth: nat, works: nat -> bool, n: nat)
    requires ops != []
    ensures var here := Tree.ExecuteOne(ops[0], depth, works, n + |events|);
            Continued(events, ops, depth, works, n) ==
            if here.ok then Continued(events + here.events, ops[1..], depth, works, n)
            else Tree.Outcome(events + here.events, false)
  {
    var here := Tree.ExecuteOne(ops[0], depth, works, n + |events|);
    if here.ok {
      var rest := Tree.Execute(ops[1..], depth, works, n + |events| + |here.events|);
      assert events + (here.events + rest.events) == (events + here.events) + rest.events;
    }
  }

  lemma InContextIsWithin(op: Op, depth: nat, works: nat -> bool, n: nat)
    requires op.Within?
    ensures var inner := InContext(op.ops, op.context, depth + 1, works, n + 1);
            Tree.ExecuteOne(op, depth, works, n) == Tree.Outcome([Tree.Named(depth, op.name)] + inner.events, inner.ok)
  {
    if works(n + 1) {
      var inner := Tree.Execute(op.ops, depth + 1, works, n + 2);
      var exit := [Tree.Exited(op.context, works(n + 2 + |inner.events|))];
      assert [Tree.Named(depth, op.name)] + ([Tree.Entered(op.context)] + inner.events + exit) ==
             [Tree.Named(depth, op.name), Tree.Entered(op.context)] + inner.events + exit;
    }
  }

  function InContext(ops: seq<Op>, context: nat, depth: nat, works: nat -> bool, n: nat): Tree.Outcome {
    if !works(n) then Tree.Outcome([Tree.EnterFailed(context)], false)
    else
      var inner := Tree.Execute(ops, depth, works, n + 1);
      var left := works(n + 1 + |inner.events|);
      Tree.Outcome([Tree.Entered(context)] + inner.events + [Tree.Exited(context, left)], inner.ok && left)
  }

  // ---- Objects and trees ----

  // The objects in done are complete: nothing will be added to them.
  ghost predicate Represents(e: Entry, op: Op, done: set<Operations>)
    reads done
    decreases op
  {
    && e.name == op.name
    && match op
       case Call(_, callback) => e.operation == Callback(callback)
       case Sub(_, inner) =>
         && e.operation.Nested? && e.operation.ops in done
         && e.operation.ops.ctx == None && Holds(e.operation.ops, inner, done)
       case Within(_, context, inner) =>
         && e.operation.Nested? && e.operation.ops in done
         && e.operation.ops.ctx == Some(context) && Holds(e.operation.ops, inner, done)
  }

  ghost predicate Holds(o: Operations, ops: seq<Op>, done: set<Operations>)
    reads o, done
    decreases ops
  {
    |o.entries| == |ops| && forall i | 0 <= i < |ops| :: Represents(o.entries[i], ops[i], done)
  }

  ghost predicate Linked(chain: seq<Operations>)
    reads set o | o in chain
  {
    && 0 < |chain| && (forall i, j | 0 <= i < j < |chain| :: chain[i] != chain[j])
    && (forall i, j | 0 <= i < j < |chain| && j == i + 1 :: chain[i].current == chain[j])
    && chain[|chain| - 1].current == null
  }

  lemma LinkedTail(chain: seq<Operations>)
    requires Linked(chain)
    ensures chain[0].current == if |chain| == 1 then null else chain[1]
    ensures |chain| > 1 ==> Linked(chain[1..])
  {
    assert |chain| > 1 ==> chain[0].current == chain[1];
  }

  // A program under construction: frames[i] is what has been added to chain[i] so far.
  ghost predicate Building(chain: seq<Operations>, frames: seq<seq<Op>>, done: set<Operations>)
    reads (set o | o in chain), done
  {
    && Linked(chain) && |frames| == |chain|
    && forall i | 0 <= i < |chain| :: chain[i] !in done && Holds(chain[i], frames[i], done)
  }

  // More operations in the innermost object.
  function Extended(frames: seq<seq<Op>>, ops: seq<Op>): (r: seq<seq<Op>>)
    requires frames != []
    ensures |r| == |frames|
  {
    frames[..|frames| - 1] + [frames[|frames| - 1] + ops]
  }

  lemma ExtendedTwice(frames: seq<seq<Op>>, a: seq<Op>, b: seq<Op>)
    requires frames != []
    ensures Extended(frames, []) == frames && Extended(Extended(frames, a), b) == Extended(frames, a + b)
  {
    assert frames[|frames| - 1] + a + b == frames[|frames| - 1] + (a + b);
    assert frames[..|frames| - 1] + [frames[|frames| - 1]] == frames;
    assert frames[|frames| - 1] + [] == frames[|frames| - 1];
  }

  lemma {:induction false} MoreDone(e: Entry, op: Op, done: set<Operations>, done': set<Operations>)
    requires Represents(e, op, done) && done <= done'
    ensures Represents(e, op, done')
    decreases op
  {
    if !op.Call? {
      forall i | 0 <= i < |op.ops| ensures Represents(e.operation.ops.entries[i], op.ops[i], done') {
        MoreDone(e.operation.ops.entries[i], op.ops[i], done, done');
      }
    }
  }

  lemma HoldsMore(o: Operations, ops: seq<Op>, done: set<Operations>, done': set<Operations>)
    requires Holds(o, ops, done) && done <= done'
    ensures Holds(o, ops, done')
  {
    forall i | 0 <= i < |ops| ensures Represents(o.entries[i], ops[i], done') {
      MoreDone(o.entries[i], ops[i], done, done');
    }
  }

  // The innermost object, when nothing more will be added to it.
  lemma Completed(o: Operations, chain: seq<Operations>, frames: seq<seq<Op>>, done: set<Operations>)
    requires Building(chain, frames, done) && o == chain[|chain| - 1]
    ensures Holds(o, frames[|frames| - 1], done + {o})
  {
    HoldsMore(o, frames[|frames| - 1], done, done + {o});
  }

  // A new context in the innermost object.
  twostate lemma Opened(new chain: seq<Operations>, new frames: seq<seq<Op>>, new done: set<Operations>, new opc: Operations)
    requires old(allocated(chain) && allocated(done))
    requires old(Building(chain, frames, done)) && unchanged(done)
    requires forall i | 0 <= i < |chain| - 1 :: unchanged(chain[i])
    requires chain[|chain| - 1].entries == old(chain[|chain| - 1].entries) && chain[|chain| - 1].current == opc
    requires fresh(opc) && opc.entries == [] && opc.current == null
    ensures Building(chain + [opc], frames + [[]], done)
  {
    forall i | 0 <= i < |chain| ensures Holds(chain[i], frames[i], done) {
      assert old(Holds(chain[i], frames[i], done));
    }
  }

  // The innermost object has got one more entry, whose objects are complete.
  twostate lemma Appended(new chain: seq<Operations>, new frames: seq<seq<Op>>, new done: set<Operations>,
                          new done': set<Operations>, new e: Entry, new op: Op)
    requires old(allocated(chain) && allocated(done))
    requires old(Building(chain, frames, done)) && done <= done' && unchanged(done)
    requires forall i | 0 <= i < |chain| - 1 :: unchanged(chain[i])
    requires forall i | 0 <= i < |chain| :: chain[i] !in done'
    requires chain[|chain| - 1].entries == old(chain[|chain| - 1].entries) + [e] && chain[|chain| - 1].current == null
    requires Represents(e, op, done')
    ensures Building(chain, Extended(frames, [op]), done')
  {
    var last := |chain| - 1;
    forall i | 0 <= i < last ensures Holds(chain[i], frames[i], done') {
      assert old(Holds(chain[i], frames[i], done));
      HoldsMore(chain[i], frames[i], done, done');
    }
    assert old(Holds(chain[last], frames[last], done));
    forall k | 0 <= k < |frames[last]| ensures Represents(chain[last].entries[k], frames[last][k], done') {
      MoreDone(chain[last].entries[k], frames[last][k], done, done');
    }
  }

  /**
   A program with nested with-statements and subcommands, scheduled call by call on the root: what ends up
   in the innermost open object is the nested program.
   */
  method Schedule(root: Operations, program: seq<Op>, ghost chain: seq<Operations>, ghost frames: seq<seq<Op>>,
                  ghost done: set<Operations>)
    returns (ghost done': set<Operations>)
    requires Building(chain, frames, done) && chain[0] == root
    modifies chain[|chain| - 1]
    ensures done <= done' && fresh(done' - done)
    ensures Building(chain, Extended(frames, program), done')
    decreases program, 2
  {
    done' := done;
    ExtendedTwice(frames, [], []);
    for i := 0 to |program|
      invariant done <= done' && fresh(done' - done)
      invariant Building(chain, Extended(frames, program[..i]), done')
    {
      done' := ScheduleOne(root, program[i], chain, Extended(frames, program[..i]), done');
      ExtendedTwice(frames, program[..i], [program[i]]);
      assert program[..i + 1] == program[..i] + [program[i]];
    }
    assert program[..|program|] == program;
  }

  method ScheduleOne(root: Operations, op: Op, ghost chain: seq<Operations>, ghost frames: seq<seq<Op>>,
                     ghost done: set<Operations>)
    returns (ghost done': set<Operations>)
    requires Building(chain, frames, done) && chain[0] == root
    modifies chain[|chain| - 1]
    ensures done <= done' && fresh(done' - done)
    ensures Building(chain, Extended(frames, [op]), done')
    decreases op, 2
  {
    match op
    case Call(name, callback) =>
      done' := done;
      root.AddOperation(name, Callback(callback), chain);
      Appended(chain, frames, done, done', Entry(name, Callback(callback)), op);
    case Sub(_, _) =>
      done' := ScheduleSub(root, op, chain, frames, done);
    case Within(_, _, _) =>
      done' := ScheduleWithin(root, op, chain, frames, done);
  }

  // add_subcommand.
  method ScheduleSub(root: Operations, op: Op, ghost chain: seq<Operations>, ghost frames: seq<seq<Op>>,
                    ghost done: set<Operations>)
    returns (ghost done': set<Operations>)
    requires op.Sub? && Building(chain, frames, done) && chain[0] == root
    modifies chain[|chain| - 1]
    ensures done <= done' && fresh(done' - done)
    ensures Building(chain, Extended(frames, [op]), done')
    decreases op, 0
  {
    var sub;
    sub, done' := Build(op.ops, None, done);
    root.AddOperation(op.name, Nested(sub), chain);
    Appended(chain, frames, done, done', Entry(op.name, Nested(sub)), op);
  }

  // A new object with a program.
  method Build(program: seq<Op>, ctx: Option<nat>, ghost done: set<Operations>)
    returns (o: Operations, ghost done': set<Operations>)
    ensures fresh(o) && o in done' && done <= done' && fresh(done' - done)
    ensures o.ctx == ctx && Holds(o, program, done')
    decreases program, 3
  {
    o := new Operations(ctx);
    ghost var inner := Schedule(o, program, [o], [[]], done);
    Completed(o, [o], Extended([[]], program), inner);
    assert [] + program == program;
    done' := inner + {o};
  }

  // A with-statement.
  method ScheduleWithin(root: Operations, op: Op, ghost chain: seq<Operations>, ghost frames: seq<seq<Op>>,
                    ghost done: set<Operations>)
    returns (ghost done': set<Operations>)
    requires op.Within? && Building(chain, frames, done) && chain[0] == root
    modifies chain[|chain| - 1]
    ensures done <= done' && fresh(done' - done)
    ensures Building(chain, Extended(frames, [op]), done')
    decreases op, 1
  {
    ghost var body;
    var owner, opc;
    owner, opc, body := ScheduleBody(root, op, chain, frames, done);
    owner.Leave(op.name, opc);
    done' := body + {opc};
    Appended(chain, frames, done, done', Entry(op.name, Nested(opc)), op);
  }

  // Its first half and its body, which leave the new context open.
  method ScheduleBody(root: Operations, op: Op, ghost chain: seq<Operations>, ghost frames: seq<seq<Op>>,
                      ghost done: set<Operations>)
    returns (owner: Operations, opc: Operations, ghost body: set<Operations>)
    requires op.Within? && Building(chain, frames, done) && chain[0] == root
    modifies chain[|chain| - 1]
    ensures owner == chain[|chain| - 1] && owner.current == opc && owner.entries == old(chain[|chain| - 1].entries)
    ensures fresh(opc) && opc.ctx == Some(op.context) && Holds(opc, op.ops, body + {opc})
    ensures done <= body && fresh(body - done) && opc !in body
    ensures forall i | 0 <= i < |chain| :: chain[i] !in body
    decreases op, 0
  {
    owner, opc := root.Context(op.context, chain);
    ghost var chain', frames' := chain + [opc], frames + [[]];
    Opened(chain, frames, done, opc);
    body := Schedule(root, op.ops, chain', frames', done);
    Completed(opc, chain', Extended(frames', op.ops), body);
    assert chain'[|chain|] == opc && chain'[|chain| - 1] == owner;
    assert Linked(chain');
    assert [] + op.ops == op.ops;
    assert forall i | 0 <= i < |chain| :: chain'[i] == chain[i];
  }

  /** Scheduling a program on a new object and executing it has the outcome of the tree. */
  method BuildAndRun(program: seq<Op>, dryRun: bool, works: nat -> bool) returns (r: Tree.Outcome)
    ensures r == if dryRun then Tree.Outcome(Tree.Outline(program, 0), true) else Tree.Execute(program, 0, works, 0)
  {
    ghost var done;
    var root;
    root, done := Build(program, None, {});
    r := root.Call(0, dryRun, works, 0, program, done);
  }
}

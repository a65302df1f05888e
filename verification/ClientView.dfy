/** What a client makes of the answer to a batch (platform/keysystem/api/endpoint/endpoint.go). */
module ClientView {
  import opened Wrappers
  import opened Batch

  // Operation i is the first that fails, and fails since the account in force then has no such privilege.
  ghost predicate ForbiddenAt(c: Config, account: Option<Account>, ops: seq<Operation>, inputs: seq<Input>,
                              entries: TokenEntries, i: nat)
    requires |inputs| == |ops| && i < |ops|
  {
    var before := RunBatch(c, account, ops[..i], inputs[..i], entries);
    && before.failure.None? && before.account.Some?
    && ops[i].api.Some? && ops[i].body.Some? && ops[i].api.value !in before.account.value.privileges
  }

  lemma ForbiddenFirst(c: Config, account: Option<Account>, ops: seq<Operation>, inputs: seq<Input>,
                       entries: TokenEntries, i: nat)
    requires |inputs| == |ops| && 0 < i < |ops|
    ensures var done := RunOperation(c, account, ops[0], inputs[0], entries);
            ForbiddenAt(c, account, ops, inputs, entries, i) <==>
            done.result.Success? && ForbiddenAt(c, done.account, ops[1..], inputs[1..], done.entries, i - 1)
  {
    assert ops[..i][0] == ops[0] && ops[..i][1..] == ops[1..][..i - 1];
    assert inputs[..i][0] == inputs[0] && inputs[..i][1..] == inputs[1..][..i - 1];
    FirstOfBatch(c, account, ops[..i], inputs[..i], entries);
  }

  lemma OnlyMissingIsForbidden(c: Config, account: Option<Account>, op: Operation, input: Input, entries: TokenEntries)
    ensures var done := RunOperation(c, account, op, input, entries);
            done.result.Failure? && done.result.error.Forbidden? <==>
            account.Some? && op.api.Some? && op.body.Some? && op.api.value !in account.value.privileges
  {
  }

  /** A client sees a batch as forbidden exactly if its first failing operation names an API that the account in force lacks. */
  lemma {:induction false} ForbiddenIsSeen(c: Config, account: Option<Account>, ops: seq<Operation>,
                                           inputs: seq<Input>, entries: TokenEntries)
    requires |inputs| == |ops|
    ensures AsClientSees(RunBatch(c, account, ops, inputs, entries)) == Failure(OperationForbidden) <==>
            exists i: nat :: i < |ops| && ForbiddenAt(c, account, ops, inputs, entries, i)
    ensures AsClientSees(RunBatch(c, account, ops, inputs, entries)).Success? <==>
            RunBatch(c, account, ops, inputs, entries).failure.None?
    decreases |ops|
  {
    if ops != [] {
      var done := RunOperation(c, account, ops[0], inputs[0], entries);
      FirstOfBatch(c, account, ops, inputs, entries);
      OnlyMissingIsForbidden(c, account, ops[0], inputs[0], entries);
      assert ops[..0] == [] && inputs[..0] == [];
      assert ForbiddenAt(c, account, ops, inputs, entries, 0) <==> done.result.Failure? && done.result.error.Forbidden?;
      forall i: nat | 0 < i < |ops|
        ensures ForbiddenAt(c, account, ops, inputs, entries, i) <==>
                done.result.Success? && ForbiddenAt(c, done.account, ops[1..], inputs[1..], done.entries, i - 1)
      {
        ForbiddenFirst(c, account, ops, inputs, entries, i);
      }
      if done.result.Success? {
        ForbiddenIsSeen(c, done.account, ops[1..], inputs[1..], done.entries);
        ForbiddenLater(c, account, ops, inputs, entries, done);
      }
    }
  }

  lemma ForbiddenLater(c: Config, account: Option<Account>, ops: seq<Operation>, inputs: seq<Input>,
                       entries: TokenEntries, done: Done)
    requires |inputs| == |ops| && ops != [] && done == RunOperation(c, account, ops[0], inputs[0], entries) && done.result.Success?
    requires !ForbiddenAt(c, account, ops, inputs, entries, 0)
    ensures (exists i: nat :: i < |ops| && ForbiddenAt(c, account, ops, inputs, entries, i)) <==>
            exists i: nat :: i < |ops[1..]| && ForbiddenAt(c, done.account, ops[1..], inputs[1..], done.entries, i)
  {
    if i: nat :| i < |ops| && ForbiddenAt(c, account, ops, inputs, entries, i) {
      ForbiddenFirst(c, account, ops, inputs, entries, i);
      assert ForbiddenAt(c, done.account, ops[1..], inputs[1..], done.entries, i - 1);
    }
    if i: nat :| i < |ops[1..]| && ForbiddenAt(c, done.account, ops[1..], inputs[1..], done.entries, i) {
      ForbiddenFirst(c, account, ops, inputs, entries, i + 1);
    }
  }
}

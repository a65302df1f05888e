/**
 The two models of a request batch are one: a request that KeyserverRun serves without interleaving ends as
 Batch.RunBatch says.
 */
module ServedAlone {
  import opened Wrappers
  import opened Accounts
  import opened TokenRegistry
  import Batch
  import opened KeyserverRun

  // Both are about the same accounts and groups.
  ghost predicate Agree(w: World, c: Batch.Config) {
    && ValidWorld(w) && c.table == w.table
    && forall group, user :: Batch.HasMember(c, group, user) <==> user in MembersOf(w, group)
  }

  lemma WorldAgrees(conf: Setup, key: string)
    ensures Agree(WorldOf(conf), Batch.ConfigOf(conf, key))
  {
    WorldIsValid(conf);
    forall group, user
      ensures Batch.HasMember(Batch.ConfigOf(conf, key), group, user) <==> user in MembersOf(WorldOf(conf), group)
    {
      match group
      case KerberosAccounts =>
      case Nodes =>
    }
  }

  // The clock stands still while the operation runs.
  ghost predicate Timely(s: Sys, input: Batch.Input) {
    input.now == s.clock && forall k :: input.readAt(k) <= s.clock
  }

  // The request is about to perform this operation, in force of this account.
  predicate Performs(s: Sys, r: nat, account: AccountData<GroupName>, ops: seq<Operation>) {
    && r < |s.requests| && s.requests[r].pc.Serving? && s.requests[r].pc.phase == Ready
    && s.requests[r].pc.account == account && s.requests[r].pc.next <= |s.requests[r].ops|
    && s.requests[r].ops[s.requests[r].pc.next..] == ops
  }

  predicate HasEnded(s: Sys, r: nat) {
    r < |s.requests| && s.requests[r].pc.Ended?
  }

  predicate Grants(account: AccountData<GroupName>, op: Operation) {
    && op.api.Some? && op.body.Some? && op.api.value in account.privileges
    && account.privileges[op.api.value].Bootstrap?
  }

  // The steps of one operation, with none of another request between them.
  ghost function Alone(w: World, s: Sys, r: nat, account: AccountData<GroupName>, op: Operation, input: Batch.Input): Sys {
    if Grants(account, op)
    then Step(w, Step(w, Step(w, s, On(r, Sweep(input.readAt))), On(r, Generate(input.id))), On(r, AddToken))
    else Step(w, s, On(r, Perform(input.signed.Some?)))
  }

  // Where one operation leads.
  ghost predicate LeadsTo(s: Sys, r: nat, done: Batch.Done, ops: seq<Operation>) {
    && TokenRegistry.Entries(s.byToken) == done.entries
    && match done.result
       case Failure(_) => HasEnded(s, r)
       case Success(_) => done.account.Some? && Performs(s, r, done.account.value, ops)
  }

  // The first of the remaining operations.
  lemma NextOperation(s: Sys, r: nat, account: AccountData<GroupName>, ops: seq<Operation>)
    requires ops != [] && Performs(s, r, account, ops)
    ensures var next := s.requests[r].pc.next;
            next < |s.requests[r].ops| && s.requests[r].ops[next] == ops[0] && s.requests[r].ops[next + 1..] == ops[1..]
  {
  }

  // The request waits in the middle of granting a token.
  predicate Waits(s: Sys, r: nat, account: AccountData<GroupName>, ops: seq<Operation>, phase: Phase) {
    && ops != [] && r < |s.requests| && s.requests[r].pc.Serving? && s.requests[r].pc.phase == phase
    && s.requests[r].pc.account == account && s.requests[r].pc.next < |s.requests[r].ops|
    && s.requests[r].ops[s.requests[r].pc.next + 1..] == ops[1..]
  }

  lemma SweepAlone(w: World, s: Sys, r: nat, account: AccountData<GroupName>, ops: seq<Operation>, input: Batch.Input)
    requires Timely(s, input) && ops != [] && Performs(s, r, account, ops) && Grants(account, ops[0])
    ensures var s1 := Step(w, s, On(r, Sweep(input.readAt)));
            var priv, subject := account.privileges[ops[0].api.value], ops[0].body.value;
            && s1.clock == s.clock && |s1.requests| == |s.requests| && s1.grants == s.grants
            && if subject !in MembersOf(w, priv.allowed) then HasEnded(s1, r) && s1.byToken == s.byToken
               else
                 && s1.byToken == Unexpired(s.byToken, input.readAt)
                 && Waits(s1, r, account, ops, KeyserverRun.Swept(subject, priv.lifespan))
  {
    NextOperation(s, r, account, ops);
  }

  lemma GenerateAlone(w: World, s: Sys, r: nat, account: AccountData<GroupName>, ops: seq<Operation>, subject: string,
                      lifespan: int, id: string)
    requires Waits(s, r, account, ops, KeyserverRun.Swept(subject, lifespan))
    ensures var s1 := Step(w, s, On(r, Generate(id)));
            && s1.clock == s.clock && s1.byToken == s.byToken && Waits(s1, r, account, ops, Generated(|s.grants|))
            && |s1.grants| == |s.grants| + 1
            && s1.grants[|s.grants|].token == ScopedToken(id, subject, s.clock + lifespan, |s.grants|)
  {
  }

  lemma AddAlone(w: World, s: Sys, r: nat, account: AccountData<GroupName>, ops: seq<Operation>, g: nat)
    requires Waits(s, r, account, ops, Generated(g)) && g < |s.grants|
    ensures var s1 := Step(w, s, On(r, AddToken));
            var token := s.grants[g].token;
            && s1.clock == s.clock
            && if token.token in s.byToken then HasEnded(s1, r) && s1.byToken == s.byToken
               else Performs(s1, r, account, ops[1..]) && s1.byToken == s.byToken[token.token := token]
  {
  }

  // Steps of a request that has ended do nothing.
  lemma EndedDoesNothing(w: World, s: Sys, r: nat, id: string)
    requires HasEnded(s, r)
    ensures Step(w, Step(w, s, On(r, Generate(id))), On(r, AddToken)) == s
  {
    assert Step(w, s, On(r, Generate(id))) == s;
  }

  // How a grant ends: nothing is done for a stranger, a token that is there already stays, or the token is added.
  predicate GrantState(s': Sys, r: nat, account: AccountData<GroupName>, ops: seq<Operation>, member: bool,
                       before: map<string, Token>, kept: map<string, Token>, token: Token) {
    if !member then HasEnded(s', r) && s'.byToken == before
    else if token.token in kept then HasEnded(s', r) && s'.byToken == kept
    else Performs(s', r, account, ops) && s'.byToken == kept[token.token := token]
  }

  // The same in the other model.
  predicate GrantOutcome(done: Batch.Done, account: AccountData<GroupName>, member: bool,
                         before: map<string, Entry>, kept: map<string, Entry>, entry: Entry) {
    if !member then done.result.Failure? && done.entries == before
    else if entry.token in kept then done.result.Failure? && done.entries == kept
    else done.result.Success? && done.account == Some(account) && done.entries == kept[entry.token := entry]
  }

  lemma GrantsMeet(s': Sys, r: nat, done: Batch.Done, account: AccountData<GroupName>, ops: seq<Operation>, member: bool,
                   before: map<string, Token>, readAt: string -> int, token: Token, entry: Entry)
    requires entry == Fixed(token)
    requires GrantState(s', r, account, ops, member, before, Unexpired(before, readAt), token)
    requires GrantOutcome(done, account, member, TokenRegistry.Entries(before),
                          Batch.Swept(TokenRegistry.Entries(before), readAt), entry)
    ensures LeadsTo(s', r, done, ops)
  {
    Batch.SweptEntries(before, readAt);
    Batch.EntriesUpdate(Unexpired(before, readAt), token, token.token);
  }

  lemma GrantedAlone(w: World, s: Sys, r: nat, account: AccountData<GroupName>, ops: seq<Operation>, input: Batch.Input,
                     priv: Privilege<GroupName>, subject: string)
    requires Timely(s, input) && ops != [] && Performs(s, r, account, ops) && Grants(account, ops[0])
    requires priv == account.privileges[ops[0].api.value] && subject == ops[0].body.value
    ensures var s' := Alone(w, s, r, account, ops[0], input);
            && s'.clock == s.clock
            && GrantState(s', r, account, ops[1..], subject in MembersOf(w, priv.allowed), s.byToken,
                          Unexpired(s.byToken, input.readAt), ScopedToken(input.id, subject, s.clock + priv.lifespan, |s.grants|))
  {
    var s1 := Step(w, s, On(r, Sweep(input.readAt)));
    SweepAlone(w, s, r, account, ops, input);
    if subject in MembersOf(w, priv.allowed) {
      GenerateAlone(w, s1, r, account, ops, subject, priv.lifespan, input.id);
      AddAlone(w, Step(w, s1, On(r, Generate(input.id))), r, account, ops, |s.grants|);
    } else {
      EndedDoesNothing(w, s1, r, input.id);
    }
  }

  lemma GrantDone(w: World, c: Batch.Config, account: AccountData<GroupName>, op: Operation, input: Batch.Input,
                  entries: map<string, Entry>, priv: Privilege<GroupName>, subject: string)
    requires Agree(w, c) && Grants(account, op)
    requires priv == account.privileges[op.api.value] && subject == op.body.value
    ensures GrantOutcome(Batch.RunOperation(c, Some(account), op, input, entries), account,
                         subject in MembersOf(w, priv.allowed), entries, Batch.Swept(entries, input.readAt),
                         Entry(input.id, subject, input.now + priv.lifespan))
  {
  }

  lemma GrantAlone(w: World, c: Batch.Config, s: Sys, r: nat, account: AccountData<GroupName>, ops: seq<Operation>,
                   input: Batch.Input)
    requires Agree(w, c) && Timely(s, input) && ops != [] && Performs(s, r, account, ops) && Grants(account, ops[0])
    ensures var s' := Alone(w, s, r, account, ops[0], input);
            && s'.clock == s.clock
            && LeadsTo(s', r, Batch.RunOperation(c, Some(account), ops[0], input, TokenRegistry.Entries(s.byToken)), ops[1..])
  {
    var priv, subject := account.privileges[ops[0].api.value], ops[0].body.value;
    GrantedAlone(w, s, r, account, ops, input, priv, subject);
    GrantDone(w, c, account, ops[0], input, TokenRegistry.Entries(s.byToken), priv, subject);
    GrantsMeet(Alone(w, s, r, account, ops[0], input), r,
               Batch.RunOperation(c, Some(account), ops[0], input, TokenRegistry.Entries(s.byToken)), account, ops[1..],
               subject in MembersOf(w, priv.allowed), s.byToken, input.readAt,
               ScopedToken(input.id, subject, s.clock + priv.lifespan, |s.grants|),
               Entry(input.id, subject, input.now + priv.lifespan));
  }

  // The other privileges are run alike in both models.
  lemma InvokeIsRunPrivilege(w: World, c: Batch.Config, s: Sys, r: nat, account: AccountData<GroupName>, api: string,
                             body: string, input: Batch.Input, entries: map<string, Entry>)
    requires Agree(w, c) && api in account.privileges && !account.privileges[api].Bootstrap?
    ensures var priv := account.privileges[api];
            var done := Batch.RunPrivilege(c, Some(account), priv, body, input, entries);
            && done.entries == entries
            && match Invoke(w, s, r, account, priv, body, input.signed.Some?)
               case None => done.result.Failure?
               case Some(effect) => done.result.Success? && done.account == Some(effect.account)
  {
  }

  // What one round of the loop does.
  lemma RoundAlone(w: World, s: Sys, r: nat, account: AccountData<GroupName>, ops: seq<Operation>, ok: bool)
    requires ops != [] && Performs(s, r, account, ops) && !Grants(account, ops[0])
    ensures var s', op := Step(w, s, On(r, Perform(ok))), ops[0];
            && s'.clock == s.clock && s'.byToken == s.byToken
            && if op.api.None? || op.body.None? || op.api.value !in account.privileges then HasEnded(s', r)
               else match Invoke(w, s, r, account, account.privileges[op.api.value], op.body.value, ok)
                    case None => HasEnded(s', r)
                    case Some(effect) => Performs(s', r, effect.account, ops[1..])
  {
    NextOperation(s, r, account, ops);
  }

  lemma PerformAlone(w: World, c: Batch.Config, s: Sys, r: nat, account: AccountData<GroupName>, ops: seq<Operation>,
                     input: Batch.Input)
    requires Agree(w, c) && ops != [] && Performs(s, r, account, ops) && !Grants(account, ops[0])
    ensures var s' := Alone(w, s, r, account, ops[0], input);
            && s'.clock == s.clock
            && LeadsTo(s', r, Batch.RunOperation(c, Some(account), ops[0], input, TokenRegistry.Entries(s.byToken)), ops[1..])
  {
    RoundAlone(w, s, r, account, ops, input.signed.Some?);
    var op := ops[0];
    if op.api.Some? && op.body.Some? && op.api.value in account.privileges {
      InvokeIsRunPrivilege(w, c, s, r, account, op.api.value, op.body.value, input, TokenRegistry.Entries(s.byToken));
    }
  }

  // The whole batch.
  ghost function AllAlone(w: World, s: Sys, r: nat, ops: seq<Operation>, inputs: seq<Batch.Input>): Sys
    requires |inputs| == |ops|
    decreases |ops|
  {
    if ops == [] || r >= |s.requests| || !s.requests[r].pc.Serving? then s
    else AllAlone(w, Alone(w, s, r, s.requests[r].pc.account, ops[0], inputs[0]), r, ops[1..], inputs[1..])
  }

  /**
   A request that is served alone, with the clock standing still, has the account in force, the registry and the
   failure of Batch.RunBatch on the operations that it still has to perform.
   */
  lemma {:induction false} ServedAloneIsRunBatch(w: World, c: Batch.Config, s: Sys, r: nat, account: AccountData<GroupName>,
                                                 ops: seq<Operation>, inputs: seq<Batch.Input>)
    requires Agree(w, c) && Performs(s, r, account, ops) && |inputs| == |ops|
    requires forall i | 0 <= i < |inputs| :: Timely(s, inputs[i])
    ensures var s' := AllAlone(w, s, r, ops, inputs);
            var out := Batch.RunBatch(c, Some(account), ops, inputs, TokenRegistry.Entries(s.byToken));
            && TokenRegistry.Entries(s'.byToken) == out.entries
            && if out.failure.Some? then HasEnded(s', r)
               else out.account.Some? && Performs(s', r, out.account.value, [])
    decreases |ops|
  {
    if ops != [] {
      var next := Alone(w, s, r, account, ops[0], inputs[0]);
      var entries := TokenRegistry.Entries(s.byToken);
      if Grants(account, ops[0]) {
        GrantAlone(w, c, s, r, account, ops, inputs[0]);
      } else {
        PerformAlone(w, c, s, r, account, ops, inputs[0]);
      }
      var done := Batch.RunOperation(c, Some(account), ops[0], inputs[0], entries);
      Batch.FirstOfBatch(c, Some(account), ops, inputs, entries);
      if done.result.Success? {
        assert forall i | 0 <= i < |inputs| - 1 :: inputs[1..][i] == inputs[i + 1];
        ServedAloneIsRunBatch(w, c, next, r, done.account.value, ops[1..], inputs[1..]);
      } else {
        assert HasEnded(next, r);
      }
    }
  }
}

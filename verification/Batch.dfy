/**
 One API request after authentication: the loop over its operations
 (platform/keysystem/keyserver/operation/operation.go), the privileges it runs
 (platform/keysystem/keyserver/account/privileges.go), and the client that runs a batch as somebody
 else (platform/keysystem/api/reqtarget/impersonate.go).

 An Input is what the world supplies to one operation: the clock readings and the random token id
 of a grant, and what signing returned.
 */
module Batch {
  import opened Wrappers
  import opened Accounts
  import opened TokenRegistry

  // One JSON object of the request body; either key may be missing.
  datatype Operation = Operation(api: Option<string>, body: Option<string>)

  datatype Input = Input(readAt: string -> int, id: string, now: int, signed: Option<string>)

  datatype Error =
    | MissingAPI
    | MissingBody
    | MissingAccount
    | Forbidden(principal: string, api: string)
    | OutsideScope
    | NoSuchAccount
    | WrongAccount
    | NotBootstrappable
    | TokenCollision
    | BodyNotEmpty
    | SigningFailed

  // The account table and the groups, as fixed by GenerateAccounts.
  datatype Config = Config(table: map<string, AccountData<GroupName>>, members: map<GroupName, seq<string>>,
                           serviceKey: string)

  function ConfigOf(conf: Setup, serviceKey: string): Config {
    Config(AccountTable(conf),
           map[KerberosAccounts := Members(conf, KerberosAccounts), Nodes := Members(conf, Nodes)], serviceKey)
  }

  predicate HasMember(c: Config, group: GroupName, user: string) {
    group in c.members && user in c.members[group]
  }

  type Account = AccountData<GroupName>
  type TokenEntries = map<string, Entry>

  function Swept(entries: TokenEntries, readAt: string -> int): TokenEntries {
    map k | k in entries && readAt(k) <= entries[k].expires :: entries[k]
  }

  lemma SweptEntries<O>(byToken: map<string, ScopedToken<O>>, readAt: string -> int)
    ensures TokenRegistry.Entries(Unexpired(byToken, readAt)) == Swept(TokenRegistry.Entries(byToken), readAt)
  {
  }

  lemma EntriesUpdate<O>(byToken: map<string, ScopedToken<O>>, token: ScopedToken<O>, id: string)
    ensures TokenRegistry.Entries(byToken[id := token]) == TokenRegistry.Entries(byToken)[id := Fixed(token)]
  {
  }

  // What one operation returns and leaves behind.
  datatype Done = Done(result: Result<string, Error>, account: Option<Account>, entries: TokenEntries)

  function RunPrivilege(c: Config, account: Option<Account>, priv: Privilege<GroupName>, body: string,
                        input: Input, entries: TokenEntries): Done {
    match priv
    case TLSGrant(_, _, _, _, _, _) =>
      Done(if input.signed.Some? then Success(input.signed.value) else Failure(SigningFailed), account, entries)
    case SSHGrant(_, _, _, _, _) =>
      Done(if input.signed.Some? then Success(input.signed.value) else Failure(SigningFailed), account, entries)
    case Bootstrap(allowed, lifespan) =>
      if !HasMember(c, allowed, body) then Done(Failure(NotBootstrappable), account, entries)
      else
        var kept := Swept(entries, input.readAt);
        if input.id in kept then Done(Failure(TokenCollision), account, kept)
        else Done(Success(input.id), account, kept[input.id := Entry(input.id, body, input.now + lifespan)])
    case Impersonate(scope) =>
      if !HasMember(c, scope, body) then Done(Failure(OutsideScope), account, entries)
      else if body !in c.table then Done(Failure(NoSuchAccount), account, entries)
      else if c.table[body].principal != body then Done(Failure(WrongAccount), account, entries)
      else Done(Success(""), Some(c.table[body]), entries)
    case Configuration(contents) =>
      Done(if body == "" then Success(contents) else Failure(BodyNotEmpty), account, entries)
    case FetchKey(_) =>
      Done(if body == "" then Success(c.serviceKey) else Failure(BodyNotEmpty), account, entries)
  }

  function RunOperation(c: Config, account: Option<Account>, op: Operation, input: Input, entries: TokenEntries): Done {
    if op.api.None? then Done(Failure(MissingAPI), account, entries)
    else if op.body.None? then Done(Failure(MissingBody), account, entries)
    else if account.None? then Done(Failure(MissingAccount), account, entries)
    else if op.api.value !in account.value.privileges
    then Done(Failure(Forbidden(account.value.principal, op.api.value)), account, entries)
    else RunPrivilege(c, account, account.value.privileges[op.api.value], op.body.value, input, entries)
  }

  // A whole batch: the responses up to the first failure, the failure if there is one, the effects.
  datatype Outcome = Outcome(responses: seq<string>, failure: Option<Error>, account: Option<Account>, entries: TokenEntries)

  function RunBatch(c: Config, account: Option<Account>, ops: seq<Operation>, inputs: seq<Input>,
                    entries: TokenEntries): (out: Outcome)
    requires |inputs| == |ops|
    ensures if out.failure.None? then |out.responses| == |ops| else |out.responses| < |ops|
    decreases |ops|
  {
    if ops == [] then Outcome([], None, account, entries)
    else
      var done := RunOperation(c, account, ops[0], inputs[0], entries);
      match done.result
      case Failure(e) => Outcome([], Some(e), done.account, done.entries)
      case Success(response) =>
        var rest := RunBatch(c, done.account, ops[1..], inputs[1..], done.entries);
        Prepend(response, rest)
  }

  function Prepend(response: string, out: Outcome): Outcome {
    out.(responses := [response] + out.responses)
  }

  // What follows a batch that did not fail.
  function Follow(first: Outcome, rest: Outcome): Outcome {
    if first.failure.Some? then first else rest.(responses := first.responses + rest.responses)
  }

  lemma PrependFollow(response: string, first: Outcome, rest: Outcome)
    ensures Prepend(response, Follow(first, rest)) == Follow(Prepend(response, first), rest)
  {
    assert [response] + (first.responses + rest.responses) == [response] + first.responses + rest.responses;
  }

  lemma FirstOfBatch(c: Config, account: Option<Account>, ops: seq<Operation>, inputs: seq<Input>, entries: TokenEntries)
    requires |inputs| == |ops| && ops != []
    ensures var done := RunOperation(c, account, ops[0], inputs[0], entries);
            RunBatch(c, account, ops, inputs, entries) ==
            match done.result
            case Failure(e) => Outcome([], Some(e), done.account, done.entries)
            case Success(response) =>
              Prepend(response, RunBatch(c, done.account, ops[1..], inputs[1..], done.entries))
  {
  }

  /** Running a batch in two parts, with whatever account and registry the first part leaves. */
  lemma {:induction false} RunBatchSplit(c: Config, account: Option<Account>, a: seq<Operation>, inA: seq<Input>,
                                         b: seq<Operation>, inB: seq<Input>, entries: TokenEntries)
    requires |inA| == |a| && |inB| == |b|
    ensures var first := RunBatch(c, account, a, inA, entries);
            RunBatch(c, account, a + b, inA + inB, entries) ==
            Follow(first, RunBatch(c, first.account, b, inB, first.entries))
    decreases |a|
  {
    if a == [] {
      assert a + b == b && inA + inB == inB;
      var rest := RunBatch(c, account, b, inB, entries);
      assert [] + rest.responses == rest.responses;
    } else {
      assert (a + b)[0] == a[0] && (a + b)[1..] == a[1..] + b;
      assert (inA + inB)[0] == inA[0] && (inA + inB)[1..] == inA[1..] + inB;
      FirstOfBatch(c, account, a, inA, entries);
      FirstOfBatch(c, account, a + b, inA + inB, entries);
      var done := RunOperation(c, account, a[0], inA[0], entries);
      if done.result.Success? {
        var tail := RunBatch(c, done.account, a[1..], inA[1..], done.entries);
        RunBatchSplit(c, done.account, a[1..], inA[1..], b, inB, done.entries);
        PrependFollow(done.result.value, tail, RunBatch(c, tail.account, b, inB, tail.entries));
      }
    }
  }

  // ---- The server, in place ----

  class OperationContext {
    var account: Option<Account>

    constructor (account: Option<Account>)
      ensures this.account == account
    {
      this.account := account;
    }
  }

  class Server {
    const config: Config
    const registry: Registry

    constructor (config: Config)
      ensures this.config == config && fresh(registry) && Valid() && View() == map[]
    {
      this.config := config;
      registry := new Registry();
    }

    ghost predicate Valid()
      reads this, registry
    {
      registry.Valid()
    }

    function View(): TokenEntries
      reads registry
    {
      TokenRegistry.Entries(registry.byToken)
    }

    // The closure of NewBootstrapPrivilege.
    method RunBootstrap(allowed: GroupName, lifespan: int, body: string, input: Input)
      returns (r: Result<string, Error>)
      requires Valid()
      modifies registry
      ensures Valid()
      ensures var kept := Swept(old(View()), input.readAt);
              if !HasMember(config, allowed, body) then r == Failure(NotBootstrappable) && View() == old(View())
              else if input.id in kept then r == Failure(TokenCollision) && View() == kept
              else r == Success(input.id) && View() == kept[input.id := Entry(input.id, body, input.now + lifespan)]
    {
      if !HasMember(config, allowed, body) {
        return Failure(NotBootstrappable);
      }
      ghost var kept := Unexpired(registry.byToken, input.readAt);
      SweptEntries(registry.byToken, input.readAt);
      var token := registry.GrantToken(body, lifespan, input.readAt, input.id, input.now);
      if token.Some? { EntriesUpdate(kept, registry.byToken[input.id], input.id); }
      r := if token.Some? then Success(token.value) else Failure(TokenCollision);
    }

    // The closure of NewImpersonatePrivilege.
    method RunImpersonate(ctx: OperationContext, scope: GroupName, body: string)
      returns (r: Result<string, Error>)
      modifies ctx
      ensures forall input: Input, entries, kind: Privilege<GroupName> | kind == Impersonate(scope) ::
                Done(r, ctx.account, entries) == RunPrivilege(config, old(ctx.account), kind, body, input, entries)
    {
      if !HasMember(config, scope, body) {
        return Failure(OutsideScope);
      }
      if body !in config.table {
        return Failure(NoSuchAccount);
      }
      var other := config.table[body];
      if other.principal != body {
        return Failure(WrongAccount);
      }
      ctx.account := Some(other);
      r := Success("");
    }

    method InvokeAPIOperation(ctx: OperationContext, api: string, body: string, input: Input)
      returns (r: Result<string, Error>)
      requires Valid()
      modifies ctx, registry
      ensures Valid()
      ensures Done(r, ctx.account, View()) ==
              RunOperation(config, old(ctx.account), Operation(Some(api), Some(body)), input, old(View()))
    {
      if ctx.account.None? {
        return Failure(MissingAccount);
      }
      var account := ctx.account.value;
      if api !in account.privileges {
        return Failure(Forbidden(account.principal, api));
      }
      match account.privileges[api]
      case Bootstrap(allowed, lifespan) => r := RunBootstrap(allowed, lifespan, body, input);
      case Impersonate(scope) => r := RunImpersonate(ctx, scope, body);
      case Configuration(contents) =>
        r := if |body| != 0 then Failure(BodyNotEmpty) else Success(contents);
      case FetchKey(_) =>
        r := if |body| != 0 then Failure(BodyNotEmpty) else Success(config.serviceKey);
      case TLSGrant(_, _, _, _, _, _) =>
        r := if input.signed.Some? then Success(input.signed.value) else Failure(SigningFailed);
      case SSHGrant(_, _, _, _, _) =>
        r := if input.signed.Some? then Success(input.signed.value) else Failure(SigningFailed);
    }

    /** InvokeAPIOperationSet: all responses, or the first error; effects of earlier operations stay. */
    method InvokeAPIOperationSet(account: Option<Account>, ops: seq<Operation>, inputs: seq<Input>)
      returns (r: Result<seq<string>, Error>)
      requires Valid() && |inputs| == |ops|
      modifies registry
      ensures Valid()
      ensures var out := RunBatch(config, account, ops, inputs, old(View()));
              && View() == out.entries
              && r == if out.failure.Some? then Failure(out.failure.value) else Success(out.responses)
    {
      var ctx := new OperationContext(account);
      var results := new string[|ops|](_ => "");
      ghost var whole := RunBatch(config, account, ops, inputs, View());
      assert whole.(responses := [] + whole.responses) == whole;
      for i := 0 to |ops|
        invariant Valid() && fresh(ctx) && fresh(results)
        invariant Continues(whole, results[..i], config, ctx.account, ops[i..], inputs[i..], View())
      {
        NextOperation(whole, results[..i], config, ctx.account, ops[i..], inputs[i..], View());
        assert ops[i..][1..] == ops[i + 1..] && inputs[i..][1..] == inputs[i + 1..];
        if ops[i].api.None? {
          return Failure(MissingAPI);
        }
        if ops[i].body.None? {
          return Failure(MissingBody);
        }
        var result := InvokeAPIOperation(ctx, ops[i].api.value, ops[i].body.value, inputs[i]);
        if result.Failure? {
          return Failure(result.error);
        }
        results[i] := result.value;
        assert results[..i + 1] == results[..i] + [result.value];
      }
      assert results[..|ops|] + [] == results[..];
      r := Success(results[..]);
    }
  }

  // The whole outcome is that of the remaining operations, after the responses so far.
  predicate Continues(whole: Outcome, responses: seq<string>, c: Config, account: Option<Account>,
                      ops: seq<Operation>, inputs: seq<Input>, entries: TokenEntries)
    requires |inputs| == |ops|
  {
    var rest := RunBatch(c, account, ops, inputs, entries);
    whole == rest.(responses := responses + rest.responses)
  }

  lemma NextOperation(whole: Outcome, responses: seq<string>, c: Config, account: Option<Account>,
                      ops: seq<Operation>, inputs: seq<Input>, entries: TokenEntries)
    requires |inputs| == |ops| && ops != [] && Continues(whole, responses, c, account, ops, inputs, entries)
    ensures var done := RunOperation(c, account, ops[0], inputs[0], entries);
            match done.result
            case Failure(e) => whole.failure == Some(e) && whole.entries == done.entries
            case Success(r) => Continues(whole, responses + [r], c, done.account, ops[1..], inputs[1..], done.entries)
  {
    var done := RunOperation(c, account, ops[0], inputs[0], entries);
    if done.result.Success? {
      var rest := RunBatch(c, done.account, ops[1..], inputs[1..], done.entries);
      assert responses + ([done.result.value] + rest.responses) == responses + [done.result.value] + rest.responses;
    }
  }

  // ---- Clients ----

  datatype ClientError = OperationForbidden | RequestRejected | CountMismatch

  // What a client makes of a server's answer: only a forbidden operation has a status of its own.
  function AsClientSees(out: Outcome): Result<seq<string>, ClientError> {
    match out.failure
    case None => Success(out.responses)
    case Some(Forbidden(_, _)) => Failure(OperationForbidden)
    case Some(_) => Failure(RequestRejected)
  }

  /** A request target that authenticates to the server as one account. */
  class Authenticated {
    const server: Server
    const account: Account

    constructor (server: Server, account: Account)
      ensures this.server == server && this.account == account
    {
      this.server, this.account := server, account;
    }

    method SendRequests(ops: seq<Operation>, inputs: seq<Input>) returns (r: Result<seq<string>, ClientError>)
      requires server.Valid() && |inputs| == |ops|
      modifies server.registry
      ensures server.Valid()
      ensures var out := RunBatch(server.config, Some(account), ops, inputs, old(server.View()));
              server.View() == out.entries && r == AsClientSees(out)
    {
      var answer := server.InvokeAPIOperationSet(Some(account), ops, inputs);
      match answer
      case Failure(Forbidden(_, _)) => r := Failure(OperationForbidden);
      case Failure(_) => r := Failure(RequestRejected);
      case Success(outputs) =>
        if |outputs| != |ops| {
          return Failure(CountMismatch);
        }
        r := Success(outputs);
    }
  }

  class ImpersonatedTarget {
    const base: Authenticated
    const api: string
    const user: string

    constructor (base: Authenticated, api: string, user: string)
      ensures this.base == base && this.api == api && this.user == user
    {
      this.base, this.api, this.user := base, api, user;
    }

    /** If the user may be impersonated, the batch runs exactly as if the user had sent it. */
    method SendRequests(ops: seq<Operation>, inputs: seq<Input>) returns (r: Result<seq<string>, ClientError>)
      requires base.server.Valid() && |inputs| == |ops| + 1
      modifies base.server.registry
      ensures base.server.Valid()
      ensures MayImpersonate(base.server.config, base.account, api, user) ==>
                var out := RunBatch(base.server.config, Some(base.server.config.table[user]), ops, inputs[1..],
                                    old(base.server.View()));
                base.server.View() == out.entries && r == AsClientSees(out)
      ensures !MayImpersonate(base.server.config, base.account, api, user) && !OtherUse(base.account, api) ==>
                base.server.View() == old(base.server.View()) && r.Failure?
    {
      var newRequests := new Operation[|ops| + 1](_ => Operation(None, None));
      for i := 0 to |ops|
        invariant newRequests[1..i + 1] == ops[..i]
        modifies newRequests
      {
        newRequests[i + 1] := ops[i];
      }
      assert newRequests[1..|ops| + 1] == ops;
      newRequests[0] := Operation(Some(api), Some(user));
      assert newRequests[1..|ops| + 1] == ops;
      assert newRequests[..] == [newRequests[0]] + newRequests[1..|ops| + 1];
      assert newRequests[..] == [Operation(Some(api), Some(user))] + ops;
      Transparent(base.server.config, base.account, api, user, ops, inputs, base.server.View());
      var responses := base.SendRequests(newRequests[..], inputs);
      if responses.Failure? {
        return responses;
      }
      if |responses.value| != newRequests.Length {
        return Failure(CountMismatch);
      }
      return Success(responses.value[1..]);
    }
  }

  /** The function Impersonate: a target is only made after an empty batch has shown that the user may be impersonated. */
  method MakeImpersonated(base: Authenticated, api: string, user: string, input: Input) returns (r: Option<ImpersonatedTarget>)
    requires base.server.Valid()
    modifies base.server.registry
    ensures base.server.Valid()
    ensures r.Some? ==> api != "" && user != "" && r.value.base == base && r.value.api == api && r.value.user == user
    ensures MayImpersonate(base.server.config, base.account, api, user) ==>
              (r.Some? <==> api != "" && user != "") && base.server.View() == old(base.server.View())
    ensures !MayImpersonate(base.server.config, base.account, api, user) && !OtherUse(base.account, api) ==>
              r.None? && base.server.View() == old(base.server.View())
  {
    if api == "" || user == "" {
      return None;
    }
    var target := new ImpersonatedTarget(base, api, user);
    var probe := target.SendRequests([], [input]);
    r := if probe.Success? then Some(target) else None;
  }

  predicate MayImpersonate(c: Config, account: Account, api: string, user: string) {
    && api in account.privileges && account.privileges[api].Impersonate?
    && HasMember(c, account.privileges[api].scope, user)
    && user in c.table && c.table[user].principal == user
  }

  // The API name belongs to some other privilege of the account.
  predicate OtherUse(account: Account, api: string) {
    api in account.privileges && !account.privileges[api].Impersonate?
  }

  /**
   Impersonation is transparent: with the impersonating operation in front, a batch gives the same
   responses one place later, fails at the same operation with the same error, and has the same effects
   on the registry as the user's own batch.  Out of scope it fails at once and changes nothing.
   */
  lemma Transparent(c: Config, account: Account, api: string, user: string, ops: seq<Operation>, inputs: seq<Input>,
                    entries: TokenEntries)
    requires |inputs| == |ops| + 1
    ensures var sent := RunBatch(c, Some(account), [Operation(Some(api), Some(user))] + ops, inputs, entries);
            if MayImpersonate(c, account, api, user) then
              var own := RunBatch(c, Some(c.table[user]), ops, inputs[1..], entries);
              sent == own.(responses := [""] + own.responses)
            else
              OtherUse(account, api) ||
              (sent.failure.Some? && sent.responses == [] && sent.entries == entries)
  {
    assert ([Operation(Some(api), Some(user))] + ops)[1..] == ops;
  }

  lemma KerberosNeverImpersonates(conf: Setup, key: string, user: string, api: string, other: string)
    requires user in KerberosPrincipals(conf)
    ensures user in AccountTable(conf)
    ensures !MayImpersonate(ConfigOf(conf, key), AccountTable(conf)[user], api, other)
  {
    AccountKinds(conf, user);
    if api in AccountTable(conf)[user].privileges { PrivilegeHolders(conf, user, api); }
  }

  lemma SupervisorScope(conf: Setup, node: Node)
    requires node.kind == Supervisor
    ensures var privileges := NodePrivileges(conf, node, KerberosAccounts, Nodes);
            AUTH_TO_KERBEROS in privileges && privileges[AUTH_TO_KERBEROS] == Impersonate(KerberosAccounts)
  {
  }

  lemma SupervisorReaches(conf: Setup, key: string, p: string, user: string)
    requires p in AccountTable(conf) && p !in KerberosPrincipals(conf)
    requires exists node :: IsNodeAccount(conf, AccountTable(conf)[p], node) && node.kind == Supervisor
    ensures MayImpersonate(ConfigOf(conf, key), AccountTable(conf)[p], AUTH_TO_KERBEROS, user) <==>
            user in KerberosPrincipals(conf)
  {
    AccountKinds(conf, user);
    var node :| IsNodeAccount(conf, AccountTable(conf)[p], node) && node.kind == Supervisor;
    SupervisorScope(conf, node);
  }

  /**
   Against the real account table: any supervisor node may impersonate exactly the Kerberos
   principals, and nobody reaches further by impersonating twice.
   */
  lemma SupervisorsImpersonate(conf: Setup, key: string, p: string, user: string)
    requires p in AccountTable(conf) && p !in KerberosPrincipals(conf)
    requires exists node :: IsNodeAccount(conf, AccountTable(conf)[p], node) && node.kind == Supervisor
    ensures var c := ConfigOf(conf, key);
            && (MayImpersonate(c, c.table[p], AUTH_TO_KERBEROS, user) <==> user in KerberosPrincipals(conf))
            && (user in KerberosPrincipals(conf) ==>
                  forall api, other :: !MayImpersonate(c, c.table[user], api, other))
  {
    SupervisorReaches(conf, key, p, user);
    if user in KerberosPrincipals(conf) {
      forall api, other ensures !MayImpersonate(ConfigOf(conf, key), AccountTable(conf)[user], api, other) {
        KerberosNeverImpersonates(conf, key, user, api, other);
      }
    }
  }
}

/**
 What the keyserver answers: a node's own settings, what was signed, a token for the node that was named, and the
 service account key to nobody who may not fetch it.
 */
module Responses {
  import opened Wrappers
  import opened Text
  import opened Accounts
  import opened GrantTable
  import opened Batch
  import ConfFiles
  import TokenRegistry

  // ---- The local configuration ----

  // What the file can carry: each is one line without white space around it.
  predicate Plainly(s: string) {
    Trimmed(s) && '\n' !in s
  }

  predicate PlainNode(conf: Setup, node: Node) {
    Plainly(node.hostname) && Plainly(node.hostname + "." + conf.externalDomain) && Plainly(node.ip)
  }

  function Settings(conf: Setup, node: Node): map<string, string> {
    map[
      "HOST_NODE" := node.hostname,
      "HOST_DNS" := node.hostname + "." + conf.externalDomain,
      "HOST_IP" := node.ip,
      "SCHEDULE_WORK" := if node.kind == Worker then "true" else "false",
      "KIND" := match node.kind case Supervisor => "supervisor" case Master => "master" case Worker => "worker"
    ]
  }

  lemma PairsAre(conf: Setup, node: Node)
    ensures ConfFiles.AsMap(ConfFiles.LocalPairs(conf, node)) == Settings(conf, node)
  {
    var p := ConfFiles.LocalPairs(conf, node);
    assert p[..5] == p && p[..5][..4] == p[..4] && p[..4][..3] == p[..3] && p[..3][..2] == p[..2] && p[..2][..1] == p[..1];
    assert ConfFiles.AsMap(p[..1]) == map[p[0].0 := p[0].1];
    assert ConfFiles.AsMap(p[..2]) == ConfFiles.AsMap(p[..1])[p[1].0 := p[1].1];
    assert ConfFiles.AsMap(p[..3]) == ConfFiles.AsMap(p[..2])[p[2].0 := p[2].1];
    assert ConfFiles.AsMap(p[..4]) == ConfFiles.AsMap(p[..3])[p[3].0 := p[3].1];
  }

  /** The text that the keyserver generates for a node is read as that node's settings. */
  lemma LocalConfIsRead(conf: Setup, node: Node)
    requires PlainNode(conf, node)
    ensures ConfFiles.Parse(LocalConf(conf, node)) == Some(Settings(conf, node))
  {
    PairsAre(conf, node);
    forall pair | pair in ConfFiles.LocalPairs(conf, node) ensures Trimmed(pair.1) && '\n' !in pair.1 {
      ShortValues(node);
    }
    ConfFiles.LocalConfRoundTrip(conf, node);
  }

  lemma ShortValues(node: Node)
    ensures Plainly(if node.kind == Worker then "true" else "false") && Plainly(KindName(node.kind))
  {
    assert !IsSpace('t') && !IsSpace('e') && !IsSpace('f') && !IsSpace('s') && !IsSpace('r') && !IsSpace('m') && !IsSpace('w');
  }

  // ---- What an operation answers ----

  function Answer(conf: Setup, key: string, p: string, api: string, body: string, input: Input, entries: TokenEntries): Done
    requires p in AccountTable(conf)
  {
    RunOperation(ConfigOf(conf, key), Some(AccountTable(conf)[p]), Operation(Some(api), Some(body)), input, entries)
  }

  lemma ConfigurationIsAnswered(c: Config, account: Batch.Account, api: string, text: string, body: string,
                                input: Input, entries: TokenEntries)
    requires Has(account.privileges, api, Configuration(text))
    ensures var done := RunOperation(c, Some(account), Operation(Some(api), Some(body)), input, entries);
            && done.account == Some(account) && done.entries == entries
            && if body == "" then done.result == Success(text) else done.result.Failure?
  {
  }

  /** A node that asks for its local configuration gets a text that reads as its own settings. */
  lemma OwnSettingsAreAnswered(conf: Setup, key: string, p: string, input: Input, entries: TokenEntries)
    requires p in AccountTable(conf) && !IsAdmin(conf, p) && !IsMonitor(conf, p)
    ensures exists i: nat :: IsLastNode(conf, i, p) &&
              (PlainNode(conf, conf.nodes[i]) ==>
                 var done := Answer(conf, key, p, "get-local-config", "", input, entries);
                 done.result.Success? && ConfFiles.Parse(done.result.value) == Some(Settings(conf, conf.nodes[i])))
  {
    TableExactly(conf, p);
    var a := AccountTable(conf)[p];
    var i: nat :| IsLastNode(conf, i, p) && IsOfNode(conf, a, conf.nodes[i]);
    var text := LocalConf(conf, conf.nodes[i]);
    assert NodeHolds(conf, conf.nodes[i], "get-local-config", Configuration(text));
    ConfigurationIsAnswered(ConfigOf(conf, key), a, "get-local-config", text, "", input, entries);
    if PlainNode(conf, conf.nodes[i]) { LocalConfIsRead(conf, conf.nodes[i]); }
  }

  /** An operation that signs answers what was signed, and fails exactly if signing fails. */
  lemma SignedIsAnswered(conf: Setup, key: string, p: string, api: string, body: string, input: Input, entries: TokenEntries)
    requires p in AccountTable(conf) && api in AccountTable(conf)[p].privileges
    requires AccountTable(conf)[p].privileges[api].TLSGrant? || AccountTable(conf)[p].privileges[api].SSHGrant?
    ensures var done := Answer(conf, key, p, api, body, input, entries);
            && (forall cert :: done.result == Success(cert) <==> input.signed == Some(cert))
            && done.account == Some(AccountTable(conf)[p]) && done.entries == entries
  {
  }

  // The entry is still there after a sweep.
  predicate Remains(entries: TokenEntries, k: string, readAt: string -> int) {
    k in entries && readAt(k) <= entries[k].expires
  }

  /**
   A bootstrap privilege answers the string under which there is then an entry for the node that was named, for an hour;
   it fails exactly if no node was named or the string is in use.  Of the other entries only expired ones go.
   */
  lemma TokenIsAnswered(conf: Setup, key: string, p: string, api: string, body: string, input: Input, entries: TokenEntries)
    requires p in AccountTable(conf) && api in AccountTable(conf)[p].privileges && AccountTable(conf)[p].privileges[api].Bootstrap?
    ensures var done := Answer(conf, key, p, api, body, input, entries);
            && (done.result.Success? <==> body in NodePrincipals(conf) && !Remains(entries, input.id, input.readAt))
            && (done.result.Success? ==>
                  && done.result.value in done.entries
                  && done.entries[done.result.value] == TokenRegistry.Entry(done.result.value, body, input.now + HOURS)
                  && forall k | k != done.result.value ::
                       && (k in done.entries <==> Remains(entries, k, input.readAt))
                       && (k in done.entries ==> done.entries[k] == entries[k]))
  {
    PrivilegeHolders(conf, p, api);
    TokenForNode(ConfigOf(conf, key), AccountTable(conf)[p], api, body, input, entries);
  }

  lemma TokenForNode(c: Config, account: Batch.Account, api: string, body: string, input: Input, entries: TokenEntries)
    requires Has(account.privileges, api, Bootstrap(Nodes, HOUR))
    ensures var done := RunOperation(c, Some(account), Operation(Some(api), Some(body)), input, entries);
            && (done.result.Success? <==> HasMember(c, Nodes, body) && !Remains(entries, input.id, input.readAt))
            && (done.result.Success? ==>
                  && done.result.value == input.id && input.id in done.entries
                  && done.entries[input.id] == TokenRegistry.Entry(input.id, body, input.now + HOURS)
                  && forall k | k != input.id ::
                       && (k in done.entries <==> Remains(entries, k, input.readAt))
                       && (k in done.entries ==> done.entries[k] == entries[k]))
  {
  }

  // ---- The service account key ----

  predicate HoldsNoKey(account: Batch.Account) {
    forall api | api in account.privileges :: !account.privileges[api].FetchKey?
  }

  // Whom the account can impersonate holds no key either.
  ghost predicate ReachesNoKey(conf: Setup, account: Batch.Account) {
    && HoldsNoKey(account)
    && forall api | api in account.privileges :: account.privileges[api].Impersonate? ==> account.privileges[api].scope == KerberosAccounts
  }

  lemma KerberosHoldNoKey(conf: Setup, q: string)
    requires q in KerberosPrincipals(conf) && q in AccountTable(conf)
    ensures ReachesNoKey(conf, AccountTable(conf)[q])
  {
    PrincipalsAre(conf, q);
    TableExactly(conf, q);
    var a := AccountTable(conf)[q];
    forall api | api in a.privileges ensures !a.privileges[api].FetchKey? && !a.privileges[api].Impersonate? {
      assert Has(a.privileges, api, a.privileges[api]);
    }
  }

  // Under configurations that differ in the key only, an account without it does the same.
  lemma SameButForKey(c1: Config, c2: Config, account: Batch.Account, op: Operation, input: Input, entries: TokenEntries)
    requires c2 == c1.(serviceKey := c2.serviceKey) && HoldsNoKey(account)
    ensures var done := RunOperation(c1, Some(account), op, input, entries);
            && done == RunOperation(c2, Some(account), op, input, entries)
            && (done.account == Some(account) ||
                (&& op.api.Some? && op.body.Some? && op.api.value in account.privileges
                 && account.privileges[op.api.value].Impersonate?
                 && HasMember(c1, account.privileges[op.api.value].scope, op.body.value)
                 && op.body.value in c1.table && done.account == Some(c1.table[op.body.value])))
  {
  }

  lemma OneOperationIsConfined(conf: Setup, k1: string, k2: string, account: Batch.Account, op: Operation,
                               input: Input, entries: TokenEntries)
    requires ReachesNoKey(conf, account)
    ensures var done := RunOperation(ConfigOf(conf, k1), Some(account), op, input, entries);
            && done == RunOperation(ConfigOf(conf, k2), Some(account), op, input, entries)
            && done.account.Some? && ReachesNoKey(conf, done.account.value)
  {
    SameButForKey(ConfigOf(conf, k1), ConfigOf(conf, k2), account, op, input, entries);
    forall q | q in KerberosPrincipals(conf) && q in AccountTable(conf) ensures ReachesNoKey(conf, AccountTable(conf)[q]) {
      KerberosHoldNoKey(conf, q);
    }
  }

  lemma {:induction false} BatchIsConfined(conf: Setup, k1: string, k2: string, account: Batch.Account, ops: seq<Operation>,
                                           inputs: seq<Input>, entries: TokenEntries)
    requires |inputs| == |ops| && ReachesNoKey(conf, account)
    ensures RunBatch(ConfigOf(conf, k1), Some(account), ops, inputs, entries) ==
            RunBatch(ConfigOf(conf, k2), Some(account), ops, inputs, entries)
    decreases |ops|
  {
    if ops != [] {
      OneOperationIsConfined(conf, k1, k2, account, ops[0], inputs[0], entries);
      var done := RunOperation(ConfigOf(conf, k1), Some(account), ops[0], inputs[0], entries);
      FirstOfBatch(ConfigOf(conf, k1), Some(account), ops, inputs, entries);
      FirstOfBatch(ConfigOf(conf, k2), Some(account), ops, inputs, entries);
      if done.result.Success? { BatchIsConfined(conf, k1, k2, done.account.value, ops[1..], inputs[1..], done.entries); }
    }
  }

  lemma TableScopes(conf: Setup, p: string)
    requires p in AccountTable(conf) && HoldsNoKey(AccountTable(conf)[p])
    ensures ReachesNoKey(conf, AccountTable(conf)[p])
  {
    forall api | api in AccountTable(conf)[p].privileges
      ensures var priv := AccountTable(conf)[p].privileges[api]; priv.Impersonate? ==> priv.scope == KerberosAccounts
    {
      PrivilegeHolders(conf, p, api);
    }
  }

  /**
   The service account key goes to nobody who may not fetch it: whatever batch such an account sends, impersonating or
   not, all that comes of it is the same under any two keys.
   */
  lemma KeyIsConfined(conf: Setup, k1: string, k2: string, p: string, ops: seq<Operation>, inputs: seq<Input>,
                      entries: TokenEntries)
    requires |inputs| == |ops| && p in AccountTable(conf) && HoldsNoKey(AccountTable(conf)[p])
    ensures RunBatch(ConfigOf(conf, k1), Some(AccountTable(conf)[p]), ops, inputs, entries) ==
            RunBatch(ConfigOf(conf, k2), Some(AccountTable(conf)[p]), ops, inputs, entries)
  {
    TableScopes(conf, p);
    BatchIsConfined(conf, k1, k2, AccountTable(conf)[p], ops, inputs, entries);
  }

  lemma KeyIsAnswered(c: Config, account: Batch.Account, api: string, body: string, input: Input, entries: TokenEntries)
    requires Has(account.privileges, api, FetchKey(ServiceAccount))
    ensures var result := RunOperation(c, Some(account), Operation(Some(api), Some(body)), input, entries).result;
            if body == "" then result == Success(c.serviceKey) else result.Failure?
  {
  }

  // The account is that of a master.
  predicate IsMaster(conf: Setup, p: string, i: nat) {
    IsLastNode(conf, i, p) && conf.nodes[i].kind == Master
  }

  lemma OneLastNode(conf: Setup, p: string, i: nat, j: nat)
    requires IsLastNode(conf, i, p) && IsLastNode(conf, j, p)
    ensures i == j
  {
  }

  lemma WhoHoldsKey(conf: Setup, p: string)
    requires p in AccountTable(conf) && !IsAdmin(conf, p) && !IsMonitor(conf, p)
    ensures !HoldsNoKey(AccountTable(conf)[p]) <==> exists i :: IsMaster(conf, p, i)
    ensures !HoldsNoKey(AccountTable(conf)[p]) ==>
              Has(AccountTable(conf)[p].privileges, "fetch-serviceaccount-key", FetchKey(ServiceAccount))
  {
    TableExactly(conf, p);
    var i: nat :| IsLastNode(conf, i, p) && IsOfNode(conf, AccountTable(conf)[p], conf.nodes[i]);
    NodeHoldsKey(conf, AccountTable(conf)[p], conf.nodes[i]);
    if conf.nodes[i].kind == Master { assert IsMaster(conf, p, i); }
    forall j | IsMaster(conf, p, j) ensures j == i { OneLastNode(conf, p, i, j); }
  }

  /** Exactly the masters may fetch it, and they get it for an empty body. */
  lemma MastersFetchKey(conf: Setup, key: string, p: string, body: string, input: Input, entries: TokenEntries)
    requires p in AccountTable(conf)
    ensures !HoldsNoKey(AccountTable(conf)[p]) <==> !IsAdmin(conf, p) && !IsMonitor(conf, p) && exists i :: IsMaster(conf, p, i)
    ensures !HoldsNoKey(AccountTable(conf)[p]) ==>
              var result := Answer(conf, key, p, "fetch-serviceaccount-key", body, input, entries).result;
              if body == "" then result == Success(key) else result.Failure?
  {
    if IsAdmin(conf, p) || IsMonitor(conf, p) {
      PrincipalsAre(conf, p);
      KerberosHoldNoKey(conf, p);
    } else {
      WhoHoldsKey(conf, p);
      if !HoldsNoKey(AccountTable(conf)[p]) {
        KeyIsAnswered(ConfigOf(conf, key), AccountTable(conf)[p], "fetch-serviceaccount-key", body, input, entries);
      }
    }
  }

  lemma NodeHoldsKey(conf: Setup, a: Batch.Account, node: Node)
    requires IsOfNode(conf, a, node)
    ensures !HoldsNoKey(a) <==> node.kind == Master
    ensures node.kind == Master ==> Has(a.privileges, "fetch-serviceaccount-key", FetchKey(ServiceAccount))
  {
    assert NodeHolds(conf, node, "fetch-serviceaccount-key", FetchKey(ServiceAccount)) <==> node.kind == Master;
    if node.kind == Master {
      assert Has(a.privileges, "fetch-serviceaccount-key", FetchKey(ServiceAccount));
    } else {
      forall api | api in a.privileges ensures !a.privileges[api].FetchKey? {
        assert Has(a.privileges, api, a.privileges[api]);
      }
    }
  }
}

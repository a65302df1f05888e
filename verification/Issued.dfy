/**
 Every certificate that the keyserver signs, over all its runs: what it says is a grant of the account table, asked
 for by name in the request that it was signed for, and in force of somebody for whom that request may act.
 */
module Issued {
  import opened Wrappers
  import opened Accounts
  import opened GrantTable
  import opened KeyserverRun
  import Batch

  // The certificate says what the grant is for.
  predicate Says(cert: Cert, priv: Privilege<GroupName>) {
    match priv
    case TLSGrant(authority, ishost, lifespan, commonname, names, organizations) =>
      && cert.authority == authority && cert.ishost == ishost && cert.notAfter == cert.notBefore + lifespan
      && cert.commonName == commonname && cert.names == names && cert.organizations == organizations
    case SSHGrant(authority, ishost, lifespan, keyid, principals) =>
      && cert.authority == authority && cert.ishost == ishost && cert.notAfter == cert.notBefore + lifespan
      && cert.commonName == keyid && cert.names == principals && cert.organizations == []
    case _ => false
  }

  // An operation by which p comes to act for q.
  predicate Impersonates(w: World, p: string, op: Operation, q: string) {
    && op.body == Some(q) && op.api.Some? && p in w.table && op.api.value in w.table[p].privileges
    && w.table[p].privileges[op.api.value].Impersonate?
  }

  // Operation i of a request runs in force of q: q sent the request, or was impersonated before.
  ghost predicate Acts(w: World, s: Sys, r: nat, i: nat, q: string) {
    && r < |s.requests| && s.requests[r].auth.Some?
    && var p := s.requests[r].auth.value.principal;
    && (q == p || (p in w.supervisors && q in w.kerberos &&
                   exists j: nat :: j < i && j < |s.requests[r].ops| && Impersonates(w, p, s.requests[r].ops[j], q)))
  }

  // A certificate that answers operation i of the request, in force of q.
  ghost predicate Answers(w: World, s: Sys, cert: Cert, i: nat, q: string) {
    && cert.origin.SignedFor? && Acts(w, s, cert.origin.request, i, q)
    && var ops := s.requests[cert.origin.request].ops;
    && i < |ops| && ops[i].api.Some? && q in w.table && ops[i].api.value in w.table[q].privileges
    && Says(cert, w.table[q].privileges[ops[i].api.value])
  }

  ghost predicate Explained(w: World, s: Sys, cert: Cert) {
    cert.origin.SignedFor? ==> exists i, q :: Answers(w, s, cert, i, q)
  }

  // A grant that operation i of its request, in force of q, asked for.
  ghost predicate Asked(w: World, s: Sys, grant: Grant, i: nat, q: string) {
    && Acts(w, s, grant.request, i, q)
    && var ops := s.requests[grant.request].ops;
    && i < |ops| && ops[i].api.Some? && ops[i].body == Some(grant.token.subject)
    && q in w.table && ops[i].api.value in w.table[q].privileges && w.table[q].privileges[ops[i].api.value].Bootstrap?
  }

  ghost predicate IsAsked(w: World, s: Sys, grant: Grant) {
    exists i, q :: Asked(w, s, grant, i, q)
  }

  // The subject that is being granted a token is the one asked for.
  ghost predicate Phased(w: World, s: Sys, r: nat)
    requires r < |s.requests|
  {
    s.requests[r].pc.Serving? && s.requests[r].pc.phase.Swept? ==>
      && s.requests[r].pc.next < |s.requests[r].ops|
      && var op, account := s.requests[r].ops[s.requests[r].pc.next], s.requests[r].pc.account;
      && op.body == Some(s.requests[r].pc.phase.subject) && op.api.Some?
      && op.api.value in account.privileges && account.privileges[op.api.value].Bootstrap?
  }

  ghost predicate Forced(w: World, s: Sys, r: nat)
    requires r < |s.requests|
  {
    s.requests[r].pc.Serving? ==> Acts(w, s, r, s.requests[r].pc.next, s.requests[r].pc.account.principal)
  }

  // Grants last a whole number of seconds.
  ghost predicate Plain(w: World) {
    forall p, api | p in w.table && api in w.table[p].privileges :: IsPlain(w.table[p].privileges[api])
  }

  predicate IsPlain(priv: Privilege<GroupName>) {
    priv.TLSGrant? || priv.SSHGrant? ==> priv.lifespan % SECOND == 0
  }

  ghost predicate IssuedInv(w: World, s: Sys) {
    && (forall r | 0 <= r < |s.requests| :: Forced(w, s, r) && Phased(w, s, r))
    && (forall g | 0 <= g < |s.grants| :: IsAsked(w, s, s.grants[g]))
    && forall c | 0 <= c < |s.certs| :: Explained(w, s, s.certs[c])
  }

  // ---- Every step keeps it ----

  lemma ActsStays(w: World, s: Sys, s': Sys, r: nat, i: nat, i': nat, q: string)
    requires Grows(s, s') && Acts(w, s, r, i, q) && i <= i'
    ensures Acts(w, s', r, i', q)
  {
  }

  lemma ExplainedStays(w: World, s: Sys, s': Sys, cert: Cert)
    requires Grows(s, s') && Explained(w, s, cert)
    ensures Explained(w, s', cert)
  {
    if cert.origin.SignedFor? {
      var i, q :| Answers(w, s, cert, i, q);
      ActsStays(w, s, s', cert.origin.request, i, i, q);
      assert Answers(w, s', cert, i, q);
    }
  }

  lemma AskedStays(w: World, s: Sys, s': Sys, grant: Grant)
    requires Grows(s, s') && IsAsked(w, s, grant)
    ensures IsAsked(w, s', grant)
  {
    var i, q :| Asked(w, s, grant, i, q);
    ActsStays(w, s, s', grant.request, i, i, q);
    assert Asked(w, s', grant, i, q);
  }

  // A step of request r alone.
  ghost predicate Advances(s: Sys, s': Sys, r: nat) {
    && Grows(s, s') && |s'.requests| == |s.requests|
    && forall q | 0 <= q < |s.requests| && q != r :: s'.requests[q] == s.requests[q]
  }

  lemma AcceptGrows(w: World, s: Sys, r: nat)
    requires r < |s.requests| && s.requests[r].auth.None?
    ensures s.requests[r].pc.Checked? ==> Advances(s, StepClaimOnce(w, s, r), r)
    ensures s.requests[r].pc.Arrived? ==> Advances(s, StepVerifyCert(w, s, r), r)
  {
  }

  lemma EarlyGrows(s: Sys, r: nat)
    requires r < |s.requests|
    ensures Advances(s, Goto(s, r, Ended), r)
    ensures s.requests[r].pc.Arrived? ==> Advances(s, StepLookup(s, r), r)
    ensures s.requests[r].pc.Found? ==> Advances(s, StepCheck(s, r), r)
  {
  }

  lemma NothingGrows(s: Sys, r: nat)
    ensures Advances(s, s, r)
  {
  }

  lemma PerformGrows(w: World, s: Sys, r: nat, ok: bool)
    requires r < |s.requests| && s.requests[r].pc.Serving?
    ensures Advances(s, StepPerform(w, s, r, ok), r)
  {
  }

  lemma GrantGrows(w: World, s: Sys, r: nat, readAt: string -> int, id: string)
    requires r < |s.requests| && s.requests[r].pc.Serving?
    ensures Advances(s, StepSweep(w, s, r, readAt), r)
    ensures Advances(s, StepGenerate(s, r, id), r)
    ensures Advances(s, StepAddToken(s, r), r)
  {
  }

  lemma ActGrows(w: World, s: Sys, r: nat, action: Action)
    requires Inv(w, s) && r < |s.requests|
    ensures Advances(s, Act(w, s, r, action), r)
  {
    assert RequestInv(w, s, r);
    var pc := s.requests[r].pc;
    NothingGrows(s, r);
    EarlyGrows(s, r);
    if pc.Serving? {
      match action
      case Perform(ok) => PerformGrows(w, s, r, ok);
      case Sweep(readAt) => GrantGrows(w, s, r, readAt, "");
      case Generate(id) => GrantGrows(w, s, r, _ => 0, id);
      case AddToken => GrantGrows(w, s, r, _ => 0, "");
      case _ =>
    } else if pc.Arrived? || pc.Checked? {
      AcceptGrows(w, s, r);
    }
  }

  // An acted-on request is in force of who it was before, unless it has just been accepted or has impersonated.
  lemma ActForced(w: World, s: Sys, r: nat, action: Action)
    requires Inv(w, s) && r < |s.requests| && Forced(w, s, r)
    ensures Forced(w, Act(w, s, r, action), r)
  {
    var s' := Act(w, s, r, action);
    ActGrows(w, s, r, action);
    assert RequestInv(w, s, r);
    if s.requests[r].pc.Serving? && s'.requests[r].pc.Serving? {
      if action.Perform? {
        PerformForced(w, s, r, action.ok);
      } else {
        ActsStays(w, s, s', r, s.requests[r].pc.next, s'.requests[r].pc.next, s.requests[r].pc.account.principal);
      }
    }
  }

  // The operation that is performed next.
  predicate Performs(s: Sys, r: nat, op: Operation) {
    && r < |s.requests| && s.requests[r].pc.Serving? && s.requests[r].pc.next < |s.requests[r].ops|
    && s.requests[r].ops[s.requests[r].pc.next] == op
    && op.api.Some? && op.body.Some? && op.api.value in s.requests[r].pc.account.privileges
  }

  // Who is in force after it.
  lemma PerformTurns(w: World, s: Sys, r: nat, ok: bool)
    requires r < |s.requests| && s.requests[r].pc.Serving?
    ensures var pc, s' := s.requests[r].pc, StepPerform(w, s, r, ok);
            s'.requests[r].pc.Serving? ==>
              && s'.requests[r].pc.next >= pc.next && s'.requests[r].ops == s.requests[r].ops
              && (s'.requests[r].pc.phase == Ready || s'.requests[r].pc == pc)
              && (s'.requests[r].pc.account == pc.account ||
                  (s'.requests[r].pc.next == pc.next + 1 && Performs(s, r, s.requests[r].ops[pc.next]) &&
                   var op := s.requests[r].ops[pc.next];
                   && pc.account.privileges[op.api.value].Impersonate?
                   && op.body.value in MembersOf(w, pc.account.privileges[op.api.value].scope)
                   && op.body.value in w.table && s'.requests[r].pc.account == w.table[op.body.value]))
  {
  }

  lemma PerformForced(w: World, s: Sys, r: nat, ok: bool)
    requires Inv(w, s) && r < |s.requests| && Forced(w, s, r) && s.requests[r].pc.Serving?
    ensures Forced(w, StepPerform(w, s, r, ok), r)
  {
    var s' := StepPerform(w, s, r, ok);
    PerformGrows(w, s, r, ok);
    PerformTurns(w, s, r, ok);
    assert RequestInv(w, s, r);
    var account, next := s.requests[r].pc.account, s.requests[r].pc.next;
    if s'.requests[r].pc.Serving? {
      ActsStays(w, s, s', r, next, s'.requests[r].pc.next, account.principal);
      if s'.requests[r].pc.account != account {
        var p, op := s.requests[r].auth.value.principal, s.requests[r].ops[next];
        InForceHolds(w, p, account, op.api.value);
        assert Impersonates(w, p, s'.requests[r].ops[next], s'.requests[r].pc.account.principal);
      }
    }
  }

  // What it signs.
  lemma PerformSigns(w: World, s: Sys, r: nat, ok: bool)
    requires r < |s.requests| && s.requests[r].pc.Serving? && s.requests[r].pc.next < |s.requests[r].ops|
    ensures var s', op, account := StepPerform(w, s, r, ok), s.requests[r].ops[s.requests[r].pc.next], s.requests[r].pc.account;
            s'.certs == s.certs ||
            (&& |s'.certs| == |s.certs| + 1 && s.certs <= s'.certs && s'.certs[|s.certs|].origin == SignedFor(r)
             && Performs(s, r, op)
             && (IsPlain(account.privileges[op.api.value]) ==> Says(s'.certs[|s.certs|], account.privileges[op.api.value])))
  {
    var account, op := s.requests[r].pc.account, s.requests[r].ops[s.requests[r].pc.next];
    if Performs(s, r, op) { Signs(w, s, r, account, account.privileges[op.api.value], op.body.value, ok); }
  }

  lemma Signs(w: World, s: Sys, r: nat, account: AccountData<GroupName>, priv: Privilege<GroupName>, body: string, ok: bool)
    ensures !priv.Bootstrap? ==>
              match Invoke(w, s, r, account, priv, body, ok)
              case None => true
              case Some(effect) =>
                effect.signed == [] ||
                (|effect.signed| == 1 && effect.signed[0].origin == SignedFor(r) && (IsPlain(priv) ==> Says(effect.signed[0], priv)))
  {
    if (priv.TLSGrant? || priv.SSHGrant?) && priv.lifespan % SECOND == 0 { SignedForLifespan(s.clock, priv.lifespan); }
  }

  // A certificate that an operation adds.
  lemma PerformExplained(w: World, s: Sys, r: nat, ok: bool)
    requires Inv(w, s) && Plain(w) && r < |s.requests| && Forced(w, s, r) && s.requests[r].pc.Serving?
    ensures var s' := StepPerform(w, s, r, ok);
            s.certs <= s'.certs && forall c | |s.certs| <= c < |s'.certs| :: Explained(w, s', s'.certs[c])
  {
    var s' := StepPerform(w, s, r, ok);
    PerformGrows(w, s, r, ok);
    assert RequestInv(w, s, r);
    if s'.certs != s.certs {
      PerformSigns(w, s, r, ok);
      var account, next := s.requests[r].pc.account, s.requests[r].pc.next;
      ActsStays(w, s, s', r, next, next, account.principal);
      assert Answers(w, s', s'.certs[|s.certs|], next, account.principal);
    }
  }

  // Only one kind of action prepares a token.
  lemma ActPhased(w: World, s: Sys, r: nat, action: Action)
    requires Inv(w, s) && r < |s.requests| && Phased(w, s, r)
    ensures Phased(w, Act(w, s, r, action), r)
  {
    if s.requests[r].pc.Serving? {
      match action
      case Perform(ok) => PerformTurns(w, s, r, ok);
      case Sweep(readAt) => SweepPhased(w, s, r, readAt);
      case _ =>
    }
  }

  lemma SweepPhased(w: World, s: Sys, r: nat, readAt: string -> int)
    requires Inv(w, s) && r < |s.requests| && Phased(w, s, r) && s.requests[r].pc.Serving?
    ensures Phased(w, StepSweep(w, s, r, readAt), r)
  {
  }

  // And only one makes it.
  lemma OnlyGenerateGrants(w: World, s: Sys, r: nat, action: Action)
    requires r < |s.requests|
    ensures var s' := Act(w, s, r, action);
            s'.grants == s.grants || (action.Generate? && s.requests[r].pc.Serving? && s.requests[r].pc.phase.Swept?)
  {
  }

  lemma GenerateAsked(w: World, s: Sys, r: nat, id: string)
    requires Inv(w, s) && r < |s.requests| && Forced(w, s, r) && Phased(w, s, r)
    requires s.requests[r].pc.Serving? && s.requests[r].pc.phase.Swept?
    ensures var s' := StepGenerate(s, r, id);
            && |s'.grants| == |s.grants| + 1 && s.grants <= s'.grants
            && IsAsked(w, s', s'.grants[|s.grants|])
  {
    var s' := StepGenerate(s, r, id);
    var next, q := s.requests[r].pc.next, s.requests[r].pc.account.principal;
    ActGrows(w, s, r, Generate(id));
    assert RequestInv(w, s, r);
    ActsStays(w, s, s', r, next, next, q);
    assert Asked(w, s', s'.grants[|s.grants|], next, q);
  }

  lemma GrantsAsked(w: World, s: Sys, r: nat, action: Action)
    requires Inv(w, s) && IssuedInv(w, s) && r < |s.requests|
    ensures var s' := Act(w, s, r, action); forall g | 0 <= g < |s'.grants| :: IsAsked(w, s', s'.grants[g])
  {
    var s' := Act(w, s, r, action);
    ActGrows(w, s, r, action);
    assert Forced(w, s, r) && Phased(w, s, r);
    OnlyGenerateGrants(w, s, r, action);
    if s'.grants != s.grants { GenerateAsked(w, s, r, action.id); }
    forall g | 0 <= g < |s'.grants| ensures IsAsked(w, s', s'.grants[g]) {
      if g < |s.grants| { AskedStays(w, s, s', s.grants[g]); }
    }
  }

  lemma AllForced(w: World, s: Sys, r: nat, action: Action)
    requires Inv(w, s) && IssuedInv(w, s) && r < |s.requests|
    ensures var s' := Act(w, s, r, action); forall q | 0 <= q < |s'.requests| :: Forced(w, s', q) && Phased(w, s', q)
  {
    var s' := Act(w, s, r, action);
    ActGrows(w, s, r, action);
    assert Forced(w, s, r) && Phased(w, s, r);
    ActForced(w, s, r, action);
    ActPhased(w, s, r, action);
    forall q | 0 <= q < |s'.requests| ensures Forced(w, s', q) && Phased(w, s', q) {
      if q != r { OtherForced(w, s, s', q); }
    }
  }

  lemma OtherForced(w: World, s: Sys, s': Sys, q: nat)
    requires Grows(s, s') && q < |s.requests| && s'.requests[q] == s.requests[q] && Forced(w, s, q) && Phased(w, s, q)
    ensures Forced(w, s', q) && Phased(w, s', q)
  {
    if s.requests[q].pc.Serving? {
      ActsStays(w, s, s', q, s.requests[q].pc.next, s.requests[q].pc.next, s.requests[q].pc.account.principal);
    }
  }

  lemma ActExplained(w: World, s: Sys, r: nat, action: Action)
    requires Inv(w, s) && Plain(w) && IssuedInv(w, s) && r < |s.requests|
    ensures IssuedInv(w, Act(w, s, r, action))
  {
    var s' := Act(w, s, r, action);
    ActGrows(w, s, r, action);
    AllForced(w, s, r, action);
    GrantsAsked(w, s, r, action);
    CertsExplained(w, s, r, action);
  }

  lemma CertsExplained(w: World, s: Sys, r: nat, action: Action)
    requires Inv(w, s) && Plain(w) && IssuedInv(w, s) && r < |s.requests|
    ensures var s' := Act(w, s, r, action); forall c | 0 <= c < |s'.certs| :: Explained(w, s', s'.certs[c])
  {
    var s' := Act(w, s, r, action);
    ActGrows(w, s, r, action);
    assert Forced(w, s, r);
    if action.Perform? && s.requests[r].pc.Serving? { PerformExplained(w, s, r, action.ok); }
    forall c | 0 <= c < |s'.certs| ensures Explained(w, s', s'.certs[c]) {
      if c < |s.certs| { ExplainedStays(w, s, s', s.certs[c]); }
    }
  }

  lemma StepExplained(w: World, s: Sys, l: Label)
    requires Inv(w, s) && Plain(w) && IssuedInv(w, s)
    ensures IssuedInv(w, Step(w, s, l))
  {
    var s' := Step(w, s, l);
    match l
    case On(r, action) => if r < |s.requests| { ActExplained(w, s, r, action); }
    case _ =>
      assert Grows(s, s');
      forall q | 0 <= q < |s'.requests| ensures Forced(w, s', q) && Phased(w, s', q) {
        if q < |s.requests| { OtherForced(w, s, s', q); }
      }
      forall c | 0 <= c < |s'.certs| ensures Explained(w, s', s'.certs[c]) {
        if c < |s.certs| { ExplainedStays(w, s, s', s.certs[c]); }
      }
      forall g | 0 <= g < |s'.grants| ensures IsAsked(w, s', s'.grants[g]) {
        AskedStays(w, s, s', s.grants[g]);
      }
  }

  lemma {:induction false} RunExplained(w: World, trace: seq<Sys>, labels: seq<Label>, n: nat)
    requires ValidWorld(w) && Plain(w) && IsRun(w, trace, labels) && n <= |labels|
    ensures IssuedInv(w, trace[n])
  {
    if n > 0 {
      RunExplained(w, trace, labels, n - 1);
      RunKeeps(w, trace, labels, n - 1);
      StepExplained(w, trace[n - 1], labels[n - 1]);
    }
  }

  // ---- Theorems about every run ----

  lemma NodeGrantIsPlain(conf: Setup, node: Node, api: string, priv: Privilege<GroupName>)
    requires NodeHolds(conf, node, api, priv)
    ensures IsPlain(priv) && (priv.Impersonate? ==> api == "auth-to-kerberos")
    ensures priv.Bootstrap? ==> api == "bootstrap-keyinit"
  {
  }

  lemma AdminGrantIsPlain(p: string, api: string, priv: Privilege<GroupName>)
    requires AdminHolds(p, api, priv)
    ensures IsPlain(priv) && !priv.Impersonate? && (priv.Bootstrap? ==> api == "bootstrap")
  {
  }

  lemma PrivilegeIsPlain(conf: Setup, p: string, api: string)
    requires p in AccountTable(conf) && api in AccountTable(conf)[p].privileges
    ensures var priv := AccountTable(conf)[p].privileges[api];
            && IsPlain(priv) && (priv.Impersonate? ==> api == "auth-to-kerberos")
            && (priv.Bootstrap? ==> api == "bootstrap-keyinit" || api == "bootstrap")
  {
    TableExactly(conf, p);
    var a := AccountTable(conf)[p];
    assert Has(a.privileges, api, a.privileges[api]);
    if IsMonitor(conf, p) {
    } else if IsAdmin(conf, p) {
      AdminGrantIsPlain(p, api, a.privileges[api]);
    } else {
      var i: nat :| IsLastNode(conf, i, p) && IsOfNode(conf, a, conf.nodes[i]);
      NodeGrantIsPlain(conf, conf.nodes[i], api, a.privileges[api]);
    }
  }

  lemma TableIsPlain(conf: Setup)
    ensures Plain(WorldOf(conf))
  {
    forall p, api | p in AccountTable(conf) && api in AccountTable(conf)[p].privileges
      ensures IsPlain(AccountTable(conf)[p].privileges[api])
    {
      PrivilegeIsPlain(conf, p, api);
    }
  }

  // The request may act for q at operation i: as itself, or as an admin or monitor whom a supervisor has impersonated.
  ghost predicate MayActFor(conf: Setup, req: Request, i: nat, q: string) {
    && req.auth.Some?
    && var p := req.auth.value.principal;
    && (q == p ||
        (&& IsSupervisor(conf, p) && (IsAdmin(conf, q) || IsMonitor(conf, q))
         && exists j: nat :: j < i && j < |req.ops| && req.ops[j] == Batch.Operation(Some("auth-to-kerberos"), Some(q))))
  }

  lemma ActsAsMay(conf: Setup, s: Sys, r: nat, i: nat, q: string)
    requires Acts(WorldOf(conf), s, r, i, q)
    ensures MayActFor(conf, s.requests[r], i, q)
  {
    var p, ops := s.requests[r].auth.value.principal, s.requests[r].ops;
    if q != p {
      PrincipalsAre(conf, q);
      var j: nat :| j < i && j < |ops| && Impersonates(WorldOf(conf), p, ops[j], q);
      PrivilegeIsPlain(conf, p, ops[j].api.value);
    }
  }

  // The certificate is what q is granted under the API name of operation i, which the request performs for q.
  ghost predicate IsGranted(conf: Setup, s: Sys, cert: Cert, i: nat, q: string) {
    && cert.origin.SignedFor? && cert.origin.request < |s.requests|
    && var req := s.requests[cert.origin.request];
    && MayActFor(conf, req, i, q) && i < |req.ops| && req.ops[i].api.Some?
    && q in AccountTable(conf) && req.ops[i].api.value in AccountTable(conf)[q].privileges
    && Says(cert, AccountTable(conf)[q].privileges[req.ops[i].api.value])
  }

  /**
   Every certificate that is signed for a request is, in authority, validity, names and organizations, a grant of the
   account table, for the principal of that request or for somebody whom it impersonates, and asked for by its API name.
   */
  lemma EveryCertificateIsGranted(conf: Setup, s: Sys, c: nat)
    requires Reachable(conf, s) && c < |s.certs| && s.certs[c].origin.SignedFor?
    ensures exists i, q :: IsGranted(conf, s, s.certs[c], i, q)
  {
    RunIsExplained(conf, s);
    assert Explained(WorldOf(conf), s, s.certs[c]);
    var i, q :| Answers(WorldOf(conf), s, s.certs[c], i, q);
    ActsAsMay(conf, s, s.certs[c].origin.request, i, q);
    assert IsGranted(conf, s, s.certs[c], i, q);
  }

  // Operation i, which the request performs for q, asks for a token for the subject.
  ghost predicate AsksFor(conf: Setup, req: Request, i: nat, q: string, subject: string) {
    && MayActFor(conf, req, i, q) && i < |req.ops| && req.ops[i].body == Some(subject)
    && (req.ops[i].api == Some("bootstrap-keyinit") || req.ops[i].api == Some("bootstrap"))
  }

  lemma AskedByName(conf: Setup, s: Sys, grant: Grant, i: nat, q: string)
    requires Asked(WorldOf(conf), s, grant, i, q)
    ensures AsksFor(conf, s.requests[grant.request], i, q, grant.token.subject)
  {
    ActsAsMay(conf, s, grant.request, i, q);
    PrivilegeIsPlain(conf, q, s.requests[grant.request].ops[i].api.value);
  }

  lemma RunIsExplained(conf: Setup, s: Sys)
    requires Reachable(conf, s)
    ensures IssuedInv(WorldOf(conf), s)
  {
    WorldIsValid(conf);
    TableIsPlain(conf);
    var trace, labels :| IsRun(WorldOf(conf), trace, labels) && trace[|labels|] == s;
    RunExplained(WorldOf(conf), trace, labels, |labels|);
  }

  /** Every token is granted for the node that an operation of its request named, under the name of a bootstrap privilege. */
  lemma EveryTokenIsAskedFor(conf: Setup, s: Sys, g: nat)
    requires Reachable(conf, s) && g < |s.grants|
    ensures s.grants[g].request < |s.requests|
    ensures exists i, q :: AsksFor(conf, s.requests[s.grants[g].request], i, q, s.grants[g].token.subject)
  {
    RunIsExplained(conf, s);
    assert IsAsked(WorldOf(conf), s, s.grants[g]);
    var i, q :| Asked(WorldOf(conf), s, s.grants[g], i, q);
    AskedByName(conf, s, s.grants[g], i, q);
  }

  // The certificate is one of those written out for admins, or for nodes.
  ghost predicate IsByName(conf: Setup, q: string, api: string, cert: Cert) {
    if IsAdmin(conf, q) then exists priv :: AdminHolds(q, api, priv) && Says(cert, priv)
    else exists node, priv :: && node in conf.nodes && q == node.hostname + "." + conf.externalDomain
                              && NodeHolds(conf, node, api, priv) && Says(cert, priv)
  }

  lemma GrantedByName(conf: Setup, s: Sys, cert: Cert, i: nat, q: string)
    requires IsGranted(conf, s, cert, i, q)
    ensures IsByName(conf, q, s.requests[cert.origin.request].ops[i].api.value, cert)
  {
    var a, api := AccountTable(conf)[q], s.requests[cert.origin.request].ops[i].api.value;
    var priv := a.privileges[api];
    TableExactly(conf, q);
    assert Has(a.privileges, api, priv);
    if IsAdmin(conf, q) {
      assert AdminHolds(q, api, priv) && Says(cert, priv);
    } else if !IsMonitor(conf, q) {
      var k: nat :| IsLastNode(conf, k, q) && IsOfNode(conf, a, conf.nodes[k]);
      assert NodeHolds(conf, conf.nodes[k], api, priv) && Says(cert, priv);
    }
  }

  /** For example, kubelets get certificates as system:node and their host name, with no more than what nodes may do. */
  lemma WorkerCertificates(conf: Setup, s: Sys, cert: Cert, i: nat, q: string)
    requires IsGranted(conf, s, cert, i, q) && s.requests[cert.origin.request].ops[i].api == Some("grant-kubernetes-worker")
    ensures exists node :: && node in conf.nodes && q == node.hostname + "." + conf.externalDomain && node.kind != Supervisor
                           && cert.authority == Kubernetes && cert.commonName == "system:node:" + node.hostname
                           && cert.organizations == ["system:nodes"] && cert.names == [q, node.hostname, node.ip]
                           && cert.notAfter == cert.notBefore + 30 * DAYS
  {
    GrantedByName(conf, s, cert, i, q);
    assert forall priv :: !AdminHolds(q, "grant-kubernetes-worker", priv);
    var node, priv :| && node in conf.nodes && q == node.hostname + "." + conf.externalDomain
                      && NodeHolds(conf, node, "grant-kubernetes-worker", priv) && Says(cert, priv);
    WorkerGrant(conf, node, priv);
  }

  lemma WorkerGrant(conf: Setup, node: Node, priv: Privilege<GroupName>)
    requires NodeHolds(conf, node, "grant-kubernetes-worker", priv)
    ensures node.kind != Supervisor
    ensures var dns := node.hostname + "." + conf.externalDomain;
            priv == TLSGrant(Kubernetes, true, 30 * DAYS, "system:node:" + node.hostname, [dns, node.hostname, node.ip], ["system:nodes"])
  {
  }

  /** A certificate that makes its holder a master of the cluster is only ever signed for the request of a supervisor. */
  lemma OnlySupervisorsGetMasters(conf: Setup, s: Sys, c: nat)
    requires Reachable(conf, s) && c < |s.certs| && "system:masters" in s.certs[c].organizations
    ensures s.certs[c].origin.SignedFor?
    ensures var r := s.certs[c].origin.request;
            r < |s.requests| && s.requests[r].auth.Some? && IsSupervisor(conf, s.requests[r].auth.value.principal)
  {
    SignedWithMasters(conf, s, c);
    EveryCertificateIsGranted(conf, s, c);
    var i, q :| IsGranted(conf, s, s.certs[c], i, q);
    MastersGranted(conf, s, s.certs[c], i, q);
  }

  lemma SignedWithMasters(conf: Setup, s: Sys, c: nat)
    requires Reachable(conf, s) && c < |s.certs| && s.certs[c].organizations != []
    ensures s.certs[c].origin.SignedFor?
    ensures var r := s.certs[c].origin.request;
            r < |s.requests| && s.requests[r].auth.Some? && s.requests[r].auth.value.principal !in KerberosPrincipals(conf)
  {
    EveryRunIsSafe(conf, s);
    assert CertInv(WorldOf(conf), s, c);
    if s.certs[c].origin.SignedFor? { AcceptedRequests(conf, s, s.certs[c].origin.request); }
  }

  lemma MastersGranted(conf: Setup, s: Sys, cert: Cert, i: nat, q: string)
    requires IsGranted(conf, s, cert, i, q) && "system:masters" in cert.organizations
    requires s.requests[cert.origin.request].auth.value.principal !in KerberosPrincipals(conf)
    ensures IsSupervisor(conf, s.requests[cert.origin.request].auth.value.principal)
  {
    var req := s.requests[cert.origin.request];
    MastersActFor(conf, req, i, q, req.ops[i].api.value, cert);
  }

  lemma MastersActFor(conf: Setup, req: Request, i: nat, q: string, api: string, cert: Cert)
    requires MayActFor(conf, req, i, q) && req.auth.value.principal !in KerberosPrincipals(conf)
    requires q in AccountTable(conf) && api in AccountTable(conf)[q].privileges && Says(cert, AccountTable(conf)[q].privileges[api])
    requires "system:masters" in cert.organizations
    ensures IsSupervisor(conf, req.auth.value.principal)
  {
    WhoIsMaster(conf, q, api);
    PrincipalsAre(conf, q);
    if q == req.auth.value.principal { MasterIsSupervisor(conf, q, api); }
  }

  lemma MasterIsSupervisor(conf: Setup, q: string, api: string)
    requires q in AccountTable(conf) && q !in KerberosPrincipals(conf) && api in AccountTable(conf)[q].privileges
    requires api == "grant-kubernetes-supervisor"
    ensures IsSupervisor(conf, q)
  {
    AccountKinds(conf, q);
    var node :| IsNodeAccount(conf, AccountTable(conf)[q], node);
    NodeHas(conf, node, api, AccountTable(conf)[q].privileges[api]);
    NodeMasters(conf, node, api, AccountTable(conf)[q].privileges[api]);
  }

  /** What keyinitadmit mints is a certificate under the keyserver's name for ten minutes, with no other names or rights. */
  lemma MintedExactly(conf: Setup, s: Sys, c: nat)
    requires Reachable(conf, s) && c < |s.certs| && s.certs[c].origin == KeyInitAdmit
    ensures var cert := s.certs[c];
            && cert.authority == Keygranting && KeyserverDNS(conf, conf.nodes) == Some(cert.commonName)
            && cert.notAfter == cert.notBefore + 10 * MINUTES && !cert.ishost && cert.names == [] && cert.organizations == []
  {
    EveryRunIsSafe(conf, s);
    assert CertInv(WorldOf(conf), s, c);
  }

  /** The keyserver is named after the last supervisor of the setup, if there is one. */
  lemma {:induction false} KeyserverIsNamed(conf: Setup, nodes: seq<Node>)
    ensures KeyserverDNS(conf, nodes) == None <==> forall node | node in nodes :: node.kind != Supervisor
    ensures forall i | 0 <= i < |nodes| && nodes[i].kind == Supervisor && (forall j | i < j < |nodes| :: nodes[j].kind != Supervisor) ::
              KeyserverDNS(conf, nodes) == Some(nodes[i].hostname + "." + conf.externalDomain)
  {
    if nodes != [] {
      var n := |nodes| - 1;
      KeyserverIsNamed(conf, nodes[..n]);
      assert nodes == nodes[..n] + [nodes[n]];
      assert forall i | 0 <= i < n :: nodes[..n][i] == nodes[i];
    }
  }
}

/**
 Whole runs of the keyserver: any number of requests, each in its own goroutine, interleaved at
 every point where the source takes or releases a lock, reads the clock or runs a sync.Once.
 The keyserver shares its keygranting authority with keyinitadmit.

 A run is a sequence of labels; a label that cannot happen in a state leaves it unchanged, so the
 theorems below, which quantify over all label sequences, cover all runs.
 */
module KeyserverRun {
  import opened Wrappers
  import opened Accounts
  import opened TokenRegistry
  import Batch
  import GrantTable

  // A token's sync.Once is named by the index of its grant.
  type Token = ScopedToken<nat>

  datatype Origin = KeyInitAdmit | SignedFor(request: nat)

  // Stamps number certificates, grants and authentications in the order in which they happen.
  // An SSH certificate has its key id for a common name, and its principals for names.
  datatype Cert = Cert(authority: Authority, commonName: string, notBefore: int, notAfter: int, ishost: bool,
                       names: seq<string>, organizations: seq<string>, origin: Origin, stamp: nat)

  // at is the clock when the token was made.
  datatype Grant = Grant(token: Token, request: nat, stamp: nat, at: int)

  // A successful sync.Once.Do: checkedAt is the clock at the expiry check before it.
  datatype ClaimEvent = ClaimEvent(grant: nat, request: nat, checkedAt: int, at: int)

  datatype Credential = ByToken(claim: nat) | ByCert(cert: nat)

  // at is the clock when the credential was found to be good.
  datatype Auth = Auth(principal: string, credential: Credential, stamp: nat, at: int)

  type Operation = Batch.Operation

  // Where GrantToken has got to, within a bootstrap operation.
  datatype Phase = Ready | Swept(subject: string, lifespan: int) | Generated(grant: nat)

  datatype PC =
    | Arrived
    | Found(token: Token)
    | Checked(token: Token, checkedAt: int)
    | Serving(account: AccountData<GroupName>, next: nat, phase: Phase)
    | Ended

  datatype Request = Request(ip: Address, header: string, cert: Option<nat>, ops: seq<Operation>,
                             auth: Option<Auth>, pc: PC)

  datatype Sys = Sys(
    clock: int, stamp: nat, byToken: map<string, Token>, added: set<nat>, onceDone: set<nat>,
    grants: seq<Grant>, claims: seq<ClaimEvent>, certs: seq<Cert>, requests: seq<Request>)

  datatype Action =
    | Abort
    | Lookup
    | Check
    | ClaimOnce
    | VerifyCert
    | Perform(ok: bool)
    | Sweep(readAt: string -> int)
    | Generate(id: string)
    | AddToken

  datatype Label =
    | Tick(elapsed: nat)
    | Admit
    | Arrive(ip: Address, header: string, cert: Option<nat>, ops: seq<Operation>)
    | On(request: nat, action: Action)

  const ADMIT_LIFESPAN := 600 * SECOND

  // The DNS name of the (last) supervisor in the setup; LoadSpireSetup insists on exactly one.
  function KeyserverDNS(conf: Setup, nodes: seq<Node>): Option<string> {
    if nodes == [] then None
    else if nodes[|nodes| - 1].kind == Supervisor then Some(DNS(conf, nodes[|nodes| - 1]))
    else KeyserverDNS(conf, nodes[..|nodes| - 1])
  }

  // The part of the configuration that requests consult; supervisors are principals whose account
  // is that of a supervisor node.
  datatype World = World(table: map<string, AccountData<GroupName>>, kerberos: seq<string>, nodes: seq<string>,
                         supervisors: set<string>, keyserverDNS: Option<string>)

  ghost predicate IsSupervisor(conf: Setup, p: string) {
    && p in AccountTable(conf) && p !in KerberosPrincipals(conf)
    && exists node :: IsNodeAccount(conf, AccountTable(conf)[p], node) && node.kind == Supervisor
  }

  ghost function WorldOf(conf: Setup): World {
    World(AccountTable(conf), KerberosPrincipals(conf), NodePrincipals(conf),
          (set p | p in AccountTable(conf) && IsSupervisor(conf, p)), KeyserverDNS(conf, conf.nodes))
  }

  function MembersOf(w: World, group: GroupName): seq<string> {
    match group
    case KerberosAccounts => w.kerberos
    case Nodes => w.nodes
  }

  // What the runs rely on; AccountKinds, DirectAccountsArePinned and PrivilegeHolders provide it.
  ghost predicate ValidWorld(w: World) {
    && (forall p | p in w.table :: w.table[p].principal == p)
    && (forall p | p in w.table :: w.table[p].disableDirectAuth <==> p in w.kerberos)
    && (forall p | p in w.table && p !in w.kerberos :: w.table[p].limitIP.Some?)
    && (forall p | p in w.kerberos :: p in w.table && p !in w.supervisors)
    && forall p, api | p in w.table && api in w.table[p].privileges ::
         var priv := w.table[p].privileges[api];
         && (priv.TLSGrant? && priv.tls == Keygranting ==>
               p !in w.kerberos && priv.commonname == p && priv.lifespan == 40 * ONE_DAY)
         && (priv.SSHGrant? ==> priv.ssh != Keygranting)
         && (priv.Impersonate? ==> priv.scope == KerberosAccounts && p in w.supervisors)
         && (priv.Bootstrap? ==>
               priv.allowed == Nodes && priv.lifespan == HOUR && (p in w.kerberos || p in w.supervisors))
  }

  lemma WorldIsValid(conf: Setup)
    ensures ValidWorld(WorldOf(conf))
  {
    var w := WorldOf(conf);
    forall p
      ensures p in w.table ==> w.table[p].principal == p && (w.table[p].disableDirectAuth <==> p in w.kerberos)
      ensures p in w.table && p !in w.kerberos ==> w.table[p].limitIP.Some?
      ensures p in w.kerberos ==> p in w.table && p !in w.supervisors
    {
      AccountKinds(conf, p);
      if p in w.table { DirectAccountsArePinned(conf, p); }
    }
    forall p, api | p in w.table && api in w.table[p].privileges
      ensures var priv := w.table[p].privileges[api];
              && (priv.TLSGrant? && priv.tls == Keygranting ==>
                    p !in w.kerberos && priv.commonname == p && priv.lifespan == 40 * ONE_DAY)
              && (priv.SSHGrant? ==> priv.ssh != Keygranting)
              && (priv.Impersonate? ==> priv.scope == KerberosAccounts && p in w.supervisors)
              && (priv.Bootstrap? ==>
                    priv.allowed == Nodes && priv.lifespan == HOUR && (p in w.kerberos || p in w.supervisors))
    {
      PrivilegeHolders(conf, p, api);
    }
  }

  function Init(start: int): Sys {
    Sys(start, 0, map[], {}, {}, [], [], [], [])
  }

  function Goto(s: Sys, r: nat, pc: PC): Sys
    requires r < |s.requests|
  {
    s.(requests := s.requests[r := s.requests[r].(pc := pc)])
  }

  // The end of attemptAuthentication, once a verifier has produced a principal.
  function Accept(w: World, s: Sys, r: nat, principal: string, credential: Credential): Sys
    requires r < |s.requests|
  {
    var table, req := w.table, s.requests[r];
    if principal !in table || table[principal].disableDirectAuth then Goto(s, r, Ended)
    else if table[principal].limitIP != None && table[principal].limitIP != Some(req.ip) then Goto(s, r, Ended)
    else s.(
      stamp := s.stamp + 1,
      requests := s.requests[r := req.(
        auth := Some(Auth(principal, credential, s.stamp, s.clock)),
        pc := Serving(table[principal], 0, Ready))])
  }

  // What TLSAuthority.Sign or SSHAuthority.Sign returns at time t.
  function SignAt(t: int, authority: Authority, ishost: bool, lifespan: int, commonName: string, names: seq<string>,
                  organizations: seq<string>, origin: Origin, stamp: nat): Cert {
    Cert(authority, commonName, WholeSeconds(t), WholeSeconds(t + lifespan), ishost, names, organizations, origin, stamp)
  }

  function StepLookup(s: Sys, r: nat): Sys
    requires r < |s.requests| && s.requests[r].pc.Arrived?
  {
    var req := s.requests[r];
    if req.header == "" then s
    else if req.header in s.byToken then Goto(s, r, Found(s.byToken[req.header]))
    else Goto(s, r, Ended)
  }

  function StepCheck(s: Sys, r: nat): Sys
    requires r < |s.requests| && s.requests[r].pc.Found?
  {
    var t := s.requests[r].pc.token;
    if HasExpired(t, s.clock) then Goto(s, r, Ended) else Goto(s, r, Checked(t, s.clock))
  }

  function StepClaimOnce(w: World, s: Sys, r: nat): Sys
    requires r < |s.requests| && s.requests[r].pc.Checked?
  {
    var pc := s.requests[r].pc;
    if pc.token.claimed in s.onceDone then Goto(s, r, Ended)
    else
      var claimed := s.(onceDone := s.onceDone + {pc.token.claimed},
                        claims := s.claims + [ClaimEvent(pc.token.claimed, r, pc.checkedAt, s.clock)]);
      Accept(w, claimed, r, pc.token.subject, ByToken(|s.claims|))
  }

  function StepVerifyCert(w: World, s: Sys, r: nat): Sys
    requires r < |s.requests| && s.requests[r].pc.Arrived?
  {
    var req := s.requests[r];
    if req.header != "" then s
    else if req.cert == None || req.cert.value >= |s.certs| then Goto(s, r, Ended)
    else
      var cert := s.certs[req.cert.value];
      if cert.authority == Keygranting && cert.notBefore <= s.clock <= cert.notAfter
      then Accept(w, s, r, cert.commonName, ByCert(req.cert.value))
      else Goto(s, r, Ended)
  }

  // The account in force after an operation, and what it signed.
  datatype Effect = Effect(account: AccountData<GroupName>, signed: seq<Cert>)

  // Every privilege but the bootstrap one; None is an error, ok is false when signing fails.
  function Invoke(w: World, s: Sys, r: nat, account: AccountData<GroupName>, priv: Privilege<GroupName>,
                  body: string, ok: bool): Option<Effect>
    requires !priv.Bootstrap?
  {
    match priv
    case TLSGrant(tls, ishost, lifespan, commonname, names, organizations) =>
      if !ok then None
      else Some(Effect(account, [SignAt(s.clock, tls, ishost, lifespan, commonname, names, organizations, SignedFor(r), s.stamp)]))
    case SSHGrant(ssh, ishost, lifespan, keyid, principals) =>
      if !ok then None
      else Some(Effect(account, [SignAt(s.clock, ssh, ishost, lifespan, keyid, principals, [], SignedFor(r), s.stamp)]))
    case Configuration(_) => if body == "" then Some(Effect(account, [])) else None
    case FetchKey(_) => if body == "" then Some(Effect(account, [])) else None
    case Impersonate(scope) =>
      if body in MembersOf(w, scope) && body in w.table then Some(Effect(w.table[body], [])) else None
  }

  // One round of the loop in InvokeAPIOperationSet.
  function StepPerform(w: World, s: Sys, r: nat, ok: bool): Sys
    requires r < |s.requests| && s.requests[r].pc.Serving?
  {
    var req := s.requests[r];
    var Serving(account, next, phase) := req.pc;
    if next >= |req.ops| || phase != Ready then s
    else if req.ops[next].api == None || req.ops[next].body == None then Goto(s, r, Ended)
    else if req.ops[next].api.value !in account.privileges then Goto(s, r, Ended)
    else if account.privileges[req.ops[next].api.value].Bootstrap? then s
    else
      match Invoke(w, s, r, account, account.privileges[req.ops[next].api.value], req.ops[next].body.value, ok)
      case None => Goto(s, r, Ended)
      case Some(effect) =>
        Goto(s, r, Serving(effect.account, next + 1, Ready)).(
          stamp := s.stamp + |effect.signed|, certs := s.certs + effect.signed)
  }

  // The bootstrap privilege up to the end of expireOldEntries.
  ghost function StepSweep(w: World, s: Sys, r: nat, readAt: string -> int): Sys
    requires r < |s.requests| && s.requests[r].pc.Serving?
  {
    var req := s.requests[r];
    var Serving(account, next, phase) := req.pc;
    if next >= |req.ops| || phase != Ready || req.ops[next].api == None || req.ops[next].body == None then s
    else if req.ops[next].api.value !in account.privileges then s
    else
      match account.privileges[req.ops[next].api.value]
      case Bootstrap(allowed, lifespan) =>
        var subject := req.ops[next].body.value;
        if subject !in MembersOf(w, allowed) then Goto(s, r, Ended)
        else if exists k :: readAt(k) > s.clock then s
        else Goto(s, r, Serving(account, next, Swept(subject, lifespan))).(byToken := Unexpired(s.byToken, readAt))
      case _ => s
  }

  function StepGenerate(s: Sys, r: nat, id: string): Sys
    requires r < |s.requests| && s.requests[r].pc.Serving?
  {
    var Serving(account, next, phase) := s.requests[r].pc;
    if !phase.Swept? then s
    else
      var g := |s.grants|;
      var token := ScopedToken(id, phase.subject, s.clock + phase.lifespan, g);
      Goto(s, r, Serving(account, next, Generated(g))).(
        stamp := s.stamp + 1,
        grants := s.grants + [Grant(token, r, s.stamp, s.clock)])
  }

  // addToken; its panic ends the goroutine of this request only.
  function StepAddToken(s: Sys, r: nat): Sys
    requires r < |s.requests| && s.requests[r].pc.Serving?
  {
    var Serving(account, next, phase) := s.requests[r].pc;
    if !phase.Generated? || phase.grant >= |s.grants| then s
    else
      match Added(s.byToken, s.grants[phase.grant].token)
      case None => Goto(s, r, Ended)
      case Some(byToken) =>
        Goto(s, r, Serving(account, next + 1, Ready)).(byToken := byToken, added := s.added + {phase.grant})
  }

  ghost function Act(w: World, s: Sys, r: nat, action: Action): Sys
    requires r < |s.requests|
  {
    var pc := s.requests[r].pc;
    match action
    case Abort => Goto(s, r, Ended)
    case Lookup => if pc.Arrived? then StepLookup(s, r) else s
    case VerifyCert => if pc.Arrived? then StepVerifyCert(w, s, r) else s
    case Check => if pc.Found? then StepCheck(s, r) else s
    case ClaimOnce => if pc.Checked? then StepClaimOnce(w, s, r) else s
    case Perform(ok) => if pc.Serving? then StepPerform(w, s, r, ok) else s
    case Sweep(readAt) => if pc.Serving? then StepSweep(w, s, r, readAt) else s
    case Generate(id) => if pc.Serving? then StepGenerate(s, r, id) else s
    case AddToken => if pc.Serving? then StepAddToken(s, r) else s
  }

  ghost function Step(w: World, s: Sys, l: Label): Sys {
    match l
    case Tick(elapsed) => s.(clock := s.clock + elapsed)
    case Admit =>
      (match w.keyserverDNS
       case None => s
       case Some(dns) => s.(
         stamp := s.stamp + 1,
         certs := s.certs + [SignAt(s.clock, Keygranting, false, ADMIT_LIFESPAN, dns, [], [], KeyInitAdmit, s.stamp)]))
    case Arrive(ip, header, cert, ops) =>
      s.(requests := s.requests + [Request(ip, header, cert, ops, None, Arrived)])
    case On(r, action) => if r < |s.requests| then Act(w, s, r, action) else s
  }

  // The states of a run, one more than its steps.
  ghost predicate IsRun(w: World, trace: seq<Sys>, labels: seq<Label>) {
    && |trace| == |labels| + 1 && trace[0] == Init(trace[0].clock)
    && forall i | 0 <= i < |labels| :: trace[i + 1] == Step(w, trace[i], labels[i])
  }

  // Some run of the keyserver with this setup ends in s.
  ghost predicate Reachable(conf: Setup, s: Sys) {
    exists trace, labels :: IsRun(WorldOf(conf), trace, labels) && trace[|labels|] == s
  }

  // ---- The invariant ----

  ghost predicate RegistryInv(s: Sys) {
    && WellKeyed(s.byToken)
    && (forall g | 0 <= g < |s.grants| :: s.grants[g].token.claimed == g)
    && (forall g | g in s.added :: g < |s.grants|)
    && (forall k | k in s.byToken ::
          var g := s.byToken[k].claimed; g in s.added && g < |s.grants| && s.grants[g].token == s.byToken[k])
    && (forall g | g in s.added ::
          var t := s.grants[g].token; (t.token in s.byToken && s.byToken[t.token] == t) || HasExpired(t, s.clock))
  }

  ghost predicate ClaimInv(s: Sys, i: nat)
    requires i < |s.claims|
  {
    var c := s.claims[i];
    && c.grant in s.added && c.grant in s.onceDone && c.grant < |s.grants|
    && c.request < |s.requests|
    && s.requests[c.request].header == s.grants[c.grant].token.token
    && c.checkedAt <= s.grants[c.grant].token.expires
    && c.checkedAt <= c.at <= s.clock
  }

  // The account that serves a request which authenticated as p.
  ghost predicate InForce(w: World, p: string, account: AccountData<GroupName>) {
    var table := w.table;
    && p in table
    && account.principal in table && account == table[account.principal]
    && (account.principal == p || (p in w.supervisors && account.principal in w.kerberos))
  }

  ghost predicate AuthInv(w: World, s: Sys, r: nat, auth: Auth)
    requires r < |s.requests|
  {
    var table, req := w.table, s.requests[r];
    && auth.principal in table && !table[auth.principal].disableDirectAuth
    && table[auth.principal].limitIP == Some(req.ip)
    && auth.stamp < s.stamp && auth.at <= s.clock
    && match auth.credential
       case ByToken(i) =>
         && req.header != ""
         && i < |s.claims| && s.claims[i].request == r
         && s.claims[i].grant < |s.grants|
         && s.grants[s.claims[i].grant].token.subject == auth.principal
         && s.grants[s.claims[i].grant].stamp < auth.stamp && s.claims[i].at == auth.at
       case ByCert(c) =>
         && req.header == "" && req.cert == Some(c)
         && c < |s.certs|
         && s.certs[c].authority == Keygranting && s.certs[c].commonName == auth.principal
         && s.certs[c].stamp < auth.stamp && s.certs[c].notBefore <= auth.at <= s.certs[c].notAfter
  }

  ghost predicate HoldsToken(s: Sys, r: nat, t: Token)
    requires r < |s.requests|
  {
    && t.claimed in s.added && t.claimed < |s.grants| && s.grants[t.claimed].token == t
    && t.token == s.requests[r].header && s.requests[r].header != ""
  }

  ghost predicate RequestInv(w: World, s: Sys, r: nat)
    requires r < |s.requests|
  {
    var req := s.requests[r];
    && (req.auth.Some? ==> AuthInv(w, s, r, req.auth.value))
    && match req.pc
       case Arrived => req.auth.None?
       case Found(t) => req.auth.None? && HoldsToken(s, r, t)
       case Checked(t, at) => req.auth.None? && HoldsToken(s, r, t) && at <= t.expires && at <= s.clock
       case Serving(account, _, phase) =>
         && req.auth.Some? && InForce(w, req.auth.value.principal, account)
         && (match phase
             case Ready => true
             case Swept(subject, lifespan) =>
               && subject in w.nodes && lifespan == HOUR
               && req.auth.value.principal in w.supervisors
             case Generated(g) => g < |s.grants| && s.grants[g].request == r)
       case Ended => true
  }

  ghost predicate CertInv(w: World, s: Sys, c: nat)
    requires c < |s.certs|
  {
    var cert := s.certs[c];
    && cert.stamp < s.stamp
    && match cert.origin
       case KeyInitAdmit =>
         && cert.authority == Keygranting
         && w.keyserverDNS == Some(cert.commonName)
         && cert.notAfter == cert.notBefore + ADMIT_LIFESPAN
         && !cert.ishost && cert.names == [] && cert.organizations == []
       case SignedFor(r) =>
         && r < |s.requests| && s.requests[r].auth.Some?
         && s.requests[r].auth.value.stamp < cert.stamp
         && cert.notBefore > s.requests[r].auth.value.at - SECOND
         && (cert.authority == Keygranting ==>
               && cert.commonName == s.requests[r].auth.value.principal
               && cert.notAfter == cert.notBefore + 40 * ONE_DAY)
  }

  ghost predicate GrantInv(w: World, s: Sys, g: nat)
    requires g < |s.grants|
  {
    var grant := s.grants[g];
    && grant.stamp < s.stamp && grant.at <= s.clock
    && grant.token.subject in w.nodes && grant.token.expires == grant.at + HOUR
    && grant.request < |s.requests| && s.requests[grant.request].auth.Some?
    && s.requests[grant.request].auth.value.stamp < grant.stamp
    && s.requests[grant.request].auth.value.principal in w.supervisors
  }

  ghost predicate Inv(w: World, s: Sys) {
    && ValidWorld(w)
    && RegistryInv(s)
    && (forall i | 0 <= i < |s.claims| :: ClaimInv(s, i))
    && (forall i, j | 0 <= i < j < |s.claims| :: s.claims[i].grant != s.claims[j].grant)
    && (forall r | 0 <= r < |s.requests| :: RequestInv(w, s, r))
    && (forall c | 0 <= c < |s.certs| :: CertInv(w, s, c))
    && (forall g | 0 <= g < |s.grants| :: GrantInv(w, s, g))
  }

  // ---- Every step keeps the invariant ----

  // Histories only grow; what a request was and how it authenticated never changes.
  ghost predicate Grows(s: Sys, s': Sys) {
    && s.clock <= s'.clock && s.stamp <= s'.stamp
    && s.added <= s'.added && s.onceDone <= s'.onceDone
    && s.grants <= s'.grants && s.claims <= s'.claims && s.certs <= s'.certs
    && |s.requests| <= |s'.requests|
    && forall r | 0 <= r < |s.requests| ::
         var req, req' := s.requests[r], s'.requests[r];
         && req.ip == req'.ip && req.header == req'.header && req.cert == req'.cert && req.ops == req'.ops
         && (req.auth.Some? ==> req'.auth == req.auth)
  }

  lemma Stable(w: World, s: Sys, s': Sys)
    requires Grows(s, s')
    ensures forall r, auth | 0 <= r < |s.requests| && AuthInv(w, s, r, auth) :: AuthInv(w, s', r, auth)
    ensures forall r, t | 0 <= r < |s.requests| && HoldsToken(s, r, t) :: HoldsToken(s', r, t)
    ensures forall r | 0 <= r < |s.requests| && RequestInv(w, s, r) && s'.requests[r] == s.requests[r] ::
              RequestInv(w, s', r)
    ensures forall c | 0 <= c < |s.certs| && CertInv(w, s, c) :: CertInv(w, s', c)
    ensures forall g | 0 <= g < |s.grants| && GrantInv(w, s, g) :: GrantInv(w, s', g)
    ensures forall i | 0 <= i < |s.claims| && ClaimInv(s, i) :: ClaimInv(s', i)
  {
  }

  // What remains to be shown of a step that concerns request r alone.
  lemma Assemble(w: World, s: Sys, s': Sys, r: nat)
    requires Inv(w, s) && Grows(s, s') && RegistryInv(s')
    requires |s'.requests| <= |s.requests| + 1 && r < |s'.requests|
    requires |s.requests| < |s'.requests| ==> r == |s.requests|
    requires forall q | 0 <= q < |s.requests| && q != r :: s'.requests[q] == s.requests[q]
    requires RequestInv(w, s', r)
    requires forall c | |s.certs| <= c < |s'.certs| :: CertInv(w, s', c)
    requires forall g | |s.grants| <= g < |s'.grants| :: GrantInv(w, s', g)
    requires s'.claims == s.claims ||
             (|s'.claims| == |s.claims| + 1 && ClaimInv(s', |s.claims|) &&
              forall i | 0 <= i < |s.claims| :: s.claims[i].grant != s'.claims[|s.claims|].grant)
    ensures Inv(w, s')
  {
    Stable(w, s, s');
  }

  // What a verifier has shown when it hands a principal to the rest of attemptAuthentication.
  ghost predicate Proves(s: Sys, r: nat, principal: string, credential: Credential)
    requires r < |s.requests|
  {
    var req := s.requests[r];
    match credential
    case ByToken(i) =>
      && req.header != ""
      && i < |s.claims| && s.claims[i].request == r
      && s.claims[i].grant < |s.grants|
      && s.grants[s.claims[i].grant].token.subject == principal && s.claims[i].at == s.clock
    case ByCert(c) =>
      && req.header == "" && req.cert == Some(c)
      && c < |s.certs|
      && s.certs[c].authority == Keygranting && s.certs[c].commonName == principal
      && s.certs[c].notBefore <= s.clock <= s.certs[c].notAfter
  }

  lemma GotoKeeps(w: World, s: Sys, r: nat, pc: PC)
    requires Inv(w, s) && r < |s.requests|
    requires RequestInv(w, Goto(s, r, pc), r)
    ensures Inv(w, Goto(s, r, pc))
  {
    Assemble(w, s, Goto(s, r, pc), r);
  }

  lemma AcceptKeeps(w: World, s: Sys, r: nat, principal: string, credential: Credential)
    requires Inv(w, s) && r < |s.requests| && s.requests[r].auth.None?
    requires Proves(s, r, principal, credential)
    ensures Inv(w, Accept(w, s, r, principal, credential))
  {
    var table, req, s' := w.table, s.requests[r], Accept(w, s, r, principal, credential);
    if principal !in table || table[principal].disableDirectAuth {
      GotoKeeps(w, s, r, Ended);
    } else if table[principal].limitIP != None && table[principal].limitIP != Some(req.ip) {
      GotoKeeps(w, s, r, Ended);
    } else {
      assert s'.requests[r].auth == Some(Auth(principal, credential, s.stamp, s.clock));
      assert AuthInv(w, s', r, s'.requests[r].auth.value) by {
        match credential
        case ByToken(i) => assert GrantInv(w, s, s.claims[i].grant);
        case ByCert(c) => assert CertInv(w, s, c);
      }
      Assemble(w, s, s', r);
    }
  }

  lemma ClaimOnceKeeps(w: World, s: Sys, r: nat)
    requires Inv(w, s) && r < |s.requests| && s.requests[r].pc.Checked?
    ensures Inv(w, StepClaimOnce(w, s, r))
  {
    var pc := s.requests[r].pc;
    var g := pc.token.claimed;
    assert RequestInv(w, s, r);
    if g in s.onceDone {
      GotoKeeps(w, s, r, Ended);
    } else {
      var claimed := s.(onceDone := s.onceDone + {g}, claims := s.claims + [ClaimEvent(g, r, pc.checkedAt, s.clock)]);
      forall i | 0 <= i < |s.claims| ensures s.claims[i].grant != g { assert ClaimInv(s, i); }
      assert ClaimInv(claimed, |s.claims|);
      Assemble(w, s, claimed, r);
      AcceptKeeps(w, claimed, r, pc.token.subject, ByToken(|s.claims|));
    }
  }

  lemma VerifyCertKeeps(w: World, s: Sys, r: nat)
    requires Inv(w, s) && r < |s.requests| && s.requests[r].pc.Arrived?
    ensures Inv(w, StepVerifyCert(w, s, r))
  {
    var req := s.requests[r];
    assert RequestInv(w, s, r);
    if req.header == "" {
      if req.cert.Some? && req.cert.value < |s.certs| &&
         s.certs[req.cert.value].authority == Keygranting &&
         s.certs[req.cert.value].notBefore <= s.clock <= s.certs[req.cert.value].notAfter {
        AcceptKeeps(w, s, r, s.certs[req.cert.value].commonName, ByCert(req.cert.value));
      } else {
        GotoKeeps(w, s, r, Ended);
      }
    }
  }

  lemma LookupAndCheckKeep(w: World, s: Sys, r: nat)
    requires Inv(w, s) && r < |s.requests|
    ensures s.requests[r].pc.Arrived? ==> Inv(w, StepLookup(s, r))
    ensures s.requests[r].pc.Found? ==> Inv(w, StepCheck(s, r))
  {
    var req := s.requests[r];
    assert RequestInv(w, s, r);
    if req.pc.Arrived? && req.header != "" {
      GotoKeeps(w, s, r, if req.header in s.byToken then Found(s.byToken[req.header]) else Ended);
    } else if req.pc.Found? {
      GotoKeeps(w, s, r, if HasExpired(req.pc.token, s.clock) then Ended else Checked(req.pc.token, s.clock));
    }
  }

  // An account in force that holds a dangerous privilege, seen from the principal that authenticated.
  lemma InForceHolds(w: World, p: string, account: AccountData<GroupName>, api: string)
    requires ValidWorld(w) && InForce(w, p, account) && p !in w.kerberos && api in account.privileges
    ensures var priv := account.privileges[api];
            && (priv.TLSGrant? && priv.tls == Keygranting ==>
                  account.principal == p && priv.commonname == p && priv.lifespan == 40 * ONE_DAY)
            && (priv.SSHGrant? ==> priv.ssh != Keygranting)
            && (priv.Impersonate? ==> account.principal == p && p in w.supervisors && priv.scope == KerberosAccounts)
            && (priv.Bootstrap? ==> p in w.supervisors && priv.allowed == Nodes && priv.lifespan == HOUR)
  {
  }

  // A step of a serving request that at most appends one certificate.
  lemma ServedKeeps(w: World, s: Sys, r: nat, account: AccountData<GroupName>, next: nat, signed: seq<Cert>)
    requires Inv(w, s) && r < |s.requests| && s.requests[r].auth.Some?
    requires InForce(w, s.requests[r].auth.value.principal, account)
    requires |signed| <= 1
    requires forall cert | cert in signed ::
               && cert.stamp == s.stamp && cert.origin == SignedFor(r) && cert.notBefore > s.clock - SECOND
               && (cert.authority == Keygranting ==>
                     && cert.commonName == s.requests[r].auth.value.principal
                     && cert.notAfter == cert.notBefore + 40 * ONE_DAY)
    ensures Inv(w, Goto(s, r, Serving(account, next, Ready)).(stamp := s.stamp + |signed|, certs := s.certs + signed))
  {
    var s' := Goto(s, r, Serving(account, next, Ready)).(stamp := s.stamp + |signed|, certs := s.certs + signed);
    assert RequestInv(w, s, r);
    Assemble(w, s, s', r);
  }

  lemma SignedForLifespan(t: int, lifespan: int)
    requires lifespan % SECOND == 0
    ensures WholeSeconds(t + lifespan) == WholeSeconds(t) + lifespan && t - SECOND < WholeSeconds(t) <= t
  {
  }

  lemma InvokeKeeps(w: World, s: Sys, r: nat, p: string, account: AccountData<GroupName>, api: string,
                    body: string, ok: bool)
    requires ValidWorld(w) && InForce(w, p, account) && p !in w.kerberos && api in account.privileges
    requires !account.privileges[api].Bootstrap?
    ensures match Invoke(w, s, r, account, account.privileges[api], body, ok)
            case None => true
            case Some(effect) =>
              && InForce(w, p, effect.account)
              && |effect.signed| <= 1
              && forall cert | cert in effect.signed ::
                   && cert.stamp == s.stamp && cert.origin == SignedFor(r) && cert.notBefore > s.clock - SECOND
                   && (cert.authority == Keygranting ==>
                         cert.commonName == p && cert.notAfter == cert.notBefore + 40 * ONE_DAY)
  {
    InForceHolds(w, p, account, api);
    SignedForLifespan(s.clock, 40 * ONE_DAY);
  }

  lemma PerformKeeps(w: World, s: Sys, r: nat, ok: bool)
    requires Inv(w, s) && r < |s.requests| && s.requests[r].pc.Serving?
    ensures Inv(w, StepPerform(w, s, r, ok))
  {
    var req, s' := s.requests[r], StepPerform(w, s, r, ok);
    var Serving(account, next, phase) := req.pc;
    assert RequestInv(w, s, r);
    if s' == s {
    } else if s'.requests[r].pc.Ended? {
      GotoKeeps(w, s, r, Ended);
    } else {
      var p, api, body := req.auth.value.principal, req.ops[next].api.value, req.ops[next].body.value;
      InvokeKeeps(w, s, r, p, account, api, body, ok);
      var effect := Invoke(w, s, r, account, account.privileges[api], body, ok).value;
      ServedKeeps(w, s, r, effect.account, next + 1, effect.signed);
    }
  }

  lemma SweepKeeps(w: World, s: Sys, r: nat, readAt: string -> int)
    requires Inv(w, s) && r < |s.requests| && s.requests[r].pc.Serving?
    ensures Inv(w, StepSweep(w, s, r, readAt))
  {
    var req, s' := s.requests[r], StepSweep(w, s, r, readAt);
    var Serving(account, next, phase) := req.pc;
    assert RequestInv(w, s, r);
    if s' == s {
    } else if s'.requests[r].pc.Ended? {
      GotoKeeps(w, s, r, Ended);
    } else {
      InForceHolds(w, req.auth.value.principal, account, req.ops[next].api.value);
      SweptRegistry(s, s', readAt);
      assert RequestInv(w, s', r);
      Assemble(w, s, s', r);
    }
  }

  lemma SweptRegistry(s: Sys, s': Sys, readAt: string -> int)
    requires RegistryInv(s) && forall k :: readAt(k) <= s.clock
    requires s'.byToken == Unexpired(s.byToken, readAt)
    requires s'.grants == s.grants && s'.added == s.added && s'.clock == s.clock
    ensures RegistryInv(s')
  {
  }

  lemma GenerateKeeps(w: World, s: Sys, r: nat, id: string)
    requires Inv(w, s) && r < |s.requests| && s.requests[r].pc.Serving?
    ensures Inv(w, StepGenerate(s, r, id))
  {
    var s' := StepGenerate(s, r, id);
    assert RequestInv(w, s, r);
    if s' != s {
      assert s'.requests[r].auth == s.requests[r].auth;
      assert GrantInv(w, s', |s.grants|);
      assert RequestInv(w, s', r);
      assert RegistryInv(s');
      Assemble(w, s, s', r);
    }
  }

  lemma AddTokenKeeps(w: World, s: Sys, r: nat)
    requires Inv(w, s) && r < |s.requests| && s.requests[r].pc.Serving?
    ensures Inv(w, StepAddToken(s, r))
  {
    var s' := StepAddToken(s, r);
    assert RequestInv(w, s, r);
    if s' != s {
      AddedRequest(w, s, r);
      AddedRegistry(s, s', s.requests[r].pc.phase.grant);
      Assemble(w, s, s', r);
    }
  }

  lemma AddedRequest(w: World, s: Sys, r: nat)
    requires Inv(w, s) && r < |s.requests| && s.requests[r].pc.Serving? && RequestInv(w, s, r)
    ensures StepAddToken(s, r) != s ==> RequestInv(w, StepAddToken(s, r), r)
  {
  }

  lemma AddedRegistry(s: Sys, s': Sys, g: nat)
    requires RegistryInv(s) && g < |s.grants|
    requires s'.grants == s.grants && s'.clock == s.clock
    requires
      || (s'.byToken == s.byToken && s'.added == s.added)
      || (Added(s.byToken, s.grants[g].token) == Some(s'.byToken) && s'.added == s.added + {g})
    ensures RegistryInv(s')
  {
  }

  lemma ActKeeps(w: World, s: Sys, r: nat, action: Action)
    requires Inv(w, s) && r < |s.requests|
    ensures Inv(w, Act(w, s, r, action))
  {
    var pc := s.requests[r].pc;
    match action
    case Abort =>
      assert RequestInv(w, s, r);
      GotoKeeps(w, s, r, Ended);
    case Lookup => LookupAndCheckKeep(w, s, r);
    case Check => LookupAndCheckKeep(w, s, r);
    case VerifyCert => if pc.Arrived? { VerifyCertKeeps(w, s, r); }
    case ClaimOnce => if pc.Checked? { ClaimOnceKeeps(w, s, r); }
    case Perform(ok) => if pc.Serving? { PerformKeeps(w, s, r, ok); }
    case Sweep(readAt) => if pc.Serving? { SweepKeeps(w, s, r, readAt); }
    case Generate(id) => if pc.Serving? { GenerateKeeps(w, s, r, id); }
    case AddToken => if pc.Serving? { AddTokenKeeps(w, s, r); }
  }

  lemma AdmitKeeps(w: World, s: Sys)
    requires Inv(w, s)
    ensures Inv(w, Step(w, s, Admit))
  {
    var s' := Step(w, s, Admit);
    SignedForLifespan(s.clock, ADMIT_LIFESPAN);
    Stable(w, s, s');
    assert forall c | |s.certs| <= c < |s'.certs| :: CertInv(w, s', c);
  }

  lemma StepKeeps(w: World, s: Sys, l: Label)
    requires Inv(w, s)
    ensures Inv(w, Step(w, s, l))
  {
    match l
    case Tick(_) => Stable(w, s, Step(w, s, l));
    case Admit => AdmitKeeps(w, s);
    case Arrive(_, _, _, _) => Assemble(w, s, Step(w, s, l), |s.requests|);
    case On(r, action) => if r < |s.requests| { ActKeeps(w, s, r, action); }
  }

  // ---- Theorems about every run ----

  lemma {:induction false} RunKeeps(w: World, trace: seq<Sys>, labels: seq<Label>, n: nat)
    requires ValidWorld(w) && IsRun(w, trace, labels) && n <= |labels|
    ensures Inv(w, trace[n])
  {
    if n > 0 {
      RunKeeps(w, trace, labels, n - 1);
      StepKeeps(w, trace[n - 1], labels[n - 1]);
    }
  }

  lemma EveryRunIsSafe(conf: Setup, s: Sys)
    requires Reachable(conf, s)
    ensures Inv(WorldOf(conf), s)
  {
    WorldIsValid(conf);
    var trace, labels :| IsRun(WorldOf(conf), trace, labels) && trace[|labels|] == s;
    RunKeeps(WorldOf(conf), trace, labels, |labels|);
  }

  /**
   However requests interleave, and however long one of them keeps a token whose entry has gone:
   a grant is claimed at most once; by a request that presented its string; and the expiry check
   before the claim was made no later than the expiry time.
   */
  lemma ClaimsAreUnique(conf: Setup, s: Sys, i: nat)
    requires Reachable(conf, s) && i < |s.claims|
    ensures var c := s.claims[i];
            && c.grant < |s.grants| && c.grant in s.added
            && c.checkedAt <= s.grants[c.grant].token.expires && c.checkedAt <= c.at <= s.clock
            && c.request < |s.requests|
            && s.requests[c.request].header == s.grants[c.grant].token.token
            && forall j | 0 <= j < |s.claims| && s.claims[j].grant == c.grant :: j == i
  {
    EveryRunIsSafe(conf, s);
    assert ClaimInv(s, i);
  }

  /** Two grants that were handed out and have not expired never carry the same token string. */
  lemma UnexpiredTokensDiffer(conf: Setup, s: Sys, g: nat, h: nat)
    requires Reachable(conf, s) && g in s.added && h in s.added && g < |s.grants| && h < |s.grants|
    requires !HasExpired(s.grants[g].token, s.clock) && !HasExpired(s.grants[h].token, s.clock)
    requires s.grants[g].token.token == s.grants[h].token.token
    ensures g == h
  {
    EveryRunIsSafe(conf, s);
  }

  /**
   A request is accepted only as a node, from that node's own address, and on the strength of a token granted
   for that node and claimed at that time, or of a keygranting certificate with its name that was valid then.
   */
  lemma AcceptedRequests(conf: Setup, s: Sys, r: nat)
    requires Reachable(conf, s) && r < |s.requests| && s.requests[r].auth.Some?
    ensures var req := s.requests[r];
            var p := req.auth.value.principal;
            && p !in KerberosPrincipals(conf)
            && (exists node :: node in conf.nodes && DNS(conf, node) == p && node.netIP == req.ip)
            && match req.auth.value.credential
               case ByToken(i) =>
                 && i < |s.claims| && s.claims[i].request == r && s.claims[i].grant < |s.grants|
                 && s.grants[s.claims[i].grant].token.subject == p && s.claims[i].at == req.auth.value.at
               case ByCert(c) =>
                 && req.header == "" && req.cert == Some(c) && c < |s.certs|
                 && s.certs[c].authority == Keygranting && s.certs[c].commonName == p
                 && s.certs[c].notBefore <= req.auth.value.at <= s.certs[c].notAfter
  {
    EveryRunIsSafe(conf, s);
    assert RequestInv(WorldOf(conf), s, r);
    DirectAccountsArePinned(conf, s.requests[r].auth.value.principal);
  }

  // How a keygranting certificate came to be: a chain of renewals under one name.
  datatype Chain = FromAdmit(cert: nat) | FromToken(cert: nat, claim: nat) | Renewed(cert: nat, earlier: Chain)

  ghost predicate Custody(s: Sys, p: string, chain: Chain) {
    && chain.cert < |s.certs|
    && var cert := s.certs[chain.cert];
    && cert.authority == Keygranting && cert.commonName == p
    && match chain
       case FromAdmit(_) => cert.origin == KeyInitAdmit
       case FromToken(_, i) =>
         && cert.origin.SignedFor? && AuthenticatedAs(s, cert.origin.request, p, ByToken(i))
         && i < |s.claims| && s.claims[i].request == cert.origin.request && s.claims[i].grant < |s.grants|
         && s.grants[s.claims[i].grant].token.subject == p
       case Renewed(_, earlier) =>
         && cert.origin.SignedFor? && AuthenticatedAs(s, cert.origin.request, p, ByCert(earlier.cert))
         && Custody(s, p, earlier)
  }

  ghost predicate AuthenticatedAs(s: Sys, r: nat, p: string, credential: Credential) {
    && r < |s.requests| && s.requests[r].auth.Some?
    && s.requests[r].auth.value.principal == p && s.requests[r].auth.value.credential == credential
  }

  lemma {:induction false} CustodyChain(w: World, s: Sys, c: nat) returns (chain: Chain)
    requires Inv(w, s) && c < |s.certs| && s.certs[c].authority == Keygranting
    ensures chain.cert == c && Custody(s, s.certs[c].commonName, chain)
    decreases s.certs[c].stamp
  {
    assert CertInv(w, s, c);
    match s.certs[c].origin
    case KeyInitAdmit => chain := FromAdmit(c);
    case SignedFor(r) =>
      assert RequestInv(w, s, r);
      match s.requests[r].auth.value.credential
      case ByToken(i) => chain := FromToken(c, i);
      case ByCert(earlier) =>
        var rest := CustodyChain(w, s, earlier);
        chain := Renewed(c, rest);
  }

  /**
   Chain of custody: every keygranting certificate named p was minted by keyinitadmit, and then p is
   the keyserver's own name, or goes back, through requests that all authenticated as p, to a claimed
   token that was granted for p or to such a minted certificate.
   */
  lemma ChainOfCustody(conf: Setup, s: Sys, c: nat)
    requires Reachable(conf, s) && c < |s.certs| && s.certs[c].authority == Keygranting
    ensures exists chain: Chain :: chain.cert == c && Custody(s, s.certs[c].commonName, chain)
    ensures s.certs[c].origin == KeyInitAdmit ==> KeyserverDNS(conf, conf.nodes) == Some(s.certs[c].commonName)
  {
    EveryRunIsSafe(conf, s);
    var chain := CustodyChain(WorldOf(conf), s, c);
    assert CertInv(WorldOf(conf), s, c);
  }

  // Where the power to make a request came from, across principals.
  datatype Lineage = Minted(cert: nat) | ViaCert(cert: nat, signer: Lineage) | ViaToken(claim: nat, granter: Lineage)

  ghost predicate Descends(s: Sys, r: nat, lineage: Lineage)
    decreases lineage
  {
    && r < |s.requests| && s.requests[r].auth.Some?
    && match s.requests[r].auth.value.credential
       case ByCert(c) =>
         && c < |s.certs|
         && (match s.certs[c].origin
             case KeyInitAdmit => lineage == Minted(c)
             case SignedFor(q) => lineage.ViaCert? && lineage.cert == c && Descends(s, q, lineage.signer))
       case ByToken(i) =>
         && lineage.ViaToken? && lineage.claim == i
         && i < |s.claims| && s.claims[i].grant < |s.grants|
         && Descends(s, s.grants[s.claims[i].grant].request, lineage.granter)
  }

  function Root(lineage: Lineage): nat {
    match lineage
    case Minted(c) => c
    case ViaCert(_, signer) => Root(signer)
    case ViaToken(_, granter) => Root(granter)
  }

  lemma {:induction false} LineageExists(w: World, s: Sys, r: nat) returns (lineage: Lineage)
    requires Inv(w, s) && r < |s.requests| && s.requests[r].auth.Some?
    ensures Descends(s, r, lineage)
    ensures Root(lineage) < |s.certs| && s.certs[Root(lineage)].origin == KeyInitAdmit
    decreases s.requests[r].auth.value.stamp
  {
    assert RequestInv(w, s, r);
    match s.requests[r].auth.value.credential
    case ByCert(c) =>
      assert CertInv(w, s, c);
      if s.certs[c].origin == KeyInitAdmit {
        lineage := Minted(c);
      } else {
        var signer := LineageExists(w, s, s.certs[c].origin.request);
        lineage := ViaCert(c, signer);
      }
    case ByToken(i) =>
      assert GrantInv(w, s, s.claims[i].grant);
      var granter := LineageExists(w, s, s.grants[s.claims[i].grant].request);
      lineage := ViaToken(i, granter);
  }

  /** All authority descends, through certificates and tokens, from certificates minted by keyinitadmit. */
  lemma AllAuthorityIsMinted(conf: Setup, s: Sys, r: nat)
    requires Reachable(conf, s) && r < |s.requests| && s.requests[r].auth.Some?
    ensures exists lineage :: && Descends(s, r, lineage)
                              && Root(lineage) < |s.certs| && s.certs[Root(lineage)].origin == KeyInitAdmit
  {
    EveryRunIsSafe(conf, s);
    var lineage := LineageExists(WorldOf(conf), s, r);
  }

  ghost predicate Untouched(s: Sys) {
    && s.certs == [] && s.grants == [] && s.claims == [] && s.byToken == map[]
    && forall r | 0 <= r < |s.requests| ::
         s.requests[r].auth.None? && (s.requests[r].pc.Arrived? || s.requests[r].pc.Ended?)
  }

  lemma UntouchedStep(w: World, s: Sys, l: Label)
    requires Untouched(s) && !l.Admit?
    ensures Untouched(Step(w, s, l))
  {
    if l.On? && l.request < |s.requests| { UntouchedAct(w, s, l.request, l.action); }
  }

  lemma UntouchedAct(w: World, s: Sys, r: nat, action: Action)
    requires Untouched(s) && r < |s.requests|
    ensures Untouched(Act(w, s, r, action))
  {
    assert s.requests[r].auth.None? && (s.requests[r].pc.Arrived? || s.requests[r].pc.Ended?);
  }

  /** Before keyinitadmit first runs, no API request is ever accepted and nothing is signed or granted. */
  lemma {:induction false} NothingBeforeAdmit(w: World, trace: seq<Sys>, labels: seq<Label>, n: nat)
    requires IsRun(w, trace, labels) && n <= |labels| && Admit !in labels[..n]
    ensures Untouched(trace[n])
  {
    if n > 0 {
      assert labels[n - 1] == labels[..n][n - 1];
      assert labels[..n - 1] == labels[..n][..n - 1];
      NothingBeforeAdmit(w, trace, labels, n - 1);
      UntouchedStep(w, trace[n - 1], labels[n - 1]);
    }
  }

  /** A token is made only by a request that authenticated as a supervisor node, for a node and for one hour. */
  lemma OnlySupervisorsGrantTokens(conf: Setup, s: Sys, g: nat)
    requires Reachable(conf, s) && g < |s.grants|
    ensures var grant := s.grants[g];
            && grant.token.subject in NodePrincipals(conf) && grant.token.expires == grant.at + HOUR
            && grant.request < |s.requests| && s.requests[grant.request].auth.Some?
            && IsSupervisor(conf, s.requests[grant.request].auth.value.principal)
  {
    EveryRunIsSafe(conf, s);
    assert GrantInv(WorldOf(conf), s, g);
  }

  // ---- The account in force ----

  ghost predicate ServingAt(s: Sys, r: nat) {
    r < |s.requests| && s.requests[r].pc.Serving?
  }

  ghost function ForceAt(s: Sys, r: nat): AccountData<GroupName>
    requires ServingAt(s, r)
  {
    s.requests[r].pc.account
  }

  // What may become of the account in force: if it changes, a supervisor has become a Kerberos principal.
  ghost predicate ForceFrom(w: World, s: Sys, s': Sys, r: nat)
    requires ServingAt(s, r)
  {
    ServingAt(s', r) ==>
      ForceAt(s', r) == ForceAt(s, r) ||
      (ForceAt(s, r).principal in w.supervisors && ForceAt(s', r).principal in w.kerberos)
  }

  lemma PerformForce(w: World, s: Sys, r: nat, ok: bool)
    requires Inv(w, s) && ServingAt(s, r)
    ensures ForceFrom(w, s, StepPerform(w, s, r, ok), r)
  {
    assert RequestInv(w, s, r);
    var Serving(account, next, phase) := s.requests[r].pc;
    var ops := s.requests[r].ops;
    if next < |ops| && ops[next].api.Some? && ops[next].api.value in account.privileges {
      InForceHolds(w, s.requests[r].auth.value.principal, account, ops[next].api.value);
    }
  }

  // No other action changes who is in force.
  lemma OtherForce(w: World, s: Sys, r: nat, action: Action)
    requires ServingAt(s, r) && !action.Perform?
    ensures ServingAt(Act(w, s, r, action), r) ==> ForceAt(Act(w, s, r, action), r) == ForceAt(s, r)
  {
  }

  lemma ElsewhereForce(w: World, s: Sys, q: nat, action: Action, r: nat)
    requires ServingAt(s, r) && q < |s.requests| && q != r
    ensures Act(w, s, q, action).requests[r] == s.requests[r] && |Act(w, s, q, action).requests| == |s.requests|
  {
  }

  lemma OneStepForce(w: World, s: Sys, l: Label, r: nat)
    requires Inv(w, s) && ServingAt(s, r)
    ensures ForceFrom(w, s, Step(w, s, l), r)
  {
    match l
    case On(q, action) =>
      if q < |s.requests| {
        if q != r { ElsewhereForce(w, s, q, action, r); }
        else if action.Perform? { PerformForce(w, s, r, action.ok); }
        else { OtherForce(w, s, r, action); }
      }
    case _ =>
  }

  lemma ForceFollows(w: World, s: Sys, s1: Sys, s2: Sys, r: nat)
    requires ValidWorld(w) && ServingAt(s, r) && ServingAt(s1, r) && ForceFrom(w, s, s1, r) && ForceFrom(w, s1, s2, r)
    ensures ForceFrom(w, s, s2, r)
  {
  }

  // Served requests end, and ended ones stay so.
  ghost predicate ServedOrEnded(s: Sys, r: nat) {
    r < |s.requests| && (s.requests[r].pc.Serving? || s.requests[r].pc.Ended?)
  }

  lemma ActStaysServedOrEnded(w: World, s: Sys, q: nat, action: Action, r: nat)
    requires ServedOrEnded(s, r) && q < |s.requests|
    ensures ServedOrEnded(Act(w, s, q, action), r)
    ensures s.requests[r].pc.Ended? ==> Act(w, s, q, action).requests[r].pc.Ended?
  {
  }

  lemma StaysServedOrEnded(w: World, s: Sys, l: Label, r: nat)
    requires ServedOrEnded(s, r)
    ensures ServedOrEnded(Step(w, s, l), r) && (s.requests[r].pc.Ended? ==> Step(w, s, l).requests[r].pc.Ended?)
  {
    if l.On? && l.request < |s.requests| { ActStaysServedOrEnded(w, s, l.request, l.action, r); }
  }

  lemma {:induction false} OncePersonated(w: World, trace: seq<Sys>, labels: seq<Label>, i: nat, j: nat, r: nat)
    requires ValidWorld(w) && IsRun(w, trace, labels) && i <= j <= |labels| && ServingAt(trace[i], r)
    ensures ServedOrEnded(trace[j], r) && ForceFrom(w, trace[i], trace[j], r)
    decreases j
  {
    if i < j {
      OncePersonated(w, trace, labels, i, j - 1, r);
      StaysServedOrEnded(w, trace[j - 1], labels[j - 1], r);
      if ServingAt(trace[j - 1], r) {
        RunKeeps(w, trace, labels, j - 1);
        OneStepForce(w, trace[j - 1], labels[j - 1], r);
        ForceFollows(w, trace[i], trace[j - 1], trace[j], r);
      }
    }
  }

  /**
   While one request is served, the account in force changes at most once, and then from the account
   of a supervisor node to a Kerberos account: at any three moments of a run, one after the other, if
   it differs between the first two it is the same at the last two.
   */
  lemma ForceChangesOnce(conf: Setup, trace: seq<Sys>, labels: seq<Label>, i: nat, j: nat, k: nat, r: nat)
    requires IsRun(WorldOf(conf), trace, labels) && i <= j <= k <= |labels|
    requires ServingAt(trace[i], r) && ServingAt(trace[j], r) && ServingAt(trace[k], r)
    ensures var a, b, c := ForceAt(trace[i], r), ForceAt(trace[j], r), ForceAt(trace[k], r);
            a != b ==> b == c && IsSupervisor(conf, a.principal) && b.principal in KerberosPrincipals(conf)
  {
    WorldIsValid(conf);
    OncePersonated(WorldOf(conf), trace, labels, i, j, r);
    OncePersonated(WorldOf(conf), trace, labels, j, k, r);
  }

  // ---- Bootstrapping works ----

  lemma RunExtends(w: World, trace: seq<Sys>, labels: seq<Label>, l: Label, next: Sys)
    requires IsRun(w, trace, labels) && next == Step(w, trace[|labels|], l)
    ensures IsRun(w, trace + [next], labels + [l])
  {
    var trace', labels' := trace + [next], labels + [l];
    forall i | 0 <= i < |labels'| ensures trace'[i + 1] == Step(w, trace'[i], labels'[i]) {
      if i < |labels| { assert trace[i + 1] == Step(w, trace[i], labels[i]); }
    }
  }

  lemma ReachableStep(conf: Setup, s: Sys, l: Label)
    requires Reachable(conf, s)
    ensures Reachable(conf, Step(WorldOf(conf), s, l))
  {
    var w := WorldOf(conf);
    var next := Step(w, s, l);
    var trace, labels :| IsRun(w, trace, labels) && trace[|labels|] == s;
    RunExtends(w, trace, labels, l, next);
    Reaches(conf, trace + [next], labels + [l], next);
  }

  lemma Reaches(conf: Setup, trace: seq<Sys>, labels: seq<Label>, s: Sys)
    requires IsRun(WorldOf(conf), trace, labels) && trace[|labels|] == s
    ensures Reachable(conf, s)
  {
  }

  lemma InitIsReachable(conf: Setup, start: int)
    ensures Reachable(conf, Init(start))
  {
    var trace, labels: seq<Label> := [Init(start)], [];
    assert IsRun(WorldOf(conf), trace, labels) && trace[|labels|] == Init(start);
  }

  // A request that is accepted with a credential, for its first operation.
  function Served(s: Sys, r: nat, account: AccountData<GroupName>, credential: Credential): Sys
    requires r < |s.requests|
  {
    s.(stamp := s.stamp + 1,
       requests := s.requests[r := s.requests[r].(auth := Some(Auth(account.principal, credential, s.stamp, s.clock)),
                                                  pc := Serving(account, 0, Ready))])
  }

  lemma AcceptServes(w: World, s: Sys, r: nat, p: string, credential: Credential)
    requires ValidWorld(w) && r < |s.requests| && p in w.table && p !in w.kerberos
    requires w.table[p].limitIP == Some(s.requests[r].ip)
    ensures Accept(w, s, r, p, credential) == Served(s, r, w.table[p], credential)
  {
  }

  // What the keyserver needs for its first token: its own name is a supervisor's, and p is a node.
  ghost predicate CanBootstrap(w: World, d: string, p: string) {
    && ValidWorld(w) && w.keyserverDNS == Some(d) && p in w.nodes
    && d in w.table && d !in w.kerberos && p in w.table && p !in w.kerberos
    && BOOTSTRAP_KEYINIT in w.table[d].privileges && w.table[d].privileges[BOOTSTRAP_KEYINIT] == Bootstrap(Nodes, HOUR)
    && RENEW_KEYGRANT in w.table[p].privileges && w.table[p].privileges[RENEW_KEYGRANT].TLSGrant?
    && w.table[p].privileges[RENEW_KEYGRANT].tls == Keygranting
  }

  ghost function Ask(w: World, p: string, header: string, cert: Option<nat>, api: string, body: string): Label
    requires p in w.table && w.table[p].limitIP.Some?
  {
    Arrive(w.table[p].limitIP.value, header, cert, [Batch.Operation(Some(api), Some(body))])
  }

  // keyinitadmit's request is accepted.
  lemma AdmittedRequest(w: World, d: string, p: string) returns (s: Sys, labels: seq<Label>)
    requires CanBootstrap(w, d, p)
    ensures labels == [Admit, Ask(w, d, "", Some(0), BOOTSTRAP_KEYINIT, p), On(0, VerifyCert)]
    ensures s == Step(w, Step(w, Step(w, Init(0), labels[0]), labels[1]), labels[2])
    ensures s.clock == 0 && s.byToken == map[] && s.onceDone == {} && s.grants == [] && s.claims == [] && |s.certs| == 1
    ensures |s.requests| == 1 && s.requests[0].pc == Serving(w.table[d], 0, Ready)
    ensures s.requests[0].ops == [Batch.Operation(Some(BOOTSTRAP_KEYINIT), Some(p))]
  {
    var ask := Ask(w, d, "", Some(0), BOOTSTRAP_KEYINIT, p);
    labels := [Admit, ask, On(0, VerifyCert)];
    var s1 := Step(w, Init(0), Admit);
    var s2 := Step(w, s1, ask);
    assert s2.requests == [Request(ask.ip, "", Some(0), ask.ops, None, Arrived)];
    AcceptServes(w, s2, 0, d, ByCert(0));
    s := Step(w, s2, On(0, VerifyCert));
  }

  // It gets its token.
  lemma TokenGranted(w: World, d: string, p: string, id: string, s0: Sys) returns (s: Sys, labels: seq<Label>)
    requires CanBootstrap(w, d, p)
    requires s0.clock == 0 && s0.byToken == map[] && s0.onceDone == {} && s0.grants == [] && s0.claims == [] && |s0.certs| == 1
    requires |s0.requests| == 1 && s0.requests[0].pc == Serving(w.table[d], 0, Ready)
    requires s0.requests[0].ops == [Batch.Operation(Some(BOOTSTRAP_KEYINIT), Some(p))]
    ensures labels == [On(0, Sweep(_ => 0)), On(0, Generate(id)), On(0, AddToken)]
    ensures s == Step(w, Step(w, Step(w, s0, labels[0]), labels[1]), labels[2])
    ensures s.clock == 0 && s.byToken == map[id := ScopedToken(id, p, HOUR, 0)] && s.onceDone == {}
    ensures s.claims == [] && |s.certs| == 1 && |s.requests| == 1
  {
    var sweep := On(0, Sweep(_ => 0));
    labels := [sweep, On(0, Generate(id)), On(0, AddToken)];
    var s1 := Step(w, s0, sweep);
    assert s1.requests[0].pc == Serving(w.table[d], 0, Swept(p, HOUR)) && s1.byToken == map[];
    var s2 := Step(w, s1, On(0, Generate(id)));
    assert s2.requests[0].pc == Serving(w.table[d], 0, Generated(0));
    assert s2.grants[0].token == ScopedToken(id, p, HOUR, 0);
    s := Step(w, s2, On(0, AddToken));
  }

  // The node uses it.
  lemma TokenUsed(w: World, d: string, p: string, id: string, csr: string, s0: Sys) returns (s: Sys, labels: seq<Label>)
    requires CanBootstrap(w, d, p) && id != ""
    requires s0.clock == 0 && s0.byToken == map[id := ScopedToken(id, p, HOUR, 0)] && s0.onceDone == {}
    requires s0.claims == [] && |s0.certs| == 1 && |s0.requests| == 1
    ensures labels == [Ask(w, p, id, None, RENEW_KEYGRANT, csr), On(1, Lookup), On(1, Check), On(1, ClaimOnce)]
    ensures s == Step(w, Step(w, Step(w, Step(w, s0, labels[0]), labels[1]), labels[2]), labels[3])
    ensures |s.certs| == 1 && |s.requests| == 2 && s.requests[1].pc == Serving(w.table[p], 0, Ready)
    ensures s.requests[1].ops == [Batch.Operation(Some(RENEW_KEYGRANT), Some(csr))]
    ensures AuthenticatedAs(s, 1, p, ByToken(0))
  {
    var ask := Ask(w, p, id, None, RENEW_KEYGRANT, csr);
    labels := [ask, On(1, Lookup), On(1, Check), On(1, ClaimOnce)];
    var token := ScopedToken(id, p, HOUR, 0);
    var s1 := Step(w, s0, ask);
    assert s1.requests[1] == Request(ask.ip, id, None, ask.ops, None, Arrived);
    var s2 := Step(w, s1, On(1, Lookup));
    assert s2.requests[1].pc == Found(token);
    var s3 := Step(w, s2, On(1, Check));
    assert s3.requests[1].pc == Checked(token, 0);
    var claimed := s3.(onceDone := {0}, claims := [ClaimEvent(0, 1, 0, 0)]);
    AcceptServes(w, claimed, 1, p, ByToken(0));
    s := Step(w, s3, On(1, ClaimOnce));
    assert s == Served(claimed, 1, w.table[p], ByToken(0));
  }

  lemma SupervisorsCanBootstrap(conf: Setup, d: string, p: string)
    requires KeyserverDNS(conf, conf.nodes) == Some(d) && IsSupervisor(conf, d)
    requires p in NodePrincipals(conf) && p !in KerberosPrincipals(conf)
    ensures CanBootstrap(WorldOf(conf), d, p)
  {
    WorldIsValid(conf);
    AccountKinds(conf, p);
    var supervisor :| IsNodeAccount(conf, AccountTable(conf)[d], supervisor) && supervisor.kind == Supervisor;
    var node :| IsNodeAccount(conf, AccountTable(conf)[p], node);
    BootstrapGrant(conf, supervisor);
    RenewalGrant(conf, node);
  }

  lemma BootstrapGrant(conf: Setup, node: Node)
    requires node.kind == Supervisor
    ensures var privileges := NodePrivileges(conf, node, KerberosAccounts, Nodes);
            BOOTSTRAP_KEYINIT in privileges && privileges[BOOTSTRAP_KEYINIT] == Bootstrap(Nodes, HOUR)
  {
    GrantTable.NodeHas(conf, node, BOOTSTRAP_KEYINIT, Bootstrap(Nodes, HOUR));
  }

  lemma RenewalGrant(conf: Setup, node: Node)
    ensures var privileges := NodePrivileges(conf, node, KerberosAccounts, Nodes);
            RENEW_KEYGRANT in privileges && privileges[RENEW_KEYGRANT].TLSGrant? && privileges[RENEW_KEYGRANT].tls == Keygranting
  {
    GrantTable.NodeHas(conf, node, RENEW_KEYGRANT, TLSGrant(Keygranting, false, 40 * ONE_DAY, DNS(conf, node), [], []));
  }

  /**
   The other side of the coin: if the keyserver's own name is that of a supervisor, then for every node there is
   a run in which it bootstraps, with any token string, and gets a keygranting certificate of its own name.
   */
  lemma EveryNodeCanBootstrap(conf: Setup, d: string, p: string, id: string, csr: string)
    requires KeyserverDNS(conf, conf.nodes) == Some(d) && IsSupervisor(conf, d) && id != ""
    requires p in NodePrincipals(conf) && p !in KerberosPrincipals(conf)
    ensures exists s :: Reachable(conf, s) && HasBootstrapped(s, p)
  {
    var w := WorldOf(conf);
    SupervisorsCanBootstrap(conf, d, p);
    InitIsReachable(conf, 0);
    var s1, first := AdmittedRequest(w, d, p);
    ThreeSteps(conf, Init(0), first[0], first[1], first[2]);
    var s2, second := TokenGranted(w, d, p, id, s1);
    ThreeSteps(conf, s1, second[0], second[1], second[2]);
    var s3, third := TokenUsed(w, d, p, id, csr, s2);
    ThreeSteps(conf, s2, third[0], third[1], third[2]);
    ReachableStep(conf, Step(w, Step(w, Step(w, s2, third[0]), third[1]), third[2]), third[3]);
    ReachableStep(conf, s3, On(1, Perform(true)));
    CertificateSigned(w, d, p, csr, s3);
  }

  lemma ThreeSteps(conf: Setup, s: Sys, a: Label, b: Label, c: Label)
    requires Reachable(conf, s)
    ensures var w := WorldOf(conf); Reachable(conf, Step(w, Step(w, Step(w, s, a), b), c))
  {
    var w := WorldOf(conf);
    ReachableStep(conf, s, a);
    ReachableStep(conf, Step(w, s, a), b);
    ReachableStep(conf, Step(w, Step(w, s, a), b), c);
  }

  // A certificate for p, signed in a request that a token has authenticated as p.
  ghost predicate HasBootstrapped(s: Sys, p: string) {
    && |s.certs| == 2 && s.certs[1].authority == Keygranting && s.certs[1].commonName == p
    && s.certs[1].origin == SignedFor(1) && AuthenticatedAs(s, 1, p, ByToken(0))
  }

  // And its certificate.
  lemma CertificateSigned(w: World, d: string, p: string, csr: string, s: Sys)
    requires CanBootstrap(w, d, p) && |s.certs| == 1 && |s.requests| == 2
    requires s.requests[1].pc == Serving(w.table[p], 0, Ready) && AuthenticatedAs(s, 1, p, ByToken(0))
    requires s.requests[1].ops == [Batch.Operation(Some(RENEW_KEYGRANT), Some(csr))]
    ensures HasBootstrapped(Step(w, s, On(1, Perform(true))), p)
  {
  }
}

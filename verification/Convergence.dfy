/**
 The keyclient goes quiet: within any window of a day, only boundedly many cycles do anything,
 whatever fails in them.
 */
module Convergence {
  import opened Accounts
  import opened Keyclient

  predicate Stale(s: State, path: Path, refresh: int, t: int) {
    path in s.files ==> t - s.files[path].mtime > refresh
  }

  predicate Due(s: State, path: Path, inAdvance: int, t: int) {
    path !in s.files || !s.files[path].content.Cert? || s.files[path].content.notAfter - inAdvance <= t
  }

  predicate Misnamed(s: State, path: Path) {
    path in s.files && HostNode(s.files[path].content).Some? && HostNode(s.files[path].content).value != s.hostname
  }

  function One(b: bool): nat {
    if b then 1 else 0
  }

  // What an action may still have to do up to time t.  Reading a new local.conf may call for one
  // more change of the host name.
  function Todo(a: Action, s: State, t: int): nat {
    match a
    case GenerateKey(path) => One(path !in s.files)
    case Bootstrap(_) => One(s.keygrant.None?)
    case Download(_, path, refresh) => One(Stale(s, path, refresh, t))
    case ReloadHostname(path) => One(Stale(s, path, ONE_DAY, t)) + One(Misnamed(s, path))
    case RequestOrRenew(service, _, inAdvance) => One(Due(s, CertPath(service), inAdvance, t))
  }

  function Measure(actions: seq<Action>, s: State, t: int): nat {
    if actions == [] then 0 else Todo(actions[0], s, t) + Measure(actions[1..], s, t)
  }

  // Everything in the action happens in the window, and what the server signs outlasts it.
  predicate Within(a: Action, env: Env, from: int, to: int) {
    && from <= env.now <= env.later <= to
    && (env.answer.Success? && !IsEmpty(env.answer.value) ==>
          match a
          case RequestOrRenew(_, _, inAdvance) =>
            env.answer.value.Cert? && env.answer.value.notAfter - inAdvance > to
          case Bootstrap(_) => env.answer.value.Cert? && env.answer.value.notAfter - InAdvance(Granting) > to
          case _ => true)
  }

  // No action undoes the work of another.
  predicate Compatible(actions: seq<Action>) {
    forall i | 0 <= i < |actions| :: Admissible(actions[i])
  }

  predicate Admissible(a: Action) {
    match a
    case GenerateKey(path) => path.KeyPath?
    case Bootstrap(_) => true
    case Download(_, path, refresh) =>
      !path.KeyPath? && !path.CertPath? && path != BootstrapTokenPath &&
      refresh >= ONE_DAY && (path == LocalConfPath ==> refresh == ONE_DAY)
    case ReloadHostname(path) => path == LocalConfPath
    case RequestOrRenew(service, _, inAdvance) => inAdvance == InAdvance(service)
  }

  lemma {:induction false} RenewalsAreCompatible(services: seq<(Service, string)>)
    ensures Compatible(Renewals(services)) && |Renewals(services)| <= 2 * |services|
    ensures forall a | a in Renewals(services) :: !a.ReloadHostname?
  {
    if services != [] { RenewalsAreCompatible(services[1..]); }
  }

  lemma ActionsAreCompatible()
    ensures Compatible(ACTIONS)
  {
    assert Compatible(FIRST_ACTIONS);
    RenewalsAreCompatible(SERVICES);
  }

  // All that a download can change.
  lemma DownloadTouches(s: State, source: Source, path: Path, refresh: int, env: Env)
    ensures var s' := DoDownload(s, source, path, refresh, env);
            && s'.keygrant == s.keygrant && s'.hostname == s.hostname
            && (s'.files == s.files ||
                (env.answer.Success? && s'.files == s.files[path := File(env.later, env.answer.value)]))
  {
  }

  lemma FreshFileRaisesNothing(b: Action, s: State, s': State, path: Path, refresh: int, content: Content, at: int, to: int)
    requires Admissible(Download(ClusterConf, path, refresh)) && Admissible(b) && to - at <= ONE_DAY
    requires s'.keygrant == s.keygrant && s'.hostname == s.hostname && s'.files == s.files[path := File(at, content)]
    requires Stale(s, path, refresh, to) || path != LocalConfPath
    ensures Todo(b, s', to) <= Todo(b, s, to)
  {
  }

  lemma DownloadRaisesNothing(a: Action, b: Action, s: State, env: Env, from: int, to: int)
    requires a.Download? && Admissible(a) && Admissible(b) && Within(a, env, from, to) && to - from <= ONE_DAY
    ensures Todo(b, Do(s, a, env), to) <= Todo(b, s, to)
  {
    DownloadTouches(s, a.source, a.path, a.refresh, env);
    var s' := Do(s, a, env);
    if s'.files != s.files {
      FreshFileRaisesNothing(b, s, s', a.path, a.refresh, env.answer.value, env.later, to);
    }
  }

  lemma RenewalRaisesNothing(a: Action, b: Action, s: State, env: Env, from: int, to: int)
    requires a.RequestOrRenew? && Admissible(a) && Admissible(b) && Within(a, env, from, to) && to - from <= ONE_DAY
    ensures Todo(b, Do(s, a, env), to) <= Todo(b, s, to)
  {
  }

  /** A step leaves no action with more to do, not even when it fails half-way. */
  lemma StepRaisesNothing(a: Action, b: Action, s: State, env: Env, from: int, to: int)
    requires Admissible(a) && Admissible(b) && Within(a, env, from, to) && to - from <= ONE_DAY
    ensures Todo(b, Do(s, a, env), to) <= Todo(b, s, to)
  {
    match a
    case Download(_, _, _) => DownloadRaisesNothing(a, b, s, env, from, to);
    case RequestOrRenew(_, _, _) => RenewalRaisesNothing(a, b, s, env, from, to);
    case _ =>
  }

  // A certificate file that is there but cannot be read is renewed whether or not it is due.
  predicate Misread(a: Action, env: Env) {
    a.RequestOrRenew? && !env.readOk
  }

  /**
   A step that reports having performed something leaves itself with less to do, except exactly when
   it has replaced a certificate that it could not read and that was not due.
   */
  lemma PerformingIsProgress(a: Action, s: State, env: Env, from: int, to: int)
    requires Admissible(a) && Within(a, env, from, to) && to - from <= ONE_DAY
    requires Do(s, a, env).performed && !s.performed
    ensures Todo(a, Do(s, a, env), to) < Todo(a, s, to) <==>
            !(Misread(a, env) && !Due(s, CertPath(a.service), a.inAdvance, to))
  {
  }

  /** With such a file, a working server and a working disk, no cycle is ever quiet. */
  lemma MisreadIsNeverQuiet(s: State, service: Service, api: string, env: Env)
    requires !env.readOk && env.csrOk && env.writeOk && env.loadOk
    requires env.answer.Success? && env.answer.value.Cert?
    requires s.keygrant.Some? && KeyPath(service) in s.files && CanRetry(s, api, env.now)
    ensures Do(s, RequestOrRenew(service, api, InAdvance(service)), env).performed
  {
  }

  lemma {:induction false} MeasureRaisesNothing(actions: seq<Action>, a: Action, s: State, env: Env, from: int, to: int)
    requires Admissible(a) && Compatible(actions) && Within(a, env, from, to) && to - from <= ONE_DAY
    ensures Measure(actions, Do(s, a, env), to) <= Measure(actions, s, to)
    ensures a in actions && Do(s, a, env).performed && !s.performed && !Misread(a, env) ==>
              Measure(actions, Do(s, a, env), to) < Measure(actions, s, to)
  {
    if actions != [] {
      StepRaisesNothing(a, actions[0], s, env, from, to);
      if actions[0] == a && Do(s, a, env).performed && !s.performed { PerformingIsProgress(a, s, env, from, to); }
      MeasureRaisesNothing(actions[1..], a, s, env, from, to);
    }
  }

  predicate CycleWithin(envs: seq<Env>, from: int, to: int) {
    |envs| == |ACTIONS| && forall i | 0 <= i < |ACTIONS| :: Within(ACTIONS[i], envs[i], from, to)
  }

  predicate CycleMisreads(envs: seq<Env>)
    requires |envs| == |ACTIONS|
  {
    exists i :: 0 <= i < |ACTIONS| && Misread(ACTIONS[i], envs[i])
  }

  lemma {:induction false} PrefixProgress(s: State, envs: seq<Env>, n: nat, from: int, to: int)
    requires CycleWithin(envs, from, to) && to - from <= ONE_DAY && n <= |ACTIONS| && !s.performed
    ensures var s' := DoUpTo(s, ACTIONS, envs, n);
            && Measure(ACTIONS, s', to) <= Measure(ACTIONS, s, to)
            && (s'.performed && !CycleMisreads(envs) ==> Measure(ACTIONS, s', to) < Measure(ACTIONS, s, to))
  {
    if n > 0 {
      PrefixProgress(s, envs, n - 1, from, to);
      ActionsAreCompatible();
      var before := DoUpTo(s, ACTIONS, envs, n - 1);
      MeasureRaisesNothing(ACTIONS, ACTIONS[n - 1], before, envs[n - 1], from, to);
    }
  }

  lemma {:induction false} MeasureIgnoresReport(actions: seq<Action>, s: State, s': State, t: int)
    requires s' == s.(performed := s'.performed, blocked := s'.blocked)
    ensures Measure(actions, s', t) == Measure(actions, s, t)
  {
    if actions != [] {
      assert Todo(actions[0], s', t) == Todo(actions[0], s, t);
      MeasureIgnoresReport(actions[1..], s, s', t);
    }
  }

  /** A cycle never raises the measure, and lowers it whenever it performs anything without misreading. */
  lemma CycleProgress(s: State, envs: seq<Env>, from: int, to: int)
    requires CycleWithin(envs, from, to) && to - from <= ONE_DAY
    ensures Measure(ACTIONS, Cycle(s, envs), to) <= Measure(ACTIONS, s, to)
    ensures Cycle(s, envs).performed && !CycleMisreads(envs) ==>
              Measure(ACTIONS, Cycle(s, envs), to) < Measure(ACTIONS, s, to)
  {
    MeasureIgnoresReport(ACTIONS, s, s.(performed := false, blocked := 0), to);
    PrefixProgress(s.(performed := false, blocked := 0), envs, |ACTIONS|, from, to);
  }

  // ---- Runs ----

  predicate WellFormed(cycles: seq<seq<Env>>) {
    forall i | 0 <= i < |cycles| :: |cycles[i]| == |ACTIONS|
  }

  // The state before cycle number n.
  function Before(s: State, cycles: seq<seq<Env>>, n: nat): State
    requires n <= |cycles| && WellFormed(cycles)
  {
    if n == 0 then s else Cycle(Before(s, cycles, n - 1), cycles[n - 1])
  }

  // How many of the first n cycles performed something.
  function Busy(s: State, cycles: seq<seq<Env>>, n: nat): nat
    requires n <= |cycles| && WellFormed(cycles)
  {
    if n == 0 then 0 else Busy(s, cycles, n - 1) + One(Before(s, cycles, n).performed)
  }

  function Misreads(cycles: seq<seq<Env>>, n: nat): nat
    requires n <= |cycles| && WellFormed(cycles)
  {
    if n == 0 then 0 else Misreads(cycles, n - 1) + One(CycleMisreads(cycles[n - 1]))
  }

  lemma {:induction false} BusyIsPaidFor(s: State, cycles: seq<seq<Env>>, n: nat, from: int, to: int)
    requires n <= |cycles| && to - from <= ONE_DAY
    requires WellFormed(cycles) && forall i | 0 <= i < |cycles| :: CycleWithin(cycles[i], from, to)
    ensures Busy(s, cycles, n) + Measure(ACTIONS, Before(s, cycles, n), to) <= Measure(ACTIONS, s, to) + Misreads(cycles, n)
  {
    if n > 0 {
      BusyIsPaidFor(s, cycles, n - 1, from, to);
      CycleProgress(Before(s, cycles, n - 1), cycles[n - 1], from, to);
    }
  }

  const MOST := 35

  lemma TodoBound(a: Action, s: State, t: int)
    ensures Todo(a, s, t) <= if a.ReloadHostname? then 2 else 1
  {
  }

  lemma {:induction false} MeasureBound(actions: seq<Action>, s: State, t: int)
    ensures Measure(actions, s, t) <= 2 * |actions|
    ensures (forall a | a in actions :: !a.ReloadHostname?) ==> Measure(actions, s, t) <= |actions|
  {
    if actions != [] {
      TodoBound(actions[0], s, t);
      MeasureBound(actions[1..], s, t);
    }
  }

  lemma {:induction false} MeasureAppend(a: seq<Action>, b: seq<Action>, s: State, t: int)
    ensures Measure(a + b, s, t) == Measure(a, s, t) + Measure(b, s, t)
  {
    if a == [] {
      assert a + b == b;
    } else {
      MeasureAppend(a[1..], b, s, t);
      assert (a + b)[1..] == a[1..] + b;
    }
  }

  // Twelve first actions, one of which may count twice, and two for each of the eleven services.
  lemma MeasureOfActions(s: State, t: int)
    ensures Measure(ACTIONS, s, t) <= MOST
  {
    RenewalsAreCompatible(SERVICES);
    MeasureBound(Renewals(SERVICES), s, t);
    MeasureAppend(FIRST_ACTIONS, Renewals(SERVICES), s, t);
    var before, after := FIRST_ACTIONS[..7], FIRST_ACTIONS[8..];
    assert FIRST_ACTIONS == before + ([FIRST_ACTIONS[7]] + after);
    MeasureAppend(before, [FIRST_ACTIONS[7]] + after, s, t);
    MeasureAppend([FIRST_ACTIONS[7]], after, s, t);
    MeasureBound(before, s, t);
    MeasureBound([FIRST_ACTIONS[7]], s, t);
    MeasureBound(after, s, t);
  }

  /**
   In any window of a day, from any state and with any mixture of failures, at most 35 cycles perform
   anything, not counting cycles that misread a certificate; so of any 36 other cycles, one is quiet.
   */
  lemma GoesQuiet(s: State, cycles: seq<seq<Env>>, from: int, to: int)
    requires to - from <= ONE_DAY
    requires WellFormed(cycles) && forall i | 0 <= i < |cycles| :: CycleWithin(cycles[i], from, to)
    ensures Busy(s, cycles, |cycles|) <= MOST + Misreads(cycles, |cycles|)
    ensures |cycles| > MOST + Misreads(cycles, |cycles|) ==>
              exists i :: 0 < i <= |cycles| && !Before(s, cycles, i).performed
  {
    BusyIsPaidFor(s, cycles, |cycles|, from, to);
    MeasureOfActions(s, to);
    if forall i | 0 < i <= |cycles| :: Before(s, cycles, i).performed {
      AllBusy(s, cycles, |cycles|);
    }
  }

  lemma {:induction false} AllBusy(s: State, cycles: seq<seq<Env>>, n: nat)
    requires n <= |cycles| && WellFormed(cycles)
    requires forall i | 0 < i <= |cycles| :: Before(s, cycles, i).performed
    ensures Busy(s, cycles, n) == n
  {
    if n > 0 { AllBusy(s, cycles, n - 1); }
  }

  // ---- What a quiet cycle means ----

  predicate AllWorks(a: Action, env: Env) {
    && env.readOk && env.csrOk && env.removeOk && env.writeOk && env.loadOk && env.commandOk
    && env.answer.Success? && !IsEmpty(env.answer.value)
    && (a.Bootstrap? || a.RequestOrRenew? ==> env.answer.value.Cert?)
  }

  predicate BackingOff(a: Action, s: State, now: int) {
    match a
    case Bootstrap(api) => !CanRetry(s, api, now)
    case Download(API(api), _, _) => !CanRetry(s, api, now)
    case RequestOrRenew(_, api, _) => !CanRetry(s, api, now)
    case _ => false
  }

  /**
   If nothing fails, an action that neither performs nor blocks has nothing to do: it is up to date, or
   backing off, or waits for a bootstrap token, or reads a local.conf without a usable host name.
   */
  lemma QuietMeansDone(a: Action, s: State, env: Env)
    requires Admissible(a) && AllWorks(a, env) && !s.performed
    requires !Do(s, a, env).performed && Do(s, a, env).blocked == s.blocked
    ensures Do(s, a, env) == s
    ensures BackingOff(a, s, env.now) || match a
            case GenerateKey(path) => path in s.files
            case Bootstrap(_) => s.keygrant.Some? || BootstrapTokenPath !in s.files
            case Download(_, path, refresh) => !Stale(s, path, refresh, env.now)
            case ReloadHostname(path) => path in s.files && !Misnamed(s, path)
            case RequestOrRenew(service, _, inAdvance) => !Due(s, CertPath(service), inAdvance, env.now)
  {
  }

  // ---- The keyserver's lifespans are long enough ----

  function Lifespan(priv: Privilege<GroupName>): int {
    match priv
    case TLSGrant(_, _, lifespan, _, _, _) => lifespan
    case SSHGrant(_, _, lifespan, _, _) => lifespan
    case _ => 0
  }

  lemma SigningLifespans(conf: Setup, node: Node, api: string)
    requires api in NodePrivileges(conf, node, KerberosAccounts, Nodes)
    ensures var priv := NodePrivileges(conf, node, KerberosAccounts, Nodes)[api];
            && (priv.TLSGrant? || priv.SSHGrant? ==>
                  Lifespan(priv) == if api == RENEW_KEYGRANT then 40 * ONE_DAY
                                    else if api == GRANT_SSH_HOST then 60 * ONE_DAY else 30 * ONE_DAY)
            && (!priv.TLSGrant? && !priv.SSHGrant? ==>
                  api in [BOOTSTRAP_KEYINIT, AUTH_TO_KERBEROS, LOCAL_CONFIG, FETCH_SERVICEACCOUNT_KEY])
  {
    NodePrivilegeFacts(conf, node, api, NodePrivileges(conf, node, KerberosAccounts, Nodes)[api]);
  }

  lemma ServiceNames(n: nat)
    requires n < |SERVICES|
    ensures SERVICES[n].1 !in [BOOTSTRAP_KEYINIT, AUTH_TO_KERBEROS, LOCAL_CONFIG, FETCH_SERVICEACCOUNT_KEY]
    ensures SERVICES[n].0 == Granting <==> SERVICES[n].1 == RENEW_KEYGRANT
    ensures SERVICES[n].0 == SSHHostLogin <==> SERVICES[n].1 == GRANT_SSH_HOST
  {
    assert n > 0 ==> SERVICES[n].1[0] == 'g' && RENEW_KEYGRANT[0] == 'r';
    assert n != 1 ==> SERVICES[n].1[6] != 's' && GRANT_SSH_HOST[6] == 's' && GRANT_SSH_HOST[0] == 'g';
    assert SERVICES[n].1[0] == 'r' || (SERVICES[n].1[0] == 'g' && SERVICES[n].1[1] == 'r');
    assert BOOTSTRAP_KEYINIT[0] == 'b' && AUTH_TO_KERBEROS[0] == 'a' && FETCH_SERVICEACCOUNT_KEY[0] == 'f';
    assert LOCAL_CONFIG[1] == 'e' && LOCAL_CONFIG[0] == 'g';
  }

  /**
   A certificate signed in the window by any node account of the keyserver, for any API that the
   keyclient renews, satisfies Within, with the fraction of a second that the certificate cannot hold.
   */
  lemma ServerIsGenerous(conf: Setup, node: Node, n: nat, signedAt: int, notAfter: int, from: int, to: int)
    requires n < |SERVICES| && from <= signedAt && to - from <= ONE_DAY
    requires SERVICES[n].1 in NodePrivileges(conf, node, KerberosAccounts, Nodes)
    requires notAfter > signedAt + Lifespan(NodePrivileges(conf, node, KerberosAccounts, Nodes)[SERVICES[n].1]) - SECOND
    ensures notAfter - InAdvance(SERVICES[n].0) > to
  {
    SigningLifespans(conf, node, SERVICES[n].1);
    ServiceNames(n);
  }
}

/**
 No certificate lapses: how often the keyclient may fail before a certificate, or the Keygrant in
 memory that all renewals authenticate with, runs out.
 */
module Renewal {
  import opened Wrappers
  import opened Accounts
  import opened Keyclient
  import opened Convergence

  // One cycle: ConvergeState starts and ends, and what each of its actions met.
  datatype Timed = Timed(start: int, end: int, envs: seq<Env>)

  // Cycles start at most period apart and last at most duration; a renewal fails in at most
  // tolerated cycles in a row; the server signs for lifespan(service).
  datatype Bounds = Bounds(period: int, duration: int, tolerated: nat, lifespan: Service -> int)

  ghost predicate Adequate(b: Bounds) {
    && 0 <= b.duration && 0 <= b.period
    && forall service: Service ::
         && (b.tolerated + 1) * b.period + b.duration <= InAdvance(service)
         && b.lifespan(service) > InAdvance(service) + SECOND
  }

  function Begin(s: State): State {
    s.(performed := false, blocked := 0)
  }

  // The state in which action number j of a cycle runs.
  function At(s: State, c: Timed, j: nat): State
    requires |c.envs| == |ACTIONS| && j <= |ACTIONS|
  {
    DoUpTo(Begin(s), ACTIONS, c.envs, j)
  }

  function AfterCycles(s: State, cycles: seq<Timed>, n: nat): State
    requires n <= |cycles| && Shaped(cycles)
  {
    if n == 0 then s else Cycle(AfterCycles(s, cycles, n - 1), cycles[n - 1].envs)
  }

  predicate Shaped(cycles: seq<Timed>) {
    forall i | 0 <= i < |cycles| :: |cycles[i].envs| == |ACTIONS|
  }

  predicate OnTime(b: Bounds, cycles: seq<Timed>) {
    && Shaped(cycles)
    && (forall i | 0 <= i < |cycles| ::
          && cycles[i].start <= cycles[i].end <= cycles[i].start + b.duration
          && forall j | 0 <= j < |ACTIONS| ::
               cycles[i].start <= cycles[i].envs[j].now <= cycles[i].envs[j].later <= cycles[i].end)
    && forall i | 0 < i < |cycles| ::
         cycles[i - 1].end <= cycles[i].start <= cycles[i - 1].start + b.period
  }

  // The server accepts a certificate only while it is valid, and signs for the agreed time, less a
  // fraction of a second.
  predicate HonestStep(b: Bounds, s: State, a: Action, env: Env) {
    a.RequestOrRenew? && env.answer.Success? && !IsEmpty(env.answer.value) ==>
      && (s.keygrant.Some? ==> s.keygrant.value >= env.now)
      && env.answer.value.Cert? && env.answer.value.notAfter > env.now + b.lifespan(a.service) - SECOND
  }

  predicate Honest(b: Bounds, s: State, c: Timed)
    requires |c.envs| == |ACTIONS|
  {
    forall j | 0 <= j < |ACTIONS| :: HonestStep(b, At(s, c, j), ACTIONS[j], c.envs[j])
  }

  // The certificate is to be renewed, and something other than an expired Keygrant prevents it.
  predicate Stumbles(s: State, a: Action, env: Env)
    requires a.RequestOrRenew?
  {
    && ShouldRegenerate(s, CertPath(a.service), a.inAdvance, env)
    && (|| !env.csrOk || !env.writeOk
        || (s.keygrant.Some? && s.keygrant.value >= env.later && (env.answer.Failure? || IsEmpty(env.answer.value))))
  }

  // In how many cycles in a row, up to cycle i, action j has stumbled.
  function Streak(s: State, cycles: seq<Timed>, j: nat, i: nat): nat
    requires Shaped(cycles) && j < |ACTIONS| && ACTIONS[j].RequestOrRenew? && i <= |cycles|
  {
    if i == 0 then 0
    else if Stumbles(At(AfterCycles(s, cycles, i - 1), cycles[i - 1], j), ACTIONS[j], cycles[i - 1].envs[j])
    then Streak(s, cycles, j, i - 1) + 1
    else 0
  }

  ghost predicate Tolerable(b: Bounds, s: State, cycles: seq<Timed>)
    requires Shaped(cycles)
  {
    forall i, j | 0 <= i <= |cycles| && 0 <= j < |ACTIONS| && ACTIONS[j].RequestOrRenew? ::
      Streak(s, cycles, j, i) <= b.tolerated
  }

  // The granting certificate has been replaced on disk, but loading it has failed.
  predicate MissesReload(s: State, a: Action, env: Env) {
    a.RequestOrRenew? && a.service == Granting && Requests(s, a, env) && !env.loadOk
  }

  // The action writes a new certificate.
  predicate Requests(s: State, a: Action, env: Env)
    requires a.RequestOrRenew?
  {
    && CanRetry(s, a.api, env.now) && ShouldRegenerate(s, CertPath(a.service), a.inAdvance, env)
    && s.keygrant.Some? && KeyPath(a.service) in s.files && env.csrOk && env.writeOk
    && env.answer.Success? && !IsEmpty(env.answer.value)
  }

  predicate CycleMisses(s: State, c: Timed)
    requires |c.envs| == |ACTIONS|
  {
    exists j :: 0 <= j < |ACTIONS| && MissesReload(At(s, c, j), ACTIONS[j], c.envs[j])
  }

  // ---- Invariants ----

  predicate Holds(s: State, service: Service) {
    CertPath(service) in s.files && s.files[CertPath(service)].content.Cert?
  }

  function Expiry(s: State, service: Service): int
    requires Holds(s, service)
  {
    s.files[CertPath(service)].content.notAfter
  }

  predicate InSync(s: State) {
    Holds(s, Granting) && s.keygrant == Some(Expiry(s, Granting))
  }

  // Nothing that a renewal needs is missing: keys of issued certificates, and no back-off.
  predicate Equipped(s: State, t: int) {
    && s.keygrant.Some? && Holds(s, Granting)
    && (forall service | Holds(s, service) :: KeyPath(service) in s.files)
    && (forall n | 0 <= n < |SERVICES| :: SERVICES[n].1 in s.retryAt ==> t > s.retryAt[SERVICES[n].1])
  }

  lemma {:induction false} RenewalsHaveNames(services: seq<(Service, string)>, a: Action)
    requires a in Renewals(services)
    ensures a.RequestOrRenew? ==> (a.service, a.api) in services && a.inAdvance == InAdvance(a.service)
    ensures a.GenerateKey? || a.RequestOrRenew?
  {
    if services != [] && a !in Renewal(services[0].0, services[0].1) {
      RenewalsHaveNames(services[1..], a);
    }
  }

  // What ACTIONS[j] can be.
  lemma ActionFacts(j: nat)
    requires j < |ACTIONS|
    ensures Admissible(ACTIONS[j])
    ensures ACTIONS[j].RequestOrRenew? ==>
              exists n :: 0 <= n < |SERVICES| && SERVICES[n] == (ACTIONS[j].service, ACTIONS[j].api)
    ensures ACTIONS[j].Download? && ACTIONS[j].source.API? ==>
              forall n | 0 <= n < |SERVICES| :: SERVICES[n].1 != ACTIONS[j].source.api
  {
    ActionsAreCompatible();
    if j >= |FIRST_ACTIONS| {
      assert ACTIONS[j] in Renewals(SERVICES);
      RenewalsHaveNames(SERVICES, ACTIONS[j]);
    } else {
      forall n | 0 <= n < |SERVICES|
        ensures ACTIONS[j].Download? && ACTIONS[j].source.API? ==> SERVICES[n].1 != ACTIONS[j].source.api
      {
        ServiceNames(n);
        assert ACTIONS[j] == FIRST_ACTIONS[j];
      }
    }
  }

  // What a step can touch once there is a Keygrant.
  predicate TouchesLittle(s: State, a: Action, env: Env, s': State) {
    && s'.keygrant.Some?
    && (s'.keygrant != s.keygrant ==> a.RequestOrRenew? && a.service == Granting)
    && (forall p | p in s.files && p.KeyPath? :: p in s'.files)
    && (forall p | p in s.files + s'.files && p.CertPath? ::
          (a.RequestOrRenew? && p == CertPath(a.service)) ||
          (p in s.files && p in s'.files && s'.files[p] == s.files[p]))
    && (s'.retryAt != s.retryAt ==>
          a.Download? && a.source.API? && s'.retryAt == s.retryAt[a.source.api := env.later + RETRY_AFTER])
  }

  lemma DownloadTouches(s: State, a: Action, env: Env)
    requires a.Download? && Admissible(a) && s.keygrant.Some?
    ensures TouchesLittle(s, a, env, DoDownload(s, a.source, a.path, a.refresh, env))
  {
  }

  lemma RenewalTouches(s: State, a: Action, env: Env)
    requires a.RequestOrRenew? && s.keygrant.Some?
    ensures TouchesLittle(s, a, env, DoRequestOrRenew(s, a.service, a.api, a.inAdvance, env))
  {
  }

  lemma StepTouches(s: State, a: Action, env: Env)
    requires Admissible(a) && s.keygrant.Some?
    ensures TouchesLittle(s, a, env, Do(s, a, env))
  {
    match a
    case Download(_, _, _) => DownloadTouches(s, a, env);
    case RequestOrRenew(_, _, _) => RenewalTouches(s, a, env);
    case _ =>
  }

  // What a renewal does to its own certificate, and to the Keygrant.
  lemma RenewalWrites(s: State, a: Action, env: Env)
    requires a.RequestOrRenew? && s.keygrant.Some?
    ensures var s' := Do(s, a, env);
            if !Requests(s, a, env) then s'.files == s.files && s'.keygrant == s.keygrant
            else
              && CertPath(a.service) in s'.files
              && s'.files[CertPath(a.service)].content == env.answer.value
              && KeyPath(a.service) in s.files
              && (a.service == Granting && env.answer.value.Cert? ==>
                    s'.keygrant == if env.loadOk then Some(env.answer.value.notAfter) else s.keygrant)
  {
  }

  lemma EquippedStep(s: State, a: Action, env: Env, t: int)
    requires Admissible(a) && Equipped(s, t)
    requires a.Download? && a.source.API? ==> forall n | 0 <= n < |SERVICES| :: SERVICES[n].1 != a.source.api
    requires a.RequestOrRenew? && env.answer.Success? && !IsEmpty(env.answer.value) ==> env.answer.value.Cert?
    ensures Equipped(Do(s, a, env), t)
    ensures forall service | Holds(s, service) :: Holds(Do(s, a, env), service)
  {
    StepTouches(s, a, env);
    var s' := Do(s, a, env);
    if a.RequestOrRenew? { RenewalWrites(s, a, env); }
    forall service ensures (Holds(s, service) ==> Holds(s', service)) &&
                           (Holds(s', service) ==> KeyPath(service) in s'.files) {
      if a.RequestOrRenew? && a.service == service {
      } else {
        assert Holds(s', service) <==> Holds(s, service);
      }
    }
  }

  // ---- Within one cycle ----

  predicate TimedCycle(c: Timed) {
    && |c.envs| == |ACTIONS| && c.start <= c.end
    && forall j | 0 <= j < |ACTIONS| :: c.start <= c.envs[j].now <= c.envs[j].later <= c.end
  }

  // In the course of cycle c, which began in s0: each certificate is the one that was there or a new one.
  ghost predicate Kept(b: Bounds, c: Timed, s0: State, s: State) {
    && InSync(s) && Equipped(s, c.start)
    && forall service | Holds(s, service) ::
         || (Holds(s0, service) && Expiry(s, service) == Expiry(s0, service))
         || Expiry(s, service) > c.start + b.lifespan(service) - SECOND
  }

  // All certificates outlast the cycle.
  predicate Lasts(s: State, c: Timed) {
    forall service | Holds(s, service) :: Expiry(s, service) >= c.end
  }

  lemma KeptLasts(b: Bounds, c: Timed, s0: State, s: State)
    requires Adequate(b) && c.end <= c.start + b.duration && Lasts(s0, c) && Kept(b, c, s0, s)
    ensures Lasts(s, c) && s.keygrant.value >= c.end
  {
    forall service | Holds(s, service) ensures Expiry(s, service) >= c.end {
      assert (b.tolerated + 1) * b.period >= 0;
    }
  }

  // An action of the list, with an environment of the cycle.
  predicate Proper(c: Timed, a: Action, env: Env) {
    && Admissible(a) && c.start <= env.now <= env.later <= c.end
    && (a.Download? && a.source.API? ==> forall n | 0 <= n < |SERVICES| :: SERVICES[n].1 != a.source.api)
    && (a.RequestOrRenew? ==> exists n :: 0 <= n < |SERVICES| && SERVICES[n] == (a.service, a.api))
  }

  lemma StepKeeps(b: Bounds, c: Timed, s0: State, s: State, a: Action, env: Env)
    requires Proper(c, a, env) && Kept(b, c, s0, s)
    requires HonestStep(b, s, a, env) && !MissesReload(s, a, env)
    ensures Kept(b, c, s0, Do(s, a, env))
  {
    var s' := Do(s, a, env);
    EquippedStep(s, a, env, c.start);
    StepTouches(s, a, env);
    if a.RequestOrRenew? { RenewalWrites(s, a, env); }
    forall service | Holds(s', service)
      ensures || (Holds(s0, service) && Expiry(s', service) == Expiry(s0, service))
              || Expiry(s', service) > c.start + b.lifespan(service) - SECOND
    {
      if a.RequestOrRenew? && a.service == service {
      } else {
        assert Holds(s, service) && Expiry(s', service) == Expiry(s, service);
      }
    }
  }

  // Everything that is true of the actions of one cycle, for any list of actions.
  predicate Fair(b: Bounds, c: Timed, s: State, actions: seq<Action>)
    requires |actions| == |c.envs|
  {
    forall j | 0 <= j < |actions| ::
      && Proper(c, actions[j], c.envs[j])
      && HonestStep(b, DoUpTo(s, actions, c.envs, j), actions[j], c.envs[j])
      && !MissesReload(DoUpTo(s, actions, c.envs, j), actions[j], c.envs[j])
  }

  lemma CycleIsFair(b: Bounds, c: Timed, s: State)
    requires TimedCycle(c) && Honest(b, s, c) && !CycleMisses(s, c)
    ensures Fair(b, c, Begin(s), ACTIONS)
  {
    forall j | 0 <= j < |ACTIONS|
      ensures Proper(c, ACTIONS[j], c.envs[j])
      ensures HonestStep(b, At(s, c, j), ACTIONS[j], c.envs[j]) && !MissesReload(At(s, c, j), ACTIONS[j], c.envs[j])
    {
      ActionFacts(j);
    }
  }

  // The cycle c, with these actions, begins in s.
  ghost predicate Going(b: Bounds, c: Timed, s: State, actions: seq<Action>) {
    && |actions| == |c.envs| && Fair(b, c, s, actions)
    && Adequate(b) && InSync(s) && Equipped(s, c.start)
  }

  lemma {:induction false} PrefixKeeps(b: Bounds, c: Timed, s: State, actions: seq<Action>, j: nat)
    requires Going(b, c, s, actions) && j <= |actions|
    ensures Kept(b, c, s, DoUpTo(s, actions, c.envs, j))
  {
    if j > 0 {
      PrefixKeeps(b, c, s, actions, j - 1);
      StepKeeps(b, c, s, DoUpTo(s, actions, c.envs, j - 1), actions[j - 1], c.envs[j - 1]);
    }
  }

  // A certificate that was not due when the cycle began.
  predicate FreshFor(s: State, service: Service, t: int) {
    Holds(s, service) ==> Expiry(s, service) - InAdvance(service) > t
  }

  /** Unless it stumbles, a renewal leaves its certificate fresh: it was, or it has been replaced. */
  lemma SteadyRenewal(b: Bounds, c: Timed, s: State, a: Action, env: Env)
    requires a.RequestOrRenew? && Proper(c, a, env) && Adequate(b)
    requires InSync(s) && Equipped(s, c.start) && s.keygrant.value >= c.end
    requires HonestStep(b, s, a, env) && !Stumbles(s, a, env)
    ensures FreshFor(Do(s, a, env), a.service, c.start)
  {
    RenewalWrites(s, a, env);
  }

  // The action, taken in s, is one of a fair cycle.
  ghost predicate Steady(b: Bounds, c: Timed, s: State, a: Action, env: Env) {
    && Proper(c, a, env) && HonestStep(b, s, a, env) && !MissesReload(s, a, env)
    && Adequate(b) && InSync(s) && Equipped(s, c.start)
  }

  lemma SteadyAt(b: Bounds, c: Timed, s: State, actions: seq<Action>, j: nat)
    requires Going(b, c, s, actions) && j < |actions|
    ensures Steady(b, c, DoUpTo(s, actions, c.envs, j), actions[j], c.envs[j])
  {
    PrefixKeeps(b, c, s, actions, j);
  }

  lemma StepStaysFresh(b: Bounds, c: Timed, s: State, a: Action, env: Env, service: Service)
    requires Steady(b, c, s, a, env) && FreshFor(s, service, c.start)
    ensures FreshFor(Do(s, a, env), service, c.start)
  {
    StepKeeps(b, c, s, s, a, env);
  }

  predicate FreshAt(c: Timed, s: State, actions: seq<Action>, service: Service, i: nat) {
    i <= |actions| == |c.envs| && FreshFor(DoUpTo(s, actions, c.envs, i), service, c.start)
  }

  lemma NextStaysFresh(b: Bounds, c: Timed, s: State, actions: seq<Action>, service: Service, k: nat)
    requires Going(b, c, s, actions) && k < |actions| && FreshAt(c, s, actions, service, k)
    ensures FreshAt(c, s, actions, service, k + 1)
  {
    var before, a, env := DoUpTo(s, actions, c.envs, k), actions[k], c.envs[k];
    SteadyAt(b, c, s, actions, k);
    assert Steady(b, c, before, a, env);
    StepStaysFresh(b, c, before, a, env, service);
  }

  lemma {:induction false} Persists(holds: nat -> bool, j: nat, k: nat)
    requires j <= k && holds(j) && forall i: nat | j <= i < k && holds(i) :: holds(i + 1)
    ensures holds(k)
    decreases k - j
  {
    if j < k { Persists(holds, j + 1, k); }
  }

  // Fresh certificates stay so until the end of the cycle.
  lemma StaysFresh(b: Bounds, c: Timed, s: State, actions: seq<Action>, service: Service, j: nat, k: nat)
    requires Going(b, c, s, actions) && j <= k <= |actions| && FreshAt(c, s, actions, service, j)
    ensures FreshAt(c, s, actions, service, k)
  {
    forall i: nat | j <= i < k && FreshAt(c, s, actions, service, i) ensures FreshAt(c, s, actions, service, i + 1) {
      NextStaysFresh(b, c, s, actions, service, i);
    }
    Persists((i: nat) => FreshAt(c, s, actions, service, i), j, k);
  }

  // ---- From cycle to cycle ----

  // At time t, with k cycles of failures behind it: the certificate was fresh when the first of them began.
  predicate Margin(b: Bounds, s: State, service: Service, k: nat, t: int) {
    Holds(s, service) ==> Expiry(s, service) - InAdvance(service) + (k + 1) * b.period > t
  }

  lemma MarginLasts(b: Bounds, s: State, service: Service, k: nat, c: Timed)
    requires Adequate(b) && Margin(b, s, service, k, c.start) && k <= b.tolerated && c.end <= c.start + b.duration
    ensures Holds(s, service) ==> Expiry(s, service) >= c.end
  {
    assert (b.tolerated + 1) * b.period == (k + 1) * b.period + (b.tolerated - k) * b.period;
    assert (b.tolerated - k) * b.period >= 0;
  }

  // A renewal that fails uses up one period of its margin; one that does not restores it.
  lemma FailureCostsAPeriod(b: Bounds, c: Timed, s: State, s': State, service: Service, k: nat, t: int)
    requires Adequate(b) && Kept(b, c, s, s') && t <= c.start + b.period && Margin(b, s, service, k, c.start)
    ensures Margin(b, s', service, k + 1, t)
  {
    assert (k + 2) * b.period == (k + 1) * b.period + b.period;
    assert (k + 1) * b.period >= 0;
  }

  lemma FreshIsMargin(b: Bounds, c: Timed, s: State, service: Service, t: int)
    requires t <= c.start + b.period && FreshFor(s, service, c.start)
    ensures Margin(b, s, service, 0, t)
  {
  }

  // At every moment of a cycle, all certificates and the Keygrant outlast it.
  ghost predicate Outlasts(s: State, c: Timed) {
    Lasts(s, c) && s.keygrant.Some? && s.keygrant.value >= c.end
  }

  lemma AllOutlast(b: Bounds, c: Timed, s: State, actions: seq<Action>, j: nat)
    requires Going(b, c, s, actions) && j <= |actions| && Lasts(s, c) && c.end <= c.start + b.duration
    ensures Outlasts(DoUpTo(s, actions, c.envs, j), c)
  {
    PrefixKeeps(b, c, s, actions, j);
    KeptLasts(b, c, s, DoUpTo(s, actions, c.envs, j));
  }

  lemma SuccessIsFresh(b: Bounds, c: Timed, s: State, actions: seq<Action>, j: nat)
    requires Going(b, c, s, actions) && j < |actions| && actions[j].RequestOrRenew?
    requires Outlasts(DoUpTo(s, actions, c.envs, j), c)
    requires !Stumbles(DoUpTo(s, actions, c.envs, j), actions[j], c.envs[j])
    ensures FreshAt(c, s, actions, actions[j].service, j + 1)
  {
    var before, a, env := DoUpTo(s, actions, c.envs, j), actions[j], c.envs[j];
    SteadyAt(b, c, s, actions, j);
    assert Steady(b, c, before, a, env);
    SteadyRenewal(b, c, before, a, env);
  }

  lemma SuccessRestores(b: Bounds, c: Timed, s: State, actions: seq<Action>, j: nat)
    requires Going(b, c, s, actions) && j < |actions| && actions[j].RequestOrRenew?
    requires Lasts(s, c) && c.end <= c.start + b.duration
    requires !Stumbles(DoUpTo(s, actions, c.envs, j), actions[j], c.envs[j])
    ensures FreshAt(c, s, actions, actions[j].service, |actions|)
  {
    AllOutlast(b, c, s, actions, j);
    SuccessIsFresh(b, c, s, actions, j);
    StaysFresh(b, c, s, actions, actions[j].service, j + 1, |actions|);
  }

  lemma {:induction false} RenewalIn(services: seq<(Service, string)>, n: nat)
    requires n < |services|
    ensures RequestOrRenew(services[n].0, services[n].1, InAdvance(services[n].0)) in Renewals(services)
  {
    if n > 0 { RenewalIn(services[1..], n - 1); }
  }

  lemma EveryServiceIsListed(service: Service) returns (n: nat)
    ensures n < |SERVICES| && SERVICES[n].0 == service
  {
    n := match service
      case Granting => 0
      case SSHHostLogin => 1
      case KubernetesWorker => 2
      case KubernetesSupervisor => 3
      case HomeworldPrivate => 4
      case KubernetesMaster => 5
      case KubernetesCtrlMgr => 6
      case KubernetesProxy => 7
      case KubernetesScheduler => 8
      case EtcdServerTLS => 9
      case EtcdClientTLS => 10;
  }

  lemma EveryServiceIsRenewed(service: Service) returns (j: nat)
    ensures j < |ACTIONS| && ACTIONS[j].RequestOrRenew? && ACTIONS[j].service == service
  {
    var n := EveryServiceIsListed(service);
    RenewalIn(SERVICES, n);
    var a := RequestOrRenew(SERVICES[n].0, SERVICES[n].1, InAdvance(SERVICES[n].0));
    assert a in ACTIONS;
    j :| 0 <= j < |ACTIONS| && ACTIONS[j] == a;
  }

  // ---- Whole runs ----

  // The cycles run on time, and no renewal fails too often.
  ghost predicate Regular(b: Bounds, s: State, cycles: seq<Timed>) {
    && Adequate(b) && OnTime(b, cycles) && Tolerable(b, s, cycles)
    && forall i | 0 <= i < |cycles| :: Honest(b, AfterCycles(s, cycles, i), cycles[i])
  }

  ghost predicate NoMissedReload(s: State, cycles: seq<Timed>)
    requires Shaped(cycles)
  {
    forall i | 0 <= i < |cycles| :: !CycleMisses(AfterCycles(s, cycles, i), cycles[i])
  }

  // What must be true of s when a cycle begins at time t, after streaks[j] failures of action j.
  ghost predicate Ready(b: Bounds, s: State, t: int, streaks: seq<nat>) {
    && InSync(s) && Equipped(s, t) && |streaks| == |ACTIONS|
    && forall j | 0 <= j < |ACTIONS| && ACTIONS[j].RequestOrRenew? :: Margin(b, s, ACTIONS[j].service, streaks[j], t)
  }

  function StreakOf(s: State, cycles: seq<Timed>, i: nat, j: nat): nat
    requires Shaped(cycles) && j < |ACTIONS| && i <= |cycles|
  {
    if ACTIONS[j].RequestOrRenew? then Streak(s, cycles, j, i) else 0
  }

  function Streaks(s: State, cycles: seq<Timed>, i: nat): seq<nat>
    requires Shaped(cycles) && i <= |cycles|
  {
    seq(|ACTIONS|, j requires 0 <= j < |ACTIONS| => StreakOf(s, cycles, i, j))
  }

  lemma ReadyLasts(b: Bounds, s: State, c: Timed, streaks: seq<nat>)
    requires Adequate(b) && Ready(b, s, c.start, streaks) && c.end <= c.start + b.duration
    requires forall j | 0 <= j < |streaks| :: streaks[j] <= b.tolerated
    ensures Lasts(s, c)
  {
    forall service | Holds(s, service) ensures Expiry(s, service) >= c.end {
      var j := EveryServiceIsRenewed(service);
      MarginLasts(b, s, service, streaks[j], c);
    }
  }

  // One cycle, from ready to ready.
  lemma MarginAfterFailure(b: Bounds, c: Timed, s: State, actions: seq<Action>, service: Service, k: nat, t: int)
    requires Going(b, c, s, actions) && t <= c.start + b.period && Margin(b, s, service, k, c.start)
    ensures Margin(b, DoUpTo(s, actions, c.envs, |actions|), service, k + 1, t)
  {
    PrefixKeeps(b, c, s, actions, |actions|);
    FailureCostsAPeriod(b, c, s, DoUpTo(s, actions, c.envs, |actions|), service, k, t);
  }

  lemma MarginAfterSuccess(b: Bounds, c: Timed, s: State, actions: seq<Action>, service: Service, t: int)
    requires |actions| == |c.envs| && FreshAt(c, s, actions, service, |actions|) && t <= c.start + b.period
    ensures Margin(b, DoUpTo(s, actions, c.envs, |actions|), service, 0, t)
  {
    FreshIsMargin(b, c, DoUpTo(s, actions, c.envs, |actions|), service, t);
  }

  lemma MarginAfter(b: Bounds, c: Timed, s: State, actions: seq<Action>, j: nat, k: nat, t: int)
    requires Going(b, c, s, actions) && Lasts(s, c) && c.end <= c.start + b.duration && t <= c.start + b.period
    requires j < |actions| && actions[j].RequestOrRenew? && Margin(b, s, actions[j].service, k, c.start)
    ensures Margin(b, DoUpTo(s, actions, c.envs, |actions|), actions[j].service,
                   if Stumbles(DoUpTo(s, actions, c.envs, j), actions[j], c.envs[j]) then k + 1 else 0, t)
  {
    if Stumbles(DoUpTo(s, actions, c.envs, j), actions[j], c.envs[j]) {
      MarginAfterFailure(b, c, s, actions, actions[j].service, k, t);
    } else {
      SuccessRestores(b, c, s, actions, j);
      MarginAfterSuccess(b, c, s, actions, actions[j].service, t);
    }
  }

  // Cycle i begins with all that it needs.
  ghost predicate ReadyAt(b: Bounds, s: State, cycles: seq<Timed>, i: nat)
    requires Shaped(cycles) && i < |cycles|
  {
    Ready(b, Begin(AfterCycles(s, cycles, i)), cycles[i].start, Streaks(s, cycles, i))
  }

  lemma ReadyIsGoing(b: Bounds, s: State, cycles: seq<Timed>, i: nat)
    requires Regular(b, s, cycles) && NoMissedReload(s, cycles) && i < |cycles|
    requires ReadyAt(b, s, cycles, i)
    ensures Going(b, cycles[i], Begin(AfterCycles(s, cycles, i)), ACTIONS)
    ensures Lasts(Begin(AfterCycles(s, cycles, i)), cycles[i])
  {
    var streaks := Streaks(s, cycles, i);
    forall j | 0 <= j < |streaks| ensures streaks[j] <= b.tolerated {
      assert streaks[j] == StreakOf(s, cycles, i, j);
    }
    ReadyLasts(b, Begin(AfterCycles(s, cycles, i)), cycles[i], streaks);
    CycleIsFair(b, cycles[i], AfterCycles(s, cycles, i));
  }

  lemma NextCycle(s: State, cycles: seq<Timed>, i: nat)
    requires Shaped(cycles) && i < |cycles|
    ensures AfterCycles(s, cycles, i + 1) ==
            DoUpTo(Begin(AfterCycles(s, cycles, i)), ACTIONS, cycles[i].envs, |ACTIONS|)
  {
  }

  lemma EndIsEquipped(b: Bounds, c: Timed, s: State, actions: seq<Action>, t: int)
    requires Going(b, c, s, actions) && t >= c.start
    ensures InSync(DoUpTo(s, actions, c.envs, |actions|)) && Equipped(DoUpTo(s, actions, c.envs, |actions|), t)
  {
    PrefixKeeps(b, c, s, actions, |actions|);
  }

  lemma EndHasMargins(b: Bounds, s: State, cycles: seq<Timed>, i: nat, j: nat)
    requires OnTime(b, cycles) && i + 1 < |cycles| && j < |ACTIONS| && ACTIONS[j].RequestOrRenew?
    requires Going(b, cycles[i], Begin(AfterCycles(s, cycles, i)), ACTIONS)
    requires Lasts(Begin(AfterCycles(s, cycles, i)), cycles[i]) && ReadyAt(b, s, cycles, i)
    ensures Margin(b, AfterCycles(s, cycles, i + 1), ACTIONS[j].service, Streaks(s, cycles, i + 1)[j], cycles[i + 1].start)
  {
    NextCycle(s, cycles, i);
    MarginAfter(b, cycles[i], Begin(AfterCycles(s, cycles, i)), ACTIONS, j, Streak(s, cycles, j, i), cycles[i + 1].start);
  }

  lemma ReadyNext(b: Bounds, s: State, cycles: seq<Timed>, i: nat)
    requires Regular(b, s, cycles) && NoMissedReload(s, cycles) && i + 1 < |cycles|
    requires ReadyAt(b, s, cycles, i)
    ensures ReadyAt(b, s, cycles, i + 1)
  {
    ReadyIsGoing(b, s, cycles, i);
    NextCycle(s, cycles, i);
    var next := AfterCycles(s, cycles, i + 1);
    EndIsEquipped(b, cycles[i], Begin(AfterCycles(s, cycles, i)), ACTIONS, cycles[i + 1].start);
    forall j | 0 <= j < |ACTIONS| && ACTIONS[j].RequestOrRenew?
      ensures Margin(b, next, ACTIONS[j].service, Streaks(s, cycles, i + 1)[j], cycles[i + 1].start)
    {
      EndHasMargins(b, s, cycles, i, j);
    }
    BeginIsReady(b, next, cycles[i + 1].start, Streaks(s, cycles, i + 1));
  }

  lemma BeginIsReady(b: Bounds, s: State, t: int, streaks: seq<nat>)
    requires Ready(b, s, t, streaks)
    ensures Ready(b, Begin(s), t, streaks)
  {
  }

  // When the first cycle starts, all certificates are fresh, or became due less than a period ago.
  ghost predicate Started(b: Bounds, s: State, t: int) {
    && InSync(s) && Equipped(s, t)
    && forall service | Holds(s, service) :: Expiry(s, service) - InAdvance(service) + b.period > t
  }

  lemma {:induction false} AlwaysReady(b: Bounds, s: State, cycles: seq<Timed>, i: nat)
    requires Regular(b, s, cycles) && NoMissedReload(s, cycles) && i < |cycles|
    requires Started(b, s, cycles[0].start)
    ensures ReadyAt(b, s, cycles, i)
  {
    if i > 0 {
      AlwaysReady(b, s, cycles, i - 1);
      ReadyNext(b, s, cycles, i - 1);
    } else {
      assert Begin(s).files == s.files && Begin(s).keygrant == s.keygrant;
      forall j | 0 <= j < |ACTIONS| && ACTIONS[j].RequestOrRenew?
        ensures Margin(b, Begin(s), ACTIONS[j].service, Streaks(s, cycles, 0)[j], cycles[0].start)
      {
        assert Streaks(s, cycles, 0)[j] == 0;
        assert Holds(Begin(s), ACTIONS[j].service) ==> Holds(s, ACTIONS[j].service);
      }
    }
  }

  // No certificate on disk runs out, nor the Keygrant, at any moment of the run.
  ghost predicate NeverLapses(s: State, cycles: seq<Timed>)
    requires Shaped(cycles)
  {
    forall i, j | 0 <= i < |cycles| && 0 <= j <= |ACTIONS| ::
      Outlasts(At(AfterCycles(s, cycles, i), cycles[i], j), cycles[i])
  }

  /**
   No certificate lapses: if cycles start at most period apart and last at most duration, no renewal fails
   more than tolerated times in a row, (tolerated + 1) * period + duration fits into the time in advance
   for which certificates are renewed, and the server's lifespans are longer than that.
   */
  lemma NoLapse(b: Bounds, s: State, cycles: seq<Timed>)
    requires Regular(b, s, cycles) && NoMissedReload(s, cycles)
    requires cycles != [] ==> Started(b, s, cycles[0].start)
    ensures NeverLapses(s, cycles)
  {
    forall i, j | 0 <= i < |cycles| && 0 <= j <= |ACTIONS|
      ensures Outlasts(At(AfterCycles(s, cycles, i), cycles[i], j), cycles[i])
    {
      AlwaysReady(b, s, cycles, i);
      ReadyIsGoing(b, s, cycles, i);
      AllOutlast(b, cycles[i], Begin(AfterCycles(s, cycles, i)), ACTIONS, j);
    }
  }

  // ---- Missed reloads ----

  // The Keygrant runs out before the certificate on disk does.
  predicate Trails(s: State) {
    Holds(s, Granting) && s.keygrant.Some? && s.keygrant.value <= Expiry(s, Granting)
  }

  // The Keygrant runs out before the certificate on disk is due.
  predicate Stuck(s: State, m: int) {
    Holds(s, Granting) && s.keygrant == Some(m) && Expiry(s, Granting) - InAdvance(Granting) > m
  }

  // The granting certificate can be read whenever the cycle looks at it.
  predicate Readable(c: Timed)
    requires |c.envs| == |ACTIONS|
  {
    forall j | 0 <= j < |ACTIONS| && ACTIONS[j].RequestOrRenew? && ACTIONS[j].service == Granting :: c.envs[j].readOk
  }

  // The keyserver's grant for the granting certificate outlasts two renewal margins.
  predicate LongLived(b: Bounds) {
    b.lifespan(Granting) > 2 * InAdvance(Granting) + SECOND
  }

  // One step of an honest run that can read the granting certificate.
  predicate ReadableStep(b: Bounds, s: State, a: Action, env: Env) {
    Admissible(a) && HonestStep(b, s, a, env) && (a.RequestOrRenew? && a.service == Granting ==> env.readOk)
  }

  lemma StepTrails(b: Bounds, s: State, a: Action, env: Env)
    requires LongLived(b) && ReadableStep(b, s, a, env) && Trails(s)
    ensures Trails(Do(s, a, env))
  {
    StepTouches(s, a, env);
    if a.RequestOrRenew? { RenewalWrites(s, a, env); }
  }

  lemma StepStaysStuck(b: Bounds, s: State, a: Action, env: Env, m: int)
    requires ReadableStep(b, s, a, env) && Stuck(s, m)
    ensures Stuck(Do(s, a, env), m)
  {
    StepTouches(s, a, env);
    if a.RequestOrRenew? { RenewalWrites(s, a, env); }
  }

  lemma MissingGetsStuck(b: Bounds, s: State, a: Action, env: Env)
    requires LongLived(b) && ReadableStep(b, s, a, env) && Trails(s) && MissesReload(s, a, env)
    ensures s.keygrant.value <= env.now + InAdvance(Granting) && Stuck(Do(s, a, env), s.keygrant.value)
  {
    RenewalWrites(s, a, env);
  }

  predicate ReadableSteps(b: Bounds, s: State, actions: seq<Action>, envs: seq<Env>) {
    && |actions| == |envs|
    && forall j | 0 <= j < |actions| :: ReadableStep(b, DoUpTo(s, actions, envs, j), actions[j], envs[j])
  }

  lemma CycleIsReadable(b: Bounds, s: State, c: Timed)
    requires |c.envs| == |ACTIONS| && Honest(b, s, c) && Readable(c)
    ensures ReadableSteps(b, Begin(s), ACTIONS, c.envs)
  {
    forall j | 0 <= j < |ACTIONS| ensures ReadableStep(b, At(s, c, j), ACTIONS[j], c.envs[j]) {
      ActionFacts(j);
    }
  }

  lemma {:induction false} TrailsWithin(b: Bounds, s: State, actions: seq<Action>, envs: seq<Env>, j: nat)
    requires LongLived(b) && ReadableSteps(b, s, actions, envs) && Trails(s) && j <= |actions|
    ensures Trails(DoUpTo(s, actions, envs, j))
  {
    if j > 0 {
      TrailsWithin(b, s, actions, envs, j - 1);
      StepTrails(b, DoUpTo(s, actions, envs, j - 1), actions[j - 1], envs[j - 1]);
    }
  }

  predicate StuckAt(s: State, actions: seq<Action>, envs: seq<Env>, m: int, i: nat) {
    i <= |actions| == |envs| && Stuck(DoUpTo(s, actions, envs, i), m)
  }

  lemma NextStaysStuck(b: Bounds, s: State, actions: seq<Action>, envs: seq<Env>, m: int, i: nat)
    requires ReadableSteps(b, s, actions, envs) && i < |actions| && StuckAt(s, actions, envs, m, i)
    ensures StuckAt(s, actions, envs, m, i + 1)
  {
    StepStaysStuck(b, DoUpTo(s, actions, envs, i), actions[i], envs[i], m);
  }

  lemma StaysStuckWithin(b: Bounds, s: State, actions: seq<Action>, envs: seq<Env>, m: int, j: nat)
    requires ReadableSteps(b, s, actions, envs) && StuckAt(s, actions, envs, m, j)
    ensures StuckAt(s, actions, envs, m, |actions|)
  {
    forall i: nat | j <= i < |actions| && StuckAt(s, actions, envs, m, i) ensures StuckAt(s, actions, envs, m, i + 1) {
      NextStaysStuck(b, s, actions, envs, m, i);
    }
    Persists((i: nat) => StuckAt(s, actions, envs, m, i), j, |actions|);
  }

  // One honest cycle that can read the granting certificate.
  ghost predicate ReadableCycle(b: Bounds, s: State, c: Timed) {
    |c.envs| == |ACTIONS| && Honest(b, s, c) && Readable(c)
  }

  lemma CycleTrails(b: Bounds, s: State, c: Timed)
    requires LongLived(b) && ReadableCycle(b, s, c) && Trails(s)
    ensures Trails(Cycle(s, c.envs))
  {
    CycleIsReadable(b, s, c);
    TrailsWithin(b, Begin(s), ACTIONS, c.envs, |ACTIONS|);
  }

  lemma CycleStaysStuck(b: Bounds, s: State, c: Timed, m: int)
    requires ReadableCycle(b, s, c) && Stuck(s, m)
    ensures Stuck(Cycle(s, c.envs), m)
  {
    CycleIsReadable(b, s, c);
    assert StuckAt(Begin(s), ACTIONS, c.envs, m, 0);
    StaysStuckWithin(b, Begin(s), ACTIONS, c.envs, m, 0);
  }

  lemma MissedStep(b: Bounds, s: State, actions: seq<Action>, envs: seq<Env>, j: nat) returns (m: int)
    requires LongLived(b) && ReadableSteps(b, s, actions, envs) && j < |actions|
    requires Trails(DoUpTo(s, actions, envs, j)) && MissesReload(DoUpTo(s, actions, envs, j), actions[j], envs[j])
    ensures StuckAt(s, actions, envs, m, j + 1)
    ensures DoUpTo(s, actions, envs, j).keygrant == Some(m) && m <= envs[j].now + InAdvance(Granting)
  {
    m := DoUpTo(s, actions, envs, j).keygrant.value;
    MissingGetsStuck(b, DoUpTo(s, actions, envs, j), actions[j], envs[j]);
  }

  // Action j of cycle c, which begins in s, misses a reload.
  predicate MissesAt(s: State, c: Timed, j: nat) {
    j < |ACTIONS| == |c.envs| && MissesReload(At(s, c, j), ACTIONS[j], c.envs[j])
  }

  lemma CycleGetsStuck(b: Bounds, s: State, c: Timed, j: nat) returns (m: int)
    requires LongLived(b) && ReadableCycle(b, s, c) && Trails(s) && MissesAt(s, c, j)
    ensures Stuck(Cycle(s, c.envs), m)
    ensures At(s, c, j).keygrant == Some(m) && m <= c.envs[j].now + InAdvance(Granting)
  {
    CycleIsReadable(b, s, c);
    TrailsWithin(b, Begin(s), ACTIONS, c.envs, j);
    m := MissedStep(b, Begin(s), ACTIONS, c.envs, j);
    StaysStuckWithin(b, Begin(s), ACTIONS, c.envs, m, j + 1);
  }

  ghost predicate ReadableRun(b: Bounds, s: State, cycles: seq<Timed>) {
    && Shaped(cycles) && LongLived(b)
    && forall i | 0 <= i < |cycles| :: ReadableCycle(b, AfterCycles(s, cycles, i), cycles[i])
  }

  lemma {:induction false} AlwaysTrails(b: Bounds, s: State, cycles: seq<Timed>, i: nat)
    requires ReadableRun(b, s, cycles) && i <= |cycles| && Trails(s)
    ensures Trails(AfterCycles(s, cycles, i))
  {
    if i > 0 {
      AlwaysTrails(b, s, cycles, i - 1);
      CycleTrails(b, AfterCycles(s, cycles, i - 1), cycles[i - 1]);
    }
  }

  predicate StuckAfter(s: State, cycles: seq<Timed>, m: int, i: nat) {
    Shaped(cycles) && i <= |cycles| && Stuck(AfterCycles(s, cycles, i), m)
  }

  lemma NextCycleIsStuck(b: Bounds, s: State, cycles: seq<Timed>, m: int, i: nat)
    requires ReadableRun(b, s, cycles) && i < |cycles| && StuckAfter(s, cycles, m, i)
    ensures StuckAfter(s, cycles, m, i + 1)
  {
    CycleStaysStuck(b, AfterCycles(s, cycles, i), cycles[i], m);
  }

  lemma StuckForever(b: Bounds, s: State, cycles: seq<Timed>, m: int, i: nat, n: nat)
    requires ReadableRun(b, s, cycles) && i <= n <= |cycles| && StuckAfter(s, cycles, m, i)
    ensures StuckAfter(s, cycles, m, n)
  {
    forall k: nat | i <= k < n && StuckAfter(s, cycles, m, k) ensures StuckAfter(s, cycles, m, k + 1) {
      NextCycleIsStuck(b, s, cycles, m, k);
    }
    Persists((k: nat) => StuckAfter(s, cycles, m, k), i, n);
  }

  lemma MissingCycle(b: Bounds, s: State, cycles: seq<Timed>, i: nat, j: nat) returns (m: int)
    requires ReadableRun(b, s, cycles) && Trails(s) && i < |cycles|
    requires MissesAt(AfterCycles(s, cycles, i), cycles[i], j)
    ensures StuckAfter(s, cycles, m, i + 1)
    ensures m <= cycles[i].envs[j].now + InAdvance(Granting)
    ensures At(AfterCycles(s, cycles, i), cycles[i], j).keygrant == Some(m)
  {
    AlwaysTrails(b, s, cycles, i);
    m := CycleGetsStuck(b, AfterCycles(s, cycles, i), cycles[i], j);
  }

  /**
   One missed reload is never made up for: the Keygrant that is in memory then is the last one, and it runs
   out within the time in advance.
   */
  lemma MissedReloadIsFinal(b: Bounds, s: State, cycles: seq<Timed>, i: nat, j: nat) returns (m: int)
    requires ReadableRun(b, s, cycles) && Trails(s) && i < |cycles|
    requires MissesAt(AfterCycles(s, cycles, i), cycles[i], j)
    ensures At(AfterCycles(s, cycles, i), cycles[i], j).keygrant == Some(m)
    ensures m <= cycles[i].envs[j].now + InAdvance(Granting)
    ensures forall n | i < n <= |cycles| :: StuckAfter(s, cycles, m, n)
  {
    m := MissingCycle(b, s, cycles, i, j);
    forall n | i < n <= |cycles| ensures StuckAfter(s, cycles, m, n) {
      StuckForever(b, s, cycles, m, i + 1, n);
    }
  }

  // The run goes on until every missed reload has had time to matter.
  ghost predicate RunsOn(s: State, cycles: seq<Timed>)
    requires Shaped(cycles)
  {
    forall i, j | 0 <= i < |cycles| && 0 <= j < |ACTIONS| && MissesAt(AfterCycles(s, cycles, i), cycles[i], j) ::
      cycles[i].envs[j].now + InAdvance(Granting) < cycles[|cycles| - 1].end
  }

  lemma StuckLapses(s: State, cycles: seq<Timed>, m: int)
    requires cycles != [] && StuckAfter(s, cycles, m, |cycles|) && m < cycles[|cycles| - 1].end
    ensures !NeverLapses(s, cycles)
  {
    var last := |cycles| - 1;
    assert !Outlasts(AfterCycles(s, cycles, |cycles|), cycles[last]);
    NextCycle(s, cycles, last);
    assert At(AfterCycles(s, cycles, last), cycles[last], |ACTIONS|) == AfterCycles(s, cycles, |cycles|);
  }

  lemma MissedReloadLapses(b: Bounds, s: State, cycles: seq<Timed>, i: nat, j: nat)
    requires ReadableRun(b, s, cycles) && Trails(s) && i < |cycles|
    requires MissesAt(AfterCycles(s, cycles, i), cycles[i], j)
    requires cycles[i].envs[j].now + InAdvance(Granting) < cycles[|cycles| - 1].end
    ensures !NeverLapses(s, cycles)
  {
    var m := MissedReloadIsFinal(b, s, cycles, i, j);
    StuckLapses(s, cycles, m);
  }

  /** On such a run, no certificate lapses if and only if no reload of the granting certificate was missed. */
  lemma NoLapseExactly(b: Bounds, s: State, cycles: seq<Timed>)
    requires Regular(b, s, cycles) && ReadableRun(b, s, cycles)
    requires cycles != [] && Started(b, s, cycles[0].start) && RunsOn(s, cycles)
    ensures NeverLapses(s, cycles) <==> NoMissedReload(s, cycles)
  {
    if NoMissedReload(s, cycles) {
      NoLapse(b, s, cycles);
    } else {
      var i, j := FindMissed(s, cycles);
      MissedReloadLapses(b, s, cycles, i, j);
    }
  }

  lemma FindMissed(s: State, cycles: seq<Timed>) returns (i: nat, j: nat)
    requires Shaped(cycles) && !NoMissedReload(s, cycles)
    ensures i < |cycles| && j < |ACTIONS| && MissesAt(AfterCycles(s, cycles, i), cycles[i], j)
  {
    i :| i < |cycles| && CycleMisses(AfterCycles(s, cycles, i), cycles[i]);
    j :| j < |ACTIONS| && MissesReload(At(AfterCycles(s, cycles, i), cycles[i], j), ACTIONS[j], cycles[i].envs[j]);
  }

  // ---- The keyserver's bounds ----

  // How long the keyserver's certificates for a service last.
  function SignedFor(service: Service): int {
    if service == Granting then 40 * ONE_DAY else if service == SSHHostLogin then 60 * ONE_DAY else 30 * ONE_DAY
  }

  lemma ServerLifespans(conf: Setup, node: Node, n: nat)
    requires n < |SERVICES| && SERVICES[n].1 in NodePrivileges(conf, node, KerberosAccounts, Nodes)
    ensures Lifespan(NodePrivileges(conf, node, KerberosAccounts, Nodes)[SERVICES[n].1]) == SignedFor(SERVICES[n].0)
  {
    SigningLifespans(conf, node, SERVICES[n].1);
    ServiceNames(n);
  }

  /** With the keyserver's lifespans, the bounds hold as soon as the failures fit into a week. */
  lemma KeyserverIsAdequate(period: int, duration: int, tolerated: nat)
    requires 0 <= period && 0 <= duration
    ensures var b := Bounds(period, duration, tolerated, SignedFor);
            (Adequate(b) <==> (tolerated + 1) * period + duration <= ONE_WEEK) && LongLived(b)
  {
    var b := Bounds(period, duration, tolerated, SignedFor);
    if Adequate(b) {
      assert InAdvance(SSHHostLogin) == ONE_WEEK;
    }
  }

  /** A bootstrap that succeeds leaves a keyclient that is ready to start. */
  lemma BootstrapStarts(b: Bounds, s: State, api: string, env: Env, t: int)
    requires Adequate(b) && s.keygrant.None? && (forall service :: CertPath(service) !in s.files) && s.retryAt == map[]
    requires env.answer.Success? && env.answer.value.Cert?
    requires env.answer.value.notAfter > env.now + b.lifespan(Granting) - SECOND && t <= env.now + b.period
    ensures var s' := Do(s, Action.Bootstrap(api), env);
            s'.keygrant.Some? ==> Started(b, s', t)
  {
    var s' := Do(s, Action.Bootstrap(api), env);
    if s'.keygrant.Some? {
      forall service | Holds(s', service) ensures service == Granting {
        assert CertPath(service) !in s.files;
      }
    }
  }
}
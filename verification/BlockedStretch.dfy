/** A run of the keyclient that becomes quiet while blocked, is freed, and is never announced as ready. */
module BlockedStretch {
  import opened Wrappers
  import opened Accounts
  import opened Keyclient
  import opened Convergence
  import opened ActLoop

  const LASTING := File(0, Cert(3 * ONE_WEEK))

  const KEYS: map<Path, File> := map service: Service :: KeyPath(service) := LASTING
  const CERTS: map<Path, File> := map service: Service :: CertPath(service) := LASTING
  const OTHERS: map<Path, File> :=
    map[LocalConfPath := LASTING, ClusterConfPath := LASTING, ClusterCAPath := LASTING, KubernetesCAPath := LASTING,
        EtcdClientCAPath := LASTING, EtcdServerCAPath := LASTING, SSHUserCAPath := LASTING,
        ServiceAccountPath := LASTING, ServiceAccountKeyPath := LASTING]

  // All files are there and up to date; there is no bootstrap token.
  const FILES := KEYS + CERTS + OTHERS

  // There is no Keygrant in memory.
  const FIRST := State(FILES, None, map[], "", false, 0)

  // Files can be read or not; all else works, but the keyserver does not answer.
  function EnvWith(readOk: bool): Env {
    Env(0, 0, Failure(OtherError), readOk, true, true, true, true, true)
  }

  function CycleWith(readOk: bool): (envs: seq<Env>)
    ensures |envs| == |ACTIONS| && forall j | 0 <= j < |ACTIONS| :: envs[j] == EnvWith(readOk)
  {
    seq(|ACTIONS|, _ => EnvWith(readOk))
  }

  // Only renewals are blocked, and only while certificates cannot be read.
  function Blocks(a: Action, readOk: bool): nat {
    if a.RequestOrRenew? && !readOk then 1 else 0
  }

  ghost predicate AllLast(files: map<Path, File>) {
    BootstrapTokenPath !in files && forall path | path != BootstrapTokenPath :: path in files && files[path] == LASTING
  }

  lemma KeysLast()
    ensures forall path :: path in KEYS <==> path.KeyPath?
    ensures forall path :: path in CERTS <==> path.CertPath?
    ensures forall path | path in KEYS :: KEYS[path] == LASTING
    ensures forall path | path in CERTS :: CERTS[path] == LASTING
  {
  }

  lemma OthersLast()
    ensures forall path :: path in OTHERS <==> !path.KeyPath? && !path.CertPath? && path != BootstrapTokenPath
    ensures forall path | path in OTHERS :: OTHERS[path] == LASTING
  {
  }

  lemma AllTogether(keys: map<Path, File>, certs: map<Path, File>, others: map<Path, File>)
    requires forall path :: path in keys || path in certs || path in others <==> path != BootstrapTokenPath
    requires forall path | path in keys :: keys[path] == LASTING
    requires forall path | path in certs :: certs[path] == LASTING
    requires forall path | path in others :: others[path] == LASTING
    ensures AllLast(keys + certs + others)
  {
  }

  lemma FilesLast()
    ensures AllLast(FILES)
  {
    KeysLast();
    OthersLast();
    AllTogether(KEYS, CERTS, OTHERS);
  }

  lemma OneAction(s: State, a: Action, readOk: bool)
    requires AllLast(s.files) && s.keygrant.None? && s.retryAt == map[] && Admissible(a)
    ensures Do(s, a, EnvWith(readOk)) == s.(blocked := s.blocked + Blocks(a, readOk))
  {
  }

  // How often the first n actions block.
  function Blocked(actions: seq<Action>, readOk: bool, n: nat): nat
    requires n <= |actions|
  {
    if n == 0 then 0 else Blocked(actions, readOk, n - 1) + Blocks(actions[n - 1], readOk)
  }

  lemma {:induction false} ActionsUpTo(actions: seq<Action>, envs: seq<Env>, readOk: bool, n: nat)
    requires Compatible(actions) && n <= |actions| == |envs| && forall j | 0 <= j < |envs| :: envs[j] == EnvWith(readOk)
    ensures DoUpTo(FIRST, actions, envs, n) == FIRST.(blocked := Blocked(actions, readOk, n))
  {
    if n > 0 {
      ActionsUpTo(actions, envs, readOk, n - 1);
      FilesLast();
      OneAction(DoUpTo(FIRST, actions, envs, n - 1), actions[n - 1], readOk);
    }
  }

  lemma {:induction false} NoneBlocked(actions: seq<Action>, n: nat)
    requires n <= |actions|
    ensures Blocked(actions, true, n) == 0
  {
    if n > 0 { NoneBlocked(actions, n - 1); }
  }

  lemma {:induction false} LastIsRenewal(services: seq<(Service, string)>)
    requires services != []
    ensures var all := Renewals(services); all != [] && all[|all| - 1].RequestOrRenew?
  {
    if |services| > 1 { LastIsRenewal(services[1..]); }
  }

  lemma OneCycle(s: State, readOk: bool)
    requires s == FIRST.(blocked := s.blocked)
    ensures Cycle(s, CycleWith(readOk)) == FIRST.(blocked := Blocked(ACTIONS, readOk, |ACTIONS|))
  {
    ActionsAreCompatible();
    ActionsUpTo(ACTIONS, CycleWith(readOk), readOk, |ACTIONS|);
  }

  /**
   In the first cycle no certificate can be read, so that all renewals are due, and blocked as there is no Keygrant; in
   the second all are read, and nothing is due.  Neither performs anything, and onReady is not called.
   */
  lemma FreedButNotAnnounced()
    ensures var cycles := [CycleWith(false), CycleWith(true)];
            && WellFormed(cycles)
            && var reports := [ReportOf(Before(FIRST, cycles, 1)), ReportOf(Before(FIRST, cycles, 2))];
            && QuietStretch(reports, 0, 1) && reports[0].blocked > 0 && reports[1].blocked == 0
            && forall ready | Announcements(reports, ready) :: ready == []
  {
    var cycles := [CycleWith(false), CycleWith(true)];
    OneCycle(FIRST, false);
    assert Before(FIRST, cycles, 1) == Cycle(Before(FIRST, cycles, 0), cycles[0]);
    OneCycle(Before(FIRST, cycles, 1), true);
    LastIsRenewal(SERVICES);
    NoneBlocked(ACTIONS, |ACTIONS|);
    var reports := [ReportOf(Before(FIRST, cycles, 1)), ReportOf(Before(FIRST, cycles, 2))];
    forall ready | Announcements(reports, ready) ensures ready == [] {
      NoneIsReady(reports, ready);
    }
  }

  lemma NoneIsReady(reports: seq<Report>, ready: seq<nat>)
    requires Announcements(reports, ready) && forall i: nat :: !BecomesReady(reports, i)
    ensures ready == []
  {
    FirstIn(ready);
  }

  lemma FirstIn(ready: seq<nat>)
    ensures ready == [] || ready[0] in ready
  {
  }
}

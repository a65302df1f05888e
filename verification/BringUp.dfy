/**
 A new node is set up by a single cycle of the keyclient, if everything works: from a bootstrap token, and the key that
 sshd has made, to all keys, certificates, authorities and settings, the host name among them.
 */
module BringUp {
  import opened Wrappers
  import opened Accounts
  import opened GrantTable
  import opened Keyclient
  import opened Effects
  import Responses

  // What the keyserver has for each path, which of it this node may have, and when the granting certificate ends.
  datatype Supply = Supply(content: Path -> Content, allowed: Path -> bool, notAfter: int)

  predicate IsDownloaded(path: Path) {
    SourceOf(path).Some?
  }

  ghost predicate Proper(supply: Supply, conf: Setup, node: Node) {
    && Responses.PlainNode(conf, node)
    && supply.content(LocalConfPath) == Data(LocalConf(conf, node)) && supply.allowed(LocalConfPath)
    && (forall service :: supply.content(CertPath(service)).Cert?)
    && supply.content(CertPath(Granting)) == Cert(supply.notAfter) && supply.allowed(CertPath(Granting))
    && forall path | IsDownloaded(path) :: supply.content(path) != Data("")
  }

  // Everything works; the keyserver forbids what the node may not have.
  predicate Supplied(supply: Supply, a: Action, env: Env) {
    && Works(env) && env.now <= env.later
    && match Target(a)
       case None => true
       case Some(path) =>
         a.GenerateKey? ||
         env.answer == if supply.allowed(path) then Success(supply.content(path)) else Failure(OperationForbidden)
  }

  // What files there are, keys and the token apart, are the keyserver's.
  ghost predicate GoodFiles(supply: Supply, s: State) {
    forall path | path in s.files && !path.KeyPath? && path != BootstrapTokenPath :: s.files[path].content == supply.content(path)
  }

  // A node that has been given a token.
  ghost predicate IsNew(supply: Supply, s: State) {
    && BootstrapTokenPath in s.files && KeyPath(SSHHostLogin) in s.files && GoodFiles(supply, s)
    && s.keygrant.None? && s.retryAt == map[]
  }

  // What an action is for is there.
  predicate Achieved(supply: Supply, node: Node, a: Action, s: State) {
    match a
    case GenerateKey(path) => path in s.files
    case Bootstrap(_) => true
    case Download(_, path, _) => supply.allowed(path) ==> path in s.files
    case ReloadHostname(_) => s.hostname == node.hostname
    case RequestOrRenew(service, _, _) => supply.allowed(CertPath(service)) ==> CertPath(service) in s.files
  }

  // After j actions.
  ghost predicate Progressed(supply: Supply, node: Node, s: State, j: nat)
    requires j <= |ACTIONS|
  {
    && GoodFiles(supply, s) && KeyPath(SSHHostLogin) in s.files && s.blocked == 0
    && (forall api | api in s.retryAt :: api == "fetch-serviceaccount-key" && !supply.allowed(ServiceAccountKeyPath))
    && (if j < 2 then s.keygrant.None? && BootstrapTokenPath in s.files
        else s.keygrant == Some(supply.notAfter) && BootstrapTokenPath !in s.files)
    && forall i | 0 <= i < j :: Achieved(supply, node, ACTIONS[i], s)
  }

  // The order of the actions, as far as it matters.
  lemma {:induction false} RenewalOrder(services: seq<(Service, string)>, j: nat)
    requires j < |Renewals(services)|
    ensures var a := Renewals(services)[j];
            && !a.Bootstrap? && !a.ReloadHostname?
            && (a.RequestOrRenew? && a.service != SSHHostLogin ==> j > 0 && Renewals(services)[j - 1] == GenerateKey(KeyPath(a.service)))
  {
    var first, rest := Renewal(services[0].0, services[0].1), Renewals(services[1..]);
    assert Renewals(services) == first + rest;
    if j >= |first| {
      RenewalOrder(services[1..], j - |first|);
    }
  }

  lemma ActionOrder(j: nat)
    requires j < |ACTIONS|
    ensures var a := ACTIONS[j];
            && InCycle(a) && (j == 0 ==> a == GenerateKey(KeyPath(Granting))) && (a.Bootstrap? <==> j == 1)
            && (a.ReloadHostname? ==> j == 7 && ACTIONS[6] == Download(API("get-local-config"), LocalConfPath, DAYS))
            && (a.RequestOrRenew? && a.service != SSHHostLogin ==> j > 2 && ACTIONS[j - 1] == GenerateKey(KeyPath(a.service)))
            && (a.RequestOrRenew? ==> j > 2)
  {
    CycleExactly(ACTIONS[j]);
    if j >= |FIRST_ACTIONS| { RenewalOrder(SERVICES, j - |FIRST_ACTIONS|); }
  }

  lemma FilesStay(a: Action, s: State, env: Env)
    ensures forall path | path in s.files && !(a.Bootstrap? && path == BootstrapTokenPath) :: path in Do(s, a, env).files
  {
    forall path | path in s.files && !(a.Bootstrap? && path == BootstrapTokenPath) ensures path in Do(s, a, env).files {
      TouchesOnlyItsOwn(a, s, env, path);
    }
  }

  lemma FilesStayGood(supply: Supply, a: Action, s: State, env: Env)
    requires InCycle(a) && Supplied(supply, a, env) && GoodFiles(supply, s)
    ensures GoodFiles(supply, Do(s, a, env))
  {
    var s' := Do(s, a, env);
    forall path | path in s'.files && !path.KeyPath? && path != BootstrapTokenPath ensures s'.files[path].content == supply.content(path) {
      TouchesOnlyItsOwn(a, s, env, path);
    }
  }

  // What the action does to the rest of the state.
  ghost predicate StepsOn(supply: Supply, a: Action, s: State, s': State) {
    && s'.blocked == s.blocked
    && s'.keygrant == (if a.Bootstrap? then Some(supply.notAfter) else s.keygrant)
    && (BootstrapTokenPath in s'.files <==> BootstrapTokenPath in s.files && !a.Bootstrap?)
    && forall api | api in s'.retryAt && api !in s.retryAt :: api == "fetch-serviceaccount-key" && !supply.allowed(ServiceAccountKeyPath)
  }

  lemma KeyStep(supply: Supply, node: Node, a: Action, s: State, env: Env)
    requires a.GenerateKey? && InCycle(a) && Supplied(supply, a, env)
    ensures Achieved(supply, node, a, Do(s, a, env)) && StepsOn(supply, a, s, Do(s, a, env))
  {
    KeyIsMade(a.path, s, env);
  }

  lemma BootstrapStep(supply: Supply, node: Node, a: Action, s: State, env: Env)
    requires a.Bootstrap? && InCycle(a) && Supplied(supply, a, env) && supply.allowed(CertPath(Granting))
    requires supply.content(CertPath(Granting)) == Cert(supply.notAfter) && a.api !in s.retryAt
    requires s.keygrant.None? && BootstrapTokenPath in s.files && KeyPath(Granting) in s.files
    ensures Achieved(supply, node, a, Do(s, a, env)) && StepsOn(supply, a, s, Do(s, a, env))
  {
    BootstrapWorks(a.api, s, env, supply.notAfter);
  }

  lemma DownloadStep(supply: Supply, node: Node, a: Action, s: State, env: Env)
    requires a.Download? && InCycle(a) && Supplied(supply, a, env) && s.keygrant.Some?
    requires supply.allowed(LocalConfPath) && supply.content(a.path) != Data("")
    requires forall api | api in s.retryAt :: api == "fetch-serviceaccount-key" && !supply.allowed(ServiceAccountKeyPath)
    ensures Achieved(supply, node, a, Do(s, a, env)) && StepsOn(supply, a, s, Do(s, a, env))
  {
    if supply.allowed(a.path) {
      DownloadWorks(a.source, a.path, a.refresh, s, env, supply.content(a.path));
    }
  }

  lemma RenewalStep(supply: Supply, node: Node, a: Action, s: State, env: Env)
    requires a.RequestOrRenew? && InCycle(a) && Supplied(supply, a, env)
    requires s.keygrant == Some(supply.notAfter) && KeyPath(a.service) in s.files
    requires supply.content(CertPath(a.service)).Cert? && supply.allowed(CertPath(Granting))
    requires supply.content(CertPath(Granting)) == Cert(supply.notAfter)
    requires forall api | api in s.retryAt :: api == "fetch-serviceaccount-key"
    ensures Achieved(supply, node, a, Do(s, a, env)) && StepsOn(supply, a, s, Do(s, a, env))
  {
    if supply.allowed(CertPath(a.service)) {
      RenewalWorks(a.service, a.api, a.inAdvance, s, env, supply.content(CertPath(a.service)).notAfter);
    }
  }

  lemma HostnameStep(supply: Supply, conf: Setup, node: Node, a: Action, s: State, env: Env)
    requires a.ReloadHostname? && InCycle(a) && Works(env) && Proper(supply, conf, node)
    requires GoodFiles(supply, s) && LocalConfPath in s.files
    ensures Achieved(supply, node, a, Do(s, a, env)) && StepsOn(supply, a, s, Do(s, a, env))
  {
    HostnameIsSet(conf, node, s, env);
  }

  lemma OneStep(supply: Supply, conf: Setup, node: Node, s: State, j: nat, env: Env)
    requires Proper(supply, conf, node) && j < |ACTIONS| && Progressed(supply, node, s, j) && Supplied(supply, ACTIONS[j], env)
    ensures Achieved(supply, node, ACTIONS[j], Do(s, ACTIONS[j], env)) && StepsOn(supply, ACTIONS[j], s, Do(s, ACTIONS[j], env))
  {
    var a := ACTIONS[j];
    ActionOrder(j);
    match a
    case GenerateKey(_) => KeyStep(supply, node, a, s, env);
    case Bootstrap(_) =>
      ActionOrder(0);
      assert Achieved(supply, node, ACTIONS[0], s);
      BootstrapStep(supply, node, a, s, env);
    case Download(_, path, _) =>
      assert IsDownloaded(path);
      DownloadStep(supply, node, a, s, env);
    case ReloadHostname(_) =>
      assert Achieved(supply, node, ACTIONS[6], s);
      HostnameStep(supply, conf, node, a, s, env);
    case RequestOrRenew(_, _, _) =>
      assert Achieved(supply, node, ACTIONS[j - 1], s);
      RenewalStep(supply, node, a, s, env);
  }

  lemma Progresses(supply: Supply, conf: Setup, node: Node, s: State, j: nat, env: Env)
    requires Proper(supply, conf, node) && j < |ACTIONS| && Progressed(supply, node, s, j) && Supplied(supply, ACTIONS[j], env)
    ensures Progressed(supply, node, Do(s, ACTIONS[j], env), j + 1)
  {
    var a, s' := ACTIONS[j], Do(s, ACTIONS[j], env);
    ActionOrder(j);
    OneStep(supply, conf, node, s, j, env);
    FilesStay(a, s, env);
    FilesStayGood(supply, a, s, env);
    MemoryFollowsFiles(a, s, env);
    forall i | 0 <= i < j + 1 ensures Achieved(supply, node, ACTIONS[i], s') {
      if i < j {
        assert Achieved(supply, node, ACTIONS[i], s);
        ActionOrder(i);
      }
    }
  }

  lemma {:induction false} ProgressesTo(supply: Supply, conf: Setup, node: Node, s: State, envs: seq<Env>, j: nat)
    requires Proper(supply, conf, node) && IsNew(supply, s) && s.blocked == 0
    requires |envs| == |ACTIONS| && (forall i | 0 <= i < |envs| :: Supplied(supply, ACTIONS[i], envs[i])) && j <= |ACTIONS|
    ensures Progressed(supply, node, DoUpTo(s, ACTIONS, envs, j), j)
  {
    if j > 0 {
      ProgressesTo(supply, conf, node, s, envs, j - 1);
      Progresses(supply, conf, node, DoUpTo(s, ACTIONS, envs, j - 1), j - 1, envs[j - 1]);
    }
  }

  // A node that has all that it may have.
  ghost predicate IsSetUp(supply: Supply, node: Node, s: State) {
    && s.hostname == node.hostname && s.keygrant == Some(supply.notAfter)
    && s.blocked == 0 && BootstrapTokenPath !in s.files
    && (forall service :: KeyPath(service) in s.files)
    && (forall service | supply.allowed(CertPath(service)) :: Holds(s, CertPath(service), supply))
    && forall path | IsDownloaded(path) && supply.allowed(path) :: Holds(s, path, supply)
  }

  predicate Holds(s: State, path: Path, supply: Supply) {
    path in s.files && s.files[path].content == supply.content(path)
  }

  lemma AllAchieved(supply: Supply, node: Node, s: State, a: Action)
    requires Progressed(supply, node, s, |ACTIONS|) && InCycle(a)
    ensures Achieved(supply, node, a, s)
  {
    CycleExactly(a);
    var i :| 0 <= i < |ACTIONS| && ACTIONS[i] == a;
  }

  /** One cycle in which everything works sets a new node up. */
  lemma OneCycleSetsUp(supply: Supply, conf: Setup, node: Node, s: State, envs: seq<Env>)
    requires Proper(supply, conf, node) && IsNew(supply, s)
    requires |envs| == |ACTIONS| && forall i | 0 <= i < |envs| :: Supplied(supply, ACTIONS[i], envs[i])
    ensures IsSetUp(supply, node, Cycle(s, envs))
  {
    var s' := Cycle(s, envs);
    ProgressesTo(supply, conf, node, s.(performed := false, blocked := 0), envs, |ACTIONS|);
    AllAchieved(supply, node, s', ReloadHostname(LocalConfPath));
    forall service ensures KeyPath(service) in s'.files {
      if service != SSHHostLogin { AllAchieved(supply, node, s', GenerateKey(KeyPath(service))); }
    }
    forall service | supply.allowed(CertPath(service)) ensures Holds(s', CertPath(service), supply) {
      AllAchieved(supply, node, s', RequestOrRenew(service, ApiOf(service), if service == Granting then 14 * DAYS else 7 * DAYS));
    }
    forall path | IsDownloaded(path) && supply.allowed(path) ensures Holds(s', path, supply) {
      AllAchieved(supply, node, s', Download(SourceOf(path).value, path, if path == SSHUserCAPath then 7 * DAYS else DAYS));
      SourcesAreData(path);
    }
  }

  lemma SourcesAreData(path: Path)
    requires IsDownloaded(path)
    ensures !path.KeyPath? && !path.CertPath? && path != BootstrapTokenPath
  {
  }
}

/**
 What the keyclient's actions do to a node, each said without the functions that specify their steps: what they touch,
 what they write, and what is there when everything works.
 */
module Effects {
  import opened Wrappers
  import opened Accounts
  import opened GrantTable
  import opened Keyclient
  import ConfFiles
  import Responses

  // ---- The host name ----

  /**
   The local.conf that the keyserver wrote for a node gives the machine that node's host name, and the action reports
   exactly if it was another before.
   */
  lemma HostnameIsSet(conf: Setup, node: Node, s: State, env: Env)
    requires Responses.PlainNode(conf, node) && env.readOk && env.commandOk
    requires LocalConfPath in s.files && s.files[LocalConfPath].content == Data(LocalConf(conf, node))
    ensures Do(s, ReloadHostname(LocalConfPath), env) ==
            s.(hostname := node.hostname, performed := s.performed || s.hostname != node.hostname)
  {
    Responses.LocalConfIsRead(conf, node);
  }

  /** Any other readable text gives the value of HOST_NODE; without one, or when a call fails, the host name stays. */
  lemma HostnameFromText(s: State, path: Path, text: string, env: Env)
    requires path in s.files && s.files[path].content == Data(text)
    ensures var s' := Do(s, ReloadHostname(path), env);
            s'.hostname == match ConfFiles.Parse(text)
                           case None => s.hostname
                           case Some(kvs) =>
                             if env.readOk && env.commandOk && "HOST_NODE" in kvs then kvs["HOST_NODE"] else s.hostname
    ensures var s' := Do(s, ReloadHostname(path), env);
            s' == s.(hostname := s'.hostname, performed := s.performed || s'.hostname != s.hostname)
  {
  }

  // ---- What an action can touch ----

  // The file that an action is about.
  function Target(a: Action): Option<Path> {
    match a
    case GenerateKey(path) => Some(path)
    case Bootstrap(_) => Some(CertPath(Granting))
    case Download(_, path, _) => Some(path)
    case ReloadHostname(_) => None
    case RequestOrRenew(service, _, _) => Some(CertPath(service))
  }

  // What it writes there.
  function Written(a: Action, env: Env): Option<Content> {
    if a.GenerateKey? then Some(Key) else if env.answer.Success? then Some(env.answer.value) else None
  }

  predicate SameFile(s: State, s': State, path: Path) {
    (path in s'.files <==> path in s.files) && (path in s.files ==> s'.files[path] == s.files[path])
  }

  // The memory agrees with a granting certificate that can be loaded.
  predicate LoadedFrom(s: State, env: Env) {
    && KeyPath(Granting) in s.files && CertPath(Granting) in s.files
    && s.files[CertPath(Granting)].content.Cert? && env.loadOk
    && s.keygrant == Some(s.files[CertPath(Granting)].content.notAfter)
  }

  // From s to s' an action has only touched its own.
  predicate OwnOnly(a: Action, s: State, s': State, env: Env, path: Path) {
    && (Target(a) != Some(path) && !(a.Bootstrap? && path == BootstrapTokenPath) ==> SameFile(s, s', path))
    && (Target(a) == Some(path) && !SameFile(s, s', path) ==>
          && env.writeOk && Written(a, env).Some? && Written(a, env) != Some(Data(""))
          && path in s'.files && s'.files[path] == File(env.later, Written(a, env).value))
    && (a.Bootstrap? && path == BootstrapTokenPath && !SameFile(s, s', path) ==>
          path !in s'.files && env.answer.Success? && env.removeOk)
  }

  lemma KeyTouches(key: Path, s: State, env: Env, path: Path)
    ensures OwnOnly(GenerateKey(key), s, Do(s, GenerateKey(key), env), env, path)
  {
  }

  lemma BootstrapTouches(api: string, s: State, env: Env, path: Path)
    ensures OwnOnly(Action.Bootstrap(api), s, Do(s, Action.Bootstrap(api), env), env, path)
  {
  }

  lemma DownloadTouches(source: Source, file: Path, refresh: int, s: State, env: Env, path: Path)
    ensures OwnOnly(Download(source, file, refresh), s, Do(s, Download(source, file, refresh), env), env, path)
  {
  }

  lemma RenewalTouches(service: Service, api: string, inAdvance: int, s: State, env: Env, path: Path)
    ensures OwnOnly(RequestOrRenew(service, api, inAdvance), s, Do(s, RequestOrRenew(service, api, inAdvance), env), env, path)
  {
  }

  /**
   An action changes no file but the one that it is about, and a bootstrap the token; it writes a key or what the server
   has answered, and never an empty answer.
   */
  lemma TouchesOnlyItsOwn(a: Action, s: State, env: Env, path: Path)
    ensures OwnOnly(a, s, Do(s, a, env), env, path)
  {
    match a
    case GenerateKey(key) => KeyTouches(key, s, env, path);
    case Bootstrap(api) => BootstrapTouches(api, s, env, path);
    case Download(source, file, refresh) => DownloadTouches(source, file, refresh, s, env, path);
    case ReloadHostname(_) =>
    case RequestOrRenew(service, api, inAdvance) => RenewalTouches(service, api, inAdvance, s, env, path);
  }

  /** A new Keygrant is what the granting certificate then says; and only ReloadHostname changes the host name. */
  lemma MemoryFollowsFiles(a: Action, s: State, env: Env)
    ensures var s' := Do(s, a, env);
            && (s'.keygrant != s.keygrant ==> LoadedFrom(s', env) && (a.Bootstrap? || (a.RequestOrRenew? && a.service == Granting)))
            && (s'.hostname != s.hostname ==> a.ReloadHostname?)
            && (s.performed ==> s'.performed) && s.blocked <= s'.blocked <= s.blocked + 1
  {
  }

  // ---- What is there when everything works ----

  // Nothing fails.
  predicate Works(env: Env) {
    env.readOk && env.csrOk && env.removeOk && env.writeOk && env.loadOk && env.commandOk
  }

  predicate MayAsk(s: State, api: string, env: Env) {
    api !in s.retryAt || env.now > s.retryAt[api]
  }

  /** A key is made exactly if there is none. */
  lemma KeyIsMade(path: Path, s: State, env: Env)
    requires Works(env)
    ensures Do(s, GenerateKey(path), env) ==
            if path in s.files then s else s.(files := s.files[path := File(env.later, Key)], performed := true)
  {
  }

  /** A node with a key and a token, and no Keygrant, gets its first certificate and loads it; the token is used up. */
  lemma BootstrapWorks(api: string, s: State, env: Env, notAfter: int)
    requires Works(env) && MayAsk(s, api, env) && env.answer == Success(Cert(notAfter))
    requires s.keygrant.None? && BootstrapTokenPath in s.files && KeyPath(Granting) in s.files
    ensures Do(s, Action.Bootstrap(api), env) ==
            s.(files := (s.files - {BootstrapTokenPath})[CertPath(Granting) := File(env.later, Cert(notAfter))],
               keygrant := Some(notAfter), performed := true)
  {
  }

  /** Bootstrapping is blocked exactly for want of a key, and does nothing without a token or with a Keygrant. */
  lemma BootstrapWaits(api: string, s: State, env: Env)
    requires MayAsk(s, api, env)
    ensures s.keygrant.Some? || BootstrapTokenPath !in s.files ==> Do(s, Action.Bootstrap(api), env) == s
    ensures s.keygrant.None? && BootstrapTokenPath in s.files && KeyPath(Granting) !in s.files ==>
              Do(s, Action.Bootstrap(api), env) == s.(blocked := s.blocked + 1)
  {
  }

  // The copy is missing, or older than its refresh period.
  predicate IsStale(s: State, path: Path, refresh: int, now: int) {
    path in s.files ==> now > s.files[path].mtime + refresh
  }

  /** A download that is due stores what the server has answered; one that is not changes nothing. */
  lemma DownloadWorks(source: Source, path: Path, refresh: int, s: State, env: Env, content: Content)
    requires Works(env) && env.answer == Success(content) && content != Data("")
    requires source.API? ==> MayAsk(s, source.api, env)
    ensures Do(s, Download(source, path, refresh), env) ==
            if !IsStale(s, path, refresh, env.now) then s
            else if source.API? && s.keygrant.None? then s.(blocked := s.blocked + 1)
            else s.(files := s.files[path := File(env.later, content)], performed := true)
  {
  }

  // The certificate is missing, or no certificate, or has less left than the time in advance.
  predicate IsDue(s: State, service: Service, inAdvance: int, now: int) {
    var path := CertPath(service);
    path !in s.files || !s.files[path].content.Cert? || now + inAdvance >= s.files[path].content.notAfter
  }

  /** A certificate that is due is replaced by the server's, and the granting one is loaded; others stay. */
  lemma RenewalWorks(service: Service, api: string, inAdvance: int, s: State, env: Env, notAfter: int)
    requires Works(env) && MayAsk(s, api, env) && env.answer == Success(Cert(notAfter))
    ensures Do(s, RequestOrRenew(service, api, inAdvance), env) ==
            if !IsDue(s, service, inAdvance, env.now) then s
            else if s.keygrant.None? || KeyPath(service) !in s.files then s.(blocked := s.blocked + 1)
            else s.(files := s.files[CertPath(service) := File(env.later, Cert(notAfter))], performed := true,
                    keygrant := if service == Granting then Some(notAfter) else s.keygrant)
  {
  }

  // ---- What is there when something fails ----

  /** Without its command a new cluster authority is stored, but not reported; other downloads need no command. */
  lemma DownloadWithoutCommand(source: Source, path: Path, refresh: int, s: State, env: Env, content: Content)
    requires env.readOk && env.writeOk && !env.commandOk && env.answer == Success(content) && content != Data("")
    requires IsStale(s, path, refresh, env.now) && (source.API? ==> MayAsk(s, source.api, env) && s.keygrant.Some?)
    ensures Do(s, Download(source, path, refresh), env) ==
            s.(files := s.files[path := File(env.later, content)], performed := s.performed || path != ClusterCAPath)
  {
  }

  /** A granting certificate that cannot be loaded is stored, but neither used nor reported. */
  lemma RenewalNotLoaded(api: string, inAdvance: int, s: State, env: Env, content: Content)
    requires env.readOk && env.csrOk && env.writeOk && !env.loadOk && env.answer == Success(content) && content != Data("")
    requires MayAsk(s, api, env) && IsDue(s, Granting, inAdvance, env.now) && s.keygrant.Some? && KeyPath(Granting) in s.files
    ensures Do(s, RequestOrRenew(Granting, api, inAdvance), env) == s.(files := s.files[CertPath(Granting) := File(env.later, content)])
  {
  }

  /** A token that the server has accepted is used up, even if the certificate cannot be written or loaded then. */
  lemma TokenIsUsedUp(api: string, s: State, env: Env, content: Content)
    requires env.csrOk && env.removeOk && env.answer == Success(content) && MayAsk(s, api, env)
    requires s.keygrant.None? && BootstrapTokenPath in s.files && KeyPath(Granting) in s.files
    ensures var s' := Do(s, Action.Bootstrap(api), env);
            && BootstrapTokenPath !in s'.files
            && (!env.writeOk || content == Data("") ==> s' == s.(files := s.files - {BootstrapTokenPath}))
            && (env.writeOk && content != Data("") && !env.loadOk ==>
                  s' == s.(files := (s.files - {BootstrapTokenPath})[CertPath(Granting) := File(env.later, content)]))
  {
  }

  /** One that the server has not accepted, or that cannot be removed, is kept, and nothing is stored. */
  lemma TokenIsKept(api: string, s: State, env: Env)
    requires !env.csrOk || !env.removeOk || env.answer.Failure?
    ensures Do(s, Action.Bootstrap(api), env).files == s.files
  {
  }

  /** Without an answer or a CSR, and without a place to write to, nothing changes but the time to ask again. */
  lemma NothingWithoutAnswer(a: Action, s: State, env: Env)
    requires !a.ReloadHostname? && !a.Bootstrap?
    requires !env.writeOk || (!a.GenerateKey? && (env.answer.Failure? || env.answer.value == Data("")))
    ensures var s' := Do(s, a, env);
            s' == s.(retryAt := s'.retryAt, blocked := s'.blocked)
  {
  }

  /** An action whose API is not to be asked again yet does nothing at all; nor does a renewal without a CSR. */
  lemma WaitsItsTime(a: Action, s: State, env: Env)
    requires match a
             case Bootstrap(api) => !MayAsk(s, api, env)
             case Download(source, _, _) => source.API? && !MayAsk(s, source.api, env)
             case RequestOrRenew(_, api, _) => !MayAsk(s, api, env)
             case _ => false
    ensures Do(s, a, env) == s
  {
  }

  lemma RenewalWithoutCSR(service: Service, api: string, inAdvance: int, s: State, env: Env)
    requires !env.csrOk
    ensures var s' := Do(s, RequestOrRenew(service, api, inAdvance), env); s' == s.(blocked := s'.blocked)
  {
  }

  /** Without a configuration file the host name action is blocked. */
  lemma HostnameIsBlocked(path: Path, s: State, env: Env)
    requires path !in s.files
    ensures Do(s, ReloadHostname(path), env) == s.(blocked := s.blocked + 1)
  {
  }

  // ---- Which file comes from where ----

  function SourceOf(path: Path): Option<Source> {
    match path
    case KubernetesCAPath => Some(PublicKey(Kubernetes))
    case ClusterCAPath => Some(PublicKey(ClusterCA))
    case SSHUserCAPath => Some(PublicKey(SSHUser))
    case EtcdClientCAPath => Some(PublicKey(EtcdClient))
    case EtcdServerCAPath => Some(PublicKey(EtcdServer))
    case ServiceAccountPath => Some(PublicKey(ServiceAccount))
    case ClusterConfPath => Some(ClusterConf)
    case LocalConfPath => Some(API("get-local-config"))
    case ServiceAccountKeyPath => Some(API("fetch-serviceaccount-key"))
    case _ => None
  }

  function ApiOf(service: Service): string {
    match service
    case Granting => "renew-keygrant"
    case SSHHostLogin => "grant-ssh-host"
    case KubernetesWorker => "grant-kubernetes-worker"
    case KubernetesSupervisor => "grant-kubernetes-supervisor"
    case HomeworldPrivate => "grant-registry-host"
    case KubernetesMaster => "grant-kubernetes-master"
    case KubernetesCtrlMgr => "grant-kubernetes-ctrl-mgr"
    case KubernetesProxy => "grant-kubernetes-proxy"
    case KubernetesScheduler => "grant-kubernetes-scheduler"
    case EtcdServerTLS => "grant-etcd-server"
    case EtcdClientTLS => "grant-etcd-client"
  }

  // The actions of a cycle, by what they are about.
  predicate InCycle(a: Action) {
    match a
    case GenerateKey(path) => path.KeyPath? && path.service != SSHHostLogin
    case Bootstrap(api) => api == "renew-keygrant"
    case Download(source, path, refresh) =>
      SourceOf(path) == Some(source) && refresh == if path == SSHUserCAPath then 7 * DAYS else DAYS
    case ReloadHostname(path) => path == LocalConfPath
    case RequestOrRenew(service, api, inAdvance) =>
      api == ApiOf(service) && inAdvance == if service == Granting then 14 * DAYS else 7 * DAYS
  }

  lemma {:induction false} InRenewals(services: seq<(Service, string)>, a: Action)
    ensures a in Renewals(services) <==>
            exists i :: 0 <= i < |services| && a in Renewal(services[i].0, services[i].1)
  {
    if services != [] {
      InRenewals(services[1..], a);
      assert forall i | 0 < i < |services| :: services[i] == services[1..][i - 1];
      if a in Renewals(services[1..]) {
        var i :| 0 <= i < |services[1..]| && a in Renewal(services[1..][i].0, services[1..][i].1);
        assert services[i + 1] == services[1..][i];
      }
    }
  }

  lemma ServicesAre(service: Service, api: string)
    ensures (service, api) in SERVICES <==> api == ApiOf(service)
  {
    match service
    case Granting => assert SERVICES[0] == (Granting, "renew-keygrant");
    case SSHHostLogin => assert SERVICES[1] == (SSHHostLogin, "grant-ssh-host");
    case KubernetesWorker => assert SERVICES[2] == (KubernetesWorker, "grant-kubernetes-worker");
    case KubernetesSupervisor => assert SERVICES[3] == (KubernetesSupervisor, "grant-kubernetes-supervisor");
    case HomeworldPrivate => assert SERVICES[4] == (HomeworldPrivate, "grant-registry-host");
    case KubernetesMaster => assert SERVICES[5] == (KubernetesMaster, "grant-kubernetes-master");
    case KubernetesCtrlMgr => assert SERVICES[6] == (KubernetesCtrlMgr, "grant-kubernetes-ctrl-mgr");
    case KubernetesProxy => assert SERVICES[7] == (KubernetesProxy, "grant-kubernetes-proxy");
    case KubernetesScheduler => assert SERVICES[8] == (KubernetesScheduler, "grant-kubernetes-scheduler");
    case EtcdServerTLS => assert SERVICES[9] == (EtcdServerTLS, "grant-etcd-server");
    case EtcdClientTLS => assert SERVICES[10] == (EtcdClientTLS, "grant-etcd-client");
  }

  lemma RenewalIs(service: Service, api: string, a: Action)
    ensures a in Renewal(service, api) <==>
            || (service != SSHHostLogin && a == GenerateKey(KeyPath(service)))
            || a == RequestOrRenew(service, api, if service == Granting then 14 * DAYS else 7 * DAYS)
  {
  }

  lemma RenewalsAre(a: Action)
    ensures a in Renewals(SERVICES) <==> (a.GenerateKey? || a.RequestOrRenew?) && InCycle(a)
  {
    InRenewals(SERVICES, a);
    forall i | 0 <= i < |SERVICES|
      ensures a in Renewal(SERVICES[i].0, SERVICES[i].1) ==> (a.GenerateKey? || a.RequestOrRenew?) && InCycle(a)
    {
      RenewalIs(SERVICES[i].0, SERVICES[i].1, a);
      ServicesAre(SERVICES[i].0, SERVICES[i].1);
      assert SERVICES[i] in SERVICES;
    }
    if (a.GenerateKey? || a.RequestOrRenew?) && InCycle(a) {
      var service := if a.GenerateKey? then a.path.service else a.service;
      ServicesAre(service, ApiOf(service));
      var i :| 0 <= i < |SERVICES| && SERVICES[i] == (service, ApiOf(service));
      RenewalIs(service, ApiOf(service), a);
    }
  }

  lemma DownloadsAre(source: Source, path: Path, refresh: int)
    ensures var a := Download(source, path, refresh); InCycle(a) ==> a in FIRST_ACTIONS
  {
    var a := Download(source, path, refresh);
    match path
    case KubernetesCAPath => assert InCycle(a) ==> FIRST_ACTIONS[2] == a;
    case ClusterCAPath => assert InCycle(a) ==> FIRST_ACTIONS[3] == a;
    case SSHUserCAPath => assert InCycle(a) ==> FIRST_ACTIONS[4] == a;
    case ClusterConfPath => assert InCycle(a) ==> FIRST_ACTIONS[5] == a;
    case LocalConfPath => assert InCycle(a) ==> FIRST_ACTIONS[6] == a;
    case ServiceAccountPath => assert InCycle(a) ==> FIRST_ACTIONS[8] == a;
    case EtcdClientCAPath => assert InCycle(a) ==> FIRST_ACTIONS[9] == a;
    case EtcdServerCAPath => assert InCycle(a) ==> FIRST_ACTIONS[10] == a;
    case ServiceAccountKeyPath => assert InCycle(a) ==> FIRST_ACTIONS[11] == a;
    case _ =>
  }

  lemma FirstAreInCycle(i: nat)
    requires i < |FIRST_ACTIONS|
    ensures InCycle(FIRST_ACTIONS[i])
  {
  }

  lemma FirstAre(a: Action)
    ensures InCycle(a) && !a.GenerateKey? && !a.RequestOrRenew? ==> a in FIRST_ACTIONS
  {
    match a
    case Bootstrap(_) => assert InCycle(a) ==> FIRST_ACTIONS[1] == a;
    case Download(source, path, refresh) => DownloadsAre(source, path, refresh);
    case ReloadHostname(_) => assert InCycle(a) ==> FIRST_ACTIONS[7] == a;
    case _ =>
  }

  /** ConvergeState performs exactly these actions: which authority's key goes into which file, and which API renews what. */
  lemma CycleExactly(a: Action)
    ensures a in ACTIONS <==> InCycle(a)
  {
    FirstAre(a);
    if a in FIRST_ACTIONS {
      var i :| 0 <= i < |FIRST_ACTIONS| && FIRST_ACTIONS[i] == a;
      FirstAreInCycle(i);
    }
    RenewalsAre(a);
  }

  predicate TLSFor(priv: Privilege<GroupName>, authority: Authority, commonname: string) {
    priv.TLSGrant? && priv.tls == authority && priv.commonname == commonname
  }

  // The certificate of a service on a node, as the keyserver grants it.
  predicate Serves(service: Service, conf: Setup, node: Node, priv: Privilege<GroupName>) {
    var dns := node.hostname + "." + conf.externalDomain;
    match service
    case Granting => TLSFor(priv, Keygranting, dns)
    case SSHHostLogin => priv.SSHGrant? && priv.ssh == SSHHost && priv.principals == [dns, node.hostname, node.ip]
    case KubernetesWorker => TLSFor(priv, Kubernetes, "system:node:" + node.hostname)
    case KubernetesSupervisor => TLSFor(priv, Kubernetes, "supervisor:" + node.hostname)
    case HomeworldPrivate => priv.TLSGrant? && priv.tls == ClusterCA && priv.dnsnames == ["homeworld.private"]
    case KubernetesMaster => TLSFor(priv, Kubernetes, "apiserver:" + node.hostname)
    case KubernetesCtrlMgr => TLSFor(priv, Kubernetes, "system:kube-controller-manager")
    case KubernetesProxy => TLSFor(priv, Kubernetes, "system:kube-proxy")
    case KubernetesScheduler => TLSFor(priv, Kubernetes, "system:kube-scheduler")
    case EtcdServerTLS => TLSFor(priv, EtcdServer, "etcd-server-" + node.hostname)
    case EtcdClientTLS => TLSFor(priv, EtcdClient, "etcd-client-" + node.hostname)
  }

  lemma MasterServes(service: Service, conf: Setup, node: Node, api: string, priv: Privilege<GroupName>)
    requires api == ApiOf(service) && MasterHolds(conf, node.hostname + "." + conf.externalDomain, node, api, priv)
    ensures Serves(service, conf, node, priv)
  {
  }

  lemma OthersServe(service: Service, conf: Setup, node: Node, api: string, priv: Privilege<GroupName>)
    requires api == ApiOf(service)
    requires SupervisorHolds(node, api, priv) || RunnerHolds(node.hostname + "." + conf.externalDomain, node, api, priv)
    ensures Serves(service, conf, node, priv)
  {
  }

  lemma GrantServes(service: Service, conf: Setup, node: Node, api: string, priv: Privilege<GroupName>)
    requires api == ApiOf(service) && NodeHolds(conf, node, api, priv)
    ensures Serves(service, conf, node, priv)
  {
    if MasterHolds(conf, node.hostname + "." + conf.externalDomain, node, api, priv) {
      MasterServes(service, conf, node, api, priv);
    } else if SupervisorHolds(node, api, priv) || RunnerHolds(node.hostname + "." + conf.externalDomain, node, api, priv) {
      OthersServe(service, conf, node, api, priv);
    }
  }

  /** So each service's certificate is renewed with the grant made for it, wherever a node holds that grant. */
  lemma RightGrantRenews(service: Service, api: string, inAdvance: int, conf: Setup, node: Node, priv: Privilege<GroupName>)
    requires RequestOrRenew(service, api, inAdvance) in ACTIONS && NodeHolds(conf, node, api, priv)
    ensures Serves(service, conf, node, priv)
  {
    CycleExactly(RequestOrRenew(service, api, inAdvance));
    GrantServes(service, conf, node, api, priv);
  }
}

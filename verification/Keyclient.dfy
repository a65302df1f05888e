/**
 The keyclient's actions (platform/keysystem/keyclient/actions), the state they share
 (platform/keysystem/keyclient/state/state.go) and the fixed list that ConvergeState runs
 (platform/keysystem/worldconfig/keyclient.go).

 An Env is everything one action learns from outside: two clock readings, the answer of the
 server, and which of its system calls work.  Files are written whole or not at all.
 */
module Keyclient {
  import opened Wrappers
  import opened Accounts
  import ConfFiles

  datatype Content = Key | Cert(notAfter: int) | Data(text: string)

  datatype File = File(mtime: int, content: Content)

  // Errors of github.com/pkg/errors: Wrap hides the type of an error, Cause finds it again.
  datatype Error = OperationForbidden | OtherError | Wrapped(inner: Error)

  function Cause(e: Error): Error {
    match e
    case Wrapped(inner) => Cause(inner)
    case _ => e
  }

  // answer is what endpoint.Request returns for the action's request.
  datatype Env = Env(now: int, later: int, answer: Result<Content, Error>,
                     readOk: bool, csrOk: bool, removeOk: bool, writeOk: bool, loadOk: bool, commandOk: bool)

  // API calls go through PostJSON, which wraps every error.
  function PostJSON(answer: Result<Content, Error>): Result<Content, Error> {
    match answer
    case Failure(e) => Failure(Wrapped(e))
    case Success(_) => answer
  }

  // Services for which the keyclient holds a key and a certificate.
  datatype Service =
    | Granting            // /etc/homeworld/keyclient/granting.{key,pem}
    | SSHHostLogin        // /etc/ssh/ssh_host_rsa_key.pub, /etc/ssh/ssh_host_rsa_cert
    | KubernetesWorker    // /etc/homeworld/keys/kubernetes-worker.{key,pem}, and so on
    | KubernetesSupervisor
    | HomeworldPrivate    // /etc/homeworld/ssl/homeworld.private.{key,pem}
    | KubernetesMaster
    | KubernetesCtrlMgr
    | KubernetesProxy
    | KubernetesScheduler
    | EtcdServerTLS
    | EtcdClientTLS

  datatype Path =
    | KeyPath(service: Service)
    | CertPath(service: Service)
    | BootstrapTokenPath  // /etc/homeworld/keyclient/bootstrap.token
    | LocalConfPath       // /etc/homeworld/config/local.conf
    | ClusterConfPath     // /etc/homeworld/config/cluster.conf
    | ClusterCAPath       // /usr/local/share/ca-certificates/extra/cluster.tls.crt
    | KubernetesCAPath    // /etc/homeworld/authorities/kubernetes.pem
    | EtcdClientCAPath    // /etc/homeworld/authorities/etcd-client.pem
    | EtcdServerCAPath    // /etc/homeworld/authorities/etcd-server.pem
    | SSHUserCAPath       // /etc/ssh/ssh_user_ca.pub
    | ServiceAccountPath  // /etc/homeworld/keys/serviceaccount.pem
    | ServiceAccountKeyPath // /etc/homeworld/keys/serviceaccount.key

  const GRANTING_KEY := KeyPath(Granting)
  const GRANTING_CERT := CertPath(Granting)

  datatype State = State(files: map<Path, File>, keygrant: Option<int>, retryAt: map<string, int>, hostname: string,
                         performed: bool, blocked: nat)

  datatype Source = PublicKey(authority: Authority) | ClusterConf | API(api: string)

  datatype Action =
    | GenerateKey(path: Path)
    | Bootstrap(api: string)
    | Download(source: Source, path: Path, refresh: int)
    | ReloadHostname(path: Path)
    | RequestOrRenew(service: Service, api: string, inAdvance: int)

  const ONE_WEEK := 7 * ONE_DAY
  const RETRY_AFTER := 12 * HOUR

  // ConvergeState, call by call.
  const FIRST_ACTIONS: seq<Action> := [
    GenerateKey(GRANTING_KEY),
    Action.Bootstrap(RENEW_KEYGRANT),
    Download(PublicKey(Kubernetes), KubernetesCAPath, ONE_DAY),
    Download(PublicKey(ClusterCA), ClusterCAPath, ONE_DAY),
    Download(PublicKey(SSHUser), SSHUserCAPath, ONE_WEEK),
    Download(ClusterConf, ClusterConfPath, ONE_DAY),
    Download(API(LOCAL_CONFIG), LocalConfPath, ONE_DAY),
    ReloadHostname(LocalConfPath),
    Download(PublicKey(ServiceAccount), ServiceAccountPath, ONE_DAY),
    Download(PublicKey(EtcdClient), EtcdClientCAPath, ONE_DAY),
    Download(PublicKey(EtcdServer), EtcdServerCAPath, ONE_DAY),
    Download(API(FETCH_SERVICEACCOUNT_KEY), ServiceAccountKeyPath, ONE_DAY)
  ]

  // The services in the order in which ConvergeState renews them, with their APIs.
  const SERVICES: seq<(Service, string)> := [
    (Granting, RENEW_KEYGRANT),
    (SSHHostLogin, GRANT_SSH_HOST),
    (KubernetesWorker, GRANT_KUBERNETES_WORKER),
    (KubernetesSupervisor, GRANT_KUBERNETES_SUPERVISOR),
    (HomeworldPrivate, GRANT_REGISTRY_HOST),
    (KubernetesMaster, GRANT_KUBERNETES_MASTER),
    (KubernetesCtrlMgr, GRANT_KUBERNETES_CTRL_MGR),
    (KubernetesProxy, GRANT_KUBERNETES_PROXY),
    (KubernetesScheduler, GRANT_KUBERNETES_SCHEDULER),
    (EtcdServerTLS, GRANT_ETCD_SERVER),
    (EtcdClientTLS, GRANT_ETCD_CLIENT)
  ]

  // How long before its end a certificate is renewed.
  function InAdvance(service: Service): int {
    if service == Granting then 2 * ONE_WEEK else ONE_WEEK
  }

  // TLSKey, or RequestOrRenewSSHKey for the SSH host key, which sshd generates.
  function Renewal(service: Service, api: string): seq<Action> {
    (if service == SSHHostLogin then [] else [GenerateKey(KeyPath(service))]) +
    [RequestOrRenew(service, api, InAdvance(service))]
  }

  function Renewals(services: seq<(Service, string)>): seq<Action> {
    if services == [] then [] else Renewal(services[0].0, services[0].1) + Renewals(services[1..])
  }

  const ACTIONS := FIRST_ACTIONS + Renewals(SERVICES)

  // ---- What each action does ----

  predicate IsEmpty(content: Content) {
    content == Data("")
  }

  predicate CanRetry(s: State, api: string, now: int) {
    api in s.retryAt ==> now > s.retryAt[api]
  }

  function Backoff(s: State, api: string, env: Env): State {
    s.(retryAt := s.retryAt[api := env.later + RETRY_AFTER])
  }

  function Block(s: State): State {
    s.(blocked := s.blocked + 1)
  }

  function Write(s: State, path: Path, content: Content, env: Env): State {
    s.(files := s.files[path := File(env.later, content)])
  }

  // ReloadKeygrantingCert; None is its error.
  function Reload(s: State, env: Env): Option<State> {
    if GRANTING_KEY in s.files && GRANTING_CERT in s.files && s.files[GRANTING_CERT].content.Cert? && env.loadOk
    then Some(s.(keygrant := Some(s.files[GRANTING_CERT].content.notAfter)))
    else None
  }

  function Install(s: State, env: Env): State {
    match Reload(s, env)
    case None => s
    case Some(s') => s'.(performed := true)
  }

  function DoGenerateKey(s: State, path: Path, env: Env): State {
    if path in s.files || !env.writeOk then s else Write(s, path, Key, env).(performed := true)
  }

  function DoBootstrap(s: State, api: string, env: Env): State {
    if !CanRetry(s, api, env.now) || s.keygrant.Some? || BootstrapTokenPath !in s.files then s
    else if GRANTING_KEY !in s.files then Block(s)
    else if !env.csrOk then s
    else
      match PostJSON(env.answer)
      case Failure(e) => if Cause(e) == OperationForbidden then Backoff(s, api, env) else s
      case Success(content) =>
        if !env.removeOk then s
        else
          var s1 := s.(files := s.files - {BootstrapTokenPath});
          if IsEmpty(content) || !env.writeOk then s1 else Install(Write(s1, GRANTING_CERT, content, env), env)
  }

  predicate NeedsRefresh(s: State, path: Path, refresh: int, env: Env) {
    env.readOk && (path in s.files ==> env.now - s.files[path].mtime > refresh)
  }

  function Store(s: State, path: Path, content: Content, env: Env): State {
    if IsEmpty(content) || !env.writeOk then s
    else
      var s1 := Write(s, path, content, env);
      if path == ClusterCAPath && !env.commandOk then s1 else s1.(performed := true)
  }

  function DoDownload(s: State, source: Source, path: Path, refresh: int, env: Env): State {
    if !NeedsRefresh(s, path, refresh, env) then s
    else
      match source
      case API(api) =>
        if !CanRetry(s, api, env.now) then s
        else if s.keygrant.None? then Block(s)
        else
          (match PostJSON(env.answer)
           case Failure(e) => if Cause(e) == OperationForbidden then Backoff(s, api, env) else s
           case Success(content) => Store(s, path, content, env))
      case _ =>
        (match env.answer
         case Failure(_) => s
         case Success(content) => Store(s, path, content, env))
  }

  function HostNode(content: Content): Option<string> {
    if !content.Data? then None
    else
      match ConfFiles.Parse(content.text)
      case None => None
      case Some(kvs) => if "HOST_NODE" in kvs then Some(kvs["HOST_NODE"]) else None
  }

  function DoReloadHostname(s: State, path: Path, env: Env): State {
    if path !in s.files then Block(s)
    else if !env.readOk then s
    else
      match HostNode(s.files[path].content)
      case None => s
      case Some(name) =>
        if name == s.hostname || !env.commandOk then s else s.(hostname := name, performed := true)
  }

  predicate ShouldRegenerate(s: State, path: Path, inAdvance: int, env: Env) {
    || path !in s.files
    || !env.readOk
    || !s.files[path].content.Cert?
    || s.files[path].content.notAfter - inAdvance <= env.now
  }

  // requestSignature looks for a bare OperationForbidden, which PostJSON has wrapped by then.
  function DoRequestOrRenew(s: State, service: Service, api: string, inAdvance: int, env: Env): State {
    var key, path := KeyPath(service), CertPath(service);
    if !CanRetry(s, api, env.now) || !ShouldRegenerate(s, path, inAdvance, env) then s
    else if s.keygrant.None? || key !in s.files then Block(s)
    else if !env.csrOk then s
    else
      match PostJSON(env.answer)
      case Failure(e) => if e == OperationForbidden then Backoff(s, api, env) else s
      case Success(content) =>
        if IsEmpty(content) || !env.writeOk then s
        else
          var s1 := Write(s, path, content, env);
          if path == GRANTING_CERT then Install(s1, env) else s1.(performed := true)
  }

  function Do(s: State, a: Action, env: Env): State {
    match a
    case GenerateKey(path) => DoGenerateKey(s, path, env)
    case Bootstrap(api) => DoBootstrap(s, api, env)
    case Download(source, path, refresh) => DoDownload(s, source, path, refresh, env)
    case ReloadHostname(path) => DoReloadHostname(s, path, env)
    case RequestOrRenew(service, api, inAdvance) => DoRequestOrRenew(s, service, api, inAdvance, env)
  }

  // The state after the first n actions.
  function DoUpTo(s: State, actions: seq<Action>, envs: seq<Env>, n: nat): State
    requires n <= |actions| == |envs|
  {
    if n == 0 then s else Do(DoUpTo(s, actions, envs, n - 1), actions[n - 1], envs[n - 1])
  }

  // One call of ConvergeState with a new NewActionContext.
  function Cycle(s: State, envs: seq<Env>): State
    requires |envs| == |ACTIONS|
  {
    DoUpTo(s.(performed := false, blocked := 0), ACTIONS, envs, |ACTIONS|)
  }

  /** No keyreq action ever backs off: the type assertion never sees the wrapped error. */
  lemma KeyreqNeverBacksOff(s: State, service: Service, api: string, inAdvance: int, env: Env)
    ensures DoRequestOrRenew(s, service, api, inAdvance, env).retryAt == s.retryAt
  {
  }

  /** The other API actions do back off, for twelve hours, exactly when they are told to. */
  lemma DownloadBacksOff(s: State, api: string, path: Path, refresh: int, env: Env)
    requires NeedsRefresh(s, path, refresh, env) && CanRetry(s, api, env.now) && s.keygrant.Some?
    requires env.now <= env.later
    ensures var s' := DoDownload(s, API(api), path, refresh, env);
            && (env.answer.Failure? && Cause(env.answer.error) == OperationForbidden ==>
                  forall t :: CanRetry(s', api, t) <==> t > env.later + 12 * 60 * 60 * SECOND)
            && (!(env.answer.Failure? && Cause(env.answer.error) == OperationForbidden) ==> s'.retryAt == s.retryAt)
  {
  }

  /** Bootstrapping too, once it has got as far as asking. */
  lemma BootstrapBacksOff(s: State, api: string, env: Env)
    requires CanRetry(s, api, env.now) && s.keygrant.None? && BootstrapTokenPath in s.files && GRANTING_KEY in s.files
    requires env.csrOk && env.now <= env.later
    ensures var s', forbidden := DoBootstrap(s, api, env), env.answer.Failure? && Cause(env.answer.error) == OperationForbidden;
            && (forbidden ==> forall t :: CanRetry(s', api, t) <==> t > env.later + 12 * 60 * 60 * SECOND)
            && (!forbidden ==> s'.retryAt == s.retryAt)
  {
  }
}

/**
 Who may do what: the account table that the keyserver builds from its setup file
 (platform/keysystem/worldconfig/keyserver.go), and the accounts and groups it is made of.

 Privileges are closures in the source; here they are data that name the closure and its
 captured variables.  A captured *Group is a handle of type G: a heap object while the table
 is built, a GroupName afterwards.
 */
module Accounts {
  import opened Wrappers
  import opened Text

  // net.IP values that net.ParseIP has already accepted
  type Address = nat

  datatype Kind = Supervisor | Master | Worker

  datatype Node = Node(hostname: string, ip: string, netIP: Address, kind: Kind)

  datatype Setup = Setup(
    externalDomain: string, internalDomain: string, realm: string, serviceAPI: string,
    nodes: seq<Node>, rootAdmins: seq<string>)

  datatype Authority =
    | Keygranting | Kubernetes | ClusterCA | SSHHost | SSHUser | ServiceAccount | EtcdServer | EtcdClient

  datatype Privilege<+G> =
    | TLSGrant(tls: Authority, ishost: bool, lifespan: int, commonname: string,
               dnsnames: seq<string>, organizations: seq<string>)
    | SSHGrant(ssh: Authority, ishost: bool, lifespan: int, keyid: string, principals: seq<string>)
    | Bootstrap(allowed: G, lifespan: int)
    | Impersonate(scope: G)
    | Configuration(contents: string)
    | FetchKey(source: Authority)

  datatype AccountData<+G> = AccountData(
    principal: string, disableDirectAuth: bool, limitIP: Option<Address>,
    privileges: map<string, Privilege<G>>)

  // The two groups of GenerateAccounts.
  datatype GroupName = KerberosAccounts | Nodes

  // Durations are counted in nanoseconds, as time.Duration does.
  const SECOND := 1_000_000_000
  const HOUR := 3600 * SECOND
  const ONE_DAY := 24 * HOUR

  const BOOTSTRAP_KEYINIT := "bootstrap-keyinit"
  const RENEW_KEYGRANT := "renew-keygrant"
  const AUTH_TO_KERBEROS := "auth-to-kerberos"
  const LOCAL_CONFIG := "get-local-config"
  const FETCH_SERVICEACCOUNT_KEY := "fetch-serviceaccount-key"
  const GRANT_KUBERNETES_WORKER := "grant-kubernetes-worker"
  const GRANT_KUBERNETES_MASTER := "grant-kubernetes-master"
  const GRANT_KUBERNETES_SUPERVISOR := "grant-kubernetes-supervisor"
  const GRANT_KUBERNETES_CTRL_MGR := "grant-kubernetes-ctrl-mgr"
  const GRANT_KUBERNETES_PROXY := "grant-kubernetes-proxy"
  const GRANT_KUBERNETES_SCHEDULER := "grant-kubernetes-scheduler"
  const GRANT_SSH_HOST := "grant-ssh-host"
  const GRANT_REGISTRY_HOST := "grant-registry-host"
  const GRANT_ETCD_SERVER := "grant-etcd-server"
  const GRANT_ETCD_CLIENT := "grant-etcd-client"
  const ACCESS_SSH := "access-ssh"
  const ACCESS_ETCD := "access-etcd"
  const ACCESS_KUBERNETES := "access-kubernetes"
  const ADMIN_BOOTSTRAP := "bootstrap"

  const METRICS_PRINCIPAL := "metrics@NONEXISTENT.REALM.INVALID"

  // A certificate stores its times in whole seconds.
  function WholeSeconds(t: int): int {
    t - t % SECOND
  }

  function DNS(conf: Setup, node: Node): string {
    node.hostname + "." + conf.externalDomain
  }

  function KindName(kind: Kind): string {
    match kind
    case Supervisor => "supervisor"
    case Master => "master"
    case Worker => "worker"
  }

  // The text of the raw string literal, line by line.
  function LocalConf(conf: Setup, node: Node): string {
    Join([
      "# generated automatically by keyserver",
      "HOST_NODE=" + node.hostname,
      "HOST_DNS=" + DNS(conf, node),
      "HOST_IP=" + node.ip,
      "SCHEDULE_WORK=" + (if node.kind == Worker then "true" else "false"),
      "KIND=" + KindName(node.kind)], "\n")
  }

  function AdmittingPrivileges<G>(node: Node, kerberos: G, nodes: G): map<string, Privilege<G>> {
    if node.kind == Supervisor
    then map[BOOTSTRAP_KEYINIT := Bootstrap(nodes, HOUR), AUTH_TO_KERBEROS := Impersonate(kerberos)]
    else map[]
  }

  function CommonPrivileges<G>(conf: Setup, node: Node): map<string, Privilege<G>> {
    map[
      RENEW_KEYGRANT := TLSGrant(Keygranting, false, 40 * ONE_DAY, DNS(conf, node), [], []),
      LOCAL_CONFIG := Configuration(LocalConf(conf, node)),
      GRANT_SSH_HOST := SSHGrant(SSHHost, true, 60 * ONE_DAY, "admitted-" + DNS(conf, node), Names(conf, node))
    ]
  }

  function ServerPrivileges<G>(conf: Setup, node: Node): map<string, Privilege<G>> {
    if node.kind != Master then map[] else map[
      GRANT_KUBERNETES_MASTER :=
        TLSGrant(Kubernetes, true, 30 * ONE_DAY, "apiserver:" + node.hostname,
                 [DNS(conf, node), node.hostname, "kubernetes", "kubernetes.default", "kubernetes.default.svc",
                  "kubernetes.default.svc." + conf.internalDomain, node.ip, conf.serviceAPI], []),
      GRANT_ETCD_SERVER := TLSGrant(EtcdServer, true, 30 * ONE_DAY, "etcd-server-" + node.hostname, Names(conf, node), [])
    ]
  }

  function KindPrivileges<G>(conf: Setup, node: Node): map<string, Privilege<G>> {
    if node.kind == Supervisor then map[
      GRANT_REGISTRY_HOST :=
        TLSGrant(ClusterCA, true, 30 * ONE_DAY, "homeworld-supervisor-" + node.hostname, ["homeworld.private"], []),
      GRANT_KUBERNETES_SUPERVISOR :=
        TLSGrant(Kubernetes, false, 30 * ONE_DAY, "supervisor:" + node.hostname, [], ["system:masters"])
    ] else map[
      GRANT_KUBERNETES_WORKER :=
        TLSGrant(Kubernetes, true, 30 * ONE_DAY, "system:node:" + node.hostname, Names(conf, node), ["system:nodes"]),
      GRANT_KUBERNETES_PROXY := TLSGrant(Kubernetes, false, 30 * ONE_DAY, "system:kube-proxy", [], [])
    ]
  }

  function ClientPrivileges<G>(conf: Setup, node: Node): map<string, Privilege<G>> {
    if node.kind != Master then map[] else map[
      GRANT_KUBERNETES_CTRL_MGR :=
        TLSGrant(Kubernetes, false, 30 * ONE_DAY, "system:kube-controller-manager", [], []),
      GRANT_KUBERNETES_SCHEDULER := TLSGrant(Kubernetes, false, 30 * ONE_DAY, "system:kube-scheduler", [], []),
      GRANT_ETCD_CLIENT := TLSGrant(EtcdClient, false, 30 * ONE_DAY, "etcd-client-" + node.hostname, Names(conf, node), []),
      FETCH_SERVICEACCOUNT_KEY := FetchKey(ServiceAccount)
    ]
  }

  function Names(conf: Setup, node: Node): seq<string> {
    [DNS(conf, node), node.hostname, node.ip]
  }

  /** The table of grants of one node, read off by kind of node. */
  function NodePrivileges<G>(conf: Setup, node: Node, kerberos: G, nodes: G): map<string, Privilege<G>> {
    AdmittingPrivileges(node, kerberos, nodes) + CommonPrivileges(conf, node) + ServerPrivileges(conf, node) +
    KindPrivileges(conf, node) + ClientPrivileges(conf, node)
  }

  function AdminPrivileges<G>(admin: string, nodes: G): map<string, Privilege<G>> {
    map[
      ACCESS_SSH := SSHGrant(SSHUser, false, 4 * HOUR, "temporary-ssh-grant-" + admin, ["root"]),
      ACCESS_ETCD := TLSGrant(EtcdClient, false, 4 * HOUR, "temporary-etcd-grant-" + admin, [], []),
      ACCESS_KUBERNETES := TLSGrant(Kubernetes, false, 4 * HOUR, "root:" + admin, [], ["system:masters"]),
      ADMIN_BOOTSTRAP := Bootstrap(nodes, HOUR)
    ]
  }

  function NodeAccount<G>(conf: Setup, node: Node, kerberos: G, nodes: G): AccountData<G> {
    AccountData(DNS(conf, node), false, Some(node.netIP), NodePrivileges(conf, node, kerberos, nodes))
  }

  function AdminAccount<G>(admin: string, nodes: G): AccountData<G> {
    AccountData(admin, true, None, AdminPrivileges(admin, nodes))
  }

  function Admins(conf: Setup): seq<string> {
    [METRICS_PRINCIPAL] + conf.rootAdmins
  }

  // The principals auth-monitor uses: one for each supervisor, if Kerberos is enabled at all.
  function MonitorPrincipals(conf: Setup, nodes: seq<Node>): seq<string> {
    if nodes == [] || |conf.rootAdmins| == 0 then []
    else MonitorPrincipals(conf, nodes[..|nodes| - 1]) +
         (if nodes[|nodes| - 1].kind == Supervisor
          then ["host/" + DNS(conf, nodes[|nodes| - 1]) + "@" + conf.realm] else [])
  }

  function MonitorAccount<G>(principal: string): AccountData<G> {
    AccountData(principal, true, None, map[])
  }

  function NodePrincipals(conf: Setup): seq<string> {
    seq(|conf.nodes|, i requires 0 <= i < |conf.nodes| => DNS(conf, conf.nodes[i]))
  }

  function KerberosPrincipals(conf: Setup): seq<string> {
    Admins(conf) + MonitorPrincipals(conf, conf.nodes)
  }

  function Members(conf: Setup, group: GroupName): seq<string> {
    match group
    case KerberosAccounts => KerberosPrincipals(conf)
    case Nodes => NodePrincipals(conf)
  }

  function NodeAccounts<G>(conf: Setup, kerberos: G, nodes: G): (list: seq<AccountData<G>>)
    ensures |list| == |conf.nodes|
    ensures forall i | 0 <= i < |list| :: list[i] == NodeAccount(conf, conf.nodes[i], kerberos, nodes)
  {
    seq(|conf.nodes|, i requires 0 <= i < |conf.nodes| => NodeAccount(conf, conf.nodes[i], kerberos, nodes))
  }

  function AdminAccounts<G>(conf: Setup, nodes: G): (list: seq<AccountData<G>>)
    ensures |list| == |Admins(conf)|
    ensures forall i | 0 <= i < |list| :: list[i] == AdminAccount(Admins(conf)[i], nodes)
  {
    seq(|Admins(conf)|, i requires 0 <= i < |Admins(conf)| => AdminAccount(Admins(conf)[i], nodes))
  }

  function MonitorAccounts<G>(conf: Setup): (list: seq<AccountData<G>>)
    ensures |list| == |MonitorPrincipals(conf, conf.nodes)|
    ensures forall i | 0 <= i < |list| :: list[i] == MonitorAccount(MonitorPrincipals(conf, conf.nodes)[i])
  {
    seq(|MonitorPrincipals(conf, conf.nodes)|,
        i requires 0 <= i < |MonitorPrincipals(conf, conf.nodes)| =>
          MonitorAccount(MonitorPrincipals(conf, conf.nodes)[i]))
  }

  function KerberosList<G>(conf: Setup, nodes: G): (list: seq<AccountData<G>>)
    ensures |list| == |KerberosPrincipals(conf)|
  {
    AdminAccounts(conf, nodes) + MonitorAccounts(conf)
  }

  /** Every account, in the order in which GenerateAccounts registers them. */
  function AccountList<G>(conf: Setup, kerberos: G, nodes: G): (list: seq<AccountData<G>>)
    ensures |list| == |conf.nodes| + |KerberosPrincipals(conf)|
  {
    NodeAccounts(conf, kerberos, nodes) + KerberosList(conf, nodes)
  }

  function PrincipalsOf<G>(list: seq<AccountData<G>>): (ps: seq<string>)
    ensures |ps| == |list|
    ensures forall i | 0 <= i < |ps| :: ps[i] == list[i].principal
  {
    seq(|list|, i requires 0 <= i < |list| => list[i].principal)
  }

  lemma PrincipalsAppend<G>(a: seq<AccountData<G>>, b: seq<AccountData<G>>)
    ensures PrincipalsOf(a + b) == PrincipalsOf(a) + PrincipalsOf(b)
  {
  }

  lemma NodePrincipalsListed<G>(conf: Setup, kerberos: G, nodes: G)
    ensures PrincipalsOf(NodeAccounts(conf, kerberos, nodes)) == NodePrincipals(conf)
  {
  }

  lemma AdminPrincipalsListed<G>(conf: Setup, nodes: G)
    ensures PrincipalsOf(AdminAccounts(conf, nodes)) == Admins(conf)
  {
  }

  lemma MonitorPrincipalsListed<G>(conf: Setup)
    ensures PrincipalsOf(MonitorAccounts<G>(conf)) == MonitorPrincipals(conf, conf.nodes)
  {
  }

  lemma KerberosPrincipalsListed<G>(conf: Setup, nodes: G)
    ensures PrincipalsOf(KerberosList(conf, nodes)) == KerberosPrincipals(conf)
  {
    PrincipalsAppend(AdminAccounts(conf, nodes), MonitorAccounts<G>(conf));
    AdminPrincipalsListed(conf, nodes);
    MonitorPrincipalsListed<G>(conf);
  }

  lemma EntryPrincipals<G>(conf: Setup, kerberos: G, nodes: G)
    ensures PrincipalsOf(AccountList(conf, kerberos, nodes)) == NodePrincipals(conf) + KerberosPrincipals(conf)
  {
    PrincipalsAppend(NodeAccounts(conf, kerberos, nodes), KerberosList(conf, nodes));
    NodePrincipalsListed(conf, kerberos, nodes);
    KerberosPrincipalsListed(conf, nodes);
  }

  /** Registration in a map keyed by principal: the last account of a principal wins. */
  function Register<G>(list: seq<AccountData<G>>): map<string, AccountData<G>> {
    if list == [] then map[]
    else Register(list[..|list| - 1])[list[|list| - 1].principal := list[|list| - 1]]
  }

  function Table<G>(conf: Setup, kerberos: G, nodes: G): map<string, AccountData<G>> {
    Register(AccountList(conf, kerberos, nodes))
  }

  // The table as the running keyserver reads it, groups by name.
  function AccountTable(conf: Setup): map<string, AccountData<GroupName>> {
    Table(conf, KerberosAccounts, Nodes)
  }

  predicate IsLastAt<G>(list: seq<AccountData<G>>, principal: string, i: nat) {
    && i < |list|
    && list[i].principal == principal
    && forall j | i < j < |list| :: list[j].principal != principal
  }

  /** Whatever is registered is the last account in the list with that principal. */
  lemma {:induction false} RegisterIsLastWrite<G>(list: seq<AccountData<G>>, principal: string)
    ensures principal in Register(list) <==> exists i: nat :: i < |list| && list[i].principal == principal
    ensures principal in Register(list) ==>
              exists i: nat :: IsLastAt(list, principal, i) && Register(list)[principal] == list[i]
  {
    if list != [] {
      var n := |list| - 1;
      var before := list[..n];
      RegisterIsLastWrite(before, principal);
      assert forall i: nat | i < n :: before[i] == list[i];
      if list[n].principal == principal {
        assert IsLastAt(list, principal, n);
      } else if principal in Register(before) {
        var i: nat :| IsLastAt(before, principal, i) && Register(before)[principal] == before[i];
        assert IsLastAt(list, principal, i);
      }
    }
  }

  predicate IsNodeAccount(conf: Setup, account: AccountData<GroupName>, node: Node) {
    node in conf.nodes && account == NodeAccount(conf, node, KerberosAccounts, Nodes)
  }

  predicate IsKerberosAccount(conf: Setup, account: AccountData<GroupName>) {
    && account.principal in KerberosPrincipals(conf)
    && (account == AdminAccount(account.principal, Nodes) || account == MonitorAccount(account.principal))
  }

  lemma NodeEntry(conf: Setup, i: nat)
    requires i < |conf.nodes|
    ensures var account := AccountList(conf, KerberosAccounts, Nodes)[i];
            account.principal == NodePrincipals(conf)[i] && IsNodeAccount(conf, account, conf.nodes[i])
  {
  }

  lemma KerberosEntry(conf: Setup, k: nat)
    requires k < |KerberosPrincipals(conf)|
    ensures var account := AccountList(conf, KerberosAccounts, Nodes)[|conf.nodes| + k];
            account.principal == KerberosPrincipals(conf)[k] && IsKerberosAccount(conf, account)
  {
    var account := KerberosList(conf, Nodes)[k];
    assert AccountList(conf, KerberosAccounts, Nodes)[|conf.nodes| + k] == account;
    InKerberosList(conf, k);
  }

  lemma InKerberosList(conf: Setup, k: nat)
    requires k < |KerberosPrincipals(conf)|
    ensures var account := KerberosList(conf, Nodes)[k];
            account.principal == KerberosPrincipals(conf)[k] && IsKerberosAccount(conf, account)
  {
    var admins, monitors := AdminAccounts(conf, Nodes), MonitorAccounts<GroupName>(conf);
    assert KerberosList(conf, Nodes)[k] == if k < |admins| then admins[k] else monitors[k - |admins|];
  }

  lemma RegisteredIn<G>(list: seq<AccountData<G>>, nodes: seq<string>, kerberos: seq<string>, p: string) returns (i: nat)
    requires PrincipalsOf(list) == nodes + kerberos && p in Register(list)
    ensures IsLastAt(list, p, i) && Register(list)[p] == list[i] && (p in kerberos <==> i >= |nodes|)
  {
    RegisterIsLastWrite(list, p);
    LastEntry(list, nodes, kerberos, p);
    i :| IsLastAt(list, p, i) && Register(list)[p] == list[i];
  }

  // Where the account registered under p is listed.
  lemma RegisteredAt(conf: Setup, p: string) returns (i: nat)
    requires p in AccountTable(conf)
    ensures var list := AccountList(conf, KerberosAccounts, Nodes);
            && i < |list| && AccountTable(conf)[p] == list[i] && list[i].principal == p
            && (p in KerberosPrincipals(conf) <==> i >= |conf.nodes|)
  {
    EntryPrincipals(conf, KerberosAccounts, Nodes);
    i := RegisteredIn(AccountList(conf, KerberosAccounts, Nodes), NodePrincipals(conf), KerberosPrincipals(conf), p);
  }

  lemma RegisteredPrincipals(conf: Setup, p: string)
    ensures p in AccountTable(conf) <==> p in NodePrincipals(conf) || p in KerberosPrincipals(conf)
  {
    var list := AccountList(conf, KerberosAccounts, Nodes);
    RegisterIsLastWrite(list, p);
    EntryPrincipals(conf, KerberosAccounts, Nodes);
    LastEntry(list, NodePrincipals(conf), KerberosPrincipals(conf), p);
  }

  /**
   Accounts registered under p: a node account exactly if p is a node and no Kerberos principal,
   a Kerberos account exactly if p is a Kerberos principal, whatever duplicates the setup holds.
   */
  lemma AccountKinds(conf: Setup, p: string)
    ensures p in AccountTable(conf) <==> p in NodePrincipals(conf) || p in KerberosPrincipals(conf)
    ensures p in AccountTable(conf) ==> AccountTable(conf)[p].principal == p
    ensures p in KerberosPrincipals(conf) ==> IsKerberosAccount(conf, AccountTable(conf)[p])
    ensures p in AccountTable(conf) && p !in KerberosPrincipals(conf) ==>
              exists node :: IsNodeAccount(conf, AccountTable(conf)[p], node)
  {
    RegisteredPrincipals(conf, p);
    if p in AccountTable(conf) {
      var i := RegisteredAt(conf, p);
      if i < |conf.nodes| { NodeEntry(conf, i); } else { KerberosEntry(conf, i - |conf.nodes|); }
    }
  }

  lemma LastEntry<G>(list: seq<AccountData<G>>, nodes: seq<string>, kerberos: seq<string>, p: string)
    requires PrincipalsOf(list) == nodes + kerberos
    ensures p in nodes || p in kerberos <==> exists i: nat :: i < |list| && list[i].principal == p
    ensures forall i: nat | IsLastAt(list, p, i) :: p in kerberos <==> i >= |nodes|
  {
    assert p in nodes || p in kerberos <==> p in PrincipalsOf(list);
    if p in kerberos {
      var k :| 0 <= k < |kerberos| && kerberos[k] == p;
      assert PrincipalsOf(list)[|nodes| + k] == p;
    }
    forall i: nat | i < |list| && i >= |nodes| && list[i].principal == p ensures p in kerberos {
      assert PrincipalsOf(list)[i] == kerberos[i - |nodes|];
    }
  }

  /** An account that may authenticate directly is a node's own, pinned to that node's address. */
  lemma DirectAccountsArePinned(conf: Setup, p: string)
    requires p in AccountTable(conf)
    ensures !AccountTable(conf)[p].disableDirectAuth <==> p !in KerberosPrincipals(conf)
    ensures !AccountTable(conf)[p].disableDirectAuth ==>
              exists node :: IsNodeAccount(conf, AccountTable(conf)[p], node) &&
                             AccountTable(conf)[p].limitIP == Some(node.netIP) && DNS(conf, node) == p
  {
    AccountKinds(conf, p);
  }

  // What a node account may do under an API name.
  predicate NodeMay(conf: Setup, node: Node, api: string, priv: Privilege<GroupName>) {
    match priv
    case TLSGrant(authority, _, lifespan, commonname, _, _) =>
      && lifespan == (if api == RENEW_KEYGRANT then 40 * ONE_DAY else 30 * ONE_DAY) && api != GRANT_SSH_HOST
      && (authority == Keygranting <==> api == RENEW_KEYGRANT)
      && (api == RENEW_KEYGRANT ==> commonname == DNS(conf, node))
    case SSHGrant(ssh, _, lifespan, _, _) =>
      ssh == SSHHost && lifespan == 60 * ONE_DAY && api == GRANT_SSH_HOST && api != RENEW_KEYGRANT
    case Bootstrap(allowed, lifespan) =>
      api == BOOTSTRAP_KEYINIT && allowed == Nodes && lifespan == HOUR && node.kind == Supervisor
    case Impersonate(scope) => api == AUTH_TO_KERBEROS && scope == KerberosAccounts && node.kind == Supervisor
    case Configuration(_) => api == LOCAL_CONFIG
    case FetchKey(_) => api == FETCH_SERVICEACCOUNT_KEY
  }

  lemma AdmittingFacts(conf: Setup, node: Node, api: string)
    ensures var privileges: map<string, Privilege<GroupName>> := AdmittingPrivileges(node, KerberosAccounts, Nodes);
            api in privileges ==> NodeMay(conf, node, api, privileges[api])
  {
  }

  lemma CommonFacts(conf: Setup, node: Node, api: string)
    ensures var privileges: map<string, Privilege<GroupName>> := CommonPrivileges(conf, node);
            api in privileges ==> NodeMay(conf, node, api, privileges[api])
  {
  }

  lemma ServerFacts(conf: Setup, node: Node, api: string)
    ensures var privileges: map<string, Privilege<GroupName>> := ServerPrivileges(conf, node);
            api in privileges ==> NodeMay(conf, node, api, privileges[api])
  {
  }

  lemma KindFacts(conf: Setup, node: Node, api: string)
    ensures var privileges: map<string, Privilege<GroupName>> := KindPrivileges(conf, node);
            api in privileges ==> NodeMay(conf, node, api, privileges[api])
  {
  }

  lemma ClientFacts(conf: Setup, node: Node, api: string)
    ensures var privileges: map<string, Privilege<GroupName>> := ClientPrivileges(conf, node);
            api in privileges ==> NodeMay(conf, node, api, privileges[api])
  {
  }

  lemma NodePrivilegeFacts(conf: Setup, node: Node, api: string, priv: Privilege<GroupName>)
    requires var privileges := NodePrivileges(conf, node, KerberosAccounts, Nodes);
             api in privileges && privileges[api] == priv
    ensures NodeMay(conf, node, api, priv)
  {
    AdmittingFacts(conf, node, api);
    CommonFacts(conf, node, api);
    ServerFacts(conf, node, api);
    KindFacts(conf, node, api);
    ClientFacts(conf, node, api);
  }

  // The privileges of a Kerberos account.
  lemma KerberosPrivilegeFacts(conf: Setup, account: AccountData<GroupName>, api: string)
    requires IsKerberosAccount(conf, account) && api in account.privileges
    ensures match account.privileges[api]
            case TLSGrant(authority, _, _, _, _, _) => authority != Keygranting
            case SSHGrant(ssh, _, _, _, _) => ssh == SSHUser
            case Bootstrap(allowed, lifespan) => allowed == Nodes && lifespan == HOUR
            case Impersonate(_) => false
            case Configuration(_) => false
            case FetchKey(_) => false
  {
  }

  /** Which privileges are dangerous, and who can hold them. */
  lemma PrivilegeHolders(conf: Setup, p: string, api: string)
    requires p in AccountTable(conf) && api in AccountTable(conf)[p].privileges
    ensures var priv := AccountTable(conf)[p].privileges[api];
            && (priv.TLSGrant? && priv.tls == Keygranting ==>
                  p !in KerberosPrincipals(conf) && priv.commonname == p && priv.lifespan == 40 * ONE_DAY && api == RENEW_KEYGRANT)
            && (priv.SSHGrant? ==> priv.ssh == if p in KerberosPrincipals(conf) then SSHUser else SSHHost)
            && (priv.Impersonate? ==>
                  && p !in KerberosPrincipals(conf)
                  && priv.scope == KerberosAccounts
                  && exists node :: IsNodeAccount(conf, AccountTable(conf)[p], node) && node.kind == Supervisor)
            && (priv.Bootstrap? ==>
                  && priv.allowed == Nodes && priv.lifespan == HOUR
                  && (p in KerberosPrincipals(conf) ||
                      exists node :: IsNodeAccount(conf, AccountTable(conf)[p], node) && node.kind == Supervisor))
  {
    AccountKinds(conf, p);
    if p in KerberosPrincipals(conf) {
      KerberosPrivilegeFacts(conf, AccountTable(conf)[p], api);
    } else {
      var node :| IsNodeAccount(conf, AccountTable(conf)[p], node);
      NodePrivilegeFacts(conf, node, api, AccountTable(conf)[p].privileges[api]);
    }
  }

  // ---- The same table, built in place ----

  class Group {
    var allMembers: seq<Account>

    constructor ()
      ensures allMembers == []
    {
      allMembers := [];
    }

    function Principals(): (ps: seq<string>)
      reads this, allMembers
      ensures |ps| == |allMembers|
    {
      seq(|allMembers|, i requires 0 <= i < |allMembers| reads this, allMembers => allMembers[i].principal)
    }

    method HasMember(user: string) returns (found: bool)
      ensures found <==> user in Principals()
    {
      for i := 0 to |allMembers|
        invariant forall j | 0 <= j < i :: Principals()[j] != user
      {
        if allMembers[i].principal == user {
          assert Principals()[i] == user;
          return true;
        }
      }
      return false;
    }
  }

  class Account {
    const principal: string
    const disableDirectAuth: bool
    const limitIP: Option<Address>
    var privileges: map<string, Privilege<Group>>

    constructor (principal: string, disableDirectAuth: bool, limitIP: Option<Address>)
      ensures this.principal == principal && this.disableDirectAuth == disableDirectAuth
      ensures this.limitIP == limitIP && privileges == map[]
    {
      this.principal, this.disableDirectAuth, this.limitIP := principal, disableDirectAuth, limitIP;
      privileges := map[];
    }

    function Data(): AccountData<Group>
      reads this
    {
      AccountData(principal, disableDirectAuth, limitIP, privileges)
    }
  }

  method GrantsForNodeAccount(conf: Setup, node: Node, kerberos: Group, nodes: Group)
    returns (grants: map<string, Privilege<Group>>)
    ensures grants == NodePrivileges(conf, node, kerberos, nodes)
  {
    grants := map[];
    var names := Names(conf, node);
    if node.kind == Supervisor {
      grants := grants[BOOTSTRAP_KEYINIT := Bootstrap(nodes, HOUR)];
      grants := grants[AUTH_TO_KERBEROS := Impersonate(kerberos)];
    }
    assert grants == AdmittingPrivileges(node, kerberos, nodes);
    grants := grants[RENEW_KEYGRANT := TLSGrant(Keygranting, false, 40 * ONE_DAY, DNS(conf, node), [], [])];
    grants := grants[LOCAL_CONFIG := Configuration(LocalConf(conf, node))];
    grants := grants[GRANT_SSH_HOST := SSHGrant(SSHHost, true, 60 * ONE_DAY, "admitted-" + DNS(conf, node), names)];
    assert grants == AdmittingPrivileges(node, kerberos, nodes) + CommonPrivileges(conf, node);
    grants := GrantsForServices(conf, node, grants);
  }

  // The rest of GrantsForNodeAccount: what a node needs to run Kubernetes and etcd.
  method GrantsForServices(conf: Setup, node: Node, before: map<string, Privilege<Group>>)
    returns (grants: map<string, Privilege<Group>>)
    ensures grants ==
            before + ServerPrivileges(conf, node) + KindPrivileges(conf, node) + ClientPrivileges(conf, node)
  {
    grants := before;
    var names := Names(conf, node);
    if node.kind == Master {
      grants := grants[GRANT_KUBERNETES_MASTER :=
        TLSGrant(Kubernetes, true, 30 * ONE_DAY, "apiserver:" + node.hostname,
                 [DNS(conf, node), node.hostname, "kubernetes", "kubernetes.default", "kubernetes.default.svc",
                  "kubernetes.default.svc." + conf.internalDomain, node.ip, conf.serviceAPI], [])];
      grants := grants[GRANT_ETCD_SERVER :=
        TLSGrant(EtcdServer, true, 30 * ONE_DAY, "etcd-server-" + node.hostname, names, [])];
    }
    assert grants == before + ServerPrivileges(conf, node);
    if node.kind == Supervisor {
      grants := grants[GRANT_REGISTRY_HOST :=
        TLSGrant(ClusterCA, true, 30 * ONE_DAY, "homeworld-supervisor-" + node.hostname, ["homeworld.private"], [])];
      grants := grants[GRANT_KUBERNETES_SUPERVISOR :=
        TLSGrant(Kubernetes, false, 30 * ONE_DAY, "supervisor:" + node.hostname, [], ["system:masters"])];
    } else {
      grants := grants[GRANT_KUBERNETES_WORKER :=
        TLSGrant(Kubernetes, true, 30 * ONE_DAY, "system:node:" + node.hostname, names, ["system:nodes"])];
      grants := grants[GRANT_KUBERNETES_PROXY :=
        TLSGrant(Kubernetes, false, 30 * ONE_DAY, "system:kube-proxy", [], [])];
    }
    assert grants == before + ServerPrivileges(conf, node) + KindPrivileges(conf, node);
    grants := GrantsForClients(conf, node, grants);
  }

  // Its last part: a master's own clients.
  method GrantsForClients(conf: Setup, node: Node, before: map<string, Privilege<Group>>)
    returns (grants: map<string, Privilege<Group>>)
    ensures grants == before + ClientPrivileges(conf, node)
  {
    grants := before;
    var names := Names(conf, node);
    if node.kind == Master {
      grants := grants[GRANT_KUBERNETES_CTRL_MGR :=
        TLSGrant(Kubernetes, false, 30 * ONE_DAY, "system:kube-controller-manager", [], [])];
      grants := grants[GRANT_KUBERNETES_SCHEDULER :=
        TLSGrant(Kubernetes, false, 30 * ONE_DAY, "system:kube-scheduler", [], [])];
      grants := grants[GRANT_ETCD_CLIENT :=
        TLSGrant(EtcdClient, false, 30 * ONE_DAY, "etcd-client-" + node.hostname, names, [])];
      grants := grants[FETCH_SERVICEACCOUNT_KEY := FetchKey(ServiceAccount)];
    }
  }

  method GrantsForRootAdminAccount(admin: string, nodes: Group) returns (grants: map<string, Privilege<Group>>)
    ensures grants == AdminPrivileges(admin, nodes)
  {
    grants := map[];
    grants := grants[ACCESS_SSH := SSHGrant(SSHUser, false, 4 * HOUR, "temporary-ssh-grant-" + admin, ["root"])];
    grants := grants[ACCESS_ETCD :=
      TLSGrant(EtcdClient, false, 4 * HOUR, "temporary-etcd-grant-" + admin, [], [])];
    grants := grants[ACCESS_KUBERNETES :=
      TLSGrant(Kubernetes, false, 4 * HOUR, "root:" + admin, [], ["system:masters"])];
    grants := grants[ADMIN_BOOTSTRAP := Bootstrap(nodes, HOUR)];
  }

  predicate Lists(accounts: seq<Account>, list: seq<AccountData<Group>>)
    reads accounts
  {
    |accounts| == |list| && forall i | 0 <= i < |list| :: accounts[i].Data() == list[i]
  }

  // First loop of GenerateAccounts: one account for each node, also entered in the group of nodes.
  method AddNodeAccounts(conf: Setup, kerberos: Group, nodes: Group) returns (all: seq<Account>)
    requires nodes.allMembers == []
    modifies nodes
    ensures forall a | a in all :: fresh(a)
    ensures nodes.allMembers == all && Lists(all, NodeAccounts(conf, kerberos, nodes))
  {
    all := [];
    for i := 0 to |conf.nodes|
      invariant forall a | a in all :: fresh(a)
      invariant nodes.allMembers == all && |all| == i
      invariant forall j | 0 <= j < i :: all[j].Data() == NodeAccount(conf, conf.nodes[j], kerberos, nodes)
    {
      var node := conf.nodes[i];
      var acc := new Account(DNS(conf, node), false, Some(node.netIP));
      nodes.allMembers := nodes.allMembers + [acc];
      acc.privileges := GrantsForNodeAccount(conf, node, kerberos, nodes);
      assert acc.Data() == NodeAccount(conf, node, kerberos, nodes);
      all := all + [acc];
    }
  }

  // Second loop: one account for the metrics principal and each root admin.
  method AddAdminAccounts(conf: Setup, kerberos: Group, nodes: Group) returns (all: seq<Account>)
    requires kerberos.allMembers == [] && kerberos != nodes
    modifies kerberos
    ensures forall a | a in all :: fresh(a)
    ensures kerberos.allMembers == all && Lists(all, AdminAccounts(conf, nodes))
  {
    all := [];
    var admins := Admins(conf);
    for i := 0 to |admins|
      invariant forall a | a in all :: fresh(a)
      invariant kerberos.allMembers == all && |all| == i
      invariant forall j | 0 <= j < i :: all[j].Data() == AdminAccount(admins[j], nodes)
    {
      var acc := new Account(admins[i], true, None);
      kerberos.allMembers := kerberos.allMembers + [acc];
      acc.privileges := GrantsForRootAdminAccount(admins[i], nodes);
      all := all + [acc];
    }
  }

  // Third loop: the accounts auth-monitor uses, without any privilege.
  method AddMonitorAccounts(conf: Setup, kerberos: Group) returns (all: seq<Account>)
    modifies kerberos
    ensures forall a | a in all :: fresh(a)
    ensures kerberos.allMembers == old(kerberos.allMembers) + all && Lists(all, MonitorAccounts(conf))
  {
    all := [];
    if |conf.rootAdmins| > 0 {
      for i := 0 to |conf.nodes|
        invariant forall a | a in all :: fresh(a)
        invariant kerberos.allMembers == old(kerberos.allMembers) + all
        invariant |all| == |MonitorPrincipals(conf, conf.nodes[..i])|
        invariant forall j | 0 <= j < |all| ::
                    all[j].Data() == MonitorAccount(MonitorPrincipals(conf, conf.nodes[..i])[j])
      {
        var node := conf.nodes[i];
        assert conf.nodes[..i + 1][..i] == conf.nodes[..i];
        if node.kind == Supervisor {
          var acc := new Account("host/" + DNS(conf, node) + "@" + conf.realm, true, None);
          kerberos.allMembers := kerberos.allMembers + [acc];
          acc.privileges := map[];
          all := all + [acc];
        }
      }
      assert conf.nodes[..|conf.nodes|] == conf.nodes;
    }
  }

  // Fourth loop: registration by principal.
  method RegisterAccounts(all: seq<Account>, ghost list: seq<AccountData<Group>>)
    returns (accounts: map<string, Account>)
    requires Lists(all, list)
    ensures accounts.Keys == Register(list).Keys
    ensures forall p | p in accounts :: accounts[p] in all && accounts[p].Data() == Register(list)[p]
  {
    accounts := map[];
    for i := 0 to |all|
      invariant accounts.Keys == Register(list[..i]).Keys
      invariant forall p | p in accounts :: accounts[p] in all && accounts[p].Data() == Register(list[..i])[p]
    {
      accounts := accounts[all[i].principal := all[i]];
      assert list[..i + 1][..i] == list[..i];
      assert all[i].Data() == list[i];
    }
    assert list[..|all|] == list;
  }

  // The second and third loops.
  method AddKerberosAccounts(conf: Setup, kerberos: Group, nodes: Group) returns (all: seq<Account>)
    requires kerberos.allMembers == [] && kerberos != nodes
    modifies kerberos
    ensures forall a | a in all :: fresh(a)
    ensures kerberos.allMembers == all && Lists(all, KerberosList(conf, nodes))
  {
    var admins := AddAdminAccounts(conf, kerberos, nodes);
    var monitors := AddMonitorAccounts(conf, kerberos);
    ListsAppend(admins, monitors, AdminAccounts(conf, nodes), MonitorAccounts(conf));
    all := admins + monitors;
  }

  // The first three: all accounts, and both groups filled.
  method ListAccounts(conf: Setup, kerberos: Group, nodes: Group) returns (all: seq<Account>)
    requires kerberos.allMembers == [] && nodes.allMembers == [] && kerberos != nodes
    modifies kerberos, nodes
    ensures forall a | a in all :: fresh(a)
    ensures nodes.Principals() == Members(conf, Nodes) && kerberos.Principals() == Members(conf, KerberosAccounts)
    ensures Lists(all, AccountList(conf, kerberos, nodes))
  {
    var nodeAccounts := AddNodeAccounts(conf, kerberos, nodes);
    var others := AddKerberosAccounts(conf, kerberos, nodes);
    AllListed(conf, nodeAccounts, others, kerberos, nodes);
    all := nodeAccounts + others;
  }

  /**
   Builds the accounts and the two groups.  A group keeps growing after privileges have captured it;
   what a privilege sees later is the complete membership.
   */
  method GenerateAccounts(conf: Setup) returns (accounts: map<string, Account>, kerberos: Group, nodes: Group)
    ensures fresh(kerberos) && fresh(nodes) && kerberos != nodes
    ensures nodes.Principals() == Members(conf, Nodes)
    ensures kerberos.Principals() == Members(conf, KerberosAccounts)
    ensures accounts.Keys == Table(conf, kerberos, nodes).Keys
    ensures forall p | p in accounts :: accounts[p].Data() == Table(conf, kerberos, nodes)[p]
  {
    kerberos := new Group();
    nodes := new Group();
    var all := ListAccounts(conf, kerberos, nodes);
    accounts := RegisterAccounts(all, AccountList(conf, kerberos, nodes));
  }

  lemma AllListed(conf: Setup, nodeAccounts: seq<Account>, others: seq<Account>, kerberos: Group, nodes: Group)
    requires Lists(nodeAccounts, NodeAccounts(conf, kerberos, nodes)) && Lists(others, KerberosList(conf, nodes))
    requires nodes.allMembers == nodeAccounts && kerberos.allMembers == others
    ensures Lists(nodeAccounts + others, AccountList(conf, kerberos, nodes))
    ensures nodes.Principals() == Members(conf, Nodes)
    ensures kerberos.Principals() == Members(conf, KerberosAccounts)
  {
    ListsAppend(nodeAccounts, others, NodeAccounts(conf, kerberos, nodes), KerberosList(conf, nodes));
    MembersListed(nodes, NodeAccounts(conf, kerberos, nodes));
    MembersListed(kerberos, KerberosList(conf, nodes));
    NodePrincipalsListed(conf, kerberos, nodes);
    KerberosPrincipalsListed(conf, nodes);
  }

  lemma ListsAppend(a: seq<Account>, b: seq<Account>, listA: seq<AccountData<Group>>, listB: seq<AccountData<Group>>)
    requires Lists(a, listA) && Lists(b, listB)
    ensures Lists(a + b, listA + listB)
  {
  }

  lemma MembersListed(group: Group, list: seq<AccountData<Group>>)
    requires Lists(group.allMembers, list)
    ensures group.Principals() == PrincipalsOf(list)
  {
    forall i | 0 <= i < |list| ensures group.Principals()[i] == list[i].principal {
      assert group.allMembers[i].Data() == list[i];
    }
  }
}

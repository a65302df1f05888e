/**
 The account table, read out: what every registered account may do, account by account and API by API, as the setup
 file and the functions that grant privileges (platform/keysystem/worldconfig/keyserver.go) have it.
 */
module GrantTable {
  import opened Wrappers
  import opened Accounts

  const MINUTES := 60 * 1_000_000_000
  const HOURS := 60 * MINUTES
  const DAYS := 24 * HOURS

  // A privilege of a node's account under an API name.
  predicate NodeHolds(conf: Setup, node: Node, api: string, priv: Privilege<GroupName>) {
    var dns := node.hostname + "." + conf.externalDomain;
    || (api == "renew-keygrant" && priv == TLSGrant(Keygranting, false, 40 * DAYS, dns, [], []))
    || (api == "get-local-config" && priv == Configuration(LocalConf(conf, node)))
    || (api == "grant-ssh-host" && priv == SSHGrant(SSHHost, true, 60 * DAYS, "admitted-" + dns, [dns, node.hostname, node.ip]))
    || (node.kind == Supervisor && SupervisorHolds(node, api, priv))
    || (node.kind != Supervisor && RunnerHolds(dns, node, api, priv))
    || (node.kind == Master && MasterHolds(conf, dns, node, api, priv))
  }

  predicate SupervisorHolds(node: Node, api: string, priv: Privilege<GroupName>) {
    || (api == "bootstrap-keyinit" && priv == Bootstrap(Nodes, HOURS))
    || (api == "auth-to-kerberos" && priv == Impersonate(KerberosAccounts))
    || (api == "grant-registry-host" &&
        priv == TLSGrant(ClusterCA, true, 30 * DAYS, "homeworld-supervisor-" + node.hostname, ["homeworld.private"], []))
    || (api == "grant-kubernetes-supervisor" &&
        priv == TLSGrant(Kubernetes, false, 30 * DAYS, "supervisor:" + node.hostname, [], ["system:masters"]))
  }

  // Masters and workers run pods.
  predicate RunnerHolds(dns: string, node: Node, api: string, priv: Privilege<GroupName>) {
    || (api == "grant-kubernetes-worker" &&
        priv == TLSGrant(Kubernetes, true, 30 * DAYS, "system:node:" + node.hostname, [dns, node.hostname, node.ip],
                         ["system:nodes"]))
    || (api == "grant-kubernetes-proxy" && priv == TLSGrant(Kubernetes, false, 30 * DAYS, "system:kube-proxy", [], []))
  }

  predicate MasterHolds(conf: Setup, dns: string, node: Node, api: string, priv: Privilege<GroupName>) {
    || (api == "grant-kubernetes-master" &&
        priv == TLSGrant(Kubernetes, true, 30 * DAYS, "apiserver:" + node.hostname,
                         [dns, node.hostname, "kubernetes", "kubernetes.default", "kubernetes.default.svc",
                          "kubernetes.default.svc." + conf.internalDomain, node.ip, conf.serviceAPI], []))
    || (api == "grant-etcd-server" &&
        priv == TLSGrant(EtcdServer, true, 30 * DAYS, "etcd-server-" + node.hostname, [dns, node.hostname, node.ip], []))
    || (api == "grant-kubernetes-ctrl-mgr" &&
        priv == TLSGrant(Kubernetes, false, 30 * DAYS, "system:kube-controller-manager", [], []))
    || (api == "grant-kubernetes-scheduler" &&
        priv == TLSGrant(Kubernetes, false, 30 * DAYS, "system:kube-scheduler", [], []))
    || (api == "grant-etcd-client" &&
        priv == TLSGrant(EtcdClient, false, 30 * DAYS, "etcd-client-" + node.hostname, [dns, node.hostname, node.ip], []))
    || (api == "fetch-serviceaccount-key" && priv == FetchKey(ServiceAccount))
  }

  predicate AdminHolds(p: string, api: string, priv: Privilege<GroupName>) {
    || (api == "access-ssh" && priv == SSHGrant(SSHUser, false, 4 * HOURS, "temporary-ssh-grant-" + p, ["root"]))
    || (api == "access-etcd" && priv == TLSGrant(EtcdClient, false, 4 * HOURS, "temporary-etcd-grant-" + p, [], []))
    || (api == "access-kubernetes" && priv == TLSGrant(Kubernetes, false, 4 * HOURS, "root:" + p, [], ["system:masters"]))
    || (api == "bootstrap" && priv == Bootstrap(Nodes, HOURS))
  }

  type Privileges = map<string, Privilege<GroupName>>

  // What a map of privileges has under a name.
  predicate Has(privileges: Privileges, api: string, priv: Privilege<GroupName>) {
    api in privileges && privileges[api] == priv
  }

  lemma Lengths()
    ensures HOUR == HOURS && ONE_DAY == DAYS
  {
  }

  lemma AdmittingHas(node: Node, api: string, priv: Privilege<GroupName>)
    ensures Has(AdmittingPrivileges(node, KerberosAccounts, Nodes), api, priv) <==>
            node.kind == Supervisor &&
            ((api == "bootstrap-keyinit" && priv == Bootstrap(Nodes, HOURS)) ||
             (api == "auth-to-kerberos" && priv == Impersonate(KerberosAccounts)))
  {
  }

  lemma CommonHas(conf: Setup, node: Node, api: string, priv: Privilege<GroupName>)
    ensures var dns := node.hostname + "." + conf.externalDomain;
            Has(CommonPrivileges(conf, node), api, priv) <==>
            || (api == "renew-keygrant" && priv == TLSGrant(Keygranting, false, 40 * DAYS, dns, [], []))
            || (api == "get-local-config" && priv == Configuration(LocalConf(conf, node)))
            || (api == "grant-ssh-host" &&
                priv == SSHGrant(SSHHost, true, 60 * DAYS, "admitted-" + dns, [dns, node.hostname, node.ip]))
  {
  }

  lemma KindHas(conf: Setup, node: Node, api: string, priv: Privilege<GroupName>)
    ensures var dns := node.hostname + "." + conf.externalDomain;
            Has(KindPrivileges(conf, node), api, priv) <==>
            if node.kind == Supervisor then
              || (api == "grant-registry-host" &&
                  priv == TLSGrant(ClusterCA, true, 30 * DAYS, "homeworld-supervisor-" + node.hostname, ["homeworld.private"], []))
              || (api == "grant-kubernetes-supervisor" &&
                  priv == TLSGrant(Kubernetes, false, 30 * DAYS, "supervisor:" + node.hostname, [], ["system:masters"]))
            else RunnerHolds(dns, node, api, priv)
  {
  }

  lemma MasterHas(conf: Setup, node: Node, api: string, priv: Privilege<GroupName>)
    ensures Has(ServerPrivileges(conf, node), api, priv) || Has(ClientPrivileges(conf, node), api, priv) <==>
            node.kind == Master && MasterHolds(conf, node.hostname + "." + conf.externalDomain, node, api, priv)
  {
  }

  // Which part of the privileges has a name, by number; the names of different parts differ.
  lemma NamesApart(conf: Setup, node: Node, api: string) returns (n: nat)
    ensures api in AdmittingPrivileges(node, KerberosAccounts, Nodes) ==> n == 1
    ensures api in CommonPrivileges<GroupName>(conf, node) ==> n == 2
    ensures api in ServerPrivileges<GroupName>(conf, node) ==> n == 3
    ensures api in KindPrivileges<GroupName>(conf, node) ==> n == 4
    ensures api in ClientPrivileges<GroupName>(conf, node) ==> n == 5
  {
    n := if api == "bootstrap-keyinit" || api == "auth-to-kerberos" then 1
         else if api == "renew-keygrant" || api == "get-local-config" || api == "grant-ssh-host" then 2
         else if api == "grant-kubernetes-master" || api == "grant-etcd-server" then 3
         else if api == "grant-registry-host" || api == "grant-kubernetes-supervisor" || api == "grant-kubernetes-worker" ||
                 api == "grant-kubernetes-proxy" then 4
         else 5;
  }

  lemma MergedHas(a: Privileges, b: Privileges, c: Privileges, d: Privileges, e: Privileges, n: nat, api: string,
                  priv: Privilege<GroupName>)
    requires (api in a ==> n == 1) && (api in b ==> n == 2) && (api in c ==> n == 3) && (api in d ==> n == 4)
    requires api in e ==> n == 5
    ensures Has(a + b + c + d + e, api, priv) <==>
            Has(a, api, priv) || Has(b, api, priv) || Has(c, api, priv) || Has(d, api, priv) || Has(e, api, priv)
  {
  }

  lemma NodeHas(conf: Setup, node: Node, api: string, priv: Privilege<GroupName>)
    ensures Has(NodePrivileges(conf, node, KerberosAccounts, Nodes), api, priv) <==> NodeHolds(conf, node, api, priv)
  {
    var n := NamesApart(conf, node, api);
    MergedHas(AdmittingPrivileges(node, KerberosAccounts, Nodes), CommonPrivileges(conf, node), ServerPrivileges(conf, node),
              KindPrivileges(conf, node), ClientPrivileges(conf, node), n, api, priv);
    AdmittingHas(node, api, priv);
    CommonHas(conf, node, api, priv);
    KindHas(conf, node, api, priv);
    MasterHas(conf, node, api, priv);
  }

  lemma AdminHas(p: string, api: string, priv: Privilege<GroupName>)
    ensures Has(AdminPrivileges(p, Nodes), api, priv) <==> AdminHolds(p, api, priv)
  {
  }

  // ---- Who is registered ----

  // The principal that auth-monitor uses on some supervisor, if Kerberos is enabled.
  ghost predicate IsMonitor(conf: Setup, p: string) {
    |conf.rootAdmins| > 0 &&
    exists node :: node in conf.nodes && node.kind == Supervisor &&
                   p == "host/" + (node.hostname + "." + conf.externalDomain) + "@" + conf.realm
  }

  predicate IsAdmin(conf: Setup, p: string) {
    p == "metrics@NONEXISTENT.REALM.INVALID" || p in conf.rootAdmins
  }

  lemma {:induction false} MonitorsAre(conf: Setup, nodes: seq<Node>, p: string)
    ensures p in MonitorPrincipals(conf, nodes) <==>
            |conf.rootAdmins| > 0 &&
            exists node :: node in nodes && node.kind == Supervisor &&
                           p == "host/" + (node.hostname + "." + conf.externalDomain) + "@" + conf.realm
  {
    if nodes != [] {
      var init, last := nodes[..|nodes| - 1], nodes[|nodes| - 1];
      MonitorsAre(conf, init, p);
      assert nodes == init + [last];
      assert forall node :: node in nodes <==> node in init || node == last;
    }
  }

  /** Kerberos principals are the admins, the one for metrics, and the monitors of supervisors; nodes go by their DNS names. */
  lemma PrincipalsAre(conf: Setup, p: string)
    ensures p in KerberosPrincipals(conf) <==> IsAdmin(conf, p) || IsMonitor(conf, p)
    ensures p in NodePrincipals(conf) <==> exists node :: node in conf.nodes && p == node.hostname + "." + conf.externalDomain
  {
    MonitorsAre(conf, conf.nodes, p);
    assert p in NodePrincipals(conf) <==> exists i :: 0 <= i < |conf.nodes| && NodePrincipals(conf)[i] == p;
    if node :| node in conf.nodes && p == node.hostname + "." + conf.externalDomain {
      var i :| 0 <= i < |conf.nodes| && conf.nodes[i] == node;
      assert NodePrincipals(conf)[i] == p;
    }
    assert forall i | 0 <= i < |conf.nodes| :: NodePrincipals(conf)[i] == conf.nodes[i].hostname + "." + conf.externalDomain;
  }

  // ---- What is registered ----

  // The account of a node, which authenticates from the node's own address.
  ghost predicate IsOfNode(conf: Setup, a: AccountData<GroupName>, node: Node) {
    && a.principal == node.hostname + "." + conf.externalDomain && !a.disableDirectAuth && a.limitIP == Some(node.netIP)
    && forall api, priv :: Has(a.privileges, api, priv) <==> NodeHolds(conf, node, api, priv)
  }

  ghost predicate IsOfAdmin(a: AccountData<GroupName>, p: string) {
    && a.principal == p && a.disableDirectAuth && a.limitIP == None
    && forall api, priv :: Has(a.privileges, api, priv) <==> AdminHolds(p, api, priv)
  }

  ghost predicate IsOfMonitor(a: AccountData<GroupName>, p: string) {
    a.principal == p && a.disableDirectAuth && a.limitIP == None && a.privileges == map[]
  }

  // The last node of the setup that goes by this DNS name.
  predicate IsLastNode(conf: Setup, i: nat, p: string) {
    && i < |conf.nodes| && conf.nodes[i].hostname + "." + conf.externalDomain == p
    && forall j | i < j < |conf.nodes| :: conf.nodes[j].hostname + "." + conf.externalDomain != p
  }

  lemma NodeAt(conf: Setup, i: nat)
    requires i < |conf.nodes|
    ensures IsOfNode(conf, AccountList(conf, KerberosAccounts, Nodes)[i], conf.nodes[i])
  {
    forall api, priv
      ensures Has(NodePrivileges(conf, conf.nodes[i], KerberosAccounts, Nodes), api, priv) <==>
              NodeHolds(conf, conf.nodes[i], api, priv)
    {
      NodeHas(conf, conf.nodes[i], api, priv);
    }
    assert AccountList(conf, KerberosAccounts, Nodes)[i] == NodeAccounts(conf, KerberosAccounts, Nodes)[i];
  }

  lemma AdminAt(conf: Setup, k: nat)
    requires k < |Admins(conf)|
    ensures IsOfAdmin(AccountList(conf, KerberosAccounts, Nodes)[|conf.nodes| + k], Admins(conf)[k])
  {
    forall api, priv ensures Has(AdminPrivileges(Admins(conf)[k], Nodes), api, priv) <==> AdminHolds(Admins(conf)[k], api, priv) {
      AdminHas(Admins(conf)[k], api, priv);
    }
    Behind(NodeAccounts(conf, KerberosAccounts, Nodes), KerberosList(conf, Nodes), k);
    assert KerberosList(conf, Nodes)[k] == AdminAccounts(conf, Nodes)[k];
  }

  lemma MonitorAt(conf: Setup, k: nat)
    requires k < |MonitorPrincipals(conf, conf.nodes)|
    ensures IsOfMonitor(AccountList(conf, KerberosAccounts, Nodes)[|conf.nodes| + |Admins(conf)| + k],
                        MonitorPrincipals(conf, conf.nodes)[k])
  {
    Behind(NodeAccounts(conf, KerberosAccounts, Nodes), KerberosList(conf, Nodes), |Admins(conf)| + k);
    MonitorBehind(conf, k);
  }

  lemma MonitorBehind(conf: Setup, k: nat)
    requires k < |MonitorPrincipals(conf, conf.nodes)|
    ensures IsOfMonitor(KerberosList(conf, Nodes)[|Admins(conf)| + k], MonitorPrincipals(conf, conf.nodes)[k])
  {
    Behind(AdminAccounts(conf, Nodes), MonitorAccounts<GroupName>(conf), k);
  }

  lemma Behind<T>(a: seq<T>, b: seq<T>, k: nat)
    requires k < |b|
    ensures (a + b)[|a| + k] == b[k]
  {
  }

  lemma AdminsAre(conf: Setup, p: string)
    ensures p in Admins(conf) <==> IsAdmin(conf, p)
  {
  }

  // Registered under p: where it is listed.
  lemma RegisteredWhere(conf: Setup, p: string) returns (i: nat)
    requires p in AccountTable(conf)
    ensures IsLastAt(AccountList(conf, KerberosAccounts, Nodes), p, i)
    ensures AccountTable(conf)[p] == AccountList(conf, KerberosAccounts, Nodes)[i]
    ensures p in MonitorPrincipals(conf, conf.nodes) <==> i >= |conf.nodes| + |Admins(conf)|
    ensures p in KerberosPrincipals(conf) <==> i >= |conf.nodes|
  {
    var list := AccountList(conf, KerberosAccounts, Nodes);
    var nodes, admins, monitors := NodePrincipals(conf), Admins(conf), MonitorPrincipals(conf, conf.nodes);
    EntryPrincipals(conf, KerberosAccounts, Nodes);
    assert nodes + (admins + monitors) == (nodes + admins) + monitors;
    i := RegisteredIn(list, nodes + admins, monitors, p);
    LastEntry(list, nodes, admins + monitors, p);
  }

  lemma LastOfNodes(conf: Setup, p: string, i: nat)
    requires IsLastAt(AccountList(conf, KerberosAccounts, Nodes), p, i) && i < |conf.nodes|
    ensures IsLastNode(conf, i, p)
  {
    forall j: nat | j < |conf.nodes|
      ensures AccountList(conf, KerberosAccounts, Nodes)[j].principal == conf.nodes[j].hostname + "." + conf.externalDomain
    {
      NodeEntry(conf, j);
    }
  }

  // Number i of all accounts.
  ghost predicate IsAsListed(conf: Setup, a: AccountData<GroupName>, p: string, i: nat) {
    if i < |conf.nodes| then IsOfNode(conf, a, conf.nodes[i])
    else if i < |conf.nodes| + |Admins(conf)| then IsOfAdmin(a, p)
    else IsOfMonitor(a, p)
  }

  lemma EntryIs(conf: Setup, i: nat)
    requires i < |AccountList(conf, KerberosAccounts, Nodes)|
    ensures var a := AccountList(conf, KerberosAccounts, Nodes)[i]; IsAsListed(conf, a, a.principal, i)
  {
    if i < |conf.nodes| {
      NodeAt(conf, i);
    } else if i < |conf.nodes| + |Admins(conf)| {
      AdminAt(conf, i - |conf.nodes|);
    } else {
      MonitorAt(conf, i - |conf.nodes| - |Admins(conf)|);
    }
  }

  lemma WhatIsRegistered(conf: Setup, p: string)
    requires p in AccountTable(conf)
    ensures var a := AccountTable(conf)[p];
            if p in MonitorPrincipals(conf, conf.nodes) then IsOfMonitor(a, p)
            else if p in KerberosPrincipals(conf) then IsOfAdmin(a, p)
            else exists i: nat :: IsLastNode(conf, i, p) && IsOfNode(conf, a, conf.nodes[i])
  {
    var i := RegisteredWhere(conf, p);
    EntryIs(conf, i);
    if i < |conf.nodes| { LastOfNodes(conf, p, i); }
  }

  /**
   The whole table, exactly: monitors come before admins, and those before nodes; of nodes with one DNS name the last
   counts.
   */
  lemma TableExactly(conf: Setup, p: string)
    ensures p in AccountTable(conf) <==>
            || IsAdmin(conf, p) || IsMonitor(conf, p)
            || exists node :: node in conf.nodes && p == node.hostname + "." + conf.externalDomain
    ensures p in AccountTable(conf) ==>
              var a := AccountTable(conf)[p];
              if IsMonitor(conf, p) then IsOfMonitor(a, p)
              else if IsAdmin(conf, p) then IsOfAdmin(a, p)
              else exists i: nat :: IsLastNode(conf, i, p) && IsOfNode(conf, a, conf.nodes[i])
  {
    RegisteredPrincipals(conf, p);
    PrincipalsAre(conf, p);
    MonitorsAre(conf, conf.nodes, p);
    if p in AccountTable(conf) { WhatIsRegistered(conf, p); }
  }

  // A TLS grant for the group that may do anything in Kubernetes.
  predicate NamesMasters(priv: Privilege<GroupName>) {
    priv.TLSGrant? && "system:masters" in priv.organizations
  }

  lemma NodeMasters(conf: Setup, node: Node, api: string, priv: Privilege<GroupName>)
    requires NodeHolds(conf, node, api, priv)
    ensures NamesMasters(priv) <==> api == "grant-kubernetes-supervisor"
    ensures api == "grant-kubernetes-supervisor" ==> node.kind == Supervisor
    ensures api != "access-kubernetes"
  {
  }

  lemma AdminMasters(p: string, api: string, priv: Privilege<GroupName>)
    requires AdminHolds(p, api, priv)
    ensures NamesMasters(priv) <==> api == "access-kubernetes"
    ensures api != "grant-kubernetes-supervisor"
  {
  }

  /**
   Over the whole table, system:masters is named by the grants of supervisors for themselves and by those of admins, and
   by no others.
   */
  lemma WhoIsMaster(conf: Setup, p: string, api: string)
    requires p in AccountTable(conf) && api in AccountTable(conf)[p].privileges
    ensures NamesMasters(AccountTable(conf)[p].privileges[api]) <==>
            api == "grant-kubernetes-supervisor" || api == "access-kubernetes"
    ensures api == "grant-kubernetes-supervisor" ==>
              exists node :: node in conf.nodes && node.kind == Supervisor && p == node.hostname + "." + conf.externalDomain
    ensures api == "access-kubernetes" ==> IsAdmin(conf, p)
  {
    TableExactly(conf, p);
    var a := AccountTable(conf)[p];
    assert Has(a.privileges, api, a.privileges[api]);
    if IsMonitor(conf, p) {
    } else if IsAdmin(conf, p) {
      AdminMasters(p, api, a.privileges[api]);
    } else {
      var i: nat :| IsLastNode(conf, i, p) && IsOfNode(conf, a, conf.nodes[i]);
      NodeMasters(conf, conf.nodes[i], api, a.privileges[api]);
    }
  }
}

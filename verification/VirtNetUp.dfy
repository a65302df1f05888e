/** What net_up_inner of platform/spire/src/virt.py achieves: the virtual network, link by link and rule by rule. */
module VirtNetUp {
  import opened Wrappers
  import opened HostsFile
  import opened Firewall
  import opened VirtNet
  import opened VirtNetUndo
  import opened VirtNetFaults

  // A line for each node: its address, a tab and its name.
  function HostLines(hosts: Hosts): string {
    if hosts == [] then "" else hosts[0].1 + "\t" + hosts[0].0 + "\n" + HostLines(hosts[1..])
  }

  predicate LinksAreUp(p: Plan, net: Net) {
    && p.bridge in net.links && net.links[p.bridge].kind == Bridge && net.links[p.bridge].up
    && (p.access != p.bridge ==>
          p.access in net.links && net.links[p.access].kind == Vlan(p.bridge) && net.links[p.access].up)
    && (p.address, p.access) in net.addresses
    && forall tap | tap in p.taps ::
         && tap in net.links && net.links[tap].kind == Tap && net.links[tap].up && net.links[tap].promisc
         && tap in net.ports && net.ports[tap] == p.bridge
  }

  // Traffic from the access link is accepted, and forwarded to, from and within it; what leaves upstream is masqueraded.
  predicate RulesAreFirst(p: Plan, prior: Tables, after: Tables) {
    && after.input == [Rule(Some(p.access), None, "ACCEPT")] + prior.input
    && after.forward == [Rule(Some(p.access), Some(p.access), "ACCEPT"), Rule(Some(p.upstream), Some(p.access), "ACCEPT"),
                         Rule(Some(p.access), Some(p.upstream), "ACCEPT")] + prior.forward
    && after.postrouting == [Rule(None, Some(p.upstream), "MASQUERADE")] + prior.postrouting
  }

  // The network is up, and the rest of the host is as before.
  predicate IsUp(p: Plan, prior: Host, host: Host) {
    && LinksAreUp(p, host.net) && Without(host.net, Names(p)) == prior.net
    && RulesAreFirst(p, prior.tables, host.tables)
    && host.hostsFile == prior.hostsFile + HostLines(p.hosts)
  }

  lemma {:induction false} LinesOfHosts(hosts: Hosts)
    ensures Unlines(Entries(hosts)) == HostLines(hosts)
  {
    if hosts != [] {
      LinesOfHosts(hosts[1..]);
      assert Entries(hosts)[1..] == Entries(hosts[1..]);
    }
  }

  lemma LinksOfUp(p: Plan, prior: Host, host: Host)
    requires Strictly(Up(p), prior) == Some(host)
    ensures LinksAreUp(p, host.net)
  {
    var linked, routed := UpInParts(p, prior);
    NetStands(p, prior.net);
    RoutingIsApart(RoutingUp(Rules(p)), linked, linked.net, linked.hostsFile);
    forall tap | tap in p.taps ensures
      tap in host.net.links && host.net.links[tap] == Link(Tap, true, true) && tap in host.net.ports && host.net.ports[tap] == p.bridge
    {
      var i :| 0 <= i < |p.taps| && p.taps[i] == tap;
    }
  }

  lemma InsertOne<T>(list: seq<T>, a: T)
    ensures InsertAll(list, [a]) == [a] + list
  {
    assert [a][1..] == [];
  }

  lemma InsertThree<T>(list: seq<T>, a: T, b: T, c: T)
    ensures InsertAll(list, [a, b, c]) == [c, b, a] + list
  {
    assert [a, b, c][1..] == [b, c] && [b, c][1..] == [c];
    InsertOne([b] + ([a] + list), c);
    assert [c] + ([b] + ([a] + list)) == [c, b, a] + list;
  }

  lemma OnChainCons(first: (Chain, Rule), rest: seq<(Chain, Rule)>, chain: Chain)
    ensures OnChain([first] + rest, chain) == (if first.0 == chain then [first.1] else []) + OnChain(rest, chain)
  {
    assert ([first] + rest)[1..] == rest;
  }

  lemma RulesByChain(p: Plan)
    ensures OnChain(Rules(p), Input) == [Rule(Some(p.access), None, "ACCEPT")]
    ensures OnChain(Rules(p), Forward) == [Rule(Some(p.access), Some(p.upstream), "ACCEPT"), Rule(Some(p.upstream), Some(p.access), "ACCEPT"),
                                           Rule(Some(p.access), Some(p.access), "ACCEPT")]
    ensures OnChain(Rules(p), Postrouting) == [Rule(None, Some(p.upstream), "MASQUERADE")]
  {
    var r := Rules(p);
    assert r == [r[0]] + ([r[1]] + ([r[2]] + ([r[3]] + ([r[4]] + []))));
    forall chain ensures OnChain(r, chain) ==
      (if r[0].0 == chain then [r[0].1] else []) + ((if r[1].0 == chain then [r[1].1] else []) +
      ((if r[2].0 == chain then [r[2].1] else []) + ((if r[3].0 == chain then [r[3].1] else []) +
      ((if r[4].0 == chain then [r[4].1] else []) + []))))
    {
      OnChainCons(r[0], [r[1]] + ([r[2]] + ([r[3]] + ([r[4]] + []))), chain);
      OnChainCons(r[1], [r[2]] + ([r[3]] + ([r[4]] + [])), chain);
      OnChainCons(r[2], [r[3]] + ([r[4]] + []), chain);
      OnChainCons(r[3], [r[4]] + [], chain);
      OnChainCons(r[4], [], chain);
    }
  }

  lemma RulesOfUp(p: Plan, prior: Host, host: Host)
    requires Strictly(Up(p), prior) == Some(host) && Unnamed(prior.net, Names(p))
    ensures RulesAreFirst(p, prior.tables, host.tables)
    ensures Without(host.net, Names(p)) == prior.net && host.hostsFile == Added(prior.hostsFile, p.hosts)
  {
    assert Up(p)[..|Up(p)|] == Up(p) && Rules(p)[..|Rules(p)|] == Rules(p);
    PrefixReached(p, prior, |Up(p)|);
    RulesByChain(p);
    assert Get(host.tables, Input) == InsertAll(Get(prior.tables, Input), OnChain(Rules(p), Input));
    assert Get(host.tables, Forward) == InsertAll(Get(prior.tables, Forward), OnChain(Rules(p), Forward));
    assert Get(host.tables, Postrouting) == InsertAll(Get(prior.tables, Postrouting), OnChain(Rules(p), Postrouting));
    InsertOne(prior.tables.input, Rule(Some(p.access), None, "ACCEPT"));
    InsertThree(prior.tables.forward, Rule(Some(p.access), Some(p.upstream), "ACCEPT"), Rule(Some(p.upstream), Some(p.access), "ACCEPT"),
                Rule(Some(p.access), Some(p.access), "ACCEPT"));
    InsertOne(prior.tables.postrouting, Rule(None, Some(p.upstream), "MASQUERADE"));
  }

  /** If all commands of going up work, then the network is up. */
  lemma UpIsUp(p: Plan, prior: Host, host: Host)
    requires Strictly(Up(p), prior) == Some(host) && Unnamed(prior.net, Names(p))
    ensures IsUp(p, prior, host)
  {
    LinksOfUp(p, prior, host);
    RulesOfUp(p, prior, host);
    LinesOfHosts(p.hosts);
  }

  // ---- When it works ----

  // No link has the name, and nothing belongs to one.
  predicate Free(net: Net, name: string) {
    name !in net.links && name !in net.ports && forall a | a in net.addresses :: a.1 != name
  }

  // Only the bridge's names have been used.
  ghost predicate LeavesFree(p: Plan, net: Net, net': Net) {
    && net'.ports == net.ports
    && (forall l | l in net'.links :: l in net.links || l == p.bridge || l == p.access)
    && forall a | a in net'.addresses :: a in net.addresses || a.1 == p.access
  }

  lemma BridgeUpWorks(p: Plan, net: Net)
    requires Free(net, p.bridge) && Free(net, p.access)
    ensures var up := StrictlyNet(BridgeUp(p), net); up.Some? && BridgeStands(up.value, p) && LeavesFree(p, net, up.value)
  {
    var first, last := [AddBridge(p.bridge), SetUp(p.bridge)], [AddAddress(p.address, p.access)];
    var mid := if p.access != p.bridge then [AddVlan(p.bridge, p.access), SetUp(p.access)] else [];
    assert BridgeUp(p) == first + (mid + last);
    StrictlyNetSplit(first, mid + last, net);
    Two(AddBridge(p.bridge), SetUp(p.bridge), net);
    var net1 := StrictlyNet(first, net).value;
    StrictlyNetSplit(mid, last, net1);
    AccessUpWorks(p, net1);
    assert (p.address, p.access) !in net.addresses by { assert (p.address, p.access).1 == p.access; }
    var net2 := StrictlyNet(mid, net1).value;
    One(AddAddress(p.address, p.access), net2);
    BridgeComesUp(p, net);
    assert forall l | l in net1.links :: l in net.links || l == p.bridge;
    assert StrictlyNet(BridgeUp(p), net).value == net2.(addresses := net2.addresses + {(p.address, p.access)});
  }

  lemma AccessUpWorks(p: Plan, net: Net)
    requires p.bridge in net.links && (p.access != p.bridge ==> p.access !in net.links)
    ensures var mid := if p.access != p.bridge then [AddVlan(p.bridge, p.access), SetUp(p.access)] else [];
            var next := StrictlyNet(mid, net);
            && next.Some? && p.bridge in next.value.links && p.access in next.value.links
            && next.value.addresses == net.addresses && next.value.ports == net.ports
            && forall l | l in next.value.links :: l in net.links || l == p.access
  {
    if p.access != p.bridge { Two(AddVlan(p.bridge, p.access), SetUp(p.access), net); }
  }

  lemma TapUpWorks(p: Plan, net: Net, tap: string)
    requires BridgeStands(net, p) && Free(net, tap)
    ensures var up := StrictlyNet(TapUp(p.bridge, tap), net);
            && up.Some? && BridgeStands(up.value, p) && forall name | name != tap && Free(net, name) :: Free(up.value, name)
  {
    Three(AddTap(tap), SetUpPromisc(tap), AddPort(p.bridge, tap), net);
  }

  lemma {:induction false} TapsUpWork(p: Plan, net: Net, taps: seq<string>)
    requires BridgeStands(net, p) && forall i | 0 <= i < |taps| :: Free(net, taps[i])
    requires forall i, j | 0 <= i < j < |taps| :: taps[i] != taps[j]
    ensures StrictlyNet(TapsUp(p.bridge, taps), net).Some?
    decreases |taps|
  {
    if taps != [] {
      TapUpWorks(p, net, taps[0]);
      StrictlyNetSplit(TapUp(p.bridge, taps[0]), TapsUp(p.bridge, taps[1..]), net);
      TapsUpWork(p, StrictlyNet(TapUp(p.bridge, taps[0]), net).value, taps[1..]);
    }
  }

  lemma NetUpWorks(p: Plan, net: Net)
    requires Unnamed(net, Names(p)) && Apart(p)
    ensures StrictlyNet(NetUp(p), net).Some?
  {
    forall name | name in Names(p) ensures Free(net, name) {
    }
    assert p.bridge in Names(p) && p.access in Names(p);
    BridgeUpWorks(p, net);
    StrictlyNetSplit(BridgeUp(p), TapsUp(p.bridge, p.taps), net);
    forall i | 0 <= i < |p.taps| ensures Free(StrictlyNet(BridgeUp(p), net).value, p.taps[i]) {
      assert p.taps[i] in p.taps && p.taps[i] in Names(p);
    }
    TapsUpWork(p, StrictlyNet(BridgeUp(p), net).value, p.taps);
  }

  lemma {:induction false} InsertionsWork(rules: seq<(Chain, Rule)>, host: Host)
    ensures Strictly(RoutingUp(rules), host).Some?
  {
    RoutingUndone(rules, host);
  }

  lemma StandingIsApart(p: Plan, net: Net)
    requires BridgeStands(net, p) && TapsStand(net, p, p.taps)
    ensures Apart(p)
  {
  }

  /** On a host without the plan's names, going up works exactly if the names are distinct and have no tabs. */
  lemma UpWorksExactly(p: Plan, prior: Host)
    requires Unnamed(prior.net, Names(p))
    ensures Strictly(Up(p), prior).Some? <==> Apart(p) && NoTabs(p.hosts)
  {
    var last := [AppendHosts(p.hosts)];
    StrictlySplit(Nets(NetUp(p)) + RoutingUp(Rules(p)), last, prior);
    StrictlySplit(Nets(NetUp(p)), RoutingUp(Rules(p)), prior);
    StrictlyNets(NetUp(p), prior);
    assert last[1..] == [];
    if StrictlyNet(NetUp(p), prior.net).Some? {
      NetStands(p, prior.net);
      StandingIsApart(p, StrictlyNet(NetUp(p), prior.net).value);
      InsertionsWork(Rules(p), prior.(net := StrictlyNet(NetUp(p), prior.net).value));
    } else if Apart(p) {
      NetUpWorks(p, prior.net);
    }
  }

  // ---- What going down reports ----

  // Nothing is there that was not before.
  predicate Within(net': Net, net: Net) {
    && (forall l | l in net'.links :: l in net.links && net'.links[l].kind == net.links[l].kind)
    && (forall l | l in net'.ports :: l in net.ports && net'.ports[l] == net.ports[l])
    && net'.addresses <= net.addresses
  }

  // What the command looks for.
  predicate Finds(c: NetCommand, net: Net) {
    match c
    case DelAddress(address, link) => (address, link) in net.addresses
    case DelPort(bridge, link) => link in net.ports && net.ports[link] == bridge
    case DelTap(link) => link in net.links && net.links[link].kind == Tap
    case DelBridge(bridge) => bridge in net.links && net.links[bridge].kind == Bridge
    case SetDown(link) => link in net.links
    case DelLink(link) => link in net.links
    case _ => true
  }

  lemma RemovingKeepsWithin(c: NetCommand, net: Net)
    requires Removes(c) && ApplyNet(c, net).Some?
    ensures Within(ApplyNet(c, net).value, net) && Finds(c, net)
  {
  }

  lemma {:induction false} AllIsFound(commands: seq<NetCommand>, net: Net)
    requires Removing(commands) && StrictlyNet(commands, net).Some?
    ensures AllFound(commands, net)
  {
    if commands != [] {
      var c := commands[0];
      RemovingKeepsWithin(c, net);
      AllIsFound(commands[1..], ApplyNet(c, net).value);
      FoundBefore(commands[1..], ApplyNet(c, net).value, net);
      assert commands == [c] + commands[1..];
    }
  }

  lemma FoundBefore(commands: seq<NetCommand>, net': Net, net: Net)
    requires Within(net', net) && forall c | c in commands :: Removes(c) && Finds(c, net')
    ensures forall c | c in commands :: Finds(c, net)
  {
  }

  // All the parts of the network are there.
  predicate PartsAreThere(p: Plan, net: Net) {
    && p.bridge in net.links && net.links[p.bridge].kind == Bridge && p.access in net.links
    && (p.address, p.access) in net.addresses
    && forall tap | tap in p.taps :: tap in net.links && net.links[tap].kind == Tap && tap in net.ports && net.ports[tap] == p.bridge
  }

  lemma {:induction false} TapCommands(bridge: string, taps: seq<string>, tap: string)
    requires tap in taps
    ensures DelPort(bridge, tap) in TapsDown(bridge, taps) && DelTap(tap) in TapsDown(bridge, taps)
  {
    var first, rest := TapDown(bridge, taps[0]), TapsDown(bridge, taps[1..]);
    assert TapsDown(bridge, taps) == first + rest;
    if tap == taps[0] {
      assert first[0] == DelPort(bridge, tap) && first[2] == DelTap(tap);
    } else {
      TapCommands(bridge, taps[1..], tap);
    }
  }

  lemma BridgeCommands(p: Plan)
    ensures DelAddress(p.address, p.access) in BridgeDown(p) && DelBridge(p.bridge) in BridgeDown(p)
    ensures p.access != p.bridge ==> DelLink(p.access) in BridgeDown(p)
  {
    assert BridgeDown(p)[0] == DelAddress(p.address, p.access);
    assert BridgeDown(p)[|BridgeDown(p)| - 1] == DelBridge(p.bridge);
    assert p.access != p.bridge ==> BridgeDown(p)[2] == DelLink(p.access);
  }

  predicate AllFound(commands: seq<NetCommand>, net: Net) {
    forall c | c in commands :: Finds(c, net)
  }

  lemma OneFound(commands: seq<NetCommand>, net: Net, c: NetCommand)
    requires AllFound(commands, net) && c in commands
    ensures Finds(c, net)
  {
  }

  lemma PartsFound(a: seq<NetCommand>, b: seq<NetCommand>, net: Net)
    requires AllFound(a + b, net)
    ensures AllFound(a, net) && AllFound(b, net)
  {
    assert forall c | c in a || c in b :: c in a + b;
  }

  lemma BridgeFound(p: Plan, net: Net)
    requires AllFound(BridgeDown(p), net)
    ensures p.bridge in net.links && net.links[p.bridge].kind == Bridge && p.access in net.links
    ensures (p.address, p.access) in net.addresses
  {
    BridgeCommands(p);
    OneFound(BridgeDown(p), net, DelAddress(p.address, p.access));
    OneFound(BridgeDown(p), net, DelBridge(p.bridge));
    if p.access != p.bridge { OneFound(BridgeDown(p), net, DelLink(p.access)); }
  }

  lemma TapFound(p: Plan, net: Net, tap: string)
    requires AllFound(TapsDown(p.bridge, p.taps), net) && tap in p.taps
    ensures tap in net.links && net.links[tap].kind == Tap && tap in net.ports && net.ports[tap] == p.bridge
  {
    TapCommands(p.bridge, p.taps, tap);
    OneFound(TapsDown(p.bridge, p.taps), net, DelPort(p.bridge, tap));
    OneFound(TapsDown(p.bridge, p.taps), net, DelTap(tap));
  }

  /** Going down reports success only if every link, port and address of the plan was there. */
  lemma SuccessMeansAllWasThere(p: Plan, net: Net)
    requires StrictlyNet(NetDown(p), net).Some?
    ensures PartsAreThere(p, net)
  {
    DownIsOurs(p);
    AllIsFound(NetDown(p), net);
    PartsFound(TapsDown(p.bridge, p.taps), BridgeDown(p), net);
    BridgeFound(p, net);
    forall tap | tap in p.taps
      ensures tap in net.links && net.links[tap].kind == Tap && tap in net.ports && net.ports[tap] == p.bridge
    {
      TapFound(p, net, tap);
    }
  }
}

/**
 The virtual network of platform/spire/src/virt.py: the commands that bring it up, the commands that take it
 down, and what is left of it when bringing it up fails half-way.

 A command either does what it says or fails without effect.
 */
module VirtNet {
  import opened Wrappers
  import opened HostsFile
  import opened Firewall

  datatype Kind = Bridge | Vlan(over: string) | Tap | Other

  datatype Link = Link(kind: Kind, up: bool, promisc: bool)

  // ports maps each link that is a port of a bridge to that bridge.
  datatype Net = Net(links: map<string, Link>, ports: map<string, string>, addresses: set<(string, string)>)

  datatype Chain = Input | Forward | Postrouting

  // -i, -o and -j.
  datatype Rule = Rule(inward: Option<string>, outward: Option<string>, target: string)

  datatype Tables = Tables(input: seq<Rule>, forward: seq<Rule>, postrouting: seq<Rule>)

  function Get(t: Tables, chain: Chain): seq<Rule> {
    match chain
    case Input => t.input
    case Forward => t.forward
    case Postrouting => t.postrouting
  }

  function Set(t: Tables, chain: Chain, rules: seq<Rule>): Tables {
    match chain
    case Input => t.(input := rules)
    case Forward => t.(forward := rules)
    case Postrouting => t.(postrouting := rules)
  }

  datatype Host = Host(net: Net, tables: Tables, hostsFile: string)

  datatype NetCommand =
    | AddBridge(bridge: string)
    | SetUp(link: string)
    | AddVlan(over: string, link: string)
    | AddAddress(address: string, link: string)
    | AddTap(link: string)
    | SetUpPromisc(link: string)
    | AddPort(bridge: string, link: string)
    | DelAddress(address: string, link: string)
    | SetDown(link: string)
    | DelLink(link: string)
    | DelBridge(bridge: string)
    | DelPort(bridge: string, link: string)
    | DelTap(link: string)

  datatype Command =
    | OnNet(command: NetCommand)
    | Insert(chain: Chain, rule: Rule)
    | Delete(chain: Chain, rule: Rule)
    | AppendHosts(hosts: Hosts)
    | FilterHosts(hosts: Hosts)

  // Deleting a link takes its addresses, its ports and the VLANs over it away.
  function RemoveLink(net: Net, link: string): Net {
    var gone := set l | l in net.links && (l == link || net.links[l].kind == Vlan(link));
    Net(net.links - gone,
        map p | p in net.ports && p !in gone && net.ports[p] !in gone :: net.ports[p],
        set a | a in net.addresses && a.1 !in gone)
  }

  function Update(net: Net, name: string, link: Link): Net {
    net.(links := net.links[name := link])
  }

  function ApplyNet(c: NetCommand, net: Net): Option<Net> {
    match c
    case AddBridge(bridge) => if bridge in net.links then None else Some(Update(net, bridge, Link(Bridge, false, false)))
    case SetUp(link) => if link in net.links then Some(Update(net, link, net.links[link].(up := true))) else None
    case AddVlan(over, link) =>
      if over in net.links && link !in net.links then Some(Update(net, link, Link(Vlan(over), false, false))) else None
    case AddAddress(address, link) =>
      if link in net.links && (address, link) !in net.addresses
      then Some(net.(addresses := net.addresses + {(address, link)})) else None
    case AddTap(link) => if link in net.links then None else Some(Update(net, link, Link(Tap, false, false)))
    case SetUpPromisc(link) =>
      if link in net.links then Some(Update(net, link, net.links[link].(up := true, promisc := true))) else None
    case AddPort(bridge, link) =>
      if bridge in net.links && net.links[bridge].kind == Bridge && link in net.links && link !in net.ports
      then Some(net.(ports := net.ports[link := bridge])) else None
    case DelAddress(address, link) =>
      if (address, link) in net.addresses then Some(net.(addresses := net.addresses - {(address, link)})) else None
    case SetDown(link) => if link in net.links then Some(Update(net, link, net.links[link].(up := false))) else None
    case DelLink(link) => if link in net.links then Some(RemoveLink(net, link)) else None
    case DelBridge(bridge) =>
      if bridge in net.links && net.links[bridge].kind == Bridge && !net.links[bridge].up
      then Some(RemoveLink(net, bridge)) else None
    case DelPort(bridge, link) =>
      if link in net.ports && net.ports[link] == bridge then Some(net.(ports := net.ports - {link})) else None
    case DelTap(link) =>
      if link in net.links && net.links[link].kind == Tap then Some(RemoveLink(net, link)) else None
  }

  function Apply(c: Command, host: Host): Option<Host> {
    match c
    case OnNet(command) =>
      (match ApplyNet(command, host.net)
       case None => None
       case Some(net) => Some(host.(net := net)))
    case Insert(chain, rule) => Some(host.(tables := Set(host.tables, chain, [rule] + Get(host.tables, chain))))
    case Delete(chain, rule) =>
      if rule !in Get(host.tables, chain) then None
      else Some(host.(tables := Set(host.tables, chain, Firewall.Delete(Get(host.tables, chain), rule))))
    case AppendHosts(hosts) => if NoTabs(hosts) then Some(host.(hostsFile := Added(host.hostsFile, hosts))) else None
    case FilterHosts(hosts) => Some(host.(hostsFile := Removed(host.hostsFile, hosts)))
  }

  // What determine_topology finds, and the upstream link.
  datatype Plan = Plan(address: string, taps: seq<string>, bridge: string, access: string, hosts: Hosts, upstream: string)

  const ACCEPT := "ACCEPT"
  const MASQUERADE := "MASQUERADE"

  // ---- The scripts ----

  function BridgeUp(p: Plan): seq<NetCommand> {
    [AddBridge(p.bridge), SetUp(p.bridge)] +
    (if p.access != p.bridge then [AddVlan(p.bridge, p.access), SetUp(p.access)] else []) +
    [AddAddress(p.address, p.access)]
  }

  function BridgeDown(p: Plan): seq<NetCommand> {
    [DelAddress(p.address, p.access)] +
    (if p.access != p.bridge then [SetDown(p.access), DelLink(p.access)] else []) +
    [SetDown(p.bridge), DelBridge(p.bridge)]
  }

  function TapUp(bridge: string, tap: string): seq<NetCommand> {
    [AddTap(tap), SetUpPromisc(tap), AddPort(bridge, tap)]
  }

  function TapDown(bridge: string, tap: string): seq<NetCommand> {
    [DelPort(bridge, tap), SetDown(tap), DelTap(tap)]
  }

  function TapsUp(bridge: string, taps: seq<string>): seq<NetCommand> {
    if taps == [] then [] else TapUp(bridge, taps[0]) + TapsUp(bridge, taps[1..])
  }

  function TapsDown(bridge: string, taps: seq<string>): seq<NetCommand> {
    if taps == [] then [] else TapDown(bridge, taps[0]) + TapsDown(bridge, taps[1..])
  }

  function Rules(p: Plan): seq<(Chain, Rule)> {
    [(Input, Rule(Some(p.access), None, ACCEPT)),
     (Forward, Rule(Some(p.access), Some(p.upstream), ACCEPT)),
     (Forward, Rule(Some(p.upstream), Some(p.access), ACCEPT)),
     (Forward, Rule(Some(p.access), Some(p.access), ACCEPT)),
     (Postrouting, Rule(None, Some(p.upstream), MASQUERADE))]
  }

  function Nets(commands: seq<NetCommand>): (r: seq<Command>)
    ensures |r| == |commands|
  {
    seq(|commands|, i requires 0 <= i < |commands| => OnNet(commands[i]))
  }

  function RoutingUp(rules: seq<(Chain, Rule)>): (r: seq<Command>)
    ensures |r| == |rules|
  {
    seq(|rules|, i requires 0 <= i < |rules| => Insert(rules[i].0, rules[i].1))
  }

  function RoutingDown(rules: seq<(Chain, Rule)>): (r: seq<Command>)
    ensures |r| == |rules|
  {
    seq(|rules|, i requires 0 <= i < |rules| => Delete(rules[i].0, rules[i].1))
  }

  function NetUp(p: Plan): seq<NetCommand> {
    BridgeUp(p) + TapsUp(p.bridge, p.taps)
  }

  function NetDown(p: Plan): seq<NetCommand> {
    TapsDown(p.bridge, p.taps) + BridgeDown(p)
  }

  // The try block of net_up_inner.
  function Up(p: Plan): seq<Command> {
    Nets(NetUp(p)) + RoutingUp(Rules(p)) + [AppendHosts(p.hosts)]
  }

  // net_down_inner
  function Down(p: Plan): seq<Command> {
    [FilterHosts(p.hosts)] + RoutingDown(Reverse(Rules(p))) + Nets(NetDown(p))
  }

  // All the commands, each of which must work.
  function Strictly(commands: seq<Command>, host: Host): Option<Host>
    decreases |commands|
  {
    if commands == [] then Some(host)
    else
      match Apply(commands[0], host)
      case None => None
      case Some(next) => Strictly(commands[1..], next)
  }

  // All the commands; one that fails is passed over.
  function Loosely(commands: seq<Command>, host: Host): Host
    decreases |commands|
  {
    if commands == [] then host
    else Loosely(commands[1..], match Apply(commands[0], host) case None => host case Some(next) => next)
  }

  // ---- Links, ports and addresses ----

  function Names(p: Plan): set<string> {
    {p.bridge, p.access} + set t | t in p.taps
  }

  // Nothing in the network bears one of the names.
  predicate Unnamed(net: Net, names: set<string>) {
    && (forall l | l in net.links :: l !in names && (net.links[l].kind.Vlan? ==> net.links[l].kind.over !in names))
    && (forall l | l in net.ports :: l !in names && net.ports[l] !in names)
    && forall a | a in net.addresses :: a.1 !in names
  }

  // The network without what bears one of the names.
  function Without(net: Net, names: set<string>): Net {
    Net(map l | l in net.links && l !in names :: net.links[l],
        map l | l in net.ports && l !in names && net.ports[l] !in names :: net.ports[l],
        set a | a in net.addresses && a.1 !in names)
  }

  // Everything that bears one of the names belongs to a link that the script has made.
  predicate Sound(net: Net, p: Plan) {
    && (forall a | a in net.addresses && a.1 in Names(p) :: a.1 in net.links)
    && (forall l | l in net.ports ::
          && (l in Names(p) ==> l in net.links)
          && (net.ports[l] in Names(p) ==> net.ports[l] in net.links))
    && (forall l | l in net.links && net.links[l].kind.Vlan? && net.links[l].kind.over in Names(p) :: l in Names(p))
    && forall l | l in net.links && l in Names(p) ::
         match net.links[l].kind
         case Bridge => l == p.bridge
         case Vlan(_) => l == p.access != p.bridge
         case Tap => l in p.taps
         case Other => false
  }

  // A command of the scripts.
  predicate Ours(c: NetCommand, p: Plan) {
    match c
    case AddBridge(bridge) => bridge == p.bridge
    case AddVlan(over, link) => over == p.bridge && link == p.access != p.bridge
    case AddTap(link) => link in p.taps
    case AddPort(bridge, link) => bridge == p.bridge && link in p.taps
    case DelPort(bridge, link) => bridge == p.bridge && link in p.taps
    case DelBridge(bridge) => bridge == p.bridge
    case _ => c.link in Names(p)
  }

  lemma RemovalIsSound(net: Net, p: Plan, link: string)
    requires link in Names(p) && Sound(net, p)
    ensures Sound(RemoveLink(net, link), p)
  {
  }

  lemma RemovalKeeps(net: Net, p: Plan, link: string)
    requires link in Names(p) && Sound(net, p)
    ensures Sound(RemoveLink(net, link), p)
    ensures Without(RemoveLink(net, link), Names(p)) == Without(net, Names(p))
  {
    RemovalIsSound(net, p, link);
    var a, b := Without(RemoveLink(net, link), Names(p)), Without(net, Names(p));
    assert a.links == b.links;
    assert a.ports == b.ports;
    assert a.addresses == b.addresses;
  }

  // What a link of the script can be.
  predicate Made(kind: Kind, name: string, p: Plan) {
    match kind
    case Bridge => name == p.bridge
    case Vlan(over) => over == p.bridge && name == p.access != p.bridge
    case Tap => name in p.taps
    case Other => false
  }

  lemma UpdateKeeps(net: Net, p: Plan, name: string, link: Link)
    requires name in Names(p) && Sound(net, p)
    requires Made(link.kind, name, p) || (name in net.links && net.links[name].kind == link.kind)
    ensures Sound(Update(net, name, link), p)
    ensures Without(Update(net, name, link), Names(p)) == Without(net, Names(p))
  {
  }

  lemma AddressesKeep(net: Net, p: Plan, net': Net)
    requires Sound(net, p) && net' == net.(addresses := net'.addresses)
    requires forall a | a in net'.addresses && a !in net.addresses :: a.1 in Names(p) && a.1 in net.links
    requires forall a | a in net.addresses && a !in net'.addresses :: a.1 in Names(p)
    ensures Sound(net', p) && Without(net', Names(p)) == Without(net, Names(p))
  {
  }

  lemma PortKeeps(net: Net, p: Plan, link: string, bridge: string)
    requires Sound(net, p) && link in Names(p) && link in net.links && bridge in net.links
    ensures var net' := net.(ports := net.ports[link := bridge]);
            Sound(net', p) && Without(net', Names(p)) == Without(net, Names(p))
  {
  }

  lemma NoPortKeeps(net: Net, p: Plan, link: string)
    requires Sound(net, p) && link in Names(p)
    ensures var net' := net.(ports := net.ports - {link});
            Sound(net', p) && Without(net', Names(p)) == Without(net, Names(p))
  {
  }

  lemma CommandKeeps(c: NetCommand, net: Net, p: Plan)
    requires Ours(c, p) && Sound(net, p) && ApplyNet(c, net).Some?
    ensures Sound(ApplyNet(c, net).value, p)
    ensures Without(ApplyNet(c, net).value, Names(p)) == Without(net, Names(p))
  {
    match c
    case AddBridge(name) => UpdateKeeps(net, p, name, Link(Bridge, false, false));
    case AddVlan(over, name) => UpdateKeeps(net, p, name, Link(Vlan(over), false, false));
    case AddTap(name) => UpdateKeeps(net, p, name, Link(Tap, false, false));
    case SetUp(name) => UpdateKeeps(net, p, name, net.links[name].(up := true));
    case SetUpPromisc(name) => UpdateKeeps(net, p, name, net.links[name].(up := true, promisc := true));
    case SetDown(name) => UpdateKeeps(net, p, name, net.links[name].(up := false));
    case AddAddress(_, _) => AddressesKeep(net, p, ApplyNet(c, net).value);
    case DelAddress(_, _) => AddressesKeep(net, p, ApplyNet(c, net).value);
    case AddPort(bridge, link) => PortKeeps(net, p, link, bridge);
    case DelPort(_, link) => NoPortKeeps(net, p, link);
    case DelLink(link) => RemovalKeeps(net, p, link);
    case DelBridge(bridge) => RemovalKeeps(net, p, bridge);
    case DelTap(link) => RemovalKeeps(net, p, link);
  }

  lemma UnnamedIsSound(net: Net, p: Plan)
    requires Unnamed(net, Names(p))
    ensures Sound(net, p) && Without(net, Names(p)) == net
  {
  }

  lemma EmptyIsWithout(net: Net, p: Plan)
    requires Sound(net, p) && forall l | l in Names(p) :: l !in net.links
    ensures Without(net, Names(p)) == net
  {
  }

  // ---- Taking the links down ----

  function LooselyNet(commands: seq<NetCommand>, net: Net): Net {
    if commands == [] then net
    else LooselyNet(commands[1..], match ApplyNet(commands[0], net) case None => net case Some(next) => next)
  }

  lemma {:induction false} LooselyAppend(a: seq<NetCommand>, b: seq<NetCommand>, net: Net)
    ensures LooselyNet(a + b, net) == LooselyNet(b, LooselyNet(a, net))
  {
    if a == [] {
      assert a + b == b;
    } else {
      assert (a + b)[0] == a[0] && (a + b)[1..] == a[1..] + b;
      LooselyAppend(a[1..], b, match ApplyNet(a[0], net) case None => net case Some(next) => next);
    }
  }

  predicate Removes(c: NetCommand) {
    c.DelAddress? || c.SetDown? || c.DelLink? || c.DelBridge? || c.DelPort? || c.DelTap?
  }

  // The links of after are among those of before, and of the same kinds.
  predicate Fewer(after: Net, before: Net) {
    forall l | l in after.links :: l in before.links && after.links[l].kind == before.links[l].kind
  }

  lemma {:induction false} DownKeeps(commands: seq<NetCommand>, net: Net, p: Plan)
    requires Sound(net, p) && forall c | c in commands :: Removes(c) && Ours(c, p)
    ensures var net' := LooselyNet(commands, net);
            Sound(net', p) && Without(net', Names(p)) == Without(net, Names(p)) && Fewer(net', net)
  {
    if commands != [] {
      var c := commands[0];
      if ApplyNet(c, net).Some? {
        CommandKeeps(c, net, p);
        RemovesLinks(c, net);
        DownKeeps(commands[1..], ApplyNet(c, net).value, p);
      } else {
        DownKeeps(commands[1..], net, p);
      }
    }
  }

  lemma RemovesLinks(c: NetCommand, net: Net)
    requires Removes(c) && ApplyNet(c, net).Some?
    ensures Fewer(ApplyNet(c, net).value, net)
  {
  }

  // A tap that has been taken down is not there, or is something else.
  predicate NoTap(net: Net, tap: string) {
    tap in net.links ==> net.links[tap].kind != Tap
  }

  lemma TapIsDown(bridge: string, tap: string, net: Net)
    ensures NoTap(LooselyNet(TapDown(bridge, tap), net), tap)
  {
    var first, last := [DelPort(bridge, tap), SetDown(tap)], [DelTap(tap)];
    assert TapDown(bridge, tap) == first + last;
    LooselyAppend(first, last, net);
    assert last[1..] == [];
  }

  lemma TapsDownIsOurs(p: Plan, taps: seq<string>)
    requires forall t | t in taps :: t in p.taps
    ensures forall c | c in TapsDown(p.bridge, taps) :: Removes(c) && Ours(c, p)
  {
  }

  lemma {:induction false} TapsAreDown(p: Plan, taps: seq<string>, net: Net)
    requires Sound(net, p) && forall t | t in taps :: t in p.taps
    ensures forall t | t in taps :: NoTap(LooselyNet(TapsDown(p.bridge, taps), net), t)
  {
    if taps != [] {
      var first, rest := TapDown(p.bridge, taps[0]), TapsDown(p.bridge, taps[1..]);
      var next := LooselyNet(first, net);
      LooselyAppend(first, rest, net);
      DownKeeps(first, net, p);
      TapsDownIsOurs(p, taps[1..]);
      DownKeeps(rest, next, p);
      TapIsDown(p.bridge, taps[0], net);
      TapsAreDown(p, taps[1..], next);
    }
  }

  // What is left after the access link, and after the bridge.
  lemma AccessIsDown(p: Plan, net: Net)
    requires p.access != p.bridge
    ensures p.access !in LooselyNet([SetDown(p.access), DelLink(p.access)], net).links
  {
    var down, del := [SetDown(p.access)], [DelLink(p.access)];
    assert [SetDown(p.access), DelLink(p.access)] == down + del;
    LooselyAppend(down, del, net);
    assert del[1..] == [];
  }

  lemma BridgeIsDown(bridge: string, net: Net)
    ensures var net' := LooselyNet([SetDown(bridge), DelBridge(bridge)], net);
            bridge in net'.links ==> net'.links[bridge].kind != Bridge
  {
    var down, del := [SetDown(bridge)], [DelBridge(bridge)];
    assert [SetDown(bridge), DelBridge(bridge)] == down + del;
    LooselyAppend(down, del, net);
    assert down[1..] == [] && del[1..] == [];
  }

  lemma BridgeDownIsOurs(p: Plan)
    ensures forall c | c in BridgeDown(p) :: Removes(c) && Ours(c, p)
  {
  }

  lemma BridgesAreDown(p: Plan, net: Net)
    requires Sound(net, p)
    ensures var net' := LooselyNet(BridgeDown(p), net);
            && (p.access != p.bridge ==> p.access !in net'.links)
            && (p.bridge in net'.links ==> net'.links[p.bridge].kind != Bridge)
  {
    var first, last := [DelAddress(p.address, p.access)], [SetDown(p.bridge), DelBridge(p.bridge)];
    var mid := if p.access != p.bridge then [SetDown(p.access), DelLink(p.access)] else [];
    assert BridgeDown(p) == first + mid + last;
    BridgeDownIsOurs(p);
    LooselyAppend(first + mid, last, net);
    LooselyAppend(first, mid, net);
    var net1 := LooselyNet(first, net);
    var net2 := LooselyNet(mid, net1);
    DownKeeps(first, net, p);
    DownKeeps(mid, net1, p);
    DownKeeps(last, net2, p);
    if p.access != p.bridge { AccessIsDown(p, net1); }
    BridgeIsDown(p.bridge, net2);
  }

  /** From whatever the commands of the scripts have made, net_down_inner gets back to the network before. */
  lemma NetIsDown(p: Plan, net: Net, prior: Net)
    requires Sound(net, p) && Without(net, Names(p)) == prior
    ensures LooselyNet(NetDown(p), net) == prior
  {
    var net1 := LooselyNet(TapsDown(p.bridge, p.taps), net);
    var net2 := LooselyNet(BridgeDown(p), net1);
    LooselyAppend(TapsDown(p.bridge, p.taps), BridgeDown(p), net);
    TapsDownIsOurs(p, p.taps);
    DownKeeps(TapsDown(p.bridge, p.taps), net, p);
    TapsAreDown(p, p.taps, net);
    BridgeDownIsOurs(p);
    DownKeeps(BridgeDown(p), net1, p);
    BridgesAreDown(p, net1);
    forall l | l in Names(p) ensures l !in net2.links {
      NothingIsLeft(p, net1, net2, l);
    }
    EmptyIsWithout(net2, p);
  }

  lemma NothingIsLeft(p: Plan, net1: Net, net2: Net, l: string)
    requires Sound(net2, p) && Fewer(net2, net1) && forall t | t in p.taps :: NoTap(net1, t)
    requires p.access != p.bridge ==> p.access !in net2.links
    requires p.bridge in net2.links ==> net2.links[p.bridge].kind != Bridge
    requires l in Names(p)
    ensures l !in net2.links
  {
  }

  // ---- The whole scripts ----

  lemma {:induction false} LooselySplit(a: seq<Command>, b: seq<Command>, host: Host)
    ensures Loosely(a + b, host) == Loosely(b, Loosely(a, host))
    decreases |a|
  {
    if a == [] {
      assert a + b == b;
    } else {
      assert (a + b)[0] == a[0] && (a + b)[1..] == a[1..] + b;
      LooselySplit(a[1..], b, match Apply(a[0], host) case None => host case Some(next) => next);
    }
  }

  lemma {:induction false} LooselyNets(commands: seq<NetCommand>, host: Host)
    ensures Loosely(Nets(commands), host) == host.(net := LooselyNet(commands, host.net))
  {
    if commands != [] {
      assert Nets(commands)[0] == OnNet(commands[0]) && Nets(commands)[1..] == Nets(commands[1..]);
      LooselyNets(commands[1..], match Apply(OnNet(commands[0]), host) case None => host case Some(next) => next);
    }
  }

  // The rules of one chain.
  function OnChain(rules: seq<(Chain, Rule)>, chain: Chain): seq<Rule> {
    if rules == [] then []
    else (if rules[0].0 == chain then [rules[0].1] else []) + OnChain(rules[1..], chain)
  }

  lemma {:induction false} OnChainAppend(a: seq<(Chain, Rule)>, b: seq<(Chain, Rule)>, chain: Chain)
    ensures OnChain(a + b, chain) == OnChain(a, chain) + OnChain(b, chain)
  {
    if a == [] {
      assert a + b == b;
    } else {
      assert (a + b)[0] == a[0] && (a + b)[1..] == a[1..] + b;
      OnChainAppend(a[1..], b, chain);
      var first := if a[0].0 == chain then [a[0].1] else [];
      assert first + (OnChain(a[1..], chain) + OnChain(b, chain)) == first + OnChain(a[1..], chain) + OnChain(b, chain);
    }
  }

  lemma {:induction false} OnChainReverse(rules: seq<(Chain, Rule)>, chain: Chain)
    ensures OnChain(Reverse(rules), chain) == Reverse(OnChain(rules, chain))
  {
    if rules != [] {
      OnChainReverse(rules[1..], chain);
      OnChainAppend(Reverse(rules[1..]), [rules[0]], chain);
      assert [rules[0]][1..] == [];
      OnChainFirst(rules, chain);
    }
  }

  lemma OnChainFirst(rules: seq<(Chain, Rule)>, chain: Chain)
    requires rules != []
    ensures Reverse(OnChain(rules, chain)) == Reverse(OnChain(rules[1..], chain)) + OnChain([rules[0]], chain)
  {
    assert [rules[0]][1..] == [];
    var rest := OnChain(rules[1..], chain);
    if rules[0].0 == chain {
      assert OnChain(rules, chain) == [rules[0].1] + rest;
      assert ([rules[0].1] + rest)[1..] == rest;
      assert OnChain([rules[0]], chain) == [rules[0].1];
    } else {
      assert OnChain(rules, chain) == rest;
      assert Reverse(rest) + [] == Reverse(rest);
    }
  }

  // One deletion, which may fail.
  function Deleted(rule: (Chain, Rule), host: Host): Host {
    match Apply(Delete(rule.0, rule.1), host) case None => host case Some(next) => next
  }

  lemma DeletedOnChain(rule: (Chain, Rule), host: Host, chain: Chain)
    ensures var host' := Deleted(rule, host);
            && host' == host.(tables := host'.tables)
            && Get(host'.tables, chain) == DeleteAll(Get(host.tables, chain), if rule.0 == chain then [rule.1] else [])
  {
    DeleteTakesOne(Get(host.tables, rule.0), rule.1);
    assert [rule.1][1..] == [];
  }

  lemma {:induction false} DeleteAllAppend(list: seq<Rule>, a: seq<Rule>, b: seq<Rule>)
    ensures DeleteAll(list, a + b) == DeleteAll(DeleteAll(list, a), b)
    decreases |a|
  {
    if a == [] {
      assert a + b == b;
    } else {
      assert (a + b)[0] == a[0] && (a + b)[1..] == a[1..] + b;
      DeleteAllAppend(Firewall.Delete(list, a[0]), a[1..], b);
    }
  }

  lemma {:induction false} LooselyRouting(rules: seq<(Chain, Rule)>, host: Host, chain: Chain)
    ensures var host' := Loosely(RoutingDown(rules), host);
            && host' == host.(tables := host'.tables)
            && Get(host'.tables, chain) == DeleteAll(Get(host.tables, chain), OnChain(rules, chain))
    decreases |rules|
  {
    if rules != [] {
      assert RoutingDown(rules)[0] == Delete(rules[0].0, rules[0].1);
      assert RoutingDown(rules)[1..] == RoutingDown(rules[1..]);
      DeletedOnChain(rules[0], host, chain);
      LooselyRouting(rules[1..], Deleted(rules[0], host), chain);
      DeleteAllAppend(Get(host.tables, chain), if rules[0].0 == chain then [rules[0].1] else [], OnChain(rules[1..], chain));
    }
  }

  lemma {:induction false} StrictlySnoc(commands: seq<Command>, c: Command, host: Host)
    ensures var before := Strictly(commands, host);
            Strictly(commands + [c], host) == if before.None? then None else Apply(c, before.value)
    decreases |commands|
  {
    if commands == [] {
      assert commands + [c] == [c] && [c][1..] == [];
    } else {
      assert (commands + [c])[0] == commands[0] && (commands + [c])[1..] == commands[1..] + [c];
      if Apply(commands[0], host).Some? { StrictlySnoc(commands[1..], c, Apply(commands[0], host).value); }
    }
  }

  // Every command works.
  predicate NoneFails(commands: seq<Command>, host: Host) {
    Strictly(commands, host).Some?
  }

  lemma {:induction false} StrictlySplit(a: seq<Command>, b: seq<Command>, host: Host)
    ensures var mid := Strictly(a, host);
            Strictly(a + b, host) == if mid.None? then None else Strictly(b, mid.value)
    decreases |a|
  {
    if a == [] {
      assert a + b == b;
    } else {
      assert (a + b)[0] == a[0] && (a + b)[1..] == a[1..] + b;
      if Apply(a[0], host).Some? { StrictlySplit(a[1..], b, Apply(a[0], host).value); }
    }
  }

  // ---- How far net_up_inner got ----

  // How many of the rules the first n commands of Up insert.
  function Inserted(p: Plan, n: nat): (k: nat)
    ensures k <= |Rules(p)|
  {
    if n <= |NetUp(p)| then 0 else if n - |NetUp(p)| <= |Rules(p)| then n - |NetUp(p)| else |Rules(p)|
  }

  lemma TapsUpIsOurs(p: Plan, taps: seq<string>)
    requires forall t | t in taps :: t in p.taps
    ensures forall c | c in TapsUp(p.bridge, taps) :: Ours(c, p)
  {
  }

  lemma NetUpIsOurs(p: Plan, i: nat)
    requires i < |NetUp(p)|
    ensures Ours(NetUp(p)[i], p)
  {
    TapsUpIsOurs(p, p.taps);
    assert forall c | c in BridgeUp(p) :: Ours(c, p);
  }

  lemma UpCommand(p: Plan, i: nat)
    requires i < |Up(p)|
    ensures |Up(p)| == |NetUp(p)| + |Rules(p)| + 1
    ensures Up(p)[i] == if i < |NetUp(p)| then OnNet(NetUp(p)[i])
                        else if i < |NetUp(p)| + |Rules(p)|
                        then Insert(Rules(p)[i - |NetUp(p)|].0, Rules(p)[i - |NetUp(p)|].1)
                        else AppendHosts(p.hosts)
  {
  }

  // The host after the first n commands of Up.
  predicate Reached(p: Plan, prior: Host, n: nat, host: Host) {
    && Sound(host.net, p) && Without(host.net, Names(p)) == prior.net
    && (forall chain :: Get(host.tables, chain) ==
                        InsertAll(Get(prior.tables, chain), OnChain(Rules(p)[..Inserted(p, n)], chain)))
    && host.hostsFile == if n > |NetUp(p)| + |Rules(p)| then Added(prior.hostsFile, p.hosts) else prior.hostsFile
  }

  lemma {:induction false} InsertSnoc(list: seq<Rule>, a: seq<Rule>, r: Rule)
    ensures InsertAll(list, a + [r]) == [r] + InsertAll(list, a)
    decreases |a|
  {
    if a == [] {
      assert a + [r] == [r] && [r][1..] == [];
    } else {
      assert (a + [r])[0] == a[0] && (a + [r])[1..] == a[1..] + [r];
      InsertSnoc([a[0]] + list, a[1..], r);
    }
  }

  lemma NextRule(rules: seq<(Chain, Rule)>, k: nat, list: seq<Rule>, chain: Chain)
    requires k < |rules|
    ensures var before := InsertAll(list, OnChain(rules[..k], chain));
            InsertAll(list, OnChain(rules[..k + 1], chain)) ==
            if rules[k].0 == chain then [rules[k].1] + before else before
  {
    assert rules[..k + 1] == rules[..k] + [rules[k]];
    OnChainAppend(rules[..k], [rules[k]], chain);
    assert [rules[k]][1..] == [];
    if rules[k].0 == chain {
      assert OnChain([rules[k]], chain) == [rules[k].1];
      InsertSnoc(list, OnChain(rules[..k], chain), rules[k].1);
    } else {
      assert OnChain(rules[..k], chain) + [] == OnChain(rules[..k], chain);
    }
  }

  lemma NextReached(p: Plan, prior: Host, n: nat, host: Host, next: Host)
    requires n < |Up(p)| && Reached(p, prior, n, host) && Apply(Up(p)[n], host) == Some(next)
    ensures Reached(p, prior, n + 1, next)
  {
    UpCommand(p, n);
    if n < |NetUp(p)| {
      NetUpIsOurs(p, n);
      CommandKeeps(NetUp(p)[n], host.net, p);
    } else if n < |NetUp(p)| + |Rules(p)| {
      var k := n - |NetUp(p)|;
      forall chain ensures Get(next.tables, chain) == InsertAll(Get(prior.tables, chain), OnChain(Rules(p)[..k + 1], chain)) {
        NextRule(Rules(p), k, Get(prior.tables, chain), chain);
      }
    }
  }

  lemma StrictlyPrefix(commands: seq<Command>, prior: Host, n: nat)
    requires n < |commands| && Strictly(commands[..n + 1], prior).Some?
    ensures Strictly(commands[..n], prior).Some?
    ensures Apply(commands[n], Strictly(commands[..n], prior).value) == Strictly(commands[..n + 1], prior)
  {
    assert commands[..n + 1] == commands[..n] + [commands[n]];
    StrictlySnoc(commands[..n], commands[n], prior);
  }

  lemma {:induction false} PrefixReached(p: Plan, prior: Host, n: nat)
    requires n <= |Up(p)| && Unnamed(prior.net, Names(p)) && Strictly(Up(p)[..n], prior).Some?
    ensures Reached(p, prior, n, Strictly(Up(p)[..n], prior).value)
  {
    if n == 0 {
      UnnamedIsSound(prior.net, p);
    } else {
      StrictlyPrefix(Up(p), prior, n - 1);
      PrefixReached(p, prior, n - 1);
      NextReached(p, prior, n - 1, Strictly(Up(p)[..n - 1], prior).value, Strictly(Up(p)[..n], prior).value);
    }
  }

  // ---- Rollback ----

  // net_down_inner, part by part.
  function TakenDown(hosts: Hosts, rules: seq<(Chain, Rule)>, nets: seq<NetCommand>, host: Host): Host {
    var filtered := host.(hostsFile := Removed(host.hostsFile, hosts));
    Loosely(RoutingDown(rules), filtered).(net := LooselyNet(nets, host.net))
  }

  lemma DownInParts(hosts: Hosts, rules: seq<(Chain, Rule)>, nets: seq<NetCommand>, host: Host)
    ensures Loosely([FilterHosts(hosts)] + RoutingDown(rules) + Nets(nets), host) == TakenDown(hosts, rules, nets, host)
  {
    var filter := [FilterHosts(hosts)];
    var filtered := host.(hostsFile := Removed(host.hostsFile, hosts));
    LooselySplit(filter + RoutingDown(rules), Nets(nets), host);
    LooselySplit(filter, RoutingDown(rules), host);
    assert filter[1..] == [] && Loosely(filter, host) == filtered;
    LooselyNets(nets, Loosely(RoutingDown(rules), filtered));
    LooselyRouting(rules, filtered, Input);
  }

  // The rules that the first k commands have not inserted were not there before.
  predicate NoEqualRules(p: Plan, prior: Tables, k: nat) {
    forall i | k <= i < |Rules(p)| :: Rules(p)[i].1 !in Get(prior, Rules(p)[i].0)
  }

  lemma {:induction false} OnChainHas(rules: seq<(Chain, Rule)>, chain: Chain, r: Rule)
    ensures r in OnChain(rules, chain) <==> (chain, r) in rules
  {
    if rules != [] {
      OnChainHas(rules[1..], chain, r);
      assert rules == [rules[0]] + rules[1..];
    }
  }

  lemma OnChainHolds(rules: seq<(Chain, Rule)>, chain: Chain, list: seq<Rule>)
    ensures (forall i | 0 <= i < |OnChain(rules, chain)| :: OnChain(rules, chain)[i] !in list) <==>
            forall i | 0 <= i < |rules| && rules[i].0 == chain :: rules[i].1 !in list
  {
    var all := OnChain(rules, chain);
    forall i | 0 <= i < |all| ensures (chain, all[i]) in rules {
      OnChainHas(rules, chain, all[i]);
    }
    forall i | 0 <= i < |rules| && rules[i].0 == chain ensures rules[i].1 in all {
      OnChainHas(rules, chain, rules[i].1);
      assert rules[i] == (chain, rules[i].1);
    }
  }

  lemma ChainRestored(rules: seq<(Chain, Rule)>, k: nat, chain: Chain, list: seq<Rule>)
    requires k <= |rules|
    ensures DeleteAll(InsertAll(list, OnChain(rules[..k], chain)), OnChain(Reverse(rules), chain)) == list <==>
            forall i | k <= i < |rules| && rules[i].0 == chain :: rules[i].1 !in list
  {
    var all, first, later := OnChain(rules, chain), OnChain(rules[..k], chain), OnChain(rules[k..], chain);
    assert rules == rules[..k] + rules[k..];
    OnChainAppend(rules[..k], rules[k..], chain);
    OnChainReverse(rules, chain);
    assert all[..|first|] == first;
    RulesRestored(list, all, |first|);
    LaterOnes(all, |first|, list);
    assert all[|first|..] == later;
    OnChainHolds(rules[k..], chain, list);
    LaterOnChain(rules, k, chain, list);
  }

  lemma LaterOnChain(rules: seq<(Chain, Rule)>, k: nat, chain: Chain, list: seq<Rule>)
    requires k <= |rules|
    ensures (forall i | 0 <= i < |rules[k..]| && rules[k..][i].0 == chain :: rules[k..][i].1 !in list) <==>
            forall i | k <= i < |rules| && rules[i].0 == chain :: rules[i].1 !in list
  {
    assert forall i | k <= i < |rules| :: rules[i] == rules[k..][i - k];
    assert forall i | 0 <= i < |rules| - k :: rules[k..][i] == rules[k + i];
  }

  // No rule of the chain from number k on is in the list.
  predicate NoneLater(rules: seq<(Chain, Rule)>, k: nat, chain: Chain, list: seq<Rule>) {
    forall i | k <= i < |rules| && rules[i].0 == chain :: rules[i].1 !in list
  }

  lemma TablesRestored(rules: seq<(Chain, Rule)>, prior: Tables, after: Tables, k: nat)
    requires k <= |rules|
    requires forall chain :: Get(after, chain) ==
               DeleteAll(InsertAll(Get(prior, chain), OnChain(rules[..k], chain)), OnChain(Reverse(rules), chain))
    ensures after == prior <==> forall i | k <= i < |rules| :: rules[i].1 !in Get(prior, rules[i].0)
  {
    TableRestored(rules, prior, after, k, Input);
    TableRestored(rules, prior, after, k, Forward);
    TableRestored(rules, prior, after, k, Postrouting);
    AllChains(rules, prior, k);
  }

  lemma TableRestored(rules: seq<(Chain, Rule)>, prior: Tables, after: Tables, k: nat, chain: Chain)
    requires k <= |rules|
    requires Get(after, chain) ==
             DeleteAll(InsertAll(Get(prior, chain), OnChain(rules[..k], chain)), OnChain(Reverse(rules), chain))
    ensures Get(after, chain) == Get(prior, chain) <==> NoneLater(rules, k, chain, Get(prior, chain))
  {
    ChainRestored(rules, k, chain, Get(prior, chain));
  }

  lemma AllChains(rules: seq<(Chain, Rule)>, prior: Tables, k: nat)
    ensures (forall i | k <= i < |rules| :: rules[i].1 !in Get(prior, rules[i].0)) <==>
            && NoneLater(rules, k, Input, prior.input)
            && NoneLater(rules, k, Forward, prior.forward)
            && NoneLater(rules, k, Postrouting, prior.postrouting)
  {
    forall i | k <= i < |rules| ensures rules[i].1 in Get(prior, rules[i].0) ==>
      !NoneLater(rules, k, rules[i].0, Get(prior, rules[i].0)) {
    }
  }

  // The hosts file was clean, and if the nodes were added to it, by the last command, they are read back.
  predicate HostsRestored(p: Plan, prior: string, n: nat) {
    Clean(prior, p.hosts) && (n == |Up(p)| ==> AllReadBack(p.hosts))
  }

  lemma UpChecksTabs(p: Plan, prior: Host)
    requires Strictly(Up(p)[..|Up(p)|], prior).Some?
    ensures NoTabs(p.hosts)
  {
    UpCommand(p, |Up(p)| - 1);
    StrictlyPrefix(Up(p), prior, |Up(p)| - 1);
  }

  lemma HostsAreRestored(p: Plan, prior: Host, n: nat)
    requires n <= |Up(p)| && Strictly(Up(p)[..n], prior).Some?
    ensures var text := if n > |NetUp(p)| + |Rules(p)| then Added(prior.hostsFile, p.hosts) else prior.hostsFile;
            Removed(text, p.hosts) == prior.hostsFile <==> HostsRestored(p, prior.hostsFile, n)
  {
    RemoveOnly(prior.hostsFile, p.hosts);
    AddThenRemove(prior.hostsFile, p.hosts);
    if n == |Up(p)| { UpChecksTabs(p, prior); }
  }

  /**
   Rollback, from every point: after the first n commands of net_up_inner's try block, net_down_inner gives the
   links, ports and addresses back; the firewall exactly if no rule that was still to be inserted was there
   already; /etc/hosts exactly if it was clean and the nodes added to it, if any, are read back.
   */
  lemma Rollback(p: Plan, prior: Host, n: nat)
    requires n <= |Up(p)| && Strictly(Up(p)[..n], prior).Some?
    requires Unnamed(prior.net, Names(p))
    ensures var after := Loosely(Down(p), Strictly(Up(p)[..n], prior).value);
            && after.net == prior.net
            && (after.tables == prior.tables <==> NoEqualRules(p, prior.tables, Inserted(p, n)))
            && (after.hostsFile == prior.hostsFile <==> HostsRestored(p, prior.hostsFile, n))
  {
    var host := Strictly(Up(p)[..n], prior).value;
    var filtered := host.(hostsFile := Removed(host.hostsFile, p.hosts));
    var after := Loosely(Down(p), host);
    PrefixReached(p, prior, n);
    DownInParts(p.hosts, Reverse(Rules(p)), NetDown(p), host);
    NetIsDown(p, host.net, prior.net);
    forall chain
      ensures Get(after.tables, chain) == DeleteAll(Get(host.tables, chain), OnChain(Reverse(Rules(p)), chain))
      ensures after.hostsFile == filtered.hostsFile
    {
      LooselyRouting(Reverse(Rules(p)), filtered, chain);
    }
    LooselyRouting(Reverse(Rules(p)), filtered, Input);
    TablesRestored(Rules(p), prior.tables, after.tables, Inserted(p, n));
    HostsAreRestored(p, prior, n);
  }

  /** Up and down again restore the firewall even when it had the same rules before. */
  lemma UpThenDown(p: Plan, prior: Host)
    requires Strictly(Up(p), prior).Some? && Unnamed(prior.net, Names(p))
    ensures Loosely(Down(p), Strictly(Up(p), prior).value) == prior <==>
            Clean(prior.hostsFile, p.hosts) && AllReadBack(p.hosts)
  {
    assert Up(p)[..|Up(p)|] == Up(p);
    Rollback(p, prior, |Up(p)|);
  }

  // ---- Inputs for which there is something left ----

  const PLAN := Plan("10.0.0.1/24", [], "bridge", "bridge", [], "eth0")
  const NOTHING := Net(map[], map[], {})

  /** A rule equal to one that was not inserted yet is deleted by the rollback. */
  lemma EqualRuleIsLost()
    ensures var prior := Host(NOTHING, Tables([Rules(PLAN)[0].1], [], []), "");
            Loosely(Down(PLAN), prior).tables != prior.tables
  {
    var prior := Host(NOTHING, Tables([Rules(PLAN)[0].1], [], []), "");
    NothingDone(PLAN, prior);
    assert Rules(PLAN)[0].1 in Get(prior.tables, Rules(PLAN)[0].0);
  }

  /** A hosts file whose last line does not end gets a newline. */
  lemma LastLineIsEnded()
    ensures var prior := Host(NOTHING, Tables([], [], []), "x");
            Loosely(Down(PLAN), prior).hostsFile != prior.hostsFile
  {
    NothingDone(PLAN, Host(NOTHING, Tables([], [], []), "x"));
  }

  // Going down at once.
  lemma NothingDone(p: Plan, prior: Host)
    requires prior.net == NOTHING
    ensures var after := Loosely(Down(p), prior);
            && (after.tables == prior.tables ==> NoEqualRules(p, prior.tables, 0))
            && (after.hostsFile == prior.hostsFile ==> Clean(prior.hostsFile, p.hosts))
  {
    assert Up(p)[..0] == [] && Strictly([], prior) == Some(prior);
    Rollback(p, prior, 0);
  }
}

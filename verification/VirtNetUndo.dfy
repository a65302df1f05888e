/** After net_up_inner has done all its work, net_down_inner finds everything it looks for. */
module VirtNetUndo {
  import opened Wrappers
  import opened HostsFile
  import opened Firewall
  import opened VirtNet
  import opened VirtNetFaults

  function StrictlyNet(commands: seq<NetCommand>, net: Net): Option<Net> {
    if commands == [] then Some(net)
    else
      match ApplyNet(commands[0], net)
      case None => None
      case Some(next) => StrictlyNet(commands[1..], next)
  }

  lemma {:induction false} StrictlyNetSplit(a: seq<NetCommand>, b: seq<NetCommand>, net: Net)
    ensures var mid := StrictlyNet(a, net);
            StrictlyNet(a + b, net) == if mid.None? then None else StrictlyNet(b, mid.value)
  {
    if a == [] {
      assert a + b == b;
    } else {
      assert (a + b)[0] == a[0] && (a + b)[1..] == a[1..] + b;
      if ApplyNet(a[0], net).Some? { StrictlyNetSplit(a[1..], b, ApplyNet(a[0], net).value); }
    }
  }

  lemma {:induction false} StrictlyNets(commands: seq<NetCommand>, host: Host)
    ensures var net := StrictlyNet(commands, host.net);
            Strictly(Nets(commands), host) == if net.None? then None else Some(host.(net := net.value))
  {
    if commands != [] {
      assert Nets(commands)[0] == OnNet(commands[0]) && Nets(commands)[1..] == Nets(commands[1..]);
      if ApplyNet(commands[0], host.net).Some? {
        StrictlyNets(commands[1..], host.(net := ApplyNet(commands[0], host.net).value));
      }
    }
  }

  function AndThen(net: Option<Net>, c: NetCommand): Option<Net> {
    match net
    case None => None
    case Some(n) => ApplyNet(c, n)
  }

  lemma One(a: NetCommand, net: Net)
    ensures StrictlyNet([a], net) == ApplyNet(a, net)
  {
    assert [a][1..] == [];
    match ApplyNet(a, net)
    case None =>
    case Some(next) => assert StrictlyNet([], next) == Some(next);
  }

  lemma Two(a: NetCommand, b: NetCommand, net: Net)
    ensures StrictlyNet([a, b], net) == AndThen(ApplyNet(a, net), b)
  {
    assert [a] + [b] == [a, b];
    StrictlyNetSplit([a], [b], net);
    One(a, net);
    if ApplyNet(a, net).Some? { One(b, ApplyNet(a, net).value); }
  }

  lemma Three(a: NetCommand, b: NetCommand, c: NetCommand, net: Net)
    ensures StrictlyNet([a, b, c], net) == AndThen(AndThen(ApplyNet(a, net), b), c)
  {
    assert [a, b] + [c] == [a, b, c];
    StrictlyNetSplit([a, b], [c], net);
    Two(a, b, net);
    var mid := AndThen(ApplyNet(a, net), b);
    if mid.Some? { One(c, mid.value); }
  }

  // ---- Links ----

  // The bridge is up, with its address and, if it has one, its access link.
  predicate BridgeStands(net: Net, p: Plan) {
    && p.bridge in net.links && net.links[p.bridge].kind == Bridge && net.links[p.bridge].up
    && (p.access != p.bridge ==>
          p.access in net.links && net.links[p.access].kind == Vlan(p.bridge) && net.links[p.access].up)
    && (p.address, p.access) in net.addresses
  }

  // These taps, each another one, are ports of the bridge.
  predicate TapsStand(net: Net, p: Plan, taps: seq<string>) {
    && (forall i | 0 <= i < |taps| ::
          && taps[i] in net.links && net.links[taps[i]] == Link(Tap, true, true)
          && taps[i] in net.ports && net.ports[taps[i]] == p.bridge)
    && forall i, j | 0 <= i < j < |taps| :: taps[i] != taps[j]
  }

  lemma BridgeComesUp(p: Plan, net: Net)
    requires StrictlyNet(BridgeUp(p), net).Some?
    ensures BridgeStands(StrictlyNet(BridgeUp(p), net).value, p)
  {
    var first, last := [AddBridge(p.bridge), SetUp(p.bridge)], [AddAddress(p.address, p.access)];
    var mid := if p.access != p.bridge then [AddVlan(p.bridge, p.access), SetUp(p.access)] else [];
    assert BridgeUp(p) == first + (mid + last);
    StrictlyNetSplit(first, mid + last, net);
    Two(AddBridge(p.bridge), SetUp(p.bridge), net);
    var net1 := StrictlyNet(first, net).value;
    StrictlyNetSplit(mid, last, net1);
    AccessComesUp(p, net1);
    One(AddAddress(p.address, p.access), StrictlyNet(mid, net1).value);
  }

  lemma AccessComesUp(p: Plan, net: Net)
    requires p.bridge in net.links && net.links[p.bridge].kind == Bridge && net.links[p.bridge].up
    ensures var mid := if p.access != p.bridge then [AddVlan(p.bridge, p.access), SetUp(p.access)] else [];
            var next := StrictlyNet(mid, net);
            next.Some? ==>
              && p.bridge in next.value.links && next.value.links[p.bridge].kind == Bridge && next.value.links[p.bridge].up
              && (p.access != p.bridge ==>
                    && p.access in next.value.links && next.value.links[p.access].kind == Vlan(p.bridge)
                    && next.value.links[p.access].up)
  {
    if p.access != p.bridge {
      Two(AddVlan(p.bridge, p.access), SetUp(p.access), net);
    }
  }

  // One more tap.
  lemma TapComesUp(p: Plan, net: Net, taps: seq<string>, tap: string)
    requires BridgeStands(net, p) && TapsStand(net, p, taps) && StrictlyNet(TapUp(p.bridge, tap), net).Some?
    ensures var net' := StrictlyNet(TapUp(p.bridge, tap), net).value;
            BridgeStands(net', p) && TapsStand(net', p, taps + [tap])
  {
    Three(AddTap(tap), SetUpPromisc(tap), AddPort(p.bridge, tap), net);
    assert tap !in net.links;
    var all := taps + [tap];
    assert all[|taps|] == tap && forall i | 0 <= i < |taps| :: all[i] == taps[i];
  }

  lemma {:induction false} TapsComeUp(p: Plan, net: Net, done: seq<string>, rest: seq<string>)
    requires BridgeStands(net, p) && TapsStand(net, p, done) && StrictlyNet(TapsUp(p.bridge, rest), net).Some?
    ensures var net' := StrictlyNet(TapsUp(p.bridge, rest), net).value;
            BridgeStands(net', p) && TapsStand(net', p, done + rest)
    decreases |rest|
  {
    if rest == [] {
      assert done + rest == done;
    } else {
      StrictlyNetSplit(TapUp(p.bridge, rest[0]), TapsUp(p.bridge, rest[1..]), net);
      TapComesUp(p, net, done, rest[0]);
      TapsComeUp(p, StrictlyNet(TapUp(p.bridge, rest[0]), net).value, done + [rest[0]], rest[1..]);
      assert done + [rest[0]] + rest[1..] == done + rest;
    }
  }

  lemma TapGoesDown(p: Plan, net: Net, taps: seq<string>)
    requires taps != [] && BridgeStands(net, p) && TapsStand(net, p, taps)
    ensures var net' := StrictlyNet(TapDown(p.bridge, taps[0]), net);
            net'.Some? && BridgeStands(net'.value, p) && TapsStand(net'.value, p, taps[1..])
  {
    Three(DelPort(p.bridge, taps[0]), SetDown(taps[0]), DelTap(taps[0]), net);
    assert net.links[taps[0]].kind == Tap;
    assert forall i | 0 <= i < |taps| - 1 :: taps[1..][i] == taps[i + 1];
  }

  lemma {:induction false} TapsGoDown(p: Plan, net: Net, taps: seq<string>)
    requires BridgeStands(net, p) && TapsStand(net, p, taps)
    ensures var net' := StrictlyNet(TapsDown(p.bridge, taps), net); net'.Some? && BridgeStands(net'.value, p)
    decreases |taps|
  {
    if taps != [] {
      TapGoesDown(p, net, taps);
      StrictlyNetSplit(TapDown(p.bridge, taps[0]), TapsDown(p.bridge, taps[1..]), net);
      TapsGoDown(p, StrictlyNet(TapDown(p.bridge, taps[0]), net).value, taps[1..]);
    }
  }

  lemma BridgeGoesDown(p: Plan, net: Net)
    requires BridgeStands(net, p)
    ensures StrictlyNet(BridgeDown(p), net).Some?
  {
    var first, last := [DelAddress(p.address, p.access)], [SetDown(p.bridge), DelBridge(p.bridge)];
    var mid := if p.access != p.bridge then [SetDown(p.access), DelLink(p.access)] else [];
    assert BridgeDown(p) == first + (mid + last);
    StrictlyNetSplit(first, mid + last, net);
    One(DelAddress(p.address, p.access), net);
    var net1 := StrictlyNet(first, net).value;
    StrictlyNetSplit(mid, last, net1);
    AccessGoesDown(p, net1);
    Two(SetDown(p.bridge), DelBridge(p.bridge), StrictlyNet(mid, net1).value);
  }

  lemma AccessGoesDown(p: Plan, net: Net)
    requires p.bridge in net.links && net.links[p.bridge].kind == Bridge
    requires p.access != p.bridge ==> p.access in net.links
    ensures var mid := if p.access != p.bridge then [SetDown(p.access), DelLink(p.access)] else [];
            var next := StrictlyNet(mid, net);
            next.Some? && p.bridge in next.value.links && next.value.links[p.bridge].kind == Bridge
  {
    if p.access != p.bridge {
      Two(SetDown(p.access), DelLink(p.access), net);
    }
  }

  /** The links stand after going up. */
  lemma NetStands(p: Plan, net: Net)
    requires StrictlyNet(NetUp(p), net).Some?
    ensures var net' := StrictlyNet(NetUp(p), net).value; BridgeStands(net', p) && TapsStand(net', p, p.taps)
  {
    StrictlyNetSplit(BridgeUp(p), TapsUp(p.bridge, p.taps), net);
    BridgeComesUp(p, net);
    TapsComeUp(p, StrictlyNet(BridgeUp(p), net).value, [], p.taps);
    assert [] + p.taps == p.taps;
  }

  lemma NetGoesDown(p: Plan, net: Net)
    requires StrictlyNet(NetUp(p), net).Some?
    ensures StrictlyNet(NetDown(p), StrictlyNet(NetUp(p), net).value).Some?
  {
    NetStands(p, net);
    var net2 := StrictlyNet(NetUp(p), net).value;
    TapsGoDown(p, net2, p.taps);
    StrictlyNetSplit(TapsDown(p.bridge, p.taps), BridgeDown(p), net2);
    BridgeGoesDown(p, StrictlyNet(TapsDown(p.bridge, p.taps), net2).value);
  }

  // ---- Rules ----

  lemma InsertThenDelete(rule: (Chain, Rule), host: Host)
    ensures var up := Apply(Insert(rule.0, rule.1), host);
            up.Some? && Apply(Delete(rule.0, rule.1), up.value) == Some(host)
  {
    var list := Get(host.tables, rule.0);
    assert ([rule.1] + list)[1..] == list;
  }

  lemma FirstInsertion(first: (Chain, Rule), rest: seq<(Chain, Rule)>, host: Host, next: Host)
    requires Apply(Insert(first.0, first.1), host) == Some(next)
    ensures Strictly(RoutingUp([first] + rest), host) == Strictly(RoutingUp(rest), next)
  {
    var insertions := RoutingUp([first] + rest);
    assert insertions[0] == Insert(first.0, first.1) && insertions[1..] == RoutingUp(rest);
  }

  lemma LastDeletion(deletions: seq<(Chain, Rule)>, last: (Chain, Rule), host: Host, next: Host)
    requires Strictly(RoutingDown(deletions), host) == Some(next)
    ensures Strictly(RoutingDown(deletions + [last]), host) == Apply(Delete(last.0, last.1), next)
  {
    assert RoutingDown(deletions + [last]) == RoutingDown(deletions) + [Delete(last.0, last.1)];
    StrictlySnoc(RoutingDown(deletions), Delete(last.0, last.1), host);
  }

  /** Deleting rules in the opposite order undoes inserting them, whatever rules were there. */
  lemma {:induction false} RoutingUndone(rules: seq<(Chain, Rule)>, host: Host)
    ensures var up := Strictly(RoutingUp(rules), host);
            up.Some? && Strictly(RoutingDown(Reverse(rules)), up.value) == Some(host)
    decreases |rules|
  {
    if rules != [] {
      var first, rest := rules[0], rules[1..];
      InsertThenDelete(first, host);
      var next := Apply(Insert(first.0, first.1), host).value;
      RoutingUndone(rest, next);
      FirstInsertion(first, rest, host, next);
      LastDeletion(Reverse(rest), first, Strictly(RoutingUp(rest), next).value, next);
      assert rules == [first] + rest;
    }
  }

  // ---- All of it ----

  // Commands about rules do not look at anything else, nor change it.
  lemma {:induction false} RoutingIsApart(commands: seq<Command>, host: Host, net: Net, text: string)
    requires forall c | c in commands :: c.Insert? || c.Delete?
    ensures Strictly(commands, host.(net := net, hostsFile := text)) ==
            match Strictly(commands, host)
            case None => None
            case Some(r) => Some(r.(net := net, hostsFile := text))
    decreases |commands|
  {
    if commands != [] {
      ApplyIsApart(commands[0], host, net, text);
      if Apply(commands[0], host).Some? { RoutingIsApart(commands[1..], Apply(commands[0], host).value, net, text); }
    }
  }

  lemma ApplyIsApart(c: Command, host: Host, net: Net, text: string)
    requires c.Insert? || c.Delete?
    ensures Apply(c, host.(net := net, hostsFile := text)) ==
            match Apply(c, host)
            case None => None
            case Some(r) => Some(r.(net := net, hostsFile := text))
  {
  }

  // Where a full net_up_inner gets: the links, then the rules, then the hosts file.
  lemma UpInParts(p: Plan, prior: Host) returns (linked: Host, routed: Host)
    requires Strictly(Up(p), prior).Some?
    ensures StrictlyNet(NetUp(p), prior.net).Some? && linked == prior.(net := StrictlyNet(NetUp(p), prior.net).value)
    ensures Strictly(RoutingUp(Rules(p)), linked) == Some(routed)
    ensures Strictly(Up(p), prior) == Some(routed.(hostsFile := Added(routed.hostsFile, p.hosts)))
  {
    var last := [AppendHosts(p.hosts)];
    StrictlySplit(Nets(NetUp(p)) + RoutingUp(Rules(p)), last, prior);
    StrictlySplit(Nets(NetUp(p)), RoutingUp(Rules(p)), prior);
    StrictlyNets(NetUp(p), prior);
    linked := prior.(net := StrictlyNet(NetUp(p), prior.net).value);
    routed := Strictly(RoutingUp(Rules(p)), linked).value;
    assert last[1..] == [];
  }

  // Going down after that, whatever is in the hosts file.
  lemma DownAfterUp(hosts: Hosts, rules: seq<(Chain, Rule)>, nets: seq<NetCommand>, linked: Host, routed: Host, text: string)
    requires Strictly(RoutingUp(rules), linked) == Some(routed) && StrictlyNet(nets, linked.net).Some?
    ensures NoneFails([FilterHosts(hosts)] + RoutingDown(Reverse(rules)) + Nets(nets), routed.(hostsFile := text))
  {
    var host := routed.(hostsFile := text);
    var filtered := host.(hostsFile := Removed(text, hosts));
    var routing := RoutingDown(Reverse(rules));
    RoutingUndone(rules, linked);
    RoutingIsApart(RoutingUp(rules), linked, linked.net, linked.hostsFile);
    RoutingIsApart(routing, routed, filtered.net, filtered.hostsFile);
    PartsSucceed([FilterHosts(hosts)], routing, nets, host, filtered);
  }

  /**
   After a full net_up_inner, every command of net_down_inner works, so that it reports success, as net_context
   demands of it.
   */
  lemma FullDownSucceeds(p: Plan, prior: Host)
    requires Strictly(Up(p), prior).Some?
    ensures NoneFails(Down(p), Strictly(Up(p), prior).value)
  {
    var linked, routed := UpInParts(p, prior);
    NetGoesDown(p, prior.net);
    DownAfterUp(p.hosts, Rules(p), NetDown(p), linked, routed, Added(routed.hostsFile, p.hosts));
  }

  /** So net_down_inner reports it, unless a command fails by itself. */
  lemma FullDownReports(p: Plan, prior: Host, works: nat -> bool)
    requires Strictly(Up(p), prior).Some? && forall i: nat :: works(i)
    ensures AllWork(Down(p), Strictly(Up(p), prior).value, works, 0)
  {
    FullDownSucceeds(p, prior);
    NoFaultIsLoose(Down(p), Strictly(Up(p), prior).value, works, 0);
  }

  lemma PartsSucceed(filter: seq<Command>, routing: seq<Command>, nets: seq<NetCommand>, host: Host, filtered: Host)
    requires |filter| == 1 && Apply(filter[0], host) == Some(filtered)
    requires Strictly(routing, filtered).Some? && StrictlyNet(nets, Strictly(routing, filtered).value.net).Some?
    ensures NoneFails(filter + routing + Nets(nets), host)
  {
    StrictlySplit(filter + routing, Nets(nets), host);
    StrictlySplit(filter, routing, host);
    assert filter[1..] == [] && Strictly(filter, host) == Some(filtered);
    StrictlyNets(nets, Strictly(routing, filtered).value);
  }
}

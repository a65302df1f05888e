/**
 Going down when commands fail for reasons of their own: exactly which links, rules and lines are left, and when the
 host is as it was.
 */
module VirtNetFaults {
  import opened Wrappers
  import opened HostsFile
  import opened Firewall
  import opened VirtNet

  // ---- Links ----

  // One command; without effect if it fails.
  function Tried(c: NetCommand, net: Net, works: bool): Net {
    if works && ApplyNet(c, net).Some? then ApplyNet(c, net).value else net
  }

  // Command i works by itself if works(n + i).
  function FaultyNet(commands: seq<NetCommand>, net: Net, works: nat -> bool, n: nat): Net
    decreases |commands|
  {
    if commands == [] then net else FaultyNet(commands[1..], Tried(commands[0], net, works(n)), works, n + 1)
  }

  lemma {:induction false} FaultyNetAppend(a: seq<NetCommand>, b: seq<NetCommand>, net: Net, works: nat -> bool, n: nat)
    ensures FaultyNet(a + b, net, works, n) == FaultyNet(b, FaultyNet(a, net, works, n), works, n + |a|)
    decreases |a|
  {
    if a == [] {
      assert a + b == b;
    } else {
      assert (a + b)[0] == a[0] && (a + b)[1..] == a[1..] + b;
      FaultyNetAppend(a[1..], b, Tried(a[0], net, works(n)), works, n + 1);
    }
  }

  predicate Removing(commands: seq<NetCommand>) {
    forall c | c in commands :: Removes(c)
  }

  lemma {:induction false} FaultsKeep(commands: seq<NetCommand>, net: Net, p: Plan, works: nat -> bool, n: nat)
    requires Sound(net, p) && forall c | c in commands :: Removes(c) && Ours(c, p)
    ensures var net' := FaultyNet(commands, net, works, n);
            Sound(net', p) && Without(net', Names(p)) == Without(net, Names(p))
    decreases |commands|
  {
    if commands != [] {
      var c := commands[0];
      if works(n) && ApplyNet(c, net).Some? { CommandKeeps(c, net, p); }
      FaultsKeep(commands[1..], Tried(c, net, works(n)), p, works, n + 1);
    }
  }

  lemma {:induction false} NoFaults(commands: seq<NetCommand>, net: Net, works: nat -> bool, n: nat)
    requires forall i: nat | i >= n :: works(i)
    ensures FaultyNet(commands, net, works, n) == LooselyNet(commands, net)
    decreases |commands|
  {
    if commands != [] { NoFaults(commands[1..], Tried(commands[0], net, works(n)), works, n + 1); }
  }

  // The command is among these, at a place where it works.
  predicate Ran(commands: seq<NetCommand>, works: nat -> bool, n: nat, c: NetCommand) {
    exists i: nat :: i < |commands| && commands[i] == c && works(n + i)
  }

  lemma RanFirst(commands: seq<NetCommand>, works: nat -> bool, n: nat, c: NetCommand)
    requires commands != []
    ensures Ran(commands, works, n, c) <==> (commands[0] == c && works(n)) || Ran(commands[1..], works, n + 1, c)
  {
    if Ran(commands, works, n, c) {
      var i: nat :| i < |commands| && commands[i] == c && works(n + i);
      if i > 0 { assert commands[1..][i - 1] == c && works(n + 1 + (i - 1)); }
    }
    if Ran(commands[1..], works, n + 1, c) {
      var i: nat :| i < |commands[1..]| && commands[1..][i] == c && works(n + 1 + i);
      assert commands[i + 1] == c && works(n + (i + 1));
    }
    if commands[0] == c && works(n) { assert works(n + 0); }
  }

  lemma RanLast(commands: seq<NetCommand>, last: NetCommand, works: nat -> bool, n: nat, c: NetCommand)
    ensures Ran(commands + [last], works, n, c) <==> Ran(commands, works, n, c) || (last == c && works(n + |commands|))
  {
    var all := commands + [last];
    if Ran(all, works, n, c) {
      var i: nat :| i < |all| && all[i] == c && works(n + i);
      if i < |commands| { assert commands[i] == c; }
    }
    if Ran(commands, works, n, c) {
      var i: nat :| i < |commands| && commands[i] == c && works(n + i);
      assert all[i] == c;
    }
    assert all[|commands|] == last;
  }

  lemma {:induction false} OnlyFewerLinks(commands: seq<NetCommand>, net: Net, works: nat -> bool, n: nat)
    requires Removing(commands)
    ensures Fewer(FaultyNet(commands, net, works, n), net)
    decreases |commands|
  {
    if commands != [] {
      var next := Tried(commands[0], net, works(n));
      if works(n) && ApplyNet(commands[0], net).Some? { RemovesLinks(commands[0], net); }
      OnlyFewerLinks(commands[1..], next, works, n + 1);
    }
  }

  lemma {:induction false} TapStays(commands: seq<NetCommand>, net: Net, works: nat -> bool, n: nat, l: string)
    requires Removing(commands) && l in net.links && net.links[l].kind == Tap
    ensures l in FaultyNet(commands, net, works, n).links <==>
            !Ran(commands, works, n, DelTap(l)) && !Ran(commands, works, n, DelLink(l))
    decreases |commands|
  {
    if commands != [] {
      var next := Tried(commands[0], net, works(n));
      RanFirst(commands, works, n, DelTap(l));
      RanFirst(commands, works, n, DelLink(l));
      if l in next.links {
        TapStays(commands[1..], next, works, n + 1, l);
      } else {
        OnlyFewerLinks(commands[1..], next, works, n + 1);
      }
    }
  }

  lemma StaysOnce(c: NetCommand, net: Net, works: bool, l: string)
    requires Removes(c) && l in net.links && (net.links[l].kind == Bridge || net.links[l].kind == Other)
    requires c != DelLink(l) && (net.links[l].kind == Bridge ==> c != DelBridge(l))
    ensures var next := Tried(c, net, works);
            && l in next.links && next.links[l].kind == net.links[l].kind
            && (next.links[l].up <==> net.links[l].up && !(works && c == SetDown(l)))
  {
  }

  // A bridge, or a link of the user, that no command deletes.
  lemma {:induction false} LinkStays(commands: seq<NetCommand>, net: Net, works: nat -> bool, n: nat, l: string)
    requires Removing(commands) && l in net.links && (net.links[l].kind == Bridge || net.links[l].kind == Other)
    requires DelLink(l) !in commands && (net.links[l].kind == Bridge ==> DelBridge(l) !in commands)
    ensures var after := FaultyNet(commands, net, works, n);
            && l in after.links && after.links[l].kind == net.links[l].kind
            && (after.links[l].up <==> net.links[l].up && !Ran(commands, works, n, SetDown(l)))
    decreases |commands|
  {
    if commands != [] {
      RanFirst(commands, works, n, SetDown(l));
      StaysOnce(commands[0], net, works(n), l);
      LinkStays(commands[1..], Tried(commands[0], net, works(n)), works, n + 1, l);
    }
  }

  // What a VLAN is over.
  predicate Carried(net: Net, over: string) {
    over in net.links && !net.links[over].kind.Vlan?
  }

  lemma VlanOnce(c: NetCommand, net: Net, works: bool, l: string, over: string)
    requires Removes(c) && (c.DelLink? ==> c.link == l) && l in net.links && net.links[l].kind == Vlan(over)
    ensures var next := Tried(c, net, works);
            && (l in next.links <==> !(works && c == DelLink(l)) && (Carried(net, over) ==> over in next.links))
            && (l in next.links ==> next.links[l].kind == Vlan(over) && (Carried(next, over) <==> Carried(net, over)))
  {
  }

  // A VLAN goes with its own deletion, and with the link that it is over.
  lemma {:induction false} VlanStays(commands: seq<NetCommand>, net: Net, works: nat -> bool, n: nat, l: string, over: string)
    requires Removing(commands) && forall c | c in commands && c.DelLink? :: c.link == l
    requires l in net.links && net.links[l].kind == Vlan(over)
    ensures var after := FaultyNet(commands, net, works, n);
            l in after.links <==>
            !Ran(commands, works, n, DelLink(l)) && (Carried(net, over) ==> over in after.links)
    decreases |commands|
  {
    if commands != [] {
      var next := Tried(commands[0], net, works(n));
      RanFirst(commands, works, n, DelLink(l));
      VlanOnce(commands[0], net, works(n), l, over);
      if l in next.links {
        VlanStays(commands[1..], next, works, n + 1, l, over);
      } else {
        OnlyFewerLinks(commands[1..], next, works, n + 1);
      }
    }
  }

  // ---- The links of the plan ----

  predicate Runs(p: Plan, works: nat -> bool, n: nat, c: NetCommand) {
    Ran(NetDown(p), works, n, c)
  }

  // The commands that take a link away which is no VLAN.
  predicate Deletes(p: Plan, net: Net, works: nat -> bool, n: nat, l: string)
    requires l in net.links
  {
    match net.links[l].kind
    case Tap => Runs(p, works, n, DelTap(l)) || Runs(p, works, n, DelLink(l))
    case Bridge => Runs(p, works, n, DelBridge(l)) && (net.links[l].up ==> Runs(p, works, n, SetDown(l)))
    case _ => false
  }

  // The commands that take a link away work: a VLAN also goes with the link that it is over.
  predicate Gone(p: Plan, net: Net, works: nat -> bool, n: nat, l: string)
    requires l in net.links
  {
    match net.links[l].kind
    case Vlan(over) => Runs(p, works, n, DelLink(l)) || (Carried(net, over) && Deletes(p, net, works, n, over))
    case _ => Deletes(p, net, works, n, l)
  }

  lemma DownIsOurs(p: Plan)
    ensures forall c | c in NetDown(p) :: Removes(c) && Ours(c, p)
    ensures forall c | c in NetDown(p) && c.DelLink? :: c.link == p.access
  {
    TapsDownIsOurs(p, p.taps);
    BridgeDownIsOurs(p);
    TapsDeleteNoLinks(p.bridge, p.taps);
  }

  lemma {:induction false} TapsDeleteNoLinks(bridge: string, taps: seq<string>)
    ensures forall c | c in TapsDown(bridge, taps) :: !c.DelLink? && !c.DelBridge?
  {
    if taps != [] { TapsDeleteNoLinks(bridge, taps[1..]); }
  }

  // All of net_down_inner's commands on links but the last one.
  function DownButLast(p: Plan): seq<NetCommand> {
    NetDown(p)[..|NetDown(p)| - 1]
  }

  lemma LastDown(p: Plan)
    ensures NetDown(p) == DownButLast(p) + [DelBridge(p.bridge)]
    ensures forall c | c in DownButLast(p) :: !c.DelBridge? && (c.DelLink? ==> p.access != p.bridge)
  {
    TapsDeleteNoLinks(p.bridge, p.taps);
    assert NetDown(p)[|NetDown(p)| - 1] == BridgeDown(p)[|BridgeDown(p)| - 1];
    assert DownButLast(p) == TapsDown(p.bridge, p.taps) + BridgeDown(p)[..|BridgeDown(p)| - 1];
  }

  lemma NotRan(commands: seq<NetCommand>, works: nat -> bool, n: nat, c: NetCommand)
    requires c !in commands
    ensures !Ran(commands, works, n, c)
  {
  }

  lemma BridgeGoes(p: Plan, net: Net, works: nat -> bool, n: nat)
    requires p.bridge in net.links && net.links[p.bridge].kind == Bridge
    ensures p.bridge in FaultyNet(NetDown(p), net, works, n).links <==> !Deletes(p, net, works, n, p.bridge)
  {
    var first := DownButLast(p);
    DownIsOurs(p);
    LastDown(p);
    assert forall c | c in first :: c in NetDown(p);
    BridgeDeletedLast(first, net, works, n, p.bridge);
  }

  // A bridge that only the last command deletes.
  lemma BridgeDeletedLast(first: seq<NetCommand>, net: Net, works: nat -> bool, n: nat, l: string)
    requires Removing(first) && DelLink(l) !in first && DelBridge(l) !in first
    requires l in net.links && net.links[l].kind == Bridge
    ensures var all := first + [DelBridge(l)];
            l in FaultyNet(all, net, works, n).links <==>
            !(Ran(all, works, n, DelBridge(l)) && (net.links[l].up ==> Ran(all, works, n, SetDown(l))))
  {
    var last := DelBridge(l);
    LinkStays(first, net, works, n, l);
    FaultyNetAppend(first, [last], net, works, n);
    NotRan(first, works, n, last);
    RanLast(first, last, works, n, last);
    RanLast(first, last, works, n, SetDown(l));
    OneCommand(last, FaultyNet(first, net, works, n), works, n + |first|);
  }

  lemma OneCommand(c: NetCommand, net: Net, works: nat -> bool, n: nat)
    ensures FaultyNet([c], net, works, n) == Tried(c, net, works(n))
  {
    assert [c][1..] == [];
  }

  lemma LinkGoes(p: Plan, net: Net, works: nat -> bool, n: nat, l: string)
    requires Sound(net, p) && Carried(net, l)
    ensures l in FaultyNet(NetDown(p), net, works, n).links <==> !Deletes(p, net, works, n, l)
  {
    DownIsOurs(p);
    match net.links[l].kind
    case Tap => TapStays(NetDown(p), net, works, n, l);
    case Bridge =>
      if l == p.bridge {
        BridgeGoes(p, net, works, n);
      } else {
        LinkStays(NetDown(p), net, works, n, l);
        NotRan(NetDown(p), works, n, DelBridge(l));
      }
    case Other => LinkStays(NetDown(p), net, works, n, l);
  }

  /** Which of the plan's links go, whichever commands fail: exactly those whose deleting commands work. */
  lemma PlanLinkGoes(p: Plan, net: Net, works: nat -> bool, n: nat, l: string)
    requires Sound(net, p) && l in Names(p)
    ensures l in FaultyNet(NetDown(p), net, works, n).links <==> l in net.links && !Gone(p, net, works, n, l)
  {
    DownIsOurs(p);
    if l !in net.links {
      OnlyFewerLinks(NetDown(p), net, works, n);
    } else if net.links[l].kind.Vlan? {
      var over := net.links[l].kind.over;
      VlanStays(NetDown(p), net, works, n, l, over);
      if Carried(net, over) { LinkGoes(p, net, works, n, over); }
    } else {
      LinkGoes(p, net, works, n, l);
    }
  }

  // The deleting commands of all links of the plan work.
  predicate AllGo(p: Plan, net: Net, works: nat -> bool, n: nat) {
    forall l | l in net.links :: l in Names(p) ==> Gone(p, net, works, n, l)
  }

  /**
   Whatever commands fail on the way down, for whatever reasons, nothing outside the plan's names changes; and the
   network from before is back exactly if the deleting commands of each link that is there work, as they do when no
   command fails by itself.
   */
  lemma NetIsDownExactly(p: Plan, net: Net, prior: Net, works: nat -> bool, n: nat)
    requires Sound(net, p) && Without(net, Names(p)) == prior
    ensures var after := FaultyNet(NetDown(p), net, works, n);
            && Without(after, Names(p)) == prior
            && (after == prior <==> AllGo(p, net, works, n))
            && ((forall i: nat :: works(i)) ==> after == prior)
  {
    var after := FaultyNet(NetDown(p), net, works, n);
    DownIsOurs(p);
    FaultsKeep(NetDown(p), net, p, works, n);
    forall l | l in Names(p) ensures l in after.links <==> l in net.links && !Gone(p, net, works, n, l) {
      PlanLinkGoes(p, net, works, n, l);
    }
    if AllGo(p, net, works, n) { EmptyIsWithout(after, p); }
    if forall i: nat :: works(i) {
      NoFaults(NetDown(p), net, works, n);
      NetIsDown(p, net, prior);
    }
  }

  // ---- The same by position ----

  // As determine_topology names them, unless two nodes have the same address.
  predicate Apart(p: Plan) {
    && (forall i, j | 0 <= i < j < |p.taps| :: p.taps[i] != p.taps[j])
    && p.bridge !in p.taps && p.access !in p.taps
  }

  lemma {:induction false} TapsDownLength(bridge: string, taps: seq<string>)
    ensures |TapsDown(bridge, taps)| == 3 * |taps|
  {
    if taps != [] { TapsDownLength(bridge, taps[1..]); }
  }

  lemma {:induction false} TapDownAt(bridge: string, taps: seq<string>, i: nat)
    requires i < |taps|
    ensures |TapsDown(bridge, taps)| == 3 * |taps|
    ensures TapsDown(bridge, taps)[3 * i..3 * i + 3] == TapDown(bridge, taps[i])
  {
    TapsDownLength(bridge, taps);
    var first, rest := TapDown(bridge, taps[0]), TapsDown(bridge, taps[1..]);
    if i == 0 {
      assert (first + rest)[..3] == first;
    } else {
      TapDownAt(bridge, taps[1..], i - 1);
      LaterPart(first, rest, 3 * i, 3 * i + 3);
    }
  }

  lemma LaterPart<T>(a: seq<T>, b: seq<T>, from: nat, to: nat)
    requires |a| <= from <= to <= |a| + |b|
    ensures (a + b)[from..to] == b[from - |a|..to - |a|]
  {
  }

  // Where a command on taps stands.
  lemma TapCommandIs(bridge: string, taps: seq<string>, m: nat)
    requires m < |TapsDown(bridge, taps)|
    ensures m / 3 < |taps| && TapsDown(bridge, taps)[m] == TapDown(bridge, taps[m / 3])[m % 3]
  {
    TapsDownLength(bridge, taps);
    var i := m / 3;
    TapDownAt(bridge, taps, i);
    assert TapsDown(bridge, taps)[m] == TapsDown(bridge, taps)[3 * i..3 * i + 3][m % 3];
  }

  lemma RunsOnlyAt(p: Plan, works: nat -> bool, n: nat, c: NetCommand, m: nat)
    requires m < |NetDown(p)| && NetDown(p)[m] == c && forall q | 0 <= q < |NetDown(p)| && NetDown(p)[q] == c :: q == m
    ensures Runs(p, works, n, c) <==> works(n + m)
  {
  }

  lemma TapRunsAt(p: Plan, works: nat -> bool, n: nat, i: nat)
    requires Apart(p) && i < |p.taps|
    ensures Runs(p, works, n, DelTap(p.taps[i])) <==> works(n + (3 * i + 2))
    ensures !Runs(p, works, n, DelLink(p.taps[i]))
  {
    DownIsOurs(p);
    TapsDownLength(p.bridge, p.taps);
    TapCommandIs(p.bridge, p.taps, 3 * i + 2);
    var c := DelTap(p.taps[i]);
    forall q | 0 <= q < |NetDown(p)| && NetDown(p)[q] == c ensures q == 3 * i + 2 {
      if q < 3 * |p.taps| { TapCommandIs(p.bridge, p.taps, q); }
    }
    RunsOnlyAt(p, works, n, c, 3 * i + 2);
  }

  // Where the commands on the bridges start.
  function BridgesAt(p: Plan): nat {
    3 * |p.taps|
  }

  function BridgeAt(p: Plan): nat {
    if p.access != p.bridge then BridgesAt(p) + 3 else BridgesAt(p) + 1
  }

  lemma BridgeCommandAt(p: Plan, c: NetCommand, at: nat)
    requires at < |BridgeDown(p)| && BridgeDown(p)[at] == c
    requires forall q | 0 <= q < |BridgeDown(p)| && BridgeDown(p)[q] == c :: q == at
    requires c !in TapsDown(p.bridge, p.taps)
    ensures var m := BridgesAt(p) + at;
            m < |NetDown(p)| && NetDown(p)[m] == c && forall q | 0 <= q < |NetDown(p)| && NetDown(p)[q] == c :: q == m
  {
    TapsDownLength(p.bridge, p.taps);
    var taps := TapsDown(p.bridge, p.taps);
    assert forall q | 0 <= q < |taps| :: NetDown(p)[q] in taps;
    assert forall q | |taps| <= q < |NetDown(p)| :: NetDown(p)[q] == BridgeDown(p)[q - |taps|];
  }

  lemma NotOnTaps(p: Plan)
    requires Apart(p)
    ensures SetDown(p.bridge) !in TapsDown(p.bridge, p.taps)
  {
    forall m: nat | m < |TapsDown(p.bridge, p.taps)| ensures TapsDown(p.bridge, p.taps)[m] != SetDown(p.bridge) {
      TapCommandIs(p.bridge, p.taps, m);
    }
  }

  lemma BridgeRunsAt(p: Plan, works: nat -> bool, n: nat)
    requires Apart(p)
    ensures Runs(p, works, n, SetDown(p.bridge)) <==> works(n + BridgeAt(p))
    ensures Runs(p, works, n, DelBridge(p.bridge)) <==> works(n + (BridgeAt(p) + 1))
    ensures p.access != p.bridge ==> (Runs(p, works, n, DelLink(p.access)) <==> works(n + (BridgesAt(p) + 2)))
  {
    var at := BridgeAt(p) - BridgesAt(p);
    NotOnTaps(p);
    TapsDeleteNoLinks(p.bridge, p.taps);
    BridgeCommandAt(p, SetDown(p.bridge), at);
    RunsOnlyAt(p, works, n, SetDown(p.bridge), BridgeAt(p));
    BridgeCommandAt(p, DelBridge(p.bridge), at + 1);
    RunsOnlyAt(p, works, n, DelBridge(p.bridge), BridgeAt(p) + 1);
    if p.access != p.bridge {
      BridgeCommandAt(p, DelLink(p.access), 2);
      RunsOnlyAt(p, works, n, DelLink(p.access), BridgesAt(p) + 2);
    }
  }

  // Which positions have to work: the deletion of each tap; that of the bridge, and before it what sets the bridge down
  // if it is up; and that of the access link, unless it goes with the bridge.
  predicate NeededWork(p: Plan, net: Net, works: nat -> bool, n: nat) {
    && TapDeletionsWork(p, net, works, n)
    && (p.bridge in net.links ==> works(n + (BridgeAt(p) + 1)) && (net.links[p.bridge].up ==> works(n + BridgeAt(p))))
    && (p.access != p.bridge && p.access in net.links ==> works(n + (BridgesAt(p) + 2)) || p.bridge in net.links)
  }

  // As bridge_up makes it.
  predicate OverBridge(p: Plan, net: Net) {
    p.access != p.bridge && p.access in net.links ==> net.links[p.access].kind == Vlan(p.bridge)
  }

  lemma TapGoesAt(p: Plan, net: Net, works: nat -> bool, n: nat, i: nat)
    requires Sound(net, p) && Apart(p) && i < |p.taps| && p.taps[i] in net.links
    ensures p.taps[i] in Names(p) && (Gone(p, net, works, n, p.taps[i]) <==> works(n + (3 * i + 2)))
  {
    assert p.taps[i] in p.taps && p.taps[i] in Names(p);
    TapRunsAt(p, works, n, i);
  }

  lemma BridgeGoesAt(p: Plan, net: Net, works: nat -> bool, n: nat)
    requires Sound(net, p) && Apart(p) && p.bridge in net.links
    ensures net.links[p.bridge].kind == Bridge
    ensures Gone(p, net, works, n, p.bridge) <==>
            works(n + (BridgeAt(p) + 1)) && (net.links[p.bridge].up ==> works(n + BridgeAt(p)))
  {
    assert p.bridge in Names(p);
    BridgeRunsAt(p, works, n);
  }

  predicate TapsGo(p: Plan, net: Net, works: nat -> bool, n: nat) {
    forall i: nat | i < |p.taps| && p.taps[i] in net.links :: Gone(p, net, works, n, p.taps[i])
  }

  predicate TapDeletionsWork(p: Plan, net: Net, works: nat -> bool, n: nat) {
    forall i: nat | i < |p.taps| && p.taps[i] in net.links :: works(n + (3 * i + 2))
  }

  lemma TapsGoAt(p: Plan, net: Net, works: nat -> bool, n: nat)
    requires Sound(net, p) && Apart(p)
    ensures TapsGo(p, net, works, n) <==> TapDeletionsWork(p, net, works, n)
  {
    forall i: nat | i < |p.taps| && p.taps[i] in net.links
      ensures Gone(p, net, works, n, p.taps[i]) <==> works(n + (3 * i + 2))
    {
      TapGoesAt(p, net, works, n, i);
    }
  }

  // The access link goes by its own deletion, or with the bridge.
  lemma AccessGoesAt(p: Plan, net: Net, works: nat -> bool, n: nat)
    requires Sound(net, p) && Apart(p) && OverBridge(p, net) && p.access != p.bridge && p.access in net.links
    ensures Gone(p, net, works, n, p.access) <==>
            works(n + (BridgesAt(p) + 2)) || (p.bridge in net.links && Gone(p, net, works, n, p.bridge))
  {
    BridgeRunsAt(p, works, n);
    if p.bridge in net.links { BridgeGoesAt(p, net, works, n); }
  }

  lemma AllGoAt(p: Plan, net: Net, works: nat -> bool, n: nat)
    requires Sound(net, p) && Apart(p) && OverBridge(p, net)
    ensures AllGo(p, net, works, n) <==> NeededWork(p, net, works, n)
  {
    TapsGoAt(p, net, works, n);
    if p.bridge in net.links { BridgeGoesAt(p, net, works, n); }
    if p.access != p.bridge && p.access in net.links { AccessGoesAt(p, net, works, n); }
    ByName(p, net, works, n);
  }

  // The links of a plan are its taps, its bridge and its access link.
  lemma ByName(p: Plan, net: Net, works: nat -> bool, n: nat)
    ensures AllGo(p, net, works, n) <==>
            && TapsGo(p, net, works, n)
            && (p.bridge in net.links ==> Gone(p, net, works, n, p.bridge))
            && (p.access in net.links ==> Gone(p, net, works, n, p.access))
  {
    forall i: nat | i < |p.taps| ensures p.taps[i] in Names(p) {
      assert p.taps[i] in p.taps;
    }
    assert p.bridge in Names(p) && p.access in Names(p);
    forall l | l in Names(p) && l != p.bridge && l != p.access ensures exists i: nat :: i < |p.taps| && p.taps[i] == l {
      assert l in p.taps;
    }
  }

  /** For plans with names of their own, the condition names three kinds of places in the sequence of commands. */
  lemma NetIsDownAt(p: Plan, net: Net, prior: Net, works: nat -> bool, n: nat)
    requires Sound(net, p) && Without(net, Names(p)) == prior && Apart(p) && OverBridge(p, net)
    ensures FaultyNet(NetDown(p), net, works, n) == prior <==> NeededWork(p, net, works, n)
  {
    NetIsDownExactly(p, net, prior, works, n);
    AllGoAt(p, net, works, n);
  }

  // ---- The whole of net_down_inner ----

  function TriedOn(c: Command, host: Host, works: bool): Host {
    if works && Apply(c, host).Some? then Apply(c, host).value else host
  }

  function Faulty(commands: seq<Command>, host: Host, works: nat -> bool, n: nat): Host
    decreases |commands|
  {
    if commands == [] then host else Faulty(commands[1..], TriedOn(commands[0], host, works(n)), works, n + 1)
  }

  // No command fails, for whatever reason.
  predicate AllWork(commands: seq<Command>, host: Host, works: nat -> bool, n: nat)
    decreases |commands|
  {
    commands == [] ||
    (works(n) && Apply(commands[0], host).Some? && AllWork(commands[1..], Apply(commands[0], host).value, works, n + 1))
  }

  lemma {:induction false} FaultySplit(a: seq<Command>, b: seq<Command>, host: Host, works: nat -> bool, n: nat)
    ensures Faulty(a + b, host, works, n) == Faulty(b, Faulty(a, host, works, n), works, n + |a|)
    ensures AllWork(a + b, host, works, n) == (AllWork(a, host, works, n) && AllWork(b, Faulty(a, host, works, n), works, n + |a|))
    decreases |a|
  {
    if a == [] {
      assert a + b == b;
    } else {
      assert (a + b)[0] == a[0] && (a + b)[1..] == a[1..] + b;
      FaultySplit(a[1..], b, TriedOn(a[0], host, works(n)), works, n + 1);
    }
  }

  lemma {:induction false} NoFaultIsLoose(commands: seq<Command>, host: Host, works: nat -> bool, n: nat)
    requires forall i: nat :: works(i)
    ensures Faulty(commands, host, works, n) == Loosely(commands, host)
    ensures AllWork(commands, host, works, n) == Strictly(commands, host).Some?
    decreases |commands|
  {
    if commands != [] { NoFaultIsLoose(commands[1..], TriedOn(commands[0], host, works(n)), works, n + 1); }
  }

  lemma {:induction false} FaultyNets(commands: seq<NetCommand>, host: Host, works: nat -> bool, n: nat)
    ensures Faulty(Nets(commands), host, works, n) == host.(net := FaultyNet(commands, host.net, works, n))
    decreases |commands|
  {
    if commands != [] {
      assert Nets(commands)[0] == OnNet(commands[0]) && Nets(commands)[1..] == Nets(commands[1..]);
      FaultyNets(commands[1..], TriedOn(OnNet(commands[0]), host, works(n)), works, n + 1);
    }
  }

  // The rules whose command works by itself.
  function Working(rules: seq<(Chain, Rule)>, works: nat -> bool, n: nat): seq<(Chain, Rule)>
    decreases |rules|
  {
    if rules == [] then [] else (if works(n) then [rules[0]] else []) + Working(rules[1..], works, n + 1)
  }

  lemma WorkingFirst(rules: seq<(Chain, Rule)>, works: nat -> bool, n: nat, list: seq<Rule>, chain: Chain)
    requires rules != []
    ensures var first := if works(n) && rules[0].0 == chain then [rules[0].1] else [];
            DeleteAll(list, OnChain(Working(rules, works, n), chain)) ==
            DeleteAll(DeleteAll(list, first), OnChain(Working(rules[1..], works, n + 1), chain))
  {
    var head, rest := if works(n) then [rules[0]] else [], Working(rules[1..], works, n + 1);
    OnChainAppend(head, rest, chain);
    if works(n) { assert [rules[0]][1..] == []; }
    var first := if works(n) && rules[0].0 == chain then [rules[0].1] else [];
    assert OnChain(head, chain) == first;
    DeleteAllAppend(list, first, OnChain(rest, chain));
  }

  lemma {:induction false} FaultyRouting(rules: seq<(Chain, Rule)>, host: Host, chain: Chain, works: nat -> bool, n: nat)
    ensures var host' := Faulty(RoutingDown(rules), host, works, n);
            && host' == host.(tables := host'.tables)
            && Get(host'.tables, chain) == DeleteAll(Get(host.tables, chain), OnChain(Working(rules, works, n), chain))
    decreases |rules|
  {
    if rules != [] {
      var c := Delete(rules[0].0, rules[0].1);
      assert RoutingDown(rules)[0] == c && RoutingDown(rules)[1..] == RoutingDown(rules[1..]);
      DeletedOnChain(rules[0], host, chain);
      FaultyRouting(rules[1..], TriedOn(c, host, works(n)), chain, works, n + 1);
      WorkingFirst(rules, works, n, Get(host.tables, chain), chain);
    }
  }

  // Once hosts_down has worked, there is what follows it.
  lemma WithFilter(hosts: Hosts, routing: seq<Command>, last: seq<Command>, host: Host, works: nat -> bool)
    requires works(0)
    ensures var all := [FilterHosts(hosts)] + routing + last;
            var filtered := host.(hostsFile := Removed(host.hostsFile, hosts));
            && Faulty(all, host, works, 0) == Faulty(routing + last, filtered, works, 1)
            && AllWork(all, host, works, 0) == AllWork(routing + last, filtered, works, 1)
  {
    var all := [FilterHosts(hosts)] + routing + last;
    assert all[0] == FilterHosts(hosts) && all[1..] == routing + last;
  }

  // Part by part.
  lemma PartsInOrder(hosts: Hosts, rules: seq<(Chain, Rule)>, nets: seq<NetCommand>, host: Host, works: nat -> bool)
    requires works(0)
    ensures var filtered := host.(hostsFile := Removed(host.hostsFile, hosts));
            Faulty([FilterHosts(hosts)] + RoutingDown(rules) + Nets(nets), host, works, 0) ==
            Faulty(RoutingDown(rules), filtered, works, 1).(net := FaultyNet(nets, host.net, works, 1 + |rules|))
  {
    var filtered := host.(hostsFile := Removed(host.hostsFile, hosts));
    WithFilter(hosts, RoutingDown(rules), Nets(nets), host, works);
    FaultySplit(RoutingDown(rules), Nets(nets), filtered, works, 1);
    FaultyRouting(rules, filtered, Input, works, 1);
    FaultyNets(nets, Faulty(RoutingDown(rules), filtered, works, 1), works, 1 + |rules|);
  }

  // What net_down_inner leaves then.
  lemma FaultyInParts(p: Plan, host: Host, works: nat -> bool, chain: Chain)
    requires works(0)
    ensures var after := Faulty(Down(p), host, works, 0);
            && after.hostsFile == Removed(host.hostsFile, p.hosts)
            && after.net == FaultyNet(NetDown(p), host.net, works, 1 + |Rules(p)|)
            && Get(after.tables, chain) ==
               DeleteAll(Get(host.tables, chain), OnChain(Working(Reverse(Rules(p)), works, 1), chain))
  {
    ReverseLength(Rules(p));
    PartsInOrder(p.hosts, Reverse(Rules(p)), NetDown(p), host, works);
    FaultyRouting(Reverse(Rules(p)), host.(hostsFile := Removed(host.hostsFile, p.hosts)), chain, works, 1);
  }

  lemma {:induction false} ReverseLength<T>(s: seq<T>)
    ensures |Reverse(s)| == |s|
  {
    if s != [] { ReverseLength(s[1..]); }
  }

  // On each chain the working commands delete every rule at least as often as it was inserted, and exactly as often
  // if it was there before.
  ghost predicate RulesGo(p: Plan, prior: Tables, k: nat, works: nat -> bool)
    requires k <= |Rules(p)|
  {
    forall chain ::
      Balanced(OnChain(Rules(p)[..k], chain), Get(prior, chain), OnChain(Working(Reverse(Rules(p)), works, 1), chain))
  }

  lemma ChainGoes(inserted: seq<Rule>, rules: seq<Rule>, deletions: seq<Rule>)
    ensures DeleteAll(InsertAll(rules, inserted), deletions) == rules <==> Balanced(inserted, rules, deletions)
  {
    InsertsInFront(rules, inserted);
    DeletionsRestore(Reverse(inserted), rules, deletions);
  }

  lemma TablesGo(p: Plan, prior: Tables, after: Tables, k: nat, works: nat -> bool)
    requires k <= |Rules(p)|
    requires forall chain :: Get(after, chain) == DeleteAll(InsertAll(Get(prior, chain), OnChain(Rules(p)[..k], chain)),
                                                            OnChain(Working(Reverse(Rules(p)), works, 1), chain))
    ensures after == prior <==> RulesGo(p, prior, k, works)
  {
    var deletions := Working(Reverse(Rules(p)), works, 1);
    forall chain
      ensures Get(after, chain) == Get(prior, chain) <==>
              Balanced(OnChain(Rules(p)[..k], chain), Get(prior, chain), OnChain(deletions, chain))
    {
      ChainGoes(OnChain(Rules(p)[..k], chain), Get(prior, chain), OnChain(deletions, chain));
    }
    SameTables(after, prior);
  }

  lemma SameTables(a: Tables, b: Tables)
    ensures a == b <==> forall chain :: Get(a, chain) == Get(b, chain)
  {
    if forall chain :: Get(a, chain) == Get(b, chain) {
      assert Get(a, Input) == Get(b, Input) && Get(a, Forward) == Get(b, Forward) && Get(a, Postrouting) == Get(b, Postrouting);
    }
  }

  // What it takes for going down after the first n commands of going up to leave no trace.
  ghost predicate LeavesNoTrace(p: Plan, prior: Host, n: nat, works: nat -> bool)
    requires n <= |Up(p)| && Strictly(Up(p)[..n], prior).Some?
  {
    && AllGo(p, Strictly(Up(p)[..n], prior).value.net, works, 1 + |Rules(p)|)
    && RulesGo(p, prior.tables, Inserted(p, n), works)
    && HostsRestored(p, prior.hostsFile, n)
  }

  /**
   Rollback, from every point and with any commands of net_down_inner failing for reasons of their own, once its
   hosts_down has worked: links, firewall and /etc/hosts are each as before under an exact condition of their own.
   */
  lemma FaultyRollback(p: Plan, prior: Host, n: nat, works: nat -> bool)
    requires n <= |Up(p)| && Strictly(Up(p)[..n], prior).Some?
    requires Unnamed(prior.net, Names(p)) && works(0)
    ensures var host := Strictly(Up(p)[..n], prior).value;
            var after := Faulty(Down(p), host, works, 0);
            && (after.net == prior.net <==> AllGo(p, host.net, works, 1 + |Rules(p)|))
            && (after.tables == prior.tables <==> RulesGo(p, prior.tables, Inserted(p, n), works))
            && (after.hostsFile == prior.hostsFile <==> HostsRestored(p, prior.hostsFile, n))
            && (after == prior <==> LeavesNoTrace(p, prior, n, works))
  {
    var host := Strictly(Up(p)[..n], prior).value;
    var after := Faulty(Down(p), host, works, 0);
    PrefixReached(p, prior, n);
    forall chain
      ensures Get(after.tables, chain) ==
              DeleteAll(Get(host.tables, chain), OnChain(Working(Reverse(Rules(p)), works, 1), chain))
    {
      FaultyInParts(p, host, works, chain);
    }
    FaultyInParts(p, host, works, Input);
    NetIsDownExactly(p, host.net, prior.net, works, 1 + |Rules(p)|);
    TablesGo(p, prior.tables, after.tables, Inserted(p, n), works);
    HostsAreRestored(p, prior, n);
  }

  lemma OneOverBridge(p: Plan, c: NetCommand, net: Net)
    requires Apart(p) && Ours(c, p) && OverBridge(p, net) && ApplyNet(c, net).Some?
    ensures OverBridge(p, ApplyNet(c, net).value)
  {
  }

  lemma {:induction false} UpIsOverBridge(p: Plan, prior: Host, n: nat)
    requires n <= |Up(p)| && Strictly(Up(p)[..n], prior).Some? && Unnamed(prior.net, Names(p)) && Apart(p)
    ensures OverBridge(p, Strictly(Up(p)[..n], prior).value.net)
  {
    if n == 0 {
      assert p.access in Names(p);
    } else {
      StrictlyPrefix(Up(p), prior, n - 1);
      UpIsOverBridge(p, prior, n - 1);
      UpCommand(p, n - 1);
      if n - 1 < |NetUp(p)| {
        NetUpIsOurs(p, n - 1);
        OneOverBridge(p, NetUp(p)[n - 1], Strictly(Up(p)[..n - 1], prior).value.net);
      }
    }
  }

  /** So after any number of the up commands: the links are as before exactly if the commands at those places work. */
  lemma LinksAreDownAt(p: Plan, prior: Host, n: nat, works: nat -> bool)
    requires n <= |Up(p)| && Strictly(Up(p)[..n], prior).Some?
    requires Unnamed(prior.net, Names(p)) && Apart(p) && works(0)
    ensures var host := Strictly(Up(p)[..n], prior).value;
            Faulty(Down(p), host, works, 0).net == prior.net <==> NeededWork(p, host.net, works, 1 + |Rules(p)|)
  {
    PrefixReached(p, prior, n);
    UpIsOverBridge(p, prior, n);
    FaultyRollback(p, prior, n, works);
    AllGoAt(p, Strictly(Up(p)[..n], prior).value.net, works, 1 + |Rules(p)|);
  }

  // ---- A run that leaves a link ----

  /** A tap whose deletion fails is left, whatever else works. */
  lemma TapIsLeft(p: Plan, prior: Host, n: nat, works: nat -> bool, i: nat)
    requires n <= |Up(p)| && Strictly(Up(p)[..n], prior).Some? && Unnamed(prior.net, Names(p)) && Apart(p) && works(0)
    requires i < |p.taps| && p.taps[i] in Strictly(Up(p)[..n], prior).value.net.links
    requires !works(1 + |Rules(p)| + (3 * i + 2))
    ensures p.taps[i] in Faulty(Down(p), Strictly(Up(p)[..n], prior).value, works, 0).net.links
    ensures !LeavesNoTrace(p, prior, n, works)
  {
    var host := Strictly(Up(p)[..n], prior).value;
    PrefixReached(p, prior, n);
    FaultyInParts(p, host, works, Input);
    TapGoesAt(p, host.net, works, 1 + |Rules(p)|, i);
    PlanLinkGoes(p, host.net, works, 1 + |Rules(p)|, p.taps[i]);
  }

  // One tap, and a host with nothing on it.
  const ONE_TAP := Plan("10.0.0.1/24", ["tap"], "bridge", "bridge", [], "eth0")
  const BARE := Host(Net(map[], map[], {}), Tables([], [], []), "")

  // All commands of net_down_inner work but the third on links, which deletes the tap.
  function AllButOne(i: nat): bool {
    i != 8
  }

  lemma OneUp(c: NetCommand, rest: seq<NetCommand>, host: Host, net: Net)
    requires ApplyNet(c, host.net) == Some(net)
    ensures Strictly(Nets([c] + rest), host) == Strictly(Nets(rest), host.(net := net))
  {
    var all := [c] + rest;
    assert Nets(all)[0] == OnNet(c) && Nets(all)[1..] == Nets(rest);
  }

  lemma BridgeRises(rest: seq<NetCommand>) returns (net: Net)
    ensures Strictly(Nets(BridgeUp(ONE_TAP) + rest), BARE) == Strictly(Nets(rest), BARE.(net := net))
    ensures "bridge" in net.links && net.links["bridge"].kind == Bridge && "tap" !in net.links && net.ports == map[]
  {
    var net1 := Update(BARE.net, "bridge", Link(Bridge, false, false));
    var net2 := Update(net1, "bridge", Link(Bridge, true, false));
    net := net2.(addresses := net2.addresses + {("10.0.0.1/24", "bridge")});
    var a, b, c := AddBridge("bridge"), SetUp("bridge"), AddAddress("10.0.0.1/24", "bridge");
    assert BridgeUp(ONE_TAP) + rest == [a] + ([b] + ([c] + rest));
    OneUp(a, [b] + ([c] + rest), BARE, net1);
    OneUp(b, [c] + rest, BARE.(net := net1), net2);
    OneUp(c, rest, BARE.(net := net2), net);
  }

  lemma TapRises(host: Host)
    requires "bridge" in host.net.links && host.net.links["bridge"].kind == Bridge && "tap" !in host.net.links
    requires host.net.ports == map[]
    ensures var raised := Strictly(Nets(TapUp("bridge", "tap")), host);
            raised.Some? && "tap" in raised.value.net.links
  {
    var net1 := Update(host.net, "tap", Link(Tap, false, false));
    var net2 := Update(net1, "tap", Link(Tap, true, true));
    var net3 := net2.(ports := net2.ports["tap" := "bridge"]);
    var a, b, c := AddTap("tap"), SetUpPromisc("tap"), AddPort("bridge", "tap");
    assert TapUp("bridge", "tap") == [a] + ([b] + ([c] + []));
    OneUp(a, [b] + ([c] + []), host, net1);
    OneUp(b, [c] + [], host.(net := net1), net2);
    OneUp(c, [], host.(net := net2), net3);
    assert Nets([]) == [];
  }

  /**
   Going up with one tap on a bare host stops after its links, and on the way down the deletion of the tap fails: the
   tap is left, although every other command works.
   */
  lemma OneTapIsLeft()
    ensures var reached := Strictly(Up(ONE_TAP)[..|NetUp(ONE_TAP)|], BARE);
            && reached.Some? && "tap" in reached.value.net.links
            && "tap" in Faulty(Down(ONE_TAP), reached.value, AllButOne, 0).net.links
            && !LeavesNoTrace(ONE_TAP, BARE, |NetUp(ONE_TAP)|, AllButOne)
  {
    var net := BridgeRises(TapUp("bridge", "tap"));
    TapRises(BARE.(net := net));
    OneTapUp();
    TapIsLeft(ONE_TAP, BARE, |NetUp(ONE_TAP)|, AllButOne, 0);
  }

  lemma OneTapUp()
    ensures |NetUp(ONE_TAP)| <= |Up(ONE_TAP)|
    ensures Up(ONE_TAP)[..|NetUp(ONE_TAP)|] == Nets(BridgeUp(ONE_TAP) + TapUp("bridge", "tap"))
  {
    assert TapsUp("bridge", ["tap"][1..]) == [];
    assert TapsUp("bridge", ["tap"]) == TapUp("bridge", "tap");
  }
}

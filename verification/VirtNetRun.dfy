/** net_up_inner and net_down_inner of platform/spire/src/virt.py, as they run on a machine. */
module VirtNetRun {
  import opened Wrappers
  import opened HostsFile
  import opened Firewall
  import opened VirtNet
  import opened VirtNetFaults
  import opened VirtNetUp

  class Machine {
    var host: Host

    constructor (host: Host)
      ensures this.host == host
    {
      this.host := host;
    }

    // Raises (ok is false) when the command fails, for a reason of its own or because of the host's state.
    method Sudo(c: Command, works: bool) returns (ok: bool)
      modifies this
      ensures ok <==> works && Apply(c, old(host)).Some?
      ensures host == if ok then Apply(c, old(host)).value else old(host)
    {
      var next := Apply(c, host);
      ok := works && next.Some?;
      if ok { host := next.value; }
    }

    // The commands of an up function, until one raises; works says which of all commands fail by themselves.
    method All(commands: seq<Command>, works: nat -> bool, n: nat) returns (done: nat)
      modifies this
      ensures done <= |commands| && Strictly(commands[..done], old(host)) == Some(host)
      ensures done < |commands| ==> !works(n + done) || Apply(commands[done], host).None?
    {
      done := 0;
      while done < |commands|
        invariant done <= |commands| && Strictly(commands[..done], old(host)) == Some(host)
      {
        StrictlySnoc(commands[..done], commands[done], old(host));
        assert commands[..done + 1] == commands[..done] + [commands[done]];
        var ok := Sudo(commands[done], works(n + done));
        if !ok { return; }
        done := done + 1;
      }
    }

    // The commands of a down function; ok &= sudo_ok(...) for each, whatever those before have done.
    method Each(commands: seq<Command>, works: nat -> bool, n: nat) returns (ok: bool)
      modifies this
      ensures host == Faulty(commands, old(host), works, n) && ok == AllWork(commands, old(host), works, n)
    {
      ok := true;
      for i := 0 to |commands|
        invariant Faulty(commands, old(host), works, n) == Faulty(commands[i..], host, works, n + i)
        invariant AllWork(commands, old(host), works, n) == (ok && AllWork(commands[i..], host, works, n + i))
      {
        assert commands[i..][1..] == commands[i + 1..];
        var worked := Sudo(commands[i], works(n + i));
        ok := ok && worked;
      }
    }

    // hosts_down, which raises (ok is false) if the new file cannot be copied to its place.
    method HostsDown(hosts: Hosts, works: bool) returns (ok: bool)
      modifies this
      ensures ok == works
      ensures host == if works then old(host).(hostsFile := Removed(old(host).hostsFile, hosts)) else old(host)
    {
      ok := Sudo(FilterHosts(hosts), works);
    }

    // The last part of net_down_inner: tap_down for each tap, and bridge_down.
    method LinksDown(p: Plan, works: nat -> bool) returns (ok: bool)
      modifies this
      ensures host == Faulty(AfterTaps(p, 0), old(host), works, FromLinks(p, 0))
      ensures ok == AllWork(AfterTaps(p, 0), old(host), works, FromLinks(p, 0))
    {
      ghost var final := Faulty(AfterTaps(p, 0), host, works, FromLinks(p, 0));
      ghost var allWork := AllWork(AfterTaps(p, 0), host, works, FromLinks(p, 0));
      ok := true;
      for i := 0 to |p.taps|
        invariant Remains(final, allWork, ok, AfterTaps(p, i), host, works, FromLinks(p, i))
      {
        NextTap(final, allWork, ok, p, i, host, works);
        var worked := Each(Nets(TapDown(p.bridge, p.taps[i])), works, FromLinks(p, i));
        ok := ok && worked;
      }
      NoTapsLeft(p);
      var worked := Each(Nets(BridgeDown(p)), works, FromLinks(p, |p.taps|));
      ok := ok && worked;
    }

    // All of net_down_inner that follows hosts_down.
    method RestDown(p: Plan, works: nat -> bool) returns (ok: bool)
      modifies this
      ensures host == Faulty(AfterHosts(p), old(host), works, 1) && ok == AllWork(AfterHosts(p), old(host), works, 1)
    {
      ReverseLength(Rules(p));
      FaultySplit(RoutingDown(Reverse(Rules(p))), AfterTaps(p, 0), host, works, 1);
      var routed := Each(RoutingDown(Reverse(Rules(p))), works, 1);
      var linked := LinksDown(p, works);
      ok := routed && linked;
    }

    /**
     net_down_inner.  None stands for an exception: there is no upstream link, or hosts_down cannot write its file.
     Nothing has been done then.
     */
    method NetDownInner(p: Plan, linkFound: bool, works: nat -> bool) returns (ok: Option<bool>)
      modifies this
      ensures ok == if linkFound && works(0) then Some(AllWork(Down(p), old(host), works, 0)) else None
      ensures host == if linkFound && works(0) then Faulty(Down(p), old(host), works, 0) else old(host)
    {
      if !linkFound {
        return None;
      }
      var filtered := HostsDown(p.hosts, works(0));
      if !filtered {
        return None;
      }
      FilterFirst(p, old(host), works);
      var all := RestDown(p, works);
      return Some(all);
    }

    // One part of a longer script, of which start commands have worked.
    method Part(part: seq<Command>, works: nat -> bool, start: nat, ghost script: seq<Command>, ghost prior: Host,
                ghost rest: seq<Command>)
      returns (done: nat)
      requires At(script, prior, start, host, part + rest)
      modifies this
      ensures start <= done <= start + |part|
      ensures if done == start + |part| then At(script, prior, done, host, rest)
              else Stopped(script, prior, done, host, works)
    {
      var more := All(part, works, start);
      Advance(script, prior, start, old(host), part, rest, more, host);
      done := start + more;
    }

    // The try block of net_up_inner; done counts the commands that worked.
    method TryNetUp(p: Plan, works: nat -> bool) returns (done: nat)
      modifies this
      ensures Stopped(Up(p), old(host), done, host, works)
    {
      UpStart(p);
      done := Part(Nets(BridgeUp(p)), works, 0, Up(p), host, FromTap(p, 0));
      if done < |BridgeUp(p)| { return; }
      for i := 0 to |p.taps|
        invariant At(Up(p), old(host), done, host, FromTap(p, i))
      {
        var start := done;
        NextTapUp(p, i);
        done := Part(Nets(TapUp(p.bridge, p.taps[i])), works, start, Up(p), old(host), FromTap(p, i + 1));
        if done < start + 3 { return; }
      }
      NoTapsToAdd(p);
      var start := done;
      var last := RoutingUp(Rules(p)) + [AppendHosts(p.hosts)];
      assert last + [] == last;
      done := Part(last, works, start, Up(p), old(host), []);
    }

    /**
     net_up_inner.  It raises before its try block if there is no upstream link or IP forwarding cannot be set.
     If a command in the block fails, it takes everything down, and then raises; downLink and downWorks are what taking
     down meets.
     */
    method NetUpInner(p: Plan, linkFound: bool, forwarding: bool, works: nat -> bool, downLink: bool, downWorks: nat -> bool)
      returns (ok: bool, done: nat)
      modifies this
      ensures done <= |Up(p)| && Strictly(Up(p)[..done], old(host)).Some? && (ok ==> done == |Up(p)|)
      ensures ok ==> Some(host) == Strictly(Up(p), old(host))
      ensures ok && Unnamed(old(host).net, Names(p)) ==> IsUp(p, old(host), host)
      ensures !ok && !(linkFound && forwarding) ==> host == old(host)
      ensures !ok && linkFound && forwarding ==>
                var reached := Strictly(Up(p)[..done], old(host)).value;
                && done < |Up(p)| && (!works(done) || Apply(Up(p)[done], reached).None?)
                && host == if downLink && downWorks(0) then Faulty(Down(p), reached, downWorks, 0) else reached
      ensures !ok && linkFound && forwarding && downLink && downWorks(0) && Unnamed(old(host).net, Names(p)) ==>
                (host == old(host) <==> LeavesNoTrace(p, old(host), done, downWorks))
      ensures !ok && downLink && (forall i: nat :: downWorks(i)) && Restorable(p, old(host), done) ==> host == old(host)
    {
      if !linkFound || !forwarding {
        done := 0;
        assert Up(p)[..0] == [];
        return false, 0;
      }
      done := TryNetUp(p, works);
      ok := done == |Up(p)|;
      assert Up(p)[..|Up(p)|] == Up(p);
      if ok {
        if Unnamed(old(host).net, Names(p)) { UpIsUp(p, old(host), host); }
      } else {
        AfterRollback(p, old(host), done, host, downWorks);
        var down := NetDownInner(p, downLink, downWorks);
      }
    }
  }

  // What going down then leaves.
  lemma AfterRollback(p: Plan, prior: Host, done: nat, reached: Host, works: nat -> bool)
    requires done <= |Up(p)| && Strictly(Up(p)[..done], prior) == Some(reached)
    ensures works(0) && Unnamed(prior.net, Names(p)) ==>
              (Faulty(Down(p), reached, works, 0) == prior <==> LeavesNoTrace(p, prior, done, works))
    ensures (forall i: nat :: works(i)) && Restorable(p, prior, done) ==> Faulty(Down(p), reached, works, 0) == prior
  {
    if works(0) && Unnamed(prior.net, Names(p)) { FaultyRollback(p, prior, done, works); }
    if (forall i: nat :: works(i)) && Restorable(p, prior, done) {
      NoFaultIsLoose(Down(p), reached, works, 0);
      Rollback(p, prior, done);
    }
  }

  // What it takes for a rollback after the first n commands to leave no trace.
  predicate Restorable(p: Plan, prior: Host, n: nat) {
    && Unnamed(prior.net, Names(p)) && NoEqualRules(p, prior.tables, Inserted(p, n))
    && HostsRestored(p, prior.hostsFile, n)
  }

  /** When no command fails, the two ways of executing a script agree. */
  lemma {:induction false} StrictIsLoose(commands: seq<Command>, host: Host)
    requires NoneFails(commands, host)
    ensures Strictly(commands, host) == Some(Loosely(commands, host))
    decreases |commands|
  {
    if commands != [] { StrictIsLoose(commands[1..], Apply(commands[0], host).value); }
  }

  // ---- The scripts, tap by tap ----

  function AfterTaps(p: Plan, i: nat): seq<Command>
    requires i <= |p.taps|
  {
    Nets(TapsDown(p.bridge, p.taps[i..])) + Nets(BridgeDown(p))
  }

  lemma NetsAppend(a: seq<NetCommand>, b: seq<NetCommand>)
    ensures Nets(a + b) == Nets(a) + Nets(b)
  {
  }

  // The place of the first command on the links after i taps.
  function FromLinks(p: Plan, i: nat): nat {
    1 + |Rules(p)| + 3 * i
  }

  // Doing the rest gives the final host, and whether all have worked.
  predicate Remains(final: Host, allWork: bool, ok: bool, rest: seq<Command>, host: Host, works: nat -> bool, n: nat) {
    final == Faulty(rest, host, works, n) && allWork == (ok && AllWork(rest, host, works, n))
  }

  lemma NextPart(final: Host, allWork: bool, ok: bool, part: seq<Command>, rest: seq<Command>, host: Host,
                 works: nat -> bool, n: nat)
    requires Remains(final, allWork, ok, part + rest, host, works, n)
    ensures Remains(final, allWork, ok && AllWork(part, host, works, n), rest, Faulty(part, host, works, n), works, n + |part|)
  {
    FaultySplit(part, rest, host, works, n);
  }

  function AfterHosts(p: Plan): seq<Command> {
    RoutingDown(Reverse(Rules(p))) + AfterTaps(p, 0)
  }

  lemma FilterFirst(p: Plan, host: Host, works: nat -> bool)
    requires works(0)
    ensures var filtered := host.(hostsFile := Removed(host.hostsFile, p.hosts));
            && Faulty(Down(p), host, works, 0) == Faulty(AfterHosts(p), filtered, works, 1)
            && AllWork(Down(p), host, works, 0) == AllWork(AfterHosts(p), filtered, works, 1)
  {
    NetsAppend(TapsDown(p.bridge, p.taps), BridgeDown(p));
    assert p.taps[0..] == p.taps;
    WithFilter(p.hosts, RoutingDown(Reverse(Rules(p))), AfterTaps(p, 0), host, works);
  }

  lemma NextTap(final: Host, allWork: bool, ok: bool, p: Plan, i: nat, host: Host, works: nat -> bool)
    requires i < |p.taps| && Remains(final, allWork, ok, AfterTaps(p, i), host, works, FromLinks(p, i))
    ensures var part := Nets(TapDown(p.bridge, p.taps[i]));
            Remains(final, allWork, ok && AllWork(part, host, works, FromLinks(p, i)), AfterTaps(p, i + 1),
                    Faulty(part, host, works, FromLinks(p, i)), works, FromLinks(p, i + 1))
  {
    NextTapDown(p, i);
    NextPart(final, allWork, ok, Nets(TapDown(p.bridge, p.taps[i])), AfterTaps(p, i + 1), host, works, FromLinks(p, i));
  }

  lemma NextTapDown(p: Plan, i: nat)
    requires i < |p.taps|
    ensures AfterTaps(p, i) == Nets(TapDown(p.bridge, p.taps[i])) + AfterTaps(p, i + 1)
  {
    assert p.taps[i..][1..] == p.taps[i + 1..];
    NetsAppend(TapDown(p.bridge, p.taps[i]), TapsDown(p.bridge, p.taps[i + 1..]));
  }

  lemma NoTapsLeft(p: Plan)
    ensures AfterTaps(p, |p.taps|) == Nets(BridgeDown(p))
  {
    assert Nets([]) == [];
  }

  function FromTap(p: Plan, i: nat): seq<Command>
    requires i <= |p.taps|
  {
    Nets(TapsUp(p.bridge, p.taps[i..])) + (RoutingUp(Rules(p)) + [AppendHosts(p.hosts)])
  }

  lemma UpStart(p: Plan)
    ensures Up(p) == Nets(BridgeUp(p)) + FromTap(p, 0)
  {
    NetsAppend(BridgeUp(p), TapsUp(p.bridge, p.taps));
    assert p.taps[0..] == p.taps;
  }

  lemma NextTapUp(p: Plan, i: nat)
    requires i < |p.taps|
    ensures FromTap(p, i) == Nets(TapUp(p.bridge, p.taps[i])) + FromTap(p, i + 1)
  {
    assert p.taps[i..][1..] == p.taps[i + 1..];
    NetsAppend(TapUp(p.bridge, p.taps[i]), TapsUp(p.bridge, p.taps[i + 1..]));
  }

  lemma NoTapsToAdd(p: Plan)
    ensures FromTap(p, |p.taps|) == RoutingUp(Rules(p)) + [AppendHosts(p.hosts)]
  {
    assert Nets([]) == [];
  }

  // The first done commands of the script have worked, and rest is what comes next.
  predicate At(script: seq<Command>, prior: Host, done: nat, host: Host, rest: seq<Command>) {
    done <= |script| && script[done..] == rest && Strictly(script[..done], prior) == Some(host)
  }

  // Exactly the first done commands of the script have worked.
  predicate Stopped(script: seq<Command>, prior: Host, done: nat, host: Host, works: nat -> bool) {
    && done <= |script| && Strictly(script[..done], prior) == Some(host)
    && (done < |script| ==> !works(done) || Apply(script[done], host).None?)
  }

  lemma Advance(script: seq<Command>, prior: Host, start: nat, before: Host, part: seq<Command>, rest: seq<Command>,
                more: nat, host: Host)
    requires At(script, prior, start, before, part + rest)
    requires more <= |part| && Strictly(part[..more], before) == Some(host)
    ensures start + more <= |script| && Strictly(script[..start + more], prior) == Some(host)
    ensures more == |part| ==> At(script, prior, start + more, host, rest)
    ensures more < |part| ==> script[start + more] == part[more]
  {
    assert |script| == start + |part| + |rest|;
    assert script[start..start + more] == script[start..][..more] == part[..more];
    assert script[..start + more] == script[..start] + part[..more];
    StrictlySplit(script[..start], part[..more], prior);
    if more == |part| {
      assert script[start + more..] == script[start..][more..] == rest;
    } else {
      assert script[start + more] == script[start..][more];
    }
  }
}

/**
 The keyclient as it runs: the objects that its actions update (keyclient/state/state.go,
 keyclient/actloop/actloop.go), the actions themselves, and the loop that repeats them and announces
 when the node has become stable.
 */
module ActLoop {
  import opened Wrappers
  import opened Accounts
  import opened Keyclient
  import opened Convergence
  import ConfFiles

  // The node's file system and its host name.
  class Machine {
    var files: map<Path, File>
    var hostname: string

    constructor (files: map<Path, File>, hostname: string)
      ensures this.files == files && this.hostname == hostname
    {
      this.files, this.hostname := files, hostname;
    }

    method WriteFile(path: Path, content: Content, env: Env) returns (ok: bool)
      modifies this`files
      ensures ok == env.writeOk
      ensures files == if ok then old(files)[path := File(env.later, content)] else old(files)
    {
      if env.writeOk { files := files[path := File(env.later, content)]; }
      ok := env.writeOk;
    }
  }

  class ClientState {
    var Keygrant: Option<int>
    var RetryAt: map<string, int>

    constructor (host: Machine, env: Env)
      ensures RetryAt == map[] && fresh(this)
      ensures Keygrant == match Reload(Keyclient.State(host.files, None, map[], "", false, 0), env)
                          case None => None
                          case Some(s) => s.keygrant
    {
      Keygrant, RetryAt := None, map[];
      new;
      var ok := ReloadKeygrantingCert(host, env);
    }

    method RetryFailed(api: string, env: Env)
      modifies this`RetryAt
      ensures RetryAt == old(RetryAt)[api := env.later + RETRY_AFTER]
    {
      RetryAt := RetryAt[api := env.later + RETRY_AFTER];
    }

    predicate CanRetry(api: string, now: int)
      reads this`RetryAt
    {
      api in RetryAt ==> now > RetryAt[api]
    }

    method ReloadKeygrantingCert(host: Machine, env: Env) returns (ok: bool)
      modifies this`Keygrant
      ensures ok <==> GRANTING_KEY in host.files && GRANTING_CERT in host.files &&
                      host.files[GRANTING_CERT].content.Cert? && env.loadOk
      ensures Keygrant == if ok then Some(host.files[GRANTING_CERT].content.notAfter) else old(Keygrant)
    {
      if GRANTING_KEY in host.files && GRANTING_CERT in host.files {
        if host.files[GRANTING_CERT].content.Cert? && env.loadOk {
          Keygrant := Some(host.files[GRANTING_CERT].content.notAfter);
          return true;
        }
      }
      return false;
    }

    method ReplaceKeygrantingCert(host: Machine, content: Content, env: Env) returns (ok: bool)
      modifies this`Keygrant, host`files
      ensures host.files == if env.writeOk then old(host.files)[GRANTING_CERT := File(env.later, content)]
                            else old(host.files)
      ensures ok <==> env.writeOk && GRANTING_KEY in host.files && content.Cert? && env.loadOk
      ensures Keygrant == if ok then Some(content.notAfter) else old(Keygrant)
    {
      ok := host.WriteFile(GRANTING_CERT, content, env);
      if ok { ok := ReloadKeygrantingCert(host, env); }
    }
  }

  class NewActionContext {
    const State: ClientState
    const Host: Machine
    var BlockedBy: seq<string>
    var Performed: bool

    constructor (state: ClientState, host: Machine)
      ensures State == state && Host == host && BlockedBy == [] && !Performed && fresh(this)
    {
      State, Host, BlockedBy, Performed := state, host, [], false;
    }

    function View(): Keyclient.State
      reads this, State, Host
    {
      Keyclient.State(Host.files, State.Keygrant, State.RetryAt, Host.hostname, Performed, |BlockedBy|)
    }

    method Blocked(reason: string)
      modifies this`BlockedBy
      ensures BlockedBy == old(BlockedBy) + [reason]
    {
      BlockedBy := BlockedBy + [reason];
    }

    method NotifyPerformed()
      modifies this`Performed
      ensures Performed
    {
      Performed := true;
    }

    // ---- keygen ----

    method GenerateKey(path: Path, env: Env)
      modifies this, State, Host
      ensures View() == DoGenerateKey(old(View()), path, env)
    {
      if path !in Host.files {
        var ok := Host.WriteFile(path, Key, env);
        if ok { NotifyPerformed(); }
      }
    }

    // ---- bootstrap ----

    method SendRequest(api: string, env: Env) returns (result: Option<Content>)
      modifies State, Host
      ensures result.Some? <==> env.answer.Success? && env.removeOk
      ensures result.Some? ==> result.value == env.answer.value
      ensures Host.files == if result.Some? then old(Host.files) - {BootstrapTokenPath} else old(Host.files)
      ensures State.RetryAt == if env.answer.Failure? && Cause(env.answer.error) == OperationForbidden
                               then old(State.RetryAt)[api := env.later + RETRY_AFTER] else old(State.RetryAt)
      ensures State.Keygrant == old(State.Keygrant) && Host.hostname == old(Host.hostname)
    {
      match PostJSON(env.answer)
      case Failure(e) =>
        if Cause(e) == OperationForbidden { State.RetryFailed(api, env); }
        result := None;
      case Success(content) =>
        if !env.removeOk { return None; }
        Host.files := Host.files - {BootstrapTokenPath};
        result := Some(content);
    }

    method TryBootstrap(api: string, env: Env) returns (ok: bool)
      requires GRANTING_KEY in Host.files && BootstrapTokenPath in Host.files
      requires State.CanRetry(api, env.now) && State.Keygrant.None?
      modifies State, Host
      ensures View() == DoBootstrap(old(View()), api, env).(performed := Performed)
      ensures ok || Performed <==> DoBootstrap(old(View()), api, env).performed
    {
      if !env.csrOk { return false; }
      var result := SendRequest(api, env);
      if result.None? || IsEmpty(result.value) { return false; }
      ok := State.ReplaceKeygrantingCert(Host, result.value, env);
    }

    method Bootstrap(api: string, env: Env)
      modifies this, State, Host
      ensures View() == DoBootstrap(old(View()), api, env)
    {
      if !State.CanRetry(api, env.now) {
      } else if State.Keygrant.Some? {
      } else if BootstrapTokenPath !in Host.files {
      } else if GRANTING_KEY !in Host.files {
        Blocked("key does not yet exist");
      } else {
        var ok := TryBootstrap(api, env);
        if ok { NotifyPerformed(); }
      }
    }

    // ---- download ----

    predicate MustRefresh(path: Path, refresh: int, env: Env)
      reads Host
    {
      if path !in Host.files then env.readOk
      else env.readOk && env.now - Host.files[path].mtime > refresh
    }

    // None is an error; Some(None) means that there is nothing to fetch.
    method Fetch(source: Source, env: Env) returns (data: Option<Option<Content>>)
      modifies this`BlockedBy, State`RetryAt
      ensures data == (if source.API? && !CanRetry(old(View()), source.api, env.now) then Some(None)
                       else if source.API? && State.Keygrant.None? then Some(None)
                       else if env.answer.Success? && !IsEmpty(env.answer.value) then Some(Some(env.answer.value))
                       else None)
      ensures |BlockedBy| == old(|BlockedBy|) +
              if source.API? && CanRetry(old(View()), source.api, env.now) && State.Keygrant.None? then 1 else 0
      ensures State.RetryAt ==
              if && source.API? && CanRetry(old(View()), source.api, env.now) && State.Keygrant.Some?
                 && env.answer.Failure? && Cause(env.answer.error) == OperationForbidden
              then old(State.RetryAt)[source.api := env.later + RETRY_AFTER]
              else old(State.RetryAt)
    {
      var answer := env.answer;
      if source.API? {
        if !State.CanRetry(source.api, env.now) { return Some(None); }
        if State.Keygrant.None? {
          Blocked("no keygranting certificate ready");
          return Some(None);
        }
        answer := PostJSON(env.answer);
        if answer.Failure? && Cause(answer.error) == OperationForbidden { State.RetryFailed(source.api, env); }
      }
      match answer
      case Failure(_) => data := None;
      case Success(content) => data := if IsEmpty(content) then None else Some(Some(content));
    }

    method Download(source: Source, path: Path, refresh: int, env: Env)
      modifies this, State, Host
      ensures View() == DoDownload(old(View()), source, path, refresh, env)
    {
      if MustRefresh(path, refresh, env) {
        var data := Fetch(source, env);
        if data.Some? && data.value.Some? {
          var ok := Host.WriteFile(path, data.value.value, env);
          if ok && !(path == ClusterCAPath && !env.commandOk) { NotifyPerformed(); }
        }
      }
    }

    // ---- hostname ----

    method ReadHostName(content: Content) returns (name: Option<string>)
      ensures name == HostNode(content)
    {
      if !content.Data? { return None; }
      var conf := ConfFiles.ReadConf(content.text);
      match conf
      case None => name := None;
      case Some(kvs) => name := if "HOST_NODE" in kvs then Some(kvs["HOST_NODE"]) else None;
    }

    method ReloadHostnameFrom(path: Path, env: Env)
      modifies this, State, Host
      ensures View() == DoReloadHostname(old(View()), path, env)
    {
      if path !in Host.files {
        Blocked("no configuration");
      } else if env.readOk {
        var name := ReadHostName(Host.files[path].content);
        if name.Some? && name.value != Host.hostname && env.commandOk {
          Host.hostname := name.value;
          NotifyPerformed();
        }
      }
    }

    // ---- keyreq ----

    predicate MustRegenerate(cert: Path, inAdvance: int, env: Env)
      reads Host
    {
      if cert !in Host.files || !env.readOk then true
      else if !Host.files[cert].content.Cert? then true
      else !(Host.files[cert].content.notAfter - inAdvance > env.now)
    }

    // Backs off only from an error that nothing has wrapped.
    method RequestSignature(api: string, answer: Result<Content, Error>, env: Env) returns (cert: Option<Content>)
      modifies State`RetryAt
      ensures State.RetryAt == if answer.Failure? && answer.error == OperationForbidden
                               then old(State.RetryAt)[api := env.later + RETRY_AFTER] else old(State.RetryAt)
      ensures cert == if answer.Success? && !IsEmpty(answer.value) then Some(answer.value) else None
    {
      match answer
      case Failure(e) =>
        if e == OperationForbidden { State.RetryFailed(api, env); }
        cert := None;
      case Success(content) => cert := if IsEmpty(content) then None else Some(content);
    }

    method Regenerate(service: Service, api: string, env: Env) returns (ok: bool)
      modifies State, Host`files
      ensures State.RetryAt == old(State.RetryAt)
      ensures var written := env.csrOk && env.answer.Success? && !IsEmpty(env.answer.value) && env.writeOk;
              && Host.files == (if written then old(Host.files)[CertPath(service) := File(env.later, env.answer.value)]
                                else old(Host.files))
              && (ok <==> written && (service == Granting ==>
                     GRANTING_KEY in Host.files && env.answer.value.Cert? && env.loadOk))
              && State.Keygrant == if ok && service == Granting then Some(env.answer.value.notAfter)
                                   else old(State.Keygrant)
    {
      if !env.csrOk { return false; }
      var cert := RequestSignature(api, PostJSON(env.answer), env);
      if cert.None? { return false; }
      ok := Host.WriteFile(CertPath(service), cert.value, env);
      if !ok { return false; }
      if CertPath(service) == GRANTING_CERT { ok := State.ReloadKeygrantingCert(Host, env); }
    }

    method RequestOrRenew(service: Service, api: string, inAdvance: int, env: Env)
      modifies this, State, Host
      ensures View() == DoRequestOrRenew(old(View()), service, api, inAdvance, env)
    {
      if !State.CanRetry(api, env.now) {
      } else if !MustRegenerate(CertPath(service), inAdvance, env) {
      } else if State.Keygrant.None? {
        Blocked("no keygranting certificate ready");
      } else if KeyPath(service) !in Host.files {
        Blocked("key does not yet exist");
      } else {
        var ok := Regenerate(service, api, env);
        if ok { NotifyPerformed(); }
      }
    }

    // ---- worldconfig ----

    method Perform(a: Action, env: Env)
      modifies this, State, Host
      ensures View() == Do(old(View()), a, env)
    {
      match a
      case GenerateKey(path) => GenerateKey(path, env);
      case Bootstrap(api) => Bootstrap(api, env);
      case Download(source, path, refresh) => Download(source, path, refresh, env);
      case ReloadHostname(path) => ReloadHostnameFrom(path, env);
      case RequestOrRenew(service, api, inAdvance) => RequestOrRenew(service, api, inAdvance, env);
    }

    method ConvergeState(envs: seq<Env>)
      requires |envs| == |ACTIONS|
      modifies this, State, Host
      ensures View() == DoUpTo(old(View()), ACTIONS, envs, |ACTIONS|)
    {
      for i := 0 to |ACTIONS|
        invariant View() == DoUpTo(old(View()), ACTIONS, envs, i)
      {
        Perform(ACTIONS[i], envs[i]);
      }
    }
  }

  // What one cycle reports to the loop.
  datatype Report = Report(performed: bool, blocked: nat)

  function ReportOf(s: State): Report {
    Report(s.performed, s.blocked)
  }

  // Cycle i is the first of a stretch of quiet ones, and is not blocked.
  predicate BecomesReady(reports: seq<Report>, i: nat) {
    && i < |reports| && !reports[i].performed && reports[i].blocked == 0
    && (i > 0 ==> reports[i - 1].performed)
  }

  predicate Increasing(indices: seq<nat>) {
    forall a, b | 0 <= a < b < |indices| :: indices[a] < indices[b]
  }

  // The cycles at which the loop announces that the node is ready.
  ghost predicate Announcements(reports: seq<Report>, ready: seq<nat>) {
    Increasing(ready) && forall i: nat :: i in ready <==> BecomesReady(reports, i)
  }

  lemma NextAnnouncement(reports: seq<Report>, ready: seq<nat>, report: Report)
    requires Announcements(reports, ready)
    ensures var i, reports' := |reports|, reports + [report];
            Announcements(reports', if BecomesReady(reports', i) then ready + [i] else ready)
  {
    var i, reports' := |reports|, reports + [report];
    forall k | k in ready ensures k < i {
      assert BecomesReady(reports, k);
    }
    var ready' := if BecomesReady(reports', i) then ready + [i] else ready;
    forall a, b | 0 <= a < b < |ready'| ensures ready'[a] < ready'[b] {
      assert ready[a] in ready;
    }
    forall k: nat ensures k in ready' <==> BecomesReady(reports', k) {
      assert k in ready <==> BecomesReady(reports, k);
      assert k in ready' <==> k in ready || (k == i && BecomesReady(reports', i));
    }
  }

  // What a cycle finds and leaves behind.
  function Persistent(state: ClientState, host: Machine): State
    reads state, host
  {
    Keyclient.State(host.files, state.Keygrant, state.RetryAt, host.hostname, false, 0)
  }

  function Forget(s: State): State {
    s.(performed := false, blocked := 0)
  }

  method RunCycle(state: ClientState, host: Machine, envs: seq<Env>) returns (report: Report)
    requires |envs| == |ACTIONS|
    modifies state, host
    ensures var s' := Cycle(old(Persistent(state, host)), envs);
            Persistent(state, host) == Forget(s') && report == ReportOf(s')
  {
    var nac := new NewActionContext(state, host);
    nac.ConvergeState(envs);
    report := Report(nac.Performed, |nac.BlockedBy|);
    ghost var s' := nac.View();
    assert Persistent(state, host) == Forget(s') && report == ReportOf(s');
  }

  /**
   ActLoop.Run, cancelled from outside after as many cycles as it is given.  ready lists the cycles after
   which onReady was called.
   */
  method Run(state: ClientState, host: Machine, cycles: seq<seq<Env>>, hasOnReady: bool)
    returns (ready: seq<nat>, reports: seq<Report>)
    requires WellFormed(cycles)
    modifies state, host
    ensures Persistent(state, host) == Forget(Before(old(Persistent(state, host)), cycles, |cycles|))
    ensures |reports| == |cycles|
    ensures forall i | 0 <= i < |cycles| :: reports[i] == ReportOf(Before(old(Persistent(state, host)), cycles, i + 1))
    ensures if hasOnReady then Announcements(reports, ready) else ready == []
  {
    ghost var s0 := Persistent(state, host);
    var wasStabilized := false;
    ready, reports := [], [];
    for i := 0 to |cycles|
      invariant Persistent(state, host) == Forget(Before(s0, cycles, i))
      invariant |reports| == i && forall k | 0 <= k < i :: reports[k] == ReportOf(Before(s0, cycles, k + 1))
      invariant wasStabilized <==> i > 0 && !reports[i - 1].performed
      invariant if hasOnReady then Announcements(reports, ready) else ready == []
    {
      var report := RunCycle(state, host, cycles[i]);
      NextState(s0, cycles, i);
      if hasOnReady { NextAnnouncement(reports, ready, report); }
      reports := reports + [report];
      if !report.performed {
        if !wasStabilized {
          if report.blocked > 0 {
          } else if hasOnReady {
            ready := ready + [i];
          }
        }
      }
      wasStabilized := !report.performed;
    }
  }

  lemma NextState(s: State, cycles: seq<seq<Env>>, i: nat)
    requires WellFormed(cycles) && i < |cycles|
    ensures Before(s, cycles, i + 1) == Cycle(Forget(Before(s, cycles, i)), cycles[i])
  {
  }

  // Cycles first to last are a stretch of quiet cycles that could not be longer.
  predicate QuietStretch(reports: seq<Report>, first: nat, last: nat) {
    && first <= last < |reports|
    && (forall k | first <= k <= last :: !reports[k].performed)
    && (first > 0 ==> reports[first - 1].performed)
    && (last + 1 < |reports| ==> reports[last + 1].performed)
  }

  /**
   onReady is called in a stretch of quiet cycles if and only if its first cycle is not blocked, and then at
   that cycle only.  A stretch whose first cycle is blocked is never announced, even if it is freed later.
   */
  lemma StretchIsAnnouncedOnce(reports: seq<Report>, ready: seq<nat>, first: nat, last: nat, i: nat)
    requires Announcements(reports, ready) && QuietStretch(reports, first, last) && first <= i <= last
    ensures i in ready <==> i == first && reports[first].blocked == 0
  {
    assert i in ready <==> BecomesReady(reports, i);
  }

  lemma {:induction false} QuietTo(reports: seq<Report>, i: nat) returns (last: nat)
    requires i < |reports| && !reports[i].performed
    ensures i <= last < |reports| && (forall k | i <= k <= last :: !reports[k].performed)
    ensures last + 1 < |reports| ==> reports[last + 1].performed
    decreases |reports| - i
  {
    if i + 1 == |reports| || reports[i + 1].performed { last := i; } else { last := QuietTo(reports, i + 1); }
  }

  /** Every announcement belongs to such a stretch, and opens it. */
  lemma AnnouncementOpensStretch(reports: seq<Report>, ready: seq<nat>, i: nat)
    requires Announcements(reports, ready) && i in ready
    ensures exists last :: QuietStretch(reports, i, last)
  {
    assert BecomesReady(reports, i);
    var last := QuietTo(reports, i);
    assert QuietStretch(reports, i, last);
  }

  /** Between two announcements, some cycle has performed an action. */
  lemma AnnouncementsAreSeparated(reports: seq<Report>, ready: seq<nat>, a: nat, b: nat)
    requires Announcements(reports, ready) && a < b < |ready|
    ensures exists k :: ready[a] < k < ready[b] && k < |reports| && reports[k].performed
  {
    assert ready[a] in ready && ready[b] in ready;
    assert BecomesReady(reports, ready[a]) && BecomesReady(reports, ready[b]);
    assert reports[ready[b] - 1].performed;
  }

  function Performing(reports: seq<Report>, n: nat): nat
    requires n <= |reports|
  {
    if n == 0 then 0 else Performing(reports, n - 1) + One(reports[n - 1].performed)
  }

  lemma {:induction false} PerformingGrows(reports: seq<Report>, i: nat, k: nat, n: nat)
    requires i <= k < n <= |reports| && reports[k].performed
    ensures Performing(reports, n) > Performing(reports, i)
  {
    if n - 1 == k { PerformingAtLeast(reports, i, k); } else { PerformingGrows(reports, i, k, n - 1); }
  }

  lemma {:induction false} PerformingAtLeast(reports: seq<Report>, i: nat, n: nat)
    requires i <= n <= |reports|
    ensures Performing(reports, n) >= Performing(reports, i)
  {
    if i < n { PerformingAtLeast(reports, i, n - 1); }
  }

  lemma {:induction false} FewAnnouncements(reports: seq<Report>, ready: seq<nat>, n: nat)
    requires Announcements(reports, ready) && 0 < n <= |ready|
    ensures ready[n - 1] < |reports| && n <= Performing(reports, ready[n - 1]) + 1
  {
    assert ready[n - 1] in ready;
    assert BecomesReady(reports, ready[n - 1]);
    if n > 1 {
      FewAnnouncements(reports, ready, n - 1);
      AnnouncementsAreSeparated(reports, ready, n - 2, n - 1);
      var k :| ready[n - 2] < k < ready[n - 1] && k < |reports| && reports[k].performed;
      PerformingGrows(reports, ready[n - 2], k, ready[n - 1]);
    }
  }

  lemma {:induction false} BusyReports(s: State, cycles: seq<seq<Env>>, reports: seq<Report>, n: nat)
    requires WellFormed(cycles) && n <= |cycles| == |reports|
    requires forall i | 0 <= i < |cycles| :: reports[i] == ReportOf(Before(s, cycles, i + 1))
    ensures Performing(reports, n) == Busy(s, cycles, n)
  {
    if n > 0 { BusyReports(s, cycles, reports, n - 1); }
  }

  /** Within a day, the node becomes ready at most 36 times, not counting cycles that misread a certificate. */
  lemma ReadyAtMost(s: State, cycles: seq<seq<Env>>, reports: seq<Report>, ready: seq<nat>, from: int, to: int)
    requires WellFormed(cycles) && |reports| == |cycles| && Announcements(reports, ready)
    requires forall i | 0 <= i < |cycles| :: reports[i] == ReportOf(Before(s, cycles, i + 1))
    requires to - from <= ONE_DAY && forall i | 0 <= i < |cycles| :: CycleWithin(cycles[i], from, to)
    ensures |ready| <= MOST + 1 + Misreads(cycles, |cycles|)
  {
    if ready != [] {
      FewAnnouncements(reports, ready, |ready|);
      PerformingAtLeast(reports, ready[|ready| - 1], |reports|);
      BusyReports(s, cycles, reports, |cycles|);
      GoesQuiet(s, cycles, from, to);
    }
  }
}

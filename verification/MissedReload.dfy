/** A run of the keyclient, with the keyserver's lifespans, in which one missed reload lets everything lapse. */
module MissedReload {
  import opened Wrappers
  import opened Accounts
  import opened Keyclient
  import opened Renewal

  // One cycle a week, none of whose renewals may fail.
  const BOUNDS := Bounds(ONE_WEEK, 0, 0, SignedFor)

  // The granting certificate has just become due.
  const FIRST := State(map[GRANTING_KEY := File(0, Key), GRANTING_CERT := File(0, Cert(2 * ONE_WEEK))],
                       Some(2 * ONE_WEEK), map[], "", false, 0)

  // Everything works but loading the granting certificate.  The keyserver answers until the Keygrant has run out.
  function EnvAt(t: int): Env {
    Env(t, t, if t <= 2 * ONE_WEEK then Success(Cert(t + 61 * ONE_DAY)) else Failure(OtherError),
        true, true, true, true, false, true)
  }

  function CycleAt(t: int): (c: Timed)
    ensures |c.envs| == |ACTIONS| && forall j | 0 <= j < |ACTIONS| :: c.envs[j] == EnvAt(t)
  {
    Timed(t, t, seq(|ACTIONS|, _ => EnvAt(t)))
  }

  const RUN: seq<Timed> := [CycleAt(0), CycleAt(ONE_WEEK), CycleAt(2 * ONE_WEEK), CycleAt(3 * ONE_WEEK)]

  lemma RunIsShaped(i: nat)
    requires i < |RUN|
    ensures Shaped(RUN) && RUN[i] == CycleAt(i * ONE_WEEK)
  {
    assert RUN[0] == CycleAt(0) && RUN[1] == CycleAt(ONE_WEEK) && RUN[2] == CycleAt(2 * ONE_WEEK) && RUN[3] == CycleAt(3 * ONE_WEEK);
    assert i == 0 || i == 1 || i == 2 || i == 3;
  }

  lemma KeygrantStays(s: State, a: Action, env: Env)
    requires !env.loadOk
    ensures Do(s, a, env).keygrant == s.keygrant
  {
  }

  lemma {:induction false} KeygrantStaysUpTo(s: State, actions: seq<Action>, envs: seq<Env>, n: nat)
    requires n <= |actions| == |envs| && forall j | 0 <= j < |envs| :: !envs[j].loadOk
    ensures DoUpTo(s, actions, envs, n).keygrant == s.keygrant
  {
    if n > 0 {
      KeygrantStaysUpTo(s, actions, envs, n - 1);
      KeygrantStays(DoUpTo(s, actions, envs, n - 1), actions[n - 1], envs[n - 1]);
    }
  }

  lemma {:induction false} SameKeygrant(i: nat)
    requires Shaped(RUN) && i <= |RUN|
    ensures AfterCycles(FIRST, RUN, i).keygrant == Some(2 * ONE_WEEK)
  {
    if i > 0 {
      SameKeygrant(i - 1);
      RunIsShaped(i - 1);
      NextCycle(FIRST, RUN, i - 1);
      KeygrantStaysUpTo(Begin(AfterCycles(FIRST, RUN, i - 1)), ACTIONS, RUN[i - 1].envs, |ACTIONS|);
    }
  }

  lemma KeygrantAt(i: nat, j: nat)
    requires Shaped(RUN) && i < |RUN| && j <= |ACTIONS|
    ensures At(AfterCycles(FIRST, RUN, i), RUN[i], j).keygrant == Some(2 * ONE_WEEK)
  {
    SameKeygrant(i);
    RunIsShaped(i);
    KeygrantStaysUpTo(Begin(AfterCycles(FIRST, RUN, i)), ACTIONS, RUN[i].envs, j);
  }

  // No answer is dishonest, and no renewal fails while the Keygrant is valid.
  lemma StepIsRegular(s: State, a: Action, t: int)
    requires s.keygrant == Some(2 * ONE_WEEK)
    ensures HonestStep(BOUNDS, s, a, EnvAt(t))
    ensures a.RequestOrRenew? ==> !Stumbles(s, a, EnvAt(t))
  {
  }

  lemma {:induction false} NoStreaks(j: nat, i: nat)
    requires Shaped(RUN) && j < |ACTIONS| && ACTIONS[j].RequestOrRenew? && i <= |RUN|
    ensures Streak(FIRST, RUN, j, i) == 0
  {
    if i > 0 {
      NoStreaks(j, i - 1);
      KeygrantAt(i - 1, j);
      RunIsShaped(i - 1);
      StepIsRegular(At(AfterCycles(FIRST, RUN, i - 1), RUN[i - 1], j), ACTIONS[j], (i - 1) * ONE_WEEK);
    }
  }

  lemma HonestCycle(i: nat)
    requires Shaped(RUN) && i < |RUN|
    ensures Honest(BOUNDS, AfterCycles(FIRST, RUN, i), RUN[i]) && Readable(RUN[i])
  {
    RunIsShaped(i);
    forall j | 0 <= j < |ACTIONS|
      ensures HonestStep(BOUNDS, At(AfterCycles(FIRST, RUN, i), RUN[i], j), ACTIONS[j], RUN[i].envs[j])
    {
      KeygrantAt(i, j);
      StepIsRegular(At(AfterCycles(FIRST, RUN, i), RUN[i], j), ACTIONS[j], i * ONE_WEEK);
    }
  }

  lemma RunIsOnTime()
    ensures OnTime(BOUNDS, RUN)
  {
    forall i | 0 <= i < |RUN| ensures RUN[i] == CycleAt(i * ONE_WEEK) {
      RunIsShaped(i);
    }
  }

  lemma RunIsTolerable()
    requires Shaped(RUN)
    ensures Tolerable(BOUNDS, FIRST, RUN)
  {
    forall i, j | 0 <= i <= |RUN| && 0 <= j < |ACTIONS| && ACTIONS[j].RequestOrRenew?
      ensures Streak(FIRST, RUN, j, i) <= BOUNDS.tolerated
    {
      NoStreaks(j, i);
    }
  }

  lemma RunIsReadable()
    requires Shaped(RUN) && LongLived(BOUNDS)
    ensures ReadableRun(BOUNDS, FIRST, RUN)
  {
    forall i | 0 <= i < |RUN| ensures ReadableCycle(BOUNDS, AfterCycles(FIRST, RUN, i), RUN[i]) {
      HonestCycle(i);
    }
  }

  lemma RunIsRegular()
    ensures Regular(BOUNDS, FIRST, RUN) && ReadableRun(BOUNDS, FIRST, RUN)
  {
    RunIsShaped(0);
    KeyserverIsAdequate(ONE_WEEK, 0, 0);
    RunIsOnTime();
    RunIsTolerable();
    RunIsReadable();
    ReadableIsRegular(BOUNDS, FIRST, RUN);
  }

  lemma ReadableIsRegular(b: Bounds, s: State, cycles: seq<Timed>)
    requires Adequate(b) && OnTime(b, cycles) && Tolerable(b, s, cycles) && ReadableRun(b, s, cycles)
    ensures Regular(b, s, cycles)
  {
    assert forall i | 0 <= i < |cycles| :: ReadableCycle(b, AfterCycles(s, cycles, i), cycles[i]);
  }

  lemma FirstIsStarted()
    ensures Started(BOUNDS, FIRST, 0)
  {
    forall service | Holds(FIRST, service) ensures service == Granting {
    }
  }

  /**
   All that NoLapse asks for holds of this run, but that no reload is missed; and after two weeks the Keygrant has
   run out.
   */
  lemma OneMissedReloadLapses()
    ensures Regular(BOUNDS, FIRST, RUN) && ReadableRun(BOUNDS, FIRST, RUN) && Started(BOUNDS, FIRST, RUN[0].start)
    ensures !NoMissedReload(FIRST, RUN) && !NeverLapses(FIRST, RUN)
  {
    RunIsRegular();
    RunIsShaped(0);
    RunIsShaped(3);
    FirstIsStarted();
    KeygrantAt(3, 0);
    assert !Outlasts(At(AfterCycles(FIRST, RUN, 3), RUN[3], 0), RUN[3]);
    if NoMissedReload(FIRST, RUN) { NoLapse(BOUNDS, FIRST, RUN); }
  }
}

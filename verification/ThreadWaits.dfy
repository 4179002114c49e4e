/** Bounded waits over whole runs: a thread that nobody wakes runs again when its time is over. */
module ThreadWaits {
  import opened ReadyBitmap
  import opened TimerOrder
  import opened WaitQueue
  import opened ThreadStates
  import opened ThreadSteps
  import opened ThreadRuns
  import opened ThreadEffects

  ghost predicate CanRun(wide: bool, s: State, steps: seq<Step>)
    requires Inv(wide, s)
    decreases |steps|
  {
    steps == [] ||
    (Enabled(wide, s, steps[0]) && (StepOk(wide, s, steps[0]); CanRun(wide, Do(wide, s, steps[0]), steps[1..])))
  }

  ghost function Run(wide: bool, s: State, steps: seq<Step>): (r: State)
    requires Inv(wide, s) && CanRun(wide, s, steps)
    ensures Inv(wide, r)
    decreases |steps|
  {
    if steps == [] then s
    else
      StepOk(wide, s, steps[0]);
      Run(wide, Do(wide, s, steps[0]), steps[1..])
  }

  /** The ticks among the steps. */
  function Ticks(steps: seq<Step>): nat {
    if steps == [] then 0 else (if steps[0].Tick? then 1 else 0) + Ticks(steps[1..])
  }

  /** The step neither wakes `t` nor is its own. */
  ghost predicate LeavesAlone(s: State, step: Step, t: Tid) {
    match step
    case ResumeOne(u) => u != t
    case WakeFirst(ipc) => Queue(s.lists, WaitList(ipc)) != [] ==> Queue(s.lists, WaitList(ipc))[0] != t
    case FailFirst(ipc) => Queue(s.lists, WaitList(ipc)) != [] ==> Queue(s.lists, WaitList(ipc))[0] != t
    case Exit(_) => t != s.current
    case GoToSleep(_) => t != s.current
    case BlockOn(_, _, _) => t != s.current
    case _ => true
  }

  /** No step of the run wakes `t` or is its own. */
  ghost predicate LeftAlone(wide: bool, s: State, steps: seq<Step>, t: Tid)
    requires Inv(wide, s) && CanRun(wide, s, steps)
    decreases |steps|
  {
    steps == [] ||
    (LeavesAlone(s, steps[0], t) &&
     (StepOk(wide, s, steps[0]); LeftAlone(wide, Do(wide, s, steps[0]), steps[1..], t)))
  }

  /** `t` is suspended, with a timer that is due at `d`. */
  ghost predicate WaitsUntil(s: State, t: Tid, d: nat) {
    t in s.threads && s.threads[t].stat == Suspend && t in s.armed && t in s.keys && s.keys[t].deadline == d
  }

  ghost predicate RanOut(s: State, t: Tid) {
    Runnable(s.threads, t) && s.threads[t].error == ETIMEOUT && t !in s.armed
  }

  // One step

  lemma GoneOther(a: seq<Tid>, b: seq<Tid>, u: Tid, t: Tid)
    requires Gone(a, b, u) && t in a && t != u
    ensures t in b
  {
    if u in a {
      var k :| 0 <= k < |a| && a[k] == u && b == a[..k] + a[k + 1..];
      var i :| 0 <= i < |a| && a[i] == t;
      assert b[if i < k then i else i - 1] == t;
    }
  }

  lemma TimerOnOther(s: State, r: State, u: Tid, ticks: nat, t: Tid)
    requires TimerOn(s, r, u, ticks) && t in s.armed && t != u
    ensures t in r.armed
  {
    hide Gone;
    var a: seq<Tid>, n: nat :| Gone(s.armed, a, u) && InsertedAt(s, a, r.armed, u, s.now + ticks, n);
    GoneOther(s.armed, a, u, t);
    EnqueueMembers(a, n, u, r.armed);
  }

  lemma DueMember(wide: bool, s: State, t: Tid, d: nat, now: nat)
    requires Inv(wide, s) && WaitsUntil(s, t, d)
    ensures var n := Due(s.armed, s.keys, now);
      && (t in s.armed[..n] <==> d <= now) && (t in s.armed[n..] <==> d > now)
  {
    hide Listed, Placed, BitsAgree, Masked, Due;
    OrderedDistinct(s.armed, s.keys);
    var n := Due(s.armed, s.keys, now);
    var k :| 0 <= k < |s.armed| && s.armed[k] == t;
    DueAt(s.armed, s.keys, now, k);
    assert k < n ==> s.armed[..n][k] == t;
    assert k >= n ==> s.armed[n..][k - n] == t;
  }

  lemma TickWaits(wide: bool, s: State, t: Tid, d: nat)
    requires Inv(wide, s) && s.current in s.threads && WaitsUntil(s, t, d)
    ensures var r := Ticked(wide, s);
      r.now == s.now + 1 && if d <= s.now + 1 then RanOut(r, t) else WaitsUntil(r, t, d)
  {
    hide Inv, Ticked, Due;
    TickedExact(wide, s);
    DueMember(wide, s, t, d, s.now + 1);
  }

  lemma OtherWaits(wide: bool, s: State, step: Step, t: Tid, d: nat)
    requires Inv(wide, s) && Enabled(wide, s, step) && !step.Tick?
    requires WaitsUntil(s, t, d) && LeavesAlone(s, step, t)
    ensures var r := Do(wide, s, step); r.now == s.now && WaitsUntil(r, t, d)
  {
    hide Inv, Do, Unlisted, Moved, Gone, TimerOn, WaitsOn, Schedules, Launches, Suspends, Resumes, AttrOf, Known;
    StepDoes(wide, s, step);
    var r := Do(wide, s, step);
    match step
    case Reschedule => SchedulesOther(s, r, t);
    case Launch => LaunchesOther(s, r, t);
    case SuspendOne(u) => SuspendsOther(s, r, u, t);
    case ResumeOne(u) => ResumesOther(s, r, u, s.threads[u].error, t);
    case WakeFirst(ipc) =>
      var u := Queue(s.lists, WaitList(ipc))[0];
      ResumesOther(s, r, u, s.threads[u].error, t);
    case FailFirst(ipc) => ResumesOther(s, r, Queue(s.lists, WaitList(ipc))[0], ERROR, t);
    case Exit(isStatic) => GoneOther(s.armed, r.armed, s.current, t);
    case BlockOn(ipc, byPrio, timeout) =>
      if timeout > 0 {
        TimerOnOther(s, r, s.current, timeout, t);
        TimerOnKeys(s, r, s.current, timeout);
      }
    case GoToSleep(ticks) =>
      TimerOnOther(s, r, s.current, ticks, t);
      TimerOnKeys(s, r, s.current, ticks);
    case _ =>
  }

  lemma SchedulesOther(s: State, r: State, t: Tid)
    requires s.current in s.threads && Schedules(s, r) && t in s.threads && s.threads[t].stat == Suspend
    ensures r.armed == s.armed && r.keys == s.keys && r.now == s.now && t in r.threads && r.threads[t] == s.threads[t]
  {
    hide Unlisted, StaysAhead, NotAfter;
  }

  lemma LaunchesOther(s: State, r: State, t: Tid)
    requires Launches(s, r) && t in s.threads && s.threads[t].stat == Suspend
    ensures r.armed == s.armed && r.keys == s.keys && r.now == s.now && t in r.threads && r.threads[t] == s.threads[t]
  {
    hide Unlisted, NotAfter;
  }

  lemma SuspendsOther(s: State, r: State, u: Tid, t: Tid)
    requires Suspends(s, r, u) && t in s.threads && s.threads[t].stat == Suspend && t in s.armed
    ensures t in r.armed && r.keys == s.keys && r.now == s.now && t in r.threads && r.threads[t] == s.threads[t]
  {
    hide Unlisted, Gone;
    if Runnable(s.threads, u) {
      GoneOther(s.armed, r.armed, u, t);
    }
  }

  lemma TimerOnKeys(s: State, r: State, u: Tid, ticks: nat)
    requires TimerOn(s, r, u, ticks)
    ensures r.keys == s.keys[u := Key(s.now + ticks, s.stamp)]
  {
  }

  lemma ResumesOther(s: State, r: State, u: Tid, error: int, t: Tid)
    requires Resumes(s, r, u, error) && t in s.armed && t != u
    ensures t in r.armed && r.keys == s.keys && r.now == s.now
    ensures t in s.threads ==> t in r.threads && r.threads[t] == s.threads[t]
  {
    hide Unlisted, Moved, Gone;
    if u in s.threads && s.threads[u].stat == Suspend {
      GoneOther(s.armed, r.armed, u, t);
    }
  }

  // Runs

  /** A thread with a timer due in `k` ticks, or at the next tick, that nobody wakes waits as long as
      fewer ticks have passed, and is woken by that tick with -RT_ETIMEOUT. */
  lemma {:induction false} RunWaits(wide: bool, s: State, steps: seq<Step>, t: Tid, d: nat, k: nat)
    requires Inv(wide, s) && CanRun(wide, s, steps) && LeftAlone(wide, s, steps, t) && WaitsUntil(s, t, d)
    requires k == (if d > s.now then d - s.now else 1)
    ensures Ticks(steps) < k ==> WaitsUntil(Run(wide, s, steps), t, d)
    ensures Ticks(steps) == k && steps[|steps| - 1].Tick? ==> RanOut(Run(wide, s, steps), t)
    decreases |steps|
  {
    hide Inv, Do, LeavesAlone;
    if steps != [] {
      StepOk(wide, s, steps[0]);
      var r := Do(wide, s, steps[0]);
      if steps[0].Tick? {
        TickStep(wide, s, t, d);
        if k == 1 {
          if |steps| > 1 && steps[|steps| - 1].Tick? {
            NoTicks(steps[1..]);
          }
        } else {
          RunWaits(wide, r, steps[1..], t, d, k - 1);
        }
      } else {
        OtherWaits(wide, s, steps[0], t, d);
        RunWaits(wide, r, steps[1..], t, d, k);
      }
    }
  }

  lemma TickStep(wide: bool, s: State, t: Tid, d: nat)
    requires Inv(wide, s) && Enabled(wide, s, Tick) && WaitsUntil(s, t, d)
    ensures var r := Do(wide, s, Tick);
      r.now == s.now + 1 && if d <= s.now + 1 then RanOut(r, t) else WaitsUntil(r, t, d)
  {
    hide Inv, Ticked, RanOut, WaitsUntil;
    TickWaits(wide, s, t, d);
  }

  lemma {:induction false} NoTicks(steps: seq<Step>)
    requires steps != [] && steps[|steps| - 1].Tick?
    ensures Ticks(steps) > 0
  {
    if |steps| > 1 {
      NoTicks(steps[1..]);
    }
  }

  /** A take, send or receive that blocks with a bounded timeout and is served by nobody: its thread
      cannot run while fewer ticks than the timeout have passed, and is runnable with the error
      -RT_ETIMEOUT behind the tick that makes them up. */
  lemma WaitEnds(wide: bool, s: State, ipc: nat, byPrio: bool, timeout: int, steps: seq<Step>)
    requires Inv(wide, s) && Enabled(wide, s, BlockOn(ipc, byPrio, timeout)) && timeout > 0
    requires var w := Do(wide, s, BlockOn(ipc, byPrio, timeout));
      Inv(wide, w) && CanRun(wide, w, steps) && LeftAlone(wide, w, steps, s.current)
    ensures var r := Run(wide, Do(wide, s, BlockOn(ipc, byPrio, timeout)), steps);
      && (Ticks(steps) < timeout ==> !Runnable(r.threads, s.current))
      && (Ticks(steps) == timeout && steps[|steps| - 1].Tick? ==>
            Runnable(r.threads, s.current) && r.threads[s.current].error == ETIMEOUT)
  {
    hide Inv, Do, CanRun, LeftAlone, Run, TimerOn, WaitsOn;
    var t: Tid := s.current;
    var w := Do(wide, s, BlockOn(ipc, byPrio, timeout));
    StepDoes(wide, s, BlockOn(ipc, byPrio, timeout));
    TimerOnSelf(s, w, t, timeout);
    RunWaits(wide, w, steps, t, s.now + timeout, timeout);
  }

  /** rt_thread_sleep lasts as many ticks as asked for, and at least one. */
  lemma SleepEnds(wide: bool, s: State, ticks: nat, steps: seq<Step>)
    requires Inv(wide, s) && Enabled(wide, s, GoToSleep(ticks))
    requires var w := Do(wide, s, GoToSleep(ticks));
      Inv(wide, w) && CanRun(wide, w, steps) && LeftAlone(wide, w, steps, s.current)
    ensures var r := Run(wide, Do(wide, s, GoToSleep(ticks)), steps); var k := if ticks > 0 then ticks else 1;
      && (Ticks(steps) < k ==> !Runnable(r.threads, s.current))
      && (Ticks(steps) == k && steps[|steps| - 1].Tick? ==>
            Runnable(r.threads, s.current) && r.threads[s.current].error == ETIMEOUT)
  {
    hide Inv, Do, CanRun, LeftAlone, Run, TimerOn;
    var t: Tid := s.current;
    var w := Do(wide, s, GoToSleep(ticks));
    StepDoes(wide, s, GoToSleep(ticks));
    TimerOnSelf(s, w, t, ticks);
    RunWaits(wide, w, steps, t, s.now + ticks, if ticks > 0 then ticks else 1);
  }
}

/** rt_thread_resume, rt_thread_startup and rt_thread_suspend region by region. They test the state
    of a thread before they disable interrupts, and rt_thread_resume has two locked regions, so
    other threads and interrupt handlers may act on the thread in between. */
module ThreadRegions {
  import opened ReadyBitmap
  import opened TimerOrder
  import opened WaitQueue
  import opened ThreadStates
  import opened ThreadSteps
  import opened ThreadRuns

  // What one region keeps

  /** The thread is in no list and its timer is off. */
  ghost predicate Off(s: State, t: Tid) { (forall h :: !Linked(s.lists, h, t)) && t !in s.armed }

  /** The second region of rt_thread_resume keeps the invariant exactly if the thread is still in no
      list with its timer off. */
  lemma InsertExact(wide: bool, s: State, t: Tid)
    requires Inv(wide, s) && t in s.threads && s.threads[t].stat != Init
    ensures Inv(wide, InsertThread(wide, s, t)) <==> Off(s, t)
  {
    hide Inv, InsertThread, Off;
    if Off(s, t) {
      InsertOff(wide, s, t);
    } else {
      InsertBreaks(wide, s, t);
    }
  }

  lemma InsertOff(wide: bool, s: State, t: Tid)
    requires Inv(wide, s) && t in s.threads && s.threads[t].stat != Init && Off(s, t)
    ensures Inv(wide, InsertThread(wide, s, t))
  {
    hide Listed, Placed, BitsAgree, Timed, Masked, InsertThread;
    CoreAside(wide, s, t);
    InsertOk(wide, s, t);
    InsertRest(wide, s, t);
  }

  lemma InsertBreaks(wide: bool, s: State, t: Tid)
    requires Inv(wide, s) && t in s.threads && !Off(s, t)
    ensures !Inv(wide, InsertThread(wide, s, t))
  {
    hide Listed, Placed, BitsAgree, Timed, Masked, InsertThread;
    InsertRest(wide, s, t);
    var r := InsertThread(wide, s, t);
    if t in s.armed {
      TimedOnly(r.threads, r.armed, r.keys, r.stamp, t);
    } else {
      var h :| Linked(s.lists, h, t);
      InsertTwice(wide, s, t, h);
    }
  }

  lemma TimedOnly(threads: map<Tid, Thread>, armed: seq<Tid>, keys: Keys, stamp: nat, t: Tid)
    requires t in armed && t in threads && threads[t].stat != Suspend
    ensures !Timed(threads, armed, keys, stamp, 0)
  {
  }

  /** A thread that is in a list already is linked a second time, or runs while it is linked. */
  lemma InsertTwice(wide: bool, s: State, t: Tid, h: Head)
    requires t in s.threads && Linked(s.lists, h, t)
    ensures var r := InsertThread(wide, s, t); !Listed(r.threads, r.lists, 0)
  {
    var r := InsertThread(wide, s, t);
    if t == s.current {
      assert Linked(r.lists, h, t) && !Belongs(r.threads[t], h);
    } else {
      var g := ReadyList(s.threads[t].prio);
      var q := Queue(s.lists, g);
      assert r.lists[g] == q + [t] && Linked(r.lists, g, t);
      if g == h {
        var i :| 0 <= i < |q| && q[i] == t;
        assert r.lists[g][i] == r.lists[g][|q|];
      } else {
        assert Linked(r.lists, h, t);
      }
    }
  }

  /** The first region of rt_thread_resume keeps the invariant exactly if the thread is not ready:
      it takes a ready thread out of its queue and leaves it in no list. */
  lemma UnlinkExact(wide: bool, s: State, t: Tid)
    requires Inv(wide, s) && t in s.threads
    ensures Inv(wide, UnlinkThread(s, t)) <==> s.threads[t].stat != Ready
    ensures Off(UnlinkThread(s, t), t)
  {
    hide Listed, BitsAgree, Timed, Masked, Drop, Without;
    DropMembers(s.threads, s.lists, t, 0);
    DisarmTimed(s.threads, s.armed, s.keys, s.stamp, 0, t);
    if s.threads[t].stat != Ready {
      UnlinkKeeps(wide, s, t);
    }
  }

  lemma UnlinkKeeps(wide: bool, s: State, t: Tid)
    requires Inv(wide, s) && t in s.threads && s.threads[t].stat != Ready
    ensures Inv(wide, UnlinkThread(s, t))
  {
    hide BitsAgree, Timed, Masked, Drop, Without;
    DropMembers(s.threads, s.lists, t, 0);
    DisarmTimed(s.threads, s.armed, s.keys, s.stamp, 0, t);
    SameQueues(wide, s.threads, s.bits, s.lists, t);
  }

  lemma SameQueues(wide: bool, threads: map<Tid, Thread>, b: Bits, l: Lists, t: Tid)
    requires BitsAgree(wide, b, l) && Listed(threads, l, 0) && t in threads && threads[t].stat != Ready
    ensures BitsAgree(wide, b, Drop(l, t))
  {
    hide Drop, Has, Whole, Known;
    DropMembers(threads, l, t, 0);
    forall p: Prio | ReadyList(p) in l ensures Drop(l, t)[ReadyList(p)] == [] <==> l[ReadyList(p)] == [] {
      EmptyList(l, ReadyList(p));
      EmptyList(Drop(l, t), ReadyList(p));
    }
  }

  // What a step does to a thread it does not wake

  /** The step makes `t` runnable. */
  ghost predicate Wakes(s: State, step: Step, t: Tid) {
    match step
    case ResumeOne(u) => u == t
    case WakeFirst(ipc) => Queue(s.lists, WaitList(ipc)) != [] && Queue(s.lists, WaitList(ipc))[0] == t
    case FailFirst(ipc) => Queue(s.lists, WaitList(ipc)) != [] && Queue(s.lists, WaitList(ipc))[0] == t
    case Tick => t in s.armed[..Due(s.armed, s.keys, s.now + 1)]
    case _ => false
  }

  /** No started thread returns to its initial state, and a suspended one stays so unless it is
      woken or, being the running thread still, exits. */
  lemma StepStill(wide: bool, s: State, step: Step, t: Tid)
    requires Inv(wide, s) && Enabled(wide, s, step) && t in s.threads && s.threads[t].stat != Init
    ensures var r := Do(wide, s, step);
      && t in r.threads && r.threads[t].stat != Init
      && (s.threads[t].stat == Suspend && !Wakes(s, step, t) && !(t == s.current && step.Exit?) ==>
          r.threads[t].stat == Suspend)
  {
    hide Inv, Schedule, LaunchFirst, SuspendNow, ResumeThread, ChangePriority, ExitThread, Block, Sleep, Ticked, Known,
         Due;
    match step
    case Create(u, p, ticks) =>
    case Reschedule => ScheduleStill(wide, s, t);
    case Launch => LaunchOk(wide, s);
    case SuspendOne(u) => SuspendThreads(wide, s, u);
    case ResumeOne(u) => ResumeThreads(wide, s, u);
    case Prioritise(u, p) => PriorityThreads(wide, s, u, p);
    case Exit(isStatic) => ExitThreads(wide, s, isStatic);
    case BlockOn(ipc, byPrio, timeout) => BlockThreads(wide, s, ipc, byPrio, timeout);
    case WakeFirst(ipc) =>
      FirstWaits(wide, s, ipc);
      ResumeThreads(wide, s, Queue(s.lists, WaitList(ipc))[0]);
    case FailFirst(ipc) =>
      FirstWaits(wide, s, ipc);
      var u := Queue(s.lists, WaitList(ipc))[0];
      ResumeThreads(wide, SetError(s, u, ERROR), u);
    case StoreError(e) =>
    case GoToSleep(ticks) => SleepThreads(wide, s, ticks);
    case EndSleep =>
    case EnterCritical =>
    case LeaveCritical =>
    case Tick => TickStill(wide, s, t);
  }

  lemma ScheduleStill(wide: bool, s: State, t: Tid)
    requires Inv(wide, s) && s.current in s.threads && t in s.threads && s.threads[t].stat != Init
    ensures var r := Schedule(wide, s);
      t in r.threads && r.threads[t].stat != Init && (s.threads[t].stat == Suspend ==> r.threads[t].stat == Suspend)
  {
    hide Inv, Schedule;
    ScheduleSame(wide, s);
  }

  lemma TickStill(wide: bool, s: State, t: Tid)
    requires Inv(wide, s) && s.current in s.threads && t in s.threads && s.threads[t].stat != Init
    ensures var r := Ticked(wide, s);
      && t in r.threads && r.threads[t].stat != Init
      && (s.threads[t].stat == Suspend && !Wakes(s, Tick, t) ==> r.threads[t].stat == Suspend)
  {
    hide Inv, Ticked, Due;
    TickedExact(wide, s);
  }

  lemma UnlinkRest(s: State, t: Tid)
    ensures var r := UnlinkThread(s, t);
      r.threads == s.threads && r.current == s.current && r.now == s.now && r.keys == s.keys && r.stamp == s.stamp &&
          r.nest == s.nest
  {
  }

  lemma ResumeThreads(wide: bool, s: State, t: Tid)
    requires t in s.threads
    ensures ResumeThread(wide, s, t).threads ==
            if s.threads[t].stat != Suspend then s.threads
            else s.threads[t := s.threads[t].(stat := if t == s.current then Running else Ready)]
  {
    hide InsertThread, UnlinkThread;
    UnlinkRest(s, t);
    InsertRest(wide, UnlinkThread(s, t), t);
  }

  lemma SuspendThreads(wide: bool, s: State, t: Tid)
    requires t in s.threads
    ensures SuspendNow(wide, s, t).threads == s.threads[t := s.threads[t].(stat := Suspend)]
  {
    hide RemoveThread;
    RemoveRest(wide, s, t);
  }

  lemma PriorityThreads(wide: bool, s: State, t: Tid, p: Prio)
    requires Inv(wide, s) && t in s.threads && Known(wide, p)
    ensures var r := ChangePriority(wide, s, t, p);
      && r.threads.Keys == s.threads.Keys &&
          (forall u: Tid :: u in s.threads && u != t ==> r.threads[u] == s.threads[u])
      && (r.threads[t].stat == Ready <==> s.threads[t].stat == Ready) &&
          (s.threads[t].stat != Ready ==> r.threads[t].stat == s.threads[t].stat)
  {
    hide RemoveThread, InsertThread, AttrOf, Known, Core;
    RemoveRest(wide, s, t);
    InsertRest(wide, SetPrio(wide, RemoveThread(wide, s, t), t, p), t);
  }

  lemma ExitThreads(wide: bool, s: State, isStatic: bool)
    requires s.current in s.threads
    ensures var c: Tid := s.current;
      ExitThread(wide, s, isStatic).threads == s.threads[c := s.threads[c].(stat := Close)]
  {
    hide RemoveThread, Without;
    RemoveRest(wide, s, s.current);
  }

  lemma BlockThreads(wide: bool, s: State, ipc: nat, byPrio: bool, timeout: int)
    requires s.current in s.threads && s.threads[s.current].stat == Running
    ensures var c: Tid := s.current;
      Block(wide, s, ipc, byPrio, timeout).threads == s.threads[c := s.threads[c].(error := EOK, stat := Suspend)]
  {
    hide RemoveThread, Without, Insert, SuspendNow;
    var c: Tid := s.current;
    SuspendThreads(wide, s.(threads := s.threads[c := s.threads[c].(error := EOK)]), c);
  }

  lemma SleepThreads(wide: bool, s: State, ticks: nat)
    requires s.current in s.threads
    ensures var c: Tid := s.current;
      Sleep(wide, s, ticks).threads ==
      if Runnable(s.threads, c) then s.threads[c := s.threads[c].(stat := Suspend)] else s.threads
  {
    hide Without, Insert, SuspendNow;
    SuspendThreads(wide, s, s.current);
  }

  /** `t` waits on no list it did not wait on before. */
  ghost predicate NoNewWait(s: State, r: State, t: Tid) {
    forall n :: Linked(r.lists, WaitList(n), t) ==> Linked(s.lists, WaitList(n), t)
  }

  lemma WithoutIn(q: seq<Tid>, u: Tid, t: Tid)
    ensures t in Without(q, u) ==> t in q
  {
    if t !in q {
      WithoutFewer(q, u, t);
    }
  }

  lemma DropWaits(l: Lists, u: Tid, t: Tid)
    ensures forall h :: Linked(Drop(l, u), h, t) ==> Linked(l, h, t)
  {
    hide Without;
    forall h | Linked(Drop(l, u), h, t) ensures Linked(l, h, t) {
      WithoutIn(l[h], u, t);
    }
  }

  lemma RemoveWaits(wide: bool, s: State, u: Tid, t: Tid)
    requires u in s.threads
    ensures NoNewWait(s, RemoveThread(wide, s, u), t)
  {
    hide Drop, Unmark;
    DropWaits(s.lists, u, t);
  }

  lemma InsertWaits(wide: bool, s: State, u: Tid, t: Tid)
    requires u in s.threads
    ensures NoNewWait(s, InsertThread(wide, s, u), t)
  {
  }

  lemma ResumeWaits(wide: bool, s: State, u: Tid, t: Tid)
    requires u in s.threads
    ensures NoNewWait(s, ResumeThread(wide, s, u), t) && NoNewWait(s, UnlinkThread(s, u), t)
  {
    hide Drop, Without, InsertThread;
    DropWaits(s.lists, u, t);
    InsertWaits(wide, UnlinkThread(s, u), u, t);
  }

  lemma ScheduleWaits(wide: bool, s: State, t: Tid)
    requires s.current in s.threads
    ensures NoNewWait(s, Schedule(wide, s), t)
  {
    hide InsertThread, RemoveThread, Highest;
    var to := HighestThread(wide, s);
    if to in s.threads && to != s.current {
      var s1 := s.(current := to);
      InsertWaits(wide, s1, s.current, t);
      InsertRest(wide, s1, s.current);
      RemoveWaits(wide, s1, to, t);
      RemoveWaits(wide, InsertThread(wide, s1, s.current), to, t);
    }
  }

  lemma TimeoutWaits(wide: bool, s: State, u: Tid, t: Tid)
    requires u in s.threads
    ensures NoNewWait(s, TimeoutThread(wide, s, u), t)
  {
    hide Drop, InsertThread, Schedule;
    var s1 := s.(threads := s.threads[u := s.threads[u].(error := ETIMEOUT)]);
    DropWaits(s1.lists, u, t);
    InsertWaits(wide, Unlist(s1, u), u, t);
    var s2 := InsertThread(wide, Unlist(s1, u), u);
    if s2.current in s2.threads {
      ScheduleWaits(wide, s2, t);
    }
  }

  lemma {:induction false} FireWaits(wide: bool, s: State, t: Tid)
    requires Inv(wide, s) && s.current in s.threads
    ensures NoNewWait(s, FireDue(wide, s), t)
    decreases |s.armed|
  {
    hide Inv, TimeoutThread;
    if s.armed != [] {
      DueThread(wide, s);
      if s.keys[s.armed[0]].deadline <= s.now {
        var s1 := TimeoutThread(wide, s.(armed := s.armed[1..]), s.armed[0]);
        TimeoutWaits(wide, s.(armed := s.armed[1..]), s.armed[0], t);
        FireWaits(wide, s1, t);
      }
    }
  }

  lemma TickWaits(wide: bool, s: State, t: Tid)
    requires Inv(wide, s) && s.current in s.threads
    ensures NoNewWait(s, Ticked(wide, s), t)
  {
    hide Inv, FireDue, Schedule;
    SlicedOk(wide, s);
    var c: Tid := s.current;
    var left := (s.threads[c].remaining - 1) % TICKS;
    var r := s.threads[c].(remaining := if left == 0 then s.threads[c].initTick else left);
    ScheduleWaits(wide, s.(now := s.now + 1, threads := s.threads[c := r]), t);
    FireWaits(wide, Sliced(wide, s), t);
  }

  lemma SuspendWaits(wide: bool, s: State, u: Tid, t: Tid)
    requires u in s.threads
    ensures NoNewWait(s, SuspendNow(wide, s, u), t) && NoNewWait(s, SuspendThread(wide, s, u), t)
  {
    hide RemoveThread, Without;
    RemoveWaits(wide, s, u, t);
  }

  lemma PriorityWaits(wide: bool, s: State, u: Tid, p: Prio, t: Tid)
    requires u in s.threads && Known(wide, p)
    ensures NoNewWait(s, ChangePriority(wide, s, u, p), t)
  {
    hide RemoveThread, InsertThread, AttrOf, Known;
    RemoveRest(wide, s, u);
    RemoveWaits(wide, s, u, t);
    InsertWaits(wide, SetPrio(wide, RemoveThread(wide, s, u), u, p), u, t);
  }

  lemma ExitWaits(wide: bool, s: State, isStatic: bool, t: Tid)
    requires s.current in s.threads
    ensures NoNewWait(s, ExitThread(wide, s, isStatic), t)
  {
    hide RemoveThread, Without;
    RemoveRest(wide, s, s.current);
    RemoveWaits(wide, s, s.current, t);
  }

  lemma BlockWaits(wide: bool, s: State, ipc: nat, byPrio: bool, timeout: int, t: Tid)
    requires s.current in s.threads && t != s.current
    ensures NoNewWait(s, Block(wide, s, ipc, byPrio, timeout), t)
  {
    hide SuspendThread, Arm, Position;
    var c: Tid := s.current;
    var s0 := s.(threads := s.threads[c := s.threads[c].(error := EOK)]);
    SuspendWaits(wide, s0, c, t);
    var s1 := SuspendThread(wide, s0, c);
    var q := Queue(s1.lists, WaitList(ipc));
    var n := Position(q, Priorities(s1.threads), s.threads[c].prio as int, byPrio);
    EnqueueMembers(q, n, c, q[..n] + [c] + q[n..]);
    ArmLists(s1.(lists := s1.lists[WaitList(ipc) := q[..n] + [c] + q[n..]]), c, timeout);
  }

  lemma ArmLists(s: State, t: Tid, ticks: int)
    ensures ticks >= 0 ==> Arm(s, t, ticks).lists == s.lists && Arm(s, t, ticks).threads == s.threads
  {
  }

  lemma StepWaits(wide: bool, s: State, step: Step, t: Tid)
    requires Inv(wide, s) && Enabled(wide, s, step) && (t == s.current ==> !step.BlockOn?)
    ensures NoNewWait(s, Do(wide, s, step), t)
  {
    hide Inv, Schedule, LaunchFirst, SuspendThread, ResumeThread, ChangePriority, ExitThread, Block, Ticked, Known;
    match step
    case Create(u, p, ticks) =>
    case Reschedule => ScheduleWaits(wide, s, t);
    case Launch => LaunchWaits(wide, s, t);
    case SuspendOne(u) => SuspendWaits(wide, s, u, t);
    case ResumeOne(u) => ResumeWaits(wide, s, u, t);
    case Prioritise(u, p) => PriorityWaits(wide, s, u, p, t);
    case Exit(isStatic) => ExitWaits(wide, s, isStatic, t);
    case BlockOn(ipc, byPrio, timeout) => BlockWaits(wide, s, ipc, byPrio, timeout, t);
    case WakeFirst(ipc) => FirstWaits(wide, s, ipc); ResumeWaits(wide, s, Queue(s.lists, WaitList(ipc))[0], t);
    case FailFirst(ipc) =>
      FirstWaits(wide, s, ipc);
      var u := Queue(s.lists, WaitList(ipc))[0];
      ResumeWaits(wide, SetError(s, u, ERROR), u, t);
    case StoreError(e) =>
    case GoToSleep(ticks) => SuspendWaits(wide, s, s.current, t); ArmLists(SuspendThread(wide, s, s.current),
        s.current, ticks);
    case EndSleep =>
    case EnterCritical =>
    case LeaveCritical =>
    case Tick => TickWaits(wide, s, t);
  }

  lemma LaunchWaits(wide: bool, s: State, t: Tid)
    ensures NoNewWait(s, LaunchFirst(wide, s), t)
  {
    hide RemoveThread, HighestThread;
    var to := HighestThread(wide, s);
    if to in s.threads {
      RemoveWaits(wide, s.(current := to), to, t);
      RemoveRest(wide, s.(current := to), to);
    }
  }

  /** A suspended thread outside every list with its timer off. */
  ghost predicate Idle(s: State, t: Tid) { t in s.threads && s.threads[t].stat == Suspend && Off(s, t) }

  lemma IdleFrom(wide: bool, s: State, r: State, t: Tid)
    requires Inv(wide, r) && Off(s, t) && NoNewWait(s, r, t) && t !in r.armed && t in r.threads
    requires r.threads[t].stat == Suspend
    ensures Idle(r, t)
  {
    hide Placed, BitsAgree, Timed, Masked;
    forall h ensures !Linked(r.lists, h, t) {
      assert Linked(r.lists, h, t) ==> Belongs(r.threads[t], h);
    }
  }

  /** Nothing touches an idle thread but what wakes it, and itself if it is still the running one. */
  lemma StepIdle(wide: bool, s: State, step: Step, t: Tid)
    requires Inv(wide, s) && Enabled(wide, s, step) && Idle(s, t) && step != ResumeOne(t)
    requires t == s.current ==> !step.GoToSleep? && !step.Exit?
    ensures Idle(Do(wide, s, step), t)
  {
    hide Inv, Do, Enabled, Linked, NoNewWait;
    StepOk(wide, s, step);
    EnabledParts(wide, s, step, t);
    StepStill(wide, s, step, t);
    StepWaits(wide, s, step, t);
    StepUnarmed(wide, s, step, t);
    NotWoken(wide, s, step, t);
    IdleFrom(wide, s, Do(wide, s, step), t);
  }

  lemma EnabledParts(wide: bool, s: State, step: Step, t: Tid)
    requires Enabled(wide, s, step) && t in s.threads && s.threads[t].stat == Suspend
    ensures t == s.current ==> !step.BlockOn?
  {
  }

  lemma StepUnarmed(wide: bool, s: State, step: Step, t: Tid)
    requires Inv(wide, s) && Enabled(wide, s, step) && t in s.threads && t !in s.armed
    requires t == s.current ==> !step.GoToSleep? && !step.BlockOn?
    ensures t !in Do(wide, s, step).armed
  {
    hide Inv, Enabled, Do;
    StepCalm(wide, s, step, t);
  }

  lemma NotWoken(wide: bool, s: State, step: Step, t: Tid)
    requires Inv(wide, s) && Off(s, t) && step != ResumeOne(t)
    ensures !Wakes(s, step, t)
  {
    hide Inv, Due;
    if step.WakeFirst? || step.FailFirst? {
      var q := Queue(s.lists, WaitList(step.ipc));
      assert q != [] ==> Linked(s.lists, WaitList(step.ipc), q[0]);
    }
  }
}

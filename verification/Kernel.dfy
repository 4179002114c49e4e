/** scheduler.c, thread.c and the tick of clock.c as an object that changes in place. Every method
    is one region with interrupts disabled, or a composition of such regions in program order. */
module Kernel {
  import opened ReadyBitmap
  import opened TimerOrder
  import opened WaitQueue
  import opened ThreadStates
  import opened ThreadSteps
  import opened ThreadRuns
  import opened ThreadRegions
  import opened ThreadEffects
  import Rotation = ThreadRotation

  /** The queues of the first `n` priorities are empty, and there are no other lists. */
  ghost predicate Emptied(lists: Lists, n: bv16) {
    && (forall p: Prio :: (p as bv16) < n ==> ReadyList(p) in lists)
    && (forall h :: h in lists ==> lists[h] == [])
  }

  lemma NoneEmptied()
    ensures Emptied(map[], 0)
  {
  }

  lemma EmptiedNext(lists: Lists, n: bv16)
    requires Emptied(lists, n) && n < 256
    ensures Emptied(lists[ReadyList(n as Prio) := []], n + 1)
  {
  }

  /** The first `n` entries of rt_thread_ready_table are zero. */
  ghost predicate Cleared(table: map<Index, bv8>, n: bv16) {
    forall i: bv8 :: (i as bv16) < n ==> At(i) in table && table[At(i)] == 0
  }

  lemma NoneCleared(table: map<Index, bv8>)
    ensures Cleared(table, 0)
  {
  }

  lemma ClearedNext(table: map<Index, bv8>, n: bv16)
    requires Cleared(table, n) && n < 32
    ensures Cleared(table[At(n as bv8) := 0], n + 1)
  {
  }

  method EmptyQueues(wide: bool) returns (lists: Lists)
    ensures Emptied(lists, if wide then 256 else 32)
  {
    hide Emptied;
    lists := map[];
    NoneEmptied();
    var levels: bv16 := if wide then 256 else 32;
    var offset: bv16 := 0;
    while offset < levels
      invariant offset <= levels && Emptied(lists, offset)
      decreases levels - offset
    {
      EmptiedNext(lists, offset);
      lists := lists[ReadyList(offset as Prio) := []];
      offset := offset + 1;
    }
    assert offset == levels;
  }

  method ClearTable(junk: map<Index, bv8>) returns (table: map<Index, bv8>)
    ensures Cleared(table, 32)
  {
    hide Cleared;
    table := junk;
    NoneCleared(junk);
    var offset: bv16 := 0;
    while offset < 32
      invariant offset <= 32 && Cleared(table, offset)
      decreases 32 - offset
    {
      ClearedNext(table, offset);
      table := table[At(offset as bv8) := 0];
      offset := offset + 1;
    }
    assert offset == 32;
  }

  lemma BootsUp(wide: bool, lists: Lists, table: map<Index, bv8>)
    requires Emptied(lists, if wide then 256 else 32) && (wide ==> Cleared(table, 32))
    ensures Booted(wide, State(map[], lists[Defunct := []], Bits(0, table), 0, 0, [], map[], 0, 0))
  {
    QueuesThere(wide, lists);
    if wide {
      TableClear(table);
    }
  }

  lemma QueuesThere(wide: bool, lists: Lists)
    requires Emptied(lists, if wide then 256 else 32)
    ensures HeadsKnown(wide, lists[Defunct := []])
  {
    forall p: Prio | Known(wide, p) ensures ReadyList(p) in lists {
      assert (p as bv16) < if wide then 256 else 32;
    }
  }

  lemma TableClear(table: map<Index, bv8>)
    requires Cleared(table, 32)
    ensures forall n: bv8 :: n < 32 ==> At(n) in table && table[At(n)] == 0
  {
    forall n: bv8 | n < 32 ensures At(n) in table && table[At(n)] == 0 {
      assert (n as bv16) < 32;
    }
  }

  class Kernel {
    const wide: bool              // RT_THREAD_PRIORITY_MAX > 32
    var threads: map<Tid, Thread>
    var lists: Lists              // rt_thread_priority_table, wait lists, rt_thread_defunct
    var bits: Bits
    var current: nat
    var nest: int
    var armed: seq<Tid>           // the thread timers of the timer list
    var keys: Keys
    var now: nat                  // rt_tick
    var stamp: nat

    ghost function S(): State
      reads this
    {
      State(threads, lists, bits, current, nest, armed, keys, now, stamp)
    }

    ghost predicate Valid()
      reads this
    {
      Inv(wide, S())
    }

    /** rt_system_scheduler_init: every queue is made empty and the bitmap cleared. `junk` is what the
        memory of rt_thread_ready_table holds before. */
    constructor (wide: bool, junk: map<Index, bv8>)
      ensures Valid() && Booted(wide, S()) && this.wide == wide && threads == map[] && nest == 0
    {
      this.wide := wide;
      threads, lists, bits := map[], map[], Bits(0, junk);
      current, nest, armed, keys, now, stamp := 0, 0, [], map[], 0, 0;
      new;
      hide Booted, Emptied, Cleared, Inv;
      lists := EmptyQueues(wide);
      if wide {
        var table := ClearTable(junk);
        bits := Bits(0, table);
      }
      BootsUp(wide, lists, bits.table);
      lists := lists[Defunct := []];
      BootOk(wide, S());
    }

    /** rt_thread_init, on an object that is no thread yet. */
    method InitThread(t: Tid, priority: Prio, ticks: nat)
      requires Valid() && t !in threads && Known(wide, priority)
      modifies `threads
      ensures Valid() && S() == AddThread(old(S()), t, priority, ticks)
      ensures threads == old(threads)[t := Thread(priority, priority, Attr(0, 0, 0), Init, EOK, ticks, ticks)]
      ensures Booted(wide, old(S())) ==> Booted(wide, S())
    {
      hide Inv;
      AddOk(wide, S(), t, priority, ticks);
      threads := threads[t := Thread(priority, priority, Attr(0, 0, 0), Init, EOK, ticks, ticks)];
    }

    /** rt_schedule_insert_thread. */
    method ScheduleInsert(t: Tid)
      requires t in threads && ReadyList(threads[t].prio) in lists
      modifies `threads, `lists, `bits
      ensures S() == InsertThread(wide, old(S()), t)
    {
      if t == current {
        threads := threads[t := threads[t].(stat := Running)];
        return;
      }
      threads := threads[t := threads[t].(stat := Ready)];
      var h := ReadyList(threads[t].prio);
      lists := lists[h := lists[h] + [t]];
      bits := Mark(wide, bits, threads[t].attr);
    }

    /** rt_schedule_remove_thread. */
    method ScheduleRemove(t: Tid)
      requires t in threads && ReadyList(threads[t].prio) in lists
      modifies `lists, `bits
      ensures S() == RemoveThread(wide, old(S()), t)
    {
      lists := Drop(lists, t);
      if lists[ReadyList(threads[t].prio)] == [] {
        bits := Unmark(wide, bits, threads[t].attr);
      }
    }

    lemma QueueIn(t: Tid)
      requires t in threads && Valid()
      ensures ReadyList(threads[t].prio) in lists && Known(wide, threads[t].prio)
    {
      hide Listed, Placed, Timed, BitsAgree, AttrOf;
    }

    /** The switch in rt_schedule. */
    method SwitchTo(to: Tid, insertFrom: bool)
      requires to in threads && current in threads && to != current
      requires ReadyList(threads[to].prio) in lists && ReadyList(threads[current].prio) in lists
      modifies `threads, `lists, `bits, `current
      ensures S() == Switch(wide, old(S()), to, insertFrom)
    {
      hide InsertThread, RemoveThread;
      var from := current;
      current := to;
      InsertRest(wide, S(), from);
      InsertLists(wide, S(), from);
      if insertFrom {
        ScheduleInsert(from);
      }
      RemoveRest(wide, S(), to);
      ScheduleRemove(to);
      threads := threads[to := threads[to].(stat := Running)];
    }

    /** The branch of rt_schedule in which the running thread goes on; it changes nothing. */
    method StaysRunning()
      requires Valid() && current in threads && threads[current].stat == Running
      modifies `threads, `lists, `bits
      ensures S() == old(S())
    {
      hide Inv, RemoveThread, Known;
      QueueIn(current);
      RemoveRest(wide, S(), current);
      RunningStays(wide, S());
      ScheduleRemove(current);
      threads := threads[current := threads[current].(stat := Running)];
    }

    /** rt_schedule: afterwards, unless scheduling is locked, no ready thread is more urgent than
        the running one, and every thread that could run before still can. */
    method Reschedule()
      requires Valid() && current in threads
      modifies `threads, `lists, `bits, `current
      ensures S() == Schedule(wide, old(S())) && Valid()
      ensures HighestRuns(S()) && SameBut(old(S()), S()) && SameRunnable(old(S()), S())
      ensures Schedules(old(S()), S())
    {
      hide Inv, Switch, Highest, HighestRuns, SameRunnable, SameBut, Known, NotAfter, Schedules;
      ScheduleDoes(wide, S());
      ScheduleOk(wide, S());
      ScheduleSame(wide, S());
      ScheduleHighest(wide, S());
      if nest == 0 {
        if bits.group != 0 {
          HighestReady(wide, S());
          var insertFrom := false;
          var highest := Highest(wide, bits);
          var to := lists[ReadyList(highest)][0];
          if threads[current].stat == Running {
            if threads[current].prio < highest {
              to := current;
            } else {
              insertFrom := true;
            }
          }
          if to != current {
            QueueIn(to);
            QueueIn(current);
            SwitchTo(to, insertFrom);
          } else {
            StaysRunning();
          }
        }
      }
    }

    /** The locked region of rt_thread_suspend, whose test may have been made earlier. */
    method SuspendRegion(t: Tid)
      requires Valid() && t in threads && threads[t].stat != Init
      modifies `threads, `lists, `bits, `armed
      ensures S() == SuspendNow(wide, old(S()), t) && Valid()
      ensures threads == old(threads)[t := old(threads)[t].(stat := ThreadStates.Suspend)]
      ensures Unlisted(old(lists), lists, t) && Gone(old(armed), armed, t)
    {
      hide Inv, RemoveThread, Without, Known, Unlisted, Gone;
      LeavesAll(wide, S(), t);
      RemoveDrops(wide, S(), t);
      SuspendNowOk(wide, S(), t);
      QueueIn(t);
      RemoveRest(wide, S(), t);
      ScheduleRemove(t);
      threads := threads[t := threads[t].(stat := ThreadStates.Suspend)];
      armed := Without(armed, t);
    }

    /** rt_thread_suspend with nothing between test and region: only a ready thread or the running
        one can be suspended. */
    method Suspend(t: Tid) returns (ok: bool)
      requires Valid() && t in threads
      modifies `threads, `lists, `bits, `armed
      ensures S() == SuspendThread(wide, old(S()), t) && Valid()
      ensures ok <==> old(threads[t].stat) == Ready || old(threads[t].stat) == Running
      ensures Suspends(old(S()), S(), t)
    {
      hide Inv, SuspendNow, Known, Suspends;
      SuspendDoes(wide, S(), t);
      SuspendOk(wide, S(), t);
      var stat := threads[t].stat;
      if stat != Ready && stat != Running {
        return false;
      }
      if stat == Running {
        // RT_ASSERT of thread.c, line 681
        assert t == current;
      }
      SuspendRegion(t);
      ok := true;
    }

    /** The first locked region of rt_thread_resume: right if and only if the thread is not ready. */
    method UnlinkRegion(t: Tid)
      requires Valid() && t in threads
      modifies `lists, `armed
      ensures S() == UnlinkThread(old(S()), t)
      ensures Valid() <==> threads[t].stat != Ready
      ensures Off(S(), t) && Unlisted(old(lists), lists, t) && Gone(old(armed), armed, t)
    {
      hide Inv, Drop, Without, Off, Unlisted, Gone;
      LeavesAll(wide, S(), t);
      UnlinkExact(wide, S(), t);
      lists := Drop(lists, t);
      armed := Without(armed, t);
    }

    /** The second locked region of rt_thread_resume: right if and only if the thread is in no list
        with its timer off. */
    method InsertRegion(t: Tid)
      requires Valid() && t in threads && threads[t].stat != Init
      modifies `threads, `lists, `bits
      ensures S() == InsertThread(wide, old(S()), t)
      ensures Valid() <==> Off(old(S()), t)
      ensures threads == old(threads)[t := old(threads)[t].(stat := if t == current then Running else Ready)]
      ensures var h := ReadyList(threads[t].prio);
        lists == if t == current then old(lists) else old(lists)[h := Queue(old(lists), h) + [t]]
    {
      hide Inv, InsertThread, Known, Off;
      InsertExact(wide, S(), t);
      InsertRest(wide, S(), t);
      if t != current {
        InsertLast(wide, S(), t);
      } else {
        InsertOwn(wide, S());
      }
      QueueIn(t);
      ScheduleInsert(t);
    }

    /** rt_thread_resume with nothing between its test and its regions. */
    method Resume(t: Tid) returns (ok: bool)
      requires Valid() && t in threads
      modifies `threads, `lists, `bits, `armed
      ensures S() == ResumeThread(wide, old(S()), t) && Valid()
      ensures ok <==> old(threads[t].stat) == ThreadStates.Suspend
      ensures ok ==> t !in armed && Runnable(threads, t)
      ensures Resumes(old(S()), S(), t, old(threads)[t].error)
    {
      hide Inv, InsertThread, UnlinkThread, Known, Resumes;
      ResumeDoes(wide, S(), t);
      ResumeOk(wide, S(), t);
      ResumeThreads(wide, S(), t);
      if threads[t].stat != ThreadStates.Suspend {
        return false;
      }
      UnlinkRest(S(), t);
      UnlinkRegion(t);
      InsertRegion(t);
      ok := true;
    }

    /** One round of rt_ipc_list_resume_all. */
    method FailRound(ipc: nat)
      requires Valid() && Queue(lists, WaitList(ipc)) != []
      modifies `threads, `lists, `bits, `armed
      ensures Valid() && threads.Keys == old(threads).Keys
      ensures Queue(lists, WaitList(ipc)) == old(Queue(lists, WaitList(ipc)))[1..]
      ensures forall u :: u in armed ==> u in old(armed)
      ensures var t := old(Queue(lists, WaitList(ipc)))[0];
        && t in threads && Runnable(threads, t) && threads[t].error == ERROR && t !in armed
        && t !in old(Queue(lists, WaitList(ipc)))[1..]
        && (forall u :: u in threads && u != t ==> threads[u] == old(threads)[u])
    {
      hide Inv, ResumeThread, Known;
      var t := lists[WaitList(ipc)][0];
      FirstWaits(wide, S(), ipc);
      FailQueue(wide, S(), ipc);
      ErrorOk(wide, S(), t, ERROR);
      ResumeThreads(wide, SetError(S(), t, ERROR), t);
      threads := threads[t := threads[t].(error := ERROR)];
      var ok := Resume(t);
    }

    /** rt_ipc_list_resume_all: one region for every thread that waits. Exactly these threads wake up,
        with the error -RT_ERROR. */
    method ResumeAll(ipc: nat)
      requires Valid()
      modifies `threads, `lists, `bits, `armed
      ensures Valid() && Queue(lists, WaitList(ipc)) == [] && threads.Keys == old(threads).Keys
      ensures forall t :: t in old(Queue(lists, WaitList(ipc))) ==>
                t in threads && Runnable(threads, t) && threads[t].error == ERROR && t !in armed
      ensures forall t :: t in old(threads) && t !in old(Queue(lists, WaitList(ipc))) ==>
                threads[t] == old(threads)[t]
    {
      hide Inv, ResumeThread, Known;
      ghost var q := Queue(lists, WaitList(ipc));
      ghost var n := 0;
      while Queue(lists, WaitList(ipc)) != []
        invariant Valid() && threads.Keys == old(threads).Keys
        invariant n <= |q| && Queue(lists, WaitList(ipc)) == q[n..]
        invariant forall i :: 0 <= i < n ==> q[i] in threads && Runnable(threads, q[i]) && threads[q[i]].error == ERROR
        invariant forall i :: 0 <= i < n ==> q[i] !in armed
        invariant forall t :: t in old(threads) && t !in q ==> threads[t] == old(threads)[t]
        decreases |q| - n
      {
        assert q[n..][0] == q[n] && q[n..][1..] == q[n + 1..];
        FailRound(ipc);
        n := n + 1;
      }
    }

    /** rt_thread_startup before its rt_thread_resume. */
    method Prepare(t: Tid)
      requires Valid() && t in threads && threads[t].stat == Init
      modifies `threads
      ensures Known(wide, old(threads[t].initPrio)) && S() == PrepareThread(wide, old(S()), t) && Valid()
      ensures var r := old(threads[t]); threads == old(threads)[t :=
        r.(prio := r.initPrio, attr := AttrOf(wide, r.initPrio), stat := ThreadStates.Suspend)]
    {
      hide Inv, AttrOf, Known;
      PrepareOk(wide, S(), t);
      var r := threads[t];
      threads := threads[t := r.(prio := r.initPrio, attr := AttrOf(wide, r.initPrio), stat := ThreadStates.Suspend)];
    }

    /** rt_thread_startup with nothing between its resume's test and regions. */
    method Startup(t: Tid)
      requires Valid() && t in threads && threads[t].stat == Init
      modifies `threads, `lists, `bits, `armed, `current
      ensures Valid()
      ensures Known(wide, old(threads[t].initPrio)) && t in threads && threads[t].prio == old(threads[t].initPrio)
      ensures Runnable(threads, t)
      ensures var s1 := StartThread(wide, old(S()), t); S() == if old(current) == 0 then s1 else Schedule(wide, s1)
    {
      hide Inv, ResumeThread, PrepareThread, Known, Schedule, HighestRuns;
      StartOk(wide, S(), t);
      StartRuns(wide, S(), t);
      Prepare(t);
      var ok := Resume(t);
      if current != 0 {
        CurrentKnown(wide, S());
        ghost var s1 := S();
        Reschedule();
        assert SameBut(s1, S()) && SameRunnable(s1, S());
      }
    }

    /** The locked region of rt_thread_exit, and its rt_schedule. */
    method Exit(isStatic: bool)
      requires Valid() && current in threads
      modifies `threads, `lists, `bits, `armed, `current
      ensures Valid() && current in threads && HighestRuns(S())
      ensures var t := old(current); t in threads && threads[t].stat == Close && t !in armed
      ensures S() == Schedule(wide, ExitThread(wide, old(S()), isStatic))
      ensures exists m: State :: Exits(old(S()), m, isStatic) && m.current in m.threads && Schedules(m, S())
    {
      hide Inv, RemoveThread, Without, Drop, Schedule, HighestRuns, Known, Exits, Schedules;
      var t: Tid := current;
      ExitDoes(wide, S(), isStatic);
      ExitOk(wide, S(), isStatic);
      QueueIn(t);
      RemoveRest(wide, S(), t);
      ScheduleRemove(t);
      threads := threads[t := threads[t].(stat := Close)];
      armed := Without(armed, t);
      if !isStatic {
        var defunct := if Defunct in lists then lists[Defunct] else [];
        lists := lists[Defunct := [t] + defunct];
      }
      assert S() == ExitThread(wide, old(S()), isStatic);
      ExitDisarms(wide, old(S()), isStatic);
      ScheduleSame(wide, S());
      Reschedule();
    }

    /** rt_thread_control, RT_THREAD_CTRL_CHANGE_PRIORITY. */
    method SetPriority(t: Tid, p: Prio)
      requires Valid() && t in threads && Known(wide, p)
      modifies `threads, `lists, `bits
      ensures S() == ChangePriority(wide, old(S()), t, p) && Valid()
      ensures Prioritises(wide, old(S()), S(), t, p) && t in threads
      ensures threads[t].prio == p && threads[t].stat == old(threads[t].stat)
    {
      hide Inv, RemoveThread, InsertThread, AttrOf, Known, Moved;
      PriorityDoes(wide, S(), t, p);
      ChangePriorityOk(wide, S(), t, p);
      if current in threads {
        ReadyNotCurrent(wide, S());
      }
      var r := threads[t].(prio := p, attr := AttrOf(wide, p));
      if threads[t].stat == Ready {
        QueueIn(t);
        KnownQueue(wide, S(), p);
        RemoveRest(wide, S(), t);
        RemoveKeys(wide, S(), t);
        ScheduleRemove(t);
        threads := threads[t := r];
        InsertRest(wide, S(), t);
        ScheduleInsert(t);
      } else {
        threads := threads[t := r];
      }
    }

    /** rt_ipc_list_suspend, and the timer of a bounded wait, on the current thread. */
    method WaitOn(ipc: nat, byPrio: bool, timeout: int)
      requires Valid() && current in threads && threads[current].stat == Running
      modifies `threads, `lists, `bits, `armed, `keys, `stamp
      ensures S() == Block(wide, old(S()), ipc, byPrio, timeout) && Valid()
      ensures current in threads && threads[current].stat == ThreadStates.Suspend
      ensures timeout <= 0 ==> current !in armed
      ensures timeout > 0 ==> current in armed && current in keys && keys[current].deadline == now + timeout
      ensures Blocks(old(S()), S(), ipc, byPrio, timeout)
    {
      hide Inv, SuspendThread, Enqueue, Without, Due, Priorities, Blocks;
      BlockDoes(wide, S(), ipc, byPrio, timeout);
      if timeout > 0 {
        BlocksTimer(S(), Block(wide, S(), ipc, byPrio, timeout), ipc, byPrio, timeout);
      }
      BlockOk(wide, S(), ipc, byPrio, timeout);
      var t: Tid := current;
      ErrorOk(wide, S(), t, EOK);
      threads := threads[t := threads[t].(error := EOK)];
      SuspendUnlisted(wide, S(), t);
      SuspendOk(wide, S(), t);
      var ok := Suspend(t);
      QueueThreads(wide, S(), WaitList(ipc));
      Enlist(t, WaitList(ipc), byPrio);
      if timeout > 0 {
        StartTimer(t, timeout);
      }
    }

    /** rt_ipc_list_suspend on a thread that is in no list. */
    method Enlist(t: Tid, h: Head, byPrio: bool)
      requires t in threads && forall i :: 0 <= i < |Queue(lists, h)| ==> Queue(lists, h)[i] in threads
      modifies `lists
      ensures var q := Enqueue(Queue(old(lists), h), Priorities(threads), t, threads[t].prio as int, byPrio);
        S() == old(S()).(lists := old(lists)[h := q])
    {
      hide Ahead;
      var q := Queue(lists, h);
      var n := Search(q, Priorities(threads), threads[t].prio as int, byPrio);
      lists := lists[h := q[..n] + [t] + q[n..]];
    }

    /** rt_timer_start on a thread timer. */
    method StartTimer(t: Tid, ticks: nat)
      modifies `armed, `keys, `stamp
      ensures S() == Arm(old(S()), t, ticks)
    {
      hide Insert, Without;
      armed := Insert(Without(armed, t), keys, now + ticks, t);
      keys := keys[t := Key(now + ticks, stamp)];
      stamp := stamp + 1;
    }

    /** rt_thread_sleep up to its return from rt_schedule. */
    method Sleep(ticks: nat)
      requires Valid() && current in threads && threads[current].stat != Close
      modifies `threads, `lists, `bits, `current, `armed, `keys, `stamp
      ensures Valid() && HighestRuns(S())
      ensures var t := old(current); t in threads && threads[t].stat == ThreadStates.Suspend
      ensures var t := old(current); t in armed && t in keys && keys[t].deadline == old(now) + ticks
      ensures S() == Schedule(wide, ThreadSteps.Sleep(wide, old(S()), ticks))
      ensures exists m: State :: Sleeps(old(S()), m, ticks) && m.current in m.threads && Schedules(m, S())
    {
      hide Inv, SuspendThread, Without, Due, Insert, Schedule, HighestRuns, Sleeps, Schedules, Suspends;
      var t: Tid := current;
      SleepDoes(wide, S(), ticks);
      SleepOk(wide, S(), ticks);
      SleepArms(wide, S(), ticks);
      var ok := Suspend(t);
      StartTimer(t, ticks);
      Reschedule();
    }

    /** The end of rt_thread_sleep, when the thread runs again: the timeout is no error. */
    method SleepEnd()
      requires Valid() && current in threads
      modifies `threads
      ensures S() == Awake(old(S())) && Valid() && current in threads
      ensures threads[current].error == if old(threads[current].error) == ETIMEOUT then EOK
                                        else old(threads[current].error)
    {
      hide Inv;
      ErrorOk(wide, S(), current, EOK);
      if threads[current].error == ETIMEOUT {
        threads := threads[current := threads[current].(error := EOK)];
      }
    }

    /** rt_thread_timeout. */
    method Timeout(t: Tid)
      requires Valid() && current in threads && t in threads && t !in armed
      requires threads[t].stat == ThreadStates.Suspend
      modifies `threads, `lists, `bits, `current
      ensures S() == TimeoutThread(wide, old(S()), t) && Valid() && current in threads
      ensures TimesOut(old(S()), S(), t)
    {
      hide Inv, InsertThread, Drop, Schedule, Known, HighestRuns, SameRunnable, SameBut, TimesOut, Schedules;
      TimeoutDoes(wide, S(), t);
      TimeoutMiddle(wide, S(), t);
      QueueIn(t);
      DropKeys(lists, t);
      threads := threads[t := threads[t].(error := ETIMEOUT)];
      lists := Drop(lists, t);
      InsertRest(wide, S(), t);
      ScheduleInsert(t);
      SameCurrent(wide, S());
      Reschedule();
    }

    /** rt_timer_check on the thread timers. */
    method CheckTimers()
      requires Valid() && current in threads
      modifies `threads, `lists, `bits, `current, `armed
      ensures Valid() && current in threads && S() == FireDue(wide, old(S()))
    {
      hide Inv, TimeoutThread, SameBut;
      ghost var s1 := S();
      FirstKeyed(wide, S());
      while armed != [] && keys[armed[0]].deadline <= now
        invariant Valid() && current in threads && FireDue(wide, S()) == FireDue(wide, s1)
        invariant armed != [] ==> armed[0] in keys
        decreases |armed|
      {
        FireStep(wide, S());
        ghost var s2 := S();
        var due := armed[0];
        armed := armed[1..];
        Timeout(due);
        FirstKeyed(wide, S());
      }
    }

    /** The time slice in rt_tick_increase. */
    method Slice()
      requires Valid() && current in threads
      modifies `threads, `lists, `bits, `current, `now
      ensures S() == Sliced(wide, old(S())) && Valid() && current in threads
      ensures Slices(old(S()), S())
      ensures forall p: Prio :: Rotation.TakingTurns(wide, old(S()), p) ==>
        NextRuns(old(S()), S(), p, Rotation.SliceLength(old(threads[current])))
    {
      hide Inv, Schedule, HighestRuns, SameRunnable, SameBut, Counted, SliceUp, Slices, Schedules, NextRuns,
        Rotation.TakingTurns, Rotation.SliceLength;
      SliceDoes(wide, S());
      SliceNext(wide, S());
      SlicedOk(wide, S());
      CountedOk(wide, S());
      var up := CountDown();
      if up {
        SameCurrent(wide, S());
        Reschedule();
      }
    }

    /** One tick less for the running thread, and a new slice when none are left. */
    method CountDown() returns (up: bool)
      requires current in threads
      modifies `threads, `now
      ensures S() == Counted(old(S())) && up == SliceUp(old(S()))
      ensures current in threads
    {
      var t: Tid := current;
      now := now + 1;
      var left := (threads[t].remaining - 1) % TICKS;
      threads := threads[t := threads[t].(remaining := left)];
      if left == 0 {
        threads := threads[t := threads[t].(remaining := threads[t].initTick)];
      }
      up := left == 0;
    }

    /** rt_tick_increase: the tick, the time slice, the timers. A tick wakes exactly the threads
        whose waits have run out. */
    method TickIncrease()
      requires Valid() && current in threads
      modifies `threads, `lists, `bits, `current, `armed, `now
      ensures S() == Ticked(wide, old(S())) && Valid()
      ensures current in threads && now == old(now) + 1
      ensures var n := Due(old(armed), keys, now); armed == old(armed)[n..] && Woken(old(S()), S(), old(armed)[..n])
      ensures forall t :: t in armed ==> t in keys && keys[t].deadline > now
      ensures TicksOn(old(S()), S()) && (HighestRuns(old(S())) ==> HighestRuns(S()))
    {
      hide Inv, Sliced, FireDue, Woken, TicksOn, Slices, HighestRuns, NextRuns, Rotation.TakingTurns;
      TickDoes(wide, S());
      if HighestRuns(S()) { TickHighest(wide, S()); }
      TickedExact(wide, S());
      Slice();
      CheckTimers();
    }

    method EnterCritical()
      modifies `nest
      ensures S() == old(S()).(nest := Short(old(nest) + 1)) && (old(Valid()) ==> Valid())
    {
      if Inv(wide, S()) { NestOk(wide, S(), Short(nest + 1)); }
      nest := Short(nest + 1);
    }

    /** rt_exit_critical; leaving the outermost section schedules. */
    method ExitCritical()
      requires Valid()
      modifies `nest, `threads, `lists, `bits, `current
      ensures Valid() && nest == Left(old(nest))
      ensures nest == 0 && old(current) != 0 ==> HighestRuns(S())
      ensures Left(old(nest)) == 0 && old(current) != 0 ==>
        old(current) in old(threads) && S() == Schedule(wide, old(S()).(nest := 0))
      ensures Left(old(nest)) != 0 || old(current) == 0 ==> S() == old(S()).(nest := Left(old(nest)))
    {
      hide Inv, Schedule, HighestRuns, SameRunnable;
      NestOk(wide, S(), Left(nest));
      nest := Short(nest - 1);
      if nest <= 0 {
        nest := 0;
        if current != 0 {
          CurrentKnown(wide, S());
          ScheduleSame(wide, S());
          Reschedule();
        }
      }
    }
  }

  lemma InsertOwn(wide: bool, s: State)
    requires s.current in s.threads
    ensures InsertThread(wide, s, s.current).lists == s.lists
  {
  }

  lemma LeavesAll(wide: bool, s: State, t: Tid)
    requires Inv(wide, s)
    ensures Unlisted(s.lists, Drop(s.lists, t), t) && Gone(s.armed, Without(s.armed, t), t)
  {
    hide Core, Drop, Unlisted, Gone;
    InvCore(wide, s);
    DropUnlisted(s.threads, s.lists, t, 0) by { CoreParts(wide, s); }
    DisarmGone(wide, s, 0, t);
  }

  lemma CoreParts(wide: bool, s: State)
    requires Core(wide, s, 0)
    ensures Listed(s.threads, s.lists, 0)
  {
  }

  lemma InsertLists(wide: bool, s: State, t: Tid)
    requires t in s.threads
    ensures forall h :: h in s.lists ==> h in InsertThread(wide, s, t).lists
  {
  }

  lemma RemoveKeys(wide: bool, s: State, t: Tid)
    requires t in s.threads
    ensures RemoveThread(wide, s, t).lists.Keys == s.lists.Keys
  {
  }

  lemma DropKeys(l: Lists, t: Tid)
    ensures Drop(l, t).Keys == l.Keys
  {
  }

  lemma CurrentKnown(wide: bool, s: State)
    requires Inv(wide, s) && s.current != 0
    ensures s.current in s.threads
  {
  }

  lemma ReadyNotCurrent(wide: bool, s: State)
    requires Inv(wide, s) && s.current in s.threads
    ensures s.current in s.threads && s.threads[s.current].stat != Ready
  {
  }

  lemma KnownQueue(wide: bool, s: State, p: Prio)
    requires Inv(wide, s) && Known(wide, p)
    ensures ReadyList(p) in s.lists
  {
    hide Known;
  }

  lemma StartRuns(wide: bool, s: State, t: Tid)
    requires t in s.threads && Known(wide, s.threads[t].initPrio)
    ensures var r := StartThread(wide, s, t);
      Runnable(r.threads, t) && r.threads[t].prio == s.threads[t].initPrio && r.current == s.current
  {
    hide Drop, Without, AttrOf;
  }

  lemma ExitDisarms(wide: bool, s: State, isStatic: bool)
    requires Inv(wide, s) && s.current in s.threads
    ensures s.current !in ExitThread(wide, s, isStatic).armed
  {
    hide Listed, Placed, BitsAgree, Masked, RemoveThread, Without;
    RemoveRest(wide, s, s.current);
    DisarmTimed(s.threads, s.armed, s.keys, s.stamp, 0, s.current);
  }

  /** A round of rt_ipc_list_resume_all takes the first thread off the list, and arms no timer. */
  lemma FailQueue(wide: bool, s: State, ipc: nat)
    requires Inv(wide, s) && Queue(s.lists, WaitList(ipc)) != []
    ensures var q := Queue(s.lists, WaitList(ipc)); var t := q[0];
      && t in s.threads && s.threads[t].stat == Suspend && (forall i :: 0 < i < |q| ==> q[i] != t)
      && var r := ResumeThread(wide, SetError(s, t, ERROR), t);
        Queue(r.lists, WaitList(ipc)) == q[1..] && (forall u :: u in r.armed ==> u in s.armed)
  {
    hide Placed, BitsAgree, Timed, Masked, Mark;
    FirstWaits(wide, s, ipc);
    var h := WaitList(ipc);
    var t := s.lists[h][0];
    WithoutAt(s.lists[h], 0);
    forall u | u in Without(s.armed, t) ensures u in s.armed {
      WithoutIn(s.armed, t, u);
    }
  }

  /** Every waiting thread exists. */
  lemma QueueThreads(wide: bool, s: State, h: Head)
    requires Inv(wide, s)
    ensures forall i :: 0 <= i < |Queue(s.lists, h)| ==> Queue(s.lists, h)[i] in s.threads
  {
    hide Placed, Timed, BitsAgree, Masked;
    forall i | 0 <= i < |Queue(s.lists, h)| ensures Queue(s.lists, h)[i] in s.threads {
      assert Linked(s.lists, h, Queue(s.lists, h)[i]);
    }
  }

  lemma TimeoutMiddle(wide: bool, s: State, t: Tid)
    requires Inv(wide, s) && s.current in s.threads && t in s.threads && s.threads[t].stat == Suspend && t !in s.armed
    ensures Inv(wide, InsertThread(wide, Unlist(s.(threads := s.threads[t := s.threads[t].(error := ETIMEOUT)]), t), t))
    ensures Inv(wide, TimeoutThread(wide, s, t)) && SameBut(s, TimeoutThread(wide, s, t))
  {
    hide Listed, Placed, Timed, BitsAgree, Masked, InsertThread, Unlist, Schedule, Woken;
    var s1 := s.(threads := s.threads[t := s.threads[t].(error := ETIMEOUT)]);
    TimeoutOk(wide, s, t);
    ErrorOk(wide, s, t, ETIMEOUT);
    UnlistOk(wide, s1, t);
    UnlistRest(s1, t);
    InsertOk(wide, Unlist(s1, t), t);
    InsertRest(wide, Unlist(s1, t), t);
  }

  lemma SameCurrent(wide: bool, s: State)
    requires Inv(wide, s)
    ensures s.current != 0 ==> s.current in s.threads
    ensures s.current in s.threads ==> Schedule(wide, s).current in Schedule(wide, s).threads
  {
    hide Inv, Schedule;
    if s.current in s.threads {
      ScheduleSame(wide, s);
    }
    if s.current != 0 {
      CurrentKnown(wide, s);
    }
  }

  /** Removing the running thread from its queue, in which it is not, changes nothing. */
  lemma RunningStays(wide: bool, s: State)
    requires Inv(wide, s) && s.current in s.threads && s.threads[s.current].stat == Running
    ensures RemoveThread(wide, s, s.current) == s
  {
    hide Timed, Placed, AttrOf, Unmark, Has, Whole, Known;
    var t: Tid := s.current;
    FromUnlisted(wide, s, t);
    DropNothing(s.lists, t);
    if Queue(s.lists, ReadyList(s.threads[t].prio)) == [] {
      UnmarkSame(wide, s.bits, s.threads[t].prio);
    }
  }

  lemma DropNothing(l: Lists, t: Tid)
    requires forall h :: !Linked(l, h, t)
    ensures Drop(l, t) == l
  {
    hide Without;
    forall h | h in l ensures Without(l[h], t) == l[h] {
      assert !Linked(l, h, t);
    }
  }

  lemma FirstKeyed(wide: bool, s: State)
    requires Inv(wide, s)
    ensures s.armed != [] ==> s.armed[0] in s.keys
  {
    hide Listed, Placed, BitsAgree, Masked;
  }

  /** One round of the timer check. */
  lemma FireStep(wide: bool, s: State)
    requires Inv(wide, s) && s.current in s.threads && s.armed != []
    requires s.armed[0] in s.keys && s.keys[s.armed[0]].deadline <= s.now
    ensures s.armed[0] in s.threads && s.threads[s.armed[0]].stat == Suspend && s.armed[0] !in s.armed[1..]
    ensures Inv(wide, s.(armed := s.armed[1..]))
    ensures var r := TimeoutThread(wide, s.(armed := s.armed[1..]), s.armed[0]);
      Inv(wide, r) && r.current in r.threads && |r.armed| < |s.armed| && FireDue(wide, r) == FireDue(wide, s)
  {
    hide Inv, TimeoutThread, Woken;
    DueThread(wide, s);
    UnlinkFirst(wide, s);
  }

  /** Equally urgent threads of priority `p` are ready: with one tick left the first of them runs and the
      current one goes to the back with a full slice; with more it has one tick less and nothing moves. */
  ghost predicate NextRuns(s: State, r: State, p: Prio, left: nat)
    requires left > 0
  {
    s.current in s.threads && var c := s.current; var q := Queue(s.lists, ReadyList(p));
    q != [] && c in r.threads &&
    if left == 1 then
      && r.current == q[0] && r.lists == s.lists[ReadyList(p) := q[1..] + [c]]
      && r.threads[c] == s.threads[c].(stat := Ready, remaining := s.threads[c].initTick)
    else
      r.current == c && r.lists == s.lists && r.threads == s.threads[c := s.threads[c].(remaining := left - 1)]
  }

  lemma SliceNext(wide: bool, s: State)
    requires Inv(wide, s) && s.current in s.threads
    ensures forall p: Prio :: Rotation.TakingTurns(wide, s, p) ==>
      NextRuns(s, Sliced(wide, s), p, Rotation.SliceLength(s.threads[s.current]))
  {
    hide Inv, Sliced, Rotation.TakingTurns, Rotation.SliceLength;
    forall p: Prio | Rotation.TakingTurns(wide, s, p)
      ensures NextRuns(s, Sliced(wide, s), p, Rotation.SliceLength(s.threads[s.current]))
    {
      if Rotation.SliceLength(s.threads[s.current]) == 1 {
        Rotation.SliceTurns(wide, s, p);
      } else {
        Rotation.SliceGoesOn(wide, s);
        Rotation.YieldNext(wide, s, p);
      }
    }
  }

  lemma BlocksTimer(s: State, r: State, ipc: nat, byPrio: bool, timeout: int)
    requires s.current in s.threads && Blocks(s, r, ipc, byPrio, timeout) && timeout > 0
    ensures r.current in r.armed && r.current in r.keys && r.keys[r.current].deadline == r.now + timeout
  {
    hide WaitsOn;
    TimerOnSelf(s, r, s.current, timeout);
  }
}

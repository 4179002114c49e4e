/** What the steps of the scheduler do to the threads, the lists and the timers, in terms of the
    state before. The bitmap is left to the invariant, which it determines. */
module ThreadEffects {
  import opened ReadyBitmap
  import opened TimerOrder
  import opened WaitQueue
  import opened ThreadStates
  import opened ThreadSteps
  import opened ThreadRuns

  /** `t` has left the sequence if it stood in it. */
  ghost predicate Gone(a: seq<Tid>, b: seq<Tid>, t: Tid) { if t in a then Parted(a, b, t) else b == a }

  /** `t` has left every list it was in. */
  ghost predicate Unlisted(l: Lists, m: Lists, t: Tid) {
    m.Keys == l.Keys && forall h :: h in l ==> Gone(l[h], m[h], t)
  }

  /** `t` has left every list it was in and stands at the end of `h`. */
  ghost predicate Moved(l: Lists, m: Lists, t: Tid, h: Head) {
    exists k: Lists :: Unlisted(l, k, t) && m == k[h := Queue(k, h) + [t]]
  }

  /** The timer of `t` is due in `ticks`, behind every active timer due no later. */
  ghost predicate TimerOn(s: State, r: State, t: Tid, ticks: nat) {
    && r.keys == s.keys[t := Key(s.now + ticks, s.stamp)] && r.stamp == s.stamp + 1
    && DueAtPlace(s, r.armed, t, s.now + ticks)
  }

  ghost predicate DueAtPlace(s: State, b: seq<Tid>, t: Tid, d: nat) {
    exists a: seq<Tid>, n: nat :: Gone(s.armed, a, t) && InsertedAt(s, a, b, t, d, n)
  }

  ghost predicate InsertedAt(s: State, a: seq<Tid>, b: seq<Tid>, t: Tid, d: nat, n: nat) {
    && n <= |a| && b == a[..n] + [t] + a[n..]
    && (forall i :: 0 <= i < n ==> a[i] in s.keys && s.keys[a[i]].deadline <= d)
    && (forall i :: n <= i < |a| ==> a[i] in s.keys && s.keys[a[i]].deadline > d)
  }

  /** rt_thread_suspend: only a ready or running thread is suspended. */
  ghost predicate Suspends(s: State, r: State, t: Tid) {
    if Runnable(s.threads, t) then
      && Unlisted(s.lists, r.lists, t) && Gone(s.armed, r.armed, t)
      && r == s.(threads := s.threads[t := s.threads[t].(stat := Suspend)], lists := r.lists, bits := r.bits,
                 armed := r.armed)
    else r == s
  }

  /** rt_thread_resume with the error code `error`: only a suspended thread is resumed. */
  ghost predicate Resumes(s: State, r: State, t: Tid, error: int) {
    if t in s.threads && s.threads[t].stat == Suspend then
      && Gone(s.armed, r.armed, t)
      && (if t == s.current then Unlisted(s.lists, r.lists, t)
          else Moved(s.lists, r.lists, t, ReadyList(s.threads[t].prio)))
      && r == s.(threads := s.threads[t := s.threads[t].(error := error,
                                                         stat := if t == s.current then Running else Ready)],
                 lists := r.lists, bits := r.bits, armed := r.armed)
    else r == s
  }

  /** A blocking take, send or receive of the running thread. */
  ghost predicate Blocks(s: State, r: State, ipc: nat, byPrio: bool, timeout: int)
    requires s.current in s.threads
  {
    var c: Tid := s.current;
    && WaitsOn(s, r, c, WaitList(ipc), byPrio)
    && (if timeout > 0 then TimerOn(s, r, c, timeout)
        else r.armed == s.armed && r.keys == s.keys && r.stamp == s.stamp)
    && r == s.(threads := s.threads[c := s.threads[c].(error := EOK, stat := Suspend)], lists := r.lists,
               bits := r.bits, armed := r.armed, keys := r.keys, stamp := r.stamp)
  }

  /** `c` has joined the wait list `h`, by its priority or at the end. */
  ghost predicate WaitsOn(s: State, r: State, c: Tid, h: Head, byPrio: bool)
    requires c in s.threads
  {
    && h in r.lists && r.lists == s.lists[h := r.lists[h]]
    && exists prios: Prios :: Current(prios, s.threads)
         && Joined(Queue(s.lists, h), r.lists[h], prios, c, s.threads[c].prio as int, byPrio)
  }

  /** `prios` are the current priorities of the threads. */
  ghost predicate Current(prios: Prios, threads: map<Tid, Thread>) {
    prios.Keys == threads.Keys && forall t: Tid :: t in threads ==> prios[t] == threads[t].prio as int
  }

  ghost predicate Sleeps(s: State, r: State, ticks: nat)
    requires s.current in s.threads
  {
    var c: Tid := s.current;
    && TimerOn(s, r, c, ticks)
    && r == s.(threads := s.threads[c := s.threads[c].(stat := Suspend)], bits := r.bits, armed := r.armed,
               keys := r.keys, stamp := r.stamp)
  }

  /** rt_thread_exit: the thread is closed and, unless static, first on the defunct list. */
  ghost predicate Exits(s: State, r: State, isStatic: bool)
    requires s.current in s.threads
  {
    var c: Tid := s.current;
    && Gone(s.armed, r.armed, c)
    && (exists k: Lists :: Unlisted(s.lists, k, c) && Defunct in k
          && r.lists == if isStatic then k else k[Defunct := [c] + k[Defunct]])
    && r == s.(threads := s.threads[c := s.threads[c].(stat := Close)], lists := r.lists, bits := r.bits,
               armed := r.armed)
  }

  ghost predicate Prioritises(wide: bool, s: State, r: State, t: Tid, p: Prio)
    requires t in s.threads && Known(wide, p)
  {
    && (if s.threads[t].stat == Ready then Moved(s.lists, r.lists, t, ReadyList(p)) else r.lists == s.lists)
    && r == s.(threads := s.threads[t := s.threads[t].(prio := p, attr := AttrOf(wide, p))], lists := r.lists,
               bits := r.bits)
  }

  /** `t` stands first in the queue of its priority and no ready thread is more urgent. */
  ghost predicate MostUrgent(s: State, t: Tid) {
    && t in s.threads && s.threads[t].stat == Ready
    && Queue(s.lists, ReadyList(s.threads[t].prio)) != [] && Queue(s.lists, ReadyList(s.threads[t].prio))[0] == t
    && forall u: Tid :: u in s.threads && s.threads[u].stat == Ready ==> NotAfter(s.threads[t].prio, s.threads[u].prio)
  }

  /** The current thread runs and is more urgent than any ready one. */
  ghost predicate StaysAhead(s: State)
    requires s.current in s.threads
  {
    s.threads[s.current].stat == Running &&
    forall u: Tid :: u in s.threads && s.threads[u].stat == Ready ==>
      !NotAfter(s.threads[u].prio, s.threads[s.current].prio)
  }

  /** rt_schedule: nothing happens while scheduling is locked, while no thread is ready, or while the
      running thread is ahead of all ready ones. Otherwise the first of the most urgent ones runs, and
      the thread that ran goes to the end of its queue. */
  ghost predicate Schedules(s: State, r: State)
    requires s.current in s.threads
  {
    if s.nest != 0 || (forall u: Tid :: u in s.threads ==> s.threads[u].stat != Ready) || StaysAhead(s) then r == s
    else r.current > 0 && MostUrgent(s, r.current) && SwitchesTo(s, r, r.current)
  }

  ghost predicate SwitchesTo(s: State, r: State, to: Tid)
    requires s.current in s.threads && to in s.threads
  {
    var c: Tid := s.current;
    var running := s.threads[c].stat == Running;
    var h := ReadyList(s.threads[c].prio);
    && r == s.(current := to, lists := r.lists, bits := r.bits,
               threads := (if running then s.threads[c := s.threads[c].(stat := Ready)] else s.threads)
                          [to := s.threads[to].(stat := Running)])
    && Unlisted(if running then s.lists[h := Queue(s.lists, h) + [c]] else s.lists, r.lists, to)
  }

  /** rt_system_scheduler_start. */
  ghost predicate Launches(s: State, r: State) {
    && r.current > 0 && MostUrgent(s, r.current) && Unlisted(s.lists, r.lists, r.current)
    && r == s.(current := r.current, lists := r.lists, bits := r.bits,
               threads := s.threads[r.current := s.threads[r.current].(stat := Running)])
  }

  /** rt_thread_timeout: the thread is resumed with -RT_ETIMEOUT, and rt_schedule follows. */
  ghost predicate TimesOut(s: State, r: State, t: Tid)
    requires s.current in s.threads
  {
    exists m: State :: Resumes(s, m, t, ETIMEOUT) && m.current in m.threads && Schedules(m, r)
  }

  /** The time slice of rt_tick_increase: the running thread has one tick less; with none left it gets
      a new slice, and rt_schedule follows. */
  ghost predicate Slices(s: State, r: State)
    requires s.current in s.threads
  {
    var c: Tid := s.current;
    var left := (s.threads[c].remaining - 1) % 0x1_0000_0000;
    if left == 0 then
      Schedules(s.(now := s.now + 1, threads := s.threads[c := s.threads[c].(remaining := s.threads[c].initTick)]), r)
    else r == s.(now := s.now + 1, threads := s.threads[c := s.threads[c].(remaining := left)])
  }

  /** rt_timer_check: the first `n` active timers fire, one after the other. */
  ghost predicate Fires(s: State, r: State, n: nat)
    decreases n
  {
    if n == 0 then r == s
    else
      && s.armed != [] && s.current in s.threads
      && exists m: State :: TimesOut(s.(armed := s.armed[1..]), m, s.armed[0]) && Fires(m, r, n - 1)
  }

  /** rt_tick_increase: the time slice, then the timers whose deadlines are reached. */
  ghost predicate TicksOn(s: State, r: State)
    requires s.current in s.threads
  {
    exists m: State :: Slices(s, m) && Fires(m, r, Due(s.armed, s.keys, s.now + 1))
  }

  ghost predicate Does(wide: bool, s: State, r: State, step: Step)
    requires Inv(wide, s) && Enabled(wide, s, step)
  {
    match step
    case Create(t, p, ticks) => r == s.(threads := s.threads[t := Thread(p, p, Attr(0, 0, 0), Init, EOK, ticks, ticks)])
    case Reschedule => Schedules(s, r)
    case Launch => Launches(s, r)
    case SuspendOne(t) => Suspends(s, r, t)
    case ResumeOne(t) => Resumes(s, r, t, s.threads[t].error)
    case Prioritise(t, p) => Prioritises(wide, s, r, t, p)
    case Exit(isStatic) => Exits(s, r, isStatic)
    case BlockOn(ipc, byPrio, timeout) => Blocks(s, r, ipc, byPrio, timeout)
    case WakeFirst(ipc) =>
      var t := Queue(s.lists, WaitList(ipc))[0];
      t in s.threads && s.threads[t].stat == Suspend && Resumes(s, r, t, s.threads[t].error)
    case FailFirst(ipc) =>
      var t := Queue(s.lists, WaitList(ipc))[0];
      t in s.threads && s.threads[t].stat == Suspend && Resumes(s, r, t, ERROR)
    case StoreError(e) => r == s.(threads := s.threads[s.current := s.threads[s.current].(error := e)])
    case GoToSleep(ticks) => Sleeps(s, r, ticks)
    case EndSleep =>
      var c := s.threads[s.current];
      r == s.(threads := s.threads[s.current := c.(error := if c.error == ETIMEOUT then EOK else c.error)])
    case EnterCritical => r == s.(nest := Short(s.nest + 1))
    case LeaveCritical => r == s.(nest := if Short(s.nest - 1) <= 0 then 0 else Short(s.nest - 1))
    case Tick => TicksOn(s, r)
  }

  // Lists and timers

  lemma DistinctGone(a: seq<Tid>, t: Tid)
    requires forall i, j :: 0 <= i < j < |a| ==> a[i] != a[j]
    ensures Gone(a, Without(a, t), t)
  {
    hide Without, Parted;
    if t in a {
      WithoutParted(a, t);
    } else {
      WithoutNone(a, t);
    }
  }

  lemma DropUnlisted(threads: map<Tid, Thread>, l: Lists, t: Tid, x: nat)
    requires Listed(threads, l, x)
    ensures Unlisted(l, Drop(l, t), t)
  {
    hide Without, Gone;
    forall h | h in l ensures Gone(l[h], Without(l[h], t), t) {
      DistinctGone(l[h], t);
    }
  }

  lemma DisarmGone(wide: bool, s: State, x: nat, t: Tid)
    requires Core(wide, s, x)
    ensures Gone(s.armed, Disarm(s, t).armed, t)
  {
    hide Listed, Placed, BitsAgree, Masked, Without, Gone;
    OrderedDistinct(s.armed, s.keys);
    DistinctGone(s.armed, t);
  }

  lemma NothingGone(a: seq<Tid>, t: Tid)
    requires t !in a
    ensures forall b :: Gone(a, b, t) ==> b == a
  {
  }

  lemma NothingUnlisted(l: Lists, t: Tid)
    requires forall h :: !Linked(l, h, t)
    ensures forall m :: Unlisted(l, m, t) ==> m == l
  {
    hide Gone;
    forall m | Unlisted(l, m, t) ensures m == l {
      forall h | h in l ensures m[h] == l[h] {
        assert !Linked(l, h, t);
        NothingGone(l[h], t);
      }
    }
  }

  lemma ArmOn(wide: bool, s: State, t: Tid, ticks: nat)
    requires Core(wide, s, 0)
    ensures TimerOn(s, Arm(s, t, ticks), t, ticks)
  {
    hide Listed, Placed, BitsAgree, Masked, Without, Due, Gone;
    var a, d := Without(s.armed, t), s.now + ticks;
    DisarmGone(wide, s, 0, t);
    DisarmTimed(s.threads, s.armed, s.keys, s.stamp, 0, t);
    var n := Due(a, s.keys, d);
    forall i | 0 <= i < |a| ensures i < n <==> s.keys[a[i]].deadline <= d {
      DueAt(a, s.keys, d, i);
    }
    assert InsertedAt(s, a, Arm(s, t, ticks).armed, t, d, n);
  }

  lemma TimerOnSelf(s: State, r: State, t: Tid, ticks: nat)
    requires TimerOn(s, r, t, ticks)
    ensures t in r.armed && t in r.keys && r.keys[t].deadline == s.now + ticks
  {
    hide Gone;
    var a: seq<Tid>, n: nat :| Gone(s.armed, a, t) && InsertedAt(s, a, r.armed, t, s.now + ticks, n);
    EnqueueMembers(a, n, t, r.armed);
  }

  // The steps

  lemma SuspendDoes(wide: bool, s: State, t: Tid)
    requires Inv(wide, s) && t in s.threads
    ensures Suspends(s, SuspendThread(wide, s, t), t)
  {
    hide Listed, Placed, BitsAgree, Timed, Masked, Without, Unlisted, Gone;
    DropUnlisted(s.threads, s.lists, t, 0);
    DisarmGone(wide, s, 0, t);
  }

  lemma ResumeDoes(wide: bool, s: State, t: Tid)
    requires Inv(wide, s) && t in s.threads
    ensures Resumes(s, ResumeThread(wide, s, t), t, s.threads[t].error)
  {
    hide Listed, Placed, BitsAgree, Timed, Masked, Without, Unlisted, Gone, Drop, Mark;
    DropUnlisted(s.threads, s.lists, t, 0);
    DisarmGone(wide, s, 0, t);
    assert Unlisted(s.lists, Drop(s.lists, t), t);
  }

  lemma FailDoes(wide: bool, s: State, t: Tid)
    requires Inv(wide, s) && t in s.threads
    ensures s.threads[t].stat == Suspend ==> Resumes(s, ResumeThread(wide, SetError(s, t, ERROR), t), t, ERROR)
  {
    hide Inv, ResumeThread, Moved, Unlisted, Gone;
    ErrorOk(wide, s, t, ERROR);
    ResumeDoes(wide, SetError(s, t, ERROR), t);
  }

  lemma ExitDoes(wide: bool, s: State, isStatic: bool)
    requires Inv(wide, s) && s.current in s.threads
    ensures Exits(s, ExitThread(wide, s, isStatic), isStatic)
  {
    hide Listed, Placed, BitsAgree, Timed, Masked, Without, Unlisted, Gone, Drop, Unmark;
    var c: Tid := s.current;
    DropUnlisted(s.threads, s.lists, c, 0);
    DropMembers(s.threads, s.lists, c, 0);
    DisarmGone(wide, s, 0, c);
    assert Unlisted(s.lists, Drop(s.lists, c), c);
  }

  lemma PriorityDoes(wide: bool, s: State, t: Tid, p: Prio)
    requires Inv(wide, s) && t in s.threads && Known(wide, p)
    ensures Prioritises(wide, s, ChangePriority(wide, s, t, p), t, p)
  {
    hide Listed, Placed, BitsAgree, Timed, Masked, Without, Unlisted, Gone, Drop, Mark, Unmark, AttrOf, Known;
    DropUnlisted(s.threads, s.lists, t, 0);
    assert Unlisted(s.lists, Drop(s.lists, t), t);
  }

  lemma BlockDoes(wide: bool, s: State, ipc: nat, byPrio: bool, timeout: int)
    requires Inv(wide, s) && s.current in s.threads && s.threads[s.current].stat == Running
    ensures Blocks(s, Block(wide, s, ipc, byPrio, timeout), ipc, byPrio, timeout)
  {
    hide Inv, SuspendThread, Arm, Enqueue, Joined, TimerOn, Current, Priorities;
    var c: Tid := s.current;
    var s0 := s.(threads := s.threads[c := s.threads[c].(error := EOK)]);
    ErrorOk(wide, s, c, EOK);
    SuspendQuiet(wide, s0, c);
    var s1 := SuspendThread(wide, s0, c);
    var q := Queue(s1.lists, WaitList(ipc));
    SamePriorities(s.threads, s1.threads, c);
    EnqueueJoined(q, Priorities(s1.threads), c, s.threads[c].prio as int, byPrio);
    BlockOk(wide, s, ipc, byPrio, 0);
    if timeout > 0 {
      var s2 := Block(wide, s, ipc, byPrio, 0);
      InvCore(wide, s2);
      ArmOn(wide, s2, c, timeout);
      ArmFrame(s2, c, timeout);
      OnBefore(s, s2, Arm(s2, c, timeout), c, timeout);
    }
  }

  lemma InvCore(wide: bool, s: State)
    requires Inv(wide, s)
    ensures Core(wide, s, 0)
  {
  }

  lemma ArmFrame(s: State, t: Tid, ticks: nat)
    ensures var r := Arm(s, t, ticks); r == s.(armed := r.armed, keys := r.keys, stamp := r.stamp)
  {
    hide Insert, Without;
  }

  lemma OnBefore(s: State, s2: State, r: State, t: Tid, ticks: nat)
    requires TimerOn(s2, r, t, ticks)
    requires s2.armed == s.armed && s2.keys == s.keys && s2.now == s.now && s2.stamp == s.stamp
    ensures TimerOn(s, r, t, ticks)
  {
    hide Gone;
    var a: seq<Tid>, n: nat :| Gone(s2.armed, a, t) && InsertedAt(s2, a, r.armed, t, s2.now + ticks, n);
    assert InsertedAt(s, a, r.armed, t, s.now + ticks, n);
  }

  lemma SamePriorities(threads: map<Tid, Thread>, threads1: map<Tid, Thread>, c: Tid)
    requires c in threads && threads1 == threads[c := threads[c].(error := EOK, stat := Suspend)]
    ensures Current(Priorities(threads1), threads)
  {
  }

  /** Suspending a running thread changes but its state: it is in no list and its timer is off. */
  lemma SuspendQuiet(wide: bool, s: State, c: Tid)
    requires Inv(wide, s) && c in s.threads && s.threads[c].stat == Running
    ensures var r := SuspendThread(wide, s, c);
      r == s.(threads := s.threads[c := s.threads[c].(stat := Suspend)], bits := r.bits)
  {
    hide Inv, Core, SuspendThread, Unlisted, Gone;
    SuspendDoes(wide, s, c);
    FromUnlisted(wide, s, c);
    NotArmed(wide, s, c);
    NothingUnlisted(s.lists, c);
    NothingGone(s.armed, c);
  }

  lemma SleepDoes(wide: bool, s: State, ticks: nat)
    requires Inv(wide, s) && s.current in s.threads && s.threads[s.current].stat != Close
    ensures Sleeps(s, Sleep(wide, s, ticks), ticks)
  {
    hide Inv, SuspendThread, Arm, TimerOn;
    var c: Tid := s.current;
    SleepFrom(wide, s);
    if s.threads[c].stat == Running {
      SuspendQuiet(wide, s, c);
    } else {
      SuspendSame(wide, s, c);
    }
    SuspendOk(wide, s, c);
    var s2 := SuspendThread(wide, s, c);
    InvCore(wide, s2);
    ArmOn(wide, s2, c, ticks);
    ArmFrame(s2, c, ticks);
    OnBefore(s, s2, Arm(s2, c, ticks), c, ticks);
  }

  lemma SleepFrom(wide: bool, s: State)
    requires Inv(wide, s) && s.current in s.threads && s.threads[s.current].stat != Close
    ensures s.threads[s.current].stat == Running || s.threads[s.current].stat == Suspend
  {
    hide Core;
  }

  lemma SwitchDoes(wide: bool, s: State, to: Tid)
    requires Inv(wide, s) && s.current in s.threads && to in s.threads && s.threads[to].stat == Ready
    requires to != s.current
    ensures SwitchesTo(s, Switch(wide, s, to, s.threads[s.current].stat == Running), to)
  {
    hide Listed, Placed, BitsAgree, Timed, Masked, Known, AttrOf, InsertThread, RemoveThread, Unlisted;
    var from: Tid := s.current;
    var s1 := s.(current := to);
    var running := s.threads[from].stat == Running;
    NotArmed(wide, s, from);
    FromUnlisted(wide, s, from);
    SwitchRest(wide, s, to, running);
    var s2 := s1;
    if running {
      CoreAside(wide, s, from);
      assert Core(wide, s1, from) by { PlacedElsewhere(s.threads, s.lists, s.current, to); }
      InsertOk(wide, s1, from);
      s2 := InsertThread(wide, s1, from);
      InsertRest(wide, s1, from);
      InsertLast(wide, s1, from);
    }
    RemoveRest(wide, s2, to);
    RemoveDrops(wide, s2, to);
    DropUnlisted(s2.threads, s2.lists, to, 0);
    var r := Switch(wide, s, to, running);
    assert r.lists == Drop(s2.lists, to);
  }

  lemma PlacedElsewhere(threads: map<Tid, Thread>, l: Lists, c: nat, d: nat)
    requires Placed(threads, l, c, c)
    ensures Placed(threads, l, d, c)
  {
  }

  lemma InsertLast(wide: bool, s: State, t: Tid)
    requires t in s.threads && t != s.current
    ensures var h := ReadyList(s.threads[t].prio);
      InsertThread(wide, s, t).lists == s.lists[h := Queue(s.lists, h) + [t]]
  {
  }

  lemma RemoveDrops(wide: bool, s: State, t: Tid)
    requires t in s.threads
    ensures RemoveThread(wide, s, t).lists == Drop(s.lists, t)
  {
  }

  lemma ScheduleDoes(wide: bool, s: State)
    requires Inv(wide, s) && s.current in s.threads
    ensures Schedules(s, Schedule(wide, s))
  {
    hide Inv, Switch, Highest, HighestThread, SwitchesTo, NotAfter, Known, Has, Whole;
    if s.nest == 0 && s.bits.group == 0 {
      NothingReady(wide, s);
    } else if s.nest == 0 {
      HighestReady(wide, s);
      var to: Tid := HighestThread(wide, s);
      HighestFirst(wide, s);
      SwitchDoes(wide, s, to);
      SwitchRest(wide, s, to, s.threads[s.current].stat == Running);
      var c, p := s.threads[s.current].prio, Highest(wide, s.bits);
      Compare(c, p);
      if s.threads[s.current].stat == Running && c < p {
        forall u: Tid | u in s.threads && s.threads[u].stat == Ready ensures !NotAfter(s.threads[u].prio, c) {
          Behind(c, p, s.threads[u].prio);
        }
      }
    }
  }

  lemma Behind(c: Prio, p: Prio, q: Prio)
    requires c < p && NotAfter(p, q)
    ensures !NotAfter(q, c)
  {
  }

  lemma HighestFirst(wide: bool, s: State)
    requires Inv(wide, s) && s.bits.group != 0
    ensures HighestThread(wide, s) > 0 && MostUrgent(s, HighestThread(wide, s))
  {
    hide Inv, Highest, NotAfter;
    HighestReady(wide, s);
  }

  lemma LaunchDoes(wide: bool, s: State)
    requires Inv(wide, s) && s.current == 0 && s.bits.group != 0
    ensures Launches(s, LaunchFirst(wide, s))
  {
    hide Listed, Placed, BitsAgree, Timed, Masked, RemoveThread, HighestThread, Unlisted, MostUrgent;
    HighestReady(wide, s);
    HighestFirst(wide, s);
    var to: Tid := HighestThread(wide, s);
    var s1 := s.(current := to);
    RemoveRest(wide, s1, to);
    RemoveDrops(wide, s1, to);
    DropUnlisted(s.threads, s.lists, to, 0);
  }

  lemma TimeoutDoes(wide: bool, s: State, t: Tid)
    requires Inv(wide, s) && s.current in s.threads && t in s.threads && s.threads[t].stat == Suspend && t !in s.armed
    ensures TimesOut(s, TimeoutThread(wide, s, t), t)
  {
    hide Inv, Schedule, Schedules, Resumes, ResumeThread, InsertThread, Drop;
    var s1 := SetError(s, t, ETIMEOUT);
    ErrorOk(wide, s, t, ETIMEOUT);
    ResumeOk(wide, s1, t);
    ResumeDoes(wide, s1, t);
    var m := ResumeThread(wide, s1, t);
    ResumeFrom(s, m, t, ETIMEOUT);
    ResumedOff(wide, s1, t);
    UnlistRest(s1, t);
    InsertRest(wide, Unlist(s1, t), t);
    ScheduleDoes(wide, m);
    assert TimeoutThread(wide, s, t) == Schedule(wide, m);
  }

  lemma ResumeFrom(s: State, m: State, t: Tid, error: int)
    requires t in s.threads && s.threads[t].stat == Suspend && Resumes(SetError(s, t, error), m, t, error)
    ensures Resumes(s, m, t, error)
  {
    hide Unlisted, Gone, Moved;
  }

  /** Resuming a thread whose timer is off. */
  lemma ResumedOff(wide: bool, s: State, t: Tid)
    requires t in s.threads && s.threads[t].stat == Suspend && t !in s.armed
    ensures ResumeThread(wide, s, t) == InsertThread(wide, Unlist(s, t), t)
  {
    hide InsertThread, Drop;
    assert Without(s.armed, t) == s.armed;
    assert UnlinkThread(s, t) == Unlist(s, t);
  }

  lemma SliceDoes(wide: bool, s: State)
    requires Inv(wide, s) && s.current in s.threads
    ensures Slices(s, Sliced(wide, s))
  {
    hide Inv, Schedule, Schedules;
    CountedOk(wide, s);
    ScheduleDoes(wide, Counted(s));
  }

  lemma {:induction false} FireDoes(wide: bool, s: State)
    requires Inv(wide, s) && s.current in s.threads
    ensures Fires(s, FireDue(wide, s), Due(s.armed, s.keys, s.now))
    decreases |s.armed|
  {
    hide Inv, TimeoutThread, Woken, TimesOut;
    if s.armed != [] {
      DueThread(wide, s);
      if s.keys[s.armed[0]].deadline <= s.now {
        UnlinkFirst(wide, s);
        var s1 := TimeoutThread(wide, s.(armed := s.armed[1..]), s.armed[0]);
        TimeoutDoes(wide, s.(armed := s.armed[1..]), s.armed[0]);
        FireDoes(wide, s1);
        FiredFirst(s.armed, s.keys, s.now);
      }
    }
  }

  lemma TickDoes(wide: bool, s: State)
    requires Inv(wide, s) && s.current in s.threads
    ensures TicksOn(s, Ticked(wide, s))
  {
    hide Inv, Sliced, Slices, FireDue, Fires, Due, Woken;
    SlicedOk(wide, s);
    SliceDoes(wide, s);
    FireDoes(wide, Sliced(wide, s));
  }

  /** After a timeout the most urgent thread runs, whatever ran before. */
  lemma TimeoutHighest(wide: bool, s: State, t: Tid)
    requires Inv(wide, s) && s.current in s.threads && t in s.threads && s.threads[t].stat == Suspend && t !in s.armed
    ensures HighestRuns(TimeoutThread(wide, s, t))
  {
    hide Inv, Schedule, ResumeThread, InsertThread, Drop, HighestRuns;
    var s1 := SetError(s, t, ETIMEOUT);
    ErrorOk(wide, s, t, ETIMEOUT);
    ResumeOk(wide, s1, t);
    ResumedOff(wide, s1, t);
    UnlistRest(s1, t);
    InsertRest(wide, Unlist(s1, t), t);
    ScheduleHighest(wide, ResumeThread(wide, s1, t));
  }

  lemma {:induction false} FireHighest(wide: bool, s: State)
    requires Inv(wide, s) && s.current in s.threads && HighestRuns(s)
    ensures HighestRuns(FireDue(wide, s))
    decreases |s.armed|
  {
    hide Inv, TimeoutThread, Woken, HighestRuns;
    if s.armed != [] {
      DueThread(wide, s);
      if s.keys[s.armed[0]].deadline <= s.now {
        UnlinkFirst(wide, s);
        TimeoutHighest(wide, s.(armed := s.armed[1..]), s.armed[0]);
        FireHighest(wide, TimeoutThread(wide, s.(armed := s.armed[1..]), s.armed[0]));
      }
    }
  }

  /** A tick leaves the most urgent thread running, though it wakes others. */
  lemma TickHighest(wide: bool, s: State)
    requires Inv(wide, s) && s.current in s.threads && HighestRuns(s)
    ensures HighestRuns(Ticked(wide, s))
  {
    hide Inv, Schedule, FireDue, HighestRuns, Woken, Counted, SliceUp;
    SlicedOk(wide, s);
    CountedOk(wide, s);
    if SliceUp(s) {
      ScheduleHighest(wide, Counted(s));
    } else {
      CountedHighest(s);
    }
    FireHighest(wide, Sliced(wide, s));
  }

  lemma CountedHighest(s: State)
    requires s.current in s.threads && HighestRuns(s)
    ensures HighestRuns(Counted(s))
  {
    hide NotAfter, SliceUp;
    forall t | Runnable(Counted(s).threads, t) ensures Runnable(s.threads, t) {
    }
  }

  /** Every step does what it promises. */
  lemma StepDoes(wide: bool, s: State, step: Step)
    requires Inv(wide, s) && Enabled(wide, s, step)
    ensures Does(wide, s, Do(wide, s, step), step)
  {
    hide Inv, Schedule, LaunchFirst, SuspendThread, ResumeThread, ChangePriority, ExitThread, Block, Sleep, Ticked,
         Known, Due, Schedules, Launches, Suspends, Resumes, Prioritises, Exits, Blocks, Sleeps, TicksOn;
    match step
    case Create(t, p, ticks) =>
    case Reschedule => ScheduleDoes(wide, s);
    case Launch => LaunchDoes(wide, s);
    case SuspendOne(t) => SuspendDoes(wide, s, t);
    case ResumeOne(t) => ResumeDoes(wide, s, t);
    case Prioritise(t, p) => PriorityDoes(wide, s, t, p);
    case Exit(isStatic) => ExitDoes(wide, s, isStatic);
    case BlockOn(ipc, byPrio, timeout) => BlockDoes(wide, s, ipc, byPrio, timeout);
    case WakeFirst(ipc) => FirstWaits(wide, s, ipc); ResumeDoes(wide, s, Queue(s.lists, WaitList(ipc))[0]);
    case FailFirst(ipc) => FirstWaits(wide, s, ipc); FailDoes(wide, s, Queue(s.lists, WaitList(ipc))[0]);
    case StoreError(e) =>
    case GoToSleep(ticks) => SleepDoes(wide, s, ticks);
    case EndSleep => SameError(s);
    case EnterCritical =>
    case LeaveCritical =>
    case Tick => TickDoes(wide, s);
  }

  lemma SameError(s: State)
    requires s.current in s.threads
    ensures var c := s.threads[s.current];
      Awake(s) == s.(threads := s.threads[s.current := c.(error := if c.error == ETIMEOUT then EOK else c.error)])
  {
    var c := s.threads[s.current];
    assert c.(error := c.error) == c && s.threads[s.current := c] == s.threads;
  }
}

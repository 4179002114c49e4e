/** Whole runs of the scheduler: the clock tick with its timeouts, critical nesting, and the
    properties that hold of every reachable state. */
module ThreadRuns {
  import opened ReadyBitmap
  import opened TimerOrder
  import opened WaitQueue
  import opened ThreadStates
  import opened ThreadSteps

  // The clock tick

  predicate Runnable(threads: map<Tid, Thread>, t: Tid) {
    t in threads && (threads[t].stat == Ready || threads[t].stat == Running)
  }

  /** What rt_schedule never changes. */
  ghost predicate SameBut(s: State, r: State) {
    && r.threads.Keys == s.threads.Keys && r.armed == s.armed && r.keys == s.keys
    && r.now == s.now && r.stamp == s.stamp && r.nest == s.nest
    && (s.current in s.threads ==> r.current in r.threads)
  }

  /** Scheduling changes no thread beyond Ready and Running. */
  ghost predicate SameRunnable(s: State, r: State) {
    forall t: Tid :: t in s.threads && t in r.threads ==>
      && r.threads[t].error == s.threads[t].error && r.threads[t].prio == s.threads[t].prio
      && (Runnable(r.threads, t) <==> Runnable(s.threads, t))
      && (!Runnable(s.threads, t) ==> r.threads[t] == s.threads[t])
  }

  /** Exactly the threads `fired` were woken, by timeouts. */
  ghost predicate Woken(s: State, r: State, fired: seq<Tid>) {
    && r.threads.Keys == s.threads.Keys
    && (forall t: Tid :: t in s.threads && t in fired ==> Runnable(r.threads, t) && r.threads[t].error == ETIMEOUT)
    && (forall t: Tid :: t in s.threads && t !in fired ==>
          && r.threads[t].error == s.threads[t].error && (Runnable(r.threads, t) <==> Runnable(s.threads, t))
          && (!Runnable(s.threads, t) ==> r.threads[t].stat == s.threads[t].stat))
  }

  lemma SwitchRest(wide: bool, s: State, to: Tid, insertFrom: bool)
    requires to in s.threads && s.current in s.threads && to != s.current
    ensures var r := Switch(wide, s, to, insertFrom);
      && r.current == to && r.armed == s.armed && r.keys == s.keys && r.now == s.now && r.stamp == s.stamp &&
          r.nest == s.nest
      && r.threads == (if insertFrom then s.threads[s.current := s.threads[s.current].(stat := Ready)] else s.threads)
                      [to := s.threads[to].(stat := Running)]
  {
    hide InsertThread, RemoveThread;
    var s1 := s.(current := to);
    InsertRest(wide, s1, s.current);
    RemoveRest(wide, s1, to);
    RemoveRest(wide, InsertThread(wide, s1, s.current), to);
  }

  lemma ScheduleSame(wide: bool, s: State)
    requires Inv(wide, s) && s.current in s.threads
    ensures SameBut(s, Schedule(wide, s)) && SameRunnable(s, Schedule(wide, s))
  {
    hide Inv, Switch, Highest, HighestThread;
    if s.bits.group != 0 {
      HighestReady(wide, s);
      SwitchRest(wide, s, HighestThread(wide, s), s.threads[s.current].stat == Running);
    }
  }

  /** rt_thread_timeout, run by the timer check on a timer it has just unlinked. */
  function TimeoutThread(wide: bool, s: State, t: Tid): State
    requires t in s.threads
  {
    var s1 := s.(threads := s.threads[t := s.threads[t].(error := ETIMEOUT)]);
    var s2 := InsertThread(wide, Unlist(s1, t), t);
    if s2.current in s2.threads then Schedule(wide, s2) else s2
  }

  lemma TimeoutOk(wide: bool, s: State, t: Tid)
    requires Inv(wide, s) && s.current in s.threads && t in s.threads && s.threads[t].stat == Suspend && t !in s.armed
    ensures var r := TimeoutThread(wide, s, t);
      Inv(wide, r) && SameBut(s, r) && Woken(s, r, [t])
  {
    hide Inv, Core, InsertThread, Unlist, Schedule, Woken, SameRunnable;
    var s1 := s.(threads := s.threads[t := s.threads[t].(error := ETIMEOUT)]);
    ErrorOk(wide, s, t, ETIMEOUT);
    UnlistOk(wide, s1, t);
    UnlistRest(s1, t);
    InsertOk(wide, Unlist(s1, t), t);
    InsertRest(wide, Unlist(s1, t), t);
    var s2 := InsertThread(wide, Unlist(s1, t), t);
    InsertedInv(wide, s, s2, t);
    ScheduleOk(wide, s2);
    ScheduleSame(wide, s2);
    WokenKept(s, s2, Schedule(wide, s2), [t]);
  }

  lemma InsertedInv(wide: bool, s: State, s2: State, t: Tid)
    requires Inv(wide, s) && t in s.threads && s.threads[t].stat == Suspend && Core(wide, s2, 0)
    requires s2.current == s.current
    requires t in s2.threads && s2.threads == s.threads[t := s2.threads[t]]
    requires s2.threads[t].stat == (if t == s.current then Running else Ready) && s2.threads[t].error == ETIMEOUT
    ensures Inv(wide, s2) && Woken(s, s2, [t])
  {
    hide Core;
  }

  lemma WokenKept(s: State, s2: State, r: State, fired: seq<Tid>)
    requires Woken(s, s2, fired) && SameRunnable(s2, r) && r.threads.Keys == s2.threads.Keys
    ensures Woken(s, r, fired)
  {
  }

  lemma UnlistRest(s: State, t: Tid)
    ensures Unlist(s, t) == s.(lists := Unlist(s, t).lists)
  {
  }

  /** rt_timer_check on the thread timers. */
  ghost function FireDue(wide: bool, s: State): State
    requires Inv(wide, s) && s.current in s.threads
    decreases |s.armed|
  {
    if s.armed == [] || s.keys[s.armed[0]].deadline > s.now then s
    else
      DueThread(wide, s);
      FireDue(wide, TimeoutThread(wide, s.(armed := s.armed[1..]), s.armed[0]))
  }

  /** The assertion of rt_thread_timeout holds for every timer that can fire. */
  lemma DueThread(wide: bool, s: State)
    requires Inv(wide, s) && s.current in s.threads && s.armed != []
    ensures s.armed[0] in s.keys && s.armed[0] in s.threads && s.threads[s.armed[0]].stat == Suspend
    ensures var r := TimeoutThread(wide, s.(armed := s.armed[1..]), s.armed[0]);
      && Inv(wide, r) && SameBut(s.(armed := s.armed[1..]), r)
      && Woken(s, r, [s.armed[0]])
  {
    hide Listed, Placed, BitsAgree, Masked, TimeoutThread, SameBut;
    var t := s.armed[0];
    assert t in s.armed;
    TailElems(s.armed, s.keys);
    assert forall u :: u in s.armed[1..] ==> u in s.armed;
    OrderedDistinct(s.armed, s.keys);
    NotInTail(s.armed);
    TimeoutOk(wide, s.(armed := s.armed[1..]), t);
  }

  lemma UnlinkFirst(wide: bool, s: State)
    requires Inv(wide, s) && s.armed != []
    ensures Inv(wide, s.(armed := s.armed[1..])) && s.armed[0] !in s.armed[1..]
  {
    hide Listed, Placed, BitsAgree, Masked;
    OrderedDistinct(s.armed, s.keys);
    NotInTail(s.armed);
    TailElems(s.armed, s.keys);
    assert forall u :: u in s.armed[1..] ==> u in s.armed;
  }

  lemma NotInTail(a: seq<Tid>)
    requires a != [] && forall i, j :: 0 <= i < j < |a| ==> a[i] != a[j]
    ensures a[0] !in a[1..]
  {
  }

  /** The check fires exactly the timers due, earliest first: their threads become runnable with
      error -RT_ETIMEOUT, and no other thread wakes up. */
  lemma {:induction false} FireDueExact(wide: bool, s: State)
    requires Inv(wide, s) && s.current in s.threads
    ensures var r := FireDue(wide, s); var n := Due(s.armed, s.keys, s.now);
      && Inv(wide, r) && r.current in r.threads && Woken(s, r, s.armed[..n])
      && r.armed == s.armed[n..] && r.keys == s.keys && r.now == s.now && r.nest == s.nest
    decreases |s.armed|
  {
    hide Inv, TimeoutThread, Woken;
    NoneWoken(s);
    if s.armed != [] {
      DueThread(wide, s);
      if s.keys[s.armed[0]].deadline <= s.now {
        var s1 := TimeoutThread(wide, s.(armed := s.armed[1..]), s.armed[0]);
        FireDueExact(wide, s1);
        FiredFirst(s.armed, s.keys, s.now);
        WokenThen(s, s1, FireDue(wide, s), [s.armed[0]], s1.armed[..Due(s1.armed, s1.keys, s1.now)]);
      }
    }
  }

  lemma NoneWoken(s: State)
    ensures Woken(s, s, [])
  {
  }

  lemma WokenThen(s: State, s1: State, r: State, first: seq<Tid>, rest: seq<Tid>)
    requires Woken(s, s1, first) && Woken(s1, r, rest)
    ensures Woken(s, r, first + rest)
  {
  }

  lemma FiredFirst(a: seq<Tid>, keys: Keys, now: nat)
    requires a != [] && a[0] in keys && keys[a[0]].deadline <= now
    ensures var n := Due(a[1..], keys, now);
      Due(a, keys, now) == n + 1 && a[n + 1..] == a[1..][n..] && a[..n + 1] == [a[0]] + a[1..][..n]
  {
  }

  /** The time slice in rt_tick_increase. */
  function Sliced(wide: bool, s: State): State
    requires s.current in s.threads
  {
    if SliceUp(s) then Schedule(wide, Counted(s)) else Counted(s)
  }

  /** Does the running thread's slice end with this tick? */
  predicate SliceUp(s: State)
    requires s.current in s.threads
  {
    (s.threads[s.current].remaining - 1) % TICKS == 0
  }

  /** The tick is counted, and the running thread's slice counted down or refilled. */
  function Counted(s: State): (r: State)
    requires s.current in s.threads
    ensures r.current in r.threads
  {
    var t := s.threads[s.current];
    s.(now := s.now + 1,
       threads := s.threads[s.current := t.(remaining := if SliceUp(s) then t.initTick else (t.remaining - 1) % TICKS)])
  }

  lemma SliceOk(wide: bool, s: State, t: Tid, r: Thread)
    requires Inv(wide, s) && t in s.threads && r == s.threads[t].(remaining := r.remaining)
    ensures Inv(wide, s.(now := s.now + 1, threads := s.threads[t := r]))
  {
    hide Timed, BitsAgree, AttrOf, Known, Listed;
    RecordTimed(s.threads, s.armed, s.keys, s.stamp, t, r);
    SameListed(s.threads, s.lists, t, r);
  }

  lemma SlicedOk(wide: bool, s: State)
    requires Inv(wide, s) && s.current in s.threads
    ensures var r := Sliced(wide, s);
      && Inv(wide, r) && SameBut(s.(now := s.now + 1), r) && Woken(s, r, [])
  {
    hide Inv, Schedule, Woken, SameRunnable;
    CountedOk(wide, s);
    var s1 := Counted(s);
    ScheduleOk(wide, s1);
    ScheduleSame(wide, s1);
    SliceWakes(s, s1, s1);
    SliceWakes(s, s1, Schedule(wide, s1));
  }

  lemma CountedOk(wide: bool, s: State)
    requires Inv(wide, s) && s.current in s.threads
    ensures Inv(wide, Counted(s))
  {
    hide Inv;
    SliceOk(wide, s, s.current, Counted(s).threads[s.current]);
  }

  lemma SliceWakes(s: State, s1: State, r: State)
    requires s1.threads.Keys == s.threads.Keys == r.threads.Keys && (r == s1 || SameRunnable(s1, r))
    requires forall t: Tid :: t in s.threads ==> s1.threads[t] == s.threads[t].(remaining := s1.threads[t].remaining)
    ensures Woken(s, r, [])
  {
  }

  /** rt_tick_increase. */
  ghost function Ticked(wide: bool, s: State): State
    requires Inv(wide, s) && s.current in s.threads
  {
    SlicedOk(wide, s);
    FireDue(wide, Sliced(wide, s))
  }

  /** A tick wakes exactly the threads whose waits have run out, and leaves no active thread
      timer due. */
  lemma TickedExact(wide: bool, s: State)
    requires Inv(wide, s) && s.current in s.threads
    ensures var r := Ticked(wide, s); var n := Due(s.armed, s.keys, s.now + 1);
      && Inv(wide, r) && r.current in r.threads && r.now == s.now + 1 && r.nest == s.nest
      && r.armed == s.armed[n..] && r.keys == s.keys && Woken(s, r, s.armed[..n])
      && forall t :: t in r.armed ==> t in r.keys && r.keys[t].deadline > r.now
  {
    hide Inv, Sliced, FireDue, Woken;
    SlicedOk(wide, s);
    FireDueExact(wide, Sliced(wide, s));
    WokenThen(s, Sliced(wide, s), Ticked(wide, s), [], s.armed[..Due(s.armed, s.keys, s.now + 1)]);
    assert [] + s.armed[..Due(s.armed, s.keys, s.now + 1)] == s.armed[..Due(s.armed, s.keys, s.now + 1)];
    NoneDueLeft(wide, s, s.now + 1);
  }

  lemma NoneDueLeft(wide: bool, s: State, now: nat)
    requires Inv(wide, s)
    ensures forall t :: t in s.armed[Due(s.armed, s.keys, now)..] ==> t in s.keys && s.keys[t].deadline > now
  {
    hide Listed, Placed, BitsAgree, Masked;
    var n := Due(s.armed, s.keys, now);
    forall t | t in s.armed[n..] ensures t in s.keys && s.keys[t].deadline > now {
      var k :| 0 <= k < |s.armed[n..]| && s.armed[n..][k] == t;
      DueAt(s.armed, s.keys, now, n + k);
    }
  }

  // What rt_schedule is for

  /** Unless scheduling is locked: if any thread can run, the current one does, and no ready thread
      is more urgent. */
  ghost predicate HighestRuns(s: State) {
    s.nest == 0 && (exists t :: Runnable(s.threads, t)) ==>
      && s.current in s.threads && s.threads[s.current].stat == Running
      && forall t: Tid :: t in s.threads && s.threads[t].stat == Ready ==>
          NotAfter(s.threads[s.current].prio, s.threads[t].prio)
  }

  lemma ScheduleHighest(wide: bool, s: State)
    requires Inv(wide, s) && s.current in s.threads
    ensures HighestRuns(Schedule(wide, s))
  {
    hide Inv, Switch, Highest, HighestThread, Known, Has, Whole, NotAfter;
    if s.nest == 0 && s.bits.group == 0 {
      NothingReady(wide, s);
    } else if s.nest == 0 {
      HighestReady(wide, s);
      var c := s.threads[s.current].prio;
      var p := Highest(wide, s.bits);
      Compare(c, p);
      if s.threads[s.current].stat == Running && c < p {
        forall t: Tid | t in s.threads && s.threads[t].stat == Ready ensures NotAfter(c, s.threads[t].prio) {
          Chain(c, p, s.threads[t].prio);
        }
      } else {
        HighestTaken(wide, s);
      }
    }
  }

  /** rt_schedule switches to the head of the most urgent queue. */
  lemma HighestTaken(wide: bool, s: State)
    requires Inv(wide, s) && s.current in s.threads && s.nest == 0 && s.bits.group != 0
    requires s.threads[s.current].stat == Running ==> NotAfter(Highest(wide, s.bits), s.threads[s.current].prio)
    requires s.threads[s.current].stat == Running ==> !(s.threads[s.current].prio < Highest(wide, s.bits))
    ensures HighestRuns(Schedule(wide, s))
  {
    hide Inv, Switch, Highest, HighestThread, Known, Has, Whole, NotAfter;
    HighestReady(wide, s);
    SwitchRest(wide, s, HighestThread(wide, s), s.threads[s.current].stat == Running);
  }

  lemma Compare(c: Prio, p: Prio)
    ensures c < p || NotAfter(p, c)
    ensures NotAfter(p, p)
  {
  }

  lemma Chain(c: Prio, p: Prio, q: Prio)
    requires c < p && NotAfter(p, q)
    ensures NotAfter(c, q)
  {
  }

  lemma NothingReady(wide: bool, s: State)
    requires Inv(wide, s) && s.bits.group == 0
    ensures forall t: Tid :: t in s.threads ==> s.threads[t].stat != Ready
    ensures forall t: Tid :: t in s.threads && s.threads[t].stat == Running ==> t == s.current
  {
    hide Known, Has, Whole;
    forall t: Tid | t in s.threads ensures s.threads[t].stat != Ready {
      if s.threads[t].stat == Ready {
        ReadyMarked(wide, s, t);
        HighestIs(wide, s.bits, s.threads[t].prio);
      }
    }
  }

  // Critical sections

  /** A value stored in the 16-bit rt_scheduler_lock_nest. */
  function Short(n: int): int { (n + 0x8000) % 0x1_0000 - 0x8000 }

  /** The nesting rt_exit_critical leaves behind. */
  function Left(nest: int): int { if Short(nest - 1) <= 0 then 0 else Short(nest - 1) }

  /** The scheduler is locked at every depth of nested rt_enter_critical calls but the multiples of 65536,
      where the counter is back at zero. One rt_exit_critical undoes one call exactly up to a depth of
      32768, counted within 65536; from any other it unlocks everything. */
  lemma NestingExact(depth: nat)
    requires depth > 0
    ensures Short(Short(depth - 1) + 1) == Short(depth)
    ensures Short(depth) == 0 <==> depth % 0x1_0000 == 0
    ensures Left(Short(depth)) == if 1 <= depth % 0x1_0000 <= 0x8000 then depth % 0x1_0000 - 1 else 0
    ensures Left(Short(depth)) == Short(depth - 1) <==> 1 <= depth % 0x1_0000 <= 0x8000
  {
    ShortOf(depth);
    ShortOf(depth - 1);
  }

  lemma ShortOf(n: nat)
    ensures var m := n % 0x1_0000; Short(n) == if m < 0x8000 then m else m - 0x1_0000
  {
    var q, m := n / 0x1_0000, n % 0x1_0000;
    assert n + 0x8000 == q * 0x1_0000 + (m + 0x8000);
  }

  // Steps and runs

  datatype Step =
    | Create(t: Tid, p: Prio, ticks: nat)               // rt_thread_init
    | Reschedule                                        // rt_schedule; rt_thread_yield
    | Launch                                            // rt_system_scheduler_start
    | SuspendOne(t: Tid)                                // rt_thread_suspend with interrupts disabled
    | ResumeOne(t: Tid)                                 // rt_thread_resume with interrupts disabled
    | Prioritise(t: Tid, p: Prio)                       // rt_thread_control
    | Exit(isStatic: bool)                              // rt_thread_exit
    | BlockOn(ipc: nat, byPrio: bool, timeout: int)     // a blocking take, send or receive
    | WakeFirst(ipc: nat)                               // rt_ipc_list_resume
    | FailFirst(ipc: nat)                               // one round of rt_ipc_list_resume_all
    | StoreError(e: int)                                // the running thread stores to its own error code
    | GoToSleep(ticks: nat)                             // the locked region of rt_thread_sleep
    | EndSleep                                          // rt_thread_sleep after its rt_schedule
    | EnterCritical
    | LeaveCritical
    | Tick                                              // rt_tick_increase

  ghost predicate Enabled(wide: bool, s: State, step: Step) {
    match step
    case Create(t, p, _) => t !in s.threads && Known(wide, p)
    case Reschedule => s.current in s.threads
    case Launch => s.current == 0 && s.bits.group != 0
    case SuspendOne(t) => t in s.threads
    case ResumeOne(t) => t in s.threads
    case Prioritise(t, p) => t in s.threads && Known(wide, p)
    case Exit(_) => s.current in s.threads
    case BlockOn(_, _, timeout) => s.current in s.threads && s.threads[s.current].stat == Running
    case WakeFirst(ipc) => Queue(s.lists, WaitList(ipc)) != []
    case FailFirst(ipc) => Queue(s.lists, WaitList(ipc)) != []
    case StoreError(_) => s.current in s.threads
    case GoToSleep(_) => s.current in s.threads && s.threads[s.current].stat != Close
    case EndSleep => s.current in s.threads
    case EnterCritical => true
    case LeaveCritical => true
    case Tick => s.current in s.threads
  }

  /** rt_system_scheduler_start. */
  function LaunchFirst(wide: bool, s: State): State {
    var to := HighestThread(wide, s);
    if to in s.threads then SetStat(RemoveThread(wide, s.(current := to), to), to, Running) else s
  }

  lemma LaunchOk(wide: bool, s: State)
    requires Inv(wide, s) && s.current == 0 && s.bits.group != 0
    ensures Inv(wide, LaunchFirst(wide, s)) && LaunchFirst(wide, s).current in s.threads
    ensures SameBut(s, LaunchFirst(wide, s))
    ensures forall t: Tid :: t in s.threads ==> LaunchFirst(wide, s).threads[t].error == s.threads[t].error
    ensures forall t: Tid :: t in s.threads && LaunchFirst(wide, s).threads[t] != s.threads[t] ==>
              s.threads[t].stat == Ready && LaunchFirst(wide, s).threads[t].stat == Running
  {
    hide Listed, BitsAgree, Timed, Masked, Known, AttrOf, RemoveThread, HighestThread;
    HighestReady(wide, s);
    var to: Tid := HighestThread(wide, s);
    NotArmed(wide, s, to);
    var s1 := s.(current := to);
    assert Core(wide, s1, 0);
    RemoveOk(wide, s1, to);
    RemoveRest(wide, s1, to);
    SettleOk(wide, RemoveThread(wide, s1, to), to, Running);
  }

  lemma FirstWaits(wide: bool, s: State, ipc: nat)
    requires Inv(wide, s) && Queue(s.lists, WaitList(ipc)) != []
    ensures var t := Queue(s.lists, WaitList(ipc))[0]; t in s.threads && s.threads[t].stat == Suspend
  {
    hide Placed, BitsAgree, Timed, Masked;
    assert Linked(s.lists, WaitList(ipc), Queue(s.lists, WaitList(ipc))[0]);
  }

  /** What rt_thread_sleep does when its thread runs again. */
  function Awake(s: State): State
    requires s.current in s.threads
  {
    var c: Tid := s.current;
    if s.threads[c].error == ETIMEOUT then s.(threads := s.threads[c := s.threads[c].(error := EOK)]) else s
  }

  /** rt_thread_init. */
  function AddThread(s: State, t: Tid, p: Prio, ticks: nat): State {
    s.(threads := s.threads[t := Thread(p, p, Attr(0, 0, 0), Init, EOK, ticks, ticks)])
  }

  lemma AddOk(wide: bool, s: State, t: Tid, p: Prio, ticks: nat)
    requires Inv(wide, s) && t !in s.threads && Known(wide, p)
    ensures Inv(wide, AddThread(s, t, p, ticks))
  {
    hide Known, Has, Whole, AttrOf;
  }

  function SetError(s: State, t: Tid, e: int): State
    requires t in s.threads
  {
    s.(threads := s.threads[t := s.threads[t].(error := e)])
  }

  ghost function Do(wide: bool, s: State, step: Step): State
    requires Inv(wide, s) && Enabled(wide, s, step)
  {
    match step
    case Create(t, p, ticks) => AddThread(s, t, p, ticks)
    case Reschedule => Schedule(wide, s)
    case Launch => LaunchFirst(wide, s)
    case SuspendOne(t) => SuspendThread(wide, s, t)
    case ResumeOne(t) => ResumeThread(wide, s, t)
    case Prioritise(t, p) => ChangePriority(wide, s, t, p)
    case Exit(isStatic) => ExitThread(wide, s, isStatic)
    case BlockOn(ipc, byPrio, timeout) => Block(wide, s, ipc, byPrio, timeout)
    case WakeFirst(ipc) => FirstWaits(wide, s, ipc); ResumeThread(wide, s, Queue(s.lists, WaitList(ipc))[0])
    case FailFirst(ipc) =>
      FirstWaits(wide, s, ipc);
      var t := Queue(s.lists, WaitList(ipc))[0];
      ResumeThread(wide, SetError(s, t, ERROR), t)
    case StoreError(e) => SetError(s, s.current, e)
    case GoToSleep(ticks) => Sleep(wide, s, ticks)
    case EndSleep => Awake(s)
    case EnterCritical => s.(nest := Short(s.nest + 1))
    case LeaveCritical => s.(nest := Left(s.nest))
    case Tick => Ticked(wide, s)
  }

  lemma NestOk(wide: bool, s: State, n: int)
    requires Inv(wide, s)
    ensures Inv(wide, s.(nest := n))
  {
    hide Listed, Placed, BitsAgree, Timed, Masked;
  }

  lemma FailOk(wide: bool, s: State, t: Tid)
    requires Inv(wide, s) && t in s.threads
    ensures Inv(wide, ResumeThread(wide, SetError(s, t, ERROR), t))
  {
    hide Inv, ResumeThread;
    ErrorOk(wide, s, t, ERROR);
    ResumeOk(wide, SetError(s, t, ERROR), t);
  }

  /** Every step keeps the bitmap, the queues, the thread states and the thread timers in agreement. */
  lemma StepOk(wide: bool, s: State, step: Step)
    requires Inv(wide, s) && Enabled(wide, s, step)
    ensures Inv(wide, Do(wide, s, step))
  {
    hide Inv, Schedule, LaunchFirst, SuspendThread, ResumeThread, ChangePriority, ExitThread, Block, Sleep, Ticked,
      Known;
    match step
    case Create(t, p, ticks) => AddOk(wide, s, t, p, ticks);
    case Reschedule => ScheduleOk(wide, s);
    case Launch => LaunchOk(wide, s);
    case SuspendOne(t) => SuspendOk(wide, s, t);
    case ResumeOne(t) => ResumeOk(wide, s, t);
    case Prioritise(t, p) => ChangePriorityOk(wide, s, t, p);
    case Exit(isStatic) => ExitOk(wide, s, isStatic);
    case BlockOn(ipc, byPrio, timeout) => BlockOk(wide, s, ipc, byPrio, timeout);
    case WakeFirst(ipc) => FirstWaits(wide, s, ipc); ResumeOk(wide, s, Queue(s.lists, WaitList(ipc))[0]);
    case FailFirst(ipc) => FirstWaits(wide, s, ipc); FailOk(wide, s, Queue(s.lists, WaitList(ipc))[0]);
    case StoreError(e) => ErrorOk(wide, s, s.current, e);
    case GoToSleep(ticks) => SleepOk(wide, s, ticks);
    case EndSleep => ErrorOk(wide, s, s.current, EOK);
    case EnterCritical => NestOk(wide, s, Short(s.nest + 1));
    case LeaveCritical => NestOk(wide, s, Left(s.nest));
    case Tick => TickedExact(wide, s);
  }

  /** The kernel before its first thread starts. */
  ghost predicate Booted(wide: bool, s: State) {
    && HeadsKnown(wide, s.lists) && (forall h :: h in s.lists ==> s.lists[h] == [])
    && s.bits.group == 0 && (forall n: bv8 :: wide && n < 32 ==> At(n) in s.bits.table && s.bits.table[At(n)] == 0)
    && (forall t: Tid :: t in s.threads ==>
        s.threads[t].stat == Init && Known(wide, s.threads[t].prio) && Known(wide, s.threads[t].initPrio))
    && s.current == 0 && s.armed == []
  }

  lemma BootOk(wide: bool, s: State)
    requires Booted(wide, s)
    ensures Inv(wide, s)
  {
    hide Row, Column;
    forall p: Prio | Known(wide, p) ensures !Has(wide, s.bits, p) {
      SplitPrio(p, p);
    }
    assert Whole(wide, s.bits);
  }

  // Old waits

  /** The step begins a wait of `t` itself. */
  ghost predicate OwnWait(s: State, step: Step, t: Tid) {
    t == s.current && (step.GoToSleep? || step.BlockOn?)
  }

  /** The error code of `t` behind a step that is no wait of its own: rt_ipc_list_resume_all stores
      -RT_ERROR, and the thread itself stores to it. */
  ghost function ErrorAfter(s: State, step: Step, t: Tid): int
    requires t in s.threads
  {
    match step
    case FailFirst(ipc) =>
      if Queue(s.lists, WaitList(ipc)) != [] && Queue(s.lists, WaitList(ipc))[0] == t then ERROR
      else s.threads[t].error
    case StoreError(e) => if t == s.current then e else s.threads[t].error
    case EndSleep => if t == s.current && s.threads[t].error == ETIMEOUT then EOK else s.threads[t].error
    case _ => s.threads[t].error
  }

  /** A thread's timer stays off and its error code untouched. */
  ghost predicate Calm(s: State, r: State, t: Tid) {
    t in r.threads && t !in r.armed && (t in s.threads ==> r.threads[t].error == s.threads[t].error)
  }

  lemma WithoutFewer(armed: seq<Tid>, u: Tid, t: Tid)
    requires t !in armed
    ensures t !in Without(armed, u)
  {
  }

  lemma SuspendCalm(wide: bool, s: State, u: Tid, t: Tid)
    requires u in s.threads && t in s.threads && t !in s.armed
    ensures Calm(s, SuspendThread(wide, s, u), t)
  {
    hide RemoveThread, Without;
    RemoveRest(wide, s, u);
    WithoutFewer(s.armed, u, t);
  }

  lemma ResumeCalm(wide: bool, s: State, u: Tid, t: Tid)
    requires u in s.threads && t in s.threads && t !in s.armed
    ensures Calm(s, ResumeThread(wide, s, u), t)
  {
    hide InsertThread, Without, Drop;
    WithoutFewer(s.armed, u, t);
    InsertRest(wide, UnlinkThread(s, u), u);
  }

  lemma ArmCalm(wide: bool, s: State, u: Tid, ticks: nat, t: Tid)
    requires t in s.threads && t !in s.armed && u != t
    ensures Calm(s, Arm(s, u, ticks), t)
  {
    hide Without, Due;
    WithoutFewer(s.armed, u, t);
    var a := Without(s.armed, u);
    InsertElems(a, Due(a, s.keys, s.now + ticks), u);
    assert t in Arm(s, u, ticks).armed <==> t in Elems(a) + {u};
  }

  lemma BlockCalm(wide: bool, s: State, ipc: nat, byPrio: bool, timeout: int, t: Tid)
    requires s.current in s.threads && t in s.threads && t !in s.armed && t != s.current
    ensures Calm(s, Block(wide, s, ipc, byPrio, timeout), t)
  {
    hide SuspendThread, Arm, Enqueue;
    var c: Tid := s.current;
    var s0 := s.(threads := s.threads[c := s.threads[c].(error := EOK)]);
    SuspendCalm(wide, s0, c, t);
    var s1 := SuspendThread(wide, s0, c);
    var q := Enqueue(Queue(s1.lists, WaitList(ipc)), Priorities(s1.threads), c, s.threads[c].prio as int, byPrio);
    if timeout > 0 {
      ArmCalm(wide, s1.(lists := s1.lists[WaitList(ipc) := q]), c, timeout, t);
    }
  }

  lemma SleepArms(wide: bool, s: State, ticks: nat)
    requires Inv(wide, s) && s.current in s.threads && s.threads[s.current].stat != Close
    ensures var r := Sleep(wide, s, ticks); var t: Tid := s.current;
      && t in r.threads && r.threads[t].stat == Suspend && r.current == t
      && t in r.armed && t in r.keys && r.keys[t].deadline == s.now + ticks
  {
    hide RemoveThread, Without, Due, Listed, Placed, BitsAgree, Timed, Masked;
    var t: Tid := s.current;
    RemoveRest(wide, s, t);
    var s1 := SuspendThread(wide, s, t);
    var a := Without(s1.armed, t);
    InsertElems(a, Due(a, s1.keys, s1.now + ticks), t);
    assert t in Elems(Sleep(wide, s, ticks).armed);
  }

  lemma SleepCalm(wide: bool, s: State, ticks: nat, t: Tid)
    requires s.current in s.threads && t in s.threads && t !in s.armed && t != s.current
    ensures Calm(s, Sleep(wide, s, ticks), t)
  {
    hide SuspendThread, Arm;
    SuspendCalm(wide, s, s.current, t);
    ArmCalm(wide, SuspendThread(wide, s, s.current), s.current, ticks, t);
  }

  lemma ExitCalm(wide: bool, s: State, isStatic: bool, t: Tid)
    requires s.current in s.threads && t in s.threads && t !in s.armed
    ensures Calm(s, ExitThread(wide, s, isStatic), t)
  {
    hide RemoveThread, Without;
    RemoveRest(wide, s, s.current);
    WithoutFewer(s.armed, s.current, t);
  }

  lemma PriorityCalm(wide: bool, s: State, u: Tid, p: Prio, t: Tid)
    requires u in s.threads && Known(wide, p) && t in s.threads && t !in s.armed
    ensures Calm(s, ChangePriority(wide, s, u, p), t)
  {
    hide RemoveThread, InsertThread, AttrOf, Known;
    RemoveRest(wide, s, u);
    InsertRest(wide, SetPrio(wide, RemoveThread(wide, s, u), u, p), u);
  }

  lemma TickCalm(wide: bool, s: State, t: Tid)
    requires Inv(wide, s) && s.current in s.threads && t in s.threads && t !in s.armed
    ensures Calm(s, Ticked(wide, s), t)
  {
    hide Inv, Ticked;
    TickedExact(wide, s);
  }

  lemma FailCalm(wide: bool, s: State, u: Tid, t: Tid)
    requires u in s.threads && t in s.threads && t !in s.armed
    ensures var r := ResumeThread(wide, SetError(s, u, ERROR), u);
      t in r.threads && t !in r.armed && r.threads[t].error == if t == u then ERROR else s.threads[t].error
  {
    hide ResumeThread;
    ResumeCalm(wide, SetError(s, u, ERROR), u, t);
  }

  /** The timer of a thread that does not begin to wait stays off, whatever the step; its error code
      changes by the stores named in ErrorAfter only. */
  lemma StepCalm(wide: bool, s: State, step: Step, t: Tid)
    requires Inv(wide, s) && Enabled(wide, s, step) && t in s.threads && t !in s.armed && !OwnWait(s, step, t)
    ensures var r := Do(wide, s, step);
      t in r.threads && t !in r.armed && r.threads[t].error == ErrorAfter(s, step, t)
  {
    hide Inv, Schedule, LaunchFirst, SuspendThread, ResumeThread, ChangePriority, ExitThread, Block, Sleep, Ticked,
      Known;
    match step
    case Create(u, p, ticks) =>
    case Reschedule => ScheduleSame(wide, s);
    case Launch => LaunchOk(wide, s);
    case SuspendOne(u) => SuspendCalm(wide, s, u, t);
    case ResumeOne(u) => ResumeCalm(wide, s, u, t);
    case Prioritise(u, p) => PriorityCalm(wide, s, u, p, t);
    case Exit(isStatic) => ExitCalm(wide, s, isStatic, t);
    case BlockOn(ipc, byPrio, timeout) => BlockCalm(wide, s, ipc, byPrio, timeout, t);
    case WakeFirst(ipc) => FirstWaits(wide, s, ipc); ResumeCalm(wide, s, Queue(s.lists, WaitList(ipc))[0], t);
    case FailFirst(ipc) => FirstWaits(wide, s, ipc); FailCalm(wide, s, Queue(s.lists, WaitList(ipc))[0], t);
    case StoreError(e) =>
    case GoToSleep(ticks) => SleepCalm(wide, s, ticks, t);
    case EndSleep =>
    case EnterCritical =>
    case LeaveCritical =>
    case Tick => TickCalm(wide, s, t);
  }
}

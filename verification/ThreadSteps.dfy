/** The operations of scheduler.c, thread.c and clock.c as steps, one for each region that runs
    with interrupts disabled, and what every run of such steps keeps. */
module ThreadSteps {
  import opened ReadyBitmap
  import opened TimerOrder
  import opened WaitQueue
  import opened ThreadStates

  // rt_schedule

  /** A priority is at least as urgent as another. */
  predicate NotAfter(p: Prio, q: Prio) { p <= q }

  /** The part of rt_schedule that changes threads. */
  function Switch(wide: bool, s: State, to: Tid, insertFrom: bool): State
    requires to in s.threads && s.current in s.threads
  {
    var s1 := s.(current := to);
    var s2 := if insertFrom then InsertThread(wide, s1, s.current) else s1;
    SetStat(RemoveThread(wide, s2, to), to, Running)
  }

  /** The head of the most urgent ready queue. */
  function HighestThread(wide: bool, s: State): nat {
    var q := Queue(s.lists, ReadyList(Highest(wide, s.bits)));
    if q == [] then 0 else q[0]
  }

  /** rt_schedule. */
  function Schedule(wide: bool, s: State): State
    requires s.current in s.threads
  {
    if s.nest != 0 || s.bits.group == 0 then s
    else
      var running := s.threads[s.current].stat == Running;
      if running && s.threads[s.current].prio < Highest(wide, s.bits) then s
      else
        var to := HighestThread(wide, s);
        if to in s.threads && to != s.current then Switch(wide, s, to, running) else s
  }

  /** What the bitmap and the ready queues tell rt_schedule. */
  lemma HighestReady(wide: bool, s: State)
    requires Inv(wide, s) && s.bits.group != 0
    ensures var to := HighestThread(wide, s);
      to > 0 && to in s.threads && to != s.current && s.threads[to].stat == Ready
      && s.threads[to].prio == Highest(wide, s.bits) && Linked(s.lists, ReadyList(Highest(wide, s.bits)), to)
    ensures forall t: Tid :: t in s.threads && s.threads[t].stat == Ready ==>
        NotAfter(Highest(wide, s.bits), s.threads[t].prio)
  {
    hide Highest, Whole, Has, AttrOf, Timed;
    var p := Highest(wide, s.bits);
    HighestIs(wide, s.bits, 0);
    EmptyList(s.lists, ReadyList(p));
    var to := HighestThread(wide, s);
    assert Linked(s.lists, ReadyList(p), to);
    forall t: Tid | t in s.threads && s.threads[t].stat == Ready ensures NotAfter(p, s.threads[t].prio) {
      ReadyMarked(wide, s, t);
      HighestIs(wide, s.bits, s.threads[t].prio);
    }
  }

  lemma ReadyMarked(wide: bool, s: State, t: Tid)
    requires Inv(wide, s) && t in s.threads && s.threads[t].stat == Ready
    ensures Known(wide, s.threads[t].prio) && Has(wide, s.bits, s.threads[t].prio) && Whole(wide, s.bits)
  {
    hide Whole, Has, Known, AttrOf, Timed;
    var h := ReadyList(s.threads[t].prio);
    assert Linked(s.lists, h, t);
    EmptyList(s.lists, h);
  }

  lemma SwitchOk(wide: bool, s: State, to: Tid)
    requires Inv(wide, s) && s.current in s.threads && to in s.threads && s.threads[to].stat == Ready
    requires Linked(s.lists, ReadyList(s.threads[to].prio), to)
    ensures Inv(wide, Switch(wide, s, to, s.threads[s.current].stat == Running))
  {
    hide Listed, BitsAgree, Timed, Masked, Known, AttrOf, InsertThread, RemoveThread;
    var from: Tid := s.current;
    var s1 := s.(current := to);
    var running := s.threads[from].stat == Running;
    FromUnlisted(wide, s, from);
    NotArmed(wide, s, to);
    NotArmed(wide, s, from);
    var s2 := s1;
    if running {
      CoreAside(wide, s, from);
      assert Core(wide, s1, from);
      InsertOk(wide, s1, from);
      s2 := InsertThread(wide, s1, from);
      InsertRest(wide, s1, from);
    } else {
      assert Core(wide, s1, 0);
    }
    RemoveOk(wide, s2, to);
    RemoveRest(wide, s2, to);
    SettleOk(wide, RemoveThread(wide, s2, to), to, Running);
  }

  lemma InsertRest(wide: bool, s: State, t: Tid)
    requires t in s.threads
    ensures var r := InsertThread(wide, s, t);
      && r.armed == s.armed && r.keys == s.keys && r.current == s.current && r.nest == s.nest && r.now == s.now &&
          r.stamp == s.stamp
      && r.threads == s.threads[t := s.threads[t].(stat := if t == s.current then Running else Ready)]
  {
  }

  lemma RemoveRest(wide: bool, s: State, t: Tid)
    requires t in s.threads
    ensures var r := RemoveThread(wide, s, t);
      && r.armed == s.armed && r.keys == s.keys && r.current == s.current && r.nest == s.nest && r.now == s.now &&
          r.stamp == s.stamp
      && r.threads == s.threads
  {
  }

  /** A running thread is in no list. */
  lemma FromUnlisted(wide: bool, s: State, t: Tid)
    requires Inv(wide, s) && t in s.threads
    ensures s.threads[t].stat == Running ==> forall h :: !Linked(s.lists, h, t)
  {
    hide Placed, BitsAgree, Timed, Masked;
  }

  lemma NotArmed(wide: bool, s: State, t: Tid)
    requires Inv(wide, s) && t in s.threads
    ensures s.threads[t].stat != Suspend ==> t !in s.armed
  {
    hide Placed, BitsAgree, Listed, Masked;
  }

  lemma ScheduleOk(wide: bool, s: State)
    requires Inv(wide, s) && s.current in s.threads
    ensures Inv(wide, Schedule(wide, s))
  {
    hide Inv, Switch, Highest, HighestThread;
    if s.bits.group != 0 {
      HighestReady(wide, s);
      SwitchOk(wide, s, HighestThread(wide, s));
    }
  }

  // Suspending, resuming and timing out

  function Disarm(s: State, t: Tid): State { s.(armed := Without(s.armed, t)) }

  /** rt_timer_start: off the list, then behind every timer due no later. */
  function Arm(s: State, t: Tid, ticks: nat): State {
    s.(armed := Insert(Without(s.armed, t), s.keys, s.now + ticks, t),
       keys := s.keys[t := Key(s.now + ticks, s.stamp)], stamp := s.stamp + 1)
  }

  /** The locked region of rt_thread_suspend. */
  function SuspendNow(wide: bool, s: State, t: Tid): State
    requires t in s.threads
  {
    Disarm(SetStat(RemoveThread(wide, s, t), t, Suspend), t)
  }

  /** rt_thread_suspend, with nothing between its test and its region. */
  function SuspendThread(wide: bool, s: State, t: Tid): State
    requires t in s.threads
  {
    if s.threads[t].stat != Ready && s.threads[t].stat != Running then s else SuspendNow(wide, s, t)
  }

  function Unlist(s: State, t: Tid): State { s.(lists := Drop(s.lists, t)) }

  /** The first locked region of rt_thread_resume; the second is InsertThread. */
  function UnlinkThread(s: State, t: Tid): State { Disarm(Unlist(s, t), t) }

  /** rt_thread_resume, with nothing between its test and its regions: with interrupts disabled, as
      the IPC objects call it, or in an interrupt handler. */
  function ResumeThread(wide: bool, s: State, t: Tid): State
    requires t in s.threads
  {
    if s.threads[t].stat != Suspend then s else InsertThread(wide, UnlinkThread(s, t), t)
  }

  lemma DisarmTimed(threads: map<Tid, Thread>, armed: seq<Tid>, keys: Keys, stamp: nat, x: nat, t: Tid)
    requires Timed(threads, armed, keys, stamp, x)
    ensures Timed(threads, Without(armed, t), keys, stamp, x) && t !in Without(armed, t)
    ensures forall u :: u in Without(armed, t) <==> u in armed && u != t
    ensures x == t ==> Timed(threads, Without(armed, t), keys, stamp, 0)
  {
    WithoutOrdered(armed, keys, t);
    OrderedDistinct(armed, keys);
    WithoutMembers(armed, t);
  }

  lemma DisarmCore(wide: bool, s: State, x: nat, t: Tid)
    requires Core(wide, s, x)
    ensures Core(wide, Disarm(s, t), x) && t !in Disarm(s, t).armed
  {
    hide Listed, BitsAgree, Timed, Masked, Placed, Without;
    DisarmTimed(s.threads, s.armed, s.keys, s.stamp, x, t);
  }

  lemma SuspendOk(wide: bool, s: State, t: Tid)
    requires Inv(wide, s) && t in s.threads
    ensures Inv(wide, SuspendThread(wide, s, t))
    ensures t !in SuspendThread(wide, s, t).armed || s.threads[t].stat == Suspend
    ensures s.threads[t].stat == Running ==> t == s.current
  {
    hide Listed, BitsAgree, Timed, Masked, SuspendNow;
    NotArmed(wide, s, t);
    if s.threads[t].stat == Ready || s.threads[t].stat == Running {
      SuspendNowOk(wide, s, t);
    }
  }

  /** The locked region of rt_thread_suspend keeps the invariant even if the thread is no longer in
      the state its test has seen. */
  lemma SuspendNowOk(wide: bool, s: State, t: Tid)
    requires Inv(wide, s) && t in s.threads && s.threads[t].stat != Init
    ensures Inv(wide, SuspendNow(wide, s, t)) && t !in SuspendNow(wide, s, t).armed
  {
    hide Listed, BitsAgree, Timed, Masked, RemoveThread, Without;
    RemoveOk(wide, s, t);
    RemoveRest(wide, s, t);
    SettleOk(wide, RemoveThread(wide, s, t), t, Suspend);
    DisarmCore(wide, SetStat(RemoveThread(wide, s, t), t, Suspend), 0, t);
  }

  /** Taking a suspended thread off its wait list. */
  lemma UnlistOk(wide: bool, s: State, t: Tid)
    requires Inv(wide, s) && t in s.threads && s.threads[t].stat == Suspend
    ensures Core(wide, Unlist(s, t), t)
  {
    hide Timed, Masked, Drop, Has, Whole;
    DropListed(s.threads, s.lists, t);
    DropPlaced(s.threads, s.lists, s.current, t);
    DropMembers(s.threads, s.lists, t, 0);
    TimedAside(s.threads, s.armed, s.keys, s.stamp, t);
    forall p: Prio | ReadyList(p) in s.lists
      ensures Drop(s.lists, t)[ReadyList(p)] == [] <==> s.lists[ReadyList(p)] == []
    {
      EmptyList(s.lists, ReadyList(p));
      EmptyList(Drop(s.lists, t), ReadyList(p));
    }
  }

  lemma ResumeOk(wide: bool, s: State, t: Tid)
    requires Inv(wide, s) && t in s.threads
    ensures Inv(wide, ResumeThread(wide, s, t))
    ensures s.threads[t].stat == Suspend ==> t !in ResumeThread(wide, s, t).armed
  {
    hide Listed, BitsAgree, Timed, Masked, InsertThread, Without, Drop;
    if s.threads[t].stat == Suspend {
      UnlistOk(wide, s, t);
      DisarmCore(wide, Unlist(s, t), t, t);
      InsertOk(wide, UnlinkThread(s, t), t);
      InsertRest(wide, UnlinkThread(s, t), t);
    }
  }

  // Starting, ending and re-prioritising threads

  /** rt_thread_startup before its rt_thread_resume. */
  function PrepareThread(wide: bool, s: State, t: Tid): State
    requires t in s.threads && Known(wide, s.threads[t].initPrio)
  {
    var r := s.threads[t];
    s.(threads := s.threads[t := r.(prio := r.initPrio, attr := AttrOf(wide, r.initPrio), stat := Suspend)])
  }

  /** rt_thread_startup up to its rt_schedule, with nothing in between. */
  function StartThread(wide: bool, s: State, t: Tid): State
    requires t in s.threads && Known(wide, s.threads[t].initPrio)
  {
    ResumeThread(wide, PrepareThread(wide, s, t), t)
  }

  lemma StartOk(wide: bool, s: State, t: Tid)
    requires Inv(wide, s) && t in s.threads && s.threads[t].stat == Init
    ensures Known(wide, s.threads[t].initPrio) && Inv(wide, StartThread(wide, s, t))
  {
    hide Inv, ResumeThread, PrepareThread, Known;
    PrepareOk(wide, s, t);
    ResumeOk(wide, PrepareThread(wide, s, t), t);
  }

  lemma PrepareOk(wide: bool, s: State, t: Tid)
    requires Inv(wide, s) && t in s.threads && s.threads[t].stat == Init
    ensures Known(wide, s.threads[t].initPrio) && Inv(wide, PrepareThread(wide, s, t))
    ensures t in PrepareThread(wide, s, t).threads
  {
    hide Timed, BitsAgree, Without, Drop, AttrOf, Known;
    var r := s.threads[t];
    var r2 := r.(prio := r.initPrio, attr := AttrOf(wide, r.initPrio), stat := Suspend);
    NotArmed(wide, s, t);
    InitUnlisted(wide, s, t);
    TimedAside(s.threads, s.armed, s.keys, s.stamp, t);
    StatTimed(s.threads, s.armed, s.keys, s.stamp, t, r2);
    ListedAside(s.threads, s.lists, t);
    StatListed(s.threads, s.lists, t, r2);
  }

  lemma InitUnlisted(wide: bool, s: State, t: Tid)
    requires Inv(wide, s) && t in s.threads && s.threads[t].stat == Init
    ensures forall h :: !Linked(s.lists, h, t)
    ensures t != s.current
  {
    hide Timed, BitsAgree, Placed, Masked;
  }

  lemma ListedAside(threads: map<Tid, Thread>, l: Lists, t: Tid)
    requires Listed(threads, l, 0) && forall h :: !Linked(l, h, t)
    ensures Listed(threads, l, t)
  {
  }

  /** RT_THREAD_CTRL_CHANGE_PRIORITY. */
  function ChangePriority(wide: bool, s: State, t: Tid, p: Prio): State
    requires t in s.threads && Known(wide, p)
  {
    if s.threads[t].stat == Ready then
      InsertThread(wide, SetPrio(wide, RemoveThread(wide, s, t), t, p), t)
    else
      SetPrio(wide, s, t, p)
  }

  function SetPrio(wide: bool, s: State, t: Tid, p: Prio): State
    requires t in s.threads && Known(wide, p)
  {
    s.(threads := s.threads[t := s.threads[t].(prio := p, attr := AttrOf(wide, p))])
  }

  lemma SetPrioOk(wide: bool, s: State, t: Tid, p: Prio)
    requires t in s.threads && Known(wide, p)
    ensures Core(wide, s, t) ==> Core(wide, SetPrio(wide, s, t, p), t)
    ensures Core(wide, s, 0) && s.threads[t].stat != Ready ==> Core(wide, SetPrio(wide, s, t, p), 0)
  {
    hide Timed, BitsAgree, AttrOf, Known, Listed;
    var r := s.threads[t].(prio := p, attr := AttrOf(wide, p));
    RecordTimed(s.threads, s.armed, s.keys, s.stamp, t, r);
    RecordListed(s.threads, s.lists, t, r);
  }

  lemma RecordTimed(threads: map<Tid, Thread>, armed: seq<Tid>, keys: Keys, stamp: nat, t: Tid, r: Thread)
    requires t in threads && r.stat == threads[t].stat
    ensures forall x :: Timed(threads, armed, keys, stamp, x) ==> Timed(threads[t := r], armed, keys, stamp, x)
  {
  }

  lemma RecordListed(threads: map<Tid, Thread>, l: Lists, t: Tid, r: Thread)
    requires t in threads && r.stat == threads[t].stat
    ensures Listed(threads, l, t) ==> Listed(threads[t := r], l, t)
    ensures Listed(threads, l, 0) && r.stat != Ready ==> Listed(threads[t := r], l, 0)
  {
    forall h, u: Tid | Linked(l, h, u) && u in threads && Belongs(threads[u], h) && (u != t || r.stat != Ready)
      ensures Belongs(threads[t := r][u], h)
    {
    }
  }

  lemma ChangePriorityOk(wide: bool, s: State, t: Tid, p: Prio)
    requires Inv(wide, s) && t in s.threads && Known(wide, p)
    ensures Inv(wide, ChangePriority(wide, s, t, p))
  {
    hide Timed, BitsAgree, AttrOf, Known, Listed, Masked, RemoveThread, InsertThread;
    if s.threads[t].stat == Ready {
      NotArmed(wide, s, t);
      RemoveOk(wide, s, t);
      RemoveRest(wide, s, t);
      SetPrioOk(wide, RemoveThread(wide, s, t), t, p);
      InsertOk(wide, SetPrio(wide, RemoveThread(wide, s, t), t, p), t);
      InsertRest(wide, SetPrio(wide, RemoveThread(wide, s, t), t, p), t);
    } else {
      SetPrioOk(wide, s, t, p);
    }
  }

  /** The locked region of rt_thread_exit; a static thread without a cleanup function is detached
      at once, any other waits on the defunct list. */
  function ExitThread(wide: bool, s: State, isStatic: bool): State
    requires s.current in s.threads
  {
    var t: Tid := s.current;
    var s1 := Disarm(SetStat(RemoveThread(wide, s, t), t, Close), t);
    if isStatic then s1 else s1.(lists := s1.lists[Defunct := [t] + Queue(s1.lists, Defunct)])
  }

  lemma DefunctListed(threads: map<Tid, Thread>, l: Lists, t: Tid)
    requires Listed(threads, l, t) && Defunct in l && t in threads && threads[t].stat == Close
    ensures Listed(threads, l[Defunct := [t] + l[Defunct]], 0)
  {
    var l2 := l[Defunct := [t] + l[Defunct]];
    forall g, u: Tid | Linked(l2, g, u) ensures u in threads && Belongs(threads[u], g) {
      assert u != t || g != Defunct ==> Linked(l, g, u);
    }
    forall g, k, u: Tid | Linked(l2, g, u) && Linked(l2, k, u) ensures g == k {
      assert u != t || g != Defunct ==> Linked(l, g, u);
      assert u != t || k != Defunct ==> Linked(l, k, u);
    }
    assert !Linked(l, Defunct, t);
    DistinctPrepend(l[Defunct], t);
  }

  lemma DistinctPrepend(s: seq<Tid>, t: Tid)
    requires t !in s && forall i, j :: 0 <= i < j < |s| ==> s[i] != s[j]
    ensures var r := [t] + s; forall i, j :: 0 <= i < j < |r| ==> r[i] != r[j]
  {
  }

  lemma ExitOk(wide: bool, s: State, isStatic: bool)
    requires Inv(wide, s) && s.current in s.threads
    ensures Inv(wide, ExitThread(wide, s, isStatic))
  {
    hide Timed, BitsAgree, Masked, RemoveThread, Without, Listed, Has, Known, Whole;
    var t: Tid := s.current;
    RemoveOk(wide, s, t);
    RemoveRest(wide, s, t);
    var s1 := RemoveThread(wide, s, t);
    DisarmCore(wide, s1, t, t);
    SettleOk(wide, Disarm(s1, t), t, Close);
    var s2 := SetStat(Disarm(s1, t), t, Close);
    StatListed(s1.threads, s1.lists, t, s2.threads[t]);
    DefunctListed(s2.threads, s2.lists, t);
    DefunctBits(wide, s2.bits, s2.lists, [t] + s2.lists[Defunct]);
  }

  lemma DefunctBits(wide: bool, b: Bits, l: Lists, q: seq<Tid>)
    requires BitsAgree(wide, b, l)
    ensures BitsAgree(wide, b, l[Defunct := q])
  {
    hide Has, Whole, Known;
  }

  // Waiting

  lemma ArmTimed(threads: map<Tid, Thread>, armed: seq<Tid>, keys: Keys, stamp: nat, t: Tid, d: nat)
    requires Timed(threads, armed, keys, stamp, 0) && t in threads && threads[t].stat == Suspend
    ensures Timed(threads, Insert(Without(armed, t), keys, d, t), keys[t := Key(d, stamp)], stamp + 1, 0)
    ensures forall u :: u in Insert(Without(armed, t), keys, d, t) <==> u in armed || u == t
  {
    hide Insert, Without;
    DisarmTimed(threads, armed, keys, stamp, 0, t);
    var a := Without(armed, t);
    InsertOrdered(a, keys, t, Key(d, stamp));
    var b := Insert(a, keys, d, t);
    forall u ensures u in b <==> u in a || u == t {
      assert u in Elems(b) <==> u in Elems(a) + {t};
    }
  }

  lemma ArmOk(wide: bool, s: State, t: Tid, ticks: nat)
    requires Inv(wide, s) && t in s.threads && s.threads[t].stat == Suspend
    ensures Inv(wide, Arm(s, t, ticks)) && forall u :: u in Arm(s, t, ticks).armed <==> u in s.armed || u == t
  {
    hide Listed, Placed, BitsAgree, Masked, Timed, Insert, Without;
    ArmTimed(s.threads, s.armed, s.keys, s.stamp, t, s.now + ticks);
  }

  function Priorities(threads: map<Tid, Thread>): Prios { map t | t in threads :: threads[t].prio as int }

  /** rt_ipc_list_suspend on the current thread with its error cleared, and its timer started if
      the wait is bounded: what a blocking take, send or receive does in one locked region. */
  function Block(wide: bool, s: State, ipc: nat, byPrio: bool, timeout: int): State
    requires s.current in s.threads
  {
    var t: Tid := s.current;
    var s1 := SuspendThread(wide, s.(threads := s.threads[t := s.threads[t].(error := EOK)]), t);
    var h := WaitList(ipc);
    var q := Enqueue(Queue(s1.lists, h), Priorities(s1.threads), t, s.threads[t].prio as int, byPrio);
    var s2 := s1.(lists := s1.lists[h := q]);
    if timeout > 0 then Arm(s2, t, timeout) else s2
  }

  lemma WaitListed(threads: map<Tid, Thread>, l: Lists, t: Tid, ipc: nat, n: nat, q: seq<Tid>)
    requires Listed(threads, l, t) && t in threads && threads[t].stat == Suspend && n <= |q|
    requires q == Queue(l, WaitList(ipc))
    ensures Listed(threads, l[WaitList(ipc) := q[..n] + [t] + q[n..]], 0)
  {
    var h := WaitList(ipc);
    var r := q[..n] + [t] + q[n..];
    var l2 := l[h := r];
    EnqueueMembers(q, n, t, r);
    forall g, u: Tid | Linked(l2, g, u) ensures u in threads && Belongs(threads[u], g) {
      assert u != t || g != h ==> Linked(l, g, u);
    }
    forall g, k, u: Tid | Linked(l2, g, u) && Linked(l2, k, u) ensures g == k {
      assert u != t || g != h ==> Linked(l, g, u);
      assert u != t || k != h ==> Linked(l, k, u);
    }
    assert !Linked(l, h, t);
    DistinctInsert(q, t, n);
  }

  lemma WaitCore(wide: bool, s: State, t: Tid, ipc: nat, n: nat, q: seq<Tid>)
    requires Inv(wide, s) && t in s.threads && s.threads[t].stat == Suspend && forall h :: !Linked(s.lists, h, t)
    requires n <= |q| && q == Queue(s.lists, WaitList(ipc))
    ensures Inv(wide, s.(lists := s.lists[WaitList(ipc) := q[..n] + [t] + q[n..]]))
  {
    hide Listed, Masked, Timed, Has, Whole, Known;
    ListedAside(s.threads, s.lists, t);
    WaitListed(s.threads, s.lists, t, ipc, n, q);
  }

  lemma ErrorOk(wide: bool, s: State, t: Tid, e: int)
    requires Inv(wide, s) && t in s.threads
    ensures Inv(wide, s.(threads := s.threads[t := s.threads[t].(error := e)]))
  {
    hide Timed, BitsAgree, AttrOf, Known, Listed;
    var r := s.threads[t].(error := e);
    RecordTimed(s.threads, s.armed, s.keys, s.stamp, t, r);
    SameListed(s.threads, s.lists, t, r);
  }

  lemma SameListed(threads: map<Tid, Thread>, l: Lists, t: Tid, r: Thread)
    requires t in threads && r.stat == threads[t].stat && r.prio == threads[t].prio
    ensures forall x: nat :: Listed(threads, l, x) ==> Listed(threads[t := r], l, x)
  {
    forall h, u: Tid | Linked(l, h, u) && u in threads && Belongs(threads[u], h)
      ensures Belongs(threads[t := r][u], h)
    {
    }
  }

  /** A thread suspended just now is in no list. */
  lemma SuspendUnlisted(wide: bool, s: State, t: Tid)
    requires Inv(wide, s) && t in s.threads && (s.threads[t].stat == Ready || s.threads[t].stat == Running)
    ensures var r := SuspendThread(wide, s, t);
      && t in r.threads && r.threads[t].stat == Suspend && r.current == s.current
      && r.threads == s.threads[t := s.threads[t].(stat := Suspend)]
      && forall h :: !Linked(r.lists, h, t)
  {
    hide Timed, BitsAgree, Masked, Without, Drop, Listed;
    DropMembers(s.threads, s.lists, t, 0);
  }

  lemma BlockOk(wide: bool, s: State, ipc: nat, byPrio: bool, timeout: int)
    requires Inv(wide, s) && s.current in s.threads && s.threads[s.current].stat == Running
    ensures Inv(wide, Block(wide, s, ipc, byPrio, timeout))
  {
    hide Inv, SuspendThread, Arm, Position;
    var t: Tid := s.current;
    var s0 := s.(threads := s.threads[t := s.threads[t].(error := EOK)]);
    ErrorOk(wide, s, t, EOK);
    SuspendOk(wide, s0, t);
    SuspendUnlisted(wide, s0, t);
    var s1 := SuspendThread(wide, s0, t);
    var q := Queue(s1.lists, WaitList(ipc));
    var n := Position(q, Priorities(s1.threads), s.threads[t].prio as int, byPrio);
    WaitCore(wide, s1, t, ipc, n, q);
    if timeout > 0 {
      ArmOk(wide, s1.(lists := s1.lists[WaitList(ipc) := q[..n] + [t] + q[n..]]), t, timeout);
    }
  }

  /** The locked region of rt_thread_sleep. */
  function Sleep(wide: bool, s: State, ticks: nat): State
    requires s.current in s.threads
  {
    Arm(SuspendThread(wide, s, s.current), s.current, ticks)
  }

  lemma SleepOk(wide: bool, s: State, ticks: nat)
    requires Inv(wide, s) && s.current in s.threads && s.threads[s.current].stat != Close
    ensures Inv(wide, Sleep(wide, s, ticks))
  {
    hide SuspendThread, Arm, Listed, Placed, BitsAgree, Timed, Masked;
    var t: Tid := s.current;
    SuspendOk(wide, s, t);
    if s.threads[t].stat == Running {
      SuspendUnlisted(wide, s, t);
    } else {
      SuspendSame(wide, s, t);
    }
    ArmOk(wide, SuspendThread(wide, s, t), t, ticks);
  }

  lemma SuspendSame(wide: bool, s: State, t: Tid)
    requires t in s.threads && s.threads[t].stat == Suspend
    ensures SuspendThread(wide, s, t) == s
  {
  }
}

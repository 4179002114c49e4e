/** The single-core scheduler and the thread state machine (scheduler.c, thread.c) on values. */
module ThreadStates {
  import opened ReadyBitmap
  import opened TimerOrder
  import opened WaitQueue

  datatype Stat = Init | Ready | Suspend | Running | Close

  /** The scheduling fields of struct rt_thread; the ticks are 32-bit numbers. */
  datatype Thread = Thread(
    initPrio: Prio, prio: Prio, attr: Attr, stat: Stat, error: int, initTick: nat, remaining: nat)

  /** The list heads a thread's `tlist` can be linked to. */
  datatype Head = ReadyList(p: Prio) | WaitList(ipc: nat) | Defunct

  type Lists = map<Head, seq<Tid>>

  datatype State = State(
    threads: map<Tid, Thread>,
    lists: Lists,
    bits: Bits,
    current: nat,        // rt_current_thread
    nest: int,           // rt_scheduler_lock_nest
    armed: seq<Tid>,     // active thread timers in list order
    keys: Keys,          // their unbounded deadlines
    now: nat,
    stamp: nat           // timers started so far
  )

  // The invariant, with thread `x` set aside: it is in no list and in any state

  ghost predicate HeadsKnown(wide: bool, l: Lists) {
    Defunct in l && forall p: Prio :: Known(wide, p) ==> ReadyList(p) in l
  }

  ghost predicate Belongs(t: Thread, h: Head) {
    match h
    case ReadyList(p) => t.stat == Ready && t.prio == p
    case WaitList(_) => t.stat == Suspend
    case Defunct => t.stat == Close
  }

  predicate Linked(l: Lists, h: Head, t: Tid) { h in l && t in l[h] }

  /** Every list holds only threads whose state puts them there, and no thread twice. */
  ghost predicate Listed(threads: map<Tid, Thread>, l: Lists, x: nat) {
    && (forall h, t: Tid :: Linked(l, h, t) ==> t in threads && t != x && Belongs(threads[t], h))
    && (forall h, g, t: Tid :: Linked(l, h, t) && Linked(l, g, t) ==> h == g)
    && (forall h, i, j :: h in l && 0 <= i < j < |l[h]| ==> l[h][i] != l[h][j])
  }

  /** Ready threads wait in their priority's queue; nothing runs but the current thread. */
  ghost predicate Placed(threads: map<Tid, Thread>, l: Lists, current: nat, x: nat) {
    && (forall t: Tid :: t in threads && t != x && threads[t].stat == Ready ==>
          Linked(l, ReadyList(threads[t].prio), t))
    && (forall t: Tid :: t in threads && t != x && threads[t].stat == Running ==> t == current)
  }

  /** The current thread has been started and is not in a ready queue. */
  ghost predicate CurrentOk(s: State) {
    s.current != 0 ==>
      s.current in s.threads && s.threads[s.current].stat != Ready && s.threads[s.current].stat != Init
  }

  ghost predicate BitsAgree(wide: bool, b: Bits, l: Lists) {
    && Whole(wide, b)
    && forall p: Prio :: Known(wide, p) && ReadyList(p) in l ==> (Has(wide, b, p) <==> l[ReadyList(p)] != [])
  }

  /** The priority attributes of every started thread belong to its current priority. */
  ghost predicate Masked(wide: bool, threads: map<Tid, Thread>) {
    forall t: Tid :: t in threads ==>
      && Known(wide, threads[t].prio) && Known(wide, threads[t].initPrio)
      && (threads[t].stat != Init ==> threads[t].attr == AttrOf(wide, threads[t].prio))
  }

  /** An active thread timer implies its thread is suspended. */
  ghost predicate Timed(threads: map<Tid, Thread>, armed: seq<Tid>, keys: Keys, stamp: nat, x: nat) {
    && Ordered(armed, keys)
    && (forall t: Tid :: t in armed ==> keys[t].stamp < stamp)
    && (forall t: Tid :: t in armed && t != x ==> t in threads && threads[t].stat == Suspend)
  }

  ghost predicate Core(wide: bool, s: State, x: nat) {
    && HeadsKnown(wide, s.lists)
    && Listed(s.threads, s.lists, x)
    && Placed(s.threads, s.lists, s.current, x)
    && BitsAgree(wide, s.bits, s.lists)
    && Masked(wide, s.threads)
    && Timed(s.threads, s.armed, s.keys, s.stamp, x)
  }

  ghost predicate Inv(wide: bool, s: State) { Core(wide, s, 0) && CurrentOk(s) }

  // Elementary steps

  function Queue(l: Lists, h: Head): seq<Tid> { if h in l then l[h] else [] }

  /** rt_list_remove on a thread's node, whatever list it is in. */
  function Drop(l: Lists, t: Tid): Lists { map h | h in l :: Without(l[h], t) }

  function SetStat(s: State, t: Tid, stat: Stat): State
    requires t in s.threads
  {
    s.(threads := s.threads[t := s.threads[t].(stat := stat)])
  }

  /** rt_schedule_insert_thread. */
  function InsertThread(wide: bool, s: State, t: Tid): State
    requires t in s.threads
  {
    if t == s.current then SetStat(s, t, Running)
    else
      var h := ReadyList(s.threads[t].prio);
      SetStat(s, t, Ready).(lists := s.lists[h := Queue(s.lists, h) + [t]],
          bits := Mark(wide, s.bits, s.threads[t].attr))
  }

  /** rt_schedule_remove_thread; `t` need not be in any list. */
  function RemoveThread(wide: bool, s: State, t: Tid): State
    requires t in s.threads
  {
    var l := Drop(s.lists, t);
    s.(lists := l,
       bits := if Queue(l, ReadyList(s.threads[t].prio)) == [] then Unmark(wide, s.bits, s.threads[t].attr) else s.bits)
  }

  lemma DropMembers(threads: map<Tid, Thread>, l: Lists, t: Tid, x: nat)
    requires Listed(threads, l, x)
    ensures Drop(l, t).Keys == l.Keys
    ensures forall h, u: Tid :: Linked(Drop(l, t), h, u) <==> Linked(l, h, u) && u != t
    ensures forall h, i, j :: h in l && 0 <= i < j < |Drop(l, t)[h]| ==> Drop(l, t)[h][i] != Drop(l, t)[h][j]
  {
    forall h | h in l
      ensures forall u: Tid :: Linked(Drop(l, t), h, u) <==> Linked(l, h, u) && u != t
      ensures forall i, j :: 0 <= i < j < |Drop(l, t)[h]| ==> Drop(l, t)[h][i] != Drop(l, t)[h][j]
    {
      WithoutMembers(l[h], t);
      WithoutDistinct(l[h], t);
    }
  }

  lemma DropListed(threads: map<Tid, Thread>, l: Lists, t: Tid)
    requires Listed(threads, l, 0)
    ensures Listed(threads, Drop(l, t), t)
  {
    hide Drop;
    DropMembers(threads, l, t, 0);
  }

  lemma DropPlaced(threads: map<Tid, Thread>, l: Lists, current: nat, t: Tid)
    requires Placed(threads, l, current, 0) && Listed(threads, l, 0)
    ensures Placed(threads, Drop(l, t), current, t)
  {
    hide Drop;
    DropMembers(threads, l, t, 0);
  }

  lemma EmptyList(l: Lists, h: Head)
    requires h in l
    ensures l[h] == [] <==> forall t :: !Linked(l, h, t)
  {
    assert l[h] != [] ==> Linked(l, h, l[h][0]);
  }

  /** Only the queue of the thread's own priority can have become empty. */
  lemma RemoveBits(wide: bool, threads: map<Tid, Thread>, b: Bits, l: Lists, t: Tid)
    requires BitsAgree(wide, b, l) && Listed(threads, l, 0) && t in threads && HeadsKnown(wide, l)
    requires Known(wide, threads[t].prio)
    ensures var h := ReadyList(threads[t].prio);
      BitsAgree(wide, if Queue(Drop(l, t), h) == [] then Unmark(wide, b, AttrOf(wide, threads[t].prio))
          else b, Drop(l, t))
  {
    hide Drop, Has, Whole, AttrOf, Mark, Unmark, Known;
    DropMembers(threads, l, t, 0);
    var p := threads[t].prio;
    MarkWhole(wide, b, p);
    forall q: Prio | Known(wide, q) && ReadyList(q) in l
      ensures Drop(l, t)[ReadyList(q)] == [] <==> (l[ReadyList(q)] == [] || (q == p && Drop(l, t)[ReadyList(p)] == []))
      ensures Has(wide, Unmark(wide, b, AttrOf(wide, p)), q) <==> q != p && Has(wide, b, q)
    {
      MarkHas(wide, b, p, q);
      EmptyList(l, ReadyList(q));
      EmptyList(Drop(l, t), ReadyList(q));
    }
  }

  lemma CoreAside(wide: bool, s: State, x: nat)
    requires Core(wide, s, 0) && x > 0 && forall h :: !Linked(s.lists, h, x)
    ensures Core(wide, s, x)
  {
  }

  lemma RemoveOk(wide: bool, s: State, t: Tid)
    requires Core(wide, s, 0) && t in s.threads && s.threads[t].stat != Init
    ensures Core(wide, RemoveThread(wide, s, t), t)
  {
    hide Listed, Placed, BitsAgree, Timed, Drop, Unmark, AttrOf, Known;
    DropListed(s.threads, s.lists, t);
    DropPlaced(s.threads, s.lists, s.current, t);
    RemoveBits(wide, s.threads, s.bits, s.lists, t);
    DropMembers(s.threads, s.lists, t, 0);
    TimedAside(s.threads, s.armed, s.keys, s.stamp, t);
  }

  lemma TimedAside(threads: map<Tid, Thread>, armed: seq<Tid>, keys: Keys, stamp: nat, x: nat)
    requires Timed(threads, armed, keys, stamp, 0)
    ensures Timed(threads, armed, keys, stamp, x)
  {
  }

  lemma InsertBits(wide: bool, b: Bits, l: Lists, p: Prio, t: Tid)
    requires BitsAgree(wide, b, l) && Known(wide, p) && ReadyList(p) in l
    ensures BitsAgree(wide, Mark(wide, b, AttrOf(wide, p)), l[ReadyList(p) := l[ReadyList(p)] + [t]])
  {
    hide Has, Whole, AttrOf, Mark, Known;
    MarkWhole(wide, b, p);
    forall q: Prio | Known(wide, q) && ReadyList(q) in l
      ensures Has(wide, Mark(wide, b, AttrOf(wide, p)), q) <==> q == p || Has(wide, b, q)
    {
      MarkHas(wide, b, p, q);
    }
  }

  lemma AppendListed(threads: map<Tid, Thread>, l: Lists, t: Tid, h: Head, r: Thread)
    requires Listed(threads, l, t) && h in l && Belongs(r, h)
    ensures Listed(threads[t := r], l[h := l[h] + [t]], 0)
  {
    var l2 := l[h := l[h] + [t]];
    forall g, u: Tid | Linked(l2, g, u) ensures u in threads[t := r] && Belongs(threads[t := r][u], g) {
      assert u != t || g != h ==> Linked(l, g, u);
    }
    forall g, k, u: Tid | Linked(l2, g, u) && Linked(l2, k, u) ensures g == k {
      assert u != t || g != h ==> Linked(l, g, u);
      assert u != t || k != h ==> Linked(l, k, u);
    }
    assert !Linked(l, h, t);
    DistinctAppend(l[h], t);
  }

  lemma DistinctAppend(s: seq<Tid>, t: Tid)
    requires t !in s && forall i, j :: 0 <= i < j < |s| ==> s[i] != s[j]
    ensures var r := s + [t]; forall i, j :: 0 <= i < j < |r| ==> r[i] != r[j]
  {
  }

  lemma InsertOk(wide: bool, s: State, t: Tid)
    requires Core(wide, s, t) && t in s.threads && s.threads[t].stat != Init && t !in s.armed
    ensures Core(wide, InsertThread(wide, s, t), 0)
  {
    hide Listed, BitsAgree, Timed, Mark, AttrOf, Known;
    var p := s.threads[t].prio;
    var r := InsertThread(wide, s, t);
    if t != s.current {
      AppendListed(s.threads, s.lists, t, ReadyList(p), r.threads[t]);
      InsertBits(wide, s.bits, s.lists, p, t);
    } else {
      StatListed(s.threads, s.lists, t, r.threads[t]);
    }
    StatTimed(s.threads, s.armed, s.keys, s.stamp, t, r.threads[t]);
  }

  lemma StatListed(threads: map<Tid, Thread>, l: Lists, t: Tid, r: Thread)
    requires Listed(threads, l, t)
    ensures Listed(threads[t := r], l, t) && Listed(threads[t := r], l, 0)
  {
    forall h, u: Tid | Linked(l, h, u) ensures u in threads[t := r] && u != t && Belongs(threads[t := r][u], h) {
    }
  }

  lemma StatTimed(threads: map<Tid, Thread>, armed: seq<Tid>, keys: Keys, stamp: nat, t: Tid, r: Thread)
    requires Timed(threads, armed, keys, stamp, t) && (t in armed ==> r.stat == Suspend)
    ensures Timed(threads[t := r], armed, keys, stamp, 0)
  {
  }

  /** A thread out of every list settles in any state but Ready. */
  lemma SettleOk(wide: bool, s: State, t: Tid, stat: Stat)
    requires Core(wide, s, t) && t in s.threads && s.threads[t].stat != Init && stat != Ready
    requires (stat == Running ==> t == s.current) && (t in s.armed ==> stat == Suspend)
    ensures Core(wide, SetStat(s, t, stat), 0)
  {
    hide Listed, BitsAgree, Timed, AttrOf, Known;
    var r := s.threads[t].(stat := stat);
    StatListed(s.threads, s.lists, t, r);
    StatTimed(s.threads, s.armed, s.keys, s.stamp, t, r);
  }
}

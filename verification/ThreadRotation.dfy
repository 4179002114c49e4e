/** Round robin: threads that share the highest priority take turns, in a fixed order. */
module ThreadRotation {
  import opened ReadyBitmap
  import opened TimerOrder
  import opened WaitQueue
  import opened ThreadStates
  import opened ThreadSteps
  import opened ThreadRuns

  /** `s` with the first thread of `c` running and the others queued behind it at priority `p`. */
  ghost function Arranged(s: State, p: Prio, c: seq<Tid>): State
    requires c != []
  {
    s.(current := c[0], lists := s.lists[ReadyList(p) := c[1..]],
       threads := map t: Tid | t in s.threads ::
         if t in c then s.threads[t].(stat := if t == c[0] then Running else Ready) else s.threads[t])
  }

  ghost function Cycle(s: State, p: Prio): seq<Tid>
    requires s.current > 0
  {
    [s.current] + Queue(s.lists, ReadyList(p))
  }

  /** The current thread runs at the highest ready priority `p`, and scheduling is not locked. */
  ghost predicate TakingTurns(wide: bool, s: State, p: Prio) {
    && Inv(wide, s) && s.nest == 0 && s.current in s.threads && s.threads[s.current].stat == Running
    && s.threads[s.current].prio == p && s.bits.group != 0 && Highest(wide, s.bits) == p
  }

  function Turn(c: seq<Tid>): seq<Tid>
    requires c != []
  {
    c[1..] + [c[0]]
  }

  lemma CycleKnown(wide: bool, s: State, p: Prio)
    requires TakingTurns(wide, s, p)
    ensures ReadyList(p) in s.lists && Known(wide, p) && |Cycle(s, p)| > 1
    ensures forall i, j :: 0 <= i < j < |Cycle(s, p)| ==> Cycle(s, p)[i] != Cycle(s, p)[j]
    ensures forall t: Tid :: t in Cycle(s, p) && t != s.current ==>
        t in s.threads && s.threads[t].stat == Ready && s.threads[t].prio == p
    ensures HighestThread(wide, s) == Cycle(s, p)[1]
    ensures Has(wide, s.bits, p) && Whole(wide, s.bits)
    ensures s.threads[s.current].attr == AttrOf(wide, p)
  {
    hide Timed, Has, Whole, AttrOf, Highest;
    HighestReady(wide, s);
    var q := s.lists[ReadyList(p)];
    HighestIs(wide, s.bits, p);
    forall t: Tid | t in q ensures t in s.threads && s.threads[t].stat == Ready && s.threads[t].prio == p {
      assert Linked(s.lists, ReadyList(p), t);
    }
    assert s.current !in q;
  }

  lemma ArrangedSame(wide: bool, s: State, p: Prio)
    requires TakingTurns(wide, s, p)
    ensures Arranged(s, p, Cycle(s, p)) == s
  {
    hide Inv, Highest, Known, Has, Whole, AttrOf, HighestThread;
    CycleKnown(wide, s, p);
    var r := Arranged(s, p, Cycle(s, p));
    assert Cycle(s, p)[1..] == s.lists[ReadyList(p)];
    assert r.lists == s.lists;
    assert r.threads == s.threads;
  }

  lemma ArrangedTwice(s: State, p: Prio, c: seq<Tid>, d: seq<Tid>)
    requires c != [] && d != [] && forall t :: t in c <==> t in d
    ensures Arranged(Arranged(s, p, c), p, d) == Arranged(s, p, d)
  {
    assert Arranged(Arranged(s, p, c), p, d).threads == Arranged(s, p, d).threads;
    assert Arranged(Arranged(s, p, c), p, d).lists == Arranged(s, p, d).lists;
  }

  lemma TurnMembers(c: seq<Tid>)
    requires c != []
    ensures forall t :: t in Turn(c) <==> t in c
  {
    assert c == [c[0]] + c[1..];
  }

  /** Dropping the head of one queue touches no other list. */
  lemma DropHead(threads: map<Tid, Thread>, l: Lists, h: Head, q: seq<Tid>, from: Tid, x: nat)
    requires Listed(threads, l, x) && h in l && l[h] == q + [from] && q != []
    ensures Drop(l, q[0]) == l[h := q[1..] + [from]]
  {
    var to := q[0];
    assert (q + [from])[0] == to && (q + [from])[1..] == q[1..] + [from];
    assert Linked(l, h, to);
    forall g | g in l && g != h ensures to !in l[g] {
      assert !Linked(l, g, to);
    }
  }

  /** One yield lets the next thread of the cycle run and sends the current one to the back. */
  lemma YieldTurns(wide: bool, s: State, p: Prio)
    requires TakingTurns(wide, s, p)
    ensures Schedule(wide, s) == Arranged(s, p, Turn(Cycle(s, p)))
  {
    hide Inv, Highest, Known, Has, Whole, AttrOf, HighestThread, InsertThread, RemoveThread;
    CycleKnown(wide, s, p);
    var c := Cycle(s, p);
    var to, from: Tid := c[1], s.current;
    assert to in c;
    var s1 := s.(current := to);
    YieldInsert(wide, s, p);
    var s2 := InsertThread(wide, s1, from);
    YieldRemove(wide, s, s2, p);
    var s3 := RemoveThread(wide, s2, to);
    assert Schedule(wide, s) == SetStat(s3, to, Running);
    YieldThreads(s, p, c, s3);
  }

  lemma YieldInsert(wide: bool, s: State, p: Prio)
    requires TakingTurns(wide, s, p) && |Cycle(s, p)| > 1
    ensures var s1 := s.(current := Cycle(s, p)[1]); var h := ReadyList(p);
      && h in s.lists && Core(wide, InsertThread(wide, s1, s.current), 0)
      && InsertThread(wide, s1, s.current) ==
          SetStat(s1, s.current, Ready).(lists := s.lists[h := s.lists[h] + [s.current]])
  {
    hide Highest, Has, Whole, AttrOf, HighestThread, Listed, Placed, Timed, BitsAgree, Mark;
    CycleKnown(wide, s, p);
    assert Cycle(s, p)[0] != Cycle(s, p)[1];
    MarkSame(wide, s.bits, p);
    FromUnlisted(wide, s, s.current);
    NotArmed(wide, s, s.current);
    CoreAside(wide, s, s.current);
    var s1 := s.(current := Cycle(s, p)[1]);
    assert Core(wide, s1, s.current) by { PlacedMoved(s.threads, s.lists, s.current, s1.current); }
    InsertOk(wide, s1, s.current);
  }

  lemma PlacedMoved(threads: map<Tid, Thread>, l: Lists, c: nat, d: nat)
    requires Placed(threads, l, c, c)
    ensures Placed(threads, l, d, c)
  {
  }

  lemma YieldRemove(wide: bool, s: State, s2: State, p: Prio)
    requires s.current > 0 && |Cycle(s, p)| > 1 && ReadyList(p) in s.lists && Core(wide, s2, 0)
    requires s2.lists == s.lists[ReadyList(p) := s.lists[ReadyList(p)] + [s.current]]
    requires Cycle(s, p)[1] in s2.threads && s2.threads[Cycle(s, p)[1]].prio == p
    ensures RemoveThread(wide, s2, Cycle(s, p)[1]) == s2.(lists := s.lists[ReadyList(p) := Turn(Cycle(s, p))[1..]])
  {
    hide Placed, Timed, BitsAgree, Masked, Listed;
    var h := ReadyList(p);
    var q := s.lists[h];
    DropHead(s2.threads, s2.lists, h, q, s.current, 0);
    assert Turn(Cycle(s, p))[1..] == q[1..] + [s.current];
    assert s2.lists[h := q[1..] + [s.current]] == s.lists[h := q[1..] + [s.current]];
  }

  lemma YieldThreads(s: State, p: Prio, c: seq<Tid>, s3: State)
    requires |c| > 1 && c[0] == s.current && c[0] in s.threads && c[1] in s.threads && c[0] != c[1]
    requires s.threads[c[0]].stat == Running
    requires forall t: Tid :: t in c && t != c[0] ==> t in s.threads && s.threads[t].stat == Ready
    requires s3 == s.(current := c[1], lists := s.lists[ReadyList(p) := Turn(c)[1..]], threads := s3.threads)
    requires s3.threads == s.threads[c[0] := s.threads[c[0]].(stat := Ready)]
    ensures SetStat(s3, c[1], Running) == Arranged(s, p, Turn(c))
  {
    TurnMembers(c);
    assert Turn(c)[0] == c[1];
    var r := SetStat(s3, c[1], Running);
    var a := Arranged(s, p, Turn(c));
    forall t: Tid | t in s.threads ensures r.threads[t] == a.threads[t] {
      assert s.threads[t].(stat := s.threads[t].stat) == s.threads[t];
    }
    assert r.threads == a.threads;
  }

  ghost function Yields(wide: bool, s: State, n: nat): State
    requires Inv(wide, s) && s.current in s.threads
    decreases n
  {
    if n == 0 then s
    else
      ScheduleOk(wide, s);
      ScheduleSame(wide, s);
      Yields(wide, Schedule(wide, s), n - 1)
  }

  lemma TurnsGoOn(wide: bool, s: State, p: Prio)
    requires TakingTurns(wide, s, p)
    ensures TakingTurns(wide, Schedule(wide, s), p)
    ensures Cycle(Schedule(wide, s), p) == Turn(Cycle(s, p))
  {
    hide Inv, Highest, Known, Has, Whole, AttrOf, HighestThread, Schedule;
    CycleKnown(wide, s, p);
    ScheduleOk(wide, s);
    YieldTurns(wide, s, p);
    var c := Cycle(s, p);
    TurnMembers(c);
    assert Turn(c)[0] == c[1] && c[1] in c;
    assert [Turn(c)[0]] + Turn(c)[1..] == Turn(c);
  }

  lemma {:induction false} YieldsArranged(wide: bool, s: State, p: Prio, n: nat)
    requires TakingTurns(wide, s, p) && n <= |Cycle(s, p)|
    ensures Yields(wide, s, n) == Arranged(s, p, Cycle(s, p)[n..] + Cycle(s, p)[..n])
    decreases n
  {
    hide Inv, Highest, Schedule, Arranged;
    var c := Cycle(s, p);
    ArrangedSame(wide, s, p);
    if n == 0 {
      assert c[0..] + c[..0] == c;
    } else {
      YieldTurns(wide, s, p);
      TurnsGoOn(wide, s, p);
      var r := Schedule(wide, s);
      YieldsArranged(wide, r, p, n - 1);
      var d := Turn(c);
      assert d[n - 1..] + d[..n - 1] == c[n..] + c[..n];
      SameMembers(c, n);
      TurnMembers(c);
      ArrangedTwice(s, p, d, c[n..] + c[..n]);
    }
  }

  lemma SameMembers(c: seq<Tid>, n: nat)
    requires n <= |c|
    ensures forall t :: t in c[n..] + c[..n] <==> t in c
  {
    assert c == c[..n] + c[n..];
  }

  /** m + 1 yields among m + 1 threads that share the highest priority rotate back to the same state. */
  lemma FullTurn(wide: bool, s: State, p: Prio)
    requires TakingTurns(wide, s, p)
    ensures Yields(wide, s, |Queue(s.lists, ReadyList(p))| + 1) == s
  {
    hide Inv, Highest, Arranged;
    var c := Cycle(s, p);
    ArrangedSame(wide, s, p);
    YieldsArranged(wide, s, p, |c|);
    assert c[|c|..] + c[..|c|] == c;
  }

  /** A running thread that is alone at the highest priority yields to nobody. */
  lemma LoneYield(wide: bool, s: State)
    requires Inv(wide, s) && s.current in s.threads && s.threads[s.current].stat == Running
    requires forall t: Tid :: t in s.threads && s.threads[t].stat == Ready ==>
        s.threads[s.current].prio < s.threads[t].prio
    ensures Schedule(wide, s) == s
  {
    hide Inv, Highest, HighestThread, Switch, NotAfter;
    if s.bits.group != 0 {
      HighestReady(wide, s);
    }
  }

  // Time slices

  /** The ticks left to a thread's slice; a counter at zero wraps. */
  function SliceLength(r: Thread): (n: nat)
    ensures n > 0
  {
    (r.remaining - 1) % 0x1_0000_0000 + 1
  }

  /** With equally urgent threads ready, the tick that ends the slice of the running thread lets the
      next of them run; the thread goes to the back of their queue with a full slice. */
  lemma SliceTurns(wide: bool, s: State, p: Prio)
    requires TakingTurns(wide, s, p) && SliceLength(s.threads[s.current]) == 1
    ensures var r := Sliced(wide, s); var c := s.current; var q := Queue(s.lists, ReadyList(p));
      && q != [] && q[0] != c && q[0] in s.threads
      && r.current == q[0] && r.lists == s.lists[ReadyList(p) := q[1..] + [c]]
      && r.threads == s.threads[c := s.threads[c].(stat := Ready, remaining := s.threads[c].initTick)]
                               [q[0] := s.threads[q[0]].(stat := Running)]
      && r.now == s.now + 1 && r.nest == s.nest && r.armed == s.armed && r.keys == s.keys && r.stamp == s.stamp
    ensures TakingTurns(wide, Sliced(wide, s), p) && Cycle(Sliced(wide, s), p) == Turn(Cycle(s, p))
  {
    hide Inv, TakingTurns, Cycle, Schedule;
    CountedTurns(wide, s, p);
    var s1 := Counted(s);
    assert Sliced(wide, s) == Schedule(wide, s1);
    YieldNext(wide, s1, p);
    TurnsGoOn(wide, s1, p);
    RefilledThreads(s, s.current);
  }

  lemma CountedTurns(wide: bool, s: State, p: Prio)
    requires TakingTurns(wide, s, p)
    ensures TakingTurns(wide, Counted(s), p) && Cycle(Counted(s), p) == Cycle(s, p)
    ensures s.current > 0 && s.current in s.threads
  {
    hide Inv, Highest;
    CountedOk(wide, s);
  }

  lemma RefilledThreads(s: State, c: Tid)
    requires c in s.threads && c == s.current && SliceLength(s.threads[c]) == 1
    ensures var s1 := Counted(s);
      && s1.threads[c := s1.threads[c].(stat := Ready)] ==
         s.threads[c := s.threads[c].(stat := Ready, remaining := s.threads[c].initTick)]
      && s1.lists == s.lists && s1.current == c && s1.now == s.now + 1 && s1.nest == s.nest && s1.armed == s.armed
      && s1.keys == s.keys && s1.stamp == s.stamp
      && forall t: Tid :: t in s.threads && t != c ==> s1.threads[t] == s.threads[t]
  {
  }

  /** A yield to equally urgent threads, in full. */
  lemma YieldNext(wide: bool, s: State, p: Prio)
    requires TakingTurns(wide, s, p)
    ensures var r := Schedule(wide, s); var c := s.current; var q := Queue(s.lists, ReadyList(p));
      && c > 0 && c in s.threads && q != [] && q[0] != c && q[0] in s.threads
      && r.current == q[0] && r.lists == s.lists[ReadyList(p) := q[1..] + [c]]
      && r.threads == s.threads[c := s.threads[c].(stat := Ready)][q[0] := s.threads[q[0]].(stat := Running)]
      && r.now == s.now && r.nest == s.nest && r.armed == s.armed && r.keys == s.keys && r.stamp == s.stamp
  {
    hide Inv, Highest, Known, Has, Whole, AttrOf, HighestThread, Schedule;
    CycleKnown(wide, s, p);
    YieldTurns(wide, s, p);
    TurnedThreads(wide, s, p);
    var d, q := Cycle(s, p), Queue(s.lists, ReadyList(p));
    assert d[1..] == q && Turn(d)[1..] == q[1..] + [d[0]] && Turn(d)[0] == q[0] == d[1];
  }

  lemma TurnedThreads(wide: bool, s: State, p: Prio)
    requires TakingTurns(wide, s, p)
    ensures var c: Tid := s.current; var d := Cycle(s, p);
      |d| > 1 && d[1] in s.threads && d[1] != c &&
      Arranged(s, p, Turn(d)).threads ==
      s.threads[c := s.threads[c].(stat := Ready)][d[1] := s.threads[d[1]].(stat := Running)]
  {
    hide Inv, Highest, Known, Has, Whole, AttrOf, HighestThread;
    CycleKnown(wide, s, p);
    var c: Tid := s.current;
    var d := Cycle(s, p);
    assert d[1] in d && d[0] == c;
    TurnMembers(d);
    assert Turn(d)[0] == d[1];
    var r := Arranged(s, p, Turn(d)).threads;
    var r2 := s.threads[c := s.threads[c].(stat := Ready)][d[1] := s.threads[d[1]].(stat := Running)];
    assert r.Keys == r2.Keys;
    forall t: Tid | t in s.threads ensures r[t] == r2[t] {
      assert s.threads[t].(stat := s.threads[t].stat) == s.threads[t];
    }
  }

  /** Before that tick the running thread keeps the processor, with one tick less. */
  lemma SliceGoesOn(wide: bool, s: State)
    requires s.current in s.threads && SliceLength(s.threads[s.current]) > 1
    ensures var c: Tid := s.current;
      Sliced(wide, s) == s.(now := s.now + 1,
          threads := s.threads[c := s.threads[c].(remaining := SliceLength(s.threads[c]) - 1)])
  {
    hide SliceLength, Schedule;
    SliceLeft(s.threads[s.current]);
  }

  lemma SliceLeft(r: Thread)
    ensures (r.remaining - 1) % TICKS == SliceLength(r) - 1
  {
  }

  /** No active thread timer is due within `n` ticks. */
  ghost predicate NoneDue(s: State, n: nat) {
    forall t: Tid :: t in s.armed ==> t in s.keys && s.keys[t].deadline > s.now + n
  }

  lemma NothingFires(wide: bool, s: State)
    requires Inv(wide, s) && s.current in s.threads && NoneDue(s, 1)
    ensures Ticked(wide, s) == Sliced(wide, s)
  {
    hide Inv, Sliced, Woken;
    SlicedOk(wide, s);
    var r := Sliced(wide, s);
    if r.armed != [] {
      assert r.armed[0] in s.armed;
    }
  }

  ghost function TickedTimes(wide: bool, s: State, n: nat): (r: State)
    requires Inv(wide, s) && s.current in s.threads
    ensures Inv(wide, r) && r.current in r.threads
    decreases n
  {
    if n == 0 then s
    else
      TickedExact(wide, s);
      TickedTimes(wide, Ticked(wide, s), n - 1)
  }

  lemma {:induction false} TickedMore(wide: bool, s: State, n: nat, m: nat)
    requires Inv(wide, s) && s.current in s.threads
    ensures TickedTimes(wide, s, n + m) == TickedTimes(wide, TickedTimes(wide, s, n), m)
    decreases n
  {
    hide Inv, Ticked;
    if n > 0 {
      TickedExact(wide, s);
      TickedMore(wide, Ticked(wide, s), n - 1, m);
    }
  }

  /** One slice: the thread runs all of it and nobody else does; then the next thread of the cycle
      runs, and the slices of the others are as they were. */
  ghost predicate SliceOver(s: State, r: State, p: Prio)
    requires s.current > 0 && r.current > 0 && s.current in s.threads
  {
    && Cycle(r, p) == Turn(Cycle(s, p)) && r.threads.Keys == s.threads.Keys
    && r.threads[s.current].remaining == s.threads[s.current].initTick
    && (forall t: Tid :: t in s.threads && t != s.current ==> r.threads[t].remaining == s.threads[t].remaining)
    && r.armed == s.armed && r.keys == s.keys
  }

  lemma {:induction false} OneSlice(wide: bool, s: State, p: Prio, n: nat)
    requires TakingTurns(wide, s, p) && n == SliceLength(s.threads[s.current]) && NoneDue(s, n)
    ensures var r := TickedTimes(wide, s, n);
      TakingTurns(wide, r, p) && r.now == s.now + n && SliceOver(s, r, p)
    decreases n
  {
    hide Inv, Ticked, TakingTurns, Cycle, SliceLength, NoneDue;
    RunsOn(wide, s, p);
    FirstTick(wide, s, n);
    var r := Ticked(wide, s);
    if n == 1 {
      LastTick(wide, s, p);
      FirstTick(wide, r, 0);
    } else {
      TickInSlice(wide, s, p, n);
      OneSlice(wide, r, p, n - 1);
    }
  }

  /** The running thread has the processor for its whole slice. */
  lemma {:induction false} SliceKept(wide: bool, s: State, p: Prio, n: nat, k: nat)
    requires TakingTurns(wide, s, p) && n == SliceLength(s.threads[s.current]) && NoneDue(s, n) && k < n
    ensures TickedTimes(wide, s, k).current == s.current
    decreases n
  {
    hide *;
    RunsOn(wide, s, p);
    FirstTick(wide, s, k);
    if k > 0 {
      TickInSlice(wide, s, p, n);
      SliceKept(wide, Ticked(wide, s), p, n - 1, k - 1);
    }
  }

  lemma FirstTick(wide: bool, s: State, n: nat)
    requires Inv(wide, s) && s.current in s.threads
    ensures Inv(wide, Ticked(wide, s)) && Ticked(wide, s).current in Ticked(wide, s).threads
    ensures TickedTimes(wide, s, n) == if n == 0 then s else TickedTimes(wide, Ticked(wide, s), n - 1)
  {
    hide Inv, Ticked;
    TickedExact(wide, s);
  }

  lemma LastTick(wide: bool, s: State, p: Prio)
    requires TakingTurns(wide, s, p) && SliceLength(s.threads[s.current]) == 1 && NoneDue(s, 1)
    ensures var r := Ticked(wide, s);
      TakingTurns(wide, r, p) && r.current > 0 && r.now == s.now + 1 && SliceOver(s, r, p)
  {
    hide Inv, Ticked, TakingTurns, Cycle, SliceLength, Sliced, Woken;
    RunsOn(wide, s, p);
    NothingFires(wide, s);
    SliceTurns(wide, s, p);
    RunsOn(wide, Sliced(wide, s), p);
  }

  lemma TickInSlice(wide: bool, s: State, p: Prio, n: nat)
    requires TakingTurns(wide, s, p) && n == SliceLength(s.threads[s.current]) && n > 1 && NoneDue(s, n)
    ensures var r := Ticked(wide, s); var c := s.current;
      && TakingTurns(wide, r, p) && Cycle(r, p) == Cycle(s, p) && r.current == c > 0 && c in s.threads && c in r.threads
      && SliceLength(r.threads[c]) == n - 1 && NoneDue(r, n - 1) && r.now == s.now + 1
      && r.threads == s.threads[c := s.threads[c].(remaining := n - 1)] && r.armed == s.armed && r.keys == s.keys
  {
    hide Inv, Ticked, TakingTurns, Cycle, Sliced, Woken;
    RunsOn(wide, s, p);
    NothingFires(wide, s);
    SliceGoesOn(wide, s);
  }

  lemma RunsOn(wide: bool, s: State, p: Prio)
    requires TakingTurns(wide, s, p)
    ensures s.current > 0 && s.current in s.threads && Inv(wide, s)
    ensures SliceLength(s.threads[s.current]) > 1 ==>
      TakingTurns(wide, Sliced(wide, s), p) && Cycle(Sliced(wide, s), p) == Cycle(s, p)
  {
    hide Inv, Highest, Schedule;
    CountedTurns(wide, s, p);
  }

  /** The slices of the threads `c` together. */
  function SliceSum(threads: map<Tid, Thread>, c: seq<Tid>): nat {
    if c == [] then 0 else (if c[0] in threads then SliceLength(threads[c[0]]) else 0) + SliceSum(threads, c[1..])
  }

  lemma {:induction false} SliceSumSame(threads: map<Tid, Thread>, threads2: map<Tid, Thread>, c: seq<Tid>)
    requires forall t :: t in c ==> t in threads && t in threads2 && threads[t].remaining == threads2[t].remaining
    ensures SliceSum(threads, c) == SliceSum(threads2, c)
  {
    if c != [] {
      SliceSumSame(threads, threads2, c[1..]);
    }
  }

  /** Threads that share the highest priority take turns, one whole slice each, as long as no thread
      timer is due: after the slices of the first `n` of them, the next one runs. */
  lemma {:induction false} RoundRobin(wide: bool, s: State, p: Prio, n: nat)
    requires TakingTurns(wide, s, p) && n <= |Cycle(s, p)| && NoneDue(s, SliceSum(s.threads, Cycle(s, p)[..n]))
    ensures var r := TickedTimes(wide, s, SliceSum(s.threads, Cycle(s, p)[..n]));
      TakingTurns(wide, r, p) && Cycle(r, p) == Cycle(s, p)[n..] + Cycle(s, p)[..n]
    decreases n
  {
    hide Inv, TakingTurns, Ticked, TickedTimes, SliceLength, NoneDue, Queue;
    RunsOn(wide, s, p);
    var c := Cycle(s, p);
    if n == 0 {
      assert c[0..] + c[..0] == c && c[..0] == [];
      FirstTick(wide, s, 0);
    } else {
      var m := SliceLength(s.threads[s.current]);
      assert c[0] == s.current;
      SliceSumSplit(s.threads, c, n);
      NoneDueLess(s, SliceSum(s.threads, c[..n]), m);
      OneSlice(wide, s, p, m);
      var r := TickedTimes(wide, s, m);
      NoneDueLater(s, r, m, SliceSum(s.threads, c[1..n]));
      var d := Turn(c);
      RotateOn(c, n);
      CycleRest(wide, s, p, n);
      SliceSumSame(s.threads, r.threads, c[1..n]);
      RoundRobin(wide, r, p, n - 1);
      TickedMore(wide, s, m, SliceSum(s.threads, c[1..n]));
    }
  }

  lemma RotateOn(c: seq<Tid>, n: nat)
    requires 0 < n <= |c|
    ensures Turn(c)[..n - 1] == c[1..n]
    ensures Turn(c)[n - 1..] + Turn(c)[..n - 1] == c[n..] + c[..n]
  {
    assert Turn(c)[n - 1..] == c[n..] + [c[0]] && c[..n] == [c[0]] + c[1..n];
  }

  lemma SliceSumSplit(threads: map<Tid, Thread>, c: seq<Tid>, n: nat)
    requires 0 < n <= |c| && c[0] in threads
    ensures SliceSum(threads, c[..n]) == SliceLength(threads[c[0]]) + SliceSum(threads, c[1..n])
  {
    assert c[..n][1..] == c[1..n];
  }

  lemma NoneDueLess(s: State, n: nat, m: nat)
    requires NoneDue(s, n) && m <= n
    ensures NoneDue(s, m)
  {
  }

  lemma NoneDueLater(s: State, r: State, m: nat, k: nat)
    requires NoneDue(s, m + k) && r.armed == s.armed && r.keys == s.keys && r.now == s.now + m
    ensures NoneDue(r, k)
  {
  }

  lemma CycleRest(wide: bool, s: State, p: Prio, n: nat)
    requires TakingTurns(wide, s, p) && 0 < n <= |Cycle(s, p)|
    ensures forall t :: t in Cycle(s, p)[1..n] ==> t in s.threads && t != s.current
  {
    hide Inv, Highest, Known, Has, Whole, AttrOf, HighestThread;
    CycleKnown(wide, s, p);
    var c := Cycle(s, p);
    forall t | t in c[1..n] ensures t in s.threads && t != s.current {
      var i :| 0 <= i < |c[1..n]| && c[1..n][i] == t;
      assert c[i + 1] == t && c[0] == s.current && t in c;
    }
  }
}

/** The mutex of ipc.c on values, with priority inheritance. Smaller numbers are more urgent. */
module MutexSteps {
  import opened TimerOrder
  import opened WaitQueue


  const NOBODY: nat := 0
  const NO_PRIORITY: int := 0xff

  /** Where a thread is: outside rt_mutex_take, blocked in it, or woken and yet to run. */
  datatype Phase = Outside | Blocked(timeout: int) | Woken(error: int)

  datatype Mutex = Mutex(
    value: nat, hold: nat, owner: nat, originalPriority: int,
    waiters: seq<Tid>,          // parent.suspend_thread
    prio: Prios,                // current_priority of every thread
    phase: map<Tid, Phase>)

  // The invariant

  /** value = 1, no owner and hold = 0 go together, and a free mutex has no waiters. */
  ghost predicate Counted(m: Mutex) {
    && m.value <= 1 && m.hold <= 255
    && (m.value == 1 <==> m.owner == NOBODY) && (m.value == 1 <==> m.hold == 0)
    && (m.owner == NOBODY ==> m.waiters == [])
  }

  ghost predicate Queued(m: Mutex) {
    && m.prio.Keys == m.phase.Keys
    && (forall i, j :: 0 <= i < j < |m.waiters| ==> m.waiters[i] != m.waiters[j])
    && (forall t: Tid :: t in m.waiters <==> t in m.phase && m.phase[t].Blocked?)
    && (m.owner != NOBODY ==> m.owner in m.phase && !m.phase[m.owner].Blocked?)
  }

  /** The owner is at least as urgent as every waiter. */
  ghost predicate Inherited(m: Mutex) {
    forall t: Tid :: t in m.waiters && t in m.prio && m.owner in m.prio ==> m.prio[m.owner] <= m.prio[t]
  }

  /** Only the owner may run above its own priority, which the mutex remembers. `base` holds the
      priorities the threads have outside the mutex. */
  ghost predicate Restorable(m: Mutex, base: Prios) {
    && base.Keys == m.prio.Keys
    && (forall t: Tid :: t in m.prio && t != m.owner ==> m.prio[t] == base[t])
    && (m.owner in m.prio ==> m.prio[m.owner] <= base[m.owner] == m.originalPriority)
  }

  /** A woken thread has been told that it owns the mutex exactly if it does. */
  ghost predicate ToldRight(m: Mutex) {
    forall t: Tid :: t in m.phase && m.phase[t].Woken? ==> (m.phase[t].error == EOK <==> t == m.owner)
  }

  ghost predicate Inv(m: Mutex, base: Prios) {
    && Counted(m) && Queued(m) && Restorable(m, base) && Inherited(m) && Sorted(m.waiters, m.prio)
    && ToldRight(m)
  }

  // rt_mutex_take

  /** Storing to the 8-bit `hold`. */
  function Byte(n: int): nat { n % 256 }

  function Acquire(m: Mutex, t: Tid): Mutex
    requires t in m.prio && m.value > 0
  {
    m.(value := m.value - 1, owner := t, originalPriority := m.prio[t], hold := Byte(m.hold + 1))
  }

  /** Lending the owner the priority of a more urgent thread. */
  function Lend(m: Mutex, t: Tid): Mutex
    requires t in m.prio
  {
    if m.owner in m.prio && m.prio[t] < m.prio[m.owner] then m.(prio := m.prio[m.owner := m.prio[t]]) else m
  }

  function Suspend(m: Mutex, t: Tid, time: int, byPrio: bool): Mutex
    requires t in m.prio
  {
    m.(waiters := Enqueue(m.waiters, m.prio, t, m.prio[t], byPrio), phase := m.phase[t := Blocked(time)])
  }

  function Take(m: Mutex, t: Tid, time: int, byPrio: bool): Mutex
    requires t in m.prio
  {
    if m.owner == t then m.(hold := Byte(m.hold + 1))
    else if m.value > 0 then Acquire(m, t)
    else if time == 0 then m
    else Suspend(Lend(m, t), t, time, byPrio)
  }

  /** The woken thread runs again: it owns the mutex, or returns its error. */
  function Awake(m: Mutex, t: Tid): Mutex { m.(phase := m.phase[t := Outside]) }

  // rt_mutex_release

  /** The owner gets back the priority it had on acquiring. */
  function Restore(m: Mutex): Mutex {
    if m.owner in m.prio && m.originalPriority != m.prio[m.owner]
    then m.(prio := m.prio[m.owner := m.originalPriority]) else m
  }

  function HandOver(m: Mutex): Mutex
    requires m.waiters != [] && m.waiters[0] in m.prio
  {
    var next := m.waiters[0];
    m.(owner := next, originalPriority := m.prio[next], hold := Byte(m.hold + 1),
       waiters := m.waiters[1..], phase := m.phase[next := Woken(EOK)])
  }

  function Release(m: Mutex, t: Tid): Mutex {
    if t != m.owner then m
    else
      var m1 := m.(hold := Byte(m.hold - 1));
      if m1.hold != 0 then m1
      else
        var m2 := Restore(m1);
        if m2.waiters != [] && m2.waiters[0] in m2.prio then HandOver(m2)
        else m2.(value := m2.value + 1, owner := NOBODY, originalPriority := NO_PRIORITY)
  }

  /** rt_thread_timeout on a waiter. */
  function Expire(m: Mutex, t: Tid): Mutex {
    m.(waiters := Without(m.waiters, t), phase := m.phase[t := Woken(ETIMEOUT)])
  }

  datatype Step = TakeStart(t: Tid, time: int) | TakeEnd(t: Tid) | ReleaseOne(t: Tid) | TimeOut(t: Tid)

  ghost predicate Enabled(m: Mutex, s: Step) {
    match s
    case TakeStart(t, _) => t in m.phase && m.phase[t].Outside?
    case TakeEnd(t) => t in m.phase && m.phase[t].Woken?
    case ReleaseOne(t) => t in m.phase && m.phase[t].Outside?
    case TimeOut(t) => t in m.phase && m.phase[t].Blocked? && m.phase[t].timeout > 0
  }

  /** The nesting that `hold` cannot count: the owner's 256th take. */
  predicate TooDeep(m: Mutex, s: Step) { s.TakeStart? && s.t == m.owner && m.hold == 255 }

  function Do(m: Mutex, s: Step, byPrio: bool): Mutex {
    match s
    case TakeStart(t, time) => if t in m.prio then Take(m, t, time, byPrio) else m
    case TakeEnd(t) => Awake(m, t)
    case ReleaseOne(t) => Release(m, t)
    case TimeOut(t) => Expire(m, t)
  }

  // Every step of a priority-flagged mutex keeps the invariant

  lemma OwnerNotWaiting(m: Mutex)
    requires Queued(m)
    ensures m.owner > 0 ==> m.owner !in m.waiters
    ensures forall i :: 0 <= i < |m.waiters| ==> m.waiters[i] in m.phase && m.waiters[i] in m.prio
  {
    forall i | 0 <= i < |m.waiters| ensures m.waiters[i] in m.phase && m.waiters[i] in m.prio {
      assert m.waiters[i] in m.waiters;
    }
  }

  lemma AcquireOk(m: Mutex, base: Prios, t: Tid)
    requires Inv(m, base) && t in m.phase && m.phase[t].Outside? && m.value > 0
    ensures Inv(Acquire(m, t), base)
  {
  }

  /** Lending changes the order of no wait list: the owner is not on it. */
  lemma SortedLend(q: seq<Tid>, prio: Prios, owner: Tid, p: int)
    requires Sorted(q, prio) && owner !in q
    ensures Sorted(q, prio[owner := p])
  {
  }

  lemma LendOk(m: Mutex, base: Prios, t: Tid)
    requires Inv(m, base) && t in m.phase && t != m.owner && m.value == 0
    ensures Inv(Lend(m, t), base) && Lend(m, t).prio[m.owner] <= m.prio[t] == Lend(m, t).prio[t]
  {
    hide Sorted;
    OwnerNotWaiting(m);
    if m.prio[t] < m.prio[m.owner] {
      SortedLend(m.waiters, m.prio, m.owner, m.prio[t]);
    }
  }

  lemma SuspendOk(m: Mutex, base: Prios, t: Tid, time: int)
    requires Inv(m, base) && t in m.phase && m.phase[t].Outside? && t != m.owner && m.value == 0
    requires m.prio[m.owner] <= m.prio[t]
    ensures Inv(Suspend(m, t, time, true), base)
  {
    hide Sorted, Ahead;
    var n := Ahead(m.waiters, m.prio, m.prio[t]);
    var r := m.waiters[..n] + [t] + m.waiters[n..];
    EnqueueSorted(m.waiters, m.prio, t);
    EnqueueMembers(m.waiters, n, t, r);
    DistinctInsert(m.waiters, t, n);
  }

  lemma RestoreOk(m: Mutex, base: Prios)
    requires Counted(m) && Queued(m) && Restorable(m, base) && Sorted(m.waiters, m.prio)
    ensures Queued(Restore(m)) && Restorable(Restore(m), base) && Sorted(m.waiters, Restore(m).prio)
    ensures m.owner in m.prio ==> Restore(m).prio[m.owner] == base[m.owner]
  {
    hide Sorted;
    OwnerNotWaiting(m);
    if m.owner in m.prio && m.originalPriority != m.prio[m.owner] {
      SortedLend(m.waiters, m.prio, m.owner, m.originalPriority);
    }
  }

  lemma HandOverOk(m: Mutex, base: Prios)
    requires Queued(m) && Restorable(m, base) && Sorted(m.waiters, m.prio) && m.waiters != [] && ToldRight(m)
    requires m.owner in m.phase && m.phase[m.owner].Outside?
    requires m.value == 0 && m.hold == 0 && m.owner in m.prio && m.prio[m.owner] == base[m.owner]
    ensures m.waiters[0] in m.prio && Inv(HandOver(m), base)
  {
    OwnerNotWaiting(m);
    var next := m.waiters[0];
    assert next in m.waiters;
    FirstAway(m.waiters, m.prio);
  }

  /** The first of a sorted wait list is at least as urgent as the rest. */
  lemma FirstAway(q: seq<Tid>, prio: Prios)
    requires q != [] && Sorted(q, prio) && forall i, j :: 0 <= i < j < |q| ==> q[i] != q[j]
    ensures Sorted(q[1..], prio) && forall i, j :: 0 <= i < j < |q[1..]| ==> q[1..][i] != q[1..][j]
    ensures forall t: Tid :: t in q[1..] <==> t in q && t != q[0]
    ensures forall t: Tid :: t in q[1..] && t in prio && q[0] in prio ==> prio[q[0]] <= prio[t]
  {
    var r := q[1..];
    assert q == [q[0]] + r;
    forall t: Tid | t in r && t in prio && q[0] in prio ensures prio[q[0]] <= prio[t] {
      var k :| 0 <= k < |r| && r[k] == t;
      assert q[k + 1] == t;
    }
  }

  lemma ReleaseOk(m: Mutex, base: Prios, t: Tid)
    requires Inv(m, base) && t in m.phase && m.phase[t].Outside?
    ensures Inv(Release(m, t), base)
  {
    hide Sorted, Restore, HandOver;
    if t == m.owner {
      var m1 := m.(hold := Byte(m.hold - 1));
      if m1.hold == 0 {
        RestoreOk(m.(hold := 1), base);
        RestoreHold(m);
        var m2 := Restore(m1);
        if m2.waiters != [] {
          HandOverOk(m2, base);
        } else {
          EmptySorted(m2.prio);
        }
      }
    }
  }

  lemma RestoreHold(m: Mutex)
    ensures forall h: nat :: Restore(m.(hold := h)) == Restore(m).(hold := h)
    ensures Restore(m).owner == m.owner && Restore(m).waiters == m.waiters && Restore(m).value == m.value
    ensures Restore(m).phase == m.phase
  {
  }

  lemma EmptySorted(prio: Prios)
    ensures Sorted([], prio)
  {
  }

  lemma WithoutSorted(q: seq<Tid>, prio: Prios, t: Tid)
    requires Sorted(q, prio) && forall i, j :: 0 <= i < j < |q| ==> q[i] != q[j]
    ensures Sorted(Without(q, t), prio)
    ensures forall i, j :: 0 <= i < j < |Without(q, t)| ==> Without(q, t)[i] != Without(q, t)[j]
    ensures forall x :: x in Without(q, t) <==> x in q && x != t
  {
    hide Without;
    WithoutMembers(q, t);
    if t in q {
      var k :| 0 <= k < |q| && q[k] == t;
      WithoutAt(q, k);
      CutSorted(q, prio, k);
    }
  }

  lemma CutSorted(q: seq<Tid>, prio: Prios, k: nat)
    requires Sorted(q, prio) && k < |q| && forall i, j :: 0 <= i < j < |q| ==> q[i] != q[j]
    ensures Sorted(q[..k] + q[k + 1..], prio)
    ensures var r := q[..k] + q[k + 1..]; forall i, j :: 0 <= i < j < |r| ==> r[i] != r[j]
  {
    var r := q[..k] + q[k + 1..];
    assert forall i :: 0 <= i < |r| ==> r[i] == q[if i < k then i else i + 1];
  }

  lemma ExpireOk(m: Mutex, base: Prios, t: Tid)
    requires Inv(m, base) && t in m.phase && m.phase[t].Blocked?
    ensures Inv(Expire(m, t), base)
  {
    hide Sorted, Without;
    WithoutSorted(m.waiters, m.prio, t);
  }

  /** Every step keeps the invariant, except the owner's 256th nested take, which wraps `hold`. */
  lemma StepOk(m: Mutex, base: Prios, s: Step)
    requires Inv(m, base) && Enabled(m, s)
    ensures Inv(Do(m, s, true), base) <==> !TooDeep(m, s)
  {
    hide Inv, Acquire, Lend, Suspend, Release, Expire, Sorted;
    Members(m, base);
    match s
    case TakeStart(t, time) =>
      if m.owner == t {
        RecursionExact(m, base, t, time);
      } else if m.value > 0 {
        AcquireOk(m, base, t);
      } else if time != 0 {
        LendOk(m, base, t);
        LendRest(m, t);
        SuspendOk(Lend(m, t), base, t, time);
      }
    case TakeEnd(t) => AwakeOk(m, base, t);
    case ReleaseOne(t) => ReleaseOk(m, base, t);
    case TimeOut(t) => ExpireOk(m, base, t);
  }

  lemma Members(m: Mutex, base: Prios)
    requires Inv(m, base)
    ensures m.prio.Keys == m.phase.Keys && m.value <= 1 && m.hold <= 255
  {
  }

  lemma AwakeOk(m: Mutex, base: Prios, t: Tid)
    requires Inv(m, base) && t in m.phase && m.phase[t].Woken?
    ensures Inv(Awake(m, t), base)
  {
    hide Sorted;
  }

  lemma LendRest(m: Mutex, t: Tid)
    requires t in m.prio
    ensures Lend(m, t).phase == m.phase && Lend(m, t).owner == m.owner && Lend(m, t).value == m.value
  {
  }

  // What a step does, call by call

  /** A take: the owner counts it; a free mutex is the caller's; a caller that is to wait lends the owner its
      priority, if that is the more urgent one, and joins the waiters. */
  ghost predicate Taken(m: Mutex, c: Mutex, t: Tid, time: int, byPrio: bool)
    requires t in m.prio && (m.owner != NOBODY ==> m.owner in m.prio)
  {
    if m.owner == t then c == m.(hold := c.hold) && c.hold == (m.hold + 1) % 256
    else if m.owner == NOBODY then
      c == m.(owner := t, value := 0, hold := 1, originalPriority := m.prio[t])
    else if time == 0 then c == m
    else
      && m.owner in c.prio
      && c == m.(waiters := c.waiters, prio := m.prio[m.owner := c.prio[m.owner]], phase := m.phase[t := Blocked(time)])
      && c.prio[m.owner] <= m.prio[m.owner] && c.prio[m.owner] <= m.prio[t]
      && (c.prio[m.owner] == m.prio[m.owner] || c.prio[m.owner] == m.prio[t])
      && Joined(m.waiters, c.waiters, m.prio, t, m.prio[t], byPrio)
  }

  /** A release: nothing, unless by the owner; one take less; or, for the last, the owner's priority is what
      it was, and the first waiter owns the mutex, told so, or nobody does. */
  ghost predicate Released(m: Mutex, c: Mutex, t: Tid) {
    if t != m.owner then c == m
    else if m.hold != 1 then c == m.(hold := c.hold) && c.hold == (m.hold - 1) % 256
    else
      && c.prio == m.prio[t := m.originalPriority]
      && (if m.waiters == [] then
            c == m.(prio := c.prio, owner := NOBODY, value := 1, hold := 0, originalPriority := NO_PRIORITY)
          else
            && m.waiters[0] in c.prio
            && c == m.(prio := c.prio, owner := m.waiters[0], originalPriority := c.prio[m.waiters[0]],
                       waiters := m.waiters[1..], phase := m.phase[m.waiters[0] := Woken(EOK)]))
  }

  /** A wait runs out of time. */
  ghost predicate TimedOut(m: Mutex, c: Mutex, t: Tid) {
    c == m.(waiters := c.waiters, phase := m.phase[t := Woken(ETIMEOUT)]) && Parted(m.waiters, c.waiters, t)
  }

  lemma TakeDoes(m: Mutex, base: Prios, t: Tid, time: int, byPrio: bool)
    requires Inv(m, base) && t in m.phase && m.phase[t].Outside?
    ensures t in m.prio && Taken(m, Do(m, TakeStart(t, time), byPrio), t, time, byPrio)
  {
    hide Sorted, Ahead, Enqueue, Joined;
    OwnerNotWaiting(m);
    if m.owner != t && m.value == 0 {
      var m1 := Lend(m, t);
      EnqueueJoined(m.waiters, m1.prio, t, m.prio[t], byPrio);
      JoinedSame(m.waiters, Enqueue(m.waiters, m1.prio, t, m.prio[t], byPrio), m1.prio, m.prio, t, m.prio[t], byPrio);
    }
  }

  /** Only the priorities of the waiters matter. */
  lemma JoinedSame(q: seq<Tid>, r: seq<Tid>, prio: Prios, prio2: Prios, t: Tid, p: int, byPrio: bool)
    requires Joined(q, r, prio, t, p, byPrio)
    requires forall i :: 0 <= i < |q| ==> q[i] in prio && q[i] in prio2 && prio[q[i]] == prio2[q[i]]
    ensures Joined(q, r, prio2, t, p, byPrio)
  {
    var n: nat :| JoinedAt(q, r, prio, t, p, byPrio, n);
    assert JoinedAt(q, r, prio2, t, p, byPrio, n);
  }

  lemma ReleaseDoes(m: Mutex, base: Prios, t: Tid)
    requires Inv(m, base) && t in m.phase && m.phase[t].Outside?
    ensures Released(m, Release(m, t), t)
  {
    hide Sorted;
    OwnerNotWaiting(m);
    if t == m.owner && m.hold == 1 {
      assert m.prio[t := m.originalPriority] == Restore(m.(hold := 0)).prio;
    }
  }

  lemma ExpireDoes(m: Mutex, base: Prios, t: Tid)
    requires Inv(m, base) && t in m.phase && m.phase[t].Blocked?
    ensures TimedOut(m, Expire(m, t), t)
  {
    hide Sorted, Without, Parted;
    WithoutParted(m.waiters, t);
  }

  // Runs

  /** The steps are possible one after the other. */
  ghost predicate Possible(m: Mutex, steps: seq<Step>, byPrio: bool)
    decreases |steps|
  {
    steps == [] || (Enabled(m, steps[0]) && Possible(Do(m, steps[0], byPrio), steps[1..], byPrio))
  }

  /** No step nests the owner's takes more than 255 deep. */
  ghost predicate Shallow(m: Mutex, steps: seq<Step>, byPrio: bool)
    decreases |steps|
  {
    steps == [] || (!TooDeep(m, steps[0]) && Shallow(Do(m, steps[0], byPrio), steps[1..], byPrio))
  }

  function Run(m: Mutex, steps: seq<Step>, byPrio: bool): Mutex
    decreases |steps|
  {
    if steps == [] then m else Run(Do(m, steps[0], byPrio), steps[1..], byPrio)
  }

  ghost predicate InvAlong(m: Mutex, base: Prios, steps: seq<Step>)
    decreases |steps|
  {
    Inv(m, base) && (steps == [] || InvAlong(Do(m, steps[0], true), base, steps[1..]))
  }

  /** Over a whole run of a priority-flagged mutex the invariant holds all along exactly if the
      8-bit hold is never asked to count a 256th take. */
  lemma {:induction false} RunExact(m: Mutex, base: Prios, steps: seq<Step>)
    requires Inv(m, base) && Possible(m, steps, true)
    ensures InvAlong(m, base, steps) <==> Shallow(m, steps, true)
    ensures Shallow(m, steps, true) ==> Inv(Run(m, steps, true), base)
    decreases |steps|
  {
    hide Inv, Do, Enabled, TooDeep;
    if steps != [] {
      StepOk(m, base, steps[0]);
      if !TooDeep(m, steps[0]) {
        RunExact(Do(m, steps[0], true), base, steps[1..]);
      }
    }
  }

  /** However long a thread owned the mutex, waited for it, inherited priorities or timed out in
      between: whenever it does not own the mutex it runs at the priority it came with, and the
      owner is as urgent as every waiter. */
  lemma PriorityRestored(m: Mutex, base: Prios, steps: seq<Step>, t: Tid)
    requires Inv(m, base) && Possible(m, steps, true) && Shallow(m, steps, true) && t in m.prio && t != m.owner
    ensures var r := Run(m, steps, true);
      && t in r.prio && (t != r.owner ==> r.prio[t] == m.prio[t]) && (t == r.owner ==> r.prio[t] <= m.prio[t])
      && forall w: Tid :: w in r.waiters && w in r.prio && r.owner in r.prio ==> r.prio[r.owner] <= r.prio[w]
  {
    hide Counted, Queued, Sorted, Do, Possible, Shallow, InvAlong, Run;
    RunExact(m, base, steps);
  }

  // Exactly when the code keeps the invariant

  /** Taking a mutex one already owns keeps the invariant unless the 8-bit hold wraps to zero. */
  lemma RecursionExact(m: Mutex, base: Prios, t: Tid, time: int)
    requires Inv(m, base) && t in m.phase && m.phase[t].Outside? && m.owner == t
    ensures Inv(Do(m, TakeStart(t, time), true), base) <==> m.hold < 255
  {
    hide Sorted, Queued, Restorable, Inherited, ToldRight;
    TakeFields(m, base, t, time);
  }

  lemma TakeFields(m: Mutex, base: Prios, t: Tid, time: int)
    requires Inv(m, base) && t in m.phase && m.owner == t
    ensures var r := Do(m, TakeStart(t, time), true);
      && r == m.(hold := Byte(m.hold + 1)) && Queued(r) && Restorable(r, base) && Inherited(r) &&
          Sorted(r.waiters, r.prio) && ToldRight(r)
  {
    hide Sorted;
  }

  /** At a hand-over the new owner is not boosted. It is as urgent as the remaining waiters exactly
      if the first waiter was: always when they wait by priority, not always when first in, first out. */
  lemma HandOverExact(m: Mutex, t: Tid)
    requires Counted(m) && Queued(m) && t == m.owner && t in m.phase && m.hold == 1 && m.waiters != []
    ensures m.waiters[0] in m.prio && m.waiters[0] != t
    ensures Inherited(Release(m, t)) <==> forall w: Tid :: w in m.waiters && w in m.prio ==>
        m.prio[m.waiters[0]] <= m.prio[w]
  {
    OwnerNotWaiting(m);
    var next := m.waiters[0];
    assert next in m.waiters;
    var r := Release(m, t);
    assert r.owner == next && r.waiters == m.waiters[1..];
    forall w: Tid ensures w in m.waiters <==> w == next || w in r.waiters {
      assert m.waiters == [next] + m.waiters[1..];
    }
    forall w: Tid | w in m.waiters && w in m.prio ensures w in r.prio && r.prio[w] == m.prio[w] {
    }
  }

  /** A mutex as rt_mutex_init leaves it, for threads with the given priorities. */
  function Fresh(prio: Prios): Mutex {
    Mutex(1, 0, NOBODY, NO_PRIORITY, [], prio, map t | t in prio :: Outside)
  }

  /** First in, first out: `a` takes a fresh mutex, `b` and then `c` wait for it, and `a` releases it.
      `b` has inherited the mutex, and it is less urgent than `c`, which waits for it, just if it
      came with a larger priority number. */
  lemma FifoInversion(prio: Prios, a: Tid, b: Tid, c: Tid)
    requires {a, b, c} <= prio.Keys && a != b && b != c && c != a
    ensures var steps := [TakeStart(a, -1), TakeStart(b, -1), TakeStart(c, -1), ReleaseOne(a)];
      var r := Run(Fresh(prio), steps, false);
      && Inv(Fresh(prio), prio) && Possible(Fresh(prio), steps, false) && Shallow(Fresh(prio), steps, false)
      && r.owner == b && r.waiters == [c] && r.prio == prio && (Inherited(r) <==> prio[b] <= prio[c])
  {
    hide Do, Enabled, TooDeep, Inv, Inherited;
    FifoTaken(prio, a);
    var m1 := Do(Fresh(prio), TakeStart(a, -1), false);
    var _ := FifoWait(m1, b);
    var m2 := Do(m1, TakeStart(b, -1), false);
    var _ := FifoWait(m2, c);
    var m3 := Do(m2, TakeStart(c, -1), false);
    FifoReleased(prio, m3, a, b, c);
    RunOne(m3, ReleaseOne(a), []);
    RunOne(m2, TakeStart(c, -1), [ReleaseOne(a)]);
    RunOne(m1, TakeStart(b, -1), [TakeStart(c, -1), ReleaseOne(a)]);
    RunOne(Fresh(prio), TakeStart(a, -1), [TakeStart(b, -1), TakeStart(c, -1), ReleaseOne(a)]);
  }

  lemma FifoTaken(prio: Prios, t: Tid)
    requires t in prio
    ensures var m := Fresh(prio); Inv(m, prio) && Enabled(m, TakeStart(t, -1)) && !TooDeep(m, TakeStart(t, -1))
    ensures Do(Fresh(prio), TakeStart(t, -1), false) == Mutex(0, 1, t, prio[t], [], prio, Fresh(prio).phase)
  {
  }

  lemma FifoWait(m: Mutex, t: Tid) returns (p: int)
    requires t in m.prio && m.owner in m.prio && m.owner != t && m.value == 0 && t in m.phase && m.phase[t].Outside?
    ensures Enabled(m, TakeStart(t, -1)) && !TooDeep(m, TakeStart(t, -1))
    ensures Do(m, TakeStart(t, -1), false) ==
            m.(waiters := m.waiters + [t], phase := m.phase[t := Blocked(-1)], prio := m.prio[m.owner := p])
  {
    assert m.waiters[..|m.waiters|] == m.waiters && m.waiters[|m.waiters|..] == [];
    p := if m.prio[t] < m.prio[m.owner] then m.prio[t] else m.prio[m.owner];
    assert Lend(m, t) == m.(prio := m.prio[m.owner := p]);
  }

  lemma FifoReleased(prio: Prios, m: Mutex, a: Tid, b: Tid, c: Tid)
    requires {a, b, c} <= prio.Keys && a != b && b != c && c != a
    requires m.owner == a && m.hold == 1 && m.waiters == [b, c] && a in m.phase && m.phase[a].Outside?
    requires a in m.prio && m.prio[a := prio[a]] == prio && m.originalPriority == prio[a]
    ensures Enabled(m, ReleaseOne(a)) && !TooDeep(m, ReleaseOne(a))
    ensures var r := Do(m, ReleaseOne(a), false);
      r.owner == b && r.waiters == [c] && r.prio == prio && (Inherited(r) <==> prio[b] <= prio[c])
  {
    assert Restore(m.(hold := 0)).prio == prio;
    var r := Do(m, ReleaseOne(a), false);
    assert r.waiters == [c] && c in r.waiters;
  }

  lemma RunOne(m: Mutex, a: Step, rest: seq<Step>)
    ensures var all, m1 := [a] + rest, Do(m, a, false);
      && Run(m, all, false) == Run(m1, rest, false)
      && (Possible(m, all, false) <==> Enabled(m, a) && Possible(m1, rest, false))
      && (Shallow(m, all, false) <==> !TooDeep(m, a) && Shallow(m1, rest, false))
  {
    hide Do, Enabled, TooDeep;
    assert ([a] + rest)[1..] == rest;
  }

  // Recursion

  function TakeTimes(m: Mutex, t: Tid, n: nat): Mutex
    requires t in m.prio
    decreases n
  {
    if n == 0 then m else
      var r := Take(m, t, 0, true);
      if t in r.prio then TakeTimes(r, t, n - 1) else r
  }

  function ReleaseTimes(m: Mutex, t: Tid, n: nat): Mutex
    decreases n
  {
    if n == 0 then m else ReleaseTimes(Release(m, t), t, n - 1)
  }

  /** The owner's `n` further takes are undone by as many releases, and by no fewer. */
  lemma {:induction false} NestedRoundTrip(m: Mutex, base: Prios, t: Tid, n: nat)
    requires Inv(m, base) && t in m.prio && m.owner == t && m.hold + n <= 255
    ensures TakeTimes(m, t, n) == m.(hold := m.hold + n)
    ensures ReleaseTimes(TakeTimes(m, t, n), t, n) == m
    ensures forall k: nat :: k < n ==> ReleaseTimes(TakeTimes(m, t, n), t, k) != m
    decreases n
  {
    hide Sorted, Restorable, Inherited, Restore;
    if n > 0 {
      TakeFields(m, base, t, 0);
      var r := Take(m, t, 0, true);
      NestedRoundTrip(r, base, t, n - 1);
    }
    ReleaseSome(m, t, n, n);
    forall k: nat | k < n ensures ReleaseTimes(TakeTimes(m, t, n), t, k) != m {
      ReleaseSome(m, t, n, k);
    }
  }

  lemma {:induction false} ReleaseSome(m: Mutex, t: Tid, n: nat, k: nat)
    requires m.owner == t && 0 < m.hold && m.hold + n <= 255 && k <= n
    ensures ReleaseTimes(m.(hold := m.hold + n), t, k) == m.(hold := m.hold + (n - k))
    decreases k
  {
    hide Restore, HandOver;
    if k > 0 {
      assert Release(m.(hold := m.hold + n), t) == m.(hold := m.hold + (n - 1));
      ReleaseSome(m, t, n - 1, k - 1);
    }
  }
}

/** The mutex object of ipc.c with RT_IPC_FLAG_PRIO, changed in place. */
module Mutexes {
  import opened TimerOrder
  import opened WaitQueue
  import opened MutexSteps

  datatype Outcome = Suspended | Returned(error: int)

  class Mutex {
    var value: nat
    var hold: nat
    var owner: nat
    var originalPriority: int
    var waiters: seq<Tid>
    var prio: Prios                 // the threads' current_priority
    var phase: map<Tid, Phase>
    ghost const base: Prios

    ghost function S(): MutexSteps.Mutex
      reads this
    {
      MutexSteps.Mutex(value, hold, owner, originalPriority, waiters, prio, phase)
    }

    ghost predicate Valid()
      reads this
    {
      Inv(S(), base)
    }

    /** rt_mutex_init, for threads with the given priorities. */
    constructor (prio: Prios)
      ensures Valid() && owner == NOBODY && this.prio == prio == base
      ensures forall t :: t in prio ==> t in phase && phase[t] == Outside
    {
      value, hold, owner, originalPriority := 1, 0, NOBODY, NO_PRIORITY;
      waiters := [];
      this.prio := prio;
      base := prio;
      phase := map t | t in prio :: Outside;
    }

    /** rt_mutex_take up to its return or suspension. */
    method TakeUp(t: Tid, time: int) returns (r: Outcome)
      requires Valid() && Enabled(S(), TakeStart(t, time))
      modifies `value, `hold, `owner, `originalPriority, `waiters, `prio, `phase
      ensures S() == Do(old(S()), TakeStart(t, time), true) && (Valid() <==> !(old(owner) == t && old(hold) == 255))
      ensures r == if old(owner) == t || old(owner) == NOBODY then Returned(EOK)
                   else if time == 0 then Returned(ETIMEOUT) else Suspended
      ensures r == Returned(EOK) <==> owner == t
      ensures t in old(prio) && (old(owner) != NOBODY ==> old(owner) in old(prio))
      ensures Taken(old(S()), S(), t, time, true)
      ensures r == Suspended ==> t in phase && phase[t] == Blocked(time)
      ensures r == Suspended ==> owner == old(owner) && owner in prio && t in prio && prio[owner] <= prio[t]
    {
      hide Inv, Ahead, Taken;
      StepOk(S(), base, TakeStart(t, time));
      TakeDoes(S(), base, t, time, true);
      TakeFacts(S(), base, t);
      if owner == t {
        hold := Byte(hold + 1);
        return Returned(EOK);
      }
      if value > 0 {
        value := value - 1;
        owner := t;
        originalPriority := prio[t];
        hold := Byte(hold + 1);
        return Returned(EOK);
      }
      if time == 0 {
        return Returned(ETIMEOUT);
      }
      if prio[t] < prio[owner] {
        prio := prio[owner := prio[t]];
      }
      var n := Search(waiters, prio, prio[t], true);
      waiters := waiters[..n] + [t] + waiters[n..];
      phase := phase[t := Blocked(time)];
      r := Suspended;
    }

    /** rt_mutex_take after the thread has been woken: it returns without an error exactly if it owns the
        mutex. */
    method TakeOver(t: Tid) returns (error: int)
      requires Valid() && Enabled(S(), TakeEnd(t))
      modifies `phase
      ensures Valid() && S() == Do(old(S()), TakeEnd(t), true) && error == old(phase[t].error)
      ensures (error == EOK <==> owner == t) && phase == old(phase)[t := Outside]
    {
      hide Inv;
      TookFacts(S(), base, t);
      StepOk(S(), base, TakeEnd(t));
      error := phase[t].error;
      phase := phase[t := Outside];
    }

    /** rt_mutex_release: only the owner can release. The last release gives back its priority, and
        the mutex goes to the most urgent waiter or becomes free. */
    method GiveBack(t: Tid) returns (error: int, schedule: bool)
      requires Valid() && Enabled(S(), ReleaseOne(t))
      modifies `value, `hold, `owner, `originalPriority, `waiters, `prio, `phase
      ensures Valid() && S() == Do(old(S()), ReleaseOne(t), true)
      ensures error == if t == old(owner) then EOK else ERROR
      ensures t == old(owner) && old(hold) == 1 ==> owner != t && t in prio && t in base && prio[t] == base[t]
      ensures schedule <==> t == old(owner) && old(hold) == 1 && old(waiters) != []
      ensures schedule ==> owner == old(waiters)[0] && owner in phase && phase[owner] == Woken(EOK)
      ensures Released(old(S()), S(), t)
      ensures schedule ==>
        old(forall w: Tid :: w in waiters && w in prio && waiters[0] in prio ==> prio[waiters[0]] <= prio[w])
    {
      hide Inv, Released;
      StepOk(S(), base, ReleaseOne(t));
      ReleaseDoes(S(), base, t);
      ReleaseFacts(S(), base, t);
      schedule := false;
      if t != owner {
        return ERROR, false;
      }
      error := EOK;
      hold := Byte(hold - 1);
      if hold == 0 {
        if originalPriority != prio[owner] {
          prio := prio[owner := originalPriority];
        }
        if waiters != [] {
          var next := waiters[0];
          owner := next;
          originalPriority := prio[next];
          hold := Byte(hold + 1);
          waiters := waiters[1..];
          phase := phase[next := Woken(EOK)];
          schedule := true;
        } else {
          value := value + 1;
          owner := NOBODY;
          originalPriority := NO_PRIORITY;
        }
      }
    }

    /** rt_thread_timeout on a waiter. */
    method ThreadTimeout(t: Tid)
      requires Valid() && Enabled(S(), TimeOut(t))
      modifies `waiters, `phase
      ensures Valid() && S() == Do(old(S()), TimeOut(t), true) && TimedOut(old(S()), S(), t)
      ensures t in phase && phase[t] == Woken(ETIMEOUT)
    {
      hide Inv, Parted;
      ExpireDoes(S(), base, t);
      StepOk(S(), base, TimeOut(t));
      waiters := Without(waiters, t);
      phase := phase[t := Woken(ETIMEOUT)];
    }
  }

  lemma TakeFacts(m: MutexSteps.Mutex, base: Prios, t: Tid)
    requires Inv(m, base) && t in m.phase
    ensures t in m.prio && (m.value > 0 <==> m.owner == NOBODY) && (m.value == 0 ==> m.owner in m.prio)
    ensures forall i :: 0 <= i < |m.waiters| ==> m.waiters[i] in m.prio
  {
    OwnerNotWaiting(m);
  }

  lemma TookFacts(m: MutexSteps.Mutex, base: Prios, t: Tid)
    requires Inv(m, base) && t in m.phase && m.phase[t].Woken?
    ensures m.phase[t].error == EOK <==> m.owner == t
  {
  }

  lemma ReleaseFacts(m: MutexSteps.Mutex, base: Prios, t: Tid)
    requires Inv(m, base) && t in m.phase
    ensures t in m.prio && t in base
    ensures m.owner == t ==> m.originalPriority == base[t] && m.hold >= 1 && m.hold <= 255 && t !in m.waiters
    ensures m.waiters != [] ==> m.waiters[0] in m.prio
    ensures forall w: Tid :: w in m.waiters && w in m.prio && m.waiters[0] in m.prio ==>
        m.prio[m.waiters[0]] <= m.prio[w]
  {
    OwnerNotWaiting(m);
    forall w: Tid | w in m.waiters && w in m.prio && m.waiters[0] in m.prio ensures m.prio[m.waiters[0]] <= m.prio[w] {
      var k :| 0 <= k < |m.waiters| && m.waiters[k] == w;
    }
  }
}

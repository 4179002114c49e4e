/** The event object of ipc.c, changed in place. */
module Events {
  import opened TimerOrder
  import opened WaitQueue
  import opened EventSteps

  datatype Outcome = Suspended | Returned(error: int, got: bv32)

  class Event {
    const byPrio: bool
    var flags: bv32               // set
    var waiters: seq<Tid>         // parent.suspend_thread
    var phase: map<Tid, Phase>

    ghost function S(): EventSteps.Event
      reads this
    {
      EventSteps.Event(flags, waiters, phase)
    }

    ghost predicate Valid()
      reads this
    {
      Inv(S())
    }

    /** rt_event_init. */
    constructor (byPrio: bool, threads: set<Tid>)
      ensures Valid() && flags == 0 && waiters == [] && this.byPrio == byPrio
      ensures phase == map t | t in threads :: Outside
    {
      this.byPrio := byPrio;
      flags := 0;
      waiters := [];
      phase := map t | t in threads :: Outside;
    }

    /** rt_event_send: a loop over the waiters, whose link to the next is read before the thread is
        resumed. */
    method SendFlags(bits: bv32) returns (error: int, schedule: bool)
      requires Valid()
      modifies `flags, `waiters, `phase
      ensures Valid() && S() == Send(old(S()), bits) && Sends(old(S()), S(), bits)
      ensures error == if bits == 0 then ERROR else EOK
      ensures schedule <==> |waiters| < |old(waiters)|
    {
      hide Inv, Satisfied, Given, Removed, IsClear, Meets, Rest, Offer, Raised, Sends;
      SendOk(S(), bits);
      SendDoes(S(), bits);
      schedule := false;
      if bits == 0 {
        return ERROR, false;
      }
      error := EOK;
      flags := Raised(flags, bits);
      ghost var r := Offer(waiters, phase, flags);
      RestFirst(r, waiters, phase, flags);
      var n := 0;
      while n < |waiters|
        invariant n <= |waiters| <= |old(waiters)| && (schedule <==> |waiters| < |old(waiters)|)
        invariant Rest(r, waiters, n, phase, flags)
        decreases |waiters| - n
      {
        var t := waiters[n];
        OfferNext(r, waiters, n, phase, flags);
        SatisfiedIs(phase, t, flags);
        if t in phase && phase[t].Blocked? && Meets(phase[t].want, phase[t].option, flags) {
          var got := Given(phase[t].want, phase[t].option, flags);
          if IsClear(phase[t].option) {
            flags := Removed(flags, got);
          }
          waiters := waiters[..n] + waiters[n + 1..];
          phase := phase[t := Woken(EOK, got)];
          schedule := true;
        } else {
          n := n + 1;
        }
      }
      RestDone(r, waiters, phase, flags);
    }

    /** rt_event_recv up to its return or suspension. */
    method Recv(t: Tid, want: bv32, option: bv8, timeout: int, prios: Prios, p: int) returns (r: Outcome)
      requires Valid() && Enabled(S(), RecvStart(t, want, option, timeout)) && forall u :: u in waiters ==> u in prios
      modifies `flags, `waiters, `phase
      ensures Valid() && S() == Do(old(S()), RecvStart(t, want, option, timeout), byPrio, prios, p)
      ensures r == if want == 0 then Returned(ERROR, 0)
                   else if Meets(want, option, old(flags)) then Returned(EOK, want & old(flags))
                   else if timeout == 0 then Returned(ETIMEOUT, 0) else Suspended
      ensures Receives(old(S()), S(), t, want, option, timeout, byPrio, prios, p)
      ensures r == Suspended ==> t in phase && phase[t] == Blocked(want, option, timeout)
    {
      hide Inv, Ahead, Meets, IsClear, Removed, Send, Expire, Reset, Position, Common, Receives;
      ReceiveDoes(S(), t, want, option, timeout, byPrio, prios, p);
      ReceiveOk(S(), t, want, option, timeout, byPrio, prios, p);
      if want == 0 {
        return Returned(ERROR, 0);
      }
      if Meets(want, option, flags) {
        r := Returned(EOK, Common(flags, want));
        CommonSwap(flags, want);
        if IsClear(option) {
          flags := Removed(flags, want);
        }
      } else if timeout == 0 {
        r := Returned(ETIMEOUT, 0);
      } else {
        Suspend(t, want, option, timeout, prios, p);
        r := Suspended;
      }
    }

    /** The thread joins the wait list, in the order of its flag. */
    method Suspend(t: Tid, want: bv32, option: bv8, timeout: int, prios: Prios, p: int)
      requires forall u :: u in waiters ==> u in prios
      modifies `waiters, `phase
      ensures var q := old(waiters); var n := Position(q, prios, p, byPrio); waiters == q[..n] + [t] + q[n..]
      ensures phase == old(phase)[t := Blocked(want, option, timeout)]
    {
      var n := Search(waiters, prios, p, byPrio);
      waiters := waiters[..n] + [t] + waiters[n..];
      phase := phase[t := Blocked(want, option, timeout)];
    }

    /** rt_event_recv after the thread has been woken. */
    method RecvResumed(t: Tid) returns (error: int, got: bv32)
      requires Valid() && Enabled(S(), RecvEnd(t))
      modifies `phase
      ensures Valid() && S() == Do(old(S()), RecvEnd(t), byPrio, map[], 0)
      ensures error == old(phase[t].error) && got == old(phase[t].got)
      ensures phase == old(phase)[t := Outside]
    {
      hide Inv;
      StepOk(S(), RecvEnd(t), byPrio, map[], 0);
      error, got := phase[t].error, phase[t].got;
      phase := phase[t := Outside];
    }

    /** rt_event_control, RT_IPC_CMD_RESET: rt_ipc_list_resume_all on the waiters, who are told of an error. */
    method ResetAll()
      requires Valid()
      modifies `flags, `waiters, `phase
      ensures Valid() && S() == Reset(old(S())) && Emptied(old(S()), S())
    {
      hide Unmet, Satisfied;
      ResetDoes(S());
      StepOk(S(), ResetFlags, byPrio, map[], 0);
      ghost var q, k := waiters, 0;
      while waiters != []
        invariant k <= |q| && waiters == q[k..] && phase.Keys == old(phase).Keys
        invariant forall t :: t in old(phase) ==> phase[t] == if t in q[..k] then Woken(ERROR, 0) else old(phase)[t]
        decreases |waiters|
      {
        var t := waiters[0];
        assert t == q[k] && t in q && q[..k + 1] == q[..k] + [t];
        phase := phase[t := Woken(ERROR, 0)];
        waiters := waiters[1..];
        k := k + 1;
      }
      assert q[..k] == q;
      flags := 0;
      assert phase == Reset(old(S())).phase;
    }

    /** rt_thread_timeout on a waiter. */
    method ThreadTimeout(t: Tid)
      requires Valid() && Enabled(S(), TimeOut(t))
      modifies `waiters, `phase
      ensures Valid() && S() == Do(old(S()), TimeOut(t), byPrio, map[], 0)
      ensures TimedOut(old(S()), S(), t) && t in phase && phase[t] == Woken(ETIMEOUT, 0)
    {
      hide Inv, Parted;
      ExpireDoes(S(), t);
      StepOk(S(), TimeOut(t), byPrio, map[], 0);
      waiters := Without(waiters, t);
      phase := phase[t := Woken(ETIMEOUT, 0)];
    }
  }

  /** The loop of rt_event_send has dealt with the first `n` of the waiters left. */
  ghost predicate Rest(r: Sent, q: seq<Tid>, n: nat, phase: map<Tid, Phase>, flags: bv32) {
    n <= |q| && var o := Offer(q[n..], phase, flags); r == Sent(q[..n] + o.waiters, o.phase, o.flags)
  }

  lemma OfferNext(r: Sent, q: seq<Tid>, n: nat, phase: map<Tid, Phase>, flags: bv32)
    requires Rest(r, q, n, phase, flags) && n < |q|
    ensures Satisfied(phase, q[n], flags) ==>
      Rest(r, q[..n] + q[n + 1..], n, phase[q[n] := Woken(EOK, GivenTo(phase, q[n], flags))],
          FlagsAfter(phase, q[n], flags))
    ensures !Satisfied(phase, q[n], flags) ==> Rest(r, q, n + 1, phase, flags)
  {
    hide Satisfied, GivenTo, FlagsAfter;
    assert q[n..][1..] == q[n + 1..];
    var d := q[..n] + q[n + 1..];
    assert d[n..] == q[n + 1..] && d[..n] == q[..n];
    assert q[..n + 1] == q[..n] + [q[n]];
    if !Satisfied(phase, q[n], flags) {
      var o := Offer(q[n + 1..], phase, flags);
      assert q[..n] + ([q[n]] + o.waiters) == q[..n + 1] + o.waiters;
    }
  }

  lemma RestFirst(r: Sent, q: seq<Tid>, phase: map<Tid, Phase>, flags: bv32)
    requires r == Offer(q, phase, flags)
    ensures Rest(r, q, 0, phase, flags)
  {
    assert q[0..] == q && q[..0] + r.waiters == r.waiters;
  }

  lemma SatisfiedIs(phase: map<Tid, Phase>, t: Tid, flags: bv32)
    ensures Satisfied(phase, t, flags) <==>
        t in phase && phase[t].Blocked? && Meets(phase[t].want, phase[t].option, flags)
  {
  }

  lemma RestDone(r: Sent, q: seq<Tid>, phase: map<Tid, Phase>, flags: bv32)
    requires Rest(r, q, |q|, phase, flags)
    ensures r == Sent(q, phase, flags)
  {
    assert q[..|q|] == q && q[|q|..] == [];
  }

  function Common(a: bv32, b: bv32): bv32 { a & b }

  lemma CommonSwap(a: bv32, b: bv32)
    ensures Common(a, b) == b & a
  {
  }
}

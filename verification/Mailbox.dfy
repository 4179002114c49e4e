/** The mailbox object of ipc.c, changed in place. A blocking call is two methods: the part up to
    the suspension, and the part the thread runs when it has been woken. */
module Mailbox {
  import opened TimerOrder
  import opened WaitQueue
  import opened MailboxSteps

  /** A call has returned, or its thread is suspended. */
  datatype Outcome = Suspended | Returned(error: int)

  class Mailbox {
    const size: nat
    const msgPool: array<int>
    const byPrio: bool            // RT_IPC_FLAG_PRIO
    var entry: nat
    var inOffset: nat
    var outOffset: nat
    var receivers: seq<Tid>
    var senders: seq<Tid>
    var phase: map<Tid, Phase>

    ghost function S(): Box
      reads this, msgPool
    {
      Box(size, entry, inOffset, outOffset, msgPool[..], receivers, senders, phase)
    }

    ghost predicate Valid()
      reads this, msgPool
    {
      Inv(S())
    }

    /** rt_mb_create. */
    constructor (size: nat, byPrio: bool, threads: set<Tid>)
      ensures Valid() && fresh(msgPool) && Mails(S()) == [] && this.size == size && this.byPrio == byPrio
      ensures phase == map t | t in threads :: Idle
    {
      this.size := size;
      this.byPrio := byPrio;
      msgPool := new int[size];
      entry, inOffset, outOffset := 0, 0, 0;
      receivers, senders := [], [];
      phase := map t | t in threads :: Idle;
    }

    /** The end of rt_mb_send_wait, once there is room. */
    method Store(t: Tid, value: int)
      requires Valid() && entry < size && t in phase && (phase[t].Idle? || ToldRoom(phase[t]))
      modifies `entry, `inOffset, `receivers, `phase, msgPool
      ensures S() == WakeReceiver(Stored(old(S()), value).(phase := old(phase)[t := Idle]))
      ensures FirstTold(old(receivers), receivers, old(phase)[t := Idle], phase)
    {
      hide Mails, NoneLost;
      RingParts(S());
      msgPool[inOffset] := value;
      inOffset := inOffset + 1;
      if inOffset >= size {
        inOffset := 0;
      }
      entry := entry + 1;
      phase := phase[t := Idle];
      if receivers != [] {
        assert receivers[0] in receivers;
        var first := receivers[0];
        receivers := receivers[1..];
        phase := phase[first := RecvWoken(EOK, phase[first].timeout)];
      }
    }

    /** The loop of rt_mb_send_wait. */
    method SendLoop(t: Tid, value: int, timeout: int, prios: Prios, p: int) returns (r: Outcome)
      requires Valid() && t in phase && (phase[t].Idle? || ToldRoom(phase[t]))
      requires forall u :: u in senders ==> u in prios
      modifies `entry, `inOffset, `receivers, `senders, `phase, msgPool
      ensures Valid() && S() == Send(old(S()), t, value, timeout, byPrio, prios, p)
      ensures r == if old(entry) < size then Returned(EOK) else if timeout == 0 then Returned(EFULL) else Suspended
    {
      hide Inv, Ahead, Mails, Slot;
      SendOk(S(), t, value, timeout, byPrio, prios, p);
      InvParts(S());
      if entry == size {
        if timeout == 0 {
          phase := phase[t := Idle];
          return Returned(EFULL);
        }
        var n := Search(senders, prios, p, byPrio);
        senders := senders[..n] + [t] + senders[n..];
        phase := phase[t := SendWait(value, timeout)];
        return Suspended;
      }
      Store(t, value);
      r := Returned(EOK);
    }

    /** rt_mb_send_wait up to its return or suspension. */
    method SendWaiting(t: Tid, value: int, timeout: int, prios: Prios, p: int) returns (r: Outcome)
      requires Valid() && Enabled(S(), SendStart(t, value, timeout)) && forall u :: u in senders ==> u in prios
      modifies `entry, `inOffset, `receivers, `senders, `phase, msgPool
      ensures Valid() && S() == Do(old(S()), SendStart(t, value, timeout), byPrio, prios, p)
      ensures r == if old(entry) < size then Returned(EOK) else if timeout == 0 then Returned(EFULL) else Suspended
      ensures Mails(S()) == old(Mails(S())) + (if r == Returned(EOK) then [value] else [])
      ensures Sent(old(S()), S(), t, value, timeout, byPrio, prios, p)
      ensures r == Suspended ==> t in phase && phase[t] == SendWait(value, timeout)
    {
      hide Inv, Send, Mails, Joined, FirstTold;
      InvParts(S());
      SendDoes(S(), t, value, timeout, byPrio, prios, p);
      SendFifo(S(), t, value, timeout, byPrio, prios, p);
      r := SendLoop(t, value, timeout, prios, p);
    }

    /** rt_mb_send_wait after the thread has been woken; `left` remains of its timeout. */
    method SendResumed(t: Tid, left: int, prios: Prios, p: int) returns (r: Outcome)
      requires Valid() && Enabled(S(), SendAgain(t, left)) && forall u :: u in senders ==> u in prios
      modifies `entry, `inOffset, `receivers, `senders, `phase, msgPool
      ensures Valid() && S() == Do(old(S()), SendAgain(t, left), byPrio, prios, p)
      ensures r == if old(phase)[t].error != EOK then Returned(old(phase)[t].error)
                   else if old(entry) < size then Returned(EOK)
                   else if left == 0 then Returned(EFULL) else Suspended
      ensures Mails(S()) == old(Mails(S())) + (if r == Returned(EOK) then [old(phase)[t].value] else [])
      ensures Does(old(S()), S(), SendAgain(t, left), byPrio, prios, p)
      ensures r == Suspended ==> t in phase && phase[t] == SendWait(old(phase)[t].value, left)
    {
      hide Inv, Send, Mails, CanRun, Joined, FirstTold;
      InvParts(S());
      StepDoes(S(), SendAgain(t, left), byPrio, prios, p);
      StepOk(S(), SendAgain(t, left), byPrio, prios, p);
      if phase[t].error != EOK {
        r := Returned(phase[t].error);
        phase := phase[t := Idle];
        RingSame(old(S()), S());
      } else {
        SendFifo(S(), t, phase[t].value, left, byPrio, prios, p);
        r := SendLoop(t, phase[t].value, left, prios, p);
      }
    }

    /** The end of rt_mb_recv, once there is mail. */
    method Fetch(t: Tid) returns (value: int)
      requires Valid() && entry > 0 && t in phase && (phase[t].Idle? || ToldMail(phase[t]))
      modifies `entry, `outOffset, `senders, `phase
      ensures S() == WakeSender(Fetched(old(S())).(phase := old(phase)[t := Idle]))
      ensures old(Mails(S())) == [value] + Mails(Fetched(old(S())))
      ensures FirstTold(old(senders), senders, old(phase)[t := Idle], phase)
    {
      hide Mails, NoneLost;
      FetchedFirst(S());
      value := msgPool[outOffset];
      outOffset := outOffset + 1;
      if outOffset >= size {
        outOffset := 0;
      }
      entry := entry - 1;
      phase := phase[t := Idle];
      if senders != [] {
        assert senders[0] in senders;
        var first := senders[0];
        senders := senders[1..];
        phase := phase[first := SendWoken(EOK, phase[first].value, phase[first].timeout)];
      }
    }

    /** The loop of rt_mb_recv. */
    method ReceiveLoop(t: Tid, timeout: int, prios: Prios, p: int) returns (r: Outcome, value: int)
      requires Valid() && t in phase && (phase[t].Idle? || ToldMail(phase[t]))
      requires forall u :: u in receivers ==> u in prios
      modifies `entry, `outOffset, `receivers, `senders, `phase
      ensures Valid() && S() == Receive(old(S()), t, timeout, byPrio, prios, p)
      ensures r == if old(entry) > 0 then Returned(EOK) else if timeout == 0 then Returned(ETIMEOUT) else Suspended
      ensures old(Mails(S())) == (if r == Returned(EOK) then [value] else []) + Mails(S())
    {
      hide Inv, Ahead, Mails, Slot, RingOk, WakeSender;
      ReceiveOk(S(), t, timeout, byPrio, prios, p);
      InvParts(S());
      ReceiveFifo(S(), t, timeout, byPrio, prios, p);
      value := 0;
      if entry == 0 {
        if timeout == 0 {
          phase := phase[t := Idle];
          return Returned(ETIMEOUT), 0;
        }
        var n := Search(receivers, prios, p, byPrio);
        receivers := receivers[..n] + [t] + receivers[n..];
        phase := phase[t := RecvWait(timeout)];
        return Suspended, 0;
      }
      value := Fetch(t);
      r := Returned(EOK);
    }

    /** rt_mb_recv up to its return or suspension. */
    method Recv(t: Tid, timeout: int, prios: Prios, p: int) returns (r: Outcome, value: int)
      requires Valid() && Enabled(S(), RecvStart(t, timeout)) && forall u :: u in receivers ==> u in prios
      modifies `entry, `outOffset, `receivers, `senders, `phase
      ensures Valid() && S() == Do(old(S()), RecvStart(t, timeout), byPrio, prios, p)
      ensures r == if old(entry) > 0 then Returned(EOK) else if timeout == 0 then Returned(ETIMEOUT) else Suspended
      ensures old(Mails(S())) == (if r == Returned(EOK) then [value] else []) + Mails(S())
      ensures Received(old(S()), S(), t, timeout, byPrio, prios, p)
      ensures r == Suspended ==> t in phase && phase[t] == RecvWait(timeout)
    {
      hide Inv, Receive, Mails, Joined, FirstTold;
      InvParts(S());
      ReceiveDoes(S(), t, timeout, byPrio, prios, p);
      r, value := ReceiveLoop(t, timeout, prios, p);
    }

    /** rt_mb_recv after the thread has been woken. */
    method RecvResumed(t: Tid, left: int, prios: Prios, p: int) returns (r: Outcome, value: int)
      requires Valid() && Enabled(S(), RecvAgain(t, left)) && forall u :: u in receivers ==> u in prios
      modifies `entry, `outOffset, `receivers, `senders, `phase
      ensures Valid() && S() == Do(old(S()), RecvAgain(t, left), byPrio, prios, p)
      ensures r == if old(phase)[t].error != EOK then Returned(old(phase)[t].error)
                   else if old(entry) > 0 then Returned(EOK)
                   else if left == 0 then Returned(ETIMEOUT) else Suspended
      ensures old(Mails(S())) == (if r == Returned(EOK) then [value] else []) + Mails(S())
      ensures Does(old(S()), S(), RecvAgain(t, left), byPrio, prios, p)
      ensures r == Suspended ==> t in phase && phase[t] == RecvWait(left)
    {
      hide Inv, Receive, Mails, Joined, FirstTold;
      InvParts(S());
      StepDoes(S(), RecvAgain(t, left), byPrio, prios, p);
      StepOk(S(), RecvAgain(t, left), byPrio, prios, p);
      if phase[t].error != EOK {
        r, value := Returned(phase[t].error), 0;
        phase := phase[t := Idle];
        RingSame(old(S()), S());
      } else {
        r, value := ReceiveLoop(t, left, prios, p);
      }
    }

    /** rt_ipc_list_resume_all on the receivers. */
    method CancelReceivers()
      requires Waiting(receivers, phase, true)
      modifies `receivers, `phase
      ensures receivers == [] && phase.Keys == old(phase).Keys
      ensures forall t :: t in old(phase) ==>
          phase[t] == if old(phase)[t].RecvWait? then Cancelled(old(phase)[t]) else old(phase)[t]
    {
      ghost var q, k := receivers, 0;
      while receivers != []
        invariant k <= |q| && receivers == q[k..] && phase.Keys == old(phase).Keys
        invariant forall t :: t in old(phase) ==>
            phase[t] == if t in q[..k] then Cancelled(old(phase)[t]) else old(phase)[t]
        decreases |receivers|
      {
        var t := receivers[0];
        assert t == q[k] && t in q && q[..k + 1] == q[..k] + [t];
        phase := phase[t := RecvWoken(ERROR, phase[t].timeout)];
        receivers := receivers[1..];
        k := k + 1;
      }
      assert q[..k] == q;
    }

    /** rt_ipc_list_resume_all on the senders. */
    method CancelSenders()
      requires Waiting(senders, phase, false)
      modifies `senders, `phase
      ensures senders == [] && phase.Keys == old(phase).Keys
      ensures forall t :: t in old(phase) ==>
          phase[t] == if old(phase)[t].SendWait? then Cancelled(old(phase)[t]) else old(phase)[t]
    {
      ghost var q, k := senders, 0;
      while senders != []
        invariant k <= |q| && senders == q[k..] && phase.Keys == old(phase).Keys
        invariant forall t :: t in old(phase) ==>
            phase[t] == if t in q[..k] then Cancelled(old(phase)[t]) else old(phase)[t]
        decreases |senders|
      {
        var t := senders[0];
        assert t == q[k] && t in q && q[..k + 1] == q[..k] + [t];
        phase := phase[t := SendWoken(ERROR, phase[t].value, phase[t].timeout)];
        senders := senders[1..];
        k := k + 1;
      }
      assert q[..k] == q;
    }

    /** rt_thread_timeout on a blocked sender or receiver. */
    method ThreadTimeout(t: Tid)
      requires Valid() && Enabled(S(), TimeOut(t))
      modifies `receivers, `senders, `phase
      ensures Valid() && S() == Do(old(S()), TimeOut(t), byPrio, map[], 0) && Mails(S()) == old(Mails(S()))
      ensures TimedOut(old(S()), S(), t)
      ensures t in phase && (phase[t].SendWoken? || phase[t].RecvWoken?) && phase[t].error == ETIMEOUT
    {
      hide Inv, Mails, Parted;
      StepDoes(S(), TimeOut(t), byPrio, map[], 0);
      StepOk(S(), TimeOut(t), byPrio, map[], 0);
      InvParts(S());
      RingSame(S(), Expire(S(), t));
      if phase[t].RecvWait? {
        receivers := Without(receivers, t);
        phase := phase[t := RecvWoken(ETIMEOUT, phase[t].timeout)];
      } else {
        senders := Without(senders, t);
        phase := phase[t := SendWoken(ETIMEOUT, phase[t].value, phase[t].timeout)];
      }
    }

    /** rt_mb_control, RT_IPC_CMD_RESET. */
    method ResetAll()
      requires Valid()
      modifies `entry, `inOffset, `outOffset, `receivers, `senders, `phase
      ensures Valid() && S() == Reset(old(S())) && Emptied(old(S()), S())
    {
      hide Mails, Slot, NoneLost, RingOk;
      StepDoes(S(), ResetBox, byPrio, map[], 0);
      ResetOk(S());
      EmptyMails(Reset(S()));
      CancelReceivers();
      CancelSenders();
      entry, inOffset, outOffset := 0, 0, 0;
      assert phase == Reset(old(S())).phase;
    }
  }

  lemma InvParts(b: Box)
    requires Inv(b)
    ensures RingOk(b) && b.entry <= b.size && (b.entry < b.size ==> b.inOffset < |b.pool|)
  {
  }

  lemma EmptyMails(b: Box)
    requires RingOk(b) && b.entry == 0
    ensures Mails(b) == []
  {
  }
}

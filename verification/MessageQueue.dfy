/** The message queue object of ipc.c, changed in place. Every method is one region with interrupts
    disabled, together with the copying that goes on outside it. */
module MessageQueues {
  import opened TimerOrder
  import opened WaitQueue
  import opened MessageQueueSteps

  datatype Outcome = Suspended | InProgress | Returned(error: int)

  class MessageQueue {
    const maxMsgs: nat
    const msgSize: nat
    const byPrio: bool
    var next: map<Node, Node>
    var data: map<Node, seq<int>>
    var head: Node                // msg_queue_head
    var tail: Node                // msg_queue_tail
    var free: Node                // msg_queue_free
    var entry: nat
    var receivers: seq<Tid>
    var phase: map<Tid, Phase>
    ghost var view: View

    ghost function S(): Queue
      reads this
    {
      Queue(next, data, head, tail, free, entry, receivers, phase)
    }

    ghost predicate Valid()
      reads this
    {
      Inv(S(), view, maxMsgs, msgSize)
    }

    /** The queued messages. */
    ghost function Deque(): seq<seq<int>>
      reads this
    {
      Messages(data, view.queue)
    }

    /** rt_mq_init: the nodes of the pool are pushed on the free chain one after the other. */
    constructor (maxMsgs: nat, msgSize: nat, byPrio: bool, threads: set<Tid>, data: map<Node, seq<int>>)
      requires Buffers(data, maxMsgs, msgSize)
      ensures Valid() && Deque() == [] && |view.free| == maxMsgs && this.maxMsgs == maxMsgs && this.msgSize == msgSize
      ensures phase == map t | t in threads :: Outside
    {
      this.maxMsgs, this.msgSize, this.byPrio, this.data := maxMsgs, msgSize, byPrio, data;
      head, tail, free, entry := NULL, NULL, NULL, 0;
      next := map[];
      receivers := [];
      phase := map t | t in threads :: Outside;
      view := View([], [], map[]);
      new;
      FormatPool();
      StartOk(S(), view, maxMsgs, msgSize);
    }

    /** rt_thread_timeout on a blocked receiver. */
    method ThreadTimeout(t: Tid)
      requires Valid() && Enabled(S(), TimeOut(t), msgSize)
      modifies `receivers, `phase
      ensures Valid() && S() == Expire(old(S()), t) && Deque() == old(Deque())
      ensures TimedOut(old(S()), old(view), S(), view, t)
      ensures t in phase && phase[t] == RecvWoken(ETIMEOUT, old(phase)[t].timeout)
    {
      hide Inv, Parted;
      WaitingPart(S(), view, maxMsgs, msgSize);
      ExpireDoes(S(), view, t);
      ExpireOk(S(), view, maxMsgs, msgSize, t);
      receivers := Without(receivers, t);
      phase := phase[t := RecvWoken(ETIMEOUT, phase[t].timeout)];
    }

    /** The loop of rt_mq_init. */
    method FormatPool()
      modifies `next, `free, `view
      ensures Chain(next, free, view.free) && view.queue == [] && |view.free| == maxMsgs
      ensures (forall n :: n in view.free <==> 1 <= n <= maxMsgs) && view.places == map n | n in view.free :: InFree
    {
      hide Chain;
      ghost var f: seq<Node> := [];
      free := NULL;
      EmptyChain(next);
      var temp := 0;
      while temp < maxMsgs
        invariant temp <= maxMsgs && |f| == temp && Chain(next, free, f) && forall n :: n in f <==> 1 <= n <= temp
      {
        var node := temp + 1;
        ChainPush(next, free, f, node);
        next := next[node := free];
        free := node;
        f := [node] + f;
        temp := temp + 1;
      }
      view := View([], f, map n | n in f :: InFree);
    }

    /** The first region of rt_mq_send and rt_mq_urgent, and the copy into the node. */
    method SendBegin(t: Tid, message: seq<int>, urgent: bool) returns (r: Outcome)
      requires Valid() && t in phase && phase[t].Outside?
      modifies `data, `free, `phase, `view
      ensures Valid() && Deque() == old(Deque())
      ensures r == if |message| > msgSize then Returned(ERROR) else if old(view.free) == [] then Returned(EFULL)
          else InProgress
      ensures r != InProgress ==> S() == old(S())
      ensures r == InProgress ==> t in phase && phase[t].Sending? && phase[t].urgent == urgent
      ensures r == InProgress ==> phase[t].node in data && message <= data[phase[t].node]
      ensures |message| <= msgSize ==> Begun(old(S()), old(view), S(), view, t, message, urgent)
    {
      hide Inv, Messages, Begun;
      if |message| > msgSize {
        return Returned(ERROR);
      }
      ghost var w := ReserveOk(S(), view, maxMsgs, msgSize, t, message, urgent);
      ReserveDoes(S(), view, w, maxMsgs, msgSize, t, message, urgent);
      ReserveFacts(S(), view, maxMsgs, msgSize);
      if free == NULL {
        view := w;
        return Returned(EFULL);
      }
      var n := free;
      free := next[n];
      phase := phase[t := Sending(n, urgent)];
      data := data[n := message + data[n][|message|..]];
      view := w;
      r := InProgress;
    }

    /** The second region of rt_mq_send and rt_mq_urgent: an ordinary message goes to the back, an
        urgent one to the front. */
    method SendEnd(t: Tid) returns (schedule: bool)
      requires Valid() && t in phase && phase[t].Sending?
      modifies `next, `head, `tail, `entry, `receivers, `phase, `view
      ensures Valid() && S() == Link(old(S()), t) && old(phase[t].node) in data
      ensures var m := data[old(phase[t].node)];
        Deque() == if old(phase[t].urgent) then [m] + old(Deque()) else old(Deque()) + [m]
      ensures schedule <==> old(receivers) != []
      ensures Linked(old(S()), old(view), S(), view, t)
    {
      hide Inv, Messages, Linked;
      ghost var w := LinkOk(S(), view, maxMsgs, msgSize, t);
      LinkDoes(S(), view, w, maxMsgs, msgSize, t);
      FirstReceiver(S(), view, maxMsgs, msgSize, t);
      var msg := phase[t].node;
      if phase[t].urgent {
        next := next[msg := head];
        head := msg;
        if tail == NULL {
          tail := msg;
        }
      } else {
        next := next[msg := NULL];
        if tail != NULL {
          next := next[tail := msg];
        }
        tail := msg;
        if head == NULL {
          head := msg;
        }
      }
      phase := phase[t := Outside];
      entry := entry + 1;
      schedule := false;
      if receivers != [] {
        var first := receivers[0];
        receivers := receivers[1..];
        phase := phase[first := RecvWoken(EOK, phase[first].timeout)];
        schedule := true;
      }
      view := w;
    }

    /** The loop of rt_mq_recv, and the region that unlinks a message. */
    method ReceiveLoop(t: Tid, timeout: int, prios: Prios, p: int) returns (r: Outcome)
      requires Valid() && t in phase && (phase[t].Outside? || Told(phase[t]))
      requires forall u :: u in receivers ==> u in prios
      modifies `head, `tail, `entry, `receivers, `phase, `view
      ensures Valid() && S() == Receive(old(S()), t, timeout, byPrio, prios, p)
      ensures r == if old(entry) > 0 then InProgress else if timeout == 0 then Returned(ETIMEOUT) else Suspended
      ensures r == InProgress ==> t in phase && phase[t].Copying? && phase[t].node in data
      ensures old(Deque()) == (if r == InProgress then [data[phase[t].node]] else []) + Deque()
      ensures Received(old(S()), old(view), S(), view, t, timeout, byPrio, prios, p)
    {
      hide Inv, Messages, Ahead, Received;
      ghost var w := ReceiveOk(S(), view, maxMsgs, msgSize, t, timeout, byPrio, prios, p);
      ReceiveDoes(S(), view, w, maxMsgs, msgSize, t, timeout, byPrio, prios, p);
      if entry == 0 {
        if timeout == 0 {
          phase := phase[t := Outside];
          r := Returned(ETIMEOUT);
        } else {
          var n := Search(receivers, prios, p, byPrio);
          receivers := receivers[..n] + [t] + receivers[n..];
          phase := phase[t := RecvWait(timeout)];
          r := Suspended;
        }
      } else {
        HeadLinked(S(), view, maxMsgs, msgSize);
        var msg := head;
        head := next[msg];
        if tail == msg {
          tail := NULL;
        }
        entry := entry - 1;
        phase := phase[t := Copying(msg)];
        r := InProgress;
      }
      view := w;
    }

    /** rt_mq_recv up to its return, its suspension, or the copying of a message. */
    method Recv(t: Tid, timeout: int, prios: Prios, p: int) returns (r: Outcome)
      requires Valid() && Enabled(S(), RecvStart(t, timeout), msgSize) && forall u :: u in receivers ==> u in prios
      modifies `head, `tail, `entry, `receivers, `phase, `view
      ensures Valid() && S() == Do(old(S()), RecvStart(t, timeout), byPrio, prios, p)
      ensures r == if old(entry) > 0 then InProgress else if timeout == 0 then Returned(ETIMEOUT) else Suspended
      ensures r == InProgress ==> t in phase && phase[t].Copying? && phase[t].node in data
      ensures old(Deque()) == (if r == InProgress then [data[phase[t].node]] else []) + Deque()
      ensures Received(old(S()), old(view), S(), view, t, timeout, byPrio, prios, p)
      ensures r == Suspended ==> t in phase && phase[t] == RecvWait(timeout)
    {
      hide Inv, Receive, Messages, Joined;
      WaitingPart(S(), view, maxMsgs, msgSize);
      r := ReceiveLoop(t, timeout, prios, p);
    }

    /** rt_mq_recv after the thread has been woken. */
    method RecvResumed(t: Tid, left: int, prios: Prios, p: int) returns (r: Outcome)
      requires Valid() && Enabled(S(), RecvAgain(t, left), msgSize) && forall u :: u in receivers ==> u in prios
      modifies `head, `tail, `entry, `receivers, `phase, `view
      ensures Valid() && S() == Do(old(S()), RecvAgain(t, left), byPrio, prios, p)
      ensures r == if old(phase[t].error) != EOK then Returned(old(phase[t].error))
                   else if old(entry) > 0 then InProgress else if left == 0 then Returned(ETIMEOUT) else Suspended
      ensures r == InProgress ==> t in phase && phase[t].Copying? && phase[t].node in data
      ensures old(Deque()) == (if r == InProgress then [data[phase[t].node]] else []) + Deque()
      ensures Does(old(S()), old(view), S(), view, RecvAgain(t, left), msgSize, byPrio, prios, p)
      ensures r == Suspended ==> t in phase && phase[t] == RecvWait(left)
    {
      hide Inv, Receive, Messages, Joined;
      WaitingPart(S(), view, maxMsgs, msgSize);
      if phase[t].error != EOK {
        LeaveOk(S(), view, maxMsgs, msgSize, t);
        r := Returned(phase[t].error);
        phase := phase[t := Outside];
      } else {
        r := ReceiveLoop(t, left, prios, p);
      }
    }

    /** The end of rt_mq_recv: the copy out, which a short buffer truncates, and the region that
        frees the node. */
    method RecvFinish(t: Tid, size: nat) returns (buffer: seq<int>)
      requires Valid() && t in phase && phase[t].Copying?
      modifies `next, `free, `phase, `view
      ensures Valid() && S() == GiveBack(old(S()), t) && Deque() == old(Deque())
      ensures old(phase[t].node) in data && buffer <= data[old(phase[t].node)]
      ensures |buffer| == if size > msgSize then msgSize else size
      ensures Freed(old(S()), old(view), S(), view, t)
    {
      hide Inv, Messages;
      ghost var w := GiveBackOk(S(), view, maxMsgs, msgSize, t);
      NodeBuffer(S(), view, maxMsgs, msgSize, t);
      var msg := phase[t].node;
      buffer := data[msg][..if size > msgSize then msgSize else size];
      next := next[msg := free];
      free := msg;
      phase := phase[t := Outside];
      view := w;
    }

    /** rt_ipc_list_resume_all. */
    method CancelReceivers()
      requires Waiting(receivers, phase)
      modifies `receivers, `phase
      ensures receivers == [] && phase == Cancelled(old(phase))
    {
      ghost var q, k := receivers, 0;
      while receivers != []
        invariant k <= |q| && receivers == q[k..] && phase.Keys == old(phase).Keys
        invariant forall t :: t in old(phase) ==>
            phase[t] == if t in q[..k] then Cancelled(old(phase))[t] else old(phase)[t]
        decreases |receivers|
      {
        var t := receivers[0];
        assert t == q[k] && t in q && q[..k + 1] == q[..k] + [t];
        phase := phase[t := RecvWoken(ERROR, phase[t].timeout)];
        receivers := receivers[1..];
        k := k + 1;
      }
      assert q[..k] == q;
    }

    /** The loop of the reset. */
    method FreeAll(ghost v: View)
      requires Chain(next, head, v.queue) && Chain(next, free, v.free) && tail == Last(v.queue)
      requires Placed(v, phase, maxMsgs)
      modifies `next, `head, `tail, `free
      ensures S() == DropAll(old(S()), |v.queue|)
    {
      hide Chain, Placed;
      ghost var w := v;
      QueueHead(S(), w);
      while head != NULL
        invariant Chain(next, head, w.queue) && Chain(next, free, w.free) && tail == Last(w.queue)
        invariant Placed(w, phase, maxMsgs)
        invariant head == NULL <==> w.queue == []
        invariant DropAll(S(), |w.queue|) == DropAll(old(S()), |v.queue|)
        decreases |w.queue|
      {
        DropOk(S(), w, maxMsgs);
        var msg := head;
        head := next[msg];
        if tail == msg {
          tail := NULL;
        }
        next := next[msg := free];
        free := msg;
        w := View(w.queue[1..], [w.queue[0]] + w.free, w.places[w.queue[0] := InFree]);
        QueueHead(S(), w);
      }
    }

    /** rt_mq_control, RT_IPC_CMD_RESET: the free chain gets every queued node. */
    method ResetAll()
      requires Valid()
      modifies `next, `head, `tail, `free, `entry, `receivers, `phase, `view
      ensures Valid() && S() == Reset(old(S())) && Deque() == []
      ensures Emptied(old(S()), old(view), S(), view)
    {
      hide Inv, Chain, Placed, Cancelled, DropAll, Pending, Waiting, Emptied;
      ghost var w := ResetOk(S(), view, maxMsgs, msgSize);
      ResetDoes(S(), view, w);
      WaitingPart(S(), view, maxMsgs, msgSize);
      CancelOk(view, phase, maxMsgs);
      CancelReceivers();
      FreeAll(view);
      entry := 0;
      view := w;
    }
  }

  lemma EmptyChain(next: map<Node, Node>)
    ensures Chain(next, NULL, [])
  {
  }

  lemma StartOk(s: Queue, v: View, max: nat, msgSize: nat)
    requires v.queue == [] && v.places == map n | n in v.free :: InFree
    requires Chain(s.next, s.free, v.free) && forall n :: n in v.free <==> 1 <= n <= max
    requires s.head == s.tail == NULL && s.entry == 0 && s.receivers == []
    requires (forall t :: t in s.phase ==> s.phase[t] == Outside) && Buffers(s.data, max, msgSize)
    ensures Inv(s, v, max, msgSize)
  {
    hide Pending, Chain;
    EmptyChain(s.next);
  }

  lemma ReserveFacts(s: Queue, v: View, max: nat, msgSize: nat)
    requires Inv(s, v, max, msgSize)
    ensures s.free != NULL ==> s.free in s.next && s.free in s.data && |s.data[s.free]| == msgSize
  {
    hide Waiting, NoneLost;
    if s.free != NULL {
      assert s.free in v.free;
    }
  }

  lemma FirstReceiver(s: Queue, v: View, max: nat, msgSize: nat, t: Tid)
    requires Inv(s, v, max, msgSize) && t in s.phase && !s.phase[t].RecvWait?
    ensures s.receivers != [] ==> s.receivers[0] in s.phase && s.phase[s.receivers[0]].RecvWait? && s.receivers[0] != t
  {
    hide Chained, Placed;
    assert s.receivers != [] ==> s.receivers[0] in s.receivers;
  }

  lemma HeadLinked(s: Queue, v: View, max: nat, msgSize: nat)
    requires Inv(s, v, max, msgSize) && s.entry > 0
    ensures s.head in s.next
  {
    hide Placed, Waiting;
  }

  lemma NodeBuffer(s: Queue, v: View, max: nat, msgSize: nat, t: Tid)
    requires Inv(s, v, max, msgSize) && t in s.phase && s.phase[t].Copying?
    ensures s.phase[t].node in s.data && |s.data[s.phase[t].node]| == msgSize
  {
    hide Chained, Waiting, NoneLost;
    assert Holds(s.phase, t, s.phase[t].node);
  }

  lemma QueueHead(s: Queue, v: View)
    requires Chain(s.next, s.head, v.queue)
    ensures s.head == NULL <==> v.queue == []
  {
  }
}

/** The mailbox of ipc.c on values: one step for each region with interrupts disabled. A blocking
    call is split where it gives up the processor, so calls of many threads interleave freely. */
module MailboxSteps {
  import opened TimerOrder
  import opened WaitQueue


  const EFULL: int := -3

  /** Where a thread is in its mailbox call. A woken thread is ready but has not run yet; `error`
      is what its `error` field holds. */
  datatype Phase =
    | Idle
    | RecvWait(timeout: int)
    | RecvWoken(error: int, timeout: int)
    | SendWait(value: int, timeout: int)
    | SendWoken(error: int, value: int, timeout: int)

  datatype Box = Box(
    size: nat, entry: nat, inOffset: nat, outOffset: nat, pool: seq<int>,
    receivers: seq<Tid>,   // parent.suspend_thread
    senders: seq<Tid>,     // suspend_sender_thread
    phase: map<Tid, Phase>)

  // The ring buffer

  /** The offset `k` places after `offset`. */
  function Slot(offset: nat, k: nat, size: nat): int {
    if offset + k < size then offset + k else offset + k - size
  }

  function Advance(offset: nat, size: nat): nat { if offset + 1 >= size then 0 else offset + 1 }

  ghost predicate RingOk(b: Box) {
    && |b.pool| == b.size && b.entry <= b.size
    && (b.size > 0 ==> b.outOffset < b.size) && (b.size == 0 ==> b.outOffset == 0)
    && b.inOffset == Slot(b.outOffset, b.entry, b.size)
  }

  /** The queued mails, oldest first. */
  ghost function Mails(b: Box): seq<int>
    requires RingOk(b)
  {
    seq(b.entry, k requires 0 <= k < b.entry => b.pool[Slot(b.outOffset, k, b.size)])
  }

  function Stored(b: Box, value: int): Box
    requires b.inOffset < |b.pool|
  {
    b.(pool := b.pool[b.inOffset := value], inOffset := Advance(b.inOffset, b.size), entry := b.entry + 1)
  }

  function Fetched(b: Box): Box
    requires b.entry > 0
  {
    b.(outOffset := Advance(b.outOffset, b.size), entry := b.entry - 1)
  }

  /** Storing appends to the queue of mails. */
  lemma StoredAppends(b: Box, value: int)
    requires RingOk(b) && b.entry < b.size
    ensures b.inOffset < |b.pool| && RingOk(Stored(b, value))
    ensures Mails(Stored(b, value)) == Mails(b) + [value]
  {
  }

  /** Fetching takes the oldest mail. */
  lemma FetchedFirst(b: Box)
    requires RingOk(b) && b.entry > 0
    ensures RingOk(Fetched(b)) && b.outOffset < |b.pool|
    ensures Mails(b) == [b.pool[b.outOffset]] + Mails(Fetched(b))
  {
  }

  // Waiting and waking

  predicate ToldMail(p: Phase) { p.RecvWoken? && p.error == EOK }
  predicate ToldRoom(p: Phase) { p.SendWoken? && p.error == EOK }

  /** Receivers woken for a mail, and senders woken for a free slot, that have not run yet. */
  ghost function MailPending(phase: map<Tid, Phase>): set<Tid> { set t | t in phase && ToldMail(phase[t]) }
  ghost function RoomPending(phase: map<Tid, Phase>): set<Tid> { set t | t in phase && ToldRoom(phase[t]) }

  /** A wait list holds exactly the threads blocked on it, each once. */
  ghost predicate Waiting(q: seq<Tid>, phase: map<Tid, Phase>, receiving: bool) {
    && (forall i, j :: 0 <= i < j < |q| ==> q[i] != q[j])
    && (forall t: Tid :: t in q <==> t in phase && Blocked(phase[t], receiving))
  }

  predicate Blocked(p: Phase, receiving: bool) { if receiving then p.RecvWait? else p.SendWait? }

  /** While somebody is blocked, every mail (or free slot) has a woken thread coming for it. */
  ghost predicate NoneLost(b: Box) {
    && (b.receivers != [] ==> b.entry <= |MailPending(b.phase)|)
    && (b.senders != [] ==> b.size - b.entry <= |RoomPending(b.phase)|)
  }

  ghost predicate Inv(b: Box) {
    RingOk(b) && Waiting(b.receivers, b.phase, true) && Waiting(b.senders, b.phase, false) && NoneLost(b)
  }

  /** rt_ipc_list_resume on the receivers. */
  function WakeReceiver(b: Box): Box {
    if b.receivers == [] || b.receivers[0] !in b.phase || !b.phase[b.receivers[0]].RecvWait? then b
    else
      var t := b.receivers[0];
      b.(receivers := b.receivers[1..], phase := b.phase[t := RecvWoken(EOK, b.phase[t].timeout)])
  }

  function WakeSender(b: Box): Box {
    if b.senders == [] || b.senders[0] !in b.phase || !b.phase[b.senders[0]].SendWait? then b
    else
      var t := b.senders[0];
      b.(senders := b.senders[1..], phase := b.phase[t := SendWoken(EOK, b.phase[t].value, b.phase[t].timeout)])
  }

  // The body of the loop in rt_mb_send_wait and what follows it

  function Send(b: Box, t: Tid, value: int, timeout: int, byPrio: bool, prios: Prios, p: int): Box {
    if b.entry == b.size then
      if timeout == 0 then b.(phase := b.phase[t := Idle])
      else b.(senders := Enqueue(b.senders, prios, t, p, byPrio), phase := b.phase[t := SendWait(value, timeout)])
    else if b.inOffset < |b.pool| then WakeReceiver(Stored(b, value).(phase := b.phase[t := Idle]))
    else b
  }

  function Receive(b: Box, t: Tid, timeout: int, byPrio: bool, prios: Prios, p: int): Box {
    if b.entry == 0 then
      if timeout == 0 then b.(phase := b.phase[t := Idle])
      else b.(receivers := Enqueue(b.receivers, prios, t, p, byPrio), phase := b.phase[t := RecvWait(timeout)])
    else WakeSender(Fetched(b).(phase := b.phase[t := Idle]))
  }

  /** rt_thread_timeout on a blocked thread. */
  function Expire(b: Box, t: Tid): Box {
    if t !in b.phase then b
    else match b.phase[t]
      case RecvWait(timeout) => b.(receivers := Without(b.receivers, t),
          phase := b.phase[t := RecvWoken(ETIMEOUT, timeout)])
      case SendWait(value, timeout) =>
        b.(senders := Without(b.senders, t), phase := b.phase[t := SendWoken(ETIMEOUT, value, timeout)])
      case _ => b
  }

  /** What rt_ipc_list_resume_all does to a blocked thread. */
  function Cancelled(p: Phase): Phase {
    match p
    case RecvWait(timeout) => RecvWoken(ERROR, timeout)
    case SendWait(value, timeout) => SendWoken(ERROR, value, timeout)
    case _ => p
  }

  /** rt_mb_control, RT_IPC_CMD_RESET. */
  function Reset(b: Box): Box {
    b.(entry := 0, inOffset := 0, outOffset := 0, receivers := [], senders := [],
       phase := map t | t in b.phase :: Cancelled(b.phase[t]))
  }

  datatype Step =
    | SendStart(t: Tid, value: int, timeout: int)
    | SendAgain(t: Tid, left: int)
    | RecvStart(t: Tid, timeout: int)
    | RecvAgain(t: Tid, left: int)
    | TimeOut(t: Tid)
    | ResetBox

  ghost predicate Enabled(b: Box, s: Step) {
    match s
    case SendStart(t, _, _) => t in b.phase && b.phase[t].Idle?
    case RecvStart(t, _) => t in b.phase && b.phase[t].Idle?
    case SendAgain(t, left) => t in b.phase && b.phase[t].SendWoken? && LeftOver(b.phase[t].timeout, left)
    case RecvAgain(t, left) => t in b.phase && b.phase[t].RecvWoken? && LeftOver(b.phase[t].timeout, left)
    case TimeOut(t) => t in b.phase && (b.phase[t].RecvWait? || b.phase[t].SendWait?) && b.phase[t].timeout > 0
    case ResetBox => true
  }

  /** The whole step; `prios` are the current priorities of the waiting threads, `p` that of `t`. */
  function Do(b: Box, s: Step, byPrio: bool, prios: Prios, p: int): Box {
    match s
    case SendStart(t, value, timeout) => Send(b, t, value, timeout, byPrio, prios, p)
    case SendAgain(t, left) =>
      if t in b.phase && b.phase[t].SendWoken? && b.phase[t].error == EOK
      then Send(b, t, b.phase[t].value, left, byPrio, prios, p) else b.(phase := b.phase[t := Idle])
    case RecvStart(t, timeout) => Receive(b, t, timeout, byPrio, prios, p)
    case RecvAgain(t, left) =>
      if t in b.phase && b.phase[t].RecvWoken? && b.phase[t].error == EOK
      then Receive(b, t, left, byPrio, prios, p) else b.(phase := b.phase[t := Idle])
    case TimeOut(t) => Expire(b, t)
    case ResetBox => Reset(b)
  }

  // Every step keeps the invariant

  lemma PendingUpdate(phase: map<Tid, Phase>, t: Tid, p: Phase)
    requires t in phase
    ensures |MailPending(phase[t := p])| ==
            |MailPending(phase)| + (if ToldMail(p) then 1 else 0) - (if ToldMail(phase[t]) then 1 else 0)
    ensures |RoomPending(phase[t := p])| ==
            |RoomPending(phase)| + (if ToldRoom(p) then 1 else 0) - (if ToldRoom(phase[t]) then 1 else 0)
  {
    hide MailPending, RoomPending, ToldMail, ToldRoom;
    MailUpdate(phase, t, p);
    RoomUpdate(phase, t, p);
  }

  lemma MailUpdate(phase: map<Tid, Phase>, t: Tid, p: Phase)
    requires t in phase
    ensures var m := MailPending(phase);
      (t in m <==> ToldMail(phase[t])) && MailPending(phase[t := p]) == if ToldMail(p) then m + {t} else m - {t}
  {
    hide ToldMail;
  }

  lemma RoomUpdate(phase: map<Tid, Phase>, t: Tid, p: Phase)
    requires t in phase
    ensures var r := RoomPending(phase);
      (t in r <==> ToldRoom(phase[t])) && RoomPending(phase[t := p]) == if ToldRoom(p) then r + {t} else r - {t}
  {
    hide ToldRoom;
  }

  lemma WaitSame(q: seq<Tid>, phase: map<Tid, Phase>, receiving: bool, t: Tid, p: Phase)
    requires Waiting(q, phase, receiving) && t in phase && !Blocked(phase[t], receiving) && !Blocked(p, receiving)
    ensures Waiting(q, phase[t := p], receiving)
  {
  }

  lemma WaitInsert(q: seq<Tid>, phase: map<Tid, Phase>, receiving: bool, t: Tid, p: Phase, n: nat)
    requires Waiting(q, phase, receiving) && t in phase && !Blocked(phase[t], receiving) && Blocked(p, receiving)
    requires n <= |q|
    ensures Waiting(q[..n] + [t] + q[n..], phase[t := p], receiving)
  {
    EnqueueMembers(q, n, t, q[..n] + [t] + q[n..]);
  }

  lemma WaitFirst(q: seq<Tid>, phase: map<Tid, Phase>, receiving: bool, p: Phase)
    requires Waiting(q, phase, receiving) && q != [] && !Blocked(p, receiving)
    ensures q[0] in phase && Blocked(phase[q[0]], receiving) && Waiting(q[1..], phase[q[0] := p], receiving)
  {
    assert q[0] in q;
    forall t: Tid | t in q && t != q[0] ensures t in q[1..] {
      var k :| 0 <= k < |q| && q[k] == t;
      assert q[1..][k - 1] == t;
    }
  }

  lemma WaitWithout(q: seq<Tid>, phase: map<Tid, Phase>, receiving: bool, t: Tid, p: Phase)
    requires Waiting(q, phase, receiving) && !Blocked(p, receiving) && t in phase
    ensures Waiting(Without(q, t), phase[t := p], receiving)
  {
    hide Without, Blocked;
    WithoutMembers(q, t);
    if t in q {
      var k :| 0 <= k < |q| && q[k] == t;
      WithoutAt(q, k);
      CutDistinct(q, k);
    }
  }

  lemma CutDistinct(q: seq<Tid>, k: nat)
    requires k < |q| && forall i, j :: 0 <= i < j < |q| ==> q[i] != q[j]
    ensures var r := q[..k] + q[k + 1..]; forall i, j :: 0 <= i < j < |r| ==> r[i] != r[j]
  {
  }

  /** Waking the first receiver, for a mail just stored, restores the balance. */
  lemma WakeReceiverOk(b: Box)
    requires RingOk(b) && Waiting(b.receivers, b.phase, true) && Waiting(b.senders, b.phase, false)
    requires b.receivers != [] ==> b.entry <= |MailPending(b.phase)| + 1
    requires b.senders != [] ==> b.size - b.entry <= |RoomPending(b.phase)|
    ensures Inv(WakeReceiver(b))
  {
    hide Mails, Waiting, Slot, MailPending, RoomPending;
    if b.receivers != [] {
      var t := b.receivers[0];
      WaitFirst(b.receivers, b.phase, true, RecvWoken(EOK, 0));
      var p := RecvWoken(EOK, b.phase[t].timeout);
      WaitFirst(b.receivers, b.phase, true, p);
      WaitSame(b.senders, b.phase, false, t, p);
      PendingUpdate(b.phase, t, p);
    }
  }

  lemma WakeSenderOk(b: Box)
    requires RingOk(b) && Waiting(b.receivers, b.phase, true) && Waiting(b.senders, b.phase, false)
    requires b.receivers != [] ==> b.entry <= |MailPending(b.phase)|
    requires b.senders != [] ==> b.size - b.entry <= |RoomPending(b.phase)| + 1
    ensures Inv(WakeSender(b))
  {
    hide Mails, Waiting, Slot, MailPending, RoomPending;
    if b.senders != [] {
      var t := b.senders[0];
      WaitFirst(b.senders, b.phase, false, Idle);
      var p := SendWoken(EOK, b.phase[t].value, b.phase[t].timeout);
      WaitFirst(b.senders, b.phase, false, p);
      WaitSame(b.receivers, b.phase, true, t, p);
      PendingUpdate(b.phase, t, p);
    }
  }

  lemma SendOk(b: Box, t: Tid, value: int, timeout: int, byPrio: bool, prios: Prios, p: int)
    requires Inv(b) && t in b.phase && (b.phase[t].Idle? || ToldRoom(b.phase[t]))
    ensures Inv(Send(b, t, value, timeout, byPrio, prios, p))
  {
    hide Mails, Waiting, Slot, MailPending, RoomPending, WakeReceiver, Position, RingOk;
    RingParts(b);
    PendingUpdate(b.phase, t, Idle);
    if b.entry == b.size && timeout != 0 {
      var q := SendWait(value, timeout);
      PendingUpdate(b.phase, t, q);
      WaitSame(b.receivers, b.phase, true, t, q);
      WaitInsert(b.senders, b.phase, false, t, q, Position(b.senders, prios, p, byPrio));
      RingSame(b, Send(b, t, value, timeout, byPrio, prios, p));
    } else {
      WaitSame(b.receivers, b.phase, true, t, Idle);
      WaitSame(b.senders, b.phase, false, t, Idle);
      if b.entry == b.size {
        RingSame(b, b.(phase := b.phase[t := Idle]));
      } else {
        StoredAppends(b, value);
        RingSame(Stored(b, value), Stored(b, value).(phase := b.phase[t := Idle]));
        WakeReceiverOk(Stored(b, value).(phase := b.phase[t := Idle]));
      }
    }
  }

  lemma ReceiveOk(b: Box, t: Tid, timeout: int, byPrio: bool, prios: Prios, p: int)
    requires Inv(b) && t in b.phase && (b.phase[t].Idle? || ToldMail(b.phase[t]))
    ensures Inv(Receive(b, t, timeout, byPrio, prios, p))
  {
    hide Mails, Waiting, Slot, MailPending, RoomPending, WakeSender, Position, RingOk;
    RingParts(b);
    PendingUpdate(b.phase, t, Idle);
    if b.entry == 0 && timeout != 0 {
      var q := RecvWait(timeout);
      PendingUpdate(b.phase, t, q);
      WaitSame(b.senders, b.phase, false, t, q);
      WaitInsert(b.receivers, b.phase, true, t, q, Position(b.receivers, prios, p, byPrio));
      RingSame(b, Receive(b, t, timeout, byPrio, prios, p));
    } else {
      WaitSame(b.receivers, b.phase, true, t, Idle);
      WaitSame(b.senders, b.phase, false, t, Idle);
      if b.entry == 0 {
        RingSame(b, b.(phase := b.phase[t := Idle]));
      } else {
        FetchedFirst(b);
        RingSame(Fetched(b), Fetched(b).(phase := b.phase[t := Idle]));
        WakeSenderOk(Fetched(b).(phase := b.phase[t := Idle]));
      }
    }
  }

  lemma RingParts(b: Box)
    requires RingOk(b)
    ensures b.entry <= b.size == |b.pool| && (b.size > 0 && b.entry < b.size ==> b.inOffset < |b.pool|)
  {
  }

  lemma RingSame(b: Box, c: Box)
    requires RingOk(b)
    requires c.size == b.size && c.entry == b.entry && c.inOffset == b.inOffset && c.outOffset == b.outOffset
    requires c.pool == b.pool
    ensures RingOk(c) && Mails(c) == Mails(b)
  {
  }

  lemma ExpireOk(b: Box, t: Tid)
    requires Inv(b)
    ensures Inv(Expire(b, t))
  {
    hide Mails, Waiting, Slot, MailPending, RoomPending, Without;
    if t in b.phase && b.phase[t].RecvWait? {
      var p := RecvWoken(ETIMEOUT, b.phase[t].timeout);
      WaitWithout(b.receivers, b.phase, true, t, p);
      WaitSame(b.senders, b.phase, false, t, p);
      PendingUpdate(b.phase, t, p);
      assert b.receivers == [] ==> Without(b.receivers, t) == [];
    } else if t in b.phase && b.phase[t].SendWait? {
      var p := SendWoken(ETIMEOUT, b.phase[t].value, b.phase[t].timeout);
      WaitWithout(b.senders, b.phase, false, t, p);
      WaitSame(b.receivers, b.phase, true, t, p);
      PendingUpdate(b.phase, t, p);
      assert b.senders == [] ==> Without(b.senders, t) == [];
    }
  }

  lemma ResetOk(b: Box)
    requires Inv(b)
    ensures Inv(Reset(b))
  {
  }

  lemma LeaveOk(b: Box, t: Tid)
    requires Inv(b) && t in b.phase && !Blocked(b.phase[t], true) && !Blocked(b.phase[t], false)
    requires !ToldMail(b.phase[t]) && !ToldRoom(b.phase[t])
    ensures Inv(b.(phase := b.phase[t := Idle]))
  {
    hide Mails, Waiting, Slot, MailPending, RoomPending;
    WaitSame(b.receivers, b.phase, true, t, Idle);
    WaitSame(b.senders, b.phase, false, t, Idle);
    PendingUpdate(b.phase, t, Idle);
  }

  lemma StepOk(b: Box, s: Step, byPrio: bool, prios: Prios, p: int)
    requires Inv(b) && Enabled(b, s)
    ensures Inv(Do(b, s, byPrio, prios, p))
  {
    hide Inv, Send, Receive, Expire, Reset;
    match s
    case SendStart(t, value, timeout) => SendOk(b, t, value, timeout, byPrio, prios, p);
    case SendAgain(t, left) =>
      if b.phase[t].error == EOK {
        SendOk(b, t, b.phase[t].value, left, byPrio, prios, p);
      } else {
        LeaveOk(b, t);
      }
    case RecvStart(t, timeout) => ReceiveOk(b, t, timeout, byPrio, prios, p);
    case RecvAgain(t, left) =>
      if b.phase[t].error == EOK {
        ReceiveOk(b, t, left, byPrio, prios, p);
      } else {
        LeaveOk(b, t);
      }
    case TimeOut(t) => ExpireOk(b, t);
    case ResetBox => ResetOk(b);
  }

  // What a step does, call by call

  /** The first of the waiting threads, if any, is told that what it waits for has come. */
  ghost predicate FirstTold(q: seq<Tid>, r: seq<Tid>, before: map<Tid, Phase>, after: map<Tid, Phase>) {
    if q == [] then r == [] && after == before
    else
      && r == q[1..] && q[0] in before && q[0] in after
      && after == before[q[0] := after[q[0]]] && Told(before[q[0]], after[q[0]], EOK)
  }

  /** A blocked thread is woken with an error code; it keeps its mail and its timeout. */
  ghost predicate Told(p: Phase, r: Phase, error: int) {
    match p
    case RecvWait(timeout) => r == RecvWoken(error, timeout)
    case SendWait(value, timeout) => r == SendWoken(error, value, timeout)
    case _ => false
  }

  /** The call of `t` has returned without storing or taking a mail. */
  ghost predicate GaveUp(b: Box, c: Box, t: Tid) {
    c == b.(phase := b.phase[t := Idle])
  }

  /** A send of `value`: with room, it is the last mail, and the first receiver is woken; without, the call
      returns if it is not to wait, and otherwise joins the senders with its mail. */
  ghost predicate Sent(b: Box, c: Box, t: Tid, value: int, timeout: int, byPrio: bool, prios: Prios, p: int)
    requires RingOk(b) && RingOk(c)
  {
    if b.entry < b.size then
      && Mails(c) == Mails(b) + [value] && c.senders == b.senders
      && FirstTold(b.receivers, c.receivers, b.phase[t := Idle], c.phase)
    else if timeout == 0 then GaveUp(b, c, t)
    else
      && Mails(c) == Mails(b) && c.receivers == b.receivers && c.phase == b.phase[t := SendWait(value, timeout)]
      && Joined(b.senders, c.senders, prios, t, p, byPrio)
  }

  /** A receive: with a mail, the first one goes, and the first sender is woken. */
  ghost predicate Received(b: Box, c: Box, t: Tid, timeout: int, byPrio: bool, prios: Prios, p: int)
    requires RingOk(b) && RingOk(c)
  {
    if b.entry > 0 then
      && Mails(c) == Mails(b)[1..] && c.receivers == b.receivers
      && FirstTold(b.senders, c.senders, b.phase[t := Idle], c.phase)
    else if timeout == 0 then GaveUp(b, c, t)
    else
      && Mails(c) == Mails(b) && c.senders == b.senders && c.phase == b.phase[t := RecvWait(timeout)]
      && Joined(b.receivers, c.receivers, prios, t, p, byPrio)
  }

  /** A blocked call runs out of time. */
  ghost predicate TimedOut(b: Box, c: Box, t: Tid)
    requires RingOk(b) && RingOk(c)
  {
    && Mails(c) == Mails(b) && t in b.phase && t in c.phase
    && c.phase == b.phase[t := c.phase[t]] && Told(b.phase[t], c.phase[t], ETIMEOUT)
    && (if b.phase[t].RecvWait? then Parted(b.receivers, c.receivers, t) else c.receivers == b.receivers)
    && (if b.phase[t].SendWait? then Parted(b.senders, c.senders, t) else c.senders == b.senders)
  }

  /** The mailbox is emptied, and every blocked thread is woken with an error. */
  ghost predicate Emptied(b: Box, c: Box)
    requires RingOk(c)
  {
    && Mails(c) == [] && c.receivers == [] && c.senders == [] && c.phase.Keys == b.phase.Keys
    && forall t :: t in b.phase ==>
         if Blocked(b.phase[t], true) || Blocked(b.phase[t], false) then Told(b.phase[t], c.phase[t], ERROR)
         else c.phase[t] == b.phase[t]
  }

  /** What a step does to mails, wait lists and waiting threads. */
  ghost predicate Does(b: Box, c: Box, s: Step, byPrio: bool, prios: Prios, p: int)
    requires RingOk(b) && RingOk(c) && Enabled(b, s)
  {
    c.size == b.size &&
    match s
    case SendStart(t, value, timeout) => Sent(b, c, t, value, timeout, byPrio, prios, p)
    case SendAgain(t, left) =>
      if b.phase[t].error == EOK then Sent(b, c, t, b.phase[t].value, left, byPrio, prios, p) else GaveUp(b, c, t)
    case RecvStart(t, timeout) => Received(b, c, t, timeout, byPrio, prios, p)
    case RecvAgain(t, left) =>
      if b.phase[t].error == EOK then Received(b, c, t, left, byPrio, prios, p) else GaveUp(b, c, t)
    case TimeOut(t) => TimedOut(b, c, t)
    case ResetBox => Emptied(b, c)
  }

  lemma SendDoes(b: Box, t: Tid, value: int, timeout: int, byPrio: bool, prios: Prios, p: int)
    requires Inv(b) && t in b.phase && (b.phase[t].Idle? || ToldRoom(b.phase[t]))
    ensures var c := Send(b, t, value, timeout, byPrio, prios, p);
      RingOk(c) && c.size == b.size && Sent(b, c, t, value, timeout, byPrio, prios, p)
  {
    hide Mails, Slot, Enqueue, NoneLost, RingOk;
    RingParts(b);
    SendFifo(b, t, value, timeout, byPrio, prios, p);
    EnqueueJoined(b.senders, prios, t, p, byPrio);
    if b.receivers != [] {
      assert b.receivers[0] in b.receivers;
    }
  }

  lemma ReceiveDoes(b: Box, t: Tid, timeout: int, byPrio: bool, prios: Prios, p: int)
    requires Inv(b) && t in b.phase && (b.phase[t].Idle? || ToldMail(b.phase[t]))
    ensures var c := Receive(b, t, timeout, byPrio, prios, p);
      RingOk(c) && c.size == b.size && Received(b, c, t, timeout, byPrio, prios, p)
  {
    hide Mails, Slot, Enqueue, NoneLost, RingOk;
    RingParts(b);
    ReceiveFifo(b, t, timeout, byPrio, prios, p);
    EnqueueJoined(b.receivers, prios, t, p, byPrio);
    if b.senders != [] {
      assert b.senders[0] in b.senders;
    }
  }

  /** Every step does to the mails, the wait lists and the waiting threads what the call promises. */
  lemma StepDoes(b: Box, s: Step, byPrio: bool, prios: Prios, p: int)
    requires Inv(b) && Enabled(b, s)
    ensures RingOk(Do(b, s, byPrio, prios, p)) && Does(b, Do(b, s, byPrio, prios, p), s, byPrio, prios, p)
  {
    hide Mails, Slot, Enqueue, NoneLost, RingOk, Send, Receive, Sent, Received, Without, Parted;
    match s
    case SendStart(t, value, timeout) => SendDoes(b, t, value, timeout, byPrio, prios, p);
    case SendAgain(t, left) =>
      if b.phase[t].error == EOK {
        SendDoes(b, t, b.phase[t].value, left, byPrio, prios, p);
      } else {
        RingSame(b, b.(phase := b.phase[t := Idle]));
      }
    case RecvStart(t, timeout) => ReceiveDoes(b, t, timeout, byPrio, prios, p);
    case RecvAgain(t, left) =>
      if b.phase[t].error == EOK {
        ReceiveDoes(b, t, left, byPrio, prios, p);
      } else {
        RingSame(b, b.(phase := b.phase[t := Idle]));
      }
    case TimeOut(t) =>
      RingSame(b, Expire(b, t));
      if b.phase[t].RecvWait? {
        WithoutParted(b.receivers, t);
      } else {
        WithoutParted(b.senders, t);
      }
    case ResetBox => ResetMails(b);
  }

  lemma ResetMails(b: Box)
    requires RingOk(b)
    ensures RingOk(Reset(b)) && Mails(Reset(b)) == []
  {
  }

  // Runs

  /** A step together with the priorities the threads have at that moment. */
  datatype Move = Move(step: Step, prios: Prios, p: int)

  ghost predicate CanRun(b: Box, moves: seq<Move>, byPrio: bool)
    decreases |moves|
  {
    moves == [] ||
      (Enabled(b, moves[0].step) &&
          CanRun(Do(b, moves[0].step, byPrio, moves[0].prios, moves[0].p), moves[1..], byPrio))
  }

  function Run(b: Box, moves: seq<Move>, byPrio: bool): Box
    decreases |moves|
  {
    if moves == [] then b else Run(Do(b, moves[0].step, byPrio, moves[0].prios, moves[0].p), moves[1..], byPrio)
  }

  lemma {:induction false} RunOk(b: Box, moves: seq<Move>, byPrio: bool)
    requires Inv(b) && CanRun(b, moves, byPrio)
    ensures Inv(Run(b, moves, byPrio))
    decreases |moves|
  {
    hide Inv, Do, Enabled;
    if moves != [] {
      StepOk(b, moves[0].step, byPrio, moves[0].prios, moves[0].p);
      RunOk(Do(b, moves[0].step, byPrio, moves[0].prios, moves[0].p), moves[1..], byPrio);
    }
  }

  /** No wakeup is lost: if a receiver is blocked while mail is queued, some woken receiver that has
      not run yet takes a mail when it does, whatever is left of its timeout. */
  lemma MailIsFetched(b: Box, left: int, byPrio: bool, prios: Prios, p: int) returns (t: Tid)
    requires Inv(b) && b.receivers != [] && b.entry > 0
    ensures t in b.phase && ToldMail(b.phase[t]) && t !in b.receivers
    ensures Do(b, RecvAgain(t, left), byPrio, prios, p).entry == b.entry - 1
  {
    assert MailPending(b.phase) != {};
    t :| t in MailPending(b.phase);
  }

  lemma RoomIsFilled(b: Box, left: int, byPrio: bool, prios: Prios, p: int) returns (t: Tid)
    requires Inv(b) && b.senders != [] && b.entry < b.size
    ensures t in b.phase && ToldRoom(b.phase[t]) && t !in b.senders
    ensures Do(b, SendAgain(t, left), byPrio, prios, p).entry == b.entry + 1
  {
    hide Mails, Slot, Without;
    RingParts(b);
    assert RoomPending(b.phase) != {};
    t :| t in RoomPending(b.phase);
  }

  /** The mail a step stores: what the call was asked to send when it began. */
  function Puts(b: Box, s: Step, asked: map<Tid, int>): seq<int> {
    match s
    case SendStart(t, value, _) => if b.entry == b.size then [] else [value]
    case SendAgain(t, _) =>
      if t in b.phase && b.phase[t].SendWoken? && b.phase[t].error == EOK && b.entry != b.size && t in asked
      then [asked[t]] else []
    case _ => []
  }

  /** What every thread was asked to send last. */
  function Asking(asked: map<Tid, int>, s: Step): map<Tid, int> {
    if s.SendStart? then asked[s.t := s.value] else asked
  }

  /** A thread that is sending still holds the mail it was asked to send. */
  ghost predicate Remembers(b: Box, asked: map<Tid, int>) {
    forall t: Tid :: t in b.phase && (b.phase[t].SendWait? || b.phase[t].SendWoken?) ==>
        t in asked && b.phase[t].value == asked[t]
  }

  /** The mail a step delivers. */
  function Gets(b: Box, s: Step): seq<int> {
    match s
    case RecvStart(t, _) => if b.entry == 0 || b.outOffset >= |b.pool| then [] else [b.pool[b.outOffset]]
    case RecvAgain(t, _) =>
      if t in b.phase && b.phase[t].RecvWoken? && b.phase[t].error == EOK && b.entry != 0 && b.outOffset < |b.pool|
      then [b.pool[b.outOffset]] else []
    case _ => []
  }

  lemma SendFifo(b: Box, t: Tid, value: int, timeout: int, byPrio: bool, prios: Prios, p: int)
    requires RingOk(b)
    ensures RingOk(Send(b, t, value, timeout, byPrio, prios, p))
    ensures Mails(Send(b, t, value, timeout, byPrio, prios, p)) ==
        Mails(b) + (if b.entry == b.size then [] else [value])
  {
    hide Slot, Mails, Enqueue, RingOk;
    RingParts(b);
    var r := Send(b, t, value, timeout, byPrio, prios, p);
    if b.entry == b.size {
      RingSame(b, r);
    } else {
      StoredAppends(b, value);
      RingSame(Stored(b, value), r);
    }
  }

  lemma ReceiveFifo(b: Box, t: Tid, timeout: int, byPrio: bool, prios: Prios, p: int)
    requires RingOk(b)
    ensures b.entry != 0 ==> b.outOffset < |b.pool|
    ensures RingOk(Receive(b, t, timeout, byPrio, prios, p))
    ensures Mails(b) ==
            (if b.entry == 0 then [] else [b.pool[b.outOffset]]) + Mails(Receive(b, t, timeout, byPrio, prios, p))
  {
    hide Slot, Mails, Enqueue, RingOk;
    RingParts(b);
    var r := Receive(b, t, timeout, byPrio, prios, p);
    if b.entry == 0 {
      RingSame(b, r);
    } else {
      FetchedFirst(b);
      RingSame(Fetched(b), r);
    }
  }

  lemma StepFifo(b: Box, s: Step, byPrio: bool, prios: Prios, p: int, asked: map<Tid, int>)
    requires Inv(b) && Enabled(b, s) && !s.ResetBox? && Remembers(b, asked)
    ensures RingOk(Do(b, s, byPrio, prios, p))
    ensures Mails(b) + Puts(b, s, asked) == Gets(b, s) + Mails(Do(b, s, byPrio, prios, p))
  {
    hide Mails, RingOk, Waiting, NoneLost, Send, Receive, Without;
    match s
    case SendStart(t, value, timeout) => SendFifo(b, t, value, timeout, byPrio, prios, p);
    case SendAgain(t, left) =>
      SendFifo(b, t, b.phase[t].value, left, byPrio, prios, p);
      RingSame(b, b.(phase := b.phase[t := Idle]));
    case RecvStart(t, timeout) => ReceiveFifo(b, t, timeout, byPrio, prios, p);
    case RecvAgain(t, left) =>
      ReceiveFifo(b, t, left, byPrio, prios, p);
      RingSame(b, b.(phase := b.phase[t := Idle]));
    case TimeOut(t) => RingSame(b, Expire(b, t));
  }

  /** No step makes a sender forget its mail. */
  lemma StepRemembers(b: Box, s: Step, byPrio: bool, prios: Prios, p: int, asked: map<Tid, int>)
    requires Enabled(b, s) && Remembers(b, asked)
    ensures Remembers(Do(b, s, byPrio, prios, p), Asking(asked, s))
  {
    hide Enqueue, Without;
  }

  /** The mails stored during a run, each as the SendStart of its call gave it. */
  function AllPuts(b: Box, moves: seq<Move>, byPrio: bool, asked: map<Tid, int>): seq<int>
    decreases |moves|
  {
    if moves == [] then []
    else
      var m := moves[0];
      Puts(b, m.step, asked) +
      AllPuts(Do(b, m.step, byPrio, m.prios, m.p), moves[1..], byPrio, Asking(asked, m.step))
  }

  function AllGets(b: Box, moves: seq<Move>, byPrio: bool): seq<int>
    decreases |moves|
  {
    if moves == [] then []
    else Gets(b, moves[0].step) + AllGets(Do(b, moves[0].step, byPrio, moves[0].prios, moves[0].p), moves[1..], byPrio)
  }

  /** Between resets mails are delivered in the order in which they were stored, none lost and none
      twice, and each as the call that stored it was asked to send it, however the senders and receivers
      interleave and however long they wait. */
  lemma {:induction false} RunFifo(b: Box, moves: seq<Move>, byPrio: bool, asked: map<Tid, int>)
    requires Inv(b) && Remembers(b, asked)
    requires CanRun(b, moves, byPrio) && forall m :: m in moves ==> !m.step.ResetBox?
    ensures Inv(Run(b, moves, byPrio))
    ensures Mails(b) + AllPuts(b, moves, byPrio, asked) == AllGets(b, moves, byPrio) + Mails(Run(b, moves, byPrio))
    decreases |moves|
  {
    hide Mails, Waiting, NoneLost, Do, Enabled, Puts, Gets, Remembers;
    if moves != [] {
      var m := moves[0];
      assert m in moves && forall x :: x in moves[1..] ==> x in moves;
      StepOk(b, m.step, byPrio, m.prios, m.p);
      StepFifo(b, m.step, byPrio, m.prios, m.p, asked);
      StepRemembers(b, m.step, byPrio, m.prios, m.p, asked);
      var c := Do(b, m.step, byPrio, m.prios, m.p);
      var asked1 := Asking(asked, m.step);
      RunFifo(c, moves[1..], byPrio, asked1);
      Chain(Mails(b), Puts(b, m.step, asked), AllPuts(c, moves[1..], byPrio, asked1),
            Gets(b, m.step), Mails(c), AllGets(c, moves[1..], byPrio), Mails(Run(b, moves, byPrio)));
    } else {
      assert Mails(b) + [] == [] + Mails(b);
    }
  }

  /** Some call of the run was asked to send `value`. */
  ghost predicate Offered(moves: seq<Move>, value: int) {
    exists i :: 0 <= i < |moves| && moves[i].step.SendStart? && moves[i].step.value == value
  }

  lemma {:induction false} PutsOffered(b: Box, moves: seq<Move>, byPrio: bool, asked: map<Tid, int>, value: int)
    requires value in AllPuts(b, moves, byPrio, asked)
    ensures Offered(moves, value) || value in asked.Values
    decreases |moves|
  {
    hide Do;
    if moves != [] {
      var m := moves[0];
      var c := Do(b, m.step, byPrio, m.prios, m.p);
      var asked1 := Asking(asked, m.step);
      if value in AllPuts(c, moves[1..], byPrio, asked1) {
        PutsOffered(c, moves[1..], byPrio, asked1, value);
        if Offered(moves[1..], value) {
          var i :| 0 <= i < |moves| - 1 && moves[1..][i].step.SendStart? && moves[1..][i].step.value == value;
          assert moves[i + 1].step.value == value;
        } else if m.step.SendStart? && value == m.step.value {
          assert moves[0].step.value == value;
        }
      } else if m.step.SendStart? {
        assert moves[0].step.value == value;
      }
    }
  }

  /** From a mailbox nobody is sending to, every mail that comes out was in it or was passed in by a call. */
  lemma RunDelivers(b: Box, moves: seq<Move>, byPrio: bool, value: int)
    requires Inv(b) && Remembers(b, map[])
    requires CanRun(b, moves, byPrio) && forall m :: m in moves ==> !m.step.ResetBox?
    requires value in AllGets(b, moves, byPrio)
    ensures value in Mails(b) || Offered(moves, value)
  {
    hide Mails, Waiting, NoneLost, Do, Enabled, AllPuts, AllGets, Run;
    RunFifo(b, moves, byPrio, map[]);
    assert value in Mails(b) + AllPuts(b, moves, byPrio, map[]);
    if value in AllPuts(b, moves, byPrio, map[]) {
      PutsOffered(b, moves, byPrio, map[], value);
    }
  }

  lemma Chain(a: seq<int>, p: seq<int>, ap: seq<int>, g: seq<int>, m: seq<int>, ag: seq<int>, e: seq<int>)
    requires a + p == g + m && m + ap == ag + e
    ensures a + (p + ap) == (g + ag) + e
  {
    assert a + (p + ap) == (a + p) + ap;
    assert g + (m + ap) == (g + m) + ap;
    assert g + (ag + e) == (g + ag) + e;
  }
}

/** The message queue of ipc.c on values. A send takes a node from the free chain in one locked
    region, fills it, and links it in another; a receive unlinks a node, copies it out, and frees
    it. Between the regions the node belongs to the call. */
module MessageQueueSteps {
  import opened TimerOrder
  import opened WaitQueue

  type Node = nat
  const NULL: Node := 0

  const EFULL: int := -3

  datatype Phase =
    | Outside
    | Sending(node: Node, urgent: bool)         // between the two regions of a send
    | RecvWait(timeout: int)
    | RecvWoken(error: int, timeout: int)
    | Copying(node: Node)                       // between the last two regions of a receive

  datatype Queue = Queue(
    next: map<Node, Node>, data: map<Node, seq<int>>,
    head: Node, tail: Node, free: Node, entry: nat,
    receivers: seq<Tid>, phase: map<Tid, Phase>)

  datatype Place = InQueue | InFree | With(t: Tid)

  /** The two chains, and where every node of the pool is. */
  datatype View = View(queue: seq<Node>, free: seq<Node>, places: map<Node, Place>)

  // Chains

  function After(s: seq<Node>, i: nat): Node { if i + 1 < |s| then s[i + 1] else NULL }

  ghost predicate Chain(next: map<Node, Node>, head: Node, s: seq<Node>) {
    && (forall i :: 0 <= i < |s| ==> s[i] != NULL && s[i] in next)
    && (forall i :: 0 <= i < |s| ==> next[s[i]] == After(s, i))
    && head == (if s == [] then NULL else s[0])
    && (forall i, j :: 0 <= i < j < |s| ==> s[i] != s[j])
  }

  function Last(s: seq<Node>): Node { if s == [] then NULL else s[|s| - 1] }

  lemma ChainFrame(next: map<Node, Node>, head: Node, s: seq<Node>, n: Node, m: Node)
    requires Chain(next, head, s) && n !in s
    ensures Chain(next[n := m], head, s)
  {
  }

  lemma ChainPush(next: map<Node, Node>, head: Node, s: seq<Node>, n: Node)
    requires Chain(next, head, s) && n !in s && n != NULL
    ensures Chain(next[n := head], n, [n] + s)
    ensures s != [] ==> Last([n] + s) == Last(s)
  {
    var r, next2 := [n] + s, next[n := head];
    forall i | 0 <= i < |r| ensures r[i] != NULL && r[i] in next2 && next2[r[i]] == After(r, i) {
      if i > 0 {
        assert r[i] == s[i - 1] && r[i] in s && After(r, i) == After(s, i - 1);
      }
    }
    PushDistinct(s, n);
  }

  lemma PushDistinct(s: seq<Node>, n: Node)
    requires n !in s && forall i, j :: 0 <= i < j < |s| ==> s[i] != s[j]
    ensures var r := [n] + s; forall i, j :: 0 <= i < j < |r| ==> r[i] != r[j]
  {
  }

  lemma ChainPop(next: map<Node, Node>, head: Node, s: seq<Node>)
    requires Chain(next, head, s) && s != []
    ensures head == s[0] && head in next && head != NULL && head !in s[1..] && Chain(next, next[head], s[1..])
    ensures |s| > 1 ==> Last(s[1..]) == Last(s) && Last(s) != head
    ensures |s| == 1 ==> Last(s) == head
  {
    var r := s[1..];
    forall i | 0 <= i < |r| ensures r[i] != NULL && r[i] in next && next[r[i]] == After(r, i) {
      assert r[i] == s[i + 1] && After(r, i) == After(s, i + 1);
    }
    assert next[s[0]] == After(s, 0);
  }

  lemma ChainAppend(next: map<Node, Node>, head: Node, s: seq<Node>, n: Node)
    requires Chain(next, head, s) && n !in s && n != NULL && s != []
    ensures Last(s) in next && Chain(next[n := NULL][Last(s) := n], head, s + [n])
  {
  }

  lemma ChainOne(next: map<Node, Node>, n: Node)
    requires n != NULL
    ensures Chain(next[n := NULL], n, [n])
  {
  }

  // The invariant

  predicate Holds(phase: map<Tid, Phase>, t: Tid, n: Node) {
    t in phase && ((phase[t].Sending? && phase[t].node == n) || (phase[t].Copying? && phase[t].node == n))
  }

  predicate Holding(p: Phase) { p.Sending? || p.Copying? }

  /** Every node is in the queue, in the free chain, or with exactly one call. */
  ghost predicate Placed(v: View, phase: map<Tid, Phase>, max: nat) {
    && (forall n: Node :: n in v.places <==> 1 <= n <= max)
    && (forall n: Node :: n in v.queue <==> n in v.places && v.places[n] == InQueue)
    && (forall n: Node :: n in v.free <==> n in v.places && v.places[n] == InFree)
    && (forall n: Node, t: Tid :: Holds(phase, t, n) <==> n in v.places && v.places[n] == With(t))
  }

  ghost predicate Waiting(q: seq<Tid>, phase: map<Tid, Phase>) {
    && (forall i, j :: 0 <= i < j < |q| ==> q[i] != q[j])
    && (forall t: Tid :: t in q <==> t in phase && phase[t].RecvWait?)
  }

  predicate Told(p: Phase) { p.RecvWoken? && p.error == EOK }
  ghost function Pending(phase: map<Tid, Phase>): set<Tid> { set t | t in phase && Told(phase[t]) }

  ghost predicate Buffers(data: map<Node, seq<int>>, max: nat, msgSize: nat) {
    forall n: Node :: 1 <= n <= max ==> n in data && |data[n]| == msgSize
  }

  ghost predicate Chained(s: Queue, v: View) {
    && Chain(s.next, s.head, v.queue) && Chain(s.next, s.free, v.free)
    && s.tail == Last(v.queue) && s.entry == |v.queue|
  }

  /** While a receiver is blocked, every queued message has a woken receiver coming for it. */
  ghost predicate NoneLost(s: Queue) { s.receivers != [] ==> s.entry <= |Pending(s.phase)| }

  ghost predicate Inv(s: Queue, v: View, max: nat, msgSize: nat) {
    && Chained(s, v) && Placed(v, s.phase, max) && Waiting(s.receivers, s.phase) && NoneLost(s)
    && Buffers(s.data, max, msgSize)
  }

  /** The queued messages, first to be received first: the deque the object stands for. */
  ghost function Messages(data: map<Node, seq<int>>, q: seq<Node>): seq<seq<int>> {
    if q == [] then [] else [if q[0] in data then data[q[0]] else []] + Messages(data, q[1..])
  }

  lemma {:induction false} MessagesAppend(data: map<Node, seq<int>>, q: seq<Node>, n: Node)
    requires n in data
    ensures Messages(data, q + [n]) == Messages(data, q) + [data[n]]
  {
    if q == [] {
      assert q + [n] == [n];
    } else {
      assert (q + [n])[1..] == q[1..] + [n];
      MessagesAppend(data, q[1..], n);
    }
  }

  lemma {:induction false} MessagesFrame(data: map<Node, seq<int>>, q: seq<Node>, n: Node, m: seq<int>)
    requires n !in q
    ensures Messages(data[n := m], q) == Messages(data, q)
  {
    if q != [] {
      MessagesFrame(data, q[1..], n, m);
    }
  }

  // Sending

  /** The first region of rt_mq_send and rt_mq_urgent, and the copy into the node. */
  function Reserve(s: Queue, t: Tid, message: seq<int>, urgent: bool): Queue {
    if s.free == NULL || s.free !in s.next || s.free !in s.data || |message| > |s.data[s.free]| then s
    else
      var n := s.free;
      s.(free := s.next[n], phase := s.phase[t := Sending(n, urgent)],
         data := s.data[n := message + s.data[n][|message|..]])
  }

  /** The linking at the tail in rt_mq_send. */
  function LinkTail(s: Queue, n: Node): Queue {
    var next1 := s.next[n := NULL];
    s.(next := if s.tail != NULL then next1[s.tail := n] else next1,
       tail := n, head := if s.head == NULL then n else s.head, entry := s.entry + 1)
  }

  /** The linking at the head in rt_mq_urgent. */
  function LinkHead(s: Queue, n: Node): Queue {
    s.(next := s.next[n := s.head], head := n, tail := if s.tail == NULL then n else s.tail, entry := s.entry + 1)
  }

  function Wake(s: Queue): Queue {
    if s.receivers == [] || s.receivers[0] !in s.phase || !s.phase[s.receivers[0]].RecvWait? then s
    else
      var t := s.receivers[0];
      s.(receivers := s.receivers[1..], phase := s.phase[t := RecvWoken(EOK, s.phase[t].timeout)])
  }

  /** The second region of a send. */
  function Link(s: Queue, t: Tid): Queue {
    if t !in s.phase || !s.phase[t].Sending? then s
    else
      var n := s.phase[t].node;
      var linked := if s.phase[t].urgent then LinkHead(s, n) else LinkTail(s, n);
      Wake(linked.(phase := s.phase[t := Outside]))
  }

  // Receiving

  function Unlink(s: Queue): Queue
    requires s.head in s.next && s.entry > 0
  {
    s.(head := s.next[s.head], tail := if s.tail == s.head then NULL else s.tail, entry := s.entry - 1)
  }

  /** The loop of rt_mq_recv and the region that unlinks a message. */
  function Receive(s: Queue, t: Tid, timeout: int, byPrio: bool, prios: Prios, p: int): Queue {
    if s.entry == 0 then
      if timeout == 0 then s.(phase := s.phase[t := Outside])
      else s.(receivers := Enqueue(s.receivers, prios, t, p, byPrio), phase := s.phase[t := RecvWait(timeout)])
    else if s.head in s.next then Unlink(s).(phase := s.phase[t := Copying(s.head)])
    else s
  }

  /** The last region of rt_mq_recv. */
  function GiveBack(s: Queue, t: Tid): Queue {
    if t !in s.phase || !s.phase[t].Copying? then s
    else
      var n := s.phase[t].node;
      s.(next := s.next[n := s.free], free := n, phase := s.phase[t := Outside])
  }

  function Expire(s: Queue, t: Tid): Queue {
    if t !in s.phase || !s.phase[t].RecvWait? then s
    else s.(receivers := Without(s.receivers, t), phase := s.phase[t := RecvWoken(ETIMEOUT, s.phase[t].timeout)])
  }

  // Resetting

  /** One round of the loop in rt_mq_control. */
  function Drop(s: Queue): Queue
    requires s.head in s.next
  {
    s.(head := s.next[s.head], tail := if s.tail == s.head then NULL else s.tail,
       next := s.next[s.head := s.free], free := s.head)
  }

  function DropAll(s: Queue, n: nat): Queue
    decreases n
  {
    if n == 0 || s.head !in s.next then s else DropAll(Drop(s), n - 1)
  }

  /** What rt_ipc_list_resume_all does to the receivers. */
  function Cancelled(phase: map<Tid, Phase>): map<Tid, Phase> {
    map t | t in phase :: if phase[t].RecvWait? then RecvWoken(ERROR, phase[t].timeout) else phase[t]
  }

  /** RT_IPC_CMD_RESET. */
  function Reset(s: Queue): Queue {
    DropAll(s.(receivers := [], phase := Cancelled(s.phase)), s.entry).(entry := 0)
  }

  // Nodes change places

  lemma PlacedSame(v: View, phase: map<Tid, Phase>, max: nat, t: Tid, p: Phase)
    requires Placed(v, phase, max) && !Holding(p) && t in phase && !Holding(phase[t])
    ensures Placed(v, phase[t := p], max)
  {
    var phase2 := phase[t := p];
    forall n: Node, u: Tid ensures Holds(phase2, u, n) <==> n in v.places && v.places[n] == With(u) {
      assert Holds(phase2, u, n) <==> Holds(phase, u, n);
    }
  }

  /** A call takes the first free node. */
  lemma PlacedReserve(v: View, phase: map<Tid, Phase>, max: nat, n: Node, t: Tid, p: Phase)
    requires Placed(v, phase, max) && v.free != [] && n == v.free[0]
    requires forall i, j :: 0 <= i < j < |v.free| ==> v.free[i] != v.free[j]
    requires Holding(p) && p.node == n && t in phase && !Holding(phase[t])
    ensures n !in v.queue && n !in v.free[1..]
    ensures Placed(View(v.queue, v.free[1..], v.places[n := With(t)]), phase[t := p], max)
  {
    TailMembers(v.free);
    assert n in v.free;
    var phase2 := phase[t := p];
    var places2 := v.places[n := With(t)];
    forall m: Node, u: Tid ensures Holds(phase2, u, m) <==> m in places2 && places2[m] == With(u) {
      assert !Holds(phase, t, m);
      assert Holds(phase2, u, m) <==> (if u == t then m == n else Holds(phase, u, m));
    }
  }

  /** A call puts the node it holds into the queue. */
  lemma PlacedLink(v: View, phase: map<Tid, Phase>, max: nat, n: Node, t: Tid, p: Phase, q: seq<Node>)
    requires Placed(v, phase, max) && Holds(phase, t, n) && !Holding(p)
    requires forall m: Node :: m in q <==> m in v.queue || m == n
    ensures n != NULL && n !in v.queue && n !in v.free
    ensures Placed(View(q, v.free, v.places[n := InQueue]), phase[t := p], max)
  {
    forall m: Node, u: Tid ensures Holds(phase[t := p], u, m) <==> u != t && Holds(phase, u, m) {
    }
    forall m: Node, u: Tid | Holds(phase, u, m) && u != t ensures m != n {
    }
    forall m: Node | Holds(phase, t, m) ensures m == n {
    }
  }

  lemma PlacedUnlink(v: View, phase: map<Tid, Phase>, max: nat, n: Node, t: Tid, p: Phase)
    requires Placed(v, phase, max) && v.queue != [] && n == v.queue[0]
    requires forall i, j :: 0 <= i < j < |v.queue| ==> v.queue[i] != v.queue[j]
    requires Holding(p) && p.node == n && t in phase && !Holding(phase[t])
    ensures n !in v.free && n !in v.queue[1..]
    ensures Placed(View(v.queue[1..], v.free, v.places[n := With(t)]), phase[t := p], max)
  {
    TailMembers(v.queue);
    assert n in v.queue;
    var phase2 := phase[t := p];
    var places2 := v.places[n := With(t)];
    forall m: Node, u: Tid ensures Holds(phase2, u, m) <==> m in places2 && places2[m] == With(u) {
      assert !Holds(phase, t, m);
      assert Holds(phase2, u, m) <==> (if u == t then m == n else Holds(phase, u, m));
    }
  }

  lemma PlacedFree(v: View, phase: map<Tid, Phase>, max: nat, n: Node, t: Tid, p: Phase)
    requires Placed(v, phase, max) && Holds(phase, t, n) && !Holding(p)
    ensures n != NULL && n !in v.queue && n !in v.free
    ensures Placed(View(v.queue, [n] + v.free, v.places[n := InFree]), phase[t := p], max)
  {
    forall m: Node, u: Tid ensures Holds(phase[t := p], u, m) <==> u != t && Holds(phase, u, m) {
    }
    forall m: Node, u: Tid | Holds(phase, u, m) && u != t ensures m != n {
    }
    forall m: Node | Holds(phase, t, m) ensures m == n {
    }
  }

  lemma PlacedDrop(v: View, phase: map<Tid, Phase>, max: nat, n: Node)
    requires Placed(v, phase, max) && v.queue != [] && n == v.queue[0]
    requires forall i, j :: 0 <= i < j < |v.queue| ==> v.queue[i] != v.queue[j]
    ensures n != NULL && n !in v.free && n !in v.queue[1..]
    ensures Placed(View(v.queue[1..], [n] + v.free, v.places[n := InFree]), phase, max)
  {
    TailMembers(v.queue);
    assert n in v.queue;
  }

  // Waiting, as for a mailbox with receivers only

  lemma PendingUpdate(phase: map<Tid, Phase>, t: Tid, p: Phase)
    requires t in phase
    ensures |Pending(phase[t := p])| ==
        |Pending(phase)| + (if Told(p) then 1 else 0) - (if Told(phase[t]) then 1 else 0)
  {
    var m := Pending(phase);
    assert Pending(phase[t := p]) == if Told(p) then m + {t} else m - {t};
  }

  lemma WaitSame(q: seq<Tid>, phase: map<Tid, Phase>, t: Tid, p: Phase)
    requires Waiting(q, phase) && t in phase && !phase[t].RecvWait? && !p.RecvWait?
    ensures Waiting(q, phase[t := p])
  {
  }

  lemma WaitInsert(q: seq<Tid>, phase: map<Tid, Phase>, t: Tid, p: Phase, n: nat)
    requires Waiting(q, phase) && t in phase && !phase[t].RecvWait? && p.RecvWait? && n <= |q|
    ensures Waiting(q[..n] + [t] + q[n..], phase[t := p])
  {
    EnqueueMembers(q, n, t, q[..n] + [t] + q[n..]);
  }

  lemma WaitFirst(q: seq<Tid>, phase: map<Tid, Phase>, p: Phase)
    requires Waiting(q, phase) && q != [] && !p.RecvWait?
    ensures q[0] in phase && phase[q[0]].RecvWait? && Waiting(q[1..], phase[q[0] := p])
  {
    assert q[0] in q;
    TailMembers(q);
  }

  lemma WaitWithout(q: seq<Tid>, phase: map<Tid, Phase>, t: Tid, p: Phase)
    requires Waiting(q, phase) && !p.RecvWait? && t in q
    ensures Waiting(Without(q, t), phase[t := p])
  {
    hide Without;
    WithoutMembers(q, t);
    WithoutDistinct(q, t);
  }

  // Every step keeps the invariant and does to the deque what it should

  lemma BuffersUpdate(data: map<Node, seq<int>>, max: nat, msgSize: nat, n: Node, m: seq<int>)
    requires Buffers(data, max, msgSize) && |m| == msgSize
    ensures Buffers(data[n := m], max, msgSize)
  {
  }

  lemma PlacedRange(v: View, phase: map<Tid, Phase>, max: nat, n: Node)
    requires Placed(v, phase, max)
    ensures n in v.free || n in v.queue ==> 1 <= n <= max
    ensures forall t: Tid :: Holds(phase, t, n) ==> 1 <= n <= max
  {
  }

  /** A send fails only when no node is free; otherwise it holds a node whose first bytes are the
      message, and the queued messages are untouched. */
  lemma ReserveOk(s: Queue, v: View, max: nat, msgSize: nat, t: Tid, message: seq<int>, urgent: bool) returns (w: View)
    requires Inv(s, v, max, msgSize) && t in s.phase && s.phase[t].Outside? && |message| <= msgSize
    ensures Inv(Reserve(s, t, message, urgent), w, max, msgSize)
    ensures s.free == NULL <==> v.free == []
    ensures Messages(Reserve(s, t, message, urgent).data, w.queue) == Messages(s.data, v.queue)
    ensures s.free == NULL ==> Reserve(s, t, message, urgent) == s && w == v
    ensures s.free != NULL ==> var r := Reserve(s, t, message, urgent);
      && t in r.phase && r.phase[t] == Sending(s.free, urgent) && s.free in r.data && message <= r.data[s.free]
      && w == View(v.queue, v.free[1..], v.places[s.free := With(t)])
  {
    hide Placed, Waiting, Pending, Buffers, Chain;
    w := v;
    ChainHead(s.next, s.free, v.free);
    if s.free != NULL {
      var n := s.free;
      var p := Sending(n, urgent);
      ChainPop(s.next, s.free, v.free);
      ChainDistinct(s.next, s.free, v.free);
      assert n in v.free;
      PlacedRange(v, s.phase, max, n);
      BufferAt(s.data, max, msgSize, n);
      PlacedReserve(v, s.phase, max, n, t, p);
      WaitSame(s.receivers, s.phase, t, p);
      PendingUpdate(s.phase, t, p);
      var m := message + s.data[n][|message|..];
      BuffersUpdate(s.data, max, msgSize, n, m);
      MessagesFrame(s.data, v.queue, n, m);
      w := View(v.queue, v.free[1..], v.places[n := With(t)]);
    }
  }

  lemma BufferAt(data: map<Node, seq<int>>, max: nat, msgSize: nat, n: Node)
    requires Buffers(data, max, msgSize) && 1 <= n <= max
    ensures n in data && |data[n]| == msgSize
  {
  }

  lemma ChainHead(next: map<Node, Node>, head: Node, s: seq<Node>)
    requires Chain(next, head, s)
    ensures head == NULL <==> s == []
    ensures head == if s == [] then NULL else s[0]
    ensures Last(s) == NULL <==> s == []
  {
  }

  lemma ChainDistinct(next: map<Node, Node>, head: Node, s: seq<Node>)
    requires Chain(next, head, s)
    ensures forall i, j :: 0 <= i < j < |s| ==> s[i] != s[j]
  {
  }

  lemma LinkTailOk(s: Queue, v: View, n: Node)
    requires Chained(s, v) && n != NULL && n !in v.queue && n !in v.free && (forall m :: m in v.queue ==> m !in v.free)
    ensures Chained(LinkTail(s, n), View(v.queue + [n], v.free, v.places))
  {
    hide Chain;
    ChainHead(s.next, s.head, v.queue);
    ChainFrame(s.next, s.free, v.free, n, NULL);
    if v.queue == [] {
      ChainOne(s.next, n);
      assert v.queue + [n] == [n];
    } else {
      ChainAppend(s.next, s.head, v.queue, n);
      assert Last(v.queue) in v.queue;
      ChainFrame(s.next[n := NULL], s.free, v.free, Last(v.queue), n);
    }
  }

  lemma LinkHeadOk(s: Queue, v: View, n: Node)
    requires Chained(s, v) && n != NULL && n !in v.queue && n !in v.free
    ensures Chained(LinkHead(s, n), View([n] + v.queue, v.free, v.places))
  {
    hide Chain;
    ChainHead(s.next, s.head, v.queue);
    ChainFrame(s.next, s.free, v.free, n, s.head);
    ChainPush(s.next, s.head, v.queue, n);
  }

  lemma WakeOk(s: Queue, v: View, max: nat, msgSize: nat)
    requires Chained(s, v) && Placed(v, s.phase, max) && Waiting(s.receivers, s.phase) && Buffers(s.data, max, msgSize)
    requires s.receivers != [] ==> s.entry <= |Pending(s.phase)| + 1
    ensures Inv(Wake(s), v, max, msgSize)
  {
    hide Placed, Waiting, Pending, Buffers, Chain;
    if s.receivers != [] {
      var t := s.receivers[0];
      WaitFirst(s.receivers, s.phase, Outside);
      var p := RecvWoken(EOK, s.phase[t].timeout);
      WaitFirst(s.receivers, s.phase, p);
      PlacedSame(v, s.phase, max, t, p);
      PendingUpdate(s.phase, t, p);
    }
  }

  /** When a send links its node, an ordinary message goes to the back of the deque and an urgent
      one to the front. */
  lemma LinkOk(s: Queue, v: View, max: nat, msgSize: nat, t: Tid) returns (w: View)
    requires Inv(s, v, max, msgSize) && t in s.phase && s.phase[t].Sending?
    ensures Inv(Link(s, t), w, max, msgSize) && Link(s, t).data == s.data
    ensures s.phase[t].node in s.data
    ensures Messages(s.data, w.queue) ==
            if s.phase[t].urgent then [s.data[s.phase[t].node]] + Messages(s.data, v.queue)
            else Messages(s.data, v.queue) + [s.data[s.phase[t].node]]
    ensures w.free == v.free
    ensures w.queue == if s.phase[t].urgent then [s.phase[t].node] + v.queue else v.queue + [s.phase[t].node]
  {
    hide Placed, Waiting, Pending, Buffers, Chain, LinkHead, LinkTail, Wake;
    var n := s.phase[t].node;
    var q := if s.phase[t].urgent then [n] + v.queue else v.queue + [n];
    assert Holds(s.phase, t, n);
    PlacedRange(v, s.phase, max, n);
    BufferAt(s.data, max, msgSize, n);
    PlacedLink(v, s.phase, max, n, t, Outside, q);
    PlacedApart(v, s.phase, max);
    WaitSame(s.receivers, s.phase, t, Outside);
    PendingUpdate(s.phase, t, Outside);
    w := View(q, v.free, v.places[n := InQueue]);
    LinkRest(s, n);
    if s.phase[t].urgent {
      LinkHeadOk(s, v, n);
      WakeOk(LinkHead(s, n).(phase := s.phase[t := Outside]), w, max, msgSize);
      WakeRest(LinkHead(s, n).(phase := s.phase[t := Outside]));
    } else {
      LinkTailOk(s, v, n);
      MessagesAppend(s.data, v.queue, n);
      WakeOk(LinkTail(s, n).(phase := s.phase[t := Outside]), w, max, msgSize);
      WakeRest(LinkTail(s, n).(phase := s.phase[t := Outside]));
    }
  }

  lemma LinkRest(s: Queue, n: Node)
    ensures forall r :: r in {LinkHead(s, n), LinkTail(s, n)} ==>
      r.data == s.data && r.phase == s.phase && r.receivers == s.receivers && r.entry == s.entry + 1 && r.free == s.free
  {
  }

  lemma WakeRest(s: Queue)
    ensures Wake(s).data == s.data
  {
  }

  lemma PlacedApart(v: View, phase: map<Tid, Phase>, max: nat)
    requires Placed(v, phase, max)
    ensures forall m :: m in v.queue ==> m !in v.free
  {
  }

  lemma UnlinkOk(s: Queue, v: View)
    requires Chained(s, v) && s.entry > 0
    ensures s.head in s.next && v.queue != [] && s.head == v.queue[0]
    ensures Chained(Unlink(s), View(v.queue[1..], v.free, v.places))
  {
    hide Chain;
    ChainHead(s.next, s.head, v.queue);
    ChainPop(s.next, s.head, v.queue);
  }

  /** A receive takes the first message of the deque, or waits, or gives up. */
  lemma ReceiveOk(s: Queue, v: View, max: nat, msgSize: nat, t: Tid, timeout: int, byPrio: bool, prios: Prios, p: int)
    returns (w: View)
    requires Inv(s, v, max, msgSize) && t in s.phase && (s.phase[t].Outside? || Told(s.phase[t]))
    ensures Inv(Receive(s, t, timeout, byPrio, prios, p), w, max, msgSize) && w.free == v.free
    ensures Receive(s, t, timeout, byPrio, prios, p).data == s.data
    ensures s.entry == 0 ==> w.queue == v.queue
    ensures s.entry > 0 ==> v.queue != [] && s.head == v.queue[0] && w.queue == v.queue[1..]
    ensures s.entry > 0 ==> var r := Receive(s, t, timeout, byPrio, prios, p);
      && t in r.phase && r.phase[t] == Copying(s.head) && s.head in s.data
      && Messages(s.data, v.queue) == [s.data[s.head]] + Messages(s.data, w.queue)
  {
    hide Placed, Waiting, Pending, Buffers, Chain, Unlink, Position;
    w := v;
    if s.entry == 0 {
      var q := if timeout == 0 then Outside else RecvWait(timeout);
      PlacedSame(v, s.phase, max, t, q);
      PendingUpdate(s.phase, t, q);
      if timeout == 0 {
        WaitSame(s.receivers, s.phase, t, q);
      } else {
        WaitInsert(s.receivers, s.phase, t, q, Position(s.receivers, prios, p, byPrio));
      }
    } else {
      var n := s.head;
      UnlinkOk(s, v);
      UnlinkRest(s);
      ChainDistinct(s.next, s.head, v.queue);
      PlacedUnlink(v, s.phase, max, n, t, Copying(n));
      assert n in v.queue;
      PlacedRange(v, s.phase, max, n);
      BufferAt(s.data, max, msgSize, n);
      WaitSame(s.receivers, s.phase, t, Copying(n));
      PendingUpdate(s.phase, t, Copying(n));
      w := View(v.queue[1..], v.free, v.places[n := With(t)]);
    }
  }

  lemma UnlinkRest(s: Queue)
    requires s.head in s.next && s.entry > 0
    ensures var r := Unlink(s);
      r.data == s.data && r.phase == s.phase && r.receivers == s.receivers && r.entry == s.entry - 1
  {
  }

  lemma GiveBackOk(s: Queue, v: View, max: nat, msgSize: nat, t: Tid) returns (w: View)
    requires Inv(s, v, max, msgSize) && t in s.phase && s.phase[t].Copying?
    ensures Inv(GiveBack(s, t), w, max, msgSize) && w.queue == v.queue && w.free == [s.phase[t].node] + v.free
    ensures GiveBack(s, t).data == s.data
  {
    hide Placed, Waiting, Pending, Buffers, Chain;
    var n := s.phase[t].node;
    assert Holds(s.phase, t, n);
    PlacedFree(v, s.phase, max, n, t, Outside);
    ChainFrame(s.next, s.head, v.queue, n, s.free);
    ChainPush(s.next, s.free, v.free, n);
    WaitSame(s.receivers, s.phase, t, Outside);
    PendingUpdate(s.phase, t, Outside);
    w := View(v.queue, [n] + v.free, v.places[n := InFree]);
  }

  lemma ExpireOk(s: Queue, v: View, max: nat, msgSize: nat, t: Tid)
    requires Inv(s, v, max, msgSize) && t in s.phase && s.phase[t].RecvWait?
    ensures Inv(Expire(s, t), v, max, msgSize)
  {
    hide Placed, Pending, Buffers, Chain, Without;
    var p := RecvWoken(ETIMEOUT, s.phase[t].timeout);
    PlacedSame(v, s.phase, max, t, p);
    PendingUpdate(s.phase, t, p);
    WaitWithout(s.receivers, s.phase, t, p);
  }

  lemma DropOk(s: Queue, v: View, max: nat)
    requires Chain(s.next, s.head, v.queue) && Chain(s.next, s.free, v.free) && s.tail == Last(v.queue) && v.queue != []
    requires Placed(v, s.phase, max)
    ensures s.head in s.next && s.head == v.queue[0]
    ensures var r := Drop(s); var w := View(v.queue[1..], [v.queue[0]] + v.free, v.places[v.queue[0] := InFree]);
      && Chain(r.next, r.head, w.queue) && Chain(r.next, r.free, w.free) && r.tail == Last(w.queue) &&
          Placed(w, s.phase, max)
  {
    hide Placed, Chain;
    var n := v.queue[0];
    ChainHead(s.next, s.head, v.queue);
    ChainPop(s.next, s.head, v.queue);
    ChainDistinct(s.next, s.head, v.queue);
    PlacedDrop(v, s.phase, max, n);
    ChainFrame(s.next, s.next[n], v.queue[1..], n, s.free);
    ChainPush(s.next, s.free, v.free, n);
  }

  function Reversed(q: seq<Node>): seq<Node> { if q == [] then [] else Reversed(q[1..]) + [q[0]] }

  /** The loop of the reset moves every queued node to the free chain. */
  lemma {:induction false} DropAllOk(s: Queue, v: View, max: nat) returns (w: View)
    requires Chain(s.next, s.head, v.queue) && Chain(s.next, s.free, v.free) && s.tail == Last(v.queue)
    requires Placed(v, s.phase, max)
    ensures var r := DropAll(s, |v.queue|);
      && Chain(r.next, r.head, []) && Chain(r.next, r.free, w.free) && r.tail == NULL && Placed(w, s.phase, max)
      && r.phase == s.phase && r.receivers == s.receivers && r.data == s.data
    ensures w.queue == [] && w.free == Reversed(v.queue) + v.free
    decreases |v.queue|
  {
    hide Placed, Chain;
    w := v;
    if v.queue != [] {
      var n := v.queue[0];
      DropOk(s, v, max);
      w := DropAllOk(Drop(s), View(v.queue[1..], [n] + v.free, v.places[n := InFree]), max);
      assert Reversed(v.queue[1..]) + ([n] + v.free) == (Reversed(v.queue[1..]) + [n]) + v.free;
    } else {
      ChainHead(s.next, s.head, v.queue);
    }
  }

  lemma CancelOk(v: View, phase: map<Tid, Phase>, max: nat)
    requires Placed(v, phase, max)
    ensures Placed(v, Cancelled(phase), max) && Waiting([], Cancelled(phase))
  {
    var phase2 := Cancelled(phase);
    forall n: Node, u: Tid ensures Holds(phase2, u, n) <==> n in v.places && v.places[n] == With(u) {
      assert Holds(phase2, u, n) <==> Holds(phase, u, n);
    }
  }

  /** A reset returns every queued node to the free chain and leaves the calls in flight alone. */
  lemma ResetOk(s: Queue, v: View, max: nat, msgSize: nat) returns (w: View)
    requires Inv(s, v, max, msgSize)
    ensures Inv(Reset(s), w, max, msgSize) && w.queue == [] && w.free == Reversed(v.queue) + v.free
    ensures forall t: Tid, n: Node :: Holds(Reset(s).phase, t, n) <==> Holds(s.phase, t, n)
    ensures Reset(s).data == s.data
  {
    hide Placed, Chain, Buffers, Pending, Waiting, Holds;
    CancelOk(v, s.phase, max);
    var s1 := s.(receivers := [], phase := Cancelled(s.phase));
    w := DropAllOk(s1, v, max);
    CancelHolds(s.phase);
  }

  lemma CancelHolds(phase: map<Tid, Phase>)
    ensures forall t: Tid, n: Node :: Holds(Cancelled(phase), t, n) <==> Holds(phase, t, n)
  {
  }

  // Steps and runs

  datatype Step =
    | SendStart(t: Tid, message: seq<int>, urgent: bool)
    | SendLink(t: Tid)
    | RecvStart(t: Tid, timeout: int)
    | RecvAgain(t: Tid, left: int)
    | RecvEnd(t: Tid)
    | TimeOut(t: Tid)
    | ResetQueue

  ghost predicate Enabled(s: Queue, x: Step, msgSize: nat) {
    match x
    case SendStart(t, message, _) => t in s.phase && s.phase[t].Outside? && |message| <= msgSize
    case SendLink(t) => t in s.phase && s.phase[t].Sending?
    case RecvStart(t, _) => t in s.phase && s.phase[t].Outside?
    case RecvAgain(t, left) => t in s.phase && s.phase[t].RecvWoken? && LeftOver(s.phase[t].timeout, left)
    case RecvEnd(t) => t in s.phase && s.phase[t].Copying?
    case TimeOut(t) => t in s.phase && s.phase[t].RecvWait? && s.phase[t].timeout > 0
    case ResetQueue => true
  }

  function Do(s: Queue, x: Step, byPrio: bool, prios: Prios, p: int): Queue {
    match x
    case SendStart(t, message, urgent) => Reserve(s, t, message, urgent)
    case SendLink(t) => Link(s, t)
    case RecvStart(t, timeout) => Receive(s, t, timeout, byPrio, prios, p)
    case RecvAgain(t, left) =>
      if t in s.phase && Told(s.phase[t])
      then Receive(s, t, left, byPrio, prios, p) else s.(phase := s.phase[t := Outside])
    case RecvEnd(t) => GiveBack(s, t)
    case TimeOut(t) => Expire(s, t)
    case ResetQueue => Reset(s)
  }

  // What a step does, call by call

  /** The first receiver that waits, if any, is told of a message. */
  ghost predicate FirstTold(q: seq<Tid>, r: seq<Tid>, before: map<Tid, Phase>, after: map<Tid, Phase>) {
    if q == [] then r == [] && after == before
    else
      && r == q[1..] && q[0] in before && before[q[0]].RecvWait?
      && after == before[q[0] := RecvWoken(EOK, before[q[0]].timeout)]
  }

  /** The call of `t` has returned; no node has moved. */
  ghost predicate Left(s: Queue, v: View, r: Queue, w: View, t: Tid) {
    && w.queue == v.queue && w.free == v.free && r.data == s.data
    && r.receivers == s.receivers && r.phase == s.phase[t := Outside]
  }

  /** A send has begun: the first free node belongs to it and starts with the message. With no node
      free nothing has happened. */
  ghost predicate Begun(s: Queue, v: View, r: Queue, w: View, t: Tid, message: seq<int>, urgent: bool) {
    if v.free == [] then r == s && w == v
    else
      var n := v.free[0];
      && w.queue == v.queue && w.free == v.free[1..] && r.receivers == s.receivers
      && r.phase == s.phase[t := Sending(n, urgent)]
      && n in s.data && |message| <= |s.data[n]| && r.data == s.data[n := message + s.data[n][|message|..]]
  }

  /** The node of the send is the first of the queue, if urgent, or else the last, and the first
      receiver is woken. */
  ghost predicate Linked(s: Queue, v: View, r: Queue, w: View, t: Tid)
    requires t in s.phase && s.phase[t].Sending?
  {
    var n := s.phase[t].node;
    && w.queue == (if s.phase[t].urgent then [n] + v.queue else v.queue + [n])
    && w.free == v.free && r.data == s.data
    && FirstTold(s.receivers, r.receivers, s.phase[t := Outside], r.phase)
  }

  /** The receive has the first node of the queue; with none it returns or joins the receivers. */
  ghost predicate Received(s: Queue, v: View, r: Queue, w: View, t: Tid, timeout: int, byPrio: bool, prios: Prios,
      p: int)
  {
    if v.queue == [] && timeout == 0 then Left(s, v, r, w, t)
    else
      && w.free == v.free && r.data == s.data
      && if v.queue == [] then
           && w.queue == [] && r.phase == s.phase[t := RecvWait(timeout)]
           && Joined(s.receivers, r.receivers, prios, t, p, byPrio)
         else
           && w.queue == v.queue[1..] && r.receivers == s.receivers && r.phase == s.phase[t := Copying(v.queue[0])]
  }

  /** The node of the receive is the first free one. */
  ghost predicate Freed(s: Queue, v: View, r: Queue, w: View, t: Tid)
    requires t in s.phase && s.phase[t].Copying?
  {
    && w.queue == v.queue && w.free == [s.phase[t].node] + v.free && r.data == s.data
    && r.receivers == s.receivers && r.phase == s.phase[t := Outside]
  }

  ghost predicate TimedOut(s: Queue, v: View, r: Queue, w: View, t: Tid)
    requires t in s.phase && s.phase[t].RecvWait?
  {
    && w.queue == v.queue && w.free == v.free && r.data == s.data
    && Parted(s.receivers, r.receivers, t) && r.phase == s.phase[t := RecvWoken(ETIMEOUT, s.phase[t].timeout)]
  }

  /** No message is queued, and all that waited are told of an error. */
  ghost predicate Emptied(s: Queue, v: View, r: Queue, w: View) {
    && w.queue == [] && multiset(w.free) == multiset(v.queue) + multiset(v.free) && r.data == s.data
    && r.receivers == [] && r.phase.Keys == s.phase.Keys
    && forall t: Tid :: t in s.phase ==>
         r.phase[t] == if s.phase[t].RecvWait? then RecvWoken(ERROR, s.phase[t].timeout) else s.phase[t]
  }

  /** What a step does to the queued and free nodes, their contents, and the waiting threads. */
  ghost predicate Does(s: Queue, v: View, r: Queue, w: View, x: Step, msgSize: nat, byPrio: bool, prios: Prios, p: int)
    requires Enabled(s, x, msgSize)
  {
    match x
    case SendStart(t, message, urgent) => Begun(s, v, r, w, t, message, urgent)
    case SendLink(t) => Linked(s, v, r, w, t)
    case RecvStart(t, timeout) => Received(s, v, r, w, t, timeout, byPrio, prios, p)
    case RecvAgain(t, left) =>
      if s.phase[t].error == EOK then Received(s, v, r, w, t, left, byPrio, prios, p) else Left(s, v, r, w, t)
    case RecvEnd(t) => Freed(s, v, r, w, t)
    case TimeOut(t) => TimedOut(s, v, r, w, t)
    case ResetQueue => Emptied(s, v, r, w)
  }

  lemma ReserveDoes(s: Queue, v: View, w: View, max: nat, msgSize: nat, t: Tid, message: seq<int>, urgent: bool)
    requires Inv(s, v, max, msgSize) && |message| <= msgSize
    requires w == if v.free == [] then v else View(v.queue, v.free[1..], v.places[s.free := With(t)])
    ensures Begun(s, v, Reserve(s, t, message, urgent), w, t, message, urgent)
  {
    hide Placed, Waiting, Pending, Buffers, Chain;
    ChainHead(s.next, s.free, v.free);
    if v.free != [] {
      var n := v.free[0];
      ChainPop(s.next, s.free, v.free);
      assert n in v.free;
      PlacedRange(v, s.phase, max, n);
      BufferAt(s.data, max, msgSize, n);
    }
  }

  lemma LinkDoes(s: Queue, v: View, w: View, max: nat, msgSize: nat, t: Tid)
    requires Inv(s, v, max, msgSize) && t in s.phase && s.phase[t].Sending? && w.free == v.free
    requires w.queue == if s.phase[t].urgent then [s.phase[t].node] + v.queue else v.queue + [s.phase[t].node]
    ensures Linked(s, v, Link(s, t), w, t)
  {
    hide Placed, Chained, Buffers, LinkHead, LinkTail;
    LinkRest(s, s.phase[t].node);
    if s.receivers != [] {
      assert s.receivers[0] in s.receivers;
    }
  }

  lemma ReceiveDoes(s: Queue, v: View, w: View, max: nat, msgSize: nat, t: Tid, timeout: int, byPrio: bool,
                    prios: Prios, p: int)
    requires Inv(s, v, max, msgSize) && w.free == v.free
    requires s.entry == 0 ==> w.queue == v.queue
    requires s.entry > 0 ==> v.queue != [] && s.head == v.queue[0] && w.queue == v.queue[1..]
    ensures Received(s, v, Receive(s, t, timeout, byPrio, prios, p), w, t, timeout, byPrio, prios, p)
  {
    hide Placed, Waiting, Buffers, Chain, Unlink, Enqueue, Joined;
    EnqueueJoined(s.receivers, prios, t, p, byPrio);
    if s.entry > 0 {
      UnlinkOk(s, v);
      UnlinkRest(s);
    }
  }

  lemma ExpireDoes(s: Queue, v: View, t: Tid)
    requires Waiting(s.receivers, s.phase) && t in s.phase && s.phase[t].RecvWait?
    ensures TimedOut(s, v, Expire(s, t), v, t)
  {
    hide Without, Parted;
    WithoutParted(s.receivers, t);
  }

  lemma {:induction false} ReversedSame(q: seq<Node>)
    ensures multiset(Reversed(q)) == multiset(q)
  {
    if q != [] {
      ReversedSame(q[1..]);
      assert q == [q[0]] + q[1..];
    }
  }

  lemma ResetDoes(s: Queue, v: View, w: View)
    requires w.queue == [] && w.free == Reversed(v.queue) + v.free
    requires Reset(s).data == s.data
    ensures Emptied(s, v, Reset(s), w)
  {
    ReversedSame(v.queue);
    var s1 := s.(receivers := [], phase := Cancelled(s.phase));
    DropAllPhase(s1, s.entry);
  }

  /** Every step does to the nodes and to the waiting threads what the call promises. */
  lemma StepDoes(s: Queue, v: View, max: nat, msgSize: nat, x: Step, byPrio: bool, prios: Prios, p: int)
    returns (w: View)
    requires Inv(s, v, max, msgSize) && Enabled(s, x, msgSize)
    ensures var r := Do(s, x, byPrio, prios, p);
      Inv(r, w, max, msgSize) && Does(s, v, r, w, x, msgSize, byPrio, prios, p)
  {
    hide Inv, Messages, Reserve, Link, Receive, GiveBack, Expire, Reset, Begun, Linked, Received, TimedOut, Emptied;
    w := v;
    match x
    case SendStart(t, message, urgent) =>
      w := ReserveOk(s, v, max, msgSize, t, message, urgent);
      ReserveDoes(s, v, w, max, msgSize, t, message, urgent);
    case SendLink(t) =>
      w := LinkOk(s, v, max, msgSize, t);
      LinkDoes(s, v, w, max, msgSize, t);
    case RecvStart(t, timeout) =>
      w := ReceiveOk(s, v, max, msgSize, t, timeout, byPrio, prios, p);
      ReceiveDoes(s, v, w, max, msgSize, t, timeout, byPrio, prios, p);
    case RecvAgain(t, left) =>
      if Told(s.phase[t]) {
        w := ReceiveOk(s, v, max, msgSize, t, left, byPrio, prios, p);
        ReceiveDoes(s, v, w, max, msgSize, t, left, byPrio, prios, p);
      } else {
        LeaveOk(s, v, max, msgSize, t);
      }
    case RecvEnd(t) =>
      w := GiveBackOk(s, v, max, msgSize, t);
      GiveBackRest(s, t);
    case TimeOut(t) =>
      ExpireOk(s, v, max, msgSize, t);
      WaitingPart(s, v, max, msgSize);
      ExpireDoes(s, v, t);
    case ResetQueue =>
      w := ResetOk(s, v, max, msgSize);
      ResetDoes(s, v, w);
  }

  lemma GiveBackRest(s: Queue, t: Tid)
    requires t in s.phase && s.phase[t].Copying?
    ensures var r := GiveBack(s, t);
      r.data == s.data && r.receivers == s.receivers && r.phase == s.phase[t := Outside]
  {
  }

  lemma WaitingPart(s: Queue, v: View, max: nat, msgSize: nat)
    requires Inv(s, v, max, msgSize)
    ensures Waiting(s.receivers, s.phase) && Chained(s, v) && Placed(v, s.phase, max)
  {
  }

  /** What a step means for the deque of messages. */
  datatype Effect = Nothing | Back(message: seq<int>) | Front(message: seq<int>) | Pop | Clear

  function EffectOf(s: Queue, x: Step): Effect {
    match x
    case SendLink(t) =>
      if t in s.phase && s.phase[t].Sending? && s.phase[t].node in s.data then
        if s.phase[t].urgent then Front(s.data[s.phase[t].node]) else Back(s.data[s.phase[t].node])
      else Nothing
    case RecvStart(_, _) => if s.entry > 0 then Pop else Nothing
    case RecvAgain(t, _) => if s.entry > 0 && t in s.phase && Told(s.phase[t]) then Pop else Nothing
    case ResetQueue => Clear
    case _ => Nothing
  }

  function Apply(d: seq<seq<int>>, e: Effect): seq<seq<int>> {
    match e
    case Nothing => d
    case Back(m) => d + [m]
    case Front(m) => [m] + d
    case Pop => if d == [] then [] else d[1..]
    case Clear => []
  }

  lemma LeaveOk(s: Queue, v: View, max: nat, msgSize: nat, t: Tid)
    requires Inv(s, v, max, msgSize) && t in s.phase && s.phase[t].RecvWoken? && !Told(s.phase[t])
    ensures Inv(s.(phase := s.phase[t := Outside]), v, max, msgSize)
  {
    hide Placed, Waiting, Pending, Buffers, Chain;
    PlacedSame(v, s.phase, max, t, Outside);
    WaitSame(s.receivers, s.phase, t, Outside);
    PendingUpdate(s.phase, t, Outside);
  }

  /** Every step keeps the partition of the pool and refines the deque. */
  lemma StepOk(s: Queue, v: View, max: nat, msgSize: nat, x: Step, byPrio: bool, prios: Prios, p: int) returns (w: View)
    requires Inv(s, v, max, msgSize) && Enabled(s, x, msgSize)
    ensures Inv(Do(s, x, byPrio, prios, p), w, max, msgSize)
    ensures Messages(Do(s, x, byPrio, prios, p).data, w.queue) == Apply(Messages(s.data, v.queue), EffectOf(s, x))
  {
    hide Inv, Messages, Reserve, Link, Receive, GiveBack, Expire, Reset;
    w := v;
    match x
    case SendStart(t, message, urgent) => w := ReserveOk(s, v, max, msgSize, t, message, urgent);
    case SendLink(t) => w := LinkOk(s, v, max, msgSize, t);
    case RecvStart(t, timeout) => w := ReceiveOk(s, v, max, msgSize, t, timeout, byPrio, prios, p);
    case RecvAgain(t, left) =>
      if Told(s.phase[t]) {
        w := ReceiveOk(s, v, max, msgSize, t, left, byPrio, prios, p);
      } else {
        LeaveOk(s, v, max, msgSize, t);
      }
    case RecvEnd(t) => w := GiveBackOk(s, v, max, msgSize, t);
    case TimeOut(t) => ExpireOk(s, v, max, msgSize, t); ExpireData(s, t);
    case ResetQueue => w := ResetOk(s, v, max, msgSize); NoMessages(s.data);
  }

  lemma NoMessages(data: map<Node, seq<int>>)
    ensures Messages(data, []) == []
  {
  }

  lemma ExpireData(s: Queue, t: Tid)
    ensures Expire(s, t).data == s.data
  {
  }

  datatype Move = Move(step: Step, prios: Prios, p: int)

  ghost predicate CanRun(s: Queue, moves: seq<Move>, msgSize: nat, byPrio: bool)
    decreases |moves|
  {
    moves == [] || (Enabled(s, moves[0].step, msgSize) &&
      CanRun(Do(s, moves[0].step, byPrio, moves[0].prios, moves[0].p), moves[1..], msgSize, byPrio))
  }

  function Run(s: Queue, moves: seq<Move>, byPrio: bool): Queue
    decreases |moves|
  {
    if moves == [] then s else Run(Do(s, moves[0].step, byPrio, moves[0].prios, moves[0].p), moves[1..], byPrio)
  }

  /** The same run on a deque. */
  function RunDeque(d: seq<seq<int>>, s: Queue, moves: seq<Move>, byPrio: bool): seq<seq<int>>
    decreases |moves|
  {
    if moves == [] then d
    else RunDeque(Apply(d, EffectOf(s, moves[0].step)),
                  Do(s, moves[0].step, byPrio, moves[0].prios, moves[0].p), moves[1..], byPrio)
  }

  /** Over every run the pool stays partitioned and the queue holds what the deque holds. */
  lemma {:induction false} RunOk(s: Queue, v: View, max: nat, msgSize: nat, moves: seq<Move>, byPrio: bool)
    returns (w: View)
    requires Inv(s, v, max, msgSize) && CanRun(s, moves, msgSize, byPrio)
    ensures Inv(Run(s, moves, byPrio), w, max, msgSize)
    ensures Messages(Run(s, moves, byPrio).data, w.queue) == RunDeque(Messages(s.data, v.queue), s, moves, byPrio)
    decreases |moves|
  {
    hide Inv, Do, Enabled, Messages, EffectOf, Apply;
    w := v;
    if moves != [] {
      var m := moves[0];
      w := StepOk(s, v, max, msgSize, m.step, byPrio, m.prios, m.p);
      w := RunOk(Do(s, m.step, byPrio, m.prios, m.p), w, max, msgSize, moves[1..], byPrio);
    }
  }

  /** The thread a step belongs to, if any. */
  predicate Moves(x: Step, t: Tid) {
    match x
    case ResetQueue => false
    case _ => x.t == t
  }

  /** A node in the hands of a call stays there, with its contents, until that call moves: a reader
      gets the message it unlinked and a sender links the message it wrote. */
  lemma HeldStays(s: Queue, v: View, max: nat, msgSize: nat, x: Step, byPrio: bool, prios: Prios, p: int, t: Tid,
                  n: Node)
    requires Inv(s, v, max, msgSize) && Enabled(s, x, msgSize) && Holds(s.phase, t, n) && !Moves(x, t)
    ensures var r := Do(s, x, byPrio, prios, p);
      && t in r.phase && r.phase[t] == s.phase[t] && n in s.data && n in r.data && r.data[n] == s.data[n]
  {
    hide Waiting, Pending, Enqueue, Without, LinkHead, LinkTail, Reset, Wake, Chain, Placed;
    PlacedRange(v, s.phase, max, n);
    ChainHead(s.next, s.free, v.free);
    HeldApart(v, s.phase, max, t, n);
    match x
    case SendLink(u) =>
      LinkRest(s, s.phase[u].node);
      WakeHeld(s, s.receivers, LinkHead(s, s.phase[u].node).(phase := s.phase[u := Outside]), t);
      WakeHeld(s, s.receivers, LinkTail(s, s.phase[u].node).(phase := s.phase[u := Outside]), t);
    case ResetQueue =>
      var w := ResetOk(s, v, max, msgSize);
      ResetHeld(s, t);
    case _ =>
  }

  lemma HeldApart(v: View, phase: map<Tid, Phase>, max: nat, t: Tid, n: Node)
    requires Placed(v, phase, max) && Holds(phase, t, n)
    ensures n !in v.free && n !in v.queue
  {
  }

  lemma WakeHeld(s: Queue, q: seq<Tid>, r: Queue, t: Tid)
    requires t in r.phase && !r.phase[t].RecvWait?
    ensures t in Wake(r).phase && Wake(r).phase[t] == r.phase[t] && Wake(r).data == r.data
  {
  }

  lemma ResetHeld(s: Queue, t: Tid)
    requires t in s.phase && !s.phase[t].RecvWait?
    ensures t in Reset(s).phase && Reset(s).phase[t] == s.phase[t]
  {
    DropAllPhase(s.(receivers := [], phase := Cancelled(s.phase)), s.entry);
  }

  lemma {:induction false} DropAllPhase(s: Queue, n: nat)
    ensures DropAll(s, n).phase == s.phase && DropAll(s, n).receivers == s.receivers
    decreases n
  {
    if n > 0 && s.head in s.next {
      DropAllPhase(Drop(s), n - 1);
    }
  }
}

/** Where rt_ipc_list_suspend of ipc.c puts a thread: at the end of a FIFO queue, or stably by
    priority (a smaller number is more urgent). */
module WaitQueue {
  import opened TimerOrder

  /** Threads are named by the number of their thread timer; 0 is RT_NULL. */
  type Tid = Timer

  type Prios = map<Tid, int>

  // error codes of rtdef.h that rt_thread's `error` and the IPC calls use
  const EOK: int := 0
  const ERROR: int := -1
  const ETIMEOUT: int := -2

  /** What is left of a timeout after a wait. */
  predicate LeftOver(timeout: int, left: int) { if timeout > 0 then 0 <= left <= timeout else left == timeout }

  /** How many leading threads are at least as urgent as `p`. */
  function Ahead(q: seq<Tid>, prios: Prios, p: int): (n: nat)
    ensures n <= |q|
    ensures forall i :: 0 <= i < n ==> q[i] in prios && prios[q[i]] <= p
    ensures n < |q| && q[n] in prios ==> p < prios[q[n]]
  {
    if q != [] && q[0] in prios && prios[q[0]] <= p then 1 + Ahead(q[1..], prios, p) else 0
  }

  ghost predicate Sorted(q: seq<Tid>, prios: Prios) {
    && (forall i :: 0 <= i < |q| ==> q[i] in prios)
    && (forall i, j :: 0 <= i < j < |q| ==> prios[q[i]] <= prios[q[j]])
  }

  function Position(q: seq<Tid>, prios: Prios, p: int, byPrio: bool): (n: nat)
    ensures n <= |q|
  {
    if byPrio then Ahead(q, prios, p) else |q|
  }

  function Enqueue(q: seq<Tid>, prios: Prios, t: Tid, p: int, byPrio: bool): seq<Tid> {
    var n := Position(q, prios, p, byPrio);
    q[..n] + [t] + q[n..]
  }

  /** The loop of rt_ipc_list_suspend. */
  method Search(q: seq<Tid>, prios: Prios, p: int, byPrio: bool) returns (n: nat)
    requires forall i :: 0 <= i < |q| ==> q[i] in prios
    ensures n == Position(q, prios, p, byPrio)
  {
    n := |q|;
    if byPrio {
      n := 0;
      while n < |q| && !(p < prios[q[n]])
        invariant n <= |q| && Ahead(q, prios, p) == n + Ahead(q[n..], prios, p)
      {
        assert q[n..][1..] == q[n + 1..];
        n := n + 1;
      }
    }
  }

  lemma AheadSplit(q: seq<Tid>, prios: Prios, p: int)
    requires Sorted(q, prios)
    ensures forall i :: 0 <= i < |q| ==> (i < Ahead(q, prios, p) <==> prios[q[i]] <= p)
  {
    hide Ahead;
    var n := Ahead(q, prios, p);
    forall i | n <= i < |q| ensures p < prios[q[i]] {
      assert i > n ==> prios[q[n]] <= prios[q[i]];
    }
  }

  lemma InsertSorted(q: seq<Tid>, prios: Prios, n: nat, t: Tid, r: seq<Tid>)
    requires Sorted(q, prios) && t in prios && n <= |q|
    requires forall i :: 0 <= i < |q| ==> (i < n <==> prios[q[i]] <= prios[t])
    requires r == q[..n] + [t] + q[n..]
    ensures Sorted(r, prios)
  {
    forall i | 0 <= i < |r| ensures r[i] in prios {
      if i != n {
        assert r[i] == q[if i < n then i else i - 1];
      }
    }
    forall i, j | 0 <= i < j < |r| ensures prios[r[i]] <= prios[r[j]] {
      if i == n {
        assert r[j] == q[j - 1];
      } else if j == n {
        assert r[i] == q[i];
      } else {
        assert prios[q[if i < n then i else i - 1]] <= prios[q[if j < n then j else j - 1]];
      }
    }
  }

  /** Waiting by priority is a stable insertion: behind every thread as urgent, before every other. */
  lemma EnqueueSorted(q: seq<Tid>, prios: Prios, t: Tid)
    requires Sorted(q, prios) && t in prios
    ensures Sorted(Enqueue(q, prios, t, prios[t], true), prios)
    ensures forall i :: 0 <= i < |q| ==> (i < Ahead(q, prios, prios[t]) <==> prios[q[i]] <= prios[t])
  {
    hide Ahead, Sorted;
    var n := Ahead(q, prios, prios[t]);
    AheadSplit(q, prios, prios[t]);
    InsertSorted(q, prios, n, t, Enqueue(q, prios, t, prios[t], true));
  }

  lemma EnqueueMembers(q: seq<Tid>, n: nat, t: Tid, r: seq<Tid>)
    requires n <= |q| && r == q[..n] + [t] + q[n..]
    ensures forall x :: x in r <==> x in q || x == t
  {
    InsertElems(q, n, t);
    forall x ensures x in r <==> x in q || x == t {
      assert x in Elems(r) <==> x in Elems(q) + {t};
    }
  }

  // What joining and leaving a wait list means

  /** `t` with priority `p` has joined the wait list at place `n`: first in, first out, at the end; by
      priority, behind exactly those at least as urgent that stand in front of every other. */
  ghost predicate JoinedAt(q: seq<Tid>, r: seq<Tid>, prios: Prios, t: Tid, p: int, byPrio: bool, n: nat) {
    && n <= |q| && r == q[..n] + [t] + q[n..]
    && (byPrio ==> forall i :: 0 <= i < n ==> q[i] in prios && prios[q[i]] <= p)
    && (n < |q| ==> byPrio && (q[n] in prios ==> p < prios[q[n]]))
  }

  ghost predicate Joined(q: seq<Tid>, r: seq<Tid>, prios: Prios, t: Tid, p: int, byPrio: bool) {
    exists n: nat :: JoinedAt(q, r, prios, t, p, byPrio, n)
  }

  lemma EnqueueJoined(q: seq<Tid>, prios: Prios, t: Tid, p: int, byPrio: bool)
    ensures Joined(q, Enqueue(q, prios, t, p, byPrio), prios, t, p, byPrio)
  {
    assert JoinedAt(q, Enqueue(q, prios, t, p, byPrio), prios, t, p, byPrio, Position(q, prios, p, byPrio));
  }

  /** `t` has left the wait list, in which it stood; the others keep their order. */
  ghost predicate Parted(q: seq<Tid>, r: seq<Tid>, t: Tid) {
    exists k :: 0 <= k < |q| && q[k] == t && r == q[..k] + q[k + 1..]
  }

  lemma WithoutParted(q: seq<Tid>, t: Tid)
    requires t in q && forall i, j :: 0 <= i < j < |q| ==> q[i] != q[j]
    ensures Parted(q, Without(q, t), t)
  {
    hide Without;
    var k :| 0 <= k < |q| && q[k] == t;
    WithoutAt(q, k);
  }

  // Lists without repetitions

  lemma DistinctInsert(s: seq<Tid>, t: Tid, n: nat)
    requires t !in s && n <= |s| && forall i, j :: 0 <= i < j < |s| ==> s[i] != s[j]
    ensures var r := s[..n] + [t] + s[n..]; forall i, j :: 0 <= i < j < |r| ==> r[i] != r[j]
  {
  }

  lemma WithoutDistinct(s: seq<Tid>, t: Tid)
    requires forall i, j :: 0 <= i < j < |s| ==> s[i] != s[j]
    ensures forall i, j :: 0 <= i < j < |Without(s, t)| ==> Without(s, t)[i] != Without(s, t)[j]
  {
    hide Without;
    if t in s {
      var k :| 0 <= k < |s| && s[k] == t;
      WithoutAt(s, k);
      var r := s[..k] + s[k + 1..];
      assert forall i :: 0 <= i < |r| ==> r[i] == s[if i < k then i else i + 1];
    } else {
      WithoutNone(s, t);
    }
  }

  lemma WithoutNone(s: seq<Tid>, t: Tid)
    requires t !in s
    ensures Without(s, t) == s
  {
  }

  lemma TailMembers<T>(q: seq<T>)
    requires q != [] && forall i, j :: 0 <= i < j < |q| ==> q[i] != q[j]
    ensures forall x :: x in q[1..] <==> x in q && x != q[0]
  {
    assert q == [q[0]] + q[1..];
  }
}

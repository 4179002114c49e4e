/** The kernel's circular doubly linked list (rtservice.h), on which timer rows, ready
    queues and wait lists are built. Nodes are named by numbers; the two link fields of
    every node are the maps `next` and `prev`. */
module RtList {

  type Node = nat

  datatype Links = Links(next: map<Node, Node>, prev: map<Node, Node>)

  ghost predicate Distinct(c: seq<Node>) {
    forall i, j :: 0 <= i < j < |c| ==> c[i] != c[j]
  }

  /** `c` names the nodes of one ring in link order, starting from any of them. */
  ghost predicate Ring(l: Links, c: seq<Node>) {
    && |c| > 0
    && Distinct(c)
    && (forall i :: 0 <= i < |c| ==> c[i] in l.next && c[i] in l.prev)
    && (forall i :: 0 <= i < |c| ==> l.next[c[i]] == c[if i + 1 == |c| then 0 else i + 1])
    && (forall i :: 0 <= i < |c| ==> l.next[c[i]] in l.prev && l.prev[l.next[c[i]]] == c[i])
  }

  /** A node outside every list, as rt_list_init and rt_list_remove leave it. */
  ghost predicate Lonely(l: Links, n: Node) {
    n in l.next && n in l.prev && l.next[n] == n && l.prev[n] == n
  }

  /** The four assignments of rt_list_insert_after, in order. */
  function InsertAfter(l: Links, a: Node, n: Node): Links
    requires a in l.next
  {
    var prev1 := l.prev[l.next[a] := n];
    var next1 := l.next[n := l.next[a]];
    Links(next1[a := n], prev1[n := a])
  }

  /** The four assignments of rt_list_insert_before, in order. */
  function InsertBefore(l: Links, b: Node, n: Node): Links
    requires b in l.prev
  {
    var next1 := l.next[l.prev[b] := n];
    var prev1 := l.prev[n := l.prev[b]];
    Links(next1[n := b], prev1[b := n])
  }

  /** rt_list_remove: the neighbours are joined and the node is left linked to itself. */
  function Remove(l: Links, n: Node): Links
    requires n in l.next && n in l.prev
  {
    var prev1 := l.prev[l.next[n] := l.prev[n]];
    // n.prev is read back after the first store, which may have hit n itself
    var next1 := l.next[prev1[n] := l.next[n]];
    Links(next1[n := n], prev1[n := n])
  }

  ghost function Inserted(c: seq<Node>, k: nat, n: Node): seq<Node>
    requires k <= |c|
  {
    c[..k] + [n] + c[k..]
  }

  lemma InsertedAt(c: seq<Node>, k: nat, n: Node, d: seq<Node>)
    requires k <= |c| && d == Inserted(c, k, n)
    ensures |d| == |c| + 1
    ensures forall i :: 0 <= i < |d| ==> d[i] == if i < k then c[i] else if i == k then n else c[i - 1]
    ensures forall i :: 0 <= i < |c| ==> c[i] == d[if i < k then i else i + 1]
    ensures forall x :: x in d <==> x in c || x == n
    ensures d[k] == n
  {
    assert d[k] == n;
    forall x | x in c ensures x in d {
      var i :| 0 <= i < |c| && c[i] == x;
      assert d[if i < k then i else i + 1] == x;
    }
  }

  lemma InsertAfterRing(l: Links, c: seq<Node>, k: nat, n: Node)
    requires Ring(l, c) && k < |c| && n !in c
    ensures Ring(InsertAfter(l, c[k], n), Inserted(c, k + 1, n))
  {
    var r := InsertAfter(l, c[k], n);
    var d := Inserted(c, k + 1, n);
    forall i | 0 <= i < |d|
      ensures d[i] in r.next && d[i] in r.prev
      ensures r.next[d[i]] == d[if i + 1 == |d| then 0 else i + 1]
      ensures r.next[d[i]] in r.prev && r.prev[r.next[d[i]]] == d[i]
    {
      if i <= k {
        assert d[i] == c[i];
      } else if i > k + 1 {
        assert d[i] == c[i - 1];
      }
    }
  }

  lemma InsertBeforeRing(l: Links, c: seq<Node>, k: nat, n: Node)
    requires Ring(l, c) && k < |c| && n !in c
    ensures Ring(InsertBefore(l, c[k], n), Inserted(c, if k == 0 then |c| else k, n))
  {
    hide Inserted;
    var at := if k == 0 then |c| else k;
    assert l.next[c[at - 1]] == c[k];
    InsertAfterRing(l, c, at - 1, n);
  }

  /** Removing a ring's node leaves the rest a ring and the node a ring of its own. */
  lemma RemoveRing(l: Links, c: seq<Node>, k: nat)
    requires Ring(l, c) && 0 < k < |c|
    ensures Ring(Remove(l, c[k]), c[..k] + c[k + 1..])
    ensures Lonely(Remove(l, c[k]), c[k])
  {
    var r := Remove(l, c[k]);
    var d := c[..k] + c[k + 1..];
    assert l.next[c[k - 1]] == c[k];
    forall i | 0 <= i < |d|
      ensures d[i] in r.next && d[i] in r.prev
      ensures r.next[d[i]] == d[if i + 1 == |d| then 0 else i + 1]
      ensures r.next[d[i]] in r.prev && r.prev[r.next[d[i]]] == d[i]
    {
      assert d[i] == c[if i < k then i else i + 1];
    }
  }

  /** Removing a node that is linked only to itself changes nothing. */
  lemma RemoveLonely(l: Links, n: Node)
    requires Lonely(l, n)
    ensures Remove(l, n) == l
  {
  }

  /** rt_list_len walks the ring and counts every node but the head. */
  method Len(l: Links, ghost c: seq<Node>, head: Node) returns (len: nat)
    requires Ring(l, c) && c[0] == head
    ensures len == |c| - 1
  {
    len := 0;
    var p := head;
    while l.next[p] != head
      invariant len < |c| && p == c[len]
      decreases |c| - len
    {
      assert l.next[c[len]] == c[if len + 1 == |c| then 0 else len + 1];
      p := l.next[p];
      len := len + 1;
    }
    assert l.next[c[len]] == c[if len + 1 == |c| then 0 else len + 1];
  }

  /** Linking a node that is in the ring already breaks the ring, whatever place it is linked at: no
      ring holds the list head any more. */
  lemma LinkTwice(l: Links, c: seq<Node>, i: nat, j: nat, c2: seq<Node>)
    requires Ring(l, c) && i < |c| && 0 < j < |c| && Ring(InsertAfter(l, c[i], c[j]), c2)
    ensures c[0] !in c2
  {
    var r := InsertAfter(l, c[i], c[j]);
    if c[0] in c2 {
      var k := if i < j then i else j - 1;
      Follow(r, c2, c, 0, k);
      if i + 1 < j {
        RingNext(r, c2, c[i]);
        RingNext(r, c2, c[j]);
        Follow(r, c2, c, i + 1, j - 1);
      }
      RingNext(r, c2, c[j - 1]);
      RingNext(r, c2, c[j]);
    }
  }

  /** Rings are closed under `next`. */
  lemma RingNext(l: Links, c: seq<Node>, x: Node)
    requires Ring(l, c) && x in c
    ensures x in l.next && l.next[x] in c && l.next[x] in l.prev && l.prev[l.next[x]] == x
  {
    var i :| 0 <= i < |c| && c[i] == x;
    assert l.next[c[i]] == c[if i + 1 == |c| then 0 else i + 1];
  }

  lemma {:induction false} Follow(l: Links, c2: seq<Node>, c: seq<Node>, a: nat, b: nat)
    requires Ring(l, c2) && a <= b < |c| && c[a] in c2
    requires forall k :: a <= k < b ==> c[k] in l.next && l.next[c[k]] == c[k + 1]
    ensures c[b] in c2
    decreases b
  {
    if a < b {
      Follow(l, c2, c, a, b - 1);
      RingNext(l, c2, c[b - 1]);
    }
  }
}

/** The block ring and the free list of memheap.c on values. Headers live inside the pool they
    describe, so the maps that hold header fields and payload bytes are keyed by address, and
    building a header destroys every header and byte it overlaps. */
module MemHeapBlocks {
  import opened RtList
  import opened FreeBlocks

  const HDR: int := 24        // RT_MEMHEAP_SIZE
  const MINI: nat := 12       // RT_MEMHEAP_MINIALLOC
  const HEAD: Addr := 1       // the free list header, which lies outside every pool

  /** `next`/`prev` of all headers, `next_free`/`prev_free`, the used bit of `magic`, and payload
      bytes; an address outside `bytes` holds an unspecified value. */
  datatype Memory = Memory(links: Links, free: Links, used: map<Addr, bool>, bytes: map<Addr, int>)

  /** The blocks in address order, the tail last, and the free list in list order. */
  datatype View = View(blocks: seq<Addr>, free: seq<Addr>)

  /** Does a header built at `a` spare what is kept at `k`? */
  predicate Spared(k: Addr, a: Addr) { k == a || k == HEAD || k + HDR <= a || a + HDR <= k }

  function Scrub<T>(m: map<Addr, T>, a: Addr): map<Addr, T> {
    map k | k in m && Spared(k, a) :: m[k]
  }

  function ScrubLinks(l: Links, a: Addr): Links { Links(Scrub(l.next, a), Scrub(l.prev, a)) }

  /** A fresh, unused header at `a`. */
  function BuildHeader(m: Memory, a: Addr): Memory {
    Memory(ScrubLinks(m.links, a), ScrubLinks(m.free, a), Scrub(m.used, a)[a := false],
           map k | k in m.bytes && !(a <= k < a + HDR) :: m.bytes[k])
  }

  /** The two stores that take `n` out of a list, leaving its own fields as they were. */
  function Unlink(l: Links, n: Addr): Links
    requires n in l.next && n in l.prev
  {
    Links(l.next[l.prev[n] := l.next[n]], l.prev[l.next[n] := l.prev[n]])
  }

  /** MEMITEM_SIZE. */
  function Size(m: Memory, a: Addr): int
    requires a in m.links.next
  {
    m.links.next[a] - a - HDR
  }

  ghost predicate Tiled(start: Addr, pool: nat, b: seq<Addr>) {
    && |b| >= 2 && start >= 4 && start % 4 == 0 && pool % 4 == 0
    && b[0] == start && b[|b| - 1] + HDR == start + pool
    && (forall i :: 0 <= i < |b| ==> b[i] % 4 == 0)
    && (forall i, j :: 0 <= i < j < |b| ==> b[i] + HDR <= b[j])
  }

  /** The tail is used and the free list holds exactly the unused blocks, `x` excepted. */
  ghost predicate Marked(used: map<Addr, bool>, v: View, x: Addr) {
    && v.blocks != [] && InUse(used, v.blocks[|v.blocks| - 1])
    && (forall a :: a in v.free <==> a in v.blocks && !InUse(used, a) && a != x)
    && (forall a :: a in v.blocks ==> a in used)
  }

  // an address no block has
  const NONE: Addr := 0

  /** The heap in the middle of an operation: the unused block `x` is not on the free list yet. */
  ghost predicate Loose(start: Addr, pool: nat, m: Memory, v: View, x: Addr) {
    && Tiled(start, pool, v.blocks)
    && Ring(m.links, v.blocks)
    && Ring(m.free, [HEAD] + v.free)
    && Marked(m.used, v, x)
  }

  ghost predicate HeapOk(start: Addr, pool: nat, m: Memory, v: View) {
    Loose(start, pool, m, v, NONE) && Separate(m.used, v.blocks, NONE)
  }

  /** What a block that ends at `end` adds to the free total. */
  ghost function Spare(used: map<Addr, bool>, a: Addr, end: Addr): int {
    if InUse(used, a) then 0 else end - a - HDR
  }

  /** The payload bytes of unused blocks. */
  ghost function FreeBytes(used: map<Addr, bool>, b: seq<Addr>): int {
    if |b| < 2 then 0 else Spare(used, b[0], b[1]) + FreeBytes(used, b[1..])
  }

  // The sum of free payloads

  lemma {:induction false} FreeBytesAt(used: map<Addr, bool>, b: seq<Addr>, k: nat)
    requires k < |b|
    ensures FreeBytes(used, b) == FreeBytes(used, b[..k + 1]) + FreeBytes(used, b[k..])
  {
    if k > 0 {
      FreeBytesAt(used, b[1..], k - 1);
      assert b[1..][..k] == b[..k + 1][1..];
      assert b[1..][k - 1..] == b[k..];
    } else {
      assert b[0..] == b;
    }
  }

  /** The sum looks at the marks of all blocks but the last. */
  lemma {:induction false} FreeBytesSame(u1: map<Addr, bool>, u2: map<Addr, bool>, b: seq<Addr>)
    requires forall i :: 0 <= i < |b| - 1 ==> (InUse(u1, b[i]) <==> InUse(u2, b[i]))
    ensures FreeBytes(u1, b) == FreeBytes(u2, b)
  {
    if |b| >= 2 {
      assert forall i :: 0 <= i < |b[1..]| - 1 ==> b[1..][i] == b[i + 1];
      FreeBytesSame(u1, u2, b[1..]);
    }
  }

  // Links survive the building of a header that touches none of their nodes

  lemma RingScrub(l: Links, c: seq<Node>, a: Addr)
    requires Ring(l, c) && forall i :: 0 <= i < |c| ==> Spared(c[i], a)
    ensures Ring(ScrubLinks(l, a), c)
  {
    forall i | 0 <= i < |c|
      ensures c[i] in ScrubLinks(l, a).next && c[i] in ScrubLinks(l, a).prev
      ensures l.next[c[i]] in ScrubLinks(l, a).prev
    {
      assert l.next[c[i]] == c[if i + 1 == |c| then 0 else i + 1];
    }
  }

  lemma UnlinkRing(l: Links, c: seq<Node>, k: nat)
    requires Ring(l, c) && 0 < k < |c|
    ensures Ring(Unlink(l, c[k]), c[..k] + c[k + 1..])
    ensures forall x :: x in l.next && x != l.prev[c[k]] ==> Unlink(l, c[k]).next[x] == l.next[x]
    ensures l.prev[c[k]] == c[k - 1]
  {
    var r := Unlink(l, c[k]);
    var d := c[..k] + c[k + 1..];
    assert l.next[c[k - 1]] == c[k];
    forall i | 0 <= i < |d|
      ensures d[i] in r.next && d[i] in r.prev
      ensures r.next[d[i]] == d[if i + 1 == |d| then 0 else i + 1]
      ensures r.next[d[i]] in r.prev && r.prev[r.next[d[i]]] == d[i]
    {
      assert d[i] == c[if i < k then i else i + 1];
    }
  }

  /** Inserting at the front of the free list. */
  lemma PushFree(l: Links, free: seq<Addr>, n: Addr)
    requires Ring(l, [HEAD] + free) && n !in free && n != HEAD
    ensures HEAD in l.next && Ring(InsertAfter(l, HEAD, n), [HEAD] + ([n] + free))
  {
    var c := [HEAD] + free;
    InsertAfterRing(l, c, 0, n);
    assert Inserted(c, 1, n) == [HEAD] + ([n] + free);
  }

  lemma PullFree(l: Links, free: seq<Addr>, k: nat)
    requires Ring(l, [HEAD] + free) && k < |free|
    ensures free[k] in l.next && free[k] in l.prev
    ensures Ring(Unlink(l, free[k]), [HEAD] + Less(free, k))
    ensures forall x :: x in Less(free, k) <==> x in free && x != free[k]
  {
    hide Ring, Less, Unlink;
    var c := [HEAD] + free;
    RingFree(l, free, k);
    UnlinkRing(l, c, k + 1);
    LessFree(free, k);
    LessMembers(free, k);
  }

  lemma RingFree(l: Links, free: seq<Addr>, k: nat)
    requires Ring(l, [HEAD] + free) && k < |free|
    ensures free[k] in l.next && free[k] in l.prev
    ensures forall i, j :: 0 <= i < j < |free| ==> free[i] != free[j]
  {
    var c := [HEAD] + free;
    assert c[k + 1] == free[k];
    forall i, j | 0 <= i < j < |free| ensures free[i] != free[j] {
      assert c[i + 1] == free[i] && c[j + 1] == free[j];
    }
  }

  lemma LessFree(free: seq<Addr>, k: nat)
    requires k < |free|
    ensures var c := [HEAD] + free; c[..k + 1] + c[k + 2..] == [HEAD] + Less(free, k)
  {
  }

  /** Sizes of the blocks in use, by header address; the tail does not count. */
  ghost function Live(m: Memory, v: View): map<Addr, int> {
    map a | a in v.blocks && InUse(m.used, a) && a in m.links.next && a != Tail(v) :: Size(m, a)
  }

  ghost function Tail(v: View): Addr { if v.blocks == [] then NONE else v.blocks[|v.blocks| - 1] }

  lemma SizeAt(start: Addr, pool: nat, m: Memory, v: View, i: nat)
    requires Tiled(start, pool, v.blocks) && Ring(m.links, v.blocks) && i + 1 < |v.blocks|
    ensures v.blocks[i] in m.links.next && v.blocks[i] in m.links.prev && m.links.next[v.blocks[i]] == v.blocks[i + 1]
    ensures Size(m, v.blocks[i]) == v.blocks[i + 1] - v.blocks[i] - HDR
    ensures i > 0 ==> m.links.prev[v.blocks[i]] == v.blocks[i - 1]
    ensures i == 0 ==> m.links.prev[v.blocks[i]] == Tail(v)
  {
    var b := v.blocks;
    assert m.links.next[b[i]] == b[if i + 1 == |b| then 0 else i + 1];
    var p := if i == 0 then |b| - 1 else i - 1;
    assert m.links.next[b[p]] == b[if p + 1 == |b| then 0 else p + 1];
  }

  lemma TiledDistinct(start: Addr, pool: nat, b: seq<Addr>)
    requires Tiled(start, pool, b)
    ensures forall i, j :: 0 <= i < j < |b| ==> b[i] != b[j]
    ensures forall i :: 0 <= i < |b| ==> start <= b[i] && b[i] != NONE && b[i] != HEAD
  {
    forall i | 0 <= i < |b| ensures start <= b[i] {
      assert i > 0 ==> b[0] + HDR <= b[i];
    }
  }

  // The elementary steps. Each keeps the loose heap; its effect on the free total is exact.

  /** rt_memheap_free marks the block unused. */
  function Release(m: Memory, h: Addr): Memory { m.(used := m.used[h := false]) }

  lemma ReleaseOk(start: Addr, pool: nat, m: Memory, v: View, i: nat)
    requires HeapOk(start, pool, m, v) && i + 1 < |v.blocks| && InUse(m.used, v.blocks[i])
    ensures var r := Release(m, v.blocks[i]);
      Loose(start, pool, r, v, v.blocks[i]) && Separate(r.used, v.blocks, v.blocks[i])
  {
    hide Ring, Tiled;
    TiledDistinct(start, pool, v.blocks);
  }

  lemma ReleaseBytes(start: Addr, pool: nat, m: Memory, v: View, i: nat)
    requires Tiled(start, pool, v.blocks) && i + 1 < |v.blocks| && InUse(m.used, v.blocks[i])
    ensures FreeBytes(Release(m, v.blocks[i]).used, v.blocks) ==
            FreeBytes(m.used, v.blocks) + v.blocks[i + 1] - v.blocks[i] - HDR
  {
    TiledDistinct(start, pool, v.blocks);
    MarkBytes(m.used, v.blocks, i, false);
  }

  /** Changing one mark changes the free total by that block's payload. */
  lemma MarkBytes(used: map<Addr, bool>, b: seq<Addr>, i: nat, mark: bool)
    requires i + 1 < |b| && (forall i, j :: 0 <= i < j < |b| ==> b[i] != b[j])
    requires InUse(used, b[i]) != mark
    ensures FreeBytes(used[b[i] := mark], b) ==
            FreeBytes(used, b) + (if mark then -(b[i + 1] - b[i] - HDR) else b[i + 1] - b[i] - HDR)
  {
    var u2 := used[b[i] := mark];
    FreeBytesAt(used, b, i);
    FreeBytesAt(u2, b, i);
    FreeBytesSame(used, u2, b[..i + 1]);
    assert b[i..][1..] == b[i + 1..];
    FreeBytesSame(used, u2, b[i + 1..]);
  }

  /** Taking an unused block off the free list for use. */
  function Take(m: Memory, h: Addr): Memory
    requires h in m.free.next && h in m.free.prev
  {
    m.(free := Unlink(m.free, h), used := m.used[h := true])
  }

  lemma TakeOk(start: Addr, pool: nat, m: Memory, v: View, x: Addr, i: nat, j: nat)
    requires Loose(start, pool, m, v, x) && i + 1 < |v.blocks| && j < |v.free| && v.free[j] == v.blocks[i]
    ensures v.blocks[i] in m.free.next && v.blocks[i] in m.free.prev
    ensures Loose(start, pool, Take(m, v.blocks[i]), View(v.blocks, Less(v.free, j)), x)
    ensures forall y :: Separate(m.used, v.blocks, y) ==> Separate(Take(m, v.blocks[i]).used, v.blocks, y)
    ensures FreeBytes(Take(m, v.blocks[i]).used, v.blocks) ==
            FreeBytes(m.used, v.blocks) - (v.blocks[i + 1] - v.blocks[i] - HDR)
  {
    hide Ring, FreeBytes, Unlink;
    TiledDistinct(start, pool, v.blocks);
    PullFree(m.free, v.free, j);
    MarkBytes(m.used, v.blocks, i, true);
  }

  /** Putting the pending unused block at the front of the free list. */
  function Push(m: Memory, n: Addr): Memory
    requires HEAD in m.free.next
  {
    m.(free := InsertAfter(m.free, HEAD, n))
  }

  lemma PushOk(start: Addr, pool: nat, m: Memory, v: View, x: Addr)
    requires Loose(start, pool, m, v, x) && x in v.blocks && !InUse(m.used, x)
    ensures HEAD in m.free.next
    ensures Loose(start, pool, Push(m, x), View(v.blocks, [x] + v.free), NONE)
  {
    hide Ring, InsertAfter;
    TiledDistinct(start, pool, v.blocks);
    PushFree(m.free, v.free, x);
  }

  /** Cutting a new, unused block off the end of block `h`. */
  function Split(m: Memory, h: Addr, at: Addr): Memory
    requires h in m.links.next && Spared(h, at)
  {
    var m1 := BuildHeader(m, at);
    m1.(links := InsertAfter(m1.links, h, at))
  }

  /** Every block and free list node keeps clear of a header built inside one block. */
  lemma AllSpared(start: Addr, pool: nat, v: View, used: map<Addr, bool>, i: nat, at: Addr)
    requires Tiled(start, pool, v.blocks) && Marked(used, v, NONE) && i + 1 < |v.blocks|
    requires v.blocks[i] + HDR <= at && at + HDR <= v.blocks[i + 1]
    ensures forall k :: 0 <= k < |v.blocks| ==> Spared(v.blocks[k], at) && v.blocks[k] != at
    ensures forall k :: 0 <= k < |[HEAD] + v.free| ==> Spared(([HEAD] + v.free)[k], at)
    ensures at !in v.blocks && at !in v.free
  {
    forall k | 0 <= k < |v.blocks| ensures Spared(v.blocks[k], at) && v.blocks[k] != at {
      if k < i {
        assert v.blocks[k] + HDR <= v.blocks[i];
      } else if k > i + 1 {
        assert v.blocks[i + 1] + HDR <= v.blocks[k];
      }
    }
    forall k | 0 <= k < |[HEAD] + v.free| ensures Spared(([HEAD] + v.free)[k], at) {
      if k > 0 {
        assert v.free[k - 1] in v.blocks;
        var q :| 0 <= q < |v.blocks| && v.blocks[q] == v.free[k - 1];
      }
    }
  }

  lemma SplitOk(start: Addr, pool: nat, m: Memory, v: View, i: nat, at: Addr)
    requires Loose(start, pool, m, v, NONE) && i + 1 < |v.blocks| && at % 4 == 0
    requires v.blocks[i] + HDR <= at && at + HDR <= v.blocks[i + 1]
    ensures v.blocks[i] in m.links.next && Spared(v.blocks[i], at)
    ensures Loose(start, pool, Split(m, v.blocks[i], at), View(Inserted(v.blocks, i + 1, at), v.free), at)
  {
    hide Ring, InsertAfter, Spared;
    var m1 := BuildHeader(m, at);
    AllSpared(start, pool, v, m.used, i, at);
    SizeAt(start, pool, m, v, i);
    RingScrub(m.links, v.blocks, at);
    RingScrub(m.free, [HEAD] + v.free, at);
    InsertAfterRing(m1.links, v.blocks, i, at);
    SplitTiled(start, pool, v.blocks, i, at);
    TiledDistinct(start, pool, v.blocks);
    SplitMarked(m.used, v, i, at);
  }

  lemma SplitTiled(start: Addr, pool: nat, b: seq<Addr>, i: nat, at: Addr)
    requires Tiled(start, pool, b) && i + 1 < |b| && at % 4 == 0
    requires b[i] + HDR <= at && at + HDR <= b[i + 1]
    ensures Tiled(start, pool, Inserted(b, i + 1, at))
  {
    hide Inserted;
    var c := Inserted(b, i + 1, at);
    InsertedAt(b, i + 1, at, c);
    forall p, q | 0 <= p < q < |c| ensures c[p] + HDR <= c[q] {
      SplitGap(b, i, at, c, HDR, p, q);
    }
    assert c[0] == b[0] && c[|c| - 1] == b[|b| - 1];
    SplitWhole(b, i, at, c);
  }

  lemma SplitMarked(used: map<Addr, bool>, v: View, i: nat, at: Addr)
    requires Marked(used, v, NONE) && i + 1 < |v.blocks|
    requires forall k :: 0 <= k < |v.blocks| ==> Spared(v.blocks[k], at) && v.blocks[k] != at
    requires at !in v.free && NONE !in v.blocks
    ensures Marked(Scrub(used, at)[at := false], View(Inserted(v.blocks, i + 1, at), v.free), at)
  {
    hide Inserted, Spared;
    var c := Inserted(v.blocks, i + 1, at);
    InsertedAt(v.blocks, i + 1, at, c);
    var u2 := Scrub(used, at)[at := false];
    forall a | a in v.blocks ensures a in u2 && a != at && (InUse(u2, a) <==> InUse(used, a)) {
      var k :| 0 <= k < |v.blocks| && v.blocks[k] == a;
    }
    var last := v.blocks[|v.blocks| - 1];
    assert last in v.blocks && c[|v.blocks|] == last;
  }

  lemma SplitBytes(start: Addr, pool: nat, m: Memory, v: View, i: nat, at: Addr)
    requires Tiled(start, pool, v.blocks) && Marked(m.used, v, NONE) && i + 1 < |v.blocks|
    requires v.blocks[i] + HDR <= at && at + HDR <= v.blocks[i + 1]
    ensures FreeBytes(BuildHeader(m, at).used, Inserted(v.blocks, i + 1, at)) ==
            FreeBytes(m.used, v.blocks) + (if InUse(m.used, v.blocks[i]) then v.blocks[i + 1] - at - HDR else -HDR)
  {
    hide Spared, Scrub;
    AllSpared(start, pool, v, m.used, i, at);
    SplitMarks(m, v, i, at);
    BytesInserted(m.used, BuildHeader(m, at).used, v.blocks, i, at);
  }

  lemma SplitMarks(m: Memory, v: View, i: nat, at: Addr)
    requires forall k :: 0 <= k < |v.blocks| ==> Spared(v.blocks[k], at) && v.blocks[k] != at
    ensures forall k :: 0 <= k < |v.blocks| ==>
        (InUse(BuildHeader(m, at).used, v.blocks[k]) <==> InUse(m.used, v.blocks[k]))
    ensures !InUse(BuildHeader(m, at).used, at)
  {
  }

  lemma BytesInserted(u1: map<Addr, bool>, u2: map<Addr, bool>, b: seq<Addr>, i: nat, at: Addr)
    requires i + 1 < |b| && !InUse(u2, at)
    requires forall k :: 0 <= k < |b| ==> (InUse(u2, b[k]) <==> InUse(u1, b[k]))
    ensures FreeBytes(u2, Inserted(b, i + 1, at)) ==
            FreeBytes(u1, b) + (if InUse(u1, b[i]) then b[i + 1] - at - HDR else -HDR)
  {
    var c := Inserted(b, i + 1, at);
    FreeBytesAt(u1, b, i);
    FreeBytesAt(u2, c, i);
    assert c[..i + 1] == b[..i + 1];
    FreeBytesSame(u1, u2, b[..i + 1]);
    assert b[i..][1..] == b[i + 1..];
    assert c[i..][1..] == [at] + b[i + 1..];
    assert c[i..][1..][1..] == b[i + 1..];
    FreeBytesSame(u1, u2, b[i + 1..]);
  }

  /** The step of rt_memheap_free that joins an unused block to the unused block on its left. */
  function MergeLeft(m: Memory, h: Addr): Memory
    requires h in m.links.next && h in m.links.prev
  {
    m.(links := Unlink(m.links, h))
  }

  lemma LessTiled(start: Addr, pool: nat, b: seq<Addr>, i: nat)
    requires Tiled(start, pool, b) && 0 < i < |b| - 1
    ensures Tiled(start, pool, Less(b, i))
  {
    var c := Less(b, i);
    assert forall k :: 0 <= k < |c| ==> c[k] == b[if k < i then k else k + 1];
  }

  lemma LessBytes(u: map<Addr, bool>, b: seq<Addr>, i: nat)
    requires 0 < i < |b| - 1
    ensures FreeBytes(u, Less(b, i)) == FreeBytes(u, b)
              + Spare(u, b[i - 1], b[i + 1]) - Spare(u, b[i - 1], b[i]) - Spare(u, b[i], b[i + 1])
  {
    var c := Less(b, i);
    FreeBytesAt(u, b, i - 1);
    FreeBytesAt(u, c, i - 1);
    assert c[..i] == b[..i];
    assert c[i - 1..][1..] == b[i + 1..];
    assert b[i - 1..][1..] == b[i..];
    assert b[i..][1..] == b[i + 1..];
  }

  lemma MergeLeftOk(start: Addr, pool: nat, m: Memory, v: View, i: nat)
    requires 0 < i < |v.blocks| - 1 && Loose(start, pool, m, v, v.blocks[i]) && !InUse(m.used, v.blocks[i])
    ensures v.blocks[i] in m.links.next && v.blocks[i] in m.links.prev
    ensures Loose(start, pool, MergeLeft(m, v.blocks[i]), View(Less(v.blocks, i), v.free), NONE)
  {
    hide Ring, Unlink;
    SizeAt(start, pool, m, v, i);
    UnlinkRing(m.links, v.blocks, i);
    LessTiled(start, pool, v.blocks, i);
    TiledDistinct(start, pool, v.blocks);
    LessMembers(v.blocks, i);
  }

  /** Joining an unused block to the block on its left and taking it off the free list. */
  function MergeRight(m: Memory, n: Addr): Memory
    requires n in m.links.next && n in m.links.prev && n in m.free.next && n in m.free.prev
  {
    m.(links := Unlink(m.links, n), free := Unlink(m.free, n))
  }

  lemma MergeRightOk(start: Addr, pool: nat, m: Memory, v: View, x: Addr, i: nat, j: nat)
    requires 0 < i < |v.blocks| - 1 && Loose(start, pool, m, v, x) && j < |v.free| && v.free[j] == v.blocks[i]
    ensures v.blocks[i] in m.links.next && v.blocks[i] in m.links.prev
    ensures v.blocks[i] in m.free.next && v.blocks[i] in m.free.prev
    ensures Loose(start, pool, MergeRight(m, v.blocks[i]), View(Less(v.blocks, i), Less(v.free, j)), x)
  {
    hide Ring, Unlink, Tiled, Marked;
    SizeAt(start, pool, m, v, i);
    UnlinkRing(m.links, v.blocks, i);
    PullFree(m.free, v.free, j);
    LessTiled(start, pool, v.blocks, i);
    TiledDistinct(start, pool, v.blocks);
    MarkedLess(m.used, v, x, i, Less(v.free, j));
  }

  lemma MarkedLess(used: map<Addr, bool>, v: View, x: Addr, i: nat, free: seq<Addr>)
    requires 0 < i < |v.blocks| - 1 && Marked(used, v, x)
    requires forall i, j :: 0 <= i < j < |v.blocks| ==> v.blocks[i] != v.blocks[j]
    requires forall a :: a in free <==> a in v.free && a != v.blocks[i]
    ensures Marked(used, View(Less(v.blocks, i), free), x)
  {
    hide InUse;
    LessMembers(v.blocks, i);
    LessShape(v.blocks, i);
    assert Less(v.blocks, i)[|v.blocks| - 2] == v.blocks[|v.blocks| - 1];
  }

  // What the steps do to the blocks in use and to their contents

  /** Two heaps with the same tail whose blocks differ only by `x` being there or not, and whose
      blocks in use keep their ends, have the same blocks in use. */
  lemma LiveSame(m: Memory, v: View, m2: Memory, v2: View, x: Addr)
    requires Tail(v2) == Tail(v)
    requires forall a :: a != x ==> (a in v2.blocks <==> a in v.blocks)
    requires x !in v.blocks || !InUse(m.used, x)
    requires x !in v2.blocks || !InUse(m2.used, x)
    requires forall a :: a in v.blocks && a != x ==> (InUse(m2.used, a) <==> InUse(m.used, a))
    requires forall a :: a in v.blocks && a != x && InUse(m.used, a) ==> SameNext(m, m2, a)
    ensures Live(m2, v2) == Live(m, v)
  {
    hide Tail;
  }

  ghost predicate SameNext(m: Memory, m2: Memory, a: Addr) {
    (a in m2.links.next <==> a in m.links.next) && (a in m.links.next ==> m2.links.next[a] == m.links.next[a])
  }

  /** As before, but block `h` in use now ends at `end`. */
  lemma LiveResized(m: Memory, v: View, m2: Memory, v2: View, x: Addr, h: Addr, end: Addr)
    requires Tail(v2) == Tail(v)
    requires forall a :: a != x ==> (a in v2.blocks <==> a in v.blocks)
    requires x !in v.blocks || !InUse(m.used, x)
    requires x !in v2.blocks || !InUse(m2.used, x)
    requires forall a :: a in v.blocks && a != x && a != h ==> (InUse(m2.used, a) <==> InUse(m.used, a))
    requires forall a :: a in v.blocks && a != x && a != h && InUse(m.used, a) ==> SameNext(m, m2, a)
    requires h in v.blocks && h != Tail(v) && h != x && InUse(m2.used, h) && h in m2.links.next
    requires m2.links.next[h] == end
    ensures Live(m2, v2) == Live(m, v)[h := end - h - HDR]
  {
    hide Tail;
  }

  lemma TailKept(b: seq<Addr>, i: nat, n: Addr)
    requires i + 1 < |b|
    ensures Tail(View(Inserted(b, i + 1, n), [])) == Tail(View(b, []))
    ensures i > 0 ==> Tail(View(Less(b, i), [])) == Tail(View(b, []))
  {
  }

  lemma SplitNext(m: Memory, h: Addr, at: Addr)
    requires h in m.links.next && Spared(h, at) && h != at
    ensures at in Split(m, h, at).used && !InUse(Split(m, h, at).used, at)
    ensures h in Split(m, h, at).links.next && Split(m, h, at).links.next[h] == at
    ensures forall a :: Spared(a, at) && a != at ==> (InUse(Split(m, h, at).used, a) <==> InUse(m.used, a))
    ensures forall a :: Spared(a, at) && a != at && a != h ==> SameNext(m, Split(m, h, at), a)
  {
  }

  lemma SplitWhere(start: Addr, pool: nat, m: Memory, v: View, i: nat, at: Addr)
    requires Loose(start, pool, m, v, NONE) && i + 1 < |v.blocks|
    requires v.blocks[i] + HDR <= at && at + HDR <= v.blocks[i + 1]
    ensures v.blocks[i] in m.links.next && v.blocks[i] in v.blocks && v.blocks[i] != Tail(v)
    ensures at !in v.blocks && forall a :: a in v.blocks ==> Spared(a, at) && a != at
    ensures forall a :: a in Inserted(v.blocks, i + 1, at) <==> a in v.blocks || a == at
    ensures Tail(View(Inserted(v.blocks, i + 1, at), v.free)) == Tail(v)
  {
    hide Ring, Inserted, Spared;
    InsertedAt(v.blocks, i + 1, at, Inserted(v.blocks, i + 1, at));
    AllSpared(start, pool, v, m.used, i, at);
    TiledDistinct(start, pool, v.blocks);
    SizeAt(start, pool, m, v, i);
    BlocksSpared(v.blocks, at);
    TailKept(v.blocks, i, at);
  }

  lemma LiveSplit(start: Addr, pool: nat, m: Memory, v: View, i: nat, at: Addr)
    requires Loose(start, pool, m, v, NONE) && i + 1 < |v.blocks|
    requires v.blocks[i] + HDR <= at && at + HDR <= v.blocks[i + 1]
    ensures v.blocks[i] in m.links.next && Spared(v.blocks[i], at)
    ensures Live(Split(m, v.blocks[i], at), View(Inserted(v.blocks, i + 1, at), v.free)) ==
            if InUse(m.used, v.blocks[i]) then Live(m, v)[v.blocks[i] := at - v.blocks[i] - HDR] else Live(m, v)
  {
    hide Loose, Inserted, Spared, Split, Live, SameNext, Tail;
    var h := v.blocks[i];
    SplitWhere(start, pool, m, v, i, at);
    SplitNext(m, h, at);
    if InUse(m.used, h) {
      LiveResized(m, v, Split(m, h, at), View(Inserted(v.blocks, i + 1, at), v.free), at, h, at);
    } else {
      LiveSame(m, v, Split(m, h, at), View(Inserted(v.blocks, i + 1, at), v.free), at);
    }
  }

  lemma BlocksSpared(b: seq<Addr>, at: Addr)
    requires forall k :: 0 <= k < |b| ==> Spared(b[k], at) && b[k] != at
    ensures forall a :: a in b ==> Spared(a, at) && a != at
  {
  }

  /** Unlinking block `i` changes only where the block before it ends. */
  lemma UnlinkNext(start: Addr, pool: nat, m: Memory, v: View, i: nat)
    requires Tiled(start, pool, v.blocks) && Ring(m.links, v.blocks) && 0 < i < |v.blocks| - 1
    ensures v.blocks[i] in m.links.next && v.blocks[i] in m.links.prev
    ensures v.blocks[i - 1] in Unlink(m.links, v.blocks[i]).next
    ensures Unlink(m.links, v.blocks[i]).next[v.blocks[i - 1]] == v.blocks[i + 1]
    ensures forall a :: a in v.blocks && a != v.blocks[i - 1] ==> SameNext(m, MergeLeft(m, v.blocks[i]), a)
  {
    SizeAt(start, pool, m, v, i);
  }

  lemma LiveMergeLeft(start: Addr, pool: nat, m: Memory, v: View, i: nat)
    requires 0 < i < |v.blocks| - 1 && Loose(start, pool, m, v, v.blocks[i])
    requires !InUse(m.used, v.blocks[i]) && !InUse(m.used, v.blocks[i - 1])
    ensures v.blocks[i] in m.links.next && v.blocks[i] in m.links.prev
    ensures Live(MergeLeft(m, v.blocks[i]), View(Less(v.blocks, i), v.free)) == Live(m, v)
  {
    hide Ring, Live, SameNext, Less, Unlink;
    UnlinkNext(start, pool, m, v, i);
    TiledDistinct(start, pool, v.blocks);
    LessMembers(v.blocks, i);
    TailKept(v.blocks, i, NONE);
    LiveSame(m, v, MergeLeft(m, v.blocks[i]), View(Less(v.blocks, i), v.free), v.blocks[i]);
  }

  lemma LiveMergeRight(start: Addr, pool: nat, m: Memory, v: View, x: Addr, i: nat, j: nat)
    requires 0 < i < |v.blocks| - 1 && Loose(start, pool, m, v, x) && j < |v.free| && v.free[j] == v.blocks[i]
    ensures v.blocks[i] in m.links.next && v.blocks[i] in m.links.prev
    ensures v.blocks[i] in m.free.next && v.blocks[i] in m.free.prev
    ensures Live(MergeRight(m, v.blocks[i]), View(Less(v.blocks, i), Less(v.free, j))) ==
            if InUse(m.used, v.blocks[i - 1])
            then Live(m, v)[v.blocks[i - 1] := v.blocks[i + 1] - v.blocks[i - 1] - HDR]
            else Live(m, v)
  {
    hide Ring, Live, SameNext, Less, Unlink;
    UnlinkNext(start, pool, m, v, i);
    TiledDistinct(start, pool, v.blocks);
    LessMembers(v.blocks, i);
    TailKept(v.blocks, i, NONE);
    PullFree(m.free, v.free, j);
    var m2 := MergeRight(m, v.blocks[i]);
    NextOnly(m, MergeLeft(m, v.blocks[i]), m2);
    if InUse(m.used, v.blocks[i - 1]) {
      LiveResized(m, v, m2, View(Less(v.blocks, i), Less(v.free, j)), v.blocks[i], v.blocks[i - 1], v.blocks[i + 1]);
    } else {
      LiveSame(m, v, m2, View(Less(v.blocks, i), Less(v.free, j)), v.blocks[i]);
    }
  }

  lemma NextOnly(m: Memory, m1: Memory, m2: Memory)
    requires m1.links == m2.links
    ensures forall a :: SameNext(m, m1, a) ==> SameNext(m, m2, a)
  {
  }

  lemma LiveTake(start: Addr, pool: nat, m: Memory, v: View, x: Addr, i: nat, j: nat)
    requires Loose(start, pool, m, v, x) && i + 1 < |v.blocks| && j < |v.free| && v.free[j] == v.blocks[i]
    ensures v.blocks[i] in m.free.next && v.blocks[i] in m.free.prev
    ensures Live(Take(m, v.blocks[i]), View(v.blocks, Less(v.free, j))) ==
            Live(m, v)[v.blocks[i] := v.blocks[i + 1] - v.blocks[i] - HDR]
  {
    hide Ring, Live, Unlink;
    SizeAt(start, pool, m, v, i);
    TiledDistinct(start, pool, v.blocks);
    PullFree(m.free, v.free, j);
    LiveResized2(m, v, Take(m, v.blocks[i]), View(v.blocks, Less(v.free, j)), v.blocks[i], v.blocks[i + 1]);
  }

  lemma LiveResized2(m: Memory, v: View, m2: Memory, v2: View, h: Addr, end: Addr)
    requires v2.blocks == v.blocks && m2.links == m.links
    requires forall a :: a in v.blocks && a != h ==> (InUse(m2.used, a) <==> InUse(m.used, a))
    requires h in v.blocks && h != Tail(v) && InUse(m2.used, h) && h in m2.links.next && m2.links.next[h] == end
    ensures Live(m2, v2) == Live(m, v)[h := end - h - HDR]
  {
    hide Tail;
    TailOf(v, v2);
  }

  lemma TailOf(v: View, v2: View)
    requires v2.blocks == v.blocks
    ensures Tail(v2) == Tail(v)
  {
  }

  lemma LiveRelease(start: Addr, pool: nat, m: Memory, v: View, i: nat)
    requires Tiled(start, pool, v.blocks) && i + 1 < |v.blocks|
    ensures Live(Release(m, v.blocks[i]), v) == Live(m, v) - {v.blocks[i]}
  {
    TiledDistinct(start, pool, v.blocks);
  }

  lemma LivePush(m: Memory, v: View, x: Addr, free: seq<Addr>)
    requires HEAD in m.free.next
    ensures Live(Push(m, x), View(v.blocks, free)) == Live(m, v)
  {
  }

  /** The first `n` payload bytes of block `a` are the same in both memories. */
  ghost predicate Kept(m: Memory, m2: Memory, a: Addr, n: int) {
    forall x: Addr :: a + HDR <= x < a + HDR + n ==>
      (x in m.bytes <==> x in m2.bytes) && (x in m.bytes ==> m.bytes[x] == m2.bytes[x])
  }

  ghost predicate AllKept(m: Memory, m2: Memory, live: map<Addr, int>) {
    forall a :: a in live ==> Kept(m, m2, a, live[a])
  }

  /** A header built inside block `h` leaves the contents of all other blocks in use alone, and
      those of `h` up to the new header. */
  lemma SplitKeeps(start: Addr, pool: nat, m: Memory, v: View, i: nat, at: Addr)
    requires Loose(start, pool, m, v, NONE) && i + 1 < |v.blocks|
    requires v.blocks[i] + HDR <= at && at + HDR <= v.blocks[i + 1]
    ensures v.blocks[i] in m.links.next && Spared(v.blocks[i], at)
    ensures AllKept(m, Split(m, v.blocks[i], at), Live(m, v) - {v.blocks[i]})
    ensures Kept(m, Split(m, v.blocks[i], at), v.blocks[i], at - v.blocks[i] - HDR)
  {
    hide Ring, Kept;
    SizeAt(start, pool, m, v, i);
    AllSpared(start, pool, v, m.used, i, at);
    BuildKeeps(m, Split(m, v.blocks[i], at), at, v.blocks[i], at - v.blocks[i] - HDR);
    forall a | a in Live(m, v) && a != v.blocks[i] ensures Kept(m, Split(m, v.blocks[i], at), a, Live(m, v)[a]) {
      var k :| 0 <= k < |v.blocks| && v.blocks[k] == a;
      LiveClear(start, pool, m, v, i, k, at);
      BuildKeeps(m, Split(m, v.blocks[i], at), at, a, Live(m, v)[a]);
    }
  }

  lemma LiveClear(start: Addr, pool: nat, m: Memory, v: View, i: nat, k: nat, at: Addr)
    requires Tiled(start, pool, v.blocks) && Ring(m.links, v.blocks) && i + 1 < |v.blocks| && k < |v.blocks| && k != i
    requires v.blocks[i] + HDR <= at && at + HDR <= v.blocks[i + 1]
    requires v.blocks[k] in Live(m, v)
    ensures at + HDR <= v.blocks[k] || v.blocks[k] + HDR + Live(m, v)[v.blocks[k]] <= at
  {
    hide Ring;
    SizeAt(start, pool, m, v, k);
    assert k > i + 1 ==> v.blocks[i + 1] + HDR <= v.blocks[k];
    assert k + 1 < i ==> v.blocks[k + 1] + HDR <= v.blocks[i];
  }

  lemma BuildKeeps(m: Memory, m2: Memory, at: Addr, a: Addr, n: int)
    requires m2.bytes == BuildHeader(m, at).bytes
    requires at + HDR <= a || a + HDR + n <= at
    ensures Kept(m, m2, a, n)
  {
  }
}

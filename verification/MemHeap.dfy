/** The memory heap of memheap.c: rt_memheap_init, alloc, realloc and free. */
module MemHeap {
  import opened RtList
  import opened FreeBlocks
  import opened MemHeapBlocks
  import opened MemHeapFree
  import opened MemHeapWrap

  /** What rt_memheap_alloc looks for when asked for `size` bytes. */
  function Wanted(size: nat): (s: nat)
    ensures s % 4 == 0 && s >= MINI
  {
    if Align(size) < MINI then MINI else Align(size)
  }

  /** A request is rounded up, unless it lies within three bytes of 2^32: then the rounding wraps
      and the block may be far too small. */
  lemma WantedEnough(size: nat)
    requires size < WORD
    ensures Wanted(size) >= size <==> size <= WORD - 4
    ensures size <= WORD - 4 ==> Wanted(size) <= size + 3 || Wanted(size) == MINI
    ensures size > WORD - 4 ==> Wanted(size) == MINI
  {
  }

  /** rt_memheap_alloc without a split. */
  lemma AllocWholeOk(start: Addr, pool: nat, m: Memory, v: View, i: nat, j: nat)
    requires HeapOk(start, pool, m, v) && i + 1 < |v.blocks| && j < |v.free| && v.free[j] == v.blocks[i]
    ensures v.blocks[i] in m.free.next && v.blocks[i] in m.free.prev
    ensures HeapOk(start, pool, Take(m, v.blocks[i]), View(v.blocks, Less(v.free, j)))
  {
    hide Loose, Separate, FreeBytes, Take;
    TakeOk(start, pool, m, v, NONE, i, j);
  }

  /** The memory after rt_memheap_alloc cut `at` off block `h` and took `h`. */
  function SplitTake(m: Memory, h: Addr, at: Addr): Memory
    requires h in m.links.next && Spared(h, at)
    requires h in m.free.next && h in m.free.prev && HEAD in Take(Split(m, h, at), h).free.next
  {
    Push(Take(Split(m, h, at), h), at)
  }

  lemma SplitFacts(m: Memory, h: Addr, at: Addr)
    requires h in m.links.next && Spared(h, at)
    ensures Split(m, h, at).used == BuildHeader(m, at).used
    ensures h in m.free.next && h in m.free.prev ==> h in Split(m, h, at).free.next && h in Split(m, h, at).free.prev
  {
  }

  /** The marks after the split and the take: those of the old blocks, but `h` in use and `at` not. */
  lemma AllocSplitMarks(start: Addr, pool: nat, m: Memory, v: View, i: nat, at: Addr)
    requires Loose(start, pool, m, v, NONE) && i + 1 < |v.blocks|
    requires v.blocks[i] + HDR <= at && at + HDR <= v.blocks[i + 1]
    requires v.blocks[i] in m.free.next && v.blocks[i] in m.free.prev
    ensures var h := v.blocks[i];
      && h in m.links.next && Spared(h, at) && at !in v.blocks
      && h in Split(m, h, at).free.next && h in Split(m, h, at).free.prev
      && (forall k :: 0 <= k < |v.blocks| ==>
          (InUse(Split(m, h, at).used, v.blocks[k]) <==> InUse(m.used, v.blocks[k])))
      && (forall k :: 0 <= k < |v.blocks| && k != i ==>
          (InUse(Take(Split(m, h, at), h).used, v.blocks[k]) <==> InUse(m.used, v.blocks[k])))
      && InUse(Take(Split(m, h, at), h).used, h) && !InUse(Take(Split(m, h, at), h).used, at)
  {
    hide Ring, Take, Split, InUse, BuildHeader, Loose;
    var h := v.blocks[i];
    LooseParts(start, pool, m, v, NONE);
    AllSpared(start, pool, v, m.used, i, at);
    SizeAt(start, pool, m, v, i);
    SplitFacts(m, h, at);
    SplitMarks(m, v, i, at);
    TakeMarks(Split(m, h, at), h);
    TiledDistinct(start, pool, v.blocks);
  }

  lemma LooseParts(start: Addr, pool: nat, m: Memory, v: View, x: Addr)
    requires Loose(start, pool, m, v, x)
    ensures Tiled(start, pool, v.blocks) && Marked(m.used, v, x) && Ring(m.links, v.blocks)
  {
  }

  lemma AllocSplitLoose(start: Addr, pool: nat, m: Memory, v: View, i: nat, j: nat, at: Addr)
    requires Loose(start, pool, m, v, NONE) && i + 1 < |v.blocks| && j < |v.free| && v.free[j] == v.blocks[i]
    requires at % 4 == 0 && v.blocks[i] + HDR <= at && at + HDR <= v.blocks[i + 1]
    ensures v.blocks[i] in m.links.next && Spared(v.blocks[i], at)
    ensures v.blocks[i] in m.free.next && v.blocks[i] in m.free.prev
    ensures HEAD in Take(Split(m, v.blocks[i], at), v.blocks[i]).free.next
    ensures Loose(start, pool, SplitTake(m, v.blocks[i], at),
        View(Inserted(v.blocks, i + 1, at), [at] + Less(v.free, j)), NONE)
  {
    hide Loose, Take, Split, Push, Inserted, InUse, Less;
    var h := v.blocks[i];
    var b1 := Inserted(v.blocks, i + 1, at);
    InsertedAt(v.blocks, i + 1, at, b1);
    SplitOk(start, pool, m, v, i, at);
    TakeOk(start, pool, m, v, NONE, i, j);
    AllocSplitMarks(start, pool, m, v, i, at);
    TakeOk(start, pool, Split(m, h, at), View(b1, v.free), at, i, j);
    PushOk(start, pool, Take(Split(m, h, at), h), View(b1, Less(v.free, j)), at);
  }

  lemma AllocSplitOk(start: Addr, pool: nat, m: Memory, v: View, i: nat, j: nat, at: Addr)
    requires HeapOk(start, pool, m, v) && i + 1 < |v.blocks| && j < |v.free| && v.free[j] == v.blocks[i]
    requires at % 4 == 0 && v.blocks[i] + HDR <= at && at + HDR <= v.blocks[i + 1]
    ensures v.blocks[i] in m.links.next && Spared(v.blocks[i], at)
    ensures v.blocks[i] in m.free.next && v.blocks[i] in m.free.prev
    ensures HEAD in Take(Split(m, v.blocks[i], at), v.blocks[i]).free.next
    ensures HeapOk(start, pool, SplitTake(m, v.blocks[i], at),
        View(Inserted(v.blocks, i + 1, at), [at] + Less(v.free, j)))
  {
    hide Ring, Separate, Take, Split, Push, Inserted, InUse, Loose, Less, SplitTake;
    var b := v.blocks;
    var h := b[i];
    AllocSplitLoose(start, pool, m, v, i, j, at);
    LooseParts(start, pool, m, v, NONE);
    AllocSplitMarks(start, pool, m, v, i, at);
    PushMarks(Take(Split(m, h, at), h), at);
    TiledDistinct(start, pool, b);
    FreeUnused(m.used, v, j);
    NextInUse(m.used, v, i, j);
    SameTakes(m, h, at);
    AllocSplitApart(m.used, SplitTake(m, h, at).used, b, i, at);
  }

  lemma AllocSplitTotals(start: Addr, pool: nat, m: Memory, v: View, i: nat, j: nat, at: Addr)
    requires Loose(start, pool, m, v, NONE) && i + 1 < |v.blocks| && j < |v.free| && v.free[j] == v.blocks[i]
    requires at % 4 == 0 && v.blocks[i] + HDR <= at && at + HDR <= v.blocks[i + 1]
    ensures v.blocks[i] in m.links.next && Spared(v.blocks[i], at)
    ensures v.blocks[i] in m.free.next && v.blocks[i] in m.free.prev
    ensures HEAD in Take(Split(m, v.blocks[i], at), v.blocks[i]).free.next
    ensures FreeBytes(SplitTake(m, v.blocks[i], at).used, Inserted(v.blocks, i + 1, at)) ==
            FreeBytes(m.used, v.blocks) - (at - v.blocks[i])
    ensures Live(SplitTake(m, v.blocks[i], at), View(Inserted(v.blocks, i + 1, at), [at] + Less(v.free, j))) ==
            Live(m, v)[v.blocks[i] := at - v.blocks[i] - HDR]
    ensures AllKept(m, SplitTake(m, v.blocks[i], at), Live(m, v))
  {
    hide Loose, Take, Split, Push, Inserted, InUse, Less, Live, FreeBytes, AllKept;
    var h := v.blocks[i];
    var b1 := Inserted(v.blocks, i + 1, at);
    InsertedAt(v.blocks, i + 1, at, b1);
    LooseParts(start, pool, m, v, NONE);
    SplitOk(start, pool, m, v, i, at);
    AllocSplitLoose(start, pool, m, v, i, j, at);
    FreeUnused(m.used, v, j);
    SplitBytes(start, pool, m, v, i, at);
    LiveSplit(start, pool, m, v, i, at);
    SplitKeeps(start, pool, m, v, i, at);
    SplitFacts(m, h, at);
    var m1 := Split(m, h, at);
    var m2 := Take(m1, h);
    TakeOk(start, pool, m1, View(b1, v.free), at, i, j);
    LiveTake(start, pool, m1, View(b1, v.free), at, i, j);
    TakeMarks(m1, h);
    LivePush(m2, View(b1, Less(v.free, j)), at, [at] + Less(v.free, j));
    PushMarks(m2, at);
    KeptOthers(m, v, m1, SplitTake(m, h, at), h);
  }

  lemma KeptOthers(m: Memory, v: View, m1: Memory, m2: Memory, h: Addr)
    requires AllKept(m, m1, Live(m, v) - {h}) && !InUse(m.used, h) && m2.bytes == m1.bytes
    ensures AllKept(m, m2, Live(m, v))
  {
    assert Live(m, v) - {h} == Live(m, v);
    forall a | a in Live(m, v) ensures Kept(m, m2, a, Live(m, v)[a]) {
      assert Kept(m, m1, a, Live(m, v)[a]);
    }
  }

  lemma SameTakes(m: Memory, h: Addr, at: Addr)
    requires h in m.links.next && Spared(h, at)
    requires h in m.free.next && h in m.free.prev && HEAD in Take(Split(m, h, at), h).free.next
    ensures SplitTake(m, h, at).used == Take(Split(m, h, at), h).used
  {
  }

  lemma AllocSplitApart(u: map<Addr, bool>, u2: map<Addr, bool>, b: seq<Addr>, i: nat, at: Addr)
    requires i + 1 < |b| && Separate(u, b, NONE) && NONE !in b && at !in b
    requires forall p, q :: 0 <= p < q < |b| ==> b[p] != b[q]
    requires forall k :: 0 <= k < |b| && k != i ==> (InUse(u2, b[k]) <==> InUse(u, b[k]))
    requires InUse(u2, b[i]) && !InUse(u2, at) && InUse(u, b[i + 1])
    ensures Separate(u2, Inserted(b, i + 1, at), NONE)
  {
    hide InUse;
    var c := Inserted(b, i + 1, at);
    InsertedAt(b, i + 1, at, c);
    forall k | 0 <= k < |c| - 1 ensures Apart(u2, c, k) {
      if k < i {
        assert Apart(u, b, k);
      } else if k > i + 1 {
        assert Apart(u, b, k - 1);
      }
    }
  }

  lemma FreeUnused(used: map<Addr, bool>, v: View, j: nat)
    requires Marked(used, v, NONE) && j < |v.free|
    ensures !InUse(used, v.free[j]) && v.free[j] in v.blocks
  {
  }

  lemma TakeMarks(m: Memory, h: Addr)
    requires h in m.free.next && h in m.free.prev
    ensures Take(m, h).used == m.used[h := true] && Take(m, h).links == m.links && Take(m, h).bytes == m.bytes
    ensures InUse(Take(m, h).used, h) && forall a :: a != h ==> (InUse(Take(m, h).used, a) <==> InUse(m.used, a))
  {
  }

  lemma PushMarks(m: Memory, h: Addr)
    requires HEAD in m.free.next
    ensures Push(m, h).used == m.used && Push(m, h).links == m.links && Push(m, h).bytes == m.bytes
  {
  }

  /** The block after an unused one is in use. */
  lemma NextInUse(used: map<Addr, bool>, v: View, i: nat, j: nat)
    requires Separate(used, v.blocks, NONE) && i + 1 < |v.blocks| && NONE !in v.blocks && !InUse(used, v.blocks[i])
    ensures InUse(used, v.blocks[i + 1])
  {
    assert Apart(used, v.blocks, i);
  }

  /** The headers rt_memheap_init writes: one unused block and the used tail. */
  function Fresh(start: Addr, pool: nat): Memory
    requires pool >= HDR
  {
    var tail := start + pool - HDR;
    var links := Links(map[start := tail, tail := start], map[start := tail, tail := start]);
    var empty := Links(map[HEAD := HEAD], map[HEAD := HEAD]);
    Memory(links, InsertAfter(empty, HEAD, start), map[start := false, tail := true], map[])
  }

  lemma FreshOk(start: Addr, pool: nat)
    requires start >= 4 && start % 4 == 0 && pool % 4 == 0 && pool >= 2 * HDR
    ensures var m := Fresh(start, pool); var v := View([start, start + pool - HDR], [start]);
      HeapOk(start, pool, m, v) && FreeBytes(m.used, v.blocks) == pool - 2 * HDR && Live(m, v) == map[]
  {
    hide Ring, InsertAfter;
    var tail := start + pool - HDR;
    var v := View([start, tail], [start]);
    PairRing(start, tail);
    FirstFree(start);
    assert v.blocks[1..] == [tail];
  }

  lemma PairRing(a: Addr, b: Addr)
    requires a != b
    ensures Ring(Links(map[a := b, b := a], map[a := b, b := a]), [a, b])
  {
  }

  lemma FirstFree(a: Addr)
    requires a != HEAD
    ensures Ring(InsertAfter(Links(map[HEAD := HEAD], map[HEAD := HEAD]), HEAD, a), [HEAD] + [a])
  {
    hide InsertAfter;
    InsertAfterRing(Links(map[HEAD := HEAD], map[HEAD := HEAD]), [HEAD], 0, a);
    assert Inserted([HEAD], 1, a) == [HEAD] + [a];
  }

  class MemHeap {
    const start: Addr
    const pool: nat           // pool_size
    var mem: Memory
    var available: int        // available_size
    var maxUsed: int          // max_used_size
    ghost var view: View

    ghost predicate Valid()
      reads this
    {
      && start + pool <= WORD
      && HeapOk(start, pool, mem, view)
      && available == FreeBytes(mem.used, view.blocks)
      && pool - available <= maxUsed
    }

    /** The blocks handed out: header address to payload size. */
    ghost function InHand(): map<Addr, int>
      reads this
    {
      Live(mem, view)
    }

    /** The bytes of the block handed out at `p`. */
    ghost function Payload(p: int): int
      reads this
    {
      if p - HDR in InHand() then InHand()[p - HDR] else 0
    }

    /** The bytes of the block, used or not, whose payload starts at `p`. */
    ghost function RoomAt(p: int): int
      reads this
    {
      if p - HDR in mem.links.next then Size(mem, p - HDR) else 0
    }

    constructor (start: Addr, size: nat)
      requires start >= 4 && start % 4 == 0 && size >= 2 * HDR && start + size <= WORD
      ensures Valid() && InHand() == map[] && pool == size / 4 * 4
      ensures available == pool - 2 * HDR && maxUsed == 2 * HDR && view.free == [start]
    {
      this.start := start;
      var pool := size / 4 * 4;
      this.pool := pool;
      available := pool - 2 * HDR;
      maxUsed := 2 * HDR;
      var tail := start + pool - HDR;
      mem := Fresh(start, pool);
      view := View([start, tail], [start]);
      new;
      hide HeapOk, FreeBytes, Live;
      FreshOk(start, pool);
    }

    /** The search loop of rt_memheap_alloc: the first block on the free list that is big enough. */
    method FirstFit(size: nat) returns (h: Addr, found: bool, ghost j: nat)
      requires Valid() && size > 0
      ensures found ==> j < |view.free| && view.free[j] == h && h in mem.links.next && Size(mem, h) >= size
      ensures found ==> forall k :: 0 <= k < j ==> view.free[k] in mem.links.next && Size(mem, view.free[k]) < size
      ensures !found ==> forall k :: 0 <= k < |view.free| ==>
          view.free[k] in mem.links.next && Size(mem, view.free[k]) < size
    {
      hide Loose, Separate, FreeBytes;
      j := 0;
      var freeSize := 0;
      FreeKnown();
      FreeStep(0);
      h := mem.free.next[HEAD];
      while h != HEAD && freeSize < size
        invariant j <= |view.free| && (h == HEAD <==> j == |view.free|)
        invariant j < |view.free| ==> h == view.free[j] && h in mem.links.next
        invariant forall k :: 0 <= k < j ==> view.free[k] in mem.links.next && Size(mem, view.free[k]) < size
        invariant freeSize >= size ==> h != HEAD && freeSize == Size(mem, h)
        decreases |view.free| - j, size - freeSize
      {
        freeSize := Size(mem, h);
        if freeSize < size {
          FreeStep(j + 1);
          h := mem.free.next[h];
          j := j + 1;
        }
      }
      found := freeSize >= size;
    }

    lemma FreeKnown()
      requires Valid()
      ensures forall k :: 0 <= k < |view.free| ==>
        view.free[k] in mem.links.next && view.free[k] != HEAD && view.free[k] in view.blocks &&
            !InUse(mem.used, view.free[k])
    {
      TiledDistinct(start, pool, view.blocks);
      forall k | 0 <= k < |view.free| ensures view.free[k] in mem.links.next && view.free[k] != HEAD {
        assert view.free[k] in view.blocks;
        var i :| 0 <= i < |view.blocks| && view.blocks[i] == view.free[k];
      }
    }

    lemma FreeStep(k: nat)
      requires Valid() && k <= |view.free|
      ensures HEAD in mem.free.next && (k > 0 ==> view.free[k - 1] in mem.free.next)
      ensures mem.free.next[if k == 0 then HEAD else view.free[k - 1]] == if k == |view.free| then HEAD
          else view.free[k]
    {
      var c := [HEAD] + view.free;
      assert c[0] == HEAD && HEAD in mem.free.next;
      assert mem.free.next[c[k]] == c[if k + 1 == |c| then 0 else k + 1];
    }

    /** Where a free block stands in the ring. */
    lemma Placed(j: nat) returns (i: nat)
      requires Valid() && j < |view.free|
      ensures i + 1 < |view.blocks| && view.blocks[i] == view.free[j]
      ensures view.free[j] in mem.links.next && Size(mem, view.free[j]) == view.blocks[i + 1] - view.blocks[i] - HDR
      ensures view.blocks[i] in mem.free.next && view.blocks[i] in mem.free.prev
    {
      hide Ring;
      assert view.free[j] in view.blocks;
      i :| 0 <= i < |view.blocks| && view.blocks[i] == view.free[j];
      SizeAt(start, pool, mem, view, i);
      PullFree(mem.free, view.free, j);
    }

    /** The branch of rt_memheap_alloc that hands out the whole block. */
    method AllocWhole(h: Addr, ghost j: nat)
      requires Valid() && j < |view.free| && view.free[j] == h && h in mem.links.next
      modifies `mem, `available, `maxUsed, `view
      ensures Valid() && maxUsed == Higher(old(maxUsed), pool - available)
      ensures view == View(old(view.blocks), Less(old(view.free), j))
      ensures InHand() == old(InHand())[h := old(Size(mem, h))]
      ensures available == old(available) - old(Size(mem, h))
      ensures AllKept(old(mem), mem, old(InHand()))
    {
      hide Loose, Separate, FreeBytes, Live, Less, Take;
      ghost var i := Placed(j);
      AllocWholeOk(start, pool, mem, view, i, j);
      TakeOk(start, pool, mem, view, NONE, i, j);
      LiveTake(start, pool, mem, view, NONE, i, j);
      TakeMarks(mem, h);
      available := available - Size(mem, h);
      if pool - available > maxUsed { maxUsed := pool - available; }
      mem := Take(mem, h);
      view := View(view.blocks, Less(view.free, j));
    }

    /** The branch that cuts the block in two. */
    method AllocPart(h: Addr, size: nat, ghost j: nat)
      requires Valid() && j < |view.free| && view.free[j] == h && h in mem.links.next
      requires size % 4 == 0 && Size(mem, h) >= size + HDR + MINI
      modifies `mem, `available, `maxUsed, `view
      ensures Valid() && maxUsed == Higher(old(maxUsed), pool - available)
      ensures view.free == [h + HDR + size] + Less(old(view.free), j)
      ensures InHand() == old(InHand())[h := size]
      ensures available == old(available) - size - HDR
      ensures AllKept(old(mem), mem, old(InHand()))
    {
      hide Loose, Separate, FreeBytes, Live, Less, SplitTake, Take, Push, Split, AllKept;
      ghost var i := Placed(j);
      ghost var b1 := Inserted(view.blocks, i + 1, h + HDR + size);
      var at := h + HDR + size;
      TiledAt(start, pool, mem, view, i);
      AllocSplitOk(start, pool, mem, view, i, j, at);
      AllocSplitTotals(start, pool, mem, view, i, j, at);
      available := available - size - HDR;
      if pool - available > maxUsed { maxUsed := pool - available; }
      mem := SplitTake(mem, h, at);
      view := View(b1, [at] + Less(view.free, j));
    }

    /** rt_memheap_alloc: the first block on the free list that is big enough, whole or cut to
        size; null exactly when the total or every single free block is too small. */
    method Alloc(size: nat) returns (p: Addr)
      requires Valid()
      modifies `mem, `available, `maxUsed, `view
      ensures Valid() && maxUsed == Higher(old(maxUsed), pool - available)
      ensures p == 0 <==> old(available) <= Wanted(size) || old(NoFit(Wanted(size)))
      ensures p == 0 ==> mem == old(mem) && available == old(available) && view == old(view)
      ensures p != 0 ==> p >= HDR && old(FirstFitting(p - HDR, Wanted(size)))
      ensures p != 0 ==> var room := old(Size(mem, p - HDR)); var w := Wanted(size);
        && InHand() == old(InHand())[p - HDR := if room >= w + 24 + 12 then w else room]
        && available == old(available) - (if room >= w + 24 + 12 then w + 24 else room)
        && w <= InHand()[p - HDR] < w + HDR + MINI
        && TakenOut(old(view.free), p - HDR, if room >= w + 24 + 12 then [p + w] else [], view.free)
      ensures AllKept(old(mem), mem, old(InHand()))
    {
      hide HeapOk, Live, FreeBytes, Less, TakenOut;
      var s := Wanted(size);
      p := 0;
      if s < available {
        var h, found, j := FirstFit(s);
        if found {
          TakenAt(view.free, j);
          if Size(mem, h) >= s + HDR + MINI {
            AllocPart(h, s, j);
          } else {
            AllocWhole(h, j);
          }
          p := h + HDR;
        }
      }
    }

    /** The heap while rt_memheap_free or rt_memheap_realloc is at block `k`, which is `h`. */
    ghost predicate Halfway(x: Addr, h: Addr, k: nat)
      reads this
    {
      && start + pool <= WORD
      && k + 1 < |view.blocks| && view.blocks[k] == h && Open(start, pool, mem, view, x, k)
      && available == FreeBytes(mem.used, view.blocks)
      && pool - available <= maxUsed
    }

    lemma AtHalf(x: Addr, h: Addr, k: nat) returns (before: Addr, after: Addr)
      requires k + 1 < |view.blocks| && view.blocks[k] == h && Open(start, pool, mem, view, x, k)
      ensures h in mem.links.next && mem.links.next[h] == view.blocks[k + 1] == after
      ensures k + 2 < |view.blocks| ==> after in mem.links.next && Size(mem, after) == view.blocks[k + 2] - after - HDR
      ensures h in mem.links.prev && mem.links.prev[h] == before
      ensures before == if k > 0 then view.blocks[k - 1] else view.blocks[|view.blocks| - 1]
      ensures InUse(mem.used, view.blocks[|view.blocks| - 1])
      ensures h != NONE
    {
      hide Ring;
      OpenParts(start, pool, mem, view, x, k);
      SizeAt(start, pool, mem, view, k);
      if k + 2 < |view.blocks| {
        SizeAt(start, pool, mem, view, k + 1);
      }
      after := mem.links.next[h];
      before := mem.links.prev[h];
    }

    /** Coalescing to the left in rt_memheap_free. */
    method MergeBack(h: Addr, ghost k: nat) returns (h2: Addr, inserting: bool, ghost k2: nat)
      requires Halfway(h, h, k) && h != NONE
      modifies `mem, `available, `view
      ensures Halfway(if inserting then h2 else NONE, h2, k2) && mem.bytes == old(mem.bytes)
      ensures InHand() == old(InHand())
      ensures k2 > 0 ==> InUse(mem.used, view.blocks[k2 - 1])
      ensures h in old(mem).links.prev && (inserting <==> old(InUse(mem.used, mem.links.prev[h])))
      ensures view.free == old(view.free) && (inserting ==> h2 == h)
      ensures view.blocks[k2 + 1] == old(view.blocks)[k + 1]
      ensures InUse(mem.used, view.blocks[k2 + 1]) <==> old(InUse(mem.used, view.blocks[k + 1]))
    {
      hide Open, Live, FreeBytes, InUse, MergeLeft, Less;
      h2, inserting, k2 := h, true, k;
      ghost var before, after := AtHalf(h, h, k);
      if !InUse(mem.used, mem.links.prev[h]) {
        JoinLeft(start, pool, mem, view, k);
        MergeLeftRest(mem, h);
        available := available + HDR;
        h2 := mem.links.prev[h];
        mem := MergeLeft(mem, h);
        view := View(Less(view.blocks, k), view.free);
        inserting := false;
        k2 := k - 1;
      }
    }

    /** Coalescing to the right in rt_memheap_free. */
    method MergeForward(x: Addr, h: Addr, ghost k: nat)
      requires Halfway(x, h, k)
      modifies `mem, `available, `view
      ensures Halfway(x, h, k) && mem.bytes == old(mem.bytes) && InHand() == old(InHand()) && mem.used == old(mem.used)
      ensures InUse(mem.used, view.blocks[k + 1])
      ensures view.blocks[..k + 1] == old(view.blocks)[..k + 1]
      ensures if old(InUse(mem.used, view.blocks[k + 1])) then view.free == old(view.free)
              else TakenOut(old(view.free), old(view.blocks)[k + 1], [], view.free)
    {
      hide Open, Live, FreeBytes, InUse, MergeRight, Less;
      ghost var before, after := AtHalf(x, h, k);
      var next := mem.links.next[h];
      if !InUse(mem.used, next) {
        ghost var j := FreeIndex(start, pool, mem, view, x, k);
        ghost var b := view.blocks;
        TakenAt(view.free, j);
        JoinRight(start, pool, mem, view, x, k, j);
        assert Less(b, k + 1)[k] == b[k] by { assert Less(b, k + 1)[..k + 1][k] == b[..k + 1][k]; }
        MergeRightRest(mem, next);
        available := available + HDR;
        mem := MergeRight(mem, next);
        view := View(Less(view.blocks, k + 1), Less(view.free, j));
      }
    }

    /** The end of rt_memheap_free: a block that was not merged to the left joins the free list. */
    method Settle(x: Addr, h: Addr, ghost k: nat)
      requires Halfway(x, h, k)
      requires InUse(mem.used, view.blocks[k + 1]) && (k > 0 ==> InUse(mem.used, view.blocks[k - 1]))
      modifies `mem, `view
      ensures Valid() && mem.bytes == old(mem.bytes) && InHand() == old(InHand())
      ensures view == View(old(view.blocks), if x == NONE then old(view.free) else [h] + old(view.free))
    {
      hide HeapOk, Live, FreeBytes, InUse, Push;
      Close(start, pool, mem, view, x, k);
      if x != NONE {
        mem := Push(mem, x);
        view := View(view.blocks, [x] + view.free);
      }
    }

    /** rt_memheap_free: null is ignored; a live block leaves the heap's hands and nothing else does. */
    method Free(p: Addr)
      requires Valid() && (p == 0 || (p >= HDR && p - HDR in InHand()))
      modifies `mem, `available, `view
      ensures Valid() && mem.bytes == old(mem.bytes)
      ensures InHand() == old(InHand()) - {p - HDR}
      ensures p == 0 ==> mem == old(mem) && available == old(available) && view == old(view)
      ensures p != 0 ==> GivenBack(old(mem), old(view.free), p - HDR, view.free)
    {
      hide HeapOk, Live, FreeBytes, InUse, Open, Release, TakenOut;
      if p != 0 {
        var h := p - HDR;
        ghost var i := LiveIndex(start, pool, mem, view, h);
        Neighbours(start, pool, mem, view, i);
        ReleaseOpen(start, pool, mem, view, i);
        ReleaseRest(mem, h);
        ReleaseOthers(mem, h);
        available := available + Size(mem, h);
        mem := Release(mem, h);
        var h2, inserting, k := MergeBack(h, i);
        var x := if inserting then h2 else NONE;
        ghost var b := view.blocks;
        MergeForward(x, h2, k);
        ghost var rest := view.free;
        assert k > 0 ==> view.blocks[..k + 1][k - 1] == b[..k + 1][k - 1];
        Settle(x, h2, k);
        assert NextOff(old(mem), old(view.free), old(mem.links.next[h]), rest);
      } else {
        LivePositive(start, pool, mem, view);
      }
    }

    /** Building a new unused block at the end of a block in use; its neighbours are not looked at yet. */
    method CutOff(h: Addr, size: nat, ghost i: nat)
      requires HeapOk(start, pool, mem, view) && i + 1 < |view.blocks| && view.blocks[i] == h
      requires InUse(mem.used, h) && size % 4 == 0 && h + HDR + size + HDR <= view.blocks[i + 1]
      modifies `mem, `view
      ensures Open(start, pool, mem, view, h + HDR + size, i + 1)
      ensures |view.blocks| == |old(view.blocks)| + 1 && view.free == old(view.free)
      ensures view.blocks[i] == h && view.blocks[i + 1] == h + HDR + size
      ensures view.blocks[i + 2] == old(view.blocks)[i + 1]
      ensures InUse(mem.used, h) && (InUse(mem.used, view.blocks[i + 2]) <==> old(InUse(mem.used, view.blocks[i + 1])))
      ensures FreeBytes(mem.used, view.blocks) ==
              old(FreeBytes(mem.used, view.blocks)) + view.blocks[i + 2] - view.blocks[i + 1] - HDR
      ensures InHand() == old(InHand())[h := size]
      ensures AllKept(old(mem), mem, old(InHand()) - {h}) && Kept(old(mem), mem, h, size)
    {
      hide HeapOk, Live, FreeBytes, InUse, AllKept, Kept, Open, Inserted, Split, Spared;
      var at := h + HDR + size;
      TiledAt(start, pool, mem, view, i);
      CutFacts(start, pool, mem, view, i, at);
      mem := Split(mem, h, at);
      view := View(Inserted(view.blocks, i + 1, at), view.free);
    }

    /** Can the block grow into the unused block after it, leaving room for a block behind? */
    ghost predicate Grows(h: Addr, size: int)
      reads this
    {
      && h in mem.links.next && mem.links.next[h] in mem.links.next && !InUse(mem.used, mem.links.next[h])
      && Size(mem, mem.links.next[h]) + Size(mem, h) > size + MINI
    }

    /** The branch of rt_memheap_realloc that makes use of the next free block. */
    method Grow(h: Addr, size: nat)
      requires Valid() && h in InHand() && size % 4 == 0 && InHand()[h] < size && Grows(h, size)
      modifies `mem, `available, `maxUsed, `view
      ensures Valid() && maxUsed == Higher(old(maxUsed), pool - available)
      ensures InHand() == old(InHand())[h := size]
      ensures available == old(available) - (size - old(InHand()[h]))
      ensures AllKept(old(mem), mem, old(InHand()))
    {
      hide HeapOk, Loose, Live, FreeBytes, InUse, AllKept, Kept, Open, MergeRight, Less;
      ghost var m0, l0 := mem, InHand();
      ghost var i := LiveIndex(start, pool, mem, view, h);
      available := available - (size - Size(mem, h));
      if pool - available > maxUsed { maxUsed := pool - available; }
      var next := mem.links.next[h];
      ghost var j := FreeAfter(start, pool, mem, view, i);
      NextKnown(start, pool, mem, view, i);
      Swallow(start, pool, mem, view, i, j);
      MergeRightRest(mem, next);
      mem := MergeRight(mem, next);
      view := View(Less(view.blocks, i + 1), Less(view.free, j));
      ghost var m1, l1 := mem, InHand();
      CutOff(h, size, i);
      GrowKeeps(m0, m1, mem, l0, l1, h, size);
      ghost var m2 := mem;
      Settle(h + HDR + size, h + HDR + size, i + 1);
      BytesKept(m0, m2, mem, l0);
    }

    /** Does a block handed out fit a resize to `size` without moving? */
    ghost predicate InPlace(h: Addr, size: int)
      reads this
    {
      h in InHand() && (InHand()[h] >= size || Grows(h, size))
    }

    /** Is the block taken to grow into the unused block after it only because the guard's sum wraps? */
    ghost predicate Misled(h: Addr, size: nat)
      reads this
    {
      && h in mem.links.next && mem.links.next[h] in mem.links.next && !InUse(mem.used, mem.links.next[h])
      && Size(mem, h) < size && size + MINI >= WORD
      && Size(mem, mem.links.next[h]) + Size(mem, h) > size + MINI - WORD
    }

    /** No list of blocks and free list make a heap of the memory. */
    ghost predicate Lost()
      reads this
    {
      forall v :: !HeapOk(start, pool, mem, v)
    }

    lemma LostInvalid()
      requires Lost()
      ensures !Valid()
    {
    }

    /** The branch of rt_memheap_realloc that makes use of the next free block, when the sums wrap:
        the new header lands in the block's own header and the heap is lost. */
    method GrowWrapped(h: Addr, size: nat)
      requires Valid() && h in InHand() && Wanted(size) == size && Misled(h, size)
      modifies `mem, `available, `maxUsed
      ensures Lost() && h in mem.links.next && h < mem.links.next[h] < h + HDR
    {
      hide HeapOk, Live, FreeBytes, InUse, GrowOver, Wanted;
      ghost var i := LiveIndex(start, pool, mem, view, h);
      NextKnown(start, pool, mem, view, i);
      WantedShape(size);
      WantedTwice(size);
      BelowWord(i);
      available := (available - (size - Size(mem, h))) % WORD;
      if (pool - available) % WORD > maxUsed { maxUsed := (pool - available) % WORD; }
      NewHeaderInOld(h, size);
      HeapLost(start, pool, mem, view, i, NewHeader(h, size));
      mem := GrowOver(mem, h, mem.links.next[h], NewHeader(h, size));
    }

    lemma BelowWord(i: nat)
      requires Valid() && i + 1 < |view.blocks|
      ensures view.blocks[i] + 2 * HDR <= WORD
      ensures i + 2 < |view.blocks| ==> view.blocks[i + 2] + HDR <= WORD
    {
      TiledAt(start, pool, mem, view, i);
      assert i + 2 < |view.blocks| - 1 ==> view.blocks[i + 2] + HDR <= view.blocks[|view.blocks| - 1];
      assert i + 1 < |view.blocks| - 1 ==> view.blocks[i + 1] + HDR <= view.blocks[|view.blocks| - 1];
    }

    /** The shrinking end of rt_memheap_realloc. */
    method Shrink(h: Addr, size: nat)
      requires Valid() && h in InHand() && size % 4 == 0 && size + HDR + MINI < InHand()[h]
      modifies `mem, `available, `view
      ensures Valid()
      ensures InHand() == old(InHand())[h := size]
      ensures AllKept(old(mem), mem, old(InHand()) - {h}) && Kept(old(mem), mem, h, size)
    {
      hide HeapOk, Loose, Live, FreeBytes, InUse, Open, MergeRight, Less, Kept;
      ghost var m0, l0 := mem, InHand();
      ghost var i := LiveIndex(start, pool, mem, view, h);
      CutOff(h, size, i);
      ghost var m1 := mem;
      var at := h + HDR + size;
      ghost var before, after := AtHalf(at, at, i + 1);
      var next := mem.links.next[at];
      if !InUse(mem.used, next) {
        ghost var j := FreeIndex(start, pool, mem, view, at, i + 1);
        ghost var b := view.blocks;
        JoinRight(start, pool, mem, view, at, i + 1, j);
        assert Less(b, i + 2)[i] == b[i] && Less(b, i + 2)[i + 1] == b[i + 1] by {
          assert Less(b, i + 2)[..i + 2][i] == b[..i + 2][i] && Less(b, i + 2)[..i + 2][i + 1] == b[..i + 2][i + 1];
        }
        MergeRightRest(mem, next);
        available := available - Size(mem, next);
        mem := MergeRight(mem, next);
        view := View(Less(view.blocks, i + 2), Less(view.free, j));
        before, after := AtHalf(at, at, i + 1);
      }
      available := available + Size(mem, at);
      OpenRoom(start, pool, mem, view, at, i + 1);
      Settle(at, at, i + 1);
      BytesKept(m0, m1, mem, l0 - {h});
      OneKept(m0, m1, mem, h, size);
    }

    /** The branch of rt_memheap_realloc that allocates, copies and frees. */
    method Move(p: Addr, size: nat) returns (q: Addr)
      requires Valid() && p >= HDR && p - HDR in InHand() && InHand()[p - HDR] < size && Wanted(size) == size
      modifies `mem, `available, `maxUsed, `view
      ensures Valid() && maxUsed >= old(maxUsed)
      ensures q == 0 <==> old(available) <= size || old(NoFit(size))
      ensures q == 0 ==> mem == old(mem) && available == old(available) && view == old(view)
      ensures q != 0 ==> q >= HDR && q - HDR in InHand() && InHand()[q - HDR] >= size
      ensures q != 0 ==> old(FirstFitting(q - HDR, size))
      ensures q != 0 ==> Payload(q) == if old(RoomAt(q)) >= size + 24 + 12 then size else old(RoomAt(q))
      ensures q != 0 ==> InHand() - {q - HDR} == old(InHand()) - {p - HDR}
      ensures q != 0 ==> Carried(old(mem), p, mem, q, old(InHand()[p - HDR]))
      ensures AllKept(old(mem), mem, old(InHand()) - {p - HDR})
    {
      hide HeapOk, Live, FreeBytes, InUse, AllKept, Kept, FirstFitting, Carried, Copy, NoFit, Wanted;
      ghost var m0, l0 := mem, InHand();
      ghost var i := LiveIndex(start, pool, mem, view, p - HDR);
      FittingFresh(size);
      var oldSize := Size(mem, p - HDR);
      q := Alloc(size);
      if q != 0 {
        ghost var m1 := mem;
        mem := mem.(bytes := Copy(mem.bytes, q, p, oldSize));
        SameHeap(start, pool, m1, mem, view);
        MoveCopies(start, pool, m0, l0, m1, mem, view, p, q);
        ghost var m2 := mem;
        Free(p);
        MoveKeeps(m0, l0, m2, mem, p, q, oldSize);
      } else {
        FewerKept(m0, mem, l0, p - HDR);
      }
    }

    lemma FittingFresh(size: int)
      requires Valid()
      ensures forall h :: FirstFitting(h, size) ==> h !in InHand() && h in mem.links.next && Size(mem, h) >= size
    {
      FreeKnown();
    }

    /** rt_memheap_realloc on a live block and a request rounded up to `size`. */
    method Resize(p: Addr, size: nat) returns (q: Addr)
      requires Valid() && p >= HDR && p - HDR in InHand() && Wanted(size) == size
      modifies `mem, `available, `maxUsed, `view
      ensures Valid() <==> !old(Misled(p - HDR, size))
      ensures old(Misled(p - HDR, size)) ==> Lost() && q == p
      ensures Valid() ==> Resized(old(mem), old(InHand()), p, size, q)
      ensures Valid() ==> maxUsed >= old(maxUsed)
      ensures Valid() ==> (q == 0 <==> !old(InPlace(p - HDR, size)) && (old(available) <= size || old(NoFit(size))))
      ensures Valid() && q == 0 ==> mem == old(mem) && available == old(available) && view == old(view)
      ensures q != 0 && old(InPlace(p - HDR, size)) ==> q == p
      ensures Valid() && q != 0 ==>
        Sized(old(Payload(p)), size, old(Grows(p - HDR, size)), old(RoomAt(q)), Payload(q))
      ensures Valid() && q != 0 && !old(InPlace(p - HDR, size)) ==> old(FirstFitting(q - HDR, size))
    {
      hide HeapOk, Live, FreeBytes, InUse, AllKept, Kept, FirstFitting, Carried, NoFit, Wanted, Lost;
      ghost var m0, l0 := mem, InHand();
      var h := p - HDR;
      ghost var i := LiveIndex(start, pool, mem, view, h);
      NextKnown(start, pool, mem, view, i);
      BelowWord(i);
      WantedShape(size);
      WantedTwice(size);
      var oldSize := Size(mem, h);
      if size > oldSize {
        var next := mem.links.next[h];
        if !InUse(mem.used, next) && GrowGuard(size, Size(mem, next) + oldSize) {
          q := p;
          if size + MINI < WORD {
            Grow(h, size);
            ResizeKeeps(m0, l0, mem, h, oldSize);
          } else {
            GrowWrapped(h, size);
            LostInvalid();
          }
        } else {
          q := Move(p, size);
        }
      } else if size + HDR + MINI >= oldSize {
        q := p;
        ResizeKeeps(m0, l0, mem, h, size);
      } else {
        q := p;
        Shrink(h, size);
        StayKeeps(m0, l0, mem, h, size);
      }
    }

    /** What a resize leaves: the block at `p` is now the one at `q`, with its bytes; no other changed. */
    ghost predicate Resized(m0: Memory, l0: map<Addr, int>, p: Addr, size: nat, q: Addr)
      requires p >= HDR && p - HDR in l0
      reads this
    {
      && (q != 0 ==> q >= HDR && q - HDR in InHand() && InHand()[q - HDR] >= size)
      && (q != 0 ==> InHand() - {q - HDR} == l0 - {p - HDR})
      && (q != 0 ==> Carried(m0, p, mem, q, Least(l0[p - HDR], size)))
      && AllKept(m0, mem, l0 - {p - HDR})
    }

    /** rt_memheap_realloc, for any request. The heap is lost exactly if the wrapped guard takes the
        unused block after the old one for big enough; otherwise the block ends up large enough and
        with its bytes, or nothing changes. */
    method Realloc(p: Addr, newSize: nat) returns (q: Addr)
      requires Valid() && (p == 0 || (p >= HDR && p - HDR in InHand()))
      modifies `mem, `available, `maxUsed, `view
      ensures Valid() <==> !(p != 0 && newSize > 0 && old(Misled(p - HDR, Wanted(newSize))))
      ensures !Valid() ==> Lost() && q == p
      ensures Valid() ==> maxUsed >= old(maxUsed)
      ensures newSize == 0 ==> q == 0 && InHand() == old(InHand()) - {p - HDR} && mem.bytes == old(mem.bytes)
      ensures newSize > 0 && p == 0 ==>
        (q == 0 <==> old(available) <= Wanted(newSize) || old(NoFit(Wanted(newSize))))
      ensures newSize > 0 && p == 0 && q != 0 ==>
        q >= HDR && q - HDR in InHand() && InHand()[q - HDR] >= Wanted(newSize) && InHand() - {q - HDR} == old(InHand())
      ensures newSize > 0 && p == 0 && q != 0 ==>
        Payload(q) == if old(RoomAt(q)) >= Wanted(newSize) + 24 + 12 then Wanted(newSize) else old(RoomAt(q))
      ensures p == 0 || newSize == 0 ==> AllKept(old(mem), mem, old(InHand()) - {p - HDR})
      ensures Valid() && newSize > 0 && p != 0 ==> Resized(old(mem), old(InHand()), p, Wanted(newSize), q)
      ensures Valid() && newSize > 0 && p != 0 ==>
        (q == 0 <==> !old(InPlace(p - HDR, Wanted(newSize)))
                     && (old(available) <= Wanted(newSize) || old(NoFit(Wanted(newSize)))))
      ensures Valid() && newSize > 0 && q == 0 ==> mem == old(mem) && available == old(available) && view == old(view)
      ensures newSize > 0 && q != 0 && p != 0 && old(InPlace(p - HDR, Wanted(newSize))) ==> q == p
      ensures Valid() && newSize > 0 && p != 0 && q != 0 ==>
        Sized(old(Payload(p)), Wanted(newSize), old(Grows(p - HDR, Wanted(newSize))), old(RoomAt(q)), Payload(q))
      ensures Valid() && newSize > 0 && p != 0 && q != 0 && !old(InPlace(p - HDR, Wanted(newSize))) ==>
          old(FirstFitting(q - HDR, Wanted(newSize)))
    {
      hide HeapOk, Live, FreeBytes, InUse, AllKept, Kept, FirstFitting, Carried, NoFit, Wanted, InPlace, Misled, Lost,
           Resized;
      ghost var m0, l0 := mem, InHand();
      if newSize == 0 {
        Free(p);
        q := 0;
        SameBytes(m0, mem, l0, p - HDR);
      } else {
        var size := Wanted(newSize);
        WantedTwice(newSize);
        FittingFresh(size);
        LivePositive(start, pool, mem, view);
        if p == 0 {
          q := Alloc(size);
          FewerKept(m0, mem, l0, p - HDR);
        } else {
          q := Resize(p, size);
        }
      }
    }

    /** The owner of a live block stores a byte in it. */
    method Store(p: Addr, k: nat, x: int)
      requires Valid() && p >= HDR && p - HDR in InHand() && k < InHand()[p - HDR]
      modifies `mem
      ensures Valid() && InHand() == old(InHand())
      ensures p + k in mem.bytes && mem.bytes[p + k] == x
      ensures AllKept(old(mem), mem, InHand() - {p - HDR})
    {
      hide HeapOk, Live, FreeBytes;
      ghost var m0 := mem;
      mem := mem.(bytes := mem.bytes[p + k := x]);
      SameHeap(start, pool, m0, mem, view);
      forall a | a in InHand() && a != p - HDR ensures Kept(m0, mem, a, InHand()[a]) {
        LiveDisjoint(start, pool, mem, view, a, p - HDR);
      }
    }

    ghost predicate NoFit(size: int)
      reads this
    {
      forall k :: 0 <= k < |view.free| ==> view.free[k] in mem.links.next && Size(mem, view.free[k]) < size
    }

    /** `h` comes first on the free list among the blocks with `size` bytes of room. */
    ghost predicate FirstFitting(h: Addr, size: int)
      reads this
    {
      && h in mem.links.next && Size(mem, h) >= size
      && exists j :: 0 <= j < |view.free| && view.free[j] == h &&
           forall k :: 0 <= k < j ==> view.free[k] in mem.links.next && Size(mem, view.free[k]) < size
    }
  }

  /** `h` has left the free list and `first` has come in front. */
  ghost predicate TakenOut(f: seq<Addr>, h: Addr, first: seq<Addr>, g: seq<Addr>) {
    exists j :: 0 <= j < |f| && f[j] == h && g == first + (f[..j] + f[j + 1..])
  }

  /** The free list behind a free of `h`: the unused block after it has left the list, and the block
      itself has come in front unless it belongs to the unused block before it. */
  ghost predicate GivenBack(m: Memory, f: seq<Addr>, h: Addr, g: seq<Addr>) {
    && h in m.links.next && h in m.links.prev
    && exists rest: seq<Addr> :: NextOff(m, f, m.links.next[h], rest)
         && g == if InUse(m.used, m.links.prev[h]) then [h] + rest else rest
  }

  ghost predicate NextOff(m: Memory, f: seq<Addr>, next: Addr, g: seq<Addr>) {
    if InUse(m.used, next) then g == f else TakenOut(f, next, [], g)
  }

  lemma Neighbours(start: Addr, pool: nat, m: Memory, v: View, i: nat)
    requires HeapOk(start, pool, m, v) && i + 1 < |v.blocks|
    ensures v.blocks[i] in m.links.next && m.links.next[v.blocks[i]] == v.blocks[i + 1] != v.blocks[i]
    ensures v.blocks[i] in m.links.prev && m.links.prev[v.blocks[i]] != v.blocks[i]
  {
    hide Separate, FreeBytes;
    TiledDistinct(start, pool, v.blocks);
    SizeAt(start, pool, m, v, i);
  }

  lemma ReleaseOthers(m: Memory, h: Addr)
    ensures forall a :: a != h ==> (InUse(Release(m, h).used, a) <==> InUse(m.used, a))
  {
  }

  lemma TakenAt(f: seq<Addr>, j: nat)
    requires j < |f|
    ensures forall first: seq<Addr> :: TakenOut(f, f[j], first, first + Less(f, j))
    ensures TakenOut(f, f[j], [], Less(f, j))
  {
    assert [] + Less(f, j) == Less(f, j);
  }

  /** The payload behind a resize from `n` to `size` bytes: a block that is large enough is cut if a
      block can be made of the rest, one that can grow ends at the size, and one that moves gets what
      an allocation takes from the `room` bytes it finds. */
  ghost predicate Sized(n: int, size: int, grows: bool, room: int, got: int) {
    got == if size <= n then if size + 24 + 12 < n then size else n
           else if grows then size
           else if room >= size + 24 + 12 then size else room
  }

  /** A run that loses the heap: after the first allocation from a fresh heap of at least 96 bytes,
      a resize to 2^32 - 12 bytes is answered with the old pointer. */
  method LoseHeap(start: Addr, size: nat) returns (heap: MemHeap, p: Addr, q: Addr)
    requires start >= 4 && start % 4 == 0 && size >= 4 * HDR && start + size <= WORD
    ensures p == q == start + HDR && heap.Lost() && !heap.Valid()
  {
    hide HeapOk, Live, FreeBytes, InUse, MemHeap.Lost, Less;
    heap := new MemHeap(start, size);
    AllFree(heap.start, heap.pool, heap.mem, heap.view);
    FreshSize(heap.start, heap.pool, heap.mem, heap.view);
    assert heap.view.free[0] == start;
    p := heap.Alloc(MINI);
    assert heap.InHand() == map[start := MINI];
    OneLive(heap.start, heap.pool, heap.mem, heap.view);
    q := heap.Realloc(p, WORD - MINI);
  }

  lemma FreshSize(start: Addr, pool: nat, m: Memory, v: View)
    requires HeapOk(start, pool, m, v) && v.blocks == [start, start + pool - HDR]
    ensures start in m.links.next && Size(m, start) == pool - 2 * HDR
  {
    SizeAt(start, pool, m, v, 0);
  }

  /** With only the first block handed out, and it small, an unused block follows. */
  lemma OneLive(start: Addr, pool: nat, m: Memory, v: View)
    requires HeapOk(start, pool, m, v) && Live(m, v) == map[start := MINI] && MINI < pool - 2 * HDR
    ensures start in m.links.next && m.links.next[start] in m.links.next && !InUse(m.used, m.links.next[start])
    ensures Size(m, start) == MINI && Size(m, m.links.next[start]) >= 0
  {
    hide HeapOk, Live, InUse;
    var b := v.blocks;
    var i := LiveIndex(start, pool, m, v, start);
    NextKnown(start, pool, m, v, i);
    Ends(start, pool, m, v, i, i + 1);
    if i + 2 < |b| && InUse(m.used, b[i + 1]) {
      UsedLive(start, pool, m, v, i + 1);
    }
  }

  /** What cutting a block in use at `at` leaves. */
  lemma CutFacts(start: Addr, pool: nat, m: Memory, v: View, i: nat, at: Addr)
    requires HeapOk(start, pool, m, v) && i + 1 < |v.blocks| && InUse(m.used, v.blocks[i]) && at % 4 == 0
    requires v.blocks[i] + HDR <= at && at + HDR <= v.blocks[i + 1]
    ensures v.blocks[i] in m.links.next && Spared(v.blocks[i], at)
    ensures var r, b := Split(m, v.blocks[i], at), Inserted(v.blocks, i + 1, at);
      && Open(start, pool, r, View(b, v.free), at, i + 1)
      && |b| == |v.blocks| + 1 && b[i] == v.blocks[i] && b[i + 1] == at && b[i + 2] == v.blocks[i + 1]
      && InUse(r.used, v.blocks[i]) && (InUse(r.used, b[i + 2]) <==> InUse(m.used, v.blocks[i + 1]))
      && FreeBytes(r.used, b) == FreeBytes(m.used, v.blocks) + b[i + 2] - at - HDR
      && Live(r, View(b, v.free)) == Live(m, v)[v.blocks[i] := at - v.blocks[i] - HDR]
      && AllKept(m, r, Live(m, v) - {v.blocks[i]}) && Kept(m, r, v.blocks[i], at - v.blocks[i] - HDR)
  {
    hide *;
    SplitParts(start, pool, m, v);
    SplitOpen(start, pool, m, v, i, at);
    SplitBytes(start, pool, m, v, i, at);
    LiveSplit(start, pool, m, v, i, at);
    SplitKeeps(start, pool, m, v, i, at);
    SplitUsed(m, v.blocks[i], at);
    InsertedAt(v.blocks, i + 1, at, Inserted(v.blocks, i + 1, at));
  }

  lemma WantedShape(size: nat)
    requires Wanted(size) == size
    ensures size % 4 == 0 && size > 0
  {
  }

  lemma WantedTwice(size: nat)
    ensures Wanted(Wanted(size)) == Wanted(size) <= WORD - 4
  {
  }

  /** The `n` bytes at `p` before are the `n` bytes at `q` after. */
  ghost predicate Carried(m: Memory, p: Addr, m2: Memory, q: Addr, n: int) {
    forall k: nat :: k < n ==> SameByte(m, p, m2, q, k)
  }

  predicate SameByte(m: Memory, p: Addr, m2: Memory, q: Addr, k: nat) {
    (p + k in m.bytes <==> q + k in m2.bytes) && (p + k in m.bytes ==> m.bytes[p + k] == m2.bytes[q + k])
  }

  lemma SameHeap(start: Addr, pool: nat, m: Memory, m2: Memory, v: View)
    requires m2 == m.(bytes := m2.bytes)
    ensures HeapOk(start, pool, m2, v) == HeapOk(start, pool, m, v) && Live(m2, v) == Live(m, v)
  {
  }

  lemma LiveDisjoint(start: Addr, pool: nat, m: Memory, v: View, a: Addr, b: Addr)
    requires HeapOk(start, pool, m, v) && a in Live(m, v) && b in Live(m, v) && a != b
    ensures a + HDR + Live(m, v)[a] <= b || b + HDR + Live(m, v)[b] <= a
  {
    hide HeapOk, Live;
    if a < b {
      LiveApart(start, pool, m, v, a, b);
    } else {
      LiveApart(start, pool, m, v, b, a);
    }
  }

  lemma MoveCopies(start: Addr, pool: nat, m0: Memory, l0: map<Addr, int>, m1: Memory, m2: Memory, v: View, p: Addr,
                   q: Addr)
    requires HeapOk(start, pool, m1, v) && p >= HDR && q >= HDR && p - HDR in l0 && q - HDR !in l0 && l0[p - HDR] >= 0
    requires q - HDR in Live(m1, v) && Live(m1, v) == l0[q - HDR := Live(m1, v)[q - HDR]]
    requires Live(m1, v)[q - HDR] >= l0[p - HDR] && AllKept(m0, m1, l0)
    requires m2 == m1.(bytes := Copy(m1.bytes, q, p, l0[p - HDR]))
    ensures Carried(m0, p, m2, q, l0[p - HDR])
    ensures AllKept(m0, m2, l0)
  {
    hide HeapOk, Live, Kept, Copy;
    var n := l0[p - HDR];
    var l1 := Live(m1, v);
    LiveDisjoint(start, pool, m1, v, p - HDR, q - HDR);
    assert Kept(m0, m1, p - HDR, n);
    CarriedCopy(m0, m1, m2, p, q, n);
    forall a | a in l0 ensures Kept(m0, m2, a, l0[a]) {
      assert Kept(m0, m1, a, l0[a]) && a in l1 && l1[a] == l0[a];
      LiveDisjoint(start, pool, m1, v, a, q - HDR);
      KeptCopy(m0, m1, m2, p, q, n, a, l0[a]);
    }
  }

  lemma CarriedCopy(m0: Memory, m1: Memory, m2: Memory, p: Addr, q: Addr, n: nat)
    requires p >= HDR && Kept(m0, m1, p - HDR, n) && m2.bytes == Copy(m1.bytes, q, p, n)
    requires q + n <= p || p + n <= q
    ensures Carried(m0, p, m2, q, n)
  {
    hide Copy;
    forall k: nat | k < n ensures SameByte(m0, p, m2, q, k) {
      CopyAt(m1.bytes, q, p, n, q + k);
    }
  }

  lemma KeptCopy(m0: Memory, m1: Memory, m2: Memory, p: Addr, q: Addr, n: nat, a: Addr, len: int)
    requires Kept(m0, m1, a, len) && m2.bytes == Copy(m1.bytes, q, p, n)
    requires q + n <= p || p + n <= q
    requires a + HDR + len <= q || q + n <= a + HDR
    ensures Kept(m0, m2, a, len)
  {
    hide Copy;
    forall x: Addr | a + HDR <= x < a + HDR + len
      ensures (x in m0.bytes <==> x in m2.bytes) && (x in m0.bytes ==> m0.bytes[x] == m2.bytes[x])
    {
      CopyAt(m1.bytes, q, p, n, x);
    }
  }

  lemma MoveKeeps(m0: Memory, l0: map<Addr, int>, m2: Memory, m3: Memory, p: Addr, q: Addr, n: int)
    requires m3.bytes == m2.bytes && p >= HDR
    requires Carried(m0, p, m2, q, n) && AllKept(m0, m2, l0)
    ensures Carried(m0, p, m3, q, n) && AllKept(m0, m3, l0 - {p - HDR})
  {
    forall k: nat | k < n ensures SameByte(m0, p, m3, q, k) {
      assert SameByte(m0, p, m2, q, k);
    }
    BytesKept(m0, m2, m3, l0);
  }

  lemma GrowKeeps(m0: Memory, m1: Memory, m2: Memory, l0: map<Addr, int>, l1: map<Addr, int>, h: Addr, size: int)
    requires h in l0 && l0[h] <= size && m1.bytes == m0.bytes
    requires h in l1 && l1 == l0[h := l1[h]]
    requires AllKept(m1, m2, l1 - {h}) && Kept(m1, m2, h, size)
    ensures AllKept(m0, m2, l0)
  {
    forall a | a in l0 ensures Kept(m0, m2, a, l0[a]) {
      if a != h {
        assert Kept(m1, m2, a, (l1 - {h})[a]);
      }
    }
  }

  /** The block keeps its place and its first `n` bytes. */
  lemma StayKeeps(m0: Memory, l0: map<Addr, int>, m: Memory, h: Addr, n: int)
    requires Kept(m0, m, h, n) && n >= 0
    ensures Carried(m0, h + HDR, m, h + HDR, n)
  {
    var p := h + HDR;
    forall k: nat | k < n ensures SameByte(m0, p, m, p, k) {
      var x := p + k;
      assert x in m0.bytes <==> x in m.bytes;
    }
  }

  lemma ResizeKeeps(m0: Memory, l0: map<Addr, int>, m: Memory, h: Addr, n: int)
    requires h in l0 && 0 <= n <= l0[h] && (AllKept(m0, m, l0) || m == m0)
    ensures AllKept(m0, m, l0 - {h}) && Carried(m0, h + HDR, m, h + HDR, n)
  {
    forall a | a in l0 ensures Kept(m0, m, a, l0[a]) {
    }
    assert Kept(m0, m, h, l0[h]);
    StayKeeps(m0, l0, m, h, n);
  }

  lemma BytesKept(m0: Memory, m: Memory, m2: Memory, live: map<Addr, int>)
    requires m2.bytes == m.bytes && AllKept(m0, m, live)
    ensures AllKept(m0, m2, live)
  {
    forall a | a in live ensures Kept(m0, m2, a, live[a]) {
      assert Kept(m0, m, a, live[a]);
    }
  }

  lemma OneKept(m0: Memory, m: Memory, m2: Memory, a: Addr, n: int)
    requires m2.bytes == m.bytes && Kept(m0, m, a, n)
    ensures Kept(m0, m2, a, n)
  {
  }

  lemma SameBytes(m0: Memory, m: Memory, l0: map<Addr, int>, h: int)
    requires m.bytes == m0.bytes
    ensures AllKept(m0, m, l0 - {h})
  {
  }

  lemma FewerKept(m0: Memory, m: Memory, l0: map<Addr, int>, h: int)
    requires AllKept(m0, m, l0)
    ensures AllKept(m0, m, l0 - {h})
  {
  }

  /** The unused block after a block in use is on the free list. */
  lemma FreeAfter(start: Addr, pool: nat, m: Memory, v: View, i: nat) returns (j: nat)
    requires HeapOk(start, pool, m, v) && i + 1 < |v.blocks| && !InUse(m.used, v.blocks[i + 1])
    ensures j < |v.free| && v.free[j] == v.blocks[i + 1]
  {
    TiledDistinct(start, pool, v.blocks);
    assert v.blocks[i + 1] in v.blocks;
    j :| 0 <= j < |v.free| && v.free[j] == v.blocks[i + 1];
  }

  lemma NextKnown(start: Addr, pool: nat, m: Memory, v: View, i: nat)
    requires HeapOk(start, pool, m, v) && i + 1 < |v.blocks|
    ensures v.blocks[i + 1] in m.links.next
    ensures i + 2 < |v.blocks| ==> 0 <= Size(m, v.blocks[i + 1]) == v.blocks[i + 2] - v.blocks[i + 1] - HDR
    ensures i + 2 == |v.blocks| ==> InUse(m.used, v.blocks[i + 1])
  {
    hide Ring;
    if i + 2 < |v.blocks| {
      SizeAt(start, pool, m, v, i + 1);
    } else {
      TailLinked(m.links, v.blocks);
    }
  }

  lemma TailLinked(l: Links, b: seq<Addr>)
    requires Ring(l, b)
    ensures b[|b| - 1] in l.next
  {
  }

  /** An open block lies before the next one. */
  lemma OpenRoom(start: Addr, pool: nat, m: Memory, v: View, x: Addr, k: nat)
    requires Open(start, pool, m, v, x, k)
    ensures v.blocks[k] + HDR <= v.blocks[k + 1]
  {
  }

  lemma MergeLeftRest(m: Memory, h: Addr)
    requires h in m.links.next && h in m.links.prev
    ensures MergeLeft(m, h).used == m.used && MergeLeft(m, h).bytes == m.bytes
  {
  }

  lemma MergeRightRest(m: Memory, h: Addr)
    requires h in m.links.next && h in m.links.prev && h in m.free.next && h in m.free.prev
    ensures MergeRight(m, h).used == m.used && MergeRight(m, h).bytes == m.bytes
  {
  }

  lemma ReleaseRest(m: Memory, h: Addr)
    ensures Release(m, h).bytes == m.bytes && Release(m, h).links == m.links
  {
  }

  /** The unused block after an open block is on the free list. */
  lemma FreeIndex(start: Addr, pool: nat, m: Memory, v: View, x: Addr, k: nat) returns (j: nat)
    requires Open(start, pool, m, v, x, k) && !InUse(m.used, v.blocks[k + 1])
    ensures j < |v.free| && v.free[j] == v.blocks[k + 1]
  {
    OpenParts(start, pool, m, v, x, k);
    assert v.blocks[k + 1] in v.blocks;
    j :| 0 <= j < |v.free| && v.free[j] == v.blocks[k + 1];
  }

  lemma LivePositive(start: Addr, pool: nat, m: Memory, v: View)
    requires HeapOk(start, pool, m, v)
    ensures forall a :: a in Live(m, v) ==> a >= start
  {
    TiledDistinct(start, pool, v.blocks);
  }

  lemma TiledAt(start: Addr, pool: nat, m: Memory, v: View, i: nat)
    requires HeapOk(start, pool, m, v) && i + 1 < |v.blocks|
    ensures v.blocks[i] % 4 == 0 && v.blocks[i + 1] % 4 == 0 && v.blocks[i] + HDR <= v.blocks[i + 1]
  {
  }
}

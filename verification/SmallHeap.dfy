/** The small heap of mem.c, changed in place: rt_system_heap_init, rt_malloc, rt_realloc, rt_free. */
module SmallHeap {
  import opened RtList
  import opened FreeBlocks
  import opened SmallHeapBlocks
  import opened SmallHeapBytes

  /** The payload rt_malloc looks for, or None when it gives up at once. */
  predicate Refused(request: nat, size: nat) { request == 0 || Align(request) > size }
  function Wanted(request: nat): nat { if Align(request) < MINI then MINI else Align(request) }

  /** A request is rounded up, unless it lies within three bytes of 2^32: then the rounding wraps
      and a block of the minimum size is taken for it. */
  lemma WantedEnough(request: nat, size: nat)
    requires request < WORD && !Refused(request, size)
    ensures Wanted(request) >= request <==> request <= WORD - 4
    ensures request > WORD - 4 ==> Wanted(request) == MINI
  {
  }

  class SmallHeap {
    const base: Addr          // heap_ptr
    const size: nat           // mem_size_aligned
    var m: Headers
    var lfree: Addr
    var usedMem: int
    var maxMem: int
    var payload: Bytes        // payload bytes, by offset
    ghost var blocks: seq<Addr>

    /** The bookkeeping that holds even while a freed block still has unused neighbours. */
    ghost predicate Books()
      reads this
    {
      && base > 0 && base + size + 2 * HDR <= WORD && size >= MINI
      && Candidate(m.used, blocks, lfree) && usedMem == UsedBytes(m.used, blocks) && usedMem <= maxMem
    }

    ghost predicate Valid()
      reads this
    {
      Books() && HeapOk(size, m, blocks)
    }

    /** In runs of malloc and free: `lfree` is the lowest unused block, or heap_end. */
    ghost predicate LowestFree()
      reads this
    {
      Below(m.used, blocks, lfree)
    }

    /** Block `k` has just become unused. */
    ghost predicate Holed(k: nat)
      reads this
    {
      && Books() && Fit(size, m, blocks)
      && k + 1 < |blocks| && Separate(m.used, blocks, blocks[k]) && !InUse(m.used, blocks[k])
    }

    /** rt_system_heap_init on the aligned range of `payload` bytes at `base`. */
    constructor (base: Addr, bytes: nat)
      requires base > 0 && base % 4 == 0 && bytes % 4 == 0 && bytes >= 2 * HDR + MINI && base + bytes <= WORD
      ensures Valid() && LowestFree() && blocks == [0, bytes - HDR] && usedMem == 0 && !InUse(m.used, 0)
      ensures this.base == base && size == bytes - 2 * HDR
    {
      this.base := base;
      size := bytes - 2 * HDR;
      var end := bytes - HDR;
      m := Headers(map[0 := end, end := end], map[0 := 0, end := end], map[0 := false, end := true]);
      lfree := 0;
      usedMem, maxMem := 0, 0;
      payload := map[];
      blocks := [0, end];
    }

    // plug_holes

    lemma LinksAt(k: nat)
      requires Fit(size, m, blocks) && k < |blocks|
      ensures JoinedAt(m, blocks, k) && (k + 1 < |blocks| ==> JoinedAt(m, blocks, k + 1))
      ensures (k > 0 ==> JoinedAt(m, blocks, k - 1))
      ensures |blocks| >= 2 && blocks[0] == 0 && blocks[|blocks| - 1] == size + HDR && InUse(m.used, size + HDR)
      ensures forall i, j :: 0 <= i < j < |blocks| ==> blocks[i] != blocks[j]
    {
      LinkedAt(m, blocks, k);
      LinkedAt(m, blocks, |blocks| - 1);
      TiledDistinct(size, blocks);
    }

    /** Joining the unused block behind. */
    method PlugForward(h: Addr, ghost k: nat)
      requires Holed(k) && blocks[k] == h
      modifies `m, `lfree, `blocks
      ensures Holed(k) && blocks[k] == h && m.used == old(m.used) && InUse(m.used, blocks[k + 1])
      ensures blocks == if k + 2 < |old(blocks)| &&
          !InUse(m.used, old(blocks)[k + 1]) then Less(old(blocks), k + 1) else old(blocks)
      ensures lfree == if k + 2 < |old(blocks)| && !InUse(m.used, old(blocks)[k + 1]) &&
          old(lfree) == old(blocks)[k + 1]
                       then h else old(lfree)
      ensures old(LowestFree()) ==> LowestFree()
    {
      hide Linked, Tiled, Candidate, Below, UsedBytes, InUse;
      LinksAt(k);
      var n := m.next[h];
      if !InUse(m.used, n) && n != size + HDR {
        JoinLowest(size, m.used, blocks, k + 1, lfree);
        LowestIs(m.used, blocks, lfree);
        JoinOk(size, m, blocks, k + 1);
        JoinBytes(m.used, blocks, k + 1);
        SeparateLess(m.used, blocks, k + 1, blocks[k]);
        LessShape(blocks, k + 1);
        Neighbour(m.used, blocks, blocks[k], k + 1, k + 2);
        if lfree == n {
          lfree := h;
        }
        m := Join(m, h, n);
        blocks := Less(blocks, k + 1);
        LowestIs(m.used, blocks, lfree);
      }
    }

    /** Joining the block to an unused block before it. */
    method PlugBackward(h: Addr, ghost k: nat)
      requires Holed(k) && blocks[k] == h && InUse(m.used, blocks[k + 1])
      modifies `m, `lfree, `blocks
      ensures Valid() && m.used == old(m.used)
      ensures blocks == if k > 0 && !InUse(m.used, old(blocks)[k - 1]) then Less(old(blocks), k) else old(blocks)
      ensures k > 0 && InUse(m.used, old(blocks)[k - 1]) ==> lfree == old(lfree)
      ensures old(LowestFree()) ==> LowestFree()
    {
      hide Linked, Tiled, Candidate, Below, UsedBytes, InUse;
      LinksAt(k);
      var p := m.prev[h];
      if p != h && !InUse(m.used, p) {
        JoinLowest(size, m.used, blocks, k, lfree);
        LowestIs(m.used, blocks, lfree);
        JoinOk(size, m, blocks, k);
        JoinBytes(m.used, blocks, k);
        SeparateLess(m.used, blocks, k, blocks[k]);
        LessShape(blocks, k);
        if k > 1 {
          Neighbour(m.used, blocks, blocks[k], k - 1, k - 2);
        }
        if lfree == h {
          lfree := p;
        }
        m := Join(m, p, h);
        LessBefore(blocks, k);
        blocks := Less(blocks, k);
        LowestIs(m.used, blocks, lfree);
        TiledDistinct(size, blocks);
        SeparateDone(m.used, blocks, k - 1);
      } else {
        SeparateDone(m.used, blocks, k);
      }
    }

    lemma LowestIs(u: map<Addr, bool>, b: seq<Addr>, l: Addr)
      ensures Lowest(u, b, l) <==> Candidate(u, b, l) && Below(u, b, l)
    {
    }

    /** plug_holes. */
    method PlugHoles(h: Addr, ghost k: nat)
      requires Holed(k) && blocks[k] == h
      modifies `m, `lfree, `blocks
      ensures Valid() && m.used == old(m.used) && blocks == Freed(m.used, old(blocks), k)
      ensures k > 0 && InUse(m.used, old(blocks)[k - 1]) ==>
        lfree == if k + 2 < |old(blocks)| && !InUse(m.used, old(blocks)[k + 1]) && old(lfree) == old(blocks)[k + 1]
                 then h else old(lfree)
      ensures old(LowestFree()) ==> LowestFree()
    {
      hide Linked, Tiled, Candidate, Below, UsedBytes, InUse, Separate, Less;
      ghost var b := blocks;
      PlugForward(h, k);
      if k + 2 < |b| {
        LessPrefix(b, k);
      }
      PlugBackward(h, k);
    }

    // rt_malloc

    /** No block from `from` on satisfies the search loop. */
    ghost predicate NoneSuits(want: int, from: Addr)
      reads this
    {
      forall k :: 0 <= k < |blocks| - 1 && blocks[k] >= from ==> !Suits(m.used, blocks, k, want, size)
    }

    ghost predicate FirstSuits(k: nat, want: int, from: Addr)
      reads this
    {
      && k + 1 < |blocks| && blocks[k] >= from && Suits(m.used, blocks, k, want, size)
      && forall j :: 0 <= j < k && blocks[j] >= from ==> !Suits(m.used, blocks, j, want, size)
    }

    lemma SomeSuits(k: nat, want: int)
      requires k + 1 < |blocks| && !InUse(m.used, blocks[k]) && blocks[k + 1] - blocks[k] - HDR >= want
      requires blocks[k] < size - want
      ensures !NoneSuits(want, 0)
      ensures forall j: nat :: FirstSuits(j, want, 0) ==> j + 1 < |blocks| && Suits(m.used, blocks, j, want, size)
    {
      assert Suits(m.used, blocks, k, want, size);
    }

    lemma PointsTo()
      requires Valid()
      ensures blocks != [] && lfree in blocks && (lfree == blocks[|blocks| - 1] || !InUse(m.used, lfree))
    {
    }

    /** With the lowest-free pointer exact, the search overlooks nothing below it. */
    lemma SearchesAll(want: int)
      requires Valid()
      ensures LowestFree() ==> (NoneSuits(want, lfree) <==> NoneSuits(want, 0))
      ensures forall k :: LowestFree() && FirstSuits(k, want, lfree) ==> FirstSuits(k, want, 0)
    {
    }

    /** The search loop. */
    method Search(want: nat) returns (h: Addr, found: bool, ghost k: nat)
      requires Valid() && MINI <= want <= size
      ensures found ==> FirstSuits(k, want, lfree) && blocks[k] == h && h in m.next
      ensures !found ==> NoneSuits(want, lfree)
    {
      hide Linked, UsedBytes, Separate, Below, InUse, Suits, Tiled, FirstSuits, NoneSuits;
      k := Indexed(size, blocks, lfree);
      ghost var first := k;
      h := lfree;
      found := false;
      TiledEnd(size, blocks);
      LinksAt(k);
      while h < size - want
        invariant k < |blocks| && blocks[k] == h && first <= k
        invariant forall j :: first <= j < k && j + 1 < |blocks| ==> !Suits(m.used, blocks, j, want, size)
        decreases size + HDR - h
      {
        LinksAt(k);
        if k + 1 < |blocks| {
          SuitsIs(m.used, blocks, k, want, size);
        }
        if !InUse(m.used, h) && m.next[h] - (h + HDR) >= want {
          found := true;
          FirstFound(first, k, want);
          return;
        }
        NextHigher(size, blocks, k);
        h := m.next[h];
        k := k + 1;
      }
      NoneFound(first, k, want);
    }

    lemma FirstFound(first: nat, k: nat, want: nat)
      requires Tiled(size, blocks) && first <= k && k + 1 < |blocks| && blocks[first] == lfree
      requires Suits(m.used, blocks, k, want, size)
      requires forall j :: first <= j < k && j + 1 < |blocks| ==> !Suits(m.used, blocks, j, want, size)
      ensures FirstSuits(k, want, lfree)
    {
      hide Suits;
    }

    lemma NoneFound(first: nat, k: nat, want: nat)
      requires Tiled(size, blocks) && first <= k < |blocks| && blocks[first] == lfree && blocks[k] >= size - want
      requires forall j :: first <= j < k && j + 1 < |blocks| ==> !Suits(m.used, blocks, j, want, size)
      ensures NoneSuits(want, lfree)
    {
      hide InUse;
    }

    /** The loop that moves the lowest-free pointer on. */
    method Advance()
      requires Fit(size, m, blocks) && lfree in blocks
      modifies `lfree
      ensures Candidate(m.used, blocks, lfree)
      ensures Below(m.used, blocks, old(lfree)) ==> LowestFree()
    {
      hide Linked, Tiled, UsedBytes, Below, InUse;
      ghost var k := Indexed(size, blocks, lfree);
      LinksAt(k);
      while InUse(m.used, lfree) && lfree != size + HDR
        invariant k < |blocks| && blocks[k] == lfree
        invariant Below(m.used, blocks, old(lfree)) ==> Below(m.used, blocks, lfree)
        decreases |blocks| - k
      {
        LinksAt(k);
        BelowNext(size, m.used, blocks, k);
        lfree := m.next[lfree];
        k := k + 1;
      }
    }

    /** What rt_malloc does with the block it has found. */
    method Occupy(h: Addr, want: nat, ghost k: nat)
      requires Valid() && FirstSuits(k, want, lfree) && blocks[k] == h && h in m.next && want % 4 == 0 && want >= MINI
      modifies `m, `payload, `lfree, `usedMem, `maxMem, `blocks
      ensures Valid() && maxMem == Higher(old(maxMem), usedMem) && (old(LowestFree()) ==> LowestFree())
      ensures blocks == Cut(old(blocks), k, want)
      ensures Remarked(old(m.used), old(blocks), m.used, blocks, h, true)
      ensures OthersKept(old(m.used), old(blocks), NOWHERE, old(payload), payload)
    {
      hide Tiled, Linked, UsedBytes, InUse, Separate, Below, Split, Remarked, Cut, Take, Candidate, OthersKept,
           Carried, Kept, Wiped;
      SuitsIs(m.used, blocks, k, want, size);
      TakenOk(size, m, blocks, k, want, lfree);
      ghost var b := blocks;
      if m.next[h] - (h + HDR) >= want + HDR + MINI {
        WipeKeeps(size, m.used, blocks, k, h + HDR + want, payload);
        UnusedKeeps(m.used, blocks, h, payload, Wiped(payload, h + HDR + want));
        payload := Wiped(payload, h + HDR + want);
        m := Split(m, h, h + HDR + want, size + HDR);
        m := Take(m, h);
        usedMem := usedMem + (want + HDR);
      } else {
        TakeMarks(m, h);
        NothingWritten(m.used, blocks, NOWHERE, payload, 0, 0);
        m := Take(m, h);
        usedMem := usedMem + (m.next[h] - h);
      }
      if maxMem < usedMem { maxMem := usedMem; }
      blocks := Cut(b, k, want);
      if h == lfree {
        Advance();
      }
    }

    /** rt_malloc: the first block from the lowest-free pointer on that the search accepts, whole or
        cut to size. In runs of malloc and free that is the lowest such block of the heap. */
    method Malloc(request: nat) returns (p: Addr, ghost k: nat)
      requires Valid()
      modifies `m, `payload, `lfree, `usedMem, `maxMem, `blocks
      ensures Valid() && maxMem == Higher(old(maxMem), usedMem) && (old(LowestFree()) ==> LowestFree())
      ensures p == 0 <==> Refused(request, size) || old(NoneSuits(Wanted(request), lfree))
      ensures old(LowestFree()) ==> (p == 0 <==> Refused(request, size) || old(NoneSuits(Wanted(request), 0)))
      ensures p == 0 ==> m == old(m) && blocks == old(blocks) && lfree == old(lfree) && usedMem == old(usedMem)
      ensures p != 0 ==> old(FirstSuits(k, Wanted(request), lfree))
      ensures p != 0 && old(LowestFree()) ==> old(FirstSuits(k, Wanted(request), 0))
      ensures p != 0 ==> p == base + old(blocks)[k] + HDR
      ensures p != 0 ==> Remarked(old(m.used), old(blocks), m.used, blocks, old(blocks)[k], true)
      ensures p != 0 ==> blocks == Cut(old(blocks), k, Wanted(request))
      ensures p != 0 ==> HandedOut(old(blocks), k, Wanted(request), blocks)
      ensures p != 0 ==> FirstUnused(old(m.used), old(blocks), old(lfree), k, Wanted(request), size)
      ensures OthersKept(old(m.used), old(blocks), NOWHERE, old(payload), payload)
      ensures (p == 0 ==> payload == old(payload))
    {
      hide Valid, NoneSuits, FirstSuits, LowestFree, Align, Remarked, Inserted, OthersKept, Carried, HandedOut,
           FirstUnused;
      ValidFacts();
      NothingWritten(m.used, blocks, NOWHERE, payload, 0, 0);
      p, k := 0, 0;
      if request == 0 || Align(request) > size {
        return;
      }
      var want := Align(request);
      if want < MINI {
        want := MINI;
      }
      AlignBy4(request);
      SearchesAll(want);
      var h, found;
      h, found, k := Search(want);
      if found {
        SuitsBounds(k, want);
        p := base + h + HDR;
        CutIs(blocks, k, want);
        FirstIs(k, want);
        Occupy(h, want, k);
      }
    }

    lemma FirstIs(k: nat, want: nat)
      requires FirstSuits(k, want, lfree)
      ensures FirstUnused(m.used, blocks, lfree, k, want, size)
    {
      hide InUse;
    }

    lemma ValidFacts()
      requires Valid()
      ensures usedMem <= maxMem
      ensures size >= MINI && base > 0
    {
    }

    lemma SuitsBounds(k: nat, want: nat)
      requires FirstSuits(k, want, lfree)
      ensures k + 1 < |blocks| && !NoneSuits(want, lfree)
    {
    }

    /** `p` points to the payload of block `k`, which is in use. */
    ghost predicate Live(p: Addr, k: nat)
      reads this
    {
      k + 1 < |blocks| && p == base + blocks[k] + HDR && InUse(m.used, blocks[k])
    }

    /** rt_free; a pointer outside the heap is ignored. */
    method Free(p: Addr, ghost k: nat)
      requires Valid() && (base <= p < base + size + HDR ==> Live(p, k))
      modifies `m, `lfree, `usedMem, `blocks
      ensures Valid() && (old(LowestFree()) ==> LowestFree())
      ensures !(base <= p < base + size + HDR) ==>
          m == old(m) && blocks == old(blocks) && lfree == old(lfree) && usedMem == old(usedMem)
      ensures base <= p < base + size + HDR ==>
        && blocks == Freed(old(m.used), old(blocks), k)
        && Coalesced(old(m.used), old(blocks), k, blocks)
        && Remarked(old(m.used), old(blocks), m.used, blocks, old(blocks)[k], false)
    {
      hide Tiled, Linked, UsedBytes, InUse, Separate, Below, Remarked, Candidate, Freed, Coalesced;
      if p < base || p >= base + size + HDR {
        return;
      }
      var h := p - HDR - base;
      LinksAt(k);
      NextBeyond(size, blocks, k);
      FreeOk(size, m, blocks, k, lfree);
      ghost var u, b := m.used, blocks;
      m := m.(used := m.used[h := false]);
      if h < lfree {
        lfree := h;
      }
      usedMem := usedMem - (m.next[h] - h);
      PlugHoles(h, k);
      FreedMarks(u, b, k, m.used);
      FreedIs(u, b, k);
    }

    /** Freeing what malloc just returned restores the same partition, marks and statistics, and the
        lowest-free pointer. */
    method MallocThenFree(request: nat)
      requires Valid() && LowestFree()
      modifies `m, `payload, `lfree, `usedMem, `maxMem, `blocks
      ensures Valid() && LowestFree() && blocks == old(blocks) && lfree == old(lfree) && usedMem == old(usedMem)
      ensures forall a :: a in blocks ==> (InUse(m.used, a) <==> InUse(old(m.used), a))
      ensures OthersKept(old(m.used), old(blocks), NOWHERE, old(payload), payload)
    {
      hide Tiled, Linked, UsedBytes, InUse, Separate, Cut, Suits, Freed, Remarked, Candidate, Below, OthersKept,
           HandedOut, FirstUnused, Coalesced;
      ghost var u, b, l := m.used, blocks, lfree;
      FitTiled(size, m, b);
      LinksAt(0);
      var p, k := Malloc(request);
      if p != 0 {
        TiledEnd(size, b);
        SuitsIs(u, b, k, Wanted(request), size);
        RoundTrip(size, u, b, k, Wanted(request), m.used);
        CutMembers(b, k, Wanted(request));
        assert b[k] in b;
        RemarkedAt(u, b, m.used, blocks, b[k], true);
        BlockInside(size, b, k);
        ghost var u2, c := m.used, blocks;
        Free(p, k);
        RemarkedBack(u, b, u2, c, m.used, b[k]);
        SameMarks(size, u, m.used, b, l, lfree);
      }
    }

    /** The block at `p` is in use and has room for `n` bytes. */
    ghost predicate Holds(p: Addr, n: int)
      reads this
    {
      p >= base + HDR && HasRoom(m.used, blocks, p - base - HDR, n)
    }

    /** Building a new unused block at the end of block `k`; its neighbours are not looked at yet. */
    method CutEnd(h: Addr, n: nat, ghost k: nat)
      requires Valid() && k + 1 < |blocks| && blocks[k] == h && InUse(m.used, h)
      requires n % 4 == 0 && n > 0 && n + HDR + MINI < blocks[k + 1] - h - HDR
      modifies `m, `payload, `usedMem, `blocks
      ensures Holed(k + 1) && blocks[k + 1] == h + HDR + n && h + HDR + n !in old(blocks)
      ensures |blocks| == |old(blocks)| + 1 && blocks[k] == h && blocks[k + 2] == old(blocks)[k + 1]
      ensures Freed(m.used, blocks, k + 1) == Shrunk(old(m.used), old(blocks), k, h + HDR + n)
      ensures forall x :: x in Shrunk(old(m.used), old(blocks), k, h + HDR + n) ==>
                (InUse(m.used, x) <==> x in old(blocks) && InUse(old(m.used), x))
      ensures forall j :: 0 <= j < |old(blocks)| ==>
          (InUse(m.used, old(blocks)[j]) <==> InUse(old(m.used), old(blocks)[j]))
      ensures OthersKept(old(m.used), old(blocks), h, old(payload), payload)
      ensures Carried(old(payload), h + HDR, payload, h + HDR, n)
    {
      hide Tiled, Linked, UsedBytes, InUse, Separate, Candidate, Freed, Shrunk, Split, Inserted, OthersKept, Carried,
           Kept, Wiped;
      OccupiedFacts(k);
      var at := h + HDR + n;
      ShrinkOk(size, m, blocks, k, at, lfree);
      usedMem := usedMem - (m.next[h] - h - HDR - n);
      ghost var c := Inserted(blocks, k + 1, at);
      CutMarks(m.used, blocks, k, at, c, Split(m, h, at, size + HDR).used);
      FreedMembers(size, Split(m, h, at, size + HDR).used, c, k + 1);
      FitTiled(size, Split(m, h, at, size + HDR), c);
      WipeKeeps(size, m.used, blocks, k, at, payload);
      payload := Wiped(payload, at);
      m := Split(m, h, at, size + HDR);
      blocks := c;
    }

    /** The shrinking branch of rt_realloc. The lowest-free pointer may stop being the lowest. */
    method Shrink(h: Addr, n: nat, ghost k: nat)
      requires Valid() && k + 1 < |blocks| && blocks[k] == h && InUse(m.used, h)
      requires n % 4 == 0 && n > 0 && n + HDR + MINI < blocks[k + 1] - h - HDR
      modifies `m, `payload, `lfree, `usedMem, `blocks
      ensures Valid() && blocks == Shrunk(old(m.used), old(blocks), k, h + HDR + n)
      ensures forall x :: x in blocks ==> (InUse(m.used, x) <==> x in old(blocks) && InUse(old(m.used), x))
      ensures h + HDR + n !in old(blocks)
      ensures old(LowestFree()) ==> (LowestFree() <==> old(KeepsLowest(k, n)))
      ensures OthersKept(old(m.used), old(blocks), h, old(payload), payload)
      ensures Carried(old(payload), h + HDR, payload, h + HDR, n)
    {
      hide Tiled, Linked, UsedBytes, InUse, Separate, Below, Candidate, Freed, Shrunk, OthersKept, Carried;
      ghost var u, b, l := m.used, blocks, lfree;
      LinksAt(k);
      OccupiedFacts(k);
      CutEnd(h, n, k);
      PlugHoles(h + HDR + n, k + 1);
      ShrunkLowest(u, b, l, k, h + HDR + n);
    }

    lemma ShrunkLowest(u: map<Addr, bool>, b: seq<Addr>, l: Addr, k: nat, at: Addr)
      requires Valid() && Tiled(size, b) && k + 1 < |b| && Candidate(u, b, l) && InUse(u, b[k]) && InUse(u, b[|b| - 1])
      requires b[k] + HDR < at && at + HDR < b[k + 1] && blocks == Shrunk(u, b, k, at) && lfree == Moved(u, b, k, at, l)
      requires !InUse(m.used, at) && forall j :: 0 <= j < |b| ==> (InUse(m.used, b[j]) <==> InUse(u, b[j]))
      ensures Below(u, b, l) ==> (LowestFree() <==> l < at || (l == b[k + 1] && !InUse(u, b[k + 1])))
    {
      hide Tiled, Linked, UsedBytes, InUse, Separate, Below, Shrunk, Moved;
      if Below(u, b, l) {
        ShrinkLowest(size, u, m.used, b, k, at, l);
      }
    }

    /** Does the lowest-free pointer stay the lowest when block `k` is cut to `n` bytes? It does if it
        lies in front of the cut, or if the cut joins the block it points to. */
    ghost predicate KeepsLowest(k: nat, n: int)
      requires k + 1 < |blocks|
      reads this
    {
      lfree < blocks[k] + HDR + n || (lfree == blocks[k + 1] && !InUse(m.used, blocks[k + 1]))
    }

    lemma OccupiedFacts(k: nat)
      requires Valid() && k + 1 < |blocks| && InUse(m.used, blocks[k])
      ensures blocks[k] in m.next && m.next[blocks[k]] == blocks[k + 1] && blocks[k] + HDR < blocks[k + 1] <= size + HDR
      ensures blocks[k] % 4 == 0 && blocks[k] < size && Tiled(size, blocks) && Separate(m.used, blocks, NOWHERE)
    {
      LinkedAt(m, blocks, k);
      BlockInside(size, blocks, k);
    }

    /** The last branch of rt_realloc: allocate, copy, free. */
    method Relocate(p: Addr, n: nat, ghost k: nat) returns (q: Addr)
      requires Valid() && Live(p, k) && 0 < n <= size && Align(n) == n
      modifies `m, `payload, `lfree, `usedMem, `maxMem, `blocks
      ensures Valid() && maxMem >= old(maxMem)
      ensures q == 0 <==> old(NoneSuits(Wanted(n), lfree))
      ensures q == 0 ==> m == old(m) && blocks == old(blocks) && lfree == old(lfree) && usedMem == old(usedMem)
      ensures q != 0 ==> Holds(q, n) && q != p && Stays(old(m.used), old(blocks), m.used, blocks, old(blocks)[k])
      ensures q != 0 ==> forall e :: !Lies(m.used, blocks, old(blocks)[k], e)
      ensures old(LowestFree()) ==> LowestFree()
      ensures OthersKept(old(m.used), old(blocks), NOWHERE, old(payload), payload)
      ensures (q == 0 ==> payload == old(payload))
      ensures q != 0 ==> Carried(old(payload), p - base, payload, q - base,
          Least(old(blocks)[k + 1] - old(blocks)[k] - HDR, n))
    {
      hide Tiled, Linked, UsedBytes, InUse, Separate, Below, Candidate, Freed, Cut, Remarked, Align, Suits, LowestFree,
           NoneSuits, Stays, HasRoom, Lies, OthersKept, Carried, HandedOut, FirstUnused, Coalesced;
      ghost var u, b := m.used, blocks;
      ghost var h := b[k];
      OccupiedFacts(k);
      var room := m.next[p - HDR - base] - (p - base);
      var r, j := Malloc(n);
      q := r;
      if q != 0 {
        SuitsBoundsAt(size, u, b, j, Wanted(n));
        CutStays(size, u, b, j, Wanted(n), m.used);
        AllocatedLies(size, u, b, j, Wanted(n), m.used);
        ghost var e0 := b[k + 1];
        LiesHere(u, b, k, h, e0);
        StaysAt(u, b, m.used, blocks, h, e0);
        ghost var k2 := LiesIndex(m.used, blocks, h, e0);
        ghost var u2, c := m.used, blocks;
        OccupiedFacts(k2);
        MoveKeeps(size, u, b, u2, c, h, e0, b[j], Wanted(n), Least(room, n), old(payload), payload);
        CopyBytes(q - base, p - base, Least(room, n));
        Free(p, k2);
        FreedStays(size, u2, c, k2, m.used);
        StaysTrans(u, b, u2, c, m.used, blocks, h);
        DistinctBlocks(u, b, j, h);
        RoomStays(u2, c, m.used, blocks, h, b[j], Wanted(n));
        RoomLess(m.used, blocks, b[j], Wanted(n), n);
        GoneAt(u2, c, m.used, blocks, h);
      }
    }

    /** Block `k` has exactly `n` bytes. */
    ghost predicate Fills(k: nat, n: int)
      reads this
    {
      k + 1 < |blocks| && blocks[k + 1] - blocks[k] - HDR == n
    }

    /** Block `k` has so much more than `n` bytes that rt_realloc cuts it. */
    ghost predicate Shrinks(k: nat, n: int)
      reads this
    {
      k + 1 < |blocks| && n > 0 && n + HDR + MINI < blocks[k + 1] - blocks[k] - HDR
    }

    /** rt_memcpy. */
    method CopyBytes(dst: Addr, src: Addr, n: nat)
      requires Valid()
      modifies `payload
      ensures Valid() && payload == Copy(old(payload), dst, src, n) && (old(LowestFree()) ==> LowestFree())
    {
      hide Copy;
      payload := Copy(payload, dst, src, n);
    }

    /** The owner of block `k` stores a byte in it. */
    method Store(p: Addr, i: nat, x: int, ghost k: nat)
      requires Valid() && Live(p, k) && p + i < base + blocks[k + 1]
      modifies `payload
      ensures Valid() && (old(LowestFree()) ==> LowestFree()) && p - base + i in payload && payload[p - base + i] == x
      ensures OthersKept(m.used, blocks, blocks[k], old(payload), payload)
    {
      hide OthersKept, Linked, Tiled;
      OccupiedFacts(k);
      StoreKeeps(size, m.used, blocks, k, payload, p - base + i, x);
      payload := payload[p - base + i := x];
    }

    /** The branch of rt_realloc that has no block to start from. */
    method Obtain(n: nat) returns (q: Addr)
      requires Valid() && 0 < n <= size && Align(n) == n
      modifies `m, `payload, `lfree, `usedMem, `maxMem, `blocks
      ensures Valid() && maxMem >= old(maxMem) && (old(LowestFree()) ==> LowestFree())
      ensures q == 0 <==> old(NoneSuits(Wanted(n), lfree))
      ensures q == 0 ==> m == old(m) && blocks == old(blocks) && lfree == old(lfree) && usedMem == old(usedMem)
      ensures q != 0 ==> Holds(q, n) && Stays(old(m.used), old(blocks), m.used, blocks, NOWHERE)
      ensures OthersKept(old(m.used), old(blocks), NOWHERE, old(payload), payload)
    {
      hide Tiled, Linked, UsedBytes, InUse, Separate, Below, Candidate, Cut, Remarked, Align, Suits, LowestFree,
           NoneSuits, Stays, HasRoom, Lies, OthersKept, HandedOut, FirstUnused, Coalesced;
      ghost var u, b := m.used, blocks;
      FitTiled(size, m, b);
      var r, j := Malloc(n);
      q := r;
      if q != 0 {
        SuitsBoundsAt(size, u, b, j, Wanted(n));
        CutStays(size, u, b, j, Wanted(n), m.used);
        AllocatedLies(size, u, b, j, Wanted(n), m.used);
        RoomLess(m.used, blocks, b[j], Wanted(n), n);
      }
    }

    lemma Untouched(k: nat)
      ensures OthersKept(m.used, blocks, NOWHERE, payload, payload)
      ensures k < |blocks| ==> OthersKept(m.used, blocks, blocks[k], payload, payload)
    {
    }

    /** rt_realloc on a block in use, with the request rounded up to `n`. */
    method Resize(p: Addr, n: nat, ghost k: nat) returns (q: Addr)
      requires Valid() && Live(p, k) && 0 < n <= size && Align(n) == n && n % 4 == 0
      modifies `m, `payload, `lfree, `usedMem, `maxMem, `blocks
      ensures Valid() && maxMem >= old(maxMem)
      ensures q == 0 <==> !old(Shrinks(k, n)) && !old(Fills(k, n)) && old(NoneSuits(Wanted(n), lfree))
      ensures q == 0 ==> m == old(m) && blocks == old(blocks) && lfree == old(lfree) && usedMem == old(usedMem)
      ensures q != 0 ==> Holds(q, n) && Stays(old(m.used), old(blocks), m.used, blocks, old(blocks)[k])
      ensures q != 0 && q != p ==> forall e :: !Lies(m.used, blocks, old(blocks)[k], e)
      ensures old(Fills(k, n)) ==> q == p && m == old(m) && blocks == old(blocks)
      ensures old(Shrinks(k, n)) ==> q == p && blocks == Shrunk(old(m.used), old(blocks), k, old(blocks)[k] + HDR + n)
      ensures old(LowestFree()) ==> (LowestFree() <==> !(old(Shrinks(k, n)) && !old(KeepsLowest(k, n))))
      ensures OthersKept(old(m.used), old(blocks), old(blocks)[k], old(payload), payload)
      ensures q != 0 ==> Carried(old(payload), p - base, payload, q - base,
          Least(old(blocks)[k + 1] - old(blocks)[k] - HDR, n))
    {
      hide Align, NoneSuits, LowestFree, Tiled, Linked, UsedBytes, InUse, Separate, Candidate, Suits, Stays, Shrunk,
           HasRoom, Lies, KeepsLowest, OthersKept, Carried;
      ghost var u, b := m.used, blocks;
      FitTiled(size, m, blocks);
      OccupiedFacts(k);
      var h := p - HDR - base;
      var room := m.next[h] - h - HDR;
      LiesHere(u, b, k, h, b[k + 1]);
      if room == n {
        StaysSame(u, b, h);
        NothingWritten(u, b, h, payload, p - base, n);
        RoomFrom(u, b, h, b[k + 1], n);
        q := p;
      } else if n + HDR + MINI < room {
        Shrink(h, n, k);
        ShrunkStays(size, u, b, k, h + HDR + n, m.used);
        RoomFrom(m.used, blocks, h, h + HDR + n, n);
        q := p;
      } else {
        q := Relocate(p, n, k);
        FewerKept(u, b, h, old(payload), payload);
      }
    }

    /** rt_realloc. A null result leaves everything as it was, unless the request rounds to zero,
        which frees. A block handed out has room for the request, and no other block in use moves
        or changes its size. */
    method Realloc(p: Addr, request: nat, ghost k: nat) returns (q: Addr)
      requires Valid() && (base <= p < base + size + HDR ==> Live(p, k))
      modifies `m, `payload, `lfree, `usedMem, `maxMem, `blocks
      ensures Valid() && maxMem >= old(maxMem)
      ensures q == 0 && Align(request) != 0 ==>
          m == old(m) && blocks == old(blocks) && lfree == old(lfree) && usedMem == old(usedMem)
      ensures Align(request) > size || Align(request) == 0 ==> q == 0
      ensures 0 < Align(request) <= size && p == 0 ==> (q == 0 <==> old(NoneSuits(Wanted(request), lfree)))
      ensures q != 0 && p == 0 ==> Holds(q, Align(request)) && Stays(old(m.used), old(blocks), m.used, blocks, NOWHERE)
      ensures 0 < Align(request) <= size && p != 0 && !(base <= p < base + size + HDR) ==>
          q == p && m == old(m) && blocks == old(blocks)
      ensures base <= p < base + size + HDR && q != 0 ==>
        && Holds(q, Align(request)) && Stays(old(m.used), old(blocks), m.used, blocks, old(blocks)[k])
        && (q != p ==> forall e :: !Lies(m.used, blocks, old(blocks)[k], e))
      ensures base <= p < base + size + HDR && 0 < Align(request) <= size ==>
        (q == 0 <==>
         !old(Shrinks(k, Align(request))) && !old(Fills(k, Align(request))) && old(NoneSuits(Wanted(request), lfree)))
      ensures base <= p < base + size + HDR && 0 < Align(request) <= size && old(Fills(k, Align(request))) ==>
        q == p && m == old(m) && blocks == old(blocks)
      ensures base <= p < base + size + HDR && 0 < Align(request) <= size && old(Shrinks(k, Align(request))) ==>
        q == p && blocks == Shrunk(old(m.used), old(blocks), k, old(blocks)[k] + HDR + Align(request))
      ensures base <= p < base + size + HDR && 0 < Align(request) <= size ==>
        var b := old(blocks); var n := Align(request);
        n + 12 + 12 < b[k + 1] - b[k] - 12 ==>
          q == p && blocks == b[..k + 1] + [b[k] + 12 + n]
            + if k + 2 < |b| && !InUse(old(m.used), b[k + 1]) then b[k + 2..] else b[k + 1..]
      ensures old(LowestFree()) ==> (LowestFree() <==>
        !(base <= p < base + size + HDR && Align(request) <= size && old(Shrinks(k, Align(request)))
          && !old(KeepsLowest(k, Align(request)))))
      ensures OthersKept(old(m.used), old(blocks), if base <= p < base + size + HDR then old(blocks)[k]
          else NOWHERE, old(payload), payload)
      ensures base <= p < base + size + HDR && q != 0 ==>
        Carried(old(payload), p - base, payload, q - base,
            Least(old(blocks)[k + 1] - old(blocks)[k] - HDR, Align(request)))
      ensures base <= p < base + size + HDR && Align(request) == 0 ==>
        blocks == Freed(old(m.used), old(blocks), k) &&
            Remarked(old(m.used), old(blocks), m.used, blocks, old(blocks)[k], false)
    {
      hide Align, NoneSuits, LowestFree, Remarked, Freed, Tiled, Linked, UsedBytes, InUse, Separate, Candidate, Stays,
           Shrunk, HasRoom, Lies, KeepsLowest, OthersKept, Carried, Fills;
      q := 0;
      Untouched(k);
      var n := Align(request);
      if n > size {
        return;
      }
      AlignBy4(request);
      AlignTwice(request);
      ValidFacts();
      if n == 0 {
        Free(p, k);
        return;
      }
      if p == 0 {
        q := Obtain(n);
        return;
      }
      if p < base || p >= base + size + HDR {
        return p;
      }
      ShrunkIs(m.used, blocks, k, blocks[k] + HDR + n);
      q := Resize(p, n, k);
    }
  }

  /** Block `k` is unused and has `want` bytes, and no block before it, from `from` on, is unused, has as
      many, and lies low enough for the search to look at it. */
  ghost predicate FirstUnused(u: map<Addr, bool>, b: seq<Addr>, from: Addr, k: nat, want: int, size: int) {
    && k + 1 < |b| && b[k] >= from && !InUse(u, b[k]) && b[k + 1] - b[k] - 12 >= want
    && forall j :: 0 <= j < k && b[j] >= from ==> InUse(u, b[j]) || b[j + 1] - b[j] - 12 < want || b[j] >= size - want
  }

  /** Block `k` has been cut to `want` bytes if a block can be made of the rest, and is whole otherwise. */
  ghost predicate HandedOut(b: seq<Addr>, k: nat, want: int, c: seq<Addr>) {
    k + 1 < |b| &&
    c == if b[k + 1] - b[k] - 12 >= want + 12 + 12 then b[..k + 1] + [b[k] + 12 + want] + b[k + 1..] else b
  }

  /** Block `k` has joined the unused blocks before and behind it, other than heap_end. */
  ghost predicate Coalesced(u: map<Addr, bool>, b: seq<Addr>, k: nat, c: seq<Addr>) {
    && k + 1 < |b|
    && var first := if k > 0 && !InUse(u, b[k - 1]) then k else k + 1;
       var next := if k + 2 < |b| && !InUse(u, b[k + 1]) then k + 2 else k + 1;
       c == b[..first] + b[next..]
  }

  lemma FreedIs(u: map<Addr, bool>, b: seq<Addr>, k: nat)
    requires k + 1 < |b|
    ensures Coalesced(u, b, k, Freed(u, b, k))
  {
  }

  lemma CutIs(b: seq<Addr>, k: nat, want: nat)
    requires k + 1 < |b|
    ensures HandedOut(b, k, want, Cut(b, k, want))
  {
  }

  /** `b` with block `k` cut at `at`, the end joined to the unused block behind. */
  lemma ShrunkIs(u: map<Addr, bool>, b: seq<Addr>, k: nat, at: Addr)
    requires k + 1 < |b|
    ensures Shrunk(u, b, k, at) ==
      b[..k + 1] + [at] + if k + 2 < |b| && !InUse(u, b[k + 1]) then b[k + 2..] else b[k + 1..]
  {
  }

  lemma BlockInside(size: nat, b: seq<Addr>, k: nat)
    requires Tiled(size, b) && k + 1 < |b|
    ensures b[k] + HDR < b[k + 1] <= size + HDR && b[k] < size && b[k] % 4 == 0
  {
    assert k + 1 < |b| - 1 ==> b[k + 1] + HDR < b[|b| - 1];
  }

  lemma FreedMembers(size: nat, u: map<Addr, bool>, c: seq<Addr>, k: nat)
    requires k + 1 < |c|
    ensures forall x :: x in Freed(u, c, k) ==> x in c
  {
  }

  lemma SuitsBoundsAt(size: nat, u: map<Addr, bool>, b: seq<Addr>, j: nat, want: nat)
    requires j + 1 < |b| && Suits(u, b, j, want, size)
    ensures !InUse(u, b[j]) && b[j + 1] - b[j] - HDR >= want
  {
  }

  lemma AllocatedLies(size: nat, u: map<Addr, bool>, b: seq<Addr>, j: nat, want: nat, u2: map<Addr, bool>)
    requires j + 1 < |b| && b[j + 1] - b[j] - HDR >= want && Remarked(u, b, u2, Cut(b, j, want), b[j], true)
    ensures HasRoom(u2, Cut(b, j, want), b[j], want)
  {
    hide Lies, Cut;
    CutMembers(b, j, want);
    assert b[j] in b;
    CutLies(u2, b, j, want);
  }

  lemma RoomLess(u: map<Addr, bool>, b: seq<Addr>, a: Addr, n: int, k: int)
    requires HasRoom(u, b, a, n) && k <= n
    ensures HasRoom(u, b, a, k)
  {
    hide Lies;
  }

  lemma RoomFrom(u: map<Addr, bool>, b: seq<Addr>, a: Addr, e: Addr, n: int)
    requires Lies(u, b, a, e) && e - a - HDR >= n
    ensures HasRoom(u, b, a, n)
  {
    hide Lies;
  }

  lemma StaysSame(u: map<Addr, bool>, b: seq<Addr>, x: Addr)
    ensures Stays(u, b, u, b, x)
  {
  }

  lemma DistinctBlocks(u: map<Addr, bool>, b: seq<Addr>, j: nat, h: Addr)
    requires j < |b| && !InUse(u, b[j]) && InUse(u, h)
    ensures b[j] != h
  {
  }

  lemma GoneAt(u: map<Addr, bool>, b: seq<Addr>, u2: map<Addr, bool>, c: seq<Addr>, h: Addr)
    requires Remarked(u, b, u2, c, h, false)
    ensures forall e :: !Lies(u2, c, h, e)
  {
    forall e ensures !Lies(u2, c, h, e) {
      if Lies(u2, c, h, e) {
        LiesMember(u2, c, h, e);
      }
    }
  }

  lemma FitTiled(size: nat, m: Headers, b: seq<Addr>)
    requires Fit(size, m, b)
    ensures Tiled(size, b)
  {
  }

  lemma AlignTwice(request: nat)
    ensures Align(Align(request)) == Align(request)
  {
  }

  lemma RemarkedAt(u: map<Addr, bool>, b: seq<Addr>, u2: map<Addr, bool>, c: seq<Addr>, h: Addr, mark: bool)
    requires Remarked(u, b, u2, c, h, mark) && h in c
    ensures InUse(u2, h) == mark
  {
  }

  /** Marking and unmarking one block changes nothing. */
  lemma RemarkedBack(u: map<Addr, bool>, b: seq<Addr>, u2: map<Addr, bool>, c: seq<Addr>, u3: map<Addr, bool>, h: Addr)
    requires Remarked(u, b, u2, c, h, true) && Remarked(u2, c, u3, b, h, false) && !InUse(u, h)
    requires forall x :: x in b ==> x in c
    ensures forall a :: a in b ==> (InUse(u3, a) <==> InUse(u, a))
  {
  }

  /** The pointer and the statistics depend on nothing but the blocks and their marks. */
  lemma SameMarks(size: nat, u: map<Addr, bool>, u3: map<Addr, bool>, b: seq<Addr>, l: Addr, l3: Addr)
    requires Tiled(size, b) && InUse(u, b[|b| - 1]) && Lowest(u, b, l) && Lowest(u3, b, l3)
    requires forall a :: a in b ==> (InUse(u3, a) <==> InUse(u, a))
    ensures l3 == l && UsedBytes(u3, b) == UsedBytes(u, b)
  {
    UsedBytesSame(u3, u, b);
    LowestUnique(size, u, b, l, l3);
  }

  lemma CutMembers(b: seq<Addr>, k: nat, want: nat)
    requires k + 1 < |b|
    ensures forall x :: x in b ==> x in Cut(b, k, want)
  {
    hide Inserted;
    if b[k + 1] - b[k] - HDR >= want + HDR + MINI {
      InsertedAt(b, k + 1, b[k] + HDR + want, Cut(b, k, want));
    }
  }

  lemma AlignBy4(request: nat)
    ensures Align(request) % 4 == 0 && Align(request) < WORD
  {
  }

  lemma NextBeyond(size: nat, b: seq<Addr>, k: nat)
    requires Tiled(size, b) && k + 1 < |b|
    ensures b[k] < b[k + 1]
  {
  }

  lemma FreedMarks(u: map<Addr, bool>, b: seq<Addr>, k: nat, u2: map<Addr, bool>)
    requires k + 1 < |b| && u2 == u[b[k] := false]
    ensures Freed(u2, b, k) == Freed(u, b, k) || b[k] == b[k + 1] || (k > 0 && b[k] == b[k - 1])
    ensures Remarked(u, b, u2, Freed(u2, b, k), b[k], false)
  {
  }

  lemma SuitsIs(u: map<Addr, bool>, b: seq<Addr>, k: nat, want: int, size: int)
    requires k + 1 < |b|
    ensures Suits(u, b, k, want, size) <==> !InUse(u, b[k]) && b[k + 1] - (b[k] + HDR) >= want && b[k] < size - want
  {
  }

  lemma NextHigher(size: nat, b: seq<Addr>, k: nat)
    requires Tiled(size, b) && k < |b|
    ensures b[k] < size ==> k + 1 < |b| && b[k] < b[k + 1] <= size + HDR
  {
  }

  lemma LessBefore(b: seq<Addr>, k: nat)
    requires 0 < k < |b| - 1
    ensures k > 1 ==> Less(b, k)[k - 2] == b[k - 2]
  {
  }

  lemma LessPrefix(b: seq<Addr>, k: nat)
    requires k + 2 < |b|
    ensures k > 0 ==> Less(b, k + 1)[k - 1] == b[k - 1]
  {
  }

  /** Asked of a fresh heap, whose one block has `size` bytes of room, a request for all of them fails
      as one for more does: a run in which the search misses a block that fits. */
  method MallocFresh(base: Addr, bytes: nat, request: nat) returns (heap: SmallHeap, p: Addr)
    requires base > 0 && base % 4 == 0 && bytes % 4 == 0 && bytes >= 2 * HDR + MINI && base + bytes <= WORD
    ensures heap.size == bytes - 2 * HDR
    ensures (p == 0 <==> request == 0 || Align(request) > heap.size || Wanted(request) == heap.size)
    ensures p == 0 ==> heap.blocks == [0, heap.size + HDR] && !InUse(heap.m.used, 0)
  {
    hide Align, Wanted, Separate, Linked, Tiled, Remarked, UsedBytes;
    heap := new SmallHeap(base, bytes);
    ghost var u, b := heap.m.used, heap.blocks;
    heap.LinksAt(0);
    ghost var k;
    p, k := heap.Malloc(request);
    WantedSmall(request, heap.size);
  }

  lemma WantedSmall(request: nat, size: nat)
    requires size % 4 == 0 && size >= MINI
    ensures Align(request) <= size <==> Wanted(request) <= size
  {
  }

  /** A run that loses the lowest-free pointer: two blocks are allocated from a fresh heap and the
      first is shrunk. Its cut end is the lowest unused block, but the pointer stays behind the second. */
  method LoseLowest(base: Addr, bytes: nat) returns (heap: SmallHeap)
    requires base > 0 && base % 4 == 0 && bytes % 4 == 0 && bytes >= 400 && base + bytes <= WORD
    ensures heap.Valid() && !heap.LowestFree()
  {
    hide Separate, Linked, Tiled, UsedBytes, Cut, Suits, Remarked, Align, Candidate, SmallHeap.LowestFree,
         SmallHeap.NoneSuits, SmallHeap.FirstSuits, HandedOut, FirstUnused, Coalesced;
    heap := new SmallHeap(base, bytes);
    heap.LinksAt(0);
    Sizes();
    heap.SomeSuits(0, 100);
    ghost var u, b := heap.m.used, heap.blocks;
    var p1, k1 := heap.Malloc(100);
    FirstCut(u, b, heap.m.used, heap.blocks, k1, heap.size);
    heap.SomeSuits(1, 100);
    u, b := heap.m.used, heap.blocks;
    var p2, k2 := heap.Malloc(100);
    SecondCut(u, b, heap.m.used, heap.blocks, k2, heap.size);
    heap.PointsTo();
    var q := heap.Realloc(p1, 12, 0);
  }

  lemma Sizes()
    ensures Align(100) == 100 && Align(12) == 12
  {
  }

  lemma FirstCut(u: map<Addr, bool>, b: seq<Addr>, u2: map<Addr, bool>, c: seq<Addr>, k: nat, size: nat)
    requires b == [0, size + HDR] && InUse(u, size + HDR) && size >= 376 && k + 1 < |b|
    requires c == Cut(b, k, 100) && Remarked(u, b, u2, c, b[k], true)
    ensures k == 0 && c == [0, 112, size + HDR] && InUse(u2, 0) && !InUse(u2, 112) && InUse(u2, size + HDR)
  {
    assert Inserted(b, 1, 112) == b[..1] + [112] + b[1..];
    assert c[1] in c && c[0] in c && c[2] in c;
  }

  lemma SecondCut(u: map<Addr, bool>, b: seq<Addr>, u2: map<Addr, bool>, c: seq<Addr>, k: nat, size: nat)
    requires b == [0, 112, size + HDR] && InUse(u, 0) && !InUse(u, 112) && InUse(u, size + HDR) && size >= 376
    requires k + 1 < |b|
    requires Suits(u, b, k, 100, size) && c == Cut(b, k, 100) && Remarked(u, b, u2, c, b[k], true)
    ensures k == 1 && c == [0, 112, 224, size + HDR] && InUse(u2, 0) && InUse(u2, 112) && !InUse(u2, 224)
  {
    assert Inserted(b, 2, 224) == b[..2] + [224] + b[2..];
    assert c[0] in c && c[1] in c && c[2] in c;
  }
}

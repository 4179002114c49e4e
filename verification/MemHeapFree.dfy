/** Coalescing in memheap.c, on values: what rt_memheap_free and rt_memheap_realloc do once a
    block has been released or cut off. */
module MemHeapFree {
  import opened RtList
  import opened FreeBlocks
  import opened MemHeapBlocks

  /** Block `k` is unused and may still touch unused neighbours; it is `x`, the block missing from
      the free list, unless `x` is NONE. */
  ghost predicate Open(start: Addr, pool: nat, m: Memory, v: View, x: Addr, k: nat) {
    && k + 1 < |v.blocks|
    && Loose(start, pool, m, v, x)
    && Separate(m.used, v.blocks, v.blocks[k])
    && !InUse(m.used, v.blocks[k])
    && (x == NONE || x == v.blocks[k])
  }

  lemma OpenParts(start: Addr, pool: nat, m: Memory, v: View, x: Addr, k: nat)
    requires Open(start, pool, m, v, x, k)
    ensures Tiled(start, pool, v.blocks) && Marked(m.used, v, x) && Ring(m.links, v.blocks)
    ensures forall i, j :: 0 <= i < j < |v.blocks| ==> v.blocks[i] != v.blocks[j]
    ensures forall i :: 0 <= i < |v.blocks| ==> v.blocks[i] != NONE && v.blocks[i] != HEAD
    ensures InUse(m.used, v.blocks[|v.blocks| - 1])
  {
    TiledDistinct(start, pool, v.blocks);
  }

  lemma ReleaseOpen(start: Addr, pool: nat, m: Memory, v: View, i: nat)
    requires HeapOk(start, pool, m, v) && i + 1 < |v.blocks| && InUse(m.used, v.blocks[i])
    ensures Open(start, pool, Release(m, v.blocks[i]), v, v.blocks[i], i)
    ensures FreeBytes(Release(m, v.blocks[i]).used, v.blocks) ==
            FreeBytes(m.used, v.blocks) + v.blocks[i + 1] - v.blocks[i] - HDR
    ensures Live(Release(m, v.blocks[i]), v) == Live(m, v) - {v.blocks[i]}
  {
    hide Ring, Live, FreeBytes, Separate;
    ReleaseOk(start, pool, m, v, i);
    ReleaseBytes(start, pool, m, v, i);
    LiveRelease(start, pool, m, v, i);
  }

  lemma JoinLeft(start: Addr, pool: nat, m: Memory, v: View, k: nat)
    requires k > 0 && k < |v.blocks| && Open(start, pool, m, v, v.blocks[k], k) && !InUse(m.used, v.blocks[k - 1])
    ensures v.blocks[k] in m.links.next && v.blocks[k] in m.links.prev
    ensures Open(start, pool, MergeLeft(m, v.blocks[k]), View(Less(v.blocks, k), v.free), NONE, k - 1)
    ensures k > 1 ==> InUse(m.used, v.blocks[k - 2])
    ensures |Less(v.blocks, k)| == |v.blocks| - 1 && Less(v.blocks, k)[k - 1] == v.blocks[k - 1]
    ensures Less(v.blocks, k)[k] == v.blocks[k + 1]
    ensures k > 1 ==> Less(v.blocks, k)[k - 2] == v.blocks[k - 2]
    ensures FreeBytes(m.used, Less(v.blocks, k)) == FreeBytes(m.used, v.blocks) + HDR
    ensures Live(MergeLeft(m, v.blocks[k]), View(Less(v.blocks, k), v.free)) == Live(m, v)
  {
    hide Ring, Loose, Live, Separate, FreeBytes, Unlink;
    OpenParts(start, pool, m, v, v.blocks[k], k);
    MergeLeftOk(start, pool, m, v, k);
    LiveMergeLeft(start, pool, m, v, k);
    SeparateLess(m.used, v.blocks, k, v.blocks[k]);
    LessBytes(m.used, v.blocks, k);
    if k > 1 {
      Neighbour(m.used, v.blocks, v.blocks[k], k - 1, k - 2);
    }
  }

  lemma JoinRight(start: Addr, pool: nat, m: Memory, v: View, x: Addr, k: nat, j: nat)
    requires Open(start, pool, m, v, x, k) && !InUse(m.used, v.blocks[k + 1])
    requires j < |v.free| && v.free[j] == v.blocks[k + 1]
    ensures k + 2 < |v.blocks| && InUse(m.used, v.blocks[k + 2])
    ensures v.blocks[k + 1] in m.links.next && v.blocks[k + 1] in m.links.prev
    ensures v.blocks[k + 1] in m.free.next && v.blocks[k + 1] in m.free.prev
    ensures Open(start, pool, MergeRight(m, v.blocks[k + 1]), View(Less(v.blocks, k + 1), Less(v.free, j)), x, k)
    ensures |Less(v.blocks, k + 1)| == |v.blocks| - 1
    ensures Less(v.blocks, k + 1)[..k + 1] == v.blocks[..k + 1] && Less(v.blocks, k + 1)[k + 1] == v.blocks[k + 2]
    ensures FreeBytes(m.used, Less(v.blocks, k + 1)) == FreeBytes(m.used, v.blocks) + HDR
    ensures Live(MergeRight(m, v.blocks[k + 1]), View(Less(v.blocks, k + 1), Less(v.free, j))) == Live(m, v)
  {
    hide Ring, Loose, Live, Separate, FreeBytes, Unlink;
    OpenParts(start, pool, m, v, x, k);
    MergeRightOk(start, pool, m, v, x, k + 1, j);
    LiveMergeRight(start, pool, m, v, x, k + 1, j);
    SeparateLess(m.used, v.blocks, k + 1, v.blocks[k]);
    LessBytes(m.used, v.blocks, k + 1);
    Neighbour(m.used, v.blocks, v.blocks[k], k + 1, k + 2);
  }

  /** With both neighbours in use the block goes onto the free list, if it is not there yet. */
  lemma Close(start: Addr, pool: nat, m: Memory, v: View, x: Addr, k: nat)
    requires Open(start, pool, m, v, x, k)
    requires InUse(m.used, v.blocks[k + 1]) && (k > 0 ==> InUse(m.used, v.blocks[k - 1]))
    ensures HEAD in m.free.next
    ensures x == NONE ==> HeapOk(start, pool, m, v)
    ensures x != NONE ==> HeapOk(start, pool, Push(m, x), View(v.blocks, [x] + v.free))
    ensures x != NONE ==> Live(Push(m, x), View(v.blocks, [x] + v.free)) == Live(m, v)
    ensures Push(m, x).used == m.used && Push(m, x).bytes == m.bytes
  {
    hide Live, Separate, FreeBytes, InsertAfter;
    OpenParts(start, pool, m, v, x, k);
    SeparateDone(m.used, v.blocks, k);
    assert HEAD in m.free.next by { assert ([HEAD] + v.free)[0] == HEAD; }
    if x != NONE {
      PushOk(start, pool, m, v, x);
      LivePush(m, v, x, [x] + v.free);
    }
  }

  /** Cutting an unused block off a block in use. */
  lemma SplitOpen(start: Addr, pool: nat, m: Memory, v: View, i: nat, at: Addr)
    requires HeapOk(start, pool, m, v) && i + 1 < |v.blocks| && InUse(m.used, v.blocks[i]) && at % 4 == 0
    requires v.blocks[i] + HDR <= at && at + HDR <= v.blocks[i + 1]
    ensures v.blocks[i] in m.links.next && Spared(v.blocks[i], at)
    ensures Open(start, pool, Split(m, v.blocks[i], at), View(Inserted(v.blocks, i + 1, at), v.free), at, i + 1)
    ensures Inserted(v.blocks, i + 1, at)[i] == v.blocks[i] && Inserted(v.blocks, i + 1, at)[i + 2] == v.blocks[i + 1]
    ensures InUse(Split(m, v.blocks[i], at).used, v.blocks[i])
    ensures InUse(Split(m, v.blocks[i], at).used, v.blocks[i + 1]) <==> InUse(m.used, v.blocks[i + 1])
  {
    hide Ring, Loose, Separate, Live, Inserted, Spared, BuildHeader, InUse;
    var c := Inserted(v.blocks, i + 1, at);
    SplitParts(start, pool, m, v);
    InsertedAt(v.blocks, i + 1, at, c);
    SplitOk(start, pool, m, v, i, at);
    AllSpared(start, pool, v, m.used, i, at);
    SplitMarks(m, v, i, at);
    TiledDistinct(start, pool, v.blocks);
    SplitUsed(m, v.blocks[i], at);
    SeparateSplit(m.used, Split(m, v.blocks[i], at).used, v.blocks, i, at, NONE);
  }

  lemma SplitParts(start: Addr, pool: nat, m: Memory, v: View)
    requires HeapOk(start, pool, m, v)
    ensures Tiled(start, pool, v.blocks) && Marked(m.used, v, NONE) && Ring(m.links, v.blocks)
    ensures Loose(start, pool, m, v, NONE) && Separate(m.used, v.blocks, NONE)
  {
  }

  lemma SplitUsed(m: Memory, h: Addr, at: Addr)
    requires h in m.links.next && Spared(h, at)
    ensures Split(m, h, at).used == BuildHeader(m, at).used && Split(m, h, at).bytes == BuildHeader(m, at).bytes
  {
  }

  /** Joining the unused block after block `i` in use to it, as the growing rt_memheap_realloc does. */
  lemma Swallow(start: Addr, pool: nat, m: Memory, v: View, i: nat, j: nat)
    requires HeapOk(start, pool, m, v) && i + 1 < |v.blocks| && InUse(m.used, v.blocks[i])
    requires j < |v.free| && v.free[j] == v.blocks[i + 1]
    ensures i + 2 < |v.blocks| && InUse(m.used, v.blocks[i + 2])
    ensures v.blocks[i + 1] in m.links.next && v.blocks[i + 1] in m.links.prev
    ensures v.blocks[i + 1] in m.free.next && v.blocks[i + 1] in m.free.prev
    ensures HeapOk(start, pool, MergeRight(m, v.blocks[i + 1]), View(Less(v.blocks, i + 1), Less(v.free, j)))
    ensures |Less(v.blocks, i + 1)| == |v.blocks| - 1
    ensures Less(v.blocks, i + 1)[i] == v.blocks[i] && Less(v.blocks, i + 1)[i + 1] == v.blocks[i + 2]
    ensures FreeBytes(m.used, Less(v.blocks, i + 1)) ==
            FreeBytes(m.used, v.blocks) - (v.blocks[i + 2] - v.blocks[i + 1] - HDR)
    ensures Live(MergeRight(m, v.blocks[i + 1]), View(Less(v.blocks, i + 1), Less(v.free, j))) ==
            Live(m, v)[v.blocks[i] := v.blocks[i + 2] - v.blocks[i] - HDR]
  {
    hide Ring, Loose, Live, Separate, FreeBytes, Unlink, Less;
    SplitParts(start, pool, m, v);
    TiledDistinct(start, pool, v.blocks);
    assert !InUse(m.used, v.blocks[i + 1]) by { assert v.free[j] in v.free; }
    Neighbour(m.used, v.blocks, NONE, i + 1, i + 2);
    MergeRightOk(start, pool, m, v, NONE, i + 1, j);
    LiveMergeRight(start, pool, m, v, NONE, i + 1, j);
    LessShape(v.blocks, i + 1);
    SwallowApart(m.used, v.blocks, i);
    LessBytes(m.used, v.blocks, i + 1);
  }

  lemma SwallowApart(used: map<Addr, bool>, b: seq<Addr>, i: nat)
    requires i + 2 < |b| && Separate(used, b, NONE) && NONE !in b && InUse(used, b[i])
    ensures Separate(used, Less(b, i + 1), NONE)
  {
    var c := Less(b, i + 1);
    forall k | 0 <= k < |c| - 1 ensures Apart(used, c, k) {
      if k < i {
        assert Apart(used, b, k);
      } else if k > i {
        assert Apart(used, b, k + 1);
      }
    }
  }

  /** Once nothing is handed out the heap is one unused block and the tail. */
  lemma AllFree(start: Addr, pool: nat, m: Memory, v: View)
    requires HeapOk(start, pool, m, v)
    ensures Live(m, v) == map[] <==> v.blocks == [start, start + pool - HDR] && v.free == [start]
  {
    hide Ring;
    TiledDistinct(start, pool, v.blocks);
    var b := v.blocks;
    if Live(m, v) == map[] {
      forall i | 0 <= i < |b| - 1 ensures !InUse(m.used, b[i]) {
        SizeAt(start, pool, m, v, i);
        assert b[i] !in Live(m, v);
      }
      if |b| > 2 {
        OneInUse(m.used, b);
      }
      OneFree(m, v);
    }
  }

  lemma OneInUse(used: map<Addr, bool>, b: seq<Addr>)
    requires |b| > 2 && Separate(used, b, NONE) && NONE !in b
    ensures InUse(used, b[0]) || InUse(used, b[1])
  {
    assert Apart(used, b, 0);
  }

  lemma OneFree(m: Memory, v: View)
    requires |v.blocks| == 2 && Marked(m.used, v, NONE) && Ring(m.free, [HEAD] + v.free)
    requires !InUse(m.used, v.blocks[0]) && v.blocks[0] != NONE
    ensures v.free == [v.blocks[0]]
  {
    assert v.blocks[0] in v.free;
    forall k | 0 <= k < |v.free| ensures v.free[k] == v.blocks[0] {
      assert v.free[k] in v.free;
    }
    if |v.free| > 1 {
      FreeDistinct(m.free, v.free);
    }
  }

  lemma FreeDistinct(l: Links, free: seq<Addr>)
    requires Ring(l, [HEAD] + free) && |free| > 1
    ensures free[0] != free[1]
  {
    var c := [HEAD] + free;
    assert c[1] == free[0] && c[2] == free[1];
  }

  lemma LiveIndex(start: Addr, pool: nat, m: Memory, v: View, h: Addr) returns (i: nat)
    requires HeapOk(start, pool, m, v) && h in Live(m, v)
    ensures i + 1 < |v.blocks| && v.blocks[i] == h && InUse(m.used, h) && h != NONE
    ensures h in m.links.next && m.links.next[h] == v.blocks[i + 1] && Size(m, h) >= 0
    ensures Size(m, h) == v.blocks[i + 1] - h - HDR == Live(m, v)[h]
  {
    hide Ring;
    i :| 0 <= i < |v.blocks| && v.blocks[i] == h;
    SizeAt(start, pool, m, v, i);
    TiledDistinct(start, pool, v.blocks);
  }

  lemma UsedLive(start: Addr, pool: nat, m: Memory, v: View, k: nat)
    requires HeapOk(start, pool, m, v) && k + 1 < |v.blocks| && InUse(m.used, v.blocks[k])
    ensures v.blocks[k] in Live(m, v)
  {
    hide Ring;
    SizeAt(start, pool, m, v, k);
    TiledDistinct(start, pool, v.blocks);
  }

  lemma Ends(start: Addr, pool: nat, m: Memory, v: View, i: nat, k: nat)
    requires HeapOk(start, pool, m, v) && i < k < |v.blocks|
    ensures v.blocks[i] + HDR <= v.blocks[k] && v.blocks[|v.blocks| - 1] == start + pool - HDR
    ensures i + 1 < k ==> v.blocks[i + 1] + HDR <= v.blocks[k]
  {
  }

  /** Blocks in use do not overlap. */
  lemma LiveApart(start: Addr, pool: nat, m: Memory, v: View, a: Addr, b: Addr)
    requires HeapOk(start, pool, m, v) && a in Live(m, v) && b in Live(m, v) && a < b
    ensures a + HDR + Live(m, v)[a] <= b && b + HDR + Live(m, v)[b] <= start + pool - HDR
  {
    hide HeapOk, Live, InUse;
    var i := LiveIndex(start, pool, m, v, a);
    var k := LiveIndex(start, pool, m, v, b);
    if k < i {
      Ends(start, pool, m, v, k, i);
    } else {
      Ends(start, pool, m, v, i, k);
    }
    Ends(start, pool, m, v, k, |v.blocks| - 1);
  }
}

/** Growing a block in place by rt_memheap_realloc when the request is so large that the 32-bit sums
    of the guard and of the new header's address wrap. */
module MemHeapWrap {
  import opened RtList
  import opened FreeBlocks
  import opened MemHeapBlocks

  /** The test of rt_memheap_realloc for growing in place: `room` is the old payload plus that of
      the next block. */
  predicate GrowGuard(size: nat, room: nat) { room > (size + MINI) % WORD }

  /** The guard is right unless its sum wraps, which it does for a request within 12 bytes of 2^32:
      then a small free block behind the old one is taken for big enough. */
  lemma GrowGuardExact(size: nat, room: nat)
    requires size < WORD && room < WORD
    ensures (GrowGuard(size, room) <==> room > size + MINI) <==> size + MINI < WORD || room <= size + MINI - WORD
  {
  }

  /** Where the new header is built: `ptr + newsize` in 32 bits, `ptr` being the payload of `h`. */
  function NewHeader(h: Addr, size: nat): Addr { (h + HDR + size) % WORD }

  /** Once the wrapped guard is passed the new header does not lie behind the block but within the
      block's own header, above its `magic`, `pool_ptr` and `next` fields. */
  lemma NewHeaderInOld(h: Addr, size: nat)
    requires h + HDR < WORD && size < WORD <= size + MINI
    ensures h + 12 <= NewHeader(h, size) <= h + HDR
    ensures size > 0 && size % 4 == 0 ==> NewHeader(h, size) < h + HDR
  {
  }

  /** The stores of the growing branch in that case. The next block is unlinked and the new header is
      built at `at`; of the header at `h` only the three lower fields survive. */
  function GrowOver(m: Memory, h: Addr, next: Addr, at: Addr): Memory
    requires next in m.links.next && next in m.links.prev && next in m.free.next && next in m.free.prev
    requires h in m.links.next && m.links.prev[next] == h
    requires HEAD in m.free.next && m.free.prev[next] in m.free.next
  {
    var m1 := MergeRight(m, next);
    var m2 := BuildHeader(m1, at);
    var m3 := m2.(links := InsertAfter(m2.links.(next := m2.links.next[h := m1.links.next[h]]), h, at),
                  used := m2.used[h := true]);
    Push(m3, at)
  }

  /** The blocks in front of `h` are linked as before, so every list of blocks starts with them. */
  lemma {:induction false} SameFront(start: Addr, pool: nat, l: Links, b: seq<Addr>, l2: Links, c: seq<Addr>, k: nat)
    requires Tiled(start, pool, b) && Tiled(start, pool, c) && Ring(l, b) && Ring(l2, c) && k < |b|
    requires forall i :: 0 <= i < k ==> b[i] in l2.next && l2.next[b[i]] == b[i + 1]
    ensures k < |c| && c[k] == b[k]
  {
    if k > 0 {
      SameFront(start, pool, l, b, l2, c, k - 1);
      assert l2.next[c[k - 1]] == c[if k == |c| then 0 else k];
      assert b[0] + HDR <= b[k];
    }
  }

  /** After the wrapped guard was passed the memory is no heap any more, whatever blocks and free
      list one looks for: two headers overlap in the block list. */
  lemma HeapLost(start: Addr, pool: nat, m: Memory, v: View, i: nat, at: Addr)
    requires HeapOk(start, pool, m, v) && i + 1 < |v.blocks| && v.blocks[i] < at < v.blocks[i] + HDR
    requires !InUse(m.used, v.blocks[i + 1])
    ensures var h, next := v.blocks[i], v.blocks[i + 1];
      && next in m.links.next && next in m.links.prev && next in m.free.next && next in m.free.prev
      && h in m.links.next && m.links.prev[next] == h && m.free.prev[next] in m.free.next && HEAD in m.free.next
      && h in GrowOver(m, h, next, at).links.next && GrowOver(m, h, next, at).links.next[h] == at
      && forall v2 :: !HeapOk(start, pool, GrowOver(m, h, next, at), v2)
  {
    var b := v.blocks;
    var h, next := b[i], b[i + 1];
    NextFreeLinked(start, pool, m, v, i);
    var m2 := GrowOver(m, h, next, at);
    assert m2.links.next[h] == at;
    forall k | 0 <= k < i ensures b[k] in m2.links.next && m2.links.next[b[k]] == b[k + 1] {
      assert m.links.next[b[k]] == b[k + 1] && b[k] + HDR <= h;
    }
    forall v2 ensures !HeapOk(start, pool, m2, v2) {
      if HeapOk(start, pool, m2, v2) {
        SameFront(start, pool, m.links, b, m2.links, v2.blocks, i);
        Overlap(start, pool, m2.links, v2.blocks, i, at);
      }
    }
  }

  lemma Overlap(start: Addr, pool: nat, l: Links, c: seq<Addr>, i: nat, at: Addr)
    requires Tiled(start, pool, c) && Ring(l, c) && i < |c| && l.next[c[i]] == at
    ensures !(c[i] < at < c[i] + HDR)
  {
    assert at == c[if i + 1 == |c| then 0 else i + 1];
    assert i > 0 ==> c[0] + HDR <= c[i];
  }

  lemma NextFreeLinked(start: Addr, pool: nat, m: Memory, v: View, i: nat)
    requires HeapOk(start, pool, m, v) && i + 1 < |v.blocks| && !InUse(m.used, v.blocks[i + 1])
    ensures var h, next := v.blocks[i], v.blocks[i + 1];
      && next in m.links.next && next in m.links.prev && next in m.free.next && next in m.free.prev
      && h in m.links.next && m.links.prev[next] == h && m.free.prev[next] in m.free.next && HEAD in m.free.next
  {
    var b := v.blocks;
    assert m.links.next[b[i]] == b[i + 1];
    TiledDistinct(start, pool, b);
    assert b[i + 1] in v.blocks;
    var j :| 0 <= j < |v.free| && v.free[j] == b[i + 1];
    var c := [HEAD] + v.free;
    assert c[j + 1] == b[i + 1] && m.free.next[c[j]] == c[j + 1] && c[0] == HEAD;
  }
}

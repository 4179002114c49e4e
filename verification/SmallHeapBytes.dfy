/** The payload bytes of the small heap of mem.c, by offset; an offset outside the map holds an
    unspecified value. */
module SmallHeapBytes {
  import opened RtList
  import opened FreeBlocks
  import opened SmallHeapBlocks

  type Bytes = map<Addr, int>

  /** Building a header at `at` destroys what the memory held. */
  function Wiped(bytes: Bytes, at: Addr): Bytes { map x | x in bytes && !(at <= x < at + HDR) :: bytes[x] }

  predicate SameAt(bytes: Bytes, x: Addr, bytes2: Bytes, y: Addr) {
    (x in bytes <==> y in bytes2) && (x in bytes ==> bytes[x] == bytes2[y])
  }

  predicate SameStep(bytes: Bytes, p: Addr, bytes2: Bytes, q: Addr, k: nat) { SameAt(bytes, p + k, bytes2, q + k) }

  ghost predicate Kept(bytes: Bytes, bytes2: Bytes, from: int, to: int) {
    forall x: Addr :: from <= x < to ==> SameAt(bytes, x, bytes2, x)
  }

  /** Every block in use, except perhaps `x`, has kept its payload. */
  ghost predicate OthersKept(u: map<Addr, bool>, b: seq<Addr>, x: Addr, bytes: Bytes, bytes2: Bytes) {
    forall a: Addr, e: Addr :: Lies(u, b, a, e) && a != x ==> Kept(bytes, bytes2, a + HDR, e)
  }

  /** The `n` bytes at `p` before are the `n` bytes at `q` after. */
  ghost predicate Carried(bytes: Bytes, p: Addr, bytes2: Bytes, q: Addr, n: int) {
    forall k: nat :: k < n ==> SameStep(bytes, p, bytes2, q, k)
  }

  lemma NothingWritten(u: map<Addr, bool>, b: seq<Addr>, x: Addr, bytes: Bytes, p: Addr, n: int)
    ensures OthersKept(u, b, x, bytes, bytes) && Carried(bytes, p, bytes, p, n)
  {
  }

  /** Other blocks lie in front of or behind the place of block `k`. */
  lemma LiesElsewhere(size: nat, u: map<Addr, bool>, b: seq<Addr>, k: nat, a: Addr, e: Addr)
    requires Tiled(size, b) && k + 1 < |b| && Lies(u, b, a, e) && a != b[k]
    ensures e <= b[k] || b[k + 1] <= a
  {
    var j :| 0 <= j < |b| - 1 && b[j] == a && Reaches(b, j, e);
    assert j + 1 < k ==> b[j + 1] + HDR < b[k];
    assert k + 1 < j ==> b[k + 1] + HDR < b[j];
  }

  lemma WipeKeeps(size: nat, u: map<Addr, bool>, b: seq<Addr>, k: nat, at: Addr, bytes: Bytes)
    requires Tiled(size, b) && k + 1 < |b| && b[k] + HDR <= at && at + HDR <= b[k + 1]
    ensures OthersKept(u, b, b[k], bytes, Wiped(bytes, at))
    ensures Kept(bytes, Wiped(bytes, at), b[k] + HDR, at)
    ensures Carried(bytes, b[k] + HDR, Wiped(bytes, at), b[k] + HDR, at - b[k] - HDR)
  {
    hide Lies, Tiled;
    forall a: Addr, e: Addr | Lies(u, b, a, e) && a != b[k] ensures Kept(bytes, Wiped(bytes, at), a + HDR, e) {
      LiesElsewhere(size, u, b, k, a, e);
    }
  }

  /** A block that is not in use is no exception. */
  lemma UnusedKeeps(u: map<Addr, bool>, b: seq<Addr>, x: Addr, bytes: Bytes, bytes2: Bytes)
    requires OthersKept(u, b, x, bytes, bytes2) && !InUse(u, x)
    ensures OthersKept(u, b, NOWHERE, bytes, bytes2)
  {
    hide Kept;
  }

  /** Copying `n` bytes from `src` into block `a`, which has room for them. */
  lemma CopyKeeps(u: map<Addr, bool>, b: seq<Addr>, size: nat, j: nat, bytes: Bytes, src: Addr, n: nat)
    requires Tiled(size, b) && j + 1 < |b| && b[j] + HDR + n <= b[j + 1]
    requires src + n <= b[j] || b[j + 1] <= src
    ensures OthersKept(u, b, b[j], bytes, Copy(bytes, b[j] + HDR, src, n))
    ensures Carried(bytes, src, Copy(bytes, b[j] + HDR, src, n), b[j] + HDR, n)
  {
    hide Lies, Tiled, Copy;
    var r := Copy(bytes, b[j] + HDR, src, n);
    forall a: Addr, e: Addr | Lies(u, b, a, e) && a != b[j] ensures Kept(bytes, r, a + HDR, e) {
      LiesElsewhere(size, u, b, j, a, e);
      forall x: Addr | a + HDR <= x < e ensures SameAt(bytes, x, r, x) {
        CopyAt(bytes, b[j] + HDR, src, n, x);
      }
    }
    var dst: Addr := b[j] + HDR;
    forall k: nat | k < n ensures SameStep(bytes, src, r, dst, k) {
      CopyAt(bytes, b[j] + HDR, src, n, b[j] + HDR + k);
    }
  }

  /** First a block was allocated at `x`, which was not in use, then bytes were copied into it. */
  lemma KeptThrough(u: map<Addr, bool>, b: seq<Addr>, u2: map<Addr, bool>, c: seq<Addr>, x: Addr,
                    bytes: Bytes, bytes1: Bytes, bytes2: Bytes)
    requires Stays(u, b, u2, c, NOWHERE) && !InUse(u, x) && NOWHERE !in b
    requires OthersKept(u, b, NOWHERE, bytes, bytes1) && OthersKept(u2, c, x, bytes1, bytes2)
    ensures OthersKept(u, b, NOWHERE, bytes, bytes2)
  {
    forall a: Addr, e: Addr | Lies(u, b, a, e) ensures Kept(bytes, bytes2, a + HDR, e) {
      assert Lies(u2, c, a, e);
      KeptTwice(bytes, bytes1, bytes2, a + HDR, e);
    }
  }

  lemma KeptTwice(bytes: Bytes, bytes1: Bytes, bytes2: Bytes, from: int, to: int)
    requires Kept(bytes, bytes1, from, to) && Kept(bytes1, bytes2, from, to)
    ensures Kept(bytes, bytes2, from, to)
  {
    forall x: Addr | from <= x < to ensures SameAt(bytes, x, bytes2, x) {
      assert SameAt(bytes, x, bytes1, x) && SameAt(bytes1, x, bytes2, x);
    }
  }

  /** The owner's bytes were kept by the allocation and then copied. */
  lemma CarriedThrough(u: map<Addr, bool>, b: seq<Addr>, h: Addr, e: Addr, bytes: Bytes, bytes1: Bytes, bytes2: Bytes,
                       q: Addr, n: int)
    requires Lies(u, b, h, e) && h != NOWHERE && OthersKept(u, b, NOWHERE, bytes, bytes1) && n <= e - h - HDR
    requires Carried(bytes1, h + HDR, bytes2, q, n)
    ensures Carried(bytes, h + HDR, bytes2, q, n)
  {
    hide Lies;
    var p: Addr := h + HDR;
    forall k: nat | k < n ensures SameStep(bytes, p, bytes2, q, k) {
      assert SameStep(bytes1, p, bytes2, q, k) && SameAt(bytes, p + k, bytes1, p + k);
    }
  }

  lemma StoreKeeps(size: nat, u: map<Addr, bool>, b: seq<Addr>, k: nat, bytes: Bytes, at: Addr, x: int)
    requires Tiled(size, b) && k + 1 < |b| && b[k] + HDR <= at < b[k + 1]
    ensures OthersKept(u, b, b[k], bytes, bytes[at := x])
  {
    hide Lies, Tiled;
    forall a: Addr, e: Addr | Lies(u, b, a, e) && a != b[k] ensures Kept(bytes, bytes[at := x], a + HDR, e) {
      LiesElsewhere(size, u, b, k, a, e);
    }
  }

  /** rt_memcpy from block `h` into the block just allocated at `x`. */
  lemma MoveKeeps(size: nat, u: map<Addr, bool>, b: seq<Addr>, u2: map<Addr, bool>, c: seq<Addr>, h: Addr, e0: Addr,
                  x: Addr,
                  want: int, len: nat, bytes: Bytes, bytes1: Bytes)
    requires Tiled(size, c) && Stays(u, b, u2, c, NOWHERE) && NOWHERE !in b && !InUse(u, x)
    requires Lies(u, b, h, e0) && HasRoom(u2, c, x, want) && len <= want && len <= e0 - h - HDR
    requires OthersKept(u, b, NOWHERE, bytes, bytes1)
    ensures var bytes2 := Copy(bytes1, x + HDR, h + HDR, len);
      OthersKept(u, b, NOWHERE, bytes, bytes2) && Carried(bytes, h + HDR, bytes2, x + HDR, len)
  {
    hide Tiled, Copy, OthersKept, Carried, Stays;
    assert InUse(u, h) && h in b;
    var e: Addr :| Lies(u2, c, x, e) && e - x - HDR >= want;
    var i := LiesIndex(u2, c, x, e);
    StaysAt(u, b, u2, c, h, e0);
    LiesElsewhere(size, u2, c, i, h, e0);
    CopyKeeps(u2, c, size, i, bytes1, h + HDR, len);
    var bytes2 := Copy(bytes1, x + HDR, h + HDR, len);
    KeptThrough(u, b, u2, c, x, bytes, bytes1, bytes2);
    CarriedThrough(u, b, h, e0, bytes, bytes1, bytes2, x + HDR, len);
  }

  lemma FewerKept(u: map<Addr, bool>, b: seq<Addr>, x: Addr, bytes: Bytes, bytes2: Bytes)
    requires OthersKept(u, b, NOWHERE, bytes, bytes2) && NOWHERE !in b
    ensures OthersKept(u, b, x, bytes, bytes2)
  {
    hide Kept;
  }
}

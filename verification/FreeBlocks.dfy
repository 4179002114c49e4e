/** Sequences of memory blocks, some of them unused, of which no two neighbours are: what the heaps
    of memheap.c and mem.c share. */
module FreeBlocks {
  import opened RtList

  type Addr = nat

  const WORD: nat := 0x1_0000_0000

  /** RT_ALIGN to four bytes in 32-bit arithmetic. */
  function Align(size: nat): nat { ((size + 3) % WORD) / 4 * 4 }

  /** A maximum so far. */
  function Higher(mark: int, now: int): (h: int)
    ensures h >= mark && h >= now && (h == mark || h == now)
  {
    if now > mark then now else mark
  }

  function Least(a: int, b: int): (l: int)
    ensures l <= a && l <= b && (l == a || l == b)
  {
    if a < b then a else b
  }

  predicate InUse(used: map<Addr, bool>, a: Addr) { a in used && used[a] }

  predicate Apart(used: map<Addr, bool>, b: seq<Addr>, i: nat)
    requires i + 1 < |b|
  {
    InUse(used, b[i]) || InUse(used, b[i + 1])
  }

  /** No two neighbours are both unused, except perhaps next to `y`. */
  ghost predicate Separate(used: map<Addr, bool>, b: seq<Addr>, y: Addr) {
    forall i :: 0 <= i < |b| - 1 ==> Apart(used, b, i) || b[i] == y || b[i + 1] == y
  }

  ghost function Less(s: seq<Addr>, k: nat): seq<Addr>
    requires k < |s|
  {
    s[..k] + s[k + 1..]
  }

  lemma LessShape(b: seq<Addr>, k: nat)
    requires 0 < k && k + 1 < |b|
    ensures |Less(b, k)| == |b| - 1 && Less(b, k)[k - 1] == b[k - 1] && Less(b, k)[k] == b[k + 1]
  {
  }

  lemma LessMembers(s: seq<Addr>, k: nat)
    requires k < |s| && forall i, j :: 0 <= i < j < |s| ==> s[i] != s[j]
    ensures forall x :: x in Less(s, k) <==> x in s && x != s[k]
  {
    forall x | x in s && x != s[k] ensures x in Less(s, k) {
      var i :| 0 <= i < |s| && s[i] == x;
      assert Less(s, k)[if i < k then i else i - 1] == x;
    }
  }

  /** The neighbours of an unused block are in use, unless the exempt block is one of them. */
  lemma Neighbour(used: map<Addr, bool>, b: seq<Addr>, y: Addr, i: nat, k: nat)
    requires Separate(used, b, y) && i < |b| && k < |b| && (i + 1 == k || k + 1 == i)
    requires b[i] != y && b[k] != y && !InUse(used, b[i])
    ensures InUse(used, b[k])
  {
    assert Apart(used, b, if i < k then i else k);
  }

  /** Only one place is left where two unused blocks might touch, and they do not. */
  lemma SeparateDone(used: map<Addr, bool>, b: seq<Addr>, k: nat)
    requires k + 1 < |b| && (forall i, j :: 0 <= i < j < |b| ==> b[i] != b[j])
    requires Separate(used, b, b[k]) && InUse(used, b[k + 1]) && (k > 0 ==> InUse(used, b[k - 1]))
    ensures forall y: Addr :: Separate(used, b, y)
  {
    forall i | 0 <= i < |b| - 1 ensures Apart(used, b, i) {
    }
  }

  lemma SeparateSplit(u1: map<Addr, bool>, u2: map<Addr, bool>, b: seq<Addr>, i: nat, at: Addr, z: Addr)
    requires i + 1 < |b| && Separate(u1, b, z) && z !in b
    requires forall k :: 0 <= k < |b| ==> (InUse(u2, b[k]) <==> InUse(u1, b[k]))
    ensures Separate(u2, Inserted(b, i + 1, at), at)
  {
    var c := Inserted(b, i + 1, at);
    forall k | 0 <= k < |c| - 1 ensures Apart(u2, c, k) || c[k] == at || c[k + 1] == at {
      if k < i {
        assert Apart(u1, b, k);
      } else if k > i + 1 {
        assert Apart(u1, b, k - 1);
      }
    }
  }

  /** Removing an unused block next to the exempt one keeps the rest apart. */
  lemma SeparateLess(used: map<Addr, bool>, b: seq<Addr>, i: nat, y: Addr)
    requires 0 < i < |b| - 1 && Separate(used, b, y) && (b[i] == y || b[i - 1] == y)
    requires forall p, q :: 0 <= p < q < |b| ==> b[p] != b[q]
    ensures Separate(used, Less(b, i), b[i - 1])
  {
    var c := Less(b, i);
    forall k | 0 <= k < |c| - 1 ensures Apart(used, c, k) || c[k] == b[i - 1] || c[k + 1] == b[i - 1] {
      if k + 1 < i {
        assert Apart(used, b, k) || b[k] == y || b[k + 1] == y;
      } else if k >= i {
        assert Apart(used, b, k + 1) || b[k + 1] == y || b[k + 2] == y;
      }
    }
  }

  // Cutting a block at `at`

  lemma SplitWhole(b: seq<Addr>, i: nat, at: Addr, c: seq<Addr>)
    requires (forall k :: 0 <= k < |b| ==> b[k] % 4 == 0) && at % 4 == 0 && i + 1 < |b| && c == Inserted(b, i + 1, at)
    ensures forall k :: 0 <= k < |c| ==> c[k] % 4 == 0
  {
    InsertedAt(b, i + 1, at, c);
    assert forall k :: 0 <= k < |c| ==> c[k] == at || c[k] == b[if k <= i then k else k - 1];
  }

  lemma SplitGap(b: seq<Addr>, i: nat, at: Addr, c: seq<Addr>, gap: int, p: nat, q: nat)
    requires i + 1 < |b| && forall i, j :: 0 <= i < j < |b| ==> b[i] + gap <= b[j]
    requires gap > 0 && b[i] + gap <= at && at + gap <= b[i + 1] && c == Inserted(b, i + 1, at) && p < q < |c|
    ensures c[p] + gap <= c[q]
  {
    hide Inserted;
    InsertedAt(b, i + 1, at, c);
    if q == i + 1 {
      assert p < i ==> b[p] + gap <= b[i];
    } else if p == i + 1 {
      assert q > i + 2 ==> b[i + 1] + gap <= b[q - 1];
    } else {
      assert b[if p <= i then p else p - 1] + gap <= b[if q <= i then q else q - 1];
    }
  }

  // Payload bytes

  /** rt_memcpy, byte by byte from the first; an unspecified byte stays unspecified. */
  function Copy(bytes: map<Addr, int>, dst: Addr, src: Addr, n: nat): map<Addr, int> {
    if n == 0 then bytes
    else
      var c := Copy(bytes, dst, src, n - 1);
      if src + n - 1 in c then c[dst + n - 1 := c[src + n - 1]] else c - {dst + n - 1}
  }

  lemma {:induction false} CopyAt(bytes: map<Addr, int>, dst: Addr, src: Addr, n: nat, a: Addr)
    requires dst + n <= src || src + n <= dst
    ensures dst <= a < dst + n ==> (a in Copy(bytes, dst, src, n) <==> a - dst + src in bytes)
    ensures dst <= a < dst + n && a - dst + src in bytes ==> Copy(bytes, dst, src, n)[a] == bytes[a - dst + src]
    ensures !(dst <= a < dst + n) ==> (a in Copy(bytes, dst, src, n) <==> a in bytes)
    ensures !(dst <= a < dst + n) && a in bytes ==> Copy(bytes, dst, src, n)[a] == bytes[a]
  {
    if n > 0 {
      CopyAt(bytes, dst, src, n - 1, a);
      CopyAt(bytes, dst, src, n - 1, src + n - 1);
    }
  }
}

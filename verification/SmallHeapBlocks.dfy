/** The small heap of mem.c on values. Offsets are relative to heap_ptr; headers live inside the heap
    they describe, so building one destroys every header it overlaps. */
module SmallHeapBlocks {
  import opened RtList
  import opened FreeBlocks

  const HDR: int := 12       // SIZEOF_STRUCT_MEM
  const MINI: nat := 12      // MIN_SIZE_ALIGNED
  // no block starts at an odd offset
  const NOWHERE: Addr := 1

  datatype Headers = Headers(next: map<Addr, Addr>, prev: map<Addr, Addr>, used: map<Addr, bool>)

  predicate Spared(k: Addr, a: Addr) { k == a || k + HDR <= a || a + HDR <= k }

  function Scrub<T>(m: map<Addr, T>, a: Addr): map<Addr, T> { map k | k in m && Spared(k, a) :: m[k] }

  // `size` is mem_size_aligned; heap_end lies at offset size + HDR

  ghost predicate Tiled(size: nat, b: seq<Addr>) {
    && |b| >= 2 && b[0] == 0 && b[|b| - 1] == size + HDR && size % 4 == 0
    && (forall i :: 0 <= i < |b| ==> b[i] % 4 == 0)
    && (forall i, j :: 0 <= i < j < |b| ==> b[i] + HDR < b[j])
  }

  /** `prev` mirrors `next`, except at heap_end, whose `prev` the splits do not maintain. */
  ghost predicate Linked(m: Headers, b: seq<Addr>) {
    && (forall i :: 0 <= i < |b| ==> b[i] in m.next && b[i] in m.prev && b[i] in m.used)
    && (forall i :: 0 <= i < |b| - 1 ==> m.next[b[i]] == b[i + 1])
    && (forall i :: 0 < i < |b| - 1 ==> m.prev[b[i]] == b[i - 1])
    && (|b| > 1 ==> m.prev[b[0]] == b[0])
    && (|b| > 0 ==> m.used[b[|b| - 1]])
  }

  ghost predicate Fit(size: nat, m: Headers, b: seq<Addr>) { Tiled(size, b) && Linked(m, b) }

  ghost predicate HeapOk(size: nat, m: Headers, b: seq<Addr>) { Fit(size, m, b) && Separate(m.used, b, NOWHERE) }

  lemma TiledDistinct(size: nat, b: seq<Addr>)
    requires Tiled(size, b)
    ensures forall i, j :: 0 <= i < j < |b| ==> b[i] != b[j]
    ensures NOWHERE !in b
  {
  }

  // Joining and splitting

  /** The two stores by which plug_holes joins block `n` to block `a` before it. */
  function Join(m: Headers, a: Addr, n: Addr): Headers
    requires n in m.next
  {
    m.(next := m.next[a := m.next[n]], prev := m.prev[m.next[n] := a])
  }

  lemma LessTiled(size: nat, b: seq<Addr>, i: nat)
    requires Tiled(size, b) && 0 < i < |b| - 1
    ensures Tiled(size, Less(b, i))
  {
    var c := Less(b, i);
    assert forall k :: 0 <= k < |c| ==> c[k] == b[if k < i then k else k + 1];
  }

  lemma JoinOk(size: nat, m: Headers, b: seq<Addr>, i: nat)
    requires Fit(size, m, b) && 0 < i < |b| - 1
    ensures b[i] in m.next && Fit(size, Join(m, b[i - 1], b[i]), Less(b, i))
  {
    hide Tiled;
    LessTiled(size, b, i);
    var c := Less(b, i);
    assert c[0] == b[0] && c[|c| - 1] == b[|b| - 1];
    var r := Join(m, b[i - 1], b[i]);
    forall k | 0 <= k < |c| ensures JoinedAt(r, c, k) {
      JoinAt(size, m, b, i, c, k);
    }
    LinkedFrom(r, c);
    TiledDistinct(size, b);
  }

  ghost predicate JoinedAt(m: Headers, c: seq<Addr>, k: nat)
    requires k < |c|
  {
    && c[k] in m.next && c[k] in m.prev && c[k] in m.used
    && (k < |c| - 1 ==> m.next[c[k]] == c[k + 1])
    && (0 < k < |c| - 1 ==> m.prev[c[k]] == c[k - 1])
    && (k == 0 && |c| > 1 ==> m.prev[c[0]] == c[0])
    && (k == |c| - 1 ==> m.used[c[k]])
  }

  lemma LinkedFrom(m: Headers, c: seq<Addr>)
    requires forall k :: 0 <= k < |c| ==> JoinedAt(m, c, k)
    ensures Linked(m, c)
  {
    if |c| > 0 {
      assert JoinedAt(m, c, 0) && JoinedAt(m, c, |c| - 1);
    }
    forall i | 0 <= i < |c| ensures c[i] in m.next && c[i] in m.prev && c[i] in m.used {
      assert JoinedAt(m, c, i);
    }
    forall i | 0 < i < |c| - 1 ensures m.prev[c[i]] == c[i - 1] {
      assert JoinedAt(m, c, i);
    }
    forall i | 0 <= i < |c| - 1 ensures m.next[c[i]] == c[i + 1] {
      assert JoinedAt(m, c, i);
    }
  }

  lemma LinkedAt(m: Headers, b: seq<Addr>, k: nat)
    requires Linked(m, b) && k < |b|
    ensures JoinedAt(m, b, k)
  {
  }

  lemma JoinAt(size: nat, m: Headers, b: seq<Addr>, i: nat, c: seq<Addr>, k: nat)
    requires Fit(size, m, b) && 0 < i < |b| - 1 && c == Less(b, i) && k < |c|
    ensures b[i] in m.next && JoinedAt(Join(m, b[i - 1], b[i]), c, k)
  {
    hide Linked, Tiled;
    var k2 := if k < i then k else k + 1;
    assert c[k] == b[k2];
    LinkedAt(m, b, k2);
    LinkedAt(m, b, i);
    LinkedAt(m, b, i - 1);
    LinkedAt(m, b, i + 1);
    TiledDistinct(size, b);
  }

  /** A new, unused header at `at`, cut off the end of block `h`; heap_end is at `end`. */
  function Split(m: Headers, h: Addr, at: Addr, end: Addr): Headers
    requires h in m.next
  {
    var n := m.next[h];
    Headers(Scrub(m.next, at)[at := n][h := at],
            if n != end then Scrub(m.prev, at)[at := h][n := at] else Scrub(m.prev, at)[at := h],
            Scrub(m.used, at)[at := false])
  }

  lemma AllSpared(size: nat, b: seq<Addr>, i: nat, at: Addr)
    requires Tiled(size, b) && i + 1 < |b| && b[i] + HDR < at && at + HDR < b[i + 1]
    ensures forall k :: 0 <= k < |b| ==> Spared(b[k], at) && b[k] != at
  {
    forall k | 0 <= k < |b| ensures Spared(b[k], at) && b[k] != at {
      if k < i {
        assert b[k] + HDR <= b[i];
      } else if k > i + 1 {
        assert b[i + 1] + HDR <= b[k];
      }
    }
  }

  lemma SplitTiled(size: nat, b: seq<Addr>, i: nat, at: Addr, c: seq<Addr>)
    requires Tiled(size, b) && i + 1 < |b| && at % 4 == 0 && b[i] + HDR < at && at + HDR < b[i + 1]
    requires c == Inserted(b, i + 1, at)
    ensures Tiled(size, c)
  {
    hide Inserted;
    InsertedAt(b, i + 1, at, c);
    SplitWhole(b, i, at, c);
    forall p, q | 0 <= p < q < |c| ensures c[p] + HDR < c[q] {
      SplitGap(b, i, at, c, HDR + 1, p, q);
    }
  }

  lemma SplitLinked(size: nat, m: Headers, b: seq<Addr>, i: nat, at: Addr, c: seq<Addr>)
    requires Fit(size, m, b) && i + 1 < |b| && b[i] + HDR < at && at + HDR < b[i + 1] && c == Inserted(b, i + 1, at)
    ensures b[i] in m.next && Linked(Split(m, b[i], at, size + HDR), c)
  {
    hide Inserted, Spared, Tiled, Split;
    AllSpared(size, b, i, at);
    InsertedAt(b, i + 1, at, c);
    LinkedAt(m, b, i);
    var r := Split(m, b[i], at, size + HDR);
    forall k | 0 <= k < |c| ensures JoinedAt(r, c, k) {
      SplitAt(size, m, b, i, at, c, k);
    }
    LinkedFrom(r, c);
  }

  lemma SplitAt(size: nat, m: Headers, b: seq<Addr>, i: nat, at: Addr, c: seq<Addr>, k: nat)
    requires Fit(size, m, b) && i + 1 < |b| && c == Inserted(b, i + 1, at) && k < |c|
    requires forall k :: 0 <= k < |b| ==> Spared(b[k], at) && b[k] != at
    ensures b[i] in m.next && JoinedAt(Split(m, b[i], at, size + HDR), c, k)
  {
    hide Spared, Inserted, Linked, Tiled, Split;
    InsertedAt(b, i + 1, at, c);
    TiledEnd(size, b);
    TiledDistinct(size, b);
    LinkedAt(m, b, i);
    if k == i + 1 {
      SplitNew(m, b[i], at, size + HDR);
    } else {
      var j := if k <= i then k else k - 1;
      LinkedAt(m, b, j);
      SplitOld(m, b[i], at, size + HDR, b[j]);
    }
  }

  lemma SplitNew(m: Headers, h: Addr, at: Addr, end: Addr)
    requires h in m.next
    ensures var r := Split(m, h, at, end);
      at in r.next && at in r.prev && at in r.used && (at != h ==> r.next[at] == m.next[h]) &&
          (at != m.next[h] ==> r.prev[at] == h)
  {
  }

  lemma SplitOld(m: Headers, h: Addr, at: Addr, end: Addr, x: Addr)
    requires h in m.next && Spared(x, at) && x != at && x in m.next && x in m.prev && x in m.used
    ensures var r := Split(m, h, at, end);
      && x in r.next && x in r.prev && x in r.used && r.used[x] == m.used[x]
      && r.next[x] == (if x == h then at else m.next[x])
      && r.prev[x] == if x == m.next[h] && x != end then at else m.prev[x]
  {
  }

  lemma TiledEnd(size: nat, b: seq<Addr>)
    requires Tiled(size, b)
    ensures |b| >= 2 && b[0] == 0 && b[|b| - 1] == size + HDR
  {
  }

  lemma SplitMarks(m: Headers, h: Addr, at: Addr, end: Addr, a: Addr)
    requires h in m.next && Spared(a, at)
    ensures InUse(Split(m, h, at, end).used, a) <==> a != at && InUse(m.used, a)
  {
  }

  // Bytes in use, headers included

  ghost function UsedBytes(used: map<Addr, bool>, b: seq<Addr>): int {
    if |b| < 2 then 0 else (if InUse(used, b[0]) then b[1] - b[0] else 0) + UsedBytes(used, b[1..])
  }

  lemma {:induction false} UsedBytesAt(used: map<Addr, bool>, b: seq<Addr>, k: nat)
    requires k < |b|
    ensures UsedBytes(used, b) == UsedBytes(used, b[..k + 1]) + UsedBytes(used, b[k..])
  {
    if k > 0 {
      UsedBytesAt(used, b[1..], k - 1);
      assert b[1..][..k] == b[..k + 1][1..];
      assert b[1..][k - 1..] == b[k..];
    } else {
      assert b[0..] == b;
    }
  }

  lemma {:induction false} UsedBytesSame(u1: map<Addr, bool>, u2: map<Addr, bool>, b: seq<Addr>)
    requires forall i :: 0 <= i < |b| - 1 ==> (InUse(u1, b[i]) <==> InUse(u2, b[i]))
    ensures UsedBytes(u1, b) == UsedBytes(u2, b)
  {
    if |b| >= 2 {
      assert forall i :: 0 <= i < |b[1..]| - 1 ==> b[1..][i] == b[i + 1];
      UsedBytesSame(u1, u2, b[1..]);
    }
  }

  /** Changing one mark changes the total by that block's size. */
  lemma MarkBytes(used: map<Addr, bool>, b: seq<Addr>, i: nat, mark: bool)
    requires i + 1 < |b| && (forall i, j :: 0 <= i < j < |b| ==> b[i] != b[j]) && InUse(used, b[i]) != mark
    ensures mark ==> UsedBytes(used[b[i] := mark], b) == UsedBytes(used, b) + b[i + 1] - b[i]
    ensures !mark ==> UsedBytes(used[b[i] := mark], b) == UsedBytes(used, b) - b[i + 1] + b[i]
  {
    var u2 := used[b[i] := mark];
    UsedBytesAt(used, b, i);
    UsedBytesAt(u2, b, i);
    UsedBytesSame(used, u2, b[..i + 1]);
    assert b[i..][1..] == b[i + 1..];
    UsedBytesSame(used, u2, b[i + 1..]);
  }

  lemma JoinBytes(used: map<Addr, bool>, b: seq<Addr>, i: nat)
    requires 0 < i < |b| - 1 && !InUse(used, b[i - 1]) && !InUse(used, b[i])
    ensures UsedBytes(used, Less(b, i)) == UsedBytes(used, b)
  {
    var c := Less(b, i);
    UsedBytesAt(used, b, i - 1);
    UsedBytesAt(used, c, i - 1);
    assert c[..i] == b[..i];
    assert c[i - 1..][1..] == b[i + 1..];
    assert b[i - 1..][1..] == b[i..];
    assert b[i..][1..] == b[i + 1..];
  }

  lemma SplitBytes(u1: map<Addr, bool>, u2: map<Addr, bool>, b: seq<Addr>, i: nat, at: Addr)
    requires i + 1 < |b| && !InUse(u2, at) && forall k :: 0 <= k < |b| ==> (InUse(u2, b[k]) <==> InUse(u1, b[k]))
    ensures UsedBytes(u2, Inserted(b, i + 1, at)) == UsedBytes(u1, b) - (if InUse(u1, b[i]) then b[i + 1] - at else 0)
  {
    var c := Inserted(b, i + 1, at);
    UsedBytesAt(u1, b, i);
    UsedBytesAt(u2, c, i);
    assert c[..i + 1] == b[..i + 1];
    UsedBytesSame(u1, u2, b[..i + 1]);
    assert b[i..][1..] == b[i + 1..];
    assert c[i..][1..] == [at] + b[i + 1..];
    assert c[i..][1..][1..] == b[i + 1..];
    UsedBytesSame(u1, u2, b[i + 1..]);
  }

  // The lowest-free pointer

  /** `l` is an unused block or heap_end. */
  ghost predicate Candidate(u: map<Addr, bool>, b: seq<Addr>, l: Addr) {
    b != [] && l in b && (l == b[|b| - 1] || !InUse(u, l))
  }

  ghost predicate Below(u: map<Addr, bool>, b: seq<Addr>, l: Addr) {
    forall i :: 0 <= i < |b| && b[i] < l ==> InUse(u, b[i])
  }

  lemma BelowNext(size: nat, u: map<Addr, bool>, b: seq<Addr>, k: nat)
    requires Tiled(size, b) && k + 1 < |b| && InUse(u, b[k])
    ensures Below(u, b, b[k]) ==> Below(u, b, b[k + 1])
  {
    hide InUse;
    forall i | 0 <= i < |b| && b[i] < b[k + 1] ensures i <= k && (i < k ==> b[i] < b[k]) {
      TiledOrder(size, b, k + 1, i);
    }
  }

  lemma TiledOrder(size: nat, b: seq<Addr>, i: nat, j: nat)
    requires Tiled(size, b) && i < |b| && j < |b|
    ensures i <= j <==> b[i] <= b[j]
  {
  }

  /** ... and every block below it is in use. */
  ghost predicate Lowest(u: map<Addr, bool>, b: seq<Addr>, l: Addr) { Candidate(u, b, l) && Below(u, b, l) }

  /** The lowest-free pointer is determined by the blocks and their marks. */
  lemma LowestUnique(size: nat, u: map<Addr, bool>, b: seq<Addr>, l: Addr, k: Addr)
    requires Tiled(size, b) && InUse(u, b[|b| - 1]) && Lowest(u, b, l) && Lowest(u, b, k)
    ensures l == k
  {
    var i :| 0 <= i < |b| && b[i] == l;
    var j :| 0 <= j < |b| && b[j] == k;
  }

  // What rt_free makes of the blocks

  /** The blocks after block `i` has been freed and joined to its unused neighbours. */
  ghost function Freed(u: map<Addr, bool>, b: seq<Addr>, i: nat): seq<Addr>
    requires i + 1 < |b|
  {
    var c := if i + 2 < |b| && !InUse(u, b[i + 1]) then Less(b, i + 1) else b;
    if i > 0 && !InUse(u, b[i - 1]) then Less(c, i) else c
  }

  /** Freeing what an allocation cut off block `i` puts the blocks back together. */
  lemma RoundTripSplit(u: map<Addr, bool>, b: seq<Addr>, i: nat, at: Addr, z: Addr)
    requires i + 1 < |b| && Separate(u, b, z) && z !in b && !InUse(u, b[i]) && at !in b
    ensures Freed(u[b[i] := true][at := false], Inserted(b, i + 1, at), i) == b
  {
    var c := Inserted(b, i + 1, at);
    InsertedAt(b, i + 1, at, c);
    if i > 0 {
      Neighbour(u, b, z, i, i - 1);
    }
    assert Less(c, i + 1) == b;
  }

  lemma RoundTripWhole(u: map<Addr, bool>, b: seq<Addr>, i: nat, z: Addr)
    requires i + 1 < |b| && Separate(u, b, z) && z !in b && !InUse(u, b[i])
    ensures Freed(u[b[i] := true], b, i) == b
  {
    Neighbour(u, b, z, i, i + 1);
    if i > 0 {
      Neighbour(u, b, z, i, i - 1);
    }
  }

  /** Once nothing is in use the heap is one unused block. */
  lemma AllFree(size: nat, m: Headers, b: seq<Addr>)
    requires HeapOk(size, m, b)
    ensures (forall i :: 0 <= i < |b| - 1 ==> !InUse(m.used, b[i])) <==> b == [0, size + HDR] && !InUse(m.used, 0)
  {
    TiledDistinct(size, b);
    if |b| > 2 {
      FirstApart(m.used, b);
    }
  }

  lemma FirstApart(u: map<Addr, bool>, b: seq<Addr>)
    requires |b| > 2 && Separate(u, b, NOWHERE) && NOWHERE !in b
    ensures InUse(u, b[0]) || InUse(u, b[1])
  {
    assert Apart(u, b, 0);
  }

  // Searching

  /** The test in the search loop of rt_malloc. */
  ghost predicate Suits(u: map<Addr, bool>, b: seq<Addr>, k: nat, want: int, size: int)
    requires k + 1 < |b|
  {
    !InUse(u, b[k]) && b[k + 1] - b[k] - HDR >= want && b[k] < size - want
  }

  /** The search misses an unused block that is big enough only if it is the last one and fits
      exactly: the loop stops one offset early. */
  lemma MissedFit(size: nat, u: map<Addr, bool>, b: seq<Addr>, k: nat, want: nat)
    requires Tiled(size, b) && InUse(u, b[|b| - 1]) && k + 1 < |b| && !InUse(u, b[k]) && b[k + 1] - b[k] - HDR >= want
    ensures Suits(u, b, k, want, size) <==> !(k + 2 == |b| && b[k + 1] - b[k] - HDR == want)
  {
    assert k + 2 < |b| ==> b[k + 1] + HDR <= b[|b| - 1];
  }

  // The steps on the lowest-free pointer

  lemma Indexed(size: nat, b: seq<Addr>, l: Addr) returns (i: nat)
    requires Tiled(size, b) && l in b
    ensures i < |b| && b[i] == l
  {
    i :| 0 <= i < |b| && b[i] == l;
  }

  /** plug_holes moves the pointer only off a block that disappears. */
  lemma JoinLowest(size: nat, u: map<Addr, bool>, b: seq<Addr>, i: nat, l: Addr)
    requires Tiled(size, b) && 0 < i < |b| - 1 && !InUse(u, b[i - 1]) && Candidate(u, b, l)
    ensures var k := if l == b[i] then b[i - 1] else l;
      Candidate(u, Less(b, i), k) && (Lowest(u, b, l) ==> Lowest(u, Less(b, i), k))
  {
    hide InUse, Less, Below;
    TiledDistinct(size, b);
    LessMembers(b, i);
    LessAt(b, i);
    LessBelow(u, b, i, l);
    if l == b[i] {
      BelowLess(u, b, b[i - 1], l);
      LessBelow(u, b, i, b[i - 1]);
    }
  }

  lemma BelowLess(u: map<Addr, bool>, b: seq<Addr>, k: Addr, l: Addr)
    requires k <= l
    ensures Below(u, b, l) ==> Below(u, b, k)
  {
  }

  lemma LessAt(b: seq<Addr>, i: nat)
    requires i < |b|
    ensures var c := Less(b, i); |c| == |b| - 1 && forall j :: 0 <= j < |c| ==> c[j] == b[if j < i then j else j + 1]
  {
  }

  lemma LessBelow(u: map<Addr, bool>, b: seq<Addr>, i: nat, l: Addr)
    requires i < |b|
    ensures Below(u, b, l) ==> Below(u, Less(b, i), l)
  {
    hide Less, InUse;
    LessAt(b, i);
  }

  /** The blocks after rt_realloc cut `at` off block `i` in use, joined to an unused block behind it. */
  ghost function Shrunk(u: map<Addr, bool>, b: seq<Addr>, i: nat, at: Addr): seq<Addr>
    requires i + 1 < |b|
  {
    var c := Inserted(b, i + 1, at);
    if i + 2 < |b| && !InUse(u, b[i + 1]) then Less(c, i + 2) else c
  }

  /** Where plug_holes leaves the pointer. */
  function Moved(u: map<Addr, bool>, b: seq<Addr>, i: nat, at: Addr, l: Addr): Addr
    requires i + 1 < |b|
  {
    if !InUse(u, b[i + 1]) && l == b[i + 1] then at else l
  }

  lemma ShrunkShape(u: map<Addr, bool>, b: seq<Addr>, i: nat, at: Addr, d: seq<Addr>)
    requires i + 1 < |b| && at !in b && d == Shrunk(u, b, i, at) && InUse(u, b[|b| - 1])
    requires forall i, j :: 0 <= i < j < |b| ==> b[i] != b[j]
    ensures |d| > i + 1 && d[i + 1] == at && d[|d| - 1] == b[|b| - 1]
    ensures forall x :: x in d <==> x == at || (x in b && (InUse(u, b[i + 1]) || x != b[i + 1]))
  {
    hide InUse, Inserted, Less;
    var c := Inserted(b, i + 1, at);
    InsertedAt(b, i + 1, at, c);
    assert c[i + 1] == at && c[i + 2] == b[i + 1] && c[|c| - 1] == b[|b| - 1];
    if i + 2 < |b| && !InUse(u, b[i + 1]) {
      InsertedDistinct(b, i + 1, at, c);
      LessMembers(c, i + 2);
      LessAt(c, i + 2);
    }
  }

  lemma InsertedDistinct(b: seq<Addr>, k: nat, at: Addr, c: seq<Addr>)
    requires k <= |b| && at !in b && c == Inserted(b, k, at) && forall i, j :: 0 <= i < j < |b| ==> b[i] != b[j]
    ensures forall i, j :: 0 <= i < j < |c| ==> c[i] != c[j]
  {
  }

  /** A shrinking rt_realloc does not lower the pointer: afterwards it is the lowest exactly if an
      unused block lay below the new one, or the new one was joined to the block it points to. */
  lemma ShrinkLowest(size: nat, u: map<Addr, bool>, u2: map<Addr, bool>, b: seq<Addr>, i: nat, at: Addr, l: Addr)
    requires Tiled(size, b) && i + 1 < |b| && InUse(u, b[i]) && InUse(u, b[|b| - 1]) && Lowest(u, b, l)
    requires b[i] + HDR < at && at + HDR < b[i + 1]
    requires !InUse(u2, at) && forall k :: 0 <= k < |b| ==> (InUse(u2, b[k]) <==> InUse(u, b[k]))
    ensures Lowest(u2, Shrunk(u, b, i, at), Moved(u, b, i, at, l)) <==>
        (l < at || (l == b[i + 1] && !InUse(u, b[i + 1])))
  {
    hide InUse, Lowest, Shrunk, Spared;
    TiledDistinct(size, b);
    AllSpared(size, b, i, at);
    ShrunkShape(u, b, i, at, Shrunk(u, b, i, at));
    ShrinkStep(u, u2, b, i, at, l, Shrunk(u, b, i, at));
  }

  lemma ShrinkStep(u: map<Addr, bool>, u2: map<Addr, bool>, b: seq<Addr>, i: nat, at: Addr, l: Addr, d: seq<Addr>)
    requires i + 1 < |b| && |d| > i + 1 && d[i + 1] == at && !InUse(u2, at) && d[|d| - 1] == b[|b| - 1]
    requires InUse(u, b[|b| - 1]) && Lowest(u, b, l) && b[i] < at < b[i + 1] && at !in b
    requires forall i, j :: 0 <= i < j < |b| ==> b[i] < b[j]
    requires forall k :: 0 <= k < |b| ==> (InUse(u2, b[k]) <==> InUse(u, b[k]))
    requires forall x :: x in d <==> x == at || (x in b && (InUse(u, b[i + 1]) || x != b[i + 1]))
    ensures Lowest(u2, d, Moved(u, b, i, at, l)) <==> (l < at || (l == b[i + 1] && !InUse(u, b[i + 1])))
  {
    var k := if !InUse(u, b[i + 1]) && l == b[i + 1] then at else l;
    var li :| 0 <= li < |b| && b[li] == l;
    assert k in d;
    forall j | 0 <= j < |d| && d[j] != at ensures exists q :: 0 <= q < |b| && b[q] == d[j] {
      assert d[j] in d;
    }
    if l < at || k == at {
      forall j | 0 <= j < |d| && d[j] < k ensures InUse(u2, d[j]) {
        var q :| 0 <= q < |b| && b[q] == d[j];
      }
    }
  }

  // Allocating

  /** `u2` marks the blocks `c` as `u` marked the blocks `b`, but for block `h`. */
  ghost predicate Remarked(u: map<Addr, bool>, b: seq<Addr>, u2: map<Addr, bool>, c: seq<Addr>, h: Addr, mark: bool) {
    forall a: Addr :: a in c ==> (InUse(u2, a) <==> if a == h then mark else a in b && InUse(u, a))
  }

  function Take(m: Headers, h: Addr): Headers { m.(used := m.used[h := true]) }

  lemma TakeFit(size: nat, m: Headers, b: seq<Addr>, i: nat)
    requires Fit(size, m, b) && i < |b|
    ensures Fit(size, Take(m, b[i]), b) && Take(m, b[i]).next == m.next
    ensures forall a :: a != b[i] ==> (InUse(Take(m, b[i]).used, a) <==> InUse(m.used, a))
  {
  }

  lemma TakeWhole(size: nat, m: Headers, b: seq<Addr>, i: nat)
    requires HeapOk(size, m, b) && i + 1 < |b| && !InUse(m.used, b[i])
    ensures var r := Take(m, b[i]);
      && HeapOk(size, r, b) && Remarked(m.used, b, r.used, b, b[i], true)
      && UsedBytes(r.used, b) == UsedBytes(m.used, b) + b[i + 1] - b[i]
  {
    hide UsedBytes;
    TakeFit(size, m, b, i);
    TiledDistinct(size, b);
    MarkBytes(m.used, b, i, true);
    forall k | 0 <= k < |b| - 1 ensures Apart(Take(m, b[i]).used, b, k) {
      assert Apart(m.used, b, k);
    }
  }

  lemma SplitRemarks(size: nat, m: Headers, b: seq<Addr>, i: nat, at: Addr)
    requires Fit(size, m, b) && i + 1 < |b| && b[i] + HDR < at && at + HDR < b[i + 1]
    ensures b[i] in m.next && at !in b && !InUse(Split(m, b[i], at, size + HDR).used, at)
    ensures forall k :: 0 <= k < |b| ==> (InUse(Split(m, b[i], at, size + HDR).used, b[k]) <==> InUse(m.used, b[k]))
  {
    hide Spared;
    AllSpared(size, b, i, at);
    var r := Split(m, b[i], at, size + HDR);
    forall k | 0 <= k < |b| ensures InUse(r.used, b[k]) <==> InUse(m.used, b[k]) {
      SplitMarks(m, b[i], at, size + HDR, b[k]);
    }
  }

  lemma TakePart(size: nat, m: Headers, b: seq<Addr>, i: nat, at: Addr)
    requires HeapOk(size, m, b) && i + 1 < |b| && !InUse(m.used, b[i])
    requires at % 4 == 0 && b[i] + HDR < at && at + HDR < b[i + 1]
    ensures b[i] in m.next
    ensures var r := Take(Split(m, b[i], at, size + HDR), b[i]); var c := Inserted(b, i + 1, at);
      && HeapOk(size, r, c) && Remarked(m.used, b, r.used, c, b[i], true)
      && UsedBytes(r.used, c) == UsedBytes(m.used, b) + at - b[i]
  {
    hide UsedBytes, Split, Inserted, Take, Linked, Tiled, InUse;
    var c := Inserted(b, i + 1, at);
    InsertedAt(b, i + 1, at, c);
    SplitTiled(size, b, i, at, c);
    SplitLinked(size, m, b, i, at, c);
    var s := Split(m, b[i], at, size + HDR);
    SplitRemarks(size, m, b, i, at);
    SplitBytes(m.used, s.used, b, i, at);
    TakeFit(size, s, c, i);
    TakeMarks(s, b[i]);
    TiledDistinct(size, b);
    TiledDistinct(size, c);
    MarkBytes(s.used, c, i, true);
    TakeApart(m.used, Take(s, b[i]).used, b, i, at);
    RemarkedFrom(m.used, b, Take(s, b[i]).used, c, b[i], at);
  }

  lemma TakeMarks(m: Headers, h: Addr)
    ensures Take(m, h).used == m.used[h := true] && InUse(Take(m, h).used, h) && Take(m, h).next == m.next
    ensures forall a :: a != h ==> (InUse(Take(m, h).used, a) <==> InUse(m.used, a))
  {
  }

  lemma RemarkedFrom(u: map<Addr, bool>, b: seq<Addr>, u2: map<Addr, bool>, c: seq<Addr>, h: Addr, at: Addr)
    requires (forall a :: a in c <==> a in b || a == at) && at !in b && !InUse(u2, at) && InUse(u2, h) && h in b
    requires forall k :: 0 <= k < |b| && b[k] != h ==> (InUse(u2, b[k]) <==> InUse(u, b[k]))
    ensures Remarked(u, b, u2, c, h, true)
  {
    hide InUse;
    forall a: Addr | a in c ensures InUse(u2, a) <==> if a == h then true else a in b && InUse(u, a) {
      if a != at {
        var k :| 0 <= k < |b| && b[k] == a;
      }
    }
  }

  lemma TakeApart(u: map<Addr, bool>, u2: map<Addr, bool>, b: seq<Addr>, i: nat, at: Addr)
    requires i + 1 < |b| && Separate(u, b, NOWHERE) && NOWHERE !in b && at !in b && !InUse(u, b[i])
    requires forall p, q :: 0 <= p < q < |b| ==> b[p] != b[q]
    requires forall k :: 0 <= k < |b| && k != i ==> (InUse(u2, b[k]) <==> InUse(u, b[k]))
    requires InUse(u2, b[i]) && !InUse(u2, at)
    ensures Separate(u2, Inserted(b, i + 1, at), NOWHERE)
  {
    hide InUse;
    var c := Inserted(b, i + 1, at);
    InsertedAt(b, i + 1, at, c);
    Neighbour(u, b, NOWHERE, i, i + 1);
    forall k | 0 <= k < |c| - 1 ensures Apart(u2, c, k) {
      if k < i {
        assert Apart(u, b, k);
      } else if k > i + 1 {
        assert Apart(u, b, k - 1);
      }
    }
  }

  /** An allocation at or above the pointer leaves it right, unless it takes the block pointed to. */
  lemma TakeLowest(size: nat, u: map<Addr, bool>, b: seq<Addr>, u2: map<Addr, bool>, c: seq<Addr>, h: Addr, l: Addr)
    requires Tiled(size, b) && Tiled(size, c) && InUse(u, size + HDR) && Candidate(u, b, l) && l <= h && h != size + HDR
    requires Remarked(u, b, u2, c, h, true) && forall a :: a in c && a !in b ==> a > h
    requires forall a :: a in b ==> a in c
    ensures l != h ==> Candidate(u2, c, l)
    ensures Below(u, b, l) ==> Below(u2, c, l)
  {
    if Below(u, b, l) {
      forall k | 0 <= k < |c| && c[k] < l ensures InUse(u2, c[k]) {
        assert c[k] in c;
        var j :| 0 <= j < |b| && b[j] == c[k];
      }
    }
  }

  // Freeing

  lemma FreeOk(size: nat, m: Headers, b: seq<Addr>, i: nat, l: Addr)
    requires HeapOk(size, m, b) && i + 1 < |b| && InUse(m.used, b[i]) && Candidate(m.used, b, l)
    ensures var r := m.(used := m.used[b[i] := false]); var k := if b[i] < l then b[i] else l;
      && Fit(size, r, b) && Separate(r.used, b, b[i]) && !InUse(r.used, b[i])
      && UsedBytes(r.used, b) == UsedBytes(m.used, b) - (b[i + 1] - b[i]) as int
      && Candidate(r.used, b, k) && (Below(m.used, b, l) ==> Below(r.used, b, k))
      && Remarked(m.used, b, r.used, b, b[i], false)
  {
    hide UsedBytes, Tiled, Linked, Candidate, Below, Remarked, Separate;
    TiledDistinct(size, b);
    MarkBytes(m.used, b, i, false);
    FreeLinked(size, m, b, i);
    FreeMarks(m.used, b, i, l);
    assert Separate(m.used[b[i] := false], b, b[i]) by {
      FreeApart(m.used, b, i);
    }
  }

  lemma FreeLinked(size: nat, m: Headers, b: seq<Addr>, i: nat)
    requires Linked(m, b) && Tiled(size, b) && i + 1 < |b|
    ensures Linked(m.(used := m.used[b[i] := false]), b)
  {
    TiledDistinct(size, b);
  }

  lemma FreeApart(u: map<Addr, bool>, b: seq<Addr>, i: nat)
    requires Separate(u, b, NOWHERE) && NOWHERE !in b && i < |b|
    ensures Separate(u[b[i] := false], b, b[i])
  {
    forall k | 0 <= k < |b| - 1
      ensures Apart(u[b[i] := false], b, k) || b[k] == b[i] || b[k + 1] == b[i]
    {
      assert Apart(u, b, k);
    }
  }

  lemma FreeMarks(u: map<Addr, bool>, b: seq<Addr>, i: nat, l: Addr)
    requires i < |b| && Candidate(u, b, l)
    ensures var u2, k := u[b[i] := false], if b[i] < l then b[i] else l;
      !InUse(u2, b[i]) && Candidate(u2, b, k) && (Below(u, b, l) ==> Below(u2, b, k)) &&
          Remarked(u, b, u2, b, b[i], false)
  {
  }

  /** The blocks after rt_malloc took block `k` for `want` bytes. */
  ghost function Cut(b: seq<Addr>, k: nat, want: int): seq<Addr>
    requires k + 1 < |b| && want >= 0
  {
    if b[k + 1] - b[k] - HDR >= want + HDR + MINI then Inserted(b, k + 1, b[k] + HDR + want) else b
  }

  /** Freeing what malloc returned restores the same partition. */
  lemma RoundTrip(size: nat, u: map<Addr, bool>, b: seq<Addr>, k: nat, want: nat, u2: map<Addr, bool>)
    requires Tiled(size, b) && Separate(u, b, NOWHERE) && k + 1 < |b| && !InUse(u, b[k]) && want > 0
    requires Remarked(u, b, u2, Cut(b, k, want), b[k], true)
    ensures |Cut(b, k, want)| >= |b| && Cut(b, k, want)[k] == b[k] && Freed(u2, Cut(b, k, want), k) == b
  {
    hide InUse, Tiled, Separate, Freed, Inserted;
    var c := Cut(b, k, want);
    if b[k + 1] - b[k] - HDR >= want + HDR + MINI {
      var at := b[k] + HDR + want;
      TiledDistinct(size, b);
      RoundTripApart(size, b, k, want);
      InsertedAt(b, k + 1, at, c);
      RoundTripSplit(u, b, k, at, NOWHERE);
      RoundTripMarks(u, b, k, at, u2, c);
      SameFreed(u[b[k] := true][at := false], u2, c, k);
    } else {
      TiledDistinct(size, b);
      assert b[k + 1] in b && (k > 0 ==> b[k - 1] in b);
      RoundTripWhole(u, b, k, NOWHERE);
      OneMark(u, b[k]);
      SameFreed(u[b[k] := true], u2, b, k);
    }
  }

  lemma OneMark(u: map<Addr, bool>, h: Addr)
    ensures forall a :: a != h ==> (InUse(u[h := true], a) <==> InUse(u, a))
  {
  }

  lemma RoundTripMarks(u: map<Addr, bool>, b: seq<Addr>, k: nat, at: Addr, u2: map<Addr, bool>, c: seq<Addr>)
    requires k + 1 < |b| && at !in b && c == Inserted(b, k + 1, at) && Remarked(u, b, u2, c, b[k], true)
    requires forall i, j :: 0 <= i < j < |b| ==> b[i] != b[j]
    ensures var u1 := u[b[k] := true][at := false];
      && k + 1 < |c| && (InUse(u1, c[k + 1]) <==> InUse(u2, c[k + 1]))
      && (k > 0 ==> (InUse(u1, c[k - 1]) <==> InUse(u2, c[k - 1])))
  {
    assert c[k + 1] == at && c[k + 1] in c && b[k] in b;
    if k > 0 {
      assert c[k - 1] == b[k - 1] && c[k - 1] in c && b[k - 1] in b;
    }
  }

  lemma RoundTripApart(size: nat, b: seq<Addr>, k: nat, want: nat)
    requires Tiled(size, b) && k + 1 < |b| && want > 0 && b[k + 1] - b[k] - HDR >= want + HDR + MINI
    ensures b[k] + HDR + want !in b
  {
    hide Spared;
    AllSpared(size, b, k, b[k] + HDR + want);
  }

  lemma SameFreed(u1: map<Addr, bool>, u2: map<Addr, bool>, c: seq<Addr>, k: nat)
    requires k + 1 < |c|
    requires InUse(u1, c[k + 1]) <==> InUse(u2, c[k + 1])
    requires k > 0 ==> (InUse(u1, c[k - 1]) <==> InUse(u2, c[k - 1]))
    ensures Freed(u1, c, k) == Freed(u2, c, k)
  {
  }

  // What stays where it is

  /** A block in use lies from `a` to `e`. */
  ghost predicate Lies(u: map<Addr, bool>, b: seq<Addr>, a: Addr, e: Addr) {
    InUse(u, a) && exists j :: 0 <= j < |b| - 1 && b[j] == a && Reaches(b, j, e)
  }

  predicate Reaches(b: seq<Addr>, j: nat, e: Addr)
    requires j + 1 < |b|
  {
    b[j + 1] == e
  }

  /** Every block in use but `x` keeps its place and its size. */
  ghost predicate Stays(u: map<Addr, bool>, b: seq<Addr>, u2: map<Addr, bool>, c: seq<Addr>, x: Addr) {
    forall a, e :: Lies(u, b, a, e) && a != x ==> Lies(u2, c, a, e)
  }

  lemma CutStays(size: nat, u: map<Addr, bool>, b: seq<Addr>, k: nat, want: nat, u2: map<Addr, bool>)
    requires Tiled(size, b) && k + 1 < |b| && !InUse(u, b[k]) && Remarked(u, b, u2, Cut(b, k, want), b[k], true)
    ensures Stays(u, b, u2, Cut(b, k, want), NOWHERE)
  {
    hide InUse, Inserted, Cut, Tiled;
    var c := Cut(b, k, want);
    forall a, e | Lies(u, b, a, e) ensures Lies(u2, c, a, e) {
      var j :| 0 <= j < |b| - 1 && b[j] == a && Reaches(b, j, e);
      CutAt(b, k, want, j);
      var i := if c == b || j < k then j else j + 1;
      assert c[i] == a && c[i] in c && Reaches(c, i, e);
    }
  }

  /** Where a block other than the one taken is after the cut. */
  lemma CutAt(b: seq<Addr>, k: nat, want: nat, j: nat)
    requires k + 1 < |b| && j + 1 < |b| && j != k
    ensures var c := Cut(b, k, want); var i := if c == b || j < k then j else j + 1;
      i + 1 < |c| && c[i] == b[j] && c[i + 1] == b[j + 1]
  {
  }

  lemma LessPair(b: seq<Addr>, i: nat, c: seq<Addr>, j: nat)
    requires i < |b| && c == Less(b, i) && j + 1 < |b| && j != i && j + 1 != i
    ensures var j2 := if j < i then j else j - 1; j2 + 1 < |c| && c[j2] == b[j] && c[j2 + 1] == b[j + 1]
  {
  }

  /** Removing an unused block behind `x` or an unused one. */
  lemma LessStays(u: map<Addr, bool>, b: seq<Addr>, i: nat, c: seq<Addr>, x: Addr, y: Addr)
    requires 0 < i < |b| - 1 && c == Less(b, i)
    requires b[i - 1] == x || b[i - 1] == y || !InUse(u, b[i - 1])
    requires b[i] == x || b[i] == y || !InUse(u, b[i])
    ensures forall a, e :: Lies(u, b, a, e) && a != x && a != y ==> Lies(u, c, a, e)
  {
    hide InUse, Less;
    forall a, e | Lies(u, b, a, e) && a != x && a != y ensures Lies(u, c, a, e) {
      var j :| 0 <= j < |b| - 1 && b[j] == a && Reaches(b, j, e);
      LessPair(b, i, c, j);
      LiesHere(u, c, if j < i then j else j - 1, a, e);
    }
  }

  lemma LiesMember(u: map<Addr, bool>, b: seq<Addr>, a: Addr, e: Addr)
    requires Lies(u, b, a, e)
    ensures a in b && InUse(u, a)
  {
  }

  lemma LiesRemarked(u: map<Addr, bool>, u2: map<Addr, bool>, b: seq<Addr>, a: Addr, e: Addr)
    requires Lies(u, b, a, e) && InUse(u2, a)
    ensures Lies(u2, b, a, e)
  {
  }

  lemma FreedStays(size: nat, u: map<Addr, bool>, b: seq<Addr>, k: nat, u2: map<Addr, bool>)
    requires Tiled(size, b) && k + 1 < |b| && InUse(u, b[k]) && Remarked(u, b, u2, Freed(u, b, k), b[k], false)
    ensures Stays(u, b, u2, Freed(u, b, k), b[k])
  {
    hide InUse, Tiled, Less, Lies;
    var c := if k + 2 < |b| && !InUse(u, b[k + 1]) then Less(b, k + 1) else b;
    var d := Freed(u, b, k);
    if k + 2 < |b| && !InUse(u, b[k + 1]) {
      LessStays(u, b, k + 1, c, b[k], NOWHERE);
      LessShape(b, k + 1);
      if k > 0 {
        LessPair(b, k + 1, c, k - 1);
      }
    }
    if k > 0 && !InUse(u, b[k - 1]) {
      LessStays(u, c, k, d, b[k], NOWHERE);
    }
    TiledDistinct(size, b);
    forall a, e | Lies(u, b, a, e) && a != b[k] ensures Lies(u2, d, a, e) {
      LiesMember(u, b, a, e);
      assert a != NOWHERE;
      LiesMember(u, d, a, e);
      LiesRemarked(u, u2, d, a, e);
    }
  }

  lemma ShrunkStays(size: nat, u: map<Addr, bool>, b: seq<Addr>, k: nat, at: Addr, u2: map<Addr, bool>)
    requires Tiled(size, b) && k + 1 < |b| && InUse(u, b[k]) && at !in b
    requires forall x :: x in Shrunk(u, b, k, at) ==> (InUse(u2, x) <==> x in b && InUse(u, x))
    ensures Stays(u, b, u2, Shrunk(u, b, k, at), b[k]) && Lies(u2, Shrunk(u, b, k, at), b[k], at)
  {
    hide InUse, Tiled, Less, Lies, Inserted;
    var c := Inserted(b, k + 1, at);
    var d := Shrunk(u, b, k, at);
    InsertStays(u, b, k, at, c);
    InsertedAt(b, k + 1, at, c);
    if k + 2 < |b| && !InUse(u, b[k + 1]) {
      LessStays(u, c, k + 2, d, at, NOWHERE);
      LessPair(c, k + 2, d, k);
    }
    TiledDistinct(size, b);
    forall a, e | Lies(u, b, a, e) && a != b[k] ensures Lies(u2, d, a, e) {
      LiesMember(u, b, a, e);
      assert a != NOWHERE && a != at;
      LiesMember(u, d, a, e);
      LiesRemarked(u, u2, d, a, e);
    }
    LiesHere(u2, d, k, b[k], at);
  }

  lemma LiesHere(u: map<Addr, bool>, d: seq<Addr>, k: nat, a: Addr, e: Addr)
    requires k + 1 < |d| && d[k] == a && d[k + 1] == e && InUse(u, a)
    ensures Lies(u, d, a, e)
  {
    assert Reaches(d, k, e);
  }

  lemma InsertStays(u: map<Addr, bool>, b: seq<Addr>, k: nat, at: Addr, c: seq<Addr>)
    requires k + 1 < |b| && c == Inserted(b, k + 1, at)
    ensures forall a, e :: Lies(u, b, a, e) && a != b[k] ==> Lies(u, c, a, e)
  {
    hide InUse, Inserted;
    InsertedAt(b, k + 1, at, c);
    forall a, e | Lies(u, b, a, e) && a != b[k] ensures Lies(u, c, a, e) {
      var j :| 0 <= j < |b| - 1 && b[j] == a && Reaches(b, j, e);
      var j2 := if j < k then j else j + 1;
      assert c[j2] == a && Reaches(c, j2, e);
    }
  }

  lemma StaysTrans(u: map<Addr, bool>, b: seq<Addr>, u2: map<Addr, bool>, c: seq<Addr>, u3: map<Addr, bool>,
                   d: seq<Addr>, x: Addr)
    requires Stays(u, b, u2, c, NOWHERE) && Stays(u2, c, u3, d, x) && NOWHERE !in b
    ensures Stays(u, b, u3, d, x)
  {
    hide InUse;
  }

  /** The block rt_malloc took. */
  lemma CutLies(u2: map<Addr, bool>, b: seq<Addr>, k: nat, want: nat)
    requires k + 1 < |b| && InUse(u2, b[k]) && b[k + 1] - b[k] - HDR >= want
    ensures var e := if b[k + 1] - b[k] - HDR >= want + HDR + MINI then b[k] + HDR + want else b[k + 1];
      Lies(u2, Cut(b, k, want), b[k], e) && e - b[k] - HDR >= want
  {
    hide InUse;
    var e := if b[k + 1] - b[k] - HDR >= want + HDR + MINI then b[k] + HDR + want else b[k + 1];
    var c := Cut(b, k, want);
    assert c[k] == b[k] && c[k + 1] == e;
    LiesHere(u2, c, k, b[k], e);
  }

  /** Cutting the end off a block in use leaves a hole. */
  lemma CutMarks(u: map<Addr, bool>, b: seq<Addr>, i: nat, at: Addr, c: seq<Addr>, u2: map<Addr, bool>)
    requires i + 1 < |b| && c == Inserted(b, i + 1, at) && at !in b
    requires forall x :: x in c ==> (InUse(u2, x) <==> x in b && InUse(u, x))
    ensures |c| == |b| + 1 && c[i] == b[i] && c[i + 1] == at && c[i + 2] == b[i + 1]
    ensures !InUse(u2, at) && forall j :: 0 <= j < |b| ==> (InUse(u2, b[j]) <==> InUse(u, b[j]))
  {
    hide Inserted, InUse;
    InsertedAt(b, i + 1, at, c);
    assert forall j :: 0 <= j < |b| ==> b[j] in b && b[j] in c;
  }

  lemma ShrinkOk(size: nat, m: Headers, b: seq<Addr>, k: nat, at: Addr, l: Addr)
    requires HeapOk(size, m, b) && k + 1 < |b| && InUse(m.used, b[k]) && Candidate(m.used, b, l)
    requires at % 4 == 0 && b[k] + HDR < at && at + HDR < b[k + 1]
    ensures b[k] in m.next && at !in b
    ensures var r := Split(m, b[k], at, size + HDR); var c := Inserted(b, k + 1, at);
      && Fit(size, r, c) && k + 2 < |c| && c[k + 1] == at && Separate(r.used, c, at) && !InUse(r.used, at)
      && UsedBytes(r.used, c) == UsedBytes(m.used, b) - (b[k + 1] - at) as int && Candidate(r.used, c, l)
      && Freed(r.used, c, k + 1) == Shrunk(m.used, b, k, at)
      && forall x :: x in c ==> (InUse(r.used, x) <==> x in b && InUse(m.used, x))
  {
    hide UsedBytes, Split, Inserted, Linked, Tiled, InUse, Separate, Candidate, Less;
    var c := Inserted(b, k + 1, at);
    InsertedAt(b, k + 1, at, c);
    SplitTiled(size, b, k, at, c);
    SplitLinked(size, m, b, k, at, c);
    SplitRemarks(size, m, b, k, at);
    var r := Split(m, b[k], at, size + HDR);
    SplitBytes(m.used, r.used, b, k, at);
    TiledDistinct(size, b);
    SeparateSplit(m.used, r.used, b, k, at, NOWHERE);
    MembersMarked(m.used, b, r.used, c, at);
    CandidateInserted(m.used, b, r.used, c, at, l);
  }

  lemma MembersMarked(u: map<Addr, bool>, b: seq<Addr>, u2: map<Addr, bool>, c: seq<Addr>, at: Addr)
    requires (forall x :: x in c <==> x in b || x == at) && at !in b && !InUse(u2, at)
    requires forall k :: 0 <= k < |b| ==> (InUse(u2, b[k]) <==> InUse(u, b[k]))
    ensures forall x :: x in c ==> (InUse(u2, x) <==> x in b && InUse(u, x))
  {
    hide InUse;
    forall x | x in b ensures InUse(u2, x) <==> InUse(u, x) {
      var k :| 0 <= k < |b| && b[k] == x;
    }
  }

  lemma CandidateInserted(u: map<Addr, bool>, b: seq<Addr>, u2: map<Addr, bool>, c: seq<Addr>, at: Addr, l: Addr)
    requires Candidate(u, b, l) && (forall x :: x in c <==> x in b || x == at) && c != [] && c[|c| - 1] == b[|b| - 1]
    requires forall x :: x in c ==> (InUse(u2, x) <==> x in b && InUse(u, x))
    ensures Candidate(u2, c, l)
  {
  }

  /** What rt_malloc does to the headers. */
  function Taken(m: Headers, h: Addr, want: nat, end: Addr): Headers
    requires h in m.next
  {
    if m.next[h] - (h + HDR) >= want + HDR + MINI then Take(Split(m, h, h + HDR + want, end), h) else Take(m, h)
  }

  lemma TakenOk(size: nat, m: Headers, b: seq<Addr>, k: nat, want: nat, l: Addr)
    requires HeapOk(size, m, b) && k + 1 < |b| && !InUse(m.used, b[k]) && want % 4 == 0 && want >= MINI
    requires Candidate(m.used, b, l) && l <= b[k]
    ensures b[k] in m.next && m.next[b[k]] == b[k + 1] && b[k] + HDR < b[k + 1] && b[k] < size + HDR && b[k] % 4 == 0
    ensures var r := Taken(m, b[k], want, size + HDR); var c := Cut(b, k, want);
      && HeapOk(size, r, c) && Remarked(m.used, b, r.used, c, b[k], true) && l in c && b[k] in c
      && UsedBytes(r.used, c) == UsedBytes(m.used, b) +
           (if b[k + 1] - b[k] - HDR >= want + HDR + MINI then want + HDR else b[k + 1] as int - b[k])
      && (l != b[k] ==> Candidate(r.used, c, l))
      && (Below(m.used, b, l) ==> Below(r.used, c, l))
  {
    hide UsedBytes, Split, Take, InUse, Separate, Below, Candidate, Remarked, Inserted, Tiled, Linked, Spared;
    LinkedAt(m, b, k);
    TiledGaps(size, b, k);
    TiledDistinct(size, b);
    var c := Cut(b, k, want);
    if b[k + 1] - b[k] - HDR >= want + HDR + MINI {
      var at := b[k] + HDR + want;
      AllSpared(size, b, k, at);
      TakePart(size, m, b, k, at);
      InsertedAt(b, k + 1, at, c);
    } else {
      TakeWhole(size, m, b, k);
    }
    LastUsed(size, m, b);
    CandidateIn(m.used, b, l);
    TakeLowest(size, m.used, b, Taken(m, b[k], want, size + HDR).used, c, b[k], l);
  }

  lemma CandidateIn(u: map<Addr, bool>, b: seq<Addr>, l: Addr)
    requires Candidate(u, b, l)
    ensures l in b
  {
  }

  lemma LastUsed(size: nat, m: Headers, b: seq<Addr>)
    requires Fit(size, m, b)
    ensures InUse(m.used, size + HDR)
  {
    assert b[|b| - 1] == size + HDR;
  }

  lemma TiledGaps(size: nat, b: seq<Addr>, k: nat)
    requires Tiled(size, b) && k + 1 < |b|
    ensures b[k] + HDR < b[k + 1] <= size + HDR && b[k] < size && b[k] % 4 == 0 && b[k + 1] % 4 == 0
  {
    assert k + 1 < |b| - 1 ==> b[k + 1] + HDR < b[|b| - 1];
  }

  /** A block in use at `a` has room for `n` bytes. */
  ghost predicate HasRoom(u: map<Addr, bool>, b: seq<Addr>, a: Addr, n: int) {
    exists e: Addr :: Lies(u, b, a, e) && e - a - HDR >= n
  }

  lemma RoomStays(u: map<Addr, bool>, b: seq<Addr>, u2: map<Addr, bool>, c: seq<Addr>, x: Addr, a: Addr, n: int)
    requires Stays(u, b, u2, c, x) && HasRoom(u, b, a, n) && a != x
    ensures HasRoom(u2, c, a, n)
  {
    hide Lies;
  }

  lemma LiesIndex(u: map<Addr, bool>, b: seq<Addr>, a: Addr, e: Addr) returns (k: nat)
    requires Lies(u, b, a, e)
    ensures k + 1 < |b| && b[k] == a && b[k + 1] == e && InUse(u, a)
  {
    k :| 0 <= k < |b| - 1 && b[k] == a && Reaches(b, k, e);
  }

  lemma StaysAt(u: map<Addr, bool>, b: seq<Addr>, u2: map<Addr, bool>, c: seq<Addr>, a: Addr, e: Addr)
    requires Stays(u, b, u2, c, NOWHERE) && Lies(u, b, a, e) && a != NOWHERE
    ensures Lies(u2, c, a, e)
  {
  }
}

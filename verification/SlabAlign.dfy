/** Which blocks of rt_malloc in slab.c are aligned to their size. The API promises it of all powers of
    two. */
module SlabAlign {
  import opened PageRuns
  import opened SlabGeometry
  import opened SlabState
  import opened SlabSteps
  import opened SlabCalls

  /** The start of the first run of at least `n` pages, 0 if there is none. */
  function FirstFit(r: seq<Run>, n: nat): Page {
    if r == [] then 0 else if r[0].pages >= n then r[0].start else FirstFit(r[1..], n)
  }

  lemma {:induction false} FitGranted(r: seq<Run>, n: nat)
    ensures Alloc(r, n).page == FirstFit(r, n)
  {
    if r != [] {
      FitGranted(r[1..], n);
    }
  }

  /** The page at which the zone or the large block starts that serves a request of `n` bytes: the first
      listed zone of its class, the first retired zone, or the first run that is long enough. */
  function Where(size: nat, s: Slab, n: nat): Page
    requires |s.arrays| == ZONES && ZoneSize(size) && n > 0
  {
    if n >= Limit(size) then FirstFit(s.runs, PagesFor(n))
    else
      ZoneIndexOk(n);
      var i := ZoneIndex(n).index;
      if s.arrays[i] != [] then s.arrays[i][0]
      else if s.zoneFree != [] then s.zoneFree[0]
      else FirstFit(s.runs, size / PAGE)
  }

  // Powers of two

  lemma PowerClass(n: nat)
    requires Power2(n) && n < 16384
    ensures ZoneIndex(n).chunk == (if n < 8 then 8 else n) && Power2(ZoneIndex(n).chunk)
    ensures ZoneIndex(n).chunk % n == 0
  {
    if n < 8 {
      assert !Power2(3) && !Power2(5) && !Power2(6) && !Power2(7);
      Double(1);
      Double(2);
      Double(4);
    } else {
      PowerValue(n);
    }
  }

  lemma {:induction false} WholePages(n: nat)
    requires Power2(n) && n > PAGE
    ensures n % PAGE == 0 && n / PAGE >= 2
    decreases n
  {
    if n / 2 > PAGE {
      WholePages(n / 2);
    } else {
      PowerValue(n / 2);
    }
  }

  /** A page is aligned to `m` pages exactly if its number is a multiple of `m`. */
  lemma PageAligned(p: Page, m: nat)
    requires m > 0
    ensures (p * PAGE) % (m * PAGE) == 0 <==> p % m == 0
  {
    var q, r := p / m, p % m;
    assert p == q * m + r;
    assert p * PAGE == q * (m * PAGE) + r * PAGE by {
      Scaled(q, m, r);
    }
    DivMul(q, m * PAGE, r * PAGE);
  }

  lemma Scaled(q: int, m: int, r: int)
    ensures (q * m + r) * 4096 == q * (m * 4096) + r * 4096
  {
  }

  // Where blocks lie

  /** A listed zone gives one of its chunks. */
  lemma FromZonePlace(size: nat, s: Slab, v: View, i: int) returns (k: nat)
    requires Inv(size, s, v, RELEASE) && Listed(s) && 0 <= i < ZONES && s.arrays[i] != []
    ensures ChunkOf(i) > 0
    ensures FromZone(s, i).ptr == ChunkAt(s.arrays[i][0] * PAGE + Offset(ChunkOf(i)), ChunkOf(i), k)
  {
    hide Pages, Tags, Total, Filled, ChunkAt, Offset, ChunkOf, MaxChunks;
    var z := s.arrays[i][0];
    assert z in s.arrays[i] && Listable(s.zones, s.zoneFree, i, z);
    var zn := s.zones[z];
    assert ZoneOk(size, z, zn, v.small);
    TakenFilled(size, z, zn, v.small);
    k := IndexIn(zn.base, zn.chunk, Chosen(zn));
  }

  /** A new zone gives its first chunk. */
  lemma NewZonePlace(size: nat, s: Slab, i: int)
    requires |s.arrays| == ZONES && 0 <= i < ZONES && s.zoneFree != [] && ChunkOf(i) > 0
    ensures NewZone(size, s, i).ptr == ChunkAt(s.zoneFree[0] * PAGE + Offset(ChunkOf(i)), ChunkOf(i), 0)
  {
    hide Offset, MaxChunks, ChunkOf;
  }

  /** A request below the zone limit gets a chunk of the zone at Where. */
  lemma ChunkPlace(size: nat, s: Slab, live: map<Addr, nat>, n: nat) returns (k: nat)
    requires Sound(size, s, live) && 0 < n < Limit(size) && Listed(s) && MallocOf(size, s, n).ptr != 0
    ensures var c := ZoneIndex(n).chunk;
      c > 0 && MallocOf(size, s, n).ptr == ChunkAt(Where(size, s, n) * PAGE + Offset(c), c, k)
  {
    hide Inv, ChunkAt, Offset, ChunkOf, FromZone, NewZone, ZoneIndex, Alloc, FirstFit;
    var v: View :| v.live == live && Inv(size, s, v, RELEASE);
    ZoneIndexOk(n);
    var i := ZoneIndex(n).index;
    k := 0;
    if s.arrays[i] != [] {
      k := FromZonePlace(size, s, v, i);
    } else if s.zoneFree != [] {
      NewZonePlace(size, s, i);
    } else {
      FitGranted(s.runs, size / PAGE);
      NewZonePlace(size, WithPages(size, s), i);
    }
  }

  /** A request from the zone limit up gets the pages at Where. */
  lemma LargePlace(size: nat, s: Slab, n: nat)
    requires ZoneSize(size) && Listed(s) && n >= Limit(size) && MallocOf(size, s, n).ptr != 0
    ensures MallocOf(size, s, n).ptr == PageAddr(Where(size, s, n))
  {
    hide Alloc, FirstFit, PagesFor;
    FitGranted(s.runs, PagesFor(n));
  }

  /** A heap without zones serves the first request from its one run of pages. */
  lemma FreshPlace(size: nat, usage: map<Page, Usage>, runs: seq<Run>, start: Page, pages: nat, n: nat)
    requires ZoneSize(size) && start > 0 && (runs == if pages == 0 then [] else [Run(start, pages)])
    requires n < WORD && Power2(n) && n > PAGE
    ensures var s := Empty(usage, runs);
      var need := if n >= Limit(size) then n / PAGE else size / PAGE;
      && need > 0
      && (pages >= need ==> Where(size, s, n) == start)
      && (Exhausted(size, s, n) <==> pages < need)
  {
    hide ZoneIndex;
    WholePages(n);
    if n >= Limit(size) {
      PowerPages(n);
    } else {
      ZoneIndexOk(n);
    }
  }

  lemma PowerPages(n: nat)
    requires n < WORD && n % PAGE == 0
    ensures PagesFor(n) == n / PAGE
  {
  }

  // Alignment

  lemma ChunkAligned(z: Page, c: nat, k: nat, n: nat)
    requires Power2(c) && Power2(n) && 0 < n < 16384 && c == ZoneIndex(n).chunk
    ensures var a := ChunkAt(z * PAGE + Offset(c), c, k);
      && (n <= PAGE ==> a % n == 0)
      && (n > PAGE ==> (a % n == 0 <==> (z * PAGE) % n == 0))
  {
    hide ChunkAt, Offset, ZoneIndex;
    PowerClass(n);
    AlignedExact(z, c, k);
    if n <= PAGE {
      ZoneIndexOk(n);
      SmallAligned(z, ZoneIndex(n).index);
      var a := ChunkAt(z * PAGE + Offset(c), c, k);
      Multiple(a, c, n);
    }
  }

  lemma Multiple(a: int, c: nat, n: nat)
    requires n > 0 && c > 0 && a % c == 0 && c % n == 0
    ensures a % n == 0
  {
    var q, m := a / c, c / n;
    assert a == q * c && c == m * n;
    assert q * (m * n) == (q * m) * n;
    MulMod(q * m, n);
  }

  /** A power of two up to a page gets an aligned block, in every state. A larger one gets an aligned
      block exactly if the page it comes from is aligned, whether that is a zone or a run of pages. */
  lemma MallocAligned(size: nat, s: Slab, live: map<Addr, nat>, n: nat)
    requires Sound(size, s, live) && 0 < n < WORD && Power2(n)
    ensures Listed(s)
    ensures var p := MallocOf(size, s, n).ptr;
      p != 0 ==>
        && (n <= PAGE ==> p % n == 0)
        && (n > PAGE ==> (p % n == 0 <==> Where(size, s, n) % (n / PAGE) == 0))
  {
    hide Inv, MallocOf, Where, ZoneIndex, ChunkAt, Offset, Power2;
    MallocOk(size, s, live, n);
    if MallocOf(size, s, n).ptr != 0 {
      var z := Where(size, s, n);
      if n >= Limit(size) {
        LargePlace(size, s, n);
      } else {
        var k := ChunkPlace(size, s, live, n);
        PowerClass(n);
        ChunkAligned(z, ZoneIndex(n).chunk, k, n);
      }
      if n > PAGE {
        WholePages(n);
        assert n == n / PAGE * PAGE;
        PageAligned(z, n / PAGE);
      }
    }
  }
  /** What a heap without zones makes of its first request. */
  lemma FreshAligned(size: nat, s: Slab, start: Page, pages: nat, n: nat)
    requires ZoneSize(size) && Sound(size, s, map[]) && start > 0
    requires s == Empty(s.usage, if pages == 0 then [] else [Run(start, pages)])
    requires n < WORD && Power2(n) && n > PAGE
    ensures Listed(s)
    ensures var p := MallocOf(size, s, n).ptr;
      && (p == 0 <==> pages < if n >= Limit(size) then n / PAGE else size / PAGE)
      && (p % n == 0 <==> p == 0 || start % (n / PAGE) == 0)
  {
    hide Sound, MallocOf, Where, Exhausted, Power2;
    MallocOk(size, s, map[], n);
    FreshPlace(size, s.usage, s.runs, start, pages, n);
    MallocAligned(size, s, map[], n);
  }
}

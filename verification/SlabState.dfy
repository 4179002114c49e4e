/** The state of the slab allocator of slab.c and what every step keeps. */
module SlabState {
  import opened PageRuns
  import opened SlabGeometry

  /** The header of a zone. `base` is z_baseptr, `free` the chunks on the z_freechunk list. */
  datatype Zone = Zone(nfree: int, nmax: int, uindex: int, chunk: nat, index: int, base: Addr, free: seq<Addr>)

  /** struct memusage: what a page is, and the pages of a large block or the offset in a zone. */
  datatype Usage = FreeTag | SmallTag(size: int) | LargeTag(size: int)

  datatype Slab = Slab(
    zones: map<Page, Zone>,
    arrays: seq<seq<Page>>,    // the lists of zone_array[]
    zoneFree: seq<Page>,       // zone_free
    usage: map<Page, Usage>,   // memusage[]
    runs: seq<Run>,            // the page allocator
    used: int, maxUsed: int)

  datatype Owner = FreePage | ZonePage(z: Page) | LargePage(s: Page) | OtherPage

  /** Who has every page, the chunks handed out with their zones, the large blocks with their page
      counts, and the sizes of everything handed out. */
  datatype View = View(owner: map<Page, Owner>, small: map<Addr, Page>, large: map<Page, nat>, live: map<Addr, nat>)

  // The invariant

  /** Free runs, zones of `cnt` pages and large blocks share out the heap. */
  ghost predicate Pages(cnt: nat, zones: set<Page>, large: map<Page, nat>, owner: map<Page, Owner>, runs: seq<Run>) {
    && Canonical(runs)
    && (forall p: Page :: Covers(runs, p) <==> p in owner && owner[p] == FreePage)
    && (forall z, p: Page :: z in zones && InRange(p, z, cnt) ==> p in owner && owner[p] == ZonePage(z))
    && (forall p :: p in owner && owner[p].ZonePage? ==> owner[p].z in zones && InRange(p, owner[p].z, cnt))
    && (forall s, p: Page :: s in large && InRange(p, s, large[s]) ==> p in owner && owner[p] == LargePage(s))
    && (forall p :: p in owner && owner[p].LargePage? ==>
        owner[p].s in large && InRange(p, owner[p].s, large[owner[p].s]))
    && (forall s :: s in large ==> large[s] > 0 && s > 0) && (forall z :: z in zones ==> z > 0)
  }

  predicate InRange(p: Page, start: Page, n: nat) { start <= p < start + n }

  /** The page tags lead from any page of a zone to its start, and tell a large block's length. */
  ghost predicate Tags(large: map<Page, nat>, owner: map<Page, Owner>, usage: map<Page, Usage>) {
    && (forall p :: p in owner && owner[p].ZonePage? ==> p in usage && usage[p] == SmallTag(p - owner[p].z))
    && (forall s :: s in large ==> s in usage && usage[s] == LargeTag(large[s]))
  }

  predicate Held(small: map<Addr, Page>, z: Page, a: Addr) { a in small && small[a] == z }

  function Nth(zn: Zone, k: int): int { ChunkAt(zn.base, zn.chunk, k) }

  /** `a` is one of the chunks of the zone used so far. */
  predicate InZone(zn: Zone, a: Addr) {
    var k := IndexIn(zn.base, zn.chunk, a);
    a == Nth(zn, k) && 0 <= k <= zn.uindex
  }

  ghost predicate Shape(size: nat, z: Page, zn: Zone) {
    && 0 <= zn.index < ZONES && zn.chunk == ChunkOf(zn.index) && zn.chunk > 0
    && zn.base == z * PAGE + Offset(zn.chunk) && zn.nmax == MaxChunks(size, zn.chunk) && 0 <= zn.uindex < zn.nmax
  }

  /** Every chunk used so far is either on the zone's free list or handed out, and they are counted. */
  ghost predicate Filled(z: Page, zn: Zone, small: map<Addr, Page>) {
    && zn.nfree == zn.nmax - 1 - zn.uindex + |zn.free|
    && (forall i, j :: 0 <= i < j < |zn.free| ==> zn.free[i] != zn.free[j])
    && (forall a: Addr :: a in zn.free ==> InZone(zn, a) && !Held(small, z, a))
    && (forall a: Addr :: Held(small, z, a) ==> InZone(zn, a))
    && (forall k: nat :: k <= zn.uindex && Nth(zn, k) >= 0 ==> Nth(zn, k) in zn.free || Held(small, z, Nth(zn, k)))
  }

  ghost predicate ZoneOk(size: nat, z: Page, zn: Zone, small: map<Addr, Page>)
  {
    Shape(size, z, zn) && Filled(z, zn, small)
  }

  ghost predicate Listable(zones: map<Page, Zone>, zoneFree: seq<Page>, i: int, z: Page) {
    z in zones && z !in zoneFree && zones[z].index == i && zones[z].nfree > 0
  }

  /** zone_array[i] lists exactly the zones of index i with free chunks that are not retired. */
  ghost predicate Lists(zones: map<Page, Zone>, arrays: seq<seq<Page>>, zoneFree: seq<Page>, retired: nat) {
    && |arrays| == ZONES
    && (forall i, z: Page :: 0 <= i < ZONES ==> (z in arrays[i] <==> Listable(zones, zoneFree, i, z)))
    && (forall i, j, k :: 0 <= i < ZONES && 0 <= j < k < |arrays[i]| ==> arrays[i][j] != arrays[i][k])
    && (forall j, k :: 0 <= j < k < |zoneFree| ==> zoneFree[j] != zoneFree[k])
    && (forall z :: z in zoneFree ==> z in zones) && |zoneFree| <= retired
  }

  ghost predicate LiveOk(zones: map<Page, Zone>, zoneFree: seq<Page>, v: View) {
    && (forall a :: a in v.small ==> v.small[a] in zones && v.small[a] !in zoneFree
                                     && a in v.live && v.live[a] == zones[v.small[a]].chunk)
    && (forall s :: s in v.large ==> PageAddr(s) in v.live && v.live[PageAddr(s)] == v.large[s] * PAGE)
    && (forall a :: a in v.live ==> a in v.small || IsLarge(v.large, a))
  }

  function PageAddr(p: Page): Addr { p * PAGE }
  function PageOf(a: Addr): Page { a / PAGE }

  predicate IsLarge(large: map<Page, nat>, a: Addr) { PageAddr(PageOf(a)) == a && PageOf(a) in large }

  lemma PageAddrOf(p: Page)
    ensures PageOf(PageAddr(p)) == p
  {
  }

  ghost function Total(m: map<Addr, nat>): nat {
    if m == map[] then 0 else var k :| k in m; m[k] + Total(m - {k})
  }

  ghost predicate Zones(size: nat, s: Slab, small: map<Addr, Page>) {
    forall z :: z in s.zones && z !in s.zoneFree ==> ZoneOk(size, z, s.zones[z], small)
  }

  /** `size` is zone_size; at most `retired` zones wait on zone_free. */
  ghost predicate Inv(size: nat, s: Slab, v: View, retired: nat) {
    && size % PAGE == 0
    && Pages(size / PAGE, s.zones.Keys, v.large, v.owner, s.runs) && Tags(v.large, v.owner, s.usage)
    && Zones(size, s, v.small)
    && Lists(s.zones, s.arrays, s.zoneFree, retired) && LiveOk(s.zones, s.zoneFree, v)
    && s.used == Total(v.live) && s.used <= s.maxUsed
  }

  // The sum of live sizes

  lemma {:induction false} TotalAny(m: map<Addr, nat>, k: Addr)
    requires k in m
    ensures Total(m) == m[k] + Total(m - {k})
    decreases |m|
  {
    var j :| j in m && Total(m) == m[j] + Total(m - {j});
    if j != k {
      TotalAny(m - {j}, k);
      TotalAny(m - {k}, j);
      assert m - {j} - {k} == m - {k} - {j};
    }
  }

  lemma TotalInsert(m: map<Addr, nat>, k: Addr, n: nat)
    requires k !in m
    ensures Total(m[k := n]) == Total(m) + n
  {
    TotalAny(m[k := n], k);
    assert m[k := n] - {k} == m;
  }

  // Chunks and pages

  lemma ZonePages(size: nat, z: Page, zn: Zone, a: Addr)
    requires Shape(size, z, zn) && InZone(zn, a) && size % PAGE == 0
    ensures InRange(PageOf(a), z, size / PAGE)
    ensures z * PAGE + HEADER <= a && a + zn.chunk <= z * PAGE + size
  {
    hide ChunkAt, MaxChunks, Offset;
    var k := IndexIn(zn.base, zn.chunk, a);
    ChunkInside(z, size, zn.chunk, k);
  }

  /** A live chunk's page tag leads back to its zone. */
  lemma TagLeadsBack(size: nat, s: Slab, v: View, retired: nat, a: Addr)
    requires Inv(size, s, v, retired) && a in v.small
    ensures PageOf(a) in s.usage && s.usage[PageOf(a)].SmallTag? && PageOf(a) - s.usage[PageOf(a)].size == v.small[a]
    ensures PageOf(a) in v.owner && v.owner[PageOf(a)] == ZonePage(v.small[a])
  {
    hide Lists, Shape, InZone, Total, Nth;
    var z := v.small[a];
    assert ZoneOk(size, z, s.zones[z], v.small) && Held(v.small, z, a);
    ZonePages(size, z, s.zones[z], a);
  }

  lemma OwnerOfLarge(cnt: nat, zones: set<Page>, large: map<Page, nat>, owner: map<Page, Owner>, runs: seq<Run>,
                     s: Page, p: Page)
    requires Pages(cnt, zones, large, owner, runs) && s in large && InRange(p, s, large[s])
    ensures p in owner && owner[p] == LargePage(s) && s > 0
  {
    hide Covers, Canonical;
  }

  lemma OwnerOfZone(cnt: nat, zones: set<Page>, large: map<Page, nat>, owner: map<Page, Owner>, runs: seq<Run>,
                    z: Page, p: Page)
    requires Pages(cnt, zones, large, owner, runs) && z in zones && InRange(p, z, cnt)
    ensures p in owner && owner[p] == ZonePage(z) && z > 0
  {
    hide Covers, Canonical;
  }

  lemma LargePositive(cnt: nat, zones: set<Page>, large: map<Page, nat>, owner: map<Page, Owner>, runs: seq<Run>,
                      s: Page)
    requires Pages(cnt, zones, large, owner, runs) && s in large
    ensures large[s] > 0 && s > 0
  {
    hide Covers, Canonical;
  }

  lemma LargePages(size: nat, s: Slab, v: View, retired: nat, p: Page)
    requires Inv(size, s, v, retired) && p in v.large
    ensures p in v.owner && v.owner[p] == LargePage(p) && p in s.usage && s.usage[p] == LargeTag(v.large[p])
    ensures PageOf(PageAddr(p)) == p && PageAddr(p) !in v.small && PageAddr(p) in v.live
    ensures v.live[PageAddr(p)] == v.large[p] * PAGE
  {
    hide Lists, Zones, Total, Pages;
    LargePositive(size / PAGE, s.zones.Keys, v.large, v.owner, s.runs, p);
    OwnerOfLarge(size / PAGE, s.zones.Keys, v.large, v.owner, s.runs, p, p);
    if PageAddr(p) in v.small {
      TagLeadsBack(size, s, v, retired, PageAddr(p));
    }
  }

  /** Everything handed out is disjoint. */
  lemma LiveDisjoint(size: nat, s: Slab, v: View, retired: nat, a: Addr, b: Addr)
    requires Inv(size, s, v, retired) && a in v.live && b in v.live && a < b
    ensures a + v.live[a] <= b
  {
    hide Inv, InRange;
    if a in v.small && b in v.small && v.small[a] == v.small[b] {
      SameZone(size, s, v, retired, a, b);
    } else if a + v.live[a] > b {
      PageBetween(a, v.live[a], b);
      BlockPage(size, s, v, retired, a, PageOf(b));
      BlockPage(size, s, v, retired, b, PageOf(b));
      BlockStart(size, s, v, retired, a, b);
    }
  }

  lemma PageBetween(a: Addr, n: nat, b: Addr)
    requires a <= b < a + n
    ensures PageOf(a) <= PageOf(b) <= (a + n - 1) / PAGE
  {
  }

  /** Two large blocks that start in the same page are the same. */
  lemma BlockStart(size: nat, s: Slab, v: View, retired: nat, a: Addr, b: Addr)
    requires Inv(size, s, v, retired) && a in v.live && b in v.live && a !in v.small && b !in v.small
    ensures PageOf(a) == PageOf(b) ==> a == b
  {
    hide Lists, Zones, Total, Pages, Tags;
    assert IsLarge(v.large, a) && IsLarge(v.large, b);
  }

  /** All pages of a live block belong to its zone, or to the block itself if it is a large one. */
  lemma BlockPage(size: nat, s: Slab, v: View, retired: nat, a: Addr, p: Page)
    requires Inv(size, s, v, retired) && a in v.live
    requires PageOf(a) <= p && (p <= (a + v.live[a] - 1) / PAGE || p == PageOf(a))
    ensures p in v.owner && v.owner[p] == if a in v.small then ZonePage(v.small[a]) else LargePage(PageOf(a))
  {
    hide Lists, Total, Shape, InZone, Nth, Pages, Tags, Filled;
    if a in v.small {
      var z := v.small[a];
      assert ZoneOk(size, z, s.zones[z], v.small);
      ChunkPage(size, z, s.zones[z], v.small, a, p);
      OwnerOfZone(size / PAGE, s.zones.Keys, v.large, v.owner, s.runs, z, p);
    } else {
      var q := PageOf(a);
      assert IsLarge(v.large, a) && PageAddr(q) == a;
      LargePositive(size / PAGE, s.zones.Keys, v.large, v.owner, s.runs, q);
      OwnerOfLarge(size / PAGE, s.zones.Keys, v.large, v.owner, s.runs, q, p);
    }
  }

  lemma ChunkPage(size: nat, z: Page, zn: Zone, small: map<Addr, Page>, a: Addr, p: Page)
    requires ZoneOk(size, z, zn, small) && Held(small, z, a) && size % PAGE == 0
    requires PageOf(a) <= p && (p <= (a + zn.chunk - 1) / PAGE || p == PageOf(a))
    ensures InRange(p, z, size / PAGE)
  {
    hide Shape, InZone, Nth;
    ZonePages(size, z, zn, a);
    ShapeChunk(size, z, zn);
  }

  lemma ShapeChunk(size: nat, z: Page, zn: Zone)
    requires Shape(size, z, zn)
    ensures zn.chunk > 0
  {
  }

  lemma SameZone(size: nat, s: Slab, v: View, retired: nat, a: Addr, b: Addr)
    requires Inv(size, s, v, retired) && a in v.small && b in v.small && v.small[a] == v.small[b] && a < b
    ensures a + v.live[a] <= b
  {
    hide Lists, Total, Pages, Tags;
    var z := v.small[a];
    var zn := s.zones[z];
    assert ZoneOk(size, z, zn, v.small) && Held(v.small, z, a) && Held(v.small, z, b);
    var j, k := IndexIn(zn.base, zn.chunk, a), IndexIn(zn.base, zn.chunk, b);
    if j < k {
      ChunksApart(zn.base, zn.chunk, j, k);
    } else if k < j {
      ChunksApart(zn.base, zn.chunk, k, j);
    }
  }
}

/** rt_malloc and rt_free of slab.c as functions of the whole allocator state, and what every history
    of calls keeps. */
module SlabCalls {
  import opened PageRuns
  import opened SlabGeometry
  import opened SlabState
  import opened SlabSteps

  const WORD: nat := 0x1_0000_0000
  const RELEASE: nat := 2            // ZONE_RELEASE_THRESH

  ghost predicate ZoneSize(size: nat) { size in {32768, 65536, 131072} }

  /** zone_limit */
  function Limit(size: nat): nat { if size / 4 > LIMIT then LIMIT else size / 4 }

  /** The pages of a large request: RT_ALIGN in 32 bits, which wraps to zero at the very top. */
  function PagesFor(n: nat): nat { RoundUp(n, PAGE) % WORD / PAGE }

  /** The state is one that the invariant admits, with the blocks `live` handed out. */
  ghost predicate Sound(size: nat, s: Slab, live: map<Addr, nat>) {
    ZoneSize(size) && exists v: View :: v.live == live && Inv(size, s, v, RELEASE)
  }

  // rt_malloc

  /** The new state and the address returned; 0 is RT_NULL. */
  datatype Got = Got(s: Slab, ptr: int)

  /** RT_MEM_STATS */
  function Count(s: Slab, bytes: nat): Slab {
    s.(used := s.used + bytes, maxUsed := if s.used + bytes > s.maxUsed then s.used + bytes else s.maxUsed)
  }

  ghost predicate Listed(s: Slab) {
    |s.arrays| == ZONES && forall i :: 0 <= i < ZONES && s.arrays[i] != [] ==> s.arrays[i][0] in s.zones
  }

  ghost function FromZone(s: Slab, i: int): Got
    requires Listed(s) && 0 <= i < ZONES && s.arrays[i] != []
  {
    var z := s.arrays[i][0];
    var zn := s.zones[z];
    var s2 := s.(zones := s.zones[z := Taken(zn)], arrays := if zn.nfree == 1 then s.arrays[i := s.arrays[i][1..]]
        else s.arrays);
    Got(Count(s2, zn.chunk), Chosen(zn))
  }

  function NewZone(size: nat, s: Slab, i: int): Got
    requires |s.arrays| == ZONES && 0 <= i < ZONES && s.zoneFree != []
  {
    var z := s.zoneFree[0];
    var zn := InitZone(size, z, i);
    Got(Count(s.(zones := s.zones[z := zn], zoneFree := s.zoneFree[1..], arrays := s.arrays[i := [z]]), zn.chunk),
        zn.base)
  }

  /** Page tags set or cleared one by one. */
  function Retag(usage: map<Page, Usage>, p: Page, n: nat, free: bool): map<Page, Usage> {
    if n == 0 then usage else Retag(usage, p, n - 1, free)[p + n - 1 := if free then FreeTag else SmallTag(n - 1)]
  }

  lemma {:induction false} RetagOk(usage: map<Page, Usage>, p: Page, n: nat, free: bool)
    ensures Retagged(usage, Retag(usage, p, n, free), p, n, free)
  {
    if n > 0 {
      RetagOk(usage, p, n - 1, free);
    }
  }

  /** A zone's worth of pages, tagged. */
  function WithPages(size: nat, s: Slab): Slab {
    var g := Alloc(s.runs, size / PAGE);
    s.(zones := s.zones[g.page := Zone(0, 0, 0, 0, 0, 0, [])], zoneFree := [g.page], runs := g.runs,
       usage := Retag(s.usage, g.page, size / PAGE, false))
  }

  function LargeMalloc(s: Slab, pages: nat): Got {
    var g := if pages == 0 then Granted(s.runs, 0) else Alloc(s.runs, pages);
    if g.page == 0 then Got(s, 0)
    else Got(Count(s.(runs := g.runs, usage := s.usage[g.page := LargeTag(pages)]), pages * PAGE), PageAddr(g.page))
  }

  ghost function SmallMalloc(size: nat, s: Slab, i: int): Got
    requires Listed(s) && 0 <= i < ZONES
  {
    if s.arrays[i] != [] then FromZone(s, i)
    else if s.zoneFree != [] then NewZone(size, s, i)
    else if Alloc(s.runs, size / PAGE).page == 0 then Got(s, 0)
    else NewZone(size, WithPages(size, s), i)
  }

  ghost function MallocOf(size: nat, s: Slab, n: nat): Got
    requires Listed(s) && ZoneSize(size)
  {
    if n == 0 then Got(s, 0)
    else if n >= Limit(size) then LargeMalloc(s, PagesFor(n))
    else ZoneIndexOk(n); SmallMalloc(size, s, ZoneIndex(n).index)
  }

  lemma SoundListed(size: nat, s: Slab, v: View, retired: nat)
    requires Inv(size, s, v, retired)
    ensures Listed(s)
  {
    hide Pages, Tags, Zones, Total;
    forall i | 0 <= i < ZONES && s.arrays[i] != [] ensures s.arrays[i][0] in s.zones {
      assert s.arrays[i][0] in s.arrays[i];
    }
  }

  /** What a call of rt_malloc returns a block of. */
  function Size(size: nat, n: nat): nat {
    if n >= Limit(size) then PagesFor(n) * PAGE else ZoneIndex(n).chunk
  }

  ghost predicate NoRun(r: seq<Run>, n: nat) { forall i :: 0 <= i < |r| ==> r[i].pages < n }

  /** Nothing is left for a request of `n` bytes. */
  ghost predicate Exhausted(size: nat, s: Slab, n: nat)
    requires |s.arrays| == ZONES && ZoneSize(size) && n > 0
  {
    if n >= Limit(size) then PagesFor(n) == 0 || NoRun(s.runs, PagesFor(n))
    else ZoneIndexOk(n); s.arrays[ZoneIndex(n).index] == [] && s.zoneFree == [] && NoRun(s.runs, size / PAGE)
  }

  /** Every chunk size below the zone limit fits a zone at least twice. */
  lemma LimitClass(size: nat, n: nat)
    requires ZoneSize(size) && 0 < n < Limit(size)
    ensures var c := ZoneIndex(n); ClassOk(n, c) && MaxChunks(size, ChunkOf(c.index)) >= 2 && 0 <= c.index < ZONES
  {
    hide ZoneIndex, Offset, ChunkOf, MaxChunks;
    ZoneIndexOk(n);
    var c := ZoneIndex(n).chunk;
    if n < 8192 {
      LowClass(n);
    }
    OffsetOk(c);
    TwoChunks(size, c);
  }

  lemma LowClass(n: nat)
    requires 0 < n < 8192
    ensures ZoneIndex(n).chunk <= 8192
  {
    hide ZoneIndex;
    ZoneIndexOk(n);
    if n > 4096 {
      PageClass(n);
    }
  }

  lemma PageClass(n: nat)
    requires 4096 < n < 8192
    ensures ZoneIndex(n).chunk <= 8192
  {
  }

  lemma OffsetOk(chunk: nat)
    requires chunk > 0
    ensures HEADER <= Offset(chunk) <= HEADER + 7 + chunk
  {
    hide RoundUp;
    RoundUpOk(HEADER, chunk);
    RoundUpOk(HEADER, 8);
  }

  lemma TwoChunks(size: nat, chunk: nat)
    requires chunk > 0 && Offset(chunk) <= HEADER + 7 + chunk && size >= 4 * chunk && size >= 32768
    ensures MaxChunks(size, chunk) >= 2
  {
    hide Offset;
    var room := size - Offset(chunk);
    assert room >= 2 * chunk;
    DivMul(room / chunk, chunk, room % chunk);
    if room / chunk < 2 {
      MulLess(room / chunk, 1, chunk);
    }
  }

  lemma LargeSize(n: nat)
    requires n < WORD && PagesFor(n) > 0
    ensures PagesFor(n) * PAGE >= n
  {
  }

  // What rt_malloc keeps

  lemma FromZoneOk(size: nat, s: Slab, v: View, i: int) returns (w: View)
    requires Inv(size, s, v, RELEASE) && Listed(s) && 0 <= i < ZONES && s.arrays[i] != []
    ensures var g := FromZone(s, i);
      g.ptr > 0 && g.ptr !in v.live && w.live == v.live[g.ptr := ChunkOf(i)] && Inv(size, g.s, w, RELEASE)
  {
    hide Inv, Chosen, Taken, ChunkOf;
    var g := FromZone(s, i);
    TakeOk(size, s, v, RELEASE, i, g.s);
    w := v.(small := v.small[g.ptr := s.arrays[i][0]], live := v.live[g.ptr := ChunkOf(i)]);
  }

  lemma InitChunk(size: nat, z: Page, i: int)
    requires 0 <= i < ZONES
    ensures InitZone(size, z, i).chunk == ChunkOf(i)
  {
  }

  lemma NewZoneKeeps(size: nat, s: Slab, v: View, i: int) returns (w: View)
    requires Inv(size, s, v, RELEASE) && |s.arrays| == ZONES && 0 <= i < ZONES && s.arrays[i] == [] && s.zoneFree != []
    requires MaxChunks(size, ChunkOf(i)) >= 2
    ensures var g := NewZone(size, s, i);
      g.ptr > 0 && g.ptr !in v.live && w.live == v.live[g.ptr := ChunkOf(i)] && Inv(size, g.s, w, RELEASE)
  {
    hide Inv, ChunkOf, MaxChunks, Offset;
    var g := NewZone(size, s, i);
    InitChunk(size, s.zoneFree[0], i);
    NewZoneOk(size, s, v, RELEASE, i, g.s);
    w := v.(small := v.small[g.ptr := s.zoneFree[0]], live := v.live[g.ptr := ChunkOf(i)]);
  }

  lemma WithPagesOk(size: nat, s: Slab, v: View) returns (w: View)
    requires ZoneSize(size) && Inv(size, s, v, RELEASE) && s.zoneFree == [] && Alloc(s.runs, size / PAGE).page != 0
    ensures w.live == v.live && Inv(size, WithPages(size, s), w, RELEASE)
  {
    hide Inv, Alloc, Granted1, Retag, Retagged;
    var p := Alloc(s.runs, size / PAGE).page;
    RetagOk(s.usage, p, size / PAGE, false);
    ZonePagesOk(size, s, v, WithPages(size, s), Zone(0, 0, 0, 0, 0, 0, []));
    w := v.(owner := Granted1(v.owner, p, size / PAGE, ZonePage(p)));
  }

  lemma SmallMallocOk(size: nat, s: Slab, v: View, i: int) returns (w: View)
    requires ZoneSize(size) && Inv(size, s, v, RELEASE) && Listed(s) && 0 <= i < ZONES
    requires MaxChunks(size, ChunkOf(i)) >= 2
    ensures var g := SmallMalloc(size, s, i);
      && (g.ptr == 0 <==> s.arrays[i] == [] && s.zoneFree == [] && Alloc(s.runs, size / PAGE).page == 0)
      && (g.ptr == 0 ==> g.s == s)
      && (g.ptr != 0 ==>
           g.ptr > 0 && g.ptr !in v.live && w.live == v.live[g.ptr := ChunkOf(i)] && Inv(size, g.s, w, RELEASE))
  {
    hide Inv, Alloc, FromZone, NewZone, ChunkOf, MaxChunks;
    w := v;
    if s.arrays[i] != [] {
      w := FromZoneOk(size, s, v, i);
    } else if s.zoneFree != [] {
      w := NewZoneKeeps(size, s, v, i);
    } else if Alloc(s.runs, size / PAGE).page != 0 {
      w := WithPagesOk(size, s, v);
      w := NewZoneKeeps(size, WithPages(size, s), w, i);
    }
  }

  lemma LargeMallocOk(size: nat, s: Slab, v: View, pages: nat) returns (w: View)
    requires Inv(size, s, v, RELEASE)
    ensures var g := LargeMalloc(s, pages);
      && (g.ptr == 0 <==> pages == 0 || Alloc(s.runs, pages).page == 0)
      && (g.ptr == 0 ==> g.s == s)
      && (g.ptr != 0 ==>
           g.ptr > 0 && g.ptr !in v.live && w.live == v.live[g.ptr := pages * PAGE] && Inv(size, g.s, w, RELEASE))
  {
    hide Inv, Alloc, Granted1;
    w := v;
    var g := LargeMalloc(s, pages);
    if pages > 0 && Alloc(s.runs, pages).page != 0 {
      var p := Alloc(s.runs, pages).page;
      LargeOk(size, s, v, RELEASE, pages, g.s);
      w := View(Granted1(v.owner, p, pages, LargePage(p)), v.small, v.large[p := pages],
          v.live[PageAddr(p) := pages * PAGE]);
    }
  }

  lemma NullExact(r: seq<Run>, n: nat)
    requires Canonical(r) && n > 0
    ensures Alloc(r, n).page == 0 <==> NoRun(r, n)
  {
    AllocOk(r, n, 0);
  }

  lemma RunsCanonical(size: nat, s: Slab, v: View, retired: nat)
    requires Inv(size, s, v, retired)
    ensures Canonical(s.runs)
  {
    hide Tags, Zones, Lists, Total, Canonical, Covers;
  }

  /** rt_malloc hands out fresh memory of at least the size asked for and keeps all that is live, or
      fails with nothing changed exactly if the request is empty or nothing is left for it. */
  lemma MallocOk(size: nat, s: Slab, live: map<Addr, nat>, n: nat)
    requires Sound(size, s, live) && n < WORD
    ensures Listed(s)
    ensures var g := MallocOf(size, s, n);
      && (g.ptr == 0 <==> n == 0 || Exhausted(size, s, n))
      && (g.ptr == 0 ==> g.s == s)
      && (g.ptr != 0 ==>
           g.ptr > 0 && g.ptr !in live && n <= Size(size, n) && Sound(size, g.s, live[g.ptr := Size(size, n)]))
  {
    hide Inv, LargeMalloc, SmallMalloc, Canonical, NoRun, PagesFor, ZoneIndex, ChunkOf, MaxChunks, Alloc;
    var v: View :| v.live == live && Inv(size, s, v, RELEASE);
    SoundListed(size, s, v, RELEASE);
    RunsCanonical(size, s, v, RELEASE);
    if n >= Limit(size) {
      var w := LargeMallocOk(size, s, v, PagesFor(n));
      if PagesFor(n) > 0 {
        LargeSize(n);
        NullExact(s.runs, PagesFor(n));
      }
    } else if n > 0 {
      LimitClass(size, n);
      NullExact(s.runs, size / PAGE);
      var w := SmallMallocOk(size, s, v, ZoneIndex(n).index);
    }
  }

  // rt_free

  /** The list without `z`. */
  function Removed(q: seq<Page>, z: Page): seq<Page> {
    if q == [] then [] else if q[0] == z then q[1..] else [q[0]] + Removed(q[1..], z)
  }

  lemma {:induction false} RemovedAt(q: seq<Page>, k: nat)
    requires k < |q| && q[k] !in q[..k]
    ensures Removed(q, q[k]) == Without(q, k)
    decreases |q|
  {
    if k > 0 {
      assert q[0] == q[..k][0];
      assert q[1..][..k - 1] == q[..k][1..];
      RemovedAt(q[1..], k - 1);
    }
  }

  function PutIn(s: Slab, z: Page, a: Addr): Slab
    requires z in s.zones && |s.arrays| == ZONES && 0 <= s.zones[z].index < ZONES
  {
    var zn := s.zones[z];
    s.(zones := s.zones[z := Put(zn, a)], used := s.used - zn.chunk,
       arrays := if zn.nfree == 0 then s.arrays[zn.index := [z] + s.arrays[zn.index]] else s.arrays)
  }

  function Retire(s: Slab, z: Page): Slab
    requires z in s.zones && |s.arrays| == ZONES && 0 <= s.zones[z].index < ZONES
  {
    var i := s.zones[z].index;
    s.(arrays := s.arrays[i := Removed(s.arrays[i], z)], zoneFree := [z] + s.zoneFree)
  }

  function Release(size: nat, s: Slab): Slab
    requires s.zoneFree != []
  {
    var z := s.zoneFree[0];
    s.(zones := s.zones - {z}, zoneFree := s.zoneFree[1..], runs := Free(s.runs, z, size / PAGE),
       usage := Retag(s.usage, z, size / PAGE, true))
  }

  /** A zone that has become totally free is retired if its list has another; at most two retired
      zones are kept. */
  function ChunkFree(size: nat, s: Slab, z: Page, a: Addr): Slab
    requires z in s.zones && |s.arrays| == ZONES && 0 <= s.zones[z].index < ZONES
  {
    var s1 := PutIn(s, z, a);
    if s1.zones[z].nfree == s1.zones[z].nmax && |s1.arrays[s.zones[z].index]| > 1 then
      var s2 := Retire(s1, z);
      if |s2.zoneFree| > RELEASE then Release(size, s2) else s2
    else s1
  }

  function LargeFree(s: Slab, p: Page, pages: nat): Slab {
    s.(runs := Free(s.runs, p, pages), usage := s.usage[p := LargeTag(0)], used := s.used - pages * PAGE)
  }

  /** The page tag tells a large block from a chunk and leads to the chunk's zone. */
  ghost predicate Freeable(s: Slab, a: Addr) {
    && |s.arrays| == ZONES && PageOf(a) in s.usage
    && match s.usage[PageOf(a)]
       case LargeTag(n) => n > 0 && PageAddr(PageOf(a)) == a
       case SmallTag(off) => 0 <= PageOf(a) - off && (PageOf(a) - off) in s.zones &&
           0 <= s.zones[PageOf(a) - off].index < ZONES
       case FreeTag => false
  }

  ghost function FreeOf(size: nat, s: Slab, a: Addr): Slab
    requires Freeable(s, a)
  {
    match s.usage[PageOf(a)]
    case LargeTag(n) => LargeFree(s, PageOf(a), n)
    case SmallTag(off) => ChunkFree(size, s, PageOf(a) - off, a)
  }

  lemma LargeFreeKeeps(size: nat, s: Slab, v: View, a: Addr) returns (w: View)
    requires Inv(size, s, v, RELEASE) && a in v.live && a !in v.small
    ensures PageOf(a) in v.large && PageAddr(PageOf(a)) == a && v.large[PageOf(a)] > 0
    ensures PageOf(a) in s.usage && s.usage[PageOf(a)] == LargeTag(v.large[PageOf(a)])
    ensures NoneFree(s.runs, PageOf(a), v.large[PageOf(a)]) && PageOf(a) > 0
    ensures w.live == v.live - {a} && Inv(size, LargeFree(s, PageOf(a), v.large[PageOf(a)]), w, RELEASE)
  {
    hide Pages, Tags, Zones, Lists, Total, Free, NoneFree, Granted1;
    var p := PageOf(a);
    assert IsLarge(v.large, a);
    LargePages(size, s, v, RELEASE, p);
    LargeFreeOk(size, s, v, RELEASE, p, LargeFree(s, p, v.large[p]));
    w := View(Granted1(v.owner, p, v.large[p], FreePage), v.small, v.large - {p}, v.live - {PageAddr(p)});
  }

  lemma ZoneOfChunk(size: nat, s: Slab, v: View, retired: nat, a: Addr)
    requires Inv(size, s, v, retired) && a in v.small
    ensures v.small[a] in s.zones && v.small[a] !in s.zoneFree && |s.arrays| == ZONES && a in v.live
    ensures var zn := s.zones[v.small[a]]; 0 <= zn.index < ZONES && v.live[a] == zn.chunk
  {
    hide Pages, Tags, Lists, Total, Filled;
    ListsLength(s.zones, s.arrays, s.zoneFree, retired);
    assert ZoneOk(size, v.small[a], s.zones[v.small[a]], v.small);
  }

  lemma FewerRetired(size: nat, s: Slab, v: View)
    requires Inv(size, s, v, RELEASE + 1) && |s.zoneFree| <= RELEASE
    ensures Inv(size, s, v, RELEASE)
  {
    hide Pages, Tags, Zones, Total;
  }

  /** The zone just put on or kept on its list is there, once. */
  lemma ListedThere(size: nat, s: Slab, v: View, retired: nat, z: Page) returns (k: nat)
    requires Inv(size, s, v, retired) && z in s.zones && z !in s.zoneFree && s.zones[z].nfree > 0
    requires |s.arrays| == ZONES && 0 <= s.zones[z].index < ZONES
    ensures var q := s.arrays[s.zones[z].index]; k < |q| && q[k] == z && z !in q[..k]
  {
    hide Pages, Tags, Zones, Total;
    var i := s.zones[z].index;
    assert Listable(s.zones, s.zoneFree, i, z);
    var q := s.arrays[i];
    k :| 0 <= k < |q| && q[k] == z;
  }

  lemma RetireKeeps(size: nat, s: Slab, v: View, z: Page)
    requires Inv(size, s, v, RELEASE) && z in s.zones && z !in s.zoneFree
    requires s.zones[z].nfree == s.zones[z].nmax && s.zones[z].nfree > 0
    requires |s.arrays| == ZONES && 0 <= s.zones[z].index < ZONES
    ensures Inv(size, Retire(s, z), v, RELEASE + 1)
  {
    hide Inv, Without, Removed;
    var k := ListedThere(size, s, v, RELEASE, z);
    var i := s.zones[z].index;
    RemovedAt(s.arrays[i], k);
    RetireOk(size, s, v, RELEASE, i, k, Retire(s, z));
  }

  lemma ReleaseKeeps(size: nat, s: Slab, v: View) returns (w: View)
    requires ZoneSize(size) && Inv(size, s, v, RELEASE + 1) && s.zoneFree != []
    ensures s.zoneFree[0] > 0 && NoneFree(s.runs, s.zoneFree[0], size / PAGE)
    ensures w.live == v.live && Inv(size, Release(size, s), w, RELEASE)
  {
    hide Inv, Free, NoneFree, Granted1, Retag, Retagged;
    var z := s.zoneFree[0];
    RetagOk(s.usage, z, size / PAGE, true);
    ReleaseOk(size, s, v, RELEASE, Release(size, s));
    w := v.(owner := Granted1(v.owner, z, size / PAGE, FreePage));
  }

  lemma PutNfree(size: nat, s: Slab, v: View, a: Addr)
    requires Inv(size, s, v, RELEASE) && a in v.small && v.small[a] in s.zones && v.small[a] !in s.zoneFree
    ensures s.zones[v.small[a]].nfree >= 0
  {
    hide Pages, Tags, Lists, Total;
    assert ZoneOk(size, v.small[a], s.zones[v.small[a]], v.small);
  }

  lemma ChunkFreeKeeps(size: nat, s: Slab, v: View, a: Addr) returns (w: View)
    requires ZoneSize(size) && Inv(size, s, v, RELEASE) && a in v.small
    requires v.small[a] in s.zones && |s.arrays| == ZONES && 0 <= s.zones[v.small[a]].index < ZONES
    ensures w.live == v.live - {a} && Inv(size, ChunkFree(size, s, v.small[a], a), w, RELEASE)
  {
    hide Inv, PutIn, Retire, Release;
    var z := v.small[a];
    ZoneOfChunk(size, s, v, RELEASE, a);
    PutNfree(size, s, v, a);
    PutKeeps(size, s, v, a);
    w := v.(small := v.small - {a}, live := v.live - {a});
    var s1 := PutIn(s, z, a);
    if s1.zones[z].nfree == s1.zones[z].nmax && |s1.arrays[s.zones[z].index]| > 1 {
      RetireKeeps(size, s1, w, z);
      var s2 := Retire(s1, z);
      if |s2.zoneFree| > RELEASE {
        w := ReleaseKeeps(size, s2, w);
      } else {
        FewerRetired(size, s2, w);
      }
    }
  }

  lemma PutKeeps(size: nat, s: Slab, v: View, a: Addr)
    requires Inv(size, s, v, RELEASE) && a in v.small
    requires v.small[a] in s.zones && |s.arrays| == ZONES && 0 <= s.zones[v.small[a]].index < ZONES
    requires v.small[a] !in s.zoneFree && s.zones[v.small[a]].nfree >= 0
    ensures var z := v.small[a]; var s1 := PutIn(s, z, a);
      && Inv(size, s1, v.(small := v.small - {a}, live := v.live - {a}), RELEASE)
      && z in s1.zones && z !in s1.zoneFree && |s1.arrays| == ZONES
      && s1.zones[z].nfree == s.zones[z].nfree + 1 && s1.zones[z].index == s.zones[z].index
  {
    hide Inv;
    PutOk(size, s, v, RELEASE, a, PutIn(s, v.small[a], a));
  }

  /** The tags tell rt_free what it needs; the block freed stops being live and all others stay. */
  lemma FreeKeeps(size: nat, s: Slab, live: map<Addr, nat>, a: Addr)
    requires Sound(size, s, live) && a in live
    ensures Freeable(s, a) && Sound(size, FreeOf(size, s, a), live - {a})
  {
    hide Inv, LargeFree, ChunkFree, NoneFree, PageAddr, PageOf;
    var v: View :| v.live == live && Inv(size, s, v, RELEASE);
    SoundListed(size, s, v, RELEASE);
    if a in v.small {
      ZoneOfChunk(size, s, v, RELEASE, a);
      TagLeadsBack(size, s, v, RELEASE, a);
      var w := ChunkFreeKeeps(size, s, v, a);
    } else {
      var w := LargeFreeKeeps(size, s, v, a);
    }
  }

  // Which chunk is handed out, and where a chunk goes

  /** The chunk comes from zone `z`: the next never used, as long as there is one, then the first of the
      zone's free list. The zone leaves its list with its last free chunk. */
  ghost predicate TakenFrom(s: Slab, g: Got, i: int, z: Page)
    requires |s.arrays| == ZONES && 0 <= i < ZONES && s.arrays[i] != []
  {
    && z in s.zones && z in g.s.zones
    && var zn, zn2 := s.zones[z], g.s.zones[z];
       && (if zn.uindex + 1 < zn.nmax then
             g.ptr == zn.base + (zn.uindex + 1) * zn.chunk && zn2.uindex == zn.uindex + 1 && zn2.free == zn.free
           else zn.free != [] && g.ptr == zn.free[0] && zn2.uindex == zn.uindex && zn2.free == zn.free[1..])
       && zn.nfree > 0 && zn2.nfree == zn.nfree - 1 && g.s.zones == s.zones[z := zn2]
       && g.s.arrays == (if zn.nfree == 1 then s.arrays[i := s.arrays[i][1..]] else s.arrays)
       && g.s.zoneFree == s.zoneFree && g.s.runs == s.runs && g.s.usage == s.usage
  }

  /** The chunk is the first of zone `z`, which has been laid out for the class and is alone on its list. */
  ghost predicate Opened(size: nat, s: Slab, g: Got, i: int, z: Page)
    requires |s.arrays| == ZONES && 0 <= i < ZONES && ChunkOf(i) > 0
  {
    && z in g.s.zones && g.ptr == z * 4096 + Offset(ChunkOf(i))
    && var zn := g.s.zones[z];
       && zn.base == g.ptr && zn.index == i && zn.chunk == ChunkOf(i)
       && zn.nmax == (size - Offset(ChunkOf(i))) / ChunkOf(i)
       && zn.nfree == zn.nmax - 1 && zn.uindex == 0 && zn.free == []
       && g.s.zones == s.zones[z := zn] && g.s.arrays == s.arrays[i := [z]]
  }

  /** The pages from `z` on that make a zone have left the free ones, and are the first that could. */
  ghost predicate Obtained(size: nat, s: Slab, s2: Slab, z: Page) {
    FitsFirst(s.runs, size / 4096, z)
      && forall p: Page :: Covers(s2.runs, p) <==> Covers(s.runs, p) && !(z <= p < z + size / 4096)
  }

  /** A small request is met by the first zone listed for its class, or else by the first retired zone,
      or else by new pages. */
  lemma ChunkComes(size: nat, s: Slab, live: map<Addr, nat>, n: nat)
    requires Sound(size, s, live) && 0 < n < 16384 && n < size / 4
    ensures var i := ZoneIndex(n).index; Listed(s) && 0 <= i < ZONES && ChunkOf(i) >= n
    ensures var i := ZoneIndex(n).index; var g := MallocOf(size, s, n);
      if s.arrays[i] != [] then TakenFrom(s, g, i, s.arrays[i][0])
      else if s.zoneFree != [] then
        && Opened(size, s, g, i, s.zoneFree[0]) && g.s.zoneFree == s.zoneFree[1..]
        && g.s.runs == s.runs && g.s.usage == s.usage
      else g.ptr != 0 ==>
        exists z: Page :: Opened(size, s, g, i, z) && g.s.zoneFree == [] && Obtained(size, s, g.s, z)
  {
    hide Inv, TakenFrom, Opened, Obtained, FromZone, NewZone, WithPages, Alloc, ChunkOf, ZoneIndex, Offset, MaxChunks,
      PagesFor;
    var v: View :| v.live == live && Inv(size, s, v, RELEASE);
    SoundListed(size, s, v, RELEASE);
    LimitClass(size, n);
    var i := ZoneIndex(n).index;
    if s.arrays[i] != [] {
      ZoneTaken(size, s, v, i);
    } else if s.zoneFree != [] {
      ZoneOpened(size, s, i);
    } else if Alloc(s.runs, size / PAGE).page != 0 {
      RunsCanonical(size, s, v, RELEASE);
      PagesObtained(size, s, i);
    }
  }

  lemma ZoneTaken(size: nat, s: Slab, v: View, i: int)
    requires Inv(size, s, v, RELEASE) && Listed(s) && 0 <= i < ZONES && s.arrays[i] != []
    ensures TakenFrom(s, SmallMalloc(size, s, i), i, s.arrays[i][0])
  {
    hide Pages, Tags, Total, Filled;
    var z := s.arrays[i][0];
    assert z in s.arrays[i];
    assert Listable(s.zones, s.zoneFree, i, z);
    assert ZoneOk(size, z, s.zones[z], v.small);
    if s.zones[z].uindex + 1 == s.zones[z].nmax {
      PopFilled(size, z, s.zones[z], v.small);
    }
  }

  lemma ZoneOpened(size: nat, s: Slab, i: int)
    requires Listed(s) && 0 <= i < ZONES && s.arrays[i] == [] && s.zoneFree != [] && ChunkOf(i) > 0
    ensures var g := SmallMalloc(size, s, i);
      && Opened(size, s, g, i, s.zoneFree[0]) && g.s.zoneFree == s.zoneFree[1..]
      && g.s.runs == s.runs && g.s.usage == s.usage
  {
    hide Offset, ChunkOf;
  }

  lemma PagesObtained(size: nat, s: Slab, i: int)
    requires Listed(s) && 0 <= i < ZONES && s.arrays[i] == [] && s.zoneFree == [] && ChunkOf(i) > 0
    requires Canonical(s.runs) && size >= PAGE && Alloc(s.runs, size / PAGE).page != 0
    ensures var g := SmallMalloc(size, s, i); var z := Alloc(s.runs, size / PAGE).page;
      Opened(size, s, g, i, z) && g.s.zoneFree == [] && Obtained(size, s, g.s, z)
  {
    hide Offset, ChunkOf, Canonical, Covers, Alloc, Retag, FitsFirst;
    var m := size / PAGE;
    AllocExact(s.runs, m);
    var z := Alloc(s.runs, m).page;
    var g := SmallMalloc(size, s, i);
    assert s.zones[z := Zone(0, 0, 0, 0, 0, 0, [])][z := g.s.zones[z]] == s.zones[z := g.s.zones[z]];
  }

  /** A large request is met by the first run of pages that is long enough; its first page is tagged with
      their number, which for a request within a page of 2^32 wraps to none. */
  lemma LargeComes(size: nat, s: Slab, live: map<Addr, nat>, n: nat)
    requires Sound(size, s, live) && 0 < n < WORD && (n >= 16384 || n >= size / 4)
    ensures Listed(s)
    ensures var g := MallocOf(size, s, n); var pages := if n <= WORD - 4096 then (n + 4095) / 4096 else 0;
      g.ptr != 0 ==> exists p: Page :: LargeGot(s, g, p, pages)
  {
    hide Inv, Alloc, FitsFirst, Covers, SmallMalloc;
    var v: View :| v.live == live && Inv(size, s, v, RELEASE);
    SoundListed(size, s, v, RELEASE);
    RunsCanonical(size, s, v, RELEASE);
    var g := MallocOf(size, s, n);
    if g.ptr != 0 {
      AllocExact(s.runs, PagesFor(n));
      assert LargeGot(s, g, Alloc(s.runs, PagesFor(n)).page, PagesFor(n));
    }
  }

  ghost predicate LargeGot(s: Slab, g: Got, p: Page, pages: nat) {
    && g.ptr == p * 4096 && FitsFirst(s.runs, pages, p) && g.s.usage == s.usage[p := LargeTag(pages)]
    && (forall q: Page :: Covers(g.s.runs, q) <==> Covers(s.runs, q) && !(p <= q < p + pages))
    && g.s.zones == s.zones && g.s.arrays == s.arrays && g.s.zoneFree == s.zoneFree
  }

  /** The pages of a large block are free again, and its tag has no length. */
  lemma LargeGoes(size: nat, s: Slab, live: map<Addr, nat>, a: Addr)
    requires Sound(size, s, live) && a in live && Freeable(s, a) && s.usage[PageOf(a)].LargeTag?
    ensures var p := a / 4096; var n := s.usage[PageOf(a)].size; var r := FreeOf(size, s, a);
      && (forall q: Page :: Covers(r.runs, q) <==> Covers(s.runs, q) || p <= q < p + n)
      && r.usage == s.usage[p := LargeTag(0)]
      && r.zones == s.zones && r.arrays == s.arrays && r.zoneFree == s.zoneFree
  {
    hide Inv, Free, NoneFree, Covers, Canonical;
    var v: View :| v.live == live && Inv(size, s, v, RELEASE);
    RunsCanonical(size, s, v, RELEASE);
    NotSmall(size, s, v, a);
    var w := LargeFreeKeeps(size, s, v, a);
    FreeExact(s.runs, PageOf(a), v.large[PageOf(a)]);
  }

  lemma NotSmall(size: nat, s: Slab, v: View, a: Addr)
    requires Inv(size, s, v, RELEASE) && PageOf(a) in s.usage && s.usage[PageOf(a)].LargeTag?
    ensures a !in v.small
  {
    hide Inv;
    if a in v.small {
      TagLeadsBack(size, s, v, RELEASE, a);
    }
  }

  /** A chunk becomes the first of its zone's free list. A zone that had none is listed first again; one
      that is now totally free is retired, if its list has another. */
  ghost predicate GivenTo(s: Slab, r: Slab, z: Page, a: Addr)
    requires z in s.zones && |s.arrays| == ZONES && 0 <= s.zones[z].index < ZONES
  {
    var zn, i := s.zones[z], s.zones[z].index;
    var back := if zn.nfree == 0 then [z] + s.arrays[i] else s.arrays[i];
    var retires := zn.nfree + 1 == zn.nmax && exists y :: y in s.arrays[i] && y != z;
    && (z in r.zones ==> r.zones == s.zones[z := zn.(nfree := zn.nfree + 1, free := [a] + zn.free)])
    && |r.arrays| == ZONES && r.arrays == s.arrays[i := r.arrays[i]]
    && if !retires then
         z in r.zones && r.arrays[i] == back && r.zoneFree == s.zoneFree && r.runs == s.runs && r.usage == s.usage
       else
         && (exists k :: 0 <= k < |back| && back[k] == z && r.arrays[i] == back[..k] + back[k + 1..])
         && (|s.zoneFree| < 2 ==>
              z in r.zones && r.zoneFree == [z] + s.zoneFree && r.runs == s.runs && r.usage == s.usage)
         && (|s.zoneFree| >= 2 ==> z !in r.zones && r.zones == s.zones - {z} && r.zoneFree == s.zoneFree)
  }

  /** The pages of a zone that is one too many are free again. */
  ghost predicate PagesBack(size: nat, s: Slab, r: Slab, z: Page) {
    && (forall p: Page :: Covers(r.runs, p) <==> Covers(s.runs, p) || z <= p < z + size / 4096)
    && forall p: Page :: z <= p < z + size / 4096 ==> p in r.usage && r.usage[p] == FreeTag
  }

  lemma ChunkGoes(size: nat, s: Slab, live: map<Addr, nat>, a: Addr)
    requires Sound(size, s, live) && a in live && Freeable(s, a) && s.usage[PageOf(a)].SmallTag?
    ensures var z := PageOf(a) - s.usage[PageOf(a)].size; var r := FreeOf(size, s, a);
      GivenTo(s, r, z, a) && (z !in r.zones ==> PagesBack(size, s, r, z))
  {
    hide Inv, ChunkFree, GivenTo, PagesBack, PageAddr, PageOf;
    var v: View :| v.live == live && Inv(size, s, v, RELEASE);
    SmallOne(size, s, v, a);
    ChunkGiven(size, s, v, a);
  }

  lemma SmallOne(size: nat, s: Slab, v: View, a: Addr)
    requires Inv(size, s, v, RELEASE) && a in v.live && PageOf(a) in s.usage && s.usage[PageOf(a)].SmallTag?
    ensures a in v.small && PageOf(a) - s.usage[PageOf(a)].size == v.small[a]
  {
    hide Inv;
    if a !in v.small {
      LiveLarge(size, s, v, a);
      LargePages(size, s, v, RELEASE, PageOf(a));
    }
    TagLeadsBack(size, s, v, RELEASE, a);
  }

  lemma LiveLarge(size: nat, s: Slab, v: View, a: Addr)
    requires Inv(size, s, v, RELEASE) && a in v.live && a !in v.small
    ensures PageOf(a) in v.large
  {
    hide Pages, Tags, Zones, Lists, Total;
  }

  lemma ChunkGiven(size: nat, s: Slab, v: View, a: Addr)
    requires Inv(size, s, v, RELEASE) && a in v.small && ZoneSize(size)
    ensures v.small[a] in s.zones && |s.arrays| == ZONES && 0 <= s.zones[v.small[a]].index < ZONES
    ensures var z := v.small[a]; var r := ChunkFree(size, s, z, a);
      GivenTo(s, r, z, a) && (z !in r.zones ==> PagesBack(size, s, r, z))
  {
    hide Inv, Removed, PagesBack, Release, Retire, PutIn, GivenTo;
    var z := v.small[a];
    ZoneOfChunk(size, s, v, RELEASE, a);
    PutNfree(size, s, v, a);
    PutKeeps(size, s, v, a);
    PutRest(s, z, a);
    var w := v.(small := v.small - {a}, live := v.live - {a});
    var s1 := PutIn(s, z, a);
    var i := s.zones[z].index;
    OnlyOne(s, v, size, z, i);
    if s1.zones[z].nfree == s1.zones[z].nmax && |s1.arrays[i]| > 1 {
      var k := ListedThere(size, s1, w, RELEASE, z);
      RetireKeeps(size, s1, w, z);
      var s2 := Retire(s1, z);
      RetireRest(s1, z, k);
      if |s2.zoneFree| > RELEASE {
        ReleasedPages(size, s2, w);
        BackFrom(size, s, s2, Release(size, s2), z);
        GivenReleased(s, s1, s2, Release(size, s2), z, a, k);
      } else {
        GivenRetired(s, s1, s2, z, a, k);
      }
    } else {
      GivenKept(s, s1, z, a);
    }
  }

  /** The state with the chunk put on its zone's list. */
  ghost predicate PutOn(s: Slab, s1: Slab, z: Page, a: Addr)
    requires z in s.zones && |s.arrays| == ZONES && 0 <= s.zones[z].index < ZONES
  {
    var zn, i := s.zones[z], s.zones[z].index;
    && s1.zones == s.zones[z := zn.(nfree := zn.nfree + 1, free := [a] + zn.free)]
    && s1.arrays == s.arrays[i := if zn.nfree == 0 then [z] + s.arrays[i] else s.arrays[i]]
    && s1.zoneFree == s.zoneFree && s1.runs == s.runs && s1.usage == s.usage
  }

  lemma PutRest(s: Slab, z: Page, a: Addr)
    requires z in s.zones && |s.arrays| == ZONES && 0 <= s.zones[z].index < ZONES
    ensures PutOn(s, PutIn(s, z, a), z, a)
  {
  }

  lemma RetireRest(s: Slab, z: Page, k: nat)
    requires z in s.zones && |s.arrays| == ZONES && 0 <= s.zones[z].index < ZONES
    requires var q := s.arrays[s.zones[z].index]; k < |q| && q[k] == z && z !in q[..k]
    ensures var r, i := Retire(s, z), s.zones[z].index;
      && r.arrays == s.arrays[i := s.arrays[i][..k] + s.arrays[i][k + 1..]]
      && r.zoneFree == [z] + s.zoneFree && r.zones == s.zones && r.runs == s.runs && r.usage == s.usage
  {
    hide Removed;
    RemovedAt(s.arrays[s.zones[z].index], k);
  }

  lemma GivenKept(s: Slab, s1: Slab, z: Page, a: Addr)
    requires z in s.zones && |s.arrays| == ZONES && 0 <= s.zones[z].index < ZONES && PutOn(s, s1, z, a)
    requires var i := s.zones[z].index;
      !(s.zones[z].nfree + 1 == s.zones[z].nmax && exists y :: y in s.arrays[i] && y != z)
    ensures GivenTo(s, s1, z, a)
  {
  }

  lemma GivenRetired(s: Slab, s1: Slab, s2: Slab, z: Page, a: Addr, k: nat)
    requires z in s.zones && |s.arrays| == ZONES && 0 <= s.zones[z].index < ZONES && PutOn(s, s1, z, a)
    requires var i := s.zones[z].index;
      && s.zones[z].nfree + 1 == s.zones[z].nmax && (exists y :: y in s.arrays[i] && y != z)
      && k < |s1.arrays[i]| && s1.arrays[i][k] == z
      && s2.arrays == s1.arrays[i := s1.arrays[i][..k] + s1.arrays[i][k + 1..]]
    requires s2.zoneFree == [z] + s1.zoneFree && s2.zones == s1.zones && s2.runs == s1.runs && s2.usage == s1.usage
    requires |s.zoneFree| < 2
    ensures GivenTo(s, s2, z, a)
  {
    var i := s.zones[z].index;
    assert s2.arrays == s.arrays[i := s2.arrays[i]];
  }

  lemma GivenReleased(s: Slab, s1: Slab, s2: Slab, r: Slab, z: Page, a: Addr, k: nat)
    requires z in s.zones && |s.arrays| == ZONES && 0 <= s.zones[z].index < ZONES && PutOn(s, s1, z, a)
    requires var i := s.zones[z].index;
      && s.zones[z].nfree + 1 == s.zones[z].nmax && (exists y :: y in s.arrays[i] && y != z)
      && k < |s1.arrays[i]| && s1.arrays[i][k] == z
      && s2.arrays == s1.arrays[i := s1.arrays[i][..k] + s1.arrays[i][k + 1..]]
    requires s2.zoneFree == [z] + s1.zoneFree && s2.zones == s1.zones && |s.zoneFree| >= 2
    requires r.zones == s2.zones - {z} && r.zoneFree == s2.zoneFree[1..] && r.arrays == s2.arrays
    ensures GivenTo(s, r, z, a)
  {
    var i := s.zones[z].index;
    assert r.arrays == s.arrays[i := r.arrays[i]];
    assert r.zones == s.zones - {z} && r.zoneFree == s.zoneFree;
  }

  lemma BackFrom(size: nat, s: Slab, s2: Slab, r: Slab, z: Page)
    requires s2.runs == s.runs && PagesBack(size, s2, r, z)
    ensures PagesBack(size, s, r, z)
  {
    hide Covers;
  }

  /** A zone's list has another one exactly if, with the zone on it, it has more than one. */
  lemma OnlyOne(s: Slab, v: View, size: nat, z: Page, i: int)
    requires Inv(size, s, v, RELEASE) && z in s.zones && z !in s.zoneFree && s.zones[z].index == i && 0 <= i < ZONES
    requires |s.arrays| == ZONES
    ensures var back := if s.zones[z].nfree == 0 then [z] + s.arrays[i] else s.arrays[i];
      s.zones[z].nfree >= 0 ==> (|back| > 1 <==> exists y :: y in s.arrays[i] && y != z)
    ensures s.zones[z].nfree == 0 ==> z !in s.arrays[i]
    ensures |s.zoneFree| <= 2
  {
    hide Pages, Tags, Zones, Total;
    var q := s.arrays[i];
    assert z in q <==> Listable(s.zones, s.zoneFree, i, z);
    if |q| > 1 {
      assert q[0] in q && q[1] in q;
    } else if |q| == 1 {
      assert q[0] in q;
    }
  }

  lemma ReleasedPages(size: nat, s: Slab, v: View)
    requires ZoneSize(size) && Inv(size, s, v, RELEASE + 1) && s.zoneFree != []
    ensures var r := Release(size, s); var z := s.zoneFree[0];
      && r.zones == s.zones - {z} && r.zoneFree == s.zoneFree[1..] && r.arrays == s.arrays
      && PagesBack(size, s, r, z)
  {
    hide Inv, Free, NoneFree, Retag, Canonical, Covers;
    var z := s.zoneFree[0];
    var w := ReleaseKeeps(size, s, v);
    RunsCanonical(size, s, v, RELEASE + 1);
    RetagOk(s.usage, z, size / PAGE, true);
    FreeExact(s.runs, z, size / PAGE);
    forall p: Page | z <= p < z + size / PAGE
      ensures p in Release(size, s).usage && Release(size, s).usage[p] == FreeTag
    {
      assert InRange(p, z, size / PAGE);
    }
  }

  // Every history

  /** A call of rt_malloc or of rt_free, with the argument. */
  datatype Call = Ask(n: nat) | Give(a: Addr)

  datatype Heap = Heap(s: Slab, live: map<Addr, nat>)

  ghost function Step(size: nat, h: Heap, c: Call): (r: Heap)
    requires Sound(size, h.s, h.live)
    ensures Sound(size, r.s, r.live)
  {
    match c
    case Ask(n) =>
      MallocOk(size, h.s, h.live, n % WORD);
      var g := MallocOf(size, h.s, n % WORD);
      if g.ptr == 0 then h else Heap(g.s, h.live[g.ptr := Size(size, n % WORD)])
    case Give(a) =>
      if a !in h.live then h
      else FreeKeeps(size, h.s, h.live, a); Heap(FreeOf(size, h.s, a), h.live - {a})
  }

  ghost function History(size: nat, h: Heap, calls: seq<Call>): (r: Heap)
    requires Sound(size, h.s, h.live)
    ensures Sound(size, r.s, r.live)
    decreases |calls|
  {
    hide Sound, Step;
    if calls == [] then h else History(size, Step(size, h, calls[0]), calls[1..])
  }

  function NoLists(): seq<seq<Page>> { seq(ZONES, i => []) }

  function Empty(usage: map<Page, Usage>, runs: seq<Run>): Slab {
    Slab(map[], NoLists(), [], usage, runs, 0, 0)
  }

  function AllOwned(p: Page, n: nat): (r: map<Page, Owner>)
    ensures forall q: Page :: q in r <==> p <= q < p + n
    ensures forall q: Page :: q in r ==> r[q] == FreePage
  {
    if n == 0 then map[] else AllOwned(p, n - 1)[p + n - 1 := FreePage]
  }

  /** The state rt_system_heap_init leaves, whatever the memory of the page tags holds. */
  lemma EmptyOk(size: nat, usage: map<Page, Usage>, runs: seq<Run>, p: Page, n: nat)
    requires ZoneSize(size) && p > 0 && (runs == if n == 0 then [] else [Run(p, n)])
    ensures Sound(size, Empty(usage, runs), map[])
  {
    var owner := AllOwned(p, n);
    var v := View(owner, map[], map[], map[]);
    forall q: Page ensures Covers(runs, q) <==> q in owner {
      if n > 0 {
        assert runs[1..] == [];
      }
    }
    assert Pages(size / PAGE, {}, map[], owner, runs) by {
      if n > 0 {
        assert runs[1..] == [];
      }
    }
    var s := Empty(usage, runs);
    assert s.zones.Keys == {};
    assert Total(map[]) == 0;
    assert Inv(size, s, v, RELEASE);
  }

  /** After any calls of rt_malloc and rt_free the live blocks are apart, and used_mem is the sum of
      their sizes. */
  lemma HistoryOk(size: nat, usage: map<Page, Usage>, runs: seq<Run>, p: Page, n: nat, calls: seq<Call>, a: Addr,
                  b: Addr)
    requires ZoneSize(size) && p > 0 && (runs == if n == 0 then [] else [Run(p, n)])
    ensures Sound(size, Empty(usage, runs), map[])
    ensures var h := History(size, Heap(Empty(usage, runs), map[]), calls);
      && h.s.used == Total(h.live) <= h.s.maxUsed
      && (a in h.live && b in h.live && a < b ==> a + h.live[a] <= b)
  {
    hide Inv, Total;
    EmptyOk(size, usage, runs, p, n);
    var h := History(size, Heap(Empty(usage, runs), map[]), calls);
    var v: View :| v.live == h.live && Inv(size, h.s, v, RELEASE);
    UsedIsTotal(size, h.s, v);
    if a in h.live && b in h.live && a < b {
      LiveDisjoint(size, h.s, v, RELEASE, a, b);
    }
  }

  lemma UsedIsTotal(size: nat, s: Slab, v: View)
    requires Inv(size, s, v, RELEASE)
    ensures s.used == Total(v.live) <= s.maxUsed
  {
    hide Pages, Tags, Zones, Lists;
  }
}

/** The steps of rt_malloc and rt_free in slab.c, on values. */
module SlabSteps {
  import opened PageRuns
  import opened SlabGeometry
  import opened SlabState

  // Taking a chunk out of a zone

  /** The chunk rt_malloc takes from a zone with free chunks: the next one never used, while there is
      one, and after that the first of the free list. */
  function Chosen(zn: Zone): int {
    if zn.uindex + 1 != zn.nmax then Nth(zn, zn.uindex + 1) else if zn.free == [] then 0 else zn.free[0]
  }

  function Taken(zn: Zone): Zone {
    if zn.uindex + 1 != zn.nmax then zn.(nfree := zn.nfree - 1, uindex := zn.uindex + 1)
    else zn.(nfree := zn.nfree - 1, free := if zn.free == [] then [] else zn.free[1..])
  }

  lemma NthIndex(zn: Zone, k: nat)
    requires zn.chunk > 0
    ensures Nth(zn, k) >= zn.base && IndexIn(zn.base, zn.chunk, Nth(zn, k)) == k
  {
    MulLess(0, k, zn.chunk);
    ChunkIndex(zn.base, zn.chunk, k, Nth(zn, k));
  }

  lemma FreshFilled(size: nat, z: Page, zn: Zone, small: map<Addr, Page>, a: Addr)
    requires ZoneOk(size, z, zn, small) && zn.uindex + 1 < zn.nmax && a == Nth(zn, zn.uindex + 1)
    ensures !Held(small, z, a) && InZone(Taken(zn), a) && ZoneOk(size, z, Taken(zn), small[a := z])
  {
    hide ChunkAt, IndexIn, ChunkOf, MaxChunks, Offset;
    NthIndex(zn, zn.uindex + 1);
    var zn2, small2 := Taken(zn), small[a := z];
    assert forall x: Addr :: Held(small2, z, x) <==> x == a || Held(small, z, x);
    assert forall x: Addr :: InZone(zn, x) ==> InZone(zn2, x);
    forall k: nat | k <= zn2.uindex && Nth(zn2, k) >= 0
      ensures Nth(zn2, k) in zn2.free || Held(small2, z, Nth(zn2, k))
    {
      assert Nth(zn2, k) == Nth(zn, k);
    }
  }

  lemma PopFilled(size: nat, z: Page, zn: Zone, small: map<Addr, Page>)
    requires ZoneOk(size, z, zn, small) && zn.uindex + 1 == zn.nmax && zn.nfree > 0
    ensures zn.free != [] && !Held(small, z, zn.free[0]) && InZone(Taken(zn), zn.free[0])
    ensures ZoneOk(size, z, Taken(zn), small[zn.free[0] := z])
  {
    hide ChunkAt, IndexIn, ChunkOf, MaxChunks, Offset;
    var a := zn.free[0];
    assert a in zn.free;
    var zn2, small2 := Taken(zn), small[a := z];
    assert forall x: Addr :: Held(small2, z, x) <==> x == a || Held(small, z, x);
    assert forall x: Addr :: InZone(zn, x) <==> InZone(zn2, x);
    FirstGone(zn.free);
    forall k: nat | k <= zn2.uindex && Nth(zn2, k) >= 0
      ensures Nth(zn2, k) in zn2.free || Held(small2, z, Nth(zn2, k))
    {
      assert Nth(zn2, k) == Nth(zn, k);
    }
  }

  lemma FirstGone(s: seq<Addr>)
    requires s != [] && forall i, j :: 0 <= i < j < |s| ==> s[i] != s[j]
    ensures forall x :: x in s[1..] <==> x in s && x != s[0]
  {
    assert s == [s[0]] + s[1..];
  }

  lemma TakenFilled(size: nat, z: Page, zn: Zone, small: map<Addr, Page>)
    requires ZoneOk(size, z, zn, small) && zn.nfree > 0
    ensures Chosen(zn) >= 0 && !Held(small, z, Chosen(zn)) && InZone(Taken(zn), Chosen(zn))
    ensures ZoneOk(size, z, Taken(zn), small[Chosen(zn) := z])
  {
    hide Filled, Nth, InZone;
    if zn.uindex + 1 != zn.nmax {
      NthPositive(zn, zn.uindex + 1);
      FreshFilled(size, z, zn, small, Chosen(zn));
    } else {
      PopFilled(size, z, zn, small);
    }
  }

  lemma NthPositive(zn: Zone, k: nat)
    ensures Nth(zn, k) >= 0
  {
    MulLess(0, k, zn.chunk);
  }

  /** An address in a zone's pages that the zone does not hold is not handed out at all. */
  lemma NotHandedOut(size: nat, s: Slab, v: View, retired: nat, z: Page, a: Addr)
    requires Inv(size, s, v, retired) && z in s.zones && InRange(PageOf(a), z, size / PAGE) && !Held(v.small, z, a)
    ensures a !in v.small && a !in v.live
  {
    hide Lists, Zones, Total, Pages, Tags;
    OwnerOfZone(size / PAGE, s.zones.Keys, v.large, v.owner, s.runs, z, PageOf(a));
    if a in v.small {
      TagLeadsBack(size, s, v, retired, a);
    }
    if a in v.live && a !in v.small {
      LargePages(size, s, v, retired, PageOf(a));
    }
  }

  lemma OtherZone(size: nat, z2: Page, zn2: Zone, small: map<Addr, Page>, a: Addr, z: Page)
    requires ZoneOk(size, z2, zn2, small) && z2 != z && (a in small ==> small[a] == z)
    ensures ZoneOk(size, z2, zn2, small[a := z]) && ZoneOk(size, z2, zn2, small - {a})
  {
    hide InZone, Nth, Shape;
    assert forall x: Addr :: Held(small[a := z], z2, x) <==> Held(small, z2, x);
    assert forall x: Addr :: Held(small - {a}, z2, x) <==> Held(small, z2, x);
  }

  lemma ListsTake(zones: map<Page, Zone>, arrays: seq<seq<Page>>, zoneFree: seq<Page>, retired: nat, i: int, zn: Zone)
    requires Lists(zones, arrays, zoneFree, retired) && 0 <= i < ZONES && arrays[i] != []
    requires var z := arrays[i][0]; z in zones && zn.index == zones[z].index && zn.nfree == zones[z].nfree - 1
    ensures var z := arrays[i][0];
      Lists(zones[z := zn], if zn.nfree == 0 then arrays[i := arrays[i][1..]] else arrays, zoneFree, retired)
    ensures arrays[i][0] in zones && arrays[i][0] !in zoneFree && zones[arrays[i][0]].index == i
    ensures zones[arrays[i][0]].nfree > 0
  {
    var z := arrays[i][0];
    assert z in arrays[i];
    FirstGone(arrays[i]);
  }

  /** rt_malloc out of the first zone of its list. */
  lemma TakeOk(size: nat, s: Slab, v: View, retired: nat, i: int, s2: Slab)
    requires Inv(size, s, v, retired) && 0 <= i < ZONES && |s.arrays| == ZONES && s.arrays[i] != []
    requires s.arrays[i][0] in s.zones
    requires s2 == s.(zones := s.zones[s.arrays[i][0] := Taken(s.zones[s.arrays[i][0]])],
                      arrays := if s.zones[s.arrays[i][0]].nfree == 1 then s.arrays[i := s.arrays[i][1..]]
                          else s.arrays,
                      used := s.used + s.zones[s.arrays[i][0]].chunk, maxUsed := s2.maxUsed)
    requires s2.used <= s2.maxUsed
    ensures var z := s.arrays[i][0]; var a := Chosen(s.zones[z]);
      && a > 0 && a !in v.live && s.zones[z].chunk == ChunkOf(i) && s.zones[z].nfree > 0
      && Inv(size, s2, v.(small := v.small[a := z], live := v.live[a := s.zones[z].chunk]), retired)
  {
    hide Shape, Filled, InZone, Pages, Tags, Total, Nth, Chosen, Taken, Lists;
    var z := s.arrays[i][0];
    var zn := s.zones[z];
    TakenRest(zn);
    ListsTake(s.zones, s.arrays, s.zoneFree, retired, i, Taken(zn));
    assert ZoneOk(size, z, zn, v.small);
    TakenFilled(size, z, zn, v.small);
    ShapeClass(size, z, zn);
    var a: Addr := Chosen(zn);
    ZonePages(size, z, Taken(zn), a);
    NotHandedOut(size, s, v, retired, z, a);
    TotalInsert(v.live, a, zn.chunk);
    var small2 := v.small[a := z];
    forall z2 | z2 in s2.zones && z2 !in s2.zoneFree ensures ZoneOk(size, z2, s2.zones[z2], small2) {
      if z2 != z {
        OtherZone(size, z2, s.zones[z2], v.small, a, z);
      }
    }
    assert s2.zones.Keys == s.zones.Keys;
  }

  lemma TakenRest(zn: Zone)
    ensures Taken(zn).index == zn.index && Taken(zn).nfree == zn.nfree - 1 && Taken(zn).chunk == zn.chunk
  {
  }

  lemma ShapeClass(size: nat, z: Page, zn: Zone)
    requires Shape(size, z, zn)
    ensures 0 <= zn.index < ZONES && zn.chunk == ChunkOf(zn.index) && zn.chunk > 0
  {
  }

  // Large blocks

  /** The owner of `n` pages from `p` on becomes `o`. */
  function Granted1(owner: map<Page, Owner>, p: Page, n: nat, o: Owner): map<Page, Owner> {
    map q | q in owner :: if InRange(q, p, n) then o else owner[q]
  }

  lemma LargePagesTaken(cnt: nat, zones: set<Page>, large: map<Page, nat>, owner: map<Page, Owner>, runs: seq<Run>,
                        n: nat)
    requires Pages(cnt, zones, large, owner, runs) && n > 0 && Alloc(runs, n).page != 0
    ensures var p := Alloc(runs, n).page;
      && p > 0 && p !in large && (forall q :: InRange(q, p, n) ==> q in owner && owner[q] == FreePage)
      && Pages(cnt, zones, large[p := n], Granted1(owner, p, n, LargePage(p)), Alloc(runs, n).runs)
  {
    hide Covers, Canonical, Alloc;
    var p := Alloc(runs, n).page;
    var owner2 := Granted1(owner, p, n, LargePage(p));
    TakenRuns(cnt, zones, large, owner, runs, n, owner2, LargePage(p));
    assert InRange(p, p, n);
    if p in large {
      LargePositive(cnt, zones, large, owner, runs, p);
      OwnerOfLarge(cnt, zones, large, owner, runs, p, p);
    }
    forall s, q: Page | s in large[p := n] && InRange(q, s, large[p := n][s])
      ensures q in owner2 && owner2[q] == LargePage(s)
    {
      if s != p {
        assert owner[q] == LargePage(s);
      }
    }
  }

  /** The runs after an allocation cover what is still free. */
  lemma TakenRuns(cnt: nat, zones: set<Page>, large: map<Page, nat>, owner: map<Page, Owner>, runs: seq<Run>, n: nat,
                  owner2: map<Page, Owner>, o: Owner)
    requires Pages(cnt, zones, large, owner, runs) && n > 0 && Alloc(runs, n).page != 0 && o != FreePage
    requires owner2 == Granted1(owner, Alloc(runs, n).page, n, o)
    ensures Canonical(Alloc(runs, n).runs)
    ensures forall q: Page :: InRange(q, Alloc(runs, n).page, n) ==> q in owner && owner[q] == FreePage
    ensures forall q: Page :: Covers(Alloc(runs, n).runs, q) <==> q in owner2 && owner2[q] == FreePage
  {
    hide Covers, Canonical, Alloc;
    AllocInside(runs, n);
    AllocOk(runs, n, 0);
    forall q: Page ensures Covers(Alloc(runs, n).runs, q) <==> q in owner2 && owner2[q] == FreePage {
      AllocOk(runs, n, q);
    }
  }

  lemma LargeTags(large: map<Page, nat>, owner: map<Page, Owner>, usage: map<Page, Usage>, p: Page, n: nat)
    requires Tags(large, owner, usage) && p !in large && p in owner && owner[p] == FreePage
    ensures Tags(large[p := n], Granted1(owner, p, n, LargePage(p)), usage[p := LargeTag(n)])
  {
  }

  /** rt_malloc of a large block. */
  lemma LargeOk(size: nat, s: Slab, v: View, retired: nat, n: nat, s2: Slab)
    requires Inv(size, s, v, retired) && n > 0 && Alloc(s.runs, n).page != 0
    requires var p := Alloc(s.runs, n).page;
      s2 == s.(runs := Alloc(s.runs, n).runs, usage := s.usage[p := LargeTag(n)], used := s.used + n * PAGE,
          maxUsed := s2.maxUsed)
    requires s2.used <= s2.maxUsed
    ensures var p := Alloc(s.runs, n).page;
      && p > 0 && PageAddr(p) !in v.live
      && Inv(size, s2, View(Granted1(v.owner, p, n, LargePage(p)), v.small, v.large[p := n],
          v.live[PageAddr(p) := n * PAGE]), retired)
  {
    hide Pages, Tags, Total, Zones, Lists, Alloc, Granted1;
    var p := Alloc(s.runs, n).page;
    LargePagesTaken(size / PAGE, s.zones.Keys, v.large, v.owner, s.runs, n);
    assert InRange(p, p, n);
    LargeTags(v.large, v.owner, s.usage, p, n);
    if PageAddr(p) in v.small {
      TagLeadsBack(size, s, v, retired, PageAddr(p));
    }
    assert PageAddr(p) !in v.live by {
      assert PageOf(PageAddr(p)) == p;
    }
    TotalInsert(v.live, PageAddr(p), n * PAGE);
    SameZones(size, s, s2, v.small);
    LargeLive(s.zones, s.zoneFree, v, p, n);
  }

  lemma SameZones(size: nat, s: Slab, s2: Slab, small: map<Addr, Page>)
    requires Zones(size, s, small) && s2.zones == s.zones && s2.zoneFree == s.zoneFree
    ensures Zones(size, s2, small)
  {
    hide ZoneOk;
  }

  lemma LargeLive(zones: map<Page, Zone>, zoneFree: seq<Page>, v: View, p: Page, n: nat)
    requires LiveOk(zones, zoneFree, v) && p !in v.large && PageAddr(p) !in v.live
    ensures LiveOk(zones, zoneFree, v.(large := v.large[p := n], live := v.live[PageAddr(p) := n * PAGE]))
  {
    var w := v.(large := v.large[p := n], live := v.live[PageAddr(p) := n * PAGE]);
    forall t | t in w.large ensures PageAddr(t) in w.live && w.live[PageAddr(t)] == w.large[t] * PAGE {
      if t != p {
        assert PageAddr(t) != PageAddr(p);
      }
    }
    forall a | a in w.live ensures a in w.small || IsLarge(w.large, a) {
      if a == PageAddr(p) {
        assert PageOf(a) == p;
      }
    }
  }

  lemma FreedRuns(runs: seq<Run>, owner: map<Page, Owner>, p: Page, n: nat, o: Owner)
    requires Canonical(runs) && p > 0 && n > 0 && o != FreePage
    requires forall q: Page :: Covers(runs, q) <==> q in owner && owner[q] == FreePage
    requires forall q: Page :: InRange(q, p, n) ==> q in owner && owner[q] == o
    ensures NoneFree(runs, p, n) && Canonical(Free(runs, p, n))
    ensures var owner2 := Granted1(owner, p, n, FreePage);
      forall q: Page :: Covers(Free(runs, p, n), q) <==> q in owner2 && owner2[q] == FreePage
  {
    hide Covers, Canonical, Free;
    assert NoneFree(runs, p, n) by {
      forall q: Page | p <= q < p + n ensures !Covers(runs, q) {
        assert InRange(q, p, n);
      }
    }
    FreeOk(runs, p, n, 0);
    var owner2 := Granted1(owner, p, n, FreePage);
    forall q: Page ensures Covers(Free(runs, p, n), q) <==> q in owner2 && owner2[q] == FreePage {
      FreeOk(runs, p, n, q);
      assert InRange(q, p, n) <==> p <= q < p + n;
    }
  }

  lemma LargePagesFreed(cnt: nat, zones: set<Page>, large: map<Page, nat>, owner: map<Page, Owner>, runs: seq<Run>,
                        p: Page)
    requires Pages(cnt, zones, large, owner, runs) && p in large
    ensures NoneFree(runs, p, large[p]) && p > 0 && large[p] > 0
    ensures Pages(cnt, zones, large - {p}, Granted1(owner, p, large[p], FreePage), Free(runs, p, large[p]))
  {
    hide Covers, Canonical, Free, NoneFree;
    FreedRuns(runs, owner, p, large[p], LargePage(p));
  }

  lemma LargeGone(zones: map<Page, Zone>, zoneFree: seq<Page>, v: View, p: Page, owner2: map<Page, Owner>)
    requires LiveOk(zones, zoneFree, v) && p in v.large && PageAddr(p) !in v.small
    ensures LiveOk(zones, zoneFree, View(owner2, v.small, v.large - {p}, v.live - {PageAddr(p)}))
  {
    hide PageAddr, PageOf;
    var w := View(owner2, v.small, v.large - {p}, v.live - {PageAddr(p)});
    forall a | a in w.live ensures a in w.small || IsLarge(w.large, a) {
    }
    forall t | t in w.large ensures PageAddr(t) in w.live {
      PageAddrOf(t);
      PageAddrOf(p);
    }
  }

  /** rt_free of a large block. */
  lemma LargeFreeOk(size: nat, s: Slab, v: View, retired: nat, p: Page, s2: Slab)
    requires Inv(size, s, v, retired) && p in v.large
    requires s2 == s.(runs := Free(s.runs, p, v.large[p]), usage := s.usage[p := LargeTag(0)],
        used := s.used - v.large[p] * PAGE)
    ensures NoneFree(s.runs, p, v.large[p]) && p > 0 && v.large[p] > 0
    ensures Inv(size, s2,
        View(Granted1(v.owner, p, v.large[p], FreePage), v.small, v.large - {p}, v.live - {PageAddr(p)}), retired)
  {
    hide Pages, Total, Zones, Lists, Free, NoneFree, Tags, LiveOk, Granted1, PageAddr, PageOf;
    LargePagesFreed(size / PAGE, s.zones.Keys, v.large, v.owner, s.runs, p);
    LargePages(size, s, v, retired, p);
    LargeUntagged(v.large, v.owner, s.usage, p);
    TotalAny(v.live, PageAddr(p));
    SameZones(size, s, s2, v.small);
    LargeGone(s.zones, s.zoneFree, v, p, Granted1(v.owner, p, v.large[p], FreePage));
  }

  lemma LargeUntagged(large: map<Page, nat>, owner: map<Page, Owner>, usage: map<Page, Usage>, p: Page)
    requires Tags(large, owner, usage) && p in large && p in owner && owner[p] == LargePage(p)
    ensures Tags(large - {p}, Granted1(owner, p, large[p], FreePage), usage[p := LargeTag(0)])
  {
  }

  // Zones come and go

  function InitZone(size: nat, z: Page, i: int): Zone
    requires 0 <= i < ZONES
  {
    var chunk := ChunkOf(i);
    if chunk <= 0 then Zone(0, 0, 0, 0, 0, 0, [])
    else Zone(MaxChunks(size, chunk) - 1, MaxChunks(size, chunk), 0, chunk, i, z * PAGE + Offset(chunk), [])
  }

  lemma InitFilled(size: nat, z: Page, i: int, small: map<Addr, Page>)
    requires 0 <= i < ZONES && MaxChunks(size, ChunkOf(i)) >= 2 && forall a: Addr :: !Held(small, z, a)
    ensures var zn := InitZone(size, z, i);
      ZoneOk(size, z, zn, small[zn.base := z]) && InZone(zn, zn.base) && zn.nfree > 0 && zn.index == i &&
          zn.chunk == ChunkOf(i)
  {
    hide MaxChunks, Offset;
    var zn := InitZone(size, z, i);
    NthIndex(zn, 0);
    assert Nth(zn, 0) == zn.base;
    var small2 := small[zn.base := z];
    forall x: Addr ensures Held(small2, z, x) <==> x == zn.base {
      assert !Held(small, z, x);
    }
  }

  lemma ListsNew(zones: map<Page, Zone>, arrays: seq<seq<Page>>, zoneFree: seq<Page>, retired: nat, i: int, zn: Zone)
    requires Lists(zones, arrays, zoneFree, retired) && 0 <= i < ZONES && arrays[i] == [] && zoneFree != []
    requires zn.index == i && zn.nfree > 0
    ensures zoneFree[0] in zones && Lists(zones[zoneFree[0] := zn], arrays[i := [zoneFree[0]]], zoneFree[1..], retired)
    ensures forall y :: y in zoneFree[1..] <==> y in zoneFree && y != zoneFree[0]
  {
    var z := zoneFree[0];
    assert z in zoneFree;
    FirstOfPages(zoneFree);
    var zones2, arrays2, rest := zones[z := zn], arrays[i := [z]], zoneFree[1..];
    forall j, y: Page | 0 <= j < ZONES ensures y in arrays2[j] <==> Listable(zones2, rest, j, y) {
      assert y in arrays[j] <==> Listable(zones, zoneFree, j, y);
    }
  }

  lemma FirstOfPages(s: seq<Page>)
    requires s != [] && forall i, j :: 0 <= i < j < |s| ==> s[i] != s[j]
    ensures forall x :: x in s[1..] <==> x in s && x != s[0]
  {
    assert s == [s[0]] + s[1..];
  }

  /** rt_malloc out of a zone from the zone_free list. */
  lemma NewZoneOk(size: nat, s: Slab, v: View, retired: nat, i: int, s2: Slab)
    requires Inv(size, s, v, retired) && 0 <= i < ZONES && |s.arrays| == ZONES && s.arrays[i] == [] && s.zoneFree != []
    requires MaxChunks(size, ChunkOf(i)) >= 2
    requires s2 == s.(zones := s.zones[s.zoneFree[0] := InitZone(size, s.zoneFree[0], i)], zoneFree := s.zoneFree[1..],
                      arrays := s.arrays[i := [s.zoneFree[0]]], used := s.used + ChunkOf(i), maxUsed := s2.maxUsed)
    requires s2.used <= s2.maxUsed
    ensures var z := s.zoneFree[0]; var a := InitZone(size, z, i).base;
      && a > 0 && a !in v.live && ChunkOf(i) > 0
      && Inv(size, s2, v.(small := v.small[a := z], live := v.live[a := ChunkOf(i)]), retired)
  {
    hide Shape, Filled, InZone, Pages, Tags, Total, Nth, InitZone, Lists, MaxChunks;
    var z := s.zoneFree[0];
    var zn := InitZone(size, z, i);
    assert z in s.zoneFree;
    assert forall a: Addr :: !Held(v.small, z, a);
    InitFilled(size, z, i, v.small);
    ListsNew(s.zones, s.arrays, s.zoneFree, retired, i, zn);
    ShapeClass(size, z, zn);
    var a: Addr := zn.base;
    ZonePages(size, z, zn, a);
    NotHandedOut(size, s, v, retired, z, a);
    TotalInsert(v.live, a, ChunkOf(i));
    var small2 := v.small[a := z];
    forall z2 | z2 in s2.zones && z2 !in s2.zoneFree ensures ZoneOk(size, z2, s2.zones[z2], small2) {
      if z2 != z {
        assert ZoneOk(size, z2, s.zones[z2], v.small);
        OtherZone(size, z2, s.zones[z2], v.small, a, z);
      }
    }
    assert s2.zones.Keys == s.zones.Keys;
  }

  /** The pages of a zone get their tags, and only they. */
  ghost predicate Retagged(usage: map<Page, Usage>, usage2: map<Page, Usage>, p: Page, n: nat, free: bool) {
    && (forall q: Page :: InRange(q, p, n) ==> q in usage2 && usage2[q] == if free then FreeTag else SmallTag(q - p))
    && (forall q: Page :: q in usage && !InRange(q, p, n) ==> q in usage2 && usage2[q] == usage[q])
  }

  lemma ZonePagesTaken(cnt: nat, zones: set<Page>, large: map<Page, nat>, owner: map<Page, Owner>, runs: seq<Run>)
    requires Pages(cnt, zones, large, owner, runs) && cnt > 0 && Alloc(runs, cnt).page != 0
    ensures var p := Alloc(runs, cnt).page;
      && p > 0 && p !in zones && (forall q :: InRange(q, p, cnt) ==> q in owner && owner[q] == FreePage)
      && Pages(cnt, zones + {p}, large, Granted1(owner, p, cnt, ZonePage(p)), Alloc(runs, cnt).runs)
  {
    hide Covers, Canonical, Alloc;
    var p := Alloc(runs, cnt).page;
    var owner2 := Granted1(owner, p, cnt, ZonePage(p));
    TakenRuns(cnt, zones, large, owner, runs, cnt, owner2, ZonePage(p));
    assert InRange(p, p, cnt);
    if p in zones {
      OwnerOfZone(cnt, zones, large, owner, runs, p, p);
    }
  }

  /** A zone of fresh pages, blank like a retired one. */
  lemma ZonePagesOk(size: nat, s: Slab, v: View, s2: Slab, blank: Zone)
    requires Inv(size, s, v, 2) && s.zoneFree == [] && size >= PAGE && Alloc(s.runs, size / PAGE).page != 0
    requires var p := Alloc(s.runs, size / PAGE).page;
      s2 == s.(zones := s.zones[p := blank], zoneFree := [p], runs := Alloc(s.runs, size / PAGE).runs,
          usage := s2.usage)
    requires Retagged(s.usage, s2.usage, Alloc(s.runs, size / PAGE).page, size / PAGE, false)
    ensures var p := Alloc(s.runs, size / PAGE).page;
      Inv(size, s2, v.(owner := Granted1(v.owner, p, size / PAGE, ZonePage(p))), 2)
  {
    hide Pages, Total, Alloc, ZoneOk, Granted1;
    var p := Alloc(s.runs, size / PAGE).page;
    var owner2 := Granted1(v.owner, p, size / PAGE, ZonePage(p));
    ZonePagesTaken(size / PAGE, s.zones.Keys, v.large, v.owner, s.runs);
    assert s2.zones.Keys == s.zones.Keys + {p};
    ZoneTags(v.large, v.owner, s.usage, s2.usage, p, size / PAGE, size, s, v);
    BlankLists(s.zones, s.arrays, p, blank);
  }

  lemma ZoneTags(large: map<Page, nat>, owner: map<Page, Owner>, usage: map<Page, Usage>, usage2: map<Page, Usage>,
                 p: Page, n: nat,
                 size: nat, s: Slab, v: View)
    requires Tags(large, owner, usage) && Retagged(usage, usage2, p, n, false)
    requires forall q :: InRange(q, p, n) ==> q in owner && owner[q] == FreePage
    requires Pages(size / PAGE, s.zones.Keys, large, owner, s.runs)
    ensures Tags(large, Granted1(owner, p, n, ZonePage(p)), usage2)
  {
    hide Covers, Canonical;
    var owner2 := Granted1(owner, p, n, ZonePage(p));
    forall t | t in large ensures t in usage2 && usage2[t] == LargeTag(large[t]) {
      assert InRange(t, t, large[t]);
    }
  }

  lemma BlankLists(zones: map<Page, Zone>, arrays: seq<seq<Page>>, p: Page, blank: Zone)
    requires Lists(zones, arrays, [], 2) && p !in zones
    ensures Lists(zones[p := blank], arrays, [p], 2)
  {
    forall i, z: Page | 0 <= i < ZONES ensures z in arrays[i] <==> Listable(zones[p := blank], [p], i, z) {
      assert z in arrays[i] <==> Listable(zones, [], i, z);
    }
  }

  // Giving a chunk back

  function Put(zn: Zone, a: Addr): Zone { zn.(nfree := zn.nfree + 1, free := [a] + zn.free) }

  lemma PutFilled(size: nat, z: Page, zn: Zone, small: map<Addr, Page>, a: Addr)
    requires ZoneOk(size, z, zn, small) && Held(small, z, a)
    ensures ZoneOk(size, z, Put(zn, a), small - {a}) && zn.nfree >= 0
  {
    hide ChunkAt, IndexIn, ChunkOf, MaxChunks, Offset;
    var zn2, small2 := Put(zn, a), small - {a};
    assert forall x: Addr :: Held(small2, z, x) <==> x != a && Held(small, z, x);
    assert forall x: Addr :: InZone(zn, x) <==> InZone(zn2, x);
    FreeFront(zn.free, a);
    forall k: nat | k <= zn2.uindex && Nth(zn2, k) >= 0
      ensures Nth(zn2, k) in zn2.free || Held(small2, z, Nth(zn2, k))
    {
      assert Nth(zn2, k) == Nth(zn, k);
    }
  }

  lemma FreeFront(s: seq<Addr>, a: Addr)
    requires a !in s && forall i, j :: 0 <= i < j < |s| ==> s[i] != s[j]
    ensures var r := [a] + s; forall i, j :: 0 <= i < j < |r| ==> r[i] != r[j]
  {
  }

  lemma ListsPut(zones: map<Page, Zone>, arrays: seq<seq<Page>>, zoneFree: seq<Page>, retired: nat, z: Page, zn: Zone)
    requires Lists(zones, arrays, zoneFree, retired) && z in zones && z !in zoneFree
    requires 0 <= zones[z].index < ZONES && zn.index == zones[z].index && zn.nfree == zones[z].nfree + 1
    requires zones[z].nfree >= 0
    ensures var i := zn.index;
      Lists(zones[z := zn], if zones[z].nfree == 0 then arrays[i := [z] + arrays[i]] else arrays, zoneFree, retired)
  {
    var i := zn.index;
    var arrays2 := if zones[z].nfree == 0 then arrays[i := [z] + arrays[i]] else arrays;
    forall j, y: Page | 0 <= j < ZONES ensures y in arrays2[j] <==> Listable(zones[z := zn], zoneFree, j, y) {
      assert y in arrays[j] <==> Listable(zones, zoneFree, j, y);
    }
    if zones[z].nfree == 0 {
      assert z in arrays[i] <==> Listable(zones, zoneFree, i, z);
    }
  }

  lemma SmallGone(zones: map<Page, Zone>, zoneFree: seq<Page>, v: View, a: Addr, zn: Zone)
    requires LiveOk(zones, zoneFree, v) && a in v.small && !IsLarge(v.large, a) && v.small[a] in zones
    requires zn.chunk == zones[v.small[a]].chunk
    ensures LiveOk(zones[v.small[a] := zn], zoneFree, v.(small := v.small - {a}, live := v.live - {a}))
  {
    hide PageOf, PageAddr;
    var w := v.(small := v.small - {a}, live := v.live - {a});
    forall s | s in w.large ensures PageAddr(s) in w.live && w.live[PageAddr(s)] == w.large[s] * PAGE {
      PageAddrOf(s);
    }
  }

  /** rt_free of a chunk, before the zone is looked at. */
  lemma PutOk(size: nat, s: Slab, v: View, retired: nat, a: Addr, s2: Slab)
    requires Inv(size, s, v, retired) && a in v.small && v.small[a] in s.zones
    requires 0 <= s.zones[v.small[a]].index < |s.arrays|
    requires var z := v.small[a]; var zn := s.zones[z];
      s2 == s.(zones := s.zones[z := Put(zn, a)],
               arrays := if zn.nfree == 0 then s.arrays[zn.index := [z] + s.arrays[zn.index]] else s.arrays,
               used := s.used - zn.chunk)
    ensures v.small[a] !in s.zoneFree && Inv(size, s2, v.(small := v.small - {a}, live := v.live - {a}), retired)
    ensures |s.arrays| == ZONES
  {
    hide Shape, Filled, InZone, Pages, Tags, Total, Nth, Lists;
    var z := v.small[a];
    var zn := s.zones[z];
    assert ZoneOk(size, z, zn, v.small);
    PutFilled(size, z, zn, v.small, a);
    ShapeClass(size, z, zn);
    ListsPut(s.zones, s.arrays, s.zoneFree, retired, z, Put(zn, a));
    ListsLength(s.zones, s.arrays, s.zoneFree, retired);
    TotalAny(v.live, a);
    NotLarge(size, s, v, retired, a);
    SmallGone(s.zones, s.zoneFree, v, a, Put(zn, a));
    forall z2 | z2 in s2.zones && z2 !in s2.zoneFree ensures ZoneOk(size, z2, s2.zones[z2], v.small - {a}) {
      if z2 != z {
        assert ZoneOk(size, z2, s.zones[z2], v.small);
        OtherZone(size, z2, s.zones[z2], v.small, a, z);
      }
    }
    assert s2.zones.Keys == s.zones.Keys;
  }

  lemma ListsLength(zones: map<Page, Zone>, arrays: seq<seq<Page>>, zoneFree: seq<Page>, retired: nat)
    requires Lists(zones, arrays, zoneFree, retired)
    ensures |arrays| == ZONES && |zoneFree| <= retired
  {
  }

  lemma NotLarge(size: nat, s: Slab, v: View, retired: nat, a: Addr)
    requires Inv(size, s, v, retired) && a in v.small
    ensures !IsLarge(v.large, a)
  {
    hide Inv;
    if IsLarge(v.large, a) {
      LargePages(size, s, v, retired, PageOf(a));
    }
  }

  // Retiring a zone

  /** A zone whose chunks are all free holds nothing. */
  lemma AllFree(size: nat, z: Page, zn: Zone, small: map<Addr, Page>)
    requires ZoneOk(size, z, zn, small) && zn.nfree == zn.nmax
    ensures forall a: Addr :: !Held(small, z, a)
  {
    hide IndexIn, Nth, InZone;
    forall a: Addr ensures !Held(small, z, a) {
      if Held(small, z, a) {
        FewerFree(z, zn, small, a);
      }
    }
  }

  /** While a chunk is handed out, not all used ones are free. */
  lemma FewerFree(z: Page, zn: Zone, small: map<Addr, Page>, a: Addr)
    requires Filled(z, zn, small) && Held(small, z, a) && zn.uindex >= 0
    ensures |zn.free| <= zn.uindex
  {
    var k := IndexIn(zn.base, zn.chunk, a);
    var indices := seq(|zn.free|, i requires 0 <= i < |zn.free| => IndexIn(zn.base, zn.chunk, zn.free[i]));
    IndicesDistinct(zn, indices, a, small, z);
    Pigeonhole(indices, Range(zn.uindex + 1) - {k});
  }

  lemma IndicesDistinct(zn: Zone, indices: seq<int>, a: Addr, small: map<Addr, Page>, z: Page)
    requires Filled(z, zn, small) && Held(small, z, a) && |indices| == |zn.free|
    requires forall i :: 0 <= i < |zn.free| ==> indices[i] == IndexIn(zn.base, zn.chunk, zn.free[i])
    ensures var k := IndexIn(zn.base, zn.chunk, a);
      && 0 <= k <= zn.uindex
      && (forall i :: 0 <= i < |indices| ==> 0 <= indices[i] <= zn.uindex && indices[i] != k)
      && (forall i, j :: 0 <= i < j < |indices| ==> indices[i] != indices[j])
  {
    hide IndexIn, ChunkAt;
    forall i | 0 <= i < |indices|
      ensures 0 <= indices[i] <= zn.uindex && zn.free[i] == Nth(zn, indices[i]) && zn.free[i] != a
    {
      assert zn.free[i] in zn.free;
    }
  }

  /** The numbers below `n`. */
  function Range(n: nat): (r: set<int>)
    ensures |r| == n && forall i :: i in r <==> 0 <= i < n
  {
    if n == 0 then {} else Range(n - 1) + {n - 1}
  }

  lemma {:induction false} Pigeonhole(s: seq<int>, room: set<int>)
    requires (forall i :: 0 <= i < |s| ==> s[i] in room) && forall i, j :: 0 <= i < j < |s| ==> s[i] != s[j]
    ensures |s| <= |room|
    decreases |s|
  {
    if s != [] {
      var t := s[1..];
      assert forall i :: 0 <= i < |t| ==> t[i] == s[i + 1];
      Pigeonhole(t, room - {s[0]});
    }
  }

  function Without(q: seq<Page>, k: nat): seq<Page>
    requires k < |q|
  {
    q[..k] + q[k + 1..]
  }

  lemma WithoutPage(q: seq<Page>, k: nat)
    requires k < |q| && forall i, j :: 0 <= i < j < |q| ==> q[i] != q[j]
    ensures forall x :: x in Without(q, k) <==> x in q && x != q[k]
    ensures forall i, j :: 0 <= i < j < |Without(q, k)| ==> Without(q, k)[i] != Without(q, k)[j]
  {
    forall x | x in q && x != q[k] ensures x in Without(q, k) {
      var i :| 0 <= i < |q| && q[i] == x;
      assert Without(q, k)[if i < k then i else i - 1] == x;
    }
  }

  lemma ListsRetire(zones: map<Page, Zone>, arrays: seq<seq<Page>>, zoneFree: seq<Page>, retired: nat, i: int, k: nat)
    requires Lists(zones, arrays, zoneFree, retired) && 0 <= i < ZONES && k < |arrays[i]|
    ensures Lists(zones, arrays[i := Without(arrays[i], k)], [arrays[i][k]] + zoneFree, retired + 1)
    ensures arrays[i][k] in zones && arrays[i][k] !in zoneFree && zones[arrays[i][k]].index == i
  {
    hide Without;
    var z := arrays[i][k];
    assert z in arrays[i];
    WithoutPage(arrays[i], k);
    var arrays2, free2 := arrays[i := Without(arrays[i], k)], [z] + zoneFree;
    forall j, y: Page | 0 <= j < ZONES ensures y in arrays2[j] <==> Listable(zones, free2, j, y) {
      assert y in arrays[j] <==> Listable(zones, zoneFree, j, y);
    }
  }

  /** rt_free moves a zone that has become totally free to the zone_free list. */
  lemma RetireOk(size: nat, s: Slab, v: View, retired: nat, i: int, k: nat, s2: Slab)
    requires Inv(size, s, v, retired) && 0 <= i < ZONES && |s.arrays| == ZONES && k < |s.arrays[i]|
    requires s.arrays[i][k] in s.zones && s.zones[s.arrays[i][k]].nfree == s.zones[s.arrays[i][k]].nmax
    requires s2 == s.(arrays := s.arrays[i := Without(s.arrays[i], k)], zoneFree := [s.arrays[i][k]] + s.zoneFree)
    ensures Inv(size, s2, v, retired + 1)
  {
    hide Pages, Tags, Total, ZoneOk, Lists, Without;
    var z := s.arrays[i][k];
    ListsRetire(s.zones, s.arrays, s.zoneFree, retired, i, k);
    AllFree(size, z, s.zones[z], v.small);
    forall a | a in v.small ensures v.small[a] !in s2.zoneFree {
      assert !Held(v.small, z, a);
    }
  }

  lemma ZonePagesFreed(cnt: nat, zones: set<Page>, large: map<Page, nat>, owner: map<Page, Owner>, runs: seq<Run>,
                       z: Page)
    requires Pages(cnt, zones, large, owner, runs) && z in zones && cnt > 0
    ensures NoneFree(runs, z, cnt) && z > 0
    ensures Pages(cnt, zones - {z}, large, Granted1(owner, z, cnt, FreePage), Free(runs, z, cnt))
  {
    hide Covers, Canonical, Free, NoneFree;
    FreedRuns(runs, owner, z, cnt, ZonePage(z));
  }

  lemma ReleaseTags(cnt: nat, zones: set<Page>, large: map<Page, nat>, owner: map<Page, Owner>, runs: seq<Run>,
                    usage: map<Page, Usage>, usage2: map<Page, Usage>, z: Page)
    requires Pages(cnt, zones, large, owner, runs) && z in zones && Tags(large, owner, usage)
    requires Retagged(usage, usage2, z, cnt, true)
    ensures Tags(large, Granted1(owner, z, cnt, FreePage), usage2)
  {
    hide Covers, Canonical;
    forall t | t in large ensures t in usage2 && usage2[t] == LargeTag(large[t]) {
      assert InRange(t, t, large[t]);
    }
  }

  lemma ListsRelease(zones: map<Page, Zone>, arrays: seq<seq<Page>>, zoneFree: seq<Page>, retired: nat)
    requires Lists(zones, arrays, zoneFree, retired + 1) && zoneFree != []
    ensures zoneFree[0] in zones && Lists(zones - {zoneFree[0]}, arrays, zoneFree[1..], retired)
    ensures forall y :: y in zoneFree[1..] <==> y in zoneFree && y != zoneFree[0]
  {
    var z := zoneFree[0];
    assert z in zoneFree;
    FirstOfPages(zoneFree);
    forall j, y: Page | 0 <= j < ZONES ensures y in arrays[j] <==> Listable(zones - {z}, zoneFree[1..], j, y) {
      assert y in arrays[j] <==> Listable(zones, zoneFree, j, y);
    }
  }

  /** rt_free returns the pages of the first retired zone. */
  lemma ReleaseOk(size: nat, s: Slab, v: View, retired: nat, s2: Slab)
    requires Inv(size, s, v, retired + 1) && s.zoneFree != [] && size >= PAGE
    requires var z := s.zoneFree[0];
      s2 == s.(zones := s.zones - {z}, zoneFree := s.zoneFree[1..], runs := Free(s.runs, z, size / PAGE),
          usage := s2.usage)
    requires Retagged(s.usage, s2.usage, s.zoneFree[0], size / PAGE, true)
    ensures var z := s.zoneFree[0];
      && z > 0 && NoneFree(s.runs, z, size / PAGE)
      && Inv(size, s2, v.(owner := Granted1(v.owner, z, size / PAGE, FreePage)), retired)
  {
    hide Pages, Tags, Total, ZoneOk, Lists, Free, NoneFree, Retagged, Granted1;
    var z := s.zoneFree[0];
    assert z in s.zoneFree;
    ListsRelease(s.zones, s.arrays, s.zoneFree, retired);
    ZonePagesFreed(size / PAGE, s.zones.Keys, v.large, v.owner, s.runs, z);
    ReleaseTags(size / PAGE, s.zones.Keys, v.large, v.owner, s.runs, s.usage, s2.usage, z);
    assert s2.zones.Keys == s.zones.Keys - {z};
  }
}

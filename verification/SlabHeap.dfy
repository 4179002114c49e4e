/** rt_malloc and rt_free of slab.c: zones of chunks over the page allocator. */
module SlabHeaps {
  import opened PageRuns
  import opened PageAllocator
  import opened SlabGeometry
  import opened SlabState
  import opened SlabSteps
  import opened SlabCalls
  import opened SlabAlign

  /** RT_ALIGN leaves whole pages even where it wraps. */
  lemma PagesExact(n: nat)
    ensures PagesFor(n) * PAGE == RoundUp(n, PAGE) % WORD && PagesFor(n) == RoundUp(n, PAGE) % WORD / PAGE
  {
    var q := (n + PAGE - 1) / PAGE;
    assert RoundUp(n, PAGE) == q * 4096;
  }

  /** The pages that hold the page tags of `npages` pages. */
  function TagCount(npages: nat): nat { RoundUp(npages * 4, PAGE) / PAGE }

  /** The page tags of `npages` pages fit into the first of them. */
  lemma TagPages(start: Page, npages: nat)
    requires npages > 0
    ensures var tags := TagCount(npages);
      && 0 < tags <= npages
      && Alloc([Run(start, npages)], tags).runs == if tags == npages then [] else [Run(start + tags, npages - tags)]
  {
  }

  lemma NullKeeps(r: seq<Run>, n: nat)
    requires Canonical(r) && n > 0
    ensures Alloc(r, n).page == 0 ==> Alloc(r, n).runs == r
  {
    AllocOk(r, n, 0);
  }

  lemma Rewritten(zones: map<Page, Zone>, z: Page, a: Zone, b: Zone)
    ensures zones[z := a][z := b] == zones[z := b]
  {
  }

  lemma ZonesPositive(size: nat, s: Slab, live: map<Addr, nat>)
    requires Sound(size, s, live)
    ensures size >= PAGE && 0 !in s.zoneFree
  {
    hide Tags, Total, Canonical, Covers;
  }

  /** What rt_free meets when it finds zone `z` from the page tag of `a`. */
  ghost predicate Chunky(size: nat, s: Slab, z: Page, a: Addr) {
    && z in s.zones && |s.arrays| == ZONES && 0 <= s.zones[z].index < ZONES && z > 0 && NoneFree(s.runs, z, size / PAGE)
    && size >= PAGE
    && var q := s.arrays[s.zones[z].index];
      (z in q <==> s.zones[z].nfree != 0) && forall j, k :: 0 <= j < k < |q| ==> q[j] != q[k]
  }

  lemma PutListed(size: nat, s: Slab, z: Page, a: Addr)
    requires Chunky(size, s, z, a)
    ensures z in s.zones && |s.arrays| == ZONES && 0 <= s.zones[z].index < ZONES && z > 0
    ensures NoneFree(s.runs, z, size / PAGE)
    ensures var s1 := PutIn(s, z, a); var q := s1.arrays[s.zones[z].index];
      && z in q && |s1.arrays| == ZONES && z in s1.zones && s1.zones[z].index == s.zones[z].index && s1.runs == s.runs
      && (|q| > 1 <==> q[|q| - 1] != z || q[0] != z)
    ensures size >= PAGE
  {
    hide NoneFree;
    var q := PutIn(s, z, a).arrays[s.zones[z].index];
    if |q| > 1 {
      assert q[0] != q[|q| - 1];
    }
  }

  /** The page tag of a live block is right: it gives the length of a large block, or leads to the
      chunk's zone. */
  lemma FreeReady(size: nat, s: Slab, live: map<Addr, nat>, a: Addr)
    requires Sound(size, s, live) && a in live
    ensures Freeable(s, a)
    ensures match s.usage[PageOf(a)]
      case LargeTag(n) => n > 0 && PageOf(a) > 0 && NoneFree(s.runs, PageOf(a), n) && live[a] == n * PAGE
      case SmallTag(off) =>
        && Chunky(size, s, PageOf(a) - off, a) && live[a] == s.zones[PageOf(a) - off].chunk
        && PageOf(a) - off !in s.zoneFree
      case FreeTag => false
  {
    hide Inv, NoneFree, PageAddr, PageOf, Chunky, Free;
    FreeKeeps(size, s, live, a);
    var v: View :| v.live == live && Inv(size, s, v, RELEASE);
    if a in v.small {
      TagLeadsBack(size, s, v, RELEASE, a);
      ZoneOfChunk(size, s, v, RELEASE, a);
      ChunkReady(size, s, v, a);
    } else {
      var w := LargeFreeKeeps(size, s, v, a);
      LargePages(size, s, v, RELEASE, PageOf(a));
    }
  }

  lemma ChunkReady(size: nat, s: Slab, v: View, a: Addr)
    requires ZoneSize(size) && Inv(size, s, v, RELEASE) && a in v.small && v.small[a] in s.zones
    requires v.small[a] !in s.zoneFree
    requires |s.arrays| == ZONES && 0 <= s.zones[v.small[a]].index < ZONES
    ensures Chunky(size, s, v.small[a], a)
  {
    hide Tags, Total, Covers, Canonical, Free;
    var z := v.small[a];
    PutNfree(size, s, v, a);
    ZonePagesFreed(size / PAGE, s.zones.Keys, v.large, v.owner, s.runs, z);
    assert z in s.arrays[s.zones[z].index] <==> Listable(s.zones, s.zoneFree, s.zones[z].index, z);
  }

  /** Zones of 32K, or more on big heaps, but at most 128K. */
  method ChooseZoneSize(npages: nat) returns (size: nat)
    ensures size == if npages > 32768 then 131072 else if npages > 16384 then 65536 else 32768
  {
    var limsize := npages * PAGE;
    size := 32768;
    while size < 131072 && size * 2 < limsize / 1024
      invariant size in {32768, 65536, 131072} && (size > 32768 ==> size < npages * 4)
    {
      size := size * 2;
    }
  }

  // The lists of free chunks, linked through the chunks themselves

  /** struct slab_zone; `freechunk` is z_freechunk, the first chunk of the list. */
  datatype Header = Header(nfree: int, nmax: int, uindex: int, chunk: nat, index: int, base: Addr, freechunk: Addr)

  function AsZone(h: Header, free: seq<Addr>): Zone { Zone(h.nfree, h.nmax, h.uindex, h.chunk, h.index, h.base, free) }

  ghost function AsZones(headers: map<Page, Header>, lists: map<Page, seq<Addr>>): map<Page, Zone> {
    map z | z in headers :: AsZone(headers[z], if z in lists then lists[z] else [])
  }

  /** Following c_next from `head` one meets exactly the chunks of `list`. */
  ghost predicate Chained(words: map<Addr, Addr>, head: Addr, list: seq<Addr>)
    decreases |list|
  {
    if list == [] then head == 0
    else head == list[0] && head != 0 && head in words && Chained(words, words[head], list[1..])
  }

  /** The zones that are not retired have their free chunks linked. */
  ghost predicate AllChained(headers: map<Page, Header>, lists: map<Page, seq<Addr>>, words: map<Addr, Addr>,
                             retired: set<Page>) {
    forall z :: z in headers && z !in retired ==> z in lists && Chained(words, headers[z].freechunk, lists[z])
  }

  ghost function Retirees(zoneFree: seq<Page>): set<Page> { set z | z in zoneFree }

  /** A word is stored; words that overlap it are lost. */
  function StoreWord(words: map<Addr, Addr>, x: Addr, v: Addr): map<Addr, Addr> {
    (map y | y in words && (y + 4 <= x || x + 4 <= y) :: words[y])[x := v]
  }

  lemma {:induction false} ChainKept(words: map<Addr, Addr>, words2: map<Addr, Addr>, head: Addr, list: seq<Addr>)
    requires Chained(words, head, list)
    requires forall c :: c in list && c in words ==> c in words2 && words2[c] == words[c]
    ensures Chained(words2, head, list)
    decreases |list|
  {
    if list != [] {
      assert head in list;
      ChainKept(words, words2, words[head], list[1..]);
    }
  }

  /** Stores that spare the chunks of the list. */
  lemma StoreKeeps(headers: map<Page, Header>, lists: map<Page, seq<Addr>>, words: map<Addr, Addr>, retired: set<Page>,
                   x: Addr, v: Addr)
    requires AllChained(headers, lists, words, retired)
    requires forall z, c :: z in headers && z !in retired && z in lists && c in lists[z] ==> c + 4 <= x || x + 4 <= c
    ensures AllChained(headers, lists, StoreWord(words, x, v), retired)
  {
    forall z | z in headers && z !in retired
      ensures Chained(StoreWord(words, x, v), headers[z].freechunk, lists[z])
    {
      ChainKept(words, StoreWord(words, x, v), headers[z].freechunk, lists[z]);
    }
  }

  /** A chunk put in front of a list. */
  lemma Pushed(words: map<Addr, Addr>, head: Addr, list: seq<Addr>, a: Addr)
    requires Chained(words, head, list) && a > 0 && forall c :: c in list ==> c + 4 <= a || a + 4 <= c
    ensures Chained(StoreWord(words, a, head), a, [a] + list)
  {
    ChainKept(words, StoreWord(words, a, head), head, list);
    assert ([a] + list)[1..] == list;
  }

  /** A zone header is written together with the chain from it. */
  lemma ZoneSet(headers: map<Page, Header>, lists: map<Page, seq<Addr>>, words: map<Addr, Addr>, retired: set<Page>,
                z: Page, h: Header, l: seq<Addr>)
    requires AllChained(headers, lists, words, retired + {z}) && Chained(words, h.freechunk, l)
    ensures AsZones(headers[z := h], lists[z := l]) == AsZones(headers, lists)[z := AsZone(h, l)]
    ensures AllChained(headers[z := h], lists[z := l], words, retired)
  {
    hide Chained;
  }

  predicate SameFields(zn: Zone, h: Header) {
    && zn.nfree == h.nfree && zn.nmax == h.nmax && zn.uindex == h.uindex && zn.chunk == h.chunk && zn.index == h.index
    && zn.base == h.base
  }

  /** No zones yet. */
  lemma NoZones(words: map<Addr, Addr>)
    ensures AsZones(map[], map[]) == map[] && AllChained(map[], map[], words, Retirees([]))
  {
  }

  lemma ZoneChain(headers: map<Page, Header>, lists: map<Page, seq<Addr>>, words: map<Addr, Addr>, retired: set<Page>,
                  z: Page)
    requires AllChained(headers, lists, words, retired) && z in headers && z !in retired
    ensures z in lists && AsZones(headers, lists)[z] == AsZone(headers[z], lists[z])
    ensures Chained(words, headers[z].freechunk, lists[z])
    ensures lists[z] == [] <==> headers[z].freechunk == 0
    ensures var c := headers[z].freechunk;
      lists[z] != [] ==> c == lists[z][0] && c in words && Chained(words, words[c], lists[z][1..])
  {
  }

  lemma ZoneGone(headers: map<Page, Header>, lists: map<Page, seq<Addr>>, words: map<Addr, Addr>, retired: set<Page>,
                 z: Page)
    requires AllChained(headers, lists, words, retired + {z})
    ensures AsZones(headers - {z}, lists) == AsZones(headers, lists) - {z}
    ensures AllChained(headers - {z}, lists, words, retired)
  {
    hide Chained;
  }

  lemma FewerChained(headers: map<Page, Header>, lists: map<Page, seq<Addr>>, words: map<Addr, Addr>,
                     retired: set<Page>, more: set<Page>)
    requires AllChained(headers, lists, words, retired) && retired <= more
    ensures AllChained(headers, lists, words, more)
  {
  }

  lemma ListHead(size: nat, s: Slab, live: map<Addr, nat>, i: int)
    requires Sound(size, s, live) && 0 <= i < ZONES
    ensures |s.arrays| == ZONES && (s.arrays[i] != [] ==> s.arrays[i][0] !in s.zoneFree)
  {
    hide Pages, Tags, Zones, Total;
    if s.arrays[i] != [] {
      assert s.arrays[i][0] in s.arrays[i];
    }
  }

  /** The words inside the `n` bytes from `b` on are what they were. */
  ghost predicate Kept(words: map<Addr, Addr>, words2: map<Addr, Addr>, b: Addr, n: nat) {
    forall y :: y in words && b <= y && y + 4 <= b + n ==> y in words2 && words2[y] == words[y]
  }

  lemma StoreKept(words: map<Addr, Addr>, x: Addr, v: Addr, b: Addr, n: nat)
    requires b + n <= x || x + 4 <= b
    ensures Kept(words, StoreWord(words, x, v), b, n)
  {
  }

  /** A store inside a live block spares the free chunks and all other live blocks. */
  lemma StoreApart(size: nat, s: Slab, live: map<Addr, nat>, a: Addr, x: Addr)
    requires Sound(size, s, live) && a in live && a <= x && x + 4 <= a + live[a]
    ensures forall z, c :: z in s.zones && z !in s.zoneFree && c in s.zones[z].free ==> c + 4 <= x || x + 4 <= c
    ensures forall b :: b in live && b != a ==> b + live[b] <= x || x + 4 <= b
  {
    hide Sound;
    forall z, c | z in s.zones && z !in s.zoneFree && c in s.zones[z].free ensures c + 4 <= x || x + 4 <= c {
      FreeApart(size, s, live, z, c, a);
    }
    forall b | b in live && b != a ensures b + live[b] <= x || x + 4 <= b {
      LiveApart(size, s, live, a, b);
    }
  }

  lemma LiveApart(size: nat, s: Slab, live: map<Addr, nat>, a: Addr, b: Addr)
    requires Sound(size, s, live) && a in live && b in live && a != b
    ensures a + live[a] <= b || b + live[b] <= a
  {
    hide Inv;
    var v: View :| v.live == live && Inv(size, s, v, RELEASE);
    if a < b {
      LiveDisjoint(size, s, v, RELEASE, a, b);
    } else {
      LiveDisjoint(size, s, v, RELEASE, b, a);
    }
  }

  lemma LiveEight(size: nat, s: Slab, live: map<Addr, nat>, a: Addr)
    requires Sound(size, s, live) && a in live
    ensures live[a] >= 8
  {
    hide Inv;
    var v: View :| v.live == live && Inv(size, s, v, RELEASE);
    LivePositive(size, s, v, a);
  }

  /** A chunk on a list of free chunks overlaps no live block. */
  lemma FreeApart(size: nat, s: Slab, live: map<Addr, nat>, z: Page, c: Addr, a: Addr)
    requires Sound(size, s, live) && z in s.zones && z !in s.zoneFree && c in s.zones[z].free && a in live
    ensures c + 8 <= a || a + live[a] <= c
  {
    hide Inv;
    var v: View :| v.live == live && Inv(size, s, v, RELEASE);
    if a in v.small && v.small[a] == z {
      FreeInZone(size, s, v, z, c, a);
    } else if c < a + live[a] && a < c + 8 {
      FreeOverlap(size, s, v, z, c, a);
    }
  }

  lemma FreeInZone(size: nat, s: Slab, v: View, z: Page, c: Addr, a: Addr)
    requires Inv(size, s, v, RELEASE) && z in s.zones && z !in s.zoneFree && c in s.zones[z].free
    requires a in v.small && v.small[a] == z
    ensures a in v.live && (c + 8 <= a || a + v.live[a] <= c)
  {
    hide Lists, Total, Pages, Tags;
    var zn := s.zones[z];
    assert ZoneOk(size, z, zn, v.small) && Held(v.small, z, a);
    ChunkEight(zn.index);
    var j, k := IndexIn(zn.base, zn.chunk, c), IndexIn(zn.base, zn.chunk, a);
    if j < k {
      ChunksApart(zn.base, zn.chunk, j, k);
    } else if k < j {
      ChunksApart(zn.base, zn.chunk, k, j);
    }
  }

  lemma ChunkEight(i: int)
    requires 0 <= i < ZONES
    ensures ChunkOf(i) >= 8
  {
  }

  /** A page in which a chunk of `z` and a block of another owner meet would have two owners. */
  lemma FreeOverlap(size: nat, s: Slab, v: View, z: Page, c: Addr, a: Addr)
    requires Inv(size, s, v, RELEASE) && z in s.zones && z !in s.zoneFree && c in s.zones[z].free
    requires a in v.live && !(a in v.small && v.small[a] == z)
    ensures !(c < a + v.live[a] && a < c + 8)
  {
    hide Inv, InRange;
    LivePositive(size, s, v, a);
    if c < a + v.live[a] && a < c + 8 {
      var x := if c < a then a else c;
      PageBetween(a, v.live[a], x);
      BlockPage(size, s, v, RELEASE, a, PageOf(x));
      FreePages8(size, s, v, z, c, x);
    }
  }

  lemma LivePositive(size: nat, s: Slab, v: View, a: Addr)
    requires Inv(size, s, v, RELEASE) && a in v.live
    ensures v.live[a] >= 8
  {
    hide Lists, Total, Pages, Tags, Filled;
    if a in v.small {
      ChunkEight(s.zones[v.small[a]].index);
      assert ZoneOk(size, v.small[a], s.zones[v.small[a]], v.small);
    } else {
      assert IsLarge(v.large, a);
      LargePositive(size / PAGE, s.zones.Keys, v.large, v.owner, s.runs, PageOf(a));
    }
  }

  lemma FreePages8(size: nat, s: Slab, v: View, z: Page, c: Addr, x: Addr)
    requires Inv(size, s, v, RELEASE) && z in s.zones && z !in s.zoneFree && c in s.zones[z].free && c <= x < c + 8
    ensures PageOf(x) in v.owner && v.owner[PageOf(x)] == ZonePage(z)
  {
    hide Lists, Total, Pages, Tags;
    var zn := s.zones[z];
    assert ZoneOk(size, z, zn, v.small);
    ChunkEight(zn.index);
    ZonePages(size, z, zn, c);
    assert InRange(PageOf(x), z, size / PAGE);
    OwnerOfZone(size / PAGE, s.zones.Keys, v.large, v.owner, s.runs, z, PageOf(x));
  }

  class SlabHeap {
    const pages: PageAllocator
    const zoneSize: nat
    const zoneLimit: nat
    var headers: map<Page, Header>   // the zone headers, at the start of their pages
    var words: map<Addr, Addr>       // the words in the heap: c_next of free chunks, and what the program stores
    var arrays: seq<seq<Page>>       // zone_array[]
    var zoneFree: seq<Page>          // zone_free
    var zoneFreeCnt: nat
    var usage: map<Page, Usage>      // memusage[]
    var usedMem: int
    var maxMem: int
    ghost var live: map<Addr, nat>
    ghost var lists: map<Page, seq<Addr>>  // the free chunks of every zone

    ghost function S(): Slab
      reads this, pages
    {
      Slab(AsZones(headers, lists), arrays, zoneFree, usage, pages.runs, usedMem, maxMem)
    }

    ghost predicate Valid()
      reads this, pages
    {
      && pages.Valid() && Sound(zoneSize, S(), live) && zoneLimit == Limit(zoneSize) && zoneFreeCnt == |zoneFree|
      && AllChained(headers, lists, words, Retirees(zoneFree))
    }

    /** rt_system_heap_init on `npages` pages from `start` on. `junk` is what the memory of the page
        tags holds; nothing clears it. */
    constructor (start: Page, npages: nat, junk: map<Page, Usage>)
      requires start > 0 && npages > 0 && start + npages <= WORD / PAGE
      ensures Valid() && fresh(pages) && live == map[]
      ensures zoneSize == if npages > 32768 then 131072 else if npages > 16384 then 65536 else 32768
      ensures var tags := TagCount(npages);
        tags <= npages && S() == Empty(junk, if tags == npages then [] else [Run(start + tags, npages - tags)])
    {
      var size := ChooseZoneSize(npages);
      zoneSize := size;
      zoneLimit := if size / 4 > LIMIT then LIMIT else size / 4;
      pages := new PageAllocator(start, npages);
      headers, arrays, zoneFree, zoneFreeCnt, usage := map[], NoLists(), [], 0, junk;
      usedMem, maxMem, live, lists, words := 0, 0, map[], map[], map[];
      new;
      hide Alloc, TagCount, Sound, Canonical, Segment, AllChained, AsZones, Retirees, NoLists, Grants;
      TagPages(start, npages);
      var tags := TagCount(npages);
      var memusage := pages.PageAlloc(tags);
      NoZones(words);
      EmptyOk(zoneSize, junk, pages.runs, start + tags, npages - tags);
    }

    method Account(bytes: nat)
      modifies `usedMem, `maxMem
      ensures S() == Count(old(S()), bytes)
    {
      usedMem := usedMem + bytes;
      if usedMem > maxMem {
        maxMem := usedMem;
      }
    }

    method MallocPages(n: nat) returns (p: int)
      requires pages.Valid()
      modifies `usage, `usedMem, `maxMem, pages
      ensures pages.Valid() && Got(S(), p) == LargeMalloc(old(S()), PagesFor(n))
    {
      hide Alloc, Canonical, RoundUp, PagesFor;
      PagesExact(n);
      var size := RoundUp(n, PAGE) % WORD;
      var count := size / PAGE;
      if count > 0 {
        NullKeeps(pages.runs, count);
      }
      var chunk := pages.PageAlloc(count);
      if chunk == 0 {
        return 0;
      }
      usage := usage[chunk := LargeTag(count)];
      Account(size);
      p := PageAddr(chunk);
    }

    /** A chunk is taken from zone `z`: the next one never used, or the first of the list, whose c_next
        becomes the first. */
    method TakeChunk(zi: int) returns (chunk: int)
      requires Listed(S()) && 0 <= zi < ZONES && arrays[zi] != [] && arrays[zi][0] !in zoneFree
      requires AllChained(headers, lists, words, Retirees(zoneFree))
      modifies `headers, `arrays, `usedMem, `maxMem, `lists
      ensures Got(S(), chunk) == FromZone(old(S()), zi)
      ensures AllChained(headers, lists, words, Retirees(zoneFree))
    {
      hide AllChained, AsZones, Chained;
      var z := arrays[zi][0];
      ZoneKnown(z);
      ZoneChain(headers, lists, words, Retirees(zoneFree), z);
      var h := headers[z];
      ghost var l2 := lists[z];
      h := h.(nfree := h.nfree - 1);
      if h.nfree == 0 {
        arrays := arrays[zi := arrays[zi][1..]];
      }
      if h.uindex + 1 != h.nmax {
        h := h.(uindex := h.uindex + 1);
        chunk := h.base + h.uindex * h.chunk;
      } else if h.freechunk != 0 {
        chunk := h.freechunk;
        h := h.(freechunk := words[chunk]);
        l2 := l2[1..];
      } else {
        chunk := 0;
      }
      FewerChained(headers, lists, words, Retirees(zoneFree), Retirees(zoneFree) + {z});
      ZoneSet(headers, lists, words, Retirees(zoneFree), z, h, l2);
      headers := headers[z := h];
      lists := lists[z := l2];
      Account(h.chunk);
    }

    lemma ZoneKnown(z: Page)
      ensures z in S().zones <==> z in headers
      ensures z in headers ==> SameFields(S().zones[z], headers[z])
      ensures z in Retirees(zoneFree) <==> z in zoneFree
    {
    }

    /** The tags of a zone's pages, one by one. */
    method SetTags(z: Page, n: nat, free: bool)
      modifies `usage
      ensures usage == Retag(old(usage), z, n, free)
    {
      var i := 0;
      while i < n
        invariant 0 <= i <= n && usage == Retag(old(usage), z, i, free)
      {
        usage := usage[z + i := if free then FreeTag else SmallTag(i)];
        i := i + 1;
      }
    }

    /** A zone is taken from zone_free or made of fresh pages; 0 is returned if there are none. */
    method FindZone() returns (z: Page)
      requires pages.Valid() && zoneFreeCnt == |zoneFree| && zoneSize >= PAGE
      modifies `zoneFree, `zoneFreeCnt, `usage, pages
      ensures pages.Valid() && zoneFreeCnt == |zoneFree| && Retirees(old(zoneFree)) <= Retirees(zoneFree) + {z}
      ensures var s := old(S());
        if s.zoneFree != [] then z == s.zoneFree[0] && S() == s.(zoneFree := s.zoneFree[1..])
        else if Alloc(s.runs, zoneSize / PAGE).page == 0 then z == 0 && S() == s
        else z == WithPages(zoneSize, s).zoneFree[0] && S() == WithPages(zoneSize, s).(zones := s.zones, zoneFree := [])
    {
      if zoneFree != [] {
        z := zoneFree[0];
        zoneFree := zoneFree[1..];
        zoneFreeCnt := zoneFreeCnt - 1;
      } else {
        NullKeeps(pages.runs, zoneSize / PAGE);
        z := pages.PageAlloc(zoneSize / PAGE);
        if z != 0 {
          SetTags(z, zoneSize / PAGE, false);
        }
      }
    }

    /** The zone header is written, and the zone becomes the head of its list. */
    method OpenZone(z: Page, zi: int, size: nat) returns (p: int)
      requires |arrays| == ZONES && 0 <= zi < ZONES && size == ChunkOf(zi) && size > 0
      requires AllChained(headers, lists, words, Retirees(zoneFree) + {z})
      modifies `headers, `arrays, `usedMem, `maxMem, `lists
      ensures AllChained(headers, lists, words, Retirees(zoneFree))
      ensures var zn := InitZone(zoneSize, z, zi); var s := old(S());
        && p == zn.base
        && S() == Count(s.(zones := s.zones[z := zn], arrays := s.arrays[zi := [z] + s.arrays[zi]]), size)
    {
      hide AllChained, AsZones, Retirees;
      var off := if Power2(size) then RoundUp(HEADER, size) else RoundUp(HEADER, 8);
      var nmax := (zoneSize - off) / size;
      var h := Header(nmax - 1, nmax, 0, size, zi, z * PAGE + off, 0);
      ZoneSet(headers, lists, words, Retirees(zoneFree), z, h, []);
      headers := headers[z := h];
      lists := lists[z := []];
      arrays := arrays[zi := [z] + arrays[zi]];
      Account(size);
      p := z * PAGE + off;
    }

    method MallocSmall(zi: int, size: nat) returns (p: int)
      requires pages.Valid() && Listed(S()) && zoneFreeCnt == |zoneFree| && 0 <= zi < ZONES && size == ChunkOf(zi)
      requires size > 0 && (arrays[zi] != [] ==> arrays[zi][0] !in zoneFree)
      requires zoneSize >= PAGE && 0 !in zoneFree
      requires AllChained(headers, lists, words, Retirees(zoneFree))
      modifies `headers, `arrays, `zoneFree, `zoneFreeCnt, `usage, `usedMem, `maxMem, `lists, pages
      ensures pages.Valid() && zoneFreeCnt == |zoneFree|
      ensures AllChained(headers, lists, words, Retirees(zoneFree))
      ensures Got(S(), p) == SmallMalloc(zoneSize, old(S()), zi)
    {
      hide Alloc, ChunkOf, InitZone, Retag, FromZone, AsZones, Retirees;
      if arrays[zi] != [] {
        p := TakeChunk(zi);
        return;
      }
      ghost var s := S();
      InitChunk(zoneSize, if s.zoneFree != [] then s.zoneFree[0] else Alloc(s.runs, zoneSize / PAGE).page, zi);
      ghost var retired := Retirees(zoneFree);
      var z := FindZone();
      if z == 0 {
        return 0;
      }
      FewerChained(headers, lists, words, retired, Retirees(zoneFree) + {z});
      assert arrays[zi] == [] && [z] + [] == [z];
      p := OpenZone(z, zi, size);
      if s.zoneFree == [] {
        Rewritten(s.zones, z, Zone(0, 0, 0, 0, 0, 0, []), InitZone(zoneSize, z, zi));
      }
    }

    /** Memory of at least `n` bytes that overlaps nothing live is returned, or null, and then nothing
        has changed. */
    method Malloc(n: nat) returns (p: int)
      requires Valid() && n < WORD
      modifies this, pages
      ensures Valid() && words == old(words)
      ensures Listed(old(S())) && Got(S(), p) == MallocOf(zoneSize, old(S()), n)
      ensures p == 0 <==> n == 0 || Exhausted(zoneSize, old(S()), n)
      ensures p == 0 ==> live == old(live)
      ensures p != 0 ==> p > 0 && p !in old(live) && n <= Size(zoneSize, n) && live == old(live)[p := Size(zoneSize, n)]
      ensures p != 0 && Power2(n) && n <= PAGE ==> p % n == 0
      ensures p != 0 && Power2(n) && n > PAGE ==> (p % n == 0 <==> Where(zoneSize, old(S()), n) % (n / PAGE) == 0)
    {
      hide Sound, Exhausted, Listed, ChunkOf, LargeMalloc, SmallMalloc, ZoneIndex, Where, Power2, AllChained, AsZones,
           Retirees, Segment, Canonical;
      ghost var s := S();
      MallocOk(zoneSize, s, live, n);
      if n > 0 && Power2(n) {
        MallocAligned(zoneSize, s, live, n);
      }
      if n == 0 {
        return 0;
      }
      if n >= zoneLimit {
        p := MallocPages(n);
      } else {
        var zi, size := Zoneindex(n);
        ZoneIndexOk(n);
        ZonesPositive(zoneSize, s, live);
        ListHead(zoneSize, s, live, zi);
        p := MallocSmall(zi, size);
      }
      if p != 0 {
        live := live[p := Size(zoneSize, n)];
      }
    }

    /** The chunk goes on the zone's list of free chunks, and a zone without any back on its list. */
    method PutChunk(z: Page, a: Addr)
      requires z in headers && |arrays| == ZONES && 0 <= headers[z].index < ZONES && z !in zoneFree && a > 0
      requires AllChained(headers, lists, words, Retirees(zoneFree)) && Spare(a)
      modifies `headers, `arrays, `usedMem, `lists, `words
      ensures S() == PutIn(old(S()), z, a) && words == StoreWord(old(words), a, old(headers)[z].freechunk)
      ensures AllChained(headers, lists, words, Retirees(zoneFree))
    {
      hide AllChained, AsZones, Chained, StoreWord, Retirees, Spare;
      ZoneKnown(z);
      ZoneChain(headers, lists, words, Retirees(zoneFree), z);
      PushSpares(z, a);
      var h := headers[z];
      usedMem := usedMem - h.chunk;
      if h.nfree == 0 {
        arrays := arrays[h.index := [z] + arrays[h.index]];
      }
      var h2 := h.(nfree := h.nfree + 1, freechunk := a);
      StoreKeeps(headers, lists, words, Retirees(zoneFree), a, h.freechunk);
      Pushed(words, h.freechunk, lists[z], a);
      words := StoreWord(words, a, h.freechunk);
      FewerChained(headers, lists, words, Retirees(zoneFree), Retirees(zoneFree) + {z});
      ZoneSet(headers, lists, words, Retirees(zoneFree), z, h2, [a] + lists[z]);
      headers := headers[z := h2];
      lists := lists[z := [a] + lists[z]];
    }

    lemma PushSpares(z: Page, a: Addr)
      requires Spare(a) && z in headers && z !in Retirees(zoneFree) && z in lists
      ensures forall y, c :: y in headers && y !in Retirees(zoneFree) && y in lists && c in lists[y] ==>
                c + 4 <= a || a + 4 <= c
      ensures forall c :: c in lists[z] ==> c + 4 <= a || a + 4 <= c
    {
    }

    /** The word at `a` belongs to no free chunk. */
    ghost predicate Spare(a: Addr)
      reads this
    {
      forall z, c :: z in headers && z !in Retirees(zoneFree) && z in lists && c in lists[z] ==>
          c + 4 <= a || a + 4 <= c
    }

    /** The zone leaves its list, which is searched for it, and is retired. */
    method RetireZone(z: Page)
      requires z in headers && |arrays| == ZONES && 0 <= headers[z].index < ZONES && z in arrays[headers[z].index]
      requires zoneFreeCnt == |zoneFree|
      modifies `arrays, `zoneFree, `zoneFreeCnt
      ensures S() == Retire(old(S()), z) && zoneFreeCnt == |zoneFree| && zoneFree == [z] + old(zoneFree)
      ensures Retirees(old(zoneFree)) <= Retirees(zoneFree)
    {
      var i := headers[z].index;
      var q := arrays[i];
      var k := 0;
      while q[k] != z
        invariant 0 <= k < |q| && z !in q[..k] && z in q[k..]
        decreases |q| - k
      {
        k := k + 1;
      }
      RemovedAt(q, k);
      arrays := arrays[i := q[..k] + q[k + 1..]];
      zoneFree := [z] + zoneFree;
      zoneFreeCnt := zoneFreeCnt + 1;
    }

    /** The first retired zone goes back to the page allocator. */
    method ReleaseZone()
      requires pages.Valid() && zoneFree != [] && zoneFreeCnt == |zoneFree| && zoneSize >= PAGE
      requires zoneFree[0] > 0 && NoneFree(pages.runs, zoneFree[0], zoneSize / PAGE)
      requires AllChained(headers, lists, words, Retirees(zoneFree))
      modifies `headers, `zoneFree, `zoneFreeCnt, `usage, pages
      ensures pages.Valid() && S() == Release(zoneSize, old(S())) && zoneFreeCnt == |zoneFree|
      ensures AllChained(headers, lists, words, Retirees(zoneFree))
    {
      hide AllChained, AsZones;
      assert Retirees(zoneFree) == Retirees(zoneFree[1..]) + {zoneFree[0]} by {
        assert zoneFree == [zoneFree[0]] + zoneFree[1..];
      }
      var z := zoneFree[0];
      zoneFree := zoneFree[1..];
      zoneFreeCnt := zoneFreeCnt - 1;
      ZoneGone(headers, lists, words, Retirees(zoneFree), z);
      headers := headers - {z};
      SetTags(z, zoneSize / PAGE, true);
      pages.PageFree(z, zoneSize / PAGE);
    }

    method FreeChunk(z: Page, a: Addr)
      requires pages.Valid() && zoneFreeCnt == |zoneFree| && Chunky(zoneSize, S(), z, a)
      requires z !in zoneFree && a > 0 && AllChained(headers, lists, words, Retirees(zoneFree)) && Spare(a)
      modifies `headers, `arrays, `zoneFree, `zoneFreeCnt, `usage, `usedMem, `lists, `words, pages
      ensures pages.Valid() && S() == ChunkFree(zoneSize, old(S()), z, a) && zoneFreeCnt == |zoneFree|
      ensures AllChained(headers, lists, words, Retirees(zoneFree))
      ensures exists w :: words == StoreWord(old(words), a, w)
    {
      hide PutIn, Retire, Release, NoneFree, Chunky, StoreWord, Retirees, AllChained, AsZones;
      ZoneKnown(z);
      PutListed(zoneSize, S(), z, a);
      var i := headers[z].index;
      PutChunk(z, a);
      ZoneKnown(z);
      var q := arrays[i];
      if headers[z].nfree == headers[z].nmax && (q[|q| - 1] != z || q[0] != z) {
        ghost var retired := Retirees(zoneFree);
        RetireZone(z);
        FewerChained(headers, lists, words, retired, Retirees(zoneFree));
        if zoneFreeCnt > RELEASE {
          ReleaseZone();
        }
      }
    }

    method FreePages(p: Page, n: nat)
      requires pages.Valid() && p > 0 && n > 0 && NoneFree(pages.runs, p, n)
      modifies `usage, `usedMem, pages
      ensures pages.Valid() && S() == LargeFree(old(S()), p, n)
    {
      usage := usage[p := LargeTag(0)];
      usedMem := usedMem - n * PAGE;
      pages.PageFree(p, n);
    }

    /** The program stores a word in a live block: the lists of free chunks and the contents of all other
        live blocks stay as they are. */
    method Store(a: Addr, off: nat, v: Addr)
      requires Valid() && a in live && off + 4 <= live[a]
      modifies `words
      ensures Valid() && words == StoreWord(old(words), a + off, v)
      ensures forall b :: b in live && b != a ==> Kept(old(words), words, b, live[b])
    {
      hide Sound, StoreWord, Kept;
      SpareBlock(a, a + off);
      StoreKeeps(headers, lists, words, Retirees(zoneFree), a + off, v);
      forall b | b in live && b != a ensures Kept(words, StoreWord(words, a + off, v), b, live[b]) {
        StoreKept(words, a + off, v, b, live[b]);
      }
      words := StoreWord(words, a + off, v);
    }

    lemma SpareBlock(a: Addr, x: Addr)
      requires Valid() && a in live && a <= x && x + 4 <= a + live[a]
      ensures Spare(x)
      ensures forall b :: b in live && b != a ==> b + live[b] <= x || x + 4 <= b
    {
      hide Sound;
      StoreApart(zoneSize, S(), live, a, x);
      forall z, c | z in headers && z !in Retirees(zoneFree) && z in lists && c in lists[z]
        ensures c + 4 <= x || x + 4 <= c
      {
        assert z in S().zones && z !in S().zoneFree && c in S().zones[z].free;
      }
    }

    /** The block at `ptr` is live no more; nothing else changes for the caller, and no word of another
        live block. */
    method FreeBlock(ptr: Addr)
      requires Valid() && (ptr == 0 || ptr in live)
      modifies this, pages
      ensures Valid()
      ensures ptr == 0 ==> S() == old(S()) && live == old(live)
      ensures ptr > 0 ==> Freeable(old(S()), ptr) && S() == FreeOf(zoneSize, old(S()), ptr) && live == old(live) - {ptr}
      ensures forall b :: b in live && b != ptr ==> Kept(old(words), words, b, live[b])
    {
      hide Sound, ChunkFree, LargeFree, NoneFree, PageAddr, Chunky, StoreWord;
      if ptr == 0 {
        return;
      }
      ghost var w := words;
      FreeReady(zoneSize, S(), live, ptr);
      FreeKeeps(zoneSize, S(), live, ptr);
      LiveEight(zoneSize, S(), live, ptr);
      SpareBlock(ptr, ptr);
      var page := PageOf(ptr);
      var kup := usage[page];
      if kup.LargeTag? {
        FreePages(page, kup.size);
      } else {
        FreeChunk(page - kup.size, ptr);
        forall b | b in live && b != ptr ensures Kept(w, words, b, live[b]) {
          ghost var x :| words == StoreWord(w, ptr, x);
          StoreKept(w, ptr, x, b, live[b]);
        }
      }
      live := live - {ptr};
    }
  }

  /** The first block of a fresh heap, of more than a page: it is aligned exactly if the first page
      behind the page tags is. */
  method FirstBlock(start: Page, npages: nat, junk: map<Page, Usage>, n: nat) returns (h: SlabHeap, p: int)
    requires start > 0 && npages > 0 && start + npages <= WORD / PAGE && PAGE < n < WORD && Power2(n)
    ensures fresh(h) && fresh(h.pages) && h.Valid() && p >= 0
    ensures h.zoneSize == if npages > 32768 then 131072 else if npages > 16384 then 65536 else 32768
    ensures var tags := TagCount(npages);
      && (p == 0 <==> npages - tags < if n >= Limit(h.zoneSize) then n / PAGE else h.zoneSize / PAGE)
      && (p % n == 0 <==> p == 0 || (start + tags) % (n / PAGE) == 0)
  {
    hide TagCount, Sound, MallocOf, Exhausted, Where, Power2;
    h := new SlabHeap(start, npages, junk);
    ghost var s := h.S();
    FreshAligned(h.zoneSize, s, start + TagCount(npages), npages - TagCount(npages), n);
    p := h.Malloc(n);
  }

  /** Two pages, in a heap without any zone, that start at an odd page. */
  method OddPages(junk: map<Page, Usage>) returns (h: SlabHeap, p: int)
    ensures fresh(h) && fresh(h.pages) && h.Valid() && Power2(8192) && 8192 >= Limit(h.zoneSize)
    ensures p > 0 && p % 8192 != 0
  {
    hide Power2, SlabHeap.Valid;
    Power8192();
    h, p := FirstBlock(2, 20, junk, 8192);
  }

  /** A chunk of 8192 bytes in a zone of 64K that starts at an odd page. */
  method OddZone(junk: map<Page, Usage>) returns (h: SlabHeap, p: int)
    ensures fresh(h) && fresh(h.pages) && h.Valid() && Power2(8192) && 8192 < Limit(h.zoneSize)
    ensures p > 0 && p % 8192 != 0
  {
    hide Power2, SlabHeap.Valid;
    Power8192();
    h, p := FirstBlock(2, 16385, junk, 8192);
  }
}

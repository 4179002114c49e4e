/** The page allocator of slab.c, changed in place: a singly linked list whose nodes lie in the free
    pages themselves. */
module PageAllocator {
  import opened PageRuns

  /** `r` as linked nodes from `head` on, the last one pointing to `end`. */
  ghost predicate Segment(next: map<Page, Page>, page: map<Page, nat>, head: Page, r: seq<Run>, end: Page)
    decreases |r|
  {
    if r == [] then head == end
    else
      && head == r[0].start && head in next && head in page && page[head] == r[0].pages
      && Segment(next, page, next[head], r[1..], end)
  }

  lemma {:induction false} SegmentFrame(next: map<Page, Page>, page: map<Page, nat>, next2: map<Page, Page>,
                                        page2: map<Page, nat>,
                                        head: Page, r: seq<Run>, end: Page)
    requires Segment(next, page, head, r, end)
    requires forall i :: 0 <= i < |r| && r[i].start in next && r[i].start in page ==>
      && r[i].start in next2 && next2[r[i].start] == next[r[i].start]
      && r[i].start in page2 && page2[r[i].start] == page[r[i].start]
    ensures Segment(next2, page2, head, r, end)
    decreases |r|
  {
    if r != [] {
      assert forall i :: 0 <= i < |r[1..]| ==> r[1..][i] == r[i + 1];
      SegmentFrame(next, page, next2, page2, next[head], r[1..], end);
    }
  }

  lemma {:induction false} SegmentJoin(next: map<Page, Page>, page: map<Page, nat>, head: Page, a: seq<Run>, m: Page,
                                       b: seq<Run>, end: Page)
    requires Segment(next, page, head, a, m) && Segment(next, page, m, b, end)
    ensures Segment(next, page, head, a + b, end)
    decreases |a|
  {
    if a == [] {
      assert a + b == b;
    } else {
      assert (a + b)[1..] == a[1..] + b;
      SegmentJoin(next, page, next[head], a[1..], m, b, end);
    }
  }

  /** Redirecting the last node. */
  lemma {:induction false} SegmentRedirect(next: map<Page, Page>, page: map<Page, nat>, head: Page, a: seq<Run>,
                                           m: Page, m2: Page)
    requires Segment(next, page, head, a, m) && a != []
    requires forall i :: 0 <= i < |a| - 1 ==> a[i].start != a[|a| - 1].start
    ensures Segment(next[a[|a| - 1].start := m2], page, head, a, m2)
    decreases |a|
  {
    var last := a[|a| - 1].start;
    if |a| > 1 {
      assert a[1..][|a| - 2] == a[|a| - 1];
      assert forall i :: 0 <= i < |a[1..]| - 1 ==> a[1..][i] == a[i + 1];
      SegmentRedirect(next, page, next[head], a[1..], m, m2);
    } else {
      assert a[1..] == [];
    }
  }

  lemma {:induction false} Ascending(r: seq<Run>)
    requires Canonical(r)
    ensures forall i, j :: 0 <= i < j < |r| ==> End(r[i]) < r[j].start
    ensures forall i :: 0 <= i < |r| ==> r[i].start > 0 && r[i].pages > 0
    decreases |r|
  {
    if r != [] {
      Ascending(r[1..]);
      forall i, j | 0 <= i < j < |r| ensures End(r[i]) < r[j].start {
        assert r[j] == r[1..][j - 1];
        if i > 0 {
          assert r[i] == r[1..][i - 1];
        } else if j > 1 {
          assert r[1] == r[1..][0];
        }
      }
      assert forall i :: 0 < i < |r| ==> r[i] == r[1..][i - 1];
    }
  }

  class PageAllocator {
    var next: map<Page, Page>
    var page: map<Page, nat>
    var list: Page                // rt_page_list
    ghost var runs: seq<Run>

    ghost predicate Linked()
      reads this
    {
      Segment(next, page, list, runs, 0)
    }

    ghost predicate Valid()
      reads this
    {
      Canonical(runs) && Linked()
    }

    /** rt_page_init. */
    constructor (addr: Page, npages: nat)
      requires addr > 0 && npages > 0
      ensures Valid() && runs == [Run(addr, npages)]
    {
      next, page, list := map[addr := 0], map[addr := npages], addr;
      runs := [Run(addr, npages)];
    }

    /** The loops have gone past the runs `done`; `prev` is the last of them, or 0 for the list head. */
    ghost predicate At(done: seq<Run>, rest: seq<Run>, prev: Page, b: Page)
      reads this
    {
      && runs == done + rest && Segment(next, page, list, done, b) && Segment(next, page, b, rest, 0)
      && prev == if done == [] then 0 else done[|done| - 1].start
    }

    lemma Started()
      requires Valid()
      ensures At([], runs, 0, list)
    {
      assert [] + runs == runs;
    }

    lemma Passed(done: seq<Run>, rest: seq<Run>, prev: Page, b: Page)
      requires At(done, rest, prev, b) && rest != []
      ensures b == rest[0].start && b in next && b in page && page[b] == rest[0].pages
      ensures Segment(next, page, next[b], rest[1..], 0)
      ensures At(done + [rest[0]], rest[1..], b, next[b])
    {
      assert done + rest == (done + [rest[0]]) + rest[1..];
      assert [rest[0]][1..] == [];
      SegmentJoin(next, page, list, done, b, [rest[0]], next[b]);
    }

    /** `*prev = to`, where `rest2` hangs on `to` in the changed nodes. */
    method SetLink(prev: Page, to: Page, ghost done: seq<Run>, ghost rest: seq<Run>, ghost b: Page,
                   ghost rest2: seq<Run>)
      requires Segment(next, page, list, done, b) && Segment(next, page, to, rest2, 0)
      requires prev == if done == [] then 0 else done[|done| - 1].start
      requires forall i, j :: 0 <= i < j < |done| ==> done[i].start < done[j].start
      requires forall i :: 0 <= i < |done| ==> done[i].start > 0
      requires forall i :: 0 <= i < |rest2| ==> rest2[i].start != prev
      modifies `next, `list, `runs
      ensures runs == done + rest2 && Linked()
    {
      hide Segment;
      if prev == 0 {
        EmptySegment(next, page, list, b);
        list := to;
        assert [] + rest2 == rest2;
      } else {
        SegmentRedirect(next, page, list, done, b, to);
        SegmentFrame(next, page, next[prev := to], page, to, rest2, 0);
        SegmentJoin(next[prev := to], page, list, done, to, rest2, 0);
        next := next[prev := to];
      }
      runs := done + rest2;
    }

    /** `*prev = b->next`. */
    method Unlink(prev: Page, b: Page, ghost done: seq<Run>, ghost rest: seq<Run>)
      requires At(done, rest, prev, b) && InOrder(done, rest) && rest != []
      modifies `next, `list, `runs
      ensures runs == done + rest[1..] && Linked()
    {
      hide Segment;
      Passed(done, rest, prev, b);
      assert forall i :: 0 <= i < |rest[1..]| ==> rest[1..][i] == rest[i + 1];
      SetLink(prev, next[b], done, rest, b, rest[1..]);
    }

    /** A node at `n`, of `pages` pages, takes the place of block `b`. */
    method Replace(prev: Page, b: Page, n: Page, pages: nat, ghost done: seq<Run>, ghost rest: seq<Run>)
      requires At(done, rest, prev, b) && InOrder(done, rest) && rest != []
      requires n > 0 && n < End(rest[0]) && forall i :: 0 <= i < |done| ==> End(done[i]) <= n && done[i].pages > 0
      modifies `next, `page, `list, `runs
      ensures runs == done + ([Run(n, pages)] + rest[1..]) && Linked()
    {
      hide Segment;
      Passed(done, rest, prev, b);
      RestOrder(done, rest);
      assert forall i :: 0 <= i < |done| ==> done[i].start < n;
      SplitHere(next, page, b, rest, n, pages);
      FrameAll(next, page, n, next[b], pages, list, done, b);
      ghost var rest2 := [Run(n, pages)] + rest[1..];
      assert forall i :: 0 < i < |rest2| ==> rest2[i] == rest[i];
      next := next[n := next[b]];
      page := page[n := pages];
      SetLink(prev, n, done, rest, b, rest2);
    }

    /** The loop of rt_page_alloc up to the block it takes. */
    method FindFit(npages: nat) returns (prev: Page, b: Page, ghost done: seq<Run>, ghost rest: seq<Run>)
      requires Valid() && npages > 0
      ensures At(done, rest, prev, b) && (b == 0 <==> rest == []) && InOrder(done, rest)
      ensures Alloc(runs, npages) == Granted(done + Alloc(rest, npages).runs, Alloc(rest, npages).page)
      ensures forall i :: 0 <= i < |done| ==> done[i].pages > 0
      ensures b != 0 ==> rest[0].pages >= npages
    {
      hide Segment, Canonical, InOrder, Alloc;
      StartOrder(runs);
      Started();
      prev := 0;
      b := list;
      done, rest := [], runs;
      AllocDone([], runs, npages);
      HeadZero(next, page, b, done, rest);
      while b != 0
        invariant At(done, rest, prev, b) && (b == 0 <==> rest == []) && InOrder(done, rest)
        invariant Alloc(runs, npages) == Granted(done + Alloc(rest, npages).runs, Alloc(rest, npages).page)
        invariant forall i :: 0 <= i < |done| ==> done[i].pages > 0
        decreases |rest|
      {
        Passed(done, rest, prev, b);
        OrderFacts(done, rest);
        if page[b] >= npages {
          return;
        }
        AllocStep(done, rest, npages);
        NextOrder(done, rest);
        prev := b;
        b := next[b];
        done, rest := done + [rest[0]], rest[1..];
        HeadZero(next, page, b, done, rest);
      }
    }

    /** rt_page_alloc: first fit, null if no run is long enough. */
    method PageAlloc(npages: nat) returns (b: Page)
      requires Valid()
      modifies `next, `page, `list, `runs
      ensures Valid() && (npages == 0 ==> b == 0 && runs == old(runs))
      ensures npages > 0 ==> Granted(runs, b) == Alloc(old(runs), npages)
      ensures npages > 0 ==> Grants(old(runs), runs, npages, b)
    {
      hide Segment, Canonical, InOrder, Alloc, Covers, Grants;
      if npages == 0 {
        return 0;
      }
      AllocExact(runs, npages);
      var prev;
      ghost var done, rest;
      prev, b, done, rest := FindFit(npages);
      if b != 0 {
        Passed(done, rest, prev, b);
        OrderFacts(done, rest);
        AllocHit(rest, npages);
        if page[b] > npages {
          Replace(prev, b, b + npages, page[b] - npages, done, rest);
        } else {
          Unlink(prev, b, done, rest);
        }
      } else {
        AllocNone(done, rest, npages);
      }
    }

    /** The loop of rt_page_free up to the block that decides the case. */
    method FindPlace(n: Page, npages: nat) returns (prev: Page, b: Page, ghost done: seq<Run>, ghost rest: seq<Run>)
      requires Valid() && npages > 0 && n > 0 && NoneFree(runs, n, npages)
      ensures At(done, rest, prev, b) && (b == 0 <==> rest == []) && InOrder(done, rest)
      ensures Free(runs, n, npages) == done + Free(rest, n, npages)
      ensures forall i :: 0 <= i < |done| ==> done[i].pages > 0 && End(done[i]) < n
      ensures b != 0 ==> End(rest[0]) == n || rest[0].start == n + npages || rest[0].start > n + npages
      ensures NoneFree(rest, n, npages)
    {
      hide Segment, Canonical, InOrder, Free, NoneFree;
      StartOrder(runs);
      Started();
      prev := 0;
      b := list;
      done, rest := [], runs;
      assert [] + Free(runs, n, npages) == Free(runs, n, npages);
      HeadZero(next, page, b, done, rest);
      while b != 0
        invariant At(done, rest, prev, b) && (b == 0 <==> rest == []) && InOrder(done, rest)
        invariant Free(runs, n, npages) == done + Free(rest, n, npages)
        invariant NoneFree(rest, n, npages)
        invariant forall i :: 0 <= i < |done| ==> done[i].pages > 0 && End(done[i]) < n
        decreases |rest|
      {
        Passed(done, rest, prev, b);
        OrderFacts(done, rest);
        Overlap(rest[0], n, npages, rest);
        // the assertions of rt_page_free
        assert page[b] > 0 && (b > n || b + page[b] <= n);
        if b + page[b] == n || b == n + npages || b > n + npages {
          return;
        }
        FreeStep(done, rest, n, npages);
        NextOrder(done, rest);
        prev := b;
        b := next[b];
        done, rest := done + [rest[0]], rest[1..];
        HeadZero(next, page, b, done, rest);
      }
    }

    /** Appending to block `b`, and joining the block behind if they now touch. */
    method Extend(prev: Page, b: Page, npages: nat, ghost done: seq<Run>, ghost rest: seq<Run>)
      requires At(done, rest, prev, b) && InOrder(done, rest) && rest != []
      requires (|rest| > 1 ==> End(rest[0]) + npages <= rest[1].start)
      modifies `next, `page, `runs
      ensures Linked() && list == old(list)
      ensures runs == done + (if |rest| > 1 && End(rest[0]) + npages == rest[1].start
                              then [Run(rest[0].start, rest[0].pages + npages + rest[1].pages)] + rest[2..]
                              else [Run(rest[0].start, rest[0].pages + npages)] + rest[1..])
    {
      hide Segment, InOrder;
      Passed(done, rest, prev, b);
      OrderFacts(done, rest);
      NextOrder(done, rest);
      ghost var t := rest[1..];
      HeadZero(next, page, next[b], done + [rest[0]], t);
      var len := page[b] + npages;
      var after := next[b];
      if b + len == after {
        HeadIs(next, page, after, t);
        Passed(done + [rest[0]], t, b, after);
        var len2 := len + page[after];
        var after2 := next[after];
        assert rest[1..][1..] == rest[2..];
        Rebuild(b, len2, after2, rest[2..], done, rest);
        page := page[b := len2];
        next := next[b := after2];
        runs := done + ([Run(b, len2)] + rest[2..]);
      } else {
        HeadIs(next, page, after, t);
        Rebuild(b, len, after, t, done, rest);
        page := page[b := len];
        SameLink(next, b);
        runs := done + ([Run(b, len)] + t);
      }
    }

    lemma Rebuild(b: Page, len: nat, after: Page, t: seq<Run>, done: seq<Run>, rest: seq<Run>)
      requires Segment(next, page, list, done, b) && Segment(next, page, after, t, 0) && b in next && b in page
      requires InOrder(done, rest) && rest != [] && rest[0].start == b && forall i :: 0 <= i < |t| ==> t[i].start > b
      ensures Segment(next[b := after], page[b := len], list, done + ([Run(b, len)] + t), 0)
    {
      hide InOrder;
      OrderFacts(done, rest);
      var next2, page2 := next[b := after], page[b := len];
      SegmentFrame(next, page, next2, page2, list, done, b);
      SegmentFrame(next, page, next2, page2, after, t, 0);
      assert ([Run(b, len)] + t)[1..] == t;
      SegmentJoin(next2, page2, list, done, b, [Run(b, len)] + t, 0);
    }

    /** rt_page_free: the pages join the free list, merged with the runs they touch. */
    method PageFree(n: Page, npages: nat)
      requires Valid() && n > 0 && npages > 0 && NoneFree(runs, n, npages)
      modifies `next, `page, `list, `runs
      ensures Valid() && runs == Free(old(runs), n, npages)
      ensures forall p: Page :: Covers(runs, p) <==> Covers(old(runs), p) || n <= p < n + npages
    {
      hide Segment, Canonical, InOrder, NoneFree;
      FreeExact(runs, n, npages);
      var prev, b, done, rest := FindPlace(n, npages);
      if b != 0 {
        Passed(done, rest, prev, b);
        OrderFacts(done, rest);
        if b + page[b] == n {
          RoomBehind(rest, n, npages, done);
          Extend(prev, b, npages, done, rest);
          return;
        }
        if b == n + npages {
          Replace(prev, b, n, page[b] + npages, done, rest);
          return;
        }
      }
      assert rest == [] ==> [Run(n, npages)] + rest == [Run(n, npages)];
      Insert(prev, b, n, npages, done, rest);
    }

    /** A node of its own before block `b`. */
    method Insert(prev: Page, b: Page, n: Page, npages: nat, ghost done: seq<Run>, ghost rest: seq<Run>)
      requires At(done, rest, prev, b) && InOrder(done, rest) && n > 0
      requires (forall i :: 0 <= i < |done| ==> done[i].pages > 0 && End(done[i]) < n)
      requires (rest != [] ==> rest[0].start > n)
      modifies `next, `page, `list, `runs
      ensures runs == done + ([Run(n, npages)] + rest) && Linked()
    {
      hide Segment;
      ghost var rest2 := [Run(n, npages)] + rest;
      assert forall i :: 0 < i < |rest2| ==> rest2[i] == rest[i - 1];
      InsertHere(next, page, b, rest, n, npages, done);
      FrameAll(next, page, n, b, npages, list, done, b);
      page := page[n := npages];
      next := next[n := b];
      SetLink(prev, n, done, rest, b, rest2);
    }
  }

  lemma EmptySegment(next: map<Page, Page>, page: map<Page, nat>, head: Page, b: Page)
    ensures Segment(next, page, head, [], b) <==> head == b
  {
  }

  lemma AllocDone(done: seq<Run>, r: seq<Run>, n: nat)
    requires done == []
    ensures Alloc(r, n) == Granted(done + Alloc(r, n).runs, Alloc(r, n).page)
  {
  }

  lemma AllocHit(rest: seq<Run>, n: nat)
    requires rest != [] && rest[0].pages >= n
    ensures Alloc(rest, n).page == rest[0].start
    ensures Alloc(rest, n).runs ==
            if rest[0].pages > n then [Run(rest[0].start + n, rest[0].pages - n)] + rest[1..] else rest[1..]
  {
  }

  lemma AllocNone(done: seq<Run>, rest: seq<Run>, n: nat)
    requires rest == []
    ensures Alloc(rest, n).page == 0 && done + Alloc(rest, n).runs == done + rest
  {
  }

  lemma AllocStep(done: seq<Run>, rest: seq<Run>, n: nat)
    requires rest != [] && rest[0].pages < n
    ensures done + Alloc(rest, n).runs == (done + [rest[0]]) + Alloc(rest[1..], n).runs
    ensures Alloc(rest, n).page == Alloc(rest[1..], n).page
  {
  }

  lemma HeadZero(next: map<Page, Page>, page: map<Page, nat>, b: Page, done: seq<Run>, rest: seq<Run>)
    requires Segment(next, page, b, rest, 0) && InOrder(done, rest)
    ensures b == 0 <==> rest == []
  {
  }

  lemma OrderFacts(done: seq<Run>, rest: seq<Run>)
    requires InOrder(done, rest) && rest != []
    ensures rest[0].start > 0 && rest[0].pages > 0 && forall i :: 0 <= i < |done| ==> End(done[i]) < rest[0].start
  {
  }

  /** What the order of the runs says about the place the loops have reached. */
  ghost predicate InOrder(done: seq<Run>, rest: seq<Run>) {
    && (forall i, j :: 0 <= i < j < |done| ==> done[i].start < done[j].start)
    && (forall i :: 0 <= i < |done| ==> done[i].start > 0)
    && (forall i :: 0 <= i < |rest| ==> rest[i].start > 0 && rest[i].pages > 0)
    && (forall i, j :: 0 <= i < j < |rest| ==> End(rest[i]) < rest[j].start)
    && (forall i, j :: 0 <= i < |done| && 0 <= j < |rest| ==> End(done[i]) < rest[j].start)
  }

  lemma StartOrder(r: seq<Run>)
    requires Canonical(r)
    ensures InOrder([], r)
  {
    Ascending(r);
  }

  lemma RestOrder(done: seq<Run>, rest: seq<Run>)
    requires InOrder(done, rest)
    ensures InOrder([], rest)
  {
  }

  lemma NextOrder(done: seq<Run>, rest: seq<Run>)
    requires InOrder(done, rest) && rest != []
    ensures InOrder(done + [rest[0]], rest[1..])
  {
    var d, t := done + [rest[0]], rest[1..];
    assert forall i :: 0 <= i < |t| ==> t[i] == rest[i + 1];
  }

  /** The tail with its first node moved `n` pages on. */
  lemma SplitHere(next: map<Page, Page>, page: map<Page, nat>, b: Page, rest: seq<Run>, n: Page, pages: nat)
    requires rest != [] && Segment(next, page, b, rest, 0)
    requires n < End(rest[0]) && InOrder([], rest)
    ensures b in next && Segment(next[n := next[b]], page[n := pages], n, [Run(n, pages)] + rest[1..], 0)
  {
    var d := [Run(n, pages)] + rest[1..];
    assert d[1..] == rest[1..];
    assert forall i :: 0 <= i < |rest[1..]| ==> rest[1..][i] == rest[i + 1];
    SegmentFrame(next, page, next[n := next[b]], page[n := pages], next[b], rest[1..], 0);
  }

  /** Writing a node beyond all of `done`. */
  lemma FrameAll(next: map<Page, Page>, page: map<Page, nat>, n: Page, to: Page, pages: nat, head: Page,
                 done: seq<Run>, b: Page)
    requires Segment(next, page, head, done, b) && forall i :: 0 <= i < |done| ==> done[i].start != n
    ensures Segment(next[n := to], page[n := pages], head, done, b)
  {
    SegmentFrame(next, page, next[n := to], page[n := pages], head, done, b);
  }

  lemma FreeStep(done: seq<Run>, rest: seq<Run>, n: Page, npages: nat)
    requires rest != [] && End(rest[0]) != n && rest[0].start != n + npages && rest[0].start <= n + npages
    ensures done + Free(rest, n, npages) == (done + [rest[0]]) + Free(rest[1..], n, npages)
  {
  }

  lemma HeadIs(next: map<Page, Page>, page: map<Page, nat>, b: Page, rest: seq<Run>)
    requires Segment(next, page, b, rest, 0)
    ensures rest != [] ==> b == rest[0].start
    ensures rest == [] ==> b == 0
  {
  }

  lemma SameLink(next: map<Page, Page>, b: Page)
    requires b in next
    ensures next[b := next[b]] == next
  {
  }

  /** The freed pages end before the run behind the one they extend. */
  lemma RoomBehind(rest: seq<Run>, n: Page, npages: nat, done: seq<Run>)
    requires InOrder(done, rest) && rest != [] && End(rest[0]) == n && npages > 0 && NoneFree(rest, n, npages)
    ensures |rest| > 1 ==> n + npages <= rest[1].start
  {
    hide InOrder;
    OrderFacts(done, rest);
    Overlap(rest[0], n, npages, rest);
    if |rest| > 1 {
      NextOrder(done, rest);
      OrderFacts(done + [rest[0]], rest[1..]);
      assert rest[1..][0] == rest[1] && End((done + [rest[0]])[|done|]) < rest[1].start;
      Overlap(rest[1], n, npages, rest[1..]);
    }
  }

  lemma InsertHere(next: map<Page, Page>, page: map<Page, nat>, b: Page, rest: seq<Run>, n: Page, npages: nat,
                   done: seq<Run>)
    requires Segment(next, page, b, rest, 0) && InOrder(done, rest) && (rest != [] ==> rest[0].start > n)
    ensures Segment(next[n := b], page[n := npages], n, [Run(n, npages)] + rest, 0)
  {
    assert ([Run(n, npages)] + rest)[1..] == rest;
    SegmentFrame(next, page, next[n := b], page[n := npages], b, rest, 0);
  }
}

/** The page allocator of slab.c on values: free pages as a sorted list of maximal runs. Pages are
    numbered; 0 is RT_NULL. */
module PageRuns {

  type Page = nat

  datatype Run = Run(start: Page, pages: nat)

  /** Sorted, disjoint, and maximal: no run touches the next. */
  ghost predicate Canonical(r: seq<Run>) {
    r == [] || (r[0].start > 0 && r[0].pages > 0 && (|r| > 1 ==> End(r[0]) < r[1].start) && Canonical(r[1..]))
  }

  function End(b: Run): Page { b.start + b.pages }

  ghost predicate Covers(r: seq<Run>, p: Page) { r != [] && (r[0].start <= p < End(r[0]) || Covers(r[1..], p)) }

  lemma {:induction false} CoversFrom(r: seq<Run>, p: Page)
    requires Canonical(r) && Covers(r, p)
    ensures r[0].start <= p && p > 0 && (Covers(r[1..], p) ==> p > End(r[0]))
  {
    if Covers(r[1..], p) {
      CoversFrom(r[1..], p);
    }
  }

  // rt_page_alloc

  datatype Granted = Granted(runs: seq<Run>, page: Page)

  /** The first run that is big enough gives its first `n` pages. */
  function Alloc(r: seq<Run>, n: nat): Granted {
    if r == [] then Granted(r, 0)
    else if r[0].pages > n then Granted([Run(r[0].start + n, r[0].pages - n)] + r[1..], r[0].start)
    else if r[0].pages == n then Granted(r[1..], r[0].start)
    else Granted([r[0]] + Alloc(r[1..], n).runs, Alloc(r[1..], n).page)
  }

  /** Null is returned exactly if no run has `n` pages; otherwise the pages taken leave the free set,
      and nothing else does. */
  lemma {:induction false} AllocOk(r: seq<Run>, n: nat, p: Page)
    requires Canonical(r) && n > 0
    ensures var g := Alloc(r, n);
      && Canonical(g.runs)
      && (g.page == 0 <==> forall i :: 0 <= i < |r| ==> r[i].pages < n)
      && (g.page == 0 ==> g.runs == r)
      && (g.page != 0 ==> (Covers(g.runs, p) <==> Covers(r, p) && !(g.page <= p < g.page + n)))
      && (g.page != 0 && g.page <= p < g.page + n ==> Covers(r, p))
      && (r != [] && g.runs != [] ==> r[0].start <= g.runs[0].start)
    decreases |r|
  {
    if r != [] {
      AllocRest(r, p);
      if r[0].pages < n {
        AllocOk(r[1..], n, p);
        var g := Alloc(r[1..], n);
        var d := [r[0]] + g.runs;
        assert d[1..] == g.runs;
        SmallRuns(r, n);
        if g.page != 0 {
          AllocOk(r[1..], n, g.page);
          CoversFrom(r[1..], g.page);
        }
      } else if r[0].pages > n {
        var d := [Run(r[0].start + n, r[0].pages - n)] + r[1..];
        assert d[1..] == r[1..];
      }
    }
  }

  lemma AllocRest(r: seq<Run>, p: Page)
    requires Canonical(r) && r != []
    ensures Covers(r[1..], p) ==> p > End(r[0])
    ensures |r| > 1 ==> r[1..][0] == r[1] && r[1].start > r[0].start
  {
    if Covers(r[1..], p) {
      CoversFrom(r[1..], p);
    }
  }

  lemma SmallRuns(r: seq<Run>, n: nat)
    requires r != []
    ensures (forall i :: 0 <= i < |r| ==> r[i].pages < n) <==>
              (r[0].pages < n && forall i :: 0 <= i < |r[1..]| ==> r[1..][i].pages < n)
  {
    if r[0].pages < n && forall i :: 0 <= i < |r[1..]| ==> r[1..][i].pages < n {
      forall i | 0 <= i < |r| ensures r[i].pages < n {
        assert i > 0 ==> r[1..][i - 1] == r[i];
      }
    }
    if forall i :: 0 <= i < |r| ==> r[i].pages < n {
      assert forall i :: 0 <= i < |r[1..]| ==> r[1..][i] == r[i + 1];
    }
  }

  /** `p` starts the first run of at least `n` pages. */
  ghost predicate FitsFirst(r: seq<Run>, n: nat, p: Page) {
    exists k :: 0 <= k < |r| && r[k].start == p && r[k].pages >= n && forall j :: 0 <= j < k ==> r[j].pages < n
  }

  lemma {:induction false} AllocFirst(r: seq<Run>, n: nat)
    requires Alloc(r, n).page != 0
    ensures FitsFirst(r, n, Alloc(r, n).page)
  {
    if r[0].pages >= n {
      assert r[0].start == Alloc(r, n).page;
    } else {
      AllocFirst(r[1..], n);
      var k :| 0 <= k < |r[1..]| && r[1..][k].start == Alloc(r, n).page && r[1..][k].pages >= n
               && forall j :: 0 <= j < k ==> r[1..][j].pages < n;
      assert r[k + 1] == r[1..][k] && forall j :: 0 < j <= k ==> r[j] == r[1..][j - 1];
    }
  }

  /** Of the runs `r`, `n` pages from `page` on are granted, which leaves `s`: null exactly if every run is
      too short, and otherwise the first pages of the first run that has as many. */
  ghost predicate Grants(r: seq<Run>, s: seq<Run>, n: nat, page: Page) {
    && (page == 0 <==> forall i :: 0 <= i < |r| ==> r[i].pages < n)
    && (page == 0 ==> s == r)
    && (page != 0 ==> FitsFirst(r, n, page))
    && (page != 0 ==> forall p: Page :: Covers(s, p) <==> Covers(r, p) && !(page <= p < page + n))
  }

  lemma AllocExact(r: seq<Run>, n: nat)
    requires Canonical(r) && n > 0
    ensures Canonical(Alloc(r, n).runs) && Grants(r, Alloc(r, n).runs, n, Alloc(r, n).page)
  {
    hide Alloc, Covers, Canonical, FitsFirst;
    var g := Alloc(r, n);
    AllocOk(r, n, 0);
    if g.page != 0 {
      AllocFirst(r, n);
      forall p: Page ensures Covers(g.runs, p) <==> Covers(r, p) && !(g.page <= p < g.page + n) {
        AllocOk(r, n, p);
      }
    }
  }

  // rt_page_free

  /** The pages join the run before them, the run after them, both, or become a run of their own. */
  function Free(r: seq<Run>, p: Page, n: nat): seq<Run> {
    if r == [] then [Run(p, n)]
    else if End(r[0]) == p then
      if |r| > 1 && p + n == r[1].start then [Run(r[0].start, r[0].pages + n + r[1].pages)] + r[2..]
      else [Run(r[0].start, r[0].pages + n)] + r[1..]
    else if r[0].start == p + n then [Run(p, r[0].pages + n)] + r[1..]
    else if r[0].start > p + n then [Run(p, n)] + r
    else [r[0]] + Free(r[1..], p, n)
  }

  /** None of the pages is free yet: what the assertions of rt_page_free check. */
  ghost predicate NoneFree(r: seq<Run>, p: Page, n: nat) { forall q: Page :: p <= q < p + n ==> !Covers(r, q) }

  lemma Overlap(b: Run, p: Page, n: nat, r: seq<Run>)
    requires r != [] && r[0] == b && b.pages > 0 && n > 0 && NoneFree(r, p, n)
    ensures End(b) <= p || p + n <= b.start
    ensures NoneFree(r[1..], p, n)
  {
    if !(End(b) <= p || p + n <= b.start) {
      var q := if b.start <= p then p else b.start;
      assert Covers(r, q);
    }
    forall q: Page | Covers(r[1..], q) ensures Covers(r, q) {
    }
  }

  /** The pages freed join the free set, nothing else does, and the runs stay maximal. */
  lemma {:induction false} FreeOk(r: seq<Run>, p: Page, n: nat, q: Page)
    requires Canonical(r) && p > 0 && n > 0 && NoneFree(r, p, n)
    ensures var s := Free(r, p, n);
      && Canonical(s) && (Covers(s, q) <==> Covers(r, q) || p <= q < p + n)
      && s != [] && (s[0].start == p || (r != [] && s[0].start == r[0].start))
    decreases |r|
  {
    if r == [] {
      assert [Run(p, n)][1..] == [];
    } else {
      Overlap(r[0], p, n, r);
      AllocRest(r, q);
      if End(r[0]) == p {
        FreeBehind(r, p, n, q);
      } else if r[0].start == p + n {
        assert ([Run(p, r[0].pages + n)] + r[1..])[1..] == r[1..];
      } else if r[0].start > p + n {
        assert ([Run(p, n)] + r)[1..] == r;
      } else {
        FreeOk(r[1..], p, n, q);
        assert ([r[0]] + Free(r[1..], p, n))[1..] == Free(r[1..], p, n);
      }
    }
  }

  lemma FreeExact(r: seq<Run>, p: Page, n: nat)
    requires Canonical(r) && p > 0 && n > 0 && NoneFree(r, p, n)
    ensures Canonical(Free(r, p, n))
    ensures forall q: Page :: Covers(Free(r, p, n), q) <==> Covers(r, q) || p <= q < p + n
  {
    hide Free, Covers, Canonical, NoneFree;
    FreeOk(r, p, n, 0);
    forall q: Page ensures Covers(Free(r, p, n), q) <==> Covers(r, q) || p <= q < p + n {
      FreeOk(r, p, n, q);
    }
  }

  lemma FreeBehind(r: seq<Run>, p: Page, n: nat, q: Page)
    requires Canonical(r) && r != [] && End(r[0]) == p && n > 0 && NoneFree(r, p, n)
    ensures var s := Free(r, p, n);
      Canonical(s) && (Covers(s, q) <==> Covers(r, q) || p <= q < p + n) && s[0].start == r[0].start
  {
    if |r| > 1 {
      Overlap(r[0], p, n, r);
      assert r[1..][0] == r[1];
      Overlap(r[1], p, n, r[1..]);
      AllocRest(r[1..], q);
      assert r[1..][1..] == r[2..];
      if p + n == r[1].start {
        assert ([Run(r[0].start, r[0].pages + n + r[1].pages)] + r[2..])[1..] == r[2..];
      } else {
        assert ([Run(r[0].start, r[0].pages + n)] + r[1..])[1..] == r[1..];
      }
    } else {
      assert ([Run(r[0].start, r[0].pages + n)] + r[1..])[1..] == r[1..];
    }
  }

  // A set of pages has only one list of maximal runs

  lemma FirstRun(r: seq<Run>)
    requires Canonical(r) && r != []
    ensures Covers(r, r[0].start) && !Covers(r, End(r[0]))
    ensures forall p :: r[0].start <= p < End(r[0]) ==> Covers(r, p)
  {
    if Covers(r, End(r[0])) {
      CoversFrom(r, End(r[0]));
    }
  }

  lemma TailCovers(r: seq<Run>, p: Page)
    requires Canonical(r) && r != []
    ensures Covers(r[1..], p) <==> Covers(r, p) && p >= End(r[0])
  {
    if Covers(r[1..], p) {
      CoversFrom(r[1..], p);
    }
  }

  /** The free list is determined by its set of pages. */
  lemma {:induction false} RunsUnique(r: seq<Run>, s: seq<Run>)
    requires Canonical(r) && Canonical(s) && forall p: Page :: Covers(r, p) <==> Covers(s, p)
    ensures r == s
    decreases |r|
  {
    if r == [] {
      if s != [] {
        FirstRun(s);
      }
    } else {
      FirstRun(r);
      CoversFrom(s, r[0].start);
      FirstRun(s);
      CoversFrom(r, s[0].start);
      assert r[0] == s[0] by { SameEnd(r, s); }
      forall p: Page ensures Covers(r[1..], p) <==> Covers(s[1..], p) {
        TailCovers(r, p);
        TailCovers(s, p);
      }
      RunsUnique(r[1..], s[1..]);
    }
  }

  lemma SameEnd(r: seq<Run>, s: seq<Run>)
    requires Canonical(r) && Canonical(s) && r != [] && s != [] && r[0].start == s[0].start
    requires forall p: Page :: Covers(r, p) <==> Covers(s, p)
    ensures r[0] == s[0]
  {
    hide Covers;
    FirstRun(r);
    FirstRun(s);
    assert Covers(r, End(s[0])) <==> Covers(s, End(s[0]));
    assert Covers(r, End(r[0])) <==> Covers(s, End(r[0]));
  }

  /** Freeing what an allocation took restores the identical list. */
  lemma AllocFree(r: seq<Run>, n: nat)
    requires Canonical(r) && n > 0 && Alloc(r, n).page != 0
    ensures Free(Alloc(r, n).runs, Alloc(r, n).page, n) == r
  {
    hide Alloc, Free, Covers, Canonical;
    var g := Alloc(r, n);
    forall q: Page ensures Covers(g.runs, q) <==> Covers(r, q) && !(g.page <= q < g.page + n) {
      AllocOk(r, n, q);
    }
    AllocOk(r, n, 0);
    AllocInside(r, n);
    forall q: Page ensures Covers(Free(g.runs, g.page, n), q) <==> Covers(r, q) {
      FreeOk(g.runs, g.page, n, q);
    }
    FreeOk(g.runs, g.page, n, 0);
    RunsUnique(Free(g.runs, g.page, n), r);
  }

  lemma AllocInside(r: seq<Run>, n: nat)
    requires Canonical(r) && n > 0 && Alloc(r, n).page != 0
    ensures forall q: Page :: Alloc(r, n).page <= q < Alloc(r, n).page + n ==> Covers(r, q)
  {
    hide Alloc, Covers, Canonical;
    forall q: Page | Alloc(r, n).page <= q < Alloc(r, n).page + n ensures Covers(r, q) {
      AllocOk(r, n, q);
    }
  }
}

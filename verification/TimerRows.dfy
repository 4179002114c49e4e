/** The rows of the timer skip list of timer.c: the link surgery of rt_timer_start and
    rt_timer_stop, against the plain sorted lists of TimerOrder. */
module TimerRows {
  import opened RtList
  import opened TimerOrder

  // the list head of every row
  const HEAD: Node := 0

  /** Row `l` links exactly the timers of `list`, in that order; every other timer is unlinked. */
  ghost predicate RowOk(l: Links, list: seq<Timer>, timers: set<Timer>) {
    && Ring(l, [HEAD] + list)
    && (forall t :: t in list ==> t in timers)
    && (forall t :: t in timers && t !in list ==> Lonely(l, t))
  }

  lemma RowDistinct(l: Links, list: seq<Timer>)
    requires Ring(l, [HEAD] + list)
    ensures forall i, j :: 0 <= i < j < |list| ==> list[i] != list[j]
  {
    var c := [HEAD] + list;
    forall i, j | 0 <= i < j < |list| ensures list[i] != list[j] {
      assert c[i + 1] == list[i] && c[j + 1] == list[j];
    }
  }

  lemma RemoveRow(l: Links, list: seq<Timer>, timers: set<Timer>, t: Timer)
    requires RowOk(l, list, timers) && t in timers
    ensures t in l.next && t in l.prev
    ensures RowOk(Remove(l, t), Without(list, t), timers)
  {
    if t !in list {
      RemoveLonely(l, t);
    } else {
      var k :| 0 <= k < |list| && list[k] == t;
      RowDistinct(l, list);
      WithoutMembers(list, t);
      RemoveRowRest(l, list, timers, k);
      assert Ring(Remove(l, t), [HEAD] + Without(list, t)) && Lonely(Remove(l, t), t) by {
        WithoutAt(list, k);
        RemoveRowRing(l, list, k);
      }
    }
  }

  lemma RemoveRowRing(l: Links, list: seq<Timer>, k: nat)
    requires Ring(l, [HEAD] + list) && k < |list|
    ensures list[k] in l.next && list[k] in l.prev
    ensures Ring(Remove(l, list[k]), [HEAD] + (list[..k] + list[k + 1..]))
    ensures Lonely(Remove(l, list[k]), list[k])
  {
    var c := [HEAD] + list;
    RemoveRing(l, c, k + 1);
    assert c[..k + 1] + c[k + 2..] == [HEAD] + (list[..k] + list[k + 1..]);
  }

  lemma RemoveRowRest(l: Links, list: seq<Timer>, timers: set<Timer>, k: nat)
    requires RowOk(l, list, timers) && k < |list|
    ensures list[k] in l.next && list[k] in l.prev
    ensures forall x :: x in timers && x !in list ==> Lonely(Remove(l, list[k]), x)
  {
    var c := [HEAD] + list;
    assert c[k + 1] == list[k];
    assert l.next[c[k]] == c[k + 1];
    assert forall i :: 0 <= i < |list| ==> c[i + 1] == list[i];
  }

  lemma InsertRow(l: Links, list: seq<Timer>, timers: set<Timer>, p: nat, t: Timer)
    requires RowOk(l, list, timers) && t in timers && t !in list && p <= |list|
    ensures ([HEAD] + list)[p] in l.next
    ensures RowOk(InsertAfter(l, ([HEAD] + list)[p], t), list[..p] + [t] + list[p..], timers)
  {
    var c := [HEAD] + list;
    InsertAfterRing(l, c, p, t);
    assert Inserted(c, p + 1, t) == [HEAD] + (list[..p] + [t] + list[p..]);
    InsertRowRest(l, list, timers, p, t);
  }

  lemma InsertRowRest(l: Links, list: seq<Timer>, timers: set<Timer>, p: nat, t: Timer)
    requires RowOk(l, list, timers) && p <= |list|
    ensures ([HEAD] + list)[p] in l.next
    ensures forall x :: x in timers && x !in list && x != t ==> Lonely(InsertAfter(l, ([HEAD] + list)[p], t), x)
  {
    var c := [HEAD] + list;
    assert l.next[c[p]] == c[if p + 1 == |c| then 0 else p + 1];
    assert forall i :: 0 <= i < |list| ==> c[i + 1] == list[i];
  }

  ghost predicate Rows(rows: seq<Links>, lists: seq<seq<Timer>>, timers: set<Timer>) {
    |rows| == |lists| && forall i :: 0 <= i < |rows| ==> RowOk(rows[i], lists[i], timers)
  }

  /** Every row is in stable order and holds only timers of the row below. */
  ghost predicate Stacked(lists: seq<seq<Timer>>, keys: Keys) {
    && |lists| > 0
    && (forall i :: 0 <= i < |lists| ==> Ordered(lists[i], keys))
    && (forall i :: 0 <= i < |lists| - 1 ==> Elems(lists[i]) <= Elems(lists[i + 1]))
  }

  ghost function WithoutAll(lists: seq<seq<Timer>>, t: Timer): seq<seq<Timer>> {
    seq(|lists|, i requires 0 <= i < |lists| => Without(lists[i], t))
  }

  /** The plain sorted insert in the rows from `from` down. */
  ghost function InsertFrom(lists: seq<seq<Timer>>, keys: Keys, d: nat, t: Timer, from: nat): seq<seq<Timer>>
  {
    seq(|lists|, i requires 0 <= i < |lists| => if i < from then lists[i] else Insert(lists[i], keys, d, t))
  }

  lemma StackedWithout(lists: seq<seq<Timer>>, keys: Keys, t: Timer)
    requires Stacked(lists, keys)
    ensures Stacked(WithoutAll(lists, t), keys)
    ensures forall i :: 0 <= i < |lists| ==> Elems(WithoutAll(lists, t)[i]) == Elems(lists[i]) - {t}
  {
    forall i | 0 <= i < |lists|
      ensures Ordered(Without(lists[i], t), keys) && Elems(Without(lists[i], t)) == Elems(lists[i]) - {t}
    {
      WithoutOrdered(lists[i], keys, t);
    }
  }

  lemma StackedInsert(lists: seq<seq<Timer>>, keys: Keys, t: Timer, key: Key, from: nat)
    requires Stacked(lists, keys) && from < |lists|
    requires forall i :: 0 <= i < |lists| ==> t !in lists[i]
    requires forall x :: x in keys && x != t ==> keys[x].stamp < key.stamp
    ensures Stacked(InsertFrom(lists, keys, key.deadline, t, from), keys[t := key])
    ensures Elems(InsertFrom(lists, keys, key.deadline, t, from)[|lists| - 1]) == Elems(lists[|lists| - 1]) + {t}
  {
    hide Ordered, Insert;
    forall i | 0 <= i < |lists|
      ensures Ordered(lists[i], keys[t := key])
      ensures Ordered(Insert(lists[i], keys, key.deadline, t), keys[t := key])
      ensures Elems(Insert(lists[i], keys, key.deadline, t)) == Elems(lists[i]) + {t}
    {
      OneInsert(lists[i], keys, t, key);
    }
  }

  lemma OneInsert(list: seq<Timer>, keys: Keys, t: Timer, key: Key)
    requires Ordered(list, keys) && t !in list && forall x :: x in keys && x != t ==> keys[x].stamp < key.stamp
    ensures Ordered(list, keys[t := key]) && Ordered(Insert(list, keys, key.deadline, t), keys[t := key])
    ensures Elems(Insert(list, keys, key.deadline, t)) == Elems(list) + {t}
  {
    hide Insert;
    OrderedRekey(list, keys, t, key);
    InsertOrdered(list, keys, t, key);
  }

  /** How many rows a timer joins: one more for every trailing group of zero bits of the
      insert counter. A mask of 1 tests and shifts one bit, a mask of 3 two bits. */
  function Height(nr: nat, mask: nat, levels: nat): (h: nat)
    requires levels > 0
    ensures 1 <= h <= levels
  {
    if levels > 1 && nr % (mask + 1) == 0 then 1 + Height(nr / (mask + 1), mask, levels - 1) else 1
  }

  lemma StackedBottom(lists: seq<seq<Timer>>, keys: Keys, i: nat)
    requires Stacked(lists, keys) && i < |lists|
    ensures Elems(lists[i]) <= Elems(lists[|lists| - 1])
    decreases |lists| - i
  {
    if i < |lists| - 1 {
      StackedBottom(lists, keys, i + 1);
    }
  }

  lemma RowStep(row: Links, list: seq<Timer>, k: nat)
    requires Ring(row, [HEAD] + list) && k <= |list|
    ensures HEAD in row.prev && ([HEAD] + list)[k] in row.next
    ensures ([HEAD] + list)[k] == row.prev[HEAD] <==> k == |list|
    ensures k < |list| ==> row.next[([HEAD] + list)[k]] == list[k] == ([HEAD] + list)[k + 1]
  {
    var c := [HEAD] + list;
    assert row.next[c[k]] == c[if k + 1 == |c| then 0 else k + 1];
    assert row.next[c[|list|]] == c[0];
    assert k < |list| ==> c[k] != c[|list|];
  }

  /** One row of the search of rt_timer_start: from node `p0`, which stands no later than the
      wanted place, walk to the last node due no later than timer `t`, whose deadline is `d`. */
  method SearchRow(row: Links, timeoutTick: map<Timer, nat>, p0: Node, t: Timer,
                   ghost list: seq<Timer>, ghost keys: Keys, ghost k0: nat, ghost d: nat, ghost now: nat,
                       ghost late: nat)
    returns (p: Node)
    requires Ring(row, [HEAD] + list) && Ordered(list, keys) && Window(list, keys, now, late)
    requires forall x :: x in list ==> x in timeoutTick && timeoutTick[x] == Wrap(keys[x].deadline)
    requires t in timeoutTick && timeoutTick[t] == Wrap(d) && now <= d + late && d + late < now + HALF
    requires k0 <= Due(list, keys, d) && p0 == ([HEAD] + list)[k0]
    ensures p == HeadAt(list, keys, d)
  {
    ghost var k := k0;
    p := p0;
    RowStep(row, list, k);
    while p != row.prev[HEAD]
      invariant k <= Due(list, keys, d) && p == ([HEAD] + list)[k]
      decreases |list| - k
    {
      RowStep(row, list, k);
      var n: Timer := row.next[p];
      WrappedLater(keys[n].deadline, d, now, late);
      DueAt(list, keys, d, k);
      var ahead := WrapSub(timeoutTick[n], timeoutTick[t]);
      if ahead != 0 && ahead < HALF {
        break;
      }
      p := n;
      k := k + 1;
      RowStep(row, list, k);
    }
    RowStep(row, list, k);
  }

  /** The node where a row's search ends also stands in the row below, no later than that
      row's own place. */
  lemma Descend(upper: seq<Timer>, lower: seq<Timer>, keys: Keys, d: nat) returns (k: nat)
    requires Ordered(upper, keys) && Ordered(lower, keys) && Elems(upper) <= Elems(lower)
    ensures k <= Due(lower, keys, d) && ([HEAD] + lower)[k] == HeadAt(upper, keys, d)
  {
    var n := Due(upper, keys, d);
    if n == 0 {
      k := 0;
    } else {
      assert upper[n - 1] in Elems(lower);
      var j :| 0 <= j < |lower| && lower[j] == upper[n - 1];
      DueAt(lower, keys, d, j);
      k := j + 1;
    }
  }

  /** `_rt_timer_remove`: take `t` out of every row. */
  method UnlinkRows(rows: seq<Links>, t: Timer, ghost lists: seq<seq<Timer>>, ghost timers: set<Timer>)
    returns (r: seq<Links>)
    requires Rows(rows, lists, timers) && t in timers
    ensures Rows(r, WithoutAll(lists, t), timers)
  {
    r := rows;
    var i := 0;
    while i < |rows|
      invariant 0 <= i <= |rows| == |r|
      invariant forall j :: i <= j < |r| ==> r[j] == rows[j]
      invariant forall j :: 0 <= j < i ==> RowOk(r[j], Without(lists[j], t), timers)
    {
      RemoveRow(rows[i], lists[i], timers, t);
      r := r[i := Remove(r[i], t)];
      i := i + 1;
    }
  }

  /** Where each row's search must end. */
  ghost function HeadAt(list: seq<Timer>, keys: Keys, d: nat): Node
  {
    ([HEAD] + list)[Due(list, keys, d)]
  }

  /** What the search needs to know of one row. */
  ghost predicate Searchable(row: Links, list: seq<Timer>, timeoutTick: map<Timer, nat>, keys: Keys, now: nat,
                             late: nat) {
    && Ring(row, [HEAD] + list) && Window(list, keys, now, late)
    && (forall x :: x in list ==> x in timeoutTick && timeoutTick[x] == Wrap(keys[x].deadline))
  }

  /** The nested search loops of rt_timer_start. */
  method FindRowHeads(rows: seq<Links>, timeoutTick: map<Timer, nat>, t: Timer,
                      ghost lists: seq<seq<Timer>>, ghost keys: Keys, ghost d: nat, ghost now: nat, ghost late: nat)
    returns (heads: seq<Node>)
    requires |rows| == |lists| && Stacked(lists, keys)
    requires forall i :: 0 <= i < |rows| ==> Searchable(rows[i], lists[i], timeoutTick, keys, now, late)
    requires t in timeoutTick && timeoutTick[t] == Wrap(d) && now <= d + late && d + late < now + HALF
    ensures |heads| == |rows|
    ensures forall i :: 0 <= i < |heads| ==> heads[i] == HeadAt(lists[i], keys, d)
  {
    hide HeadAt, Ordered, Window, Ring;
    heads := [];
    while |heads| < |rows|
      invariant |heads| <= |rows|
      invariant forall i :: 0 <= i < |heads| ==> heads[i] == HeadAt(lists[i], keys, d)
    {
      var i := |heads|;
      ghost var k := 0;
      if i > 0 {
        k := Descend(lists[i - 1], lists[i], keys, d);
      }
      var p := SearchRow(rows[i], timeoutTick, if i == 0 then HEAD
          else heads[i - 1], t, lists[i], keys, k, d, now, late);
      heads := heads + [p];
    }
  }

  lemma LinkRow(row: Links, list: seq<Timer>, timers: set<Timer>, keys: Keys, d: nat, t: Timer)
    requires RowOk(row, list, timers) && t in timers && t !in list
    ensures HeadAt(list, keys, d) in row.next
    ensures RowOk(InsertAfter(row, HeadAt(list, keys, d), t), Insert(list, keys, d, t), timers)
  {
    hide InsertAfter, RowOk;
    InsertRow(row, list, timers, Due(list, keys, d), t);
  }

  /** The insertions of rt_timer_start: the densest row always, then upwards while the insert
      counter's low bits are zero. */
  method LinkRows(rows: seq<Links>, t: Timer, nr: nat, mask: nat, heads: seq<Node>) returns (r: seq<Links>)
    requires |heads| == |rows| > 0 && forall i :: 0 <= i < |heads| ==> heads[i] in rows[i].next
    ensures |r| == |rows|
    ensures forall i :: 0 <= i < |rows| - Height(nr, mask, |rows|) ==> r[i] == rows[i]
    ensures forall i :: |rows| - Height(nr, mask, |rows|) <= i < |rows| ==> r[i] == InsertAfter(rows[i], heads[i], t)
  {
    hide InsertAfter;
    var levels := |rows|;
    var bits: nat := nr;
    r := rows[levels - 1 := InsertAfter(rows[levels - 1], heads[levels - 1], t)];
    var lvl := 2;
    while lvl <= levels
      invariant 2 <= lvl <= levels + 1 && |r| == levels
      invariant lvl - 1 + Height(bits, mask, levels - lvl + 2) - 1 == Height(nr, mask, levels)
      invariant forall i :: 0 <= i <= levels - lvl ==> r[i] == rows[i]
      invariant forall i :: levels - lvl < i < levels ==> r[i] == InsertAfter(rows[i], heads[i], t)
    {
      if bits % (mask + 1) != 0 {
        break;
      }
      var i := levels - lvl;
      r := r[i := InsertAfter(r[i], heads[i], t)];
      bits := bits / (mask + 1);
      lvl := lvl + 1;
    }
  }

  /** Each timer's wrapped deadline is that of its key, and keys were handed out in start order. */
  ghost predicate Keyed(timers: set<Timer>, timeoutTick: map<Timer, nat>, keys: Keys, clock: nat) {
    && timeoutTick.Keys == keys.Keys == timers
    && (forall t :: t in timers ==> timeoutTick[t] == Wrap(keys[t].deadline) && keys[t].stamp < clock)
  }

  lemma RekeyStarted(timers: set<Timer>, timeoutTick: map<Timer, nat>, keys: Keys, clock: nat, t: Timer, d: nat)
    requires Keyed(timers, timeoutTick, keys, clock) && t in timers
    ensures Keyed(timers, timeoutTick[t := Wrap(d)], keys[t := Key(d, clock)], clock + 1)
    ensures forall x :: x in keys ==> keys[x].stamp < clock
    ensures timeoutTick[t := Wrap(d)][t := timeoutTick[t]] == timeoutTick
  {
  }

  ghost function Last(lists: seq<seq<Timer>>): seq<Timer> {
    if lists == [] then [] else lists[|lists| - 1]
  }

  /** Every row can be searched, and holds only timers of the bottom row. */
  lemma ReadyToSearch(rows: seq<Links>, lists: seq<seq<Timer>>, timers: set<Timer>, timeoutTick: map<Timer, nat>,
                      keys: Keys, now: nat, late: nat, clock: nat)
    requires Rows(rows, lists, timers) && Stacked(lists, keys) && Window(Last(lists), keys, now, late)
    requires Keyed(timers, timeoutTick, keys, clock)
    ensures forall i, t: Timer :: 0 <= i < |rows| && t in lists[i] ==> t in Last(lists)
    ensures forall i :: 0 <= i < |rows| ==> Searchable(rows[i], lists[i], timeoutTick, keys, now, late)
  {
    forall i | 0 <= i < |rows|
      ensures forall t: Timer :: t in lists[i] ==> t in Last(lists)
      ensures Searchable(rows[i], lists[i], timeoutTick, keys, now, late)
    {
      StackedBottom(lists, keys, i);
      assert RowOk(rows[i], lists[i], timers);
      forall x | x in lists[i] ensures x in Last(lists) {
        assert x in Elems(lists[i]);
      }
    }
  }

  lemma WindowWithout(list: seq<Timer>, keys: Keys, now: nat, late: nat, t: Timer)
    requires Ordered(list, keys) && Window(list, keys, now, late)
    ensures Window(Without(list, t), keys, now, late) && t !in Without(list, t)
  {
    OrderedDistinct(list, keys);
    WithoutMembers(list, t);
  }

  lemma WindowInsert(list: seq<Timer>, keys: Keys, now: nat, late: nat, t: Timer, key: Key)
    requires Window(list, keys, now, late) && now <= key.deadline + late && key.deadline + late < now + HALF
    ensures Window(Insert(list, keys, key.deadline, t), keys[t := key], now, late)
  {
  }

  /** Where the search of a row ends there is a node to link behind. */
  lemma HeadLinked(row: Links, list: seq<Timer>, keys: Keys, d: nat)
    requires Ring(row, [HEAD] + list)
    ensures HeadAt(list, keys, d) in row.next
  {
    RowStep(row, list, Due(list, keys, d));
  }

  lemma RowsLinked(rows: seq<Links>, lists: seq<seq<Timer>>, r: seq<Links>, timers: set<Timer>,
                   keys: Keys, d: nat, t: Timer, from: nat)
    requires Rows(rows, lists, timers) && |r| == |rows| && t in timers
    requires forall i :: 0 <= i < |lists| ==> t !in lists[i] && HeadAt(lists[i], keys, d) in rows[i].next
    requires forall i :: 0 <= i < |rows| && i < from ==> r[i] == rows[i]
    requires forall i :: from <= i < |rows| ==> r[i] == InsertAfter(rows[i], HeadAt(lists[i], keys, d), t)
    ensures Rows(r, InsertFrom(lists, keys, d, t, from), timers)
  {
    hide HeadAt, Insert, InsertAfter, RowOk;
    forall i | from <= i < |rows| ensures RowOk(r[i], Insert(lists[i], keys, d, t), timers) {
      LinkRow(rows[i], lists[i], timers, keys, d, t);
    }
  }

  /** The rows once `t` is restarted with deadline `d`: out of its old place, into its new one. */
  ghost function Restarted(lists: seq<seq<Timer>>, keys: Keys, d: nat, t: Timer, from: nat): seq<seq<Timer>> {
    InsertFrom(WithoutAll(lists, t), keys, d, t, from)
  }

  lemma RestartKeepsOrder(lists: seq<seq<Timer>>, keys: Keys, now: nat, late: nat, t: Timer, key: Key, from: nat)
    requires Stacked(lists, keys) && Window(Last(lists), keys, now, late) && from < |lists|
    requires forall x :: x in keys ==> keys[x].stamp < key.stamp
    requires now <= key.deadline + late && key.deadline + late < now + HALF
    ensures Stacked(Restarted(lists, keys, key.deadline, t, from), keys[t := key])
    ensures Window(Last(Restarted(lists, keys, key.deadline, t, from)), keys[t := key], now, late)
    ensures Elems(Last(Restarted(lists, keys, key.deadline, t, from))) == Elems(Last(lists)) + {t}
  {
    hide Ordered, Window, Insert, Without;
    var lists1 := WithoutAll(lists, t);
    StackedWithout(lists, keys, t);
    assert forall i :: 0 <= i < |lists| ==> t !in Elems(lists1[i]);
    StackedInsert(lists1, keys, t, key, from);
    WindowWithout(Last(lists), keys, now, late, t);
    WindowInsert(Last(lists1), keys, now, late, t, key);
  }

  /** A timer that is unlinked is restarted the same way whatever its key was. */
  lemma RestartedUnlinked(lists: seq<seq<Timer>>, keys: Keys, d: nat, t: Timer, key: Key, from: nat)
    requires Stacked(lists, keys)
    ensures Restarted(WithoutAll(lists, t), keys[t := key], d, t, from) == Restarted(lists, keys, d, t, from)
  {
    hide Ordered, Insert, Without;
    StackedWithout(lists, keys, t);
    forall i | 0 <= i < |lists|
      ensures Without(Without(lists[i], t), t) == Without(lists[i], t)
      ensures Insert(Without(lists[i], t), keys[t := key], d, t) == Insert(Without(lists[i], t), keys, d, t)
    {
      assert t !in Elems(Without(lists[i], t));
      InsertUnlinked(Without(lists[i], t), keys, d, t, key);
    }
  }

  lemma InsertUnlinked(s: seq<Timer>, keys: Keys, d: nat, t: Timer, key: Key)
    requires t !in s
    ensures Insert(s, keys[t := key], d, t) == Insert(s, keys, d, t)
  {
    DueUnlinked(s, keys, d, t, key);
  }

  lemma {:induction false} DueUnlinked(s: seq<Timer>, keys: Keys, d: nat, t: Timer, key: Key)
    requires t !in s
    ensures Due(s, keys[t := key], d) == Due(s, keys, d)
  {
    if s != [] {
      DueUnlinked(s[1..], keys, d, t, key);
    }
  }

  lemma RowTwice(row: Links, b: seq<Timer>, t: Timer, i: nat, list: seq<Timer>)
    requires Ring(row, [HEAD] + b) && t in b && i <= |b|
    ensures ([HEAD] + b)[i] in row.next && !Ring(InsertAfter(row, ([HEAD] + b)[i], t), [HEAD] + list)
  {
    hide InsertAfter;
    var c := [HEAD] + b;
    RowStep(row, b, i);
    var j :| 0 <= j < |b| && b[j] == t;
    assert c[j + 1] == t;
    if Ring(InsertAfter(row, c[i], t), [HEAD] + list) {
      LinkTwice(row, c, i, j + 1, [HEAD] + list);
    }
  }
}

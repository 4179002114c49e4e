/** What the linked rows of timer.c stand for, the invariant that ties the rows to it, and how one start,
    stop or tick changes it. */
module TimerViews {
  import opened Wrappers
  import opened RtList
  import opened TimerOrder
  import opened TimerRows

  /** What the linked rows stand for: the initialised timers, what each row links, the unbounded
      deadlines with start order, the unbounded tick, the number of starts so far, and the timers
      marked active. */
  datatype View = View(timers: set<Timer>, lists: seq<seq<Timer>>, keys: Keys, now: nat, clock: nat,
                       active: set<Timer>) {
    /** The densest row. */
    ghost function Bottom(): seq<Timer> { Last(lists) }

    ghost function Linked(): set<Timer> { Elems(Bottom()) }

    /** `t` is listed with deadline `d`, in the rows from `from` down, and marked. */
    ghost function Started(t: Timer, d: nat, from: nat): View {
      View(timers, Restarted(lists, keys, d, t, from), keys[t := Key(d, clock)], now, clock + 1, active + {t})
    }

    /** `t` is unlinked and unmarked, and its next deadline noted. */
    ghost function Noted(t: Timer, d: nat): View
      requires t in keys
    {
      Stopped(t).(keys := keys[t := keys[t].(deadline := d)])
    }

    /** `t` is initialised, unlinked. */
    ghost function Added(t: Timer): View {
      this.(timers := timers + {t}, keys := keys[t := Key(0, clock)], clock := clock + 1)
    }

    ghost function Unlinked(t: Timer): View { this.(lists := WithoutAll(lists, t)) }

    ghost function Unmarked(t: Timer): View { this.(active := active - {t}) }

    ghost function Stopped(t: Timer): View { Unlinked(t).Unmarked(t) }
  }

  /** The whole-state invariant of the timer list, when a tick may come up to `late` times between the
      two locked regions of rt_timer_start. */
  ghost predicate Inv(rows: seq<Links>, timeoutTick: map<Timer, nat>, v: View, late: nat) {
    && Rows(rows, v.lists, v.timers)
    && Stacked(v.lists, v.keys)
    && Keyed(v.timers, timeoutTick, v.keys, v.clock)
    && Window(v.Bottom(), v.keys, v.now, late)
    && late + 1 < HALF
  }

  /** No list of timers in any order is what the rows link. */
  ghost predicate NoList(rows: seq<Links>, timeoutTick: map<Timer, nat>, late: nat) {
    forall v: View :: !Inv(rows, timeoutTick, v, late)
  }

  lemma InvStarted(rows: seq<Links>, timeoutTick: map<Timer, nat>, v: View, late: nat, t: Timer, r: seq<Links>,
                   from: nat)
    requires Inv(rows, timeoutTick, v, late) && t in v.timers && t in v.keys
    requires v.now <= v.keys[t].deadline + late && v.keys[t].deadline + late < v.now + HALF
    requires from < |rows| && Rows(r, v.Started(t, v.keys[t].deadline, from).lists, v.timers)
    ensures Inv(r, timeoutTick, v.Started(t, v.keys[t].deadline, from), late)
    ensures v.Started(t, v.keys[t].deadline, from).Linked() == v.Linked() + {t}
  {
    hide RowOk, Ordered, Window, Restarted, Elems;
    var d := v.keys[t].deadline;
    RekeyStarted(v.timers, timeoutTick, v.keys, v.clock, t, d);
    assert timeoutTick[t := Wrap(d)] == timeoutTick;
    RestartKeepsOrder(v.lists, v.keys, v.now, late, t, Key(d, v.clock), from);
  }

  lemma InvNoted(rows: seq<Links>, timeoutTick: map<Timer, nat>, v: View, late: nat, t: Timer, d: nat, r: seq<Links>)
    requires Inv(rows, timeoutTick, v, late) && t in v.timers && t in v.keys
    requires Rows(r, WithoutAll(v.lists, t), v.timers)
    ensures Inv(r, timeoutTick[t := Wrap(d)], v.Noted(t, d), late)
    ensures v.Noted(t, d).Linked() == v.Linked() - {t} && |r| == |rows|
  {
    hide RowOk, Ordered, Window, Without;
    StackedWithout(v.lists, v.keys, t);
    WindowWithout(v.Bottom(), v.keys, v.now, late, t);
    RekeyedStacked(WithoutAll(v.lists, t), v.keys, v.now, late, t, v.keys[t].(deadline := d));
  }

  lemma BottomMember(v: View, t: Timer)
    ensures t in v.Linked() <==> t in v.Bottom()
  {
  }

  /** A timer that is in no row can be given any key. */
  lemma RekeyedStacked(lists: seq<seq<Timer>>, keys: Keys, now: nat, late: nat, t: Timer, key: Key)
    requires Stacked(lists, keys) && Window(Last(lists), keys, now, late)
    requires forall i :: 0 <= i < |lists| ==> t !in Elems(lists[i])
    ensures Stacked(lists, keys[t := key]) && Window(Last(lists), keys[t := key], now, late)
  {
    hide Ordered;
    forall i | 0 <= i < |lists| ensures t !in lists[i] && Ordered(lists[i], keys[t := key]) {
      assert t !in Elems(lists[i]);
      OrderedRekey(lists[i], keys, t, key);
    }
  }

  lemma InvUnlinked(rows: seq<Links>, timeoutTick: map<Timer, nat>, v: View, late: nat, t: Timer, r: seq<Links>)
    requires Inv(rows, timeoutTick, v, late) && t in v.timers
    requires Rows(r, WithoutAll(v.lists, t), v.timers)
    ensures Inv(r, timeoutTick, v.Unlinked(t), late)
    ensures v.Unlinked(t).Linked() == v.Linked() - {t}
  {
    hide RowOk, Ordered, Window, Without;
    StackedWithout(v.lists, v.keys, t);
    WindowWithout(v.Bottom(), v.keys, v.now, late, t);
  }

  /** Marks are not what the rows are about. */
  lemma InvUnmarked(rows: seq<Links>, timeoutTick: map<Timer, nat>, v: View, late: nat, t: Timer)
    ensures Inv(rows, timeoutTick, v.Unmarked(t), late) <==> Inv(rows, timeoutTick, v, late)
    ensures v.Unmarked(t).Linked() == v.Linked()
  {
    hide Rows, Stacked, Keyed, Window, Last, Elems;
  }

  /** Timers due now. */
  ghost function DueNow(v: View): set<Timer> {
    set t | t in v.Linked() && t in v.keys && v.keys[t].deadline <= v.now
  }

  /** Between ticks no listed deadline lies more than `late` ticks in the past. */
  ghost predicate Quiet(v: View, late: nat) {
    forall t :: t in v.Linked() ==> t in v.keys && v.now <= v.keys[t].deadline + late
  }

  /** A new deadline lies in the future, by less than half the range of the tick. */
  predicate Ahead(d: nat, now: nat, late: nat) { now < d && d + late < now + HALF }

  /** From `v0` to `v1` only the timers of `touched` were stopped or started again, and none of
      those is due. */
  ghost predicate Disturbed(v0: View, v1: View, touched: set<Timer>, late: nat) {
    && v1.timers == v0.timers && v1.now == v0.now
    && v0.timers <= v0.keys.Keys && v0.timers <= v1.keys.Keys
    && v0.Linked() <= v0.timers && v1.Linked() <= v0.timers
    && (forall t :: t in v0.timers && t !in touched ==> v1.keys[t] == v0.keys[t])
    && (forall t :: t in v0.timers && t !in touched ==> (t in v1.Linked() <==> t in v0.Linked()))
    && (forall t :: t in v0.timers && t !in touched ==> (t in v1.active <==> t in v0.active))
    && (forall t :: t in v1.Linked() && t in touched ==> v1.now < v1.keys[t].deadline)
    && (forall t :: t in v0.timers && v1.keys[t] != v0.keys[t] ==> Ahead(v1.keys[t].deadline, v1.now, late))
  }

  lemma DisturbedDue(v0: View, v1: View, touched: set<Timer>, late: nat)
    requires Disturbed(v0, v1, touched, late)
    ensures DueNow(v1) == DueNow(v0) - touched
  {
  }

  /** The linked timers are known timers, each with a key. */
  ghost predicate Housed(v: View) {
    v.timers == v.keys.Keys && v.Linked() <= v.timers
  }

  lemma InvHoused(rows: seq<Links>, timeoutTick: map<Timer, nat>, v: View, late: nat)
    requires Inv(rows, timeoutTick, v, late)
    ensures Housed(v)
  {
    assert RowOk(rows[|rows| - 1], v.Bottom(), v.timers);
  }

  lemma StartDisturbs(v: View, t: Timer, d: nat, from: nat, late: nat)
    requires Housed(v) && t in v.timers && Ahead(d, v.now, late)
    requires v.Started(t, d, from).Linked() == v.Linked() + {t}
    ensures Disturbed(v, v.Started(t, d, from), {t}, late)
  {
  }

  lemma UnlinkDisturbs(v: View, t: Timer, late: nat)
    requires Housed(v) && v.Unlinked(t).Linked() == v.Linked() - {t}
    ensures Disturbed(v, v.Unlinked(t), {t}, late) && Disturbed(v, v.Stopped(t), {t}, late)
  {
    assert v.Stopped(t).Linked() == v.Unlinked(t).Linked();
  }

  lemma StoppedLinked(v: View, t: Timer)
    ensures v.Stopped(t).Linked() == v.Unlinked(t).Linked()
  {
  }

  lemma TouchedNotDue(v0: View, v1: View, touched: set<Timer>, late: nat, t: Timer)
    requires Disturbed(v0, v1, touched, late) && t in touched
    ensures t !in DueNow(v1)
  {
  }

  /** Taking the mark off a timer that is not due. */
  lemma UnmarkDisturbs(v: View, t: Timer, late: nat)
    requires Housed(v) && t !in DueNow(v)
    ensures Disturbed(v, v.Unmarked(t), {t}, late)
  {
    assert v.Unmarked(t).Linked() == v.Linked();
  }

  lemma DisturbedTwice(v0: View, v1: View, v2: View, a: set<Timer>, b: set<Timer>, late: nat)
    requires Disturbed(v0, v1, a, late) && Disturbed(v1, v2, b, late)
    ensures Disturbed(v0, v2, a + b, late)
  {
    hide View.Linked, Ahead;
  }

  lemma RestartedMark(v: View, t: Timer, from: nat, d: nat)
    requires t in v.active
    ensures v.Unmarked(t).Started(t, d, from) == v.Started(t, d, from) && v.Unmarked(t).Linked() == v.Linked()
  {
    assert v.active - {t} + {t} == v.active + {t};
  }

  lemma SameTimers(v0: View, v1: View, touched: set<Timer>, late: nat)
    requires Disturbed(v0, v1, touched, late)
    ensures v1.timers == v0.timers && v1.now == v0.now
  {
  }

  /** Timers that are not touched keep their marks. */
  lemma SameMark(v0: View, v1: View, touched: set<Timer>, late: nat, t: Timer)
    requires Disturbed(v0, v1, touched, late) && t in v0.timers && t !in touched
    ensures t in v1.active <==> t in v0.active
  {
  }

  /** The bottom row's first timer comes before every other linked one. */
  lemma HeadFirst(v: View)
    requires Stacked(v.lists, v.keys) && v.Bottom() != []
    ensures v.Bottom()[0] in v.Linked() && v.Bottom()[0] in v.keys
    ensures forall x :: x in v.Linked() && x != v.Bottom()[0] ==>
        x in v.keys && Before(v.keys[v.Bottom()[0]], v.keys[x])
  {
    forall x | x in v.Linked() && x != v.Bottom()[0]
      ensures x in v.keys && Before(v.keys[v.Bottom()[0]], v.keys[x])
    {
      var i :| 0 <= i < |v.Bottom()| && v.Bottom()[i] == x;
    }
  }

  lemma InvTicked(rows: seq<Links>, timeoutTick: map<Timer, nat>, v: View, late: nat)
    requires Inv(rows, timeoutTick, v, late) && Quiet(v, late)
    ensures Inv(rows, timeoutTick, v.(now := v.now + 1), late)
    ensures v.(now := v.now + 1).Linked() == v.Linked()
  {
    hide RowOk, Ordered, Stacked, Keyed;
    assert forall t :: t in v.Bottom() ==> t in v.Linked();
  }

  lemma LinkedAnyTime(v: View, now: nat)
    ensures v.(now := now).Linked() == v.Linked()
  {
  }

  lemma NoneDueQuiet(v: View, late: nat)
    requires Housed(v) && DueNow(v) == {}
    ensures Quiet(v, late)
  {
    forall t | t in v.Linked() ensures v.now <= v.keys[t].deadline + late {
      assert t !in DueNow(v);
    }
  }

  /** Starting and stopping keep the list free of deadlines too far in the past. */
  lemma QuietKept(v: View, late: nat, t: Timer, d: nat, from: nat)
    requires Quiet(v, late)
    ensures v.now <= d + late && v.Started(t, d, from).Linked() == v.Linked() + {t} ==>
        Quiet(v.Started(t, d, from), late)
    ensures v.Unlinked(t).Linked() == v.Linked() - {t} ==> Quiet(v.Unlinked(t), late)
    ensures t in v.keys && v.Noted(t, d).Linked() == v.Linked() - {t} ==> Quiet(v.Noted(t, d), late)
  {
  }

  lemma QuietUnmarked(v: View, late: nat, t: Timer)
    ensures Quiet(v.Unmarked(t), late) <==> Quiet(v, late)
  {
    assert v.Unmarked(t).Linked() == v.Linked();
  }

  /** `t` is the member of `due` that comes before all others. */
  ghost predicate FirstOf(t: Timer, v: View, due: set<Timer>) {
    && t in due && due <= v.keys.Keys
    && forall x :: x in due && x != t ==> Before(v.keys[t], v.keys[x])
  }

  lemma FirstInOld(v0: View, v1: View, touched: set<Timer>, t: Timer, late: nat)
    requires Disturbed(v0, v1, touched, late) && FirstOf(t, v1, DueNow(v1))
    ensures t in DueNow(v0) && t !in touched && DueNow(v0) <= v0.keys.Keys
    ensures forall x :: x in DueNow(v0) && x !in touched && x != t ==> Before(v0.keys[t], v0.keys[x])
  {
    DisturbedDue(v0, v1, touched, late);
  }

  lemma FewerDue(due: set<Timer>, before: set<Timer>, after: set<Timer>, t: Timer)
    requires t in due - before && t in after && before <= after
    ensures |due - after| < |due - before|
  {
    assert due - after <= due - before - {t};
    SubsetSize(due - after, due - before - {t});
  }

  lemma EmptyBottom(v: View, row: Links)
    requires Ring(row, [HEAD] + v.Bottom()) && HEAD in row.next && row.next[HEAD] == HEAD
    ensures v.Bottom() == [] && DueNow(v) == {}
  {
    var c := [HEAD] + v.Bottom();
    assert row.next[c[0]] == c[if 1 == |c| then 0 else 1];
  }

  lemma NonEmptyBottom(v: View, row: Links)
    requires Ring(row, [HEAD] + v.Bottom()) && HEAD in row.next && row.next[HEAD] != HEAD
    ensures v.Bottom() != [] && v.Bottom()[0] == row.next[HEAD]
  {
    var c := [HEAD] + v.Bottom();
    assert row.next[c[0]] == c[if 1 == |c| then 0 else 1];
  }

  /** rt_list_init on one row's link fields. */
  function Joined(l: Links, t: Timer): Links {
    Links(l.next[t := t], l.prev[t := t])
  }

  lemma RowJoined(l: Links, list: seq<Timer>, timers: set<Timer>, t: Timer)
    requires RowOk(l, list, timers) && t !in timers
    ensures RowOk(Joined(l, t), list, timers + {t})
  {
    var c := [HEAD] + list;
    forall i | 0 <= i < |c| ensures c[i] != t && l.next[c[i]] != t {
      assert i > 0 ==> c[i] == list[i - 1];
      var j := if i + 1 == |c| then 0 else i + 1;
      assert l.next[c[i]] == c[j];
      assert j > 0 ==> c[j] == list[j - 1];
    }
  }

  lemma InvAdded(rows: seq<Links>, timeoutTick: map<Timer, nat>, v: View, late: nat, t: Timer, r: seq<Links>)
    requires Inv(rows, timeoutTick, v, late) && t !in v.timers && |r| == |rows|
    requires forall i :: 0 <= i < |rows| ==> r[i] == Joined(rows[i], t)
    ensures Inv(r, timeoutTick[t := 0], v.Added(t), late)
    ensures v.Added(t).Linked() == v.Linked() && t !in v.Linked()
  {
    hide Joined, RowOk, Last;
    forall i | 0 <= i < |rows|
      ensures RowOk(r[i], v.lists[i], v.timers + {t}) && Ordered(v.lists[i], v.keys[t := Key(0, v.clock)])
    {
      RowJoined(rows[i], v.lists[i], v.timers, t);
    }
    InvHoused(rows, timeoutTick, v, late);
  }

  // The second region of rt_timer_start

  /** Search and linking, whether the timer is in the rows or not. One that is not gets its place; one that is
      leaves rows that no list of timers fits. */
  method LinkTimer(rows: seq<Links>, timeoutTick: map<Timer, nat>, t: Timer, nr: nat, mask: nat, ghost v: View,
                   ghost late: nat)
    returns (r: seq<Links>)
    requires Inv(rows, timeoutTick, v, late) && t in v.timers && t in v.keys
    requires v.now <= v.keys[t].deadline + late && v.keys[t].deadline + late < v.now + HALF
    ensures |r| == |rows| > 0
    ensures t !in v.Linked() ==>
        Rows(r, v.Started(t, v.keys[t].deadline, |rows| - Height(nr, mask, |rows|)).lists, v.timers)
    ensures HeadAt(v.Bottom(), v.keys, v.keys[t].deadline) in rows[|rows| - 1].next
    ensures r[|r| - 1] == InsertAfter(rows[|rows| - 1], HeadAt(v.Bottom(), v.keys, v.keys[t].deadline), t)
  {
    hide RowOk, Ring, Searchable, Window, Insert, InsertAfter, Without, Ordered, HeadAt;
    ghost var d := v.keys[t].deadline;
    ReadyToSearch(rows, v.lists, v.timers, timeoutTick, v.keys, v.now, late, v.clock);
    assert timeoutTick[t] == Wrap(d);
    var heads := FindRowHeads(rows, timeoutTick, t, v.lists, v.keys, d, v.now, late);
    RowHeads(rows, v.lists, v.timers, v.keys, d);
    r := LinkRows(rows, t, nr, mask, heads);
    if t !in v.Linked() {
      BottomMember(v, t);
      NotInRows(v.lists, t);
      RowsLinked(rows, v.lists, r, v.timers, v.keys, d, t, |rows| - Height(nr, mask, |rows|));
    }
  }

  lemma RowHeads(rows: seq<Links>, lists: seq<seq<Timer>>, timers: set<Timer>, keys: Keys, d: nat)
    requires Rows(rows, lists, timers)
    ensures forall i :: 0 <= i < |rows| ==> HeadAt(lists[i], keys, d) in rows[i].next
  {
    hide HeadAt, Ring;
    forall i | 0 <= i < |rows| ensures HeadAt(lists[i], keys, d) in rows[i].next {
      assert RowOk(rows[i], lists[i], timers);
      HeadLinked(rows[i], lists[i], keys, d);
    }
  }

  lemma NotInRows(lists: seq<seq<Timer>>, t: Timer)
    requires forall i :: 0 <= i < |lists| ==> t !in lists[i]
    ensures WithoutAll(lists, t) == lists
  {
    assert forall i :: 0 <= i < |lists| ==> Without(lists[i], t) == lists[i];
  }

  lemma BottomRing(rows: seq<Links>, timeoutTick: map<Timer, nat>, v: View, late: nat)
    ensures Inv(rows, timeoutTick, v, late) ==> rows != [] && Ring(rows[|rows| - 1], [HEAD] + v.Bottom())
  {
    hide Ring;
    if Inv(rows, timeoutTick, v, late) {
      assert Stacked(v.lists, v.keys) && RowOk(rows[|rows| - 1], v.Bottom(), v.timers);
    }
  }

  /** Linking a timer into a bottom row that holds it already: wherever the search ended, no list of timers
      fits the rows any more. */
  lemma LinkedTwice(rows: seq<Links>, timeoutTick: map<Timer, nat>, v: View, late: nat, t: Timer, r: seq<Links>, i: nat)
    requires Inv(rows, timeoutTick, v, late) && t in v.Linked() && |r| == |rows| && i <= |v.Bottom()|
    ensures rows != [] && ([HEAD] + v.Bottom())[i] in rows[|rows| - 1].next
    ensures r[|r| - 1] == InsertAfter(rows[|rows| - 1], ([HEAD] + v.Bottom())[i], t) ==> NoList(r, timeoutTick, late)
  {
    hide Ring, InsertAfter, Stacked;
    var row := rows[|rows| - 1];
    assert RowOk(row, v.Bottom(), v.timers);
    BottomMember(v, t);
    RowTwice(row, v.Bottom(), t, i, []);
    if r[|r| - 1] == InsertAfter(row, ([HEAD] + v.Bottom())[i], t) {
      forall w: View ensures !Inv(r, timeoutTick, w, late) {
        RowTwice(row, v.Bottom(), t, i, w.Bottom());
        BottomRing(r, timeoutTick, w, late);
      }
    }
  }
}

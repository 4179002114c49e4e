/** The timer list of timer.c, driven by the tick of clock.c. */
module TimerWheel {
  import opened Wrappers
  import opened RtList
  import opened TimerOrder
  import opened TimerRows
  import opened TimerViews
  import opened TimerPlans

  lemma PlanNoted(v: View, t: Timer, d: nat, time: map<Timer, nat>)
    requires t in v.keys && v.Noted(t, d).Linked() == v.Linked() - {t}
    ensures PlanOf(v.Noted(t, d), time) == Dropped(PlanOf(v, time), t)
  {
    hide View.Linked;
  }

  /** From `v0` to `v1`, some ticks later, every deadline is the old one or one noted since. */
  ghost predicate Later(v0: View, v1: View, late: nat) {
    && v1.timers == v0.timers && v0.now <= v1.now
    && forall t :: t in v0.timers ==> t in v0.keys && t in v1.keys && Renewed(v0, v1, t, late)
  }

  ghost predicate Renewed(v0: View, v1: View, t: Timer, late: nat)
    requires t in v0.keys && t in v1.keys
  {
    v1.keys[t] == v0.keys[t] || (v0.now < v1.keys[t].deadline && v1.keys[t].deadline + late < v1.now + HALF)
  }

  lemma LaterTick(v0: View, v1: View, v2: View, touched: set<Timer>, late: nat)
    requires Later(v0, v1, late) && Disturbed(v1.(now := v1.now + 1), v2, touched, late)
    ensures Later(v0, v2, late)
  {
    hide View.Linked;
  }

  /** A timer that is unlisted and spared stays as it is. */
  ghost predicate Untouched(v0: View, v1: View, t: Timer) {
    && t !in v0.Linked() && t !in v1.Linked() && t in v0.keys && t in v1.keys && v1.keys[t] == v0.keys[t]
    && (t in v1.active <==> t in v0.active)
  }

  lemma Spared(v: View, v2: View, fired: seq<Timer>, script: Script, t: Timer, late: nat)
    requires FiredExactly(fired, script, v.keys, v.active, DueNow(v))
    requires Disturbed(v, v2, Affected(fired, script, v.active), late)
    requires Spares(script, t) && t in v.timers && t !in v.Linked()
    ensures Untouched(v, v2, t)
  {
    hide View.Linked, Affected, Spares, Ahead;
    NotAffected(fired, script, v.active, t);
  }

  lemma UntouchedTwice(v0: View, v1: View, v2: View, t: Timer)
    requires Untouched(v0, v1, t) && Untouched(v1.(now := v1.now + 1), v2, t)
    ensures Untouched(v0, v2, t)
  {
    LinkedAnyTime(v1, v1.now + 1);
  }

  lemma FiredKnown(fired: seq<Timer>, script: Script, v: View)
    requires Housed(v) && FiredExactly(fired, script, v.keys, v.active, DueNow(v))
    ensures forall k :: 0 <= k < |fired| ==> fired[k] in v.timers && fired[k] in v.Linked()
  {
  }

  /** The same over one more tick. */
  lemma StillSpared(v0: View, v: View, v2: View, fired: seq<Timer>, script: Script, t: Timer, late: nat)
    requires Untouched(v0, v, t) && Spares(script, t) && t in v.timers
    requires FiredExactly(fired, script, v.keys, v.active, DueNow(v.(now := v.now + 1)))
    requires Disturbed(v.(now := v.now + 1), v2, Affected(fired, script, v.active), late)
    ensures Untouched(v0, v2, t)
  {
    hide View.Linked, FiredExactly, Disturbed, Affected, Spares;
    LinkedAnyTime(v, v.now + 1);
    Spared(v.(now := v.now + 1), v2, fired, script, t, late);
    UntouchedTwice(v0, v, v2, t);
  }

  class TimerWheel {
    const mask: nat                    // RT_TIMER_SKIP_LIST_MASK
    ghost const late: nat              // how many ticks may come between the regions of a start
    var rows: seq<Links>               // rt_timer_list[], densest row last
    var tick: nat
    var timeoutTick: map<Timer, nat>
    var initTick: map<Timer, nat>
    var active: set<Timer>             // RT_TIMER_FLAG_ACTIVATED
    var periodic: set<Timer>           // RT_TIMER_FLAG_PERIODIC
    var randomNr: nat
    ghost var view: View

    /** rt_system_timer_init: every row's head alone. */
    constructor (levels: nat, mask: nat, ghost late: nat)
      requires levels > 0 && (mask == 1 || mask == 3) && late + 1 < HALF
      ensures Valid() && Periods() && Quiet(view, late) && this.late == late
      ensures view.timers == {} && view.Linked() == {} && |rows| == levels && view.now == 0 && periodic == {}
    {
      this.mask := mask;
      this.late := late;
      rows := seq(levels, _ => Links(map[HEAD := HEAD], map[HEAD := HEAD]));
      tick, randomNr := 0, 0;
      timeoutTick, initTick, active, periodic := map[], map[], {}, {};
      view := View({}, seq(levels, _ => []), map[], 0, 0, {});
    }

    /** rt_timer_init on a fresh timer object. */
    method InitTimer(t: Timer, time: nat, repeat: bool)
      requires Core() && t !in view.timers
      modifies `rows, `timeoutTick, `initTick, `periodic, `view
      ensures Core() && view == old(view).Added(t) && view.Linked() == old(view).Linked() && t !in view.Linked()
      ensures old(Periods()) && (repeat ==> 0 < time < HALF - late) ==> Periods()
      ensures initTick == old(initTick)[t := time] && |rows| == |old(rows)|
      ensures periodic == if repeat then old(periodic) + {t} else old(periodic) - {t}
    {
      hide Inv, RowOk, Stacked, Keyed, Window, Last, View.Linked, Wrap;
      var r := rows;
      for i := 0 to |rows|
        invariant |r| == |rows|
        invariant forall j :: 0 <= j < i ==> r[j] == Joined(rows[j], t)
        invariant forall j :: i <= j < |rows| ==> r[j] == rows[j]
      {
        r := r[i := Joined(r[i], t)];
      }
      InvAdded(rows, timeoutTick, view, late, t, r);
      rows := r;
      timeoutTick := timeoutTick[t := 0];
      initTick := initTick[t := time];
      periodic := if repeat then periodic + {t} else periodic - {t};
      view := view.Added(t);
    }

    /** The rows are the lists of the view, and the marks are the view's. */
    ghost predicate Core()
      reads this
    {
      && (mask == 1 || mask == 3)
      && tick == Wrap(view.now)
      && initTick.Keys == view.timers
      && active == view.active <= view.timers
      && Inv(rows, timeoutTick, view, late)
    }

    /** A timer is marked active just when it is linked. */
    ghost predicate Valid()
      reads this
    {
      Core() && active == view.Linked()
    }

    /** The topmost row the latest start joined. */
    ghost function TopRow(): int
      reads this
    {
      if rows == [] then 0 else |rows| - Height(randomNr, mask, |rows|)
    }

    lemma CoreDomain()
      requires Core()
      ensures timeoutTick.Keys == view.keys.Keys == view.timers && rows != []
    {
    }

    lemma CoreHoused()
      requires Core()
      ensures Housed(view) && active == view.active
    {
      InvHoused(rows, timeoutTick, view, late);
    }

    /** rt_timer_start up to the end of its first locked region, and the timeout tick calculated
        behind it. */
    method StartBegin(t: Timer)
      requires Core() && t in view.timers && initTick[t] < HALF
      modifies `rows, `timeoutTick, `active, `view
      ensures Core() && t in old(view).keys && |rows| == |old(rows)|
      ensures view == old(view).Noted(t, view.now + initTick[t])
      ensures view.Linked() == old(view).Linked() - {t}
      ensures Quiet(old(view), late) ==> Quiet(view, late)
    {
      hide RowOk, Stacked, Window, Without, Elems, WithoutAll, Last, Wrap, Quiet;
      ghost var d := view.now + initTick[t];
      CoreDomain();
      var r := UnlinkRows(rows, t, view.lists, view.timers);
      active := active - {t};
      WrapAdd(view.now, initTick[t]);
      InvNoted(rows, timeoutTick, view, late, t, d, r);
      if Quiet(view, late) {
        QuietKept(view, late, t, d, 0);
      }
      rows := r;
      timeoutTick := timeoutTick[t := Wrap(tick + initTick[t])];
      view := view.Noted(t, d);
    }

    /** The second locked region of rt_timer_start. An unlisted timer goes behind every timer due no
        later, into the bottom row and as many rows above it as the insert counter says. A timer that
        someone else has started since the first region is linked a second time, and then no list of
        timers fits the rows any more. */
    method StartEnd(t: Timer)
      requires Core() && t in view.timers && t in view.keys
      requires view.now <= view.keys[t].deadline + late && view.keys[t].deadline + late < view.now + HALF
      modifies `rows, `active, `randomNr, `view
      ensures 0 <= TopRow() < |rows| == |old(rows)| && active == old(active) + {t}
      ensures Core() <==> t !in old(view).Linked()
      ensures t !in old(view).Linked() ==>
        && view == old(view).Started(t, old(view).keys[t].deadline, TopRow())
        && view.Linked() == old(view).Linked() + {t}
        && (Quiet(old(view), late) ==> Quiet(view, late))
      ensures t in old(view).Linked() ==> view == old(view) && NoList(rows, timeoutTick, late)
      ensures var head := HeadAt(old(view).Bottom(), old(view).keys, old(view).keys[t].deadline);
        && head in old(rows)[|rows| - 1].next
        && rows[|rows| - 1] == InsertAfter(old(rows)[|rows| - 1], head, t)
    {
      hide Inv, Rows, RowOk, Restarted, Elems, Height, Last, Wrap, Quiet, View.Linked, HeadAt, InsertAfter, NoList;
      randomNr := (randomNr + 1) % TICKS;
      var r := LinkTimer(rows, timeoutTick, t, randomNr, mask, view, late);
      ghost var from := |rows| - Height(randomNr, mask, |rows|);
      ghost var v := view;
      active := active + {t};
      if t in v.Linked() {
        LinkBroken(t, r);
      } else {
        InvStarted(rows, timeoutTick, view, late, t, r, from);
        if Quiet(view, late) {
          QuietKept(view, late, t, view.keys[t].deadline, from);
        }
        view := view.Started(t, view.keys[t].deadline, from);
      }
      rows := r;
      assert t in v.Linked() ==> !Core() by {
        hide *;
        NoCore();
      }
    }

    lemma LinkBroken(t: Timer, r: seq<Links>)
      requires Inv(rows, timeoutTick, view, late) && t in view.Linked() && t in view.keys
      requires |r| == |rows| > 0
      requires HeadAt(view.Bottom(), view.keys, view.keys[t].deadline) in rows[|rows| - 1].next
      requires r[|r| - 1] ==
               InsertAfter(rows[|rows| - 1], HeadAt(view.Bottom(), view.keys, view.keys[t].deadline), t)
      ensures NoList(r, timeoutTick, late)
    {
      hide Inv, InsertAfter, View.Linked, NoList;
      LinkedTwice(rows, timeoutTick, view, late, t, r, Due(view.Bottom(), view.keys, view.keys[t].deadline));
    }

    lemma NoCore()
      ensures NoList(rows, timeoutTick, late) ==> !Core()
    {
    }

    /** Periodic timers have a usable, positive period. */
    ghost predicate Periods()
      reads this
    {
      forall t :: t in periodic ==> t in initTick && 0 < initTick[t] < HALF - late
    }

    /** rt_timer_start with nothing in between. */
    method Start(t: Timer)
      requires Core() && t in view.timers && initTick[t] < HALF - late
      modifies `rows, `timeoutTick, `active, `randomNr, `view
      ensures Core() && 0 <= TopRow() < |rows| == |old(rows)|
      ensures view == old(view).Started(t, view.now + initTick[t], TopRow())
      ensures view.Linked() == old(view).Linked() + {t}
      ensures Quiet(old(view), late) ==> Quiet(view, late)
    {
      hide Inv, Rows, RowOk, Restarted, WithoutAll, Elems, Height, Last, Wrap, Quiet, View.Linked, HeadAt, InsertAfter,
           NoList;
      ghost var v := view;
      CoreStacked();
      StartBegin(t);
      StartEnd(t);
      RestartedUnlinked(v.lists, v.keys, view.now + initTick[t], t, v.keys[t].(deadline := view.now + initTick[t]),
          TopRow());
      assert v.Linked() - {t} + {t} == v.Linked() + {t};
      assert v.active - {t} + {t} == v.active + {t};
    }

    lemma CoreStacked()
      requires Core()
      ensures Stacked(view.lists, view.keys) && view.keys.Keys == view.timers
    {
    }

    /** The locked region of rt_timer_stop, and of a round of rt_timer_check: the timer is taken out of
        every row. */
    method Unlink(t: Timer)
      requires Core() && t in view.timers
      modifies `rows, `view
      ensures Core() && view == old(view).Unlinked(t)
      ensures view.Linked() == old(view).Linked() - {t}
      ensures Quiet(old(view), late) ==> Quiet(view, late)
    {
      hide Quiet, RowOk, Stacked, Keyed, Window, Without, Elems, WithoutAll, Last;
      var r := UnlinkRows(rows, t, view.lists, view.timers);
      InvUnlinked(rows, timeoutTick, view, late, t, r);
      if Quiet(view, late) {
        QuietKept(view, late, t, 0, 0);
      }
      rows := r;
      view := view.Unlinked(t);
    }

    /** The mark is cleared; in rt_timer_stop that happens behind the locked region. */
    method Unmark(t: Timer)
      requires Core()
      modifies `active, `view
      ensures Core() && view == old(view).Unmarked(t) && view.Linked() == old(view).Linked()
      ensures active == old(active) - {t}
      ensures Quiet(old(view), late) ==> Quiet(view, late)
    {
      hide Inv, View.Linked, Quiet;
      InvUnmarked(rows, timeoutTick, view, late, t);
      QuietUnmarked(view, late, t);
      active := active - {t};
      view := view.Unmarked(t);
    }

    /** rt_timer_stop with nothing in between. A timer without its mark is refused, listed or not. */
    method Stop(t: Timer) returns (ok: bool)
      requires Core() && t in view.timers
      modifies `rows, `active, `view
      ensures Core()
      ensures ok == (t in old(active))
      ensures view == if ok then old(view).Stopped(t) else old(view)
      ensures view.Linked() == if ok then old(view).Linked() - {t} else old(view).Linked()
      ensures active == old(active) - {t}
      ensures Quiet(old(view), late) ==> Quiet(view, late)
    {
      hide Core, Quiet, View.Linked;
      ok := Marked(t);
      if ok {
        Unlink(t);
        Unmark(t);
      }
    }

    method Marked(t: Timer) returns (b: bool)
      requires Core()
      ensures b == (t in active) == (t in view.active)
    {
      b := t in active;
    }

    /** rt_timer_control with RT_TIMER_CTRL_SET_TIME. */
    method SetTime(t: Timer, time: nat)
      requires Core() && t in view.timers
      modifies `initTick
      ensures Core() && initTick == old(initTick)[t := time]
    {
      initTick := initTick[t := time];
    }

    /** One call of a timeout function. `touched` are the timers dealt with since `v0`. */
    method RunCmd(c: Cmd, ghost v0: View, ghost touched: set<Timer>)
      requires Core() && Periods() && Disturbed(v0, view, touched, late)
      requires c.timer in view.timers && (c.StartCmd? ==> 0 < c.delay < HALF - late)
      modifies `rows, `timeoutTick, `initTick, `active, `randomNr, `view
      ensures Core() && Periods() && view.timers == old(view).timers && view.now == old(view).now
      ensures Disturbed(v0, view, touched + (if c.StartCmd? || c.timer in v0.active then {c.timer} else {}), late)
      ensures PlanOf(view, initTick) == Obey(old(PlanOf(view, initTick)), c, old(view.now))
    {
      hide PlanOf, Inv, Rows, RowOk, Restarted, WithoutAll, Elems, Height, Last, Wrap, View.Linked, Disturbed, Housed,
           View.Noted;
      ghost var v := view;
      InvHoused(rows, timeoutTick, view, late);
      PlanTime(view, initTick);
      SameTimers(v0, view, touched, late);
      match c {
        case StartCmd(t, delay) =>
          SetTime(t, delay);
          Start(t);
          StartDisturbs(v, t, v.now + delay, TopRow(), late);
          DisturbedTwice(v0, v, view, touched, {t}, late);
          PlanStarted(v, t, v.now + delay, TopRow(), old(initTick), initTick);
        case StopCmd(t) =>
          var ok := Stop(t);
          if t !in touched {
            SameMark(v0, v, touched, late, t);
          }
          if ok {
            StoppedLinked(v, t);
            UnlinkDisturbs(v, t, late);
            DisturbedTwice(v0, v, view, touched, {t}, late);
            PlanUnlinked(v, t, initTick);
            PlanUnmarked(v.Unlinked(t), t, initTick);
          }
          assert t in touched ==> touched + {t} == touched;
          assert touched + {} == touched;
      }
    }

    method RunCallback(cmds: seq<Cmd>, ghost v0: View, ghost touched: set<Timer>)
      requires Core() && Periods() && Admissible(cmds, view.timers, late) && Disturbed(v0, view, touched, late)
      modifies `rows, `timeoutTick, `initTick, `active, `randomNr, `view
      ensures Core() && Periods() && view.timers == old(view).timers && view.now == old(view).now
      ensures Disturbed(v0, view, touched + Touches(cmds, v0.active), late)
      ensures PlanOf(view, initTick) == ObeyAll(old(PlanOf(view, initTick)), cmds, old(view.now))
    {
      hide Periods, Disturbed, View.Linked, Core, PlanOf, Obey, Touches;
      NoTouches(v0.active);
      assert touched + {} == touched;
      for i := 0 to |cmds|
        invariant Core() && Periods() && view.timers == old(view).timers && view.now == old(view).now
        invariant Disturbed(v0, view, touched + Touches(cmds[..i], v0.active), late)
        invariant PlanOf(view, initTick) == ObeyAll(old(PlanOf(view, initTick)), cmds[..i], old(view.now))
      {
        ghost var t := touched + Touches(cmds[..i], v0.active);
        TouchesNext(cmds, i, v0.active);
        ObeyOneMore(old(PlanOf(view, initTick)), cmds, i, old(view.now));
        RunCmd(cmds[i], v0, t);
        assert touched + Touches(cmds[..i + 1], v0.active) ==
               t + (if cmds[i].StartCmd? || cmds[i].timer in v0.active then {cmds[i].timer} else {});
      }
      assert cmds[..|cmds|] == cmds;
    }

    /** One round of the rt_timer_check loop, whatever the timeout function does: `t` is taken out,
        the function runs, and a periodic timer that is still active is started again; any other is
        marked inactive. */
    method Fire(cmds: seq<Cmd>, t: Timer, ghost v0: View, ghost touched: set<Timer>)
      requires Core() && Periods() && t in view.timers && t in view.Linked()
      requires Admissible(cmds, view.timers, late) && Disturbed(v0, view, touched, late)
      modifies `rows, `timeoutTick, `initTick, `active, `randomNr, `view
      ensures Core() && Periods() && view.timers == old(view).timers && view.now == old(view).now
      ensures Disturbed(v0, view, touched + ({t} + Touches(cmds, v0.active)), late)
      ensures PlanOf(view, initTick) == AfterFiring(old(PlanOf(view, initTick)), t, cmds, t in periodic, old(view.now))
    {
      hide PlanOf, ObeyAll, Inv, Disturbed, View.Linked, Housed, Touches, WithoutAll;
      ghost var v := view;
      ghost var more := {t} + Touches(cmds, v0.active);
      InvHoused(rows, timeoutTick, view, late);
      Unlink(t);
      UnlinkDisturbs(v, t, late);
      PlanUnlinked(v, t, initTick);
      DisturbedTwice(v0, v, view, touched, {t}, late);
      RunCallback(cmds, v0, touched + {t});
      assert touched + {t} + Touches(cmds, v0.active) == touched + more;
      PlanTime(view, initTick);
      ghost var v2 := view;
      TouchedNotDue(v0, v2, touched + more, late, t);
      Rearm(t);
      DisturbedTwice(v0, v2, view, touched + more, {t}, late);
      SameTimers(v2, view, {t}, late);
      assert touched + more + {t} == touched + more;
    }

    /** The end of a round. */
    method Rearm(t: Timer)
      requires Core() && Periods() && t in view.timers
      modifies `rows, `timeoutTick, `active, `randomNr, `view
      ensures Core() && Periods() && (t !in DueNow(old(view)) ==> Disturbed(old(view), view, {t}, late))
      ensures var q := old(PlanOf(view, initTick));
        PlanOf(view, initTick) ==
        if t in periodic && t in q.active then q.(due := q.due[t := old(view.now) + initTick[t]])
        else q.(active := q.active - {t})
      ensures !(t in periodic && t in old(active)) ==> t !in active && view.Linked() == old(view).Linked()
    {
      hide PlanOf, Inv, Rows, RowOk, Stacked, Restarted, WithoutAll, Elems, Last, Wrap, View.Linked, Disturbed, Housed,
           Height, Quiet, DueNow;
      ghost var v := view;
      InvHoused(rows, timeoutTick, view, late);
      PlanTime(view, initTick);
      if t in periodic && t in active {
        Unmark(t);
        Start(t);
        RestartedMark(v, t, TopRow(), v.now + initTick[t]);
        StartDisturbs(v, t, v.now + initTick[t], TopRow(), late);
        PlanStarted(v, t, v.now + initTick[t], TopRow(), initTick, initTick);
      } else {
        Unmark(t);
        if t !in DueNow(v) {
          UnmarkDisturbs(v, t, late);
        }
        PlanUnmarked(v, t, initTick);
      }
    }

    /** The head of the rt_timer_check loop: the first listed timer, if it is due. */
    method NextDue() returns (first: Option<Timer>)
      requires Core()
      ensures first.None? ==> DueNow(view) == {}
      ensures first.Some? ==> FirstOf(first.value, view, DueNow(view))
    {
      ghost var list := view.Bottom();
      var row := rows[|rows| - 1];
      BottomRow();
      RowStep(row, list, 0);
      if row.next[HEAD] == HEAD {
        EmptyBottom(view, row);
        return None;
      }
      NonEmptyBottom(view, row);
      var t: Timer := row.next[HEAD];
      HeadFirst(view);
      WrappedDue(view.keys[t].deadline, view.now, late);
      if WrapSub(tick, timeoutTick[t]) < HALF {
        return Some(t);
      }
      return None;
    }

    lemma BottomRow()
      requires Core()
      ensures |rows| == |view.lists| > 0
      ensures RowOk(rows[|rows| - 1], view.Bottom(), view.timers) && Stacked(view.lists, view.keys)
    {
    }

    lemma CheckStarts(script: Script)
      requires Core()
      ensures Disturbed(view, view, {}, late) && Firing([], script, view.keys, view.active, DueNow(view), {})
      ensures Housed(view) && active == view.active && initTick.Keys == view.timers
    {
      InvHoused(rows, timeoutTick, view, late);
    }

    lemma FirstDueKnown(t: Timer)
      requires Core() && FirstOf(t, view, DueNow(view))
      ensures t in DueNow(view) && t in view.Linked() && t in view.timers
    {
      InvHoused(rows, timeoutTick, view, late);
    }

    /** The body of the rt_timer_check loop. */
    method FireFirst(t: Timer, script: Script, fired: seq<Timer>, ghost v0: View, ghost due: set<Timer>,
                     ghost touched: set<Timer>)
      returns (ghost touched1: set<Timer>)
      requires Core() && Periods() && view.timers == v0.timers
      requires Orderly(script, view.timers, late)
      requires Disturbed(v0, view, touched, late) && due == DueNow(v0) && DueNow(view) == due - touched
      requires Firing(fired, script, v0.keys, v0.active, due, touched)
      requires FirstOf(t, view, DueNow(view))
      modifies `rows, `timeoutTick, `initTick, `active, `randomNr, `view
      ensures Core() && Periods() && view.timers == v0.timers
      ensures touched1 == touched + ({t} + Touches(script(t, |fired|), v0.active))
      ensures Disturbed(v0, view, touched1, late) && DueNow(view) == due - touched1
      ensures Firing(fired + [t], script, v0.keys, v0.active, due, touched1)
      ensures |DueNow(view)| < |DueNow(old(view))|
      ensures view.now == old(view).now
      ensures PlanOf(view, initTick) ==
              AfterFiring(old(PlanOf(view, initTick)), t, script(t, |fired|), t in periodic, old(view.now))
    {
      hide PlanOf, AfterFiring, Core, Periods, Disturbed, Firing, Admissible, View.Linked, DueNow, Touches, FirstOf,
           Before;
      touched1 := touched + ({t} + Touches(script(t, |fired|), v0.active));
      FirstDueKnown(t);
      FirstInOld(v0, view, touched, t, late);
      FiringStep(fired, script, v0.keys, v0.active, due, touched, t);
      Fire(script(t, |fired|), t, v0, touched);
      DisturbedDue(v0, view, touched1, late);
      FewerDue(due, touched, touched1, t);
    }

    /** rt_timer_check, with the timeout functions' doings given by `script`: the k-th to fire, if
        it is timer t, issues the commands `script(t, k)`. It fires, in order, exactly the due
        timers that no earlier timeout function stopped or restarted, and leaves none due. Of the
        timers listed at the end exactly those are unmarked that turned so. */
    method Check(script: Script) returns (fired: seq<Timer>)
      requires Core() && Periods()
      requires Orderly(script, view.timers, late)
      modifies `rows, `timeoutTick, `initTick, `active, `randomNr, `view
      ensures Core() && Periods() && view.now == old(view).now && view.timers == old(view).timers
      ensures DueNow(view) == {}
      ensures FiredExactly(fired, script, old(view).keys, old(view).active, DueNow(old(view)))
      ensures Disturbed(old(view), view, Affected(fired, script, old(view).active), late)
      ensures PlanOf(view, initTick) == AfterAll(old(PlanOf(view, initTick)), fired, script, periodic, view.now)
      ensures old(active) <= old(view).Linked() ==> active <= view.Linked()
      ensures old(active) <= old(view).Linked() ==> forall t ::
        t in view.Linked() && t !in active <==> TurnsStray(old(PlanOf(view, initTick)), fired, script, periodic, t)
    {
      hide PlanOf, AfterFiring, Core, Periods, Disturbed, Firing, Admissible, View.Linked, DueNow, Touches, View.Bottom,
           FiredExactly, Before, TurnsStray, Housed;
      fired := [];
      ghost var touched := {};
      ghost var due := DueNow(view);
      CheckStarts(script);
      var first := NextDue();
      DisturbedDue(old(view), view, touched, late);
      while first.Some?
        invariant Core() && Periods()
        invariant Disturbed(old(view), view, touched, late) && DueNow(view) == due - touched
        invariant touched == Affected(fired, script, old(view).active)
        invariant view.timers == old(view).timers && view.now == old(view).now
        invariant PlanOf(view, initTick) == AfterAll(old(PlanOf(view, initTick)), fired, script, periodic, view.now)
        invariant Firing(fired, script, old(view).keys, old(view).active, due, touched)
        invariant first.None? ==> DueNow(view) == {}
        invariant first.Some? ==> FirstOf(first.value, view, DueNow(view))
        decreases |DueNow(view)|
      {
        AfterOneMore(old(PlanOf(view, initTick)), fired, first.value, script, periodic, view.now);
        AffectedOneMore(fired, first.value, script, old(view).active);
        touched := FireFirst(first.value, script, fired, old(view), due, touched);
        fired := fired + [first.value];
        first := NextDue();
      }
      SameTimers(old(view), view, touched, late);
      FiringDone(fired, script, old(view).keys, old(view).active, due, touched);
      if old(active) <= old(view).Linked() {
        Strays(old(view), old(initTick), fired, script);
      }
    }

    lemma Strays(v0: View, time0: map<Timer, nat>, fired: seq<Timer>, script: Script)
      requires Core() && Housed(v0) && v0.active <= v0.Linked() && time0.Keys == v0.timers
      requires FiredExactly(fired, script, v0.keys, v0.active, DueNow(v0))
      requires PlanOf(view, initTick) == AfterAll(PlanOf(v0, time0), fired, script, periodic, view.now)
      ensures active <= view.Linked()
      ensures forall t :: t in view.Linked() && t !in active <==>
                  TurnsStray(PlanOf(v0, time0), fired, script, periodic, t)
    {
      hide PlanOf, AfterAll, View.Linked, TurnsStray, FiredExactly;
      InvHoused(rows, timeoutTick, view, late);
      FiredKnown(fired, script, v0);
      PlanDue(view, initTick);
      PlanDue(v0, time0);
      PlanTime(view, initTick);
      PlanTime(v0, time0);
      forall t ensures t in active ==> t in view.Linked()
               ensures t in view.Linked() && t !in active <==>
                       TurnsStray(PlanOf(v0, time0), fired, script, periodic, t)
      {
        StrayExact(PlanOf(v0, time0), fired, script, periodic, view.now, t);
      }
    }

    /** rt_tick_increase, from the timer list's side: the tick wraps at 2^32, then every timer
        whose unbounded deadline the new tick has reached is dealt with. */
    method Tick(script: Script) returns (fired: seq<Timer>)
      requires Core() && Periods() && Quiet(view, late)
      requires Orderly(script, view.timers, late)
      modifies `tick, `rows, `timeoutTick, `initTick, `active, `randomNr, `view
      ensures Core() && Periods() && Quiet(view, late)
      ensures view.timers == old(view).timers && view.now == old(view).now + 1 && DueNow(view) == {}
      ensures FiredExactly(fired, script, old(view).keys, old(view).active, DueNow(old(view).(now := view.now)))
      ensures Disturbed(old(view).(now := view.now), view, Affected(fired, script, old(view).active), late)
      ensures PlanOf(view, initTick) == AfterAll(old(PlanOf(view, initTick)), fired, script, periodic, view.now)
      ensures old(active) <= old(view).Linked() ==> active <= view.Linked()
      ensures old(active) <= old(view).Linked() ==> forall t ::
        t in view.Linked() && t !in active <==> TurnsStray(old(PlanOf(view, initTick)), fired, script, periodic, t)
    {
      hide AfterAll, Rows, RowOk, Stacked, Keyed, View.Linked, Disturbed, Firing, Admissible, DueNow, FiredExactly,
           Last, Wrap, Quiet, Window, PlanOf, TurnsStray;
      WrapAdd(view.now, 1);
      InvTicked(rows, timeoutTick, view, late);
      PlanAnyTime(view, view.now + 1, initTick);
      LinkedAnyTime(view, view.now + 1);
      tick := Wrap(tick + 1);
      view := view.(now := view.now + 1);
      fired := Check(script);
      InvHoused(rows, timeoutTick, view, late);
      NoneDueQuiet(view, late);
    }

    /** Several ticks; `firings` are the timers each of them fires. */
    method Ticks(n: nat, scripts: nat -> Script) returns (firings: seq<seq<Timer>>)
      requires Core() && Periods() && Quiet(view, late)
      requires AllOrderly(scripts, view.timers, late)
      modifies `tick, `rows, `timeoutTick, `initTick, `active, `randomNr, `view
      ensures Core() && Periods() && Quiet(view, late)
      ensures view.timers == old(view).timers && view.now == old(view).now + n && |firings| == n
      ensures Later(old(view), view, late)
      ensures PlanOf(view, initTick) ==
              AfterTicks(old(PlanOf(view, initTick)), firings, scripts, periodic, old(view.now))
      ensures forall t :: t in view.timers && t !in old(view).Linked() && AllSpare(scripts, t) ==>
                Untouched(old(view), view, t)
    {
      hide Inv, View.Linked, Orderly, Spares, Quiet, PlanOf, AfterAll, FiredExactly, Affected, Disturbed, DueNow, Wrap,
           Later, Untouched, TurnsStray;
      firings := [];
      NoTick();
      for k := 0 to n
        invariant Core() && Periods() && Quiet(view, late) && view.timers == old(view).timers
        invariant view.now == old(view).now + k && |firings| == k && Later(old(view), view, late)
        invariant PlanOf(view, initTick) ==
                  AfterTicks(old(PlanOf(view, initTick)), firings, scripts, periodic, old(view.now))
        invariant forall t :: t in view.timers && t !in old(view).Linked() && AllSpare(scripts, t) ==>
                    Untouched(old(view), view, t)
      {
        ghost var v := view;
        assert Orderly(scripts(k), view.timers, late);
        var fired := Tick(scripts(k));
        AfterOneTick(old(PlanOf(view, initTick)), firings, fired, scripts, periodic, old(view.now));
        firings := firings + [fired];
        LaterTick(old(view), v, view, Affected(fired, scripts(k), v.active), late);
        forall t | t in view.timers && t !in old(view).Linked() && AllSpare(scripts, t)
          ensures Untouched(old(view), view, t)
        {
          StillSpared(old(view), v, view, fired, scripts(k), t, late);
        }
      }
    }

    lemma NoTick()
      requires Core()
      ensures Later(view, view, late)
      ensures forall t :: t in view.timers && t !in view.Linked() ==> Untouched(view, view, t)
    {
    }

    /** rt_timer_start interrupted by `ticks` ticks between its two regions, whose timeout functions do
        as they like. Exactly if they leave `t` unlisted it is listed, with the deadline it got last;
        that is the one it would have got at once, if none of them dealt with it. Otherwise no list of
        timers fits the rows any more. */
    method StartLate(t: Timer, ticks: nat, scripts: nat -> Script) returns (firings: seq<seq<Timer>>)
      requires Core() && Periods() && Quiet(view, late) && t in view.timers
      requires initTick[t] < HALF - late && ticks <= late
      requires AllOrderly(scripts, view.timers, late)
      modifies `tick, `rows, `timeoutTick, `initTick, `active, `randomNr, `view
      ensures view.now == old(view).now + ticks && |firings| == ticks && Periods()
      ensures var p := old(PlanOf(view, initTick));
        var q := AfterTicks(Dropped(p, t), firings, scripts, periodic, old(view.now));
        && (Core() <==> t !in q.due)
        && (t in q.due ==> NoList(rows, timeoutTick, late))
        && (t !in q.due ==>
              && Quiet(view, late) && t in view.keys && t in view.Linked()
              && PlanOf(view, initTick) == Plan(q.due[t := view.keys[t].deadline], q.time, q.active + {t}))
        && (AllSpare(scripts, t) ==>
              t !in q.due && t in view.keys && view.keys[t].deadline == old(view).now + old(initTick[t]))
    {
      hide Inv, View.Linked, AllOrderly, AllSpare, Quiet, PlanOf, AfterTicks, Disturbed, DueNow, Wrap, HeadAt,
           InsertAfter, NoList, Housed, Dropped;
      ghost var v0 := view;
      ghost var d := view.now + initTick[t];
      StartBegin(t);
      PlanNoted(v0, t, d, initTick);
      firings := Ticks(ticks, scripts);
      InvHoused(rows, timeoutTick, view, late);
      PlanDue(view, initTick);
      ghost var v := view;
      CoreDomain();
      if AllSpare(scripts, t) {
        assert Untouched(v0.Noted(t, d), v, t);
      }
      StartEnd(t);
      if t !in v.Linked() {
        PlanStarted(v, t, v.keys[t].deadline, TopRow(), initTick, initTick);
        PlanTime(v, initTick);
      }
    }

    /** rt_timer_stop interrupted by `before` ticks behind its test of the mark and by `after` ticks
        between its locked region and the clearing of the mark. The timer ends up listed and unmarked
        exactly if a timeout function has started it behind the region. */
    method StopLate(t: Timer, before: nat, after: nat, scripts: nat -> Script, scripts2: nat -> Script)
      returns (ok: bool, firings: seq<seq<Timer>>, firings2: seq<seq<Timer>>)
      requires Core() && Periods() && Quiet(view, late) && t in view.timers
      requires AllOrderly(scripts, view.timers, late) && AllOrderly(scripts2, view.timers, late)
      modifies `tick, `rows, `timeoutTick, `initTick, `active, `randomNr, `view
      ensures Core() && Periods() && Quiet(view, late) && ok == (t in old(active))
      ensures !ok ==> view == old(view)
      ensures ok ==> view.now == old(view).now + before + after && |firings| == before && |firings2| == after
      ensures ok ==>
        var q := AfterTicks(old(PlanOf(view, initTick)), firings, scripts, periodic, old(view.now));
        var q2 := AfterTicks(Unlisted(q, t), firings2, scripts2, periodic, old(view.now) + before);
        && PlanOf(view, initTick) == q2.(active := q2.active - {t})
        && (t in view.Linked() && t !in active <==> t in q2.due)
    {
      hide Core, Inv, View.Linked, AllOrderly, AllSpare, Quiet, PlanOf, AfterTicks, Wrap, Housed, Later, Untouched;
      ok := Marked(t);
      firings, firings2 := [], [];
      if ok {
        firings := Ticks(before, scripts);
        ghost var v := view;
        Unlink(t);
        PlanUnlinked(v, t, initTick);
        firings2 := Ticks(after, scripts2);
        CoreHoused();
        PlanDue(view, initTick);
        PlanUnmarked(view, t, initTick);
        PlanTime(view, initTick);
        Unmark(t);
      }
    }

    lemma OnlyTimer(t: Timer)
      requires Core() && view.Linked() == {t} && t in view.keys
      ensures rows != [] && HeadAt(view.Bottom(), view.keys, view.keys[t].deadline) == t
      ensures var row := rows[|rows| - 1];
        t in row.next && ToItself(InsertAfter(row, t, t), t)
    {
      hide InsertAfter, HeadAt, Ring;
      BottomRow();
      NoneElse(view, t);
      LinkedToItself(rows[|rows| - 1], view.keys, t);
    }

    /** A check at which only one-shot timer `t` is due, whose timeout function starts it again. */
    method CheckItself(t: Timer, delay: nat)
      requires Valid() && Periods() && DueNow(view) == {t} && t !in periodic && 0 < delay < HALF - late
      modifies `rows, `timeoutTick, `initTick, `active, `randomNr, `view
      ensures Core() && view.timers == old(view).timers && t in view.Linked() && t !in active
    {
      hide Core, Periods, PlanOf, View.Linked, Disturbed, AfterAll, FiredExactly, TurnsStray, DueNow, Housed;
      CoreHoused();
      ghost var v := view;
      var script: Script := (_, _) => [StartCmd(t, delay)];
      DueKnown(v, t);
      var fired := Check(script);
      OneFires(fired, script, v.keys, v.active, t);
      ItselfTurnsStray(PlanOf(v, old(initTick)), script, periodic, t, delay);
    }

    /** rt_timer_next_timeout_tick: the wrapped deadline of the earliest timer, or RT_TICK_MAX. */
    method NextTimeout() returns (r: nat)
      requires Core()
      ensures view.Linked() == {} ==> r == TICKS - 1
      ensures view.Linked() != {} ==> exists t :: FirstOf(t, view, view.Linked()) && r == Wrap(view.keys[t].deadline)
    {
      var row := rows[|rows| - 1];
      BottomRow();
      RowStep(row, view.Bottom(), 0);
      if row.next[HEAD] == HEAD {
        EmptyBottom(view, row);
        return TICKS - 1;
      }
      NonEmptyBottom(view, row);
      HeadFirst(view);
      InvHoused(rows, timeoutTick, view, late);
      assert FirstOf(view.Bottom()[0], view, view.Linked());
      var t: Timer := row.next[HEAD];
      return timeoutTick[t];
    }
  }
  // Runs in which listed and marked part, or the list is lost

  lemma OnlyOne(list: seq<Timer>, keys: Keys, t: Timer)
    requires Ordered(list, keys) && Elems(list) == {t}
    ensures list == [t]
  {
    assert t in list && Elems([t]) == {t};
    OrderUnique(list, [t], keys);
  }

  /** A walk from the list head ends at `t` for ever. */
  ghost predicate ToItself(row: Links, t: Timer) {
    HEAD in row.next && row.next[HEAD] == t && t in row.next && row.next[t] == t
  }

  /** Linking the only timer of a row behind itself. */
  lemma LinkedToItself(row: Links, keys: Keys, t: Timer)
    requires Ring(row, [HEAD] + [t]) && t in keys
    ensures HeadAt([t], keys, keys[t].deadline) == t && t in row.next
    ensures ToItself(InsertAfter(row, t, t), t)
  {
    var c := [HEAD] + [t];
    assert c[0] == HEAD && c[1] == t && row.next[c[0]] == c[1];
    assert Due([t], keys, keys[t].deadline) == 1;
  }

  lemma NoneElse(v: View, t: Timer)
    requires Stacked(v.lists, v.keys) && v.Linked() == {t}
    ensures v.Bottom() == [t]
  {
    OnlyOne(v.Bottom(), v.keys, t);
  }

  lemma OneFires(fired: seq<Timer>, script: Script, keys: Keys, marked: set<Timer>, t: Timer)
    requires FiredExactly(fired, script, keys, marked, {t}) && t in keys
    ensures fired == [t]
  {
    assert !Skipped(fired, script, keys, marked, t);
    assert forall x :: x in fired ==> x in {t};
    OnlyOne(fired, keys, t);
  }

  lemma DueKnown(v: View, t: Timer)
    requires Housed(v) && DueNow(v) == {t}
    ensures t in v.timers && t in v.keys && t in v.Linked()
  {
    assert t in DueNow(v);
  }

  lemma ItselfTurnsStray(p: Plan, script: Script, periodic: set<Timer>, t: Timer, delay: nat)
    requires script(t, 0) == [StartCmd(t, delay)] && t !in periodic
    ensures TurnsStray(p, [t], script, periodic, t)
  {
    var cmds := [StartCmd(t, delay)];
    assert LastOn(cmds, t) == Some(cmds[0]);
    assert Restarts([t], script, periodic, t, 0) && LeftAlone([t], script, t, 1);
  }

  /** A timer that a timeout function starts between the two regions of its rt_timer_start: the list ends in
      the timer itself, so that a walk from the list head never comes back to it. */
  method StartTwice(levels: nat, mask: nat, time: nat) returns (w: TimerWheel)
    requires levels > 0 && (mask == 1 || mask == 3) && time < HALF
    ensures fresh(w) && |w.rows| == levels && !w.Core() && NoList(w.rows, w.timeoutTick, w.late)
    ensures ToItself(w.rows[levels - 1], 1)
  {
    hide TimerWheel.Core, Inv, NoList, Quiet, Ring, RowOk, Stacked, View.Bottom, Last, Restarted, WithoutAll,
         Disturbed, PlanOf, AfterAll, FiredExactly, TurnsStray,
         View.Linked, Ordered, HeadAt, InsertAfter;
    w := new TimerWheel(levels, mask, 0);
    w.InitTimer(1, time, false);
    w.StartBegin(1);
    w.Start(1);
    w.CoreHoused();
    w.OnlyTimer(1);
    w.StartEnd(1);
    w.NoCore();
  }

  /** A one-shot timer whose timeout function starts it again: rt_timer_check clears the mark behind it,
      and a later rt_timer_stop refuses to stop it. */
  method StartItself(levels: nat, mask: nat, delay: nat) returns (w: TimerWheel, ok: bool)
    requires levels > 0 && (mask == 1 || mask == 3) && 0 < delay < HALF
    ensures fresh(w) && w.Core() && !w.Valid()
    ensures 1 in w.view.Linked() && 1 !in w.active && !ok
  {
    hide TimerWheel.Core, Inv, Quiet, Restarted, WithoutAll, View.Linked, Ordered;
    w := new TimerWheel(levels, mask, 0);
    w.CoreHoused();
    w.InitTimer(1, 0, false);
    w.Start(1);
    w.CoreHoused();
    assert w.view.Linked() == {1} && DueNow(w.view) == {1};
    w.CheckItself(1, delay);
    ok := w.Stop(1);
  }

  /** A timer that a timeout function starts while rt_timer_stop is about to clear its mark. */
  method StopOvertaken(levels: nat, mask: nat, time: nat) returns (w: TimerWheel)
    requires levels > 0 && (mask == 1 || mask == 3) && time < HALF
    ensures fresh(w) && w.Core() && !w.Valid()
    ensures 1 in w.view.Linked() && 1 !in w.active
  {
    hide TimerWheel.Core, Inv, NoList, Quiet, Restarted, WithoutAll, Disturbed, PlanOf, AfterAll, FiredExactly,
         TurnsStray,
         View.Linked, Ordered, HeadAt, InsertAfter;
    w := new TimerWheel(levels, mask, 0);
    w.InitTimer(1, time, false);
    w.Start(1);
    w.Unlink(1);
    w.Start(1);
    w.Unmark(1);
  }
}

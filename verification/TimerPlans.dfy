/** What timeout functions do to timers, and what rt_timer_check makes of it: which timers fire, when
    the others are due, and which are marked active. */
module TimerPlans {
  import opened Wrappers
  import opened TimerOrder
  import opened TimerViews

  /** What a timeout function may do to timers: set the time of one and start it, or stop one. */
  datatype Cmd = StartCmd(timer: Timer, delay: nat) | StopCmd(timer: Timer)

  /** What the k-th timeout function does, if it is that of timer t. */
  type Script = (Timer, nat) -> seq<Cmd>

  /** The timers that the commands start, and those of `marked` that they stop: rt_timer_stop refuses a
      timer that is not marked. */
  ghost function Touches(cmds: seq<Cmd>, marked: set<Timer>): set<Timer> {
    set i | 0 <= i < |cmds| && (cmds[i].StartCmd? || cmds[i].timer in marked) :: cmds[i].timer
  }

  lemma TouchesNext(cmds: seq<Cmd>, i: nat, marked: set<Timer>)
    requires i < |cmds|
    ensures Touches(cmds[..i + 1], marked) ==
            Touches(cmds[..i], marked) + (if cmds[i].StartCmd? || cmds[i].timer in marked then {cmds[i].timer} else {})
  {
    assert cmds[..i + 1][i] == cmds[i];
    assert forall j :: 0 <= j < i ==> cmds[..i + 1][j] == cmds[..i][j];
  }

  lemma NoTouches(marked: set<Timer>)
    ensures Touches([], marked) == {}
  {
  }

  /** Commands a timeout function may issue: delays are positive and below RT_TICK_MAX / 2. */
  ghost predicate Admissible(cmds: seq<Cmd>, timers: set<Timer>, late: nat) {
    forall i :: 0 <= i < |cmds| ==> cmds[i].timer in timers && (cmds[i].StartCmd? ==> 0 < cmds[i].delay < HALF - late)
  }

  ghost predicate Orderly(script: Script, timers: set<Timer>, late: nat) {
    forall t, k :: t in timers ==> Admissible(script(t, k), timers, late)
  }

  ghost predicate AllOrderly(scripts: nat -> Script, timers: set<Timer>, late: nat) {
    forall k :: Orderly(scripts(k), timers, late)
  }

  // Plans

  /** When each running timer is due, the time set for every timer, and the timers marked active. */
  datatype Plan = Plan(due: map<Timer, nat>, time: map<Timer, nat>, active: set<Timer>)

  ghost function PlanOf(v: View, time: map<Timer, nat>): Plan {
    Plan(map t | t in v.Linked() && t in v.keys :: v.keys[t].deadline, time, v.active)
  }

  /** A timer without its mark is not stopped. */
  function Obey(p: Plan, c: Cmd, now: nat): Plan {
    match c
    case StartCmd(t, delay) => Plan(p.due[t := now + delay], p.time[t := delay], p.active + {t})
    case StopCmd(t) => if t in p.active then Dropped(p, t) else p
  }

  function ObeyAll(p: Plan, cmds: seq<Cmd>, now: nat): Plan {
    if cmds == [] then p else Obey(ObeyAll(p, cmds[..|cmds| - 1], now), cmds[|cmds| - 1], now)
  }

  function Unlisted(p: Plan, t: Timer): Plan { p.(due := p.due - {t}) }

  function Dropped(p: Plan, t: Timer): Plan { p.(due := p.due - {t}, active := p.active - {t}) }

  /** A timer fires: it is due no more, its timeout function has its way, and a periodic timer that
      is still marked is due again one period from now; any other loses its mark. */
  function AfterFiring(p: Plan, t: Timer, cmds: seq<Cmd>, periodic: bool, now: nat): Plan {
    var q := ObeyAll(Unlisted(p, t), cmds, now);
    if periodic && t in q.active && t in q.time then q.(due := q.due[t := now + q.time[t]])
    else q.(active := q.active - {t})
  }

  function AfterAll(p: Plan, fired: seq<Timer>, script: Script, periodic: set<Timer>, now: nat): Plan {
    if fired == [] then p
    else
      var k := |fired| - 1;
      AfterFiring(AfterAll(p, fired[..k], script, periodic, now), fired[k], script(fired[k], k), fired[k] in periodic,
          now)
  }

  /** Several ticks; `firings` are the timers that each of them fires. */
  function AfterTicks(p: Plan, firings: seq<seq<Timer>>, scripts: nat -> Script, periodic: set<Timer>, now: nat): Plan
  {
    if firings == [] then p
    else
      var k := |firings| - 1;
      AfterAll(AfterTicks(p, firings[..k], scripts, periodic, now), firings[k], scripts(k), periodic, now + k + 1)
  }

  lemma AfterOneMore(p: Plan, fired: seq<Timer>, t: Timer, script: Script, periodic: set<Timer>, now: nat)
    ensures AfterAll(p, fired + [t], script, periodic, now) ==
            AfterFiring(AfterAll(p, fired, script, periodic, now), t, script(t, |fired|), t in periodic, now)
  {
    hide AfterFiring;
    assert (fired + [t])[..|fired|] == fired;
  }

  lemma AfterOneTick(p: Plan, firings: seq<seq<Timer>>, fired: seq<Timer>, scripts: nat -> Script,
                     periodic: set<Timer>, now: nat)
    ensures var k := |firings|;
      AfterTicks(p, firings + [fired], scripts, periodic, now) ==
      AfterAll(AfterTicks(p, firings, scripts, periodic, now), fired, scripts(k), periodic, now + k + 1)
  {
    hide AfterAll;
    assert (firings + [fired])[..|firings|] == firings;
  }

  lemma ObeyOneMore(p: Plan, cmds: seq<Cmd>, i: nat, now: nat)
    requires i < |cmds|
    ensures ObeyAll(p, cmds[..i + 1], now) == Obey(ObeyAll(p, cmds[..i], now), cmds[i], now)
  {
    assert cmds[..i + 1][..i] == cmds[..i] && |cmds[..i + 1]| == i + 1;
  }

  lemma PlanStarted(v: View, t: Timer, d: nat, from: nat, time: map<Timer, nat>, time2: map<Timer, nat>)
    requires Housed(v) && t in v.timers && v.Started(t, d, from).Linked() == v.Linked() + {t}
    ensures PlanOf(v.Started(t, d, from), time2) == Plan(PlanOf(v, time).due[t := d], time2, v.active + {t})
  {
    hide View.Linked;
  }

  lemma PlanUnlinked(v: View, t: Timer, time: map<Timer, nat>)
    requires v.Unlinked(t).Linked() == v.Linked() - {t}
    ensures PlanOf(v.Unlinked(t), time) == PlanOf(v, time).(due := PlanOf(v, time).due - {t})
  {
    hide View.Linked;
  }

  lemma PlanUnmarked(v: View, t: Timer, time: map<Timer, nat>)
    ensures PlanOf(v.Unmarked(t), time) == PlanOf(v, time).(active := v.active - {t})
  {
    assert v.Unmarked(t).Linked() == v.Linked();
  }

  lemma PlanTime(v: View, time: map<Timer, nat>)
    ensures PlanOf(v, time).time == time && PlanOf(v, time).active == v.active
  {
  }

  lemma PlanDue(v: View, time: map<Timer, nat>)
    requires Housed(v)
    ensures PlanOf(v, time).due.Keys == v.Linked()
    ensures forall t :: t in v.Linked() ==> t in v.keys && PlanOf(v, time).due[t] == v.keys[t].deadline
  {
    hide View.Linked;
  }

  lemma PlanAnyTime(v: View, now: nat, time: map<Timer, nat>)
    ensures PlanOf(v.(now := now), time) == PlanOf(v, time)
  {
    LinkedAnyTime(v, now);
  }

  // Which due timers fire

  /** The timers that fired and those their timeout functions dealt with. */
  ghost function Affected(fired: seq<Timer>, script: Script, marked: set<Timer>): set<Timer> {
    if fired == [] then {}
    else
      var k := |fired| - 1;
      Affected(fired[..k], script, marked) + ({fired[k]} + Touches(script(fired[k], k), marked))
  }

  lemma AffectedOneMore(fired: seq<Timer>, t: Timer, script: Script, marked: set<Timer>)
    ensures Affected(fired + [t], script, marked) ==
            Affected(fired, script, marked) + ({t} + Touches(script(t, |fired|), marked))
  {
    assert (fired + [t])[..|fired|] == fired;
  }

  /** No timeout function stops or starts `t`. */
  ghost predicate Spares(script: Script, t: Timer) {
    forall u, k, i :: 0 <= i < |script(u, k)| ==> script(u, k)[i].timer != t
  }

  ghost predicate AllSpare(scripts: nat -> Script, t: Timer) { forall k :: Spares(scripts(k), t) }

  lemma {:induction false} NotAffected(fired: seq<Timer>, script: Script, marked: set<Timer>, t: Timer)
    requires Spares(script, t)
    ensures t in Affected(fired, script, marked) <==> t in fired
  {
    if fired != [] {
      NotAffected(fired[..|fired| - 1], script, marked, t);
      assert fired == fired[..|fired| - 1] + [fired[|fired| - 1]];
    }
  }

  /** `t` was taken out of the running by the timeout function of some earlier firing. */
  ghost predicate Skipped(fired: seq<Timer>, script: Script, keys: Keys, marked: set<Timer>, t: Timer) {
    exists k :: 0 <= k < |fired| && fired[k] in keys && t in keys &&
      Before(keys[fired[k]], keys[t]) && t in Touches(script(fired[k], k), marked)
  }

  /** Progress of rt_timer_check: of the timers due at entry, `touched` are dealt with. */
  ghost predicate Firing(fired: seq<Timer>, script: Script, keys: Keys, marked: set<Timer>, due: set<Timer>,
                         touched: set<Timer>) {
    && Ordered(fired, keys)
    && due <= keys.Keys
    && (forall k :: 0 <= k < |fired| ==> fired[k] in due && fired[k] in touched)
    && (forall t :: t in due && t in touched ==> (t in fired <==> !Skipped(fired, script, keys, marked, t)))
    && (forall t, k :: t in due && t !in touched && 0 <= k < |fired| ==> Before(keys[fired[k]], keys[t]))
    && (forall t, k :: t in due && t !in touched && 0 <= k < |fired| ==> t !in Touches(script(fired[k], k), marked))
  }

  /** The promise of rt_timer_check: the fired timers stand in the order they were due, and a due
      timer fires just when no timeout function that ran before its turn stopped or restarted it. */
  ghost predicate FiredExactly(fired: seq<Timer>, script: Script, keys: Keys, marked: set<Timer>, due: set<Timer>) {
    && Ordered(fired, keys)
    && (forall k :: 0 <= k < |fired| ==> fired[k] in due)
    && (forall t :: t in due ==> (t in fired <==> !Skipped(fired, script, keys, marked, t)))
  }

  lemma FiringDone(fired: seq<Timer>, script: Script, keys: Keys, marked: set<Timer>, due: set<Timer>,
                   touched: set<Timer>)
    requires Firing(fired, script, keys, marked, due, touched) && due - touched == {}
    ensures FiredExactly(fired, script, keys, marked, due)
  {
    assert forall t :: t in due ==> t in touched || t in due - touched;
  }

  lemma FiringStep(fired: seq<Timer>, script: Script, keys: Keys, marked: set<Timer>, due: set<Timer>,
                   touched: set<Timer>, t: Timer)
    requires Firing(fired, script, keys, marked, due, touched)
    requires t in due && t !in touched
    requires forall x :: x in due && x !in touched && x != t ==> Before(keys[t], keys[x])
    ensures Firing(fired + [t], script, keys, marked, due, touched + ({t} + Touches(script(t, |fired|), marked)))
  {
    var fired1 := fired + [t];
    var touched1 := touched + ({t} + Touches(script(t, |fired|), marked));
    forall x | x in due && x in touched1
      ensures x in fired1 <==> !Skipped(fired1, script, keys, marked, x)
    {
      SkippedStep(fired, script, keys, marked, t, x);
    }
  }

  lemma SkippedStep(fired: seq<Timer>, script: Script, keys: Keys, marked: set<Timer>, t: Timer, x: Timer)
    requires t in keys && x in keys
    ensures Skipped(fired + [t], script, keys, marked, x) <==>
            Skipped(fired, script, keys, marked, x) ||
            (Before(keys[t], keys[x]) && x in Touches(script(t, |fired|), marked))
  {
    var fired1 := fired + [t];
    if Skipped(fired, script, keys, marked, x) {
      var k :| 0 <= k < |fired| && fired[k] in keys && Before(keys[fired[k]], keys[x]) &&
          x in Touches(script(fired[k], k), marked);
      assert fired1[k] == fired[k];
    }
    if Before(keys[t], keys[x]) && x in Touches(script(t, |fired|), marked) {
      assert fired1[|fired|] == t;
    }
    if Skipped(fired1, script, keys, marked, x) {
      var k :| 0 <= k < |fired1| && fired1[k] in keys && Before(keys[fired1[k]], keys[x]) &&
          x in Touches(script(fired1[k], k), marked);
      assert k < |fired| ==> fired1[k] == fired[k];
    }
  }

  // Which timers end up listed and unmarked

  /** Listed but not marked active: rt_timer_stop refuses such a timer. */
  predicate Stray(p: Plan, t: Timer) { t in p.due && t !in p.active }

  predicate Starts(cmds: seq<Cmd>, t: Timer) { exists i :: 0 <= i < |cmds| && cmds[i].StartCmd? && cmds[i].timer == t }

  /** The last command on `t`, if there is one. */
  function LastOn(cmds: seq<Cmd>, t: Timer): Option<Cmd> {
    if cmds == [] then None
    else if cmds[|cmds| - 1].timer == t then Some(cmds[|cmds| - 1]) else LastOn(cmds[..|cmds| - 1], t)
  }

  predicate StartsLast(cmds: seq<Cmd>, t: Timer) { LastOn(cmds, t).Some? && LastOn(cmds, t).value.StartCmd? }

  /** The k-th firing is that of one-shot timer `t`, whose timeout function leaves it started. */
  predicate Restarts(fired: seq<Timer>, script: Script, periodic: set<Timer>, t: Timer, k: nat) {
    k < |fired| && fired[k] == t && t !in periodic && StartsLast(script(t, k), t)
  }

  /** From the k-th firing on `t` neither fires nor is started. */
  ghost predicate LeftAlone(fired: seq<Timer>, script: Script, t: Timer, k: nat) {
    forall j :: k <= j < |fired| ==> fired[j] != t && !Starts(script(fired[j], j), t)
  }

  /** How a timer comes to be listed and unmarked: it was, or it is a one-shot timer that has restarted
      itself, and nobody has started it since. */
  ghost predicate TurnsStray(p: Plan, fired: seq<Timer>, script: Script, periodic: set<Timer>, t: Timer) {
    || (Stray(p, t) && LeftAlone(fired, script, t, 0))
    || exists k: nat :: Restarts(fired, script, periodic, t, k) && LeftAlone(fired, script, t, k + 1)
  }

  lemma {:induction false} ObeyedMarks(p: Plan, cmds: seq<Cmd>, now: nat, t: Timer)
    requires t in p.active ==> t in p.due
    ensures var q := ObeyAll(p, cmds, now);
      && (t in q.active ==> t in q.due)
      && (Stray(q, t) <==> Stray(p, t) && !Starts(cmds, t))
  {
    if cmds != [] {
      var k := |cmds| - 1;
      ObeyedMarks(p, cmds[..k], now, t);
      assert forall i :: 0 <= i < k ==> cmds[..k][i] == cmds[i];
    }
  }

  /** While its own timeout function runs, a timer is listed exactly if a start came last. */
  lemma {:induction false} ObeyedSelf(p: Plan, cmds: seq<Cmd>, now: nat, t: Timer)
    requires t !in p.due
    ensures var q := ObeyAll(p, cmds, now);
      && (t in q.due <==> StartsLast(cmds, t))
      && (t in q.active <==> if LastOn(cmds, t).Some? then StartsLast(cmds, t) else t in p.active)
  {
    if cmds != [] {
      ObeyedSelf(p, cmds[..|cmds| - 1], now, t);
    }
  }

  lemma {:induction false} ObeyedTime(p: Plan, cmds: seq<Cmd>, now: nat)
    ensures p.time.Keys <= ObeyAll(p, cmds, now).time.Keys
  {
    if cmds != [] {
      ObeyedTime(p, cmds[..|cmds| - 1], now);
    }
  }

  lemma FiredMarks(p: Plan, u: Timer, cmds: seq<Cmd>, periodic: bool, now: nat, t: Timer)
    requires (t in p.active ==> t in p.due) && u in p.time
    ensures var q := AfterFiring(p, u, cmds, periodic, now);
      && (t in q.active ==> t in q.due)
      && (Stray(q, t) <==> if u == t then !periodic && StartsLast(cmds, t) else Stray(p, t) && !Starts(cmds, t))
  {
    hide Starts, LastOn;
    var p1 := p.(due := p.due - {u});
    ObeyedTime(p1, cmds, now);
    if u == t {
      ObeyedSelf(p1, cmds, now, t);
    } else {
      ObeyedMarks(p1, cmds, now, t);
    }
  }

  /** Which timers are listed and unmarked after a check: exactly those that turn so. The others are marked
      just if they are listed. */
  lemma {:induction false} StrayExact(p: Plan, fired: seq<Timer>, script: Script, periodic: set<Timer>, now: nat,
                                      t: Timer)
    requires (t in p.active ==> t in p.due) && forall k :: 0 <= k < |fired| ==> fired[k] in p.time
    ensures var q := AfterAll(p, fired, script, periodic, now);
      && (t in q.active ==> t in q.due) && p.time.Keys <= q.time.Keys
      && (Stray(q, t) <==> TurnsStray(p, fired, script, periodic, t))
  {
    hide AfterFiring, StartsLast, Starts;
    if fired != [] {
      var k := |fired| - 1;
      var q := AfterAll(p, fired[..k], script, periodic, now);
      StrayExact(p, fired[..k], script, periodic, now, t);
      FiredMarks(q, fired[k], script(fired[k], k), fired[k] in periodic, now, t);
      FiredTime(q, fired[k], script(fired[k], k), fired[k] in periodic, now);
      TurnsNext(p, fired, script, periodic, t);
    }
  }

  lemma FiredTime(p: Plan, u: Timer, cmds: seq<Cmd>, periodic: bool, now: nat)
    ensures p.time.Keys <= AfterFiring(p, u, cmds, periodic, now).time.Keys
  {
    ObeyedTime(p.(due := p.due - {u}), cmds, now);
  }

  lemma TurnsNext(p: Plan, fired: seq<Timer>, script: Script, periodic: set<Timer>, t: Timer)
    requires fired != []
    ensures var k := |fired| - 1;
      TurnsStray(p, fired, script, periodic, t) <==>
      if fired[k] == t then t !in periodic && StartsLast(script(t, k), t)
      else TurnsStray(p, fired[..k], script, periodic, t) && !Starts(script(fired[k], k), t)
  {
    hide StartsLast, Starts;
    var n := |fired| - 1;
    var f := fired[..n];
    assert forall j: nat :: j <= n ==>
        (LeftAlone(fired, script, t, j) <==>
            LeftAlone(f, script, t, j) && fired[n] != t && !Starts(script(fired[n], n), t));
    assert LeftAlone(fired, script, t, n + 1);
    assert forall j: nat :: j < n ==>
        (Restarts(fired, script, periodic, t, j) <==> Restarts(f, script, periodic, t, j));
    if fired[n] == t && t !in periodic && StartsLast(script(t, n), t) {
      assert Restarts(fired, script, periodic, t, n);
    }
    if TurnsStray(p, f, script, periodic, t) && fired[n] != t && !Starts(script(fired[n], n), t) && !Stray(p, t) {
      var j: nat :| Restarts(f, script, periodic, t, j) && LeftAlone(f, script, t, j + 1);
      assert Restarts(fired, script, periodic, t, j) && LeftAlone(fired, script, t, j + 1);
    }
  }
}

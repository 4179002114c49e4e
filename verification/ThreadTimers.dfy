/** Thread timers live in the same skip list as all other timers. The plain list of active thread
    timers that the thread model keeps is what the skip list holds of them, in its order. */
module ThreadTimers {
  import opened TimerOrder
  import opened TimerRows
  import opened WaitQueue
  import opened ThreadStates
  import opened ThreadSteps
  import opened ThreadRuns
  import V = TimerViews
  import P = TimerPlans

  /** `threads` are the timers that belong to threads. They are marked just when they are listed. */
  ghost predicate Shows(v: V.View, threads: set<Timer>, s: State) {
    && s.now == v.now && threads <= v.timers && threads <= s.threads.Keys
    && v.active * threads == v.Linked() * threads
    && Ordered(s.armed, v.keys) && Elems(s.armed) == v.Linked() * threads
    && (forall t :: t in s.armed ==> t in s.keys && s.keys[t].deadline == v.keys[t].deadline)
  }

  /** Same deadlines, same place. */
  lemma {:induction false} SameDue(a: seq<Timer>, keys: Keys, keys2: Keys, d: nat)
    requires forall t :: t in a ==> t in keys && t in keys2 && keys[t].deadline == keys2[t].deadline
    ensures Due(a, keys, d) == Due(a, keys2, d)
  {
    if a != [] {
      SameDue(a[1..], keys, keys2, d);
    }
  }

  lemma SameInsert(a: seq<Timer>, keys: Keys, keys2: Keys, d: nat, t: Timer)
    requires forall t :: t in a ==> t in keys && t in keys2 && keys[t].deadline == keys2[t].deadline
    ensures Insert(a, keys, d, t) == Insert(a, keys2, d, t)
  {
    SameDue(a, keys, keys2, d);
  }

  /** Starting a thread's timer. */
  lemma StartShows(v: V.View, threads: set<Timer>, s: State, t: Timer, ticks: nat, from: nat)
    requires Shows(v, threads, s) && t in threads && (forall x :: x in v.keys ==> v.keys[x].stamp < v.clock)
    requires v.Started(t, v.now + ticks, from).Linked() == v.Linked() + {t}
    ensures Shows(v.Started(t, v.now + ticks, from), threads, Arm(s, t, ticks))
  {
    hide Insert, Without, Ordered, V.View.Linked, Restarted;
    var d := v.now + ticks;
    var a := Without(s.armed, t);
    WithoutOrdered(s.armed, v.keys, t);
    KeysKnown(s.armed, v.keys);
    KeysKnown(a, v.keys);
    forall x | x in a ensures x in s.armed && x != t {
      assert x in Elems(a);
    }
    SameInsert(a, s.keys, v.keys, d, t);
    InsertOrdered(a, v.keys, t, Key(d, v.clock));
    var r := Insert(a, v.keys, d, t);
    forall x | x in r ensures x == t || x in s.armed {
      assert x in Elems(r);
    }
  }

  lemma KeysKnown(a: seq<Timer>, keys: Keys)
    requires Ordered(a, keys)
    ensures forall x :: x in a ==> x in keys
    ensures forall i :: 0 <= i < |a| ==> a[i] in a && a[i] in keys
  {
  }

  /** Stopping a thread's timer; rt_timer_stop does so only if it is marked. */
  lemma StopShows(v: V.View, threads: set<Timer>, s: State, t: Timer)
    requires Shows(v, threads, s) && t in threads && v.Stopped(t).Linked() == v.Linked() - {t}
    ensures Shows(if t in v.active then v.Stopped(t) else v, threads, s.(armed := Without(s.armed, t)))
  {
    hide Without, Ordered, V.View.Linked;
    WithoutOrdered(s.armed, v.keys, t);
    forall x | x in Without(s.armed, t) ensures x in s.armed {
      assert x in Elems(Without(s.armed, t));
    }
    assert t in v.active * threads <==> t in v.Linked() * threads;
    assert t in Elems(s.armed) <==> t in v.Linked() * threads;
    assert (v.active - {t}) * threads == v.active * threads - {t};
    assert (v.Linked() - {t}) * threads == v.Linked() * threads - {t};
  }

  /** Another timer is started or stopped. */
  lemma OtherShows(v: V.View, threads: set<Timer>, s: State, t: Timer, d: nat, from: nat)
    requires Shows(v, threads, s) && t !in threads
    ensures v.Started(t, d, from).Linked() == v.Linked() + {t} ==> Shows(v.Started(t, d, from), threads, s)
    ensures v.Stopped(t).Linked() == v.Linked() - {t} ==> Shows(v.Stopped(t), threads, s)
  {
    hide Ordered, V.View.Linked, Restarted;
    assert t !in s.armed by {
      assert t !in Elems(s.armed);
    }
    OrderedRekey(s.armed, v.keys, t, Key(d, v.clock));
    assert (v.active - {t}) * threads == v.active * threads == (v.active + {t}) * threads;
    assert (v.Linked() - {t}) * threads == v.Linked() * threads == (v.Linked() + {t}) * threads;
  }

  /** The members of `threads`, in the order of the list. */
  function Mine(list: seq<Timer>, threads: set<Timer>): seq<Timer> {
    if list == [] then [] else (if list[0] in threads then [list[0]] else []) + Mine(list[1..], threads)
  }

  lemma {:induction false} MineOrdered(list: seq<Timer>, threads: set<Timer>, keys: Keys)
    requires Ordered(list, keys)
    ensures Ordered(Mine(list, threads), keys) && Elems(Mine(list, threads)) == Elems(list) * threads
  {
    if list != [] {
      var m := Mine(list[1..], threads);
      TailElems(list, keys);
      MineOrdered(list[1..], threads, keys);
      var r := Mine(list, threads);
      forall x | x in m ensures x in list[1..] {
        assert x in Elems(m);
      }
      if list[0] in threads {
        assert r == [list[0]] + m;
        forall i, j | 0 <= i < j < |r| ensures Before(keys[r[i]], keys[r[j]]) {
          assert r[j] == m[j - 1] && m[j - 1] in list[1..];
          if i == 0 {
            var k :| 0 <= k < |list[1..]| && list[1..][k] == m[j - 1];
            assert list[k + 1] == m[j - 1];
          }
        }
        assert Elems(r) == {list[0]} + Elems(m);
      } else {
        assert r == m;
      }
      assert Elems(list) == {list[0]} + Elems(list[1..]);
    }
  }

  /** What is due of an ordered list is its front. */
  lemma DueFront(a: seq<Timer>, keys: Keys, d: nat)
    requires Ordered(a, keys)
    ensures Ordered(a[..Due(a, keys, d)], keys)
    ensures Elems(a[..Due(a, keys, d)]) == set t | t in a && t in keys && keys[t].deadline <= d
  {
    hide Due;
    var n := Due(a, keys, d);
    forall t | t in a && t in keys && keys[t].deadline <= d ensures t in a[..n] {
      var k :| 0 <= k < |a| && a[k] == t;
      DueAt(a, keys, d, k);
      assert a[..n][k] == t;
    }
  }

  // What the timeout functions do to threads

  /** A timeout function may resume threads, which stops their timers, but starts no thread's timer, and
      rt_thread_timeout, the function of the thread timers, deals with none. */
  ghost predicate ResumesOnly(script: P.Script, threads: set<Timer>) {
    && (forall t, k :: t in threads ==> script(t, k) == [])
    && (forall t, k, i :: 0 <= i < |script(t, k)| && script(t, k)[i].timer in threads ==> script(t, k)[i].StopCmd?)
  }

  /** The resumes among the commands of a timeout function. */
  function Resumed(wide: bool, s: State, cmds: seq<P.Cmd>, threads: set<Timer>): State
    decreases |cmds|
  {
    if cmds == [] then s
    else
      var s1 := if cmds[0].timer in threads && cmds[0].timer in s.threads then ResumeThread(wide, s, cmds[0].timer)
          else s;
      Resumed(wide, s1, cmds[1..], threads)
  }

  /** One timer fires: a thread times out, or a timeout function resumes threads and may call rt_schedule. */
  function Fired(wide: bool, s: State, t: Timer, cmds: seq<P.Cmd>, sched: bool, threads: set<Timer>): State {
    if t in threads then if t in s.threads then TimeoutThread(wide, Disarm(s, t), t) else s
    else
      var r := Resumed(wide, s, cmds, threads);
      if sched && r.current in r.threads then Schedule(wide, r) else r
  }

  /** rt_timer_check, from the threads' side, when the timers `fired` fire, the first of them as the
      k-th. */
  function Checked(wide: bool, s: State, fired: seq<Timer>, k: nat, script: P.Script, sched: (Timer, nat) -> bool,
                   threads: set<Timer>): State
    decreases |fired|
  {
    if fired == [] then s
    else
      Checked(wide, Fired(wide, s, fired[0], script(fired[0], k), sched(fired[0], k), threads), fired[1..], k + 1,
          script, sched, threads)
  }

  ghost function Mentioned(cmds: seq<P.Cmd>): set<Timer> { set c | c in cmds :: c.timer }

  /** The timers that the timeout functions deal with. */
  ghost function AllMentioned(fired: seq<Timer>, k: nat, script: P.Script): set<Timer>
    decreases |fired|
  {
    if fired == [] then {} else Mentioned(script(fired[0], k)) + AllMentioned(fired[1..], k + 1, script)
  }

  /** Every thread timer that fires is active, and no thread is resumed before its timer fires. */
  ghost predicate Sensible(s: State, fired: seq<Timer>, k: nat, script: P.Script, threads: set<Timer>) {
    && (forall i :: 0 <= i < |fired| && fired[i] in threads ==> fired[i] in s.armed)
    && (forall i, j :: 0 <= i < j < |fired| ==> fired[i] != fired[j])
    && (forall i, j :: 0 <= i < j < |fired| && fired[j] in threads ==> fired[j] !in Mentioned(script(fired[i], k + i)))
  }

  /** The threads `late` time out, the suspended ones among `resumed` are resumed; the timers of both
      are active no more, and other threads neither wake up nor fall asleep. */
  ghost predicate Moved(s: State, r: State, late: set<Timer>, resumed: set<Timer>) {
    && r.threads.Keys == s.threads.Keys && r.keys == s.keys && r.now == s.now && r.nest == s.nest
    && (s.current in s.threads ==> r.current in r.threads)
    && (forall t :: t in r.armed <==> t in s.armed && t !in late && t !in resumed)
    && (forall t: Timer :: t in s.threads && t in late ==> Runnable(r.threads, t) && r.threads[t].error == ETIMEOUT)
    && (forall t: Timer :: t in s.threads && t !in late ==> WokenBy(s.threads[t], r.threads[t], t in resumed))
  }

  ghost predicate WokenBy(a: Thread, b: Thread, resumed: bool) {
    && b.error == a.error && (Runs(b) <==> Runs(a) || (resumed && a.stat == Suspend))
    && (!Runs(b) ==> b.stat == a.stat)
  }

  predicate Runs(r: Thread) { r.stat == Ready || r.stat == Running }

  lemma MovedTwice(s: State, s1: State, r: State, late: set<Timer>, resumed: set<Timer>, late1: set<Timer>,
                   resumed1: set<Timer>)
    requires Moved(s, s1, late, resumed) && Moved(s1, r, late1, resumed1)
    ensures Moved(s, r, late + late1, resumed + resumed1)
  {
  }

  lemma NoneMoved(s: State)
    ensures Moved(s, s, {}, {})
  {
  }

  lemma ResumeMoves(wide: bool, s: State, t: Timer)
    requires Inv(wide, s) && t in s.threads
    ensures Inv(wide, ResumeThread(wide, s, t)) && Moved(s, ResumeThread(wide, s, t), {}, {t})
  {
    hide Listed, BitsAgree, Masked, Placed, InsertThread, Without, Drop;
    ResumeOk(wide, s, t);
    NotArmed(wide, s, t);
    if s.threads[t].stat == Suspend {
      DisarmTimed(s.threads, s.armed, s.keys, s.stamp, 0, t);
      InsertRest(wide, UnlinkThread(s, t), t);
    }
  }

  lemma ScheduleMoves(wide: bool, s: State)
    requires Inv(wide, s) && s.current in s.threads
    ensures Inv(wide, Schedule(wide, s)) && Moved(s, Schedule(wide, s), {}, {})
  {
    hide Inv, Schedule;
    ScheduleOk(wide, s);
    ScheduleSame(wide, s);
  }

  lemma TimeoutMoves(wide: bool, s: State, t: Timer)
    requires Inv(wide, s) && s.current in s.threads && t in s.armed
    ensures t in s.threads
    ensures var r := TimeoutThread(wide, Disarm(s, t), t);
      Inv(wide, r) && Moved(s, r, {t}, {})
  {
    hide Listed, BitsAgree, Masked, Placed, TimeoutThread, Without;
    DisarmCore(wide, s, 0, t);
    DisarmTimed(s.threads, s.armed, s.keys, s.stamp, 0, t);
    TimeoutOk(wide, Disarm(s, t), t);
  }

  lemma {:induction false} ResumedMoves(wide: bool, s: State, cmds: seq<P.Cmd>, threads: set<Timer>)
    requires Inv(wide, s) && threads * s.threads.Keys == threads
    ensures var r := Resumed(wide, s, cmds, threads);
      Inv(wide, r) && Moved(s, r, {}, Mentioned(cmds) * threads)
    decreases |cmds|
  {
    hide Inv, ResumeThread, Moved;
    NoneMoved(s);
    if cmds != [] {
      var t := cmds[0].timer;
      var s1 := s;
      var m := {t} * threads;
      if t in threads {
        assert t in s.threads && m == {t};
        ResumeMoves(wide, s, t);
        s1 := ResumeThread(wide, s, t);
        MovedKeys(s, s1, {}, {t});
      } else {
        assert m == {};
      }
      ResumedMoves(wide, s1, cmds[1..], threads);
      MovedTwice(s, s1, Resumed(wide, s, cmds, threads), {}, m, {}, Mentioned(cmds[1..]) * threads);
      MentionedFirst(cmds);
      var none: set<Timer> := {};
      assert none + none == none && m + Mentioned(cmds[1..]) * threads == Mentioned(cmds) * threads;
    } else {
      assert Mentioned(cmds) * threads == {};
    }
  }

  lemma MentionedFirst(cmds: seq<P.Cmd>)
    requires cmds != []
    ensures Mentioned(cmds) == {cmds[0].timer} + Mentioned(cmds[1..])
  {
    assert cmds == [cmds[0]] + cmds[1..];
  }

  lemma MovedKeys(s: State, r: State, late: set<Timer>, resumed: set<Timer>)
    requires Moved(s, r, late, resumed)
    ensures r.threads.Keys == s.threads.Keys && r.keys == s.keys && r.now == s.now && r.nest == s.nest
    ensures s.current in s.threads ==> r.current in r.threads
    ensures forall t :: t in r.armed <==> t in s.armed && t !in late && t !in resumed
  {
  }

  lemma FiredMoves(wide: bool, s: State, t: Timer, cmds: seq<P.Cmd>, sched: bool, threads: set<Timer>)
    requires Inv(wide, s) && s.current in s.threads && threads <= s.threads.Keys
    requires t in threads ==> t in s.armed && cmds == []
    ensures var r := Fired(wide, s, t, cmds, sched, threads);
      && Inv(wide, r) && r.current in r.threads && r.threads.Keys == s.threads.Keys
      && Moved(s, r, {t} * threads, Mentioned(cmds) * threads)
  {
    hide Inv, TimeoutThread, Schedule, Resumed, Moved, Mentioned, Without;
    var none: set<Timer> := {};
    if t in threads {
      TimeoutMoves(wide, s, t);
      NoneMentioned();
      assert {t} * threads == {t} && none * threads == none;
      MovedKeys(s, TimeoutThread(wide, Disarm(s, t), t), {t}, {});
    } else {
      assert {t} * threads == none && threads * s.threads.Keys == threads;
      ResumedMoves(wide, s, cmds, threads);
      var r := Resumed(wide, s, cmds, threads);
      var m := Mentioned(cmds) * threads;
      MovedKeys(s, r, {}, m);
      if sched {
        ScheduleMoves(wide, r);
        MovedTwice(s, r, Schedule(wide, r), {}, m, {}, {});
        assert none + none == none && m + none == m;
        MovedKeys(s, Schedule(wide, r), {}, m);
      }
    }
  }

  lemma NoneMentioned()
    ensures Mentioned([]) == {}
  {
  }

  /** A check that finds the thread timers it fires active: exactly those threads time out, and of the
      others exactly the suspended ones that a timeout function resumes wake up. */
  lemma {:induction false} CheckedMoves(wide: bool, s: State, fired: seq<Timer>, k: nat, script: P.Script,
                                        sched: (Timer, nat) -> bool, threads: set<Timer>)
    requires Inv(wide, s) && s.current in s.threads && threads <= s.threads.Keys
    requires ResumesOnly(script, threads) && Sensible(s, fired, k, script, threads)
    ensures var r := Checked(wide, s, fired, k, script, sched, threads);
      && Inv(wide, r) && r.current in r.threads
      && Moved(s, r, Elems(fired) * threads, AllMentioned(fired, k, script) * threads)
    decreases |fired|
  {
    hide Inv, Fired, Moved, Mentioned;
    NoneMoved(s);
    if fired == [] {
      assert Elems(fired) * threads == {} && AllMentioned(fired, k, script) * threads == {};
    } else {
      var t, cmds := fired[0], script(fired[0], k);
      FiredMoves(wide, s, t, cmds, sched(t, k), threads);
      var s1 := Fired(wide, s, t, cmds, sched(t, k), threads);
      MovedKeys(s, s1, {t} * threads, Mentioned(cmds) * threads);
      SensibleRest(s, s1, fired, k, script, threads);
      CheckedMoves(wide, s1, fired[1..], k + 1, script, sched, threads);
      var r := Checked(wide, s, fired, k, script, sched, threads);
      MovedTwice(s, s1, r, {t} * threads, Mentioned(cmds) * threads, Elems(fired[1..]) * threads,
          AllMentioned(fired[1..], k + 1, script) * threads);
      assert fired == [t] + fired[1..];
      assert {t} * threads + Elems(fired[1..]) * threads == Elems(fired) * threads;
      assert Mentioned(cmds) * threads + AllMentioned(fired[1..], k + 1, script) * threads ==
             AllMentioned(fired, k, script) * threads;
    }
  }

  lemma SensibleRest(s: State, s1: State, fired: seq<Timer>, k: nat, script: P.Script, threads: set<Timer>)
    requires fired != [] && Sensible(s, fired, k, script, threads)
    requires forall t :: t in s.armed && t !in {fired[0]} * threads && t !in Mentioned(script(fired[0], k)) * threads
               ==> t in s1.armed
    ensures Sensible(s1, fired[1..], k + 1, script, threads)
  {
    hide Mentioned;
    var f := fired[1..];
    forall i | 0 <= i < |f| && f[i] in threads ensures f[i] in s1.armed {
      assert f[i] == fired[i + 1] && fired[0] != fired[i + 1];
      assert fired[i + 1] !in Mentioned(script(fired[0], k + 0));
    }
    forall i, j | 0 <= i < j < |f| && f[j] in threads ensures f[j] !in Mentioned(script(f[i], k + 1 + i)) {
      assert f[j] == fired[j + 1] && f[i] == fired[i + 1];
      assert fired[j + 1] !in Mentioned(script(fired[i + 1], k + (i + 1)));
    }
  }

  // What the skip list makes of it

  lemma {:induction false} MentionedMore(fired: seq<Timer>, k: nat, script: P.Script, u: Timer)
    ensures AllMentioned(fired + [u], k, script) == AllMentioned(fired, k, script) + Mentioned(script(u, k + |fired|))
    decreases |fired|
  {
    hide Mentioned;
    if fired == [] {
      assert fired + [u] == [u] && [u][1..] == [];
    } else {
      assert (fired + [u])[1..] == fired[1..] + [u];
      MentionedMore(fired[1..], k + 1, script, u);
    }
  }

  lemma MentionedLast(fired: seq<Timer>, script: P.Script)
    requires fired != []
    ensures var n := |fired| - 1;
      AllMentioned(fired, 0, script) == AllMentioned(fired[..n], 0, script) + Mentioned(script(fired[n], n))
  {
    hide Mentioned, AllMentioned;
    var n := |fired| - 1;
    assert fired == fired[..n] + [fired[n]];
    MentionedMore(fired[..n], 0, script, fired[n]);
  }

  lemma {:induction false} AffectedMentioned(fired: seq<Timer>, script: P.Script, marked: set<Timer>, t: Timer)
    requires t in P.Affected(fired, script, marked)
    ensures t in fired || t in AllMentioned(fired, 0, script)
  {
    if fired != [] {
      var n := |fired| - 1;
      MentionedLast(fired, script);
      assert fired == fired[..n] + [fired[n]];
      if t in P.Affected(fired[..n], script, marked) {
        AffectedMentioned(fired[..n], script, marked, t);
      }
    }
  }

  /** Commands that stop a timer, if they deal with it at all. */
  lemma {:induction false} ObeyStops(p: P.Plan, cmds: seq<P.Cmd>, now: nat, t: Timer)
    requires (t in p.active <==> t in p.due) && forall i :: 0 <= i < |cmds| && cmds[i].timer == t ==> cmds[i].StopCmd?
    ensures var q := P.ObeyAll(p, cmds, now);
      && (t in q.active <==> t in q.due)
      && (t in q.due <==> t in p.due && t !in Mentioned(cmds))
  {
    hide Mentioned;
    if cmds == [] {
      NoneMentioned();
    } else {
      var k := |cmds| - 1;
      assert forall i :: 0 <= i < k ==> cmds[..k][i] == cmds[i];
      ObeyStops(p, cmds[..k], now, t);
      MentionedEnd(cmds);
    }
  }

  lemma MentionedEnd(cmds: seq<P.Cmd>)
    requires cmds != []
    ensures Mentioned(cmds) == Mentioned(cmds[..|cmds| - 1]) + {cmds[|cmds| - 1].timer}
  {
    assert cmds == cmds[..|cmds| - 1] + [cmds[|cmds| - 1]];
  }

  /** A one-shot timer that nobody starts is due after the check, and marked, just if it was due, did
      not fire and was not stopped. */
  lemma {:induction false} StaysDue(p: P.Plan, fired: seq<Timer>, script: P.Script, periodic: set<Timer>, now: nat,
                                    threads: set<Timer>, t: Timer)
    requires ResumesOnly(script, threads) && t in threads && t !in periodic && (t in p.active <==> t in p.due)
    ensures var q := P.AfterAll(p, fired, script, periodic, now);
      && (t in q.active <==> t in q.due)
      && (t in q.due <==> t in p.due && t !in fired && t !in AllMentioned(fired, 0, script))
  {
    hide AllMentioned, Mentioned;
    if fired == [] {
      NoneEver(script);
    } else {
      var n := |fired| - 1;
      StaysDue(p, fired[..n], script, periodic, now, threads, t);
      assert fired == fired[..n] + [fired[n]];
      MentionedLast(fired, script);
      var q := P.AfterAll(p, fired[..n], script, periodic, now);
      FiredOther(q, fired[n], script(fired[n], n), fired[n] in periodic, now, t);
    }
  }

  lemma NoneEver(script: P.Script)
    ensures AllMentioned([], 0, script) == {}
  {
  }

  lemma FiredOther(p: P.Plan, u: Timer, cmds: seq<P.Cmd>, periodic: bool, now: nat, t: Timer)
    requires (t in p.active <==> t in p.due) && (u == t ==> cmds == [] && !periodic)
    requires forall i :: 0 <= i < |cmds| && cmds[i].timer == t ==> cmds[i].StopCmd?
    ensures var q := P.AfterFiring(p, u, cmds, periodic, now);
      && (t in q.active <==> t in q.due)
      && (t in q.due <==> t in p.due && u != t && t !in Mentioned(cmds))
  {
    hide Mentioned;
    if u != t {
      ObeyStops(P.Unlisted(p, u), cmds, now, t);
    }
  }

  /** What TimerWheel.Tick promises of one tick, with `v` before it and `v2` after it. */
  ghost predicate TickedTo(v: V.View, v2: V.View, late: nat, fired: seq<Timer>, script: P.Script,
                           time: map<Timer, nat>, time2: map<Timer, nat>, periodic: set<Timer>) {
    && V.Housed(v) && V.Housed(v2) && v2.now == v.now + 1
    && P.FiredExactly(fired, script, v.keys, v.active, V.DueNow(v.(now := v.now + 1)))
    && V.Disturbed(v.(now := v.now + 1), v2, P.Affected(fired, script, v.active), late)
    && P.PlanOf(v2, time2) == P.AfterAll(P.PlanOf(v, time), fired, script, periodic, v2.now)
  }

  /** When the skip list is checked after a tick, the thread timers that fire are those the plain list has
      due, in its order, but for those whose threads a timeout function has resumed before. */
  lemma FiredSame(v: V.View, threads: set<Timer>, s: State, fired: seq<Timer>, script: P.Script)
    requires Shows(v, threads, s)
    requires P.FiredExactly(fired, script, v.keys, v.active, V.DueNow(v.(now := v.now + 1)))
    ensures var front := s.armed[..Due(s.armed, s.keys, s.now + 1)];
      && Mine(fired, threads) == Mine(front, Elems(fired))
      && forall t :: t in front ==> (t in fired <==> !P.Skipped(fired, script, v.keys, v.active, t))
  {
    hide Ordered, Due, V.View.Linked, Mine, P.Skipped;
    var v1 := v.(now := v.now + 1);
    var front := s.armed[..Due(s.armed, s.keys, s.now + 1)];
    V.LinkedAnyTime(v, v.now + 1);
    KeysKnown(s.armed, v.keys);
    SameDue(s.armed, s.keys, v.keys, v.now + 1);
    DueFront(s.armed, v.keys, v.now + 1);
    MineOrdered(fired, threads, v.keys);
    MineOrdered(front, Elems(fired), v.keys);
    forall t ensures t in Elems(fired) * threads <==> t in Elems(front) * Elems(fired) {
      assert t in Elems(s.armed) <==> t in v.Linked() * threads;
      assert t in fired ==> t in V.DueNow(v1);
    }
    forall t | t in front ensures t in V.DueNow(v1) {
      assert t in Elems(front);
      assert t in Elems(s.armed) <==> t in v.Linked() * threads;
    }
    OrderUnique(Mine(fired, threads), Mine(front, Elems(fired)), v.keys);
  }

  lemma SensibleFired(v: V.View, threads: set<Timer>, s: State, fired: seq<Timer>, script: P.Script)
    requires Shows(v, threads, s)
    requires P.FiredExactly(fired, script, v.keys, v.active, V.DueNow(v.(now := v.now + 1)))
    ensures Sensible(s, fired, 0, script, threads)
  {
    hide V.View.Linked, P.Touches;
    V.LinkedAnyTime(v, v.now + 1);
    forall i | 0 <= i < |fired| && fired[i] in threads ensures fired[i] in s.armed && fired[i] in v.active {
      assert fired[i] in v.Linked() * threads && fired[i] in Elems(s.armed);
    }
    forall i, j | 0 <= i < j < |fired| && fired[j] in threads ensures fired[j] !in Mentioned(script(fired[i], 0 + i)) {
      if fired[j] in Mentioned(script(fired[i], 0 + i)) {
        MentionedSkips(fired, script, v.keys, v.active, i, j);
      }
    }
  }

  lemma MentionedSkips(fired: seq<Timer>, script: P.Script, keys: Keys, marked: set<Timer>, i: nat, j: nat)
    requires Ordered(fired, keys) && i < j < |fired| && fired[j] in marked
    requires fired[j] in Mentioned(script(fired[i], i))
    ensures P.Skipped(fired, script, keys, marked, fired[j])
  {
    assert fired[j] in P.Touches(script(fired[i], i), marked);
  }

  /** Two orders of the same list, taken over to a part of it. */
  lemma SameOrder(a: seq<Timer>, r: seq<Timer>, keys: Keys, other: Keys, other2: Keys)
    requires Ordered(a, keys) && Ordered(a, other) && Ordered(r, keys) && forall t :: t in r ==> t in a
    requires forall t :: t in r ==> t in other && t in other2 && other2[t] == other[t]
    ensures Ordered(r, other2)
  {
    forall i, j | 0 <= i < j < |r| ensures Before(other2[r[i]], other2[r[j]]) {
      assert r[i] in r && r[j] in r;
      var x :| 0 <= x < |a| && a[x] == r[i];
      var y :| 0 <= y < |a| && a[y] == r[j];
      assert Before(keys[r[i]], keys[r[j]]);
    }
  }

  /** What the check leaves of the thread timers in the skip list is what the threads' side leaves active. */
  lemma CheckShows(v: V.View, v2: V.View, late: nat, threads: set<Timer>, s: State, r: State, fired: seq<Timer>,
                   script: P.Script, time: map<Timer, nat>, time2: map<Timer, nat>, periodic: set<Timer>)
    requires Shows(v, threads, s) && ResumesOnly(script, threads) && threads !! periodic
    requires TickedTo(v, v2, late, fired, script, time, time2, periodic)
    requires Ordered(s.armed, s.keys) && Ordered(r.armed, s.keys) && threads <= r.threads.Keys
    requires r.now == s.now + 1 && r.keys == s.keys
    requires forall t :: t in r.armed <==> t in s.armed && t !in Elems(fired) * threads
                                           && t !in AllMentioned(fired, 0, script) * threads
    ensures Shows(v2, threads, r)
  {
    hide V.View.Linked, P.AfterAll, P.Affected, V.DueNow, P.FiredExactly, P.PlanOf, AllMentioned, V.Ahead;
    P.PlanDue(v, time);
    P.PlanDue(v2, time2);
    P.PlanTime(v, time);
    P.PlanTime(v2, time2);
    V.LinkedAnyTime(v, v.now + 1);
    forall t | t in threads
      ensures t in v2.Linked() <==> t in r.armed
      ensures t in v2.active <==> t in v2.Linked()
      ensures t in r.armed ==> v2.keys[t] == v.keys[t]
    {
      assert t in v.active * threads <==> t in v.Linked() * threads;
      assert t in Elems(s.armed) <==> t in v.Linked() * threads;
      StaysDue(P.PlanOf(v, time), fired, script, periodic, v2.now, threads, t);
      if t in P.Affected(fired, script, v.active) {
        AffectedMentioned(fired, script, v.active, t);
      }
    }
    forall t | t in r.armed ensures t in threads && t in s.armed {
      assert t in Elems(s.armed);
    }
    SameOrder(s.armed, r.armed, s.keys, v.keys, v2.keys);
  }

  /** The tick of the thread model and the tick of the skip list, with timeout functions that resume
      threads as they like: after both, the skip list still shows the active thread timers. Exactly the
      threads whose timers fired have timed out, and of the others exactly the suspended ones that a
      timeout function resumed have woken up. */
  lemma TickRefines(wide: bool, v: V.View, v2: V.View, late: nat, threads: set<Timer>, s: State, fired: seq<Timer>,
                    script: P.Script, sched: (Timer, nat) -> bool, time: map<Timer, nat>, time2: map<Timer, nat>,
                    periodic: set<Timer>)
    requires Inv(wide, s) && s.current in s.threads
    requires Shows(v, threads, s) && ResumesOnly(script, threads) && threads !! periodic
    requires TickedTo(v, v2, late, fired, script, time, time2, periodic)
    ensures var r := Checked(wide, Sliced(wide, s), fired, 0, script, sched, threads);
      && Inv(wide, r) && r.current in r.threads && Shows(v2, threads, r)
      && Moved(s.(now := s.now + 1), r, Elems(fired) * threads, AllMentioned(fired, 0, script) * threads)
  {
    hide Inv, Shows, Moved, Sensible, ResumesOnly, TickedTo, Sliced, Checked, AllMentioned;
    SlicedMoves(wide, s);
    var s1 := Sliced(wide, s);
    TickSensible(v, v2, late, threads, s, s1, fired, script, time, time2, periodic);
    CheckedMoves(wide, s1, fired, 0, script, sched, threads);
    var r := Checked(wide, s1, fired, 0, script, sched, threads);
    var l, m := Elems(fired) * threads, AllMentioned(fired, 0, script) * threads;
    MovedTwice(s.(now := s.now + 1), s1, r, {}, {}, l, m);
    var none: set<Timer> := {};
    assert none + l == l && none + m == m;
    MovedKeys(s.(now := s.now + 1), r, l, m);
    ArmedOrdered(wide, s);
    ArmedOrdered(wide, r);
    CheckShows(v, v2, late, threads, s, r, fired, script, time, time2, periodic);
  }

  lemma ArmedOrdered(wide: bool, s: State)
    requires Inv(wide, s)
    ensures Ordered(s.armed, s.keys)
  {
    hide Listed, Placed, BitsAgree, Masked;
  }

  lemma SlicedMoves(wide: bool, s: State)
    requires Inv(wide, s) && s.current in s.threads
    ensures var r := Sliced(wide, s);
      && Inv(wide, r) && r.current in r.threads && r.armed == s.armed && r.threads.Keys == s.threads.Keys
      && Moved(s.(now := s.now + 1), r, {}, {})
  {
    hide Inv, Sliced;
    SlicedOk(wide, s);
  }

  lemma TickSensible(v: V.View, v2: V.View, late: nat, threads: set<Timer>, s: State, s1: State, fired: seq<Timer>,
                     script: P.Script, time: map<Timer, nat>, time2: map<Timer, nat>, periodic: set<Timer>)
    requires Shows(v, threads, s) && TickedTo(v, v2, late, fired, script, time, time2, periodic)
    requires s1.armed == s.armed && s1.threads.Keys == s.threads.Keys
    ensures threads <= s1.threads.Keys && Sensible(s1, fired, 0, script, threads)
  {
    hide P.FiredExactly, V.View.Linked, Mentioned, Ordered;
    SensibleFired(v, threads, s, fired, script);
  }

  lemma {:induction false} ResumesNone(wide: bool, s: State, cmds: seq<P.Cmd>, threads: set<Timer>)
    requires Mentioned(cmds) * threads == {}
    ensures Resumed(wide, s, cmds, threads) == s
    decreases |cmds|
  {
    if cmds != [] {
      assert cmds[0].timer in threads <==> cmds[0].timer in Mentioned(cmds) * threads;
      MentionedFirst(cmds);
      assert Mentioned(cmds[1..]) * threads <= Mentioned(cmds) * threads;
      ResumesNone(wide, s, cmds[1..], threads);
    }
  }

  lemma {:induction false} AloneChecks(wide: bool, s: State, fired: seq<Timer>, k: nat, script: P.Script,
                                       sched: (Timer, nat) -> bool, threads: set<Timer>)
    requires Inv(wide, s) && s.current in s.threads
    requires AllMentioned(fired, k, script) * threads == {} && forall t, i :: !sched(t, i)
    requires Mine(fired, threads) == s.armed[..Due(s.armed, s.keys, s.now)]
    ensures Checked(wide, s, fired, k, script, sched, threads) == FireDue(wide, s)
    decreases |fired|
  {
    hide Inv, TimeoutThread, Resumed, Mine, Due, FireDue, Mentioned;
    if fired == [] {
      NoneDue(wide, s, threads);
    } else {
      var t, cmds := fired[0], script(fired[0], k);
      assert AllMentioned(fired, k, script) * threads ==
             Mentioned(cmds) * threads + AllMentioned(fired[1..], k + 1, script) * threads;
      if t in threads {
        HeadDue(wide, s, fired, threads);
        DueThread(wide, s);
        AloneChecks(wide, TimeoutThread(wide, s.(armed := s.armed[1..]), t), fired[1..], k + 1, script, sched, threads);
      } else {
        MineRest(fired, threads);
        ResumesNone(wide, s, cmds, threads);
        AloneChecks(wide, s, fired[1..], k + 1, script, sched, threads);
      }
    }
  }

  lemma NoneDue(wide: bool, s: State, threads: set<Timer>)
    requires Inv(wide, s) && s.current in s.threads && Mine([], threads) == s.armed[..Due(s.armed, s.keys, s.now)]
    ensures FireDue(wide, s) == s
  {
    hide Inv, TimeoutThread;
    assert |s.armed[..Due(s.armed, s.keys, s.now)]| == Due(s.armed, s.keys, s.now);
    if s.armed != [] {
      DueThread(wide, s);
    }
  }

  lemma MineRest(fired: seq<Timer>, threads: set<Timer>)
    requires fired != []
    ensures Mine(fired, threads) == (if fired[0] in threads then [fired[0]] else []) + Mine(fired[1..], threads)
    ensures fired[0] !in threads ==> Mine(fired, threads) == Mine(fired[1..], threads)
  {
    var none: seq<Timer> := [];
    assert none + Mine(fired[1..], threads) == Mine(fired[1..], threads);
  }

  lemma HeadDue(wide: bool, s: State, fired: seq<Timer>, threads: set<Timer>)
    requires Inv(wide, s) && s.current in s.threads && fired != [] && fired[0] in threads
    requires Mine(fired, threads) == s.armed[..Due(s.armed, s.keys, s.now)]
    ensures s.armed != [] && s.armed[0] == fired[0] && s.armed[0] in s.threads
    ensures Mine(fired[1..], threads) == s.armed[1..][..Due(s.armed[1..], s.keys, s.now)]
    ensures Disarm(s, fired[0]) == s.(armed := s.armed[1..])
    ensures Inv(wide, TimeoutThread(wide, s.(armed := s.armed[1..]), fired[0]))
    ensures TimeoutThread(wide, s.(armed := s.armed[1..]), fired[0]).current in
              TimeoutThread(wide, s.(armed := s.armed[1..]), fired[0]).threads
    ensures FireDue(wide, s) == FireDue(wide, TimeoutThread(wide, s.(armed := s.armed[1..]), fired[0]))
  {
    hide Inv, TimeoutThread;
    var front := s.armed[..Due(s.armed, s.keys, s.now)];
    MineRest(fired, threads);
    assert front[0] == fired[0] && front[0] == s.armed[0];
    FiredFirst(s.armed, s.keys, s.now);
    assert front[1..] == Mine(fired[1..], threads);
    DueThread(wide, s);
  }

  /** Timeout functions that leave the threads alone: then the check is the one of the thread model's own
      tick. */
  lemma TickAlone(wide: bool, v: V.View, threads: set<Timer>, s: State, fired: seq<Timer>, script: P.Script,
                  sched: (Timer, nat) -> bool)
    requires Inv(wide, s) && s.current in s.threads && Shows(v, threads, s)
    requires P.FiredExactly(fired, script, v.keys, v.active, V.DueNow(v.(now := v.now + 1)))
    requires (forall t, k :: Mentioned(script(t, k)) * threads == {}) && forall t, k :: !sched(t, k)
    ensures Checked(wide, Sliced(wide, s), fired, 0, script, sched, threads) == Ticked(wide, s)
  {
    hide Inv, Shows, Sliced, Checked, P.FiredExactly, Mine, Due, Mentioned, P.Skipped;
    SlicedMoves(wide, s);
    SlicedOk(wide, s);
    var front := s.armed[..Due(s.armed, s.keys, s.now + 1)];
    FiredSame(v, threads, s, fired, script);
    forall t | t in front ensures t in fired {
      NotSkipped(v, threads, s, fired, script, t);
    }
    AllMine(front, Elems(fired));
    NeverMentioned(fired, 0, script, threads);
    AloneChecks(wide, Sliced(wide, s), fired, 0, script, sched, threads);
  }

  lemma NotSkipped(v: V.View, threads: set<Timer>, s: State, fired: seq<Timer>, script: P.Script, t: Timer)
    requires Shows(v, threads, s) && t in s.armed && forall t, k :: Mentioned(script(t, k)) * threads == {}
    ensures !P.Skipped(fired, script, v.keys, v.active, t)
  {
    hide V.View.Linked, Ordered;
    assert t in Elems(s.armed);
    forall k | 0 <= k < |fired| ensures t !in P.Touches(script(fired[k], k), v.active) {
      assert t !in Mentioned(script(fired[k], k)) * threads;
    }
  }

  lemma {:induction false} AllMine(list: seq<Timer>, threads: set<Timer>)
    requires forall t :: t in list ==> t in threads
    ensures Mine(list, threads) == list
  {
    if list != [] {
      assert list[0] in list;
      AllMine(list[1..], threads);
    }
  }

  lemma {:induction false} NeverMentioned(fired: seq<Timer>, k: nat, script: P.Script, threads: set<Timer>)
    requires forall t, k :: Mentioned(script(t, k)) * threads == {}
    ensures AllMentioned(fired, k, script) * threads == {}
    decreases |fired|
  {
    hide Mentioned;
    if fired != [] {
      NeverMentioned(fired[1..], k + 1, script, threads);
      assert Mentioned(script(fired[0], k)) * threads == {};
    }
  }
}

/** Runs of the kernel in which other threads and interrupt handlers may act between the test and
    the two locked regions of rt_thread_resume: exactly which of them keep the invariant. */
module ThreadGaps {
  import opened ReadyBitmap
  import opened TimerOrder
  import opened WaitQueue
  import opened ThreadStates
  import opened ThreadSteps
  import opened ThreadRuns
  import opened ThreadRegions

  /** The kernel with the program counters of the calls of rt_thread_resume under way: those that
      have passed the test, and those that have done the first region, by the thread they resume. */
  datatype World = World(s: State, tested: multiset<Tid>, unlinked: multiset<Tid>)

  datatype Move =
    | Whole(step: Step)          // a step that is one region
    | Prepare(t: Tid)            // rt_thread_startup before its rt_thread_resume
    | TestResume(t: Tid)         // the test of rt_thread_resume
    | UnlinkOne(t: Tid)          // its first region
    | InsertOne(t: Tid)          // its second region, rt_schedule_insert_thread
    | LateSuspend(t: Tid)        // the region of rt_thread_suspend, its test made at any time before

  ghost predicate Possible(wide: bool, w: World, mv: Move) {
    match mv
    case Whole(step) => Enabled(wide, w.s, step)
    case Prepare(t) => t in w.s.threads && w.s.threads[t].stat == Init
    case TestResume(t) => t in w.s.threads
    case UnlinkOne(t) => t in w.tested
    case InsertOne(t) => t in w.unlinked
    case LateSuspend(t) => t in w.s.threads && w.s.threads[t].stat != Init
  }

  ghost predicate Pending(w: World, t: Tid) { t in w.tested || t in w.unlinked }

  /** Only started threads are being resumed. */
  ghost predicate Begun(w: World) {
    forall t :: Pending(w, t) ==> t in w.s.threads && w.s.threads[t].stat != Init
  }

  ghost function Go(wide: bool, w: World, mv: Move): World
    requires Inv(wide, w.s) && Begun(w) && Possible(wide, w, mv)
  {
    match mv
    case Whole(step) => w.(s := Do(wide, w.s, step))
    case Prepare(t) => PrepareOk(wide, w.s, t); w.(s := PrepareThread(wide, w.s, t))
    case TestResume(t) => if w.s.threads[t].stat == Suspend then w.(tested := w.tested + multiset{t}) else w
    case UnlinkOne(t) => World(UnlinkThread(w.s, t), w.tested - multiset{t}, w.unlinked + multiset{t})
    case InsertOne(t) => assert Pending(w, t); World(InsertThread(wide, w.s, t), w.tested, w.unlinked - multiset{t})
    case LateSuspend(t) => w.(s := SuspendNow(wide, w.s, t))
  }

  // Exactly which regions keep the invariant

  /** What a region of rt_thread_resume must find: a thread that is not ready, and then one that is
      in no list with its timer off. */
  ghost predicate Guard(w: World, mv: Move) {
    match mv
    case UnlinkOne(t) => t in w.s.threads ==> w.s.threads[t].stat != Ready
    case InsertOne(t) => Off(w.s, t)
    case _ => true
  }

  lemma GoExact(wide: bool, w: World, mv: Move)
    requires Inv(wide, w.s) && Begun(w) && Possible(wide, w, mv)
    ensures Inv(wide, Go(wide, w, mv).s) <==> Guard(w, mv)
    ensures Begun(Go(wide, w, mv))
  {
    hide Inv, Do, Enabled, UnlinkThread, InsertThread, SuspendNow, PrepareThread, Off, Known;
    GoBegun(wide, w, mv);
    match mv
    case Whole(step) => StepOk(wide, w.s, step);
    case Prepare(t) => PrepareOk(wide, w.s, t);
    case TestResume(t) =>
    case UnlinkOne(t) => assert Pending(w, t); UnlinkExact(wide, w.s, t);
    case InsertOne(t) => assert Pending(w, t); InsertExact(wide, w.s, t);
    case LateSuspend(t) => SuspendNowOk(wide, w.s, t);
  }

  lemma GoBegun(wide: bool, w: World, mv: Move)
    requires Inv(wide, w.s) && Begun(w) && Possible(wide, w, mv)
    ensures Begun(Go(wide, w, mv))
  {
    hide Inv, Do, Enabled, UnlinkThread, InsertThread, SuspendNow, Wakes;
    var r := Go(wide, w, mv);
    forall t | Pending(r, t) ensures t in r.s.threads && r.s.threads[t].stat != Init {
      match mv {
        case Whole(step) => assert Pending(w, t); StepStill(wide, w.s, step, t);
        case Prepare(u) => assert Pending(w, t); PrepareOk(wide, w.s, u);
        case TestResume(u) => assert t != u ==> Pending(w, t);
        case UnlinkOne(u) => assert Pending(w, u); assert t != u ==> Pending(w, t); UnlinkRest(w.s, u);
        case InsertOne(u) => assert Pending(w, u) && Pending(w, t); InsertRest(wide, w.s, u);
        case LateSuspend(u) => assert Pending(w, t); SuspendThreads(wide, w.s, u);
      }
    }
  }

  /** The moves are possible one after the other, and the invariant holds after each. */
  ghost predicate Keeps(wide: bool, w: World, ms: seq<Move>)
    requires Inv(wide, w.s) && Begun(w)
    decreases |ms|
  {
    ms == [] ||
    (Possible(wide, w, ms[0]) && Inv(wide, Go(wide, w, ms[0]).s) &&
      (GoBegun(wide, w, ms[0]); Keeps(wide, Go(wide, w, ms[0]), ms[1..])))
  }

  /** ... and every region of an rt_thread_resume finds what it must. */
  ghost predicate Clean(wide: bool, w: World, ms: seq<Move>)
    requires Inv(wide, w.s) && Begun(w)
    decreases |ms|
  {
    ms == [] ||
    (Possible(wide, w, ms[0]) && Guard(w, ms[0]) &&
      (GoExact(wide, w, ms[0]); Clean(wide, Go(wide, w, ms[0]), ms[1..])))
  }

  ghost function Run(wide: bool, w: World, ms: seq<Move>): World
    requires Inv(wide, w.s) && Begun(w) && Keeps(wide, w, ms)
    decreases |ms|
  {
    if ms == [] then w else
      GoBegun(wide, w, ms[0]);
      Run(wide, Go(wide, w, ms[0]), ms[1..])
  }

  /** A run keeps bitmap, queues, thread states and thread timers in agreement if and only if every
      region of an rt_thread_resume finds its thread as the test and the region before it left it. */
  lemma {:induction false} RunExact(wide: bool, w: World, ms: seq<Move>)
    requires Inv(wide, w.s) && Begun(w)
    ensures Keeps(wide, w, ms) <==> Clean(wide, w, ms)
    decreases |ms|
  {
    hide Inv, Begun, Go, Possible, Guard;
    if ms != [] && Possible(wide, w, ms[0]) {
      GoExact(wide, w, ms[0]);
      if Guard(w, ms[0]) {
        RunExact(wide, Go(wide, w, ms[0]), ms[1..]);
      }
    }
  }

  // Runs in which no thread is resumed again inside the gap

  /** Every thread being resumed is so by one call only, and is as that call left it. */
  ghost predicate Sound(wide: bool, w: World) {
    && Inv(wide, w.s)
    && (forall t :: w.tested[t] + w.unlinked[t] <= 1)
    && (forall t :: t in w.tested ==> t in w.s.threads && w.s.threads[t].stat == Suspend)
    && (forall t :: t in w.unlinked ==> Idle(w.s, t))
  }

  /** The move resumes or wakes `t`, or `t` is the running thread still and goes to sleep or ends. */
  ghost predicate Again(w: World, mv: Move, t: Tid) {
    match mv
    case Whole(step) =>
      Wakes(w.s, step, t) || (t == w.s.current && (step.Exit? || (step.GoToSleep? && t in w.unlinked)))
    case TestResume(u) => u == t
    case _ => false
  }

  /** The move meets a thread that is being resumed. */
  ghost predicate Disturbs(w: World, mv: Move) { exists t :: Pending(w, t) && Again(w, mv, t) }

  /** A move that does not meet a thread being resumed leaves all of them as they are. */
  lemma UndisturbedOk(wide: bool, w: World, mv: Move)
    requires Sound(wide, w) && Begun(w) && Possible(wide, w, mv) && !Disturbs(w, mv)
    ensures Guard(w, mv) && Sound(wide, Go(wide, w, mv))
  {
    hide Inv, Go, Enabled, Off, Wakes, Do;
    SoundGuard(wide, w, mv);
    GoExact(wide, w, mv);
    CountsStay(wide, w, mv);
    var r := Go(wide, w, mv);
    forall t | t in r.tested ensures t in r.s.threads && r.s.threads[t].stat == Suspend {
      assert Pending(w, t) && Again(w, mv, t) ==> Disturbs(w, mv);
      TestedStays(wide, w, mv, t);
    }
    forall t | t in r.unlinked ensures Idle(r.s, t) {
      assert Pending(w, t) && Again(w, mv, t) ==> Disturbs(w, mv);
      UnlinkedStays(wide, w, mv, t);
    }
  }

  /** Whatever comes next finds what it must. */
  lemma SoundGuard(wide: bool, w: World, mv: Move)
    requires Sound(wide, w) && Possible(wide, w, mv)
    ensures Guard(w, mv)
  {
    hide Inv, Off, Enabled;
  }

  lemma CountsStay(wide: bool, w: World, mv: Move)
    requires Sound(wide, w) && Begun(w) && Possible(wide, w, mv) && !Disturbs(w, mv)
    ensures var r := Go(wide, w, mv); forall t :: r.tested[t] + r.unlinked[t] <= 1
  {
    hide Inv, Enabled, Idle, Do;
    if mv.TestResume? {
      assert Again(w, mv, mv.t);
      assert !Pending(w, mv.t);
    }
  }

  lemma TestedStays(wide: bool, w: World, mv: Move, t: Tid)
    requires Sound(wide, w) && Begun(w) && Possible(wide, w, mv) && t in Go(wide, w, mv).tested
    requires Pending(w, t) ==> !Again(w, mv, t)
    ensures var r := Go(wide, w, mv).s; t in r.threads && r.threads[t].stat == Suspend
  {
    hide Inv, Enabled, Idle, Do, Wakes, UnlinkThread, InsertThread, SuspendNow;
    match mv
    case Whole(step) => StepStill(wide, w.s, step, t);
    case Prepare(u) => PrepareOk(wide, w.s, u);
    case TestResume(u) =>
    case UnlinkOne(u) => UnlinkRest(w.s, u);
    case InsertOne(u) => assert Pending(w, u); assert u in w.unlinked && w.tested[u] == 0; InsertRest(wide, w.s, u);
    case LateSuspend(u) => SuspendThreads(wide, w.s, u);
  }

  lemma UnlinkedStays(wide: bool, w: World, mv: Move, t: Tid)
    requires Sound(wide, w) && Begun(w) && Possible(wide, w, mv) && t in Go(wide, w, mv).unlinked
    requires Pending(w, t) ==> !Again(w, mv, t)
    ensures Idle(Go(wide, w, mv).s, t)
  {
    hide Inv, Enabled, Do, UnlinkThread, InsertThread, SuspendNow, PrepareThread, Off;
    match mv
    case Whole(step) => StepIdle(wide, w.s, step, t);
    case Prepare(u) => PrepareOk(wide, w.s, u); PrepareIdle(wide, w.s, u, t);
    case TestResume(u) =>
    case UnlinkOne(u) => UnlinkStays(wide, w, u, t);
    case InsertOne(u) => InsertStays(wide, w, u, t);
    case LateSuspend(u) => SuspendIdle(wide, w.s, u, t);
  }

  lemma PrepareIdle(wide: bool, s: State, u: Tid, t: Tid)
    requires Idle(s, t) && u in s.threads && s.threads[u].stat == Init && Known(wide, s.threads[u].initPrio)
    ensures Idle(PrepareThread(wide, s, u), t)
  {
    hide AttrOf, Known;
  }

  lemma UnlinkIdle(wide: bool, s: State, u: Tid, t: Tid)
    requires Inv(wide, s) && t in s.threads && s.threads[t].stat == Suspend && (t == u || Off(s, t))
    ensures Idle(UnlinkThread(s, u), t)
  {
    hide Placed, BitsAgree, Masked, Timed, Drop, Without;
    DropMembers(s.threads, s.lists, u, 0);
    DisarmTimed(s.threads, s.armed, s.keys, s.stamp, 0, u);
  }

  lemma UnlinkStays(wide: bool, w: World, u: Tid, t: Tid)
    requires Sound(wide, w) && Possible(wide, w, UnlinkOne(u)) && t in Go(wide, w, UnlinkOne(u)).unlinked
    ensures Idle(Go(wide, w, UnlinkOne(u)).s, t)
  {
    hide Inv, UnlinkThread, Off;
    UnlinkIdle(wide, w.s, u, t);
  }

  lemma InsertStays(wide: bool, w: World, u: Tid, t: Tid)
    requires Sound(wide, w) && Begun(w) && Possible(wide, w, InsertOne(u)) && t in Go(wide, w, InsertOne(u)).unlinked
    ensures Idle(Go(wide, w, InsertOne(u)).s, t)
  {
    hide Inv, InsertThread, Off;
    assert Pending(w, u) && w.unlinked[u] == 1;
    InsertIdle(wide, w.s, u, t);
  }

  lemma InsertIdle(wide: bool, s: State, u: Tid, t: Tid)
    requires Idle(s, t) && u in s.threads && u != t
    ensures Idle(InsertThread(wide, s, u), t)
  {
    var r := InsertThread(wide, s, u);
    forall h ensures !Linked(r.lists, h, t) {
      assert !Linked(s.lists, h, t);
    }
  }

  lemma SuspendIdle(wide: bool, s: State, u: Tid, t: Tid)
    requires Inv(wide, s) && Idle(s, t) && u in s.threads
    ensures Idle(SuspendNow(wide, s, u), t)
  {
    hide Placed, BitsAgree, Masked, Timed, Drop, Without, Unmark;
    DropMembers(s.threads, s.lists, u, 0);
    DisarmTimed(s.threads, s.armed, s.keys, s.stamp, 0, u);
  }

  /** No move of the run meets a thread being resumed. */
  ghost predicate Undisturbed(wide: bool, w: World, ms: seq<Move>)
    requires Sound(wide, w) && Begun(w)
    decreases |ms|
  {
    ms == [] ||
    (Possible(wide, w, ms[0]) && !Disturbs(w, ms[0]) &&
      (UndisturbedOk(wide, w, ms[0]); GoBegun(wide, w, ms[0]); Undisturbed(wide, Go(wide, w, ms[0]), ms[1..])))
  }

  /** While no thread is resumed again inside the gap, all regions find what they must. */
  lemma {:induction false} UndisturbedRun(wide: bool, w: World, ms: seq<Move>)
    requires Sound(wide, w) && Begun(w) && Undisturbed(wide, w, ms)
    ensures Clean(wide, w, ms) && Keeps(wide, w, ms) && Sound(wide, Run(wide, w, ms))
    decreases |ms|
  {
    hide Inv, Begun, Go, Possible, Guard, Disturbs;
    RunExact(wide, w, ms);
    if ms != [] {
      UndisturbedOk(wide, w, ms[0]);
      GoExact(wide, w, ms[0]);
      UndisturbedRun(wide, Go(wide, w, ms[0]), ms[1..]);
    }
  }

  /** A move that meets a thread being resumed takes it out of the state the call relies on. */
  lemma DisturbedBreaks(wide: bool, w: World, mv: Move)
    requires Sound(wide, w) && Begun(w) && Possible(wide, w, mv) && Disturbs(w, mv)
    ensures !Sound(wide, Go(wide, w, mv))
  {
    hide Inv, Enabled, Do, Wakes, Off;
    var t :| Pending(w, t) && Again(w, mv, t);
    match mv
    case Whole(step) =>
      WholeIs(wide, w, step);
      if Wakes(w.s, step, t) {
        WokenUp(wide, w.s, step, t);
      } else if step.Exit? {
        ExitedNow(wide, w.s, step, t);
      } else {
        AsleepNow(wide, w.s, step, t);
      }
    case TestResume(u) =>
    case _ =>
  }

  lemma WokenUp(wide: bool, s: State, step: Step, t: Tid)
    requires Inv(wide, s) && Enabled(wide, s, step) && Wakes(s, step, t) && t in s.threads
    requires s.threads[t].stat == Suspend
    ensures t in Do(wide, s, step).threads ==> Do(wide, s, step).threads[t].stat != Suspend
  {
    hide Inv, ResumeThread, Ticked, Due;
    match step
    case ResumeOne(u) => ResumeThreads(wide, s, u);
    case WakeFirst(ipc) => ResumeThreads(wide, s, Queue(s.lists, WaitList(ipc))[0]);
    case FailFirst(ipc) =>
      var u := Queue(s.lists, WaitList(ipc))[0];
      ResumeThreads(wide, SetError(s, u, ERROR), u);
    case Tick => TickedExact(wide, s);
    case _ =>
  }

  lemma ExitedNow(wide: bool, s: State, step: Step, t: Tid)
    requires Inv(wide, s) && Enabled(wide, s, step) && step.Exit? && t == s.current
    ensures t in Do(wide, s, step).threads ==> Do(wide, s, step).threads[t].stat != Suspend
  {
    hide Inv, ExitThread;
    ExitThreads(wide, s, step.isStatic);
  }

  lemma AsleepNow(wide: bool, s: State, step: Step, t: Tid)
    requires Inv(wide, s) && Enabled(wide, s, step) && step.GoToSleep? && t == s.current
    ensures !Off(Do(wide, s, step), t)
  {
    hide Inv, Sleep;
    SleepArms(wide, s, step.ticks);
  }

  /** Every world the moves lead through is sound. */
  ghost predicate SoundAlong(wide: bool, w: World, ms: seq<Move>)
    requires Sound(wide, w) && Begun(w)
    decreases |ms|
  {
    ms == [] ||
    (Possible(wide, w, ms[0]) && Sound(wide, Go(wide, w, ms[0])) &&
      (GoBegun(wide, w, ms[0]); SoundAlong(wide, Go(wide, w, ms[0]), ms[1..])))
  }

  /** All calls of rt_thread_resume find what they rely on, throughout a run, if and only if no
      thread is resumed again inside the gap. */
  lemma {:induction false} SoundExact(wide: bool, w: World, ms: seq<Move>)
    requires Sound(wide, w) && Begun(w)
    ensures SoundAlong(wide, w, ms) <==> Undisturbed(wide, w, ms)
    decreases |ms|
  {
    hide Sound, Begun, Go, Possible, Disturbs;
    if ms != [] && Possible(wide, w, ms[0]) {
      SoundInv(wide, w);
      if Disturbs(w, ms[0]) {
        DisturbedBreaks(wide, w, ms[0]);
      } else {
        UndisturbedOk(wide, w, ms[0]);
        GoBegun(wide, w, ms[0]);
        SoundExact(wide, Go(wide, w, ms[0]), ms[1..]);
      }
    }
  }

  lemma SoundInv(wide: bool, w: World)
    requires Sound(wide, w)
    ensures Inv(wide, w.s)
  {
  }

  /** ... and if a thread other than the running one is resumed there, the very next thing that
      goes wrong is the region it interrupted: with the call unfinished, a move leaves that region
      right if and only if it is not another resume of the thread. */
  lemma GapExact(wide: bool, w: World, t: Tid, mv: Move)
    requires Sound(wide, w) && Begun(w) && t in w.unlinked && t != w.s.current
    requires Possible(wide, w, mv) && mv != InsertOne(t)
    ensures var r := Go(wide, w, mv);
      && Inv(wide, r.s) && t in r.unlinked && t in r.s.threads
      && (Inv(wide, InsertThread(wide, r.s, t)) <==> mv != Whole(ResumeOne(t)))
  {
    hide Inv, Go, Enabled, Off, Do, InsertThread;
    SoundGuard(wide, w, mv);
    GoExact(wide, w, mv);
    StillUnlinked(wide, w, t, mv);
    assert Pending(Go(wide, w, mv), t);
    InsertExact(wide, Go(wide, w, mv).s, t);
    if mv == Whole(ResumeOne(t)) {
      ResumedOn(wide, w.s, t);
      WholeIs(wide, w, ResumeOne(t));
    } else {
      GapStays(wide, w, mv, t);
    }
  }

  lemma StillUnlinked(wide: bool, w: World, t: Tid, mv: Move)
    requires Inv(wide, w.s) && Begun(w) && t in w.unlinked && Possible(wide, w, mv) && mv != InsertOne(t)
    ensures t in Go(wide, w, mv).unlinked
  {
    hide Inv, Do, Enabled;
  }

  lemma WholeIs(wide: bool, w: World, step: Step)
    requires Inv(wide, w.s) && Begun(w) && Enabled(wide, w.s, step)
    ensures Go(wide, w, Whole(step)).s == Do(wide, w.s, step)
    ensures Go(wide, w, Whole(step)) == w.(s := Do(wide, w.s, step))
    ensures step.ResumeOne? ==> Do(wide, w.s, step) == ResumeThread(wide, w.s, step.t)
  {
    hide Inv;
  }

  lemma ResumedOn(wide: bool, s: State, t: Tid)
    requires t in s.threads && s.threads[t].stat == Suspend && t != s.current
    ensures !Off(ResumeThread(wide, s, t), t)
  {
    hide Drop, Without, Mark;
    var h := ReadyList(s.threads[t].prio);
    var r := ResumeThread(wide, s, t);
    assert r.lists[h] == Queue(UnlinkThread(s, t).lists, h) + [t];
    assert Linked(r.lists, h, t);
  }

  lemma GapStays(wide: bool, w: World, mv: Move, t: Tid)
    requires Sound(wide, w) && Begun(w) && t in w.unlinked && t != w.s.current && Possible(wide, w, mv)
    requires mv != Whole(ResumeOne(t)) && mv != InsertOne(t)
    ensures Off(Go(wide, w, mv).s, t)
  {
    hide Inv, Enabled, Do, UnlinkThread, InsertThread, SuspendNow, PrepareThread, Off;
    match mv
    case Whole(step) => StepIdle(wide, w.s, step, t);
    case Prepare(u) => PrepareOk(wide, w.s, u); PrepareIdle(wide, w.s, u, t);
    case TestResume(u) =>
    case UnlinkOne(u) => assert Pending(w, u); UnlinkIdle(wide, w.s, u, t);
    case InsertOne(u) => assert Pending(w, u); InsertIdle(wide, w.s, u, t);
    case LateSuspend(u) => SuspendIdle(wide, w.s, u, t);
  }

  /** After the second region the assertion of rt_thread_timeout holds for every active thread timer
      if and only if the timer of the thread inserted is off. */
  lemma AssertExact(wide: bool, s: State, t: Tid)
    requires Inv(wide, s) && t in s.threads
    ensures var r := InsertThread(wide, s, t);
      (forall u :: u in r.armed ==> u in r.threads && r.threads[u].stat == Suspend) <==> t !in s.armed
  {
    hide Listed, Placed, BitsAgree, Masked, InsertThread;
    InsertRest(wide, s, t);
  }

  /** The kernel before its first thread starts. */
  lemma BootSound(wide: bool, s: State)
    requires Booted(wide, s)
    ensures Sound(wide, World(s, multiset{}, multiset{})) && Begun(World(s, multiset{}, multiset{}))
  {
    hide Inv, Booted;
    BootOk(wide, s);
  }

  // Old waits

  /** The move begins a wait of `t` itself. */
  ghost predicate OwnMove(s: State, mv: Move, t: Tid) { mv.Whole? && OwnWait(s, mv.step, t) }

  /** The error code of `t` behind a move that is no wait of its own. */
  ghost function ErrorMoved(s: State, mv: Move, t: Tid): int
    requires t in s.threads
  {
    if mv.Whole? then ErrorAfter(s, mv.step, t) else s.threads[t].error
  }

  /** The running thread `t` itself stores -RT_ETIMEOUT. */
  ghost predicate OwnTimeout(s: State, mv: Move, t: Tid) {
    mv == Whole(StoreError(ETIMEOUT)) && t == s.current
  }

  lemma MoveCalm(wide: bool, w: World, mv: Move, t: Tid)
    requires Inv(wide, w.s) && Begun(w) && Possible(wide, w, mv) && t in w.s.threads && t !in w.s.armed
    requires !OwnMove(w.s, mv, t)
    ensures var r := Go(wide, w, mv).s;
      t in r.threads && t !in r.armed && r.threads[t].error == ErrorMoved(w.s, mv, t)
  {
    hide Inv, Enabled, OwnWait, Do, InsertThread, Drop, Without, RemoveThread;
    match mv
    case Whole(step) => StepCalm(wide, w.s, step, t);
    case Prepare(u) => PrepareOk(wide, w.s, u);
    case TestResume(u) =>
    case UnlinkOne(u) => UnlinkRest(w.s, u); WithoutFewer(w.s.armed, u, t);
    case InsertOne(u) => assert Pending(w, u); InsertRest(wide, w.s, u);
    case LateSuspend(u) => RemoveRest(wide, w.s, u); WithoutFewer(w.s.armed, u, t);
  }

  ghost predicate NoWaitOf(wide: bool, w: World, ms: seq<Move>, t: Tid)
    requires Inv(wide, w.s) && Begun(w) && Keeps(wide, w, ms)
    decreases |ms|
  {
    ms == [] ||
    (!OwnMove(w.s, ms[0], t) && (GoBegun(wide, w, ms[0]); NoWaitOf(wide, Go(wide, w, ms[0]), ms[1..], t)))
  }

  ghost predicate StoresTimeout(wide: bool, w: World, ms: seq<Move>, t: Tid)
    requires Inv(wide, w.s) && Begun(w) && Keeps(wide, w, ms)
    decreases |ms|
  {
    ms != [] &&
    (OwnTimeout(w.s, ms[0], t) || (GoBegun(wide, w, ms[0]); StoresTimeout(wide, Go(wide, w, ms[0]), ms[1..], t)))
  }

  /** A thread whose timer is off is never timed out by an old wait: until it waits again its timer stays off
      in every run whose regions keep the invariant, and its error code becomes -RT_ETIMEOUT only if the
      thread itself stores that. No tick and no other thread does. */
  lemma {:induction false} NoOldTimeout(wide: bool, w: World, ms: seq<Move>, t: Tid)
    requires Inv(wide, w.s) && Begun(w) && t in w.s.threads && t !in w.s.armed
    requires Keeps(wide, w, ms) && NoWaitOf(wide, w, ms, t)
    ensures var r := Run(wide, w, ms).s;
      && t in r.threads && t !in r.armed
      && (r.threads[t].error == ETIMEOUT ==> w.s.threads[t].error == ETIMEOUT || StoresTimeout(wide, w, ms, t))
    decreases |ms|
  {
    hide Inv, Go, Begun, Possible, OwnMove, OwnTimeout;
    if ms != [] {
      GoBegun(wide, w, ms[0]);
      MoveCalm(wide, w, ms[0], t);
      if ErrorMoved(w.s, ms[0], t) == ETIMEOUT {
        OnlyOwnTimeout(w.s, ms[0], t);
      }
      NoOldTimeout(wide, Go(wide, w, ms[0]), ms[1..], t);
    }
  }

  lemma OnlyOwnTimeout(s: State, mv: Move, t: Tid)
    requires t in s.threads && ErrorMoved(s, mv, t) == ETIMEOUT
    ensures s.threads[t].error == ETIMEOUT || OwnTimeout(s, mv, t)
  {
  }

  // A run that fails

  /** One more move. */
  lemma {:induction false} Then(wide: bool, w: World, ms: seq<Move>, mv: Move)
    requires Inv(wide, w.s) && Begun(w) && Keeps(wide, w, ms)
    requires Inv(wide, Run(wide, w, ms).s) && Begun(Run(wide, w, ms)) && Possible(wide, Run(wide, w, ms), mv)
    requires Inv(wide, Go(wide, Run(wide, w, ms), mv).s)
    ensures Keeps(wide, w, ms + [mv]) && Run(wide, w, ms + [mv]) == Go(wide, Run(wide, w, ms), mv)
    decreases |ms|
  {
    hide Inv, Begun, Go, Possible;
    if ms == [] {
      assert ms + [mv] == [mv] && [mv][1..] == [];
    } else {
      GoBegun(wide, w, ms[0]);
      assert (ms + [mv])[1..] == ms[1..] + [mv];
      Then(wide, Go(wide, w, ms[0]), ms[1..], mv);
    }
  }

  /** `w` is reached by moves that all keep the invariant. */
  ghost predicate Reached(wide: bool, w0: World, w: World)
    requires Inv(wide, w0.s) && Begun(w0)
  {
    Inv(wide, w.s) && Begun(w) && exists ms :: Keeps(wide, w0, ms) && Run(wide, w0, ms) == w
  }

  lemma ReachedFirst(wide: bool, w: World)
    requires Inv(wide, w.s) && Begun(w)
    ensures Reached(wide, w, w)
  {
    assert Keeps(wide, w, []) && Run(wide, w, []) == w;
  }

  lemma ReachedThen(wide: bool, w0: World, w: World, mv: Move)
    requires Inv(wide, w0.s) && Begun(w0) && Reached(wide, w0, w) && Possible(wide, w, mv) && Guard(w, mv)
    ensures Reached(wide, w0, Go(wide, w, mv))
  {
    hide Inv, Begun, Go, Possible, Keeps, Run, Guard;
    var ms :| Keeps(wide, w0, ms) && Run(wide, w0, ms) == w;
    GoExact(wide, w, mv);
    Then(wide, w0, ms, mv);
    assert Keeps(wide, w0, ms + [mv]) && Run(wide, w0, ms + [mv]) == Go(wide, w, mv);
  }

  predicate MoreUrgent(p: Prio, q: Prio) { p < q }

  /** Of the threads only `a` and `t` are started; `t` is the more urgent one. */
  ghost predicate Duo(s: State, a: Tid, atA: Stat, t: Tid, atT: Stat) {
    && a != t && a in s.threads && t in s.threads && s.threads[a].stat == atA && s.threads[t].stat == atT && s.nest == 0
    && MoreUrgent(s.threads[t].initPrio, s.threads[a].initPrio)
    && (atA != Init ==> s.threads[a].prio == s.threads[a].initPrio) &&
        (atT != Init ==> s.threads[t].prio == s.threads[t].initPrio)
    && (forall u: Tid :: u in s.threads && u != a && u != t ==> s.threads[u].stat == Init)
  }

  lemma SomethingReady(wide: bool, s: State, t: Tid)
    requires Inv(wide, s) && t in s.threads && s.threads[t].stat == Ready
    ensures s.bits.group != 0
  {
    hide Inv;
    if s.bits.group == 0 {
      NothingReady(wide, s);
    }
  }

  /** rt_schedule takes the only ready thread, unless a running one is more urgent. */
  lemma OnlyReady(wide: bool, s: State, to: Tid)
    requires Inv(wide, s) && s.nest == 0 && s.current in s.threads && to in s.threads && s.threads[to].stat == Ready
    requires forall u: Tid :: u in s.threads && s.threads[u].stat == Ready ==> u == to
    requires s.threads[s.current].stat == Running ==> MoreUrgent(s.threads[to].prio, s.threads[s.current].prio)
    ensures to != s.current
    ensures Schedule(wide, s) == Switch(wide, s, to, s.threads[s.current].stat == Running)
  {
    hide Inv, Switch, Highest, HighestThread;
    SomethingReady(wide, s, to);
    HighestReady(wide, s);
  }

  /** rt_thread_startup of `u` up to the gap of its rt_thread_resume. */
  lemma BeginStart(wide: bool, w0: World, w: World, u: Tid) returns (r: World)
    requires Inv(wide, w0.s) && Begun(w0) && Reached(wide, w0, w) && u in w.s.threads && w.s.threads[u].stat == Init
    requires w.tested == multiset{} && w.unlinked == multiset{}
    ensures Reached(wide, w0, r) && Off(r.s, u) && r.tested == multiset{} && r.unlinked == multiset{u}
    ensures r.s.current == w.s.current && r.s.nest == w.s.nest && r.s.now == w.s.now
    ensures (w.s.armed == [] ==> r.s.armed == [])
    ensures u in r.s.threads && r.s.threads[u].stat == Suspend
    ensures r.s.threads[u].prio == r.s.threads[u].initPrio == w.s.threads[u].initPrio
    ensures r.s.threads == w.s.threads[u := r.s.threads[u]]
  {
    hide Inv, Begun, Keeps, Run, Off, Drop, AttrOf, Known;
    PrepareOk(wide, w.s, u);
    ReachedThen(wide, w0, w, Prepare(u));
    var w1 := Go(wide, w, Prepare(u));
    ReachedThen(wide, w0, w1, TestResume(u));
    var w2 := Go(wide, w1, TestResume(u));
    ReachedThen(wide, w0, w2, UnlinkOne(u));
    r := Go(wide, w2, UnlinkOne(u));
    UnlinkExact(wide, w2.s, u);
  }

  /** The first thread is started and launched. */
  lemma FirstRuns(wide: bool, w0: World, s: State, a: Tid, t: Tid) returns (w: World)
    requires w0 == World(s, multiset{}, multiset{}) && Inv(wide, s) && Begun(w0) && Duo(s, a, Init, t, Init)
    requires s.current == 0 && s.armed == []
    ensures Reached(wide, w0, w) && w.tested == multiset{} && w.unlinked == multiset{} && Duo(w.s, a, Running, t, Init)
    ensures w.s.current == a && w.s.armed == []
  {
    hide Inv, Begun, Keeps, Run, Off, InsertThread, MoreUrgent, RemoveThread, HighestThread;
    ReachedFirst(wide, w0);
    var w1 := BeginStart(wide, w0, w0, a);
    ReachedThen(wide, w0, w1, InsertOne(a));
    var w2 := Go(wide, w1, InsertOne(a));
    InsertRest(wide, w1.s, a);
    SomethingReady(wide, w2.s, a);
    HighestReady(wide, w2.s);
    ReachedThen(wide, w0, w2, Whole(Launch));
    w := Go(wide, w2, Whole(Launch));
    LaunchIs(wide, w2.s, a);
  }

  lemma LaunchIs(wide: bool, s: State, a: Tid)
    requires a in s.threads && HighestThread(wide, s) == a
    ensures var r := LaunchFirst(wide, s);
      r.threads == s.threads[a := s.threads[a].(stat := Running)] && r.current == a && r.armed == s.armed &&
          r.nest == s.nest
  {
    hide RemoveThread, HighestThread;
    RemoveRest(wide, s.(current := a), a);
  }

  /** rt_schedule to the only ready thread. */
  lemma SwitchReached(wide: bool, w0: World, w: World, to: Tid) returns (r: World)
    requires Inv(wide, w0.s) && Begun(w0) && Reached(wide, w0, w) && w.s.nest == 0 && w.s.current in w.s.threads
    requires to in w.s.threads && w.s.threads[to].stat == Ready
    requires forall u: Tid :: u in w.s.threads && w.s.threads[u].stat == Ready ==> u == to
    requires var c := w.s.threads[w.s.current]; c.stat == Running ==> MoreUrgent(w.s.threads[to].prio, c.prio)
    ensures Reached(wide, w0, r) && r.tested == w.tested && r.unlinked == w.unlinked && r.s.current == to
    ensures to != w.s.current
    ensures r.s.armed == w.s.armed && r.s.keys == w.s.keys && r.s.now == w.s.now && r.s.nest == 0
    ensures r.s.threads == (if w.s.threads[w.s.current].stat == Running
                            then w.s.threads[w.s.current := w.s.threads[w.s.current].(stat := Ready)] else w.s.threads)
                           [to := w.s.threads[to].(stat := Running)]
  {
    hide Inv, Begun, Keeps, Run, Schedule, Switch, MoreUrgent;
    ReachedThen(wide, w0, w, Whole(Reschedule));
    r := Go(wide, w, Whole(Reschedule));
    OnlyReady(wide, w.s, to);
    SwitchRest(wide, w.s, to, w.s.threads[w.s.current].stat == Running);
  }

  /** The handler resumes `t` while the running thread `a` is in the gap of its own resume of `t`;
      `t` takes over, goes to sleep, and `a` goes on. */
  lemma ResumedAndAsleep(wide: bool, w0: World, w: World, a: Tid, t: Tid, ticks: nat) returns (r: World)
    requires Inv(wide, w0.s) && Begun(w0) && Reached(wide, w0, w) && Duo(w.s, a, Running, t, Suspend)
    requires w.s.current == a && w.s.armed == [] && w.tested == multiset{} && w.unlinked == multiset{t}
    ensures Reached(wide, w0, r) && Duo(r.s, a, Running, t, Suspend) && r.s.current == a && r.unlinked == multiset{t}
    ensures t in r.s.armed && t in r.s.keys && r.s.keys[t].deadline == r.s.now + ticks
  {
    hide Inv, Begun, Keeps, Run, ResumeThread, Sleep, MoreUrgent;
    ReachedThen(wide, w0, w, Whole(ResumeOne(t)));
    var w1 := Go(wide, w, Whole(ResumeOne(t)));
    ResumeThreads(wide, w.s, t);
    ResumeKeeps(wide, w.s, t);
    var w2 := SwitchReached(wide, w0, w1, t);
    ReachedThen(wide, w0, w2, Whole(GoToSleep(ticks)));
    var w3 := Go(wide, w2, Whole(GoToSleep(ticks)));
    SleepThreads(wide, w2.s, ticks);
    SleepArms(wide, w2.s, ticks);
    SleepKeeps(wide, w2.s, ticks);
    r := SwitchReached(wide, w0, w3, a);
  }

  lemma ResumeKeeps(wide: bool, s: State, t: Tid)
    requires t in s.threads
    ensures var r := ResumeThread(wide, s, t);
      r.current == s.current && r.nest == s.nest && r.now == s.now && r.keys == s.keys &&
          (s.armed == [] ==> r.armed == [])
  {
    hide InsertThread, Drop;
    InsertRest(wide, UnlinkThread(s, t), t);
  }

  lemma SleepKeeps(wide: bool, s: State, ticks: nat)
    requires s.current in s.threads
    ensures var r := Sleep(wide, s, ticks); r.current == s.current && r.nest == s.nest && r.now == s.now
  {
    hide RemoveThread, Without, Insert;
    RemoveRest(wide, s, s.current);
  }

  /** From every start of the kernel with two threads, the second the more urgent: while the first
      starts the second, an interrupt handler resumes it in the gap, and it sleeps. Every region so
      far has kept the invariant, and the first thread's last one leaves a ready thread with an
      active timer, for which the assertion of rt_thread_timeout fails. */
  lemma FailingRun(wide: bool, s: State, a: Tid, t: Tid, ticks: nat) returns (w: World)
    requires Booted(wide, s) && s.nest == 0 && a != t && a in s.threads && t in s.threads
    requires MoreUrgent(s.threads[t].initPrio, s.threads[a].initPrio)
    ensures var w0 := World(s, multiset{}, multiset{});
      Inv(wide, w0.s) && Begun(w0) && Reached(wide, w0, w) && Possible(wide, w, InsertOne(t)) && !Guard(w, InsertOne(t))
    ensures var r := Go(wide, w, InsertOne(t)).s;
      && !Inv(wide, r) && t in r.armed && t in r.threads && r.threads[t].stat == Ready
      && t in r.keys && r.keys[t].deadline == r.now + ticks
  {
    hide Inv, Begun, Keeps, Run, InsertThread, MoreUrgent;
    var w0 := World(s, multiset{}, multiset{});
    BootOk(wide, s);
    BootSound(wide, s);
    var w1 := FirstRuns(wide, w0, s, a, t);
    var w2 := BeginStart(wide, w0, w1, t);
    w := ResumedAndAsleep(wide, w0, w2, a, t, ticks);
    ReachedInv(wide, w0, w);
    GoExact(wide, w, InsertOne(t));
    InsertRest(wide, w.s, t);
  }

  lemma ReachedInv(wide: bool, w0: World, w: World)
    requires Inv(wide, w0.s) && Begun(w0) && Reached(wide, w0, w)
    ensures Inv(wide, w.s) && Begun(w)
  {
    hide Inv, Begun;
  }
}

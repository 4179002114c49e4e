/** The event object of ipc.c on values: 32 flags, and threads that wait for some or all of a set. */
module EventSteps {
  import opened TimerOrder
  import opened WaitQueue

  // RT_EVENT_FLAG_AND, RT_EVENT_FLAG_OR and RT_EVENT_FLAG_CLEAR
  predicate IsAnd(option: bv8) { option & 0x01 != 0 }
  predicate IsOr(option: bv8) { option & 0x02 != 0 }
  predicate IsClear(option: bv8) { option & 0x04 != 0 }

  /** The test of rt_event_send and rt_event_recv. */
  predicate Meets(want: bv32, option: bv8, flags: bv32) {
    if IsAnd(option) then want & flags == want else IsOr(option) && want & flags != 0
  }

  /** What a receiver gets out of `flags`. */
  function Given(want: bv32, option: bv8, flags: bv32): bv32 { if IsAnd(option) then want else want & flags }

  function Removed(flags: bv32, bits: bv32): bv32 { flags & !bits }

  predicate Within(a: bv32, b: bv32) { a & b == a }

  predicate Apart(a: bv32, b: bv32) { a & b == 0 }

  /** `want` and `option` are the thread's event_set and event_info; `got` is what event_set holds
      once the thread has been woken. */
  datatype Phase = Outside | Blocked(want: bv32, option: bv8, timeout: int) | Woken(error: int, got: bv32)

  datatype Event = Event(flags: bv32, waiters: seq<Tid>, phase: map<Tid, Phase>)

  // Facts about flags

  /** Fewer flags satisfy fewer waiters. */
  lemma MeetsFewer(want: bv32, option: bv8, more: bv32, fewer: bv32)
    requires Within(fewer, more) && Meets(want, option, fewer)
    ensures Meets(want, option, more)
  {
    assert want & fewer == want & fewer & more;
  }

  lemma WithinSelf(flags: bv32)
    ensures Within(flags, flags)
  {
  }

  lemma RemovedFacts(flags: bv32, bits: bv32)
    ensures Within(Removed(flags, bits), flags) && Apart(Removed(flags, bits), bits)
  {
  }

  lemma RemovedApart(flags: bv32, bits: bv32, x: bv32)
    requires Within(x, Removed(flags, bits))
    ensures Within(x, flags) && Apart(bits, x)
  {
  }

  lemma WithinTrans(a: bv32, b: bv32, c: bv32)
    requires Within(a, b) && Within(b, c)
    ensures Within(a, c)
  {
  }

  lemma GivenWithin(want: bv32, option: bv8, flags: bv32)
    requires Meets(want, option, flags)
    ensures Within(Given(want, option, flags), flags) && Given(want, option, flags) == want & flags
    ensures Removed(flags, want) == Removed(flags, Given(want, option, flags))
  {
  }

  // What the tests and the changes mean, flag by flag

  /** `b` is one of the 32 flags. */
  predicate Single(b: bv32) { b != 0 && b & (b - 1) == 0 }

  predicate Has(flags: bv32, b: bv32) { flags & b != 0 }

  /** Two words that differ differ in a flag: the lowest bit of `a` that `b` lacks. */
  lemma Lacking(a: bv32, b: bv32) returns (f: bv32)
    requires a & b != a
    ensures Single(f) && Has(a, f) && !Has(b, f)
  {
    f := LowestOf(a & !b);
    LowestIn(a & !b);
    InBoth(a, b, f);
  }

  function LowestOf(x: bv32): bv32 { x & (0 - x) }

  lemma LowestIn(x: bv32)
    requires x != 0
    ensures Single(LowestOf(x)) && Within(LowestOf(x), x)
  {
  }

  lemma InBoth(a: bv32, b: bv32, f: bv32)
    requires f != 0 && Within(f, a & !b)
    ensures Has(a, f) && !Has(b, f)
  {
  }

  lemma NotLacking(a: bv32, b: bv32, f: bv32)
    requires a & b == a && Has(a, f)
    ensures Has(b, f)
  {
    assert a & f == a & b & f;
  }

  lemma SharedFlag(a: bv32, b: bv32) returns (f: bv32)
    requires a & b != 0
    ensures Single(f) && Has(a, f) && Has(b, f)
  {
    f := LowestOf(a & b);
    LowestIn(a & b);
    assert f & (a & b) == f;
  }

  lemma ShareFlag(a: bv32, b: bv32, f: bv32)
    requires Single(f) && Has(a, f) && Has(b, f)
    ensures a & b != 0
  {
    SingleIn(a, f);
    SingleIn(b, f);
    assert a & b & f == f;
  }

  lemma SingleIn(a: bv32, f: bv32)
    requires Single(f) && Has(a, f)
    ensures a & f == f
  {
  }

  /** Bit 0 of the option asks for all of the flags, bit 1 without bit 0 for any of them, and a
      receiver with neither is never satisfied. */
  lemma MeetsMeans(want: bv32, option: bv8, flags: bv32)
    ensures option & 0x01 == 0x01 ==>
      (Meets(want, option, flags) <==> forall b: bv32 :: Single(b) && Has(want, b) ==> Has(flags, b))
    ensures option & 0x03 == 0x02 ==>
      (Meets(want, option, flags) <==> exists b: bv32 :: Single(b) && Has(want, b) && Has(flags, b))
    ensures option & 0x03 == 0x00 ==> !Meets(want, option, flags)
  {
    hide Single, Has;
    OptionBits(option);
    if IsAnd(option) {
      if want & flags == want {
        forall b: bv32 | Single(b) && Has(want, b) ensures Has(flags, b) {
          NotLacking(want, flags, b);
        }
      } else {
        var b := Lacking(want, flags);
      }
    } else if IsOr(option) {
      if want & flags != 0 {
        var b := SharedFlag(want, flags);
      } else {
        forall b: bv32 | Single(b) && Has(want, b) ensures !Has(flags, b) {
          if Has(flags, b) {
            ShareFlag(want, flags, b);
          }
        }
      }
    }
  }

  lemma OptionBits(option: bv8)
    ensures option & 0x01 == 0x01 <==> IsAnd(option)
    ensures option & 0x03 == 0x02 <==> !IsAnd(option) && IsOr(option)
    ensures option & 0x03 == 0x00 <==> !IsAnd(option) && !IsOr(option)
    ensures option & 0x04 == 0x04 <==> IsClear(option)
  {
  }

  /** A satisfied receiver gets those of its flags that are set; taking flags away and raising flags
      change exactly these. */
  lemma FlagsMean(want: bv32, option: bv8, flags: bv32, b: bv32)
    requires Single(b)
    ensures Meets(want, option, flags) ==> (Has(Given(want, option, flags), b) <==> Has(want, b) && Has(flags, b))
    ensures Has(Removed(flags, want), b) <==> Has(flags, b) && !Has(want, b)
    ensures Has(Raised(flags, want), b) <==> Has(flags, b) || Has(want, b)
  {
    hide *;
    if Meets(want, option, flags) {
      GivenWithin(want, option, flags);
      FlagOfBoth(want, flags, b);
    }
    FlagOfRemoved(flags, want, b);
    FlagOfRaised(flags, want, b);
  }

  lemma FlagOfBoth(want: bv32, flags: bv32, b: bv32)
    requires Single(b)
    ensures Has(want & flags, b) <==> Has(want, b) && Has(flags, b)
  {
    hide *;
    if Has(want, b) && Has(flags, b) {
      SingleIn(want, b);
      SingleIn(flags, b);
      InMeet(want, flags, b);
    } else if Has(want & flags, b) {
      HasMeet(want, flags, b);
    }
  }

  lemma InMeet(a: bv32, c: bv32, b: bv32)
    requires Single(b) && a & b == b && c & b == b
    ensures Has(a & c, b)
  {
    assert (a & c) & b == b;
  }

  lemma HasMeet(a: bv32, c: bv32, b: bv32)
    requires Has(a & c, b)
    ensures Has(a, b) && Has(c, b)
  {
  }

  lemma FlagOfRemoved(flags: bv32, want: bv32, b: bv32)
    requires Single(b)
    ensures Has(Removed(flags, want), b) <==> Has(flags, b) && !Has(want, b)
  {
    hide Has, Removed;
    if Has(want, b) {
      SingleIn(want, b);
      OutOfRemoved(flags, want, b);
    } else if Has(flags, b) {
      StaysHad(flags, want, b);
    } else {
      NeverHad(flags, want, b);
    }
  }

  lemma OutOfRemoved(flags: bv32, want: bv32, b: bv32)
    requires want & b == b
    ensures !Has(Removed(flags, want), b)
  {
    assert !want & b == !want & (want & b) == 0;
  }

  lemma StaysHad(flags: bv32, want: bv32, b: bv32)
    requires Has(flags, b) && !Has(want, b)
    ensures Has(Removed(flags, want), b)
  {
    assert (flags & !want) & b == flags & (!want & b) && !want & b == b;
  }

  lemma NeverHad(flags: bv32, want: bv32, b: bv32)
    requires !Has(flags, b)
    ensures !Has(Removed(flags, want), b)
  {
  }

  lemma FlagOfRaised(flags: bv32, want: bv32, b: bv32)
    ensures Has(Raised(flags, want), b) <==> Has(flags, b) || Has(want, b)
  {
    assert (flags | want) & b == (flags & b) | (want & b);
  }


  // rt_event_send

  datatype Sent = Sent(waiters: seq<Tid>, phase: map<Tid, Phase>, flags: bv32)

  predicate Satisfied(phase: map<Tid, Phase>, t: Tid, flags: bv32) {
    t in phase && phase[t].Blocked? && Meets(phase[t].want, phase[t].option, flags)
  }

  function GivenTo(phase: map<Tid, Phase>, t: Tid, flags: bv32): bv32
    requires Satisfied(phase, t, flags)
  {
    Given(phase[t].want, phase[t].option, flags)
  }

  function FlagsAfter(phase: map<Tid, Phase>, t: Tid, flags: bv32): bv32
    requires Satisfied(phase, t, flags)
  {
    if IsClear(phase[t].option) then Removed(flags, GivenTo(phase, t, flags)) else flags
  }

  /** The fold of rt_event_send over the waiters in queue order. */
  function Offer(q: seq<Tid>, phase: map<Tid, Phase>, flags: bv32): Sent {
    if q == [] then Sent([], phase, flags)
    else if Satisfied(phase, q[0], flags) then
      Offer(q[1..], phase[q[0] := Woken(EOK, GivenTo(phase, q[0], flags))], FlagsAfter(phase, q[0], flags))
    else
      var r := Offer(q[1..], phase, flags);
      Sent([q[0]] + r.waiters, r.phase, r.flags)
  }

  function Raised(flags: bv32, bits: bv32): bv32 { flags | bits }

  function Send(e: Event, bits: bv32): Event {
    if bits == 0 then e
    else
      var r := Offer(e.waiters, e.phase, Raised(e.flags, bits));
      Event(r.flags, r.waiters, r.phase)
  }

  /** What the clearing receivers take, in order. */
  function Cleared(q: seq<Tid>, phase: map<Tid, Phase>, flags: bv32): seq<bv32> {
    if q == [] then []
    else if Satisfied(phase, q[0], flags) then
      (if IsClear(phase[q[0]].option) then [GivenTo(phase, q[0], flags)] else []) +
      Cleared(q[1..], phase[q[0] := Woken(EOK, GivenTo(phase, q[0], flags))], FlagsAfter(phase, q[0], flags))
    else Cleared(q[1..], phase, flags)
  }

  // The invariant

  ghost predicate Waiting(q: seq<Tid>, phase: map<Tid, Phase>) {
    && (forall i, j :: 0 <= i < j < |q| ==> q[i] != q[j])
    && (forall t: Tid :: t in q <==> t in phase && phase[t].Blocked?)
  }

  /** No blocked thread's condition is met by the current flags. */
  ghost predicate Unmet(q: seq<Tid>, phase: map<Tid, Phase>, flags: bv32) {
    forall t: Tid :: t in q ==> !Satisfied(phase, t, flags)
  }

  ghost predicate Inv(e: Event) { Waiting(e.waiters, e.phase) && Unmet(e.waiters, e.phase, e.flags) }

  lemma SatisfiedFewer(phase: map<Tid, Phase>, t: Tid, more: bv32, fewer: bv32)
    requires Within(fewer, more) && Satisfied(phase, t, fewer)
    ensures Satisfied(phase, t, more)
  {
    hide Meets, Within;
    MeetsFewer(phase[t].want, phase[t].option, more, fewer);
  }

  lemma UnmetFewer(q: seq<Tid>, phase: map<Tid, Phase>, more: bv32, fewer: bv32)
    requires Within(fewer, more) && Unmet(q, phase, more)
    ensures Unmet(q, phase, fewer)
  {
    hide Satisfied, Within;
    forall t: Tid | t in q && Satisfied(phase, t, fewer) ensures Satisfied(phase, t, more) {
      SatisfiedFewer(phase, t, more, fewer);
    }
  }

  lemma FlagsAfterWithin(phase: map<Tid, Phase>, t: Tid, flags: bv32)
    requires Satisfied(phase, t, flags)
    ensures t in phase && phase[t].Blocked? && Within(FlagsAfter(phase, t, flags), flags)
    ensures IsClear(phase[t].option) ==> FlagsAfter(phase, t, flags) == Removed(flags, GivenTo(phase, t, flags))
    ensures !IsClear(phase[t].option) ==> FlagsAfter(phase, t, flags) == flags
    ensures Within(GivenTo(phase, t, flags), flags)
  {
    hide Within, Removed, Meets, Given, IsClear;
    RemovedFacts(flags, GivenTo(phase, t, flags));
    WithinSelf(flags);
    GivenWithin(phase[t].want, phase[t].option, flags);
  }

  ghost predicate Queued(q: seq<Tid>, phase: map<Tid, Phase>) {
    && (forall i, j :: 0 <= i < j < |q| ==> q[i] != q[j])
    && (forall t: Tid :: t in q ==> t in phase && phase[t].Blocked?)
  }

  /** What a send leaves of the waiters `q`: those still blocked, in order, none of them satisfied. */
  ghost predicate Offered(q: seq<Tid>, phase: map<Tid, Phase>, flags: bv32, r: Sent) {
    && Within(r.flags, flags) && r.phase.Keys == phase.Keys
    && (forall i, j :: 0 <= i < j < |r.waiters| ==> r.waiters[i] != r.waiters[j])
    && (forall t: Tid :: t in r.waiters <==> t in q && t in phase && r.phase[t].Blocked?)
    && (forall t: Tid :: t in phase && (t !in q || t in r.waiters) ==> r.phase[t] == phase[t])
    && Unmet(r.waiters, r.phase, r.flags)
    && r.waiters == StillBlocked(q, r.phase)
  }

  function StillBlocked(q: seq<Tid>, phase: map<Tid, Phase>): seq<Tid> {
    if q == [] then []
    else (if q[0] in phase && phase[q[0]].Blocked? then [q[0]] else []) + StillBlocked(q[1..], phase)
  }

  lemma OfferedTaken(q: seq<Tid>, phase: map<Tid, Phase>, flags: bv32, p: Phase, f2: bv32, r: Sent)
    requires q != [] && Queued(q, phase) && Within(f2, flags) && !p.Blocked?
    requires Offered(q[1..], phase[q[0] := p], f2, r)
    ensures Offered(q, phase, flags, r)
  {
    hide Within, Unmet;
    assert q[0] in q;
    TailMembers(q);
    WithinTrans(r.flags, f2, flags);
  }

  lemma OfferedSkipped(q: seq<Tid>, phase: map<Tid, Phase>, flags: bv32, r: Sent)
    requires q != [] && Queued(q, phase) && !Satisfied(phase, q[0], flags) && Offered(q[1..], phase, flags, r)
    ensures Offered(q, phase, flags, Sent([q[0]] + r.waiters, r.phase, r.flags))
  {
    hide Within, Satisfied;
    assert q[0] in q;
    TailMembers(q);
    SameSatisfied(phase, r.phase, q[0], r.flags);
    if Satisfied(phase, q[0], r.flags) {
      SatisfiedFewer(phase, q[0], flags, r.flags);
    }
  }

  lemma {:induction false} OfferOk(q: seq<Tid>, phase: map<Tid, Phase>, flags: bv32)
    requires Queued(q, phase)
    ensures Offered(q, phase, flags, Offer(q, phase, flags))
  {
    hide Within, Satisfied, FlagsAfter, GivenTo, Offered;
    if q == [] {
      OfferedNone(phase, flags);
    } else {
      var t := q[0];
      assert t in q;
      TailMembers(q);
      if Satisfied(phase, t, flags) {
        FlagsAfterWithin(phase, t, flags);
        var f2 := FlagsAfter(phase, t, flags);
        var p := Woken(EOK, GivenTo(phase, t, flags));
        OfferOk(q[1..], phase[t := p], f2);
        OfferedTaken(q, phase, flags, p, f2, Offer(q[1..], phase[t := p], f2));
      } else {
        OfferOk(q[1..], phase, flags);
        OfferedSkipped(q, phase, flags, Offer(q[1..], phase, flags));
      }
    }
  }

  /** The flags left when the first `i` waiters have been looked at. */
  function FlagsAt(q: seq<Tid>, phase: map<Tid, Phase>, flags: bv32, i: nat): bv32
    requires i <= |q|
  {
    if i == 0 then flags
    else
      var f := FlagsAt(q, phase, flags, i - 1);
      if Satisfied(phase, q[i - 1], f) then FlagsAfter(phase, q[i - 1], f) else f
  }

  /** The waiters after the first see the flags the first leaves. */
  lemma {:induction false} FlagsFromSecond(q: seq<Tid>, phase: map<Tid, Phase>, flags: bv32, p: Phase, i: nat)
    requires Queued(q, phase) && 0 < i <= |q|
    ensures var f := if Satisfied(phase, q[0], flags) then FlagsAfter(phase, q[0], flags) else flags;
      && FlagsAt(q, phase, flags, i) == FlagsAt(q[1..], phase, f, i - 1) == FlagsAt(q[1..], phase[q[0] := p], f, i - 1)
  {
    hide Satisfied, FlagsAfter;
    if i > 1 {
      FlagsFromSecond(q, phase, flags, p, i - 1);
      assert q[1..][i - 2] == q[i - 1];
      SameTurn(phase, q[0], p, q[i - 1], FlagsAt(q, phase, flags, i - 1));
    }
  }

  lemma SameTurn(phase: map<Tid, Phase>, t: Tid, p: Phase, u: Tid, flags: bv32)
    requires t != u
    ensures Satisfied(phase[t := p], u, flags) <==> Satisfied(phase, u, flags)
    ensures Satisfied(phase, u, flags) ==> FlagsAfter(phase[t := p], u, flags) == FlagsAfter(phase, u, flags)
    ensures Satisfied(phase, u, flags) ==> GivenTo(phase[t := p], u, flags) == GivenTo(phase, u, flags)
  {
  }

  function Turn(phase: map<Tid, Phase>, t: Tid, flags: bv32): Phase
    requires t in phase
  {
    if Satisfied(phase, t, flags) then Woken(EOK, GivenTo(phase, t, flags)) else phase[t]
  }

  /** A waiter in phase `p` has had its turn when `flags` were set: if they meet its condition it is
      woken with those it asked for, and with the clear bit takes them away; otherwise it stays. */
  ghost predicate HadTurn(p: Phase, after: Phase, flags: bv32, left: bv32) {
    p.Blocked? &&
    if Meets(p.want, p.option, flags)
    then after.Woken? && after.error == EOK && Takes(p.want, p.option, flags, after.got, left)
    else after == p && left == flags
  }

  ghost predicate Takes(want: bv32, option: bv8, flags: bv32, got: bv32, left: bv32) {
    && got == want & flags
    && (option & 0x04 == 0x04 ==> left == flags & !want)
    && (option & 0x04 != 0x04 ==> left == flags)
  }

  lemma TurnDoes(phase: map<Tid, Phase>, t: Tid, flags: bv32)
    requires t in phase && phase[t].Blocked?
    ensures HadTurn(phase[t], Turn(phase, t, flags), flags,
        if Satisfied(phase, t, flags) then FlagsAfter(phase, t, flags) else flags)
  {
    hide Meets, Given, Removed, IsClear, Within, HadTurn;
    var p := phase[t];
    if Meets(p.want, p.option, flags) {
      TurnGives(p, flags);
    } else {
      TurnStays(p, flags);
    }
  }

  lemma TurnStays(p: Phase, flags: bv32)
    requires p.Blocked? && !Meets(p.want, p.option, flags)
    ensures HadTurn(p, p, flags, flags)
  {
    hide Meets;
  }

  lemma TurnGives(p: Phase, flags: bv32)
    requires p.Blocked? && Meets(p.want, p.option, flags)
    ensures var g := Given(p.want, p.option, flags);
      HadTurn(p, Woken(EOK, g), flags, if IsClear(p.option) then Removed(flags, g) else flags)
  {
    hide Meets, Given, Removed, IsClear, Takes;
    TurnTakes(p.want, p.option, flags);
  }

  lemma TurnTakes(want: bv32, option: bv8, flags: bv32)
    requires Meets(want, option, flags)
    ensures var g := Given(want, option, flags);
      Takes(want, option, flags, g, if IsClear(option) then Removed(flags, g) else flags)
  {
    hide Meets, Given, Removed, Within, IsClear;
    OptionBits(option);
    GivenWithin(want, option, flags);
    RemovedIs(flags, want);
  }

  /** Each waiter is woken exactly if the flags left at its turn meet its condition, and gets what
      they give it; what is left after the last turn are the event's flags. */
  lemma {:induction false} OfferExact(q: seq<Tid>, phase: map<Tid, Phase>, flags: bv32, i: nat)
    requires Queued(q, phase) && i <= |q|
    ensures Offer(q, phase, flags).flags == FlagsAt(q, phase, flags, |q|)
    ensures i < |q| ==> q[i] in Offer(q, phase, flags).phase && q[i] in phase
    ensures i < |q| ==> Offer(q, phase, flags).phase[q[i]] == Turn(phase, q[i], FlagsAt(q, phase, flags, i))
    ensures FlagsAt(q, phase, flags, 0) == flags
    ensures i < |q| ==> HadTurn(phase[q[i]], Offer(q, phase, flags).phase[q[i]], FlagsAt(q, phase, flags, i),
        FlagsAt(q, phase, flags, i + 1))
    decreases |q|
  {
    hide Satisfied, FlagsAfter, GivenTo, Queued, HadTurn;
    OfferKnown(q, phase, flags);
    if i < |q| {
      QueuedBlocked(q, phase, i);
      TurnDoes(phase, q[i], FlagsAt(q, phase, flags, i));
    }
    if q != [] {
      var t := q[0];
      var p := Turn(phase, t, flags);
      TailQueued(q, phase, p);
      var f := if Satisfied(phase, t, flags) then FlagsAfter(phase, t, flags) else flags;
      var j := if i == 0 then 0 else i - 1;
      SamePhase(phase, t);
      FlagsFromSecond(q, phase, flags, p, |q|);
      OfferExact(q[1..], phase[t := p], f, j);
      OfferKnown(q[1..], phase[t := p], f);
      if 0 < i < |q| {
        FlagsFromSecond(q, phase, flags, p, i);
        assert q[1..][i - 1] == q[i] && q[i] in q[1..];
        SameTurn(phase, t, p, q[i], FlagsAt(q, phase, flags, i));
      }
    }
  }

  /** An offer keeps the threads, and the phases of those that do not wait. */
  lemma OfferKnown(q: seq<Tid>, phase: map<Tid, Phase>, flags: bv32)
    requires Queued(q, phase)
    ensures Offer(q, phase, flags).phase.Keys == phase.Keys && (forall t: Tid :: t in q ==> t in phase)
    ensures forall t: Tid :: t in phase && t !in q ==> Offer(q, phase, flags).phase[t] == phase[t]
  {
    hide Within, Unmet, Offer, StillBlocked;
    OfferOk(q, phase, flags);
  }

  lemma QueuedBlocked(q: seq<Tid>, phase: map<Tid, Phase>, i: nat)
    requires Queued(q, phase) && i < |q|
    ensures q[i] in phase && phase[q[i]].Blocked?
  {
  }

  lemma TailQueued(q: seq<Tid>, phase: map<Tid, Phase>, p: Phase)
    requires Queued(q, phase) && q != []
    ensures q[0] in phase && q[0] !in q[1..] && Queued(q[1..], phase[q[0] := p])
  {
    assert q[0] in q;
    TailMembers(q);
  }

  lemma SamePhase(phase: map<Tid, Phase>, t: Tid)
    requires t in phase
    ensures phase[t := phase[t]] == phase
  {
  }

  lemma OfferedNone(phase: map<Tid, Phase>, flags: bv32)
    ensures Offered([], phase, flags, Sent([], phase, flags))
  {
    WithinSelf(flags);
  }

  lemma SameSatisfied(phase: map<Tid, Phase>, phase2: map<Tid, Phase>, t: Tid, flags: bv32)
    requires t in phase && t in phase2 && phase[t] == phase2[t]
    ensures Satisfied(phase, t, flags) == Satisfied(phase2, t, flags)
  {
  }

  lemma SendOk(e: Event, bits: bv32)
    requires Inv(e)
    ensures Inv(Send(e, bits))
  {
    hide Within, Satisfied, Offer, Unmet, Raised;
    OfferOk(e.waiters, e.phase, Raised(e.flags, bits));
  }

  /** No flag is lost: with the flags that remain, what the clearing receivers took makes up the old
      flags and the ones sent, and what they took is gone. */
  lemma {:induction false} OfferTotal(q: seq<Tid>, phase: map<Tid, Phase>, flags: bv32)
    ensures Union(AllOf(Cleared(q, phase, flags)), Offer(q, phase, flags).flags) == flags
    ensures Apart(AllOf(Cleared(q, phase, flags)), Offer(q, phase, flags).flags)
  {
    hide Within, Satisfied, FlagsAfter, GivenTo, Apart, IsClear, Removed, Union;
    if q == [] {
      EmptyShare(flags);
    } else if Satisfied(phase, q[0], flags) {
      var t := q[0];
      FlagsAfterWithin(phase, t, flags);
      var g := GivenTo(phase, t, flags);
      var f2 := FlagsAfter(phase, t, flags);
      var ph2 := phase[t := Woken(EOK, g)];
      OfferTotal(q[1..], ph2, f2);
      var d := Cleared(q[1..], ph2, f2);
      if IsClear(phase[t].option) {
        assert ([g] + d)[1..] == d;
        ShareStep(flags, g, AllOf(d), Offer(q[1..], ph2, f2).flags);
      } else {
        assert [] + d == d;
      }
    } else {
      OfferTotal(q[1..], phase, flags);
    }
  }

  ghost predicate Shared(c: seq<bv32>, flags: bv32) {
    && (forall i :: 0 <= i < |c| ==> Within(c[i], flags))
    && (forall i, j :: 0 <= i < j < |c| ==> Apart(c[i], c[j]))
  }

  /** No flag is taken twice: the clearing receivers' shares are disjoint. */
  lemma {:induction false} OfferShares(q: seq<Tid>, phase: map<Tid, Phase>, flags: bv32)
    ensures Shared(Cleared(q, phase, flags), flags)
  {
    hide Within, Satisfied, FlagsAfter, GivenTo, Apart, IsClear, Removed;
    if q == [] {
    } else if Satisfied(phase, q[0], flags) {
      var t := q[0];
      FlagsAfterWithin(phase, t, flags);
      var g := GivenTo(phase, t, flags);
      var f2 := FlagsAfter(phase, t, flags);
      var ph2 := phase[t := Woken(EOK, g)];
      OfferShares(q[1..], ph2, f2);
      var d := Cleared(q[1..], ph2, f2);
      if IsClear(phase[t].option) {
        ShareFirst(flags, g, d);
      } else {
        assert [] + d == d;
      }
    } else {
      OfferShares(q[1..], phase, flags);
    }
  }

  lemma ShareFirst(flags: bv32, g: bv32, d: seq<bv32>)
    requires Within(g, flags) && Shared(d, Removed(flags, g))
    ensures Shared([g] + d, flags)
  {
    hide Within, Apart, Removed;
    var c := [g] + d;
    forall i | 0 <= i < |d| ensures Within(d[i], flags) && Apart(g, d[i]) {
      RemovedApart(flags, g, d[i]);
    }
    assert forall i :: 0 < i < |c| ==> c[i] == d[i - 1];
  }

  function Union(a: bv32, b: bv32): bv32 { a | b }

  lemma EmptyShare(flags: bv32)
    ensures Union(0, flags) == flags && Apart(0, flags)
  {
  }

  lemma ShareStep(flags: bv32, g: bv32, rest: bv32, left: bv32)
    requires Within(g, flags) && Union(rest, left) == Removed(flags, g) && Apart(rest, left)
    ensures Union(Union(g, rest), left) == flags && Apart(Union(g, rest), left)
  {
  }

  function AllOf(s: seq<bv32>): bv32 { if s == [] then 0 else Union(s[0], AllOf(s[1..])) }

  // rt_event_recv

  /** The part of rt_event_recv up to its return or suspension. */
  function Receive(e: Event, t: Tid, want: bv32, option: bv8, timeout: int, byPrio: bool, prios: Prios, p: int): Event {
    if want == 0 then e
    else if Meets(want, option, e.flags) then
      if IsClear(option) then e.(flags := Removed(e.flags, want)) else e
    else if timeout == 0 then e
    else e.(waiters := Enqueue(e.waiters, prios, t, p, byPrio), phase := e.phase[t := Blocked(want, option, timeout)])
  }

  function Expire(e: Event, t: Tid): Event {
    e.(waiters := Without(e.waiters, t), phase := e.phase[t := Woken(ETIMEOUT, 0)])
  }

  /** rt_event_control, RT_IPC_CMD_RESET. */
  function Reset(e: Event): Event {
    Event(0, [], map t | t in e.phase :: if e.phase[t].Blocked? then Woken(ERROR, 0) else e.phase[t])
  }

  // What each operation does

  /** The flags are raised and every waiter has its turn, in queue order; those still blocked stay. */
  ghost predicate Sends(e: Event, r: Event, bits: bv32) {
    if bits == 0 then r == e else AllHadTurn(e, r, e.flags | bits)
  }

  ghost predicate AllHadTurn(e: Event, r: Event, flags: bv32) {
    && FlagsAt(e.waiters, e.phase, flags, 0) == flags
    && r.flags == FlagsAt(e.waiters, e.phase, flags, |e.waiters|)
    && r.phase.Keys == e.phase.Keys
    && (forall i :: 0 <= i < |e.waiters| ==> TurnAt(e, r, flags, i))
    && (forall t: Tid :: t in e.phase && t !in e.waiters ==> r.phase[t] == e.phase[t])
    && r.waiters == StillBlocked(e.waiters, r.phase)
  }

  ghost predicate TurnAt(e: Event, r: Event, flags: bv32, i: nat)
    requires i < |e.waiters|
  {
    var t := e.waiters[i];
    && t in e.phase && t in r.phase
    && HadTurn(e.phase[t], r.phase[t], FlagsAt(e.waiters, e.phase, flags, i),
        FlagsAt(e.waiters, e.phase, flags, i + 1))
  }

  /** The receiver has taken its flags, with the clear bit for good; or it has given up; or it waits
      in the list with what it asked for. */
  ghost predicate Receives(e: Event, r: Event, t: Tid, want: bv32, option: bv8, timeout: int, byPrio: bool,
      prios: Prios, p: int)
  {
    if want != 0 && !Meets(want, option, e.flags) && timeout != 0 then
      && r.flags == e.flags && Joined(e.waiters, r.waiters, prios, t, p, byPrio)
      && r.phase == e.phase[t := Blocked(want, option, timeout)]
    else
      && r.waiters == e.waiters && r.phase == e.phase
      && r.flags == if want != 0 && Meets(want, option, e.flags) && option & 0x04 == 0x04
                    then e.flags & !want else e.flags
  }

  ghost predicate TimedOut(e: Event, r: Event, t: Tid) {
    && r.flags == e.flags && Parted(e.waiters, r.waiters, t)
    && r.phase == e.phase[t := Woken(ETIMEOUT, 0)]
  }

  /** All waiters are told of an error and no flag is left. */
  ghost predicate Emptied(e: Event, r: Event) {
    && r.flags == 0 && r.waiters == [] && r.phase.Keys == e.phase.Keys
    && forall t: Tid :: t in e.phase ==> r.phase[t] == if t in e.waiters then Woken(ERROR, 0) else e.phase[t]
  }

  lemma SendDoes(e: Event, bits: bv32)
    requires Inv(e)
    ensures Sends(e, Send(e, bits), bits)
  {
    hide Offer, AllHadTurn, Inv, Raised;
    if bits != 0 {
      RaisedIs(e.flags, bits);
      OfferDoes(e, Raised(e.flags, bits));
    }
  }

  lemma OfferDoes(e: Event, flags: bv32)
    requires Inv(e)
    ensures var o := Offer(e.waiters, e.phase, flags); AllHadTurn(e, Event(o.flags, o.waiters, o.phase), flags)
  {
    hide Offer, HadTurn, FlagsAt, Within, Unmet, StillBlocked, Turn;
    OfferOk(e.waiters, e.phase, flags);
    OfferExact(e.waiters, e.phase, flags, |e.waiters|);
    var o := Offer(e.waiters, e.phase, flags);
    forall i | 0 <= i < |e.waiters| ensures TurnAt(e, Event(o.flags, o.waiters, o.phase), flags, i) {
      OfferExact(e.waiters, e.phase, flags, i);
    }
  }

  lemma RemovedIs(flags: bv32, bits: bv32)
    ensures Removed(flags, bits) == flags & !bits
  {
  }

  lemma RaisedIs(flags: bv32, bits: bv32)
    ensures Raised(flags, bits) == flags | bits
  {
  }

  lemma ReceiveDoes(e: Event, t: Tid, want: bv32, option: bv8, timeout: int, byPrio: bool, prios: Prios, p: int)
    ensures Receives(e, Receive(e, t, want, option, timeout, byPrio, prios, p), t, want, option, timeout, byPrio,
        prios, p)
  {
    hide Meets, Enqueue, Joined;
    OptionBits(option);
    EnqueueJoined(e.waiters, prios, t, p, byPrio);
  }

  lemma ExpireDoes(e: Event, t: Tid)
    requires Inv(e) && t in e.phase && e.phase[t].Blocked?
    ensures TimedOut(e, Expire(e, t), t)
  {
    hide Without, Parted, Unmet;
    WithoutParted(e.waiters, t);
  }

  lemma ResetDoes(e: Event)
    requires Inv(e)
    ensures Emptied(e, Reset(e))
  {
    hide Unmet;
  }

  /** What a step does, in terms of the state before it and of what the caller passed. */
  ghost predicate Does(e: Event, r: Event, s: Step, byPrio: bool, prios: Prios, p: int) {
    match s
    case SendBits(bits) => Sends(e, r, bits)
    case RecvStart(t, want, option, timeout) => Receives(e, r, t, want, option, timeout, byPrio, prios, p)
    case RecvEnd(t) => r.flags == e.flags && r.waiters == e.waiters && r.phase == e.phase[t := Outside]
    case TimeOut(t) => TimedOut(e, r, t)
    case ResetFlags => Emptied(e, r)
  }

  lemma StepDoes(e: Event, s: Step, byPrio: bool, prios: Prios, p: int)
    requires Inv(e) && Enabled(e, s)
    ensures Does(e, Do(e, s, byPrio, prios, p), s, byPrio, prios, p)
  {
    hide Inv, Send, Receive, Expire, Reset, Sends, Receives, TimedOut, Emptied, IsAnd, IsOr;
    match s
    case SendBits(bits) => SendDoes(e, bits);
    case RecvStart(t, want, option, timeout) => ReceiveDoes(e, t, want, option, timeout, byPrio, prios, p);
    case RecvEnd(t) =>
    case TimeOut(t) => ExpireDoes(e, t);
    case ResetFlags => ResetDoes(e);
  }

  datatype Step =
    | SendBits(bits: bv32)
    | RecvStart(t: Tid, want: bv32, option: bv8, timeout: int)
    | RecvEnd(t: Tid)
    | TimeOut(t: Tid)
    | ResetFlags

  ghost predicate Enabled(e: Event, s: Step) {
    match s
    case SendBits(_) => true
    case RecvStart(t, _, option, _) => t in e.phase && e.phase[t].Outside? && (IsAnd(option) || IsOr(option))
    case RecvEnd(t) => t in e.phase && e.phase[t].Woken?
    case TimeOut(t) => t in e.phase && e.phase[t].Blocked? && e.phase[t].timeout > 0
    case ResetFlags => true
  }

  function Do(e: Event, s: Step, byPrio: bool, prios: Prios, p: int): Event {
    match s
    case SendBits(bits) => Send(e, bits)
    case RecvStart(t, want, option, timeout) => Receive(e, t, want, option, timeout, byPrio, prios, p)
    case RecvEnd(t) => e.(phase := e.phase[t := Outside])
    case TimeOut(t) => Expire(e, t)
    case ResetFlags => Reset(e)
  }

  lemma UnmetUpdate(q: seq<Tid>, phase: map<Tid, Phase>, flags: bv32, t: Tid, p: Phase)
    requires Unmet(q, phase, flags) && t !in q
    ensures Unmet(q, phase[t := p], flags)
  {
    hide Satisfied;
    forall u: Tid | u in q ensures !Satisfied(phase[t := p], u, flags) {
      if u in phase {
        SameSatisfied(phase, phase[t := p], u, flags);
      } else {
        NotThere(phase[t := p], u, flags);
      }
    }
  }

  lemma NotThere(phase: map<Tid, Phase>, t: Tid, flags: bv32)
    requires t !in phase
    ensures !Satisfied(phase, t, flags)
  {
  }

  /** A thread is only suspended while its condition is not met. */
  lemma ReceiveOk(e: Event, t: Tid, want: bv32, option: bv8, timeout: int, byPrio: bool, prios: Prios, p: int)
    requires Inv(e) && t in e.phase && e.phase[t].Outside?
    ensures Inv(Receive(e, t, want, option, timeout, byPrio, prios, p))
  {
    hide Within, Satisfied, Unmet, Removed, Meets, IsClear, Position;
    if want != 0 && Meets(want, option, e.flags) {
      RemovedFacts(e.flags, want);
      UnmetFewer(e.waiters, e.phase, e.flags, Removed(e.flags, want));
    } else if want != 0 && timeout != 0 {
      var n := Position(e.waiters, prios, p, byPrio);
      var r := e.waiters[..n] + [t] + e.waiters[n..];
      EnqueueMembers(e.waiters, n, t, r);
      DistinctInsert(e.waiters, t, n);
      UnmetInsert(e.waiters, e.phase, e.flags, t, Blocked(want, option, timeout), r);
    }
  }

  lemma UnmetInsert(q: seq<Tid>, phase: map<Tid, Phase>, flags: bv32, t: Tid, p: Phase, r: seq<Tid>)
    requires Unmet(q, phase, flags) && t !in q && p.Blocked? && !Meets(p.want, p.option, flags)
    requires forall x :: x in r <==> x in q || x == t
    ensures Unmet(r, phase[t := p], flags)
  {
    hide Meets;
    UnmetUpdate(q, phase, flags, t, p);
  }

  lemma ExpireOk(e: Event, t: Tid)
    requires Inv(e) && t in e.phase && e.phase[t].Blocked?
    ensures Inv(Expire(e, t))
  {
    hide Within, Satisfied, Without;
    WithoutMembers(e.waiters, t);
    WithoutDistinct(e.waiters, t);
    forall u: Tid | u in Without(e.waiters, t) ensures !Satisfied(e.phase[t := Woken(ETIMEOUT, 0)], u, e.flags) {
      SameSatisfied(e.phase, e.phase[t := Woken(ETIMEOUT, 0)], u, e.flags);
    }
  }

  lemma StepOk(e: Event, s: Step, byPrio: bool, prios: Prios, p: int)
    requires Inv(e) && Enabled(e, s)
    ensures Inv(Do(e, s, byPrio, prios, p))
  {
    hide Send, Receive, Expire, Unmet, IsAnd, IsOr;
    match s
    case SendBits(bits) => SendOk(e, bits);
    case RecvStart(t, want, option, timeout) => ReceiveOk(e, t, want, option, timeout, byPrio, prios, p);
    case RecvEnd(t) => UnmetUpdate(e.waiters, e.phase, e.flags, t, Outside);
    case TimeOut(t) => ExpireOk(e, t);
    case ResetFlags => UnmetNone(Reset(e).phase, 0);
  }

  lemma UnmetNone(phase: map<Tid, Phase>, flags: bv32)
    ensures Unmet([], phase, flags)
  {
  }

  datatype Move = Move(step: Step, prios: Prios, p: int)

  ghost predicate CanRun(e: Event, moves: seq<Move>, byPrio: bool)
    decreases |moves|
  {
    moves == [] ||
      (Enabled(e, moves[0].step) &&
          CanRun(Do(e, moves[0].step, byPrio, moves[0].prios, moves[0].p), moves[1..], byPrio))
  }

  function Run(e: Event, moves: seq<Move>, byPrio: bool): Event
    decreases |moves|
  {
    if moves == [] then e else Run(Do(e, moves[0].step, byPrio, moves[0].prios, moves[0].p), moves[1..], byPrio)
  }

  /** In every reachable state no blocked thread's condition is met by the current flags. */
  lemma {:induction false} RunOk(e: Event, moves: seq<Move>, byPrio: bool)
    requires Inv(e) && CanRun(e, moves, byPrio)
    ensures Inv(Run(e, moves, byPrio))
    decreases |moves|
  {
    hide Inv, Do, Enabled;
    if moves != [] {
      StepOk(e, moves[0].step, byPrio, moves[0].prios, moves[0].p);
      RunOk(Do(e, moves[0].step, byPrio, moves[0].prios, moves[0].p), moves[1..], byPrio);
    }
  }

  /** A receiver that does not wait gets exactly the flags it asked for that are set, and clearing
      removes exactly those. */
  lemma ReceiveExact(e: Event, t: Tid, want: bv32, option: bv8, timeout: int, byPrio: bool, prios: Prios, p: int)
    requires want != 0 && Meets(want, option, e.flags)
    ensures var r := Receive(e, t, want, option, timeout, byPrio, prios, p); var g := Given(want, option, e.flags);
      && Within(g, want) && Within(g, e.flags) && (IsAnd(option) ==> g == want) && g == want & e.flags
      && r.flags == (if IsClear(option) then Removed(e.flags, g) else e.flags)
      && r.waiters == e.waiters && r.phase == e.phase
  {
    hide IsClear, Removed, Enqueue;
    GivenWithin(want, option, e.flags);
    assert Within(want & e.flags, want);
  }
}

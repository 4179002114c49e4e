/** The plain description of a timer list: a sequence of timers in stable order of unbounded
    deadlines. The skip list of timer.c is proved against it in TimerWheel.dfy. */
module TimerOrder {

  type Timer = n: nat | n > 0 witness 1

  const TICKS: nat := 0x1_0000_0000
  // RT_TICK_MAX / 2
  const HALF: nat := 0x7FFF_FFFF

  /** `timeout_tick` values: the residue of an unbounded tick in 32 bits. */
  function Wrap(x: int): nat { x % TICKS }

  /** Unsigned 32-bit subtraction. */
  function WrapSub(a: nat, b: nat): nat { (a - b) % TICKS }

  /** The test `(a - b) < RT_TICK_MAX / 2` on wrapped ticks says exactly "a is not before b"
      for instants at most 2^31 - 2 ahead of and 2^31 + 1 behind one another, and these are the
      widest such bounds. */
  lemma WrappedOrder(a: int, b: int)
    requires -(TICKS as int) < a - b < TICKS
    ensures (WrapSub(Wrap(a), Wrap(b)) == 0) <==> a == b
    ensures ((WrapSub(Wrap(a), Wrap(b)) < HALF) <==> a >= b) <==> -0x8000_0001 <= a - b <= 0x7FFF_FFFE
  {
    WrapSubSub(a, b);
  }

  // Deadlines are at most `late` ticks late when they are listed, one more when they are checked

  /** The comparison of rt_timer_start: `a` is strictly later than `d`. */
  lemma WrappedLater(a: nat, d: nat, now: nat, late: nat)
    requires now <= a + late + 1 && a + late < now + HALF && now <= d + late && d + late < now + HALF
    ensures (WrapSub(Wrap(a), Wrap(d)) != 0 && WrapSub(Wrap(a), Wrap(d)) < HALF) <==> a > d
  {
    WrappedOrder(a, d);
  }

  /** The comparison of rt_timer_check: `a` is due. */
  lemma WrappedDue(a: nat, now: nat, late: nat)
    requires now <= a + late + 1 && a + late < now + HALF && late + 1 < HALF
    ensures WrapSub(Wrap(now), Wrap(a)) < HALF <==> a <= now
  {
    WrappedOrder(now, a);
  }

  lemma WrapSubSub(a: int, b: int)
    ensures WrapSub(Wrap(a), Wrap(b)) == Wrap(a - b)
  {
    var qa, qb := a / TICKS, b / TICKS;
    assert Wrap(a) - Wrap(b) == (a - b) + (qb - qa) * TICKS;
    ModShift(a - b, qb - qa);
  }

  lemma WrapAdd(a: int, b: int)
    ensures Wrap(Wrap(a) + b) == Wrap(a + b)
  {
    var q := a / TICKS;
    assert a + b == (Wrap(a) + b) + q * TICKS;
    ModShift(Wrap(a) + b, q);
  }

  lemma ModShift(x: int, k: int)
    ensures (x + k * TICKS) % TICKS == x % TICKS
  {
    var q := x / TICKS;
    assert x + k * TICKS == (q + k) * TICKS + x % TICKS;
  }

  /** Deadline first, start order among equals. */
  datatype Key = Key(deadline: nat, stamp: nat)

  predicate Before(a: Key, b: Key) {
    a.deadline < b.deadline || (a.deadline == b.deadline && a.stamp < b.stamp)
  }

  type Keys = map<Timer, Key>

  ghost function Elems(s: seq<Timer>): set<Timer> { set t | t in s }

  /** Stable order: deadlines never decrease and timers due together stand in start order. */
  ghost predicate Ordered(s: seq<Timer>, keys: Keys) {
    && (forall i :: 0 <= i < |s| ==> s[i] in keys)
    && (forall i, j :: 0 <= i < j < |s| ==> Before(keys[s[i]], keys[s[j]]))
  }

  /** How many leading timers are due no later than `d`. */
  function Due(s: seq<Timer>, keys: Keys, d: nat): (n: nat)
    ensures n <= |s|
    ensures forall i :: 0 <= i < n ==> s[i] in keys && keys[s[i]].deadline <= d
    ensures n < |s| && s[n] in keys ==> keys[s[n]].deadline > d
  {
    if s != [] && s[0] in keys && keys[s[0]].deadline <= d then 1 + Due(s[1..], keys, d) else 0
  }

  lemma DueAt(s: seq<Timer>, keys: Keys, d: nat, k: nat)
    requires Ordered(s, keys) && k < |s|
    ensures k < Due(s, keys, d) <==> keys[s[k]].deadline <= d
  {
    var n := Due(s, keys, d);
    if n < k {
      assert Before(keys[s[n]], keys[s[k]]);
    }
  }

  /** The plain sorted insert: behind every timer due no later. */
  function Insert(s: seq<Timer>, keys: Keys, d: nat, t: Timer): seq<Timer>
  {
    var n := Due(s, keys, d);
    s[..n] + [t] + s[n..]
  }

  /** Every listed deadline lies close enough to `now` for the wrapped comparisons. */
  ghost predicate Window(s: seq<Timer>, keys: Keys, now: nat, late: nat) {
    forall t :: t in s ==> t in keys && now <= keys[t].deadline + late + 1 && keys[t].deadline + late < now + HALF
  }

  function Without(s: seq<Timer>, t: Timer): (r: seq<Timer>)
    ensures t !in s ==> r == s
  {
    if s == [] then [] else if s[0] == t then s[1..] else [s[0]] + Without(s[1..], t)
  }

  lemma {:induction false} WithoutAt(s: seq<Timer>, k: nat)
    requires k < |s| && forall i, j :: 0 <= i < j < |s| ==> s[i] != s[j]
    ensures Without(s, s[k]) == s[..k] + s[k + 1..]
  {
    if k > 0 {
      WithoutAt(s[1..], k - 1);
      assert s[1..][..k - 1] == s[1..k];
    }
  }

  lemma OrderedDistinct(s: seq<Timer>, keys: Keys)
    requires Ordered(s, keys)
    ensures forall i, j :: 0 <= i < j < |s| ==> s[i] != s[j]
  {
  }

  lemma WithoutMembers(s: seq<Timer>, t: Timer)
    requires forall i, j :: 0 <= i < j < |s| ==> s[i] != s[j]
    ensures forall x :: x in Without(s, t) <==> x in s && x != t
  {
    if t in s {
      var k :| 0 <= k < |s| && s[k] == t;
      WithoutAt(s, k);
      var r := s[..k] + s[k + 1..];
      forall x | x in s && x != t ensures x in r {
        var i :| 0 <= i < |s| && s[i] == x;
        assert r[if i < k then i else i - 1] == x;
      }
    }
  }

  lemma WithoutOrdered(s: seq<Timer>, keys: Keys, t: Timer)
    requires Ordered(s, keys)
    ensures Ordered(Without(s, t), keys)
    ensures Elems(Without(s, t)) == Elems(s) - {t}
  {
    hide Without;
    OrderedDistinct(s, keys);
    WithoutMembers(s, t);
    if t in s {
      var k :| 0 <= k < |s| && s[k] == t;
      WithoutAt(s, k);
      CutOrdered(s, keys, k);
    }
  }

  lemma CutOrdered(s: seq<Timer>, keys: Keys, k: nat)
    requires Ordered(s, keys) && k < |s|
    ensures Ordered(s[..k] + s[k + 1..], keys)
  {
    var r := s[..k] + s[k + 1..];
    assert forall i :: 0 <= i < |r| ==> r[i] == s[if i < k then i else i + 1];
  }

  /** Giving a timer outside the list a new key does not disturb the list. */
  lemma OrderedRekey(s: seq<Timer>, keys: Keys, t: Timer, key: Key)
    requires Ordered(s, keys) && t !in s
    ensures Ordered(s, keys[t := key])
  {
  }

  /** The sorted insert keeps the stable order when the new timer is the latest started. */
  lemma InsertOrdered(s: seq<Timer>, keys: Keys, t: Timer, key: Key)
    requires Ordered(s, keys) && t !in s
    requires forall i :: 0 <= i < |s| ==> keys[s[i]].stamp < key.stamp
    ensures Ordered(Insert(s, keys, key.deadline, t), keys[t := key])
    ensures Elems(Insert(s, keys, key.deadline, t)) == Elems(s) + {t}
  {
    var n := Due(s, keys, key.deadline);
    var r := Insert(s, keys, key.deadline, t);
    assert forall i :: 0 <= i < |r| ==> r[i] == if i < n then s[i] else if i == n then t else s[i - 1];
    InsertElems(s, n, t);
    forall i, j | 0 <= i < j < |r|
      ensures Before(keys[t := key][r[i]], keys[t := key][r[j]])
    {
      if j == n {
      } else if i == n && j > n + 1 {
        assert Before(keys[s[n]], keys[s[j - 1]]);
      }
    }
  }

  lemma InsertElems(s: seq<Timer>, n: nat, t: Timer)
    requires n <= |s|
    ensures Elems(s[..n] + [t] + s[n..]) == Elems(s) + {t}
  {
    var r := s[..n] + [t] + s[n..];
    forall x | x in s ensures x in r {
      var i :| 0 <= i < |s| && s[i] == x;
      assert r[if i < n then i else i + 1] == x;
    }
    assert r[n] == t;
  }

  lemma NoElems(s: seq<Timer>)
    ensures Elems(s) == {} ==> s == []
  {
    if s != [] {
      assert s[0] in Elems(s);
    }
  }

  /** A set of timers has only one stable order. */
  lemma {:induction false} OrderUnique(a: seq<Timer>, b: seq<Timer>, keys: Keys)
    requires Ordered(a, keys) && Ordered(b, keys) && Elems(a) == Elems(b)
    ensures a == b
  {
    if a == [] {
      NoElems(b);
    } else {
      assert a[0] in Elems(b);
      var j :| 0 <= j < |b| && b[j] == a[0];
      assert b[0] in Elems(a);
      var i :| 0 <= i < |a| && a[i] == b[0];
      assert a[0] == b[0];
      TailElems(a, keys);
      TailElems(b, keys);
      OrderUnique(a[1..], b[1..], keys);
    }
  }

  lemma TailElems(a: seq<Timer>, keys: Keys)
    requires Ordered(a, keys) && a != []
    ensures Ordered(a[1..], keys) && Elems(a[1..]) == Elems(a) - {a[0]}
  {
    forall x | x in a && x != a[0] ensures x in a[1..] {
      var i :| 0 <= i < |a| && a[i] == x;
      assert a[1..][i - 1] == x;
    }
  }
}

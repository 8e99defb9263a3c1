/**
 * The clock of kernel/time.cpp: a second counter, refined by the cycles since the second
 * began. Arithmetic is 64-bit and unsigned.
 */
module Clock {
  import opened Options

  const NS := 1_000_000_000
  const WRAP := 0x1_0000_0000_0000_0000
  /** The most cycles whose number of nanoseconds fits before the division. */
  const LIMIT := 18_446_744_073

  datatype State = State(last: nat, cps: nat, second: nat)

  function CyclesToNs(cps: nat, cycles: nat): nat {
    if cps == 0 then 0 else cycles * NS % WRAP / cps
  }

  function Delta(s: State, stamp: nat): nat {
    var delta := (stamp - s.last) % WRAP;
    if delta > s.cps then s.cps else delta
  }

  /** The reading at a timestamp, once there is a cycle rate. */
  function NowNs(s: State, stamp: nat): nat {
    (s.second * NS % WRAP + CyclesToNs(s.cps, Delta(s, stamp))) % WRAP
  }

  /** The first half of the timer handler, up to the new second. */
  function Measure(s: State, stamp: nat, second: nat): State {
    if second == s.second then s
    else s.(last := stamp, cps := if s.last != 0 then (stamp - s.last) % WRAP else s.cps)
  }

  function Timekeep(s: State, stamp: nat, second: nat): State { Measure(s, stamp, second).(second := second) }

  // -------------------------------------------------------------------------
  // One reading

  lemma {:induction false} MulMono(a: nat, b: nat, d: nat)
    requires a <= b
    ensures a * d <= b * d
  {
    if a < b {
      MulMono(a, b - 1, d);
      assert b * d == (b - 1) * d + d;
    }
  }

  lemma DivBound(x: nat, q: nat, d: nat)
    requires d > 0 && x <= q * d
    ensures x / d <= q
  {
    var k := x / d;
    assert x == d * k + x % d;
    if k > q { MulMono(q + 1, k, d); }
  }

  lemma DivMono(x: nat, y: nat, d: nat)
    requires d > 0 && x <= y
    ensures x / d <= y / d
  {
    var k := y / d;
    assert y == d * k + y % d;
    DivBelow(x, k, d);
  }

  lemma DivBelow(x: nat, k: nat, d: nat)
    requires d > 0 && x < (k + 1) * d
    ensures x / d <= k
  {
    var j := x / d;
    assert x == d * j + x % d;
    if j > k { MulMono(k + 1, j, d); }
  }

  /** The product fits for every number of cycles up to the rate exactly while the rate is at
      most LIMIT. */
  lemma FitsIff(cps: nat)
    ensures (forall cycles: nat :: cycles <= cps ==> cycles * NS < WRAP) <==> cps <= LIMIT
  {
    if cps > LIMIT { assert cps * NS >= WRAP; }
  }

  lemma Fraction(cps: nat, cycles: nat)
    requires 0 < cps <= LIMIT && cycles <= cps
    ensures CyclesToNs(cps, cycles) == cycles * NS / cps <= NS
  {
    assert cycles * NS < WRAP;
    MulMono(cycles, cps, NS);
    DivBound(cycles * NS, NS, cps);
  }

  predicate Sound(s: State, stamp: nat) {
    0 < s.cps <= LIMIT && s.second < LIMIT && s.last <= stamp < WRAP
  }

  /** A reading lies in its second, end included. */
  lemma Bounds(s: State, stamp: nat)
    requires Sound(s, stamp)
    ensures NowNs(s, stamp) == s.second * NS + CyclesToNs(s.cps, Delta(s, stamp))
    ensures s.second * NS <= NowNs(s, stamp) <= (s.second + 1) * NS
  {
    hide CyclesToNs, Delta;
    DeltaRises(s, stamp, stamp);
    Fraction(s.cps, Delta(s, stamp));
  }

  lemma DeltaRises(s: State, stamp: nat, stamp': nat)
    requires Sound(s, stamp) && Sound(s, stamp') && stamp <= stamp'
    ensures Delta(s, stamp) <= Delta(s, stamp') <= s.cps
  {
  }

  lemma SameSecond(s: State, stamp: nat, stamp': nat)
    requires Sound(s, stamp) && Sound(s, stamp') && stamp <= stamp'
    ensures NowNs(s, stamp) <= NowNs(s, stamp')
  {
    hide CyclesToNs, Delta, NowNs;
    var a, b := Delta(s, stamp), Delta(s, stamp');
    DeltaRises(s, stamp, stamp');
    MulMono(a, b, NS);
    Bounds(s, stamp);
    Bounds(s, stamp');
    Fraction(s.cps, a);
    Fraction(s.cps, b);
    DivMono(a * NS, b * NS, s.cps);
  }

  /** A reading is the second plus the share of it that has gone by, a whole one at most, to the
      nanosecond. */
  lemma Accurate(s: State, stamp: nat)
    requires Sound(s, stamp)
    ensures var gone := if stamp - s.last < s.cps then stamp - s.last else s.cps;
            var ns := NowNs(s, stamp) - s.second * 1_000_000_000;
            0 <= ns && ns * s.cps <= gone * 1_000_000_000 < (ns + 1) * s.cps
  {
    hide CyclesToNs, NowNs;
    Bounds(s, stamp);
    Fraction(s.cps, Delta(s, stamp));
    var x := Delta(s, stamp) * NS;
    assert x == s.cps * (x / s.cps) + x % s.cps;
    assert (x / s.cps + 1) * s.cps == x / s.cps * s.cps + s.cps;
  }

  // -------------------------------------------------------------------------
  // Rates at which a second goes back

  /** A number of cycles whose product is the largest that 64 bits can hold: -512. */
  const TOP := 15_817_289_833_210_771

  ghost predicate Rises(cps: nat) {
    forall a: nat, b: nat :: a <= b <= cps ==> CyclesToNs(cps, a) <= CyclesToNs(cps, b)
  }

  lemma SlowRises(cps: nat, a: nat, b: nat)
    requires 0 < cps <= LIMIT && a <= b <= cps
    ensures CyclesToNs(cps, a) <= CyclesToNs(cps, b)
  {
    hide CyclesToNs;
    Fraction(cps, a);
    Fraction(cps, b);
    MulMono(a, b, NS);
    DivMono(a * NS, b * NS, cps);
  }

  /** Every product is a multiple of 512. */
  lemma ProductTop(cycles: nat)
    ensures cycles * NS % WRAP <= WRAP - 512
  {
    var x := cycles * NS;
    assert x == 512 * (cycles * 1_953_125);
    assert x % WRAP == x - WRAP * (x / WRAP);
    assert x % WRAP == 512 * (cycles * 1_953_125 - WRAP / 512 * (x / WRAP));
  }

  lemma Below(x: nat, d: nat)
    requires x < d
    ensures x / d == 0
  {
  }

  lemma NotBelow(x: nat, d: nat)
    requires 0 < d <= x
    ensures x / d >= 1
  {
    assert x == d * (x / d) + x % d;
  }

  lemma HugeIsFlat(cps: nat, cycles: nat)
    requires cps > WRAP - 512
    ensures CyclesToNs(cps, cycles) == 0
  {
    ProductTop(cycles);
    Below(cycles * NS % WRAP, cps);
  }

  lemma FastFalls(cps: nat)
    requires LIMIT < cps <= WRAP - 512
    ensures exists a: nat :: a + 1 <= cps && CyclesToNs(cps, a) > CyclesToNs(cps, a + 1)
  {
    var a := if cps <= LIMIT * NS then LIMIT else TOP;
    assert a * NS % WRAP >= cps && (a + 1) * NS % WRAP < NS < cps;
    NotBelow(a * NS % WRAP, cps);
    Below((a + 1) * NS % WRAP, cps);
    assert a + 1 <= cps && CyclesToNs(cps, a) > CyclesToNs(cps, a + 1);
  }

  /** The nanoseconds of a second rise with its cycles if and only if the rate is at most LIMIT,
      or so close to 2^64 that every second reads as its start. */
  lemma RisesIff(cps: nat)
    requires 0 < cps < WRAP
    ensures Rises(cps) <==> cps <= LIMIT || cps > WRAP - 512
  {
    hide CyclesToNs;
    if cps <= LIMIT {
      forall a: nat, b: nat | a <= b <= cps ensures CyclesToNs(cps, a) <= CyclesToNs(cps, b) { SlowRises(cps, a, b); }
    } else if cps > WRAP - 512 {
      forall a: nat ensures CyclesToNs(cps, a) == 0 { HugeIsFlat(cps, a); }
    } else {
      FastFalls(cps);
    }
  }

  lemma PartBound(cps: nat, cycles: nat)
    requires 0 < cps && cycles <= cps
    ensures CyclesToNs(cps, cycles) <= NS
  {
    if cps <= LIMIT {
      Fraction(cps, cycles);
    } else {
      MulMono(LIMIT + 1, cps, NS);
      DivBound(cycles * NS % WRAP, NS, cps);
    }
  }

  lemma PlainSum(s: State, stamp: nat)
    requires 0 < s.cps && s.second < LIMIT
    ensures NowNs(s, stamp) == s.second * NS + CyclesToNs(s.cps, Delta(s, stamp))
  {
    hide CyclesToNs;
    PartBound(s.cps, Delta(s, stamp));
  }

  /** The same of readings: within one second they never go back if and only if its rate is one
      of those. */
  lemma SecondIff(s: State)
    requires 0 < s.cps && s.second < LIMIT && s.last + s.cps < WRAP
    ensures (forall x: nat, y: nat :: s.last <= x <= y < WRAP ==> NowNs(s, x) <= NowNs(s, y)) <==>
            s.cps <= LIMIT || s.cps > WRAP - 512
  {
    hide CyclesToNs, NowNs, Rises;
    RisesIff(s.cps);
    if Rises(s.cps) {
      forall x: nat, y: nat | s.last <= x <= y < WRAP ensures NowNs(s, x) <= NowNs(s, y) {
        PlainSum(s, x);
        PlainSum(s, y);
        RisesAt(s.cps, Delta(s, x), Delta(s, y));
      }
    } else {
      var a := NotRisesAt(s.cps);
      var x, y := s.last + a.0, s.last + a.1;
      assert Delta(s, x) == a.0 && Delta(s, y) == a.1;
      PlainSum(s, x);
      PlainSum(s, y);
    }
  }

  lemma RisesAt(cps: nat, a: nat, b: nat)
    requires Rises(cps) && a <= b <= cps
    ensures CyclesToNs(cps, a) <= CyclesToNs(cps, b)
  {
  }

  lemma NotRisesAt(cps: nat) returns (p: (nat, nat))
    requires !Rises(cps)
    ensures p.0 <= p.1 <= cps && CyclesToNs(cps, p.0) > CyclesToNs(cps, p.1)
  {
    var a: nat, b: nat :| a <= b <= cps && CyclesToNs(cps, a) > CyclesToNs(cps, b);
    p := (a, b);
  }

  /** One cycle more per second than fits: the end of the second reads as its start. */
  lemma TooFast()
    ensures var s := State(1, LIMIT + 1, 5);
            NowNs(s, 1 + LIMIT) > NowNs(s, 2 + LIMIT)
  {
    var s := State(1, LIMIT + 1, 5);
    assert Delta(s, 1 + LIMIT) == LIMIT && Delta(s, 2 + LIMIT) == LIMIT + 1;
  }

  // -------------------------------------------------------------------------
  // The timer handler, store by store

  /** Between stores of the handler: the rate is new, or the rate and the start of the second. */
  datatype Phase = Steady | Rated(stamp: nat, second: nat) | Stamped(second: nat)

  datatype Clock = Clock(s: State, phase: Phase)

  datatype Event = Begin(stamp: nat, second: nat) | StoreLast | StoreSecond | Now(stamp: nat)

  /** One store; readings are taken by other processors in between. None when it is not its turn. */
  function After(c: Clock, e: Event): Option<Clock> {
    match e
    case Now(_) => Some(c)
    case Begin(stamp, second) =>
      if !c.phase.Steady? then None
      else if second == c.s.second then Some(c)
      else Some(Clock(c.s.(cps := if c.s.last != 0 then (stamp - c.s.last) % WRAP else c.s.cps), Rated(stamp, second)))
    case StoreLast =>
      if c.phase.Rated? then Some(Clock(c.s.(last := c.phase.stamp), Stamped(c.phase.second))) else None
    case StoreSecond =>
      if c.phase.Stamped? then Some(Clock(c.s.(second := c.phase.second), Steady)) else None
  }

  /** The three stores together are the handler. */
  lemma HandlerStores(s: State, stamp: nat, second: nat)
    requires second != s.second
    ensures var c1 := After(Clock(s, Steady), Begin(stamp, second));
            var c2 := if c1.None? then None else After(c1.value, StoreLast);
            var c3 := if c2.None? then None else After(c2.value, StoreSecond);
            c3 == Some(Clock(Timekeep(s, stamp, second), Steady))
  {
  }

  /** Timestamps rise, seconds do not fall, and the rate is known and not too fast whenever the
      clock is read. */
  predicate Proper(c: Clock, stamp: nat, events: seq<Event>)
    decreases |events|
  {
    && c.s.last <= stamp && (c.phase.Rated? ==> c.phase.stamp <= stamp && c.s.second < c.phase.second)
    && (c.phase.Stamped? ==> c.s.second < c.phase.second)
    && (events == [] ||
        var e := events[0];
        && ((e.Begin? || e.Now?) ==> stamp < e.stamp < WRAP)
        && (e.Begin? ==> c.s.second <= e.second)
        && (e.Now? ==> Sound(c.s, e.stamp))
        && After(c, e).Some?
        && Proper(After(c, e).value, if e.Begin? || e.Now? then e.stamp else stamp, events[1..]))
  }

  function Readings(c: Clock, events: seq<Event>): seq<nat>
    decreases |events|
  {
    if events == [] || After(c, events[0]).None? then []
    else
      var rest := Readings(After(c, events[0]).value, events[1..]);
      if events[0].Now? then [NowNs(c.s, events[0].stamp)] + rest else rest
  }

  // -------------------------------------------------------------------------
  // When a reading goes back

  /** Too few cycles have gone by since the second began for what was read before. */
  predicate Behind(s: State, stamp: nat, low: nat) {
    low > s.second * NS && Delta(s, stamp) * NS < (low - s.second * NS) * s.cps
  }

  lemma DivLess(x: nat, f: nat, d: nat)
    requires d > 0
    ensures x / d < f <==> x < f * d
  {
    var k := x / d;
    assert x == d * k + x % d;
    if k < f { MulMono(k + 1, f, d); } else { MulMono(f, k, d); }
  }

  lemma BehindIff(s: State, stamp: nat, low: nat)
    requires Sound(s, stamp)
    ensures NowNs(s, stamp) < low <==> Behind(s, stamp, low)
  {
    hide CyclesToNs, NowNs, Delta;
    DeltaRises(s, stamp, stamp);
    Bounds(s, stamp);
    Fraction(s.cps, Delta(s, stamp));
    if low > s.second * NS { DivLess(Delta(s, stamp) * NS, low - s.second * NS, s.cps); }
  }

  /** A reading between the store of the new start and that of the new second, too soon. */
  predicate Torn(c: Clock, e: Event, low: nat) { e.Now? && c.phase.Stamped? && Behind(c.s, e.stamp, low) }

  /** No reading of a run is torn; `low` is the reading before. */
  predicate NeverTorn(c: Clock, low: nat, events: seq<Event>)
    decreases |events|
  {
    events == [] || After(c, events[0]).None? ||
    (&& !Torn(c, events[0], low)
     && NeverTorn(After(c, events[0]).value, if events[0].Now? then NowNs(c.s, events[0].stamp) else low, events[1..]))
  }

  /** The last reading is in the second, and no later one is below it unless it is torn. */
  ghost predicate Covers(c: Clock, stamp: nat, low: nat) {
    && low <= (c.s.second + 1) * NS
    && (c.phase.Stamped? || forall t: nat :: stamp <= t && Sound(c.s, t) ==> low <= NowNs(c.s, t))
  }

  lemma BeginCovers(c: Clock, stamp: nat, low: nat, e: Event)
    requires Covers(c, stamp, low) && e.Begin? && stamp < e.stamp < WRAP && c.s.last <= stamp && After(c, e).Some?
    ensures Covers(After(c, e).value, e.stamp, low)
  {
    hide CyclesToNs, NowNs;
    var c' := After(c, e).value;
    if c'.s != c.s {
      forall t: nat | e.stamp <= t && Sound(c'.s, t) ensures low <= NowNs(c'.s, t) {
        assert Delta(c'.s, t) == c'.s.cps;
        Bounds(c'.s, t);
        Fraction(c'.s.cps, c'.s.cps);
        WholeSecond(c'.s.cps);
      }
    }
  }

  lemma WholeSecond(cps: nat)
    requires 0 < cps
    ensures cps * NS / cps == NS
  {
    DivLess(cps * NS, NS, cps);
    DivLess(cps * NS, NS + 1, cps);
  }

  lemma SecondCovers(c: Clock, stamp: nat, low: nat)
    requires Covers(c, stamp, low) && c.phase.Stamped? && c.s.second < c.phase.second
    ensures Covers(After(c, StoreSecond).value, stamp, low)
  {
    hide NowNs;
    var c' := After(c, StoreSecond).value;
    MulMono(c.s.second + 1, c'.s.second, NS);
    forall t: nat | stamp <= t && Sound(c'.s, t) ensures low <= NowNs(c'.s, t) { Bounds(c'.s, t); }
  }

  lemma NowCovers(c: Clock, e: Event)
    requires e.Now? && Sound(c.s, e.stamp)
    ensures Covers(c, e.stamp, NowNs(c.s, e.stamp))
  {
    hide NowNs;
    Bounds(c.s, e.stamp);
    forall t: nat | e.stamp <= t && Sound(c.s, t) ensures NowNs(c.s, e.stamp) <= NowNs(c.s, t) {
      SameSecond(c.s, e.stamp, t);
    }
  }

  /** The readings so far, seen from the last one. */
  predicate Sorted(xs: seq<nat>) { forall i :: 0 < i < |xs| ==> xs[i - 1] <= xs[i] }

  lemma SortedCons(x: nat, xs: seq<nat>)
    requires xs != []
    ensures Sorted([x] + xs) <==> x <= xs[0] && Sorted(xs)
  {
    var ys := [x] + xs;
    assert forall i :: 0 < i < |ys| ==> ys[i] == xs[i - 1];
    if Sorted(ys) {
      assert ys[0] <= ys[1];
      forall i | 0 < i < |xs| ensures xs[i - 1] <= xs[i] { assert ys[i] <= ys[i + 1]; }
    }
  }

  lemma {:induction false} SortedAll(xs: seq<nat>, i: nat, j: nat)
    requires Sorted(xs) && i <= j < |xs|
    ensures xs[i] <= xs[j]
    decreases j
  {
    if i < j { SortedAll(xs, i, j - 1); }
  }

  /** Over every proper run the readings never go back if and only if none of them is torn. */
  lemma {:induction false} BackIff(c: Clock, stamp: nat, low: nat, events: seq<Event>)
    requires Proper(c, stamp, events) && Covers(c, stamp, low)
    ensures Sorted([low] + Readings(c, events)) <==> NeverTorn(c, low, events)
    decreases |events|
  {
    hide NowNs, Sound, Behind, Covers;
    if events == [] {
      assert [low] + [] == [low];
    } else {
      var e, rest := events[0], events[1..];
      var c' := After(c, e).value;
      match e
      case Now(at) =>
        var now := NowNs(c.s, at);
        NowStep(c, stamp, low, at);
        NowCovers(c, e);
        BackIff(c, at, now, rest);
        SortedCons(low, [now] + Readings(c, rest));
        assert Readings(c, events) == [now] + Readings(c, rest);
      case Begin(at, _) =>
        BeginCovers(c, stamp, low, e);
        BackIff(c', at, low, rest);
        assert Readings(c, events) == Readings(c', rest);
      case StoreLast =>
        LastCovers(c, stamp, low);
        BackIff(c', stamp, low, rest);
        assert Readings(c, events) == Readings(c', rest);
      case StoreSecond =>
        SecondCovers(c, stamp, low);
        BackIff(c', stamp, low, rest);
        assert Readings(c, events) == Readings(c', rest);
    }
  }

  lemma LastCovers(c: Clock, stamp: nat, low: nat)
    requires Covers(c, stamp, low) && c.phase.Rated?
    ensures Covers(After(c, StoreLast).value, stamp, low)
  {
  }

  lemma NowStep(c: Clock, stamp: nat, low: nat, at: nat)
    requires Covers(c, stamp, low) && stamp < at && Sound(c.s, at)
    ensures low <= NowNs(c.s, at) <==> !Torn(c, Now(at), low)
  {
    hide NowNs, Behind;
    BehindIff(c.s, at, low);
  }

  /** In particular they never go back while the handler is not interrupted by a reading between
      its last two stores. */
  lemma {:induction false} Untorn(c: Clock, stamp: nat, low: nat, events: seq<Event>)
    requires Proper(c, stamp, events) && Whole(c, events)
    ensures NeverTorn(c, low, events)
    decreases |events|
  {
    hide NowNs, Behind, Sound;
    if events != [] {
      var e := events[0];
      Untorn(After(c, e).value, if e.Begin? || e.Now? then e.stamp else stamp,
             if e.Now? then NowNs(c.s, e.stamp) else low, events[1..]);
    }
  }

  predicate Whole(c: Clock, events: seq<Event>)
    decreases |events|
  {
    events == [] || After(c, events[0]).None? ||
    (!(events[0].Now? && c.phase.Stamped?) && Whole(After(c, events[0]).value, events[1..]))
  }

  lemma NeverBack(s: State, stamp: nat, events: seq<Event>)
    requires Proper(Clock(s, Steady), stamp, events) && Whole(Clock(s, Steady), events)
    ensures var rs := Readings(Clock(s, Steady), events);
            forall i, j :: 0 <= i <= j < |rs| ==> rs[i] <= rs[j]
  {
    hide Proper, Whole, Readings, NeverTorn, Sorted;
    var c, rs := Clock(s, Steady), Readings(Clock(s, Steady), events);
    Untorn(c, stamp, 0, events);
    BackIff(c, stamp, 0, events);
    var ys := [0] + rs;
    forall i, j | 0 <= i <= j < |rs| ensures rs[i] <= rs[j] {
      assert rs[i] == ys[i + 1] && rs[j] == ys[j + 1];
      SortedAll(ys, i + 1, j + 1);
    }
  }

  const TEAR := [Now(1999), Begin(2000, 6), StoreLast, Now(2001), StoreSecond]

  /** The clock before and after each event of TEAR. */
  function Tearing(n: nat): Clock {
    if n <= 1 then Clock(State(1000, 1000, 5), Steady)
    else if n == 2 then Clock(State(1000, 1000, 5), Rated(2000, 6))
    else if n <= 4 then Clock(State(2000, 1000, 5), Stamped(6))
    else Clock(State(2000, 1000, 6), Steady)
  }

  lemma TearStep(n: nat)
    requires n < 5
    ensures After(Tearing(n), TEAR[n]) == Some(Tearing(n + 1))
    ensures TEAR[n..][0] == TEAR[n] && TEAR[n..][1..] == TEAR[n + 1..]
  {
  }

  lemma {:induction false} TearProper(n: nat)
    requires n <= 5
    ensures var stamp := if n == 0 then 1000 else if n == 1 then 1999 else if n <= 3 then 2000 else 2001;
            Proper(Tearing(n), stamp, TEAR[n..])
    decreases 5 - n
  {
    hide After;
    if n < 5 {
      TearStep(n);
      TearProper(n + 1);
    }
  }

  lemma {:induction false} TearReadings(n: nat)
    requires n <= 5
    ensures var r0, r1 := NowNs(Tearing(0).s, 1999), NowNs(Tearing(3).s, 2001);
            Readings(Tearing(n), TEAR[n..]) == if n == 0 then [r0, r1] else if n <= 3 then [r1] else []
    decreases 5 - n
  {
    hide After, NowNs;
    if n < 5 {
      TearStep(n);
      TearReadings(n + 1);
    }
  }

  /** A concrete run with a torn reading: it goes back by almost a second. */
  lemma TornReading()
    ensures Proper(Tearing(0), 1000, TEAR) && Readings(Tearing(0), TEAR) == [5_999_000_000, 5_001_000_000]
  {
    hide Proper, Readings;
    TearProper(0);
    TearReadings(0);
    assert TEAR[0..] == TEAR;
    assert Delta(Tearing(0).s, 1999) == 999 && Delta(Tearing(3).s, 2001) == 1;
  }

  // -------------------------------------------------------------------------
  // The clock object

  class Timekeeper {
    var lastCycle: nat
    var cyclesPerSecond: nat
    var currentSecond: nat

    ghost function View(): State
      reads this
    {
      State(lastCycle, cyclesPerSecond, currentSecond)
    }

    constructor ()
      ensures View() == State(0, 0, 0)
    {
      lastCycle, cyclesPerSecond, currentSecond := 0, 0, 0;
    }

    method TimeKeep(stamp: nat, second: nat)
      modifies this
      ensures View() == Timekeep(old(View()), stamp, second)
      ensures currentSecond == second && lastCycle == if second == old(currentSecond) then old(lastCycle) else stamp
      ensures old(lastCycle) <= stamp < WRAP && old(lastCycle) != 0 && second != old(currentSecond) ==>
                cyclesPerSecond == stamp - old(lastCycle)
      ensures old(lastCycle) == 0 || second == old(currentSecond) ==> cyclesPerSecond == old(cyclesPerSecond)
    {
      if second != currentSecond {
        if lastCycle != 0 { cyclesPerSecond := (stamp - lastCycle) % WRAP; }
        lastCycle := stamp;
      }
      currentSecond := second;
    }

    /** None while the rate is not known, which the source waits out. */
    method Read(stamp: nat) returns (ns: Option<nat>)
      ensures ns.None? <==> cyclesPerSecond == 0
      ensures ns.Some? ==> ns.value == NowNs(View(), stamp)
      ensures Sound(View(), stamp) ==> ns.Some? && currentSecond * NS <= ns.value <= (currentSecond + 1) * NS
    {
      if cyclesPerSecond == 0 { return None; }
      var delta := (stamp - lastCycle) % WRAP;
      if delta > cyclesPerSecond { delta := cyclesPerSecond; }
      var sum := currentSecond * NS % WRAP;
      sum := (sum + CyclesToNs(cyclesPerSecond, delta)) % WRAP;
      if Sound(View(), stamp) { Bounds(View(), stamp); }
      ns := Some(sum);
    }
  }
}

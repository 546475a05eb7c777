/** Round timeouts with exponential backoff, over exact arithmetic. */
module Pacemakers {
  import opened Types

  const U32_MODULUS: nat := 0x1_0000_0000

  function Pow(b: real, e: nat): real {
    if e == 0 then 1.0 else Pow(b, e - 1) * b
  }

  function Ceil(x: real): int {
    if x.Floor as real == x then x.Floor else x.Floor + 1
  }

  function Scale(baseMs: u64, factor: real): real {
    baseMs as real * factor
  }

  /** Rounding up, and the saturating cast to `u64`. */
  function ToMillis(ms: real): u64 {
    Max(0, Min(Ceil(ms), U64_MAX))
  }

  datatype IntervalStrategy = IntervalStrategy(baseMs: u64, exponentBase: real, maxExponent: nat) {
    /** What `ExponentialIntervalStrategy::new` asserts. */
    predicate Valid() {
      maxExponent < 32 && Ceil(Pow(exponentBase, maxExponent)) < 0xFFFF_FFFF
    }

    /** A factor below one is not refused, but then there is no backoff. */
    predicate Grows() {
      Valid() && exponentBase >= 1.0
    }

    /** Exactly when no index up to `n` has a shorter duration than a smaller index, by the inputs: rounding up must
        hide all decay, and past 32 bits there must be no growth either. */
    predicate NeverShrinksUpTo(n: nat) {
      if exponentBase < 0.0 then n == 0 || maxExponent == 0 || baseMs == 0
      else
        var scaled := Scale(baseMs, Pow(exponentBase, Min(n, maxExponent)));
        scaled > baseMs as real - 1.0 && (n < U32_MODULUS || scaled <= baseMs as real || baseMs == U64_MAX)
    }

    /** The duration for an exponent, in milliseconds. */
    function DurationAt(exponent: nat): u64 {
      ToMillis(Scale(baseMs, Pow(exponentBase, exponent)))
    }

    /** The index is cast to 32 bits before it is capped. */
    function ExponentOf(roundsSinceOrdered: nat): nat {
      Min(roundsSinceOrdered % U32_MODULUS, maxExponent)
    }

    function RoundDuration(roundsSinceOrdered: nat): u64 {
      DurationAt(ExponentOf(roundsSinceOrdered))
    }

    function LongestDuration(): u64 {
      DurationAt(maxExponent)
    }
  }

  // ---------------------------------------------------------------- durations

  lemma {:induction false} PowMonotone(b: real, i: nat, j: nat)
    requires b >= 1.0 && i <= j
    ensures 1.0 <= Pow(b, i) <= Pow(b, j)
    decreases j
  {
    if i < j {
      PowMonotone(b, i, j - 1);
      assert Pow(b, j - 1) * 1.0 <= Pow(b, j - 1) * b;
    } else if i > 0 {
      PowMonotone(b, i - 1, i - 1);
      assert Pow(b, i - 1) * 1.0 <= Pow(b, i - 1) * b;
    }
  }

  lemma ScaleMonotone(baseMs: u64, x: real, y: real)
    requires x <= y
    ensures Scale(baseMs, x) <= Scale(baseMs, y)
  {
    ProductMonotone(baseMs as real, x, y);
  }

  lemma ProductMonotone(b: real, x: real, y: real)
    requires 0.0 <= b && x <= y
    ensures b * x <= b * y
  {
    assert b * y - b * x == b * (y - x);
  }

  lemma ToMillisMonotone(x: real, y: real)
    requires x <= y
    ensures ToMillis(x) <= ToMillis(y)
  {
  }

  lemma DurationAtMonotone(s: IntervalStrategy, i: nat, j: nat)
    requires s.exponentBase >= 1.0 && i <= j
    ensures s.DurationAt(i) <= s.DurationAt(j)
  {
    var x, y := Pow(s.exponentBase, i), Pow(s.exponentBase, j);
    PowMonotone(s.exponentBase, i, j);
    ScaleMonotone(s.baseMs, x, y);
    ToMillisMonotone(Scale(s.baseMs, x), Scale(s.baseMs, y));
  }

  lemma SmallIndex(n: nat)
    requires n < U32_MODULUS
    ensures n % U32_MODULUS == n
  {
  }

  lemma BaseDuration(s: IntervalStrategy)
    ensures s.DurationAt(0) == s.baseMs
  {
    assert Scale(s.baseMs, 1.0) == s.baseMs as real;
  }

  /** More rounds without progress never shorten the timeout, as long as their number fits 32 bits. */
  lemma DurationMonotone(s: IntervalStrategy, i: nat, j: nat)
    requires s.Grows() && i <= j < U32_MODULUS
    ensures s.RoundDuration(i) <= s.RoundDuration(j)
  {
    SmallIndex(i);
    SmallIndex(j);
    DurationAtMonotone(s, s.ExponentOf(i), s.ExponentOf(j));
  }

  /** Every timeout lies between the base and the longest one, whatever the index. */
  lemma DurationBounded(s: IntervalStrategy, i: nat)
    requires s.Grows()
    ensures s.baseMs <= s.RoundDuration(i) <= s.LongestDuration()
  {
    BaseDuration(s);
    DurationAtMonotone(s, 0, s.ExponentOf(i));
    DurationAtMonotone(s, s.ExponentOf(i), s.maxExponent);
  }

  lemma DurationEnds(s: IntervalStrategy)
    requires s.Valid()
    ensures s.RoundDuration(0) == s.baseMs && s.RoundDuration(U32_MODULUS) == s.baseMs
    ensures s.RoundDuration(U32_MODULUS - 1) == s.LongestDuration()
  {
    BaseDuration(s);
    SmallIndex(0);
    SmallIndex(U32_MODULUS - 1);
    assert U32_MODULUS % U32_MODULUS == 0;
  }

  lemma FractionOf(x: real, b: real, y: real)
    requires 0.0 <= x && 0.0 <= b <= 1.0 && y == x * b
    ensures 0.0 <= y <= x
  {
    ProductMonotone(x, 0.0, b);
    ProductMonotone(x, b, 1.0);
    assert x * 1.0 == x && x * 0.0 == 0.0;
  }

  lemma {:induction false} PowStepsDown(b: real, e: nat)
    requires 0.0 <= b <= 1.0
    ensures 0.0 <= Pow(b, e + 1) <= Pow(b, e) <= 1.0
  {
    if e > 0 {
      PowStepsDown(b, e - 1);
    }
    FractionOf(Pow(b, e), b, Pow(b, e + 1));
  }

  lemma {:induction false} PowShrinks(b: real, i: nat, j: nat)
    requires 0.0 <= b <= 1.0 && i <= j
    ensures 0.0 <= Pow(b, j) <= Pow(b, i) <= 1.0
    decreases j
  {
    hide Pow;
    PowStepsDown(b, i);
    if i < j {
      PowShrinks(b, i, j - 1);
      PowStepsDown(b, j - 1);
    }
  }

  lemma DurationAtShrinks(s: IntervalStrategy, i: nat, j: nat)
    requires 0.0 <= s.exponentBase <= 1.0 && i <= j
    ensures s.DurationAt(j) <= s.DurationAt(i)
  {
    var x, y := Pow(s.exponentBase, j), Pow(s.exponentBase, i);
    PowShrinks(s.exponentBase, i, j);
    ScaleMonotone(s.baseMs, x, y);
    ToMillisMonotone(Scale(s.baseMs, x), Scale(s.baseMs, y));
  }

  /** With a factor below one timeouts shrink instead, from the base to the last one. */
  lemma DurationShrinks(s: IntervalStrategy, i: nat, j: nat)
    requires 0.0 <= s.exponentBase <= 1.0 && i <= j < U32_MODULUS
    ensures s.LongestDuration() <= s.RoundDuration(j) <= s.RoundDuration(i) <= s.baseMs
  {
    SmallIndex(i);
    SmallIndex(j);
    BaseDuration(s);
    DurationAtShrinks(s, 0, s.ExponentOf(i));
    DurationAtShrinks(s, s.ExponentOf(i), s.ExponentOf(j));
    DurationAtShrinks(s, s.ExponentOf(j), s.maxExponent);
  }

  lemma ConstantDurations(s: IntervalStrategy, i: nat)
    requires s.Valid() && s.exponentBase >= 0.0 && s.LongestDuration() == s.baseMs
    ensures s.RoundDuration(i) == s.baseMs
  {
    if s.exponentBase >= 1.0 {
      DurationBounded(s, i);
    } else {
      BaseDuration(s);
      DurationAtShrinks(s, 0, s.ExponentOf(i));
      DurationAtShrinks(s, s.ExponentOf(i), s.maxExponent);
    }
  }

  /** A negative factor takes the very first timeout after the base to zero. */
  lemma NegativeFactor(s: IntervalStrategy, n: nat)
    requires s.Valid() && s.exponentBase < 0.0
    ensures (forall i, j | 0 <= i <= j <= n :: s.RoundDuration(i) <= s.RoundDuration(j)) <==> s.NeverShrinksUpTo(n)
  {
    BaseDuration(s);
    SmallIndex(0);
    SmallIndex(1);
    if n > 0 && s.maxExponent > 0 {
      assert s.ExponentOf(1) == 1;
      NegativeStep(s);
      if s.baseMs == 0 {
        forall i: nat ensures s.RoundDuration(i) == 0 {
          assert Scale(0, Pow(s.exponentBase, s.ExponentOf(i))) == 0.0;
        }
      } else {
        assert s.RoundDuration(0) > s.RoundDuration(1);
      }
    }
  }

  lemma {:induction false} NegativePow(b: real, e: nat)
    requires b < 0.0
    ensures Pow(b, e) == if e % 2 == 0 then Pow(-b, e) else -Pow(-b, e)
  {
    if e > 0 {
      NegativePow(b, e - 1);
    }
  }

  lemma {:induction false} PowPositive(b: real, e: nat)
    requires b >= 0.0
    ensures Pow(b, e) >= 0.0
  {
    if e > 0 {
      PowPositive(b, e - 1);
      ProductMonotone(Pow(b, e - 1), 0.0, b);
    }
  }

  /** A negative factor gives the durations of its opposite for even exponents, and none at all for odd ones. */
  lemma NegativeFactorAlternates(s: IntervalStrategy, i: nat)
    requires s.exponentBase < 0.0
    ensures s.RoundDuration(i) ==
      if s.ExponentOf(i) % 2 == 0 then s.(exponentBase := -s.exponentBase).RoundDuration(i) else 0
  {
    var e := s.ExponentOf(i);
    NegativePow(s.exponentBase, e);
    if e % 2 == 1 {
      PowPositive(-s.exponentBase, e);
      ScaleMonotone(s.baseMs, Pow(s.exponentBase, e), 0.0);
      assert Scale(s.baseMs, 0.0) == 0.0;
      ToMillisMonotone(Scale(s.baseMs, Pow(s.exponentBase, e)), 0.0);
    }
  }

  lemma NegativeStep(s: IntervalStrategy)
    requires s.exponentBase < 0.0
    ensures s.DurationAt(1) == 0
  {
    assert Pow(s.exponentBase, 0) == 1.0 && Pow(s.exponentBase, 1) == s.exponentBase;
    ScaleMonotone(s.baseMs, s.exponentBase, 0.0);
    assert Scale(s.baseMs, 0.0) == 0.0;
    ToMillisMonotone(Scale(s.baseMs, s.exponentBase), 0.0);
  }

  lemma ToMillisAtLeast(ms: real, base: u64)
    requires ms >= 0.0
    ensures base <= ToMillis(ms) <==> ms > base as real - 1.0
    ensures ToMillis(ms) <= base <==> ms <= base as real || base == U64_MAX
  {
  }

  lemma DurationTest(s: IntervalStrategy, exponent: nat)
    requires s.exponentBase >= 0.0
    ensures var scaled := Scale(s.baseMs, Pow(s.exponentBase, exponent));
      && (s.baseMs <= s.DurationAt(exponent) <==> scaled > s.baseMs as real - 1.0)
      && (s.DurationAt(exponent) <= s.baseMs <==> scaled <= s.baseMs as real || s.baseMs == U64_MAX)
  {
    var factor := Pow(s.exponentBase, exponent);
    if s.exponentBase >= 1.0 {
      PowMonotone(s.exponentBase, 0, exponent);
    } else {
      PowShrinks(s.exponentBase, 0, exponent);
    }
    ScaleMonotone(s.baseMs, 0.0, factor);
    assert Scale(s.baseMs, 0.0) == 0.0;
    ToMillisAtLeast(Scale(s.baseMs, factor), s.baseMs);
  }

  /** The test on the inputs, in terms of durations. */
  lemma NeverShrinksInDurations(s: IntervalStrategy, n: nat)
    requires s.Valid() && s.exponentBase >= 0.0
    ensures n < U32_MODULUS ==> (s.NeverShrinksUpTo(n) <==> s.baseMs <= s.RoundDuration(n))
    ensures n >= U32_MODULUS ==> (s.NeverShrinksUpTo(n) <==> s.LongestDuration() == s.baseMs)
  {
    DurationTest(s, Min(n, s.maxExponent));
    if n < U32_MODULUS {
      SmallIndex(n);
    }
  }

  lemma NeverShrinksIffFits(s: IntervalStrategy, n: nat)
    requires s.Valid() && s.exponentBase >= 0.0 && n < U32_MODULUS
    ensures (forall i, j | 0 <= i <= j <= n :: s.RoundDuration(i) <= s.RoundDuration(j)) <==>
      s.baseMs <= s.RoundDuration(n)
  {
    DurationEnds(s);
    if s.baseMs <= s.RoundDuration(n) {
      forall i, j | 0 <= i <= j <= n ensures s.RoundDuration(i) <= s.RoundDuration(j) {
        if s.exponentBase >= 1.0 {
          DurationMonotone(s, i, j);
        } else {
          DurationShrinks(s, i, j);
          DurationShrinks(s, j, n);
        }
      }
    }
  }

  lemma NeverShrinksIffWraps(s: IntervalStrategy, n: nat)
    requires s.Valid() && s.exponentBase >= 0.0 && n >= U32_MODULUS
    ensures (forall i, j | 0 <= i <= j <= n :: s.RoundDuration(i) <= s.RoundDuration(j)) <==>
      s.LongestDuration() == s.baseMs
  {
    DurationEnds(s);
    if s.LongestDuration() == s.baseMs {
      forall i, j | 0 <= i <= j <= n ensures s.RoundDuration(i) <= s.RoundDuration(j) {
        ConstantDurations(s, i);
        ConstantDurations(s, j);
      }
    } else if s.LongestDuration() < s.baseMs {
      assert s.RoundDuration(0) > s.RoundDuration(U32_MODULUS - 1);
    } else {
      assert s.RoundDuration(U32_MODULUS - 1) > s.RoundDuration(U32_MODULUS);
    }
  }

  /** For every strategy the constructor lets through, exactly how far timeouts keep from falling: with any backoff at
      all, up to the 32-bit limit of the cast; with a factor below one, only as long as rounding hides it. */
  lemma NeverShrinksIff(s: IntervalStrategy, n: nat)
    requires s.Valid()
    ensures (forall i, j | 0 <= i <= j <= n :: s.RoundDuration(i) <= s.RoundDuration(j)) <==> s.NeverShrinksUpTo(n)
  {
    hide IntervalStrategy.RoundDuration, IntervalStrategy.NeverShrinksUpTo, IntervalStrategy.LongestDuration;
    if s.exponentBase < 0.0 {
      NegativeFactor(s, n);
    } else {
      NeverShrinksInDurations(s, n);
      if n < U32_MODULUS {
        NeverShrinksIffFits(s, n);
      } else {
        NeverShrinksIffWraps(s, n);
      }
    }
  }

  /** Where there is any backoff at all, timeouts keep from falling exactly up to the 32-bit limit of the cast. */
  lemma NeverShrinksIffIndexFits(s: IntervalStrategy, n: nat)
    requires s.Grows() && s.baseMs < s.LongestDuration()
    ensures (forall i, j | 0 <= i <= j <= n :: s.RoundDuration(i) <= s.RoundDuration(j)) <==> n < U32_MODULUS
  {
    if n < U32_MODULUS {
      NeverShrinksIffFits(s, n);
      DurationBounded(s, n);
    } else {
      NeverShrinksIffWraps(s, n);
    }
  }

  // ---------------------------------------------------------------- the object

  datatype NewRoundReason = QuorumCertificate | Timeout(roundsSinceOrdered: u64)

  datatype NewRoundEvent = NewRoundEvent(round: Round, reason: NewRoundReason, timeout: u64)

  datatype PacemakerError = CannotEnterRound | NotAboveHighestOrdered

  datatype PacemakerState = PacemakerState(highestOrderedRound: Round, currentRound: Round)

  function StartAt(initialRound: Round): PacemakerState {
    PacemakerState(SaturatingSub(initialRound, 1), initialRound)
  }

  function RoundsSinceOrdered(p: PacemakerState, round: Round): u64 {
    SaturatingSub(round, p.highestOrderedRound + 1)
  }

  /** The unchecked `highest_ordered_round + 1`. */
  predicate EnterOverflows(p: PacemakerState, round: Round) {
    round > p.currentRound && p.highestOrderedRound == U64_MAX
  }

  function Enter(s: IntervalStrategy, p: PacemakerState, round: Round)
    : (PacemakerState, Result<NewRoundEvent, PacemakerError>)
    requires s.Valid()
  {
    if round <= p.currentRound then (p, Err(CannotEnterRound))
    else
      var n := RoundsSinceOrdered(p, round);
      (p.(currentRound := round),
       Ok(NewRoundEvent(round, if n == 0 then QuorumCertificate else Timeout(n), s.RoundDuration(n))))
  }

  function RecordOrdered(p: PacemakerState, round: Round): (PacemakerState, Outcome<PacemakerError>) {
    if round <= p.highestOrderedRound then (p, Fail(NotAboveHighestOrdered))
    else (p.(highestOrderedRound := round), Pass)
  }

  class Pacemaker {
    const strategy: IntervalStrategy
    var highestOrderedRound: Round
    var currentRound: Round

    constructor (strategy: IntervalStrategy, initialRound: Round)
      ensures this.strategy == strategy && State() == StartAt(initialRound)
    {
      this.strategy := strategy;
      highestOrderedRound, currentRound := SaturatingSub(initialRound, 1), initialRound;
    }

    function State(): PacemakerState
      reads this
    {
      PacemakerState(highestOrderedRound, currentRound)
    }

    method EnterNewRound(round: Round) returns (r: Result<NewRoundEvent, PacemakerError>)
      requires strategy.Valid() && !EnterOverflows(State(), round)
      modifies this
      ensures (State(), r) == Enter(strategy, old(State()), round)
      ensures r.Ok? ==> r.value.timeout == strategy.RoundDuration(RoundsSinceOrdered(State(), currentRound))
    {
      if round <= currentRound {
        return Err(CannotEnterRound);
      }
      var roundsSinceOrdered := SaturatingSub(round, highestOrderedRound + 1);
      var reason := if roundsSinceOrdered == 0 then QuorumCertificate else Timeout(roundsSinceOrdered);
      var timeout := strategy.RoundDuration(roundsSinceOrdered);
      currentRound := round;
      return Ok(NewRoundEvent(round, reason, timeout));
    }

    method RecordOrderedRound(round: Round) returns (r: Outcome<PacemakerError>)
      modifies this
      ensures (State(), r) == RecordOrdered(old(State()), round)
    {
      if round <= highestOrderedRound {
        return Fail(NotAboveHighestOrdered);
      }
      highestOrderedRound := round;
      return Pass;
    }

    method CurrentRoundTimeout() returns (timeout: u64)
      requires strategy.Valid() && highestOrderedRound < U64_MAX
      ensures timeout == strategy.RoundDuration(RoundsSinceOrdered(State(), currentRound))
    {
      timeout := strategy.RoundDuration(SaturatingSub(currentRound, highestOrderedRound + 1));
    }

    method ResetTo(round: Round)
      modifies this
      ensures State() == StartAt(round)
    {
      currentRound := round;
      highestOrderedRound := SaturatingSub(round, 1);
    }
  }

  // ---------------------------------------------------------------- runs

  datatype Op = Enters(round: Round) | Orders(round: Round) | Resets(round: Round)

  /** An `enter_new_round` whose addition would overflow ends the run. */
  function Next(s: IntervalStrategy, p: PacemakerState, op: Op): PacemakerState
    requires s.Valid()
  {
    match op
    case Enters(r) => if EnterOverflows(p, r) then p else Enter(s, p, r).0
    case Orders(r) => RecordOrdered(p, r).0
    case Resets(r) => StartAt(r)
  }

  function Run(s: IntervalStrategy, initial: Round, h: seq<Op>): PacemakerState
    requires s.Valid()
  {
    if h == [] then StartAt(initial) else Next(s, Run(s, initial, h[..|h| - 1]), h[|h| - 1])
  }

  /** Operation `i` enters a new round, with the given event. */
  predicate EntersWith(s: IntervalStrategy, initial: Round, h: seq<Op>, i: int, e: NewRoundEvent)
    requires s.Valid() && 0 <= i < |h|
  {
    var p := Run(s, initial, h[..i]);
    h[i].Enters? && !EnterOverflows(p, h[i].round) && Enter(s, p, h[i].round).1 == Ok(e)
  }

  /** Operation `i` orders a new round or resets the pacemaker. */
  predicate MovesBase(s: IntervalStrategy, initial: Round, h: seq<Op>, i: int)
    requires s.Valid() && 0 <= i < |h|
  {
    h[i].Resets? || (h[i].Orders? && h[i].round > Run(s, initial, h[..i]).highestOrderedRound)
  }

  lemma {:induction false} QuietStretch(s: IntervalStrategy, initial: Round, h: seq<Op>, i: nat)
    requires s.Valid() && i <= |h|
    requires forall m | i <= m < |h| :: !MovesBase(s, initial, h, m)
    ensures Run(s, initial, h).highestOrderedRound == Run(s, initial, h[..i]).highestOrderedRound
    ensures Run(s, initial, h).currentRound >= Run(s, initial, h[..i]).currentRound
  {
    if i == |h| {
      assert h[..i] == h;
    } else {
      var n := |h| - 1;
      assert h[..n][..i] == h[..i];
      forall m | i <= m < n ensures !MovesBase(s, initial, h[..n], m) {
        assert h[..n][..m] == h[..m] && !MovesBase(s, initial, h, m);
      }
      QuietStretch(s, initial, h[..n], i);
      assert !MovesBase(s, initial, h, n);
    }
  }

  /** Zero for odd exponents, the opposite factor's duration for even ones. */
  predicate Alternates(s: IntervalStrategy, roundsSinceOrdered: nat, timeout: u64) {
    timeout == if s.ExponentOf(roundsSinceOrdered) % 2 == 0
               then s.(exponentBase := -s.exponentBase).RoundDuration(roundsSinceOrdered) else 0
  }

  /** Between ordered rounds (and resets) the entered rounds strictly increase and their timeouts never fall; with a
      factor from zero to one, which nothing refuses, they never rise, and with a negative one they alternate. */
  lemma {:induction false} BacksOffBetweenOrderedRounds(
      s: IntervalStrategy, initial: Round, h: seq<Op>, i: nat, j: nat, d: NewRoundEvent, e: NewRoundEvent)
    requires s.Valid() && i < j < |h|
    requires EntersWith(s, initial, h, i, d) && EntersWith(s, initial, h, j, e)
    requires forall m | i < m < j :: !MovesBase(s, initial, h, m)
    requires RoundsSinceOrdered(Run(s, initial, h[..j]), e.round) < U32_MODULUS
    ensures d.round < e.round
    ensures s.exponentBase >= 1.0 ==> s.baseMs <= d.timeout <= e.timeout <= s.LongestDuration()
    ensures 0.0 <= s.exponentBase <= 1.0 ==> s.LongestDuration() <= e.timeout <= d.timeout <= s.baseMs
    ensures s.exponentBase < 0.0 ==>
      Alternates(s, RoundsSinceOrdered(Run(s, initial, h[..i]), d.round), d.timeout)
      && Alternates(s, RoundsSinceOrdered(Run(s, initial, h[..j]), e.round), e.timeout)
  {
    var p, q := Run(s, initial, h[..i]), Run(s, initial, h[..j]);
    var g := h[..j];
    assert g[..i + 1] == h[..i + 1] && h[..i + 1][..i] == h[..i];
    assert Run(s, initial, h[..i + 1]) == p.(currentRound := d.round);
    forall m | i + 1 <= m < j ensures !MovesBase(s, initial, g, m) {
      assert g[..m] == h[..m] && !MovesBase(s, initial, h, m);
    }
    QuietStretch(s, initial, g, i + 1);
    var a, b := RoundsSinceOrdered(p, d.round), RoundsSinceOrdered(q, e.round);
    assert a <= b;
    if s.exponentBase >= 1.0 {
      DurationMonotone(s, a, b);
      DurationBounded(s, a);
      DurationBounded(s, b);
    }
    if 0.0 <= s.exponentBase <= 1.0 {
      DurationShrinks(s, a, b);
    }
    if s.exponentBase < 0.0 {
      NegativeFactorAlternates(s, a);
      NegativeFactorAlternates(s, b);
    }
  }

  /** Entering the round after the ordered one brings the timeout back to the base, however long it had become. */
  lemma ProgressRestoresBase(s: IntervalStrategy, initial: Round, h: seq<Op>, j: nat, e: NewRoundEvent)
    requires s.Valid() && j < |h| && EntersWith(s, initial, h, j, e)
    ensures e.round <= Run(s, initial, h[..j]).highestOrderedRound + 1 <==> e.reason == QuorumCertificate
    ensures e.reason == QuorumCertificate ==> e.timeout == s.baseMs
  {
    DurationEnds(s);
  }

  // ---------------------------------------------------------------- timeouts and rounds in terms of the history

  /** `base` is the round counted from: the one last ordered, or the one before the last reset or the start. */
  ghost predicate IsBase(s: IntervalStrategy, initial: Round, h: seq<Op>, m: int, base: Round)
    requires s.Valid()
  {
    && -1 <= m < |h|
    && (m >= 0 ==> MovesBase(s, initial, h, m))
    && (forall j | m < j < |h| :: !MovesBase(s, initial, h, j))
    && base == (if m < 0 then SaturatingSub(initial, 1)
                else if h[m].Orders? then h[m].round else SaturatingSub(h[m].round, 1))
  }

  lemma {:induction false} BaseHistory(s: IntervalStrategy, initial: Round, h: seq<Op>) returns (m: int)
    requires s.Valid()
    ensures IsBase(s, initial, h, m, Run(s, initial, h).highestOrderedRound)
  {
    m := -1;
    if h != [] {
      var n := |h| - 1;
      m := BaseHistory(s, initial, h[..n]);
      forall j | 0 <= j < n ensures MovesBase(s, initial, h, j) <==> MovesBase(s, initial, h[..n], j) {
        assert h[..n][..j] == h[..j] && h[..n][j] == h[j];
      }
      if MovesBase(s, initial, h, n) {
        m := n;
      }
    }
  }

  /** The backoff itself: a round `k` past the one after the base is entered with `base * factor^min(k, max)`, rounded
      up, and the round after the base, or any before it, with the base duration. */
  lemma {:induction false} TimeoutOfRound(
      s: IntervalStrategy, initial: Round, h: seq<Op>, j: nat, e: NewRoundEvent, m: int, base: Round, k: nat)
    requires s.Valid() && j < |h| && EntersWith(s, initial, h, j, e) && IsBase(s, initial, h[..j], m, base)
    requires k < U32_MODULUS && (e.round == base + 1 + k || (k == 0 && e.round <= base))
    ensures e.timeout == ToMillis(Scale(s.baseMs, Pow(s.exponentBase, Min(k, s.maxExponent))))
    ensures e.reason == if k == 0 then QuorumCertificate else Timeout(k)
  {
    var o := BaseHistory(s, initial, h[..j]);
    assert o == m;
    var p := Run(s, initial, h[..j]);
    assert p.highestOrderedRound == base && RoundsSinceOrdered(p, e.round) == k;
    SmallIndex(k);
    assert e.timeout == s.DurationAt(Min(k, s.maxExponent));
  }

  /** A round can be recorded as ordered exactly if it is above the base. */
  lemma {:induction false} OrderSucceedsIff(
      s: IntervalStrategy, initial: Round, h: seq<Op>, m: int, base: Round, round: Round)
    requires s.Valid() && IsBase(s, initial, h, m, base)
    ensures var (p, r) := RecordOrdered(Run(s, initial, h), round);
      && (r.Pass? <==> round > base)
      && p.highestOrderedRound == Max(base, round) && p.currentRound == Run(s, initial, h).currentRound
  {
    var o := BaseHistory(s, initial, h);
    assert o == m;
  }

  /** Exponents add up, so every further round multiplies by the factor. */
  lemma {:induction false} PowAdds(b: real, m: nat, n: nat)
    ensures Pow(b, m + n) == Pow(b, m) * Pow(b, n) && Pow(b, 0) == 1.0 && Pow(b, 1) == b
  {
    if n > 0 {
      PowAdds(b, m, n - 1);
      Associate(Pow(b, m), Pow(b, n - 1), b, Pow(b, m + n - 1));
    }
  }

  lemma Associate(x: real, y: real, z: real, xy: real)
    requires xy == x * y
    ensures xy * z == x * (y * z)
  {
  }

  lemma CurrentRoundStep(s: IntervalStrategy, p: PacemakerState, op: Op)
    requires s.Valid() && !op.Resets? && (op.Enters? ==> !EnterOverflows(p, op.round))
    ensures Next(s, p, op).currentRound == if op.Enters? then Max(p.currentRound, op.round) else p.currentRound
  {
  }

  lemma RunLast(s: IntervalStrategy, initial: Round, h: seq<Op>)
    requires s.Valid() && h != []
    ensures Run(s, initial, h) == Next(s, Run(s, initial, h[..|h| - 1]), h[|h| - 1])
  {
  }

  /** Without resets, a round can be entered exactly if it is above the initial one and every one asked for so far. */
  lemma {:induction false} CanEnterIff(s: IntervalStrategy, initial: Round, h: seq<Op>, round: Round)
    requires s.Valid() && forall i | 0 <= i < |h| :: !h[i].Resets?
    requires forall i | 0 <= i < |h| && h[i].Enters? :: !EnterOverflows(Run(s, initial, h[..i]), h[i].round)
    ensures Enter(s, Run(s, initial, h), round).1.Ok? <==>
      round > initial && forall i | 0 <= i < |h| && h[i].Enters? :: round > h[i].round
  {
    if h != [] {
      hide Next, EnterOverflows, IntervalStrategy.Valid;
      var n := |h| - 1;
      var g := h[..n];
      forall i | 0 <= i < n ensures g[..i] == h[..i] && g[i] == h[i] {}
      CanEnterIff(s, initial, g, round);
      RunLast(s, initial, h);
      CurrentRoundStep(s, Run(s, initial, g), h[n]);
    }
  }

  /** And entering it makes it the current one, short of the last ordered round there is. */
  lemma {:induction false} EnteringTakesEffect(s: IntervalStrategy, initial: Round, h: seq<Op>, round: Round)
    requires s.Valid() && Run(s, initial, h).highestOrderedRound < U64_MAX && round > Run(s, initial, h).currentRound
    ensures Run(s, initial, h + [Enters(round)]) == Run(s, initial, h).(currentRound := round)
  {
    assert (h + [Enters(round)])[..|h|] == h;
  }
}

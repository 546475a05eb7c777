/** Proposer election: the cumulative-weight scan, and how often it elects each validator. */
module Proposers {
  import opened Types

  type Stake = (NodeId, u64)

  function TotalStake(validators: seq<Stake>): nat {
    if validators == [] then 0 else validators[0].1 + TotalStake(validators[1..])
  }

  /** All the weight listed under `a`; a validator may be listed more than once. */
  function StakeOf(validators: seq<Stake>, a: NodeId): nat {
    if validators == [] then 0
    else (if validators[0].0 == a then validators[0].1 else 0) + StakeOf(validators[1..], a)
  }

  // ---------------------------------------------------------------- the election

  /** Whose stretch of the line 0, 1, 2, ... the ticket falls on, when everyone owns as many places as they have
      weight. */
  function OwnerOf(validators: seq<Stake>, ticket: nat): NodeId
    requires ticket < TotalStake(validators)
  {
    if ticket < validators[0].1 then validators[0].0
    else OwnerOf(validators[1..], ticket - validators[0].1)
  }

  /** `new` sums the weights. */
  method NewWeightedProposer(validators: seq<Stake>) returns (total: nat)
    ensures total == TotalStake(validators)
  {
    total := 0;
    for i := 0 to |validators|
      invariant total + TotalStake(validators[i..]) == TotalStake(validators)
    {
      total := total + validators[i].1;
      assert validators[i..][1..] == validators[i + 1..];
    }
  }

  /** The scan as coded. With listed validators and no weight at all the remainder divides by zero,
      hence the precondition. */
  method SelectWeightedProposer(validators: seq<Stake>, totalVotingPower: nat, round: Round)
    returns (elected: Option<NodeId>)
    requires totalVotingPower == TotalStake(validators)
    requires validators != [] ==> totalVotingPower > 0
    ensures elected == if validators == [] then None else Some(OwnerOf(validators, round % totalVotingPower))
  {
    if |validators| == 0 {
      return None;
    }
    var cumulative: nat := 0;
    var target := round % totalVotingPower;
    for i := 0 to |validators|
      invariant cumulative <= target < cumulative + TotalStake(validators[i..])
      invariant OwnerOf(validators, target) == OwnerOf(validators[i..], target - cumulative)
    {
      assert validators[i..][1..] == validators[i + 1..];
      cumulative := cumulative + validators[i].1;
      if target < cumulative {
        return Some(validators[i].0);
      }
    }
    // The fallback to the last validator is dead code.
    assert false;
    elected := None;
  }

  function GetValidProposer(validators: seq<Stake>, initialRound: Round, round: Round): Option<NodeId>
    requires validators != [] && round >= initialRound ==> TotalStake(validators) > 0
  {
    if round < initialRound || validators == [] then None
    else Some(OwnerOf(validators, round % TotalStake(validators)))
  }

  method GetWeightedProposer(validators: seq<Stake>, totalVotingPower: nat, initialRound: Round, round: Round)
    returns (elected: Option<NodeId>)
    requires totalVotingPower == TotalStake(validators)
    requires validators != [] && round >= initialRound ==> totalVotingPower > 0
    ensures elected == GetValidProposer(validators, initialRound, round)
  {
    if round < initialRound {
      return None;
    }
    elected := SelectWeightedProposer(validators, totalVotingPower, round);
  }

  // ---------------------------------------------------------------- counting over windows

  /** How many of the `n` numbers from `lo` on satisfy `p`. */
  ghost function Count(p: int -> bool, lo: int, n: nat): nat {
    if n == 0 then 0 else Count(p, lo, n - 1) + if p(lo + n - 1) then 1 else 0
  }

  lemma {:induction false} CountFirst(p: int -> bool, lo: int, n: nat)
    requires n > 0
    ensures Count(p, lo, n) == (if p(lo) then 1 else 0) + Count(p, lo + 1, n - 1)
  {
    if n > 1 {
      CountFirst(p, lo, n - 1);
    }
  }

  ghost predicate Periodic(p: int -> bool, period: nat) {
    forall x | x >= 0 :: p(x) == p(x + period)
  }

  /** Over one full period the count does not depend on where the window starts. */
  lemma {:induction false} CountPeriodic(p: int -> bool, period: nat, lo: nat)
    requires period > 0 && Periodic(p, period)
    ensures Count(p, lo, period) == Count(p, 0, period)
  {
    if lo > 0 {
      CountPeriodic(p, period, lo - 1);
      CountFirst(p, lo - 1, period);
      assert p(lo - 1) == p(lo - 1 + period);
    }
  }

  lemma {:induction false} CountCongruent(p: int -> bool, q: int -> bool, lo: int, shift: int, n: nat)
    requires forall x | lo <= x < lo + n :: p(x) == q(x - shift)
    ensures Count(p, lo, n) == Count(q, lo - shift, n)
  {
    if n > 0 {
      CountCongruent(p, q, lo, shift, n - 1);
      assert p(lo + n - 1) == q(lo + n - 1 - shift);
    }
  }

  lemma {:induction false} CountSplit(p: int -> bool, lo: int, m: nat, n: nat)
    ensures Count(p, lo, m + n) == Count(p, lo, m) + Count(p, lo + m, n)
  {
    if n > 0 {
      CountSplit(p, lo, m, n - 1);
    }
  }

  lemma {:induction false} CountConstant(p: int -> bool, lo: int, n: nat, value: bool)
    requires forall x | lo <= x < lo + n :: p(x) == value
    ensures Count(p, lo, n) == if value then n else 0
  {
    if n > 0 {
      CountConstant(p, lo, n - 1, value);
      assert p(lo + n - 1) == value;
    }
  }

  lemma {:induction false} MultipleIsLarge(period: nat, d: nat)
    requires d > 0
    ensures period * d >= period
  {
    if d > 1 {
      MultipleIsLarge(period, d - 1);
      assert period * d == period * (d - 1) + period;
    }
  }

  lemma {:induction false} SmallMultipleIsZero(period: nat, d: int, gap: int)
    requires 0 - period < gap < period && period * d == gap
    ensures gap == 0
  {
    if d > 0 {
      MultipleIsLarge(period, d);
    } else if d < 0 {
      MultipleIsLarge(period, -d);
    }
  }

  lemma {:induction false} SameRemainder(x: nat, period: nat)
    requires period > 0
    ensures (x + period) % period == x % period
  {
    var q, r := x / period, x % period;
    var q1, r1 := (x + period) / period, (x + period) % period;
    assert x == period * q + r && x + period == period * q1 + r1;
    assert period * (q1 - q - 1) == period * q1 - period * q - period;
    SmallMultipleIsZero(period, q1 - q - 1, r - r1);
  }

  lemma SmallRemainder(x: nat, period: nat)
    requires x < period
    ensures x % period == x
  {
  }

  // ---------------------------------------------------------------- fairness of the weighted election

  function Owns(validators: seq<Stake>, a: NodeId): int -> bool {
    ticket => 0 <= ticket < TotalStake(validators) && OwnerOf(validators, ticket) == a
  }

  lemma OwnsFirst(validators: seq<Stake>, a: NodeId)
    requires validators != []
    ensures forall x | 0 <= x < validators[0].1 :: Owns(validators, a)(x) == (validators[0].0 == a)
  {
  }

  lemma OwnsRest(validators: seq<Stake>, a: NodeId)
    requires validators != []
    ensures forall x | validators[0].1 <= x < TotalStake(validators) ::
      Owns(validators, a)(x) == Owns(validators[1..], a)(x - validators[0].1)
  {
  }

  lemma {:induction false} CountSegments(p: int -> bool, q: int -> bool, w: nat, n: nat, first: bool)
    requires forall x | 0 <= x < w :: p(x) == first
    requires forall x | w <= x < w + n :: p(x) == q(x - w)
    ensures Count(p, 0, w + n) == (if first then w else 0) + Count(q, 0, n)
  {
    CountSplit(p, 0, w, n);
    CountConstant(p, 0, w, first);
    CountCongruent(p, q, w, w, n);
  }

  /** Over all tickets, each validator owns as many as it has weight. */
  lemma {:induction false} TicketsOwned(validators: seq<Stake>, a: NodeId)
    ensures Count(Owns(validators, a), 0, TotalStake(validators)) == StakeOf(validators, a)
  {
    if validators != [] {
      var w, rest := validators[0].1, validators[1..];
      var p, q := Owns(validators, a), Owns(rest, a);
      OwnsFirst(validators, a);
      OwnsRest(validators, a);
      CountSegments(p, q, w, TotalStake(rest), validators[0].0 == a);
      TicketsOwned(rest, a);
    }
  }

  function Elects(validators: seq<Stake>, a: NodeId): int -> bool {
    round => 0 <= round && TotalStake(validators) > 0 && OwnerOf(validators, round % TotalStake(validators)) == a
  }

  lemma {:induction false} ElectsIsPeriodic(validators: seq<Stake>, a: NodeId)
    requires TotalStake(validators) > 0
    ensures Periodic(Elects(validators, a), TotalStake(validators))
  {
    var total, p := TotalStake(validators), Elects(validators, a);
    forall x | x >= 0 ensures p(x) == p(x + total) {
      SameRemainder(x, total);
    }
  }

  lemma ElectsOwnTicket(validators: seq<Stake>, a: NodeId, x: int)
    requires 0 <= x < TotalStake(validators)
    ensures Elects(validators, a)(x) == Owns(validators, a)(x)
  {
    SmallRemainder(x, TotalStake(validators));
  }

  lemma {:induction false} ElectsIsOwns(validators: seq<Stake>, a: NodeId, total: nat)
    requires total == TotalStake(validators)
    ensures Count(Elects(validators, a), 0, total) == Count(Owns(validators, a), 0, total)
  {
    var p, q := Elects(validators, a), Owns(validators, a);
    forall x | 0 <= x < total ensures p(x) == q(x - 0) {
      ElectsOwnTicket(validators, a, x);
    }
    CountCongruent(p, q, 0, 0, total);
  }

  lemma {:induction false} RoundsElected(validators: seq<Stake>, a: NodeId, from: nat)
    requires TotalStake(validators) > 0
    ensures Count(Elects(validators, a), from, TotalStake(validators)) == StakeOf(validators, a)
  {
    ElectsIsPeriodic(validators, a);
    CountPeriodic(Elects(validators, a), TotalStake(validators), from);
    ElectsIsOwns(validators, a, TotalStake(validators));
    TicketsOwned(validators, a);
  }

  /** The rounds of the window in which `a` is the valid proposer. */
  ghost function TimesElected(validators: seq<Stake>, initialRound: Round, a: NodeId, from: Round, n: nat): nat
    requires validators != [] ==> TotalStake(validators) > 0
    requires from + n <= U64_MAX + 1
  {
    if n == 0 then 0 else
      TimesElected(validators, initialRound, a, from, n - 1)
      + if GetValidProposer(validators, initialRound, from + n - 1) == Some(a) then 1 else 0
  }

  lemma {:induction false} TimesElectedIsCount(
      validators: seq<Stake>, initialRound: Round, a: NodeId, from: Round, n: nat)
    requires TotalStake(validators) > 0 && initialRound <= from && from + n <= U64_MAX + 1
    ensures TimesElected(validators, initialRound, a, from, n) == Count(Elects(validators, a), from, n)
  {
    if n > 0 {
      TimesElectedIsCount(validators, initialRound, a, from, n - 1);
    }
  }

  /** Exact proportional election: in any window as long as the total weight, everyone leads as often as they have
      weight. */
  lemma {:induction false} ElectionIsProportional(validators: seq<Stake>, initialRound: Round, a: NodeId, from: Round)
    requires TotalStake(validators) > 0 && initialRound <= from
    requires from + TotalStake(validators) <= U64_MAX + 1
    ensures TimesElected(validators, initialRound, a, from, TotalStake(validators)) == StakeOf(validators, a)
  {
    TimesElectedIsCount(validators, initialRound, a, from, TotalStake(validators));
    RoundsElected(validators, a, from);
  }

  /** Whoever is elected has weight. */
  lemma {:induction false} OwnerHasStake(validators: seq<Stake>, ticket: nat)
    requires ticket < TotalStake(validators)
    ensures StakeOf(validators, OwnerOf(validators, ticket)) > 0
  {
    if ticket >= validators[0].1 {
      OwnerHasStake(validators[1..], ticket - validators[0].1);
    }
  }

  lemma {:induction false} ElectedHasStake(validators: seq<Stake>, initialRound: Round, round: Round)
    requires validators != [] && round >= initialRound ==> TotalStake(validators) > 0
    ensures var elected := GetValidProposer(validators, initialRound, round);
      elected.Some? ==> StakeOf(validators, elected.value) > 0
  {
    if validators != [] && round >= initialRound {
      OwnerHasStake(validators, round % TotalStake(validators));
    }
  }

  /** Everyone owns the stretch of tickets that begins where the weights listed before theirs end. */
  lemma {:induction false} OwnerOfStretch(validators: seq<Stake>, i: nat, ticket: nat)
    requires i < |validators|
    requires TotalStake(validators[..i]) <= ticket < TotalStake(validators[..i]) + validators[i].1
    ensures ticket < TotalStake(validators) && OwnerOf(validators, ticket) == validators[i].0
  {
    if i > 0 {
      assert validators[..i][1..] == validators[1..][..i - 1];
      OwnerOfStretch(validators[1..], i - 1, ticket - validators[0].1);
    }
  }

  /** Somebody is elected exactly from the initial round on. */
  lemma ElectedFromInitialRoundOn(validators: seq<Stake>, initialRound: Round, round: Round)
    requires validators != [] && round >= initialRound ==> TotalStake(validators) > 0
    ensures GetValidProposer(validators, initialRound, round).Some? <==> validators != [] && round >= initialRound
  {
  }

  /** So rounds before it count for nobody, in whatever window they fall. */
  lemma {:induction false} NobodyBeforeInitialRound(
      validators: seq<Stake>, initialRound: Round, a: NodeId, from: Round, n: nat)
    requires TotalStake(validators) > 0 && from + n <= initialRound
    ensures TimesElected(validators, initialRound, a, from, n) == 0
  {
    if n > 0 {
      NobodyBeforeInitialRound(validators, initialRound, a, from, n - 1);
    }
  }

  // ---------------------------------------------------------------- round robin

  function RoundRobinProposer(validators: seq<NodeId>, initialRound: Round, round: Round): Option<NodeId> {
    if validators == [] || round < initialRound then None
    else Some(validators[(round - initialRound) % |validators|])
  }

  function Leads(validators: seq<NodeId>, a: NodeId): int -> bool {
    k => 0 <= k && validators != [] && validators[k % |validators|] == a
  }

  ghost function TimesLeading(validators: seq<NodeId>, initialRound: Round, a: NodeId, from: Round, n: nat): nat
    requires from + n <= U64_MAX + 1
  {
    if n == 0 then 0 else
      TimesLeading(validators, initialRound, a, from, n - 1)
      + if RoundRobinProposer(validators, initialRound, from + n - 1) == Some(a) then 1 else 0
  }

  lemma {:induction false} TimesLeadingIsCount(
      validators: seq<NodeId>, initialRound: Round, a: NodeId, from: Round, n: nat)
    requires validators != [] && initialRound <= from && from + n <= U64_MAX + 1
    ensures TimesLeading(validators, initialRound, a, from, n) ==
      Count(Leads(validators, a), from - initialRound, n)
  {
    if n > 0 {
      TimesLeadingIsCount(validators, initialRound, a, from, n - 1);
    }
  }

  lemma {:induction false} CountOccurrences(validators: seq<NodeId>, p: int -> bool, a: NodeId, n: nat)
    requires n <= |validators|
    requires forall k | 0 <= k < |validators| :: p(k) == (validators[k] == a)
    ensures Count(p, 0, n) == multiset(validators[..n])[a]
  {
    if n > 0 {
      CountOccurrences(validators, p, a, n - 1);
      assert validators[..n] == validators[..n - 1] + [validators[n - 1]];
    }
  }

  lemma {:induction false} LeadsIsPeriodic(validators: seq<NodeId>, a: NodeId)
    ensures Periodic(Leads(validators, a), |validators|)
  {
    var p, n := Leads(validators, a), |validators|;
    forall x | x >= 0 ensures p(x) == p(x + n) {
      if n > 0 {
        SameRemainder(x, n);
      }
    }
  }

  lemma {:induction false} LeadsOwnSlot(validators: seq<NodeId>, a: NodeId)
    ensures forall k | 0 <= k < |validators| :: Leads(validators, a)(k) == (validators[k] == a)
  {
    forall k | 0 <= k < |validators| ensures Leads(validators, a)(k) == (validators[k] == a) {
      SmallRemainder(k, |validators|);
    }
  }

  lemma {:induction false} LeadsOverOneTurn(validators: seq<NodeId>, a: NodeId, lo: nat)
    requires validators != []
    ensures Count(Leads(validators, a), lo, |validators|) == multiset(validators)[a]
  {
    LeadsIsPeriodic(validators, a);
    CountPeriodic(Leads(validators, a), |validators|, lo);
    LeadsOwnSlot(validators, a);
    CountOccurrences(validators, Leads(validators, a), a, |validators|);
    assert validators[..|validators|] == validators;
  }

  /** In any window of as many rounds as there are entries, everyone leads once per entry. */
  lemma {:induction false} RoundRobinIsFair(validators: seq<NodeId>, initialRound: Round, a: NodeId, from: Round)
    requires validators != [] && initialRound <= from && from + |validators| <= U64_MAX + 1
    ensures TimesLeading(validators, initialRound, a, from, |validators|) == multiset(validators)[a]
  {
    TimesLeadingIsCount(validators, initialRound, a, from, |validators|);
    LeadsOverOneTurn(validators, a, from - initialRound);
  }

  /** Leaders come in list order, starting at the initial round and over again after the last; nobody leads before. */
  lemma {:induction false} RoundRobinInOrder(validators: seq<NodeId>, initialRound: Round, turn: nat, i: nat)
    requires i < |validators| && initialRound + turn * |validators| + i <= U64_MAX
    ensures RoundRobinProposer(validators, initialRound, initialRound + turn * |validators| + i) == Some(validators[i])
    ensures forall round: Round | round < initialRound :: RoundRobinProposer(validators, initialRound, round) == None
  {
    TurnRemainder(turn, |validators|, i);
  }

  lemma {:induction false} TurnRemainder(turn: nat, period: nat, i: nat)
    requires i < period
    ensures (turn * period + i) % period == i
  {
    if turn > 0 {
      TurnRemainder(turn - 1, period, i);
      assert turn * period == (turn - 1) * period + period;
      SameRemainder((turn - 1) * period + i, period);
    } else {
      SmallRemainder(i, period);
    }
  }
}

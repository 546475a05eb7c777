/** What the safety state says about everything a validator has observed since `new`. */
module SafetyHistory {
  import opened Types
  import opened SafetyRules

  datatype Event =
    | SawQc(round: Round)
    | SawTc(round: Round, hqcRound: Round)
    | Voted(round: Round)
    | TimedOut(round: Round)

  function Apply(s: SafetyStateData, e: Event): SafetyStateData {
    match e
    case SawQc(r) => ObserveQc(s, r)
    case SawTc(r, hqc) => ObserveTc(s, r, hqc)
    case Voted(r) => if CheckRecordVote(s, r).Pass? then RecordVote(s, r) else s
    case TimedOut(r) => RecordTimeout(s, r)
  }

  function Run(epoch: Epoch, h: seq<Event>): SafetyStateData {
    if h == [] then Fresh(epoch) else Apply(Run(epoch, h[..|h| - 1]), h[|h| - 1])
  }

  lemma RunSnoc(epoch: Epoch, h: seq<Event>, e: Event)
    ensures Run(epoch, h + [e]) == Apply(Run(epoch, h), e)
  {
    assert (h + [e])[..|h|] == h;
  }

  // ---------------------------------------------------------------- the rounds a history mentions

  function ObservedBy(e: Event): set<int> {
    if e.SawQc? then {e.round} else if e.SawTc? then {e.hqcRound} else {}
  }

  function TimeoutsBy(e: Event): set<int> {
    if e.SawTc? || e.TimedOut? then {e.round} else {}
  }

  function VotesBy(e: Event): set<int> {
    if e.Voted? then {e.round} else {}
  }

  /** All rounds that `pick` reads off the events of a history. */
  function Rounds(pick: Event -> set<int>, h: seq<Event>): set<int> {
    if h == [] then {} else Rounds(pick, h[..|h| - 1]) + pick(h[|h| - 1])
  }

  /** The rounds of the QCs that came exactly one above everything observed before them. */
  function ConsecutiveRounds(h: seq<Event>): set<int> {
    if h == [] then {} else
      var g, e := h[..|h| - 1], h[|h| - 1];
      ConsecutiveRounds(g) + if e.SawQc? && IsMaxOf(e.round - 1, Rounds(ObservedBy, g)) then {e.round} else {}
  }

  /** `m` is the largest of `rounds`, or 0 when there is none. */
  predicate IsMaxOf(m: int, rounds: set<int>) {
    (m == 0 || m in rounds) && 0 <= m && forall r | r in rounds :: r <= m
  }

  lemma MaxGrow(m: int, rounds: set<int>, r: nat)
    requires IsMaxOf(m, rounds)
    ensures IsMaxOf(Max(m, r), rounds + {r})
  {
  }

  lemma MaxIsUnique(rounds: set<int>, m: int, n: int)
    requires IsMaxOf(m, rounds)
    ensures IsMaxOf(n, rounds) <==> m == n
  {
  }

  /** `s` holds the maxima of the history `h`. */
  predicate Summarises(s: SafetyStateData, h: seq<Event>) {
    && IsMaxOf(s.oneChainRound, Rounds(ObservedBy, h))
    && IsMaxOf(s.highestTimeoutRound, Rounds(TimeoutsBy, h))
    && IsMaxOf(s.lastVotedRound, Rounds(VotesBy, h))
    && IsMaxOf(s.preferredRound, ConsecutiveRounds(h))
  }

  /** Every field is a maximum over the history, failed vote recordings included. */
  lemma {:induction false} StateIsFunctionOfHistory(epoch: Epoch, h: seq<Event>)
    ensures Run(epoch, h).epoch == epoch
    ensures Summarises(Run(epoch, h), h)
    ensures Run(epoch, h).preferredRound <= Run(epoch, h).oneChainRound
  {
    if h != [] {
      var g, e := h[..|h| - 1], h[|h| - 1];
      StateIsFunctionOfHistory(epoch, g);
      var s := Run(epoch, g);
      match e {
        case SawQc(r) =>
          MaxGrow(s.oneChainRound, Rounds(ObservedBy, g), r);
          MaxGrow(s.preferredRound, ConsecutiveRounds(g), r);
          MaxIsUnique(Rounds(ObservedBy, g), s.oneChainRound, r - 1);
        case SawTc(r, hqc) =>
          MaxGrow(s.oneChainRound, Rounds(ObservedBy, g), hqc);
          MaxGrow(s.highestTimeoutRound, Rounds(TimeoutsBy, g), r);
        case Voted(r) =>
          MaxGrow(s.lastVotedRound, Rounds(VotesBy, g), r);
        case TimedOut(r) =>
          MaxGrow(s.highestTimeoutRound, Rounds(TimeoutsBy, g), r);
      }
    }
  }

  lemma {:induction false} RoundsMember(pick: Event -> set<int>, h: seq<Event>, r: int)
    ensures r in Rounds(pick, h) <==> exists e :: e in h && r in pick(e)
  {
    if h != [] {
      var g, e := h[..|h| - 1], h[|h| - 1];
      RoundsMember(pick, g, r);
      assert forall x :: x in h <==> x in g || x == e;
    }
  }

  lemma {:induction false} RoundsIgnoreOrder(pick: Event -> set<int>, g: seq<Event>, h: seq<Event>)
    requires forall e :: e in g <==> e in h
    ensures Rounds(pick, g) == Rounds(pick, h)
  {
    forall r: int ensures r in Rounds(pick, g) <==> r in Rounds(pick, h) {
      RoundsMember(pick, g, r);
      RoundsMember(pick, h, r);
    }
  }

  /** Apart from the preferred round, only which events happened matters: not how often, and not in what order. */
  lemma {:induction false} OrderIndependent(epoch: Epoch, g: seq<Event>, h: seq<Event>)
    requires forall e :: e in g <==> e in h
    ensures Run(epoch, g).(preferredRound := 0) == Run(epoch, h).(preferredRound := 0)
  {
    StateIsFunctionOfHistory(epoch, g);
    StateIsFunctionOfHistory(epoch, h);
    RoundsIgnoreOrder(ObservedBy, g, h);
    RoundsIgnoreOrder(TimeoutsBy, g, h);
    RoundsIgnoreOrder(VotesBy, g, h);
  }

  /** The preferred round does depend on the order. */
  lemma {:induction false} PreferredRoundDependsOnOrder(epoch: Epoch)
    ensures Run(epoch, [SawQc(1), SawQc(2)]).preferredRound == 2
    ensures Run(epoch, [SawQc(2), SawQc(1)]).preferredRound == 0
  {
    RunSnoc(epoch, [], SawQc(1));
    RunSnoc(epoch, [SawQc(1)], SawQc(2));
    assert [SawQc(1)] + [SawQc(2)] == [SawQc(1), SawQc(2)];
    RunSnoc(epoch, [], SawQc(2));
    RunSnoc(epoch, [SawQc(2)], SawQc(1));
    assert [SawQc(2)] + [SawQc(1)] == [SawQc(2), SawQc(1)];
    assert [] + [SawQc(1)] == [SawQc(1)] && [] + [SawQc(2)] == [SawQc(2)];
  }

  /** No field ever falls: a crash-free run never takes back a vote, a timeout or a certificate. */
  lemma {:induction false} StateOnlyRises(epoch: Epoch, h: seq<Event>, i: nat)
    requires i <= |h|
    ensures var before, after := Run(epoch, h[..i]), Run(epoch, h);
      && before.epoch == after.epoch
      && before.lastVotedRound <= after.lastVotedRound
      && before.preferredRound <= after.preferredRound
      && before.oneChainRound <= after.oneChainRound
      && before.highestTimeoutRound <= after.highestTimeoutRound
    decreases |h|
  {
    if i == |h| {
      assert h[..i] == h;
    } else {
      StateOnlyRises(epoch, h[..|h| - 1], i);
      assert h[..|h| - 1][..i] == h[..i];
    }
  }

  /** When `should_commit` answers, read off the history: it names the parent of a proposal exactly when the round
      before the proposal's is the highest ever observed. */
  lemma {:induction false} CommitsAfterHighestObserved(
      epoch: Epoch, h: seq<Event>, proposalRound: Round, parentId: BlockId)
    ensures ShouldCommit(Run(epoch, h), proposalRound, parentId) ==
      if proposalRound > 0 && IsMaxOf(proposalRound - 1, Rounds(ObservedBy, h)) then Some(parentId) else None
  {
    StateIsFunctionOfHistory(epoch, h);
    MaxIsUnique(Rounds(ObservedBy, h), Run(epoch, h).oneChainRound, proposalRound - 1);
  }
}

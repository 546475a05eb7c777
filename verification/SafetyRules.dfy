/** The 2-chain safety rules: persistent state, vote rule, timeout rule, and the state updates. */
module SafetyRules {
  import opened Types

  /** A snapshot of the persistent safety state; this is the value that is stored and reloaded. */
  datatype SafetyStateData = SafetyStateData(
    epoch: Epoch,
    lastVotedRound: Round,
    preferredRound: Round,
    oneChainRound: Round,
    highestTimeoutRound: Round)

  datatype SafetyError =
    | RoundOverflow(round: Round)
    | NotSafeToVote
    | NotSafeToTimeout
    | AlreadyVoted(lastVotedRound: Round)

  datatype TwoChainTimeout = TwoChainTimeout(epoch: Epoch, round: Round, hqcRound: Round)

  datatype TwoChainTimeoutCertificate = TwoChainTimeoutCertificate(
    epoch: Epoch, round: Round, hqcRound: Round, highestTcRound: Round)

  function Fresh(epoch: Epoch): SafetyStateData {
    SafetyStateData(epoch, 0, 0, 0, 0)
  }

  // ---------------------------------------------------------------- the two rules

  function NextRound(round: Round): (r: Result<Round, SafetyError>)
    ensures r.Ok? <==> round < U64_MAX
  {
    if round == U64_MAX then Err(RoundOverflow(round)) else Ok(round + 1)
  }

  /** The vote rule. An overflow in either round is an error even when the other condition holds. */
  function SafeToVoteImpl(blockRound: Round, qcRound: Round, tcRound: Option<Round>, tcHqcRound: Option<Round>)
    : (r: Outcome<SafetyError>)
    ensures r.Pass? <==>
      && qcRound < U64_MAX
      && (tcRound.Some? && tcHqcRound.Some? ==> tcRound.value < U64_MAX)
      && (|| blockRound == qcRound + 1
          || (tcRound.Some? && tcHqcRound.Some?
              && blockRound == tcRound.value + 1 && qcRound >= tcHqcRound.value))
    ensures r == Fail(NotSafeToVote) ==> blockRound != qcRound + 1
    ensures r.Fail? && r.error.RoundOverflow? ==> r.error.round == U64_MAX
    ensures r == Fail(RoundOverflow(U64_MAX)) <==>
      qcRound == U64_MAX || (tcRound == Some(U64_MAX) && tcHqcRound.Some?)
    ensures r.Fail? ==> r.error.RoundOverflow? || r.error.NotSafeToVote?
  {
    match NextRound(qcRound)
    case Err(e) => Fail(e)
    case Ok(afterQc) =>
      var normalProgression := blockRound == afterQc;
      if tcRound.Some? && tcHqcRound.Some? then
        match NextRound(tcRound.value)
        case Err(e) => Fail(e)
        case Ok(afterTc) =>
          if normalProgression || (blockRound == afterTc && qcRound >= tcHqcRound.value)
          then Pass else Fail(NotSafeToVote)
      else if normalProgression then Pass else Fail(NotSafeToVote)
  }

  /** The `unwrap` in the timeout rule panics on a TC for the last round, unless the QC already decides. */
  predicate TimeoutRulePanics(round: Round, qcRound: Round, tcRound: Option<Round>) {
    qcRound < U64_MAX && round != qcRound + 1 && tcRound == Some(U64_MAX)
  }

  /** The timeout rule. */
  function SafeToTimeoutImpl(s: SafetyStateData, round: Round, qcRound: Round, tcRound: Option<Round>)
    : (r: Outcome<SafetyError>)
    requires !TimeoutRulePanics(round, qcRound, tcRound)
    ensures r.Pass? <==>
      && qcRound < U64_MAX
      && (round == qcRound + 1 || (tcRound.Some? && round == tcRound.value + 1))
      && qcRound >= s.oneChainRound
  {
    match NextRound(qcRound)
    case Err(e) => Fail(e)
    case Ok(afterQc) =>
      var roundProgression := round == afterQc || (tcRound.Some? && round == tcRound.value + 1);
      if roundProgression && qcRound >= s.oneChainRound then Pass else Fail(NotSafeToTimeout)
  }

  /** `safe_to_vote` as coded: the QC's round is guessed from the proposal's, not read from its certificate. */
  function SafeToVote(proposalRound: Round, tc: Option<TwoChainTimeoutCertificate>): Outcome<SafetyError> {
    var qcRound := SaturatingSub(proposalRound, 1);
    match tc
    case Some(c) => SafeToVoteImpl(proposalRound, qcRound, Some(c.round), Some(c.hqcRound))
    case None => SafeToVoteImpl(proposalRound, qcRound, None, None)
  }

  /** The guess makes the rule say yes to every proposal past genesis, except that a TC for the last round overflows. */
  lemma GuessedRuleAlwaysPasses(proposalRound: Round, tc: Option<TwoChainTimeoutCertificate>)
    ensures SafeToVote(proposalRound, tc).Pass? <==>
      proposalRound > 0 && (tc.Some? ==> tc.value.round < U64_MAX)
  {
  }

  // ---------------------------------------------------------------- state updates, as functions

  function ObserveQc(s: SafetyStateData, qcRound: Round): SafetyStateData {
    s.(preferredRound := if qcRound == s.oneChainRound + 1 then Max(s.preferredRound, qcRound) else s.preferredRound,
       oneChainRound := Max(s.oneChainRound, qcRound))
  }

  function ObserveTc(s: SafetyStateData, tcRound: Round, hqcRound: Round): SafetyStateData {
    s.(highestTimeoutRound := Max(s.highestTimeoutRound, tcRound),
       oneChainRound := Max(s.oneChainRound, hqcRound))
  }

  function CheckRecordVote(s: SafetyStateData, round: Round): Outcome<SafetyError> {
    if round < s.lastVotedRound then Fail(AlreadyVoted(s.lastVotedRound)) else Pass
  }

  function RecordVote(s: SafetyStateData, round: Round): SafetyStateData {
    s.(lastVotedRound := Max(s.lastVotedRound, round))
  }

  function RecordTimeout(s: SafetyStateData, round: Round): SafetyStateData {
    s.(highestTimeoutRound := Max(s.highestTimeoutRound, round))
  }

  /** The commit decision as coded: it looks only at the proposal's round and the one-chain round. */
  function ShouldCommit(s: SafetyStateData, proposalRound: Round, parentId: BlockId): Option<BlockId> {
    if proposalRound > 0 && s.oneChainRound == proposalRound - 1 then Some(parentId) else None
  }

  // ---------------------------------------------------------------- the objects that update in place

  class SafetyState {
    var epoch: Epoch
    var lastVotedRound: Round
    var preferredRound: Round
    var oneChainRound: Round
    var highestTimeoutRound: Round

    constructor (data: SafetyStateData)
      ensures Data() == data
    {
      epoch := data.epoch;
      lastVotedRound := data.lastVotedRound;
      preferredRound := data.preferredRound;
      oneChainRound := data.oneChainRound;
      highestTimeoutRound := data.highestTimeoutRound;
    }

    function Data(): SafetyStateData
      reads this
    {
      SafetyStateData(epoch, lastVotedRound, preferredRound, oneChainRound, highestTimeoutRound)
    }

    method UpdateOneChainRound(newRound: Round) returns (updated: bool)
      modifies this
      ensures Data() == old(Data()).(oneChainRound := Max(old(oneChainRound), newRound))
      ensures updated <==> Data() != old(Data())
    {
      updated := newRound > oneChainRound;
      if updated {
        oneChainRound := newRound;
      }
    }

    method UpdatePreferredRound(newRound: Round) returns (updated: bool)
      modifies this
      ensures Data() == old(Data()).(preferredRound := Max(old(preferredRound), newRound))
      ensures updated <==> Data() != old(Data())
    {
      updated := newRound > preferredRound;
      if updated {
        preferredRound := newRound;
      }
    }

    method UpdateHighestTimeoutRound(newRound: Round) returns (updated: bool)
      modifies this
      ensures Data() == old(Data()).(highestTimeoutRound := Max(old(highestTimeoutRound), newRound))
      ensures updated <==> Data() != old(Data())
    {
      updated := newRound > highestTimeoutRound;
      if updated {
        highestTimeoutRound := newRound;
      }
    }
  }

  class TwoChainSafetyRules {
    const state: SafetyState

    constructor New(epoch: Epoch)
      ensures fresh(state) && state.Data() == Fresh(epoch)
    {
      state := new SafetyState(Fresh(epoch));
    }

    constructor WithState(data: SafetyStateData)
      ensures fresh(state) && state.Data() == data
    {
      state := new SafetyState(data);
    }

    /** The unchecked `one_chain_round + 1` needs room; it is compared and never stored. */
    method ObserveQcRound(qcRound: Round)
      requires state.oneChainRound < U64_MAX
      modifies state
      ensures state.Data() == ObserveQc(old(state.Data()), qcRound)
    {
      if qcRound == state.oneChainRound + 1 {
        var _ := state.UpdatePreferredRound(qcRound);
      }
      var _ := state.UpdateOneChainRound(qcRound);
    }

    method ObserveTimeoutCertificate(tc: TwoChainTimeoutCertificate)
      modifies state
      ensures state.Data() == ObserveTc(old(state.Data()), tc.round, tc.hqcRound)
    {
      var _ := state.UpdateHighestTimeoutRound(tc.round);
      var _ := state.UpdateOneChainRound(tc.hqcRound);
    }

    method RecordVoteRound(round: Round) returns (r: Outcome<SafetyError>)
      modifies state
      ensures r == CheckRecordVote(old(state.Data()), round)
      ensures state.Data() == if r.Pass? then RecordVote(old(state.Data()), round) else old(state.Data())
    {
      if round < state.lastVotedRound {
        return Fail(AlreadyVoted(state.lastVotedRound));
      }
      if round > state.lastVotedRound {
        state.lastVotedRound := round;
      }
      return Pass;
    }

    method RecordTimeoutRound(round: Round)
      modifies state
      ensures state.Data() == RecordTimeout(old(state.Data()), round)
    {
      var _ := state.UpdateHighestTimeoutRound(round);
    }
  }
}

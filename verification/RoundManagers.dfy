/** The round manager: votes in, quorum certificates out, and rounds advanced on timeout. */
module RoundManagers {
  import opened Types
  import opened VotingPower
  import opened Aggregation
  import opened Votes
  import opened SafetyRules

  /** `signers` records whose signatures the aggregated signature combines. */
  datatype QuorumCert = QuorumCert(round: Round, blockId: BlockId, signers: set<NodeId>)

  datatype Proposal = Proposal(id: BlockId, round: Round, parentId: BlockId, signatureOk: bool)

  /** How the abstract cryptography answers: whether signatures aggregate, and whether `from_votes` accepts them. */
  datatype Crypto = Crypto(aggregates: bool, buildsQc: bool)

  datatype ProposalResult = ProposalAccepted | ProposalOldRound | ProposalFutureRound

  datatype RmError =
    | InvalidVote
    | TooLittlePower
    | AggregationFailed
    | QcRejected
    | BadSignature
    | Unsafe(why: SafetyError)

  datatype RoundStateData = RoundStateData(
    epoch: Epoch, round: Round, proposedBlock: Option<Proposal>, quorumCert: Option<QuorumCert>)

  datatype Rm = Rm(rs: RoundStateData, pending: PendingState, safety: SafetyStateData)

  function NewRm(maxBufferedRounds: u64, safety: SafetyStateData): Rm {
    Rm(RoundStateData(0, 0, None, None), PendingState(map[], 0, maxBufferedRounds), safety)
  }

  // ---------------------------------------------------------------- the operations, as functions

  /** The certificate that comes of forming one now, or the reason there is none. */
  ghost function QcFor(rm: Rm, key: VoteKey, validators: map<NodeId, u64>, crypto: Crypto)
    : Result<QuorumCert, RmError>
  {
    var signers := Signers(validators, VotesFor(rm.pending, key));
    if !HasQuorumPower(validators, signers) then Err(TooLittlePower)
    else if !crypto.aggregates then Err(AggregationFailed)
    else if !crypto.buildsQc then Err(QcRejected)
    else Ok(QuorumCert(key.0, key.1, signers))
  }

  function AdoptQc(rm: Rm, qc: QuorumCert): Rm {
    Rm(rm.rs.(quorumCert := Some(qc)), RemoveRound(rm.pending, qc.round), ObserveQc(rm.safety, qc.round))
  }

  /** The new state, the answer, and the certificate formed, if any. A failed formation keeps the vote. */
  ghost function ProcessVote(rm: Rm, vote: Vote, validators: map<NodeId, u64>, crypto: Crypto)
    : (Rm, Result<VoteReceptionResult, RmError>, Option<QuorumCert>)
  {
    if !vote.authentic then (rm, Err(InvalidVote), None)
    else if vote.epoch != rm.rs.epoch then (rm, Ok(Rejected), None)
    else
      var (pending, r) := AddVote(rm.pending, vote, validators);
      var stored := rm.(pending := pending);
      if r != QuorumCompleted then (stored, Ok(r), None)
      else
        match QcFor(stored, KeyOf(vote), validators, crypto)
        case Err(e) => (stored, Err(e), None)
        case Ok(qc) => (AdoptQc(stored, qc), Ok(r), Some(qc))
  }

  /** Asks leave to time out of the next round with the best QC known, then moves on. */
  function ProcessTimeout(rm: Rm): (Rm, Outcome<RmError>)
    requires rm.rs.round < U64_MAX
  {
    match SafeToTimeoutImpl(rm.safety, rm.rs.round + 1, rm.safety.oneChainRound, None)
    case Fail(e) => (rm, Fail(Unsafe(e)))
    case Pass =>
      (Rm(rm.rs.(round := rm.rs.round + 1, proposedBlock := None),
          SetRound(rm.pending, rm.rs.round + 1),
          RecordTimeout(rm.safety, rm.rs.round)), Pass)
  }

  function TryVote(rm: Rm, proposal: Proposal, tc: Option<TwoChainTimeoutCertificate>): (Rm, Outcome<RmError>) {
    if proposal.round < rm.safety.lastVotedRound then (rm, Fail(Unsafe(AlreadyVoted(rm.safety.lastVotedRound))))
    else
      match SafeToVote(proposal.round, tc)
      case Fail(e) => (rm, Fail(Unsafe(e)))
      case Pass => (rm.(safety := RecordVote(rm.safety, proposal.round)), Pass)
  }

  function ProcessProposal(rm: Rm, proposal: Proposal): (Rm, Result<ProposalResult, RmError>) {
    if proposal.round < rm.rs.round then (rm, Ok(ProposalOldRound))
    else if proposal.round > rm.rs.round then (rm, Ok(ProposalFutureRound))
    else if !proposal.signatureOk then (rm, Err(BadSignature))
    else (rm.(rs := rm.rs.(proposedBlock := Some(proposal))), Ok(ProposalAccepted))
  }

  function StartRound(rm: Rm, round: Round): Rm {
    rm.(rs := rm.rs.(round := round, proposedBlock := None), pending := SetRound(rm.pending, round))
  }

  // ---------------------------------------------------------------- the objects

  class RoundState {
    var epoch: Epoch
    var round: Round
    var proposedBlock: Option<Proposal>
    var quorumCert: Option<QuorumCert>

    constructor (initialEpoch: Epoch, initialRound: Round)
      ensures Data() == RoundStateData(initialEpoch, initialRound, None, None)
    {
      epoch, round, proposedBlock, quorumCert := initialEpoch, initialRound, None, None;
    }

    function Data(): RoundStateData
      reads this
    {
      RoundStateData(epoch, round, proposedBlock, quorumCert)
    }

    method SetRoundTo(newRound: Round)
      modifies this`round, this`proposedBlock
      ensures Data() == old(Data()).(round := newRound, proposedBlock := None)
    {
      round := newRound;
      proposedBlock := None;
    }

    method AdvanceRound()
      requires round < U64_MAX
      modifies this`round, this`proposedBlock
      ensures Data() == old(Data()).(round := old(round) + 1, proposedBlock := None)
    {
      round := round + 1;
      proposedBlock := None;
    }
  }

  class RoundManager {
    const roundState: RoundState
    const pendingVotes: PendingVotes
    const safetyRules: TwoChainSafetyRules

    constructor (maxBufferedRounds: u64, safetyRules: TwoChainSafetyRules)
      ensures this.safetyRules == safetyRules && fresh(roundState) && fresh(pendingVotes)
      ensures State() == NewRm(maxBufferedRounds, safetyRules.state.Data())
    {
      roundState := new RoundState(0, 0);
      pendingVotes := new PendingVotes(maxBufferedRounds);
      this.safetyRules := safetyRules;
    }

    function State(): Rm
      reads roundState, pendingVotes, safetyRules.state
    {
      Rm(roundState.Data(), pendingVotes.State(), safetyRules.state.Data())
    }

    method TryVoteForProposal(proposal: Proposal, tc: Option<TwoChainTimeoutCertificate>) returns (r: Outcome<RmError>)
      modifies safetyRules.state
      ensures (State(), r) == TryVote(old(State()), proposal, tc)
    {
      var lastVoted := safetyRules.state.lastVotedRound;
      if proposal.round < lastVoted {
        return Fail(Unsafe(AlreadyVoted(lastVoted)));
      }
      var safe := SafeToVote(proposal.round, tc);
      if safe.Fail? {
        return Fail(Unsafe(safe.error));
      }
      // Recording repeats the check made above, so it cannot fail here.
      var recorded := safetyRules.RecordVoteRound(proposal.round);
      assert recorded.Pass?;
      return Pass;
    }

    method HandleProposal(proposal: Proposal) returns (r: Result<ProposalResult, RmError>)
      modifies roundState
      ensures (State(), r) == ProcessProposal(old(State()), proposal)
    {
      if roundState.round != proposal.round {
        return if proposal.round < roundState.round then Ok(ProposalOldRound) else Ok(ProposalFutureRound);
      }
      if !proposal.signatureOk {
        return Err(BadSignature);
      }
      roundState.proposedBlock := Some(proposal);
      return Ok(ProposalAccepted);
    }

    method HandleVote(vote: Vote, verifier: ValidatorSet, crypto: Crypto)
      returns (r: Result<VoteReceptionResult, RmError>, ghost formed: Option<QuorumCert>)
      requires verifier.Valid()
      requires ProcessVote(State(), vote, verifier.validators, crypto).2.Some? ==>
        safetyRules.state.oneChainRound < U64_MAX
      modifies roundState, pendingVotes, safetyRules.state
      ensures (State(), r, formed) == ProcessVote(old(State()), vote, verifier.validators, crypto)
    {
      formed := None;
      if !vote.authentic {
        return Err(InvalidVote), None;
      }
      if vote.epoch != roundState.epoch {
        return Ok(Rejected), None;
      }
      var result := pendingVotes.ReceiveVote(vote, verifier);
      if result == QuorumCompleted {
        var qc := FormQuorumCertificate((vote.round, vote.blockId), verifier, crypto);
        if qc.Err? {
          return Err(qc.error), None;
        }
        formed := Some(qc.value);
      }
      r := Ok(result);
    }

    method FormQuorumCertificate(key: VoteKey, verifier: ValidatorSet, crypto: Crypto)
      returns (qc: Result<QuorumCert, RmError>)
      requires verifier.Valid()
      requires QcFor(State(), key, verifier.validators, crypto).Ok? ==> safetyRules.state.oneChainRound < U64_MAX
      modifies roundState, pendingVotes, safetyRules.state
      ensures qc == QcFor(old(State()), key, verifier.validators, crypto)
      ensures State() == if qc.Ok? then AdoptQc(old(State()), qc.value) else old(State())
    {
      var votes := if key in pendingVotes.votes then pendingVotes.votes[key] else map[];
      var aggregator := Aggregate(votes, verifier);
      var checked := aggregator.CheckQuorum(verifier);
      if checked.Fail? {
        return Err(TooLittlePower);
      }
      if !crypto.aggregates {
        return Err(AggregationFailed);
      }
      if !crypto.buildsQc {
        return Err(QcRejected);
      }
      var cert := QuorumCert(key.0, key.1, aggregator.signatures.Keys);
      safetyRules.ObserveQcRound(cert.round);
      roundState.quorumCert := Some(cert);
      pendingVotes.RemoveVotesOf(key.0);
      return Ok(cert);
    }

    method HandleTimeout() returns (r: Outcome<RmError>)
      requires roundState.round < U64_MAX
      modifies roundState, pendingVotes, safetyRules.state
      ensures (State(), r) == ProcessTimeout(old(State()))
    {
      var currentRound := roundState.round;
      var qcRound := safetyRules.state.oneChainRound;
      var safe := SafeToTimeoutImpl(safetyRules.state.Data(), currentRound + 1, qcRound, None);
      if safe.Fail? {
        return Fail(Unsafe(safe.error));
      }
      safetyRules.RecordTimeoutRound(currentRound);
      roundState.AdvanceRound();
      pendingVotes.SetCurrentRound(roundState.round);
      return Pass;
    }

    method BeginRound(round: Round)
      modifies roundState, pendingVotes
      ensures State() == StartRound(old(State()), round)
    {
      roundState.SetRoundTo(round);
      pendingVotes.SetCurrentRound(round);
    }
  }
}

/** The round manager's state as a function of what happened to it: proposed block, certificate and safety state. */
module RoundManagerHistory {
  import opened Types
  import opened Aggregation
  import opened Votes
  import opened SafetyRules
  import opened RoundManagers
  import opened RoundManagerRuns
  import SafetyHistory

  // ---------------------------------------------------------------- proposals

  /** What a proposal is answered, and that nothing but an accepted one has any effect. */
  lemma ProposalAnswers(rm: Rm, p: Proposal)
    ensures var (next, r) := ProcessProposal(rm, p);
      && (r == Ok(ProposalOldRound) <==> p.round < rm.rs.round)
      && (r == Ok(ProposalFutureRound) <==> p.round > rm.rs.round)
      && (r == Err(BadSignature) <==> p.round == rm.rs.round && !p.signatureOk)
      && (r == Ok(ProposalAccepted) <==> p.round == rm.rs.round && p.signatureOk)
      && (r != Ok(ProposalAccepted) ==> next == rm)
  {
  }

  /** A well-signed proposal of the manager's round. */
  predicate GoodProposal(rm: Rm, e: Event) {
    e.ProposalArrives? && e.proposal.signatureOk && e.proposal.round == rm.rs.round
  }

  /** Entering a round: one is started by hand, or a timeout is granted, which takes a certificate of the round. */
  predicate EntersRound(rm: Rm, e: Event) {
    e.RoundStarts? || (e.TimeoutFires? && rm.rs.round < U64_MAX && rm.rs.round == rm.safety.oneChainRound)
  }

  ghost predicate GoodProposalAt(start: Rm, h: seq<Event>, validators: map<NodeId, u64>, i: int)
    requires 0 <= i < |h|
  {
    GoodProposal(Run(start, h[..i], validators).rm, h[i])
  }

  ghost predicate EntersRoundAt(start: Rm, h: seq<Event>, validators: map<NodeId, u64>, i: int)
    requires 0 <= i < |h|
  {
    EntersRound(Run(start, h[..i], validators).rm, h[i])
  }

  lemma ProposedBlockStep(t: Trace, e: Event, validators: map<NodeId, u64>)
    ensures var before, after := t.rm.rs, Next(t, e, validators).rm.rs;
      && (GoodProposal(t.rm, e) ==> after.proposedBlock == Some(e.proposal) && after.round == before.round)
      && (EntersRound(t.rm, e) ==> after.proposedBlock == None)
      && (!GoodProposal(t.rm, e) && !EntersRound(t.rm, e) ==>
            after.proposedBlock == before.proposedBlock && after.round == before.round)
  {
    if t.rm.rs.round < U64_MAX {
      TimeoutNeedsQcOfThisRound(t.rm);
    }
  }

  /** A proposed block is the last well-signed proposal delivered for the manager's round since that round was entered;
      without one, every such proposal was followed by a new round. */
  lemma {:induction false} ProposedBlockHistory(start: Rm, h: seq<Event>, validators: map<NodeId, u64>) returns (i: int)
    requires start.rs.proposedBlock == None
    ensures var rs := Run(start, h, validators).rm.rs;
      rs.proposedBlock.Some? ==>
        && 0 <= i < |h| && GoodProposalAt(start, h, validators, i)
        && rs.proposedBlock == Some(h[i].proposal) && rs.round == h[i].proposal.round
        && forall j | i < j < |h| ::
          !EntersRoundAt(start, h, validators, j) && !GoodProposalAt(start, h, validators, j)
    ensures Run(start, h, validators).rm.rs.proposedBlock.None? ==>
      forall j | 0 <= j < |h| && GoodProposalAt(start, h, validators, j) :: EnteredAfter(start, h, validators, j)
  {
    i := -1;
    if h != [] {
      var n := |h| - 1;
      var g := h[..n];
      i := ProposedBlockHistory(start, g, validators);
      forall j | 0 <= j < n
        ensures GoodProposalAt(start, h, validators, j) <==> GoodProposalAt(start, g, validators, j)
        ensures EntersRoundAt(start, h, validators, j) <==> EntersRoundAt(start, g, validators, j)
      {
        assert g[..j] == h[..j] && g[j] == h[j];
      }
      ProposedBlockStep(Run(start, g, validators), h[n], validators);
      if GoodProposalAt(start, h, validators, n) {
        i := n;
      }
      forall j | 0 <= j < n && (EnteredAfter(start, g, validators, j) || EntersRoundAt(start, h, validators, n))
        ensures EnteredAfter(start, h, validators, j)
      {
        if EnteredAfter(start, g, validators, j) {
          var m :| j < m < n && EntersRoundAt(start, g, validators, m);
          assert EntersRoundAt(start, h, validators, m);
        }
      }
    }
  }

  ghost predicate EnteredAfter(start: Rm, h: seq<Event>, validators: map<NodeId, u64>, i: int) {
    exists m :: 0 <= i < m < |h| && EntersRoundAt(start, h, validators, m)
  }

  // ---------------------------------------------------------------- certificates

  /** The certificate on record is the last one formed. */
  lemma {:induction false} StoredQcIsLastFormed(start: Rm, h: seq<Event>, validators: map<NodeId, u64>)
    requires start.rs.quorumCert == None
    ensures var t := Run(start, h, validators);
      t.rm.rs.quorumCert == if t.formed == [] then None else Some(t.formed[|t.formed| - 1])
  {
    if h != [] {
      StoredQcIsLastFormed(start, h[..|h| - 1], validators);
    }
  }

  // ---------------------------------------------------------------- the safety state

  /** What an event means to the safety rules: a certificate formed is one observed, a granted timeout gives up on the
      manager's round, a vote granted is a vote, and a caller's own use of the rules is itself. */
  ghost function MeansToSafety(t: Trace, e: Event, validators: map<NodeId, u64>): seq<SafetyHistory.Event> {
    match e
    case VoteArrives(_, _) =>
      var formed := Next(t, e, validators).formed;
      if |formed| > |t.formed| then [SafetyHistory.SawQc(formed[|formed| - 1].round)] else []
    case TimeoutFires =>
      if t.rm.rs.round < U64_MAX && t.rm.rs.round == t.rm.safety.oneChainRound
      then [SafetyHistory.TimedOut(t.rm.rs.round)] else []
    case TriesToVote(p, tc) =>
      if p.round > 0 && p.round >= t.rm.safety.lastVotedRound && (tc.Some? ==> tc.value.round < U64_MAX)
      then [SafetyHistory.Voted(p.round)] else []
    case SafetyChanges(c) => [c]
    case ProposalArrives(_) => []
    case RoundStarts(_) => []
  }

  ghost function SafetyEvents(start: Rm, h: seq<Event>, validators: map<NodeId, u64>): seq<SafetyHistory.Event> {
    if h == [] then [] else
      var g := h[..|h| - 1];
      SafetyEvents(start, g, validators) + MeansToSafety(Run(start, g, validators), h[|h| - 1], validators)
  }

  lemma SafetyStep(t: Trace, e: Event, validators: map<NodeId, u64>)
    ensures var means, after := MeansToSafety(t, e, validators), Next(t, e, validators).rm.safety;
      && |means| <= 1
      && after == if means == [] then t.rm.safety else SafetyHistory.Apply(t.rm.safety, means[0])
  {
    if e.TimeoutFires? && t.rm.rs.round < U64_MAX {
      TimeoutNeedsQcOfThisRound(t.rm);
    } else if e.TriesToVote? {
      GuessedRuleAlwaysPasses(e.wanted.round, e.tc);
    }
  }

  /** The manager's safety state is the one its history of certificates, timeouts and votes implies: everything proved
      of such histories holds of it. */
  lemma {:induction false} SafetyFollowsHistory(
      start: Rm, h: seq<Event>, validators: map<NodeId, u64>, epoch: Epoch, past: seq<SafetyHistory.Event>)
    requires start.safety == SafetyHistory.Run(epoch, past)
    ensures Run(start, h, validators).rm.safety == SafetyHistory.Run(epoch, past + SafetyEvents(start, h, validators))
  {
    if h == [] {
      assert past + SafetyEvents(start, h, validators) == past;
    } else {
      var g, e := h[..|h| - 1], h[|h| - 1];
      hide Next, MeansToSafety;
      SafetyFollowsHistory(start, g, validators, epoch, past);
      var earlier := past + SafetyEvents(start, g, validators);
      var means := MeansToSafety(Run(start, g, validators), e, validators);
      SafetyStep(Run(start, g, validators), e, validators);
      assert past + SafetyEvents(start, h, validators) == earlier + means;
      if means == [] {
        assert earlier + means == earlier;
      } else {
        assert means == [means[0]];
        SafetyHistory.RunSnoc(epoch, earlier, means[0]);
      }
    }
  }
}

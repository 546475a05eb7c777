/** From the votes a round manager collects to agreement: certificates formed anywhere commit to one chain. */
module EndToEnd {
  import opened Types
  import opened VotingPower
  import opened SafetyRules
  import opened Agreement
  import Aggregation
  import Votes
  import RoundManagers
  import RoundManagerRuns

  /** Hashes do not collide. */
  ghost predicate CollisionFree(idOf: Block -> BlockId) {
    forall a, b :: idOf(a) == idOf(b) ==> a == b
  }

  /** Honest signatures are not forged: a vote delivered in an honest validator's name was cast in the world. Nothing is
      asked of votes in other names, which may carry any round and any block id. */
  ghost predicate Unforged(
      cfg: Config, w: World, idOf: Block -> BlockId, start: RoundManagers.Rm, h: seq<RoundManagerRuns.Event>)
  {
    forall v | RoundManagerRuns.Submitted(start, h, v) && cfg.Honest(v.author) ::
      exists b :: VoteMsg(v.author, b) in w.votes && RoundOf(b) == v.round && idOf(b) == v.blockId
  }

  lemma UnforgedGrows(
      cfg: Config, w: World, w': World, idOf: Block -> BlockId, start: RoundManagers.Rm, h: seq<RoundManagerRuns.Event>)
    requires Grows(w, w') && Unforged(cfg, w, idOf, start, h)
    ensures Unforged(cfg, w', idOf, start, h)
  {
    forall v | RoundManagerRuns.Submitted(start, h, v) && cfg.Honest(v.author)
      ensures exists b :: VoteMsg(v.author, b) in w'.votes && RoundOf(b) == v.round && idOf(b) == v.blockId
    {
      var b :| VoteMsg(v.author, b) in w.votes && RoundOf(b) == v.round && idOf(b) == v.blockId;
      assert VoteMsg(v.author, b) in w'.votes;
    }
  }

  // ---------------------------------------------------------------- what the adversary could still send

  /** `longer` continues `run` by Byzantine votes alone. */
  ghost predicate OnlyFaultyVotesAdded(run: seq<Action>, longer: seq<Action>) {
    run <= longer && forall i | |run| <= i < |longer| :: longer[i].FaultyVote?
  }

  lemma {:induction false} LegalSnoc(d: Driver, cfg: Config, run: seq<Action>, a: Action)
    requires Legal(d, cfg, run) && Enabled(d, cfg, After(cfg, run), a)
    ensures Legal(d, cfg, run + [a])
    ensures After(cfg, run + [a]) == Perform(cfg, After(cfg, run), a)
  {
    hide CodeAllows, DriverAllows, Perform;
    var longer := run + [a];
    assert longer[..|run|] == run;
    forall i | 0 <= i < |longer| ensures Enabled(d, cfg, After(cfg, longer[..i]), longer[i]) {
      if i < |run| {
        assert longer[..i] == run[..i];
      }
    }
  }

  lemma {:induction false} OneFaultyVote(d: Driver, cfg: Config, run: seq<Action>, y: NodeId, b: Block)
    requires d.Driver? && d.MeetsObligations() && Legal(d, cfg, run) && !cfg.Honest(y)
    ensures var longer := run + [FaultyVote(y, b)];
      && Legal(d, cfg, longer)
      && After(cfg, longer) == After(cfg, run).(votes := After(cfg, run).votes + {VoteMsg(y, b)})
  {
    InvHolds(d, cfg, run);
    LegalSnoc(d, cfg, run, FaultyVote(y, b));
  }

  /** In any legal run the Byzantine validators could go on to vote for any block. */
  lemma {:induction false} FaultyVotesFor(
      d: Driver, cfg: Config, run: seq<Action>, b: Block, faulty: set<NodeId>)
    returns (longer: seq<Action>)
    requires d.Driver? && d.MeetsObligations() && Legal(d, cfg, run)
    requires forall y | y in faulty :: !cfg.Honest(y)
    ensures Legal(d, cfg, longer) && OnlyFaultyVotesAdded(run, longer)
    ensures Grows(After(cfg, run), After(cfg, longer))
    ensures forall y | y in faulty :: VoteMsg(y, b) in After(cfg, longer).votes
    decreases faulty
  {
    hide Legal, After;
    longer := run;
    if faulty != {} {
      var y :| y in faulty;
      longer := FaultyVotesFor(d, cfg, run, b, faulty - {y});
      OneFaultyVote(d, cfg, longer, y, b);
      longer := longer + [FaultyVote(y, b)];
    }
  }

  // ---------------------------------------------------------------- from certificates to agreement

  /** An honest signer of a certificate voted for a block of its round and id. */
  lemma {:induction false} SignerVoted(
      cfg: Config, w: World, idOf: Block -> BlockId, start: RoundManagers.Rm, h: seq<RoundManagerRuns.Event>,
      qc: RoundManagers.QuorumCert, accepted: set<Aggregation.Vote>, x: NodeId)
    returns (b: Block)
    requires Unforged(cfg, w, idOf, start, h) && cfg.Honest(x)
    requires forall v | v in accepted :: RoundManagerRuns.Submitted(start, h, v)
    requires RoundManagerRuns.QcSound(qc, accepted, cfg.validators) && x in qc.signers
    ensures VoteMsg(x, b) in w.votes && RoundOf(b) == qc.round && idOf(b) == qc.blockId
  {
    var v :| v in accepted && v.author == x && Votes.KeyOf(v) == (qc.round, qc.blockId);
    b :| VoteMsg(v.author, b) in w.votes && RoundOf(b) == v.round && idOf(b) == v.blockId;
  }

  /** A certificate formed by a round manager names a real block of its round, for which all its honest signers
      voted. */
  lemma {:induction false} FormedQcNamesBlock(
      cfg: Config, w: World, idOf: Block -> BlockId,
      start: RoundManagers.Rm, h: seq<RoundManagerRuns.Event>, qc: RoundManagers.QuorumCert)
    returns (b: Block)
    requires cfg.Valid() && CollisionFree(idOf) && Unforged(cfg, w, idOf, start, h)
    requires start.pending.votes == map[]
    requires qc in RoundManagerRuns.Run(start, h, cfg.validators).formed
    ensures RoundOf(b) == qc.round && idOf(b) == qc.blockId
    ensures qc.signers <= cfg.validators.Keys && HasQuorumPower(cfg.validators, qc.signers)
    ensures forall y | y in qc.signers && cfg.Honest(y) :: VoteMsg(y, b) in w.votes
  {
    RoundManagerRuns.EveryQcIsSound(start, h, cfg.validators);
    RoundManagerRuns.AcceptedWereSubmitted(start, h, cfg.validators);
    var accepted := RoundManagerRuns.Run(start, h, cfg.validators).accepted;
    assert RoundManagerRuns.QcSound(qc, accepted, cfg.validators);
    var x := QuorumsShareMemberOutside(cfg.validators, qc.signers, qc.signers, cfg.byzantine);
    b := SignerVoted(cfg, w, idOf, start, h, qc, accepted, x);
    forall y | y in qc.signers && cfg.Honest(y) ensures VoteMsg(y, b) in w.votes {
      var c := SignerVoted(cfg, w, idOf, start, h, qc, accepted, y);
      assert c == b;
    }
  }

  /** And it certifies that block, in the run or in the run with the votes its dishonest signers never owned up to. */
  lemma {:induction false} FormedQcCertifies(
      d: Driver, cfg: Config, run: seq<Action>, idOf: Block -> BlockId,
      start: RoundManagers.Rm, h: seq<RoundManagerRuns.Event>, qc: RoundManagers.QuorumCert)
    returns (b: Block, longer: seq<Action>)
    requires d.Driver? && d.MeetsObligations() && cfg.Valid() && Legal(d, cfg, run)
    requires CollisionFree(idOf) && Unforged(cfg, After(cfg, run), idOf, start, h)
    requires start.pending.votes == map[]
    requires qc in RoundManagerRuns.Run(start, h, cfg.validators).formed
    ensures Legal(d, cfg, longer) && OnlyFaultyVotesAdded(run, longer)
    ensures Grows(After(cfg, run), After(cfg, longer))
    ensures Certified(cfg, After(cfg, longer), b) && RoundOf(b) == qc.round && idOf(b) == qc.blockId
  {
    b := FormedQcNamesBlock(cfg, After(cfg, run), idOf, start, h, qc);
    longer := FaultyVotesFor(d, cfg, run, b, set y | y in qc.signers && !cfg.Honest(y));
    var w := After(cfg, longer);
    forall y | y in qc.signers ensures y in Voters(w.votes, b) {
      assert VoteMsg(y, b) in w.votes;
    }
    SumMonotone(qc.signers, Voters(w.votes, b), WeightIn(cfg.validators));
  }

  /** Two managers anywhere, each with a certificate for a child in the round after its parent: the parents lie on one
      chain, whatever votes the Byzantine validators sent to whom. */
  lemma {:induction false} ManagersAgree(
      d: Driver, cfg: Config, run: seq<Action>, idOf: Block -> BlockId,
      start1: RoundManagers.Rm, h1: seq<RoundManagerRuns.Event>, qc1: RoundManagers.QuorumCert, b1: Block,
      start2: RoundManagers.Rm, h2: seq<RoundManagerRuns.Event>, qc2: RoundManagers.QuorumCert, b2: Block)
    requires d.Driver? && d.MeetsObligations() && cfg.Valid() && Legal(d, cfg, run) && CollisionFree(idOf)
    requires Unforged(cfg, After(cfg, run), idOf, start1, h1) && Unforged(cfg, After(cfg, run), idOf, start2, h2)
    requires start1.pending.votes == map[] && start2.pending.votes == map[]
    requires qc1 in RoundManagerRuns.Run(start1, h1, cfg.validators).formed && qc1.blockId == idOf(b1)
    requires qc2 in RoundManagerRuns.Run(start2, h2, cfg.validators).formed && qc2.blockId == idOf(b2)
    requires b1.Child? && b1.round == RoundOf(b1.parent) + 1
    requires b2.Child? && b2.round == RoundOf(b2.parent) + 1
    ensures Extends(b1.parent, b2.parent) || Extends(b2.parent, b1.parent)
  {
    var c1, run1 := FormedQcCertifies(d, cfg, run, idOf, start1, h1, qc1);
    UnforgedGrows(cfg, After(cfg, run), After(cfg, run1), idOf, start2, h2);
    var c2, run2 := FormedQcCertifies(d, cfg, run1, idOf, start2, h2, qc2);
    assert c1 == b1 && c2 == b2;
    var w := After(cfg, run2);
    CertifiedGrows(cfg, After(cfg, run1), w, b1);
    assert CommittedBy(cfg, w, b1.parent, b1) && CommittedBy(cfg, w, b2.parent, b2);
    assert Committed(cfg, w, b1.parent) && Committed(cfg, w, b2.parent);
    InvHolds(d, cfg, run2);
    AgreementInWorld(cfg, w);
  }

  // ---------------------------------------------------------------- a round manager's own steps are steps of the world

  /** `try_vote_for_proposal` lets through exactly the votes the world does, and leaves the same safety state. */
  lemma TriedVoteIsStep(
      cfg: Config, w: World, v: NodeId, rm: RoundManagers.Rm, proposal: RoundManagers.Proposal, b: Block,
      tc: Option<TwoChainTimeoutCertificate>, save: bool)
    requires v in w.rules && w.rules[v] == rm.safety && proposal.round == RoundOf(b)
    ensures var (after, r) := RoundManagers.TryVote(rm, proposal, tc);
      && (r.Pass? <==> CodeAllows(w, CastVote(v, b, tc, save)))
      && (r.Pass? ==> Perform(cfg, w, CastVote(v, b, tc, save)).rules[v] == after.safety)
  {
  }

  /** `process_timeout` asks about the round after its own and records its own. What it grants is a timeout of the round
      right after the QC it carries, which is all that agreement needs of timeouts. */
  lemma GrantedTimeoutIsStep(cfg: Config, w: World, v: NodeId, rm: RoundManagers.Rm, save: bool)
    requires v in w.rules && w.rules[v] == rm.safety && rm.rs.round < U64_MAX
    requires RoundManagers.ProcessTimeout(rm).1.Pass?
    ensures var a := SendTimeout(v, rm.rs.round + 1, rm.safety.oneChainRound, None, rm.rs.round, save);
      && Enabled(PlainDriver, cfg, w, a)
      && Perform(cfg, w, a).rules[v] == RoundManagers.ProcessTimeout(rm).0.safety
  {
  }
}

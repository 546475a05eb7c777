/** Each obligation the code leaves to its driver is necessary: dropping any one lets the chain fork. */
module DriverObligations {
  import opened Types
  import opened VotingPower
  import opened SafetyRules
  import opened Agreement

  ghost predicate DriverIsSafe(d: Driver) {
    forall cfg: Config, run | cfg.Valid() && Legal(d, cfg, run) :: CommitsAgree(cfg, After(cfg, run))
  }

  /** `TwoChainTimeoutCertificate::verify`: internal consistency, and nothing about who stands behind it. */
  predicate TcVerifies(tc: TwoChainTimeoutCertificate) {
    tc.hqcRound < tc.round && tc.highestTcRound < tc.round
  }

  // ---------------------------------------------------------------- one honest validator, no faults

  const Solo := Config(map[0 := 1], {}, 0)

  /** Every TC handed over verifies, and one handed to the timeout rule has a quorum behind it. */
  ghost predicate TcInOrder(w: World, a: Action) {
    && ((a.CastVote? || a.SendTimeout?) && a.withTc.Some? ==> TcVerifies(a.withTc.value))
    && (a.SendTimeout? && a.withTc.Some? ==> GenuineTc(Solo, w, a.withTc.value))
  }

  ghost predicate TcsInOrder(run: seq<Action>) {
    forall i | 0 <= i < |run| :: TcInOrder(After(Solo, run[..i]), run[i])
  }

  /** Some legal run forks although every validator is honest and TCs are in order. */
  ghost predicate Forks(d: Driver) {
    exists run :: Legal(d, Solo, run) && TcsInOrder(run) && !CommitsAgree(Solo, After(Solo, run))
  }

  lemma {:induction false} ForksIsUnsafe(d: Driver)
    requires Forks(d)
    ensures !DriverIsSafe(d)
  {
    SoloPower();
  }

  lemma {:induction false} SoloPower()
    ensures Solo.Valid() && PowerOf(Solo.validators, {0}) == 1 && TotalPower(Solo.validators) == 1
  {
    var zero: NodeId := 0;
    var one: set<NodeId> := {zero};
    SumRemove(one, WeightIn(Solo.validators), zero);
    assert one - {zero} == {} && one == Solo.validators.Keys;
  }

  lemma {:induction false} SoloCertifies(w: World, b: Block)
    requires VoteMsg(0, b) in w.votes
    ensures Certified(Solo, w, b)
  {
    SoloPower();
    assert 0 in Voters(w.votes, b);
    SumMonotone({0}, Voters(w.votes, b), WeightIn(Solo.validators));
  }

  lemma {:induction false} SoloTc(w: World, tc: TwoChainTimeoutCertificate)
    requires TimeoutMsg(0, TwoChainTimeout(tc.epoch, tc.round, tc.hqcRound)) in w.timeouts
    ensures GenuineTc(Solo, w, tc)
  {
    var t := TimeoutMsg(0, TwoChainTimeout(tc.epoch, tc.round, tc.hqcRound));
    var q := {t};
    SoloPower();
    assert t in q && Senders(q) == {0};
    assert Backs(Solo, w, tc, q);
  }

  ghost predicate Reaches(d: Driver, w: World) {
    exists run :: Legal(d, Solo, run) && TcsInOrder(run) && After(Solo, run) == w
  }

  lemma {:induction false} Reach(d: Driver, w: World, a: Action)
    requires Reaches(d, w) && Enabled(d, Solo, w, a) && TcInOrder(w, a)
    ensures Reaches(d, Perform(Solo, w, a))
  {
    hide CodeAllows, DriverAllows, Perform, TcInOrder;
    var run :| Legal(d, Solo, run) && TcsInOrder(run) && After(Solo, run) == w;
    var longer := run + [a];
    assert longer[..|run|] == run;
    forall i | 0 <= i < |longer|
      ensures Enabled(d, Solo, After(Solo, longer[..i]), longer[i]) && TcInOrder(After(Solo, longer[..i]), longer[i])
    {
      if i < |run| {
        assert longer[..i] == run[..i];
      }
    }
    assert Legal(d, Solo, longer) && TcsInOrder(longer) && After(Solo, longer) == Perform(Solo, w, a);
  }

  lemma {:induction false} SoloStart(d: Driver) returns (w: World)
    ensures Reaches(d, w) && 0 in w.rules && w.rules[0] == Fresh(0)
    ensures 0 !in w.saved && w.votes == {} && w.timeouts == {}
  {
    w := Init(Solo);
    assert Legal(d, Solo, []) && TcsInOrder([]) && After(Solo, []) == w;
  }

  lemma {:induction false} SoloVotes(
      d: Driver, w: World, b: Block, tc: Option<TwoChainTimeoutCertificate>, save: bool) returns (w': World)
    requires Reaches(d, w) && 0 in w.rules && b.Child? && (tc.Some? ==> TcVerifies(tc.value))
    requires SafeToVote(b.round, tc).Pass? && b.round >= w.rules[0].lastVotedRound
    requires d.UsesRealQcRound() ==> MeetsRealRule(b, tc)
    requires d.Driver? && d.oneVotePerRound ==> forall m | m in w.votes :: RoundOf(m.block) != b.round
    requires d.Driver? && d.noVoteAfterTimeout ==> forall t | t in w.timeouts :: t.timeout.round < b.round
    requires d.LocalDriver? ==> RoundIsNew(w.rules[0], b)
    requires d.ObservesQcFirst() ==> w.rules[0].oneChainRound >= QcRoundOf(b)
    requires d.ChecksParentQc() ==> b.parent.Genesis? || VoteMsg(0, b.parent) in w.votes
    requires d.ChecksTc() && tc.Some? ==>
      TimeoutMsg(0, TwoChainTimeout(tc.value.epoch, tc.value.round, tc.value.hqcRound)) in w.timeouts
    requires d.SavesVotesFirst() ==> save
    ensures Reaches(d, w') && 0 in w'.rules && w'.votes == w.votes + {VoteMsg(0, b)} && w'.timeouts == w.timeouts
    ensures w'.rules[0] == RecordVote(w.rules[0], b.round)
    ensures !save ==> w'.saved == w.saved
  {
    if d.ChecksParentQc() && b.parent.Child? {
      SoloCertifies(w, b.parent);
    }
    if d.ChecksTc() && tc.Some? {
      SoloTc(w, tc.value);
    }
    Reach(d, w, CastVote(0, b, tc, save));
    w' := Perform(Solo, w, CastVote(0, b, tc, save));
  }

  lemma {:induction false} SoloSeesQc(d: Driver, w: World, qcRound: Round) returns (w': World)
    requires Reaches(d, w) && 0 in w.rules
    ensures Reaches(d, w') && 0 in w'.rules && w'.votes == w.votes && w'.timeouts == w.timeouts && w'.saved == w.saved
    ensures w'.rules[0] == ObserveQc(w.rules[0], qcRound)
  {
    Reach(d, w, SeeQc(0, qcRound));
    w' := Perform(Solo, w, SeeQc(0, qcRound));
  }

  const GaveUpOnOne := TimeoutMsg(0, TwoChainTimeout(0, 1, 0))
  const GaveUpOnTwo := TimeoutMsg(0, TwoChainTimeout(0, 2, 0))

  /** The validator times out of one round knowing only genesis, on record or not. */
  lemma {:induction false} SoloTimesOut(
      d: Driver, w: World, round: Round, tc: Option<TwoChainTimeoutCertificate>, record: bool) returns (w': World)
    requires Reaches(d, w) && 0 in w.rules && w.rules[0].oneChainRound == 0
    requires round == 1 || (tc.Some? && tc.value.round < U64_MAX && round == tc.value.round + 1)
    requires tc.Some? ==> TcVerifies(tc.value) && GenuineTc(Solo, w, tc.value)
    requires d.LocalDriver? && d.recordsTimeouts ==> record
    requires d.Driver? && d.timesOutPastQcOnly ==> round == 1
    ensures Reaches(d, w') && 0 in w'.rules && w'.votes == w.votes
    ensures w'.timeouts == w.timeouts + {TimeoutMsg(0, TwoChainTimeout(0, round, 0))}
    ensures w'.rules[0] == if record then RecordTimeout(w.rules[0], round) else w.rules[0]
  {
    var a := SendTimeout(0, round, 0, tc, if record then round else 0, true);
    Reach(d, w, a);
    w' := Perform(Solo, w, a);
  }

  /** It gives up on rounds 1 and 2, the second on the strength of the first. */
  lemma {:induction false} SoloGivesUpOnTwo(d: Driver, w: World, record: bool) returns (w': World)
    requires Reaches(d, w) && 0 in w.rules && w.rules[0].oneChainRound == 0
    requires d.LocalDriver? && d.recordsTimeouts ==> record
    requires d.Driver? ==> !d.timesOutPastQcOnly
    ensures Reaches(d, w') && 0 in w'.rules && w'.votes == w.votes
    ensures w'.timeouts == w.timeouts + {GaveUpOnOne, GaveUpOnTwo}
    ensures w'.rules[0] == if record then RecordTimeout(w.rules[0], 2) else w.rules[0]
  {
    hide Reaches;
    w' := SoloTimesOut(d, w, 1, None, record);
    var tc := TwoChainTimeoutCertificate(0, 1, 0, 0);
    SoloTc(w', tc);
    w' := SoloTimesOut(d, w', 2, Some(tc), record);
  }

  /** With nothing in storage a restart forgets everything. */
  lemma {:induction false} SoloForgets(d: Driver, w: World) returns (w': World)
    requires Reaches(d, w) && 0 in w.rules && 0 !in w.saved && w.rules[0].epoch == 0
    ensures Reaches(d, w') && 0 in w'.rules && w'.votes == w.votes && w'.timeouts == w.timeouts && w'.saved == w.saved
    ensures w'.rules[0] == Fresh(0)
  {
    Reach(d, w, Restart(0));
    w' := Perform(Solo, w, Restart(0));
  }

  /** Two blocks of different chains, each with a certified child one round on, are a fork. */
  lemma {:induction false} Fork(d: Driver, w: World, a1: Block, b1: Block)
    requires Reaches(d, w) && VoteMsg(0, a1) in w.votes && VoteMsg(0, b1) in w.votes
    requires a1.Child? && a1.round == RoundOf(a1.parent) + 1
    requires b1.Child? && b1.round == RoundOf(b1.parent) + 1
    requires !Extends(a1.parent, b1.parent) && !Extends(b1.parent, a1.parent)
    ensures Forks(d)
  {
    SoloCertifies(w, a1);
    SoloCertifies(w, b1);
    assert CommittedBy(Solo, w, a1.parent, a1) && CommittedBy(Solo, w, b1.parent, b1);
    assert Committed(Solo, w, a1.parent) && Committed(Solo, w, b1.parent);
  }

  // ---------------------------------------------------------------- one fork for each missing obligation

  const A := Child(1, Genesis, 0)
  const A1 := Child(2, A, 0)
  /** A sibling of A, and its child. */
  const Twin := Child(1, Genesis, 1)
  const Twin1 := Child(2, Twin, 0)
  /** A block of round 3 that skips A altogether, with the TC that lets it. */
  const C := Child(3, Genesis, 0)
  const C1 := Child(4, C, 0)
  const TcTwo := TwoChainTimeoutCertificate(0, 2, 0, 0)

  /** Any driver may vote for A and, having seen its QC, for A1. */
  lemma {:induction false} SoloCommitsA(d: Driver) returns (w: World)
    ensures Reaches(d, w) && 0 in w.rules && w.rules[0] == SafetyStateData(0, 2, 1, 1, 0)
    ensures w.votes == {VoteMsg(0, A), VoteMsg(0, A1)} && w.timeouts == {}
  {
    hide Reaches;
    w := SoloStart(d);
    w := SoloVotes(d, w, A, None, true);
    w := SoloSeesQc(d, w, 1);
    w := SoloVotes(d, w, A1, None, true);
  }

  lemma {:induction false} NeedsRealQcRound(d: Driver)
    requires d.Driver? && !d.usesRealQcRound
    ensures Forks(d)
  {
    hide Reaches, Forks;
    var w := SoloCommitsA(d);
    w := SoloVotes(d, w, C, None, true);
    w := SoloSeesQc(d, w, 3);
    w := SoloVotes(d, w, C1, None, true);
    Fork(d, w, A1, C1);
  }

  lemma {:induction false} NeedsOneVotePerRound(d: Driver)
    requires d.Driver? && !d.oneVotePerRound
    ensures Forks(d)
  {
    hide Reaches, Forks;
    var w := SoloStart(d);
    w := SoloVotes(d, w, A, None, true);
    w := SoloVotes(d, w, Twin, None, true);
    w := SoloSeesQc(d, w, 1);
    w := SoloVotes(d, w, A1, None, true);
    w := SoloVotes(d, w, Twin1, None, true);
    Fork(d, w, A1, Twin1);
  }

  lemma {:induction false} NeedsNoVoteAfterTimeout(d: Driver)
    requires d.Driver? && !d.noVoteAfterTimeout && !d.timesOutPastQcOnly
    ensures Forks(d)
  {
    hide Reaches, Forks;
    var w := SoloStart(d);
    w := SoloGivesUpOnTwo(d, w, true);
    w := SoloVotes(d, w, A, None, true);
    w := SoloSeesQc(d, w, 1);
    w := SoloVotes(d, w, A1, None, true);
    w := SoloVotes(d, w, C, Some(TcTwo), true);
    w := SoloSeesQc(d, w, 3);
    w := SoloVotes(d, w, C1, None, true);
    Fork(d, w, A1, C1);
  }

  lemma {:induction false} NeedsObservesQcFirst(d: Driver)
    requires d.Driver? && !d.observesQcFirst && !d.timesOutPastQcOnly
    ensures Forks(d)
  {
    hide Reaches, Forks;
    var w := SoloStart(d);
    w := SoloVotes(d, w, A, None, true);
    w := SoloVotes(d, w, A1, None, true);
    w := SoloGivesUpOnTwo(d, w, true);
    w := SoloVotes(d, w, C, Some(TcTwo), true);
    w := SoloVotes(d, w, C1, None, true);
    Fork(d, w, A1, C1);
  }

  lemma {:induction false} NeedsChecksParentQc(d: Driver)
    requires d.Driver? && !d.checksParentQc
    ensures Forks(d)
  {
    hide Reaches, Forks;
    var uncertified := Child(2, Genesis, 7);
    var e := Child(3, uncertified, 0);
    var e1 := Child(4, e, 0);
    var w := SoloCommitsA(d);
    w := SoloSeesQc(d, w, 2);
    w := SoloVotes(d, w, e, None, true);
    w := SoloSeesQc(d, w, 3);
    w := SoloVotes(d, w, e1, None, true);
    assert !Extends(uncertified, A);
    Fork(d, w, A1, e1);
  }

  lemma {:induction false} NeedsChecksTc(d: Driver)
    requires d.Driver? && !d.checksTc
    ensures Forks(d)
  {
    hide Reaches, Forks;
    var w := SoloCommitsA(d);
    w := SoloVotes(d, w, C, Some(TcTwo), true);
    w := SoloSeesQc(d, w, 3);
    w := SoloVotes(d, w, C1, None, true);
    Fork(d, w, A1, C1);
  }

  /** Even a driver that remembers its votes and timeouts forks if a restart may lose the QCs it voted on. */
  lemma {:induction false} NeedsSavesVotesFirst(d: Driver)
    requires d.Driver? && !d.savesVotesFirst && !d.timesOutPastQcOnly
    ensures Forks(d)
  {
    hide Reaches, Forks;
    var w := SoloStart(d);
    w := SoloVotes(d, w, A, None, false);
    w := SoloSeesQc(d, w, 1);
    w := SoloVotes(d, w, A1, None, false);
    w := SoloForgets(d, w);
    w := SoloGivesUpOnTwo(d, w, true);
    w := SoloVotes(d, w, C, Some(TcTwo), false);
    w := SoloSeesQc(d, w, 3);
    w := SoloVotes(d, w, C1, None, false);
    Fork(d, w, A1, C1);
  }

  /** A driver with nothing but its own state to go by votes twice in a round once that state is lost. */
  lemma {:induction false} LocalNeedsSaving(d: Driver)
    requires d.LocalDriver? && !d.savesFirst
    ensures Forks(d)
  {
    hide Reaches, Forks;
    var w := SoloStart(d);
    w := SoloVotes(d, w, A, None, false);
    w := SoloForgets(d, w);
    w := SoloVotes(d, w, Twin, None, false);
    w := SoloSeesQc(d, w, 1);
    w := SoloVotes(d, w, A1, None, false);
    w := SoloForgets(d, w);
    w := SoloSeesQc(d, w, 1);
    w := SoloVotes(d, w, Twin1, None, false);
    Fork(d, w, A1, Twin1);
  }

  /** One that does not record the rounds it times out of votes in them afterwards. */
  lemma {:induction false} LocalNeedsRecording(d: Driver)
    requires d.LocalDriver? && !d.recordsTimeouts
    ensures Forks(d)
  {
    hide Reaches, Forks;
    var w := SoloStart(d);
    w := SoloGivesUpOnTwo(d, w, false);
    w := SoloVotes(d, w, A, None, true);
    w := SoloSeesQc(d, w, 1);
    w := SoloVotes(d, w, A1, None, true);
    w := SoloVotes(d, w, C, Some(TcTwo), true);
    w := SoloSeesQc(d, w, 3);
    w := SoloVotes(d, w, C1, None, true);
    Fork(d, w, A1, C1);
  }

  // ---------------------------------------------------------------- the stored state is enough

  /** Votes and timeouts an honest validator sent, against the rounds on its record. */
  ghost predicate OnRecord(w: World, v: NodeId, s: SafetyStateData) {
    && (forall m | m in w.votes && m.voter == v :: RoundOf(m.block) <= s.lastVotedRound)
    && (forall t | t in w.timeouts && t.sender == v :: t.timeout.round <= s.highestTimeoutRound)
  }

  ghost predicate NothingSent(w: World, v: NodeId) {
    && (forall m | m in w.votes :: m.voter != v)
    && (forall t | t in w.timeouts :: t.sender != v)
  }

  ghost predicate StoredOnRecord(w: World, v: NodeId) {
    if v in w.saved then OnRecord(w, v, w.saved[v]) else NothingSent(w, v)
  }

  ghost predicate AllOnRecord(w: World) {
    forall v | v in w.rules :: OnRecord(w, v, w.rules[v]) && StoredOnRecord(w, v)
  }

  lemma MemoryKept(cfg: Config, w: World, a: Action, v: NodeId)
    requires v in w.rules && OnRecord(w, v, w.rules[v]) && StoredOnRecord(w, v)
    requires Enabled(LocalDriver(true, true), cfg, w, a)
    ensures OnRecord(Perform(cfg, w, a), v, Perform(cfg, w, a).rules[v])
  {
  }

  lemma StorageKept(cfg: Config, w: World, a: Action, v: NodeId)
    requires v in w.rules && OnRecord(w, v, w.rules[v]) && StoredOnRecord(w, v)
    requires Enabled(LocalDriver(true, true), cfg, w, a)
    ensures StoredOnRecord(Perform(cfg, w, a), v)
  {
  }

  lemma {:induction false} RecordStep(cfg: Config, w: World, a: Action)
    requires AllOnRecord(w) && Enabled(LocalDriver(true, true), cfg, w, a)
    ensures AllOnRecord(Perform(cfg, w, a))
  {
    hide OnRecord, StoredOnRecord;
    var w' := Perform(cfg, w, a);
    forall v | v in w'.rules ensures OnRecord(w', v, w'.rules[v]) && StoredOnRecord(w', v) {
      MemoryKept(cfg, w, a, v);
      StorageKept(cfg, w, a, v);
    }
  }

  lemma {:induction false} RecordHolds(cfg: Config, run: seq<Action>)
    requires Legal(LocalDriver(true, true), cfg, run)
    ensures AllOnRecord(After(cfg, run))
  {
    if run != [] {
      hide Perform, CodeAllows, DriverAllows, AllOnRecord;
      LegalPrefix(LocalDriver(true, true), cfg, run, |run| - 1);
      RecordHolds(cfg, run[..|run| - 1]);
      RecordStep(cfg, After(cfg, run[..|run| - 1]), run[|run| - 1]);
    }
  }

  /** Checks against its own state, with timeouts on record and everything saved before it is sent, meet all the
      obligations, restarts included. */
  lemma {:induction false} LocalChecksSuffice(cfg: Config, run: seq<Action>)
    requires Legal(LocalDriver(true, true), cfg, run)
    ensures Legal(CarefulDriver, cfg, run)
  {
    forall i | 0 <= i < |run| ensures Enabled(CarefulDriver, cfg, After(cfg, run[..i]), run[i]) {
      LegalPrefix(LocalDriver(true, true), cfg, run, i);
      RecordHolds(cfg, run[..i]);
      assert Enabled(LocalDriver(true, true), cfg, After(cfg, run[..i]), run[i]);
    }
  }

  // ---------------------------------------------------------------- which drivers are safe

  lemma {:induction false} MeetingObligationsIsSafe(d: Driver, cfg: Config, run: seq<Action>)
    requires d.MeetsObligations() && cfg.Valid() && Legal(d, cfg, run)
    ensures CommitsAgree(cfg, After(cfg, run))
  {
    if d.LocalDriver? {
      LocalChecksSuffice(cfg, run);
      InvHolds(CarefulDriver, cfg, run);
    } else {
      InvHolds(d, cfg, run);
    }
    AgreementInWorld(cfg, After(cfg, run));
  }

  /** Which drivers the code is safe under, exactly. Votes must be in order: the real QC round, one block a round, a
      certified parent, a genuine TC. Then timeouts must either be of the round after the QC they carry, or come with
      three more obligations. Or all of it is read off a state that is kept and saved. */
  lemma {:induction false} SafeIffAllObligationsMet(d: Driver)
    ensures DriverIsSafe(d) <==> d.MeetsObligations()
  {
    if d.MeetsObligations() {
      forall cfg: Config, run | cfg.Valid() && Legal(d, cfg, run) ensures CommitsAgree(cfg, After(cfg, run)) {
        MeetingObligationsIsSafe(d, cfg, run);
      }
    } else {
      SomethingMissing(d);
      ForksIsUnsafe(d);
    }
  }

  lemma {:induction false} SomethingMissing(d: Driver)
    requires !d.MeetsObligations()
    ensures Forks(d)
  {
    if d.LocalDriver? {
      if d.savesFirst {
        LocalNeedsRecording(d);
      } else {
        LocalNeedsSaving(d);
      }
    } else if !d.usesRealQcRound {
      NeedsRealQcRound(d);
    } else if !d.oneVotePerRound {
      NeedsOneVotePerRound(d);
    } else if !d.checksParentQc {
      NeedsChecksParentQc(d);
    } else if !d.checksTc {
      NeedsChecksTc(d);
    } else if !d.noVoteAfterTimeout {
      NeedsNoVoteAfterTimeout(d);
    } else if !d.observesQcFirst {
      NeedsObservesQcFirst(d);
    } else {
      NeedsSavesVotesFirst(d);
    }
  }

  // ---------------------------------------------------------------- the commit decision in the code

  /** The rules are not vacuous: a driver that meets its obligations does reach a commit. */
  lemma {:induction false} SafeDriversCommit(d: Driver) returns (w: World)
    requires d.MeetsObligations()
    ensures Reaches(d, w) && Committed(Solo, w, A)
  {
    w := SoloCommitsA(d);
    SoloCertifies(w, A1);
    assert CommittedBy(Solo, w, A, A1);
  }

  /** When `should_commit` names a proposal's parent, the documented rule agrees exactly under the two conditions it
      skips. */
  lemma ShouldCommitMeetsRule(cfg: Config, w: World, v: NodeId, proposal: Block, parentId: BlockId)
    requires VotesInv(cfg, w) && cfg.Honest(v) && proposal.Child?
    requires ShouldCommit(w.rules[v], proposal.round, parentId) == Some(parentId)
    ensures CommittedBy(cfg, w, proposal.parent, proposal) <==>
      Certified(cfg, w, proposal) && RoundOf(proposal.parent) == w.rules[v].oneChainRound
  {
  }

  /** Without them it commits both of two conflicting blocks, in a world a careful driver reaches. */
  lemma {:induction false} ShouldCommitAloneForks(idA: BlockId, idTwin: BlockId) returns (w: World)
    ensures Reaches(CarefulDriver, w) && 0 in w.rules
    ensures !Extends(A, Twin) && !Extends(Twin, A) && RoundOf(Twin) == RoundOf(A)
    ensures ShouldCommit(w.rules[0], RoundOf(A1), idA) == Some(idA)
    ensures ShouldCommit(w.rules[0], RoundOf(Twin1), idTwin) == Some(idTwin)
  {
    w := SoloStart(CarefulDriver);
    w := SoloVotes(CarefulDriver, w, A, None, true);
    w := SoloSeesQc(CarefulDriver, w, 1);
  }
}

/** Many validators running the 2-chain safety rules: the step system, its invariant, and agreement. */
module Agreement {
  import opened Types
  import opened VotingPower
  import opened SafetyRules
  import Recovery

  // ---------------------------------------------------------------- blocks

  /** A block names its parent by hash; the model holds the parent itself. `payload` tells siblings apart. */
  datatype Block = Genesis | Child(round: Round, parent: Block, payload: nat)

  function RoundOf(b: Block): Round {
    if b.Child? then b.round else 0
  }

  /** The round of the QC a block carries: a QC for its parent. */
  function QcRoundOf(b: Block): Round {
    if b.Child? then RoundOf(b.parent) else 0
  }

  predicate Extends(b: Block, a: Block) {
    b == a || (b.Child? && Extends(b.parent, a))
  }

  // ---------------------------------------------------------------- the world

  /** Fixed for a run. Every known validator outside `byzantine` is honest. */
  datatype Config = Config(validators: map<NodeId, u64>, byzantine: set<NodeId>, epoch: Epoch) {
    ghost predicate Valid() {
      3 * PowerOf(validators, byzantine) < TotalPower(validators)
    }

    predicate Honest(v: NodeId) {
      v in validators && v !in byzantine
    }
  }

  datatype VoteMsg = VoteMsg(voter: NodeId, block: Block)
  datatype TimeoutMsg = TimeoutMsg(sender: NodeId, timeout: TwoChainTimeout)

  /** The safety state of every honest validator, what each has in storage, and everything ever sent. */
  datatype World = World(
    rules: map<NodeId, SafetyStateData>,
    saved: map<NodeId, SafetyStateData>,
    votes: set<VoteMsg>,
    timeouts: set<TimeoutMsg>)

  function Init(cfg: Config): World {
    World(map v | v in cfg.validators && v !in cfg.byzantine :: Fresh(cfg.epoch), map[], {}, {})
  }

  function Voters(votes: set<VoteMsg>, b: Block): set<NodeId> {
    set m | m in votes && m.block == b :: m.voter
  }

  function Senders(timeouts: set<TimeoutMsg>): set<NodeId> {
    set t | t in timeouts :: t.sender
  }

  ghost predicate Certified(cfg: Config, w: World, b: Block) {
    b.Genesis? || HasQuorumPower(cfg.validators, Voters(w.votes, b))
  }

  /** A quorum of timeouts for the TC's epoch and round whose largest `hqc_round` is the TC's. */
  ghost predicate Backs(cfg: Config, w: World, tc: TwoChainTimeoutCertificate, q: set<TimeoutMsg>) {
    && q <= w.timeouts
    && HasQuorumPower(cfg.validators, Senders(q))
    && (forall t | t in q :: t.timeout.epoch == tc.epoch && t.timeout.round == tc.round)
    && (forall t | t in q :: t.timeout.hqcRound <= tc.hqcRound)
    && (exists t :: t in q && t.timeout.hqcRound == tc.hqcRound)
  }

  ghost predicate GenuineTc(cfg: Config, w: World, tc: TwoChainTimeoutCertificate) {
    exists q :: Backs(cfg, w, tc, q)
  }

  /** The documented commit rule: a certified child in the very next round. */
  ghost predicate CommittedBy(cfg: Config, w: World, b: Block, b1: Block) {
    b1.Child? && b1.parent == b && b1.round == RoundOf(b) + 1 && Certified(cfg, w, b1)
  }

  ghost predicate Committed(cfg: Config, w: World, b: Block) {
    exists b1 :: CommittedBy(cfg, w, b, b1)
  }

  // ---------------------------------------------------------------- steps

  /** `savedFirst` says whether the updated state is persisted before the message leaves; `recorded` is the round that
      `record_timeout` is told. */
  datatype Action =
    | SeeQc(v: NodeId, qcRound: Round)
    | SeeTc(v: NodeId, tc: TwoChainTimeoutCertificate)
    | CastVote(v: NodeId, block: Block, withTc: Option<TwoChainTimeoutCertificate>, savedFirst: bool)
    | SendTimeout(
        v: NodeId, round: Round, qcRound: Round, withTc: Option<TwoChainTimeoutCertificate>,
        recorded: Round, savedFirst: bool)
    | Save(v: NodeId)
    | Restart(v: NodeId)
    | FaultyVote(v: NodeId, block: Block)
    | FaultyTimeout(v: NodeId, timeout: TwoChainTimeout)

  function TcRound(tc: Option<TwoChainTimeoutCertificate>): Option<Round> {
    if tc.Some? then Some(tc.value.round) else None
  }

  function TcHqcRound(tc: Option<TwoChainTimeoutCertificate>): Option<Round> {
    if tc.Some? then Some(tc.value.hqcRound) else None
  }

  /** What a validator starts from again; `None` if it refuses its stored state. */
  function Reloaded(w: World, v: NodeId): Option<SafetyStateData>
    requires v in w.rules
  {
    if v !in w.saved then Some(Fresh(w.rules[v].epoch))
    else if Recovery.ValidationOverflows(w.saved[v]) then None
    else if Recovery.ValidateSafetyState(w.saved[v]).Pass? then Some(w.saved[v])
    else None
  }

  /** What the code itself checks before an honest validator acts. Byzantine validators act freely. */
  predicate CodeAllows(w: World, a: Action) {
    match a
    case SeeQc(v, _) => v in w.rules
    case SeeTc(v, _) => v in w.rules
    case CastVote(v, b, tc, _) =>
      && v in w.rules
      && SafeToVote(RoundOf(b), tc).Pass?
      && CheckRecordVote(w.rules[v], RoundOf(b)).Pass?
    case SendTimeout(v, round, qcRound, tc, _, _) =>
      && v in w.rules
      && !TimeoutRulePanics(round, qcRound, TcRound(tc))
      && SafeToTimeoutImpl(w.rules[v], round, qcRound, TcRound(tc)).Pass?
    case Save(v) => v in w.rules
    case Restart(v) => v in w.rules && Reloaded(w, v).Some?
    case FaultyVote(v, _) => v !in w.rules
    case FaultyTimeout(v, _) => v !in w.rules
  }

  /** What drives the rules. `Driver` lists the obligations the code leaves to it, each of which can be switched off;
      `LocalDriver` knows nothing but its own safety state, which it may or may not save before it sends, and in which
      it may or may not record the rounds it times out of. */
  datatype Driver =
    | Driver(
        usesRealQcRound: bool,
        oneVotePerRound: bool,
        checksParentQc: bool,
        checksTc: bool,
        noVoteAfterTimeout: bool,
        observesQcFirst: bool,
        savesVotesFirst: bool,
        timesOutPastQcOnly: bool)
    | LocalDriver(savesFirst: bool, recordsTimeouts: bool)
  {
    predicate UsesRealQcRound() {
      LocalDriver? || usesRealQcRound
    }

    predicate ObservesQcFirst() {
      LocalDriver? || observesQcFirst
    }

    predicate ChecksParentQc() {
      LocalDriver? || checksParentQc
    }

    predicate ChecksTc() {
      LocalDriver? || checksTc
    }

    predicate SavesVotesFirst() {
      if LocalDriver? then savesFirst else savesVotesFirst
    }

    /** What makes votes safe to count. */
    predicate VotesWell() {
      Driver? && usesRealQcRound && oneVotePerRound && checksParentQc && checksTc
    }

    /** What makes timeouts safe to count when they may skip rounds. */
    predicate TimesOutWell() {
      Driver? && noVoteAfterTimeout && observesQcFirst && savesVotesFirst
    }

    /** The whole condition: votes in order, and timeouts either in order or only of the round after the QC sent. */
    predicate MeetsObligations() {
      if LocalDriver? then savesFirst && recordsTimeouts
      else VotesWell() && (timesOutPastQcOnly || TimesOutWell())
    }
  }

  /** Meets every obligation, and times out of any round the code allows. */
  const CarefulDriver := Driver(true, true, true, true, true, true, true, false)

  /** Times out as `process_timeout` does, and then needs only the obligations on votes. */
  const PlainDriver := Driver(true, true, true, true, false, false, false, true)

  /** `safe_to_vote` guesses the QC's round, so the driver applies the vote rule to the real one. */
  predicate MeetsRealRule(b: Block, tc: Option<TwoChainTimeoutCertificate>) {
    SafeToVoteImpl(RoundOf(b), QcRoundOf(b), TcRound(tc), TcHqcRound(tc)).Pass?
  }

  /** `record_vote` accepts a round twice, so the driver votes for at most one block per round. */
  ghost predicate OneVotePerRound(w: World, v: NodeId, b: Block) {
    forall m | m in w.votes && m.voter == v && RoundOf(m.block) == RoundOf(b) :: m.block == b
  }

  /** `record_timeout` leaves `last_voted_round` alone, so the driver skips rounds it has given up on. */
  ghost predicate NoVoteAfterTimeout(w: World, v: NodeId, b: Block) {
    forall t | t in w.timeouts && t.sender == v :: t.timeout.round < RoundOf(b)
  }

  /** Both of these as far as the validator's own state can tell. */
  predicate RoundIsNew(s: SafetyStateData, b: Block) {
    RoundOf(b) > s.lastVotedRound && RoundOf(b) > s.highestTimeoutRound
  }

  /** Voting does not observe the proposal's QC, so the driver calls `observe_qc` on it first. */
  predicate ObservesQcFirst(w: World, v: NodeId, b: Block)
    requires v in w.rules
  {
    w.rules[v].oneChainRound >= QcRoundOf(b)
  }

  ghost predicate DriverAllowsVote(d: Driver, cfg: Config, w: World, a: Action)
    requires CodeAllows(w, a) && a.CastVote?
  {
    && (d.UsesRealQcRound() ==> MeetsRealRule(a.block, a.withTc))
    && (d.Driver? && d.oneVotePerRound ==> OneVotePerRound(w, a.v, a.block))
    && (d.Driver? && d.noVoteAfterTimeout ==> NoVoteAfterTimeout(w, a.v, a.block))
    && (d.LocalDriver? ==> RoundIsNew(w.rules[a.v], a.block))
    && (d.ObservesQcFirst() ==> ObservesQcFirst(w, a.v, a.block))
    && (d.ChecksParentQc() && a.block.Child? ==> Certified(cfg, w, a.block.parent))
    && (d.ChecksTc() && a.withTc.Some? ==> GenuineTc(cfg, w, a.withTc.value))
    && (d.SavesVotesFirst() ==> a.savedFirst)
  }

  ghost predicate DriverAllows(d: Driver, cfg: Config, w: World, a: Action)
    requires CodeAllows(w, a)
  {
    && (a.CastVote? ==> DriverAllowsVote(d, cfg, w, a))
    && (a.SendTimeout? && d.LocalDriver? && d.savesFirst ==> a.savedFirst)
    && (a.SendTimeout? && d.LocalDriver? && d.recordsTimeouts ==> a.recorded >= a.round)
    && (a.SendTimeout? && d.Driver? && d.timesOutPastQcOnly ==> a.round == a.qcRound + 1)
  }

  ghost predicate Enabled(d: Driver, cfg: Config, w: World, a: Action) {
    CodeAllows(w, a) && DriverAllows(d, cfg, w, a)
  }

  /** A validator's new safety state, stored at once or only kept in memory. */
  function Update(w: World, v: NodeId, s: SafetyStateData, save: bool): World {
    w.(rules := w.rules[v := s], saved := if save then w.saved[v := s] else w.saved)
  }

  function Perform(cfg: Config, w: World, a: Action): World
    requires CodeAllows(w, a)
  {
    match a
    case SeeQc(v, r) => Update(w, v, ObserveQc(w.rules[v], r), false)
    case SeeTc(v, tc) => Update(w, v, ObserveTc(w.rules[v], tc.round, tc.hqcRound), false)
    case CastVote(v, b, _, save) =>
      Update(w, v, RecordVote(w.rules[v], RoundOf(b)), save).(votes := w.votes + {VoteMsg(v, b)})
    case SendTimeout(v, round, qcRound, _, recorded, save) =>
      Update(w, v, RecordTimeout(w.rules[v], recorded), save)
      .(timeouts := w.timeouts + {TimeoutMsg(v, TwoChainTimeout(cfg.epoch, round, qcRound))})
    case Save(v) => Update(w, v, w.rules[v], true)
    case Restart(v) => Update(w, v, Reloaded(w, v).value, false)
    case FaultyVote(v, b) => w.(votes := w.votes + {VoteMsg(v, b)})
    case FaultyTimeout(v, t) => w.(timeouts := w.timeouts + {TimeoutMsg(v, t)})
  }

  /** The world after a run; a step the code refuses changes nothing. */
  function After(cfg: Config, run: seq<Action>): World {
    if run == [] then Init(cfg) else
      var w, a := After(cfg, run[..|run| - 1]), run[|run| - 1];
      if CodeAllows(w, a) then Perform(cfg, w, a) else w
  }

  ghost predicate Legal(d: Driver, cfg: Config, run: seq<Action>) {
    forall i | 0 <= i < |run| :: Enabled(d, cfg, After(cfg, run[..i]), run[i])
  }

  // ---------------------------------------------------------------- certificates only accumulate

  predicate Grows(w: World, w': World) {
    w.votes <= w'.votes && w.timeouts <= w'.timeouts
  }

  lemma {:induction false} CertifiedGrows(cfg: Config, w: World, w': World, b: Block)
    requires Grows(w, w') && Certified(cfg, w, b)
    ensures Certified(cfg, w', b)
  {
    SumMonotone(Voters(w.votes, b), Voters(w'.votes, b), WeightIn(cfg.validators));
  }

  lemma {:induction false} GenuineTcGrows(cfg: Config, w: World, w': World, tc: TwoChainTimeoutCertificate)
    requires Grows(w, w') && GenuineTc(cfg, w, tc)
    ensures GenuineTc(cfg, w', tc)
  {
    var q :| Backs(cfg, w, tc, q);
    assert Backs(cfg, w', tc, q);
  }

  // ---------------------------------------------------------------- the invariant

  /** Why the vote rule let the block through: consecutive rounds, or a genuine TC no newer than its QC. */
  ghost predicate RoundJustified(cfg: Config, w: World, b: Block) {
    || RoundOf(b) == QcRoundOf(b) + 1
    || exists tc :: GenuineTc(cfg, w, tc) && RoundOf(b) == tc.round + 1 && QcRoundOf(b) >= tc.hqcRound
  }

  /** What an honest vote guarantees for ever after. */
  ghost predicate VoteSound(cfg: Config, w: World, b: Block) {
    b.Child? && Certified(cfg, w, b.parent) && RoundJustified(cfg, w, b)
  }

  ghost predicate VotesInv(cfg: Config, w: World) {
    && (forall v :: v in w.rules <==> cfg.Honest(v))
    && (forall m | m in w.votes && m.voter in w.rules :: VoteSound(cfg, w, m.block))
    && (forall m, n | m in w.votes && n in w.votes && m.voter in w.rules && m.voter == n.voter
          && RoundOf(m.block) == RoundOf(n.block) :: m.block == n.block)
  }

  /** A validator knows of the QC its vote rested on, and would after a restart. */
  ghost predicate Knows(w: World, v: NodeId, qcRound: Round)
    requires v in w.rules
  {
    w.rules[v].oneChainRound >= qcRound && v in w.saved && w.saved[v].oneChainRound >= qcRound
  }

  /** Honest timeouts at or past a vote own up to the QC the vote rested on. */
  ghost predicate TimeoutsInv(w: World) {
    && (forall m | m in w.votes && m.voter in w.rules :: Knows(w, m.voter, QcRoundOf(m.block)))
    && (forall m, t | m in w.votes && t in w.timeouts && m.voter in w.rules && m.voter == t.sender
          && t.timeout.round >= RoundOf(m.block) :: t.timeout.hqcRound >= QcRoundOf(m.block))
  }

  /** Honest timeouts are of the round right after the QC they carry. */
  ghost predicate TimeoutsPastQcOnly(w: World) {
    forall t | t in w.timeouts && t.sender in w.rules :: t.timeout.round == t.timeout.hqcRound + 1
  }

  /** What agreement needs of timeouts: they own up to the QC under a vote in the very next round. */
  ghost predicate TimeoutsKnowCommits(w: World) {
    forall m, t | m in w.votes && t in w.timeouts && m.voter in w.rules && m.voter == t.sender
      && t.timeout.round >= RoundOf(m.block) && RoundOf(m.block) == QcRoundOf(m.block) + 1 ::
      t.timeout.hqcRound >= QcRoundOf(m.block)
  }

  ghost predicate Inv(cfg: Config, w: World) {
    VotesInv(cfg, w) && TimeoutsKnowCommits(w)
  }

  lemma {:induction false} VoteSoundGrows(cfg: Config, w: World, w': World, b: Block)
    requires Grows(w, w') && VoteSound(cfg, w, b)
    ensures VoteSound(cfg, w', b)
  {
    CertifiedGrows(cfg, w, w', b.parent);
    if RoundOf(b) != QcRoundOf(b) + 1 {
      var tc :| GenuineTc(cfg, w, tc) && RoundOf(b) == tc.round + 1 && QcRoundOf(b) >= tc.hqcRound;
      GenuineTcGrows(cfg, w, w', tc);
    }
  }

  lemma {:induction false} NewVoteSound(d: Driver, cfg: Config, w: World, a: Action)
    requires d.VotesWell() && a.CastVote? && Enabled(d, cfg, w, a)
    ensures VoteSound(cfg, w, a.block)
  {
    var b, tc := a.block, a.withTc;
    if RoundOf(b) != QcRoundOf(b) + 1 {
      assert GenuineTc(cfg, w, tc.value) && RoundOf(b) == tc.value.round + 1 && QcRoundOf(b) >= tc.value.hqcRound;
    }
  }

  lemma {:induction false} VotesStep(d: Driver, cfg: Config, w: World, a: Action)
    requires d.VotesWell() && VotesInv(cfg, w) && Enabled(d, cfg, w, a)
    ensures VotesInv(cfg, Perform(cfg, w, a))
  {
    var w' := Perform(cfg, w, a);
    assert w'.rules.Keys == w.rules.Keys;
    forall m | m in w'.votes && m.voter in w'.rules ensures VoteSound(cfg, w', m.block) {
      if m !in w.votes {
        NewVoteSound(d, cfg, w, a);
      }
      VoteSoundGrows(cfg, w, w', m.block);
    }
  }

  /** What a validator knows and has saved never falls behind its votes. */
  lemma {:induction false} KnowsStep(d: Driver, cfg: Config, w: World, a: Action, m: VoteMsg)
    requires d.TimesOutWell() && TimeoutsInv(w) && Enabled(d, cfg, w, a)
    requires m in Perform(cfg, w, a).votes && m.voter in w.rules
    ensures Knows(Perform(cfg, w, a), m.voter, QcRoundOf(m.block))
  {
    if m in w.votes {
      assert Knows(w, m.voter, QcRoundOf(m.block));
    }
  }

  lemma {:induction false} TimeoutsStep(d: Driver, cfg: Config, w: World, a: Action)
    requires d.TimesOutWell() && TimeoutsInv(w) && Enabled(d, cfg, w, a)
    ensures TimeoutsInv(Perform(cfg, w, a))
  {
    var w' := Perform(cfg, w, a);
    assert w'.rules.Keys == w.rules.Keys;
    forall m | m in w'.votes && m.voter in w'.rules ensures Knows(w', m.voter, QcRoundOf(m.block)) {
      KnowsStep(d, cfg, w, a, m);
    }
    forall m, t | m in w'.votes && t in w'.timeouts && m.voter in w'.rules && m.voter == t.sender
      && t.timeout.round >= RoundOf(m.block)
      ensures t.timeout.hqcRound >= QcRoundOf(m.block)
    {
      TimeoutKnowsVote(d, cfg, w, a, m, t);
    }
  }

  lemma {:induction false} TimeoutKnowsVote(d: Driver, cfg: Config, w: World, a: Action, m: VoteMsg, t: TimeoutMsg)
    requires d.TimesOutWell() && TimeoutsInv(w) && Enabled(d, cfg, w, a)
    requires m in Perform(cfg, w, a).votes && t in Perform(cfg, w, a).timeouts
    requires m.voter in w.rules && m.voter == t.sender && t.timeout.round >= RoundOf(m.block)
    ensures t.timeout.hqcRound >= QcRoundOf(m.block)
  {
    if m in w.votes {
      assert Knows(w, m.voter, QcRoundOf(m.block));
    }
  }

  /** In any legal run of a driver that votes well, honest votes are sound and one to a round. */
  lemma {:induction false} VotesInvHolds(d: Driver, cfg: Config, run: seq<Action>)
    requires d.VotesWell() && Legal(d, cfg, run)
    ensures VotesInv(cfg, After(cfg, run))
  {
    if run != [] {
      var n := |run| - 1;
      LegalPrefix(d, cfg, run, n);
      VotesInvHolds(d, cfg, run[..n]);
      VotesStep(d, cfg, After(cfg, run[..n]), run[n]);
    }
  }

  /** If moreover it times out well, what honest validators know and have stored, and what they admit to when they time
      out, never falls behind their votes, restarts included. */
  lemma {:induction false} TimeoutsInvHolds(d: Driver, cfg: Config, run: seq<Action>)
    requires d.TimesOutWell() && Legal(d, cfg, run)
    ensures TimeoutsInv(After(cfg, run))
  {
    if run != [] {
      var n := |run| - 1;
      LegalPrefix(d, cfg, run, n);
      TimeoutsInvHolds(d, cfg, run[..n]);
      TimeoutsStep(d, cfg, After(cfg, run[..n]), run[n]);
    }
  }

  lemma {:induction false} PastQcOnlyHolds(d: Driver, cfg: Config, run: seq<Action>)
    requires d.Driver? && d.timesOutPastQcOnly && Legal(d, cfg, run)
    ensures TimeoutsPastQcOnly(After(cfg, run))
    ensures After(cfg, run).rules.Keys == Init(cfg).rules.Keys
  {
    if run != [] {
      var n := |run| - 1;
      LegalPrefix(d, cfg, run, n);
      PastQcOnlyHolds(d, cfg, run[..n]);
      assert Enabled(d, cfg, After(cfg, run[..n]), run[n]);
      assert After(cfg, run).rules.Keys == After(cfg, run[..n]).rules.Keys;
    }
  }

  /** Either way of timing out keeps what agreement needs. */
  lemma {:induction false} InvHolds(d: Driver, cfg: Config, run: seq<Action>)
    requires d.Driver? && d.MeetsObligations() && Legal(d, cfg, run)
    ensures Inv(cfg, After(cfg, run))
  {
    VotesInvHolds(d, cfg, run);
    if d.timesOutPastQcOnly {
      PastQcOnlyHolds(d, cfg, run);
    } else {
      TimeoutsInvHolds(d, cfg, run);
    }
  }

  lemma {:induction false} LegalPrefix(d: Driver, cfg: Config, run: seq<Action>, k: nat)
    requires Legal(d, cfg, run) && k <= |run|
    ensures Legal(d, cfg, run[..k])
  {
    forall i | 0 <= i < k ensures Enabled(d, cfg, After(cfg, run[..k][..i]), run[..k][i]) {
      assert run[..k][..i] == run[..i];
    }
  }

  lemma {:induction false} RunGrows(cfg: Config, run: seq<Action>, k: nat)
    requires k <= |run|
    ensures Grows(After(cfg, run[..k]), After(cfg, run))
    decreases |run|
  {
    if k == |run| {
      assert run[..k] == run;
    } else {
      RunGrows(cfg, run[..|run| - 1], k);
      assert run[..|run| - 1][..k] == run[..k];
    }
  }

  // ---------------------------------------------------------------- safety

  /** A certificate always rests on an honest vote, so its block and its parent's certificate are in order. */
  lemma {:induction false} CertificateSound(cfg: Config, w: World, b: Block)
    requires cfg.Valid() && VotesInv(cfg, w) && b.Child? && Certified(cfg, w, b)
    ensures Certified(cfg, w, b.parent) && RoundJustified(cfg, w, b)
  {
    var q := Voters(w.votes, b);
    var v := QuorumsShareMemberOutside(cfg.validators, q, q, cfg.byzantine);
    assert VoteMsg(v, b) in w.votes;
  }

  /** And honest votes are enough for one: whatever the Byzantine validators do, a block all honest validators voted
      for is certified. */
  lemma {:induction false} HonestVotesCertify(cfg: Config, w: World, b: Block)
    requires cfg.Valid() && forall v | cfg.Honest(v) :: VoteMsg(v, b) in w.votes
    ensures Certified(cfg, w, b)
  {
    var honest := cfg.validators.Keys - cfg.byzantine;
    OthersAreQuorumIff(cfg.validators, cfg.byzantine);
    forall v | v in honest ensures v in Voters(w.votes, b) {
      assert VoteMsg(v, b) in w.votes;
    }
    SumMonotone(honest, Voters(w.votes, b), WeightIn(cfg.validators));
  }

  /** At most one block per round is ever certified. */
  lemma {:induction false} OneCertificatePerRound(cfg: Config, w: World, a: Block, b: Block)
    requires cfg.Valid() && VotesInv(cfg, w)
    requires Certified(cfg, w, a) && Certified(cfg, w, b) && RoundOf(a) == RoundOf(b)
    ensures a == b
  {
    if a.Genesis? || b.Genesis? {
      if a.Child? { CertificateSound(cfg, w, a); }
      if b.Child? { CertificateSound(cfg, w, b); }
    } else {
      var v := QuorumsShareMemberOutside(cfg.validators, Voters(w.votes, a), Voters(w.votes, b), cfg.byzantine);
      assert VoteMsg(v, a) in w.votes && VoteMsg(v, b) in w.votes;
    }
  }

  /** The key invariant: once a block is certified, every TC for its round or later knows its parent's QC. */
  lemma {:induction false} TcKnowsCertifiedParent(cfg: Config, w: World, b: Block, tc: TwoChainTimeoutCertificate)
    requires cfg.Valid() && VotesInv(cfg, w) && TimeoutsInv(w)
    requires b.Child? && Certified(cfg, w, b) && GenuineTc(cfg, w, tc) && tc.round >= b.round
    ensures tc.hqcRound >= RoundOf(b.parent)
  {
    var q :| Backs(cfg, w, tc, q);
    var v := QuorumsShareMemberOutside(cfg.validators, Voters(w.votes, b), Senders(q), cfg.byzantine);
    assert VoteMsg(v, b) in w.votes;
    var t: TimeoutMsg :| t in q && t.sender == v;
  }

  /** However validators time out, every TC for the round of a commit or later knows the committed block's QC. */
  lemma {:induction false} TcKnowsCommit(
      cfg: Config, w: World, b0: Block, b1: Block, tc: TwoChainTimeoutCertificate)
    requires cfg.Valid() && Inv(cfg, w) && CommittedBy(cfg, w, b0, b1)
    requires GenuineTc(cfg, w, tc) && tc.round >= b1.round
    ensures tc.hqcRound >= RoundOf(b0)
  {
    var q :| Backs(cfg, w, tc, q);
    var v := QuorumsShareMemberOutside(cfg.validators, Voters(w.votes, b1), Senders(q), cfg.byzantine);
    assert VoteMsg(v, b1) in w.votes;
    var t: TimeoutMsg :| t in q && t.sender == v;
  }

  /** No honest vote past a commit, through either branch of the vote rule, can carry a QC older than the commit. */
  lemma {:induction false} HonestVoteKnowsCommit(cfg: Config, w: World, b0: Block, b1: Block, v: NodeId, b: Block)
    requires cfg.Valid() && Inv(cfg, w) && CommittedBy(cfg, w, b0, b1)
    requires cfg.Honest(v) && VoteMsg(v, b) in w.votes && RoundOf(b) > b1.round
    ensures QcRoundOf(b) >= RoundOf(b0)
  {
    assert VoteSound(cfg, w, b);
    if RoundOf(b) != QcRoundOf(b) + 1 {
      var tc :| GenuineTc(cfg, w, tc) && RoundOf(b) == tc.round + 1 && QcRoundOf(b) >= tc.hqcRound;
      TcKnowsCommit(cfg, w, b0, b1, tc);
    }
  }

  /** Everything certified at or above a committed round extends the committed block. */
  lemma {:induction false} CertifiedExtendsCommitted(cfg: Config, w: World, b0: Block, b1: Block, b: Block)
    requires cfg.Valid() && Inv(cfg, w) && CommittedBy(cfg, w, b0, b1)
    requires Certified(cfg, w, b) && RoundOf(b) >= RoundOf(b0)
    ensures Extends(b, b0)
    decreases b
  {
    CertificateSound(cfg, w, b1);
    if RoundOf(b) == RoundOf(b0) {
      OneCertificatePerRound(cfg, w, b, b0);
    } else if RoundOf(b) == b1.round {
      OneCertificatePerRound(cfg, w, b, b1);
    } else {
      CertificateSound(cfg, w, b);
      if RoundOf(b) != QcRoundOf(b) + 1 {
        var tc :| GenuineTc(cfg, w, tc) && RoundOf(b) == tc.round + 1 && QcRoundOf(b) >= tc.hqcRound;
        TcKnowsCommit(cfg, w, b0, b1, tc);
      }
      CertifiedExtendsCommitted(cfg, w, b0, b1, b.parent);
    }
  }

  /** Any two blocks committed in one world lie on one chain. */
  ghost predicate CommitsAgree(cfg: Config, w: World) {
    forall a, b | Committed(cfg, w, a) && Committed(cfg, w, b) :: Extends(a, b) || Extends(b, a)
  }

  lemma {:induction false} AgreementInWorld(cfg: Config, w: World)
    requires cfg.Valid() && Inv(cfg, w)
    ensures CommitsAgree(cfg, w)
  {
    forall a, b | Committed(cfg, w, a) && Committed(cfg, w, b) ensures Extends(a, b) || Extends(b, a) {
      var a1 :| CommittedBy(cfg, w, a, a1);
      var b1 :| CommittedBy(cfg, w, b, b1);
      CertificateSound(cfg, w, a1);
      CertificateSound(cfg, w, b1);
      if RoundOf(a) >= RoundOf(b) {
        CertifiedExtendsCommitted(cfg, w, b, b1, a);
      } else {
        CertifiedExtendsCommitted(cfg, w, a, a1, b);
      }
    }
  }

  /** Agreement over all runs: blocks committed at any two moments of a legal run lie on one chain. */
  lemma {:induction false} AgreementOverRuns(
      d: Driver, cfg: Config, run: seq<Action>, i: nat, j: nat, a: Block, b: Block)
    requires d.Driver? && d.MeetsObligations()
    requires cfg.Valid() && Legal(d, cfg, run) && i <= |run| && j <= |run|
    requires Committed(cfg, After(cfg, run[..i]), a) && Committed(cfg, After(cfg, run[..j]), b)
    ensures Extends(a, b) || Extends(b, a)
  {
    InvHolds(d, cfg, run);
    CommitLasts(cfg, run, i, a);
    CommitLasts(cfg, run, j, b);
    AgreementInWorld(cfg, After(cfg, run));
  }

  lemma {:induction false} CommitLasts(cfg: Config, run: seq<Action>, i: nat, a: Block)
    requires i <= |run| && Committed(cfg, After(cfg, run[..i]), a)
    ensures Committed(cfg, After(cfg, run), a)
  {
    var w := After(cfg, run[..i]);
    var a1 :| CommittedBy(cfg, w, a, a1);
    RunGrows(cfg, run, i);
    CertifiedGrows(cfg, w, After(cfg, run), a1);
    assert CommittedBy(cfg, After(cfg, run), a, a1);
  }

  /** The same invariant over time: no TC formed at any later moment can fall behind a commit. */
  lemma {:induction false} LaterTcKnowsCommit(
      d: Driver, cfg: Config, run: seq<Action>, i: nat, b0: Block, b1: Block, tc: TwoChainTimeoutCertificate)
    requires d.Driver? && d.MeetsObligations() && cfg.Valid() && Legal(d, cfg, run) && i <= |run|
    requires CommittedBy(cfg, After(cfg, run[..i]), b0, b1)
    requires GenuineTc(cfg, After(cfg, run), tc) && tc.round >= b1.round
    ensures tc.hqcRound >= RoundOf(b0)
  {
    InvHolds(d, cfg, run);
    RunGrows(cfg, run, i);
    CertifiedGrows(cfg, After(cfg, run[..i]), After(cfg, run), b1);
    TcKnowsCommit(cfg, After(cfg, run), b0, b1, tc);
  }
}

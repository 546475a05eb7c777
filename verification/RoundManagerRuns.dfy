/** What holds over every run of a round manager. */
module RoundManagerRuns {
  import opened Types
  import opened VotingPower
  import opened Aggregation
  import opened Votes
  import opened SafetyRules
  import opened RoundManagers
  import SafetyHistory

  /** `SafetyChanges` is a caller's use of the rules' own calls through `safety_rules_mut`. */
  datatype Event =
    | VoteArrives(vote: Vote, crypto: Crypto)
    | TimeoutFires
    | ProposalArrives(proposal: Proposal)
    | TriesToVote(wanted: Proposal, tc: Option<TwoChainTimeoutCertificate>)
    | RoundStarts(round: Round)
    | SafetyChanges(change: SafetyHistory.Event)

  /** The manager together with a record of every vote it stored and every certificate it formed. */
  datatype Trace = Trace(rm: Rm, accepted: set<Vote>, formed: seq<QuorumCert>)

  /** A timeout in the very last round overflows and panics; such a run ends there. */
  function TimeoutStep(rm: Rm): (Rm, bool) {
    if rm.rs.round == U64_MAX then (rm, false) else
      var (next, r) := ProcessTimeout(rm);
      (next, r.Pass?)
  }

  /** The vote gets into the store, whatever then comes of it. */
  predicate Stores(rm: Rm, vote: Vote) {
    && vote.authentic && vote.epoch == rm.rs.epoch
    && vote.round >= rm.pending.currentRound
    && vote.signature !in VotesFor(rm.pending, KeyOf(vote))
  }

  ghost function Next(t: Trace, e: Event, validators: map<NodeId, u64>): Trace {
    match e
    case VoteArrives(vote, crypto) =>
      var (rm, r, qc) := ProcessVote(t.rm, vote, validators, crypto);
      Trace(rm,
            if Stores(t.rm, vote) then t.accepted + {vote} else t.accepted,
            if qc.Some? then t.formed + [qc.value] else t.formed)
    case TimeoutFires => t.(rm := TimeoutStep(t.rm).0)
    case ProposalArrives(p) => t.(rm := ProcessProposal(t.rm, p).0)
    case TriesToVote(p, tc) => t.(rm := TryVote(t.rm, p, tc).0)
    case RoundStarts(r) => t.(rm := StartRound(t.rm, r))
    case SafetyChanges(c) => t.(rm := t.rm.(safety := SafetyHistory.Apply(t.rm.safety, c)))
  }

  ghost function Run(start: Rm, h: seq<Event>, validators: map<NodeId, u64>): Trace {
    if h == [] then Trace(start, {}, []) else
      Next(Run(start, h[..|h| - 1], validators), h[|h| - 1], validators)
  }

  // ---------------------------------------------------------------- certificates

  /** Backed by known validators holding a quorum, each with an accepted vote for exactly this round and block. */
  ghost predicate QcSound(qc: QuorumCert, accepted: set<Vote>, validators: map<NodeId, u64>) {
    && qc.signers <= validators.Keys
    && HasQuorumPower(validators, qc.signers)
    && forall a | a in qc.signers :: exists v :: v in accepted && v.author == a && KeyOf(v) == (qc.round, qc.blockId)
  }

  /** Every pending vote is among the accepted ones. */
  ghost predicate PendingAccepted(p: PendingState, accepted: set<Vote>) {
    forall k, s | k in p.votes && s in p.votes[k] :: p.votes[k][s] in accepted
  }

  ghost predicate TraceInv(t: Trace, validators: map<NodeId, u64>) {
    && StoreInv(t.rm.pending)
    && PendingAccepted(t.rm.pending, t.accepted)
    && (forall qc | qc in t.formed :: QcSound(qc, t.accepted, validators))
  }

  lemma {:induction false} NewQcSound(
      p: PendingState, qc: QuorumCert, rm: Rm, validators: map<NodeId, u64>, crypto: Crypto, accepted: set<Vote>)
    requires StoreInv(p) && rm.pending == p
    requires PendingAccepted(p, accepted)
    requires QcFor(rm, (qc.round, qc.blockId), validators, crypto) == Ok(qc)
    ensures QcSound(qc, accepted, validators)
  {
    var m := VotesFor(p, (qc.round, qc.blockId));
    forall a | a in qc.signers
      ensures exists v :: v in accepted && v.author == a && KeyOf(v) == (qc.round, qc.blockId)
    {
      var s :| s in m && m[s].author in validators && m[s].author == a;
      assert m[s] in accepted;
    }
  }

  lemma {:induction false} QcSoundGrows(qc: QuorumCert, fewer: set<Vote>, more: set<Vote>, validators: map<NodeId, u64>)
    requires QcSound(qc, fewer, validators) && fewer <= more
    ensures QcSound(qc, more, validators)
  {
    forall a | a in qc.signers
      ensures exists v :: v in more && v.author == a && KeyOf(v) == (qc.round, qc.blockId)
    {
      var v :| v in fewer && v.author == a && KeyOf(v) == (qc.round, qc.blockId);
    }
  }

  lemma {:induction false} StoredVoteAccepted(
      p: PendingState, vote: Vote, validators: map<NodeId, u64>, accepted: set<Vote>)
    requires StoreInv(p) && PendingAccepted(p, accepted)
    requires vote.round >= p.currentRound && vote.signature !in VotesFor(p, KeyOf(vote))
    ensures StoreInv(Store(p, vote)) && PendingAccepted(Store(p, vote), accepted + {vote})
  {
    StoreInvKept(p, vote, validators, vote.round);
    assert AddVote(p, vote, validators).0 == Store(p, vote);
    var q := Store(p, vote);
    forall k, s | k in q.votes && s in q.votes[k] ensures q.votes[k][s] in accepted + {vote} {
      if k == KeyOf(vote) && s != vote.signature {
        assert s in p.votes[k];
      }
    }
  }

  /** A vote is passed over, stored, or stored and its round closed by a certificate. */
  lemma VoteOutcome(t: Trace, vote: Vote, crypto: Crypto, validators: map<NodeId, u64>)
    ensures var u := Next(t, VoteArrives(vote, crypto), validators);
      var stored := t.rm.(pending := Store(t.rm.pending, vote));
      var qc := ProcessVote(t.rm, vote, validators, crypto).2;
      && (!Stores(t.rm, vote) ==> u == t)
      && (Stores(t.rm, vote) ==> u.accepted == t.accepted + {vote})
      && (Stores(t.rm, vote) && qc.None? ==> u.rm.pending == stored.pending && u.formed == t.formed)
      && (Stores(t.rm, vote) && qc.Some? ==>
            && u.rm.pending == RemoveRound(stored.pending, qc.value.round) && u.formed == t.formed + [qc.value]
            && QcFor(stored, (qc.value.round, qc.value.blockId), validators, crypto) == Ok(qc.value))
  {
  }

  lemma {:induction false} VoteStep(t: Trace, vote: Vote, crypto: Crypto, validators: map<NodeId, u64>)
    requires TraceInv(t, validators)
    ensures TraceInv(Next(t, VoteArrives(vote, crypto), validators), validators)
  {
    hide Next, ProcessVote, Store, StoreInv, QcSound, QcFor;
    VoteOutcome(t, vote, crypto, validators);
    if Stores(t.rm, vote) {
      var u := Next(t, VoteArrives(vote, crypto), validators);
      var stored := t.rm.(pending := Store(t.rm.pending, vote));
      StoredVoteAccepted(t.rm.pending, vote, validators, t.accepted);
      var qc := ProcessVote(t.rm, vote, validators, crypto).2;
      if qc.Some? {
        NewQcSound(stored.pending, qc.value, stored, validators, crypto, u.accepted);
        StoreInvRemove(stored.pending, qc.value.round);
      }
      forall q | q in t.formed ensures QcSound(q, u.accepted, validators) {
        QcSoundGrows(q, t.accepted, u.accepted, validators);
      }
    }
  }

  lemma {:induction false} StoreInvRemove(p: PendingState, round: Round)
    requires StoreInv(p)
    ensures StoreInv(RemoveRound(p, round)) && StoreInv(SetRound(p, round))
  {
    StoreInvKept(p, Vote(0, 0, 0, 0, 0, false), map[], round);
  }

  /** Dropping votes and changing anything but votes, records and certificates keeps the invariant. */
  lemma {:induction false} TraceInvShrinks(t: Trace, rm: Rm, validators: map<NodeId, u64>)
    requires TraceInv(t, validators) && StoreInv(rm.pending)
    requires forall k | k in rm.pending.votes :: k in t.rm.pending.votes && rm.pending.votes[k] == t.rm.pending.votes[k]
    ensures TraceInv(t.(rm := rm), validators)
  {
    var u := t.(rm := rm);
    forall k, s | k in rm.pending.votes && s in rm.pending.votes[k] ensures rm.pending.votes[k][s] in u.accepted {
      assert t.rm.pending.votes[k][s] in t.accepted;
    }
  }

  /** What any other event does to the pending votes: nothing, or moving on to some round. */
  lemma OtherStepPending(t: Trace, e: Event, validators: map<NodeId, u64>) returns (round: Round)
    requires !e.VoteArrives?
    ensures var u := Next(t, e, validators);
      && u == t.(rm := u.rm)
      && (u.rm.pending == t.rm.pending || u.rm.pending == SetRound(t.rm.pending, round))
  {
    round := if e.RoundStarts? then e.round else if t.rm.rs.round < U64_MAX then t.rm.rs.round + 1 else 0;
  }

  lemma {:induction false} OtherStep(t: Trace, e: Event, validators: map<NodeId, u64>)
    requires TraceInv(t, validators) && !e.VoteArrives?
    ensures TraceInv(Next(t, e, validators), validators)
  {
    hide Next, StoreInv, QcSound;
    var round := OtherStepPending(t, e, validators);
    StoreInvRemove(t.rm.pending, round);
    TraceInvShrinks(t, Next(t, e, validators).rm, validators);
  }

  /** Every certificate a run has formed so far rests on votes the same run had accepted by then. */
  lemma {:induction false} EveryQcIsSound(start: Rm, h: seq<Event>, validators: map<NodeId, u64>)
    requires start.pending.votes == map[]
    ensures TraceInv(Run(start, h, validators), validators)
  {
    if h != [] {
      var t, e := Run(start, h[..|h| - 1], validators), h[|h| - 1];
      EveryQcIsSound(start, h[..|h| - 1], validators);
      if e.VoteArrives? {
        VoteStep(t, e.vote, e.crypto, validators);
      } else {
        OtherStep(t, e, validators);
      }
    }
  }

  /** Some event of the run delivered this vote, and it was authentic and of the manager's epoch. */
  ghost predicate Submitted(start: Rm, h: seq<Event>, v: Vote) {
    && v.authentic && v.epoch == start.rs.epoch
    && exists i :: 0 <= i < |h| && h[i].VoteArrives? && h[i].vote == v
  }

  lemma {:induction false} AcceptedWereSubmitted(start: Rm, h: seq<Event>, validators: map<NodeId, u64>)
    ensures Run(start, h, validators).rm.rs.epoch == start.rs.epoch
    ensures forall v | v in Run(start, h, validators).accepted :: Submitted(start, h, v)
  {
    if h != [] {
      var g := h[..|h| - 1];
      AcceptedWereSubmitted(start, g, validators);
      forall v | v in Run(start, h, validators).accepted ensures Submitted(start, h, v) {
        if v in Run(start, g, validators).accepted {
          var i :| 0 <= i < |g| && g[i].VoteArrives? && g[i].vote == v;
          assert h[i] == g[i];
        }
      }
    }
  }

  /** The validators of whom the run delivered votes for both blocks in one round. */
  ghost function Equivocators(
      start: Rm, h: seq<Event>, validators: map<NodeId, u64>, round: Round, a: BlockId, b: BlockId): set<NodeId>
  {
    set x | x in validators
      && (exists v :: Submitted(start, h, v) && v.author == x && KeyOf(v) == (round, a))
      && (exists v :: Submitted(start, h, v) && v.author == x && KeyOf(v) == (round, b))
  }

  /** Two certificates for different blocks of one round expose equivocators with more than a third of the power. */
  lemma {:induction false} ConflictingQcsExposeThird(
      start: Rm, h: seq<Event>, validators: map<NodeId, u64>, p: QuorumCert, q: QuorumCert)
    requires start.pending.votes == map[]
    requires p in Run(start, h, validators).formed && q in Run(start, h, validators).formed
    requires p.round == q.round
    ensures var both := Equivocators(start, h, validators, p.round, p.blockId, q.blockId);
      3 * PowerOf(validators, both) > TotalPower(validators)
  {
    var t := Run(start, h, validators);
    EveryQcIsSound(start, h, validators);
    AcceptedWereSubmitted(start, h, validators);
    var both := Equivocators(start, h, validators, p.round, p.blockId, q.blockId);
    forall x | x in p.signers * q.signers ensures x in both {
      var v :| v in t.accepted && v.author == x && KeyOf(v) == (p.round, p.blockId);
      var w :| w in t.accepted && w.author == x && KeyOf(w) == (q.round, q.blockId);
      assert Submitted(start, h, v) && Submitted(start, h, w);
    }
    QuorumsIntersect(validators, p.signers, q.signers);
    SumMonotone(p.signers * q.signers, both, WeightIn(validators));
  }

  /** The repeated quorum check inside certificate formation can never be the one to fail, and success clears the
      round. */
  lemma QuorumCompletedIsFinal(rm: Rm, vote: Vote, validators: map<NodeId, u64>, crypto: Crypto)
    ensures var (next, r, qc) := ProcessVote(rm, vote, validators, crypto);
      && r != Err(TooLittlePower)
      && (r == Ok(QuorumCompleted) <==> qc.Some?)
      && (qc.Some? ==> (qc.value.round, qc.value.blockId) == KeyOf(vote))
      && (qc.Some? ==> forall k | k in next.pending.votes :: k.0 != vote.round)
      && (qc.Some? ==> next.rs.quorumCert == qc && next.safety.oneChainRound >= vote.round)
      && (qc.None? ==> next.rs == rm.rs && next.safety == rm.safety)
  {
  }

  /** What becomes of a vote, in the order the manager asks. */
  lemma VoteAnswers(rm: Rm, vote: Vote, validators: map<NodeId, u64>, crypto: Crypto)
    ensures var (next, r, qc) := ProcessVote(rm, vote, validators, crypto);
      && (r == Err(InvalidVote) <==> !vote.authentic)
      && (vote.authentic && vote.epoch != rm.rs.epoch ==> r == Ok(Rejected))
      && (!Stores(rm, vote) ==> next == rm && qc.None?)
      && (Stores(rm, vote) ==> vote.signature in VotesFor(Store(rm.pending, vote), KeyOf(vote)))
      && (Stores(rm, vote) && qc.None? ==> next.pending == Store(rm.pending, vote))
  {
  }

  /** What the completing vote is answered, by the cryptography's answers; a certificate carries everybody known who
      signed, the last one included. */
  lemma CompletingVote(rm: Rm, vote: Vote, validators: map<NodeId, u64>, crypto: Crypto)
    requires Stores(rm, vote) && AddVote(rm.pending, vote, validators).1 == QuorumCompleted
    ensures var (next, r, qc) := ProcessVote(rm, vote, validators, crypto);
      && (r == Err(AggregationFailed) <==> !crypto.aggregates)
      && (r == Err(QcRejected) <==> crypto.aggregates && !crypto.buildsQc)
      && (r == Ok(QuorumCompleted) <==> crypto.aggregates && crypto.buildsQc)
      && (qc.Some? ==> qc.value.signers == Signers(validators, VotesFor(rm.pending, KeyOf(vote)))
                                           + if vote.author in validators then {vote.author} else {})
  {
    SignersAfterStore(validators, rm.pending, vote);
  }

  // ---------------------------------------------------------------- enough votes do make a certificate

  /** The cryptography always answers yes. */
  predicate CryptoAnswers(h: seq<Event>) {
    forall e | e in h && e.VoteArrives? :: e.crypto == Crypto(true, true)
  }

  ghost predicate NoQuorumPending(p: PendingState, validators: map<NodeId, u64>) {
    forall k | k in p.votes :: !HasQuorumPower(validators, Signers(validators, p.votes[k]))
  }

  lemma {:induction false} NoQuorumStep(t: Trace, e: Event, validators: map<NodeId, u64>)
    requires NoQuorumPending(t.rm.pending, validators) && CryptoAnswers([e])
    ensures NoQuorumPending(Next(t, e, validators).rm.pending, validators)
  {
    if e.VoteArrives? {
      assert e in [e];
      NoQuorumVote(t, e.vote, validators);
    } else {
      var round := OtherStepPending(t, e, validators);
    }
  }

  lemma {:induction false} NoQuorumVote(t: Trace, vote: Vote, validators: map<NodeId, u64>)
    requires NoQuorumPending(t.rm.pending, validators)
    ensures NoQuorumPending(Next(t, VoteArrives(vote, Crypto(true, true)), validators).rm.pending, validators)
  {
    var u := Next(t, VoteArrives(vote, Crypto(true, true)), validators);
    VoteOutcome(t, vote, Crypto(true, true), validators);
    if Stores(t.rm, vote) {
      var stored := Store(t.rm.pending, vote);
      if HasQuorumPower(validators, Signers(validators, VotesFor(stored, KeyOf(vote)))) {
        assert u.rm.pending == RemoveRound(stored, vote.round);
      }
    }
  }

  /** With cryptography that answers yes, the known authors of the pending votes under any one key never hold more than
      two thirds of the power. */
  lemma {:induction false} PendingStaysBelowQuorum(start: Rm, h: seq<Event>, validators: map<NodeId, u64>)
    requires start.pending.votes == map[] && CryptoAnswers(h)
    ensures NoQuorumPending(Run(start, h, validators).rm.pending, validators)
    ensures var p := Run(start, h, validators).rm.pending;
      forall k :: 3 * PowerOf(validators, Signers(validators, VotesFor(p, k))) <= 2 * TotalPower(validators)
  {
    NoQuorumHolds(start, h, validators);
    var p := Run(start, h, validators).rm.pending;
    forall k ensures 3 * PowerOf(validators, Signers(validators, VotesFor(p, k))) <= 2 * TotalPower(validators) {
      if k in p.votes {
        QuorumIffTwoThirds(validators, Signers(validators, p.votes[k]));
      } else {
        assert Signers(validators, VotesFor(p, k)) == {};
      }
    }
  }

  lemma {:induction false} NoQuorumHolds(start: Rm, h: seq<Event>, validators: map<NodeId, u64>)
    requires start.pending.votes == map[] && CryptoAnswers(h)
    ensures NoQuorumPending(Run(start, h, validators).rm.pending, validators)
  {
    if h != [] {
      var g, e := h[..|h| - 1], h[|h| - 1];
      NoQuorumHolds(start, g, validators);
      NoQuorumStep(Run(start, g, validators), e, validators);
    }
  }

  /** The vote delivered by event `i` is authentic, of the manager's epoch, for a round still accepted, and its
      signature is new under its key. */
  ghost predicate TakenAt(start: Rm, h: seq<Event>, validators: map<NodeId, u64>, i: int)
    requires 0 <= i < |h|
  {
    var rm := Run(start, h[..i], validators).rm;
    && h[i].VoteArrives? && h[i].vote.authentic && h[i].vote.epoch == rm.rs.epoch
    && h[i].vote.round >= rm.pending.currentRound
    && h[i].vote.signature !in VotesFor(rm.pending, KeyOf(h[i].vote))
  }

  /** The vote tracker has not moved on so far since event `i` that it forgot the round. */
  ghost predicate RoundKeptSince(start: Rm, h: seq<Event>, validators: map<NodeId, u64>, i: int, round: Round)
    requires 0 <= i < |h|
  {
    forall n | i < n <= |h| ::
      var p := Run(start, h[..n], validators).rm.pending; round >= SaturatingSub(p.currentRound, p.maxRounds)
  }

  ghost predicate CertifiedRound(formed: seq<QuorumCert>, round: Round) {
    exists qc :: qc in formed && qc.round == round
  }

  ghost predicate PendingVote(p: PendingState, vote: Vote) {
    vote.signature in VotesFor(p, KeyOf(vote)) && VotesFor(p, KeyOf(vote))[vote.signature] == vote
  }

  /** One event leaves a pending vote pending, unless it certifies the vote's round or moves the tracker past it. */
  lemma {:induction false} PendingVoteStep(t: Trace, e: Event, validators: map<NodeId, u64>, vote: Vote)
    requires PendingVote(t.rm.pending, vote)
    ensures var u := Next(t, e, validators);
      || PendingVote(u.rm.pending, vote)
      || CertifiedRound(u.formed, vote.round)
      || vote.round < SaturatingSub(u.rm.pending.currentRound, u.rm.pending.maxRounds)
  {
    var u := Next(t, e, validators);
    if e.VoteArrives? {
      VoteOutcome(t, e.vote, e.crypto, validators);
      var qc := ProcessVote(t.rm, e.vote, validators, e.crypto).2;
      if qc.Some? && Stores(t.rm, e.vote) && qc.value.round == vote.round {
        assert u.formed[|t.formed|] == qc.value;
      }
    } else {
      var round := OtherStepPending(t, e, validators);
    }
  }

  lemma {:induction false} FormedGrows(t: Trace, e: Event, validators: map<NodeId, u64>, round: Round)
    requires CertifiedRound(t.formed, round)
    ensures CertifiedRound(Next(t, e, validators).formed, round)
  {
    var qc :| qc in t.formed && qc.round == round;
    assert qc in Next(t, e, validators).formed;
  }

  lemma TakenAtPrefix(start: Rm, h: seq<Event>, validators: map<NodeId, u64>, i: int, round: Round)
    requires 0 <= i < |h| - 1
    ensures TakenAt(start, h, validators, i) <==> TakenAt(start, h[..|h| - 1], validators, i)
    ensures RoundKeptSince(start, h, validators, i, round) ==>
      RoundKeptSince(start, h[..|h| - 1], validators, i, round)
  {
    hide Run;
    var n := |h| - 1;
    assert h[..n][..i] == h[..i] && h[..n][i] == h[i];
    forall m | i < m <= n ensures h[..n][..m] == h[..m] {}
  }

  lemma RunLast(start: Rm, h: seq<Event>, validators: map<NodeId, u64>)
    requires h != []
    ensures Run(start, h, validators) == Next(Run(start, h[..|h| - 1], validators), h[|h| - 1], validators)
  {
  }

  /** A vote once taken stays pending until its round is certified. */
  lemma {:induction false} TakenVoteWaits(start: Rm, h: seq<Event>, validators: map<NodeId, u64>, i: int)
    requires 0 <= i < |h| && TakenAt(start, h, validators, i)
    requires RoundKeptSince(start, h, validators, i, h[i].vote.round)
    ensures var t := Run(start, h, validators);
      PendingVote(t.rm.pending, h[i].vote) || CertifiedRound(t.formed, h[i].vote.round)
    decreases |h|
  {
    hide Run, Next;
    var n := |h| - 1;
    var t, vote := Run(start, h[..n], validators), h[i].vote;
    RunLast(start, h, validators);
    if i == n {
      JustTaken(t, vote, h[n].crypto, validators);
    } else {
      TakenAtPrefix(start, h, validators, i, vote.round);
      TakenVoteWaits(start, h[..n], validators, i);
      assert h[..|h|] == h;
      if CertifiedRound(t.formed, vote.round) {
        FormedGrows(t, h[n], validators, vote.round);
      } else {
        PendingVoteStep(t, h[n], validators, vote);
      }
    }
  }

  lemma {:induction false} JustTaken(t: Trace, vote: Vote, crypto: Crypto, validators: map<NodeId, u64>)
    requires Stores(t.rm, vote)
    ensures var u := Next(t, VoteArrives(vote, crypto), validators);
      PendingVote(u.rm.pending, vote) || CertifiedRound(u.formed, vote.round)
  {
    VoteOutcome(t, vote, crypto, validators);
    QuorumCompletedIsFinal(t.rm, vote, validators, crypto);
    var u := Next(t, VoteArrives(vote, crypto), validators);
    var qc := ProcessVote(t.rm, vote, validators, crypto).2;
    if qc.Some? {
      assert u.formed[|t.formed|] == qc.value;
    }
  }

  /** The known validator's vote for the key was delivered and taken, and the round kept since. */
  ghost predicate VotedFor(start: Rm, h: seq<Event>, validators: map<NodeId, u64>, y: NodeId, key: VoteKey) {
    exists i :: 0 <= i < |h| && TakenAt(start, h, validators, i) && h[i].vote.author == y && KeyOf(h[i].vote) == key
      && RoundKeptSince(start, h, validators, i, key.0)
  }

  /** The other half of soundness: once known validators holding a quorum each had a vote for one round and block taken,
      and the cryptography answers yes, a certificate for that round has been formed. */
  lemma {:induction false} DeliveredQuorumIsCertified(
      start: Rm, h: seq<Event>, validators: map<NodeId, u64>, q: set<NodeId>, key: VoteKey)
    requires start.pending.votes == map[] && CryptoAnswers(h)
    requires q <= validators.Keys && HasQuorumPower(validators, q)
    requires forall y | y in q :: VotedFor(start, h, validators, y, key)
    ensures CertifiedRound(Run(start, h, validators).formed, key.0)
  {
    var t := Run(start, h, validators);
    if !CertifiedRound(t.formed, key.0) {
      PendingStaysBelowQuorum(start, h, validators);
      QuorumIffTwoThirds(validators, q);
      var signers := Signers(validators, VotesFor(t.rm.pending, key));
      forall y | y in q ensures y in signers {
        var i :| 0 <= i < |h| && TakenAt(start, h, validators, i) && h[i].vote.author == y && KeyOf(h[i].vote) == key
          && RoundKeptSince(start, h, validators, i, key.0);
        TakenVoteWaits(start, h, validators, i);
        assert h[i].vote.signature in VotesFor(t.rm.pending, key);
      }
      SumMonotone(q, signers, WeightIn(validators));
      assert false;
    }
  }

  // ---------------------------------------------------------------- rounds

  /** A timeout is granted exactly when the manager sits in the round of its best certificate. */
  lemma TimeoutNeedsQcOfThisRound(rm: Rm)
    requires rm.rs.round < U64_MAX
    ensures ProcessTimeout(rm).1.Pass? <==> rm.rs.round == rm.safety.oneChainRound
  {
  }

  predicate NoRoundStarts(h: seq<Event>) {
    forall e | e in h :: !e.RoundStarts?
  }

  ghost predicate RoundInv(rm: Rm) {
    && rm.pending.currentRound == rm.rs.round
    && (rm.rs.quorumCert.Some? ==> rm.rs.quorumCert.value.round <= rm.safety.oneChainRound)
  }

  lemma {:induction false} RoundInvStep(t: Trace, e: Event, validators: map<NodeId, u64>)
    requires RoundInv(t.rm)
    ensures var u := Next(t, e, validators);
      && RoundInv(u.rm)
      && (!e.RoundStarts? && t.rm.rs.round <= t.rm.safety.oneChainRound + 1 ==>
            u.rm.rs.round <= u.rm.safety.oneChainRound + 1)
  {
  }

  /** The vote tracker follows the round, the stored certificate is no newer than the best known, and unless a round
      is started by hand the manager is at most one round past its best certificate. */
  lemma {:induction false} RoundsInStep(start: Rm, h: seq<Event>, validators: map<NodeId, u64>)
    requires RoundInv(start)
    ensures RoundInv(Run(start, h, validators).rm)
    ensures NoRoundStarts(h) && start.rs.round <= start.safety.oneChainRound + 1 ==>
      Run(start, h, validators).rm.rs.round <= Run(start, h, validators).rm.safety.oneChainRound + 1
  {
    if h != [] {
      hide Next, RoundInv;
      RoundsInStep(start, h[..|h| - 1], validators);
      RoundInvStep(Run(start, h[..|h| - 1], validators), h[|h| - 1], validators);
    }
  }

  /** One step by anything but a hand-started round: rounds and the best certificate only rise. */
  lemma {:induction false} StepRises(t: Trace, e: Event, validators: map<NodeId, u64>)
    requires !e.RoundStarts?
    ensures var u := Next(t, e, validators);
      && t.rm.rs.round <= u.rm.rs.round && t.rm.safety.oneChainRound <= u.rm.safety.oneChainRound
      && (u.rm.rs.round != t.rm.rs.round ==> e.TimeoutFires? && t.rm.rs.round == t.rm.safety.oneChainRound)
  {
  }

  lemma {:induction false} RunRises(start: Rm, h: seq<Event>, validators: map<NodeId, u64>, i: nat)
    requires NoRoundStarts(h) && i <= |h|
    ensures Run(start, h[..i], validators).rm.rs.round <= Run(start, h, validators).rm.rs.round
    ensures Run(start, h[..i], validators).rm.safety.oneChainRound <= Run(start, h, validators).rm.safety.oneChainRound
    decreases |h|
  {
    if i == |h| {
      assert h[..i] == h;
    } else {
      var g := h[..|h| - 1];
      RunRises(start, g, validators, i);
      assert g[..i] == h[..i];
      StepRises(Run(start, g, validators), h[|h| - 1], validators);
    }
  }

  ghost predicate TimesOutAt(start: Rm, h: seq<Event>, validators: map<NodeId, u64>, i: nat)
    requires i < |h|
  {
    h[i].TimeoutFires? && TimeoutStep(Run(start, h[..i], validators).rm).1
  }

  /** Without hand-started rounds the tracker only moves forward, so a round it still keeps was never forgotten. */
  lemma {:induction false} KeptWithoutRoundStarts(
      start: Rm, h: seq<Event>, validators: map<NodeId, u64>, i: int, round: Round)
    requires NoRoundStarts(h) && RoundInv(start) && 0 <= i < |h|
    requires var p := Run(start, h, validators).rm.pending; round >= SaturatingSub(p.currentRound, p.maxRounds)
    ensures RoundKeptSince(start, h, validators, i, round)
  {
    forall n | i < n <= |h|
      ensures var p := Run(start, h[..n], validators).rm.pending; round >= SaturatingSub(p.currentRound, p.maxRounds)
    {
      RunRises(start, h, validators, n);
      RoundsInStep(start, h, validators);
      RoundsInStep(start, h[..n], validators);
      MaxRoundsFixed(start, h, validators);
      MaxRoundsFixed(start, h[..n], validators);
    }
  }

  lemma {:induction false} MaxRoundsFixed(start: Rm, h: seq<Event>, validators: map<NodeId, u64>)
    ensures Run(start, h, validators).rm.pending.maxRounds == start.pending.maxRounds
  {
    if h != [] {
      MaxRoundsFixed(start, h[..|h| - 1], validators);
    }
  }

  /** Between any two granted timeouts a better certificate must have been seen. */
  lemma {:induction false} TimeoutsNeedProgress(start: Rm, h: seq<Event>, validators: map<NodeId, u64>, i: nat, j: nat)
    requires NoRoundStarts(h) && i < j < |h|
    requires TimesOutAt(start, h, validators, i) && TimesOutAt(start, h, validators, j)
    ensures var s, t := Run(start, h[..i], validators).rm, Run(start, h[..j], validators).rm;
      s.safety.oneChainRound < t.safety.oneChainRound
  {
    var s, t := Run(start, h[..i], validators).rm, Run(start, h[..j], validators).rm;
    TimeoutNeedsQcOfThisRound(s);
    TimeoutNeedsQcOfThisRound(t);
    assert h[..i + 1][..i] == h[..i] && h[..j][..i + 1] == h[..i + 1];
    assert Run(start, h[..i + 1], validators).rm.rs.round == s.rs.round + 1;
    RunRises(start, h[..j], validators, i + 1);
  }

  /** A manager that ever learns of a certificate from a later round is stuck: no timeout is granted again. */
  lemma {:induction false} LateManagerIsStuck(start: Rm, h: seq<Event>, validators: map<NodeId, u64>)
    requires NoRoundStarts(h) && start.rs.round < start.safety.oneChainRound
    ensures var rm := Run(start, h, validators).rm;
      rm.rs.round == start.rs.round && rm.rs.round < rm.safety.oneChainRound && !TimeoutStep(rm).1
  {
    if h != [] {
      LateManagerIsStuck(start, h[..|h| - 1], validators);
      StepRises(Run(start, h[..|h| - 1], validators), h[|h| - 1], validators);
    }
  }

  /** Whether a run without hand-started rounds leads to a state in which a timeout is granted. */
  ghost predicate CanTimeOut(start: Rm, validators: map<NodeId, u64>) {
    exists h :: NoRoundStarts(h) && TimeoutStep(Run(start, h, validators).rm).1
  }

  /** A manager can ever time out again exactly if it has not fallen behind its best certificate. */
  lemma {:induction false} CanTimeOutIffNotBehind(start: Rm, validators: map<NodeId, u64>)
    requires start.rs.round < U64_MAX
    ensures CanTimeOut(start, validators) <==> start.rs.round >= start.safety.oneChainRound
  {
    if start.rs.round < start.safety.oneChainRound {
      forall h | NoRoundStarts(h) ensures !TimeoutStep(Run(start, h, validators).rm).1 {
        LateManagerIsStuck(start, h, validators);
      }
    } else {
      var e := SafetyChanges(SafetyHistory.SawQc(start.rs.round));
      var h := [e];
      assert h[..|h| - 1] == [] && Run(start, [], validators).rm == start;
      var rm := Run(start, h, validators).rm;
      assert rm.rs == start.rs && rm.safety.oneChainRound == start.rs.round;
      TimeoutNeedsQcOfThisRound(rm);
    }
  }
}

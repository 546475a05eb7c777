# The 2-chain BFT core, verified

A Dafny 4.11 model of the consensus core of this library and proofs about it. `dafny verify dfyconfig.toml` checks
everything.

## What is modelled

1. **Safety.** The 2-chain safety rules (`SafetyRules`), what their state says about the past (`SafetyHistory`),
   restarts (`Recovery`), and many validators running those rules against an adversary (`Agreement`): honest
   validators act through the code's own `safe_to_vote`, `safe_to_timeout`, `observe_qc`, `observe_tc`, `record_vote`
   and `record_timeout`, save their state, and restart from what they saved; Byzantine ones send any vote and any
   timeout. The theorem is agreement under the documented commit rule. What the code leaves to whoever drives it is a
   named switch of `Agreement.Driver` each, and `DriverObligations` says exactly under which settings the code is safe.
   Votes need four obligations: the real QC round, one block a round, a certified parent, a genuine TC. Timeouts need
   none if they are of the round after the QC they carry, which is all `process_timeout` grants, and three otherwise:
   no vote after a timeout, observing a proposal's QC before voting on it, and saving the state before a vote is sent.
   For each one missing a fork is built with one honest validator and no faults. A driver that goes by its own safety
   state alone is safe, across restarts, exactly if it saves that state before it sends and records its timeouts in it.
2. **Votes and certificates.** Signature aggregation and the quorum threshold (`VotingPower`, `Aggregation`), the
   pending votes (`Votes`), the round manager (`RoundManagers`), its runs (`RoundManagerRuns`) and its state as a
   function of what happened to it (`RoundManagerHistory`). Certificates are sound, and complete: votes of a quorum,
   once delivered, do make one. `EndToEnd` joins
   this layer to the first: certificates formed by round managers anywhere commit to one chain, whatever votes
   Byzantine validators send them.
3. **Proposer election.** The cumulative-weight scan and round robin, with exact counts over every window
   (`Proposers`).
4. **Engines.** State sync (`StateSyncs`, `StateSyncRuns`, `StateSyncHistory`), the in-memory DAG (`DagStore`), epoch changes
   (`Reconfigs`), and round timeouts (`Pacemakers`).

Objects the code updates in place are classes here. Each of their methods is proved against a function on the abstract
state, and the theorems are about sequences of those functions, over every input and every run. `u64` is a bounded
type; where the code adds without a check, overflow is a precondition of the method, named (`NextBatchOverflows`,
`PrepareOverflows`, `EnterOverflows`, ...) where it is not a plain bound, and a run ends where such a step would be
taken. Iteration over a hash map yields its elements in an order nobody controls. Hashes and signatures are opaque
values; whether a vote is authentic, whether signatures aggregate and whether `from_votes` succeeds are inputs, and a
certificate carries the round and block of the votes it was formed from.

## Where the code departs from its documentation

The model follows the code.

- `consensus-core/src/safety_rules/state.rs:29` and `consensus-traits/src/safety.rs:52` promise
  `one_chain_round <= preferred_round`, and `validate_safety_state` insists on it. The updates maintain the opposite,
  so a reachable state reloads only if the two are equal (`Recovery.ReachableStateReloads`).
- `consensus-traits/src/safety.rs:19-23` says "B0 extends B1" in the commit rule and then gives B0 as B1's parent; the
  wording in `two_chain.rs:259-261` (B1 extends B0) is the one modelled.
- `should_commit` checks neither that the proposal is certified nor that its parent sits in the round before
  (`DriverObligations.ShouldCommitMeetsRule`, `ShouldCommitAloneForks`).
- `safe_to_vote` takes the QC's round to be the proposal's round minus one, which makes the rule pass for every
  proposal (`SafetyRules.GuessedRuleAlwaysPasses`). Applying the documented rule to the real QC round is left to the
  driver, and a driver that does not forks (`DriverObligations.NeedsRealQcRound`).
- `can_form_quorum` and `has_quorum` count an author once per signature or mention, not once
  (`Votes.CanFormWithoutQuorum`, `Aggregation.HasQuorumWithoutQuorum`). They are exact when nobody with weight is
  counted twice (`Votes.AggregatedAgainstAuthors`, `Aggregation.HasQuorumCountsRepeats`).
- `add_sync_response` documents an epoch check that it does not make (`StateSyncs.ResponseEpochIgnored`), and a sync
  may be reported as completed while rounds are missing (`StateSyncRuns.CompletedWithGap`,
  `StateSyncRuns.CompletedReachesTargetIff`).
- `InMemDag::add_node` documents an error for pruned rounds that it does not raise, so a node can be ordered twice
  (`DagStore.OrderedAgainAfterPruning`, and exactly when in `DagStore.SecondOrderingIff`).
- `ReconfigHandler` reports `Completed` and `Failed` to nobody, and an epoch can start with an empty validator set
  although `begin_reconfig` refuses one (`Reconfigs.EpochWithoutValidators`, `Reconfigs.SetIsEmptyIff`).
- The backoff index is cast to 32 bits before it is capped, so the backoff starts over after 2^32 rounds, and nothing
  refuses a factor below one, with which timeouts shrink (`Pacemakers.NeverShrinksIff`).
- `process_timeout` asks about the next round with the best QC known and no TC. It is granted only in the very round
  of that QC, and never again exactly to a manager that has fallen behind one
  (`RoundManagerRuns.CanTimeOutIffNotBehind`). It asks about round R + 1 but records R (`EndToEnd.GrantedTimeoutIsStep`),
  so a record of one's timeouts kept this way is a round short (compare `DriverObligations.LocalNeedsRecording`).
- A weighted election in which nobody has weight divides by zero, and the scan's fallback branch is dead code.

## Model

| member | source | states |
|---|---|---|
| `SafetyRules.NextRound` | consensus-core/src/safety_rules/two_chain.rs:115-119 | an error exactly at the last round |
| `SafetyRules.SafeToVoteImpl` | consensus-core/src/safety_rules/two_chain.rs:126-153 | exactly when the vote rule passes, including that overflow of the QC's or the TC's round fails it even if the other condition holds |
| `SafetyRules.SafeToTimeoutImpl` | consensus-core/src/safety_rules/two_chain.rs:159-181 | exactly when the timeout rule passes; the panic on a TC of the last round is the precondition |
| `SafetyRules.GuessedRuleAlwaysPasses` | consensus-core/src/safety_rules/two_chain.rs:192-214 | `safe_to_vote` passes every proposal past genesis unless a TC of the last round is given |
| `SafetyRules.TwoChainSafetyRules.ObserveQcRound` | consensus-core/src/safety_rules/two_chain.rs:226-242 | the state after observing a QC: preferred round compared with the old one-chain round |
| `SafetyRules.TwoChainSafetyRules.ObserveTimeoutCertificate` | consensus-core/src/safety_rules/two_chain.rs:244-252 | the state after observing a TC |
| `SafetyRules.TwoChainSafetyRules.RecordVoteRound` | consensus-core/src/safety_rules/two_chain.rs:277-290 | refuses lower rounds and changes nothing then; accepts the same round again |
| `SafetyRules.TwoChainSafetyRules.RecordTimeoutRound` | consensus-core/src/safety_rules/two_chain.rs:292-294 | raises the highest timeout round and nothing else |
| `SafetyRules.SafetyState.UpdateOneChainRound` | consensus-core/src/safety_rules/state.rs:104-111 | raises to the maximum, says whether anything changed |
| `SafetyRules.SafetyState.UpdatePreferredRound` | consensus-core/src/safety_rules/state.rs:116-123 | raises to the maximum, says whether anything changed |
| `SafetyRules.SafetyState.UpdateHighestTimeoutRound` | consensus-core/src/safety_rules/state.rs:128-135 | raises to the maximum, says whether anything changed |
| `SafetyHistory.StateIsFunctionOfHistory` | consensus-core/src/safety_rules/two_chain.rs:226-294 | over every run from `new`, each field is a maximum over the history, and preferred <= one-chain round |
| `SafetyHistory.OrderIndependent` | consensus-core/src/safety_rules/two_chain.rs:226-294 | two histories with the same events, in any order and number, give the same state but for the preferred round |
| `SafetyHistory.PreferredRoundDependsOnOrder` | consensus-core/src/safety_rules/two_chain.rs:232-239 | the preferred round depends on the order of the QCs |
| `SafetyHistory.StateOnlyRises` | consensus-traits/src/safety.rs:49-53 | no field ever falls, at any two moments of a run |
| `SafetyHistory.CommitsAfterHighestObserved` | consensus-core/src/safety_rules/two_chain.rs:258-275 | after any history `should_commit` names the parent exactly when the round before the proposal's is the highest observed, and nothing otherwise |
| `Recovery.LoadSafetyRules` | consensus-core/src/safety_rules/recovery.rs:63-94 | storage failure, first start, accepted state unchanged, rejected state with its reason |
| `Recovery.SafetyStorage.PersistSafetyState` | consensus-core/src/safety_rules/recovery.rs:174-196 | the stored state is replaced, or kept if storage fails |
| `Recovery.Restart` | consensus-core/src/safety_rules/recovery.rs:63-196 | persist then load returns the same state exactly when validation passes |
| `Recovery.ReachableStateReloads` | consensus-core/src/safety_rules/recovery.rs:99-125 | a reachable state passes validation iff the epoch is in range, one-chain round equals preferred round, and preferred <= last voted + 100 |
| `Recovery.ReloadInTermsOfHistory` | consensus-core/src/safety_rules/recovery.rs:99-125 | the same condition read off the events alone |
| `Recovery.RefusalInTermsOfHistory` | consensus-core/src/safety_rules/recovery.rs:99-125 | which of the three reasons a reachable state is refused for, read off the events |
| `Recovery.StoredStateReloadsIff` | consensus-core/src/safety_rules/recovery.rs:99-125 | any stored state passes iff it meets the three bounds; the first one broken is the reason |
| `Recovery.SkippedRoundBlocksRestart` | consensus-core/src/safety_rules/recovery.rs:108-114 | one history: after a vote in round 6 and a first QC of round 5, and before any further QC, a restart is refused |
| `VotingPower.QuorumsIntersect` | consensus-core/src/consensus/reconfig.rs:187-191 | two sets at the threshold share strictly more than a third of all power |
| `VotingPower.QuorumIffTwoThirds` | consensus-core/src/consensus/reconfig.rs:187-191 | a set reaches the threshold exactly with more than two thirds of all power |
| `VotingPower.OthersAreQuorumIff` | consensus-core/src/consensus/reconfig.rs:187-191 | all validators outside a set are a quorum iff the set holds less than a third |
| `VotingPower.QuorumsShareMemberOutside` | consensus-core/src/consensus/reconfig.rs:187-191 | two quorums share a known member outside any set holding less than a third |
| `Agreement.VotesInvHolds` | consensus-core/src/safety_rules/two_chain.rs:126-290 | over every run of a driver that votes well, honest votes are justified, on certified parents, and one to a round |
| `Agreement.TimeoutsInvHolds` | consensus-core/src/safety_rules/two_chain.rs:159-294 | with the obligations on timeouts, what honest validators know, have stored, and admit to in timeouts never falls behind their votes, restarts included |
| `Agreement.InvHolds` | consensus-core/src/safety_rules/two_chain.rs:126-294 | either way of timing out keeps the invariant that agreement rests on, after every legal run |
| `Agreement.CertificateSound` | consensus-core/src/safety_rules/two_chain.rs:126-153 | a certified block's parent is certified and the vote rule justifies its round |
| `Agreement.HonestVotesCertify` | consensus-core/src/consensus/reconfig.rs:187-191 | in every valid configuration honest votes alone certify a block |
| `Agreement.OneCertificatePerRound` | consensus-core/src/safety_rules/two_chain.rs:277-290 | at most one certified block per round |
| `Agreement.TcKnowsCertifiedParent` | consensus-core/src/safety_rules/two_chain.rs:159-181 | a genuine TC for the round of a certified block or later has `hqc_round` at least its parent's round |
| `Agreement.TcKnowsCommit` | consensus-core/src/safety_rules/two_chain.rs:159-181 | either way of timing out, a genuine TC for the round of a committing child or later has `hqc_round` at least the committed round |
| `Agreement.HonestVoteKnowsCommit` | consensus-core/src/safety_rules/two_chain.rs:133-143 | no honest vote past a commit, through either branch, carries a QC older than the committed block |
| `Agreement.LaterTcKnowsCommit` | consensus-core/src/safety_rules/two_chain.rs:165-172 | the same for every TC of any later state of the run |
| `Agreement.CertifiedExtendsCommitted` | consensus-core/src/safety_rules/two_chain.rs:258-275 | every certified block at or above a committed round extends the committed block |
| `Agreement.AgreementInWorld` | consensus-core/src/safety_rules/two_chain.rs:258-275 | any two blocks committed in one world lie on one chain |
| `Agreement.AgreementOverRuns` | consensus-core/src/safety_rules/two_chain.rs:258-275 | agreement between blocks committed at any two moments of any legal run of any driver that meets its obligations |
| `Agreement.CommitLasts` | consensus-core/src/safety_rules/two_chain.rs:259-261 | a commit is never undone later in the run |
| `DriverObligations.SafeIffAllObligationsMet` | consensus-core/src/round_manager/mod.rs:178-202 | commits agree in all runs of all configurations iff the driver meets the four obligations on votes and either times out only of the round after the QC it sends or meets the three on timeouts; or goes by its own state, recorded and saved first |
| `DriverObligations.NeedsRealQcRound` | consensus-core/src/safety_rules/two_chain.rs:192-214 | relying on the guessed QC round forks, all else done right |
| `DriverObligations.NeedsOneVotePerRound` | consensus-core/src/safety_rules/two_chain.rs:277-290 | without one vote per round one honest validator alone forks |
| `DriverObligations.NeedsNoVoteAfterTimeout` | consensus-core/src/safety_rules/two_chain.rs:292-294 | voting in a round already timed out forks, unless timeouts are only of the round after their QC |
| `DriverObligations.NeedsObservesQcFirst` | consensus-core/src/round_manager/mod.rs:178-202 | voting without observing the proposal's QC first forks, unless timeouts are only of the round after their QC |
| `DriverObligations.NeedsChecksParentQc` | consensus-core/src/round_manager/mod.rs:178-202 | voting on a parent that was never certified forks |
| `DriverObligations.NeedsChecksTc` | consensus-core/src/timeout/two_chain.rs:193-213 | trusting a TC that no quorum stands behind forks, in a run whose every TC passes `verify` |
| `DriverObligations.NeedsSavesVotesFirst` | consensus-core/src/safety_rules/recovery.rs:132-136 | sending a vote before the state is saved forks after a restart, even if the votes and timeouts themselves are remembered, unless timeouts are only of the round after their QC |
| `DriverObligations.LocalNeedsSaving` | consensus-core/src/safety_rules/recovery.rs:132-136 | with nothing but its own state to go by, a validator that does not save it votes twice in a round after a restart, and forks |
| `DriverObligations.LocalNeedsRecording` | consensus-core/src/safety_rules/two_chain.rs:292-294 | with nothing but its own state to go by, a validator that does not record the round it times out of votes in it afterwards, and forks |
| `DriverObligations.LocalChecksSuffice` | consensus-core/src/safety_rules/recovery.rs:63-136 | a round above the last voted and the highest timed out, by the validator's own recorded and saved-first state, is enough for one vote per round and no vote after a timeout in every run with restarts |
| `DriverObligations.SafeDriversCommit` | consensus-core/src/safety_rules/two_chain.rs:258-275 | every driver that meets its obligations can reach a commit |
| `DriverObligations.ShouldCommitMeetsRule` | consensus-core/src/safety_rules/two_chain.rs:258-275 | when `should_commit` answers, the commit rule holds iff the proposal is certified and its parent is in the one-chain round |
| `DriverObligations.ShouldCommitAloneForks` | consensus-core/src/safety_rules/two_chain.rs:258-275 | in a world a careful driver reaches, `should_commit` names two conflicting blocks |
| `Aggregation.NewValidatorSet` | consensus-core/src/consensus/reconfig.rs:152-160 | the stored total is the sum over the validators |
| `Aggregation.HasQuorumCountsRepeats` | consensus-core/src/consensus/reconfig.rs:193-201 | what `has_quorum` sums is at least the distinct voters' power, equal iff nobody with weight is listed twice, and then it is the real test |
| `Aggregation.HasQuorumWithoutQuorum` | consensus-core/src/consensus/reconfig.rs:193-201 | one validator of four, named three times, passes |
| `Aggregation.CheckVotingPower` | consensus-core/src/testing/mock_validator.rs:158-178 | the sum of the signers' powers against the threshold, with the error's figures |
| `Aggregation.SignatureAggregator.AddSignature` | consensus-core/src/crypto/signature_aggregator.rs:79-91 | a second signature of one author changes nothing |
| `Aggregation.SignatureAggregator.CheckQuorum` | consensus-core/src/crypto/signature_aggregator.rs:123-132 | passes exactly when the set of signers has quorum power |
| `Aggregation.SignatureAggregator.Clear` | consensus-core/src/crypto/signature_aggregator.rs:156-160 | back to empty |
| `Aggregation.CollectCountsAuthors` | consensus-core/src/votes/pending_votes.rs:152-166 | signers are the known authors, power and count are theirs taken once each, for every order of the votes |
| `Aggregation.CollectIgnoresOrder` | consensus-core/src/votes/pending_votes.rs:152-166 | two orders of the same votes agree on signers, power and count |
| `Aggregation.CollectKeepsRealSignatures` | consensus-core/src/crypto/signature_aggregator.rs:79-91 | each kept signature is one its author's vote carried |
| `Aggregation.KeptSignaturesIgnoreOrderIff` | consensus-core/src/votes/pending_votes.rs:152-166 | which signatures are kept is independent of the order iff no known author signed twice |
| `Votes.PendingVotes.ReceiveVote` | consensus-core/src/votes/pending_votes.rs:76-116 | old, duplicate, stored, quorum completed: the answer and the store in each case |
| `Votes.AnswerByAuthors` | consensus-core/src/votes/pending_votes.rs:76-116 | each answer exactly when, the quorum's in terms of the known authors so far together with the new vote's |
| `Votes.PendingVotes.CheckQuorum` | consensus-core/src/votes/pending_votes.rs:144-170 | decides, in every iteration order, whether the key's distinct known authors have quorum power |
| `Votes.PendingVotes.SetCurrentRound` | consensus-core/src/votes/pending_votes.rs:68-71 | keeps exactly the rounds from the cutoff on |
| `Votes.PendingVotes.CleanupOldVotes` | consensus-core/src/votes/pending_votes.rs:173-176 | keeps exactly the rounds from the cutoff on |
| `Votes.PendingVotes.RemoveVotesOf` | consensus-core/src/votes/pending_votes.rs:139-141 | removes exactly one round |
| `Votes.PendingVotes.GetVotes` | consensus-core/src/votes/pending_votes.rs:119-128 | the key's votes, each once |
| `Votes.Aggregate` | consensus-core/src/votes/pending_votes.rs:152-163 | an aggregator fed in any order holds the key's known authors, their power and their number |
| `Votes.StoreInvNew` | consensus-core/src/votes/pending_votes.rs:59-65 | the store invariant below holds of a new store |
| `Votes.StoreInvKept` | consensus-core/src/votes/pending_votes.rs:68-176 | adding, removing and moving on keep every vote under its own round, block and signature, no inner map empty, no key below the cutoff |
| `Votes.AddVoteCounts` | consensus-core/src/votes/pending_votes.rs:76-181 | `total_votes` rises by one exactly when the vote is stored, otherwise nothing changes |
| `Votes.RemovalCounts` | consensus-core/src/votes/pending_votes.rs:139-181 | removal and cleanup lower `total_votes` by what was stored under the dropped keys |
| `Votes.AggregatedAgainstAuthors` | consensus-core/src/votes/pending_votes.rs:194-215 | power summed over signatures is at least the authors' power, equal iff no known author with power signed twice |
| `Votes.AggregatedCountsEveryVote` | consensus-core/src/votes/pending_votes.rs:194-215 | each vote stored adds its author's power to the sum |
| `Votes.CheckImpliesCanForm` | consensus-core/src/votes/pending_votes.rs:144-242 | `check_quorum` implies `can_form_quorum`; they agree on keys where everybody signed once |
| `Votes.CanFormWithoutQuorum` | consensus-core/src/votes/pending_votes.rs:231-242 | one validator of four, signing three times, passes `can_form_quorum` alone |
| `RoundManagers.RoundManager.HandleVote` | consensus-core/src/round_manager/mod.rs:247-276 | answer, new state and certificate formed, for every vote |
| `RoundManagers.RoundManager.FormQuorumCertificate` | consensus-core/src/round_manager/mod.rs:290-339 | the certificate or the failing step; state unchanged on failure |
| `RoundManagers.RoundManager.HandleTimeout` | consensus-core/src/round_manager/mod.rs:361-387 | refused without change, or the timeout recorded and the next round entered |
| `RoundManagers.RoundManager.TryVoteForProposal` | consensus-core/src/round_manager/mod.rs:178-202 | both refusals, and the recorded vote |
| `RoundManagers.RoundManager.HandleProposal` | consensus-core/src/round_manager/mod.rs:208-234 | old, future, badly signed, accepted |
| `RoundManagers.RoundManager.BeginRound` | consensus-core/src/round_manager/mod.rs:392-402 | round and vote tracker move together |
| `RoundManagers.RoundState.SetRoundTo` | consensus-core/src/state/round_state.rs:85-89 | the proposed block is dropped |
| `RoundManagers.RoundState.AdvanceRound` | consensus-core/src/state/round_state.rs:125-128 | one round on, the proposed block dropped |
| `RoundManagerRuns.EveryQcIsSound` | consensus-core/src/round_manager/mod.rs:268-336 | in every run, each certificate formed is backed by known authors holding a quorum, each with a vote for exactly that round and block accepted earlier in the run |
| `RoundManagerRuns.AcceptedWereSubmitted` | consensus-core/src/round_manager/mod.rs:255-268 | every accepted vote was delivered in the run, authentic and of the manager's epoch |
| `RoundManagerRuns.ConflictingQcsExposeThird` | consensus-core/src/round_manager/mod.rs:247-339 | two certificates of one round expose authors of votes for both blocks holding more than a third of the power |
| `RoundManagerRuns.QuorumCompletedIsFinal` | consensus-core/src/round_manager/mod.rs:268-336 | after `QuorumCompleted` the second quorum check never fails; on success no vote of the round stays pending |
| `RoundManagerRuns.VoteAnswers` | consensus-core/src/round_manager/mod.rs:255-276 | which votes are invalid, rejected, ignored or kept |
| `RoundManagerRuns.CompletingVote` | consensus-core/src/round_manager/mod.rs:302-338 | what the completing vote is answered, by the cryptography; the certificate carries every known author, the last included |
| `RoundManagerRuns.PendingStaysBelowQuorum` | consensus-core/src/votes/pending_votes.rs:104-113 | with answering cryptography, the known authors pending under one key never hold more than two thirds, in any run |
| `RoundManagerRuns.TakenVoteWaits` | consensus-core/src/round_manager/mod.rs:247-339 | a vote once taken stays pending until its round is certified or forgotten |
| `RoundManagerRuns.DeliveredQuorumIsCertified` | consensus-core/src/round_manager/mod.rs:247-339 | once known validators holding a quorum each had a vote for one round and block taken and the round was kept, a certificate for the round has been formed |
| `RoundManagerRuns.KeptWithoutRoundStarts` | consensus-core/src/votes/pending_votes.rs:173-176 | without hand-started rounds a round the tracker still keeps was never forgotten |
| `RoundManagerHistory.ProposalAnswers` | consensus-core/src/round_manager/mod.rs:208-234 | accepted iff of the current round and well signed, older and newer told apart, no effect otherwise |
| `RoundManagerHistory.ProposedBlockHistory` | consensus-core/src/round_manager/mod.rs:208-402 | over every run the proposed block is the last well-signed proposal delivered for the round since it was entered, and is absent only if there was none |
| `RoundManagerHistory.StoredQcIsLastFormed` | consensus-core/src/round_manager/mod.rs:329-333 | the certificate on record is the last one formed |
| `RoundManagerHistory.SafetyFollowsHistory` | consensus-core/src/round_manager/mod.rs:178-387 | over every run the manager's safety state is that of the certificates formed, timeouts and votes granted, and calls made |
| `RoundManagerRuns.TimeoutNeedsQcOfThisRound` | consensus-core/src/round_manager/mod.rs:361-372 | a timeout is granted iff the manager is in the round of its best certificate |
| `RoundManagerRuns.RoundsInStep` | consensus-core/src/round_manager/mod.rs:330-387 | over every run the tracker's round equals the round, the stored certificate is no newer than the one-chain round, and without `start_round` the round is at most one past it |
| `RoundManagerRuns.TimeoutsNeedProgress` | consensus-core/src/round_manager/mod.rs:361-387 | between any two granted timeouts the one-chain round rises |
| `RoundManagerRuns.LateManagerIsStuck` | consensus-core/src/round_manager/mod.rs:361-372 | a manager behind its best certificate never times out again unless a round is started by hand |
| `RoundManagerRuns.CanTimeOutIffNotBehind` | consensus-core/src/round_manager/mod.rs:361-372 | some run without hand-started rounds leads to a granted timeout iff the manager is not behind its best certificate |
| `EndToEnd.FormedQcNamesBlock` | consensus-core/src/round_manager/mod.rs:290-339 | a certificate formed by a manager names a block of its round for which all its honest signers voted, given collision-free hashes and unforged honest votes, whatever else is delivered |
| `EndToEnd.FormedQcCertifies` | consensus-core/src/round_manager/mod.rs:290-339 | it certifies that block in the run, or in the run continued by Byzantine votes alone |
| `EndToEnd.ManagersAgree` | consensus-core/src/round_manager/mod.rs:290-339 | certificates formed by any two managers, each for a child in the next round, commit parents on one chain |
| `EndToEnd.TriedVoteIsStep` | consensus-core/src/round_manager/mod.rs:178-202 | `try_vote_for_proposal` passes exactly the votes the agreement model lets the code cast, with the same safety state after |
| `EndToEnd.GrantedTimeoutIsStep` | consensus-core/src/round_manager/mod.rs:361-387 | a timeout `process_timeout` grants is of the round after its QC, an enabled step of the driver that needs no obligations on timeouts, with the same safety state after |
| `Proposers.NewWeightedProposer` | consensus-core/src/liveness/proposer.rs:129-137 | the total is the sum of the weights |
| `Proposers.SelectWeightedProposer` | consensus-core/src/liveness/proposer.rs:143-161 | the scan finds the owner of ticket round mod total; the fallback is never reached |
| `Proposers.GetWeightedProposer` | consensus-core/src/liveness/proposer.rs:171-177 | nobody before the initial round, the scan's choice after |
| `Proposers.ElectionIsProportional` | consensus-core/src/liveness/proposer.rs:143-177 | in every window of total-power many rounds each validator is elected exactly as often as it has weight |
| `Proposers.TicketsOwned` | consensus-core/src/liveness/proposer.rs:152-157 | of the tickets below the total each validator owns exactly its weight |
| `Proposers.ElectedHasStake` | consensus-core/src/liveness/proposer.rs:143-177 | nobody without weight is ever elected |
| `Proposers.OwnerOfStretch` | consensus-core/src/liveness/proposer.rs:152-157 | each validator owns the tickets from where the weights listed before it end |
| `Proposers.ElectedFromInitialRoundOn` | consensus-core/src/liveness/proposer.rs:171-177 | somebody is elected iff anybody is listed and the initial round has come |
| `Proposers.NobodyBeforeInitialRound` | consensus-core/src/liveness/proposer.rs:171-177 | windows before the initial round count for nobody |
| `Proposers.RoundRobinIsFair` | consensus-core/src/liveness/proposer.rs:84-97 | in every window as long as the list each validator leads once per entry |
| `Proposers.RoundRobinInOrder` | consensus-core/src/liveness/proposer.rs:84-97 | leaders come in list order from the initial round on, over and over; none before |
| `StateSyncs.StateSync.BeginSync` | consensus-core/src/consensus/state_sync.rs:293-323 | refused, already caught up, or the first batch on request |
| `StateSyncs.StateSync.VerifySequential` | consensus-core/src/consensus/state_sync.rs:197-211 | true exactly for consecutive rounds |
| `StateSyncs.StateSync.HighestReceived` | consensus-core/src/consensus/state_sync.rs:362 | the largest buffered round, if any |
| `StateSyncs.StateSync.AddSyncResponse` | consensus-core/src/consensus/state_sync.rs:337-392 | buffer, status and next request after a response; both errors without change |
| `StateSyncs.ResponseAnswers` | consensus-core/src/consensus/state_sync.rs:337-358 | taken iff a sync is in progress and the rounds are consecutive from the first on; nothing changes otherwise |
| `StateSyncs.ResponseEpochIgnored` | consensus-core/src/consensus/state_sync.rs:344-352 | responses that differ only in epoch get the same answer and leave the same status and buffer |
| `StateSyncs.StateSync.TakeNextRequest` | consensus-core/src/consensus/state_sync.rs:400-402 | the newest request, removed |
| `StateSyncs.StateSync.ReadyBlocks` | consensus-core/src/consensus/state_sync.rs:407-418 | exactly the gapless rounds after the current one are handed out and removed, and the loop terminates by the size of the buffer |
| `StateSyncs.StateSync.CancelSync` | consensus-core/src/consensus/state_sync.rs:439-443 | idle, nothing pending or buffered |
| `StateSyncs.StateSync.ResetSync` | consensus-core/src/consensus/state_sync.rs:446-451 | the same, and the highest known round forgotten |
| `StateSyncs.ReadyRoundsBuffered` | consensus-core/src/consensus/state_sync.rs:411-415 | every round counted as ready is in the buffer |
| `StateSyncs.NextRoundMissing` | consensus-core/src/consensus/state_sync.rs:411-415 | the round after the ready ones is missing |
| `StateSyncs.BeyondContents` | consensus-core/src/consensus/state_sync.rs:411-415 | what stays in the buffer after delivery |
| `StateSyncRuns.DeliveredInOrder` | consensus-core/src/consensus/state_sync.rs:337-451 | over any interleaving of all operations the concatenated deliveries carry rounds initial+1, initial+2, ... up to the current one; each block came in a response of consecutive rounds during a sync, each buffered one since the last cancel or reset |
| `StateSyncRuns.ReachesTargetIffNoGap` | consensus-core/src/consensus/state_sync.rs:364-369 | buffered rounds reach the target iff no round up to it is missing |
| `StateSyncRuns.CompletedReachesTargetIff` | consensus-core/src/consensus/state_sync.rs:337-418 | a response completes the sync iff some round at or past the target has arrived; delivery then reaches the target iff every missing round has |
| `StateSyncRuns.CompletedWithGap` | consensus-core/src/consensus/state_sync.rs:364-369 | a sync reported as completed that delivers nothing |
| `StateSyncRuns.RequestsTile` | consensus-core/src/consensus/state_sync.rs:304-320 | after k full answers everything up to k batches on is buffered and exactly the next batch is on request |
| `StateSyncRuns.ExchangeAdvances` | consensus-core/src/consensus/state_sync.rs:377-387 | one full answer moves on by one batch, or finishes |
| `StateSyncRuns.SyncCompletes` | consensus-core/src/consensus/state_sync.rs:293-418 | a fully answered sync goes through iff it is one batch or the end of its last batch fits 64 bits; it completes after exactly ceil(missing / batch size) responses and then delivers precisely the missing rounds |
| `StateSyncHistory.StartAnswers` | consensus-core/src/consensus/state_sync.rs:293-323 | after any run: refused iff a sync is in progress; a target already delivered completes at once with nothing asked; else the batch after the delivered rounds is on request |
| `StateSyncHistory.AsksForMoreIff` | consensus-core/src/consensus/state_sync.rs:360-389 | the status after a response, and the next batch asked for iff it was final and the highest round buffered is short of the target |
| `StateSyncHistory.SyncKeepsTarget` | consensus-core/src/consensus/state_sync.rs:293-451 | over every run a sync keeps its target until a response completes it, or a cancel or reset |
| `StateSyncHistory.ForgettingForgets` | consensus-core/src/consensus/state_sync.rs:439-451 | after a cancel or reset nothing is under way, on request or buffered; deliveries stand |
| `StateSyncHistory.HighestKnownIsLargestHeard` | consensus-core/src/consensus/state_sync.rs:421-427 | without a reset, the largest round heard of, if any |
| `DagStore.IndexIsLastPosition` | consensus-core/src/dag/store.rs:133-137 | the index knows exactly the listed authors, each at its last position |
| `DagStore.NewRowsFitIffNoDuplicates` | consensus-core/src/dag/store.rs:207-214 | new rows have room for every author iff none is listed twice |
| `DagStore.InMemDag.constructor` | consensus-core/src/dag/store.rs:132-146 | an empty store over the authors' index |
| `DagStore.InMemDag.AddNode` | consensus-core/src/dag/store.rs:190-232 | refines insertion into a plain map; a failed add changes nothing at all |
| `DagStore.InMemDag.GetNodeStatus` | consensus-core/src/dag/store.rs:248-254 | look-up in the plain map |
| `DagStore.InMemDag.GetNode` | consensus-core/src/dag/store.rs:237-243 | look-up in the plain map |
| `DagStore.InMemDag.MarkOrdered` | consensus-core/src/dag/store.rs:262-278 | succeeds exactly on a stored, unordered node; each error exactly when; no change on failure; never out of bounds without repeated authors |
| `DagStore.InMemDag.GetRound` | consensus-core/src/dag/store.rs:281-290 | exactly the round's nodes, each once, by author position |
| `DagStore.InMemDag.Len` | consensus-core/src/dag/store.rs:304-309 | the size of the plain map |
| `DagStore.InMemDag.PruneBelow` | consensus-core/src/dag/store.rs:317-320 | restriction of the plain map to rounds from the minimum on |
| `DagStore.InMemDag.Clear` | consensus-core/src/dag/store.rs:323-325 | the empty map |
| `DagStore.StoredRounds` | consensus-core/src/dag/store.rs:205-214 | a round is stored iff some node of it is: no stored round is empty |
| `DagStore.StoredNodeIsFirstSubmitted` | consensus-core/src/dag/store.rs:190-325 | over every run the node under a key is the first submitted since the round was last removed, ordered iff marked since; an absent key was never submitted or has been removed since |
| `DagStore.AddSucceedsIff` | consensus-core/src/dag/store.rs:190-232 | over every run, adding passes iff the author is known and no submission under the key stands since the round was last removed; both errors exactly |
| `DagStore.OrderedOnce` | consensus-core/src/dag/store.rs:66-73 | a key is marked twice only if its round was pruned or cleared in between |
| `DagStore.MarkSucceedsIff` | consensus-core/src/dag/store.rs:262-278 | over every run, marking succeeds iff the key was submitted since its round was last removed and not marked since the first such submission |
| `DagStore.SecondOrderingIff` | consensus-core/src/dag/store.rs:66-73 | a second marking succeeds iff the round was removed in between, the key submitted after the last removal, and not marked since |
| `DagStore.OrderedAgainAfterPruning` | consensus-core/src/dag/store.rs:182-200 | and then it can be: pruned rounds can be filled again |
| `Reconfigs.EpochManager.StartNewEpoch` | consensus-core/src/epoch_manager/mod.rs:92-116 | accepts the next epoch only, with the error for each other |
| `Reconfigs.EpochManager.ForceNextEpoch` | consensus-core/src/epoch_manager/mod.rs:139-142 | never refused |
| `Reconfigs.ReconfigHandler.PrepareReconfig` | consensus-core/src/consensus/reconfig.rs:320-338 | refused while one is under way or for another epoch than the next |
| `Reconfigs.ReconfigHandler.BeginReconfig` | consensus-core/src/consensus/reconfig.rs:361-381 | refused unless preparing and non-empty; stores the set under the next epoch |
| `Reconfigs.ReconfigHandler.CompleteReconfig` | consensus-core/src/consensus/reconfig.rs:390-420 | advances the epoch or says why not, changing nothing then |
| `Reconfigs.ReconfigHandler.UpdateReconfigProgress` | consensus-core/src/consensus/reconfig.rs:499-512 | changes the count of a change under way and nothing else |
| `Reconfigs.ReconfigHandler.SetValidatorSet` | consensus-core/src/consensus/reconfig.rs:346-348 | replaces the set of any epoch |
| `Reconfigs.ReconfigHandler.CancelCurrent` | consensus-core/src/consensus/reconfig.rs:438-441 | idle, pending events dropped, sets and epoch kept |
| `Reconfigs.EpochCountsCompletions` | consensus-core/src/consensus/reconfig.rs:320-441 | over every run: a change under way is to the next epoch and its set is stored, the epoch is the initial one plus the completions, and every epoch since has a validator set |
| `Reconfigs.CompletionRefusedOnlyIfUnfinished` | consensus-core/src/consensus/reconfig.rs:390-420 | in every reachable state completion passes iff all validators are processed: the epoch manager never refuses |
| `Reconfigs.NextEpochAlwaysReachable` | consensus-core/src/consensus/reconfig.rs:320-441 | from every reachable state five calls lead to the next epoch under any given non-empty set |
| `Reconfigs.SetIsLastWritten` | consensus-core/src/consensus/reconfig.rs:346-380 | the set of an epoch is the one written last, by an accepted begin or by `set_validator_set` |
| `Reconfigs.ChangeWasBegun` | consensus-core/src/consensus/reconfig.rs:361-420 | a change under way was begun for the next epoch, counts that call's validators, and was neither cancelled nor completed since |
| `Reconfigs.ChangeUnderWay` | consensus-core/src/consensus/reconfig.rs:320-441 | a change is under way, and to which epoch, iff one was prepared with no other under way and not cancelled or completed since |
| `Reconfigs.PrepareSucceedsIff` | consensus-core/src/consensus/reconfig.rs:320-338 | after any run, preparing is granted exactly for the next epoch with no change under way; both refusals exactly |
| `Reconfigs.ProcessedIsLastReported` | consensus-core/src/consensus/reconfig.rs:499-512 | the count of a change under way is what was last reported since it was begun, zero before |
| `Reconfigs.PendingEventsHistory` | consensus-core/src/consensus/reconfig.rs:423-441 | the pending events are those added since last taken or cancelled, in order |
| `Reconfigs.SetIsEmptyIff` | consensus-core/src/consensus/reconfig.rs:346-380 | an epoch's set is empty iff its last write was `set_validator_set` with an empty set |
| `Reconfigs.EpochWithoutValidators` | consensus-core/src/consensus/reconfig.rs:346-348 | a run that ends in an epoch with no validators |
| `Pacemakers.DurationMonotone` | consensus-core/src/liveness/pacemaker.rs:162-167 | more rounds without progress never shorten the timeout, below 2^32 |
| `Pacemakers.DurationBounded` | consensus-core/src/liveness/pacemaker.rs:162-167 | every timeout lies between the base and the longest one |
| `Pacemakers.NeverShrinksIff` | consensus-core/src/liveness/pacemaker.rs:137-167 | for every strategy the constructor admits, the exact condition on base, factor and cap under which timeouts never fall up to an index |
| `Pacemakers.NegativeFactorAlternates` | consensus-core/src/liveness/pacemaker.rs:162-167 | a negative factor gives the opposite factor's duration for even exponents and zero for odd ones |
| `Pacemakers.DurationShrinks` | consensus-core/src/liveness/pacemaker.rs:162-167 | with a factor from zero to one timeouts never rise and stay between the last one and the base, below 2^32 |
| `Pacemakers.NeverShrinksIffIndexFits` | consensus-core/src/liveness/pacemaker.rs:162-167 | with any backoff at all, timeouts never fall up to index n iff n < 2^32 |
| `Pacemakers.Pacemaker.EnterNewRound` | consensus-core/src/liveness/pacemaker.rs:239-262 | refused without change, or the round entered with its reason and the timeout that `current_round_timeout` then gives |
| `Pacemakers.Pacemaker.RecordOrderedRound` | consensus-core/src/liveness/pacemaker.rs:268-279 | raises the highest ordered round or refuses |
| `Pacemakers.Pacemaker.CurrentRoundTimeout` | consensus-core/src/liveness/pacemaker.rs:282-289 | the timeout of the current round |
| `Pacemakers.Pacemaker.ResetTo` | consensus-core/src/liveness/pacemaker.rs:304-307 | as if started at the round |
| `Pacemakers.BacksOffBetweenOrderedRounds` | consensus-core/src/liveness/pacemaker.rs:239-279 | over every run, between ordered rounds and resets the entered rounds strictly increase; their timeouts stay in bounds and never fall; with a factor from zero to one they never rise; with a negative one they alternate with zero |
| `Pacemakers.ProgressRestoresBase` | consensus-core/src/liveness/pacemaker.rs:249-258 | a round no further than one past the ordered one is entered as certified and with the base timeout |
| `Pacemakers.BaseHistory` | consensus-core/src/liveness/pacemaker.rs:203-307 | over every run the round counted from is the one last ordered, or the one before the last reset or the start |
| `Pacemakers.TimeoutOfRound` | consensus-core/src/liveness/pacemaker.rs:162-262 | over every run, a round k past the one after the base is entered with base * factor^min(k, max) rounded up, and with that k as its reason |
| `Pacemakers.PowAdds` | consensus-core/src/liveness/pacemaker.rs:164 | exponents add up: each further round multiplies by the factor |
| `Pacemakers.OrderSucceedsIff` | consensus-core/src/liveness/pacemaker.rs:268-279 | after any run, a round is recorded as ordered iff it is above the base |
| `Pacemakers.CanEnterIff` | consensus-core/src/liveness/pacemaker.rs:227-246 | without resets, a round can be entered iff it is above the initial one and every one asked for |
| `Pacemakers.EnteringTakesEffect` | consensus-core/src/liveness/pacemaker.rs:239-262 | and is then the current one |

## Left out

- Cryptography: signatures, hashes and aggregation are abstract; whether they check out is an input.
- Serialisation, async storage and logging: persistence is one stored optional safety state.
- `new_epoch` and `can_vote_in_round` of the safety state, and `set_epoch` of the round state: one-line helpers no
  modelled operation calls.
- Aggregation of timeouts into a timeout certificate: the code has none; the agreement model takes a certificate to
  be a quorum of timeouts whose `hqc_round` is the largest of theirs.
- `TwoChainTimeout::verify` and `TwoChainTimeoutCertificate::verify`: none of the safety rules calls them, and they do
  not make up for a missing quorum.
- The `Consensus` orchestrator, the DAG driver and ordering, pipeline, network and runtime: placeholders or counters.
- The reputation tracker and rounding in `f64`: the backoff is exact arithmetic over reals, so a duration one
  floating-point error away from a whole millisecond may differ by one.
- The `Failed` status of state sync: nothing ever assigns it.
- The aggregated voting power stored with a DAG node: always zero.
- The epoch of a DAG node's id, of a sync response and of a validator set handed to `begin_reconfig` are kept but, as
  in the code, compared with nothing.
- Wall-clock time: the start time of an epoch is not modelled.
- The policy, proposer-election strategy and preparation window of the reconfiguration handler: configuration only.
- Widths of `usize` and `u128`: counts and sums of power are unbounded here.
- Mocks, builders, defaults, `Display` and `Debug`.
- RoundManagerRuns.EveryQcIsSound: the validator set is fixed for a run, as it is for one epoch.
- Pacemakers.BacksOffBetweenOrderedRounds: assumes gaps below 2^32, which `Pacemakers.NeverShrinksIffIndexFits` shows
  to be needed.
- EndToEnd.ManagersAgree: assumes collision-free hashes and that no honest validator's signature is forged.

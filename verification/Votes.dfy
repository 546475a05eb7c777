/** Pending votes: the nested map of votes, its cleanup, and the two quorum tests over it. */
module Votes {
  import opened Types
  import opened VotingPower
  import opened Aggregation

  type VoteKey = (Round, BlockId)
  /** The votes for one key, by signature. */
  type VoteMap = map<Signature, Vote>

  datatype VoteReceptionResult = Accepted | Rejected | QuorumCompleted | OldRound

  datatype PendingState = PendingState(votes: map<VoteKey, VoteMap>, currentRound: Round, maxRounds: u64)

  function KeyOf(v: Vote): VoteKey {
    (v.round, v.blockId)
  }

  function VotesFor(p: PendingState, key: VoteKey): VoteMap {
    if key in p.votes then p.votes[key] else map[]
  }

  /** The known authors among some votes: whoever an aggregator ends up with. */
  function Signers(validators: map<NodeId, u64>, m: VoteMap): set<NodeId> {
    set s | s in m && m[s].author in validators :: m[s].author
  }

  ghost predicate QuorumAt(validators: map<NodeId, u64>, p: PendingState, key: VoteKey) {
    key in p.votes && HasQuorumPower(validators, Signers(validators, p.votes[key]))
  }

  // ---------------------------------------------------------------- the operations, as functions

  function Store(p: PendingState, v: Vote): PendingState {
    p.(votes := p.votes[KeyOf(v) := VotesFor(p, KeyOf(v))[v.signature := v]])
  }

  ghost function AddVote(p: PendingState, v: Vote, validators: map<NodeId, u64>): (PendingState, VoteReceptionResult) {
    if v.round < p.currentRound then (p, OldRound)
    else if v.signature in VotesFor(p, KeyOf(v)) then (p, Rejected)
    else if QuorumAt(validators, Store(p, v), KeyOf(v)) then (Store(p, v), QuorumCompleted)
    else (Store(p, v), Accepted)
  }

  function RemoveRound(p: PendingState, round: Round): PendingState {
    p.(votes := map k | k in p.votes && k.0 != round :: p.votes[k])
  }

  function SetRound(p: PendingState, round: Round): PendingState {
    p.(currentRound := round,
       votes := map k | k in p.votes && k.0 >= SaturatingSub(round, p.maxRounds) :: p.votes[k])
  }

  // ---------------------------------------------------------------- the store invariant

  ghost predicate StoreInv(p: PendingState) {
    && (forall k, s | k in p.votes && s in p.votes[k] :: KeyOf(p.votes[k][s]) == k && p.votes[k][s].signature == s)
    && (forall k | k in p.votes :: p.votes[k] != map[])
    && (forall k | k in p.votes :: k.0 >= SaturatingSub(p.currentRound, p.maxRounds))
  }

  lemma StoreInvNew(maxRounds: u64)
    ensures StoreInv(PendingState(map[], 0, maxRounds))
  {
  }

  lemma {:induction false} StoreInvKept(p: PendingState, v: Vote, validators: map<NodeId, u64>, round: Round)
    requires StoreInv(p)
    ensures StoreInv(AddVote(p, v, validators).0)
    ensures StoreInv(RemoveRound(p, round))
    ensures StoreInv(SetRound(p, round))
  {
    var q := Store(p, v);
    if v.round >= p.currentRound {
      forall k, s | k in q.votes && s in q.votes[k]
        ensures KeyOf(q.votes[k][s]) == k && q.votes[k][s].signature == s
      {
        if k == KeyOf(v) && s != v.signature {
          assert s in p.votes[k];
        }
      }
      forall k | k in q.votes ensures q.votes[k] != map[] {
        if k == KeyOf(v) {
          assert v.signature in q.votes[k];
        }
      }
    }
  }

  // ---------------------------------------------------------------- counting the stored votes

  function SizeIn(votes: map<VoteKey, VoteMap>): VoteKey -> nat {
    k => if k in votes then |votes[k]| else 0
  }

  ghost function TotalVotes(p: PendingState): nat {
    SumOver(p.votes.Keys, SizeIn(p.votes))
  }

  lemma {:induction false} SizeWithout(votes: map<VoteKey, VoteMap>, key: VoteKey)
    ensures SumOver(votes.Keys, SizeIn(votes)) == SumOver(votes.Keys - {key}, SizeIn(votes)) + SizeIn(votes)(key)
  {
    if key in votes {
      SumRemove(votes.Keys, SizeIn(votes), key);
    } else {
      assert votes.Keys - {key} == votes.Keys;
    }
  }

  lemma {:induction false} SizeAfterUpdate(votes: map<VoteKey, VoteMap>, key: VoteKey, m: VoteMap)
    ensures SumOver(votes[key := m].Keys, SizeIn(votes[key := m])) == SumOver(votes.Keys - {key}, SizeIn(votes)) + |m|
  {
    SizeWithout(votes[key := m], key);
    assert votes[key := m].Keys - {key} == votes.Keys - {key};
    SumCongruence(votes.Keys - {key}, SizeIn(votes), SizeIn(votes[key := m]));
  }

  lemma {:induction false} StoreCounts(p: PendingState, v: Vote)
    requires v.signature !in VotesFor(p, KeyOf(v))
    ensures TotalVotes(Store(p, v)) == TotalVotes(p) + 1
  {
    var m := VotesFor(p, KeyOf(v));
    SizeWithout(p.votes, KeyOf(v));
    SizeAfterUpdate(p.votes, KeyOf(v), m[v.signature := v]);
    MapGrows(m, v.signature, v);
  }

  /** A stored vote adds exactly one to the total; any other outcome changes nothing at all. */
  lemma {:induction false} AddVoteCounts(p: PendingState, v: Vote, validators: map<NodeId, u64>)
    ensures var (q, r) := AddVote(p, v, validators);
      if r == Accepted || r == QuorumCompleted then TotalVotes(q) == TotalVotes(p) + 1 else q == p
  {
    if v.signature !in VotesFor(p, KeyOf(v)) {
      StoreCounts(p, v);
    }
  }

  /** Removing keys takes away exactly the votes stored under them. */
  lemma {:induction false} DroppingKeysCounts(p: PendingState, q: PendingState)
    requires q.votes.Keys <= p.votes.Keys && forall k | k in q.votes :: q.votes[k] == p.votes[k]
    ensures TotalVotes(p) == TotalVotes(q) + SumOver(p.votes.Keys - q.votes.Keys, SizeIn(p.votes))
  {
    var kept, dropped := q.votes.Keys, p.votes.Keys - q.votes.Keys;
    SumUnion(kept, dropped, SizeIn(p.votes));
    assert kept + dropped == p.votes.Keys && kept * dropped == {};
    SumCongruence(kept, SizeIn(p.votes), SizeIn(q.votes));
  }

  lemma {:induction false} RemovalCounts(p: PendingState, round: Round)
    ensures TotalVotes(RemoveRound(p, round)) ==
      TotalVotes(p) - SumOver((set k | k in p.votes && k.0 == round), SizeIn(p.votes))
    ensures TotalVotes(SetRound(p, round)) ==
      TotalVotes(p) - SumOver((set k | k in p.votes && k.0 < SaturatingSub(round, p.maxRounds)), SizeIn(p.votes))
  {
    DroppingKeysCounts(p, RemoveRound(p, round));
    DroppingKeysCounts(p, SetRound(p, round));
    assert p.votes.Keys - RemoveRound(p, round).votes.Keys == (set k | k in p.votes && k.0 == round);
    assert p.votes.Keys - SetRound(p, round).votes.Keys ==
      (set k | k in p.votes && k.0 < SaturatingSub(round, p.maxRounds));
  }

  // ---------------------------------------------------------------- the two quorum tests

  function AuthorIn(m: VoteMap): Signature -> NodeId {
    s => if s in m then m[s].author else 0
  }

  function PowerIn(validators: map<NodeId, u64>, m: VoteMap): Signature -> nat {
    s => if s in m then Weight(validators, m[s].author) else 0
  }

  /** Sums over signatures: an author who signed twice is counted twice. */
  ghost function AggregatedVotingPower(validators: map<NodeId, u64>, p: PendingState, key: VoteKey): nat {
    SumOver(VotesFor(p, key).Keys, PowerIn(validators, VotesFor(p, key)))
  }

  ghost predicate CanFormQuorum(validators: map<NodeId, u64>, p: PendingState, key: VoteKey) {
    AggregatedVotingPower(validators, p, key) >= QuorumThreshold(TotalPower(validators))
  }

  /** No known author with positive power has two signatures in `m`. */
  ghost predicate SignedOnce(validators: map<NodeId, u64>, m: VoteMap) {
    forall s, t | s in m && t in m && s != t && m[s].author == m[t].author :: Weight(validators, m[s].author) == 0
  }

  lemma {:induction false} SignersPower(validators: map<NodeId, u64>, m: VoteMap)
    ensures PowerOf(validators, Signers(validators, m)) == PowerOf(validators, Image(m.Keys, AuthorIn(m)))
  {
    var f := WeightIn(validators);
    var known, all := Signers(validators, m), Image(m.Keys, AuthorIn(m));
    forall a | a in known ensures a in all {
      var s :| s in m && m[s].author in validators && m[s].author == a;
      assert AuthorIn(m)(s) == a;
    }
    forall a | a in all - known ensures f(a) == 0 {
      var s :| s in m.Keys && AuthorIn(m)(s) == a;
    }
    SumUnion(known, all - known, f);
    SumZero(all - known, f);
    assert known + (all - known) == all && known * (all - known) == {};
  }

  /** The summed power never falls short of the authors' power, and exceeds it exactly when somebody signed twice. */
  lemma {:induction false} AggregatedAgainstAuthors(validators: map<NodeId, u64>, p: PendingState, key: VoteKey)
    ensures var m := VotesFor(p, key);
      var once := PowerOf(validators, Signers(validators, m));
      && AggregatedVotingPower(validators, p, key) >= once
      && (AggregatedVotingPower(validators, p, key) == once <==> SignedOnce(validators, m))
  {
    var m := VotesFor(p, key);
    SignersPower(validators, m);
    RepeatsOnlyAdd(validators, m.Keys, AuthorIn(m), PowerIn(validators, m));
    assert NoPaidRepeat(m.Keys, AuthorIn(m), PowerIn(validators, m)) <==> SignedOnce(validators, m) by {
      if NoPaidRepeat(m.Keys, AuthorIn(m), PowerIn(validators, m)) {
        forall s, t | s in m && t in m && s != t && m[s].author == m[t].author
          ensures Weight(validators, m[s].author) == 0
        {
          assert AuthorIn(m)(s) == AuthorIn(m)(t) && PowerIn(validators, m)(s) == 0;
        }
      }
      if SignedOnce(validators, m) {
        forall s, t | s in m.Keys && t in m.Keys && s != t && AuthorIn(m)(s) == AuthorIn(m)(t)
          ensures PowerIn(validators, m)(s) == 0 {}
      }
    }
  }

  /** The strict test implies the convenient one; the converse holds for keys where everybody signed once. */
  lemma {:induction false} CheckImpliesCanForm(validators: map<NodeId, u64>, p: PendingState, key: VoteKey)
    ensures QuorumAt(validators, p, key) ==> CanFormQuorum(validators, p, key)
    ensures SignedOnce(validators, VotesFor(p, key)) ==>
      (QuorumAt(validators, p, key) <==> CanFormQuorum(validators, p, key))
  {
    AggregatedAgainstAuthors(validators, p, key);
    if key !in p.votes {
      assert Signers(validators, map[]) == {};
    }
  }

  function SignedBy0(s: Signature): Vote {
    Vote(0, 7, 1, 0, s, true)
  }

  const ThreeSignatures: VoteMap := map[10 := SignedBy0(10), 11 := SignedBy0(11), 12 := SignedBy0(12)]

  lemma ThreeSignaturesKeys(sigs: set<Signature>)
    requires sigs == {10, 11, 12}
    ensures ThreeSignatures.Keys == sigs && |sigs| == 3
  {
  }

  lemma ThreeSignaturesWeigh(s: Signature)
    requires s in ThreeSignatures
    ensures PowerIn(FourEqual, ThreeSignatures)(s) == 1
  {
    assert ThreeSignatures[s].author == 0;
  }

  lemma {:induction false} ThreeSignaturesAggregate()
    ensures SumOver(ThreeSignatures.Keys, PowerIn(FourEqual, ThreeSignatures)) == 3
  {
    var f := PowerIn(FourEqual, ThreeSignatures);
    ThreeSignaturesKeys({10, 11, 12});
    forall s | s in ThreeSignatures.Keys ensures f(s) == 1 {
      ThreeSignaturesWeigh(s);
    }
    SumCount(ThreeSignatures.Keys, f);
  }

  lemma {:induction false} ThreeSignaturesOneAuthor()
    ensures PowerOf(FourEqual, Signers(FourEqual, ThreeSignatures)) == 1
  {
    var one: set<NodeId> := {0};
    assert Signers(FourEqual, ThreeSignatures) == one by {
      assert 10 in ThreeSignatures;
    }
    SumCount(one, WeightIn(FourEqual));
  }

  /** One validator of four, signing three times, passes the convenient test and not the strict one. */
  lemma {:induction false} CanFormWithoutQuorum()
    ensures var p := PendingState(map[(1, 7) := ThreeSignatures], 1, 10);
      CanFormQuorum(FourEqual, p, (1, 7)) && !QuorumAt(FourEqual, p, (1, 7))
  {
    FourEqualTotal();
    ThreeSignaturesAggregate();
    ThreeSignaturesOneAuthor();
  }

  // ---------------------------------------------------------------- what a vote is answered

  lemma SignersAfterStore(validators: map<NodeId, u64>, p: PendingState, v: Vote)
    requires v.signature !in VotesFor(p, KeyOf(v))
    ensures Signers(validators, VotesFor(Store(p, v), KeyOf(v))) ==
      Signers(validators, VotesFor(p, KeyOf(v))) + if v.author in validators then {v.author} else {}
  {
    var before, after := VotesFor(p, KeyOf(v)), VotesFor(Store(p, v), KeyOf(v));
    assert after == before[v.signature := v];
    forall a | a in Signers(validators, before) ensures a in Signers(validators, after) {
      var s :| s in before && before[s].author in validators && before[s].author == a;
      assert after[s] == before[s];
    }
    assert v.signature in after;
  }

  /** The answer in terms of who has signed: a vote completes the quorum exactly if its round is still accepted, its
      signature is new, and the known authors so far together with its own hold more than two thirds. */
  lemma {:induction false} AnswerByAuthors(p: PendingState, v: Vote, validators: map<NodeId, u64>)
    ensures var (q, r) := AddVote(p, v, validators);
      var taken := v.round >= p.currentRound && v.signature !in VotesFor(p, KeyOf(v));
      var authors :=
        Signers(validators, VotesFor(p, KeyOf(v))) + if v.author in validators then {v.author} else {};
      && (r == OldRound <==> v.round < p.currentRound)
      && (r == Rejected <==> v.round >= p.currentRound && v.signature in VotesFor(p, KeyOf(v)))
      && (r == QuorumCompleted <==> taken && 3 * PowerOf(validators, authors) > 2 * TotalPower(validators))
      && (q != p <==> taken)
  {
    if v.round >= p.currentRound && v.signature !in VotesFor(p, KeyOf(v)) {
      SignersAfterStore(validators, p, v);
      QuorumIffTwoThirds(validators, Signers(validators, VotesFor(Store(p, v), KeyOf(v))));
      assert v.signature in VotesFor(Store(p, v), KeyOf(v));
    }
  }

  /** Each vote stored adds its author's power once more to what `aggregated_voting_power` sums. */
  lemma {:induction false} AggregatedCountsEveryVote(validators: map<NodeId, u64>, p: PendingState, v: Vote)
    requires v.signature !in VotesFor(p, KeyOf(v))
    ensures AggregatedVotingPower(validators, Store(p, v), KeyOf(v)) ==
      AggregatedVotingPower(validators, p, KeyOf(v)) + Weight(validators, v.author)
  {
    var before, after := VotesFor(p, KeyOf(v)), VotesFor(Store(p, v), KeyOf(v));
    assert after == before[v.signature := v] && after.Keys == before.Keys + {v.signature};
    SumAdd(before.Keys, PowerIn(validators, after), v.signature);
    SumCongruence(before.Keys, PowerIn(validators, before), PowerIn(validators, after));
  }

  // ---------------------------------------------------------------- the object

  function InOrder(m: VoteMap, order: seq<Signature>): seq<Vote>
    requires forall s | s in order :: s in m
  {
    seq(|order|, i requires 0 <= i < |order| => m[order[i]])
  }

  /** Every vote of the map once, in some order. */
  ghost predicate Lists(list: seq<Vote>, m: VoteMap) {
    exists order :: IsEnumeration(order, m.Keys) && list == InOrder(m, order)
  }

  lemma {:induction false} SignersFromOrder(validators: map<NodeId, u64>, m: VoteMap, order: seq<Signature>)
    requires IsEnumeration(order, m.Keys)
    ensures KnownAuthors(validators, InOrder(m, order)) == Signers(validators, m)
  {
    forall a | a in Signers(validators, m) ensures a in KnownAuthors(validators, InOrder(m, order)) {
      var s :| s in m && m[s].author in validators && m[s].author == a;
      var i :| 0 <= i < |order| && order[i] == s;
      assert InOrder(m, order)[i] == m[s];
    }
    forall a | a in KnownAuthors(validators, InOrder(m, order)) ensures a in Signers(validators, m) {
      var v :| v in InOrder(m, order) && v.author in validators && v.author == a;
      var i :| 0 <= i < |order| && InOrder(m, order)[i] == v;
      assert order[i] in m;
    }
  }

  /** Feeds the votes to a new aggregator in whatever order the map yields them. */
  method Aggregate(m: VoteMap, verifier: ValidatorSet) returns (aggregator: SignatureAggregator)
    ensures fresh(aggregator)
    ensures aggregator.signatures.Keys == Signers(verifier.validators, m)
    ensures aggregator.votingPower == PowerOf(verifier.validators, Signers(verifier.validators, m))
    ensures aggregator.signerCount == |aggregator.signatures|
  {
    var order := Enumerate(m.Keys);
    ghost var votes := InOrder(m, order);
    aggregator := new SignatureAggregator();
    for i := 0 to |order|
      invariant fresh(aggregator)
      invariant aggregator.Contents() == Collect(verifier.validators, votes[..i])
    {
      var vote := m[order[i]];
      assert votes[..i + 1][..i] == votes[..i];
      if vote.author in verifier.validators {
        aggregator.AddSignature(vote.author, vote.signature, verifier.validators[vote.author]);
      }
    }
    assert votes[..|order|] == votes;
    CollectCountsAuthors(verifier.validators, votes);
    SignersFromOrder(verifier.validators, m, order);
  }

  class PendingVotes {
    var votes: map<VoteKey, VoteMap>
    var currentRound: Round
    const maxRounds: u64

    constructor (maxRounds: u64)
      ensures State() == PendingState(map[], 0, maxRounds) && StoreInv(State())
    {
      votes, currentRound := map[], 0;
      this.maxRounds := maxRounds;
      new;
      StoreInvNew(maxRounds);
    }

    function State(): PendingState
      reads this
    {
      PendingState(votes, currentRound, maxRounds)
    }

    method SetCurrentRound(round: Round)
      modifies this
      ensures State() == SetRound(old(State()), round)
    {
      currentRound := round;
      CleanupOldVotes();
    }

    method CleanupOldVotes()
      modifies this`votes
      ensures State() == SetRound(old(State()), currentRound)
    {
      var cutoff := SaturatingSub(currentRound, maxRounds);
      votes := map k | k in votes && k.0 >= cutoff :: votes[k];
    }

    method ReceiveVote(vote: Vote, verifier: ValidatorSet) returns (r: VoteReceptionResult)
      requires verifier.Valid()
      modifies this`votes
      ensures (State(), r) == AddVote(old(State()), vote, verifier.validators)
    {
      if vote.round < currentRound {
        return OldRound;
      }
      var key := (vote.round, vote.blockId);
      if key in votes && vote.signature in votes[key] {
        return Rejected;
      }
      var forKey := if key in votes then votes[key] else map[];
      votes := votes[key := forKey[vote.signature := vote]];
      var quorum := CheckQuorum(key, verifier);
      return if quorum then QuorumCompleted else Accepted;
    }

    /** Decides the strict test, in every iteration order of the inner map. */
    method CheckQuorum(key: VoteKey, verifier: ValidatorSet) returns (ok: bool)
      requires verifier.Valid()
      ensures ok <==> QuorumAt(verifier.validators, State(), key)
    {
      if key !in votes {
        return false;
      }
      var aggregator := Aggregate(votes[key], verifier);
      var checked := aggregator.CheckQuorum(verifier);
      return checked.Pass?;
    }

    /** The votes for a key, as a list in some order. */
    method GetVotes(key: VoteKey) returns (list: seq<Vote>)
      ensures Lists(list, VotesFor(State(), key))
    {
      var m := if key in votes then votes[key] else map[];
      var order := Enumerate(m.Keys);
      list := seq(|order|, i requires 0 <= i < |order| => m[order[i]]);
      assert list == InOrder(m, order);
    }

    method RemoveVotesOf(round: Round)
      modifies this`votes
      ensures State() == RemoveRound(old(State()), round)
    {
      votes := map k | k in votes && k.0 != round :: votes[k];
    }
  }
}

/** Validator sets, signature aggregation, and why the iteration order of a hash map does not matter. */
module Aggregation {
  import opened Types
  import opened VotingPower

  // ---------------------------------------------------------------- enumerating a set in some order

  predicate IsEnumeration<T(==)>(order: seq<T>, s: set<T>) {
    && (forall i, j | 0 <= i < j < |order| :: order[i] != order[j])
    && (forall x | x in order :: x in s)
    && (forall x | x in s :: x in order)
  }

  /** Iterates over a hash set or the keys of a hash map: every element once, in an order nobody controls. */
  method Enumerate<T(==)>(s: set<T>) returns (order: seq<T>)
    ensures IsEnumeration(order, s)
  {
    order := [];
    var rest := s;
    while rest != {}
      invariant rest <= s && IsEnumeration(order, s - rest)
      decreases rest
    {
      var x :| x in rest;
      order := order + [x];
      rest := rest - {x};
    }
  }

  ghost function SumSeq<T(!new)>(order: seq<T>, f: T -> nat): nat {
    if order == [] then 0 else SumSeq(order[..|order| - 1], f) + f(order[|order| - 1])
  }

  lemma {:induction false} SumSeqOfEnumeration<T(!new)>(order: seq<T>, s: set<T>, f: T -> nat)
    requires IsEnumeration(order, s)
    ensures SumSeq(order, f) == SumOver(s, f)
  {
    if order == [] {
      assert s == {};
    } else {
      var k := |order| - 1;
      var x := order[k];
      assert order == order[..k] + [x];
      assert x !in order[..k];
      SumSeqOfEnumeration(order[..k], s - {x}, f);
      SumRemove(s, f, x);
    }
  }

  // ---------------------------------------------------------------- counting authors once or once per signature

  ghost function Image<T(!new)>(items: set<T>, author: T -> NodeId): set<NodeId> {
    set x | x in items :: author(x)
  }

  /** Any two items of one author weigh nothing. */
  ghost predicate NoPaidRepeat<T(!new)>(items: set<T>, author: T -> NodeId, power: T -> nat) {
    forall x, y | x in items && y in items && x != y && author(x) == author(y) :: power(x) == 0
  }

  lemma {:induction false} NoPaidRepeatAdd<T(!new)>(items: set<T>, author: T -> NodeId, power: T -> nat, x: T)
    requires x !in items
    requires forall y | y in items && author(y) == author(x) :: power(y) == power(x)
    ensures NoPaidRepeat(items + {x}, author, power) <==>
      NoPaidRepeat(items, author, power) && (author(x) in Image(items, author) ==> power(x) == 0)
  {
    if author(x) in Image(items, author) {
      var twin :| twin in items && author(twin) == author(x);
      assert twin in items + {x} && x in items + {x};
    }
  }

  /** Summing an author's power once per item against once per author: never less, and equal only without paid
      repeats. */
  lemma {:induction false} RepeatsOnlyAdd<T(!new)>(
      validators: map<NodeId, u64>, items: set<T>, author: T -> NodeId, power: T -> nat)
    requires forall x | x in items :: power(x) == Weight(validators, author(x))
    ensures SumOver(items, power) >= PowerOf(validators, Image(items, author))
    ensures SumOver(items, power) == PowerOf(validators, Image(items, author)) <==> NoPaidRepeat(items, author, power)
    decreases items
  {
    if items == {} {
      assert Image(items, author) == {};
    } else {
      var x :| x in items;
      var rest := items - {x};
      var others := Image(rest, author);
      RepeatsOnlyAdd(validators, rest, author, power);
      SumRemove(items, power, x);
      assert items == rest + {x};
      NoPaidRepeatAdd(rest, author, power, x);
      if author(x) in others {
        assert Image(items, author) == others;
      } else {
        assert Image(items, author) == others + {author(x)};
        SumAdd(others, WeightIn(validators), author(x));
      }
    }
  }

  // ---------------------------------------------------------------- validator sets

  datatype VerifyError = TooLittleVotingPower(votingPower: nat, expected: nat)

  datatype ValidatorSet = ValidatorSet(epoch: Epoch, validators: map<NodeId, u64>, totalVotingPower: nat) {
    ghost predicate Valid() {
      totalVotingPower == TotalPower(validators)
    }

    function QuorumVotingPower(): nat {
      QuorumThreshold(totalVotingPower)
    }

    /** As coded, `has_quorum` adds up whatever it is handed, repeats included. */
    ghost predicate HasQuorum(voters: seq<NodeId>) {
      SumSeq(voters, WeightIn(validators)) >= QuorumVotingPower()
    }
  }

  /** `ValidatorSet::new` sums the values of the map. */
  method NewValidatorSet(epoch: Epoch, validators: map<NodeId, u64>) returns (vs: ValidatorSet)
    ensures vs.Valid() && vs.epoch == epoch && vs.validators == validators
  {
    var order := Enumerate(validators.Keys);
    var total: nat := 0;
    for i := 0 to |order|
      invariant total == SumSeq(order[..i], WeightIn(validators))
    {
      total := total + validators[order[i]];
      assert order[..i + 1][..i] == order[..i];
    }
    assert order[..|order|] == order;
    SumSeqOfEnumeration(order, validators.Keys, WeightIn(validators));
    vs := ValidatorSet(epoch, validators, total);
  }

  /** Nobody with weight is listed twice. */
  ghost predicate NoPaidRepeatIn<T(!new)>(order: seq<T>, f: T -> nat) {
    forall i, j | 0 <= i < j < |order| && order[i] == order[j] :: f(order[i]) == 0
  }

  lemma {:induction false} NoPaidRepeatByLast<T(!new)>(front: seq<T>, x: T, f: T -> nat)
    ensures NoPaidRepeatIn(front + [x], f) <==> NoPaidRepeatIn(front, f) && (x in front ==> f(x) == 0)
  {
    var order := front + [x];
    if NoPaidRepeatIn(order, f) {
      forall i, j | 0 <= i < j < |front| && front[i] == front[j] ensures f(front[i]) == 0 {
        assert order[i] == order[j];
      }
      if x in front {
        var i :| 0 <= i < |front| && front[i] == x;
        assert order[i] == order[|front|];
      }
    }
  }

  /** Summing over a list against summing over its members: never less, and equal only without paid repeats. */
  lemma {:induction false} SumSeqCovers<T(!new)>(order: seq<T>, s: set<T>, f: T -> nat)
    requires forall x :: x in order <==> x in s
    ensures SumSeq(order, f) >= SumOver(s, f)
    ensures SumSeq(order, f) == SumOver(s, f) <==> NoPaidRepeatIn(order, f)
  {
    if order == [] {
      assert s == {};
    } else {
      var k := |order| - 1;
      var x := order[k];
      assert order == order[..k] + [x];
      NoPaidRepeatByLast(order[..k], x, f);
      if x in order[..k] {
        SumSeqCovers(order[..k], s, f);
      } else {
        SumSeqCovers(order[..k], s - {x}, f);
        SumRemove(s, f, x);
      }
    }
  }

  /** What `has_quorum` adds up is the power of the distinct voters exactly when nobody with weight is listed twice.
      Then it is the real test; otherwise it can only pass too easily. */
  lemma {:induction false} HasQuorumCountsRepeats(vs: ValidatorSet, voters: seq<NodeId>, distinct: set<NodeId>)
    requires vs.Valid() && distinct == set v | v in voters
    ensures var f := WeightIn(vs.validators);
      && SumSeq(voters, f) >= PowerOf(vs.validators, distinct)
      && (SumSeq(voters, f) == PowerOf(vs.validators, distinct) <==> NoPaidRepeatIn(voters, f))
      && (NoPaidRepeatIn(voters, f) ==> (vs.HasQuorum(voters) <==> HasQuorumPower(vs.validators, distinct)))
    ensures HasQuorumPower(vs.validators, distinct) ==> vs.HasQuorum(voters)
    ensures IsEnumeration(voters, distinct) ==> (vs.HasQuorum(voters) <==> HasQuorumPower(vs.validators, distinct))
  {
    SumSeqCovers(voters, distinct, WeightIn(vs.validators));
  }

  const FourEqual: map<NodeId, u64> := map[0 := 1, 1 := 1, 2 := 1, 3 := 1]

  lemma {:induction false} FourEqualTotal()
    ensures TotalPower(FourEqual) == 4
  {
    var ids: set<NodeId> := {0, 1, 2, 3};
    assert FourEqual.Keys == ids && |ids| == 4;
    SumCount(ids, WeightIn(FourEqual));
  }

  lemma {:induction false} SumCount<T(!new)>(s: set<T>, f: T -> nat)
    requires forall x | x in s :: f(x) == 1
    ensures SumOver(s, f) == |s|
    decreases s
  {
    if s != {} {
      var x :| x in s;
      SumRemove(s, f, x);
      SumCount(s - {x}, f);
    }
  }

  /** One validator of four, named three times, passes `has_quorum`. */
  lemma {:induction false} HasQuorumWithoutQuorum(vs: ValidatorSet)
    requires vs.Valid() && vs.validators == FourEqual
    ensures var one: set<NodeId> := {0};
      vs.HasQuorum([0, 0, 0]) && !HasQuorumPower(vs.validators, one)
  {
    var f := WeightIn(FourEqual);
    var one: set<NodeId> := {0};
    FourEqualTotal();
    SumCount(one, f);
    var voters: seq<NodeId> := [0, 0, 0];
    assert voters[..2] == [0, 0] && voters[..2][..1] == [0] && voters[..2][..1][..0] == [];
    assert SumSeq(voters[..2][..1], f) == 1;
    assert SumSeq(voters[..2], f) == 2;
    assert SumSeq(voters, f) == 3;
  }

  // ---------------------------------------------------------------- the aggregator

  /** What the aggregator has collected: one signature per author, their power, and their number. */
  datatype Tally = Tally(signatures: map<NodeId, Signature>, votingPower: nat, signerCount: nat)

  const EmptyTally := Tally(map[], 0, 0)

  function AddToTally(t: Tally, author: NodeId, signature: Signature, power: u64): Tally {
    if author in t.signatures then t
    else Tally(t.signatures[author := signature], t.votingPower + power, t.signerCount + 1)
  }

  class SignatureAggregator {
    var signatures: map<NodeId, Signature>
    var votingPower: nat
    var signerCount: nat

    constructor ()
      ensures Contents() == EmptyTally
    {
      signatures, votingPower, signerCount := map[], 0, 0;
    }

    function Contents(): Tally
      reads this
    {
      Tally(signatures, votingPower, signerCount)
    }

    method AddSignature(author: NodeId, signature: Signature, power: u64)
      modifies this
      ensures Contents() == AddToTally(old(Contents()), author, signature, power)
    {
      if author !in signatures {
        votingPower := votingPower + power;
        signerCount := signerCount + 1;
        signatures := signatures[author := signature];
      }
    }

    /** Asks the verifier about the signers; the power collected on the way is not consulted. */
    method CheckQuorum(verifier: ValidatorSet) returns (r: Outcome<VerifyError>)
      requires verifier.Valid()
      ensures
        var power := PowerOf(verifier.validators, signatures.Keys);
        r == if HasQuorumPower(verifier.validators, signatures.Keys) then Pass
             else Fail(TooLittleVotingPower(power, verifier.QuorumVotingPower()))
    {
      var signers := Enumerate(signatures.Keys);
      r := CheckVotingPower(verifier, signers, true);
      SumSeqOfEnumeration(signers, signatures.Keys, WeightIn(verifier.validators));
    }

    method Clear()
      modifies this
      ensures Contents() == EmptyTally
    {
      signatures, votingPower, signerCount := map[], 0, 0;
    }
  }

  method CheckVotingPower(verifier: ValidatorSet, signers: seq<NodeId>, checkQuorum: bool)
    returns (r: Outcome<VerifyError>)
    ensures
      var power := SumSeq(signers, WeightIn(verifier.validators));
      r == if checkQuorum && !verifier.HasQuorum(signers)
           then Fail(TooLittleVotingPower(power, verifier.QuorumVotingPower())) else Pass
  {
    var power: nat := 0;
    for i := 0 to |signers|
      invariant power == SumSeq(signers[..i], WeightIn(verifier.validators))
    {
      if signers[i] in verifier.validators {
        power := power + verifier.validators[signers[i]];
      }
      assert signers[..i + 1][..i] == signers[..i];
    }
    assert signers[..|signers|] == signers;
    if checkQuorum && power < verifier.QuorumVotingPower() {
      return Fail(TooLittleVotingPower(power, verifier.QuorumVotingPower()));
    }
    return Pass;
  }

  // ---------------------------------------------------------------- collecting stored votes

  datatype Vote = Vote(
    author: NodeId, blockId: BlockId, round: Round, epoch: Epoch, signature: Signature, authentic: bool)

  /** Feed votes to an aggregator in the given order; votes of unknown authors are skipped. */
  function Collect(validators: map<NodeId, u64>, votes: seq<Vote>): Tally {
    if votes == [] then EmptyTally else
      var t, v := Collect(validators, votes[..|votes| - 1]), votes[|votes| - 1];
      if v.author in validators then AddToTally(t, v.author, v.signature, validators[v.author]) else t
  }

  function KnownAuthors(validators: map<NodeId, u64>, votes: seq<Vote>): set<NodeId> {
    set v | v in votes && v.author in validators :: v.author
  }

  lemma KnownAuthorsByLast(validators: map<NodeId, u64>, front: seq<Vote>, v: Vote)
    ensures KnownAuthors(validators, front + [v]) ==
            KnownAuthors(validators, front) + if v.author in validators then {v.author} else {}
  {
    assert forall x :: x in front + [v] <==> x in front || x == v;
  }

  lemma MapGrows<K, V>(m: map<K, V>, k: K, v: V)
    ensures m[k := v].Keys == m.Keys + {k}
    ensures |m[k := v]| == if k in m then |m| else |m| + 1
  {
    assert m[k := v].Keys == m.Keys + {k};
    assert |m[k := v]| == |m[k := v].Keys| && |m| == |m.Keys|;
  }

  lemma PowerGrows(validators: map<NodeId, u64>, signers: set<NodeId>, a: NodeId)
    requires a in validators
    ensures PowerOf(validators, signers + {a}) ==
            PowerOf(validators, signers) + if a in signers then 0 else validators[a]
  {
    if a in signers {
      assert signers + {a} == signers;
    } else {
      SumAdd(signers, WeightIn(validators), a);
    }
  }

  /** Adding one signature counts its author's power and its author once. */
  lemma AddToTallyCounts(validators: map<NodeId, u64>, t: Tally, a: NodeId, sig: Signature)
    requires a in validators
    requires t.votingPower == PowerOf(validators, t.signatures.Keys) && t.signerCount == |t.signatures|
    ensures var u := AddToTally(t, a, sig, validators[a]);
      && u.signatures.Keys == t.signatures.Keys + {a}
      && u.votingPower == PowerOf(validators, t.signatures.Keys + {a})
      && u.signerCount == |u.signatures|
  {
    MapGrows(t.signatures, a, sig);
    PowerGrows(validators, t.signatures.Keys, a);
  }

  /** Whatever the order: the signers are the known authors, and power and count are theirs, each taken once. */
  lemma {:induction false} CollectCountsAuthors(validators: map<NodeId, u64>, votes: seq<Vote>)
    ensures Collect(validators, votes).signatures.Keys == KnownAuthors(validators, votes)
    ensures Collect(validators, votes).votingPower == PowerOf(validators, KnownAuthors(validators, votes))
    ensures Collect(validators, votes).signerCount == |Collect(validators, votes).signatures|
  {
    if votes != [] {
      var front, v := votes[..|votes| - 1], votes[|votes| - 1];
      CollectCountsAuthors(validators, front);
      assert votes == front + [v];
      KnownAuthorsByLast(validators, front, v);
      if v.author in validators {
        AddToTallyCounts(validators, Collect(validators, front), v.author, v.signature);
      }
    }
  }

  lemma {:induction false} CollectKeepsRealSignatures(validators: map<NodeId, u64>, votes: seq<Vote>, a: NodeId)
    requires a in Collect(validators, votes).signatures
    ensures exists v :: v in votes && v.author == a && v.signature == Collect(validators, votes).signatures[a]
  {
    var k := |votes| - 1;
    if a in Collect(validators, votes[..k]).signatures {
      CollectKeepsRealSignatures(validators, votes[..k], a);
    } else {
      assert votes[k] in votes;
    }
  }

  /** Two enumerations of the same votes agree on signers, power and count. */
  lemma {:induction false} CollectIgnoresOrder(validators: map<NodeId, u64>, a: seq<Vote>, b: seq<Vote>)
    requires forall v :: v in a <==> v in b
    ensures var s, t := Collect(validators, a), Collect(validators, b);
      && s.signatures.Keys == t.signatures.Keys
      && s.votingPower == t.votingPower
      && s.signerCount == t.signerCount
  {
    CollectCountsAuthors(validators, a);
    CollectCountsAuthors(validators, b);
    assert KnownAuthors(validators, a) == KnownAuthors(validators, b);
    var s, t := Collect(validators, a), Collect(validators, b);
    assert |s.signatures| == |s.signatures.Keys| && |t.signatures| == |t.signatures.Keys|;
  }

  /** Which signature is kept does depend on the order, unless no known author signed twice. */
  ghost predicate NoKnownAuthorTwice(validators: map<NodeId, u64>, votes: set<Vote>) {
    forall v, w | v in votes && w in votes && v.author == w.author && v.author in validators ::
      v.signature == w.signature
  }

  lemma {:induction false} SameSignaturesKept(
      validators: map<NodeId, u64>, votes: set<Vote>, a: seq<Vote>, b: seq<Vote>)
    requires NoKnownAuthorTwice(validators, votes) && IsEnumeration(a, votes) && IsEnumeration(b, votes)
    ensures Collect(validators, a) == Collect(validators, b)
  {
    CollectIgnoresOrder(validators, a, b);
    CollectCountsAuthors(validators, a);
    var s, t := Collect(validators, a).signatures, Collect(validators, b).signatures;
    forall x | x in s ensures x in t && s[x] == t[x] {
      CollectKeepsRealSignatures(validators, a, x);
      CollectKeepsRealSignatures(validators, b, x);
    }
    assert s == t;
  }

  lemma {:induction false} OrderDecidesSignature(validators: map<NodeId, u64>, votes: set<Vote>)
    returns (a: seq<Vote>, b: seq<Vote>)
    requires !NoKnownAuthorTwice(validators, votes)
    ensures IsEnumeration(a, votes) && IsEnumeration(b, votes) && Collect(validators, a) != Collect(validators, b)
  {
    var v, w :|
      v in votes && w in votes && v.author == w.author && v.author in validators && v.signature != w.signature;
    var rest := SomeEnumeration(votes - {v, w});
    FirstSignatureKept(validators, v, [w] + rest);
    FirstSignatureKept(validators, w, [v] + rest);
    a, b := [v] + ([w] + rest), [w] + ([v] + rest);
  }

  lemma {:induction false} KeptSignaturesIgnoreOrderIff(validators: map<NodeId, u64>, votes: set<Vote>)
    ensures NoKnownAuthorTwice(validators, votes) <==>
      forall a, b | IsEnumeration(a, votes) && IsEnumeration(b, votes) ::
        Collect(validators, a) == Collect(validators, b)
  {
    if NoKnownAuthorTwice(validators, votes) {
      forall a, b | IsEnumeration(a, votes) && IsEnumeration(b, votes)
        ensures Collect(validators, a) == Collect(validators, b)
      {
        SameSignaturesKept(validators, votes, a, b);
      }
    } else {
      var a, b := OrderDecidesSignature(validators, votes);
    }
  }

  lemma {:induction false} FirstSignatureKept(validators: map<NodeId, u64>, v: Vote, rest: seq<Vote>)
    requires v.author in validators
    ensures v.author in Collect(validators, [v] + rest).signatures
    ensures Collect(validators, [v] + rest).signatures[v.author] == v.signature
  {
    if rest == [] {
      assert [v] + rest == [v] && [v][..0] == [];
    } else {
      var k := |rest| - 1;
      FirstSignatureKept(validators, v, rest[..k]);
      assert ([v] + rest)[..k + 1] == [v] + rest[..k];
    }
  }

  lemma {:induction false} SomeEnumeration<T>(s: set<T>) returns (order: seq<T>)
    ensures IsEnumeration(order, s)
    decreases s
  {
    order := [];
    if s != {} {
      var x :| x in s;
      var rest := SomeEnumeration(s - {x});
      order := [x] + rest;
    }
  }
}

/** Sums over finite sets, and the voting-power arithmetic of a validator set. */
module VotingPower {
  import opened Types

  // ---------------------------------------------------------------- sums over sets

  ghost function SumOver<T(!new)>(s: set<T>, f: T -> nat): nat
    decreases s
  {
    if s == {} then 0 else
      var x :| x in s;
      f(x) + SumOver(s - {x}, f)
  }

  lemma {:induction false} SumRemove<T(!new)>(s: set<T>, f: T -> nat, x: T)
    requires x in s
    ensures SumOver(s, f) == f(x) + SumOver(s - {x}, f)
    decreases s
  {
    var y :| y in s && SumOver(s, f) == f(y) + SumOver(s - {y}, f);
    if y != x {
      SumRemove(s - {y}, f, x);
      SumRemove(s - {x}, f, y);
      assert s - {y} - {x} == s - {x} - {y};
    }
  }

  lemma {:induction false} SumAdd<T(!new)>(s: set<T>, f: T -> nat, x: T)
    requires x !in s
    ensures SumOver(s + {x}, f) == SumOver(s, f) + f(x)
  {
    SumRemove(s + {x}, f, x);
    assert s + {x} - {x} == s;
  }

  lemma {:induction false} SumCongruence<T(!new)>(s: set<T>, f: T -> nat, g: T -> nat)
    requires forall x | x in s :: f(x) == g(x)
    ensures SumOver(s, f) == SumOver(s, g)
    decreases s
  {
    if s != {} {
      var x :| x in s;
      SumRemove(s, f, x);
      SumRemove(s, g, x);
      SumCongruence(s - {x}, f, g);
    }
  }

  /** Inclusion and exclusion: what two sets hold together and in common. */
  lemma {:induction false} SumUnion<T(!new)>(a: set<T>, b: set<T>, f: T -> nat)
    ensures SumOver(a + b, f) + SumOver(a * b, f) == SumOver(a, f) + SumOver(b, f)
    decreases b
  {
    if b == {} {
      assert a + b == a && a * b == {};
    } else {
      var x :| x in b;
      var c := b - {x};
      SumUnion(a, c, f);
      SumRemove(b, f, x);
      if x in a {
        assert a + b == a + c;
        SumAdd(a * c, f, x);
        assert a * b == a * c + {x};
      } else {
        SumAdd(a + c, f, x);
        assert a + b == a + c + {x};
        assert a * b == a * c;
      }
    }
  }

  lemma {:induction false} SumMonotone<T(!new)>(a: set<T>, b: set<T>, f: T -> nat)
    requires a <= b
    ensures SumOver(a, f) <= SumOver(b, f)
  {
    SumUnion(a, b - a, f);
    assert a + (b - a) == b && a * (b - a) == {};
  }

  // ---------------------------------------------------------------- voting power

  /** `get_voting_power(v).unwrap_or(0)`. */
  function Weight(validators: map<NodeId, u64>, v: NodeId): nat {
    if v in validators then validators[v] else 0
  }

  function WeightIn(validators: map<NodeId, u64>): NodeId -> nat {
    v => Weight(validators, v)
  }

  ghost function PowerOf(validators: map<NodeId, u64>, s: set<NodeId>): nat {
    SumOver(s, WeightIn(validators))
  }

  ghost function TotalPower(validators: map<NodeId, u64>): nat {
    PowerOf(validators, validators.Keys)
  }

  function QuorumThreshold(total: nat): nat {
    total * 2 / 3 + 1
  }

  ghost predicate HasQuorumPower(validators: map<NodeId, u64>, s: set<NodeId>) {
    PowerOf(validators, s) >= QuorumThreshold(TotalPower(validators))
  }

  lemma {:induction false} PowerBounded(validators: map<NodeId, u64>, s: set<NodeId>)
    ensures PowerOf(validators, s) <= TotalPower(validators)
    decreases s
  {
    var f := WeightIn(validators);
    var known := s * validators.Keys;
    SumMonotone(known, validators.Keys, f);
    var unknown := s - known;
    SumUnion(known, unknown, f);
    assert known + unknown == s && known * unknown == {};
    SumZero(unknown, f);
  }

  lemma {:induction false} SumZero<T(!new)>(s: set<T>, f: T -> nat)
    requires forall x | x in s :: f(x) == 0
    ensures SumOver(s, f) == 0
    decreases s
  {
    if s != {} {
      var x :| x in s;
      SumRemove(s, f, x);
      SumZero(s - {x}, f);
    }
  }

  /** Any two quorums share strictly more than a third of all voting power. */
  lemma {:induction false} QuorumsIntersect(validators: map<NodeId, u64>, a: set<NodeId>, b: set<NodeId>)
    requires HasQuorumPower(validators, a) && HasQuorumPower(validators, b)
    ensures 3 * PowerOf(validators, a * b) > TotalPower(validators)
  {
    SumUnion(a, b, WeightIn(validators));
    PowerBounded(validators, a + b);
  }

  /** A quorum cannot consist of members holding less than a third, nor can the overlap of two. */
  lemma {:induction false} QuorumsShareMemberOutside(
      validators: map<NodeId, u64>, a: set<NodeId>, b: set<NodeId>, faulty: set<NodeId>)
    returns (v: NodeId)
    requires HasQuorumPower(validators, a) && HasQuorumPower(validators, b)
    requires 3 * PowerOf(validators, faulty) < TotalPower(validators)
    ensures v in a && v in b && v !in faulty && v in validators
  {
    QuorumsIntersect(validators, a, b);
    var f := WeightIn(validators);
    if forall x | x in a * b :: x in faulty || x !in validators {
      var known := a * b * validators.Keys;
      SumMonotone(known, faulty, f);
      var unknown := a * b - known;
      SumUnion(known, unknown, f);
      assert known + unknown == a * b && known * unknown == {};
      SumZero(unknown, f);
      assert false;
    }
    v :| v in a * b && v !in faulty && v in validators;
  }

  /** The threshold is exactly "more than two thirds", for every total. */
  lemma {:induction false} QuorumIffTwoThirds(validators: map<NodeId, u64>, s: set<NodeId>)
    ensures HasQuorumPower(validators, s) <==> 3 * PowerOf(validators, s) > 2 * TotalPower(validators)
  {
  }

  /** Everybody outside a set is a quorum exactly when the set holds less than a third: a quorum never needs the faulty,
      and never could do with more of them. */
  lemma {:induction false} OthersAreQuorumIff(validators: map<NodeId, u64>, faulty: set<NodeId>)
    ensures HasQuorumPower(validators, validators.Keys - faulty) <==>
      3 * PowerOf(validators, faulty) < TotalPower(validators)
  {
    var f := WeightIn(validators);
    var known, unknown := validators.Keys * faulty, faulty - validators.Keys;
    var others := validators.Keys - faulty;
    SumUnion(others, known, f);
    assert others + known == validators.Keys && others * known == {};
    SumUnion(known, unknown, f);
    assert known + unknown == faulty && known * unknown == {};
    SumZero(unknown, f);
    QuorumIffTwoThirds(validators, others);
  }
}

/** Reloading the safety state after a restart. */
module Recovery {
  import opened Types
  import opened SafetyRules
  import opened SafetyHistory

  datatype RecoveryError =
    | StorageError
    | InvalidEpoch
    | OneChainAbovePreferred
    | PreferredFarAhead

  /** `last_voted_round + 100` is unchecked; it is computed only once the two earlier checks have passed. */
  predicate ValidationOverflows(s: SafetyStateData) {
    && s.epoch <= U64_MAX - 1000
    && s.oneChainRound <= s.preferredRound
    && s.lastVotedRound > U64_MAX - 100
  }

  function ValidateSafetyState(s: SafetyStateData): Outcome<RecoveryError>
    requires !ValidationOverflows(s)
  {
    if s.epoch > U64_MAX - 1000 then Fail(InvalidEpoch)
    else if s.oneChainRound > s.preferredRound then Fail(OneChainAbovePreferred)
    else if s.preferredRound > s.lastVotedRound + 100 then Fail(PreferredFarAhead)
    else Pass
  }

  /** Persistent storage: one saved state, and whether the backend answers at all. */
  class SafetyStorage {
    var saved: Option<SafetyStateData>
    var available: bool

    method PersistSafetyState(s: SafetyStateData) returns (r: Outcome<RecoveryError>)
      modifies this
      ensures available == old(available) && (r.Pass? <==> available)
      ensures saved == if available then Some(s) else old(saved)
    {
      if !available {
        return Fail(StorageError);
      }
      saved := Some(s);
      return Pass;
    }
  }

  method LoadSafetyRules(storage: SafetyStorage, epoch: Epoch)
    returns (r: Result<TwoChainSafetyRules, RecoveryError>)
    requires storage.available && storage.saved.Some? ==> !ValidationOverflows(storage.saved.value)
    ensures r.Ok? ==> fresh(r.value.state)
    ensures !storage.available ==> r == Err(StorageError)
    ensures storage.available && storage.saved.None? ==> r.Ok? && r.value.state.Data() == Fresh(epoch)
    ensures storage.available && storage.saved.Some? ==>
      match ValidateSafetyState(storage.saved.value)
      case Pass => r.Ok? && r.value.state.Data() == storage.saved.value
      case Fail(e) => r == Err(e)
  {
    if !storage.available {
      return Err(StorageError);
    }
    if storage.saved.None? {
      var rules := new TwoChainSafetyRules.New(epoch);
      return Ok(rules);
    }
    var validated := ValidateSafetyState(storage.saved.value);
    if validated.Fail? {
      return Err(validated.error);
    }
    var rules := new TwoChainSafetyRules.WithState(storage.saved.value);
    return Ok(rules);
  }

  /** Stop and start again: what was persisted comes back unchanged exactly when it passes validation. */
  method Restart(storage: SafetyStorage, rules: TwoChainSafetyRules)
    returns (r: Result<TwoChainSafetyRules, RecoveryError>)
    requires storage.available && !ValidationOverflows(rules.state.Data())
    modifies storage
    ensures r.Ok? <==> ValidateSafetyState(rules.state.Data()).Pass?
    ensures r.Ok? ==> fresh(r.value.state) && r.value.state.Data() == rules.state.Data()
  {
    var _ := storage.PersistSafetyState(rules.state.Data());
    r := LoadSafetyRules(storage, 0);
  }

  /** The validator asks for `one_chain <= preferred`; every reachable state has the opposite, so only equality
      passes. */
  lemma {:induction false} ReachableStateReloads(epoch: Epoch, h: seq<Event>)
    requires !ValidationOverflows(Run(epoch, h))
    ensures var s := Run(epoch, h);
      ValidateSafetyState(s).Pass? <==>
        && epoch <= U64_MAX - 1000
        && s.oneChainRound == s.preferredRound
        && s.preferredRound <= s.lastVotedRound + 100
  {
    StateIsFunctionOfHistory(epoch, h);
  }

  /** In terms of the history: a restart survives only if the highest round came in as a QC one above all before it. */
  lemma {:induction false} ReloadInTermsOfHistory(epoch: Epoch, h: seq<Event>, top: Round, voted: Round)
    requires !ValidationOverflows(Run(epoch, h))
    requires IsMaxOf(top, Rounds(ObservedBy, h)) && IsMaxOf(voted, Rounds(VotesBy, h))
    ensures ValidateSafetyState(Run(epoch, h)).Pass? <==>
        && epoch <= U64_MAX - 1000
        && (top == 0 || top in ConsecutiveRounds(h))
        && top <= voted + 100
  {
    ReachableStateReloads(epoch, h);
    StateIsFunctionOfHistory(epoch, h);
    var s := Run(epoch, h);
    MaxIsUnique(Rounds(ObservedBy, h), s.oneChainRound, top);
    MaxIsUnique(Rounds(VotesBy, h), s.lastVotedRound, voted);
  }

  /** Why a reachable state is refused, when it is, read off the events alone. */
  lemma {:induction false} RefusalInTermsOfHistory(epoch: Epoch, h: seq<Event>, top: Round, voted: Round)
    requires !ValidationOverflows(Run(epoch, h))
    requires IsMaxOf(top, Rounds(ObservedBy, h)) && IsMaxOf(voted, Rounds(VotesBy, h))
    ensures var r, consecutive := ValidateSafetyState(Run(epoch, h)), top == 0 || top in ConsecutiveRounds(h);
      && (r == Fail(InvalidEpoch) <==> epoch > U64_MAX - 1000)
      && (r == Fail(OneChainAbovePreferred) <==> epoch <= U64_MAX - 1000 && !consecutive)
      && (r == Fail(PreferredFarAhead) <==> epoch <= U64_MAX - 1000 && consecutive && top > voted + 100)
  {
    StateIsFunctionOfHistory(epoch, h);
    var s := Run(epoch, h);
    MaxIsUnique(Rounds(ObservedBy, h), s.oneChainRound, top);
    MaxIsUnique(Rounds(VotesBy, h), s.lastVotedRound, voted);
  }

  /** Whatever is stored, reachable or not: it reloads iff it satisfies the three documented bounds, and the first one
      broken is the reason given. */
  lemma StoredStateReloadsIff(s: SafetyStateData)
    requires !ValidationOverflows(s)
    ensures var r := ValidateSafetyState(s);
      var epochInRange, ordered := s.epoch + 1000 <= U64_MAX, s.oneChainRound <= s.preferredRound;
      && (r.Pass? <==> epochInRange && ordered && s.preferredRound - s.lastVotedRound <= 100)
      && (r == Fail(InvalidEpoch) <==> !epochInRange)
      && (r == Fail(OneChainAbovePreferred) <==> epochInRange && !ordered)
      && (r == Fail(PreferredFarAhead) <==> epochInRange && ordered && s.preferredRound - s.lastVotedRound > 100)
  {
  }

  /** A validator whose only QC so far is of round 5, as for a late joiner, cannot restart. */
  lemma {:induction false} SkippedRoundBlocksRestart(epoch: Epoch)
    requires epoch <= U64_MAX - 1000
    ensures var s := Run(epoch, [Voted(6), SawQc(5)]);
      !ValidationOverflows(s) && ValidateSafetyState(s) == Fail(OneChainAbovePreferred)
  {
    RunSnoc(epoch, [], Voted(6));
    RunSnoc(epoch, [Voted(6)], SawQc(5));
    assert [Voted(6)] + [SawQc(5)] == [Voted(6), SawQc(5)] && [] + [Voted(6)] == [Voted(6)];
  }
}

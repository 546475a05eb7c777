/** Epoch changes: the reconfiguration handler on top of the epoch manager. */
module Reconfigs {
  import opened Types
  import opened Aggregation

  datatype ReconfigStatus =
    | Idle
    | Preparing(currentEpoch: Epoch, nextEpoch: Epoch)
    | InProgress(newEpoch: Epoch, validatorsProcessed: nat, totalValidators: nat)
    | Completed(epoch: Epoch, validatorCount: nat)
    | Failed
  {
    predicate IsInProgress() {
      Preparing? || InProgress?
    }
  }

  datatype ReconfigEvent =
    | NewEpoch(epoch: Epoch, startRound: Round)
    | ValidatorSetChanged(validatorSet: ValidatorSet)
    | PolicyChanged(description: string)

  datatype ReconfigError =
    | AlreadyInProgress | NotNextEpoch | NotPreparing | EmptyValidatorSet | NotInProgress
    | NotAllProcessed(processed: nat, total: nat)
    | OldEpoch(current: Epoch, proposed: Epoch) | SkippedEpoch(current: Epoch, proposed: Epoch)

  datatype Handler = Handler(
    status: ReconfigStatus, epoch: Epoch, sets: map<Epoch, ValidatorSet>, events: seq<ReconfigEvent>)

  // ---------------------------------------------------------------- the operations, as functions

  /** `start_new_epoch` takes the next epoch and no other. */
  function StartNewEpochCheck(current: Epoch, proposed: Epoch): Outcome<ReconfigError> {
    if proposed <= current then Fail(OldEpoch(current, proposed))
    else if proposed != current + 1 then Fail(SkippedEpoch(current, proposed))
    else Pass
  }

  /** The unchecked `current_epoch + 1`. */
  predicate PrepareOverflows(s: Handler) {
    !s.status.IsInProgress() && s.epoch == U64_MAX
  }

  function Prepare(s: Handler, newEpoch: Epoch): (Handler, Outcome<ReconfigError>) {
    if s.status.IsInProgress() then (s, Fail(AlreadyInProgress))
    else if newEpoch != s.epoch + 1 then (s, Fail(NotNextEpoch))
    else (s.(status := Preparing(s.epoch, newEpoch)), Pass)
  }

  /** The epoch that a validator set carries is not looked at. */
  function Begin(s: Handler, vs: ValidatorSet): (Handler, Outcome<ReconfigError>) {
    if !s.status.Preparing? then (s, Fail(NotPreparing))
    else if |vs.validators| == 0 then (s, Fail(EmptyValidatorSet))
    else
      var next := s.status.nextEpoch;
      (s.(status := InProgress(next, 0, |vs.validators|), sets := s.sets[next := vs]), Pass)
  }

  function UpdateProgress(s: Handler, processed: nat): Handler {
    if s.status.InProgress? then s.(status := s.status.(validatorsProcessed := processed)) else s
  }

  function Complete(s: Handler): (Handler, Outcome<ReconfigError>) {
    if !s.status.InProgress? then (s, Fail(NotInProgress))
    else if s.status.validatorsProcessed != s.status.totalValidators then
      (s, Fail(NotAllProcessed(s.status.validatorsProcessed, s.status.totalValidators)))
    else
      var started := StartNewEpochCheck(s.epoch, s.status.newEpoch);
      if started.Fail? then (s, started) else (s.(epoch := s.status.newEpoch, status := Idle), Pass)
  }

  function CancelReconfig(s: Handler): Handler {
    s.(status := Idle, events := [])
  }

  // ---------------------------------------------------------------- the objects

  class EpochManager {
    var epoch: Epoch

    constructor (initialEpoch: Epoch)
      ensures epoch == initialEpoch
    {
      epoch := initialEpoch;
    }

    method StartNewEpoch(proposed: Epoch) returns (r: Outcome<ReconfigError>)
      modifies this
      ensures r == StartNewEpochCheck(old(epoch), proposed)
      ensures r.Pass? <==> proposed == old(epoch) + 1
      ensures epoch == if r.Pass? then proposed else old(epoch)
    {
      if proposed <= epoch {
        return Fail(OldEpoch(epoch, proposed));
      }
      if proposed != epoch + 1 {
        return Fail(SkippedEpoch(epoch, proposed));
      }
      epoch := proposed;
      return Pass;
    }

    /** Never refused. */
    method ForceNextEpoch() returns (r: Outcome<ReconfigError>)
      requires epoch < U64_MAX
      modifies this
      ensures r == Pass && epoch == old(epoch) + 1
    {
      r := StartNewEpoch(epoch + 1);
    }
  }

  class ReconfigHandler {
    var status: ReconfigStatus
    const epochManager: EpochManager
    var validatorSets: map<Epoch, ValidatorSet>
    var pendingEvents: seq<ReconfigEvent>

    constructor (epochManager: EpochManager)
      ensures State() == Handler(Idle, epochManager.epoch, map[], []) && this.epochManager == epochManager
    {
      this.epochManager := epochManager;
      status, validatorSets, pendingEvents := Idle, map[], [];
    }

    function State(): Handler
      reads this, epochManager
    {
      Handler(status, epochManager.epoch, validatorSets, pendingEvents)
    }

    method PrepareReconfig(newEpoch: Epoch) returns (r: Outcome<ReconfigError>)
      requires !PrepareOverflows(State())
      modifies this
      ensures (State(), r) == Prepare(old(State()), newEpoch)
    {
      if status.IsInProgress() {
        return Fail(AlreadyInProgress);
      }
      var currentEpoch := epochManager.epoch;
      if newEpoch != currentEpoch + 1 {
        return Fail(NotNextEpoch);
      }
      status := Preparing(currentEpoch, newEpoch);
      return Pass;
    }

    method SetValidatorSet(epoch: Epoch, vs: ValidatorSet)
      modifies this
      ensures State() == old(State()).(sets := old(validatorSets)[epoch := vs])
    {
      validatorSets := validatorSets[epoch := vs];
    }

    method BeginReconfig(vs: ValidatorSet) returns (r: Outcome<ReconfigError>)
      modifies this
      ensures (State(), r) == Begin(old(State()), vs)
    {
      if !status.Preparing? {
        return Fail(NotPreparing);
      }
      var nextEpoch := status.nextEpoch;
      if |vs.validators| == 0 {
        return Fail(EmptyValidatorSet);
      }
      status := InProgress(nextEpoch, 0, |vs.validators|);
      validatorSets := validatorSets[nextEpoch := vs];
      return Pass;
    }

    method CompleteReconfig() returns (r: Outcome<ReconfigError>)
      modifies this, epochManager
      ensures (State(), r) == Complete(old(State()))
    {
      if !status.InProgress? {
        return Fail(NotInProgress);
      }
      var newEpoch, total := status.newEpoch, status.totalValidators;
      if status.validatorsProcessed != total {
        return Fail(NotAllProcessed(status.validatorsProcessed, total));
      }
      r := epochManager.StartNewEpoch(newEpoch);
      if r.Fail? {
        return r;
      }
      status := Completed(newEpoch, total);
      status := Idle;
    }

    method UpdateReconfigProgress(processed: nat)
      modifies this
      ensures State() == UpdateProgress(old(State()), processed)
    {
      if status.InProgress? {
        status := InProgress(status.newEpoch, processed, status.totalValidators);
      }
    }

    method AddEvent(event: ReconfigEvent)
      modifies this
      ensures State() == old(State()).(events := old(pendingEvents) + [event])
    {
      pendingEvents := pendingEvents + [event];
    }

    method TakePendingEvents() returns (events: seq<ReconfigEvent>)
      modifies this
      ensures events == old(pendingEvents) && State() == old(State()).(events := [])
    {
      events := pendingEvents;
      pendingEvents := [];
    }

    method CancelCurrent()
      modifies this
      ensures State() == CancelReconfig(old(State()))
    {
      status := Idle;
      pendingEvents := [];
    }

    method CurrentValidatorSet() returns (vs: Option<ValidatorSet>)
      ensures vs == if epochManager.epoch in validatorSets then Some(validatorSets[epochManager.epoch]) else None
    {
      return if epochManager.epoch in validatorSets then Some(validatorSets[epochManager.epoch]) else None;
    }
  }

  // ---------------------------------------------------------------- runs

  datatype Op =
    | Prepares(epoch: Epoch)
    | Sets(epoch: Epoch, vs: ValidatorSet)
    | Begins(vs: ValidatorSet)
    | Progresses(processed: nat)
    | Completes
    | Cancels
    | AddsEvent(event: ReconfigEvent)
    | TakesEvents

  /** A `prepare` whose addition would overflow ends the run. */
  function Next(s: Handler, op: Op): Handler {
    match op
    case Prepares(e) => if PrepareOverflows(s) then s else Prepare(s, e).0
    case Sets(e, vs) => s.(sets := s.sets[e := vs])
    case Begins(vs) => Begin(s, vs).0
    case Progresses(n) => UpdateProgress(s, n)
    case Completes => Complete(s).0
    case Cancels => CancelReconfig(s)
    case AddsEvent(event) => s.(events := s.events + [event])
    case TakesEvents => s.(events := [])
  }

  function Run(initial: Epoch, h: seq<Op>): Handler {
    if h == [] then Handler(Idle, initial, map[], []) else Next(Run(initial, h[..|h| - 1]), h[|h| - 1])
  }

  predicate CompletesNow(s: Handler, op: Op) {
    op.Completes? && Complete(s).1.Pass?
  }

  /** How many times `complete_reconfig` succeeded. */
  function Completions(initial: Epoch, h: seq<Op>): nat {
    if h == [] then 0 else
      var g := h[..|h| - 1];
      Completions(initial, g) + if CompletesNow(Run(initial, g), h[|h| - 1]) then 1 else 0
  }

  /** `Completed` and `Failed` are never seen from outside, and a change under way is always to the next epoch,
      whose validator set is already there. */
  predicate StatusFits(s: Handler) {
    match s.status
    case Idle => true
    case Preparing(current, next) => current == s.epoch && next == s.epoch + 1
    case InProgress(new_, _, total) => new_ == s.epoch + 1 && total > 0 && new_ in s.sets
    case Completed(_, _) => false
    case Failed => false
  }

  predicate EpochInv(s: Handler, initial: Epoch, completions: nat) {
    && StatusFits(s)
    && s.epoch == initial + completions
    && forall e: Epoch | initial < e <= s.epoch :: e in s.sets
  }

  lemma {:induction false} EpochCountsCompletions(initial: Epoch, h: seq<Op>)
    ensures EpochInv(Run(initial, h), initial, Completions(initial, h))
  {
    if h != [] {
      EpochCountsCompletions(initial, h[..|h| - 1]);
    }
  }

  /** In every reachable state, completion is refused for the two reasons given and no other: the epoch manager's own
      check always passes. */
  lemma CompletionRefusedOnlyIfUnfinished(initial: Epoch, h: seq<Op>)
    ensures var s := Run(initial, h);
      && (Complete(s).1.Pass? <==> s.status.InProgress? && s.status.validatorsProcessed == s.status.totalValidators)
      && (Complete(s).1.Pass? ==>
            Complete(s).0.epoch == s.epoch + 1 && Complete(s).0.status == Idle && s.epoch + 1 in Complete(s).0.sets)
  {
    EpochCountsCompletions(initial, h);
  }

  lemma RunSnoc(initial: Epoch, h: seq<Op>, op: Op)
    ensures Run(initial, h + [op]) == Next(Run(initial, h), op)
  {
    assert (h + [op])[..|h|] == h;
  }

  lemma Restarted(initial: Epoch, h: seq<Op>) returns (g: seq<Op>)
    requires Run(initial, h).epoch < U64_MAX
    ensures g == h + [Cancels, Prepares(Run(initial, h).epoch + 1)]
    ensures Run(initial, g).status == Preparing(Run(initial, h).epoch, Run(initial, h).epoch + 1)
    ensures Run(initial, g).epoch == Run(initial, h).epoch
  {
    hide Run;
    RunSnoc(initial, h, Cancels);
    RunSnoc(initial, h + [Cancels], Prepares(Run(initial, h).epoch + 1));
    g := h + [Cancels] + [Prepares(Run(initial, h).epoch + 1)];
  }

  lemma Begun(initial: Epoch, h: seq<Op>, vs: ValidatorSet) returns (g: seq<Op>)
    requires Run(initial, h).status.Preparing? && |vs.validators| > 0
    ensures var s, t := Run(initial, h), Run(initial, g);
      && g == h + [Begins(vs), Progresses(|vs.validators|)]
      && t.status == InProgress(s.status.nextEpoch, |vs.validators|, |vs.validators|)
      && t.epoch == s.epoch && s.status.nextEpoch in t.sets && t.sets[s.status.nextEpoch] == vs
  {
    hide Run;
    RunSnoc(initial, h, Begins(vs));
    RunSnoc(initial, h + [Begins(vs)], Progresses(|vs.validators|));
    g := h + [Begins(vs)] + [Progresses(|vs.validators|)];
  }

  lemma Finished(initial: Epoch, h: seq<Op>, e: Epoch, n: nat)
    requires Run(initial, h).status == InProgress(e, n, n) && e == Run(initial, h).epoch + 1
    ensures var t := Run(initial, h + [Completes]);
      t.epoch == e && t.sets == Run(initial, h).sets && t.status == Idle
  {
    hide Run;
    RunSnoc(initial, h, Completes);
  }

  /** From every reachable state, whatever is half done, cancelling and four more calls lead to the next epoch under
      the given validators. */
  lemma NextEpochAlwaysReachable(initial: Epoch, h: seq<Op>, vs: ValidatorSet) returns (g: seq<Op>)
    requires Run(initial, h).epoch < U64_MAX && |vs.validators| > 0
    ensures var s, t := Run(initial, h), Run(initial, g);
      && h < g && |g| == |h| + 5
      && t.epoch == s.epoch + 1 && t.epoch in t.sets && t.sets[t.epoch] == vs && t.status == Idle
  {
    var k := Restarted(initial, h);
    g := Begun(initial, k, vs);
    Finished(initial, g, Run(initial, h).epoch + 1, |vs.validators|);
    g := g + [Completes];
  }

  // ---------------------------------------------------------------- where the validator sets come from

  /** Operation `i` of the run stores `vs` for epoch `e`. */
  predicate WritesSet(initial: Epoch, h: seq<Op>, i: int, e: Epoch, vs: ValidatorSet)
    requires 0 <= i < |h|
  {
    || h[i] == Sets(e, vs)
    || (h[i] == Begins(vs) && Begin(Run(initial, h[..i]), vs).1.Pass? && Run(initial, h[..i]).status.nextEpoch == e)
  }

  ghost predicate WrittenAfter(initial: Epoch, h: seq<Op>, i: int, e: Epoch) {
    exists j, vs :: 0 <= i < j < |h| && WritesSet(initial, h, j, e, vs)
  }

  /** The set of an epoch is the one written last, be it by `begin_reconfig` or by `set_validator_set`. */
  lemma {:induction false} SetIsLastWritten(initial: Epoch, h: seq<Op>, e: Epoch) returns (i: int)
    ensures e in Run(initial, h).sets ==>
      && 0 <= i < |h| && WritesSet(initial, h, i, e, Run(initial, h).sets[e])
      && forall j, vs | i < j < |h| :: !WritesSet(initial, h, j, e, vs)
    ensures e !in Run(initial, h).sets ==> forall j, vs | 0 <= j < |h| :: !WritesSet(initial, h, j, e, vs)
  {
    i := -1;
    if h != [] {
      var n := |h| - 1;
      var g := h[..n];
      i := SetIsLastWritten(initial, g, e);
      forall j, vs | 0 <= j < n ensures WritesSet(initial, h, j, e, vs) <==> WritesSet(initial, g, j, e, vs) {
        assert g[..j] == h[..j] && g[j] == h[j];
      }
      var s := Run(initial, g);
      if h[n].Sets? && h[n].epoch == e {
        i := n;
      } else if h[n].Begins? && Begin(s, h[n].vs).1.Pass? && s.status.nextEpoch == e {
        i := n;
      }
    }
  }

  /** An epoch's set is empty exactly when it was last written by `set_validator_set`, and with an empty one. */
  lemma {:induction false} SetIsEmptyIff(initial: Epoch, h: seq<Op>, e: Epoch)
    requires e in Run(initial, h).sets
    ensures |Run(initial, h).sets[e].validators| == 0 <==>
      exists i, vs | 0 <= i < |h| ::
        h[i] == Sets(e, vs) && |vs.validators| == 0 && !WrittenAfter(initial, h, i, e)
  {
    var i := SetIsLastWritten(initial, h, e);
    assert !WrittenAfter(initial, h, i, e);
    if j, vs :| 0 <= j < |h| && h[j] == Sets(e, vs) && |vs.validators| == 0 && !WrittenAfter(initial, h, j, e) {
      assert WritesSet(initial, h, j, e, vs) && WritesSet(initial, h, i, e, Run(initial, h).sets[e]);
    }
  }

  /** So an epoch can start without validators: nothing stops `set_validator_set` from replacing the set begun. */
  lemma EpochWithoutValidators(initial: Epoch, vs: ValidatorSet, empty: ValidatorSet)
    requires initial < U64_MAX && |vs.validators| > 0 && empty.validators == map[]
    ensures var e, n := initial + 1, |vs.validators|;
      var h := [Prepares(e), Begins(vs), Sets(e, empty), Progresses(n), Completes];
      var t := Run(initial, h);
      t.epoch == initial + 1 && t.epoch in t.sets && t.sets[t.epoch].validators == map[]
  {
    var e: Epoch := initial + 1;
    var h1, h2 := [Prepares(e)], [Prepares(e), Begins(vs)];
    var h3 := h2 + [Sets(e, empty)];
    var h4 := h3 + [Progresses(|vs.validators|)];
    assert h1 == [] + [Prepares(e)] && h2 == h1 + [Begins(vs)];
    RunSnoc(initial, [], Prepares(e));
    RunSnoc(initial, h1, Begins(vs));
    RunSnoc(initial, h2, Sets(e, empty));
    RunSnoc(initial, h3, Progresses(|vs.validators|));
    RunSnoc(initial, h4, Completes);
    assert h4 + [Completes] == [Prepares(e), Begins(vs), Sets(e, empty), Progresses(|vs.validators|), Completes];
  }

  /** One step either begins a change or carries on the one under way. */
  lemma BegunOrCarriedOn(s: Handler, op: Op)
    requires StatusFits(s) && Next(s, op).status.InProgress?
    ensures !s.status.InProgress? ==>
      && op.Begins? && Begin(s, op.vs).1.Pass?
      && Next(s, op).status.totalValidators == |op.vs.validators| && Next(s, op).status.newEpoch == s.epoch + 1
    ensures s.status.InProgress? ==>
      && op != Cancels && !CompletesNow(s, op)
      && Next(s, op).status.totalValidators == s.status.totalValidators
      && Next(s, op).status.newEpoch == s.status.newEpoch
  {
  }

  lemma StatusAlwaysFits(initial: Epoch, h: seq<Op>)
    ensures StatusFits(Run(initial, h))
  {
    EpochCountsCompletions(initial, h);
  }

  /** Nothing after operation `i` cancels or completes. */
  ghost predicate UntouchedSince(initial: Epoch, h: seq<Op>, i: int) {
    forall j | 0 <= i < j < |h| :: h[j] != Cancels && !CompletesNow(Run(initial, h[..j]), h[j])
  }

  lemma UntouchedLonger(initial: Epoch, h: seq<Op>, i: nat)
    requires i < |h| - 1 && UntouchedSince(initial, h[..|h| - 1], i)
    requires h[|h| - 1] != Cancels && !CompletesNow(Run(initial, h[..|h| - 1]), h[|h| - 1])
    ensures UntouchedSince(initial, h, i)
  {
    hide Run, CompletesNow;
    var g := h[..|h| - 1];
    forall j | i < j < |g| ensures h[j] != Cancels && !CompletesNow(Run(initial, h[..j]), h[j]) {
      assert g[..j] == h[..j] && g[j] == h[j];
    }
  }

  /** A change under way was begun by an accepted `begin_reconfig`, counts that call's validators, and has been neither
      cancelled nor completed since. */
  lemma {:induction false} ChangeWasBegun(initial: Epoch, h: seq<Op>) returns (i: int)
    requires Run(initial, h).status.InProgress?
    ensures 0 <= i < |h| && h[i].Begins? && Begin(Run(initial, h[..i]), h[i].vs).1.Pass?
    ensures Run(initial, h).status.totalValidators == |h[i].vs.validators|
    ensures Run(initial, h).status.newEpoch == Run(initial, h[..i]).epoch + 1
    ensures UntouchedSince(initial, h, i)
  {
    assert h != [];
    var n := |h| - 1;
    var g := h[..n];
    hide Next, Begin, CompletesNow, Run, StatusFits, UntouchedSince;
    RunLast(initial, h);
    StatusAlwaysFits(initial, g);
    BegunOrCarriedOn(Run(initial, g), h[n]);
    if Run(initial, g).status.InProgress? {
      i := ChangeWasBegun(initial, g);
      assert g[..i] == h[..i] && g[i] == h[i];
      UntouchedLonger(initial, h, i);
    } else {
      i := n;
      UntouchedLast(initial, h);
    }
  }

  lemma UntouchedLast(initial: Epoch, h: seq<Op>)
    ensures UntouchedSince(initial, h, |h| - 1)
  {
  }

  // ---------------------------------------------------------------- when a change is under way

  /** Operation `i` prepares the next epoch with no other change under way. */
  predicate PreparesNext(initial: Epoch, h: seq<Op>, i: int)
    requires 0 <= i < |h|
  {
    var s := Run(initial, h[..i]);
    h[i].Prepares? && h[i].epoch == s.epoch + 1 && !s.status.Preparing? && !s.status.InProgress?
  }

  /** Operation `i` ends whatever change is under way: it cancels, or completes with every validator processed. */
  predicate EndsChange(initial: Epoch, h: seq<Op>, i: int)
    requires 0 <= i < |h|
  {
    var status := Run(initial, h[..i]).status;
    h[i].Cancels? || (h[i].Completes? && status.InProgress? && status.validatorsProcessed == status.totalValidators)
  }

  ghost predicate EndedAfter(initial: Epoch, h: seq<Op>, i: int) {
    exists j :: 0 <= i < j < |h| && EndsChange(initial, h, j)
  }

  function TargetOf(status: ReconfigStatus): Epoch
    requires status.IsInProgress()
  {
    if status.Preparing? then status.nextEpoch else status.newEpoch
  }

  lemma UnderWayStep(s: Handler, op: Op)
    requires StatusFits(s)
    ensures var t := Next(s, op);
      var ends := op.Cancels? || (op.Completes? && s.status.InProgress?
                                  && s.status.validatorsProcessed == s.status.totalValidators);
      var prepares := op.Prepares? && op.epoch == s.epoch + 1 && !s.status.IsInProgress();
      && (prepares ==> t.status == Preparing(s.epoch, op.epoch))
      && (ends ==> t.status == Idle)
      && (!ends && s.status.IsInProgress() ==>
            t.status.IsInProgress() && TargetOf(t.status) == TargetOf(s.status))
      && (!prepares && !s.status.IsInProgress() ==> !t.status.IsInProgress())
  {
  }

  /** A change is under way exactly if the next epoch was prepared, with no other change under way, and nothing has
      cancelled or completed it since; whatever else is asked in between neither ends nor redirects it. */
  lemma {:induction false} ChangeUnderWay(initial: Epoch, h: seq<Op>) returns (i: int)
    ensures var status := Run(initial, h).status;
      status.IsInProgress() ==>
        && 0 <= i < |h| && PreparesNext(initial, h, i) && !EndedAfter(initial, h, i)
        && TargetOf(status) == h[i].epoch
    ensures !Run(initial, h).status.IsInProgress() ==>
      forall j | 0 <= j < |h| && PreparesNext(initial, h, j) :: EndedAfter(initial, h, j)
  {
    i := -1;
    if h != [] {
      var n := |h| - 1;
      var g := h[..n];
      i := ChangeUnderWay(initial, g);
      StatusAlwaysFits(initial, g);
      UnderWayStep(Run(initial, g), h[n]);
      hide Next, Run;
      forall j | 0 <= j < n
        ensures PreparesNext(initial, h, j) <==> PreparesNext(initial, g, j)
        ensures EndsChange(initial, h, j) <==> EndsChange(initial, g, j)
      {
        assert g[..j] == h[..j] && g[j] == h[j];
      }
      RunLast(initial, h);
      if PreparesNext(initial, h, n) {
        i := n;
      }
      forall j | 0 <= j < n && (EndedAfter(initial, g, j) || EndsChange(initial, h, n))
        ensures EndedAfter(initial, h, j)
      {
        if EndedAfter(initial, g, j) {
          var m :| j < m < n && EndsChange(initial, g, m);
          assert EndsChange(initial, h, m);
        }
      }
    }
  }

  lemma RunLast(initial: Epoch, h: seq<Op>)
    requires h != []
    ensures Run(initial, h) == Next(Run(initial, h[..|h| - 1]), h[|h| - 1])
  {
  }

  /** So preparing is granted, after any run, exactly for the next epoch and with no change under way. */
  lemma {:induction false} PrepareSucceedsIff(initial: Epoch, h: seq<Op>, e: Epoch)
    requires !PrepareOverflows(Run(initial, h))
    ensures var underWay := exists i :: 0 <= i < |h| && PreparesNext(initial, h, i) && !EndedAfter(initial, h, i);
      var r := Prepare(Run(initial, h), e).1;
      && (r == Fail(AlreadyInProgress) <==> underWay)
      && (r == Fail(NotNextEpoch) <==> !underWay && e != initial + Completions(initial, h) + 1)
      && (r.Pass? <==> !underWay && e == initial + Completions(initial, h) + 1)
  {
    var i := ChangeUnderWay(initial, h);
    EpochCountsCompletions(initial, h);
    if Run(initial, h).status.IsInProgress() {
      assert PreparesNext(initial, h, i) && !EndedAfter(initial, h, i);
    }
  }

  /** How far a change is said to be is what was last reported since it was begun, nothing before the first report. */
  ghost predicate IsLastReport(initial: Epoch, h: seq<Op>, i: int, m: int, processed: nat) {
    && 0 <= i <= m < |h| && h[i].Begins? && Begin(Run(initial, h[..i]), h[i].vs).1.Pass?
    && (forall j | m < j < |h| :: !h[j].Progresses?)
    && (if m == i then processed == 0 else h[m] == Progresses(processed))
  }

  lemma {:induction false} ProcessedIsLastReported(initial: Epoch, h: seq<Op>) returns (i: int, m: int)
    requires Run(initial, h).status.InProgress?
    ensures IsLastReport(initial, h, i, m, Run(initial, h).status.validatorsProcessed)
  {
    var n := |h| - 1;
    var g := h[..n];
    StatusAlwaysFits(initial, g);
    ReportStep(Run(initial, g), h[n]);
    hide Next, Begin;
    RunLast(initial, h);
    if Run(initial, g).status.InProgress? {
      i, m := ProcessedIsLastReported(initial, g);
      assert g[..i] == h[..i];
      if h[n].Progresses? {
        m := n;
      }
    } else {
      i, m := n, n;
    }
  }

  lemma ReportStep(s: Handler, op: Op)
    requires StatusFits(s) && Next(s, op).status.InProgress?
    ensures s.status.InProgress? ==>
      Next(s, op).status.validatorsProcessed == if op.Progresses? then op.processed else s.status.validatorsProcessed
    ensures !s.status.InProgress? ==>
      op.Begins? && Begin(s, op.vs).1.Pass? && Next(s, op).status.validatorsProcessed == 0
  {
  }

  // ---------------------------------------------------------------- pending events

  function Added(h: seq<Op>): seq<ReconfigEvent> {
    if h == [] then [] else
      var n := |h| - 1; Added(h[..n]) + if h[n].AddsEvent? then [h[n].event] else []
  }

  predicate DropsEvents(op: Op) {
    op.Cancels? || op.TakesEvents?
  }

  /** The pending events are those added since they were last taken or dropped by a cancel, in order, none lost. */
  lemma {:induction false} PendingEventsHistory(initial: Epoch, h: seq<Op>) returns (c: nat)
    ensures c <= |h| && (c > 0 ==> DropsEvents(h[c - 1])) && forall j | c <= j < |h| :: !DropsEvents(h[j])
    ensures Run(initial, h).events == Added(h[c..])
  {
    c := 0;
    if h != [] {
      var n := |h| - 1;
      c := PendingEventsHistory(initial, h[..n]);
      EventsStep(Run(initial, h[..n]), h[n]);
      if DropsEvents(h[n]) {
        c := n + 1;
      } else {
        assert h[c..][..n - c] == h[..n][c..];
      }
    }
  }

  lemma EventsStep(s: Handler, op: Op)
    ensures Next(s, op).events ==
      if DropsEvents(op) then [] else s.events + if op.AddsEvent? then [op.event] else []
  {
  }
}

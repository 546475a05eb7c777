/** State synchronisation: batched requests, a buffer of received blocks, and in-order delivery. */
module StateSyncs {
  import opened Types
  import opened Aggregation

  datatype SyncBlock = SyncBlock(round: Round, payload: nat)

  datatype SyncStatus =
    | Idle
    | InProgress(targetRound: Round, reachedRound: Round, blocksReceived: nat)
    | Completed(blocksSynced: nat)

  datatype SyncRequest = SyncRequest(targetRound: Round, startRound: Round, epoch: Epoch)

  datatype SyncResponse = SyncResponse(blocks: seq<SyncBlock>, epoch: Epoch, isFinal: bool)

  datatype SyncError = AlreadyInProgress | NoSyncInProgress | NotSequential

  datatype SyncState = SyncState(
    status: SyncStatus,
    pending: seq<SyncRequest>,
    received: map<Round, SyncBlock>,
    highestKnown: Option<Round>,
    currentRound: Round,
    maxBatchSize: u64)

  // ---------------------------------------------------------------- the operations, as functions

  function StartSync(s: SyncState, target: Round, epoch: Epoch): (SyncState, Outcome<SyncError>) {
    if s.status.InProgress? then (s, Fail(AlreadyInProgress))
    else if target <= s.currentRound then (s.(status := Completed(0)), Pass)
    else
      var batch := Min(target - s.currentRound, s.maxBatchSize);
      (s.(status := InProgress(target, s.currentRound, 0),
          pending := s.pending + [SyncRequest(s.currentRound + batch, s.currentRound + 1, epoch)]), Pass)
  }

  predicate IsSequential(blocks: seq<SyncBlock>) {
    forall i | 0 <= i < |blocks| - 1 :: blocks[i + 1].round == blocks[i].round + 1
  }

  /** The unchecked `current_round + 1` overflows on reaching a block of the last round that is not the last block. */
  predicate SequenceCheckPanics(blocks: seq<SyncBlock>) {
    exists i | 0 <= i < |blocks| - 1 :: blocks[i].round == U64_MAX && IsSequential(blocks[..i + 1])
  }

  function Buffer(received: map<Round, SyncBlock>, blocks: seq<SyncBlock>): map<Round, SyncBlock> {
    if blocks == [] then received
    else var b := blocks[|blocks| - 1]; Buffer(received, blocks[..|blocks| - 1])[b.round := b]
  }

  predicate IsHighest(rounds: set<Round>, r: Round) {
    r in rounds && forall x | x in rounds :: x <= r
  }

  lemma {:induction false} HighestExists(rounds: set<Round>) returns (r: Round)
    requires rounds != {}
    ensures IsHighest(rounds, r)
  {
    var x :| x in rounds;
    var rest := rounds - {x};
    if rest == {} {
      assert rounds == {x};
      r := x;
    } else {
      var y := HighestExists(rest);
      r := if x < y then y else x;
      assert rounds == rest + {x};
    }
  }

  ghost function Highest(rounds: set<Round>): (r: Round)
    requires rounds != {}
    ensures IsHighest(rounds, r)
  {
    assert exists r :: IsHighest(rounds, r) by {
      var r := HighestExists(rounds);
    }
    var r :| IsHighest(rounds, r);
    r
  }

  /** `highest + max_batch_size` is unchecked; it is computed only when another batch is asked for. */
  ghost predicate NextBatchOverflows(s: SyncState, response: SyncResponse) {
    && s.status.InProgress? && IsSequential(response.blocks) && response.isFinal
    && var rounds := Buffer(s.received, response.blocks).Keys;
       rounds != {} && Highest(rounds) < s.status.targetRound && Highest(rounds) + s.maxBatchSize > U64_MAX
  }

  /** The epoch of a response is passed on to the next request and never compared with anything. */
  ghost function AddResponse(s: SyncState, response: SyncResponse): (SyncState, Outcome<SyncError>)
    requires !NextBatchOverflows(s, response)
  {
    if !s.status.InProgress? then (s, Fail(NoSyncInProgress))
    else if !IsSequential(response.blocks) then (s, Fail(NotSequential))
    else
      var target := s.status.targetRound;
      var t := s.(received := Buffer(s.received, response.blocks));
      if t.received.Keys == {} then (t, Pass)
      else
        var highest := Highest(t.received.Keys);
        if highest >= target then (t.(status := Completed(|t.received|)), Pass)
        else
          var u := t.(status := InProgress(target, highest, |t.received|));
          if !response.isFinal then (u, Pass)
          else (u.(pending := u.pending +
                 [SyncRequest(Min(target, highest + s.maxBatchSize), highest + 1, response.epoch)]), Pass)
  }

  /** Each block one round past the one before it, all the way from the first. */
  predicate ConsecutiveRounds(blocks: seq<SyncBlock>) {
    forall i | 0 <= i < |blocks| :: blocks[i].round == blocks[0].round + i
  }

  lemma {:induction false} SequentialIff(blocks: seq<SyncBlock>)
    ensures IsSequential(blocks) <==> ConsecutiveRounds(blocks)
  {
    if blocks != [] {
      var n := |blocks| - 1;
      var front := blocks[..n];
      SequentialIff(front);
      if IsSequential(blocks) {
        forall i | 0 <= i < |front| - 1 ensures front[i + 1].round == front[i].round + 1 {
          assert blocks[i + 1].round == blocks[i].round + 1;
        }
        forall i | 0 <= i < |blocks| ensures blocks[i].round == blocks[0].round + i {
          if i < n {
            assert front[i].round == front[0].round + i;
          } else if n > 0 {
            assert front[n - 1].round == front[0].round + n - 1 && blocks[n - 1 + 1].round == blocks[n - 1].round + 1;
          }
        }
      }
    }
  }

  /** A response is taken exactly during a sync and if its rounds are consecutive; otherwise nothing at all changes. */
  lemma ResponseAnswers(s: SyncState, response: SyncResponse)
    requires !NextBatchOverflows(s, response)
    ensures var (t, r) := AddResponse(s, response);
      && (r == Fail(NoSyncInProgress) <==> !s.status.InProgress?)
      && (r == Fail(NotSequential) <==> s.status.InProgress? && !ConsecutiveRounds(response.blocks))
      && (r.Pass? <==> s.status.InProgress? && ConsecutiveRounds(response.blocks))
      && (!r.Pass? ==> t == s)
      && (r.Pass? ==> t.received == Buffer(s.received, response.blocks))
  {
    SequentialIff(response.blocks);
  }

  /** A response for another epoch gets the same answer and leaves the same status and buffer. */
  lemma ResponseEpochIgnored(s: SyncState, response: SyncResponse, epoch: Epoch)
    requires !NextBatchOverflows(s, response)
    ensures !NextBatchOverflows(s, response.(epoch := epoch))
    ensures var (t, r) := AddResponse(s, response);
      var (u, q) := AddResponse(s, response.(epoch := epoch));
      q == r && u.status == t.status && u.received == t.received && |u.pending| == |t.pending|
  {
  }

  /** How many rounds after `current` are buffered without a gap. */
  function ReadyCount(received: map<Round, SyncBlock>, current: Round): (n: nat)
    ensures current + n <= U64_MAX
    decreases U64_MAX - current
  {
    if current < U64_MAX && current + 1 in received then 1 + ReadyCount(received, current + 1) else 0
  }

  lemma {:induction false} ReadyRoundsBuffered(received: map<Round, SyncBlock>, current: Round, r: Round)
    requires current < r <= current + ReadyCount(received, current)
    ensures r in received
    decreases U64_MAX - current
  {
    if r != current + 1 {
      ReadyRoundsBuffered(received, current + 1, r);
    }
  }

  lemma {:induction false} NextRoundMissing(received: map<Round, SyncBlock>, current: Round)
    ensures current + ReadyCount(received, current) + 1 !in received
    decreases U64_MAX - current
  {
    if current < U64_MAX && current + 1 in received {
      NextRoundMissing(received, current + 1);
    }
  }

  /** The first `n` ready blocks, in round order. */
  function ReadySlice(received: map<Round, SyncBlock>, current: Round, n: nat): (ready: seq<SyncBlock>)
    requires n <= ReadyCount(received, current)
    ensures |ready| == n
  {
    if n == 0 then [] else
      ReadyRoundsBuffered(received, current, current + n);
      ReadySlice(received, current, n - 1) + [received[current + n]]
  }

  /** What stays buffered once the rounds after `start` up to `reached` are gone. */
  function Beyond(received: map<Round, SyncBlock>, start: Round, reached: Round): map<Round, SyncBlock>
    decreases reached
  {
    if reached <= start then received else Beyond(received, start, reached - 1) - {reached}
  }

  lemma {:induction false} BeyondContents(received: map<Round, SyncBlock>, start: Round, reached: Round, r: Round)
    ensures r in Beyond(received, start, reached) <==> r in received && !(start < r <= reached)
    ensures r in Beyond(received, start, reached) ==> Beyond(received, start, reached)[r] == received[r]
    decreases reached
  {
    if reached > start {
      BeyondContents(received, start, reached - 1, r);
    }
  }

  lemma ShrinksByOne(received: map<Round, SyncBlock>, round: Round)
    requires round in received
    ensures |received - {round}| == |received| - 1
  {
    assert (received - {round}).Keys == received.Keys - {round};
    assert |received - {round}| == |(received - {round}).Keys|;
  }

  function Deliver(s: SyncState): (SyncState, seq<SyncBlock>) {
    var n := ReadyCount(s.received, s.currentRound);
    (s.(currentRound := s.currentRound + n,
        received := Beyond(s.received, s.currentRound, s.currentRound + n)),
     ReadySlice(s.received, s.currentRound, n))
  }

  /** The unchecked `next_round += 1`: every round up to the last one has arrived. */
  predicate DeliverOverflows(s: SyncState) {
    s.currentRound + ReadyCount(s.received, s.currentRound) == U64_MAX
  }

  /** Delivering one more round. */
  lemma {:induction false} DeliverStep(buffer: map<Round, SyncBlock>, start: Round, current: Round)
    requires start <= current < U64_MAX && current + 1 in buffer
    requires ReadyCount(buffer, start) - ReadyCount(buffer, current) == current - start
    ensures ReadyCount(buffer, start) - ReadyCount(buffer, current + 1) == current + 1 - start
    ensures ReadySlice(buffer, start, current + 1 - start) ==
            ReadySlice(buffer, start, current - start) + [buffer[current + 1]]
    ensures current + 1 in Beyond(buffer, start, current)
    ensures Beyond(buffer, start, current)[current + 1] == buffer[current + 1]
    ensures Beyond(buffer, start, current + 1) == Beyond(buffer, start, current) - {current + 1}
  {
    BeyondContents(buffer, start, current, current + 1);
  }

  lemma DeliverNothing(buffer: map<Round, SyncBlock>, start: Round)
    ensures ReadySlice(buffer, start, 0) == [] && Beyond(buffer, start, start) == buffer
  {
  }

  function Cancel(s: SyncState): SyncState {
    s.(status := Idle, pending := [], received := map[])
  }

  function Reset(s: SyncState): SyncState {
    Cancel(s).(highestKnown := None)
  }

  // ---------------------------------------------------------------- the object

  class StateSync {
    var status: SyncStatus
    var pendingRequests: seq<SyncRequest>
    var receivedBlocks: map<Round, SyncBlock>
    var highestKnownRound: Option<Round>
    var currentRound: Round
    const maxBatchSize: u64

    constructor (maxBatchSize: u64, currentRound: Round)
      ensures State() == SyncState(Idle, [], map[], None, currentRound, maxBatchSize)
    {
      status, pendingRequests, receivedBlocks, highestKnownRound := Idle, [], map[], None;
      this.currentRound := currentRound;
      this.maxBatchSize := maxBatchSize;
    }

    function State(): SyncState
      reads this
    {
      SyncState(status, pendingRequests, receivedBlocks, highestKnownRound, currentRound, maxBatchSize)
    }

    method BeginSync(target: Round, epoch: Epoch) returns (r: Outcome<SyncError>)
      modifies this
      ensures (State(), r) == StartSync(old(State()), target, epoch)
    {
      if status.InProgress? {
        return Fail(AlreadyInProgress);
      }
      if target <= currentRound {
        status := Completed(0);
        return Pass;
      }
      var batch := Min(SaturatingSub(target, currentRound), maxBatchSize);
      status := InProgress(target, currentRound, 0);
      pendingRequests := pendingRequests + [SyncRequest(currentRound + batch, currentRound + 1, epoch)];
      return Pass;
    }

    method VerifySequential(blocks: seq<SyncBlock>) returns (ok: bool)
      requires !SequenceCheckPanics(blocks)
      ensures ok <==> IsSequential(blocks)
    {
      var i := 0;
      while i + 1 < |blocks|
        invariant 0 <= i && (blocks != [] ==> i < |blocks|)
        invariant blocks != [] ==> IsSequential(blocks[..i + 1])
      {
        assert blocks[i].round < U64_MAX;
        if blocks[i + 1].round != blocks[i].round + 1 {
          return false;
        }
        i := i + 1;
      }
      assert blocks != [] ==> blocks[..i + 1] == blocks;
      return true;
    }

    method HighestReceived() returns (highest: Option<Round>)
      ensures highest == if receivedBlocks.Keys == {} then None else Some(Highest(receivedBlocks.Keys))
    {
      var order := Enumerate(receivedBlocks.Keys);
      highest := None;
      for i := 0 to |order|
        invariant highest.None? <==> i == 0
        invariant highest.Some? ==> highest.value in order[..i] && forall r | r in order[..i] :: r <= highest.value
      {
        assert order[..i + 1] == order[..i] + [order[i]];
        if highest.None? || highest.value < order[i] {
          highest := Some(order[i]);
        }
      }
      assert order[..|order|] == order;
    }

    method AddSyncResponse(response: SyncResponse) returns (r: Outcome<SyncError>)
      requires !(status.InProgress? && SequenceCheckPanics(response.blocks))
      requires !NextBatchOverflows(State(), response)
      modifies this
      ensures (State(), r) == AddResponse(old(State()), response)
    {
      if !status.InProgress? {
        return Fail(NoSyncInProgress);
      }
      var target := status.targetRound;
      var sequential := VerifySequential(response.blocks);
      if !sequential {
        return Fail(NotSequential);
      }
      for i := 0 to |response.blocks|
        modifies this`receivedBlocks
        invariant receivedBlocks == Buffer(old(receivedBlocks), response.blocks[..i])
      {
        var block := response.blocks[i];
        receivedBlocks := receivedBlocks[block.round := block];
        assert response.blocks[..i + 1][..i] == response.blocks[..i];
      }
      assert response.blocks[..|response.blocks|] == response.blocks;
      var highest := HighestReceived();
      if highest.Some? {
        if highest.value >= target {
          status := Completed(|receivedBlocks|);
        } else {
          status := InProgress(target, highest.value, |receivedBlocks|);
          if response.isFinal {
            pendingRequests := pendingRequests +
              [SyncRequest(Min(target, highest.value + maxBatchSize), highest.value + 1, response.epoch)];
          }
        }
      }
      return Pass;
    }

    /** `Vec::pop`: the newest request first. */
    method TakeNextRequest() returns (request: Option<SyncRequest>)
      modifies this`pendingRequests
      ensures if old(pendingRequests) == [] then request == None && pendingRequests == []
              else request.Some? && old(pendingRequests) == pendingRequests + [request.value]
    {
      if |pendingRequests| == 0 {
        return None;
      }
      request := Some(pendingRequests[|pendingRequests| - 1]);
      pendingRequests := pendingRequests[..|pendingRequests| - 1];
    }

    /** `Deliver`, field by field. */
    method ReadyBlocks() returns (ready: seq<SyncBlock>)
      requires !DeliverOverflows(State())
      modifies this`receivedBlocks, this`currentRound
      ensures currentRound == old(currentRound) + ReadyCount(old(receivedBlocks), old(currentRound))
      ensures ready == ReadySlice(old(receivedBlocks), old(currentRound), currentRound - old(currentRound))
      ensures receivedBlocks == Beyond(old(receivedBlocks), old(currentRound), currentRound)
    {
      hide ReadySlice, Beyond;
      ready := [];
      ghost var start, buffer := currentRound, receivedBlocks;
      DeliverNothing(buffer, start);
      var nextRound := currentRound + 1;
      while nextRound in receivedBlocks
        invariant start <= currentRound <= start + ReadyCount(buffer, start) < U64_MAX
        invariant nextRound == currentRound + 1
        invariant ReadyCount(buffer, start) - ReadyCount(buffer, currentRound) == currentRound - start
        invariant ready == ReadySlice(buffer, start, currentRound - start)
        invariant receivedBlocks == Beyond(buffer, start, currentRound)
        decreases |receivedBlocks|
      {
        BeyondContents(buffer, start, currentRound, nextRound);
        DeliverStep(buffer, start, currentRound);
        ready := ready + [receivedBlocks[nextRound]];
        ShrinksByOne(receivedBlocks, nextRound);
        receivedBlocks := receivedBlocks - {nextRound};
        currentRound := nextRound;
        nextRound := nextRound + 1;
      }
      BeyondContents(buffer, start, currentRound, nextRound);
    }

    method UpdateHighestKnownRound(round: Round)
      modifies this`highestKnownRound
      ensures var before := old(highestKnownRound);
        highestKnownRound == Some(if before.Some? then Max(before.value, round) else round)
    {
      highestKnownRound := Some(if highestKnownRound.Some? then Max(highestKnownRound.value, round) else round);
    }

    method CancelSync()
      modifies this
      ensures State() == Cancel(old(State()))
    {
      status, pendingRequests, receivedBlocks := Idle, [], map[];
    }

    method ResetSync()
      modifies this
      ensures State() == Reset(old(State()))
    {
      status, pendingRequests, receivedBlocks, highestKnownRound := Idle, [], map[], None;
    }
  }
}

/** What holds over every run of state sync: in-order delivery, and completion of a well-answered sync. */
module StateSyncRuns {
  import opened Types
  import opened StateSyncs

  // ---------------------------------------------------------------- in-order, exactly-once delivery

  datatype Event =
    | Starts(target: Round, epoch: Epoch)
    | Receives(response: SyncResponse)
    | SendsRequest
    | DeliversReady
    | HearsOf(round: Round)
    | Cancels
    | Resets

  /** The state and everything `ready_blocks` has handed out so far. A step that would overflow ends the run. */
  datatype Trace = Trace(s: SyncState, delivered: seq<SyncBlock>)

  ghost function Next(t: Trace, e: Event): Trace {
    match e
    case Starts(target, epoch) => t.(s := StartSync(t.s, target, epoch).0)
    case Receives(r) => if NextBatchOverflows(t.s, r) then t else t.(s := AddResponse(t.s, r).0)
    case SendsRequest => if t.s.pending == [] then t else t.(s := t.s.(pending := t.s.pending[..|t.s.pending| - 1]))
    case DeliversReady =>
      if DeliverOverflows(t.s) then t else var (s, ready) := Deliver(t.s); Trace(s, t.delivered + ready)
    case HearsOf(r) =>
      t.(s := t.s.(highestKnown := Some(if t.s.highestKnown.Some? then Max(t.s.highestKnown.value, r) else r)))
    case Cancels => t.(s := Cancel(t.s))
    case Resets => t.(s := Reset(t.s))
  }

  ghost function Run(start: SyncState, h: seq<Event>): Trace {
    if h == [] then Trace(start, []) else Next(Run(start, h[..|h| - 1]), h[|h| - 1])
  }

  ghost predicate KeyedByRound(received: map<Round, SyncBlock>) {
    forall r | r in received :: received[r].round == r
  }

  /** Event `i` is a response taken in: a sync was in progress and the response's rounds are consecutive. */
  ghost predicate TakenIn(start: SyncState, h: seq<Event>, i: int)
    requires 0 <= i < |h|
  {
    && h[i].Receives? && ConsecutiveRounds(h[i].response.blocks)
    && Run(start, h[..i]).s.status.InProgress?
  }

  ghost predicate CameInResponse(start: SyncState, h: seq<Event>, b: SyncBlock) {
    exists i :: 0 <= i < |h| && TakenIn(start, h, i) && b in h[i].response.blocks
  }

  predicate Forgets(e: Event) {
    e.Cancels? || e.Resets?
  }

  /** And nothing was cancelled or reset since. */
  ghost predicate CameInSinceCancel(start: SyncState, h: seq<Event>, b: SyncBlock) {
    exists i :: 0 <= i < |h| && TakenIn(start, h, i) && b in h[i].response.blocks
      && forall j | i < j < |h| :: !Forgets(h[j])
  }

  /** The delivered blocks carry the rounds right after `initial`, one each, up to `current`. */
  predicate Consecutive(delivered: seq<SyncBlock>, initial: Round, current: Round) {
    current == initial + |delivered| && forall i | 0 <= i < |delivered| :: delivered[i].round == initial + 1 + i
  }

  lemma {:induction false} BufferContents(received: map<Round, SyncBlock>, blocks: seq<SyncBlock>)
    requires KeyedByRound(received)
    ensures KeyedByRound(Buffer(received, blocks))
    ensures forall r | r in Buffer(received, blocks) ::
      (r in received && Buffer(received, blocks)[r] == received[r]) || Buffer(received, blocks)[r] in blocks
  {
    if blocks != [] {
      BufferContents(received, blocks[..|blocks| - 1]);
    }
  }

  lemma {:induction false} SliceContents(received: map<Round, SyncBlock>, current: Round, n: nat)
    requires KeyedByRound(received) && n <= ReadyCount(received, current)
    ensures forall i | 0 <= i < n ::
      var b := ReadySlice(received, current, n)[i];
      b.round == current + 1 + i && b.round in received && received[b.round] == b
  {
    if n > 0 {
      SliceContents(received, current, n - 1);
      ReadyRoundsBuffered(received, current, current + n);
    }
  }

  ghost predicate DeliveryInv(start: SyncState, t: Trace, h: seq<Event>) {
    && KeyedByRound(t.s.received)
    && Consecutive(t.delivered, start.currentRound, t.s.currentRound)
    && (forall r | r in t.s.received :: CameInSinceCancel(start, h, t.s.received[r]))
    && (forall b | b in t.delivered :: CameInResponse(start, h, b))
  }

  lemma CameInLonger(start: SyncState, h: seq<Event>, e: Event, b: SyncBlock)
    requires CameInResponse(start, h, b)
    ensures CameInResponse(start, h + [e], b)
  {
    var i :| 0 <= i < |h| && TakenIn(start, h, i) && b in h[i].response.blocks;
    assert (h + [e])[i] == h[i] && (h + [e])[..i] == h[..i];
    assert TakenIn(start, h + [e], i);
  }

  lemma CameInSinceLonger(start: SyncState, h: seq<Event>, e: Event, b: SyncBlock)
    requires CameInSinceCancel(start, h, b) && !Forgets(e)
    ensures CameInSinceCancel(start, h + [e], b)
  {
    var i :| 0 <= i < |h| && TakenIn(start, h, i) && b in h[i].response.blocks
      && forall j | i < j < |h| :: !Forgets(h[j]);
    assert (h + [e])[i] == h[i] && (h + [e])[..i] == h[..i];
    assert TakenIn(start, h + [e], i);
  }

  /** A step that only removes from the buffer, or leaves it alone, and delivers nothing. */
  lemma {:induction false} InvShrinks(start: SyncState, t: Trace, u: Trace, h: seq<Event>, e: Event)
    requires DeliveryInv(start, t, h)
    requires u.delivered == t.delivered && u.s.currentRound == t.s.currentRound
    requires forall r | r in u.s.received :: r in t.s.received && u.s.received[r] == t.s.received[r]
    requires Forgets(e) ==> u.s.received == map[]
    ensures DeliveryInv(start, u, h + [e])
  {
    hide TakenIn, CameInResponse, CameInSinceCancel;
    forall b | CameInResponse(start, h, b) ensures CameInResponse(start, h + [e], b) {
      CameInLonger(start, h, e, b);
    }
    forall r | r in u.s.received ensures CameInSinceCancel(start, h + [e], u.s.received[r]) {
      CameInSinceLonger(start, h, e, u.s.received[r]);
    }
  }

  /** Taking in a response buffers its blocks. */
  lemma {:induction false} InvReceives(start: SyncState, t: Trace, h: seq<Event>, e: Event)
    requires t == Run(start, h) && DeliveryInv(start, t, h) && e.Receives?
    requires !NextBatchOverflows(t.s, e.response) && AddResponse(t.s, e.response).1.Pass?
    ensures DeliveryInv(start, Next(t, e), h + [e])
  {
    hide Run, CameInResponse, CameInSinceCancel, AddResponse, Buffer;
    var u := Next(t, e);
    ResponseAnswers(t.s, e.response);
    ResponseKeepsRound(t.s, e.response);
    BufferContents(t.s.received, e.response.blocks);
    forall b | CameInResponse(start, h, b) ensures CameInResponse(start, h + [e], b) {
      CameInLonger(start, h, e, b);
    }
    forall r | r in u.s.received ensures CameInSinceCancel(start, h + [e], u.s.received[r]) {
      if u.s.received[r] in e.response.blocks {
        JustCameIn(start, h, e, u.s.received[r]);
      } else {
        CameInSinceLonger(start, h, e, u.s.received[r]);
      }
    }
  }

  lemma JustCameIn(start: SyncState, h: seq<Event>, e: Event, b: SyncBlock)
    requires e.Receives? && b in e.response.blocks
    requires Run(start, h).s.status.InProgress? && ConsecutiveRounds(e.response.blocks)
    ensures CameInSinceCancel(start, h + [e], b)
  {
    assert (h + [e])[|h|] == e && (h + [e])[..|h|] == h;
    assert TakenIn(start, h + [e], |h|);
  }

  lemma ResponseKeepsRound(s: SyncState, response: SyncResponse)
    requires !NextBatchOverflows(s, response)
    ensures AddResponse(s, response).0.currentRound == s.currentRound
  {
  }

  lemma {:induction false} InvDelivers(start: SyncState, t: Trace, h: seq<Event>)
    requires DeliveryInv(start, t, h)
    ensures DeliveryInv(start, Next(t, DeliversReady), h + [DeliversReady])
  {
    hide TakenIn;
    var u := Next(t, DeliversReady);
    var n := ReadyCount(t.s.received, t.s.currentRound);
    SliceContents(t.s.received, t.s.currentRound, n);
    forall r | r in u.s.received ensures r in t.s.received && u.s.received[r] == t.s.received[r] {
      BeyondContents(t.s.received, t.s.currentRound, t.s.currentRound + n, r);
    }
    forall b | CameInResponse(start, h, b) ensures CameInResponse(start, h + [DeliversReady], b) {
      CameInLonger(start, h, DeliversReady, b);
    }
    forall r | r in u.s.received ensures CameInSinceCancel(start, h + [DeliversReady], u.s.received[r]) {
      CameInSinceLonger(start, h, DeliversReady, u.s.received[r]);
    }
    forall b | b in u.delivered ensures CameInResponse(start, h, b) {
      if b !in t.delivered {
        var i :| 0 <= i < n && ReadySlice(t.s.received, t.s.currentRound, n)[i] == b;
        assert CameInSinceCancel(start, h, t.s.received[b.round]);
      }
    }
  }

  /** Whatever comes in, in whatever order and however often, blocks go out in round order, none skipped and none twice.
      Every one of them came in a response of consecutive rounds during a sync, and what is still buffered came in since
      the last cancel or reset. */
  lemma {:induction false} DeliveredInOrder(start: SyncState, h: seq<Event>)
    requires start.received == map[]
    ensures DeliveryInv(start, Run(start, h), h)
  {
    if h != [] {
      hide DeliveryInv, Run, AddResponse, Deliver, Next;
      var g, e := h[..|h| - 1], h[|h| - 1];
      DeliveredInOrder(start, g);
      assert h == g + [e];
      DeliveryStep(start, g, e);
      RunSnoc(start, g, e);
    } else {
      assert Run(start, h) == Trace(start, []);
    }
  }

  lemma RunSnoc(start: SyncState, h: seq<Event>, e: Event)
    ensures Run(start, h + [e]) == Next(Run(start, h), e)
  {
    assert (h + [e])[..|h|] == h;
  }

  lemma {:induction false} DeliveryStep(start: SyncState, h: seq<Event>, e: Event)
    requires DeliveryInv(start, Run(start, h), h)
    ensures DeliveryInv(start, Next(Run(start, h), e), h + [e])
  {
    hide DeliveryInv, Run, AddResponse, Deliver;
    var t := Run(start, h);
    match e {
      case Receives(response) =>
        if !NextBatchOverflows(t.s, response) && AddResponse(t.s, response).1.Pass? {
          InvReceives(start, t, h, e);
        } else {
          if !NextBatchOverflows(t.s, response) {
            ResponseAnswers(t.s, response);
          }
          InvShrinks(start, t, Next(t, e), h, e);
        }
      case DeliversReady => InvDelivers(start, t, h);
      case _ => InvShrinks(start, t, Next(t, e), h, e);
    }
  }

  // ---------------------------------------------------------------- what `Completed` does and does not promise

  /** Ready blocks reach the target exactly when no round up to it is missing from the buffer. */
  lemma {:induction false} ReachesTargetIffNoGap(received: map<Round, SyncBlock>, current: Round, target: Round)
    requires current <= target
    ensures current + ReadyCount(received, current) >= target <==> forall r | current < r <= target :: r in received
  {
    forall r | current < r <= current + ReadyCount(received, current) ensures r in received {
      ReadyRoundsBuffered(received, current, r);
    }
    NextRoundMissing(received, current);
  }

  lemma {:induction false} BufferedRounds(received: map<Round, SyncBlock>, blocks: seq<SyncBlock>, r: Round)
    ensures r in Buffer(received, blocks) <==> r in received || exists b :: b in blocks && b.round == r
  {
    if blocks != [] {
      var front, last := blocks[..|blocks| - 1], blocks[|blocks| - 1];
      BufferedRounds(received, front, r);
      assert blocks == front + [last];
    }
  }

  /** In the old buffer or in the response. */
  ghost predicate Arrived(s: SyncState, response: SyncResponse, r: Round) {
    r in s.received || exists b :: b in response.blocks && b.round == r
  }

  /** An accepted response completes a sync exactly when some round at or past the target has arrived; what is then
      delivered reaches the target exactly when every missing round has. */
  lemma {:induction false} CompletedReachesTargetIff(s: SyncState, response: SyncResponse)
    requires s.status.InProgress? && !NextBatchOverflows(s, response) && AddResponse(s, response).1.Pass?
    ensures var target, t := s.status.targetRound, AddResponse(s, response).0;
      && (t.status.Completed? <==> exists r: Round :: r >= target && Arrived(s, response, r))
      && (Deliver(t).0.currentRound >= target <==>
            forall r: Round | s.currentRound < r <= target :: Arrived(s, response, r))
  {
    var target, t, m := s.status.targetRound, AddResponse(s, response).0, Buffer(s.received, response.blocks);
    forall r: Round ensures r in m <==> Arrived(s, response, r) {
      BufferedRounds(s.received, response.blocks, r);
    }
    assert t.received == m && t.currentRound == s.currentRound;
    CompletedIff(s, response, m);
    if s.currentRound <= target {
      ReachesTargetIffNoGap(m, s.currentRound, target);
    }
  }

  lemma CompletedIff(s: SyncState, response: SyncResponse, m: map<Round, SyncBlock>)
    requires s.status.InProgress? && !NextBatchOverflows(s, response) && AddResponse(s, response).1.Pass?
    requires m == Buffer(s.received, response.blocks)
    ensures AddResponse(s, response).0.status.Completed? <==> exists r :: r in m && r >= s.status.targetRound
  {
    forall r | r in m ensures r in m.Keys && r <= Highest(m.Keys) {
      assert r in m.Keys && IsHighest(m.Keys, Highest(m.Keys));
    }
    if m.Keys != {} {
      assert Highest(m.Keys) in m;
    }
  }

  /** A sync to round 3 is called complete on receiving block 3 alone, and then delivers nothing. */
  lemma {:induction false} CompletedWithGap(epoch: Epoch)
    ensures var s0 := SyncState(Idle, [], map[], None, 0, 100);
      var s1 := StartSync(s0, 3, epoch).0;
      var response := SyncResponse([SyncBlock(3, 0)], epoch, true);
      && !NextBatchOverflows(s1, response)
      && AddResponse(s1, response).0.status == Completed(1)
      && Deliver(AddResponse(s1, response).0).1 == []
  {
    var s1 := StartSync(SyncState(Idle, [], map[], None, 0, 100), 3, epoch).0;
    var b := SyncBlock(3, 0);
    assert [b][..0] == [];
    assert Buffer(s1.received, [b]) == map[3 := b];
    var keys: set<Round> := (map[3 := b]).Keys;
    assert 3 in keys;
    assert Highest(keys) == 3;
  }

  // ---------------------------------------------------------------- a sync in which every request is answered in full

  /** The blocks of the chain for the rounds from `first` to `last`. */
  function ChainSlice(chain: Round -> SyncBlock, first: nat, last: int): seq<SyncBlock>
    requires last <= U64_MAX
    decreases last
  {
    if last < first then [] else ChainSlice(chain, first, last - 1) + [chain(last)]
  }

  function FullAnswer(chain: Round -> SyncBlock, r: SyncRequest): SyncResponse {
    SyncResponse(ChainSlice(chain, r.startRound, r.targetRound), r.epoch, true)
  }

  /** Send the newest request and take in its full answer; `None` if there is none to send or the next one overflows. */
  ghost function Exchange(s: SyncState, chain: Round -> SyncBlock): Option<SyncState> {
    if s.pending == [] then None else
      var k := |s.pending| - 1;
      var sent, response := s.(pending := s.pending[..k]), FullAnswer(chain, s.pending[k]);
      if NextBatchOverflows(sent, response) then None else Some(AddResponse(sent, response).0)
  }

  /** `k` exchanges in a row. */
  ghost function Exchanges(s: SyncState, chain: Round -> SyncBlock, k: nat): Option<SyncState> {
    if k == 0 then Some(s) else
      match Exchanges(s, chain, k - 1)
      case None => None
      case Some(t) => Exchange(t, chain)
  }

  /** The buffer holds exactly the chain's blocks of the rounds after `current` up to `reached`. */
  ghost predicate Holds(received: map<Round, SyncBlock>, chain: Round -> SyncBlock, current: Round, reached: Round) {
    forall r: Round :: (r in received <==> current < r <= reached) && (r in received ==> received[r] == chain(r))
  }

  lemma {:induction false} HoldsSize(
      received: map<Round, SyncBlock>, chain: Round -> SyncBlock, current: Round, reached: Round)
    requires current <= reached && Holds(received, chain, current, reached)
    ensures |received| == reached - current
    decreases reached
  {
    if reached > current {
      HoldsSize(received - {reached}, chain, current, reached - 1);
      ShrinksByOne(received, reached);
    } else {
      assert received == map[];
    }
  }

  lemma {:induction false} HoldsHighest(
      received: map<Round, SyncBlock>, chain: Round -> SyncBlock, current: Round, reached: Round)
    requires current < reached && Holds(received, chain, current, reached)
    ensures received.Keys != {} && Highest(received.Keys) == reached
  {
    assert reached in received.Keys;
  }

  ghost predicate IsChain(chain: Round -> SyncBlock) {
    forall r: Round :: chain(r).round == r
  }

  lemma {:induction false} SliceIsSequential(chain: Round -> SyncBlock, first: Round, last: Round)
    requires IsChain(chain)
    ensures |ChainSlice(chain, first, last)| == if last < first then 0 else last - first + 1
    ensures forall i | 0 <= i < |ChainSlice(chain, first, last)| :: ChainSlice(chain, first, last)[i].round == first + i
    decreases last
  {
    if last >= first && last > 0 {
      SliceIsSequential(chain, first, last - 1);
    }
  }

  lemma {:induction false} BufferExtends(
      received: map<Round, SyncBlock>, chain: Round -> SyncBlock, current: Round, reached: Round, last: Round)
    requires IsChain(chain) && current <= reached <= last && reached < U64_MAX
    requires Holds(received, chain, current, reached)
    ensures Holds(Buffer(received, ChainSlice(chain, reached + 1, last)), chain, current, last)
    decreases last
  {
    if last > reached {
      BufferExtends(received, chain, current, reached, last - 1);
      var rest, all := ChainSlice(chain, reached + 1, last - 1), ChainSlice(chain, reached + 1, last);
      assert all == rest + [chain(last)];
      assert all[..|all| - 1] == rest;
    } else {
      assert ChainSlice(chain, reached + 1, last) == [];
    }
  }

  /** Everything up to `reached` is buffered and exactly the next batch is on request. */
  ghost predicate Midway(
      s: SyncState, earlier: seq<SyncRequest>, chain: Round -> SyncBlock, target: Round, epoch: Epoch, reached: Round)
  {
    && s.currentRound <= reached < target
    && s.status == InProgress(target, reached, reached - s.currentRound)
    && Holds(s.received, chain, s.currentRound, reached)
    && s.pending == earlier + [SyncRequest(Min(target, reached + s.maxBatchSize), reached + 1, epoch)]
  }

  /** What a final, sequential response does, once the buffer it leaves is known. */
  lemma FinalResponse(s: SyncState, response: SyncResponse, m: map<Round, SyncBlock>, highest: Round)
    requires s.status.InProgress? && IsSequential(response.blocks) && response.isFinal
    requires Buffer(s.received, response.blocks) == m && m.Keys != {} && Highest(m.Keys) == highest
    requires highest < s.status.targetRound ==> highest + s.maxBatchSize <= U64_MAX
    ensures !NextBatchOverflows(s, response)
    ensures var target, u := s.status.targetRound, AddResponse(s, response).0;
      && u.received == m && u.currentRound == s.currentRound && u.maxBatchSize == s.maxBatchSize
      && u.status == (if highest >= target then Completed(|m|) else InProgress(target, highest, |m|))
      && u.pending == s.pending +
           (if highest >= target then []
            else [SyncRequest(Min(target, highest + s.maxBatchSize), highest + 1, response.epoch)])
  {
  }

  /** The sync is over, with every round up to the target in the buffer. */
  ghost predicate Finished(s: SyncState, earlier: seq<SyncRequest>, chain: Round -> SyncBlock, target: Round) {
    && s.currentRound < target
    && s.status == Completed(target - s.currentRound)
    && Holds(s.received, chain, s.currentRound, target)
    && s.pending == earlier
  }

  /** Taking in the full answer to the pending request leaves everything up to `next` in the buffer. */
  lemma {:induction false} AnswerFillsBuffer(
      received: map<Round, SyncBlock>, chain: Round -> SyncBlock, current: Round, reached: Round, next: Round)
    requires IsChain(chain) && current <= reached < next && Holds(received, chain, current, reached)
    ensures var blocks := ChainSlice(chain, reached + 1, next);
      var m := Buffer(received, blocks);
      && IsSequential(blocks) && Holds(m, chain, current, next)
      && m.Keys != {} && Highest(m.Keys) == next && |m| == next - current
  {
    SliceIsSequential(chain, reached + 1, next);
    BufferExtends(received, chain, current, reached, next);
    var m := Buffer(received, ChainSlice(chain, reached + 1, next));
    HoldsHighest(m, chain, current, next);
    HoldsSize(m, chain, current, next);
  }

  /** With everything up to `next` buffered and its status and requests to match, a sync is midway or finished. */
  lemma BatchTaken(
      t: SyncState, earlier: seq<SyncRequest>, chain: Round -> SyncBlock, target: Round, epoch: Epoch, next: Round)
    requires t.currentRound < next <= target && Holds(t.received, chain, t.currentRound, next)
    requires var count := next - t.currentRound;
      t.status == if next >= target then Completed(count) else InProgress(target, next, count)
    requires t.pending == earlier +
      (if next >= target then [] else [SyncRequest(Min(target, next + t.maxBatchSize), next + 1, epoch)])
    ensures next < target ==> Midway(t, earlier, chain, target, epoch, next)
    ensures next == target ==> Finished(t, earlier, chain, target)
  {
  }

  /** One exchange moves on by one batch, or finishes. */
  lemma {:induction false} ExchangeAdvances(
      s: SyncState, earlier: seq<SyncRequest>, chain: Round -> SyncBlock, target: Round, epoch: Epoch, reached: Round)
    requires IsChain(chain) && s.maxBatchSize >= 1 && Midway(s, earlier, chain, target, epoch, reached)
    requires reached + s.maxBatchSize < target ==> reached + s.maxBatchSize + s.maxBatchSize <= U64_MAX
    ensures Exchange(s, chain).Some?
    ensures var t := Exchange(s, chain).value;
      && t.currentRound == s.currentRound && t.maxBatchSize == s.maxBatchSize
      && (reached + s.maxBatchSize < target ==> Midway(t, earlier, chain, target, epoch, reached + s.maxBatchSize))
      && (reached + s.maxBatchSize >= target ==> Finished(t, earlier, chain, target))
  {
    hide Holds, Finished, Buffer, ChainSlice, IsSequential, AddResponse, NextBatchOverflows;
    var next := Min(target, reached + s.maxBatchSize);
    var k := |s.pending| - 1;
    var sent, response := s.(pending := s.pending[..k]), FullAnswer(chain, s.pending[k]);
    assert sent.pending == earlier && s.pending[k] == SyncRequest(next, reached + 1, epoch);
    AnswerFillsBuffer(s.received, chain, s.currentRound, reached, next);
    FinalResponse(sent, response, Buffer(s.received, response.blocks), next);
    assert Exchange(s, chain) == Some(AddResponse(sent, response).0);
    BatchTaken(AddResponse(sent, response).0, earlier, chain, target, epoch, next);
  }

  /** Rounding up. */
  function CeilDiv(x: nat, y: nat): nat
    requires y > 0
  {
    (x + y - 1) / y
  }

  lemma CeilDivCovers(x: nat, y: nat, k: nat)
    requires y > 0
    ensures k * y >= x <==> k >= CeilDiv(x, y)
  {
    var q := CeilDiv(x, y);
    assert q * y <= x + y - 1 < q * y + y;
    if k >= q {
      assert k * y >= q * y by { MulMonotone(q, k, y); }
    } else {
      assert k * y <= (q - 1) * y by { MulMonotone(k, q - 1, y); }
    }
  }

  lemma {:induction false} MulMonotone(a: nat, b: nat, y: nat)
    requires a <= b
    ensures a * y <= b * y
    decreases b
  {
    if a < b {
      MulMonotone(a, b - 1, y);
      assert b * y == (b - 1) * y + y;
    }
  }

  /** The round `k` batches on. */
  function Reach(current: nat, batch: nat, k: nat): nat {
    if k == 0 then current else Reach(current, batch, k - 1) + batch
  }

  lemma {:induction false} ReachIs(current: nat, batch: nat, k: nat)
    ensures Reach(current, batch, k) == current + k * batch
  {
    if k > 0 {
      ReachIs(current, batch, k - 1);
      assert k * batch == (k - 1) * batch + batch;
    }
  }

  lemma {:induction false} BatchesNeeded(current: nat, target: nat, batch: nat)
    requires batch > 0 && current < target
    ensures var n := CeilDiv(target - current, batch);
      n > 0 && Reach(current, batch, n - 1) < target <= Reach(current, batch, n)
  {
    var n := CeilDiv(target - current, batch);
    CeilDivCovers(target - current, batch, 0);
    CeilDivCovers(target - current, batch, n);
    CeilDivCovers(target - current, batch, n - 1);
    ReachIs(current, batch, n);
    ReachIs(current, batch, n - 1);
  }

  /** A sync to be run: idle, nothing buffered, a batch size and something to fetch. */
  predicate ReadyToSync(idle: SyncState, target: Round) {
    !idle.status.InProgress? && idle.received == map[] && idle.currentRound < target && idle.maxBatchSize >= 1
  }

  /** The end of batch `k` is computed, without a check, unless it is the first. */
  predicate BatchEndFits(idle: SyncState, k: nat) {
    k <= 1 || Reach(idle.currentRound, idle.maxBatchSize, k) <= U64_MAX
  }

  /** `k` exchanges into a sync that started from `idle`, with more to come. */
  ghost predicate Underway(
      idle: SyncState, chain: Round -> SyncBlock, target: Round, epoch: Epoch, k: nat, t: SyncState)
  {
    var reached := Reach(idle.currentRound, idle.maxBatchSize, k);
    && reached < target && Midway(t, idle.pending, chain, target, epoch, reached)
    && t.currentRound == idle.currentRound && t.maxBatchSize == idle.maxBatchSize
  }

  lemma {:induction false} UnderwayStep(
      idle: SyncState, chain: Round -> SyncBlock, target: Round, epoch: Epoch, k: nat, t: SyncState)
    requires IsChain(chain) && ReadyToSync(idle, target) && Underway(idle, chain, target, epoch, k, t)
    requires Reach(idle.currentRound, idle.maxBatchSize, k + 1) < target ==> BatchEndFits(idle, k + 2)
    ensures Exchange(t, chain).Some?
    ensures Reach(idle.currentRound, idle.maxBatchSize, k + 1) < target ==>
      Underway(idle, chain, target, epoch, k + 1, Exchange(t, chain).value)
    ensures Reach(idle.currentRound, idle.maxBatchSize, k + 1) >= target ==>
      Finished(Exchange(t, chain).value, idle.pending, chain, target)
      && Exchange(t, chain).value.currentRound == idle.currentRound
  {
    var reached := Reach(idle.currentRound, idle.maxBatchSize, k);
    ExchangeAdvances(t, idle.pending, chain, target, epoch, reached);
  }

  lemma {:induction false} ReachMonotone(current: nat, batch: nat, i: nat, k: nat)
    requires i <= k
    ensures Reach(current, batch, i) <= Reach(current, batch, k)
  {
    if i < k {
      ReachMonotone(current, batch, i, k - 1);
    }
  }

  lemma SyncBegins(idle: SyncState, chain: Round -> SyncBlock, target: Round, epoch: Epoch)
    requires ReadyToSync(idle, target)
    ensures Underway(idle, chain, target, epoch, 0, StartSync(idle, target, epoch).0)
  {
  }

  lemma OneMoreExchange(s: SyncState, chain: Round -> SyncBlock, k: nat, t: SyncState)
    requires Exchanges(s, chain, k) == Some(t)
    ensures Exchanges(s, chain, k + 1) == Exchange(t, chain)
  {
  }

  /** Until the last exchange, the pending request picks up where the previous one ended and spans at most a batch:
      the requests tile the rounds to be fetched. */
  lemma {:induction false} RequestsTile(
      idle: SyncState, chain: Round -> SyncBlock, target: Round, epoch: Epoch, k: nat) returns (t: SyncState)
    requires IsChain(chain) && ReadyToSync(idle, target)
    requires Reach(idle.currentRound, idle.maxBatchSize, k) < target && BatchEndFits(idle, k + 1)
    ensures Exchanges(StartSync(idle, target, epoch).0, chain, k) == Some(t)
    ensures Underway(idle, chain, target, epoch, k, t)
  {
    hide Exchange, StartSync, Midway, Underway;
    if k == 0 {
      SyncBegins(idle, chain, target, epoch);
      t := StartSync(idle, target, epoch).0;
    } else {
      ReachMonotone(idle.currentRound, idle.maxBatchSize, k - 1, k);
      var u := RequestsTile(idle, chain, target, epoch, k - 1);
      UnderwayStep(idle, chain, target, epoch, k - 1, u);
      OneMoreExchange(StartSync(idle, target, epoch).0, chain, k - 1, u);
      t := Exchange(u, chain).value;
    }
  }

  lemma {:induction false} LastExchange(
      idle: SyncState, chain: Round -> SyncBlock, target: Round, epoch: Epoch, n: nat) returns (t: SyncState)
    requires IsChain(chain) && ReadyToSync(idle, target) && n > 0 && BatchEndFits(idle, n)
    requires Reach(idle.currentRound, idle.maxBatchSize, n - 1) < target
    requires target <= Reach(idle.currentRound, idle.maxBatchSize, n)
    ensures Exchanges(StartSync(idle, target, epoch).0, chain, n) == Some(t)
    ensures Finished(t, idle.pending, chain, target) && t.currentRound == idle.currentRound
  {
    hide Exchange, StartSync, Midway, Underway, Finished;
    var u := RequestsTile(idle, chain, target, epoch, n - 1);
    UnderwayStep(idle, chain, target, epoch, n - 1, u);
    OneMoreExchange(StartSync(idle, target, epoch).0, chain, n - 1, u);
    t := Exchange(u, chain).value;
  }

  /** What the caller of `ready_blocks` gets in the end; beyond the very last round there is nothing to count on to. */
  predicate DeliversChain(s: SyncState, chain: Round -> SyncBlock, target: Round) {
    var (after, ready) := Deliver(s);
    && after.currentRound == target && after.received == map[]
    && ready == ChainSlice(chain, s.currentRound + 1, target)
    && (DeliverOverflows(s) <==> target == U64_MAX)
  }

  /** Asking for a batch whose end overflows stops the sync. */
  lemma {:induction false} OverflowStops(
      idle: SyncState, chain: Round -> SyncBlock, target: Round, epoch: Epoch, n: nat)
    requires IsChain(chain) && ReadyToSync(idle, target) && n > 1 && !BatchEndFits(idle, n)
    requires Reach(idle.currentRound, idle.maxBatchSize, n - 1) < target
    ensures Exchanges(StartSync(idle, target, epoch).0, chain, n - 1) == None
  {
    hide Exchange, StartSync, Midway;
    ReachMonotone(idle.currentRound, idle.maxBatchSize, n - 2, n - 1);
    var u := RequestsTile(idle, chain, target, epoch, n - 2);
    var reached := Reach(idle.currentRound, idle.maxBatchSize, n - 2);
    ExchangeOverflows(u, idle.pending, chain, target, epoch, reached);
    OneMoreExchange(StartSync(idle, target, epoch).0, chain, n - 2, u);
  }

  lemma {:induction false} ExchangeOverflows(
      s: SyncState, earlier: seq<SyncRequest>, chain: Round -> SyncBlock, target: Round, epoch: Epoch, reached: Round)
    requires IsChain(chain) && s.maxBatchSize >= 1 && Midway(s, earlier, chain, target, epoch, reached)
    requires reached + s.maxBatchSize < target && reached + s.maxBatchSize + s.maxBatchSize > U64_MAX
    ensures Exchange(s, chain) == None
  {
    var next, k := reached + s.maxBatchSize, |s.pending| - 1;
    var sent, response := s.(pending := s.pending[..k]), FullAnswer(chain, s.pending[k]);
    assert s.pending[k] == SyncRequest(next, reached + 1, epoch);
    AnswerFillsBuffer(s.received, chain, s.currentRound, reached, next);
    ResponseOverflows(sent, response, Buffer(s.received, response.blocks), next);
  }

  lemma ResponseOverflows(s: SyncState, response: SyncResponse, m: map<Round, SyncBlock>, highest: Round)
    requires s.status.InProgress? && IsSequential(response.blocks) && response.isFinal
    requires Buffer(s.received, response.blocks) == m && m.Keys != {} && Highest(m.Keys) == highest
    requires highest < s.status.targetRound && highest + s.maxBatchSize > U64_MAX
    ensures NextBatchOverflows(s, response)
  {
  }

  /** A fully answered sync goes through exactly if the end of its last batch can be computed. It then completes after
      exactly as many responses as there are batches, and delivers precisely the missing rounds. */
  lemma {:induction false} SyncCompletes(idle: SyncState, chain: Round -> SyncBlock, target: Round, epoch: Epoch)
    requires IsChain(chain) && ReadyToSync(idle, target)
    ensures var batches := CeilDiv(target - idle.currentRound, idle.maxBatchSize);
      var end := Exchanges(StartSync(idle, target, epoch).0, chain, batches);
      && (end.Some? <==> batches == 1 || idle.currentRound + batches * idle.maxBatchSize <= U64_MAX)
      && (end.Some? ==>
            && end.value.currentRound == idle.currentRound
            && end.value.status == Completed(target - idle.currentRound) && end.value.pending == idle.pending
            && DeliversChain(end.value, chain, target))
  {
    hide Exchange, StartSync, Midway, Underway, DeliversChain;
    BatchesNeeded(idle.currentRound, target, idle.maxBatchSize);
    var n := CeilDiv(target - idle.currentRound, idle.maxBatchSize);
    ReachIs(idle.currentRound, idle.maxBatchSize, n);
    if BatchEndFits(idle, n) {
      var t := LastExchange(idle, chain, target, epoch, n);
      FinishedDelivers(t, idle.pending, chain, target);
    } else {
      OverflowStops(idle, chain, target, epoch, n);
    }
  }

  lemma {:induction false} FinishedDelivers(
      s: SyncState, earlier: seq<SyncRequest>, chain: Round -> SyncBlock, target: Round)
    requires Finished(s, earlier, chain, target)
    ensures DeliversChain(s, chain, target)
  {
    var m, current := s.received, s.currentRound;
    ReachesTargetIffNoGap(m, current, target);
    if current + ReadyCount(m, current) > target {
      ReadyRoundsBuffered(m, current, target + 1);
    }
    SlicesAgree(m, chain, current, target, target - current);
    forall r: Round ensures r !in Beyond(m, current, target) {
      BeyondContents(m, current, target, r);
    }
  }

  lemma {:induction false} SlicesAgree(
      m: map<Round, SyncBlock>, chain: Round -> SyncBlock, current: Round, target: Round, n: nat)
    requires current < target && n <= target - current && Holds(m, chain, current, target)
    requires n <= ReadyCount(m, current)
    ensures ReadySlice(m, current, n) == ChainSlice(chain, current + 1, current + n)
  {
    if n > 0 {
      SlicesAgree(m, chain, current, target, n - 1);
    }
  }
}

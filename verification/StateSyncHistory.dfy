/** How a sync begins, what it asks for, and what ends it, over every run. */
module StateSyncHistory {
  import opened Types
  import opened StateSyncs
  import opened StateSyncRuns

  /** After any run, starting a sync is refused exactly while one is in progress. Otherwise what has been delivered so
      far decides: a target already reached completes at once and asks for nothing, and any other puts the first batch
      after the delivered rounds on request. */
  lemma {:induction false} StartAnswers(start: SyncState, h: seq<Event>, target: Round, epoch: Epoch)
    requires start.received == map[]
    ensures var t := Run(start, h);
      var (u, r) := StartSync(t.s, target, epoch);
      var reached := start.currentRound + |t.delivered|;
      && (r.Pass? <==> !t.s.status.InProgress?)
      && (t.s.status.InProgress? ==> r == Fail(AlreadyInProgress) && u == t.s)
      && (!t.s.status.InProgress? && target <= reached ==> u == t.s.(status := Completed(0)))
      && (!t.s.status.InProgress? && target > reached ==>
            && u.status == InProgress(target, reached, 0)
            && u.pending == t.s.pending +
                 [SyncRequest(Min(target, reached + t.s.maxBatchSize), reached + 1, epoch)]
            && u.received == t.s.received && u.currentRound == t.s.currentRound)
  {
    hide Run, StartSync, Next;
    DeliveredInOrder(start, h);
    StartFrom(Run(start, h).s, target, epoch);
  }

  lemma StartFrom(s: SyncState, target: Round, epoch: Epoch)
    ensures var (u, r) := StartSync(s, target, epoch);
      && (r.Pass? <==> !s.status.InProgress?)
      && (s.status.InProgress? ==> r == Fail(AlreadyInProgress) && u == s)
      && (!s.status.InProgress? && target <= s.currentRound ==> u == s.(status := Completed(0)))
      && (!s.status.InProgress? && target > s.currentRound ==>
            && u.status == InProgress(target, s.currentRound, 0)
            && u.pending == s.pending +
                 [SyncRequest(Min(target, s.currentRound + s.maxBatchSize), s.currentRound + 1, epoch)]
            && u.received == s.received && u.currentRound == s.currentRound)
  {
  }

  /** What a response taken in makes of the status, and whether the next batch is asked for: only after a final
      response, and only while the highest round buffered is short of the target. */
  lemma AsksForMoreIff(s: SyncState, response: SyncResponse)
    requires !NextBatchOverflows(s, response) && AddResponse(s, response).1.Pass?
    ensures var t, target := AddResponse(s, response).0, s.status.targetRound;
      && (t.received == map[] ==> t == s)
      && (t.received != map[] ==>
            var highest := Highest(t.received.Keys);
            && t.status == (if highest >= target then Completed(|t.received|)
                            else InProgress(target, highest, |t.received|))
            && t.pending == s.pending +
                 (if response.isFinal && highest < target
                  then [SyncRequest(Min(target, highest + s.maxBatchSize), highest + 1, response.epoch)] else []))
  {
    var t := AddResponse(s, response).0;
    if t.received == map[] {
      assert t.received.Keys == {};
      if response.blocks != [] {
        LastBlockBuffered(s.received, response.blocks);
        assert false;
      }
    } else {
      assert t.received.Keys != {} by {
        var r :| r in t.received;
        assert r in t.received.Keys;
      }
    }
  }

  lemma LastBlockBuffered(received: map<Round, SyncBlock>, blocks: seq<SyncBlock>)
    requires blocks != []
    ensures blocks[|blocks| - 1].round in Buffer(received, blocks)
  {
  }

  /** Event `j` ends the sync: a cancel, a reset, or a response that completes it. */
  ghost predicate EndsSync(start: SyncState, h: seq<Event>, j: int)
    requires 0 <= j < |h|
  {
    Forgets(h[j]) || (h[j].Receives? && Run(start, h[..j + 1]).s.status.Completed?)
  }

  lemma KeepsTargetStep(t: Trace, e: Event)
    requires t.s.status.InProgress?
    ensures var status := Next(t, e).s.status;
      || (status.InProgress? && status.targetRound == t.s.status.targetRound)
      || (Forgets(e) && status == Idle)
      || (e.Receives? && status.Completed?)
  {
  }

  /** A sync in progress keeps its target until a response completes it or it is cancelled or reset. */
  lemma {:induction false} SyncKeepsTarget(start: SyncState, h: seq<Event>, i: nat)
    requires i <= |h| && Run(start, h[..i]).s.status.InProgress?
    ensures var before, after := Run(start, h[..i]).s.status, Run(start, h).s.status;
      || (after.InProgress? && after.targetRound == before.targetRound)
      || exists j :: i <= j < |h| && EndsSync(start, h, j)
    decreases |h|
  {
    if i == |h| {
      assert h[..i] == h;
    } else {
      hide Next;
      var n := |h| - 1;
      var g := h[..n];
      assert g[..i] == h[..i];
      SyncKeepsTarget(start, g, i);
      if j :| i <= j < n && EndsSync(start, g, j) {
        assert g[..j + 1] == h[..j + 1] && g[j] == h[j];
        assert EndsSync(start, h, j);
      } else {
        KeepsTargetStep(Run(start, g), h[n]);
        assert h[..n + 1] == h;
        assert EndsSync(start, h, n) || Run(start, h).s.status.InProgress?;
      }
    }
  }

  /** Without a reset the highest known round is the largest a peer was heard of, if any. */
  lemma {:induction false} HighestKnownIsLargestHeard(start: SyncState, h: seq<Event>)
    requires start.highestKnown == None && forall e | e in h :: !e.Resets?
    ensures var known := Run(start, h).s.highestKnown;
      && (forall e | e in h && e.HearsOf? :: known.Some? && e.round <= known.value)
      && (known.Some? ==> HearsOf(known.value) in h)
  {
    if h != [] {
      var g, e := h[..|h| - 1], h[|h| - 1];
      assert h == g + [e];
      HighestKnownIsLargestHeard(start, g);
      HighestKnownStep(Run(start, g), e);
    }
  }

  lemma HighestKnownStep(t: Trace, e: Event)
    ensures var before, after := t.s.highestKnown, Next(t, e).s.highestKnown;
      after == if e.Resets? then None
               else if e.HearsOf? then Some(if before.Some? then Max(before.value, e.round) else e.round)
               else before
  {
  }

  /** After a cancel or a reset nothing is under way, on request or buffered, and what was delivered stays delivered. */
  lemma ForgettingForgets(start: SyncState, h: seq<Event>, e: Event)
    requires Forgets(e)
    ensures var before, after := Run(start, h), Run(start, h + [e]);
      && after.s.status == Idle && after.s.pending == [] && after.s.received == map[]
      && after.delivered == before.delivered && after.s.currentRound == before.s.currentRound
  {
    RunSnoc(start, h, e);
  }
}

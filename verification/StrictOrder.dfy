/**
 What strict reordering delivers (src/iscp/down_order.rs:35-81), over every run of fewer
 than 2^32 accepted chunks per upstream.
 */
module StrictOrder {
  import opened Base
  import opened Types
  import opened DownOrder
  import opened ReorderRuns

  ghost predicate Has(chunks: Chunks, n: U32) {
    exists i :: 0 <= i < |chunks| && chunks[i].sequenceNumber == n
  }

  /** The `k`-th number after that of the first chunk. */
  function NthNumber(chunks: Chunks, k: nat): U32
    requires |chunks| > 0
  {
    Wrap(chunks[0].sequenceNumber + k)
  }

  /**
   The specification: of the accepted chunks, those with the numbers first, first + 1, ... are
   delivered in that order, each once, up to the first number not accepted yet.
   */
  ghost predicate DeliversInOrder(accepted: Chunks, delivered: Chunks) {
    if |accepted| == 0 then
      delivered == []
    else
      && (forall k :: 0 <= k < |delivered| ==>
            delivered[k].sequenceNumber == NthNumber(accepted, k) && delivered[k] in accepted)
      && !Has(accepted, NthNumber(accepted, |delivered|))
  }

  /** Every accepted chunk has been delivered or is in the store; `next` follows what was delivered. */
  ghost predicate Consistent(lane: Lane, accepted: Chunks, delivered: Chunks) {
    && 0 < |accepted| < U32_LIMIT
    && |delivered| + |lane.store| <= |accepted|
    && lane.next == NthNumber(accepted, |delivered|)
    && (forall k :: 0 <= k < |delivered| ==>
          delivered[k].sequenceNumber == NthNumber(accepted, k) && delivered[k] in accepted)
    && (forall i :: 0 <= i < |accepted| ==> Settled(lane, accepted, |delivered|, accepted[i].sequenceNumber))
    && Filed(lane.store)
    && (forall n :: n in lane.store ==> lane.store[n] in accepted)
  }

  ghost predicate Settled(lane: Lane, accepted: Chunks, d: nat, n: U32)
    requires |accepted| > 0
  {
    Offset(accepted[0].sequenceNumber, n) < d || n in lane.store
  }

  /** Releasing `next` keeps everything consistent. */
  lemma ReleaseKeepsConsistent(lane: Lane, accepted: Chunks, delivered: Chunks)
    requires Consistent(lane, accepted, delivered) && lane.next in lane.store
    ensures Consistent(Release(lane, lane.next).lane, accepted, delivered + [lane.store[lane.next]])
  {
    hide Wrap, Offset;
    var first, d := accepted[0].sequenceNumber, |delivered|;
    var after, out := Release(lane, lane.next).lane, delivered + [lane.store[lane.next]];
    OffsetOfWrap(first, d);
    WrapOfWrap(first + d, 1);
    forall i | 0 <= i < |accepted|
      ensures Settled(after, accepted, d + 1, accepted[i].sequenceNumber)
    {
      assert Settled(lane, accepted, d, accepted[i].sequenceNumber);
    }
    forall k | 0 <= k < |out|
      ensures out[k].sequenceNumber == NthNumber(accepted, k) && out[k] in accepted
    {
      if k < d {
        assert out[k] == delivered[k];
      }
    }
  }

  lemma {:induction false} DrainKeepsConsistent(limit: nat, lane: Lane, accepted: Chunks, delivered: Chunks)
    requires Consistent(lane, accepted, delivered)
    ensures var r := Drain(true, limit, lane);
            && Consistent(r.lane, accepted, delivered + r.out)
            && r.lane.next !in r.lane.store
            && |r.out| + |r.lane.store| == |lane.store|
    decreases |lane.store|
  {
    hide Consistent;
    if lane.next in lane.store {
      var p := Release(lane, lane.next);
      ReleaseKeepsConsistent(lane, accepted, delivered);
      DrainKeepsConsistent(limit, p.lane, accepted, delivered + [p.out.value]);
      var rest := Drain(true, limit, p.lane);
      assert delivered + Drain(true, limit, lane).out == (delivered + [p.out.value]) + rest.out;
    } else {
      assert Drain(true, limit, lane) == Drained([], lane);
      assert delivered + [] == delivered;
    }
  }

  /** Storing an accepted chunk. */
  lemma AcceptKeepsConsistent(lane: Lane, accepted: Chunks, delivered: Chunks, c: DownstreamChunk)
    requires Consistent(lane, accepted, delivered) && |accepted| + 1 < U32_LIMIT
    ensures Consistent(lane.(store := lane.store[c.sequenceNumber := c]), accepted + [c], delivered)
  {
    hide Wrap, Offset;
    var after, all := lane.(store := lane.store[c.sequenceNumber := c]), accepted + [c];
    StoreSize(lane.store, c);
    forall i | 0 <= i < |all|
      ensures Settled(after, all, |delivered|, all[i].sequenceNumber)
    {
      if i < |accepted| {
        assert Settled(lane, accepted, |delivered|, accepted[i].sequenceNumber);
      }
    }
    assert all[|accepted|] == c;
    assert forall x :: x in accepted ==> x in all;
  }

  lemma StoreSize(store: Store, c: DownstreamChunk)
    ensures |store[c.sequenceNumber := c]| == |store| + if c.sequenceNumber in store then 0 else 1
  {
    assert store[c.sequenceNumber := c].Keys == store.Keys + {c.sequenceNumber};
  }

  /** The state after a run, with every iterator drained. */
  ghost predicate Settles(log: LaneLog) {
    match log.lane
    case None => log.accepted == [] && log.delivered == []
    case Some(lane) => Consistent(lane, log.accepted, log.delivered) && lane.next !in lane.store
  }

  lemma FirstIsConsistent(c: DownstreamChunk)
    ensures Consistent(Lane(c.sequenceNumber, map[c.sequenceNumber := c]), [c], [])
  {
    assert [c][0] == c && c in [c];
  }

  lemma ArriveSettles(limit: nat, log: LaneLog, c: DownstreamChunk)
    requires Settles(log) && |Arrive(true, limit, log, c).accepted| < U32_LIMIT
    ensures Settles(Arrive(true, limit, log, c))
  {
    hide Drain, Wrap, Offset, Consistent;
    var accept := Accept(true, limit, log.lane, c);
    if accept.Some? {
      if log.lane.None? {
        FirstIsConsistent(c);
        assert [] + [c] == [c];
      } else {
        AcceptKeepsConsistent(log.lane.value, log.accepted, log.delivered, c);
      }
      DrainKeepsConsistent(limit, accept.value, log.accepted + [c], log.delivered);
    }
  }

  lemma {:induction false} RunSettles(limit: nat, chunks: Chunks)
    requires |LaneRun(true, limit, chunks).accepted| < U32_LIMIT
    ensures Settles(LaneRun(true, limit, chunks))
  {
    if |chunks| > 0 {
      var before, c := chunks[..|chunks| - 1], chunks[|chunks| - 1];
      assert |LaneRun(true, limit, before).accepted| <= |LaneRun(true, limit, chunks).accepted|;
      RunSettles(limit, before);
      ArriveSettles(limit, LaneRun(true, limit, before), c);
    }
  }

  /** What is missing is exactly the number `next`. */
  lemma NextIsMissing(log: LaneLog)
    requires Settles(log) && log.lane.Some?
    ensures !Has(log.accepted, NthNumber(log.accepted, |log.delivered|))
    ensures forall k :: 0 <= k < |log.delivered| ==> Has(log.accepted, NthNumber(log.accepted, k))
  {
    hide Wrap, Offset;
    var d, lane := |log.delivered|, log.lane.value;
    OffsetOfWrap(log.accepted[0].sequenceNumber, d);
    forall k | 0 <= k < d
      ensures Has(log.accepted, NthNumber(log.accepted, k))
    {
      var i :| 0 <= i < |log.accepted| && log.accepted[i] == log.delivered[k];
    }
    forall i | 0 <= i < |log.accepted|
      ensures log.accepted[i].sequenceNumber != lane.next
    {
      assert Settled(lane, log.accepted, d, log.accepted[i].sequenceNumber);
    }
  }

  /**
   Strict reordering refines its specification: after any arrivals from any interleaving of
   upstreams, duplicates and rejected chunks included, each upstream's deliveries are in order.
   */
  lemma StrictDeliversInOrder(limit: nat, chunks: Chunks, u: Uuid)
    requires |Of(u, Run(true, limit, chunks).accepted)| < U32_LIMIT
    ensures var log := Run(true, limit, chunks);
            DeliversInOrder(Of(u, log.accepted), Of(u, log.delivered))
  {
    UpstreamsAreIndependent(true, limit, chunks, u);
    hide Run, LaneRun, Of, Wrap, Offset, Has;
    var own := LaneRun(true, limit, Of(u, chunks));
    RunSettles(limit, Of(u, chunks));
    if own.lane.Some? {
      NextIsMissing(own);
    }
  }

  // ---------------------------------------------------------------- how many chunks wait

  lemma {:induction false} DrainSize(limit: nat, lane: Lane)
    ensures var d := Drain(true, limit, lane);
            && |d.out| + |d.lane.store| == |lane.store|
            && (lane.next in lane.store ==> |d.out| > 0)
    decreases |lane.store|
  {
    hide Wrap;
    if lane.next in lane.store {
      DrainSize(limit, Release(lane, lane.next).lane);
    }
  }

  /** Never more than `limit` chunks of an upstream wait in the store. */
  lemma {:induction false} StrictHoldsAtMostLimit(limit: nat, chunks: Chunks)
    ensures var lane := LaneRun(true, limit, chunks).lane;
            lane.Some? ==> |lane.value.store| <= limit
  {
    if |chunks| > 0 {
      var before, c := chunks[..|chunks| - 1], chunks[|chunks| - 1];
      StrictHoldsAtMostLimit(limit, before);
      var log := LaneRun(true, limit, before);
      var accept := Accept(true, limit, log.lane, c);
      if accept.Some? {
        StoreSize(if log.lane.Some? then log.lane.value.store else map[], c);
        DrainSize(limit, accept.value);
        hide Drain;
      }
    }
  }

  // ---------------------------------------------------------------- duplicates

  /** `n` is the number of a chunk already delivered. */
  ghost predicate IsDelivered(log: LaneLog, n: U32) {
    |log.accepted| > 0 && Offset(log.accepted[0].sequenceNumber, n) < |log.delivered|
  }

  /** The numbers that wait for a number before them. */
  ghost function WaitingNumbers(log: LaneLog): set<U32> {
    set c | c in log.accepted && !IsDelivered(log, c.sequenceNumber) :: c.sequenceNumber
  }

  /** The numbers accepted once more after their delivery. */
  ghost function Reaccepted(limit: nat, chunks: Chunks): set<U32> {
    if |chunks| == 0 then {}
    else
      var before, c := chunks[..|chunks| - 1], chunks[|chunks| - 1];
      var log := LaneRun(true, limit, before);
      Reaccepted(limit, before) +
        if Accept(true, limit, log.lane, c).Some? && IsDelivered(log, c.sequenceNumber) then {c.sequenceNumber} else {}
  }

  /** A drain takes exactly the run of numbers from `next` on. */
  lemma {:induction false} DrainTakes(limit: nat, lane: Lane, n: U32)
    ensures var d := Drain(true, limit, lane);
            n in d.lane.store <==> n in lane.store && Offset(lane.next, n) >= |d.out|
    decreases |lane.store|
  {
    DrainUnfolds(true, limit, lane);
    hide Drain, Wrap, Offset;
    if lane.next in lane.store {
      DrainTakes(limit, Release(lane, lane.next).lane, n);
      OffsetAfter(lane.next, n);
    }
  }

  /** Of the numbers already delivered, the store holds `stale`. */
  ghost predicate Stale(log: LaneLog, stale: set<U32>) {
    match log.lane
    case None => stale == {}
    case Some(lane) => forall n :: n in stale <==> IsDelivered(log, n) && n in lane.store
  }

  /** What a drain leaves, by the offset from the first number of all. */
  lemma DrainLeaves(limit: nat, lane: Lane, first: U32, d: nat, n: U32)
    requires lane.next == Wrap(first + d) && d + |Drain(true, limit, lane).out| < U32_LIMIT
    ensures var after := Drain(true, limit, lane);
            n in after.lane.store <==>
              n in lane.store && (Offset(first, n) < d || Offset(first, n) >= d + |after.out|)
  {
    DrainTakes(limit, lane, n);
    OffsetFrom(first, d, n);
    hide Drain, Wrap;
  }

  lemma SettlesBounds(log: LaneLog)
    requires Settles(log)
    ensures |log.delivered| <= |log.accepted|
    ensures log.lane.Some? ==>
              log.accepted != [] && log.lane.value.next == Wrap(log.accepted[0].sequenceNumber + |log.delivered|)
    ensures log.lane.None? ==> log.accepted == log.delivered == []
  {
    hide Settled, Filed, Wrap;
  }

  lemma AcceptStart(limit: nat, log: LaneLog, c: DownstreamChunk)
    requires Settles(log) && Accept(true, limit, log.lane, c).Some?
    ensures Accept(true, limit, log.lane, c).value.next
         == Wrap((log.accepted + [c])[0].sequenceNumber + |log.delivered|)
  {
    hide Settles, Wrap;
    SettlesBounds(log);
    WrapIdentity(c.sequenceNumber);
  }

  /** Where an accepted chunk's drain starts, and that it goes less than once around. */
  lemma AcceptedDrain(limit: nat, log: LaneLog, c: DownstreamChunk)
    requires Settles(log) && Accept(true, limit, log.lane, c).Some? && |log.accepted| + 1 < U32_LIMIT
    ensures var lane := Accept(true, limit, log.lane, c).value;
            && lane.next == Wrap((log.accepted + [c])[0].sequenceNumber + |log.delivered|)
            && |log.delivered| + |Drain(true, limit, lane).out| < U32_LIMIT
  {
    hide Drain, Wrap, Settles, Accept;
    AcceptStart(limit, log, c);
    ArriveSettles(limit, log, c);
    SettlesBounds(Arrive(true, limit, log, c));
  }

  lemma ArriveStale(limit: nat, log: LaneLog, c: DownstreamChunk, n: U32)
    requires Settles(log) && Accept(true, limit, log.lane, c).Some? && |log.accepted| + 1 < U32_LIMIT
    ensures var lane, next := Accept(true, limit, log.lane, c).value, Arrive(true, limit, log, c);
            && next.lane.Some?
            && (IsDelivered(next, n) && n in next.lane.value.store <==> IsDelivered(log, n) && n in lane.store)
  {
    hide Drain, Wrap, Offset, Consistent;
    SettlesBounds(log);
    AcceptedDrain(limit, log, c);
    var lane, first := Accept(true, limit, log.lane, c).value, (log.accepted + [c])[0].sequenceNumber;
    DrainLeaves(limit, lane, first, |log.delivered|, n);
    hide Accept;
  }

  lemma ArriveStales(limit: nat, log: LaneLog, c: DownstreamChunk, stale: set<U32>)
    requires Settles(log) && Stale(log, stale) && |Arrive(true, limit, log, c).accepted| < U32_LIMIT
    ensures var again := Accept(true, limit, log.lane, c).Some? && IsDelivered(log, c.sequenceNumber);
            Stale(Arrive(true, limit, log, c), stale + if again then {c.sequenceNumber} else {})
  {
    hide IsDelivered, Settles, Drain;
    if Accept(true, limit, log.lane, c).Some? {
      forall n {
        ArriveStale(limit, log, c, n);
      }
      NothingDelivered(log, c.sequenceNumber);
    }
  }

  lemma NothingDelivered(log: LaneLog, n: U32)
    requires Settles(log)
    ensures log.lane.None? ==> !IsDelivered(log, n)
  {
  }

  lemma {:induction false} RunStales(limit: nat, chunks: Chunks)
    requires |LaneRun(true, limit, chunks).accepted| < U32_LIMIT
    ensures Stale(LaneRun(true, limit, chunks), Reaccepted(limit, chunks))
  {
    if |chunks| > 0 {
      var before, c := chunks[..|chunks| - 1], chunks[|chunks| - 1];
      var log := LaneRun(true, limit, before);
      assert |log.accepted| <= |LaneRun(true, limit, chunks).accepted|;
      RunStales(limit, before);
      RunSettles(limit, before);
      ArriveStales(limit, log, c, Reaccepted(limit, before));
    }
  }

  /** The store holds one chunk for each number that waits and each number accepted again after its delivery. */
  lemma StoreIsWaitingAndStale(limit: nat, chunks: Chunks)
    requires |LaneRun(true, limit, chunks).accepted| < U32_LIMIT && LaneRun(true, limit, chunks).lane.Some?
    ensures var log := LaneRun(true, limit, chunks);
            && log.lane.value.store.Keys == WaitingNumbers(log) + Reaccepted(limit, chunks)
            && |log.lane.value.store| == |WaitingNumbers(log)| + |Reaccepted(limit, chunks)|
  {
    RunStales(limit, chunks);
    RunSettles(limit, chunks);
    var log := LaneRun(true, limit, chunks);
    var lane, waiting, stale := log.lane.value, WaitingNumbers(log), Reaccepted(limit, chunks);
    hide LaneRun, Reaccepted, Wrap, Offset;
    forall n
      ensures n in lane.store && !IsDelivered(log, n) <==> n in waiting
    {
      if n in lane.store && !IsDelivered(log, n) {
        assert lane.store[n] in log.accepted;
      }
      if n in waiting {
        var i :| 0 <= i < |log.accepted| && log.accepted[i].sequenceNumber == n;
        assert Settled(lane, log.accepted, |log.delivered|, n);
      }
    }
    assert lane.store.Keys == waiting + stale && waiting !! stale;
    assert |lane.store| == |lane.store.Keys|;
  }

  /**
   Acceptance with duplicates. A chunk is accepted if and only if it is the next one to be delivered, or the numbers
   that wait and those accepted again after their delivery leave room.
   */
  lemma StrictAcceptsExactly(limit: nat, chunks: Chunks, c: DownstreamChunk)
    requires |LaneRun(true, limit, chunks).accepted| < U32_LIMIT && LaneRun(true, limit, chunks).lane.Some?
    ensures var log := LaneRun(true, limit, chunks);
            && |log.accepted| > 0
            && (LaneRun(true, limit, chunks + [c]).accepted == log.accepted + [c] <==>
                  || c.sequenceNumber == NthNumber(log.accepted, |log.delivered|)
                  || |WaitingNumbers(log)| + |Reaccepted(limit, chunks)| < limit)
  {
    StoreIsWaitingAndStale(limit, chunks);
    RunSettles(limit, chunks);
    assert (chunks + [c])[..|chunks|] == chunks;
    hide Drain, WaitingNumbers, Reaccepted, Wrap;
    var log := LaneRun(true, limit, chunks);
    assert |log.accepted + [c]| != |log.accepted|;
  }

  /** A number accepted again after its delivery keeps its place in the store for good. */
  lemma {:induction false} StaleDuplicateStays(limit: nat, chunks: Chunks, k: nat, n: U32)
    requires |LaneRun(true, limit, chunks).accepted| < U32_LIMIT
    requires k <= |chunks| && n in Reaccepted(limit, chunks[..k])
    ensures n in Reaccepted(limit, chunks)
    ensures LaneRun(true, limit, chunks).lane.Some? && n in LaneRun(true, limit, chunks).lane.value.store
  {
    if k < |chunks| {
      var before := chunks[..|chunks| - 1];
      assert before[..k] == chunks[..k];
      assert |LaneRun(true, limit, before).accepted| <= |LaneRun(true, limit, chunks).accepted|;
      StaleDuplicateStays(limit, before, k, n);
    } else {
      assert chunks[..k] == chunks;
    }
    RunStales(limit, chunks);
  }

  /** With room for one chunk, a duplicate of the first makes the reorderer refuse a chunk it takes without it. */
  lemma DuplicateCausesRefusal(n: U32, upstream: UpstreamInfo)
    ensures var a, b := DownstreamChunk(n, [], upstream), DownstreamChunk(Wrap(n + 2), [], upstream);
            && LaneRun(true, 1, [a, a, b]).accepted == [a, a]
            && LaneRun(true, 1, [a, b]).accepted == [a, b]
  {
    var a, b := DownstreamChunk(n, [], upstream), DownstreamChunk(Wrap(n + 2), [], upstream);
    hide LaneRun, Drain, PopStep;
    FirstThenAgain(1, a);
    OneIsFull(a);
    LaneRunSnoc(true, 1, [a], b);
    LaneRunSnoc(true, 1, [a, a], b);
    assert [a] + [b] == [a, b] && [a, a] + [b] == [a, a, b];
  }

  lemma OneIsFull(a: DownstreamChunk)
    ensures |map[a.sequenceNumber := a]| == 1
  {
    StoreSize(map[], a);
  }

  lemma DrainFirst(limit: nat, a: DownstreamChunk)
    ensures var n, next := a.sequenceNumber, Wrap(a.sequenceNumber + 1);
            && Drain(true, limit, Lane(n, map[n := a])) == Drained([a], Lane(next, map[]))
            && Drain(true, limit, Lane(next, map[n := a])) == Drained([], Lane(next, map[n := a]))
  {
    var n, next := a.sequenceNumber, Wrap(a.sequenceNumber as int + 1);
    assert map[n := a] - {n} == map[];
    assert PopStep(true, limit, Lane(n, map[n := a])) == Popped(Some(a), Lane(next, map[]));
    assert Drain(true, limit, Lane(next, map[])) == Drained([], Lane(next, map[]));
  }

  /** The first chunk is delivered at once; the same chunk again is stored. */
  lemma FirstThenAgain(limit: nat, a: DownstreamChunk)
    requires limit > 0
    ensures var next := Wrap(a.sequenceNumber + 1);
            && LaneRun(true, limit, [a]) == LaneLog(Some(Lane(next, map[])), [a], [a])
            && LaneRun(true, limit, [a, a]) == LaneLog(Some(Lane(next, map[a.sequenceNumber := a])), [a, a], [a])
  {
    hide Drain, Wrap;
    DrainFirst(limit, a);
    assert LaneRun(true, limit, []) == LaneLog(None, [], []);
    hide LaneRun;
    LaneRunSnoc(true, limit, [], a);
    LaneRunSnoc(true, limit, [a], a);
    assert [] + [a] == [a] && [a] + [a] == [a, a];
  }

  // ---------------------------------------------------------------- bounded delay

  predicate DistinctNumbers(chunks: Chunks) {
    forall i, j :: 0 <= i < j < |chunks| ==> chunks[i].sequenceNumber != chunks[j].sequenceNumber
  }

  /** Nothing overtakes by more than the store can hold: among the first `i` arrivals are the first `i - limit` numbers. */
  ghost predicate BoundedDelay(limit: nat, chunks: Chunks) {
    forall i, k {:trigger Early(chunks, i, k)} :: 0 <= k < i - limit && i <= |chunks| ==> Early(chunks, i, k)
  }

  ghost predicate Early(chunks: Chunks, i: nat, k: nat)
    requires i <= |chunks|
  {
    |chunks| > 0 && Has(chunks[..i], NthNumber(chunks, k))
  }

  /** With distinct numbers nothing is lost to overwriting, so the store holds exactly what is waiting. */
  ghost predicate Tight(log: LaneLog) {
    Settles(log) && (log.lane.Some? ==> |log.delivered| + |log.lane.value.store| == |log.accepted|)
  }

  lemma NotInStore(log: LaneLog, n: U32)
    requires Settles(log) && log.lane.Some? && !Has(log.accepted, n)
    ensures n !in log.lane.value.store
  {
    hide Wrap, Offset;
    forall k | k in log.lane.value.store
      ensures n != k
    {
      var i :| 0 <= i < |log.accepted| && log.accepted[i] == log.lane.value.store[k];
    }
  }

  lemma ArriveIsTight(limit: nat, log: LaneLog, c: DownstreamChunk)
    requires Tight(log) && |log.accepted| + 1 < U32_LIMIT && !Has(log.accepted, c.sequenceNumber)
    ensures Tight(Arrive(true, limit, log, c))
  {
    hide Drain, Wrap, Offset, Consistent, Has;
    ArriveSettles(limit, log, c);
    var accept := Accept(true, limit, log.lane, c);
    if accept.Some? {
      if log.lane.None? {
        FirstIsConsistent(c);
        assert [] + [c] == [c];
      } else {
        StoreSize(log.lane.value.store, c);
        NotInStore(log, c.sequenceNumber);
        AcceptKeepsConsistent(log.lane.value, log.accepted, log.delivered, c);
      }
      DrainKeepsConsistent(limit, accept.value, log.accepted + [c], log.delivered);
    }
  }

  /** One more arrival is accepted exactly when it keeps the delay bounded. */
  lemma AcceptedIffEarly(limit: nat, log: LaneLog, c: DownstreamChunk)
    requires Tight(log) && log.lane.Some? && |log.accepted| + 1 < U32_LIMIT
    requires !Has(log.accepted, c.sequenceNumber)
    requires BoundedDelay(limit, log.accepted)
    ensures Accept(true, limit, log.lane, c).Some? <==>
              forall k :: 0 <= k < |log.accepted| + 1 - limit ==>
                Has(log.accepted + [c], NthNumber(log.accepted, k))
  {
    var n, d, lane := |log.accepted|, |log.delivered|, log.lane.value;
    var all := log.accepted + [c];
    NextIsMissing(log);
    assert log.accepted[..n] == log.accepted;
    assert d < n - limit ==> Early(log.accepted, n, d);
    HasAppend(log.accepted, c);
    if Accept(true, limit, log.lane, c).None? {
      assert d < n + 1 - limit && !Has(all, NthNumber(log.accepted, d));
    } else {
      forall k | 0 <= k < n + 1 - limit
        ensures Has(all, NthNumber(log.accepted, k))
      {
        assert k < d || c.sequenceNumber == lane.next;
      }
    }
  }

  lemma HasAppend(chunks: Chunks, c: DownstreamChunk)
    ensures forall n :: Has(chunks + [c], n) <==> Has(chunks, n) || c.sequenceNumber == n
  {
    var all := chunks + [c];
    assert all[|chunks|] == c;
    forall n | Has(chunks, n)
      ensures Has(all, n)
    {
      var i :| 0 <= i < |chunks| && chunks[i].sequenceNumber == n;
      assert all[i].sequenceNumber == n;
    }
  }

  lemma BoundedDelaySplits(limit: nat, chunks: Chunks)
    requires |chunks| > 0
    ensures BoundedDelay(limit, chunks) <==>
              && BoundedDelay(limit, chunks[..|chunks| - 1])
              && forall k :: 0 <= k < |chunks| - limit ==> Has(chunks, NthNumber(chunks, k))
  {
    var n, before := |chunks|, chunks[..|chunks| - 1];
    assert chunks[..n] == chunks;
    forall i: nat, k: nat | k < i - limit && i <= n - 1
      ensures Early(before, i, k) <==> Early(chunks, i, k)
    {
      assert before[..i] == chunks[..i];
    }
    if BoundedDelay(limit, chunks) {
      forall i: nat, k: nat | k < i - limit && i <= n - 1
        ensures Early(before, i, k)
      {
        assert Early(chunks, i, k);
      }
      forall k | 0 <= k < n - limit
        ensures Has(chunks, NthNumber(chunks, k))
      {
        assert Early(chunks, n, k);
      }
    } else {
      var i, k :| 0 <= k < i - limit && i <= n && !Early(chunks, i, k);
      if i < n {
        assert !Early(before, i, k);
      }
    }
  }

  /** The first chunk is always accepted, and its delay is zero. */
  lemma FirstArrival(limit: nat, c: DownstreamChunk)
    ensures Arrive(true, limit, LaneLog(None, [], []), c).accepted == [c]
    ensures BoundedDelay(limit, [c])
  {
    hide Drain;
    assert [c][0].sequenceNumber == NthNumber([c], 0);
    assert [c][..1] == [c];
    forall i: nat, k: nat | k < i - limit && i <= 1
      ensures Early([c], i, k)
    {
      assert i == 1 && k == 0;
    }
  }

  lemma NextArrival(limit: nat, log: LaneLog, c: DownstreamChunk)
    requires Tight(log) && log.lane.Some? && |log.accepted| + 1 < U32_LIMIT
    requires !Has(log.accepted, c.sequenceNumber) && BoundedDelay(limit, log.accepted)
    ensures Accept(true, limit, log.lane, c).Some? <==> BoundedDelay(limit, log.accepted + [c])
  {
    hide Wrap, Offset, Drain, BoundedDelay, Has, Accept;
    var all := log.accepted + [c];
    AcceptedIffEarly(limit, log, c);
    BoundedDelaySplits(limit, all);
    assert all[..|all| - 1] == log.accepted;
    assert forall k: nat :: NthNumber(all, k) == NthNumber(log.accepted, k);
  }

  /**
   Strict mode accepts every chunk of an upstream if and only if the delay is bounded by the
   limit, for arrivals with distinct numbers.
   */
  lemma {:induction false} StrictAcceptsIffBoundedDelay(limit: nat, chunks: Chunks)
    requires |chunks| < U32_LIMIT && DistinctNumbers(chunks)
    ensures LaneRun(true, limit, chunks).accepted == chunks <==> BoundedDelay(limit, chunks)
    ensures LaneRun(true, limit, chunks).accepted == chunks ==> Tight(LaneRun(true, limit, chunks))
    ensures |LaneRun(true, limit, chunks).accepted| <= |chunks|
  {
    hide LaneRun, BoundedDelay, Tight, Has, Drain, Accept, NthNumber;
    if |chunks| == 0 {
      NoArrival(limit, chunks);
    } else {
      var before, c := chunks[..|chunks| - 1], chunks[|chunks| - 1];
      var log := LaneRun(true, limit, before);
      assert chunks == before + [c];
      LaneRunSnoc(true, limit, before, c);
      StrictAcceptsIffBoundedDelay(limit, before);
      BoundedDelaySplits(limit, chunks);
      if log.accepted == before {
        NewNumber(before, c);
        ArriveIsTight(limit, log, c);
        if log.lane.Some? {
          NextArrival(limit, log, c);
        } else {
          TightStart(log);
          FirstArrival(limit, c);
        }
      } else {
        assert log.accepted + [c] != chunks by {
          assert (log.accepted + [c])[..|log.accepted|] == log.accepted;
        }
      }
    }
  }

  lemma NoArrival(limit: nat, chunks: Chunks)
    requires |chunks| == 0
    ensures LaneRun(true, limit, chunks).accepted == chunks && Tight(LaneRun(true, limit, chunks))
    ensures BoundedDelay(limit, chunks)
  {
  }

  lemma NewNumber(before: Chunks, c: DownstreamChunk)
    requires DistinctNumbers(before + [c])
    ensures !Has(before, c.sequenceNumber)
  {
    var all := before + [c];
    assert all[|before|] == c && forall i :: 0 <= i < |before| ==> all[i] == before[i];
  }

  lemma TightStart(log: LaneLog)
    requires Tight(log) && log.lane.None?
    ensures log == LaneLog(None, [], [])
  {
  }

  /** The same in any interleaving of upstreams: no chunk of `u` is refused if and only if its delay is bounded. */
  lemma StrictNeverFailsIffBoundedDelay(limit: nat, chunks: Chunks, u: Uuid)
    requires |Of(u, chunks)| < U32_LIMIT && DistinctNumbers(Of(u, chunks))
    ensures Of(u, Run(true, limit, chunks).accepted) == Of(u, chunks) <==> BoundedDelay(limit, Of(u, chunks))
  {
    UpstreamsAreIndependent(true, limit, chunks, u);
    StrictAcceptsIffBoundedDelay(limit, Of(u, chunks));
  }

  /**
   When, moreover, the numbers of an upstream that arrive are consecutive, all its chunks are delivered,
   in the order of their numbers.
   */
  lemma StrictSortsWithoutLoss(limit: nat, chunks: Chunks, u: Uuid)
    requires 0 < |Of(u, chunks)| < U32_LIMIT && DistinctNumbers(Of(u, chunks)) && BoundedDelay(limit, Of(u, chunks))
    requires forall k :: 0 <= k < |Of(u, chunks)| ==> Has(Of(u, chunks), NthNumber(Of(u, chunks), k))
    ensures var own, out := Of(u, chunks), Of(u, Run(true, limit, chunks).delivered);
            && |out| == |own|
            && forall k :: 0 <= k < |out| ==> out[k].sequenceNumber == NthNumber(own, k) && out[k] in own
  {
    UpstreamsAreIndependent(true, limit, chunks, u);
    hide Wrap, Offset, Drain, Run;
    StrictAcceptsIffBoundedDelay(limit, Of(u, chunks));
    NextIsMissing(LaneRun(true, limit, Of(u, chunks)));
  }
}

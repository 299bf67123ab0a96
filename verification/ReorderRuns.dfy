/**
 Whole runs of the reorderer: any sequence of arrivals, each accepted one followed by
 draining its iterator, as the downstream read loop does (src/iscp/downstream.rs:333-347).
 */
module ReorderRuns {
  import opened Base
  import opened Types
  import opened DownOrder

  type Chunks = seq<DownstreamChunk>

  /** What has happened on one upstream. */
  datatype LaneLog = LaneLog(lane: Option<Lane>, accepted: Chunks, delivered: Chunks)

  ghost function Arrive(strict: bool, limit: nat, log: LaneLog, chunk: DownstreamChunk): LaneLog {
    match Accept(strict, limit, log.lane, chunk)
    case None => log
    case Some(lane) =>
      var d := Drain(strict, limit, lane);
      LaneLog(Some(d.lane), log.accepted + [chunk], log.delivered + d.out)
  }

  ghost function LaneRun(strict: bool, limit: nat, chunks: Chunks): LaneLog {
    if |chunks| == 0 then LaneLog(None, [], [])
    else Arrive(strict, limit, LaneRun(strict, limit, chunks[..|chunks| - 1]), chunks[|chunks| - 1])
  }

  lemma LaneRunSnoc(strict: bool, limit: nat, chunks: Chunks, c: DownstreamChunk)
    ensures LaneRun(strict, limit, chunks + [c]) == Arrive(strict, limit, LaneRun(strict, limit, chunks), c)
  {
    assert (chunks + [c])[..|chunks|] == chunks;
  }

  /** What has happened on all upstreams together. */
  datatype Log = Log(lanes: map<Uuid, Lane>, accepted: Chunks, delivered: Chunks)

  ghost function LaneIn(lanes: map<Uuid, Lane>, u: Uuid): Option<Lane> {
    if u in lanes then Some(lanes[u]) else None
  }

  ghost function Step(strict: bool, limit: nat, log: Log, chunk: DownstreamChunk): Log {
    var u := chunk.upstream.streamId;
    match Accept(strict, limit, LaneIn(log.lanes, u), chunk)
    case None => log
    case Some(lane) =>
      var d := Drain(strict, limit, lane);
      Log(log.lanes[u := d.lane], log.accepted + [chunk], log.delivered + d.out)
  }

  ghost function Run(strict: bool, limit: nat, chunks: Chunks): Log {
    if |chunks| == 0 then Log(map[], [], [])
    else Step(strict, limit, Run(strict, limit, chunks[..|chunks| - 1]), chunks[|chunks| - 1])
  }

  /** The chunks of one upstream. */
  function Of(u: Uuid, chunks: Chunks): Chunks {
    if |chunks| == 0 then []
    else
      var rest, c := Of(u, chunks[..|chunks| - 1]), chunks[|chunks| - 1];
      if c.upstream.streamId == u then rest + [c] else rest
  }

  lemma {:induction false} OfConcat(u: Uuid, a: Chunks, b: Chunks)
    ensures Of(u, a + b) == Of(u, a) + Of(u, b)
  {
    if |b| == 0 {
      assert a + b == a;
    } else {
      OfConcat(u, a, b[..|b| - 1]);
      assert (a + b)[..|a + b| - 1] == a + b[..|b| - 1];
    }
  }

  lemma {:induction false} OfUniform(u: Uuid, v: Uuid, a: Chunks)
    requires forall i :: 0 <= i < |a| ==> a[i].upstream.streamId == v
    ensures Of(u, a) == if u == v then a else []
  {
    if |a| > 0 {
      OfUniform(u, v, a[..|a| - 1]);
      assert a == a[..|a| - 1] + [a[|a| - 1]];
    }
  }

  /** The store holds only chunks of the lane's upstream. */
  ghost predicate OwnedBy(u: Uuid, store: Store) {
    Filed(store) && forall n :: n in store ==> store[n].upstream.streamId == u
  }

  lemma {:induction false} DrainKeepsOwned(strict: bool, limit: nat, u: Uuid, lane: Lane)
    requires OwnedBy(u, lane.store)
    ensures var d := Drain(strict, limit, lane);
            && OwnedBy(u, d.lane.store)
            && forall i :: 0 <= i < |d.out| ==> d.out[i].upstream.streamId == u
    decreases |lane.store|
  {
    var p := PopStep(strict, limit, lane);
    if p.out.Some? {
      DrainKeepsOwned(strict, limit, u, p.lane);
    }
  }

  /** The part of a log that concerns one upstream. */
  ghost function View(log: Log, u: Uuid): LaneLog {
    LaneLog(LaneIn(log.lanes, u), Of(u, log.accepted), Of(u, log.delivered))
  }

  lemma StepKeepsOwned(strict: bool, limit: nat, log: Log, c: DownstreamChunk)
    requires forall v :: v in log.lanes ==> OwnedBy(v, log.lanes[v].store)
    ensures var next := Step(strict, limit, log, c);
            forall v :: v in next.lanes ==> OwnedBy(v, next.lanes[v].store)
  {
    hide Drain, PopStep, Of;
    var v := c.upstream.streamId;
    var accept := Accept(strict, limit, LaneIn(log.lanes, v), c);
    if accept.Some? {
      DrainKeepsOwned(strict, limit, v, accept.value);
    }
  }

  lemma StepIsLocal(strict: bool, limit: nat, log: Log, c: DownstreamChunk, u: Uuid)
    requires forall v :: v in log.lanes ==> OwnedBy(v, log.lanes[v].store)
    ensures View(Step(strict, limit, log, c), u) ==
              if c.upstream.streamId == u then Arrive(strict, limit, View(log, u), c) else View(log, u)
  {
    hide Drain, PopStep, Of;
    var v := c.upstream.streamId;
    var accept := Accept(strict, limit, LaneIn(log.lanes, v), c);
    if accept.Some? {
      var d := Drain(strict, limit, accept.value);
      DrainKeepsOwned(strict, limit, v, accept.value);
      OfConcat(u, log.accepted, [c]);
      OfUniform(u, v, [c]);
      OfConcat(u, log.delivered, d.out);
      OfUniform(u, v, d.out);
      assert Of(u, log.accepted) + [] == Of(u, log.accepted);
      assert Of(u, log.delivered) + [] == Of(u, log.delivered);
    }
  }

  /**
   Upstreams do not disturb each other: what happens on one of them in any interleaving is
   what would have happened had its chunks been the only ones.
   */
  lemma {:induction false} UpstreamsAreIndependent(strict: bool, limit: nat, chunks: Chunks, u: Uuid)
    ensures View(Run(strict, limit, chunks), u) == LaneRun(strict, limit, Of(u, chunks))
    ensures forall v :: v in Run(strict, limit, chunks).lanes ==> OwnedBy(v, Run(strict, limit, chunks).lanes[v].store)
  {
    if |chunks| > 0 {
      var before, c := chunks[..|chunks| - 1], chunks[|chunks| - 1];
      UpstreamsAreIndependent(strict, limit, before, u);
      StepIsLocal(strict, limit, Run(strict, limit, before), c, u);
      StepKeepsOwned(strict, limit, Run(strict, limit, before), c);
      var own := Of(u, before);
      assert (own + [c])[..|own + [c]| - 1] == own;
      hide Step, Arrive;
    }
  }
}

/**
 The reliable upstream's objects: the write buffer and counters shared with the application, the
 storage of unacknowledged chunks, and the flusher (src/iscp/upstream.rs, src/iscp/storage.rs).
 */
module Upstream {
  import opened Base
  import opened Types
  import opened StableSort
  import opened UpstreamChunks

  datatype Chunk = Chunk(streamIdAlias: U32, sequenceNumber: U32, groups: seq<Group<DataIdOrAlias>>)

  /** How the close procedure's wait for the last ack ends. */
  datatype WaitEnd = LastAcked | ChannelClosed | TimedOut

  datatype AckResult = AckResult(sequenceNumber: U32, resultCode: int)

  type Chunks = map<U32, Chunk>

  // ---------------------------------------------------------------- the specification

  /** The shared counters and the buffer, between two releases of the buffer's lock. */
  datatype Counters = Counters(
    streamIdAlias: U32,
    buffer: seq<DataPointGroup>,
    payloadSize: nat,
    lastIssued: U32,
    totalDataPoints: U64)

  function PayloadSize(ps: Points): nat {
    if |ps| == 0 then 0 else PayloadSize(ps[..|ps| - 1]) + |ps[|ps| - 1].payload|
  }

  function Written(c: Counters, g: DataPointGroup): Counters {
    c.(buffer := c.buffer + [g], payloadSize := c.payloadSize + PayloadSize(g.dataPoints))
  }

  /** The counters once the buffer has been taken; an empty buffer gives no chunk and no number. */
  function Drained(c: Counters): Counters {
    if |c.buffer| == 0 then c.(payloadSize := 0)
    else
      c.(buffer := [],
         payloadSize := 0,
         lastIssued := Wrap(c.lastIssued + 1),
         totalDataPoints := (c.totalDataPoints + |AllPoints(c.buffer)|) % U64_LIMIT)
  }

  /** `chunk` may be what taking the buffer gives: only the order of its groups is open. */
  ghost predicate MayTake(rev: map<DataId, U32>, c: Counters, chunk: Option<Chunk>) {
    if |c.buffer| == 0 then chunk == None
    else
      && chunk.Some?
      && chunk.value.streamIdAlias == c.streamIdAlias
      && chunk.value.sequenceNumber == Wrap(c.lastIssued + 1)
      && Lists(Collected(AliasKey(rev), c.buffer), chunk.value.groups)
  }

  function Stored(reliable: bool, chunks: Chunks, chunk: Option<Chunk>): Chunks {
    if reliable && chunk.Some? then chunks[chunk.value.sequenceNumber := chunk.value] else chunks
  }

  function Numbers(results: seq<AckResult>): set<U32> {
    set r | r in results :: r.sequenceNumber
  }

  /** Any result, whatever its code, removes the chunk. */
  function Unacked(reliable: bool, chunks: Chunks, results: seq<AckResult>): Chunks {
    if reliable then chunks - Numbers(results) else chunks
  }

  function Greatest(last: Option<U32>, results: seq<AckResult>): Option<U32> {
    if |results| == 0 then last
    else
      var before, n := Greatest(last, results[..|results| - 1]), results[|results| - 1].sequenceNumber;
      if before.None? || before.value < n then Some(n) else before
  }

  /** The stored chunks in the order of an ordered map's iterator. */
  ghost function Ascending(chunks: Chunks): seq<Chunk>
    decreases |chunks|
  {
    if |chunks| == 0 then []
    else
      var n := LeastKey(chunks);
      assert (chunks - {n}).Keys == chunks.Keys - {n};
      [chunks[n]] + Ascending(chunks - {n})
  }

  lemma AscendingUnfolds(chunks: Chunks, n: U32)
    requires IsLeast(n, chunks)
    ensures Ascending(chunks) == [chunks[n]] + Ascending(chunks - {n}) && |chunks - {n}| < |chunks|
  {
    var least := LeastKey(chunks);
    assert least == n;
    assert (chunks - {n}).Keys == chunks.Keys - {n};
  }

  lemma AscendingEnds(chunks: Chunks)
    requires |chunks| == 0
    ensures Ascending(chunks) == []
  {
  }

  /** Chunks are filed under their own numbers. */
  ghost predicate Filed(chunks: Chunks) {
    forall n :: n in chunks ==> chunks[n].sequenceNumber == n
  }

  predicate Increasing(cs: seq<Chunk>) {
    forall i, j :: 0 <= i < j < |cs| ==> cs[i].sequenceNumber < cs[j].sequenceNumber
  }

  /** The iterator yields exactly the stored chunks ... */
  lemma {:induction false} AscendingHasAll(chunks: Chunks, c: Chunk)
    requires Filed(chunks)
    ensures c in Ascending(chunks) <==> c.sequenceNumber in chunks && chunks[c.sequenceNumber] == c
    decreases |chunks|
  {
    if |chunks| > 0 {
      var n := LeastKey(chunks);
      hide IsLeast;
      assert (chunks - {n}).Keys == chunks.Keys - {n};
      AscendingHasAll(chunks - {n}, c);
    }
  }

  /** ... by increasing number. */
  lemma {:induction false} AscendingIncreases(chunks: Chunks)
    requires Filed(chunks)
    ensures Increasing(Ascending(chunks))
    decreases |chunks|
  {
    if |chunks| > 0 {
      var n := LeastKey(chunks);
      assert (chunks - {n}).Keys == chunks.Keys - {n};
      var rest := Ascending(chunks - {n});
      AscendingIncreases(chunks - {n});
      forall i | 0 <= i < |rest|
        ensures n < rest[i].sequenceNumber
      {
        AscendingHasAll(chunks - {n}, rest[i]);
      }
    }
  }

  // ---------------------------------------------------------------- the client's objects

  class UpstreamStorage {
    const isReliable: bool
    var chunks: Chunks
    var lastReceivedSequenceNumber: Option<U32>

    constructor (qos: QoS)
      ensures isReliable == (qos == Reliable) && chunks == map[] && lastReceivedSequenceNumber == None
    {
      isReliable := qos == Reliable;
      chunks := map[];
      lastReceivedSequenceNumber := None;
    }

    method AddChunk(chunk: Chunk)
      modifies this`chunks
      ensures chunks == Stored(isReliable, old(chunks), Some(chunk))
    {
      if isReliable {
        chunks := chunks[chunk.sequenceNumber := chunk];
      }
    }

    method ProcessAck(results: seq<AckResult>)
      modifies this
      ensures chunks == Unacked(isReliable, old(chunks), results)
      ensures lastReceivedSequenceNumber == Greatest(old(lastReceivedSequenceNumber), results)
    {
      assert old(chunks) - Numbers([]) == old(chunks);
      for i := 0 to |results|
        invariant chunks == Unacked(isReliable, old(chunks), results[..i])
        invariant lastReceivedSequenceNumber == Greatest(old(lastReceivedSequenceNumber), results[..i])
      {
        var n := results[i].sequenceNumber;
        assert results[..i + 1][..i] == results[..i];
        if lastReceivedSequenceNumber.None? || lastReceivedSequenceNumber.value < n {
          lastReceivedSequenceNumber := Some(n);
        }
        if isReliable {
          chunks := chunks - {n};
        }
        assert results[..i + 1] == results[..i] + [results[i]];
        NumbersSnoc(results[..i], results[i]);
      }
      assert results[..|results|] == results;
    }

    /** The chunks by ascending number. */
    method IterChunks() returns (out: seq<Chunk>)
      ensures out == Ascending(chunks)
    {
      hide Ascending;
      out := [];
      var left := chunks;
      while |left| > 0
        invariant Ascending(chunks) == out + Ascending(left)
        decreases |left|
      {
        ghost var least := LeastKey(left);
        var n :| n in left && forall k | k in left :: n <= k;
        AscendingUnfolds(left, n);
        out := out + [left[n]];
        left := left - {n};
      }
      AscendingEnds(left);
    }
  }

  lemma {:induction false} GreatestConcat(last: Option<U32>, a: seq<AckResult>, b: seq<AckResult>)
    ensures Greatest(last, a + b) == Greatest(Greatest(last, a), b)
  {
    if |b| == 0 {
      assert a + b == a;
    } else {
      assert (a + b)[..|a + b| - 1] == a + b[..|b| - 1];
      GreatestConcat(last, a, b[..|b| - 1]);
    }
  }

  lemma UnackedConcat(reliable: bool, chunks: Chunks, a: seq<AckResult>, b: seq<AckResult>)
    ensures Unacked(reliable, chunks, a + b) == Unacked(reliable, Unacked(reliable, chunks, a), b)
  {
    assert Numbers(a + b) == Numbers(a) + Numbers(b) by {
      assert forall r :: r in a + b <==> r in a || r in b;
    }
  }

  lemma NumbersSnoc(results: seq<AckResult>, r: AckResult)
    ensures Numbers(results + [r]) == Numbers(results) + {r.sequenceNumber}
  {
    var all := results + [r];
    assert all[|results|] == r;
    forall n | n in Numbers(results)
      ensures n in Numbers(all)
    {
      var x :| x in results && x.sequenceNumber == n;
      assert x in all;
    }
  }

  /** The sending half of a connection: what its write loop has been given. */
  class WireConn {
    var enqueued: seq<Chunk>

    constructor ()
      ensures enqueued == []
    {
      enqueued := [];
    }

    /** `accepts` says whether the connection still takes messages. */
    method Send(chunk: Chunk, accepts: bool) returns (ok: bool)
      modifies this
      ensures ok == accepts
      ensures enqueued == if accepts then old(enqueued) + [chunk] else old(enqueued)
    {
      if accepts {
        enqueued := enqueued + [chunk];
      }
      return accepts;
    }
  }

  class UpstreamInner {
    const qos: QoS
    const dataIdAliases: map<U32, DataId>
    const hasSendCallback: bool
    var streamIdAlias: U32
    var dataPointsBuffer: seq<DataPointGroup>
    var bufferPayloadSize: nat
    var lastIssuedSequenceNumber: U32
    var totalDataPoints: U64

    ghost function Abs(): Counters
      reads this
    {
      Counters(streamIdAlias, dataPointsBuffer, bufferPayloadSize, lastIssuedSequenceNumber, totalDataPoints)
    }

    constructor (qos: QoS, dataIdAliases: map<U32, DataId>, hasSendCallback: bool, streamIdAlias: U32)
      ensures this.qos == qos && this.dataIdAliases == dataIdAliases
      ensures Abs() == Counters(streamIdAlias, [], 0, 0, 0)
    {
      this.qos := qos;
      this.dataIdAliases := dataIdAliases;
      this.hasSendCallback := hasSendCallback;
      this.streamIdAlias := streamIdAlias;
      dataPointsBuffer := [];
      bufferPayloadSize := 0;
      lastIssuedSequenceNumber := 0;
      totalDataPoints := 0;
    }

    /** The buffered part of `write_data_points`; the points stay buffered even if the stream is closed. */
    method WriteDataPoints(dataId: DataId, dps: Points)
      modifies this
      ensures Abs() == Written(old(Abs()), DataPointGroup(dataId, dps))
    {
      var addSize := 0;
      for i := 0 to |dps|
        invariant addSize == PayloadSize(dps[..i])
      {
        assert dps[..i + 1][..i] == dps[..i];
        addSize := addSize + |dps[i].payload|;
      }
      assert dps[..|dps|] == dps;
      dataPointsBuffer := dataPointsBuffer + [DataPointGroup(dataId, dps)];
      bufferPayloadSize := bufferPayloadSize + addSize;
    }
  }

  class UpstreamFlusher {
    const inner: UpstreamInner
    const revDataIdAliases: map<DataId, U32>
    const storage: UpstreamStorage

    ghost predicate Valid() {
      ReverseOf(inner.dataIdAliases, revDataIdAliases) && storage.isReliable == (inner.qos == Reliable)
    }

    constructor (inner: UpstreamInner)
      ensures Valid() && this.inner == inner && fresh(storage)
      ensures storage.chunks == map[] && storage.lastReceivedSequenceNumber == None
    {
      this.inner := inner;
      var rev := Reverse(inner.dataIdAliases);
      revDataIdAliases := rev;
      storage := new UpstreamStorage(inner.qos);
    }

    /** Takes the whole buffer; the second result is for the application's callback. */
    method TakeChunk() returns (chunk: Option<Chunk>, callback: seq<Group<DataId>>)
      requires Valid()
      modifies inner
      ensures inner.Abs() == Drained(old(inner.Abs()))
      ensures MayTake(revDataIdAliases, old(inner.Abs()), chunk)
      ensures chunk.Some? && inner.hasSendCallback ==>
                Lists(Collected(OwnKey(), old(inner.dataPointsBuffer)), callback)
    {
      hide Collected, Lists, AllPoints, PayloadSize;
      var dpgs := inner.dataPointsBuffer;
      inner.bufferPayloadSize := 0;
      inner.dataPointsBuffer := [];
      callback := [];
      if |dpgs| == 0 {
        return None, [];
      }
      if inner.hasSendCallback {
        var vecs := Collect(OwnKey(), dpgs);
        callback := ListSorted(vecs);
      }
      var additional := CountPoints(dpgs);
      var vecs := Collect(AliasKey(revDataIdAliases), dpgs);
      var groups := ListSorted(vecs);
      var sequenceNumber := Wrap(inner.lastIssuedSequenceNumber as int + 1);
      inner.lastIssuedSequenceNumber := sequenceNumber;
      chunk := Some(Chunk(inner.streamIdAlias, sequenceNumber, groups));
      inner.totalDataPoints := (inner.totalDataPoints + additional) % U64_LIMIT;
    }

    /** Takes the buffer, stores the chunk and, on a connection, sends it. */
    method Flush(conn: WireConn?, accepts: bool) returns (ok: bool, ghost chunk: Option<Chunk>)
      requires Valid()
      modifies inner, storage`chunks, conn
      ensures inner.Abs() == Drained(old(inner.Abs()))
      ensures MayTake(revDataIdAliases, old(inner.Abs()), chunk)
      ensures storage.chunks == Stored(storage.isReliable, old(storage.chunks), chunk)
      ensures ok <==> conn == null || chunk.None? || accepts
      ensures conn != null ==>
                conn.enqueued == if chunk.Some? && accepts then old(conn.enqueued) + [chunk.value] else old(conn.enqueued)
    {
      var taken, callback := TakeChunk();
      chunk := taken;
      ok := true;
      if taken.Some? {
        storage.AddChunk(taken.value);
        if conn != null {
          ok := conn.Send(taken.value, accepts);
        }
      }
    }

    /**
     Reliable streams resend everything stored, until a send fails; the connection takes the first
     `accepted` messages. Other streams empty the buffer into a chunk that is not sent.
     */
    method AfterResume(conn: WireConn, accepted: nat) returns (ok: bool, ghost chunk: Option<Chunk>)
      requires Valid()
      modifies inner, storage`chunks, conn
      ensures storage.isReliable ==>
                && inner.Abs() == old(inner.Abs()) && storage.chunks == old(storage.chunks) && chunk == None
                && (ok <==> |Ascending(storage.chunks)| <= accepted)
                && conn.enqueued == old(conn.enqueued) + Resent(storage.chunks, accepted)
      ensures !storage.isReliable ==>
                && ok && conn.enqueued == old(conn.enqueued) && storage.chunks == old(storage.chunks)
                && inner.Abs() == Drained(old(inner.Abs()))
                && MayTake(revDataIdAliases, old(inner.Abs()), chunk)
    {
      chunk := None;
      if inner.qos == Reliable {
        var pending := storage.IterChunks();
        for i := 0 to |pending|
          invariant i <= accepted
          invariant conn.enqueued == old(conn.enqueued) + pending[..i]
          invariant inner.Abs() == old(inner.Abs()) && storage.chunks == old(storage.chunks)
        {
          assert pending[..i + 1] == pending[..i] + [pending[i]];
          var sent := conn.Send(pending[i], i < accepted);
          if !sent {
            return false, None;
          }
        }
        assert pending[..|pending|] == pending;
      } else {
        chunk := ProcessRemainingDataPoints();
      }
      ok := true;
    }

    /**
     The close procedure's wait. `incoming` are the acks that come, and after them the channel is closed or the time is
     up. `processed` is how many were needed.
     */
    method WaitForLastAck(incoming: seq<seq<AckResult>>, channelCloses: bool) returns (end: WaitEnd, processed: nat)
      modifies storage
      ensures processed <= |incoming|
      ensures storage.chunks == Unacked(storage.isReliable, old(storage.chunks), Flatten(incoming[..processed]))
      ensures storage.lastReceivedSequenceNumber ==
                Greatest(old(storage.lastReceivedSequenceNumber), Flatten(incoming[..processed]))
      ensures var waiting, last := inner.lastIssuedSequenceNumber, old(storage.lastReceivedSequenceNumber);
              && (end == LastAcked <==> waiting == 0 || Greatest(last, Flatten(incoming[..processed])) == Some(waiting))
              && (end != LastAcked ==> processed == |incoming| && (end == ChannelClosed <==> channelCloses))
              && (forall k :: 0 <= k < processed ==> Greatest(last, Flatten(incoming[..k])) != Some(waiting))
    {
      var waiting := inner.lastIssuedSequenceNumber;
      ghost var chunks, last := storage.chunks, storage.lastReceivedSequenceNumber;
      processed := 0;
      assert chunks - Numbers([]) == chunks;
      if waiting == 0 {
        return LastAcked, 0;
      }
      while true
        invariant processed <= |incoming|
        invariant storage.chunks == Unacked(storage.isReliable, chunks, Flatten(incoming[..processed]))
        invariant storage.lastReceivedSequenceNumber == Greatest(last, Flatten(incoming[..processed]))
        invariant forall k :: 0 <= k < processed ==> Greatest(last, Flatten(incoming[..k])) != Some(waiting)
        decreases |incoming| - processed
      {
        if storage.lastReceivedSequenceNumber == Some(waiting) {
          return LastAcked, processed;
        }
        if processed == |incoming| {
          return if channelCloses then ChannelClosed else TimedOut, processed;
        }
        var before := incoming[..processed];
        storage.ProcessAck(incoming[processed]);
        assert incoming[..processed + 1][..processed] == before;
        GreatestConcat(last, Flatten(before), incoming[processed]);
        UnackedConcat(storage.isReliable, chunks, Flatten(before), incoming[processed]);
        processed := processed + 1;
      }
    }

    /** Takes and stores a last chunk without sending it. */
    method ProcessRemainingDataPoints() returns (ghost chunk: Option<Chunk>)
      requires Valid()
      modifies inner, storage`chunks
      ensures inner.Abs() == Drained(old(inner.Abs()))
      ensures MayTake(revDataIdAliases, old(inner.Abs()), chunk)
      ensures storage.chunks == Stored(storage.isReliable, old(storage.chunks), chunk)
    {
      var taken, callback := TakeChunk();
      chunk := taken;
      if taken.Some? {
        storage.AddChunk(taken.value);
      }
    }
  }

  ghost function Resent(chunks: Chunks, accepted: nat): seq<Chunk> {
    if |Ascending(chunks)| <= accepted then Ascending(chunks) else Ascending(chunks)[..accepted]
  }

  method CountPoints(dpgs: seq<DataPointGroup>) returns (n: nat)
    ensures n == |AllPoints(dpgs)|
  {
    n := 0;
    for i := 0 to |dpgs|
      invariant n == |AllPoints(dpgs[..i])|
    {
      assert dpgs[..i + 1][..i] == dpgs[..i];
      n := n + |dpgs[i].dataPoints|;
    }
    assert dpgs[..|dpgs|] == dpgs;
  }
}

/**
 Whole runs of an upstream: application writes, the flush loop, acks, lost connections and
 resumes, as atomic steps (src/iscp/upstream.rs:265-421, 453-468, 564-597).
 */
module UpstreamLoop {
  import opened Base
  import opened Types
  import opened StableSort
  import opened UpstreamChunks
  import opened Upstream

  datatype Config = Config(rev: map<DataId, U32>, reliable: bool)

  /** Waiting for the resume task; live on a connection; waiting for the last ack before closing; out of the loop; finished. */
  datatype Phase = Waiting | Live | Closing | Gone | Done

  datatype CloseRequest = CloseRequest(finalSequenceNumber: U32, totalDataPoints: U64)

  /** How a chunk was taken: by a flush without a connection, one that was sent or failed to be, a resume, or at the end. */
  datatype Taking = WhileWaiting | Sent | SendFailed | OnResume | AtTheEnd

  /**
   The first four fields are the client's state. The others record history: the groups written, those
   taken into chunks, the chunks issued and how, the numbers acked, what was enqueued on the connection
   since the stream attached to it, and the close request.
   */
  datatype State = State(
    phase: Phase,
    counters: Counters,
    chunks: Chunks,
    lastReceived: Option<U32>,
    written: seq<DataPointGroup>,
    taken: seq<DataPointGroup>,
    issued: seq<Chunk>,
    takings: seq<Taking>,
    acked: set<U32>,
    enqueued: seq<Chunk>,
    closeRequest: Option<CloseRequest>)

  function Start(alias: U32): State {
    State(Waiting, Counters(alias, [], 0, 0, 0), map[], None, [], [], [], [], {}, [], None)
  }

  /**
   `chunk` is the chunk taken in the step, whose group order is not determined; `accepts` and `accepted`
   say what the connection takes; `giveUp` that the stream does not expire later or is closing; `closing` that
   the flush is the one before a close.
   */
  datatype Event =
    | Write(group: DataPointGroup)
    | NewAlias(alias: U32)
    | Flush(chunk: Option<Chunk>, accepts: bool, giveUp: bool, closing: bool)
    | Resume(chunk: Option<Chunk>, accepted: nat, giveUp: bool)
    | ResumeFails
    | Acks(results: seq<AckResult>)
    | Lost(giveUp: bool)
    | Close(end: WaitEnd)
    | Remaining(chunk: Option<Chunk>)

  /** The close procedure has not yet got what it waits for. */
  predicate StillWaits(s: State) {
    s.counters.lastIssued > 0 && s.lastReceived != Some(s.counters.lastIssued)
  }

  predicate OnConnection(s: State) {
    s.phase == Live || s.phase == Closing
  }

  /** Chunks are taken only as `TakeChunk` takes them, and the server acks only numbers that were issued. */
  ghost predicate Enabled(cfg: Config, s: State, e: Event) {
    match e
    case Write(_) => true
    case NewAlias(_) => s.phase == Waiting
    case Flush(chunk, _, _, _) => (s.phase == Waiting || s.phase == Live) && MayTake(cfg.rev, s.counters, chunk)
    case Resume(chunk, _, _) =>
      s.phase == Waiting && if cfg.reliable then chunk == None else MayTake(cfg.rev, s.counters, chunk)
    case ResumeFails => s.phase == Waiting
    case Acks(results) =>
      && (s.phase == Live || (s.phase == Closing && StillWaits(s)))
      && forall r :: r in results ==> 1 <= r.sequenceNumber <= |s.issued|
    case Lost(_) => s.phase == Live
    case Close(end) => s.phase == Closing && (end == LastAcked <==> !StillWaits(s))
    case Remaining(chunk) => s.phase == Gone && MayTake(cfg.rev, s.counters, chunk)
  }

  /** Taking the buffer and storing the chunk. */
  function Take(cfg: Config, s: State, chunk: Option<Chunk>, how: Taking): State {
    s.(counters := Drained(s.counters),
       taken := s.taken + s.counters.buffer,
       issued := if chunk.Some? then s.issued + [chunk.value] else s.issued,
       takings := if chunk.Some? then s.takings + [how] else s.takings,
       chunks := Stored(cfg.reliable, s.chunks, chunk))
  }

  function Leave(s: State, giveUp: bool): State {
    s.(phase := if giveUp then Gone else Waiting)
  }

  /** A live flush that goes through; the loop checks only after it whether the last number has been used. */
  function Flushed(cfg: Config, s: State, chunk: Option<Chunk>, closing: bool): State {
    var t := Take(cfg, s, chunk, Sent);
    t.(enqueued := if chunk.Some? then t.enqueued + [chunk.value] else t.enqueued,
       phase := if closing || t.counters.lastIssued == U32_LIMIT - 1 then Closing else Live)
  }

  ghost function Step(cfg: Config, s: State, e: Event): State {
    if !Enabled(cfg, s, e) then s
    else
      match e
      case Write(g) => s.(counters := Written(s.counters, g), written := s.written + [g])
      case NewAlias(alias) => s.(counters := s.counters.(streamIdAlias := alias))
      case Flush(chunk, accepts, giveUp, closing) =>
        if s.phase == Waiting then Take(cfg, s, chunk, WhileWaiting)
        else if chunk.None? || accepts then Flushed(cfg, s, chunk, closing)
        else Leave(Take(cfg, s, chunk, SendFailed), giveUp)
      case Resume(chunk, accepted, giveUp) =>
        if !cfg.reliable then Take(cfg, s, chunk, OnResume).(phase := Live, enqueued := [])
        else
          var t := s.(enqueued := Resent(s.chunks, accepted));
          if |Ascending(s.chunks)| <= accepted then t.(phase := Live) else Leave(t, giveUp)
      case ResumeFails => s.(phase := Gone)
      case Acks(results) =>
        s.(chunks := Unacked(cfg.reliable, s.chunks, results),
           lastReceived := Greatest(s.lastReceived, results),
           acked := s.acked + Numbers(results))
      case Lost(giveUp) => Leave(s, giveUp)
      case Close(_) =>
        s.(phase := Gone, closeRequest := Some(CloseRequest(s.counters.lastIssued, s.counters.totalDataPoints)))
      case Remaining(chunk) => Take(cfg, s, chunk, AtTheEnd).(phase := Done)
  }

  ghost function Run(cfg: Config, alias: U32, events: seq<Event>): State {
    if |events| == 0 then Start(alias)
    else Step(cfg, Run(cfg, alias, events[..|events| - 1]), events[|events| - 1])
  }

  // ---------------------------------------------------------------- what every step keeps

  /** Chunks are numbered 1, 2, 3, ..., modulo 2^32. */
  ghost predicate Counting(s: State) {
    && s.counters.lastIssued == Wrap(|s.issued|)
    && forall k :: 0 <= k < |s.issued| ==> s.issued[k].sequenceNumber == Wrap(k + 1)
  }

  /** The numbers have not wrapped yet. */
  ghost predicate Numbering(s: State) {
    && |s.issued| < U32_LIMIT
    && s.counters.lastIssued == |s.issued|
    && forall k :: 0 <= k < |s.issued| ==> s.issued[k].sequenceNumber == k + 1
  }

  /** The storage holds exactly the chunks issued and not acked yet, as they were issued. */
  ghost predicate StoresUnacked(cfg: Config, s: State) {
    && (forall n: U32 :: n in s.chunks <==> cfg.reliable && 1 <= n <= |s.issued| && n !in s.acked)
    && (forall n :: n in s.chunks ==> s.chunks[n] == s.issued[n - 1])
    && (forall n :: n in s.acked ==> 1 <= n <= |s.issued|)
  }

  function BufferPayload(dpgs: seq<DataPointGroup>): nat {
    if |dpgs| == 0 then 0 else BufferPayload(dpgs[..|dpgs| - 1]) + PayloadSize(dpgs[|dpgs| - 1].dataPoints)
  }

  /** All points of the chunks issued. */
  function IssuedPoints(issued: seq<Chunk>): Points {
    if |issued| == 0 then [] else IssuedPoints(issued[..|issued| - 1]) + GroupPoints(issued[|issued| - 1].groups)
  }

  /** Every point written is buffered or in an issued chunk, and the counters agree. */
  ghost predicate Accounts(s: State) {
    && s.written == s.taken + s.counters.buffer
    && multiset(IssuedPoints(s.issued)) == multiset(AllPoints(s.taken))
    && s.counters.totalDataPoints == |IssuedPoints(s.issued)| % U64_LIMIT
    && s.counters.payloadSize == BufferPayload(s.counters.buffer)
  }

  /** While on a connection, it has been given every stored chunk, and only issued ones, by increasing number. */
  ghost predicate CoversStored(cfg: Config, s: State) {
    && Increasing(s.enqueued)
    && (forall i :: 0 <= i < |s.enqueued| ==>
          && 1 <= s.enqueued[i].sequenceNumber <= |s.issued|
          && s.enqueued[i] == s.issued[s.enqueued[i].sequenceNumber - 1])
    && (OnConnection(s) ==> forall n :: n in s.chunks ==> s.chunks[n] in s.enqueued)
  }

  /** The last number received is the greatest acked. */
  ghost predicate TracksGreatest(s: State) {
    match s.lastReceived
    case None => s.acked == {}
    case Some(n) => n in s.acked && forall m :: m in s.acked ==> m <= n
  }

  ghost predicate Sound(cfg: Config, s: State) {
    Numbering(s) && StoresUnacked(cfg, s) && Accounts(s) && CoversStored(cfg, s) && TracksGreatest(s)
  }

  lemma {:induction false} AllPointsConcat(a: seq<DataPointGroup>, b: seq<DataPointGroup>)
    ensures AllPoints(a + b) == AllPoints(a) + AllPoints(b)
  {
    if |b| == 0 {
      assert a + b == a;
    } else {
      AllPointsConcat(a, b[..|b| - 1]);
      assert (a + b)[..|a + b| - 1] == a + b[..|b| - 1];
    }
  }

  lemma IssuedSnoc(issued: seq<Chunk>, chunk: Chunk)
    ensures IssuedPoints(issued + [chunk]) == IssuedPoints(issued) + GroupPoints(chunk.groups)
  {
    assert (issued + [chunk])[..|issued|] == issued;
  }

  lemma SamePointsJoin(a: Points, b: Points, c: Points, d: Points)
    requires multiset(a) == multiset(c) && multiset(b) == multiset(d)
    ensures multiset(a + b) == multiset(c + d)
  {
  }

  /** A chunk issued holds the points of the buffer. */
  lemma ChunkKeepsAccounts(rev: map<DataId, U32>, s: State, chunk: Chunk)
    requires Accounts(s) && MayTake(rev, s.counters, Some(chunk))
    ensures multiset(IssuedPoints(s.issued + [chunk])) == multiset(AllPoints(s.taken + s.counters.buffer))
    ensures (s.counters.totalDataPoints + |AllPoints(s.counters.buffer)|) % U64_LIMIT
         == |IssuedPoints(s.issued + [chunk])| % U64_LIMIT
  {
    hide IssuedPoints, AllPoints, GroupPoints, BufferPayload, Collected, Lists, Wrap;
    var buffer := s.counters.buffer;
    ChunkConservesPoints(AliasKey(rev), buffer, chunk.groups);
    AllPointsConcat(s.taken, buffer);
    IssuedSnoc(s.issued, chunk);
    SamePointsJoin(IssuedPoints(s.issued), GroupPoints(chunk.groups), AllPoints(s.taken), AllPoints(buffer));
    TotalsAdd(|IssuedPoints(s.issued)|, |AllPoints(buffer)|);
  }

  lemma EmptyBuffer()
    ensures BufferPayload([]) == 0
  {
  }

  lemma TakeKeepsAccounts(cfg: Config, s: State, chunk: Option<Chunk>, how: Taking)
    requires Accounts(s) && MayTake(cfg.rev, s.counters, chunk)
    ensures Accounts(Take(cfg, s, chunk, how))
  {
    hide Collected, Lists, Stored, Wrap, AllPoints, IssuedPoints, BufferPayload;
    EmptyBuffer();
    if chunk.Some? {
      ChunkKeepsAccounts(cfg.rev, s, chunk.value);
    } else {
      assert s.counters.buffer == [] && s.taken + [] == s.taken;
    }
  }

  lemma TotalsAdd(a: nat, b: nat)
    ensures (a % U64_LIMIT + b) % U64_LIMIT == (a + b) % U64_LIMIT
  {
  }

  /** A chunk taken gets the next number; nothing already issued or stored changes. */
  lemma TakeKeepsChunks(cfg: Config, s: State, chunk: Option<Chunk>, how: Taking)
    requires Numbering(s) && StoresUnacked(cfg, s) && MayTake(cfg.rev, s.counters, chunk)
    requires |Take(cfg, s, chunk, how).issued| < U32_LIMIT
    ensures Numbering(Take(cfg, s, chunk, how)) && StoresUnacked(cfg, Take(cfg, s, chunk, how))
    ensures chunk.Some? ==> chunk.value.sequenceNumber == |s.issued| + 1
  {
    var t := Take(cfg, s, chunk, how);
    if chunk.Some? {
      var n := |s.issued| + 1;
      assert Wrap(s.counters.lastIssued + 1) == n;
      assert forall k :: 0 <= k < |s.issued| ==> t.issued[k] == s.issued[k];
    }
  }

  /** Taking without sending, off any connection or with nothing to take. */
  lemma TakeKeepsCover(cfg: Config, s: State, chunk: Option<Chunk>, how: Taking, phase: Phase)
    requires CoversStored(cfg, s)
    requires phase == Live || phase == Closing ==> chunk.None? && OnConnection(s)
    ensures CoversStored(cfg, Take(cfg, s, chunk, how).(phase := phase))
  {
    hide Drained;
    var t := Take(cfg, s, chunk, how).(phase := phase);
    assert s.issued <= t.issued;
  }

  lemma TakeIsSound(cfg: Config, s: State, chunk: Option<Chunk>, how: Taking, phase: Phase)
    requires Sound(cfg, s) && MayTake(cfg.rev, s.counters, chunk) && |Take(cfg, s, chunk, how).issued| < U32_LIMIT
    requires phase == Live || phase == Closing ==> chunk.None? && OnConnection(s)
    ensures Sound(cfg, Take(cfg, s, chunk, how).(phase := phase))
  {
    TakeKeepsAccounts(cfg, s, chunk, how);
    TakeKeepsChunks(cfg, s, chunk, how);
    TakeKeepsCover(cfg, s, chunk, how, phase);
    PhaseIsOpen(cfg, Take(cfg, s, chunk, how), phase);
    hide MayTake, Drained, Numbering, Accounts, StoresUnacked, CoversStored;
  }

  /** Only `CoversStored` depends on the phase. */
  lemma PhaseIsOpen(cfg: Config, s: State, phase: Phase)
    requires Numbering(s) && StoresUnacked(cfg, s) && Accounts(s)
    ensures var t := s.(phase := phase); Numbering(t) && StoresUnacked(cfg, t) && Accounts(t)
  {
    hide IssuedPoints, AllPoints, BufferPayload;
  }

  lemma SendKeepsCover(cfg: Config, s: State, chunk: Chunk, closing: bool)
    requires CoversStored(cfg, s) && chunk.sequenceNumber == |s.issued| + 1 && OnConnection(s)
    requires forall n :: n in s.chunks ==> s.chunks[n].sequenceNumber == n
    ensures CoversStored(cfg, Flushed(cfg, s, Some(chunk), closing))
  {
    hide Drained;
    var u := Flushed(cfg, s, Some(chunk), closing);
    assert u.enqueued[|s.enqueued|] == chunk;
    assert s.issued <= u.issued;
    assert forall c :: c in s.enqueued ==> c in u.enqueued;
  }

  lemma SendIsSound(cfg: Config, s: State, chunk: Chunk, closing: bool)
    requires Sound(cfg, s) && MayTake(cfg.rev, s.counters, Some(chunk)) && OnConnection(s)
    requires |s.issued| + 1 < U32_LIMIT
    ensures Sound(cfg, Flushed(cfg, s, Some(chunk), closing))
  {
    TakeKeepsAccounts(cfg, s, Some(chunk), Sent);
    TakeKeepsChunks(cfg, s, Some(chunk), Sent);
    SendKeepsCover(cfg, s, chunk, closing);
    var t, u := Take(cfg, s, Some(chunk), Sent), Flushed(cfg, s, Some(chunk), closing);
    assert TracksGreatest(u);
    PhaseIsOpen(cfg, t, u.phase);
    SendingIsOpen(cfg, t.(phase := u.phase), u.enqueued);
    hide MayTake, Drained, Numbering, Accounts, StoresUnacked, CoversStored, TracksGreatest, Stored;
  }

  /** Only `CoversStored` depends on what was enqueued. */
  lemma SendingIsOpen(cfg: Config, s: State, enqueued: seq<Chunk>)
    requires Numbering(s) && StoresUnacked(cfg, s) && Accounts(s)
    ensures var t := s.(enqueued := enqueued); Numbering(t) && StoresUnacked(cfg, t) && Accounts(t)
  {
    hide IssuedPoints, AllPoints, BufferPayload;
  }

  lemma FlushedIsSound(cfg: Config, s: State, chunk: Option<Chunk>, closing: bool)
    requires Sound(cfg, s) && MayTake(cfg.rev, s.counters, chunk) && OnConnection(s)
    requires |Flushed(cfg, s, chunk, closing).issued| < U32_LIMIT
    ensures Sound(cfg, Flushed(cfg, s, chunk, closing))
  {
    if chunk.Some? {
      SendIsSound(cfg, s, chunk.value, closing);
    } else {
      TakeIsSound(cfg, s, chunk, Sent, Flushed(cfg, s, chunk, closing).phase);
    }
    hide Sound, MayTake, Drained, Stored;
  }

  lemma ResentFacts(chunks: Chunks, accepted: nat)
    requires Filed(chunks)
    ensures var sent := Resent(chunks, accepted);
            && Increasing(sent)
            && (forall i :: 0 <= i < |sent| ==>
                  sent[i].sequenceNumber in chunks && chunks[sent[i].sequenceNumber] == sent[i])
            && (|Ascending(chunks)| <= accepted ==> forall n :: n in chunks ==> chunks[n] in sent)
  {
    AscendingIncreases(chunks);
    forall c
      ensures c in Ascending(chunks) <==> c.sequenceNumber in chunks && chunks[c.sequenceNumber] == c
    {
      AscendingHasAll(chunks, c);
    }
    hide Ascending;
    var sent := Resent(chunks, accepted);
    assert forall i :: 0 <= i < |sent| ==> sent[i] == Ascending(chunks)[i];
  }

  lemma ResentWasIssued(cfg: Config, s: State, accepted: nat)
    requires StoresUnacked(cfg, s) && Numbering(s)
    ensures forall c :: c in Resent(s.chunks, accepted) ==>
              1 <= c.sequenceNumber <= |s.issued| && c == s.issued[c.sequenceNumber - 1]
  {
    ResentFacts(s.chunks, accepted);
    hide Resent;
    var sent := Resent(s.chunks, accepted);
    forall c | c in sent
      ensures 1 <= c.sequenceNumber <= |s.issued| && c == s.issued[c.sequenceNumber - 1]
    {
      var i :| 0 <= i < |sent| && sent[i] == c;
      assert c.sequenceNumber in s.chunks;
    }
  }

  lemma ResendCovers(cfg: Config, s: State, accepted: nat, phase: Phase)
    requires StoresUnacked(cfg, s) && Numbering(s) && phase != Closing
    requires phase == Live ==> |Ascending(s.chunks)| <= accepted
    ensures CoversStored(cfg, s.(enqueued := Resent(s.chunks, accepted), phase := phase))
  {
    ResentWasIssued(cfg, s, accepted);
    assert Filed(s.chunks);
    ResentFacts(s.chunks, accepted);
    hide StoresUnacked, Numbering, Resent, Ascending, Filed;
  }

  /** Only `CoversStored` depends on the phase and on what was enqueued. */
  lemma CoverSuffices(cfg: Config, s: State, phase: Phase, enqueued: seq<Chunk>)
    requires Sound(cfg, s) && CoversStored(cfg, s.(enqueued := enqueued, phase := phase))
    ensures Sound(cfg, s.(enqueued := enqueued, phase := phase))
  {
    hide CoversStored, IssuedPoints, AllPoints, BufferPayload;
  }

  lemma ResendIsSound(cfg: Config, s: State, accepted: nat, giveUp: bool)
    requires Sound(cfg, s) && cfg.reliable
    ensures var t := s.(enqueued := Resent(s.chunks, accepted));
            Sound(cfg, if |Ascending(s.chunks)| <= accepted then t.(phase := Live) else Leave(t, giveUp))
  {
    var phase := if |Ascending(s.chunks)| <= accepted then Live else if giveUp then Gone else Waiting;
    ResendCovers(cfg, s, accepted, phase);
    CoverSuffices(cfg, s, phase, Resent(s.chunks, accepted));
    hide Sound, Resent, Ascending;
  }

  lemma {:induction false} GreatestTracks(acked: set<U32>, last: Option<U32>, results: seq<AckResult>)
    requires match last case None => acked == {} case Some(n) => n in acked && forall m :: m in acked ==> m <= n
    ensures match Greatest(last, results)
            case None => acked + Numbers(results) == {}
            case Some(n) =>
              n in acked + Numbers(results) && forall m :: m in acked + Numbers(results) ==> m <= n
  {
    if |results| == 0 {
      assert acked + Numbers(results) == acked;
    } else {
      var k := |results| - 1;
      GreatestTracks(acked, last, results[..k]);
      assert results == results[..k] + [results[k]];
      NumbersSnoc(results[..k], results[k]);
    }
  }

  lemma NumbersMembers(results: seq<AckResult>)
    ensures forall n :: n in Numbers(results) ==> exists r :: r in results && r.sequenceNumber == n
  {
  }

  lemma AcksKeepStorage(cfg: Config, s: State, results: seq<AckResult>)
    requires StoresUnacked(cfg, s) && Enabled(cfg, s, Acks(results))
    ensures StoresUnacked(cfg, Step(cfg, s, Acks(results)))
  {
    NumbersMembers(results);
    hide Numbers, Greatest;
    forall n | n in Numbers(results)
      ensures 1 <= n <= |s.issued|
    {
      var r :| r in results && r.sequenceNumber == n;
    }
  }

  /** An ack only shrinks the storage. */
  lemma AcksKeepCover(cfg: Config, s: State, results: seq<AckResult>)
    requires CoversStored(cfg, s) && Enabled(cfg, s, Acks(results))
    ensures CoversStored(cfg, Step(cfg, s, Acks(results)))
  {
    hide Numbers, Greatest;
    var t := Step(cfg, s, Acks(results));
    assert forall n :: n in t.chunks ==> n in s.chunks && t.chunks[n] == s.chunks[n];
  }

  lemma AcksKeepTrack(cfg: Config, s: State, results: seq<AckResult>)
    requires TracksGreatest(s) && Enabled(cfg, s, Acks(results))
    ensures TracksGreatest(Step(cfg, s, Acks(results)))
  {
    GreatestTracks(s.acked, s.lastReceived, results);
    hide Numbers, Greatest, Unacked;
  }

  lemma AcksAreSound(cfg: Config, s: State, results: seq<AckResult>)
    requires Sound(cfg, s) && Enabled(cfg, s, Acks(results))
    ensures Sound(cfg, Step(cfg, s, Acks(results)))
  {
    AcksKeepStorage(cfg, s, results);
    AcksKeepCover(cfg, s, results);
    AcksKeepTrack(cfg, s, results);
    hide StoresUnacked, CoversStored, TracksGreatest, Numbers, Greatest, Unacked, IssuedPoints, AllPoints, BufferPayload;
  }

  lemma WriteKeepsAccounts(cfg: Config, s: State, g: DataPointGroup)
    requires Accounts(s)
    ensures Accounts(s.(counters := Written(s.counters, g), written := s.written + [g]))
  {
    hide IssuedPoints, AllPoints, PayloadSize;
    var buffer := s.counters.buffer + [g];
    assert buffer[..|buffer| - 1] == s.counters.buffer;
    assert s.written + [g] == s.taken + buffer;
  }

  /** Only `Accounts` depends on what was written and on the buffer. */
  lemma WriteKeepsChunks(cfg: Config, s: State, g: DataPointGroup)
    requires Numbering(s) && StoresUnacked(cfg, s) && CoversStored(cfg, s) && TracksGreatest(s)
    ensures var t := s.(counters := Written(s.counters, g), written := s.written + [g]);
            Numbering(t) && StoresUnacked(cfg, t) && CoversStored(cfg, t) && TracksGreatest(t)
  {
    hide PayloadSize;
  }

  lemma WriteIsSound(cfg: Config, s: State, g: DataPointGroup)
    requires Sound(cfg, s)
    ensures Sound(cfg, s.(counters := Written(s.counters, g), written := s.written + [g]))
  {
    WriteKeepsAccounts(cfg, s, g);
    WriteKeepsChunks(cfg, s, g);
    hide Numbering, Accounts, StoresUnacked, CoversStored, TracksGreatest, Written;
  }

  lemma LeavingIsSound(cfg: Config, s: State, phase: Phase, closeRequest: Option<CloseRequest>)
    requires Sound(cfg, s) && phase != Live && phase != Closing
    ensures Sound(cfg, s.(phase := phase, closeRequest := closeRequest))
  {
    hide IssuedPoints, AllPoints, BufferPayload;
  }

  lemma FlushIsSound(cfg: Config, s: State, chunk: Option<Chunk>, accepts: bool, giveUp: bool, closing: bool)
    requires Sound(cfg, s) && Enabled(cfg, s, Flush(chunk, accepts, giveUp, closing))
    requires |Take(cfg, s, chunk, Sent).issued| < U32_LIMIT
    ensures Sound(cfg, Step(cfg, s, Flush(chunk, accepts, giveUp, closing)))
  {
    if s.phase == Waiting {
      TakeIsSound(cfg, s, chunk, WhileWaiting, Waiting);
    } else if chunk.None? || accepts {
      FlushedIsSound(cfg, s, chunk, closing);
    } else {
      TakeIsSound(cfg, s, chunk, SendFailed, if giveUp then Gone else Waiting);
    }
    hide Sound, Drained, Stored, MayTake;
  }

  lemma StepIsSound(cfg: Config, s: State, e: Event)
    requires Sound(cfg, s) && |Step(cfg, s, e).issued| < U32_LIMIT
    ensures Sound(cfg, Step(cfg, s, e))
  {
    hide Sound, MayTake, Drained, Stored, Resent, Ascending;
    if Enabled(cfg, s, e) {
      match e
      case Write(g) => WriteIsSound(cfg, s, g);
      case NewAlias(alias) => NewAliasIsSound(cfg, s, alias);
      case Flush(chunk, accepts, giveUp, closing) => FlushIsSound(cfg, s, chunk, accepts, giveUp, closing);
      case Resume(chunk, accepted, giveUp) =>
        if cfg.reliable {
          ResendIsSound(cfg, s, accepted, giveUp);
        } else {
          UnreliableResumeIsSound(cfg, s, chunk);
        }
      case ResumeFails => LeavingIsSound(cfg, s, Gone, s.closeRequest);
      case Acks(results) => AcksAreSound(cfg, s, results);
      case Lost(giveUp) => LeavingIsSound(cfg, s, if giveUp then Gone else Waiting, s.closeRequest);
      case Close(_) => LeavingIsSound(cfg, s, Gone, Step(cfg, s, e).closeRequest);
      case Remaining(chunk) => TakeIsSound(cfg, s, chunk, AtTheEnd, Done);
    }
  }

  lemma NewAliasIsSound(cfg: Config, s: State, alias: U32)
    requires Sound(cfg, s)
    ensures Sound(cfg, s.(counters := s.counters.(streamIdAlias := alias)))
  {
    hide IssuedPoints, AllPoints, BufferPayload;
  }

  lemma UnreliableResumeIsSound(cfg: Config, s: State, chunk: Option<Chunk>)
    requires Sound(cfg, s) && !cfg.reliable && MayTake(cfg.rev, s.counters, chunk)
    requires |Take(cfg, s, chunk, OnResume).issued| < U32_LIMIT
    ensures Sound(cfg, Take(cfg, s, chunk, OnResume).(phase := Live, enqueued := []))
  {
    TakeKeepsAccounts(cfg, s, chunk, OnResume);
    TakeKeepsChunks(cfg, s, chunk, OnResume);
  }

  lemma {:induction false} RunIsSound(cfg: Config, alias: U32, events: seq<Event>)
    requires |Run(cfg, alias, events).issued| < U32_LIMIT
    ensures Sound(cfg, Run(cfg, alias, events))
  {
    if |events| > 0 {
      var s, e := Run(cfg, alias, events[..|events| - 1]), events[|events| - 1];
      IssuedGrows(cfg, s, e);
      RunIsSound(cfg, alias, events[..|events| - 1]);
      StepIsSound(cfg, s, e);
    }
  }

  /** What has been issued is never changed or withdrawn. */
  lemma IssuedGrows(cfg: Config, s: State, e: Event)
    ensures s.issued <= Step(cfg, s, e).issued
  {
  }

  // ---------------------------------------------------------------- main results

  /**
   Reliability. In every run with fewer than 2^32 chunks the storage of a reliable stream holds exactly the
   chunks issued and not acked, unchanged since issue. Once a resume has gone through, and until
   the stream leaves the connection, each of them has been enqueued there, by increasing number.
   */
  lemma ReliableUpstream(cfg: Config, alias: U32, events: seq<Event>)
    requires |Run(cfg, alias, events).issued| < U32_LIMIT && cfg.reliable
    ensures var s := Run(cfg, alias, events);
            && (forall n: U32 :: n in s.chunks <==> 1 <= n <= |s.issued| && n !in s.acked)
            && (forall n :: n in s.chunks ==> s.chunks[n] == s.issued[n - 1])
            && (OnConnection(s) ==>
                  Increasing(s.enqueued) && forall n :: n in s.chunks ==> s.chunks[n] in s.enqueued)
  {
    RunIsSound(cfg, alias, events);
  }

  lemma TakeKeepsCount(cfg: Config, s: State, chunk: Option<Chunk>, how: Taking)
    requires Counting(s) && MayTake(cfg.rev, s.counters, chunk)
    ensures Counting(Take(cfg, s, chunk, how))
  {
    WrapOfWrap(|s.issued|, 1);
    hide Wrap, Lists, Collected, AllPoints;
  }

  /** The books do not depend on the phase and on what was enqueued. */
  lemma TakeKeepsBooks(cfg: Config, s: State, chunk: Option<Chunk>, how: Taking, phase: Phase, enqueued: seq<Chunk>)
    requires Counting(s) && Accounts(s) && MayTake(cfg.rev, s.counters, chunk)
    ensures var t := Take(cfg, s, chunk, how).(phase := phase, enqueued := enqueued); Counting(t) && Accounts(t)
  {
    TakeKeepsAccounts(cfg, s, chunk, how);
    TakeKeepsCount(cfg, s, chunk, how);
    hide MayTake, Drained, Stored, Wrap, IssuedPoints, AllPoints, BufferPayload;
  }

  lemma StepKeepsAccounts(cfg: Config, s: State, e: Event)
    requires Counting(s) && Accounts(s)
    ensures Counting(Step(cfg, s, e)) && Accounts(Step(cfg, s, e))
  {
    hide MayTake, Drained, Stored, Unacked, Resent, Ascending, Wrap, IssuedPoints, AllPoints, BufferPayload;
    var t := Step(cfg, s, e);
    if Enabled(cfg, s, e) {
      match e
      case Write(g) => WriteKeepsAccounts(cfg, s, g);
      case Flush(chunk, accepts, _, _) =>
        var how := if s.phase == Waiting then WhileWaiting else if chunk.None? || accepts then Sent else SendFailed;
        TakeKeepsBooks(cfg, s, chunk, how, t.phase, t.enqueued);
      case Resume(chunk, _, _) =>
        if !cfg.reliable {
          TakeKeepsBooks(cfg, s, chunk, OnResume, t.phase, t.enqueued);
        }
      case Remaining(chunk) => TakeKeepsBooks(cfg, s, chunk, AtTheEnd, t.phase, t.enqueued);
      case _ => { }
    }
  }

  lemma {:induction false} RunKeepsAccounts(cfg: Config, alias: U32, events: seq<Event>)
    ensures Counting(Run(cfg, alias, events)) && Accounts(Run(cfg, alias, events))
  {
    if |events| > 0 {
      RunKeepsAccounts(cfg, alias, events[..|events| - 1]);
      StepKeepsAccounts(cfg, Run(cfg, alias, events[..|events| - 1]), events[|events| - 1]);
    }
  }

  function PayloadsOf(ps: Points): seq<Bytes> {
    seq(|ps|, i requires 0 <= i < |ps| => ps[i].payload)
  }

  lemma {:induction false} PayloadOfPoints(before: Points, ps: Points)
    ensures |Flatten(PayloadsOf(before + ps))| == |Flatten(PayloadsOf(before))| + PayloadSize(ps)
  {
    if |ps| == 0 {
      assert before + ps == before;
    } else {
      var m := |ps| - 1;
      PayloadOfPoints(before, ps[..m]);
      assert PayloadsOf(before + ps)[..|before| + m] == PayloadsOf(before + ps[..m]);
    }
  }

  /** The counter adds up the payloads of the points buffered. */
  lemma {:induction false} PayloadIsCounted(dpgs: seq<DataPointGroup>)
    ensures BufferPayload(dpgs) == |Flatten(PayloadsOf(AllPoints(dpgs)))|
  {
    hide PayloadsOf, Flatten, PayloadSize;
    if |dpgs| == 0 {
      NoPayload();
    } else {
      var m := |dpgs| - 1;
      PayloadIsCounted(dpgs[..m]);
      PayloadOfPoints(AllPoints(dpgs[..m]), dpgs[m].dataPoints);
    }
  }

  lemma NoPayload()
    ensures Flatten(PayloadsOf([])) == []
  {
  }

  lemma NumbersHaveNotWrapped(s: State)
    requires Counting(s)
    ensures (forall k :: 0 <= k < |s.issued| ==> s.issued[k].sequenceNumber == k + 1) <==> |s.issued| < U32_LIMIT
  {
    assert |s.issued| >= U32_LIMIT ==> s.issued[U32_LIMIT - 1].sequenceNumber == Wrap(U32_LIMIT);
  }

  /**
   Accounting, in every run. Issued numbers count up from 1 modulo 2^32, so they are 1..n exactly for
   fewer than 2^32 chunks. Every point written is in an issued chunk or still buffered, in the
   order of writing; the counters are the number of points issued, modulo 2^64, and the
   payload size of the buffer.
   */
  lemma UpstreamAccounting(cfg: Config, alias: U32, events: seq<Event>)
    ensures var s := Run(cfg, alias, events);
            && (forall k :: 0 <= k < |s.issued| ==> s.issued[k].sequenceNumber == Wrap(k + 1))
            && ((forall k :: 0 <= k < |s.issued| ==> s.issued[k].sequenceNumber == k + 1) <==> |s.issued| < U32_LIMIT)
            && s.counters.lastIssued == Wrap(|s.issued|)
            && s.written == s.taken + s.counters.buffer
            && multiset(AllPoints(s.written)) == multiset(IssuedPoints(s.issued)) + multiset(AllPoints(s.counters.buffer))
            && s.counters.totalDataPoints == |IssuedPoints(s.issued)| % U64_LIMIT
            && s.counters.payloadSize == |Flatten(PayloadsOf(AllPoints(s.counters.buffer)))|
  {
    RunKeepsAccounts(cfg, alias, events);
    var s := Run(cfg, alias, events);
    PayloadIsCounted(s.counters.buffer);
    AllPointsConcat(s.taken, s.counters.buffer);
    NumbersHaveNotWrapped(s);
    hide Run, AllPoints, IssuedPoints, BufferPayload, PayloadSize, PayloadsOf, Flatten, Wrap;
  }

  /** The close request reports the number of chunks and of points issued by then, however the wait before it ended. */
  lemma CloseRequestReports(cfg: Config, alias: U32, events: seq<Event>, end: WaitEnd)
    requires Enabled(cfg, Run(cfg, alias, events), Close(end))
    ensures var s := Run(cfg, alias, events);
            Run(cfg, alias, events + [Close(end)]).closeRequest ==
              Some(CloseRequest(Wrap(|s.issued|), |IssuedPoints(s.issued)| % U64_LIMIT))
  {
    RunKeepsAccounts(cfg, alias, events);
    hide IssuedPoints, AllPoints, BufferPayload;
    RunSnoc(cfg, alias, events, Close(end));
    hide Run;
  }

  lemma RunSnoc(cfg: Config, alias: U32, events: seq<Event>, e: Event)
    ensures Run(cfg, alias, events + [e]) == Step(cfg, Run(cfg, alias, events), e)
  {
    assert (events + [e])[..|events|] == events;
  }

  // ---------------------------------------------------------------- what the close procedure waits for

  /**
   The close procedure waits until the last number received is the last issued. That is so exactly when the
   last chunk has been acked, whether or not earlier ones have.
   */
  lemma LastAckArrived(cfg: Config, alias: U32, events: seq<Event>)
    requires var s := Run(cfg, alias, events); |s.issued| < U32_LIMIT
    ensures var s := Run(cfg, alias, events);
            StillWaits(s) <==> |s.issued| > 0 && s.counters.lastIssued !in s.acked
  {
    RunIsSound(cfg, alias, events);
    LastIsGreatest(cfg, Run(cfg, alias, events));
    hide Run, Sound;
  }

  lemma LastIsGreatest(cfg: Config, s: State)
    requires Sound(cfg, s)
    ensures StillWaits(s) <==> |s.issued| > 0 && s.counters.lastIssued !in s.acked
  {
    hide Accounts, CoversStored;
  }

  /** The numbers acked are 1..k. */
  ghost predicate InitialSegment(acked: set<U32>) {
    forall j: U32, k: U32 :: 1 <= j < k && k in acked ==> j in acked
  }

  ghost predicate AllOf(acked: set<U32>, n: nat) {
    forall k: U32 :: 1 <= k <= n ==> k in acked
  }

  lemma GaplessIff(acked: set<U32>, n: U32)
    requires forall k :: k in acked ==> 1 <= k <= n
    ensures n == 0 || n in acked ==> (AllOf(acked, n) <==> InitialSegment(acked))
    ensures InitialSegment(acked) ==> (AllOf(acked, n) <==> n == 0 || n in acked)
  {
  }

  lemma StorageEmptyIff(cfg: Config, s: State)
    requires Sound(cfg, s) && cfg.reliable
    ensures s.chunks == map[] <==> AllOf(s.acked, |s.issued|)
  {
    hide Accounts, CoversStored, TracksGreatest;
    if s.chunks != map[] {
      var k :| k in s.chunks;
    }
  }

  lemma CloseWaitFacts(cfg: Config, s: State)
    requires Sound(cfg, s) && cfg.reliable
    ensures !StillWaits(s) ==> (s.chunks == map[] <==> InitialSegment(s.acked))
    ensures InitialSegment(s.acked) ==> (!StillWaits(s) <==> s.chunks == map[])
  {
    StorageEmptyIff(cfg, s);
    LastIsGreatest(cfg, s);
    assert |s.issued| < U32_LIMIT && s.counters.lastIssued == |s.issued|;
    assert forall k :: k in s.acked ==> 1 <= k <= |s.issued|;
    GaplessIff(s.acked, |s.issued|);
    hide Sound, StillWaits, InitialSegment, AllOf;
  }

  /**
   When the wait for the last ack is over on a reliable stream, everything has been acked if and only if the acks
   so far leave no gap.
   */
  lemma WaitOverMeansAllAckedIff(cfg: Config, alias: U32, events: seq<Event>)
    requires var s := Run(cfg, alias, events); |s.issued| < U32_LIMIT && cfg.reliable && !StillWaits(s)
    ensures var s := Run(cfg, alias, events); s.chunks == map[] <==> InitialSegment(s.acked)
  {
    RunIsSound(cfg, alias, events);
    hide Run, Sound, StillWaits, InitialSegment;
    CloseWaitFacts(cfg, Run(cfg, alias, events));
  }

  /** As long as acks leave no gap, the wait is over exactly when nothing is stored any more. */
  lemma GaplessAcksEndTheWaitIff(cfg: Config, alias: U32, events: seq<Event>)
    requires var s := Run(cfg, alias, events); |s.issued| < U32_LIMIT && cfg.reliable && InitialSegment(s.acked)
    ensures var s := Run(cfg, alias, events); !StillWaits(s) <==> s.chunks == map[]
  {
    RunIsSound(cfg, alias, events);
    hide Run, Sound, StillWaits, InitialSegment;
    CloseWaitFacts(cfg, Run(cfg, alias, events));
  }

  // ---------------------------------------------------------------- the guard against the last number

  /** How chunks beyond the number 2^32 - 1 come about: the guard stops the loop if that chunk was sent by it. */
  ghost predicate Guarded(s: State) {
    && |s.takings| == |s.issued|
    && (|s.issued| >= U32_LIMIT - 1 && s.takings[U32_LIMIT - 2] == Sent ==>
          || (|s.issued| == U32_LIMIT - 1 && (s.phase == Closing || s.phase == Gone || s.phase == Done))
          || (|s.issued| == U32_LIMIT && s.takings[U32_LIMIT - 1] == AtTheEnd && s.phase == Done))
  }

  lemma LastNumber()
    ensures Wrap(U32_LIMIT - 1) == U32_LIMIT - 1
  {
  }

  lemma StepKeepsGuarded(cfg: Config, s: State, e: Event)
    requires Guarded(s) && Counting(s) && Counting(Step(cfg, s, e))
    ensures Guarded(Step(cfg, s, e))
  {
    hide MayTake, Stored, Unacked, Resent, Ascending, Drained, Written, Greatest, Numbers, StillWaits, Wrap;
    LastNumber();
  }

  lemma {:induction false} RunKeepsGuarded(cfg: Config, alias: U32, events: seq<Event>)
    ensures Guarded(Run(cfg, alias, events))
  {
    if |events| > 0 {
      var before := events[..|events| - 1];
      RunKeepsGuarded(cfg, alias, before);
      RunKeepsAccounts(cfg, alias, before);
      RunKeepsAccounts(cfg, alias, events);
      hide Step, Guarded;
      StepKeepsGuarded(cfg, Run(cfg, alias, before), events[|events| - 1]);
    }
  }

  /**
   Chunk numbers wrap only in two ways: the chunk numbered 2^32 - 1 was not sent by a live flush, which alone looks
   for the last number; or it was, the stream closed, and what was written meanwhile went into one last chunk.
   */
  lemma WrappingEscapesTheGuard(cfg: Config, alias: U32, events: seq<Event>, k: nat)
    requires k < |Run(cfg, alias, events).issued|
    requires Run(cfg, alias, events).issued[k].sequenceNumber != k + 1
    ensures var s := Run(cfg, alias, events);
            && |s.takings| == |s.issued| && U32_LIMIT - 1 <= k
            && (|| s.takings[U32_LIMIT - 2] != Sent
                || (k == U32_LIMIT - 1 && |s.issued| == U32_LIMIT && s.takings[k] == AtTheEnd))
  {
    RunKeepsGuarded(cfg, alias, events);
    RunKeepsAccounts(cfg, alias, events);
    hide Run, Accounts;
    assert k + 1 < U32_LIMIT ==> Wrap(k + 1) == k + 1;
  }

  /** If the guard has seen the last number, the numbers wrap if and only if data left over makes one more chunk. */
  lemma GuardedNumbersWrapIff(cfg: Config, alias: U32, events: seq<Event>)
    requires var s := Run(cfg, alias, events);
             && U32_LIMIT - 1 <= |s.issued| && U32_LIMIT - 1 <= |s.takings| && s.takings[U32_LIMIT - 2] == Sent
    ensures var s := Run(cfg, alias, events);
            (exists k :: 0 <= k < |s.issued| && s.issued[k].sequenceNumber != k + 1) <==>
              |s.takings| == U32_LIMIT && s.takings[U32_LIMIT - 1] == AtTheEnd
  {
    RunKeepsGuarded(cfg, alias, events);
    RunKeepsAccounts(cfg, alias, events);
    var s := Run(cfg, alias, events);
    NumbersHaveNotWrapped(s);
    hide Run, Accounts, Counting;
  }

  // ---------------------------------------------------------------- which alias a chunk carries

  /** The aliases a run can have put on chunks. */
  function AliasesIn(alias: U32, events: seq<Event>): set<U32> {
    {alias} + set e | e in events && e.NewAlias? :: e.alias
  }

  lemma StepCarriesAlias(cfg: Config, s: State, e: Event)
    ensures var t := Step(cfg, s, e);
            && s.issued <= t.issued
            && (forall k :: |s.issued| <= k < |t.issued| ==> t.issued[k].streamIdAlias == s.counters.streamIdAlias)
            && (t.counters.streamIdAlias == s.counters.streamIdAlias
                || (e.NewAlias? && s.phase == Waiting && t.counters.streamIdAlias == e.alias))
  {
    hide Stored, Unacked, Resent, Ascending, Greatest, Wrap, AllPoints, PayloadSize, Lists, Collected;
  }

  lemma {:induction false} OldAliases(cfg: Config, alias: U32, events: seq<Event>)
    ensures var s := Run(cfg, alias, events);
            && s.counters.streamIdAlias in AliasesIn(alias, events)
            && forall k :: 0 <= k < |s.issued| ==> s.issued[k].streamIdAlias in AliasesIn(alias, events)
  {
    if |events| > 0 {
      var before, e := events[..|events| - 1], events[|events| - 1];
      OldAliases(cfg, alias, before);
      StepCarriesAlias(cfg, Run(cfg, alias, before), e);
      hide Step;
      assert AliasesIn(alias, before) <= AliasesIn(alias, events);
      assert e.NewAlias? ==> e.alias in AliasesIn(alias, events);
    }
  }

  /**
   A chunk keeps the alias it was issued under, also when it is sent again on another connection. After a resume that gave
   the stream an alias it has not had before, a chunk carries the current alias if and only if it was issued since.
   */
  lemma {:induction false} CarriesCurrentAliasIff(cfg: Config, alias: U32, before: seq<Event>, given: U32, after: seq<Event>)
    requires Run(cfg, alias, before).phase == Waiting && given !in AliasesIn(alias, before)
    requires forall e :: e in after ==> !e.NewAlias?
    ensures var s, t := Run(cfg, alias, before), Run(cfg, alias, before + [NewAlias(given)] + after);
            && t.counters.streamIdAlias == given && s.issued <= t.issued
            && forall k :: 0 <= k < |t.issued| ==> (t.issued[k].streamIdAlias == given <==> k >= |s.issued|)
  {
    var start := before + [NewAlias(given)];
    if |after| == 0 {
      OldAliases(cfg, alias, before);
      RunSnoc(cfg, alias, before, NewAlias(given));
      assert start + [] == start;
    } else {
      var m := |after| - 1;
      CarriesCurrentAliasIff(cfg, alias, before, given, after[..m]);
      RunSnoc(cfg, alias, start + after[..m], after[m]);
      assert start + after[..m] + [after[m]] == start + after;
      assert after[m] in after;
      hide Run, Step, AliasesIn;
      StepCarriesAlias(cfg, Run(cfg, alias, start + after[..m]), after[m]);
    }
  }

  // ---------------------------------------------------------------- runs that issue any number of chunks

  const BLANK := DataPointGroup(DataId("", ""), [])

  /** The chunk that a buffer with just `BLANK` gives. */
  function BlankChunk(cfg: Config, alias: U32, number: U32): Chunk {
    Chunk(alias, number, [Group(KeyOf(cfg.rev, BLANK.dataId), [])])
  }

  lemma BlankMayBeTaken(cfg: Config, c: Counters)
    requires c.buffer == [BLANK]
    ensures MayTake(cfg.rev, c, Some(BlankChunk(cfg, c.streamIdAlias, Wrap(c.lastIssued + 1))))
  {
    var key, groups := AliasKey(cfg.rev), [Group(KeyOf(cfg.rev, BLANK.dataId), [])];
    assert [BLANK][..0] == [];
    assert Collected(key, []) == map[];
    assert Collected(key, [BLANK]) == map[key(BLANK.dataId) := []];
    assert KeysOf(groups) == {key(BLANK.dataId)} by {
      assert groups[0].key == key(BLANK.dataId);
    }
  }

  /** Writing and flushing one group. */
  function OneBlank(cfg: Config, alias: U32, number: U32): seq<Event> {
    [Write(BLANK), Flush(Some(BlankChunk(cfg, alias, number)), true, false, false)]
  }

  /** A state with an empty buffer that has issued `n` chunks. */
  ghost predicate Ready(s: State, alias: U32, n: nat, phase: Phase) {
    && s.phase == phase && s.counters.streamIdAlias == alias && s.counters.buffer == []
    && s.counters.lastIssued == Wrap(n) && |s.issued| == n && |s.takings| == n
  }

  lemma RunTwo(cfg: Config, alias: U32, events: seq<Event>, e: Event, f: Event)
    ensures Run(cfg, alias, events + [e, f]) == Step(cfg, Step(cfg, Run(cfg, alias, events), e), f)
  {
    RunSnoc(cfg, alias, events, e);
    RunSnoc(cfg, alias, events + [e], f);
    assert events + [e] + [f] == events + [e, f];
  }

  function HowOf(phase: Phase): Taking {
    if phase == Live then Sent else WhileWaiting
  }

  /** Where the `n`th flush leads: on a connection the guard closes the stream after the last number. */
  function PhaseAfter(phase: Phase, n: nat): Phase {
    if phase == Live && Wrap(n) == U32_LIMIT - 1 then Closing else phase
  }

  /** What a flush of one group makes of `s`. */
  ghost predicate IsBlankFlush(cfg: Config, s: State, t: State, alias: U32, n: nat, phase: Phase) {
    && Ready(t, alias, n + 1, PhaseAfter(phase, n + 1))
    && t.issued == s.issued + [BlankChunk(cfg, alias, Wrap(n + 1))]
    && t.takings == s.takings + [HowOf(phase)]
    && t.acked == s.acked && t.lastReceived == s.lastReceived
    && t.chunks == Stored(cfg.reliable, s.chunks, Some(BlankChunk(cfg, alias, Wrap(n + 1))))
  }

  lemma BlankStep(cfg: Config, s: State, alias: U32, n: nat, phase: Phase)
    requires (phase == Waiting || phase == Live) && Ready(s, alias, n, phase)
    ensures var flush := Flush(Some(BlankChunk(cfg, alias, Wrap(n + 1))), true, false, false);
            IsBlankFlush(cfg, s, Step(cfg, Step(cfg, s, Write(BLANK)), flush), alias, n, phase)
  {
    WrapOfWrap(n, 1);
    var mid := Step(cfg, s, Write(BLANK));
    assert mid.counters.buffer == [BLANK];
    BlankMayBeTaken(cfg, mid.counters);
    hide MayTake, Wrap, Stored, AllPoints, PayloadSize, BlankChunk;
  }

  lemma BlankFlushed(cfg: Config, alias: U32, events: seq<Event>, n: nat, phase: Phase)
    requires phase == Waiting || phase == Live
    requires Ready(Run(cfg, alias, events), alias, n, phase)
    ensures var s, t := Run(cfg, alias, events), Run(cfg, alias, events + OneBlank(cfg, alias, Wrap(n + 1)));
            IsBlankFlush(cfg, s, t, alias, n, phase)
  {
    RunTwo(cfg, alias, events, Write(BLANK), Flush(Some(BlankChunk(cfg, alias, Wrap(n + 1))), true, false, false));
    BlankStep(cfg, Run(cfg, alias, events), alias, n, phase);
    hide Run, Step, IsBlankFlush, Ready;
  }

  function Blanks(cfg: Config, alias: U32, n: nat): seq<Event> {
    if n == 0 then [] else Blanks(cfg, alias, n - 1) + OneBlank(cfg, alias, Wrap(n))
  }

  /** The chunks so far were numbered in turn and taken in the same way. */
  ghost predicate AllTaken(s: State, how: Taking) {
    && |s.takings| == |s.issued|
    && forall k :: 0 <= k < |s.issued| ==> s.issued[k].sequenceNumber == Wrap(k + 1) && s.takings[k] == how
  }

  lemma OneMoreBlank(cfg: Config, alias: U32, events: seq<Event>, n: nat, phase: Phase)
    requires phase == Waiting || (phase == Live && n + 1 < U32_LIMIT)
    requires Ready(Run(cfg, alias, events), alias, n, phase) && AllTaken(Run(cfg, alias, events), HowOf(phase))
    ensures var s, t := Run(cfg, alias, events), Run(cfg, alias, events + OneBlank(cfg, alias, Wrap(n + 1)));
            && Ready(t, alias, n + 1, PhaseAfter(phase, n + 1)) && AllTaken(t, HowOf(phase))
            && t.lastReceived == s.lastReceived
  {
    hide Run, Wrap, OneBlank, IsBlankFlush, Ready, AllTaken, PhaseAfter, HowOf;
    BlankFlushed(cfg, alias, events, n, phase);
    BlankIsTaken(cfg, Run(cfg, alias, events), Run(cfg, alias, events + OneBlank(cfg, alias, Wrap(n + 1))), alias, n, phase);
  }

  lemma BlankIsTaken(cfg: Config, s: State, t: State, alias: U32, n: nat, phase: Phase)
    requires Ready(s, alias, n, phase) && AllTaken(s, HowOf(phase)) && IsBlankFlush(cfg, s, t, alias, n, phase)
    ensures Ready(t, alias, n + 1, PhaseAfter(phase, n + 1)) && AllTaken(t, HowOf(phase))
    ensures t.lastReceived == s.lastReceived
  {
    hide Wrap, Stored, BlankChunk, AllTaken, PhaseAfter, HowOf;
    BlankNumber(cfg, alias, Wrap(n + 1));
    AllTakenSnoc(s, t, HowOf(phase), BlankChunk(cfg, alias, Wrap(n + 1)));
  }

  lemma BlankNumber(cfg: Config, alias: U32, number: U32)
    ensures BlankChunk(cfg, alias, number).sequenceNumber == number
    ensures BlankChunk(cfg, alias, number).streamIdAlias == alias
  {
  }

  lemma AllTakenSnoc(s: State, t: State, how: Taking, c: Chunk)
    requires AllTaken(s, how) && t.issued == s.issued + [c] && t.takings == s.takings + [how]
    requires c.sequenceNumber == Wrap(|s.issued| + 1)
    ensures AllTaken(t, how)
  {
  }

  /** `n` flushes, all before the stream gets onto a connection or all on one. */
  lemma {:induction false} ManyBlanks(cfg: Config, alias: U32, start: seq<Event>, n: nat, phase: Phase)
    requires phase == Waiting || (phase == Live && n < U32_LIMIT)
    requires Ready(Run(cfg, alias, start), alias, 0, phase)
    ensures var t := Run(cfg, alias, start + Blanks(cfg, alias, n));
            && Ready(t, alias, n, PhaseAfter(phase, n)) && AllTaken(t, HowOf(phase))
            && t.lastReceived == Run(cfg, alias, start).lastReceived
  {
    hide Run, Wrap, AllTaken, OneBlank, Ready, PhaseAfter, HowOf;
    if n == 0 {
      assert start + [] == start;
      NoneTaken(Run(cfg, alias, start), alias, phase);
    } else {
      ManyBlanks(cfg, alias, start, n - 1, phase);
      var before := start + Blanks(cfg, alias, n - 1);
      assert start + Blanks(cfg, alias, n) == before + OneBlank(cfg, alias, Wrap(n));
      StillOpen(phase, n - 1);
      OneMoreBlank(cfg, alias, before, n - 1, phase);
    }
  }

  lemma NoneTaken(s: State, alias: U32, phase: Phase)
    requires Ready(s, alias, 0, phase)
    ensures PhaseAfter(phase, 0) == phase && AllTaken(s, HowOf(phase))
  {
  }

  lemma StillOpen(phase: Phase, n: nat)
    requires phase == Waiting || (phase == Live && n + 1 < U32_LIMIT)
    ensures PhaseAfter(phase, n) == phase
  {
  }

  lemma StartIsReady(cfg: Config, alias: U32)
    ensures Ready(Run(cfg, alias, []), alias, 0, Waiting)
    ensures Ready(Run(cfg, alias, [Resume(None, 0, false)]), alias, 0, Live)
    ensures Run(cfg, alias, [Resume(None, 0, false)]).acked == {}
    ensures Run(cfg, alias, [Resume(None, 0, false)]).chunks == map[]
    ensures Run(cfg, alias, [Resume(None, 0, false)]).lastReceived == None
  {
    RunSnoc(cfg, alias, [], Resume(None, 0, false));
    assert [] + [Resume(None, 0, false)] == [Resume(None, 0, false)];
    assert Ascending(map[]) == [];
  }

  /** Without a connection nothing stops the numbers: the 2^32nd chunk has number 0. */
  lemma WaitingFlushesWrap(cfg: Config, alias: U32)
    ensures var s := Run(cfg, alias, Blanks(cfg, alias, U32_LIMIT));
            && |s.issued| == U32_LIMIT && s.issued[U32_LIMIT - 1].sequenceNumber == 0
            && AllTaken(s, WhileWaiting)
  {
    StartIsReady(cfg, alias);
    ManyBlanks(cfg, alias, [], U32_LIMIT, Waiting);
    assert [] + Blanks(cfg, alias, U32_LIMIT) == Blanks(cfg, alias, U32_LIMIT);
  }

  /**
   A live flush can issue number 0 too, when the number 2^32 - 1 was used up before the connection: the
   guard looks at the last number only after the flush.
   */
  lemma LiveFlushWraps(cfg: Config, alias: U32)
    ensures var waiting := Blanks(cfg, alias, U32_LIMIT - 1);
            var accepted := |Ascending(Run(cfg, alias, waiting).chunks)|;
            var s := Run(cfg, alias, waiting + [Resume(None, accepted, false)] + OneBlank(cfg, alias, 0));
            && s.phase == Live && |s.issued| == |s.takings| == U32_LIMIT
            && s.issued[U32_LIMIT - 1].sequenceNumber == 0 && s.takings[U32_LIMIT - 1] == Sent
  {
    StartIsReady(cfg, alias);
    ManyBlanks(cfg, alias, [], U32_LIMIT - 1, Waiting);
    var waiting := Blanks(cfg, alias, U32_LIMIT - 1);
    assert [] + waiting == waiting;
    ResumeIsReady(cfg, alias, waiting, U32_LIMIT - 1);
    var resume := Resume(None, |Ascending(Run(cfg, alias, waiting).chunks)|, false);
    BlankFlushed(cfg, alias, waiting + [resume], U32_LIMIT - 1, Live);
  }

  lemma ResumeIsReady(cfg: Config, alias: U32, events: seq<Event>, n: nat)
    requires Ready(Run(cfg, alias, events), alias, n, Waiting)
    ensures var accepted := |Ascending(Run(cfg, alias, events).chunks)|;
            Ready(Run(cfg, alias, events + [Resume(None, accepted, false)]), alias, n, Live)
  {
    var s := Run(cfg, alias, events);
    RunSnoc(cfg, alias, events, Resume(None, |Ascending(s.chunks)|, false));
    hide Run, Ascending;
    assert s.issued + [] == s.issued;
  }

  /** Written to while the stream closes, a buffer goes into a last chunk. */
  lemma RemainingBlank(cfg: Config, s: State, alias: U32)
    requires Ready(s, alias, U32_LIMIT - 1, Closing) && AllTaken(s, Sent) && s.lastReceived == None
    ensures var c := BlankChunk(cfg, alias, 0);
            var t := Step(cfg, Step(cfg, Step(cfg, s, Write(BLANK)), Close(TimedOut)), Remaining(Some(c)));
            && t.phase == Done && t.issued == s.issued + [c] && t.takings == s.takings + [AtTheEnd]
            && |s.issued| == |s.takings| == U32_LIMIT - 1 && s.takings[U32_LIMIT - 2] == Sent
  {
    assert Wrap(U32_LIMIT - 1) == U32_LIMIT - 1 && Wrap(U32_LIMIT) == 0;
    var written := Step(cfg, s, Write(BLANK));
    assert written.counters.buffer == [BLANK];
    BlankMayBeTaken(cfg, written.counters);
    hide MayTake, Wrap, Stored, AllPoints, PayloadSize, BlankChunk;
  }

  lemma GuardCloses()
    ensures PhaseAfter(Live, U32_LIMIT - 1) == Closing && HowOf(Live) == Sent
  {
  }

  /** And when the guard has closed the stream, what was written in the meantime still goes into a chunk, with number 0. */
  lemma RemainingDataWraps(cfg: Config, alias: U32)
    ensures var events := [Resume(None, 0, false)] + Blanks(cfg, alias, U32_LIMIT - 1)
              + [Write(BLANK), Close(TimedOut)] + [Remaining(Some(BlankChunk(cfg, alias, 0)))];
            var s := Run(cfg, alias, events);
            && s.phase == Done && |s.issued| == |s.takings| == U32_LIMIT
            && s.issued[U32_LIMIT - 1].sequenceNumber == 0 && s.takings[U32_LIMIT - 1] == AtTheEnd
            && s.takings[U32_LIMIT - 2] == Sent
  {
    StartIsReady(cfg, alias);
    var live := [Resume(None, 0, false)];
    ManyBlanks(cfg, alias, live, U32_LIMIT - 1, Live);
    var closing, last := live + Blanks(cfg, alias, U32_LIMIT - 1), BlankChunk(cfg, alias, 0);
    BlankNumber(cfg, alias, 0);
    GuardCloses();
    hide Run, Step, Blanks, Wrap, Ready, AllTaken, BlankChunk, PhaseAfter;
    RunTwo(cfg, alias, closing, Write(BLANK), Close(TimedOut));
    RunSnoc(cfg, alias, closing + [Write(BLANK), Close(TimedOut)], Remaining(Some(last)));
    RemainingBlank(cfg, Run(cfg, alias, closing), alias);
  }

  // ---------------------------------------------------------------- closing with an ack outstanding

  lemma SecondAcked(cfg: Config, s: State)
    requires cfg.reliable && s.phase == Live && s.counters.buffer == [] && s.counters.lastIssued == 2 && |s.issued| == 2
    requires s.lastReceived == None && s.acked == {} && 1 in s.chunks
    ensures var t := Step(cfg, Step(cfg, s, Flush(None, true, false, true)), Acks([AckResult(2, 0)]));
            && t.phase == Closing && t.lastReceived == Some(2) && t.counters.lastIssued == 2
            && 1 in t.chunks && 1 !in t.acked
  {
    var results := [AckResult(2, 0)];
    assert results[..0] == [] && Greatest(None, []) == None;
    assert Greatest(None, results) == Some(2);
    assert Numbers(results) == {2} by {
      assert results[0] in results;
    }
    hide Greatest, Numbers;
  }

  /** Two chunks of which only the second is acked: the wait ends, and the close request goes out with chunk 1 unacked. */
  lemma LaterAckEndsTheWait(cfg: Config, alias: U32)
    requires cfg.reliable
    ensures var events := [Resume(None, 0, false)] + OneBlank(cfg, alias, 1) + OneBlank(cfg, alias, 2)
              + [Flush(None, true, false, true), Acks([AckResult(2, 0)])];
            var s := Run(cfg, alias, events);
            && s.phase == Closing && s.lastReceived == Some(s.counters.lastIssued) && !StillWaits(s)
            && 1 in s.chunks && 1 !in s.acked
            && Run(cfg, alias, events + [Close(LastAcked)]).closeRequest.Some?
  {
    hide Run, Step, OneBlank, Wrap;
    StartIsReady(cfg, alias);
    var live := [Resume(None, 0, false)];
    var two := live + OneBlank(cfg, alias, 1) + OneBlank(cfg, alias, 2);
    var end := [Flush(None, true, false, true), Acks([AckResult(2, 0)])];
    WrapIdentity(1);
    WrapIdentity(2);
    BlankFlushed(cfg, alias, live, 0, Live);
    BlankFlushed(cfg, alias, live + OneBlank(cfg, alias, 1), 1, Live);
    RunTwo(cfg, alias, two, end[0], end[1]);
    RunSnoc(cfg, alias, two + end, Close(LastAcked));
    assert two + [end[0], end[1]] == two + end;
    SecondAcked(cfg, Run(cfg, alias, two));
    LastAckedCloses(cfg, Run(cfg, alias, two + end));
  }

  lemma LastAckedCloses(cfg: Config, s: State)
    requires s.phase == Closing && !StillWaits(s)
    ensures Step(cfg, s, Close(LastAcked)).closeRequest.Some?
  {
  }

  // ---------------------------------------------------------------- a resend under an old alias

  /** Lost, resumed under another alias and resent: what is enqueued on the new connection carries the old alias. */
  lemma ResendKeepsTheOldAlias(cfg: Config, alias: U32, given: U32)
    requires cfg.reliable && given != alias
    ensures var events := [Resume(None, 0, false)] + OneBlank(cfg, alias, 1)
              + [Lost(false), NewAlias(given)] + [Resume(None, 1, false)];
            var s := Run(cfg, alias, events);
            && s.phase == Live && s.counters.streamIdAlias == given
            && s.enqueued == [BlankChunk(cfg, alias, 1)] && s.enqueued[0].streamIdAlias == alias
  {
    StartIsReady(cfg, alias);
    var live := [Resume(None, 0, false)];
    var one := live + OneBlank(cfg, alias, 1);
    assert Wrap(1) == 1;
    BlankNumber(cfg, alias, 1);
    hide Run, Step, OneBlank, Wrap, BlankChunk, Ascending;
    BlankFlushed(cfg, alias, live, 0, Live);
    RunTwo(cfg, alias, one, Lost(false), NewAlias(given));
    RunSnoc(cfg, alias, one + [Lost(false), NewAlias(given)], Resume(None, 1, false));
    LostAndResent(cfg, Run(cfg, alias, one), BlankChunk(cfg, alias, 1), given);
  }

  lemma LostAndResent(cfg: Config, s: State, c: Chunk, given: U32)
    requires cfg.reliable && s.phase == Live && s.chunks == map[c.sequenceNumber := c]
    ensures var t := Step(cfg, Step(cfg, Step(cfg, s, Lost(false)), NewAlias(given)), Resume(None, 1, false));
            t.phase == Live && t.counters.streamIdAlias == given && t.enqueued == [c]
  {
    OneStored(c);
    hide Ascending;
  }

  lemma OneStored(c: Chunk)
    ensures Ascending(map[c.sequenceNumber := c]) == [c]
  {
    var chunks := map[c.sequenceNumber := c];
    assert chunks - {c.sequenceNumber} == map[];
    assert LeastKey(chunks) == c.sequenceNumber;
  }
}

/**
 Requests and responses: even request ids, the table of waiting requesters, and the two read
 loops that share it (src/wire/mod.rs:246-274, 396-402, 551-581; src/wire/read_loop.rs:69-118).
 */
module Requests {
  import opened Base
  import opened Messages
  import ReadLoop

  // ---------------------------------------------------------------- dispatch

  datatype Action =
    | SendPong(requestId: U32)
    | GivePong
    | Exit
    | GiveCall
    | Route
    | Answer(requestId: U32)
    | Drop

  /** What a read loop does with a decoded message, before the table of requesters is looked at. */
  function Dispatch(m: Message): Action {
    if m.Empty? then Drop
    else
      match m.kind
      case Ping => SendPong(m.requestIdField)
      case Pong => GivePong
      case Disconnect => Exit
      case DownstreamCall => GiveCall
      case _ =>
        if ReadLoop.KeyOf(m).Some? then Route
        else
          match m.RequestId()
          case Some(id) => if id % 2 == 0 then Answer(id) else Drop
          case None => Drop
  }

  /** No response to a request is taken for anything else on its way to the table. */
  lemma ResponsesReachTheTable(request: Kind, m: Message)
    requires m.Body? && Some(m.kind) == ResponseKind(request)
    ensures Dispatch(m) == if m.requestIdField % 2 == 0 then Answer(m.requestIdField) else Drop
  {
  }

  /** Exactly nine kinds of messages are requests; no two of them have the same response, and no response is a request. */
  lemma RequestsPairWithResponses(k: Kind, l: Kind)
    ensures ResponseKind(k).Some? <==>
              k in {ConnectRequest, UpstreamOpenRequest, UpstreamResumeRequest, UpstreamCloseRequest, UpstreamMetadata,
                    DownstreamOpenRequest, DownstreamResumeRequest, DownstreamCloseRequest, DownstreamMetadata}
    ensures ResponseKind(k).Some? && ResponseKind(k) == ResponseKind(l) ==> k == l
    ensures ResponseKind(k).Some? ==> ResponseKind(ResponseKind(k).value).None?
  {
  }

  /** A message is for a requester if and only if it has an even request id and a kind that nothing else takes. */
  lemma AnswersIff(m: Message, id: U32)
    ensures Dispatch(m) == Answer(id) <==>
              && m.Body? && m.RequestId() == Some(id) && id % 2 == 0
              && m.kind !in {Ping, Pong, DownstreamMetadata}
  {
  }

  /** What is not for a requester: each goes to the one place that knows what to do with it, or nowhere. */
  lemma OtherwiseGoesTo(m: Message)
    ensures Dispatch(m).SendPong? <==> m.Body? && m.kind == Ping
    ensures Dispatch(m).SendPong? ==> Dispatch(m).requestId == m.requestIdField
    ensures Dispatch(m).GivePong? <==> m.Body? && m.kind == Pong
    ensures Dispatch(m).Exit? <==> m.Body? && m.kind == Disconnect
    ensures Dispatch(m).GiveCall? <==> m.Body? && m.kind == DownstreamCall
    ensures Dispatch(m).Route? <==>
              m.Body? && m.kind in {UpstreamChunkAck, DownstreamChunk, DownstreamMetadata, DownstreamChunkAckComplete,
                                    UpstreamCallAck}
  {
  }

  // ---------------------------------------------------------------- the client's object

  /** A requester, named by the order in which requests drew their ids. */
  type Who = nat

  class ConnInner {
    var responseSenders: map<U32, Who>
    var requestIdCounter: U32
    var downstreamStreamIdAliasCounter: U32

    constructor ()
      ensures responseSenders == map[] && requestIdCounter == 0 && downstreamStreamIdAliasCounter == 1
    {
      responseSenders := map[];
      requestIdCounter := 0;
      downstreamStreamIdAliasCounter := 1;
    }

    /** The counter and the table are those of the protocol's state. */
    ghost predicate Represents(s: State)
      reads this
    {
      s.counter == requestIdCounter && s.table == responseSenders
    }

    /** `who` has drawn `id` and is not in the table yet. */
    static predicate Drew(s: State, who: Who, id: U32) {
      who < |s.requesters| && s.requesters[who].progress == Drawn && s.requesters[who].id == id
    }

    /** What a request does before it is sent. */
    method StartRequest(who: Who) returns (id: U32)
      modifies this`requestIdCounter, this`responseSenders
      ensures forall s: State, kind: Kind :: old(Represents(s)) && |s.requesters| == who ==>
                var t := Step(Step(s, Draw(kind)), Insert(who));
                Represents(t) && t.requesters == s.requesters + [Requester(kind, s.draws, id, Waiting)]
    {
      id := GetRequestId();
      label Counted:
      var duplicated := AddResponseSender(id, who);
      forall s: State, kind: Kind | old(Represents(s)) && |s.requesters| == who
        ensures var t := Step(Step(s, Draw(kind)), Insert(who));
                Represents(t) && t.requesters == s.requesters + [Requester(kind, s.draws, id, Waiting)]
      {
        var drawn := Step(s, Draw(kind));
        DrawThenInsert(s, kind);
        assert old@Counted(Represents(Drawing(s)));
        assert old@Counted(Represents(drawn));
      }
    }

    method GetRequestId() returns (id: U32)
      modifies this`requestIdCounter
      ensures responseSenders == old(responseSenders)
      ensures id == old(requestIdCounter)
      ensures forall s: State :: old(Represents(s)) ==> Represents(Drawing(s))
    {
      id := requestIdCounter;
      requestIdCounter := Wrap(requestIdCounter as int + 2);
    }

    /** `duplicated` says another requester has just lost its place. */
    method AddResponseSender(id: U32, who: Who) returns (duplicated: bool)
      modifies this`responseSenders
      ensures duplicated <==> id in old(responseSenders)
      ensures forall s: State :: old(Represents(s)) && Drew(s, who, id) ==> Represents(Inserting(s, who))
    {
      duplicated := id in responseSenders;
      responseSenders := responseSenders[id := who];
    }

    method RemoveResponseSender(id: U32) returns (who: Option<Who>)
      modifies this`responseSenders
      ensures who == if id in old(responseSenders) then Some(old(responseSenders)[id]) else None
      ensures responseSenders == old(responseSenders) - {id}
      ensures forall s: State, loop: Loop, m: Message ::
                old(Represents(s)) && loop !in s.held && Dispatch(m) == Answer(id) ==> Represents(Reading(s, loop, m))
    {
      who := if id in responseSenders then Some(responseSenders[id]) else None;
      responseSenders := responseSenders - {id};
    }

    method DownstreamStreamIdAlias() returns (alias: Option<U32>)
      modifies this`downstreamStreamIdAliasCounter
      ensures var drawn := old(downstreamStreamIdAliasCounter);
              && alias == (if drawn == 0 then None else Some(drawn))
              && downstreamStreamIdAliasCounter == Wrap(drawn + 1)
    {
      var drawn := downstreamStreamIdAliasCounter;
      downstreamStreamIdAliasCounter := Wrap(drawn as int + 1);
      if drawn == 0 {
        return None;
      }
      return Some(drawn);
    }
  }

  lemma DrawThenInsert(s: State, kind: Kind)
    ensures var who, drawn := |s.requesters|, Step(s, Draw(kind));
            && drawn.counter == Drawing(s).counter && drawn.table == s.table && ConnInner.Drew(drawn, who, s.counter)
            && Step(drawn, Insert(who)) == Inserting(drawn, who)
            && Inserting(drawn, who).requesters == s.requesters + [Requester(kind, s.draws, s.counter, Waiting)]
  {
  }

  /** Where a message ended up. */
  datatype Outcome =
    | PongSent(requestId: U32)
    | ToPingLoop
    | Left
    | ToCallReceivers
    | ToChannel(to: Option<ReadLoop.Tx>)
    | ToRequester(who: Who)
    | Dropped

  /** One of a connection's read loops, past decoding. */
  class ReadLoopTask {
    const inner: ConnInner
    const channels: ReadLoop.ReadLoopChannels

    constructor (inner: ConnInner)
      ensures this.inner == inner && fresh(channels) && channels.Valid() && channels.inputs == []
    {
      this.inner := inner;
      channels := new ReadLoop.ReadLoopChannels();
    }

    method Handle(m: Message) returns (outcome: Outcome)
      requires channels.Valid()
      modifies inner`responseSenders, channels
      ensures channels.Valid()
      ensures match Dispatch(m)
              case SendPong(id) => outcome == PongSent(id)
              case GivePong => outcome == ToPingLoop
              case Exit => outcome == Left
              case GiveCall => outcome == ToCallReceivers
              case Route => outcome == ToChannel(ReadLoop.Registered(ReadLoop.KeyOf(m).value, old(channels.inputs)))
              case Answer(id) =>
                outcome ==
                  (if id in old(inner.responseSenders) then ToRequester(old(inner.responseSenders)[id]) else Dropped)
              case Drop => outcome == Dropped
      ensures inner.responseSenders ==
                old(inner.responseSenders) - (if Dispatch(m).Answer? then {Dispatch(m).requestId} else {})
    {
      if m.Body? {
        match m.kind {
          case Ping => return PongSent(m.requestIdField);
          case Pong => return ToPingLoop;
          case Disconnect => return Left;
          case DownstreamCall => return ToCallReceivers;
          case _ =>
        }
      }
      var handled, to := channels.ProcessMessage(m);
      if handled {
        return ToChannel(to);
      }
      var requestId := m.RequestId();
      if requestId.Some? && requestId.value % 2 == 0 {
        var who := inner.RemoveResponseSender(requestId.value);
        if who.Some? {
          return ToRequester(who.value);
        }
      }
      return Dropped;
    }
  }

  // ---------------------------------------------------------------- the protocol

  datatype Failure = GaveUp | ChannelClosed | UnexpectedMessage | UnknownResultCode | Failed(code: int)

  /** Drawn: has an id; Waiting: in the table or on its way out; Handed: the response is in its channel. */
  datatype Progress = Drawn | Waiting | Handed(m: Message) | Finished(result: Result<Message, Failure>)

  datatype Requester = Requester(kind: Kind, draw: nat, id: U32, progress: Progress)

  datatype Loop = Main | Unreliable

  /**
   `draws` counts the ids drawn; `table` and `held` are the senders' places; `given` records the
   messages put into requesters' channels.
   */
  datatype State = State(
    draws: nat,
    counter: U32,
    requesters: seq<Requester>,
    table: map<U32, Who>,
    held: map<Loop, (Who, Message)>,
    given: seq<(Who, Message)>)

  const START := State(0, 0, [], map[], map[], [])

  datatype Event =
    | DrawPing
    | Draw(kind: Kind)
    | Insert(who: Who)
    | Read(loop: Loop, m: Message)
    | Deliver(loop: Loop)
    | GiveUp(who: Who)
    | Conclude(who: Who)

  /** A sender that is nowhere has been dropped, which closes its channel. */
  predicate SenderGone(s: State, who: Who) {
    who !in s.table.Values && forall loop :: loop in s.held ==> s.held[loop].0 != who
  }

  function Judge(kind: Kind, m: Message): Result<Message, Failure> {
    if m.Empty? || Some(m.kind) != ResponseKind(kind) then Err(UnexpectedMessage)
    else if !KnownCode(m.resultCode) then Err(UnknownResultCode)
    else if m.resultCode != SUCCEEDED then Err(Failed(m.resultCode))
    else Ok(m)
  }

  function Set(s: State, who: Who, progress: Progress): State
    requires who < |s.requesters|
  {
    s.(requesters := s.requesters[who := s.requesters[who].(progress := progress)])
  }

  function Drawing(s: State): State {
    s.(draws := s.draws + 1, counter := Wrap(s.counter + 2))
  }

  function Inserting(s: State, who: Who): State {
    if who < |s.requesters| && s.requesters[who].progress == Drawn then
      Set(s, who, Waiting).(table := s.table[s.requesters[who].id := who])
    else s
  }

  function Reading(s: State, loop: Loop, m: Message): State {
    if loop !in s.held && Dispatch(m).Answer? && Dispatch(m).requestId in s.table then
      s.(table := s.table - {Dispatch(m).requestId}, held := s.held[loop := (s.table[Dispatch(m).requestId], m)])
    else s
  }

  /** A message for a requester that has given up is dropped. */
  function Delivering(s: State, loop: Loop): State {
    if loop in s.held then
      var who, m := s.held[loop].0, s.held[loop].1;
      var t := s.(held := s.held - {loop});
      if who < |s.requesters| && s.requesters[who].progress == Waiting then
        Set(t, who, Handed(m)).(given := s.given + [(who, m)])
      else t
    else s
  }

  function GivingUp(s: State, who: Who): State {
    if who < |s.requesters| && (s.requesters[who].progress == Waiting || s.requesters[who].progress.Handed?) then
      Set(s, who, Finished(Err(GaveUp)))
    else s
  }

  function Concluding(s: State, who: Who): State {
    if who < |s.requesters| && s.requesters[who].progress.Handed? then
      Set(s, who, Finished(Judge(s.requesters[who].kind, s.requesters[who].progress.m)))
    else if who < |s.requesters| && s.requesters[who].progress == Waiting && SenderGone(s, who) then
      Set(s, who, Finished(Err(ChannelClosed)))
    else s
  }

  function Step(s: State, e: Event): State {
    match e
    case DrawPing => Drawing(s)
    case Draw(kind) => Drawing(s).(requesters := s.requesters + [Requester(kind, s.draws, s.counter, Drawn)])
    case Insert(who) => Inserting(s, who)
    case Read(loop, m) => Reading(s, loop, m)
    case Deliver(loop) => Delivering(s, loop)
    case GiveUp(who) => GivingUp(s, who)
    case Conclude(who) => Concluding(s, who)
  }

  function Run(events: seq<Event>): State {
    if |events| == 0 then START else Step(Run(events[..|events| - 1]), events[|events| - 1])
  }

  // ---------------------------------------------------------------- ids

  const HALF := 0x8000_0000

  /** The id of a draw is even, and two draws, pings included, agree exactly when a multiple of 2^31 apart. */
  lemma DrawsAgreeIff(i: nat, j: nat)
    ensures Wrap(2 * i) % 2 == 0
    ensures Wrap(2 * i) == Wrap(2 * j) <==> (j - i) % HALF == 0
  {
    var q := i / HALF;
    var p := j / HALF;
    assert Wrap(2 * i) == 2 * (i % HALF) by {
      assert 2 * i == q * U32_LIMIT + 2 * (i % HALF);
    }
    assert Wrap(2 * j) == 2 * (j % HALF) by {
      assert 2 * j == p * U32_LIMIT + 2 * (j % HALF);
    }
    assert j - i == (p - q) * HALF + (j % HALF - i % HALF);
  }

  // ---------------------------------------------------------------- what every step keeps

  /** Ids are drawn in order, two at a time. */
  ghost predicate Ids(s: State) {
    && s.counter == Wrap(2 * s.draws)
    && (forall r :: 0 <= r < |s.requesters| ==>
          s.requesters[r].draw < s.draws && s.requesters[r].id == Wrap(2 * s.requesters[r].draw))
    && (forall r, q :: 0 <= r < q < |s.requesters| ==> s.requesters[r].draw < s.requesters[q].draw)
  }

  /** Whether the sender of `who` may still be in use. */
  predicate SenderOut(s: State, who: Who) {
    who < |s.requesters| && (s.requesters[who].progress == Waiting || s.requesters[who].progress.Finished?)
  }

  /** Every sender is in one place only: the table, under its id, or one loop's hands. */
  ghost predicate Places(s: State) {
    && (forall id :: id in s.table ==> SenderOut(s, s.table[id]) && s.requesters[s.table[id]].id == id)
    && (forall loop :: loop in s.held ==>
          && SenderOut(s, s.held[loop].0)
          && s.held[loop].1.RequestId() == Some(s.requesters[s.held[loop].0].id)
          && s.held[loop].0 !in s.table.Values)
    && (forall l, k :: l in s.held && k in s.held && s.held[l].0 == s.held[k].0 ==> l == k)
  }

  /** Every message given went to a requester with its id, whose sender it used up. */
  ghost predicate Given(s: State) {
    && (forall i :: 0 <= i < |s.given| ==>
          && s.given[i].0 < |s.requesters|
          && s.given[i].1.RequestId() == Some(s.requesters[s.given[i].0].id)
          && SenderGone(s, s.given[i].0)
          && (s.requesters[s.given[i].0].progress.Handed? || s.requesters[s.given[i].0].progress.Finished?))
    && (forall i, j :: 0 <= i < j < |s.given| ==> s.given[i].0 != s.given[j].0)
  }

  predicate IsOwn(r: Requester, m: Message) {
    m.Body? && m.RequestId() == Some(r.id) && Some(m.kind) == ResponseKind(r.kind) && m.resultCode == SUCCEEDED
  }

  /** A message handed over was given; an Ok result is one of those and a proper response. */
  predicate ResultSound(s: State, who: Who)
    requires who < |s.requesters|
  {
    match s.requesters[who].progress
    case Handed(m) => m.RequestId() == Some(s.requesters[who].id) && (who, m) in s.given
    case Finished(Ok(m)) => IsOwn(s.requesters[who], m) && (who, m) in s.given
    case _ => true
  }

  ghost predicate Results(s: State) {
    forall r :: 0 <= r < |s.requesters| ==> ResultSound(s, r)
  }

  ghost predicate Sound(s: State) {
    Ids(s) && Places(s) && Given(s) && Results(s)
  }

  lemma StepKeepsIds(s: State, e: Event)
    requires Ids(s)
    ensures Ids(Step(s, e))
  {
    WrapOfWrap(2 * s.draws, 2);
    assert 2 * s.draws + 2 == 2 * (s.draws + 1);
    hide Judge, Dispatch, SenderGone, Wrap;
  }

  lemma InsertKeepsPlaces(s: State, who: Who)
    requires Places(s)
    ensures Places(Inserting(s, who))
  {
    var t := Inserting(s, who);
    assert forall k :: k in t.table.Values ==> k in s.table.Values || k == who;
  }

  lemma ReadKeepsPlaces(s: State, loop: Loop, m: Message)
    requires Places(s)
    ensures Places(Reading(s, loop, m))
  {
    assert Dispatch(m).Answer? ==> m.RequestId() == Some(Dispatch(m).requestId);
    hide Dispatch;
    var t := Reading(s, loop, m);
    assert forall k :: k in t.table.Values ==> k in s.table.Values;
  }

  lemma DroppedHasNoPlace(s: State, loop: Loop)
    requires Places(s) && loop in s.held
    ensures var t := s.(held := s.held - {loop}); Places(t) && SenderGone(t, s.held[loop].0)
  {
  }

  /** What happens to a requester whose sender is gone does not matter. */
  lemma OthersKeepPlaces(s: State, who: Who, progress: Progress)
    requires Places(s) && who < |s.requesters| && SenderGone(s, who)
    ensures Places(Set(s, who, progress))
  {
    assert forall id :: id in s.table ==> s.table[id] in s.table.Values;
  }

  lemma DeliverKeepsPlaces(s: State, loop: Loop)
    requires Places(s)
    ensures Places(Delivering(s, loop))
  {
    if loop in s.held {
      DroppedHasNoPlace(s, loop);
      hide SenderOut, SenderGone;
      var t, who := s.(held := s.held - {loop}), s.held[loop].0;
      if who < |s.requesters| {
        OthersKeepPlaces(t, who, Handed(s.held[loop].1));
      }
    }
  }

  /** Finishing leaves every sender where it is. */
  lemma FinishKeepsPlaces(s: State, who: Who, progress: Progress)
    requires Places(s) && who < |s.requesters| && progress.Finished?
    ensures Places(Set(s, who, progress))
  {
  }

  lemma StepKeepsPlaces(s: State, e: Event)
    requires Places(s)
    ensures Places(Step(s, e))
  {
    match e
    case Insert(who) => InsertKeepsPlaces(s, who);
    case Read(loop, m) => ReadKeepsPlaces(s, loop, m);
    case Deliver(loop) => DeliverKeepsPlaces(s, loop);
    case GiveUp(who) =>
      if who < |s.requesters| {
        FinishKeepsPlaces(s, who, Finished(Err(GaveUp)));
      }
    case Conclude(who) =>
      if who < |s.requesters| {
        FinishKeepsPlaces(s, who, Finished(Err(ChannelClosed)));
        if s.requesters[who].progress.Handed? {
          FinishKeepsPlaces(s, who, Finished(Judge(s.requesters[who].kind, s.requesters[who].progress.m)));
        }
      }
    case _ => { }
    hide Inserting, Reading, Delivering, Judge, SenderGone;
  }

  lemma DeliverKeepsGiven(s: State, loop: Loop)
    requires Places(s) && Given(s)
    ensures Given(Delivering(s, loop))
  {
    hide SenderOut;
  }

  lemma InsertKeepsGiven(s: State, who: Who)
    requires Given(s)
    ensures Given(Inserting(s, who))
  {
    var t := Inserting(s, who);
    assert forall k :: k in t.table.Values ==> k in s.table.Values || k == who;
  }

  lemma ReadKeepsGiven(s: State, loop: Loop, m: Message)
    requires Given(s)
    ensures Given(Reading(s, loop, m))
  {
    hide Dispatch;
    var t := Reading(s, loop, m);
    assert forall k :: k in t.table.Values ==> k in s.table.Values;
    assert forall id :: id in s.table ==> s.table[id] in s.table.Values;
  }

  lemma FinishKeepsGiven(s: State, who: Who)
    requires Given(s)
    ensures Given(GivingUp(s, who)) && Given(Concluding(s, who))
  {
    hide Judge;
  }

  lemma StepKeepsGiven(s: State, e: Event)
    requires Places(s) && Given(s)
    ensures Given(Step(s, e))
  {
    match e
    case Insert(who) => InsertKeepsGiven(s, who);
    case Read(loop, m) => ReadKeepsGiven(s, loop, m);
    case Deliver(loop) => DeliverKeepsGiven(s, loop);
    case GiveUp(who) => FinishKeepsGiven(s, who);
    case Conclude(who) => FinishKeepsGiven(s, who);
    case _ => { }
    hide Inserting, Reading, Delivering, GivingUp, Concluding, Places;
  }

  lemma DeliverKeepsResults(s: State, loop: Loop)
    requires Places(s) && Results(s)
    ensures Results(Delivering(s, loop))
  {
    var t := Delivering(s, loop);
    forall r | 0 <= r < |t.requesters|
      ensures ResultSound(t, r)
    {
      assert ResultSound(s, r);
      assert s.given <= t.given;
      hide IsOwn;
    }
  }

  lemma StepKeepsResults(s: State, e: Event)
    requires Places(s) && Results(s)
    ensures Results(Step(s, e))
  {
    if e.Deliver? {
      DeliverKeepsResults(s, e.loop);
    } else {
      hide Dispatch, Places;
      var t := Step(s, e);
      forall r | 0 <= r < |t.requesters|
        ensures ResultSound(t, r)
      {
        assert r < |s.requesters| ==> ResultSound(s, r);
      }
    }
  }

  lemma StepIsSound(s: State, e: Event)
    requires Sound(s)
    ensures Sound(Step(s, e))
  {
    StepKeepsIds(s, e);
    StepKeepsPlaces(s, e);
    StepKeepsGiven(s, e);
    StepKeepsResults(s, e);
    hide Step, Ids, Places, Given, Results;
  }

  lemma {:induction false} RunIsSound(events: seq<Event>)
    ensures Sound(Run(events))
  {
    if |events| > 0 {
      RunIsSound(events[..|events| - 1]);
      StepIsSound(Run(events[..|events| - 1]), events[|events| - 1]);
    }
  }

  // ---------------------------------------------------------------- main results

  /**
   Correlation. In every interleaving of requests, pings, timeouts and the two read loops, a requester is
   given at most one message, which carries its id; and an Ok result is a message given to
   it that has its response kind and the code Succeeded.
   */
  lemma OneMessageEach(events: seq<Event>)
    ensures var s := Run(events);
            && (forall i, j :: 0 <= i < j < |s.given| ==> s.given[i].0 != s.given[j].0)
            && (forall i :: 0 <= i < |s.given| ==>
                  && s.given[i].0 < |s.requesters|
                  && s.given[i].1.RequestId() == Some(s.requesters[s.given[i].0].id))
            && (forall r, m :: 0 <= r < |s.requesters| && s.requesters[r].progress == Finished(Ok(m)) ==>
                  (r, m) in s.given && IsOwn(s.requesters[r], m))
  {
    RunIsSound(events);
    hide Run, IsOwn, SenderGone, SenderOut;
    var s := Run(events);
    forall r, m | 0 <= r < |s.requesters| && s.requesters[r].progress == Finished(Ok(m))
      ensures (r, m) in s.given && IsOwn(s.requesters[r], m)
    {
      assert ResultSound(s, r);
    }
  }

  /** From `s` on. */
  function RunFrom(s: State, events: seq<Event>): State {
    if |events| == 0 then s else Step(RunFrom(s, events[..|events| - 1]), events[|events| - 1])
  }

  lemma {:induction false} RunConcat(a: seq<Event>, b: seq<Event>)
    ensures Run(a + b) == RunFrom(Run(a), b)
  {
    if |b| == 0 {
      assert a + b == a;
    } else {
      RunConcat(a, b[..|b| - 1]);
      assert (a + b)[..|a + b| - 1] == a + b[..|b| - 1];
    }
  }

  ghost predicate Held(s: State, who: Who, kind: Kind, loop: Loop, m: Message) {
    && who < |s.requesters| && s.requesters[who].kind == kind && s.requesters[who].progress == Waiting
    && loop in s.held && s.held[loop] == (who, m)
  }

  /** `m` is on its way to `who`: in `loop`'s hands, in the requester's channel, or already judged. */
  ghost predicate OnItsWay(s: State, who: Who, kind: Kind, loop: Loop, m: Message) {
    Held(s, who, kind, loop, m) || Received(s, who, kind, m)
  }

  ghost predicate Received(s: State, who: Who, kind: Kind, m: Message) {
    && who < |s.requesters| && s.requesters[who].kind == kind
    && (s.requesters[who].progress == Handed(m) || Judged(s, who, kind, m))
  }

  ghost predicate Judged(s: State, who: Who, kind: Kind, m: Message) {
    who < |s.requesters| && s.requesters[who].kind == kind && s.requesters[who].progress == Finished(Judge(kind, m))
  }

  /** A requester that has its message keeps it. */
  lemma StepKeepsReceived(s: State, e: Event, who: Who, kind: Kind, m: Message)
    requires Received(s, who, kind, m) && e != GiveUp(who)
    ensures Received(Step(s, e), who, kind, m)
    ensures e == Conclude(who) ==> Judged(Step(s, e), who, kind, m)
  {
    hide Dispatch, Judge, SenderGone;
  }

  /** A message in a loop's hands stays there until it is delivered. */
  lemma StepKeepsHeld(s: State, e: Event, who: Who, kind: Kind, loop: Loop, m: Message)
    requires Places(s) && Held(s, who, kind, loop, m) && e != GiveUp(who) && e != Deliver(loop)
    ensures Held(Step(s, e), who, kind, loop, m)
  {
    hide Dispatch, Judge, SenderOut;
  }

  lemma DeliverHands(s: State, who: Who, kind: Kind, loop: Loop, m: Message)
    requires Held(s, who, kind, loop, m)
    ensures Received(Step(s, Deliver(loop)), who, kind, m)
  {
    hide Judge;
  }

  lemma StepMovesOn(s: State, e: Event, who: Who, kind: Kind, loop: Loop, m: Message)
    requires Places(s) && OnItsWay(s, who, kind, loop, m) && e != GiveUp(who)
    ensures OnItsWay(Step(s, e), who, kind, loop, m)
    ensures e == Deliver(loop) ==> Received(Step(s, e), who, kind, m)
  {
    if Received(s, who, kind, m) {
      StepKeepsReceived(s, e, who, kind, m);
    } else if e == Deliver(loop) {
      DeliverHands(s, who, kind, loop, m);
    } else {
      StepKeepsHeld(s, e, who, kind, loop, m);
    }
    hide Step, Places, Judge, Held, Received;
  }

  lemma {:induction false} RunMovesOn(s: State, events: seq<Event>, who: Who, kind: Kind, loop: Loop, m: Message)
    requires Sound(s) && OnItsWay(s, who, kind, loop, m) && GiveUp(who) !in events
    ensures Sound(RunFrom(s, events)) && OnItsWay(RunFrom(s, events), who, kind, loop, m)
  {
    if |events| > 0 {
      var before, e := events[..|events| - 1], events[|events| - 1];
      RunMovesOn(s, before, who, kind, loop, m);
      StepIsSound(RunFrom(s, before), e);
      assert e in events;
      hide Step, OnItsWay;
      StepMovesOn(RunFrom(s, before), e, who, kind, loop, m);
    }
  }

  lemma {:induction false} RunKeepsReceived(s: State, events: seq<Event>, who: Who, kind: Kind, m: Message)
    requires Received(s, who, kind, m) && GiveUp(who) !in events
    ensures Received(RunFrom(s, events), who, kind, m)
  {
    if |events| > 0 {
      var before, e := events[..|events| - 1], events[|events| - 1];
      RunKeepsReceived(s, before, who, kind, m);
      assert e in events;
      hide Step, Received;
      StepKeepsReceived(RunFrom(s, before), e, who, kind, m);
    }
  }

  /** `m` is a response to some request. */
  ghost predicate IsResponse(m: Message) {
    m.Body? && exists request :: ResponseKind(request) == Some(m.kind)
  }

  /** A read loop takes the waiting requester's sender out of the table. */
  lemma ResponseIsTaken(s: State, who: Who, loop: Loop, m: Message)
    requires Sound(s) && who < |s.requesters| && s.requesters[who].progress == Waiting
    requires s.requesters[who].id in s.table && s.table[s.requesters[who].id] == who && loop !in s.held
    requires IsResponse(m) && m.RequestId() == Some(s.requesters[who].id)
    ensures OnItsWay(Step(s, Read(loop, m)), who, s.requesters[who].kind, loop, m)
  {
    DrawsAgreeIff(s.requesters[who].draw, 0);
    var request :| ResponseKind(request) == Some(m.kind);
    ResponsesReachTheTable(request, m);
    hide Dispatch, Judge, ResponseKind, Places, Given, Results;
  }

  /** What a requester concludes from a response with its id. */
  ghost predicate Concludes(r: Requester, m: Message, progress: Progress)
    requires m.Body?
  {
    && (progress == Finished(Ok(m)) <==> IsOwn(r, m))
    && (Some(m.kind) != ResponseKind(r.kind) ==> progress == Finished(Err(UnexpectedMessage)))
    && (Some(m.kind) == ResponseKind(r.kind) ==>
          && (!KnownCode(m.resultCode) ==> progress == Finished(Err(UnknownResultCode)))
          && (KnownCode(m.resultCode) && m.resultCode != SUCCEEDED ==> progress == Finished(Err(Failed(m.resultCode)))))
  }

  lemma JudgedConcludes(r: Requester, m: Message)
    requires IsResponse(m) && m.RequestId() == Some(r.id)
    ensures Concludes(r, m, Finished(Judge(r.kind, m)))
  {
  }

  /**
   A response that is read while its requester waits is what the requester concludes from, whatever happens around it:
   other requests, the other read loop, even other responses with its id. Only giving up before
   prevents it. The request succeeds if and only if the response is of its kind and says so.
   */
  lemma ResponseArrives(before: seq<Event>, who: Who, loop: Loop, m: Message, a: seq<Event>, b: seq<Event>, c: seq<Event>)
    requires var s := Run(before);
             && who < |s.requesters| && s.requesters[who].progress == Waiting
             && s.requesters[who].id in s.table && s.table[s.requesters[who].id] == who && loop !in s.held
             && IsResponse(m) && m.RequestId() == Some(s.requesters[who].id)
    requires GiveUp(who) !in a && GiveUp(who) !in b
    ensures var s := Run(before);
            var t := Run(before + [Read(loop, m)] + a + [Deliver(loop)] + b + [Conclude(who)] + c);
            who < |t.requesters| && Concludes(s.requesters[who], m, t.requesters[who].progress)
  {
    JudgedConcludes(Run(before).requesters[who], m);
    RunIsSound(before);
    var kind := Run(before).requesters[who].kind;
    ResponseIsTaken(Run(before), who, loop, m);
    hide Run, Step, Sound, OnItsWay, Received, Judge, Concludes;
    var read := before + [Read(loop, m)];
    RunSnoc(before, Read(loop, m));
    RunIsSound(read);
    RunConcat(read, a);
    RunMovesOn(Run(read), a, who, kind, loop, m);
    SoundHasPlaces(Run(read + a));
    StepMovesOn(Run(read + a), Deliver(loop), who, kind, loop, m);
    RunSnoc(read + a, Deliver(loop));
    var delivered := read + a + [Deliver(loop)];
    RunConcat(delivered, b);
    RunKeepsReceived(Run(delivered), b, who, kind, m);
    StepKeepsReceived(Run(delivered + b), Conclude(who), who, kind, m);
    RunSnoc(delivered + b, Conclude(who));
    var concluded := delivered + b + [Conclude(who)];
    RunConcat(concluded, c);
    JudgedStays(Run(concluded), c, who, kind, m);
  }

  lemma SoundHasPlaces(s: State)
    requires Sound(s)
    ensures Places(s)
  {
  }

  lemma RunSnoc(events: seq<Event>, e: Event)
    ensures Run(events + [e]) == Step(Run(events), e)
  {
    assert (events + [e])[..|events|] == events;
  }

  lemma JudgedStaysOnce(s: State, e: Event, who: Who)
    requires who < |s.requesters| && s.requesters[who].progress.Finished?
    ensures who < |Step(s, e).requesters| && Step(s, e).requesters[who] == s.requesters[who]
  {
    hide Judge, Dispatch, SenderGone;
  }

  /** A result is final. */
  lemma {:induction false} JudgedStays(s: State, events: seq<Event>, who: Who, kind: Kind, m: Message)
    requires Judged(s, who, kind, m)
    ensures Judged(RunFrom(s, events), who, kind, m)
  {
    if |events| > 0 {
      var before, e := RunFrom(s, events[..|events| - 1]), events[|events| - 1];
      JudgedStays(s, events[..|events| - 1], who, kind, m);
      JudgedStaysOnce(before, e, who);
      hide Judge, Step;
    }
  }

  /**
   A requester without a message: it gives up when told to, also when it has one that it has not looked at, and it fails
   when its sender is gone; otherwise it waits on.
   */
  lemma NoMessageNoResult(events: seq<Event>, who: Who)
    requires var s := Run(events);
             who < |s.requesters| && (s.requesters[who].progress == Waiting || s.requesters[who].progress.Handed?)
    ensures var s, t, u := Run(events), Run(events + [GiveUp(who)]), Run(events + [Conclude(who)]);
            && |t.requesters| == |u.requesters| == |s.requesters|
            && t.requesters[who].progress == Finished(Err(GaveUp))
            && (s.requesters[who].progress == Waiting ==>
                  u.requesters[who].progress == if SenderGone(s, who) then Finished(Err(ChannelClosed)) else Waiting)
  {
    RunSnoc(events, GiveUp(who));
    RunSnoc(events, Conclude(who));
    hide Run, SenderGone, Judge;
  }

  lemma OverwritesIff(s: State, who: Who)
    requires Ids(s) && Places(s) && who < |s.requesters|
    ensures s.requesters[who].id in s.table <==>
              exists q :: q in s.table.Values && q < |s.requesters|
                && (s.requesters[who].draw - s.requesters[q].draw) % HALF == 0
  {
    forall q | q in s.table.Values && q < |s.requesters|
      ensures (s.requesters[who].draw - s.requesters[q].draw) % HALF == 0 <==> s.requesters[who].id == s.requesters[q].id
    {
      DrawsAgreeIff(s.requesters[q].draw, s.requesters[who].draw);
    }
    hide Wrap;
    assert forall id :: id in s.table ==> s.table[id] in s.table.Values;
  }

  /** Adding a requester pushes out another exactly when their draws are a multiple of 2^31 apart. */
  lemma InsertOverwritesIff(events: seq<Event>, who: Who)
    requires var s := Run(events); who < |s.requesters| && s.requesters[who].progress == Drawn
    ensures var s := Run(events);
            s.requesters[who].id in s.table <==>
              exists q :: q in s.table.Values && q < |s.requesters|
                && (s.requesters[who].draw - s.requesters[q].draw) % HALF == 0
  {
    RunIsSound(events);
    hide Run;
    OverwritesIff(Run(events), who);
  }

  // ---------------------------------------------------------------- a requester pushed out

  function Pings(n: nat): seq<Event> {
    seq(n, _ => DrawPing)
  }

  lemma {:induction false} PingsOnlyDraw(s: State, n: nat)
    requires s.counter == Wrap(2 * s.draws)
    ensures RunFrom(s, Pings(n)) == s.(draws := s.draws + n, counter := Wrap(2 * (s.draws + n)))
  {
    if n > 0 {
      PingsOnlyDraw(s, n - 1);
      assert Pings(n)[..n - 1] == Pings(n - 1);
      WrapOfWrap(2 * (s.draws + n - 1), 2);
      hide Wrap;
      assert 2 * (s.draws + n - 1) + 2 == 2 * (s.draws + n);
    }
  }

  /** A run in which a waiting requester loses its place: the second request comes 2^31 draws after the first. */
  lemma RequesterIsPushedOut(kind: Kind)
    ensures var s := Run([Draw(kind), Insert(0)] + Pings(HALF - 1) + [Draw(kind), Insert(1)]);
            |s.requesters| == 2 && s.requesters[0].progress == Waiting && s.requesters[1].progress == Waiting
            && s.requesters[0].id == s.requesters[1].id && SenderGone(s, 0) && !HasPlace(s, 0)
  {
    hide Run, RunFrom, Step, SenderGone, HasPlace, Wrap, Pings;
    var start := [Draw(kind), Insert(0)];
    RunSnoc([], Draw(kind));
    RunSnoc([Draw(kind)], Insert(0));
    assert [] + [Draw(kind)] == [Draw(kind)] && [Draw(kind)] + [Insert(0)] == start;
    StartsEmpty();
    FirstWaits(kind);
    var before := start + Pings(HALF - 1);
    RunConcat(start, Pings(HALF - 1));
    WrapIdentity(2);
    PingsOnlyDraw(State(1, 2, [Requester(kind, 0, 0, Waiting)], map[0 := 0], map[], []), HALF - 1);
    RunSnoc(before, Draw(kind));
    RunSnoc(before + [Draw(kind)], Insert(1));
    assert before + [Draw(kind)] + [Insert(1)] == before + [Draw(kind), Insert(1)];
    OnceRound();
    SecondTakesThePlace(kind);
  }

  lemma StartsEmpty()
    ensures Run([]) == START
  {
  }

  lemma OnceRound()
    ensures Wrap(2 * (1 + (HALF - 1))) == 0
  {
  }

  lemma FirstWaits(kind: Kind)
    ensures Step(Step(START, Draw(kind)), Insert(0)) ==
              State(1, 2, [Requester(kind, 0, 0, Waiting)], map[0 := 0], map[], [])
  {
  }

  /** The second requester draws the id under which the first one waits. */
  lemma SecondTakesThePlace(kind: Kind)
    ensures var s := State(HALF, 0, [Requester(kind, 0, 0, Waiting)], map[0 := 0], map[], []);
            var t := Step(Step(s, Draw(kind)), Insert(1));
            && t.requesters == [Requester(kind, 0, 0, Waiting), Requester(kind, HALF, 0, Waiting)]
            && SenderGone(t, 0) && !HasPlace(t, 0)
  {
  }

  /** A waiting requester's sender is under its id, or in a read loop's hands with a message for it. */
  ghost predicate HasPlace(s: State, who: Who)
    requires who < |s.requesters|
  {
    || (s.requesters[who].id in s.table && s.table[s.requesters[who].id] == who)
    || (exists loop :: loop in s.held && s.held[loop].0 == who)
  }

  ghost predicate NobodyLost(s: State) {
    forall r :: 0 <= r < |s.requesters| ==>
      && (s.requesters[r].progress == Waiting ==> HasPlace(s, r))
      && s.requesters[r].progress != Finished(Err(ChannelClosed))
  }

  lemma DrawnHasNoSender(s: State, who: Who)
    requires Places(s) && who < |s.requesters| && s.requesters[who].progress == Drawn
    ensures who !in s.table.Values
  {
  }

  lemma DrawsDiffer(s: State, who: Who, q: Who)
    requires Ids(s) && s.draws <= HALF && who < |s.requesters| && q < |s.requesters| && who != q
    ensures (s.requesters[who].draw - s.requesters[q].draw) % HALF != 0
  {
    hide Wrap;
  }

  lemma FreshIdIsFree(s: State, who: Who)
    requires Ids(s) && Places(s) && s.draws <= HALF && who < |s.requesters| && s.requesters[who].progress == Drawn
    ensures s.requesters[who].id !in s.table
  {
    hide Ids, Places;
    OverwritesIff(s, who);
    DrawnHasNoSender(s, who);
    forall q: Who | q < |s.requesters| && q != who
      ensures (s.requesters[who].draw - s.requesters[q].draw) % HALF != 0
    {
      DrawsDiffer(s, who, q);
    }
  }

  lemma InsertLosesNobody(s: State, who: Who)
    requires Ids(s) && Places(s) && NobodyLost(s) && s.draws <= HALF
    ensures NobodyLost(Inserting(s, who))
  {
    if who < |s.requesters| && s.requesters[who].progress == Drawn {
      FreshIdIsFree(s, who);
    }
    hide Ids, Places;
    var t := Inserting(s, who);
    assert forall id :: id in s.table ==> id in t.table && t.table[id] == s.table[id];
  }

  lemma ReadLosesNobody(s: State, loop: Loop, m: Message)
    requires NobodyLost(s)
    ensures NobodyLost(Reading(s, loop, m))
  {
    hide Dispatch;
    var t := Reading(s, loop, m);
    forall r | 0 <= r < |t.requesters| && t.requesters[r].progress == Waiting
      ensures HasPlace(t, r)
    {
      assert HasPlace(s, r);
      if loop in t.held && t.held[loop].0 == r {
        assert HasPlace(t, r);
      } else if k :| k in s.held && s.held[k].0 == r {
        assert k in t.held && t.held[k].0 == r;
      }
    }
  }

  lemma DeliverLosesNobody(s: State, loop: Loop)
    requires NobodyLost(s)
    ensures NobodyLost(Delivering(s, loop))
  {
    var t := Delivering(s, loop);
    forall r | 0 <= r < |t.requesters| && t.requesters[r].progress == Waiting
      ensures HasPlace(t, r)
    {
      assert HasPlace(s, r);
      if k :| k in s.held && s.held[k].0 == r {
        assert k in t.held && t.held[k].0 == r;
      }
    }
  }

  lemma FinishLosesNobody(s: State, who: Who)
    requires NobodyLost(s)
    ensures NobodyLost(GivingUp(s, who)) && NobodyLost(Concluding(s, who))
  {
    assert forall id :: id in s.table ==> s.table[id] in s.table.Values;
  }

  lemma StepLosesNobody(s: State, e: Event)
    requires Sound(s) && NobodyLost(s) && s.draws <= HALF
    ensures NobodyLost(Step(s, e))
  {
    match e
    case Insert(who) => InsertLosesNobody(s, who);
    case Read(loop, m) => ReadLosesNobody(s, loop, m);
    case Deliver(loop) => DeliverLosesNobody(s, loop);
    case GiveUp(who) => FinishLosesNobody(s, who);
    case Conclude(who) => FinishLosesNobody(s, who);
    case _ => { }
    hide Inserting, Reading, Delivering, GivingUp, Concluding, Sound;
  }

  /** Within 2^31 draws nobody loses its place: a waiting requester's sender is never pushed out. */
  lemma {:induction false} NobodyIsLost(events: seq<Event>)
    requires Run(events).draws <= HALF
    ensures NobodyLost(Run(events))
  {
    if |events| > 0 {
      var s, e := Run(events[..|events| - 1]), events[|events| - 1];
      assert s.draws <= Step(s, e).draws;
      NobodyIsLost(events[..|events| - 1]);
      RunIsSound(events[..|events| - 1]);
      StepLosesNobody(s, e);
    }
  }

  // ---------------------------------------------------------------- downstream aliases

  /** The `n`th draw of a downstream's stream id alias on a connection; None is the original's error. */
  function AliasDraw(n: nat): Option<U32> {
    if Wrap(1 + n) == 0 then None else Some(Wrap(1 + n))
  }

  /**
   Exactly the draws numbered 2^32 - 1 short of a multiple of 2^32 fail; a later draw repeats an alias
   exactly when a multiple of 2^32 draws later, so only after a failure.
   */
  lemma AliasesRepeatIff(i: nat, j: nat)
    requires i < j
    ensures AliasDraw(j).None? <==> (j + 1) % U32_LIMIT == 0
    ensures AliasDraw(i) == AliasDraw(j) <==> (j - i) % U32_LIMIT == 0
    ensures AliasDraw(i) == AliasDraw(j) ==> exists k :: i <= k < j && AliasDraw(k).None?
  {
    WrapAgrees(1, i, j);
    if AliasDraw(i) == AliasDraw(j) {
      var k := i + (U32_LIMIT - 1 - i % U32_LIMIT);
      assert k < j;
      assert AliasDraw(k).None?;
    }
  }
}

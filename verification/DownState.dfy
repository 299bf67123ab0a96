/**
 The state a downstream shares with the server (src/iscp/down_state.rs) and the conversion of
 received chunks (src/iscp/downstream.rs:525-576): data id aliases, the table of upstream
 aliases the client hands out, and the acks that announce them.
 */
module DownState {
  import opened Base
  import opened Types

  datatype ChunkResult = ChunkResult(streamIdOfUpstream: Uuid, sequenceNumberInUpstream: U32)

  datatype Ack = Ack(
    streamIdAlias: U32,
    ackId: U32,
    results: seq<ChunkResult>,
    upstreamAliases: map<U32, InfoMessage>)

  datatype WireGroup = WireGroup(dataIdOrAlias: Option<DataIdOrAlias>, dataPoints: seq<DataPoint>)

  datatype StreamChunk = StreamChunk(sequenceNumber: U32, dataPointGroups: seq<WireGroup>)

  datatype UpstreamOrAlias = Upstream(info: InfoMessage) | UpstreamAlias(alias: U32)

  datatype WireChunk = WireChunk(upstreamOrAlias: Option<UpstreamOrAlias>, streamChunk: Option<StreamChunk>)

  // ---------------------------------------------------------------- the specification

  datatype Model = Model(
    dataIdAliases: map<U32, DataId>,
    infos: map<U32, UpstreamInfo>,
    forAck: map<U32, InfoMessage>,
    lastAlias: Option<U32>,
    lastAckId: Option<U32>,
    results: seq<ChunkResult>)

  function Parse(msg: InfoMessage): Result<UpstreamInfo, Error> {
    if |msg.streamId| == 16 then Ok(UpstreamInfo(msg.sessionId, msg.streamId, msg.sourceNodeId))
    else Err(InvalidValue)
  }

  function MessageOf(info: UpstreamInfo): InfoMessage {
    InfoMessage(info.sessionId, info.streamId, info.sourceNodeId)
  }

  /** `checked_add` on the last alias; nothing when the u32 range is used up, where the client panics. */
  function NextAlias(last: Option<U32>): Option<U32> {
    if last.None? then Some(0) else if last.value + 1 < U32_LIMIT then Some(last.value + 1) else None
  }

  datatype Stepped<T> = Stepped(model: Model, r: Result<T, Error>)

  function AddInfo(m: Model, msg: InfoMessage): Stepped<UpstreamInfo> {
    match Parse(msg)
    case Err(e) => Stepped(m, Err(e))
    case Ok(info) =>
      if info in m.infos.Values then Stepped(m, Ok(info))
      else
        match NextAlias(m.lastAlias)
        case None => Stepped(m, Err(TooManyUpstreams))
        case Some(alias) =>
          Stepped(
            m.(infos := m.infos[alias := info], forAck := m.forAck[alias := MessageOf(info)], lastAlias := Some(alias)),
            Ok(info))
  }

  function GetInfo(m: Model, alias: U32): Result<UpstreamInfo, Error> {
    if alias in m.infos then Ok(m.infos[alias]) else Err(InvalidValue)
  }

  datatype Taken = Taken(model: Model, ack: Option<Ack>)

  function TakeAck(m: Model, streamIdAlias: U32): Taken {
    if m.results == [] && m.forAck == map[] then Taken(m, None)
    else
      var ackId := if m.lastAckId.Some? then Wrap(m.lastAckId.value + 1) else 0;
      Taken(m.(results := [], forAck := map[], lastAckId := Some(ackId)),
            Some(Ack(streamIdAlias, ackId, m.results, m.forAck)))
  }

  function ConvertGroup(aliases: map<U32, DataId>, g: WireGroup): Result<DataPointGroup, Error> {
    match g.dataIdOrAlias
    case Some(Id(dataId)) => Ok(DataPointGroup(dataId, g.dataPoints))
    case Some(Alias(a)) =>
      if a in aliases then Ok(DataPointGroup(aliases[a], g.dataPoints)) else Err(InvalidValue)
    case None => Err(InvalidValue)
  }

  function ConvertGroups(aliases: map<U32, DataId>, groups: seq<WireGroup>): Result<seq<DataPointGroup>, Error> {
    if |groups| == 0 then Ok([])
    else
      match ConvertGroups(aliases, groups[..|groups| - 1])
      case Err(e) => Err(e)
      case Ok(done) =>
        match ConvertGroup(aliases, groups[|groups| - 1])
        case Err(e) => Err(e)
        case Ok(g) => Ok(done + [g])
  }

  function FindUpstream(m: Model, u: Option<UpstreamOrAlias>): Stepped<UpstreamInfo> {
    match u
    case Some(Upstream(info)) => AddInfo(m, info)
    case Some(UpstreamAlias(alias)) => Stepped(m, GetInfo(m, alias))
    case None => Stepped(m, Err(InvalidValue))
  }

  function Convert(m: Model, chunk: WireChunk, omitEmpty: bool): Stepped<Option<DownstreamChunk>> {
    if chunk.streamChunk.None? then Stepped(m, Ok(None))
    else
      var sc := chunk.streamChunk.value;
      if omitEmpty && |sc.dataPointGroups| == 0 then Stepped(m, Ok(None))
      else
        match ConvertGroups(m.dataIdAliases, sc.dataPointGroups)
        case Err(e) => Stepped(m, Err(e))
        case Ok(groups) =>
          var found := FindUpstream(m, chunk.upstreamOrAlias);
          match found.r
          case Err(e) => Stepped(found.model, Err(e))
          case Ok(info) =>
            var result := ChunkResult(info.streamId, sc.sequenceNumber);
            Stepped(found.model.(results := found.model.results + [result]),
                    Ok(Some(DownstreamChunk(sc.sequenceNumber, groups, info))))
  }

  // ---------------------------------------------------------------- the client's objects

  class State {
    const dataIdAliases: map<U32, DataId>
    var infos: map<U32, UpstreamInfo>
    var forAck: map<U32, InfoMessage>
    var lastIssuedUpstreamInfoAlias: Option<U32>
    var lastIssuedChunkAckId: Option<U32>
    var results: seq<ChunkResult>

    ghost function Abs(): Model
      reads this
    {
      Model(dataIdAliases, infos, forAck, lastIssuedUpstreamInfoAlias, lastIssuedChunkAckId, results)
    }

    constructor (dataIdAliases: map<U32, DataId>)
      ensures Abs() == Model(dataIdAliases, map[], map[], None, None, [])
    {
      this.dataIdAliases := dataIdAliases;
      infos := map[];
      forAck := map[];
      lastIssuedUpstreamInfoAlias := None;
      lastIssuedChunkAckId := None;
      results := [];
    }

    method AddSequenceNumber(streamId: Uuid, sequenceNumber: U32)
      modifies this`results
      ensures Abs() == old(Abs()).(results := old(results) + [ChunkResult(streamId, sequenceNumber)])
    {
      results := results + [ChunkResult(streamId, sequenceNumber)];
    }

    method AddUpstreamInfo(msg: InfoMessage) returns (r: Result<UpstreamInfo, Error>)
      modifies this
      ensures Stepped(Abs(), r) == AddInfo(old(Abs()), msg)
    {
      if |msg.streamId| != 16 {
        return Err(InvalidValue);
      }
      var info := UpstreamInfo(msg.sessionId, msg.streamId, msg.sourceNodeId);
      if info in infos.Values {
        return Ok(info);
      }
      var alias: U32 := 0;
      if lastIssuedUpstreamInfoAlias.Some? {
        if lastIssuedUpstreamInfoAlias.value as int + 1 == U32_LIMIT {
          return Err(TooManyUpstreams);
        }
        alias := lastIssuedUpstreamInfoAlias.value + 1;
      }
      lastIssuedUpstreamInfoAlias := Some(alias);
      infos := infos[alias := info];
      forAck := forAck[alias := MessageOf(info)];
      return Ok(info);
    }

    method GetUpstreamInfo(alias: U32) returns (r: Result<UpstreamInfo, Error>)
      ensures r == GetInfo(Abs(), alias)
    {
      r := if alias in infos then Ok(infos[alias]) else Err(InvalidValue);
    }

    method TakeAckMessage(streamIdAlias: U32) returns (ack: Option<Ack>)
      modifies this
      ensures Taken(Abs(), ack) == TakeAck(old(Abs()), streamIdAlias)
    {
      var taken, aliases := results, forAck;
      results := [];
      forAck := map[];
      if taken == [] && aliases == map[] {
        return None;
      }
      var ackId: U32 := if lastIssuedChunkAckId.Some? then Wrap(lastIssuedChunkAckId.value as int + 1) else 0;
      lastIssuedChunkAckId := Some(ackId);
      return Some(Ack(streamIdAlias, ackId, taken, aliases));
    }
  }

  method ConvertDownstreamChunk(chunk: WireChunk, state: State, omitEmptyChunk: bool)
    returns (r: Result<Option<DownstreamChunk>, Error>)
    modifies state
    ensures Stepped(state.Abs(), r) == Convert(old(state.Abs()), chunk, omitEmptyChunk)
  {
    if chunk.streamChunk.None? {
      return Ok(None);
    }
    var sc := chunk.streamChunk.value;
    if omitEmptyChunk && |sc.dataPointGroups| == 0 {
      return Ok(None);
    }
    var groups := ResolveGroups(sc.dataPointGroups, state);
    if groups.Err? {
      return Err(groups.error);
    }
    var upstream;
    match chunk.upstreamOrAlias {
      case Some(Upstream(info)) => upstream := state.AddUpstreamInfo(info);
      case Some(UpstreamAlias(alias)) => upstream := state.GetUpstreamInfo(alias);
      case None => upstream := Err(InvalidValue);
    }
    if upstream.Err? {
      return Err(upstream.error);
    }
    state.AddSequenceNumber(upstream.value.streamId, sc.sequenceNumber);
    return Ok(Some(DownstreamChunk(sc.sequenceNumber, groups.value, upstream.value)));
  }

  /** The loop over the received groups. */
  method ResolveGroups(groups: seq<WireGroup>, state: State) returns (r: Result<seq<DataPointGroup>, Error>)
    ensures r == ConvertGroups(state.dataIdAliases, groups)
  {
    var done := [];
    for i := 0 to |groups|
      invariant ConvertGroups(state.dataIdAliases, groups[..i]) == Ok(done)
    {
      var g := ConvertGroup(state.dataIdAliases, groups[i]);
      assert groups[..i + 1][..i] == groups[..i];
      if g.Err? {
        StaysErr(state.dataIdAliases, groups, i + 1);
        return Err(g.error);
      }
      done := done + [g.value];
    }
    assert groups[..|groups|] == groups;
    return Ok(done);
  }

  lemma {:induction false} StaysErr(aliases: map<U32, DataId>, groups: seq<WireGroup>, k: nat)
    requires k <= |groups| && ConvertGroups(aliases, groups[..k]).Err?
    ensures ConvertGroups(aliases, groups) == ConvertGroups(aliases, groups[..k])
  {
    if k < |groups| {
      assert groups[..|groups| - 1][..k] == groups[..k];
      StaysErr(aliases, groups[..|groups| - 1], k);
    } else {
      assert groups[..k] == groups;
    }
  }

  /** Every group names a data id, directly or by an alias the client announced when it opened the stream. */
  predicate Resolvable(aliases: map<U32, DataId>, g: WireGroup) {
    g.dataIdOrAlias.Some? && (g.dataIdOrAlias.value.Alias? ==> g.dataIdOrAlias.value.alias in aliases)
  }

  function Resolved(aliases: map<U32, DataId>, g: WireGroup): DataId
    requires Resolvable(aliases, g)
  {
    if g.dataIdOrAlias.value.Id? then g.dataIdOrAlias.value.dataId else aliases[g.dataIdOrAlias.value.alias]
  }

  /**
   What a successful conversion means: all groups are resolvable, and each keeps its place and its
   points under the data id it stands for. One unresolvable group fails the whole chunk.
   */
  lemma {:induction false} GroupsAreResolved(aliases: map<U32, DataId>, groups: seq<WireGroup>)
    ensures var r := ConvertGroups(aliases, groups);
            && (r.Ok? <==> forall i :: 0 <= i < |groups| ==> Resolvable(aliases, groups[i]))
            && (r.Ok? ==>
                  && |r.value| == |groups|
                  && forall i :: 0 <= i < |groups| ==>
                       r.value[i] == DataPointGroup(Resolved(aliases, groups[i]), groups[i].dataPoints))
  {
    if |groups| > 0 {
      GroupsAreResolved(aliases, groups[..|groups| - 1]);
      assert forall i :: 0 <= i < |groups| - 1 ==> groups[..|groups| - 1][i] == groups[i];
    }
  }

  // ---------------------------------------------------------------- whole runs

  datatype Event = ConvertChunk(chunk: WireChunk, omitEmpty: bool) | TakeAnAck(streamIdAlias: U32)

  /** `converted` lists the chunks that were converted to `Ok(Some)`, `acks` the acks taken. */
  datatype Log = Log(model: Model, converted: seq<ChunkResult>, acks: seq<Ack>)

  function Step(log: Log, e: Event): Log {
    match e
    case ConvertChunk(chunk, omit) =>
      var s := Convert(log.model, chunk, omit);
      if s.r.Ok? && s.r.value.Some? then
        var c := s.r.value.value;
        log.(model := s.model, converted := log.converted + [ChunkResult(c.upstream.streamId, c.sequenceNumber)])
      else
        log.(model := s.model)
    case TakeAnAck(alias) =>
      var t := TakeAck(log.model, alias);
      log.(model := t.model, acks := if t.ack.Some? then log.acks + [t.ack.value] else log.acks)
  }

  function Run(dataIdAliases: map<U32, DataId>, events: seq<Event>): Log {
    if |events| == 0 then Log(Model(dataIdAliases, map[], map[], None, None, []), [], [])
    else Step(Run(dataIdAliases, events[..|events| - 1]), events[|events| - 1])
  }

  /** A conversion that fails or is skipped leaves no trace. */
  lemma FailedConversionChangesNothing(m: Model, chunk: WireChunk, omitEmpty: bool)
    ensures var s := Convert(m, chunk, omitEmpty);
            !(s.r.Ok? && s.r.value.Some?) ==> s.model == m
  {
  }

  function AllResults(acks: seq<Ack>): seq<ChunkResult> {
    if |acks| == 0 then [] else AllResults(acks[..|acks| - 1]) + acks[|acks| - 1].results
  }

  /** The acks are numbered 0, 1, 2, ... modulo 2^32, and none is empty. */
  ghost predicate AcksNumbered(log: Log) {
    && (forall k :: 0 <= k < |log.acks| ==>
          log.acks[k].ackId == Wrap(k) && (log.acks[k].results != [] || log.acks[k].upstreamAliases != map[]))
    && log.model.lastAckId == if |log.acks| == 0 then None else Some(Wrap(|log.acks| - 1))
  }

  /** The books balance: results acked, then results pending, are the results of the chunks converted. */
  ghost predicate Balanced(log: Log) {
    AllResults(log.acks) + log.model.results == log.converted && AcksNumbered(log)
  }

  lemma ConvertBalances(log: Log, chunk: WireChunk, omitEmpty: bool)
    requires Balanced(log)
    ensures Balanced(Step(log, ConvertChunk(chunk, omitEmpty)))
  {
    hide ConvertGroups, AllResults;
    var s := Convert(log.model, chunk, omitEmpty);
    assert s.model.lastAckId == log.model.lastAckId;
    if s.r.Ok? && s.r.value.Some? {
      var c := s.r.value.value;
      assert s.model.results == log.model.results + [ChunkResult(c.upstream.streamId, c.sequenceNumber)];
    } else {
      FailedConversionChangesNothing(log.model, chunk, omitEmpty);
    }
  }

  lemma AllResultsSnoc(acks: seq<Ack>, ack: Ack)
    ensures AllResults(acks + [ack]) == AllResults(acks) + ack.results
  {
    assert (acks + [ack])[..|acks|] == acks;
  }

  lemma NextNumber(log: Log)
    requires AcksNumbered(log) && log.model.lastAckId.Some?
    ensures Wrap(log.model.lastAckId.value + 1) == Wrap(|log.acks|)
  {
    hide Wrap;
    WrapOfWrap(|log.acks| - 1, 1);
  }

  lemma TakeBalances(log: Log, streamIdAlias: U32)
    requires Balanced(log)
    ensures Balanced(Step(log, TakeAnAck(streamIdAlias)))
  {
    hide AllResults, Wrap;
    var t := TakeAck(log.model, streamIdAlias);
    if t.ack.Some? {
      AllResultsSnoc(log.acks, t.ack.value);
      FirstIsZero();
      if log.model.lastAckId.Some? {
        NextNumber(log);
      }
    }
  }

  lemma FirstIsZero()
    ensures Wrap(0) == 0
  {
  }

  /** The aliases under which there was something to take, in the order of the takings. */
  function TakenUnder(dataIdAliases: map<U32, DataId>, events: seq<Event>): seq<U32> {
    if |events| == 0 then []
    else
      var before, e := events[..|events| - 1], events[|events| - 1];
      var m := Run(dataIdAliases, before).model;
      TakenUnder(dataIdAliases, before) +
        if e.TakeAnAck? && (m.results != [] || m.forAck != map[]) then [e.streamIdAlias] else []
  }

  /** Each ack carries the stream's alias at its taking. */
  ghost predicate AcksAliased(log: Log, aliases: seq<U32>) {
    |log.acks| == |aliases| && forall k :: 0 <= k < |aliases| ==> log.acks[k].streamIdAlias == aliases[k]
  }

  lemma StepKeepsAliased(log: Log, e: Event, aliases: seq<U32>)
    requires AcksAliased(log, aliases)
    ensures var some := e.TakeAnAck? && (log.model.results != [] || log.model.forAck != map[]);
            AcksAliased(Step(log, e), aliases + if some then [e.streamIdAlias] else [])
  {
    hide Convert;
  }

  /**
   Ack conservation. In every run the results of the acks taken, in order, followed by those
   still pending, are exactly those of the chunks converted; acks are numbered
   consecutively modulo 2^32, and there is one, under the stream's alias at the time, for every taking that
   finds something pending.
   */
  lemma {:induction false} AckConservation(dataIdAliases: map<U32, DataId>, events: seq<Event>)
    ensures var log := Run(dataIdAliases, events);
            && AllResults(log.acks) + log.model.results == log.converted && AcksNumbered(log)
            && AcksAliased(log, TakenUnder(dataIdAliases, events))
  {
    if |events| > 0 {
      var before := Run(dataIdAliases, events[..|events| - 1]);
      AckConservation(dataIdAliases, events[..|events| - 1]);
      hide Step, AllResults, AcksNumbered, AcksAliased;
      StepKeepsAliased(before, events[|events| - 1], TakenUnder(dataIdAliases, events[..|events| - 1]));
      match events[|events| - 1]
      case ConvertChunk(chunk, omitEmpty) => ConvertBalances(before, chunk, omitEmpty);
      case TakeAnAck(alias) => TakeBalances(before, alias);
    }
  }

  // ---------------------------------------------------------------- the alias table

  /** How many aliases have been handed out. */
  function Issued(m: Model): nat {
    if m.lastAlias.None? then 0 else m.lastAlias.value + 1
  }

  /** Aliases in use are 0, 1, ..., and different aliases mean different upstreams. */
  ghost predicate TableSound(m: Model) {
    && (forall a: U32 :: a in m.infos <==> a < Issued(m))
    && (forall a, b :: a in m.infos && b in m.infos && m.infos[a] == m.infos[b] ==> a == b)
  }

  /** The alias announcements: those of the acks taken, in order, then the pending one. */
  ghost function Announcement(log: Log, i: nat): map<U32, InfoMessage>
    requires i <= |log.acks|
  {
    if i < |log.acks| then log.acks[i].upstreamAliases else log.model.forAck
  }

  /** Announcement `i`, and no other, tells the server about alias `a`. */
  ghost predicate AnnouncedOnlyIn(log: Log, a: U32, i: nat)
    requires a in log.model.infos && i <= |log.acks|
  {
    && a in Announcement(log, i) && Announcement(log, i)[a] == MessageOf(log.model.infos[a])
    && forall j: nat :: j <= |log.acks| && j != i ==> a !in Announcement(log, j)
  }

  ghost predicate EachAnnouncedOnce(log: Log) {
    && (forall i: nat, a :: i <= |log.acks| && a in Announcement(log, i) ==> a in log.model.infos)
    && (forall a :: a in log.model.infos ==> exists i: nat :: i <= |log.acks| && AnnouncedOnlyIn(log, a, i))
  }

  lemma AddKeepsTable(m: Model, msg: InfoMessage)
    requires TableSound(m)
    ensures var s := AddInfo(m, msg);
            && TableSound(s.model)
            && (forall a :: a in m.infos ==> a in s.model.infos && s.model.infos[a] == m.infos[a])
            && (s.r.Ok? ==> s.r.value in s.model.infos.Values)
  {
    var s := AddInfo(m, msg);
    if s.model != m {
      var alias := Issued(m);
      assert alias in s.model.infos && s.model.infos[alias] == s.r.value;
      assert forall a :: a in m.infos ==> m.infos[a] in m.infos.Values;
    }
  }

  lemma AddKeepsAnnouncements(log: Log, msg: InfoMessage)
    requires TableSound(log.model) && EachAnnouncedOnce(log)
    ensures EachAnnouncedOnce(log.(model := AddInfo(log.model, msg).model))
  {
    var m, next := log.model, log.(model := AddInfo(log.model, msg).model);
    if next.model != m {
      var alias, n := Issued(m), |log.acks|;
      assert forall i: nat :: i < n ==> Announcement(next, i) == Announcement(log, i);
      assert Announcement(log, n) == m.forAck;
      assert Announcement(next, n) == m.forAck[alias := next.model.forAck[alias]];
      forall a | a in next.model.infos
        ensures exists i: nat :: i <= n && AnnouncedOnlyIn(next, a, i)
      {
        if a == alias {
          assert forall j: nat :: j < n && a in Announcement(log, j) ==> a in m.infos;
          assert AnnouncedOnlyIn(next, a, n);
        } else {
          var i: nat :| i <= n && AnnouncedOnlyIn(log, a, i);
          assert AnnouncedOnlyIn(next, a, i);
        }
      }
    }
  }

  lemma TakeKeepsAnnouncements(log: Log, streamIdAlias: U32)
    requires EachAnnouncedOnce(log)
    ensures EachAnnouncedOnce(Step(log, TakeAnAck(streamIdAlias)))
  {
    var next, n := Step(log, TakeAnAck(streamIdAlias)), |log.acks|;
    if |next.acks| > n {
      assert forall i: nat :: i <= n ==> Announcement(next, i) == Announcement(log, i);
      assert Announcement(next, n + 1) == map[];
      forall a | a in next.model.infos
        ensures exists i: nat :: i <= n + 1 && AnnouncedOnlyIn(next, a, i)
      {
        var i: nat :| i <= n && AnnouncedOnlyIn(log, a, i);
        assert AnnouncedOnlyIn(next, a, i);
      }
    }
  }

  /** Results do not matter to the announcements. */
  lemma SameAnnouncements(log: Log, next: Log)
    requires EachAnnouncedOnce(log) && next.acks == log.acks
    requires next.model.infos == log.model.infos && next.model.forAck == log.model.forAck
    ensures EachAnnouncedOnce(next)
  {
    assert forall i: nat :: i <= |log.acks| ==> Announcement(next, i) == Announcement(log, i);
    forall a | a in next.model.infos
      ensures exists i: nat :: i <= |next.acks| && AnnouncedOnlyIn(next, a, i)
    {
      var i: nat :| i <= |log.acks| && AnnouncedOnlyIn(log, a, i);
      assert AnnouncedOnlyIn(next, a, i);
    }
  }

  /** The upstream whose description a conversion has added to the table, if it has added one. */
  function AddedBy(chunk: WireChunk): Option<InfoMessage> {
    match chunk.upstreamOrAlias
    case Some(Upstream(info)) => Some(info)
    case _ => None
  }

  predicate SameTable(m: Model, n: Model) {
    n.infos == m.infos && n.forAck == m.forAck && n.lastAlias == m.lastAlias
  }

  lemma ConvertAddsOne(m: Model, chunk: WireChunk, omitEmpty: bool)
    ensures var next, added := Convert(m, chunk, omitEmpty).model, AddedBy(chunk);
            SameTable(m, next) || (added.Some? && SameTable(AddInfo(m, added.value).model, next))
  {
    hide ConvertGroups, AddInfo, GetInfo;
  }

  /** Nothing else of the log matters to the aliases. */
  lemma SameAliases(log: Log, next: Log)
    requires TableSound(log.model) && EachAnnouncedOnce(log)
    requires next.acks == log.acks && SameTable(log.model, next.model)
    ensures TableSound(next.model) && EachAnnouncedOnce(next)
  {
    hide AnnouncedOnlyIn, Announcement, EachAnnouncedOnce;
    SameAnnouncements(log, next);
  }

  lemma StepKeepsAliases(log: Log, e: Event)
    requires TableSound(log.model) && EachAnnouncedOnce(log)
    ensures var next := Step(log, e);
            && TableSound(next.model) && EachAnnouncedOnce(next)
            && (forall a :: a in log.model.infos ==>
                  a in next.model.infos && next.model.infos[a] == log.model.infos[a])
  {
    hide Convert, AddInfo, TableSound, EachAnnouncedOnce;
    match e
    case TakeAnAck(alias) =>
      TakeKeepsTable(log, alias);
      TakeKeepsAnnouncements(log, alias);
    case ConvertChunk(chunk, omit) =>
      ConvertAddsOne(log.model, chunk, omit);
      if SameTable(log.model, Step(log, e).model) {
        SameAliases(log, Step(log, e));
      } else {
        var info := AddedBy(chunk).value;
        AddKeepsTable(log.model, info);
        AddKeepsAnnouncements(log, info);
        SameAliases(log.(model := AddInfo(log.model, info).model), Step(log, e));
      }
  }

  lemma TakeKeepsTable(log: Log, streamIdAlias: U32)
    requires TableSound(log.model)
    ensures TableSound(Step(log, TakeAnAck(streamIdAlias)).model)
  {
  }

  /**
   The upstream alias table. In every run the aliases in use are exactly 0..n-1, one for each
   distinct upstream; each of them is announced to the server in exactly one ack or is still
   pending, with the description it resolves to.
   */
  lemma {:induction false} AliasTable(dataIdAliases: map<U32, DataId>, events: seq<Event>)
    ensures TableSound(Run(dataIdAliases, events).model)
    ensures EachAnnouncedOnce(Run(dataIdAliases, events))
  {
    if |events| > 0 {
      AliasTable(dataIdAliases, events[..|events| - 1]);
      StepKeepsAliases(Run(dataIdAliases, events[..|events| - 1]), events[|events| - 1]);
    }
  }

  /** No alias ever changes its meaning. */
  lemma {:induction false} AliasesAreStable(dataIdAliases: map<U32, DataId>, events: seq<Event>, k: nat, a: U32)
    requires k <= |events| && a in Run(dataIdAliases, events[..k]).model.infos
    ensures GetInfo(Run(dataIdAliases, events).model, a) == GetInfo(Run(dataIdAliases, events[..k]).model, a)
  {
    if k < |events| {
      var before := events[..|events| - 1];
      assert before[..k] == events[..k];
      AliasesAreStable(dataIdAliases, before, k, a);
      AliasTable(dataIdAliases, before);
      StepKeepsAliases(Run(dataIdAliases, before), events[|events| - 1]);
    } else {
      assert events[..k] == events;
    }
  }

  lemma AnnouncedMeansStored(log: Log, i: nat, a: U32)
    requires EachAnnouncedOnce(log) && i <= |log.acks| && a in Announcement(log, i)
    ensures a in log.model.infos && Announcement(log, i)[a] == MessageOf(log.model.infos[a])
  {
    assert a in log.model.infos;
    var j: nat :| j <= |log.acks| && AnnouncedOnlyIn(log, a, j);
    assert i == j;
  }

  /** A chunk that names its upstream by an announced alias is attributed to the upstream announced. */
  lemma AnnouncedAliasResolves(dataIdAliases: map<U32, DataId>, events: seq<Event>, i: nat, a: U32)
    requires var log := Run(dataIdAliases, events); i <= |log.acks| && a in Announcement(log, i)
    ensures var log := Run(dataIdAliases, events);
            GetInfo(log.model, a) == Parse(Announcement(log, i)[a])
  {
    hide Run, TableSound, EachAnnouncedOnce, Announcement;
    AliasTable(dataIdAliases, events);
    AnnouncedMeansStored(Run(dataIdAliases, events), i, a);
  }

  // ---------------------------------------------------------------- waiting for ack completion

  /** `check_chunk_ack_complete` over the completions received, from the initial 0. */
  function Completed(ids: seq<U32>): U32 {
    if |ids| == 0 then 0
    else
      var before, id := Completed(ids[..|ids| - 1]), ids[|ids| - 1];
      if before < id then id else before
  }

  /** The close procedure stops waiting when this holds. */
  predicate CloseWaitOver(lastIssued: Option<U32>, ids: seq<U32>) {
    lastIssued.None? || lastIssued.value <= Completed(ids)
  }

  /** The wait compares ids as numbers. */
  lemma {:induction false} CloseWaitEndsIff(last: U32, ids: seq<U32>)
    ensures CloseWaitOver(Some(last), ids) <==> last == 0 || exists i :: 0 <= i < |ids| && last <= ids[i]
  {
    if |ids| > 0 {
      var m := |ids| - 1;
      CloseWaitEndsIff(last, ids[..m]);
      if i :| 0 <= i < m && last <= ids[..m][i] {
        assert last <= ids[i];
      }
      if i :| 0 <= i < |ids| && last <= ids[i] {
        assert i < m ==> last <= ids[..m][i];
      }
    }
  }

  /** The completions that answer the acks at these positions, in the order in which they come. */
  function CompletionsOf(acks: seq<Ack>, positions: seq<nat>): seq<U32>
    requires forall i :: 0 <= i < |positions| ==> positions[i] < |acks|
  {
    seq(|positions|, i requires 0 <= i < |positions| => acks[positions[i]].ackId)
  }

  /**
   In every run, with completions for any of the acks taken: the wait is over if and only if no ack was taken, the last
   one has an id congruent to 0, or an ack with the same or a numerically greater id has been completed.
   */
  lemma CloseWaitInRuns(dataIdAliases: map<U32, DataId>, events: seq<Event>, positions: seq<nat>)
    requires forall i :: 0 <= i < |positions| ==> positions[i] < |Run(dataIdAliases, events).acks|
    ensures var log := Run(dataIdAliases, events);
            CloseWaitOver(log.model.lastAckId, CompletionsOf(log.acks, positions)) <==>
              || |log.acks| == 0
              || (|log.acks| - 1) % U32_LIMIT == 0
              || exists i :: 0 <= i < |positions| && Wrap(|log.acks| - 1) <= Wrap(positions[i])
  {
    AckConservation(dataIdAliases, events);
    var log := Run(dataIdAliases, events);
    hide Run, AllResults;
    var ids := CompletionsOf(log.acks, positions);
    assert forall i :: 0 <= i < |positions| ==> ids[i] == Wrap(positions[i]);
    if |log.acks| > 0 {
      CloseWaitEndsIff(log.model.lastAckId.value, ids);
    }
  }

  /**
   One would expect the wait to end exactly when no ack is outstanding or the last one has been completed. Up to 2^32
   acks that is so with one exception: a single ack, whose number is 0, is not waited for.
   */
  lemma CloseWaitIsForTheLastAck(dataIdAliases: map<U32, DataId>, events: seq<Event>, positions: seq<nat>)
    requires |Run(dataIdAliases, events).acks| <= U32_LIMIT
    requires forall i :: 0 <= i < |positions| ==> positions[i] < |Run(dataIdAliases, events).acks|
    ensures var log := Run(dataIdAliases, events);
            CloseWaitOver(log.model.lastAckId, CompletionsOf(log.acks, positions)) <==>
              |log.acks| <= 1 || |log.acks| - 1 in positions
  {
    hide Run, CompletionsOf, CloseWaitOver, Wrap;
    CloseWaitInRuns(dataIdAliases, events, positions);
    var n := |Run(dataIdAliases, events).acks|;
    forall x: U32
      ensures Wrap(x) == x
    {
      WrapIdentity(x);
    }
    if i :| 0 <= i < |positions| && Wrap(n - 1) <= Wrap(positions[i]) {
      assert n > 0 ==> positions[i] == n - 1;
    }
  }

  /** The first exception: the first ack of a stream is never waited for. */
  lemma FirstAckIsNotAwaited()
    ensures CloseWaitOver(Some(0), [])
  {
  }

  lemma OnceAround(k: U32)
    ensures Wrap(U32_LIMIT + k) == k && Wrap(U32_LIMIT - 1) == U32_LIMIT - 1
  {
  }

  /**
   Beyond that the completion of an older ack can end the wait: with ack number 2^32 + k outstanding, whose id is
   k, that of ack number 2^32 - 1 does.
   */
  lemma OldCompletionEndsTheWait(dataIdAliases: map<U32, DataId>, events: seq<Event>, k: nat)
    requires 0 < k < U32_LIMIT && |Run(dataIdAliases, events).acks| == U32_LIMIT + k + 1
    ensures var log := Run(dataIdAliases, events);
            && log.model.lastAckId == Some(k)
            && CloseWaitOver(log.model.lastAckId, CompletionsOf(log.acks, [U32_LIMIT - 1]))
  {
    hide Run, CompletionsOf, CloseWaitOver, AllResults, Wrap;
    AckConservation(dataIdAliases, events);
    CloseWaitInRuns(dataIdAliases, events, [U32_LIMIT - 1]);
    OnceAround(k);
    assert [U32_LIMIT - 1][0] == U32_LIMIT - 1;
  }

  // ---------------------------------------------------------------- runs with any number of acks

  function AckRun(n: nat): seq<Event> {
    if n == 0 then [] else AckRun(n - 1) + [ConvertChunk(PlainChunk(0), false), TakeAnAck(0)]
  }

  const PLAIN := UpstreamInfo("", [0, 0, 0, 0, 0, 0, 0, 0, 0, 0, 0, 0, 0, 0, 0, 0], "")

  /** An empty chunk of one upstream. */
  function PlainChunk(n: U32): WireChunk {
    WireChunk(Some(Upstream(MessageOf(PLAIN))), Some(StreamChunk(n, [])))
  }

  /** That upstream has an alias or can get one. */
  ghost predicate TakesPlain(m: Model) {
    m.lastAlias == None || PLAIN in m.infos.Values
  }

  lemma PlainConverts(m: Model, n: U32)
    requires TakesPlain(m)
    ensures var c := Convert(m, PlainChunk(n), false);
            && c.r == Ok(Some(DownstreamChunk(n, [], PLAIN))) && TakesPlain(c.model)
            && c.model.results == m.results + [ChunkResult(PLAIN.streamId, n)]
  {
    assert ConvertGroups(m.dataIdAliases, []) == Ok([]);
    assert Parse(MessageOf(PLAIN)) == Ok(PLAIN);
    var next := AddInfo(m, MessageOf(PLAIN)).model;
    assert next != m ==> 0 in next.infos && next.infos[0] == PLAIN;
  }

  lemma OneAckMore(log: Log)
    requires TakesPlain(log.model)
    ensures var next := Step(Step(log, ConvertChunk(PlainChunk(0), false)), TakeAnAck(0));
            TakesPlain(next.model) && |next.acks| == |log.acks| + 1
  {
    PlainConverts(log.model, 0);
    hide Convert, PlainChunk;
  }

  /** There are runs with any number of acks, so that the exception above does occur. */
  lemma {:induction false} AnyNumberOfAcks(dataIdAliases: map<U32, DataId>, n: nat)
    ensures |Run(dataIdAliases, AckRun(n)).acks| == n && TakesPlain(Run(dataIdAliases, AckRun(n)).model)
  {
    if n > 0 {
      AnyNumberOfAcks(dataIdAliases, n - 1);
      var before, all := AckRun(n - 1), AckRun(n);
      var mid := before + [ConvertChunk(PlainChunk(0), false)];
      assert all == mid + [TakeAnAck(0)];
      assert all[..|all| - 1] == mid && mid[..|mid| - 1] == before;
      OneAckMore(Run(dataIdAliases, before));
    }
  }
}

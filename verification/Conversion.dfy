/**
 What the conversion of a received chunk means, told by the chunk and by what is known of aliases
 (src/iscp/downstream.rs:525-576).
 */
module Conversion {
  import opened Base
  import opened Types
  import opened DownState

  /** `info` is the upstream the chunk names: the description it brings, or the one its alias stands for. */
  predicate Names(infos: map<U32, UpstreamInfo>, w: WireChunk, info: UpstreamInfo) {
    match w.upstreamOrAlias
    case Some(Upstream(msg)) =>
      info.sessionId == msg.sessionId && info.streamId == msg.streamId && info.sourceNodeId == msg.sourceNodeId
    case Some(UpstreamAlias(alias)) => alias in infos && infos[alias] == info
    case None => false
  }

  /** `c` is what the application should make of `w`: its number, its points under the ids meant, and its upstream. */
  predicate Carries(m: Model, w: WireChunk, c: DownstreamChunk) {
    && w.streamChunk.Some?
    && var sc := w.streamChunk.value;
       && c.sequenceNumber == sc.sequenceNumber
       && |c.dataPointGroups| == |sc.dataPointGroups|
       && (forall i :: 0 <= i < |sc.dataPointGroups| ==> CarriesGroup(m.dataIdAliases, sc.dataPointGroups[i], c.dataPointGroups[i]))
       && Names(m.infos, w, c.upstream)
  }

  predicate CarriesGroup(aliases: map<U32, DataId>, g: WireGroup, out: DataPointGroup) {
    Resolvable(aliases, g) && out.dataId == Resolved(aliases, g) && out.dataPoints == g.dataPoints
  }

  /** The upstream is known by the alias given, or its description is well-formed and it is known or can get an alias. */
  ghost predicate CanBeNamed(m: Model, w: WireChunk) {
    match w.upstreamOrAlias
    case Some(Upstream(msg)) =>
      && |msg.streamId| == 16
      && (m.lastAlias != Some(U32_LIMIT - 1) || exists info :: info in m.infos.Values && Names(m.infos, w, info))
    case Some(UpstreamAlias(alias)) => alias in m.infos
    case None => false
  }

  predicate Skipped(w: WireChunk, omitEmpty: bool) {
    w.streamChunk.None? || (omitEmpty && |w.streamChunk.value.dataPointGroups| == 0)
  }

  ghost predicate CanConvert(m: Model, w: WireChunk, omitEmpty: bool) {
    && !Skipped(w, omitEmpty) && CanBeNamed(m, w)
    && forall i :: 0 <= i < |w.streamChunk.value.dataPointGroups| ==>
         Resolvable(m.dataIdAliases, w.streamChunk.value.dataPointGroups[i])
  }

  lemma UpstreamIsFound(m: Model, w: WireChunk)
    ensures var found := FindUpstream(m, w.upstreamOrAlias);
            && (found.r.Ok? <==> CanBeNamed(m, w))
            && (found.r.Ok? ==> Names(found.model.infos, w, found.r.value))
            && found.model.dataIdAliases == m.dataIdAliases
  {
    match w.upstreamOrAlias
    case Some(Upstream(msg)) =>
      if |msg.streamId| == 16 {
        var info := UpstreamInfo(msg.sessionId, msg.streamId, msg.sourceNodeId);
        assert Names(m.infos, w, info);
        assert forall other: UpstreamInfo :: Names(m.infos, w, other) ==> other == info;
      }
    case _ =>
  }

  /**
   Conversion, of any chunk in any state. It succeeds if and only if the chunk is not skipped, all its groups are resolvable
   and its upstream can be found; what comes out then carries the chunk: number, points and upstream. Only
   a chunk without contents is skipped, or an empty one where those are omitted.
   */
  lemma ConvertsIff(m: Model, w: WireChunk, omitEmpty: bool)
    ensures var s := Convert(m, w, omitEmpty);
            && (s.r.Ok? && s.r.value.Some? <==> CanConvert(m, w, omitEmpty))
            && (s.r.Ok? && s.r.value.Some? ==> Carries(s.model, w, s.r.value.value))
            && (s.r == Ok(None) <==> Skipped(w, omitEmpty))
  {
    if !Skipped(w, omitEmpty) {
      var groups := w.streamChunk.value.dataPointGroups;
      GroupsAreResolved(m.dataIdAliases, groups);
      UpstreamIsFound(m, w);
      hide ConvertGroups, FindUpstream, CanBeNamed, Names;
    }
  }
}

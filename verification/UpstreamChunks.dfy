/**
 How the upstream turns its buffer into the groups of a chunk (src/iscp/upstream.rs:471-558):
 points are collected per data id or alias, and sorted by time. The hash map that collects
 them yields its entries in no particular order, so a chunk is any listing of it.
 */
module UpstreamChunks {
  import opened Base
  import opened Types
  import opened StableSort

  datatype Group<K> = Group(key: K, dataPoints: Points)

  /** An alias where the server assigned one, the data id itself otherwise. */
  function KeyOf(rev: map<DataId, U32>, id: DataId): DataIdOrAlias {
    if id in rev then Alias(rev[id]) else Id(id)
  }

  function AliasKey(rev: map<DataId, U32>): DataId -> DataIdOrAlias {
    (id: DataId) => KeyOf(rev, id)
  }

  function OwnKey(): DataId -> DataId {
    (id: DataId) => id
  }

  /** What the receiver of a chunk makes of a key. */
  function Resolve(aliases: map<U32, DataId>, key: DataIdOrAlias): Option<DataId> {
    match key
    case Id(id) => Some(id)
    case Alias(a) => if a in aliases then Some(aliases[a]) else None
  }

  /** `rev` was built by turning the alias map around; of several aliases of one id, it keeps any. */
  ghost predicate ReverseOf(aliases: map<U32, DataId>, rev: map<DataId, U32>) {
    && rev.Keys == aliases.Values
    && forall id :: id in rev ==> rev[id] in aliases && aliases[rev[id]] == id
  }

  /** Building `rev`: one insertion per alias, in any order. */
  method Reverse(aliases: map<U32, DataId>) returns (rev: map<DataId, U32>)
    ensures ReverseOf(aliases, rev)
  {
    rev := map[];
    var left := aliases.Keys;
    while left != {}
      invariant left <= aliases.Keys
      invariant forall a :: a in aliases && a !in left ==> aliases[a] in rev
      invariant forall id :: id in rev ==> rev[id] in aliases && aliases[rev[id]] == id
      decreases left
    {
      var a :| a in left;
      rev := rev[aliases[a] := a];
      left := left - {a};
    }
    assert forall id :: id in rev ==> id in aliases.Values;
  }

  // ---------------------------------------------------------------- collecting

  /** The hash map after the groups have been appended under their keys. */
  function Collected<K>(key: DataId -> K, dpgs: seq<DataPointGroup>): map<K, Points> {
    if |dpgs| == 0 then map[]
    else
      var m, g := Collected(key, dpgs[..|dpgs| - 1]), dpgs[|dpgs| - 1];
      var k := key(g.dataId);
      m[k := (if k in m then m[k] else []) + g.dataPoints]
  }

  method Collect<K(==)>(key: DataId -> K, dpgs: seq<DataPointGroup>) returns (m: map<K, Points>)
    ensures m == Collected(key, dpgs)
  {
    m := map[];
    for i := 0 to |dpgs|
      invariant m == Collected(key, dpgs[..i])
    {
      var k := key(dpgs[i].dataId);
      assert dpgs[..i + 1][..i] == dpgs[..i];
      assert [] + dpgs[i].dataPoints == dpgs[i].dataPoints;
      if k in m {
        m := m[k := m[k] + dpgs[i].dataPoints];
      } else {
        m := m[k := dpgs[i].dataPoints];
      }
    }
    assert dpgs[..|dpgs|] == dpgs;
  }

  function KeysOf<K>(gs: seq<Group<K>>): set<K> {
    set i | 0 <= i < |gs| :: gs[i].key
  }

  /** The groups are the entries of `m`, in some order, each sorted by time. */
  ghost predicate Lists<K>(m: map<K, Points>, gs: seq<Group<K>>) {
    && KeysOf(gs) == m.Keys
    && (forall i, j :: 0 <= i < j < |gs| ==> gs[i].key != gs[j].key)
    && forall i :: 0 <= i < |gs| ==> gs[i].key in m && gs[i].dataPoints == Sort(m[gs[i].key])
  }

  method ListSorted<K(==)>(m: map<K, Points>) returns (gs: seq<Group<K>>)
    ensures Lists(m, gs)
  {
    gs := [];
    var left := m.Keys;
    while left != {}
      invariant left <= m.Keys && KeysOf(gs) == m.Keys - left
      invariant forall i, j :: 0 <= i < j < |gs| ==> gs[i].key != gs[j].key
      invariant forall i :: 0 <= i < |gs| ==> gs[i].key in m && gs[i].dataPoints == Sort(m[gs[i].key])
      decreases left
    {
      var k :| k in left;
      ghost var before := gs;
      gs := gs + [Group(k, Sort(m[k]))];
      KeysOfSnoc(before, gs[|gs| - 1]);
      assert forall i :: 0 <= i < |before| ==> before[i].key in KeysOf(before);
      left := left - {k};
    }
  }

  lemma KeysOfSnoc<K>(gs: seq<Group<K>>, g: Group<K>)
    ensures KeysOf(gs + [g]) == KeysOf(gs) + {g.key}
  {
    var all := gs + [g];
    assert all[|gs|] == g;
    forall k | k in KeysOf(gs)
      ensures k in KeysOf(all)
    {
      var i :| 0 <= i < |gs| && gs[i].key == k;
      assert all[i].key == k;
    }
  }

  // ---------------------------------------------------------------- meaning

  /** The points written for one data id, in the order of writing. */
  function PointsOf(id: DataId, dpgs: seq<DataPointGroup>): Points {
    if |dpgs| == 0 then []
    else
      var rest, g := PointsOf(id, dpgs[..|dpgs| - 1]), dpgs[|dpgs| - 1];
      if g.dataId == id then rest + g.dataPoints else rest
  }

  predicate Mentions(id: DataId, dpgs: seq<DataPointGroup>) {
    exists i :: 0 <= i < |dpgs| && dpgs[i].dataId == id
  }

  ghost predicate Injective<K(!new)>(key: DataId -> K) {
    forall a, b :: key(a) == key(b) ==> a == b
  }

  /** With different keys for different ids, the map holds under an id's key just that id's points. */
  lemma {:induction false} CollectedPerId<K(!new)>(key: DataId -> K, dpgs: seq<DataPointGroup>, id: DataId)
    requires Injective(key)
    ensures key(id) in Collected(key, dpgs) <==> Mentions(id, dpgs)
    ensures Mentions(id, dpgs) ==> Collected(key, dpgs)[key(id)] == PointsOf(id, dpgs)
    ensures !Mentions(id, dpgs) ==> PointsOf(id, dpgs) == []
  {
    if |dpgs| > 0 {
      var n := |dpgs| - 1;
      CollectedPerId(key, dpgs[..n], id);
      if i :| 0 <= i < n && dpgs[..n][i].dataId == id {
        assert dpgs[i].dataId == id;
      }
      if i :| 0 <= i < |dpgs| && dpgs[i].dataId == id {
        assert i < n ==> dpgs[..n][i].dataId == id;
      }
    }
  }

  lemma {:induction false} CollectedKeys<K(!new)>(key: DataId -> K, dpgs: seq<DataPointGroup>, k: K) returns (id: DataId)
    requires k in Collected(key, dpgs)
    ensures key(id) == k
  {
    var n := |dpgs| - 1;
    if k == key(dpgs[n].dataId) {
      id := dpgs[n].dataId;
    } else {
      id := CollectedKeys(key, dpgs[..n], k);
    }
  }

  /** The groups of a chunk give each data id of the buffer, once, with its points stably sorted by time. */
  ghost predicate Faithful<K>(key: DataId -> K, dpgs: seq<DataPointGroup>, gs: seq<Group<K>>) {
    && (forall i, j :: 0 <= i < j < |gs| ==> gs[i].key != gs[j].key)
    && (forall i :: 0 <= i < |gs| ==> RepresentsSome(key, dpgs, gs[i]))
    && (forall id :: Mentions(id, dpgs) ==> Represented(key, dpgs, id, gs))
  }

  ghost predicate RepresentsSome<K>(key: DataId -> K, dpgs: seq<DataPointGroup>, g: Group<K>) {
    exists id :: Represents(key, dpgs, id, g)
  }

  ghost predicate Represented<K>(key: DataId -> K, dpgs: seq<DataPointGroup>, id: DataId, gs: seq<Group<K>>) {
    exists i :: 0 <= i < |gs| && Represents(key, dpgs, id, gs[i])
  }

  ghost predicate Represents<K>(key: DataId -> K, dpgs: seq<DataPointGroup>, id: DataId, g: Group<K>) {
    Mentions(id, dpgs) && g.key == key(id) && g.dataPoints == Sort(PointsOf(id, dpgs))
  }

  lemma ListingIsFaithful<K(!new)>(key: DataId -> K, dpgs: seq<DataPointGroup>, gs: seq<Group<K>>)
    requires Injective(key) && Lists(Collected(key, dpgs), gs)
    ensures Faithful(key, dpgs, gs)
  {
    var m := Collected(key, dpgs);
    forall i | 0 <= i < |gs|
      ensures RepresentsSome(key, dpgs, gs[i])
    {
      var id := CollectedKeys(key, dpgs, gs[i].key);
      CollectedPerId(key, dpgs, id);
      assert Represents(key, dpgs, id, gs[i]);
    }
    forall id | Mentions(id, dpgs)
      ensures Represented(key, dpgs, id, gs)
    {
      CollectedPerId(key, dpgs, id);
      assert key(id) in KeysOf(gs);
      var i :| 0 <= i < |gs| && gs[i].key == key(id);
      assert Represents(key, dpgs, id, gs[i]);
    }
  }

  lemma AliasKeysAreInjective(aliases: map<U32, DataId>, rev: map<DataId, U32>)
    requires ReverseOf(aliases, rev)
    ensures Injective(AliasKey(rev))
    ensures forall id :: Resolve(aliases, KeyOf(rev, id)) == Some(id)
  {
    forall a, b | KeyOf(rev, a) == KeyOf(rev, b)
      ensures a == b
    {
      assert Resolve(aliases, KeyOf(rev, a)) == Some(a);
    }
  }

  /**
   A chunk means what was written. Once its keys are resolved through the stream's aliases, the groups
   have different data ids, namely those of the buffer, and each holds the points written for its
   id, stably sorted by time. An id that has an alias travels under an alias, and no other does.
   */
  lemma ChunkMeansBuffer(aliases: map<U32, DataId>, rev: map<DataId, U32>, dpgs: seq<DataPointGroup>, gs: seq<Group<DataIdOrAlias>>)
    requires ReverseOf(aliases, rev)
    requires Lists(Collected(AliasKey(rev), dpgs), gs)
    ensures forall i :: 0 <= i < |gs| ==>
              && Resolve(aliases, gs[i].key).Some?
              && Mentions(Resolve(aliases, gs[i].key).value, dpgs)
              && gs[i].dataPoints == Sort(PointsOf(Resolve(aliases, gs[i].key).value, dpgs))
              && (gs[i].key.Alias? <==> Resolve(aliases, gs[i].key).value in aliases.Values)
    ensures forall i, j :: 0 <= i < j < |gs| ==> Resolve(aliases, gs[i].key) != Resolve(aliases, gs[j].key)
    ensures forall id :: Mentions(id, dpgs) ==> exists i :: 0 <= i < |gs| && Resolve(aliases, gs[i].key) == Some(id)
  {
    var key := AliasKey(rev);
    AliasKeysAreInjective(aliases, rev);
    ListingIsFaithful(key, dpgs, gs);
    forall i | 0 <= i < |gs|
      ensures && Resolve(aliases, gs[i].key).Some?
              && Mentions(Resolve(aliases, gs[i].key).value, dpgs)
              && gs[i].dataPoints == Sort(PointsOf(Resolve(aliases, gs[i].key).value, dpgs))
              && (gs[i].key.Alias? <==> Resolve(aliases, gs[i].key).value in aliases.Values)
              && gs[i].key == key(Resolve(aliases, gs[i].key).value)
    {
      assert RepresentsSome(key, dpgs, gs[i]);
      var id :| Represents(key, dpgs, id, gs[i]);
      assert Resolve(aliases, KeyOf(rev, id)) == Some(id);
    }
    forall id | Mentions(id, dpgs)
      ensures exists i :: 0 <= i < |gs| && Resolve(aliases, gs[i].key) == Some(id)
    {
      assert Represented(key, dpgs, id, gs);
      var i :| 0 <= i < |gs| && Represents(key, dpgs, id, gs[i]);
      assert Resolve(aliases, gs[i].key) == Some(id);
    }
  }

  /** The groups handed to the application's callback are the chunk's groups under their data ids. */
  lemma CallbackAgrees(aliases: map<U32, DataId>, rev: map<DataId, U32>, dpgs: seq<DataPointGroup>,
                       gs: seq<Group<DataIdOrAlias>>, cb: seq<Group<DataId>>)
    requires ReverseOf(aliases, rev)
    requires Lists(Collected(AliasKey(rev), dpgs), gs)
    requires Lists(Collected(OwnKey(), dpgs), cb)
    ensures forall i :: 0 <= i < |gs| ==> InCallback(aliases, gs[i], cb)
    ensures forall j :: 0 <= j < |cb| ==> OnWire(aliases, cb[j], gs)
  {
    ChunkMeansBuffer(aliases, rev, dpgs, gs);
    var same := OwnKey();
    ListingIsFaithful(same, dpgs, cb);
    forall i | 0 <= i < |gs|
      ensures InCallback(aliases, gs[i], cb)
    {
      var id := Resolve(aliases, gs[i].key).value;
      assert Represented(same, dpgs, id, cb);
      var j :| 0 <= j < |cb| && Represents(same, dpgs, id, cb[j]);
      assert SameGroup(aliases, gs[i], cb[j]);
    }
    forall j | 0 <= j < |cb|
      ensures OnWire(aliases, cb[j], gs)
    {
      assert RepresentsSome(same, dpgs, cb[j]);
      var id :| Represents(same, dpgs, id, cb[j]);
      var i :| 0 <= i < |gs| && Resolve(aliases, gs[i].key) == Some(id);
      assert SameGroup(aliases, gs[i], cb[j]);
    }
  }

  ghost predicate OnWire(aliases: map<U32, DataId>, c: Group<DataId>, gs: seq<Group<DataIdOrAlias>>) {
    exists i :: 0 <= i < |gs| && SameGroup(aliases, gs[i], c)
  }

  ghost predicate InCallback(aliases: map<U32, DataId>, g: Group<DataIdOrAlias>, cb: seq<Group<DataId>>) {
    exists j :: 0 <= j < |cb| && SameGroup(aliases, g, cb[j])
  }

  predicate SameGroup(aliases: map<U32, DataId>, g: Group<DataIdOrAlias>, c: Group<DataId>) {
    Resolve(aliases, g.key) == Some(c.key) && g.dataPoints == c.dataPoints
  }

  // ---------------------------------------------------------------- conservation

  /** All points of a buffer, in order. */
  function AllPoints(dpgs: seq<DataPointGroup>): Points {
    if |dpgs| == 0 then [] else AllPoints(dpgs[..|dpgs| - 1]) + dpgs[|dpgs| - 1].dataPoints
  }

  function GroupPoints<K>(gs: seq<Group<K>>): Points {
    if |gs| == 0 then [] else GroupPoints(gs[..|gs| - 1]) + gs[|gs| - 1].dataPoints
  }

  /** The points written under keys in `ks`. */
  function PointsUnder<K>(key: DataId -> K, ks: set<K>, dpgs: seq<DataPointGroup>): Points {
    if |dpgs| == 0 then []
    else
      var rest, g := PointsUnder(key, ks, dpgs[..|dpgs| - 1]), dpgs[|dpgs| - 1];
      if key(g.dataId) in ks then rest + g.dataPoints else rest
  }

  lemma {:induction false} OneMoreKey<K>(key: DataId -> K, ks: set<K>, k: K, dpgs: seq<DataPointGroup>)
    requires k !in ks
    ensures multiset(PointsUnder(key, ks + {k}, dpgs)) ==
              multiset(PointsUnder(key, ks, dpgs)) +
              multiset(if k in Collected(key, dpgs) then Collected(key, dpgs)[k] else [])
  {
    if |dpgs| > 0 {
      OneMoreKey(key, ks, k, dpgs[..|dpgs| - 1]);
    }
  }

  lemma {:induction false} EveryKey<K>(key: DataId -> K, ks: set<K>, dpgs: seq<DataPointGroup>)
    requires Collected(key, dpgs).Keys <= ks
    ensures PointsUnder(key, ks, dpgs) == AllPoints(dpgs)
  {
    if |dpgs| > 0 {
      EveryKey(key, ks, dpgs[..|dpgs| - 1]);
    }
  }

  lemma {:induction false} NoKey<K>(key: DataId -> K, dpgs: seq<DataPointGroup>)
    ensures PointsUnder(key, {}, dpgs) == []
  {
    if |dpgs| > 0 {
      NoKey(key, dpgs[..|dpgs| - 1]);
    }
  }

  lemma GroupPointsSnoc<K>(gs: seq<Group<K>>, g: Group<K>)
    ensures multiset(GroupPoints(gs + [g])) == multiset(GroupPoints(gs)) + multiset(g.dataPoints)
  {
    assert (gs + [g])[..|gs|] == gs;
  }

  lemma NoGroups<K>(key: DataId -> K, dpgs: seq<DataPointGroup>, gs: seq<Group<K>>)
    requires |gs| == 0
    ensures GroupPoints(gs) == PointsUnder(key, KeysOf(gs), dpgs) == []
  {
    NoKey(key, dpgs);
    assert KeysOf(gs) == {};
  }

  /** Every group is an entry that has not been listed before. */
  lemma NextEntry<K>(m: map<K, Points>, gs: seq<Group<K>>, n: nat)
    requires Lists(m, gs) && n < |gs|
    ensures gs[n].key in m && gs[n].key !in KeysOf(gs[..n])
    ensures multiset(gs[n].dataPoints) == multiset(m[gs[n].key])
  {
    SortIsStable(m[gs[n].key]);
  }

  lemma {:induction false} SomeGroups<K>(key: DataId -> K, dpgs: seq<DataPointGroup>, gs: seq<Group<K>>, n: nat)
    requires Lists(Collected(key, dpgs), gs) && n <= |gs|
    ensures multiset(GroupPoints(gs[..n])) == multiset(PointsUnder(key, KeysOf(gs[..n]), dpgs))
  {
    hide Lists, Collected, PointsUnder, KeysOf, GroupPoints;
    if n == 0 {
      NoGroups(key, dpgs, gs[..0]);
    } else {
      var before, g := gs[..n - 1], gs[n - 1];
      SomeGroups(key, dpgs, gs, n - 1);
      assert gs[..n] == before + [g];
      NextEntry(Collected(key, dpgs), gs, n - 1);
      KeysOfSnoc(before, g);
      OneMoreKey(key, KeysOf(before), g.key, dpgs);
      GroupPointsSnoc(before, g);
    }
  }

  /** No point is lost or added on the way from the buffer into a chunk. */
  lemma ChunkConservesPoints<K>(key: DataId -> K, dpgs: seq<DataPointGroup>, gs: seq<Group<K>>)
    requires Lists(Collected(key, dpgs), gs)
    ensures multiset(GroupPoints(gs)) == multiset(AllPoints(dpgs))
    ensures |GroupPoints(gs)| == |AllPoints(dpgs)|
  {
    SomeGroups(key, dpgs, gs, |gs|);
    assert gs[..|gs|] == gs;
    EveryKey(key, KeysOf(gs), dpgs);
    assert |multiset(GroupPoints(gs))| == |multiset(AllPoints(dpgs))|;
  }
}

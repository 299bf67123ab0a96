/**
 What the receiver's frame buffer makes of frames that arrive more than once (src/transport/datagram.rs:77-123): it does not
 look for repetitions.
 */
module RepeatedFrames {
  import opened Base
  import opened Datagram
  import opened Reassembly

  // ---------------------------------------------------------------- messages of one and of two frames

  lemma JoinedPair(f: Frame)
    ensures Joined([f, f]) == PayloadOf(f) + PayloadOf(f)
  {
    var both: seq<Frame> := [f, f];
    var sorted := SortByIndex(both);
    assert |sorted| == |multiset(sorted)| == |both|;
    assert sorted[0] in multiset(both) && sorted[1] in multiset(both);
    assert Payloads(sorted) == [PayloadOf(f)] + [PayloadOf(f)];
    FlattenCons(PayloadOf(f), [PayloadOf(f)]);
    FlattenCons(PayloadOf(f), []);
  }

  lemma PushedTwice(t: Table, n: U32, a: Arrival)
    requires IsFor(n, a) && LastOf(a.frame) == 1 && n !in t.entries && a.now - a.later <= t.expire
    ensures var first := PushStep(t, a.frame, a.now, a.later);
            var second := PushStep(first.table, a.frame, a.now, a.later);
            first.out == None && second.out == Some(PayloadOf(a.frame) + PayloadOf(a.frame))
  {
    hide PushStep, Joined;
    var first := PushStep(t, a.frame, a.now, a.later);
    EarlyPush(t, n, 2, [], a);
    assert [] + [a.frame] == [a.frame];
    LastPush(first.table, n, [a.frame], a);
    JoinedPair(a.frame);
    assert [a.frame] + [a.frame] == [a.frame, a.frame];
  }

  /**
   A repeated frame counts as another one: of a message in two frames, one that is pushed twice comes out as its
   payload twice. That is the message exactly if the two halves are equal.
   */
  lemma RepeatedFrameCorrupts(t: Table, n: U32, size: nat, data: Bytes, i: nat, a: Arrival)
    requires |data| > 0 && Numberable(size, data) && |Frames(n, size, data)| == 2 && i < 2
    requires n !in t.entries && a.frame == Frames(n, size, data)[i] && a.now - a.later <= t.expire
    ensures var first := PushStep(t, a.frame, a.now, a.later);
            var second := PushStep(first.table, a.frame, a.now, a.later);
            && first.out == None && second.out == Some(PayloadOf(a.frame) + PayloadOf(a.frame))
            && (second.out == Some(data) <==> Segments(data, size)[0] == Segments(data, size)[1])
  {
    TwoSegments(n, size, data, i);
    FramesCarryTheMessage(n, size, data);
    hide PushStep, Frames, Flatten, Payloads, Segments;
    PushedTwice(t, n, a);
  }

  lemma TwoSegments(n: U32, size: nat, data: Bytes, i: nat)
    requires |data| > 0 && Numberable(size, data) && |Frames(n, size, data)| == 2 && i < 2
    ensures |Segments(data, size)| == 2 && |Frames(n, size, data)[i]| >= 9
    ensures var segments, half := Segments(data, size), PayloadOf(Frames(n, size, data)[i]);
            half + half == data <==> segments[0] == segments[1]
  {
    var segments := Segments(data, size);
    FramesCarryTheMessage(n, size, data);
    HeaderRoundTrip(n, 1, i, segments[i]);
    SegmentsCarryTheData(data, size);
    SegmentsAreFull(data, size, 0);
    hide Frames, Numberable, Segments, FrameOf;
    assert segments == [segments[0]] + [segments[1]];
    FlattenCons(segments[0], [segments[1]]);
    FlattenCons(segments[1], []);
    assert data == segments[0] + segments[1];
    Halves(segments[i], segments[0], segments[1]);
  }

  lemma Halves(half: Bytes, a: Bytes, b: Bytes)
    requires (half == a || half == b) && |b| <= |a|
    ensures half + half == a + b <==> a == b
  {
    if half + half == a + b {
      assert |half| == |a| == |b|;
      assert (half + half)[..|a|] == half && (a + b)[..|a|] == a;
      assert (half + half)[|a|..] == half && (a + b)[|a|..] == b;
    }
  }

  /** The single frame of a message makes the receiver return it as often as it comes. */
  lemma RepeatedSingleFrameRepeats(t: Table, n: U32, size: nat, data: Bytes, a: Arrival)
    requires |data| > 0 && Numberable(size, data) && |Frames(n, size, data)| == 1 && a.frame == Frames(n, size, data)[0]
    ensures var first := PushStep(t, a.frame, a.now, a.later);
            first.out == Some(data) && PushStep(first.table, a.frame, a.now, a.later).out == Some(data)
  {
    FramesCarryTheMessage(n, size, data);
    SingleFrame(n, size, data, a.frame, {});
    hide Frames, Flatten, Payloads, Sweep;
  }

  // ---------------------------------------------------------------- which frames join to the message

  /** Pointwise no longer, and equally long in all: then pointwise equally long. */
  lemma {:induction false} FlattenShorter(a: seq<Bytes>, b: seq<Bytes>)
    requires |a| == |b| && forall k :: 0 <= k < |a| ==> |a[k]| <= |b[k]|
    ensures |Flatten(a)| <= |Flatten(b)|
    ensures |Flatten(a)| == |Flatten(b)| ==> forall k :: 0 <= k < |a| ==> |a[k]| == |b[k]|
  {
    if |a| > 0 {
      FlattenShorter(a[..|a| - 1], b[..|a| - 1]);
      assert forall k :: 0 <= k < |a| - 1 ==> a[..|a| - 1][k] == a[k] && b[..|a| - 1][k] == b[k];
    }
  }

  /** Equally long pieces join to the same bytes only if they are the same pieces. */
  lemma {:induction false} FlattenCancels(a: seq<Bytes>, b: seq<Bytes>)
    requires |a| == |b| && (forall k :: 0 <= k < |a| ==> |a[k]| == |b[k]|) && Flatten(a) == Flatten(b)
    ensures a == b
  {
    if |a| > 0 {
      var m := |a| - 1;
      var x, y := Flatten(a[..m]), Flatten(b[..m]);
      assert x + a[m] == y + b[m];
      assert (x + a[m])[|x|..] == a[m] && (y + b[m])[|y|..] == b[m];
      assert |x| == |y|;
      assert (x + a[m])[..|x|] == x && (y + b[m])[..|y|] == y;
      FlattenCancels(a[..m], b[..m]);
      assert a == a[..m] + [a[m]] && b == b[..m] + [b[m]];
    }
  }

  /** A non-decreasing choice `at` of segments, all but the last full: the lengths agree if the totals do. */
  lemma LengthsAlign(ps: seq<Bytes>, segments: seq<Bytes>, at: seq<nat>, size: nat)
    requires |ps| == |segments| == |at| > 0
    requires forall j, k :: 0 <= j < k < |at| ==> at[j] <= at[k]
    requires forall k :: 0 <= k < |at| ==> at[k] < |segments| && ps[k] == segments[at[k]]
    requires forall k :: 0 <= k < |segments| ==> if k < |segments| - 1 then |segments[k]| == size else |segments[k]| <= size
    requires |Flatten(ps)| == |Flatten(segments)|
    ensures forall k :: 0 <= k < |ps| ==> |ps[k]| == |segments[k]|
  {
    hide Flatten;
    if at[|at| - 1] == |at| - 1 {
      FlattenShorter(ps, segments);
    } else {
      FlattenShorter(segments, ps);
    }
  }

  lemma PayloadIsSegment(f: Frame, n: U32, size: nat, data: Bytes)
    requires Numberable(size, data) && IsFrameOf(f, n, size, data)
    ensures IndexOf(f) < |Segments(data, size)| && PayloadOf(f) == Segments(data, size)[IndexOf(f)]
  {
    var segments := Segments(data, size);
    HeaderRoundTrip(n, |segments| - 1, IndexOf(f), segments[IndexOf(f)]);
  }

  lemma FramesAlign(sorted: seq<Frame>, n: U32, size: nat, data: Bytes)
    requires Numberable(size, data) && |sorted| == |Segments(data, size)| && IndexSorted(sorted)
    requires forall f :: f in sorted ==> IsFrameOf(f, n, size, data)
    requires Flatten(Payloads(sorted)) == data
    ensures Payloads(sorted) == Segments(data, size)
  {
    var segments := Segments(data, size);
    var at: seq<nat> := seq(|sorted|, k requires 0 <= k < |sorted| => IndexOf(sorted[k]));
    SegmentsCarryTheData(data, size);
    forall k | 0 <= k < |sorted|
      ensures at[k] < |segments| && Payloads(sorted)[k] == segments[at[k]]
      ensures k < |sorted| - 1 ==> |segments[k]| == size
    {
      PayloadIsSegment(sorted[k], n, size, data);
      if k < |sorted| - 1 {
        SegmentsAreFull(data, size, k);
      }
    }
    hide Segments, Frames, IsFrameOf, IndexOf, Flatten, Numberable;
    LengthsAlign(Payloads(sorted), segments, at, size);
    FlattenCancels(Payloads(sorted), segments);
  }

  /**
   As many frames of a message as it has, repeated ones among them, join to the message if and only if, in order of
   index, they carry its segments.
   */
  lemma JoinsIffSegmentsMatch(fs: seq<Frame>, n: U32, size: nat, data: Bytes)
    requires Numberable(size, data) && |fs| == |Segments(data, size)|
    requires forall f :: f in fs ==> IsFrameOf(f, n, size, data)
    ensures Joined(fs) == data <==> Payloads(SortByIndex(fs)) == Segments(data, size)
  {
    var sorted := SortByIndex(fs);
    SegmentsCarryTheData(data, size);
    hide Segments, Frames, Flatten;
    assert |sorted| == |multiset(sorted)| == |fs|;
    forall f | f in sorted
      ensures IsFrameOf(f, n, size, data)
    {
      assert f in multiset(sorted);
    }
    if Joined(fs) == data {
      FramesAlign(sorted, n, size, data);
    }
  }

  /** For a message whose segments all differ that means that no frame is repeated. */
  lemma JoinsIffDistinct(fs: seq<Frame>, n: U32, size: nat, data: Bytes)
    requires Numberable(size, data) && |fs| == |Segments(data, size)| && Distinct(Segments(data, size))
    requires forall f :: f in fs ==> IsFrameOf(f, n, size, data)
    ensures Joined(fs) == data <==> Distinct(fs)
  {
    hide IsFrameOf, Numberable, Joined, SortByIndex, IndexOf, PayloadOf;
    JoinsIffSegmentsMatch(fs, n, size, data);
    if Distinct(fs) {
      JoinRestoresMessage(fs, n, size, data);
    } else {
      var sorted := SortByIndex(fs);
      var i, j :| 0 <= i < j < |fs| && fs[i] == fs[j];
      RepeatsAfterSorting(fs, sorted, i, j);
      var k, l :| 0 <= k < l < |sorted| && sorted[k] == sorted[l];
      assert Payloads(sorted)[k] == Payloads(sorted)[l];
    }
  }

  lemma RepeatsAfterSorting(fs: seq<Frame>, sorted: seq<Frame>, i: nat, j: nat)
    requires multiset(sorted) == multiset(fs) && i < j < |fs| && fs[i] == fs[j]
    ensures exists k, l :: 0 <= k < l < |sorted| && sorted[k] == sorted[l]
  {
    assert fs == fs[..j] + fs[j..];
    assert fs[i] in fs[..j] && fs[j] in fs[j..];
    assert multiset(sorted)[fs[i]] >= 2;
    if Distinct(sorted) {
      OnceWhenDistinct(sorted, fs[i]);
    }
  }

  // ---------------------------------------------------------------- any number of repetitions

  /** All frames for `n` say that their message has `needed` frames, and none comes too late for an earlier one. */
  ghost predicate SteadyFor(n: U32, needed: nat, expire: nat, arrivals: seq<Arrival>) {
    && (forall i :: 0 <= i < |arrivals| && IsFor(n, arrivals[i]) ==> LastOf(arrivals[i].frame) + 1 == needed)
    && (forall i, j :: 0 <= i < j < |arrivals| && IsFor(n, arrivals[i]) ==> arrivals[j].now - arrivals[i].later <= expire)
  }

  datatype Tally = Tally(rounds: nat, rest: seq<Frame>)

  /** How often `needed` frames for `n` have come together, and those that have come since. */
  function TallyFor(n: U32, needed: nat, arrivals: seq<Arrival>): Tally {
    if |arrivals| == 0 then Tally(0, [])
    else
      var before, a := TallyFor(n, needed, arrivals[..|arrivals| - 1]), arrivals[|arrivals| - 1];
      if !IsFor(n, a) then before
      else if |before.rest| + 1 == needed then Tally(before.rounds + 1, [])
      else before.(rest := before.rest + [a.frame])
  }

  lemma {:induction false} TallyDivides(n: U32, needed: nat, arrivals: seq<Arrival>)
    requires needed > 0
    ensures var tally := TallyFor(n, needed, arrivals);
            && |tally.rest| < needed
            && tally.rounds == |FramesFor(n, arrivals)| / needed && |tally.rest| == |FramesFor(n, arrivals)| % needed
  {
    if |arrivals| == 0 {
      DivUnique(0, needed, 0, 0);
    } else {
      var before := TallyFor(n, needed, arrivals[..|arrivals| - 1]);
      var count := |FramesFor(n, arrivals[..|arrivals| - 1])|;
      TallyDivides(n, needed, arrivals[..|arrivals| - 1]);
      DivMod(count, needed);
      Times(before.rounds, 1, needed);
      if |before.rest| + 1 == needed {
        DivUnique(count + 1, needed, before.rounds + 1, 0);
      } else {
        DivUnique(count + 1, needed, before.rounds, |before.rest| + 1);
      }
    }
  }

  lemma TallySnoc(n: U32, needed: nat, arrivals: seq<Arrival>, a: Arrival)
    requires IsFor(n, a)
    ensures |TallyFor(n, needed, arrivals + [a]).rest| == 0 <==> |TallyFor(n, needed, arrivals).rest| + 1 == needed
  {
    assert (arrivals + [a])[..|arrivals|] == arrivals;
  }

  lemma SteadyUpTo(n: U32, needed: nat, expire: nat, arrivals: seq<Arrival>, k: nat)
    requires k <= |arrivals| && SteadyFor(n, needed, expire, arrivals)
    ensures SteadyFor(n, needed, expire, arrivals[..k])
  {
    hide IsFor;
  }

  /** The table holds the frames of the round that has begun. */
  ghost predicate InRound(n: U32, needed: nat, t: Table, rest: seq<Frame>, arrivals: seq<Arrival>) {
    if |rest| == 0 then n !in t.entries
    else
      && n in t.entries && t.entries[n].needed == needed && t.entries[n].frames == rest
      && exists i :: 0 <= i < |arrivals| && IsFor(n, arrivals[i]) && t.entries[n].at == arrivals[i].later
  }

  lemma PushInRound(n: U32, needed: nat, t: Table, rest: seq<Frame>, before: seq<Arrival>, a: Arrival)
    requires needed > 0 && |rest| < needed && InRound(n, needed, t, rest, before)
    requires SteadyFor(n, needed, t.expire, before + [a])
    ensures var p := PushStep(t, a.frame, a.now, a.later);
            && p.table.expire == t.expire
            && (if !IsFor(n, a) then InRound(n, needed, p.table, rest, before + [a])
                else if |rest| + 1 == needed then p.out.Some? && InRound(n, needed, p.table, [], before + [a])
                else p.out.None? && InRound(n, needed, p.table, rest + [a.frame], before + [a]))
  {
    var all := before + [a];
    assert all[|before|] == a;
    assert forall i :: 0 <= i < |before| ==> all[i] == before[i];
    hide PushStep, Joined, LastOf, NumberOf;
    if IsFor(n, a) {
      if |rest| + 1 == needed {
        LastPush(t, n, rest, a);
      } else {
        EarlyPush(t, n, needed, rest, a);
      }
    } else {
      OtherPush(t, n, a);
    }
  }

  lemma {:induction false} RunInRounds(t: Table, arrivals: seq<Arrival>, n: U32, needed: nat, expire: nat)
    requires needed > 0 && n !in t.entries && t.expire == expire && SteadyFor(n, needed, expire, arrivals)
    ensures var log, tally := Run(t, arrivals), TallyFor(n, needed, arrivals);
            log.table.expire == expire && |tally.rest| < needed && InRound(n, needed, log.table, tally.rest, arrivals)
  {
    if |arrivals| > 0 {
      var before, a := arrivals[..|arrivals| - 1], arrivals[|arrivals| - 1];
      RunInRounds(t, before, n, needed, expire);
      assert before + [a] == arrivals;
      hide PushStep, SteadyFor, InRound;
      PushInRound(n, needed, Run(t, before).table, TallyFor(n, needed, before).rest, before, a);
    }
  }

  /**
   As long as nothing expires, whatever frames come for a number, repeated or not, every `needed`-th of them makes the buffer
   return something, and no other. A message whose frames keep coming is thus returned a second time by push number
   2 * needed for it, not before.
   */
  lemma EveryRoundIsReturned(t: Table, arrivals: seq<Arrival>, n: U32, needed: nat, k: nat)
    requires needed > 0 && n !in t.entries && SteadyFor(n, needed, t.expire, arrivals)
    requires k < |arrivals| && IsFor(n, arrivals[k])
    ensures Run(t, arrivals).outs[k].Some? <==> |FramesFor(n, arrivals[..k + 1])| % needed == 0
  {
    hide Run, PushStep, InRound, FramesFor, TallyFor, SteadyFor, IsFor;
    var before, upTo, a := arrivals[..k], arrivals[..k + 1], arrivals[k];
    assert upTo == before + [a];
    SteadyUpTo(n, needed, t.expire, arrivals, k);
    SteadyUpTo(n, needed, t.expire, arrivals, k + 1);
    RunInRounds(t, before, n, needed, t.expire);
    PushInRound(n, needed, Run(t, before).table, TallyFor(n, needed, before).rest, before, a);
    RunAt(t, arrivals, k);
    TallySnoc(n, needed, before, a);
    TallyDivides(n, needed, upTo);
  }
}

/**
 The receiver's frame buffer (src/transport/datagram.rs): frames of many messages arrive in
 any order, some never, and incomplete messages expire.
 */
module Reassembly {
  import opened Base
  import opened Datagram

  // ---------------------------------------------------------------- joining

  predicate IndexSorted(fs: seq<Frame>) {
    forall i, j :: 0 <= i < j < |fs| ==> IndexOf(fs[i]) <= IndexOf(fs[j])
  }

  predicate IndexIncreasing(fs: seq<Frame>) {
    forall i, j :: 0 <= i < j < |fs| ==> IndexOf(fs[i]) < IndexOf(fs[j])
  }

  predicate DistinctIndices(fs: seq<Frame>) {
    forall i, j :: 0 <= i < j < |fs| ==> IndexOf(fs[i]) != IndexOf(fs[j])
  }

  function InsertByIndex(f: Frame, sorted: seq<Frame>): (r: seq<Frame>)
    ensures multiset(r) == multiset(sorted) + multiset{f}
  {
    if |sorted| == 0 || IndexOf(f) < IndexOf(sorted[0]) then [f] + sorted
    else
      assert sorted == [sorted[0]] + sorted[1..];
      [sorted[0]] + InsertByIndex(f, sorted[1..])
  }

  lemma {:induction false} InsertKeepsSorted(f: Frame, sorted: seq<Frame>)
    requires IndexSorted(sorted)
    ensures IndexSorted(InsertByIndex(f, sorted))
  {
    hide IndexOf;
    if |sorted| > 0 && IndexOf(f) >= IndexOf(sorted[0]) {
      InsertKeepsSorted(f, sorted[1..]);
      var rest := InsertByIndex(f, sorted[1..]);
      forall g | g in rest
        ensures IndexOf(sorted[0]) <= IndexOf(g)
      {
        assert g in multiset(rest);
        assert g == f || g in sorted[1..];
      }
      LeastFirst(sorted[0], rest);
    }
  }

  lemma LeastFirst(f: Frame, rest: seq<Frame>)
    requires IndexSorted(rest) && forall g :: g in rest ==> IndexOf(f) <= IndexOf(g)
    ensures IndexSorted([f] + rest)
  {
    hide IndexOf;
  }

  /** A sort by segment index; `SortIsDetermined` shows that the choice of algorithm is immaterial. */
  function SortByIndex(fs: seq<Frame>): (r: seq<Frame>)
    ensures multiset(r) == multiset(fs) && IndexSorted(r)
  {
    if |fs| == 0 then []
    else
      var rest := SortByIndex(fs[..|fs| - 1]);
      assert fs == fs[..|fs| - 1] + [fs[|fs| - 1]];
      InsertKeepsSorted(fs[|fs| - 1], rest);
      InsertByIndex(fs[|fs| - 1], rest)
  }

  lemma {:induction false} OnceWhenDistinct(fs: seq<Frame>, f: Frame)
    requires Distinct(fs)
    ensures multiset(fs)[f] <= 1
  {
    if |fs| > 0 {
      OnceWhenDistinct(fs[1..], f);
      assert fs == [fs[0]] + fs[1..];
    }
  }

  /** Rearranging frames with distinct indices in sorted order makes the indices increase strictly. */
  lemma SortedIsIncreasing(fs: seq<Frame>, sorted: seq<Frame>)
    requires DistinctIndices(fs) && multiset(sorted) == multiset(fs) && IndexSorted(sorted)
    ensures IndexIncreasing(sorted)
  {
    forall i, j | 0 <= i < j < |sorted|
      ensures IndexOf(sorted[i]) < IndexOf(sorted[j])
    {
      if IndexOf(sorted[i]) == IndexOf(sorted[j]) {
        assert sorted[i] in multiset(fs) && sorted[j] in multiset(fs);
        assert sorted[i] == sorted[j];
        assert sorted == sorted[..j] + sorted[j..];
        assert sorted[i] in sorted[..j] && sorted[j] in sorted[j..];
        OnceWhenDistinct(fs, sorted[i]);
        assert false;
      }
    }
  }

  lemma {:induction false} IncreasingIsUnique(a: seq<Frame>, b: seq<Frame>)
    requires IndexIncreasing(a) && IndexIncreasing(b)
    requires forall f :: f in a <==> f in b
    ensures a == b
  {
    assert |a| > 0 ==> a[0] in b;
    assert |b| > 0 ==> b[0] in a;
    if |a| > 0 {
      assert a[0] == b[0];
      forall f
        ensures f in a[1..] <==> f in b[1..]
      {
        if f in a[1..] {
          assert f in b && f != b[0];
        }
        if f in b[1..] {
          assert f in a && f != a[0];
        }
      }
      IncreasingIsUnique(a[1..], b[1..]);
    }
  }

  /** Any sort by index, stable or not, gives the same order as long as no index repeats. */
  lemma SortIsDetermined(fs: seq<Frame>, sorted: seq<Frame>)
    requires DistinctIndices(fs) && multiset(sorted) == multiset(fs) && IndexSorted(sorted)
    ensures sorted == SortByIndex(fs)
  {
    SortedIsIncreasing(fs, sorted);
    SortedIsIncreasing(fs, SortByIndex(fs));
    forall f
      ensures f in sorted <==> f in SortByIndex(fs)
    {
      assert f in sorted <==> f in multiset(sorted);
      assert f in SortByIndex(fs) <==> f in multiset(SortByIndex(fs));
    }
    IncreasingIsUnique(sorted, SortByIndex(fs));
  }

  function Joined(fs: seq<Frame>): Bytes {
    Flatten(Payloads(SortByIndex(fs)))
  }

  method JoinFrames(frames: seq<Frame>) returns (buf: Bytes)
    ensures buf == Joined(frames)
  {
    var sorted := SortByIndex(frames);
    buf := [];
    for i := 0 to |sorted|
      invariant buf == Flatten(Payloads(sorted)[..i])
    {
      buf := buf + PayloadOf(sorted[i]);
      assert Payloads(sorted)[..i + 1][..i] == Payloads(sorted)[..i];
    }
    assert Payloads(sorted)[..|sorted|] == Payloads(sorted);
  }

  /** Strictly increasing indices below the length can only be 0, 1, 2, ... */
  lemma {:induction false} IncreasingFills(fs: seq<Frame>, k: nat)
    requires IndexIncreasing(fs) && k < |fs|
    requires forall f :: f in fs ==> IndexOf(f) < |fs|
    ensures IndexOf(fs[k]) == k
  {
    AtLeast(fs, k);
    AtMost(fs, k);
  }

  lemma {:induction false} AtLeast(fs: seq<Frame>, k: nat)
    requires IndexIncreasing(fs) && k < |fs|
    ensures IndexOf(fs[k]) >= k
  {
    if k > 0 {
      AtLeast(fs, k - 1);
    }
  }

  lemma {:induction false} AtMost(fs: seq<Frame>, k: nat)
    requires IndexIncreasing(fs) && k < |fs|
    requires forall f :: f in fs ==> IndexOf(f) < |fs|
    ensures IndexOf(fs[k]) <= k
    decreases |fs| - k
  {
    if k < |fs| - 1 {
      AtMost(fs, k + 1);
    } else {
      assert fs[k] in fs;
    }
  }

  /** `f` is one of the frames the splitter made from the message. */
  predicate IsFrameOf(f: Bytes, number: U32, size: nat, data: Bytes)
    requires Numberable(size, data)
  {
    && |f| >= 9
    && NumberOf(f) == number
    && IndexOf(f) < |Frames(number, size, data)|
    && f == Frames(number, size, data)[IndexOf(f)]
  }

  lemma OwnIndices(fs: seq<Frame>, number: U32, size: nat, data: Bytes)
    requires Numberable(size, data) && Distinct(fs)
    requires forall f :: f in fs ==> IsFrameOf(f, number, size, data)
    ensures DistinctIndices(fs)
  {
    hide Frames, Numberable, NumberOf, IndexOf;
    forall i, j | 0 <= i < j < |fs|
      ensures IndexOf(fs[i]) != IndexOf(fs[j])
    {
      assert fs[i] in fs && fs[j] in fs;
    }
  }

  /** As many frames as the message has, by increasing index, are the message's frames. */
  lemma SortedIsWhole(sorted: seq<Frame>, number: U32, size: nat, data: Bytes)
    requires Numberable(size, data) && IndexIncreasing(sorted) && |sorted| == |Frames(number, size, data)|
    requires forall f :: f in sorted ==> IsFrameOf(f, number, size, data)
    ensures forall k :: 0 <= k < |sorted| ==> sorted[k] == Frames(number, size, data)[k]
    ensures Flatten(Payloads(sorted)) == data
  {
    hide Frames, Numberable, NumberOf, IndexOf, PayloadOf, Flatten;
    var all := Frames(number, size, data);
    FramesCarryTheMessage(number, size, data);
    forall k | 0 <= k < |sorted|
      ensures sorted[k] == all[k]
    {
      IncreasingFills(sorted, k);
      assert sorted[k] in sorted;
    }
    assert Payloads(sorted) == Payloads(all);
  }

  /** As many different frames as the message has, in any order, join to the message. */
  lemma JoinRestoresMessage(fs: seq<Frame>, number: U32, size: nat, data: Bytes)
    requires Numberable(size, data) && |fs| == |Frames(number, size, data)|
    requires Distinct(fs) && forall f :: f in fs ==> IsFrameOf(f, number, size, data)
    ensures Joined(fs) == data
    ensures AllArrived(number, data, size, set f | f in fs)
  {
    hide Frames, Numberable, IsFrameOf, IndexOf, Payloads, Flatten;
    var sorted := SortByIndex(fs);
    OwnIndices(fs, number, size, data);
    SortedIsIncreasing(fs, sorted);
    assert |sorted| == |multiset(sorted)| == |fs|;
    forall f | f in sorted
      ensures f in fs
    {
      assert f in multiset(sorted);
    }
    SortedIsWhole(sorted, number, size, data);
    forall k | 0 <= k < |sorted|
      ensures sorted[k] in fs
    {
      assert sorted[k] in sorted;
    }
  }

  // ---------------------------------------------------------------- the buffer

  datatype Entry = Entry(at: int, needed: nat, frames: seq<Frame>)

  datatype Table = Table(expire: nat, checkedAt: int, entries: map<U32, Entry>)

  /** The sweep: at most once per expiry period, entries older than it are dropped. */
  function Sweep(t: Table, now: int): Table {
    if now - t.checkedAt > t.expire then
      t.(checkedAt := now,
         entries := map n | n in t.entries && now - t.entries[n].at <= t.expire :: t.entries[n])
    else
      t
  }

  datatype Pushed = Pushed(table: Table, out: Option<Bytes>)

  /** One push; `now` and `later` are its two readings of the clock. */
  function PushStep(t: Table, frame: Bytes, now: int, later: int): Pushed {
    if |frame| < 9 then
      Pushed(t, None)
    else
      var n, last, t1 := NumberOf(frame), LastOf(frame), Sweep(t, now);
      if last == 0 then
        Pushed(t1, Some(PayloadOf(frame)))
      else if n in t1.entries then
        var e := t1.entries[n].(frames := t1.entries[n].frames + [frame]);
        if e.needed == |e.frames| then
          Pushed(t1.(entries := t1.entries - {n}), Some(Joined(e.frames)))
        else
          Pushed(t1.(entries := t1.entries[n := e]), None)
      else
        Pushed(t1.(entries := t1.entries[n := Entry(later, last as nat + 1, [frame])]), None)
  }

  class FrameBuf {
    var expire: nat
    var checkedAt: int
    var entries: map<U32, Entry>

    constructor (now: int, expire: nat)
      ensures Model() == Table(expire, now, map[])
    {
      this.expire := expire;
      checkedAt := now;
      entries := map[];
    }

    ghost function Model(): Table
      reads this
    {
      Table(expire, checkedAt, entries)
    }

    method Push(frame: Bytes, now: int, later: int) returns (out: Option<Bytes>)
      modifies this
      ensures Pushed(Model(), out) == PushStep(old(Model()), frame, now, later)
    {
      if |frame| < 9 {
        return None;
      }
      if now - checkedAt > expire {
        entries := map n | n in entries && now - entries[n].at <= expire :: entries[n];
        checkedAt := now;
      }
      var number, last := NumberOf(frame), LastOf(frame);
      if last == 0 {
        return Some(PayloadOf(frame));
      }
      if number in entries {
        var entry := entries[number];
        entry := entry.(frames := entry.frames + [frame]);
        entries := entries[number := entry];
        if entry.needed == |entry.frames| {
          entries := entries - {number};
          assert Model().entries == Sweep(old(Model()), now).entries - {number};
          var joined := JoinFrames(entry.frames);
          return Some(joined);
        }
      } else {
        entries := entries[number := Entry(later, last as nat + 1, [frame])];
      }
      return None;
    }
  }

  // ---------------------------------------------------------------- whole runs

  datatype Arrival = Arrival(frame: Bytes, now: int, later: int)

  datatype Log = Log(table: Table, outs: seq<Option<Bytes>>)

  function Run(t: Table, arrivals: seq<Arrival>): (log: Log)
    ensures |log.outs| == |arrivals|
  {
    if |arrivals| == 0 then
      Log(t, [])
    else
      var log := Run(t, arrivals[..|arrivals| - 1]);
      var a := arrivals[|arrivals| - 1];
      var p := PushStep(log.table, a.frame, a.now, a.later);
      Log(p.table, log.outs + [p.out])
  }

  function FramesIn(arrivals: seq<Arrival>): set<Bytes> {
    if |arrivals| == 0 then {} else FramesIn(arrivals[..|arrivals| - 1]) + {arrivals[|arrivals| - 1].frame}
  }

  /** No frame is pushed twice. */
  predicate PushedOnce(arrivals: seq<Arrival>) {
    forall i, j :: 0 <= i < j < |arrivals| ==> arrivals[i].frame != arrivals[j].frame
  }

  /** Non-empty messages under the sequence numbers the splitter gave them. */
  predicate Sendable(msgs: map<U32, Bytes>, size: nat) {
    forall n :: n in msgs ==> |msgs[n]| > 0 && Numberable(size, msgs[n])
  }

  /** The channel invents nothing: the frame was made from one of the messages. */
  predicate WasSent(frame: Bytes, msgs: map<U32, Bytes>, size: nat)
    requires Sendable(msgs, size)
  {
    |frame| >= 9 && NumberOf(frame) in msgs && IsFrameOf(frame, NumberOf(frame), size, msgs[NumberOf(frame)])
  }

  predicate AllSent(arrivals: seq<Arrival>, msgs: map<U32, Bytes>, size: nat)
    requires Sendable(msgs, size)
  {
    forall i :: 0 <= i < |arrivals| ==> WasSent(arrivals[i].frame, msgs, size)
  }

  ghost predicate AllArrived(n: U32, data: Bytes, size: nat, seen: set<Bytes>)
    requires Numberable(size, data)
  {
    forall i {:trigger Frames(n, size, data)[i]} :: 0 <= i < |Frames(n, size, data)| ==> Frames(n, size, data)[i] in seen
  }

  ghost predicate GoodEntry(n: U32, e: Entry, data: Bytes, size: nat, seen: set<Bytes>)
    requires Numberable(size, data)
  {
    && 0 < |e.frames| < e.needed == |Frames(n, size, data)|
    && Distinct(e.frames)
    && forall f :: f in e.frames ==> IsFrameOf(f, n, size, data) && f in seen
  }

  /** Every table entry holds different arrived frames of one sent message, and not yet all of them. */
  ghost predicate TableSound(t: Table, msgs: map<U32, Bytes>, size: nat, seen: set<Bytes>)
    requires Sendable(msgs, size)
  {
    forall n :: n in t.entries ==> n in msgs && GoodEntry(n, t.entries[n], msgs[n], size, seen)
  }

  /** The message of a frame that says it is the only one. */
  lemma SingleFrame(n: U32, size: nat, data: Bytes, frame: Bytes, seen: set<Bytes>)
    requires Numberable(size, data) && IsFrameOf(frame, n, size, data) && LastOf(frame) == 0
    ensures PayloadOf(frame) == data && AllArrived(n, data, size, seen + {frame})
    ensures |Frames(n, size, data)| == 1
  {
    FramesCarryTheMessage(n, size, data);
    assert Payloads(Frames(n, size, data)) == [PayloadOf(frame)];
    assert Flatten([PayloadOf(frame)]) == Flatten([]) + PayloadOf(frame);
  }

  lemma EntryStaysGood(n: U32, e: Entry, data: Bytes, size: nat, seen: set<Bytes>, frame: Bytes)
    requires Numberable(size, data) && GoodEntry(n, e, data, size, seen)
    ensures GoodEntry(n, e, data, size, seen + {frame})
  {
  }

  /** A frame not seen before joins an entry. */
  lemma EntryGrows(n: U32, e: Entry, data: Bytes, size: nat, seen: set<Bytes>, frame: Bytes)
    requires Numberable(size, data) && GoodEntry(n, e, data, size, seen)
    requires IsFrameOf(frame, n, size, data) && frame !in seen
    ensures var fs := e.frames + [frame];
            && Distinct(fs) && (forall f :: f in fs ==> IsFrameOf(f, n, size, data) && f in seen + {frame})
            && (|fs| == |Frames(n, size, data)| ==>
                  Joined(fs) == data && AllArrived(n, data, size, seen + {frame}))
  {
    var fs := e.frames + [frame];
    forall i, j | 0 <= i < j < |fs|
      ensures fs[i] != fs[j]
    {
      assert fs[i] in e.frames;
    }
    if |fs| == |Frames(n, size, data)| {
      JoinRestoresMessage(fs, n, size, data);
    }
  }

  /** One push of a frame that has not been pushed before. */
  lemma PushKeepsSound(t: Table, msgs: map<U32, Bytes>, size: nat, seen: set<Bytes>, a: Arrival)
    requires Sendable(msgs, size) && TableSound(t, msgs, size, seen)
    requires WasSent(a.frame, msgs, size) && a.frame !in seen
    ensures var p, n := PushStep(t, a.frame, a.now, a.later), NumberOf(a.frame);
            && TableSound(p.table, msgs, size, seen + {a.frame})
            && (p.out.Some? ==> p.out.value == msgs[n] && AllArrived(n, msgs[n], size, seen + {a.frame}))
  {
    var frame, n := a.frame, NumberOf(a.frame);
    var t1, p := Sweep(t, a.now), PushStep(t, a.frame, a.now, a.later);
    if LastOf(frame) == 0 {
      SingleFrame(n, size, msgs[n], frame, seen);
    } else if n in t1.entries {
      EntryGrows(n, t1.entries[n], msgs[n], size, seen, frame);
    } else {
      FramesCarryTheMessage(n, size, msgs[n]);
    }
    forall k | k in p.table.entries
      ensures k in msgs && GoodEntry(k, p.table.entries[k], msgs[k], size, seen + {frame})
    {
      if k != n {
        assert k in t.entries;
        EntryStaysGood(k, t.entries[k], msgs[k], size, seen, frame);
      }
    }
  }

  lemma {:induction false} FramesInMembers(arrivals: seq<Arrival>, f: Bytes)
    ensures f in FramesIn(arrivals) <==> exists i :: 0 <= i < |arrivals| && arrivals[i].frame == f
  {
    if |arrivals| > 0 {
      var m := |arrivals| - 1;
      FramesInMembers(arrivals[..m], f);
      if f in FramesIn(arrivals) && arrivals[m].frame != f {
        var i :| 0 <= i < m && arrivals[..m][i].frame == f;
        assert arrivals[i].frame == f;
      }
      if i :| 0 <= i < |arrivals| && arrivals[i].frame == f {
        assert i < m ==> arrivals[..m][i].frame == f;
      }
    }
  }

  /** The arrival number `k` pushes onto what the ones before have made of the table. */
  lemma RunAt(t: Table, arrivals: seq<Arrival>, k: nat)
    requires k < |arrivals|
    ensures var a := arrivals[k];
            var log, p := Run(t, arrivals[..k + 1]), PushStep(Run(t, arrivals[..k]).table, a.frame, a.now, a.later);
            log.table == p.table && log.outs[k] == p.out == Run(t, arrivals).outs[k]
  {
    hide PushStep;
    assert arrivals[..k + 1][..k] == arrivals[..k];
    RunPrefix(t, arrivals, k + 1);
  }

  lemma {:induction false} RunPrefix(t: Table, arrivals: seq<Arrival>, k: nat)
    requires k <= |arrivals|
    ensures Run(t, arrivals[..k]).outs == Run(t, arrivals).outs[..k]
  {
    if k < |arrivals| {
      RunPrefix(t, arrivals[..|arrivals| - 1], k);
      assert arrivals[..|arrivals| - 1][..k] == arrivals[..k];
    } else {
      assert arrivals[..k] == arrivals;
    }
  }

  /** After any arrivals the table is sound, and what the last push returned is the whole message. */
  lemma {:induction false} RunKeepsSound(t: Table, msgs: map<U32, Bytes>, size: nat, arrivals: seq<Arrival>)
    requires Sendable(msgs, size) && t.entries == map[]
    requires AllSent(arrivals, msgs, size) && PushedOnce(arrivals)
    ensures TableSound(Run(t, arrivals).table, msgs, size, FramesIn(arrivals))
    ensures |arrivals| > 0 ==> OutputSound(Run(t, arrivals).outs, msgs, size, arrivals)
  {
    if |arrivals| > 0 {
      var m := |arrivals| - 1;
      RunKeepsSound(t, msgs, size, arrivals[..m]);
      FramesInMembers(arrivals[..m], arrivals[m].frame);
      PushKeepsSound(Run(t, arrivals[..m]).table, msgs, size, FramesIn(arrivals[..m]), arrivals[m]);
    }
  }

  ghost predicate OutputSound(outs: seq<Option<Bytes>>, msgs: map<U32, Bytes>, size: nat, arrivals: seq<Arrival>)
    requires Sendable(msgs, size) && AllSent(arrivals, msgs, size) && |outs| == |arrivals| > 0
  {
    var m := |arrivals| - 1;
    var n := NumberOf(arrivals[m].frame);
    outs[m].Some? ==> outs[m].value == msgs[n] && AllArrived(n, msgs[n], size, FramesIn(arrivals))
  }

  lemma EachOutputSound(t: Table, msgs: map<U32, Bytes>, size: nat, arrivals: seq<Arrival>, k: nat)
    requires Sendable(msgs, size) && t.entries == map[]
    requires AllSent(arrivals, msgs, size) && PushedOnce(arrivals)
    requires k < |arrivals| && Run(t, arrivals).outs[k].Some?
    ensures var n := NumberOf(arrivals[k].frame);
            && Run(t, arrivals).outs[k].value == msgs[n]
            && AllArrived(n, msgs[n], size, FramesIn(arrivals[..k + 1]))
  {
    hide Run, Numberable, IsFrameOf, AllArrived;
    RunKeepsSound(t, msgs, size, arrivals[..k + 1]);
    RunPrefix(t, arrivals, k + 1);
  }

  /**
   Reassembly safety. Whatever the order, interleaving, loss and expiry, a buffer that is given
   each frame at most once returns only sent messages, byte for byte, and each at most once.
   */
  lemma ReassemblySafety(t: Table, msgs: map<U32, Bytes>, size: nat, arrivals: seq<Arrival>)
    requires Sendable(msgs, size) && t.entries == map[]
    requires AllSent(arrivals, msgs, size) && PushedOnce(arrivals)
    ensures var outs := Run(t, arrivals).outs;
            && (forall k :: 0 <= k < |arrivals| && outs[k].Some? ==>
                  outs[k].value == msgs[NumberOf(arrivals[k].frame)])
            && (forall j, k :: 0 <= j < k < |arrivals| && outs[j].Some? && outs[k].Some? ==>
                  NumberOf(arrivals[j].frame) != NumberOf(arrivals[k].frame))
  {
    var outs := Run(t, arrivals).outs;
    forall k | 0 <= k < |arrivals| && outs[k].Some?
      ensures outs[k].value == msgs[NumberOf(arrivals[k].frame)]
    {
      EachOutputSound(t, msgs, size, arrivals, k);
    }
    forall j, k | 0 <= j < k < |arrivals| && outs[j].Some? && outs[k].Some?
      ensures NumberOf(arrivals[j].frame) != NumberOf(arrivals[k].frame)
    {
      CompletedIsClosed(t, msgs, size, arrivals, j, k);
    }
  }

  /** Once a message has been returned no frame of it can arrive any more. */
  lemma CompletedIsClosed(t: Table, msgs: map<U32, Bytes>, size: nat, arrivals: seq<Arrival>, j: nat, k: nat)
    requires Sendable(msgs, size) && t.entries == map[]
    requires AllSent(arrivals, msgs, size) && PushedOnce(arrivals)
    requires j < k < |arrivals| && Run(t, arrivals).outs[j].Some?
    ensures NumberOf(arrivals[j].frame) != NumberOf(arrivals[k].frame)
  {
    EachOutputSound(t, msgs, size, arrivals, j);
    var n, f := NumberOf(arrivals[j].frame), arrivals[k].frame;
    FramesInMembers(arrivals[..j + 1], f);
    if NumberOf(f) == n {
      assert false;
    }
  }

  /** The one frame of an empty message is too short for the buffer to look at. */
  lemma EmptyMessageIsDropped(t: Table, n: U32, size: nat, now: int, later: int)
    requires size > 0
    ensures |Frames(n, size, [])| == 1
    ensures PushStep(t, Frames(n, size, [])[0], now, later) == Pushed(t, None)
  {
    FramesCarryTheMessage(n, size, []);
    HeaderRoundTrip(n, 0, 0, []);
  }

  // ---------------------------------------------------------------- how old an entry can get

  /** The clock never runs backwards, from the buffer's last check on. */
  ghost predicate ClockRuns(t: Table, arrivals: seq<Arrival>) {
    && (forall i :: 0 <= i < |arrivals| ==> t.checkedAt <= arrivals[i].now <= arrivals[i].later)
    && (forall i, j :: 0 <= i < j < |arrivals| ==> arrivals[i].later <= arrivals[j].now)
  }

  /** Entries were young when the buffer last checked. */
  ghost predicate CheckedYoung(t: Table) {
    forall n :: n in t.entries ==> t.checkedAt - t.entries[n].at <= t.expire
  }

  lemma PushChecksYoung(t: Table, a: Arrival)
    requires CheckedYoung(t) && t.checkedAt <= a.now <= a.later
    ensures var u := PushStep(t, a.frame, a.now, a.later).table;
            CheckedYoung(u) && u.expire == t.expire && u.checkedAt <= a.now
  {
    hide Joined, NumberOf, LastOf;
  }

  lemma {:induction false} RunChecksYoung(t: Table, arrivals: seq<Arrival>)
    requires CheckedYoung(t) && ClockRuns(t, arrivals)
    ensures var u := Run(t, arrivals).table;
            && CheckedYoung(u) && u.expire == t.expire
            && u.checkedAt <= if |arrivals| == 0 then t.checkedAt else arrivals[|arrivals| - 1].now
  {
    if |arrivals| > 0 {
      var before, a := arrivals[..|arrivals| - 1], arrivals[|arrivals| - 1];
      RunChecksYoung(t, before);
      PushChecksYoung(Run(t, before).table, a);
      hide PushStep, CheckedYoung;
    }
  }

  /** No push works with an entry older than twice the expiry period, although it is swept at most once a period. */
  lemma EntriesAreYoung(t: Table, arrivals: seq<Arrival>, k: nat, n: U32)
    requires t.entries == map[] && ClockRuns(t, arrivals) && k < |arrivals|
    requires n in Sweep(Run(t, arrivals[..k]).table, arrivals[k].now).entries
    ensures arrivals[k].now - Sweep(Run(t, arrivals[..k]).table, arrivals[k].now).entries[n].at <= 2 * t.expire
  {
    RunChecksYoung(t, arrivals[..k]);
  }

  // ---------------------------------------------------------------- the frames of one message

  predicate IsFor(n: U32, a: Arrival) {
    |a.frame| >= 9 && NumberOf(a.frame) == n
  }

  /** The arrived frames that claim number `n`, in order of arrival. */
  function FramesFor(n: U32, arrivals: seq<Arrival>): seq<Frame> {
    if |arrivals| == 0 then []
    else
      var rest, a := FramesFor(n, arrivals[..|arrivals| - 1]), arrivals[|arrivals| - 1];
      if IsFor(n, a) then rest + [a.frame] else rest
  }

  /** The frames for `n` are all of the message's frames, each once, in some order. */
  ghost predicate ArrivesWhole(n: U32, data: Bytes, size: nat, arrivals: seq<Arrival>)
    requires Numberable(size, data)
  {
    && |FramesFor(n, arrivals)| == |Frames(n, size, data)|
    && Distinct(FramesFor(n, arrivals))
    && forall f :: f in FramesFor(n, arrivals) ==> IsFrameOf(f, n, size, data)
  }

  lemma FramesForAt(n: U32, arrivals: seq<Arrival>, k: nat)
    requires k < |arrivals|
    ensures FramesFor(n, arrivals[..k + 1]) ==
              FramesFor(n, arrivals[..k]) + if IsFor(n, arrivals[k]) then [arrivals[k].frame] else []
  {
    assert arrivals[..k + 1][..k] == arrivals[..k];
  }

  lemma {:induction false} FramesForPrefix(n: U32, arrivals: seq<Arrival>, k: nat)
    requires k <= |arrivals|
    ensures |FramesFor(n, arrivals[..k])| <= |FramesFor(n, arrivals)|
    ensures FramesFor(n, arrivals[..k]) == FramesFor(n, arrivals)[..|FramesFor(n, arrivals[..k])|]
  {
    if k < |arrivals| {
      FramesForPrefix(n, arrivals[..|arrivals| - 1], k);
      assert arrivals[..|arrivals| - 1][..k] == arrivals[..k];
    } else {
      assert arrivals[..k] == arrivals;
    }
  }

  lemma {:induction false} SomeFrameLeft(n: U32, arrivals: seq<Arrival>, k: nat) returns (j: nat)
    requires k < |arrivals| && |FramesFor(n, arrivals[..k])| < |FramesFor(n, arrivals)|
    ensures k <= j < |arrivals| && IsFor(n, arrivals[j])
  {
    var m := |arrivals| - 1;
    if IsFor(n, arrivals[m]) {
      j := m;
    } else {
      assert arrivals[..m][..k] == arrivals[..k];
      assert k < m;
      j := SomeFrameLeft(n, arrivals[..m], k);
    }
  }

  lemma {:induction false} NoFrameLeft(n: U32, arrivals: seq<Arrival>, k: nat, j: nat)
    requires k <= j < |arrivals| && IsFor(n, arrivals[j])
    ensures |FramesFor(n, arrivals[..k])| < |FramesFor(n, arrivals)|
  {
    FramesForPrefix(n, arrivals[..j], k);
    FramesForPrefix(n, arrivals, j + 1);
    assert arrivals[..j][..k] == arrivals[..k];
    assert arrivals[..j + 1][..j] == arrivals[..j];
  }

  /** A push at `now` does not drop the entry: no check is due, or the entry is not too old. */
  predicate Spares(t: Table, e: Entry, now: int) {
    now - t.checkedAt > t.expire ==> now - e.at <= t.expire
  }

  /** A push that is not for `n` leaves its entry alone, unless the sweep drops it. */
  lemma OtherPush(t: Table, n: U32, a: Arrival)
    requires !IsFor(n, a)
    requires n in t.entries ==> Spares(t, t.entries[n], a.now)
    ensures var t' := PushStep(t, a.frame, a.now, a.later).table;
            && t'.expire == t.expire
            && (n in t'.entries <==> n in t.entries)
            && (n in t.entries ==> t'.entries[n] == t.entries[n])
  {
  }

  /** `got` are the message's frames pushed so far, and the table remembers them. */
  ghost predicate Holds(t: Table, n: U32, needed: nat, got: seq<Frame>, now: int) {
    if needed == 1 || |got| == 0 then
      n !in t.entries
    else
      n in t.entries && t.entries[n].needed == needed && t.entries[n].frames == got && Spares(t, t.entries[n], now)
  }

  /** A further frame, but not the last: nothing is returned and the table remembers it too. */
  lemma EarlyPush(t: Table, n: U32, needed: nat, got: seq<Frame>, a: Arrival)
    requires IsFor(n, a) && LastOf(a.frame) + 1 == needed && |got| + 1 < needed
    requires Holds(t, n, needed, got, a.now)
    ensures var p := PushStep(t, a.frame, a.now, a.later);
            && p.table.expire == t.expire && p.out == None
            && n in p.table.entries
            && p.table.entries[n] == Entry(if |got| == 0 then a.later else t.entries[n].at, needed, got + [a.frame])
  {
  }

  /** The last missing frame. */
  lemma LastPush(t: Table, n: U32, got: seq<Frame>, a: Arrival)
    requires IsFor(n, a) && LastOf(a.frame) == |got| && Holds(t, n, |got| + 1, got, a.now)
    ensures var p := PushStep(t, a.frame, a.now, a.later);
            && p.table.expire == t.expire && n !in p.table.entries
            && p.out == Some(if |got| == 0 then PayloadOf(a.frame) else Joined(got + [a.frame]))
  {
  }

  lemma LastRestoresMessage(n: U32, size: nat, data: Bytes, fs: seq<Frame>)
    requires Numberable(size, data) && 0 < |fs| == |Frames(n, size, data)|
    requires Distinct(fs) && forall f :: f in fs ==> IsFrameOf(f, n, size, data)
    ensures data == if |fs| == 1 then PayloadOf(fs[0]) else Joined(fs)
  {
    if |fs| == 1 {
      LastOfFrame(fs[0], n, size, data);
      SingleFrame(n, size, data, fs[0], {});
    } else {
      JoinRestoresMessage(fs, n, size, data);
    }
  }

  lemma LastOfFrame(f: Bytes, n: U32, size: nat, data: Bytes)
    requires Numberable(size, data) && IsFrameOf(f, n, size, data)
    ensures LastOf(f) + 1 == |Frames(n, size, data)|
  {
    FramesCarryTheMessage(n, size, data);
  }

  // ---------------------------------------------------------------- splitter to buffer

  predicate Splittable(ms: seq<Bytes>, size: nat) {
    forall i :: 0 <= i < |ms| ==> |ms[i]| > 0 && Numberable(size, ms[i])
  }

  /** The queue after splitting the messages in turn, from a splitter whose counter is `start`. */
  function Queued(start: U32, size: nat, ms: seq<Bytes>): seq<Bytes>
    requires Splittable(ms, size)
  {
    if |ms| == 0 then []
    else Queued(start, size, ms[..|ms| - 1]) + Frames(Wrap(start + |ms| - 1), size, ms[|ms| - 1])
  }

  /** The messages under the numbers the splitter's counter gives them. */
  function Numbered(start: U32, ms: seq<Bytes>): map<U32, Bytes> {
    if |ms| == 0 then map[]
    else Numbered(start, ms[..|ms| - 1])[Wrap(start + |ms| - 1) := ms[|ms| - 1]]
  }

  lemma {:induction false} NumberedKeys(start: U32, ms: seq<Bytes>, n: U32)
    requires |ms| <= U32_LIMIT
    ensures n in Numbered(start, ms) <==> Offset(start, n) < |ms|
    ensures n in Numbered(start, ms) ==> Numbered(start, ms)[n] == ms[Offset(start, n)]
  {
    if |ms| > 0 {
      NumberedKeys(start, ms[..|ms| - 1], n);
      OffsetOfWrap(start, |ms| - 1);
      WrapOfOffset(start, n);
    }
  }

  lemma NumberedIsSendable(start: U32, size: nat, ms: seq<Bytes>)
    requires |ms| <= U32_LIMIT
    requires Splittable(ms, size)
    ensures Sendable(Numbered(start, ms), size)
  {
    forall n | n in Numbered(start, ms)
      ensures |Numbered(start, ms)[n]| > 0 && Numberable(size, Numbered(start, ms)[n])
    {
      NumberedKeys(start, ms, n);
    }
  }

  lemma OwnFrames(n: U32, size: nat, data: Bytes)
    requires |data| > 0 && Numberable(size, data)
    ensures Distinct(Frames(n, size, data))
    ensures forall f :: f in Frames(n, size, data) ==> IsFrameOf(f, n, size, data)
  {
    FramesCarryTheMessage(n, size, data);
    var fs := Frames(n, size, data);
    forall i, j | 0 <= i < j < |fs|
      ensures fs[i] != fs[j]
    {
      assert IndexOf(fs[i]) == i && IndexOf(fs[j]) == j;
    }
  }

  /** A further message under a new number, and its frames. */
  lemma OneMoreSent(queue: seq<Bytes>, msgs: map<U32, Bytes>, size: nat, n: U32, data: Bytes)
    requires Sendable(msgs, size) && n !in msgs && |data| > 0 && Numberable(size, data)
    requires Distinct(queue) && forall f :: f in queue ==> WasSent(f, msgs, size)
    ensures Sendable(msgs[n := data], size)
    ensures Distinct(queue + Frames(n, size, data))
    ensures forall f :: f in queue + Frames(n, size, data) ==> WasSent(f, msgs[n := data], size)
  {
    OwnFrames(n, size, data);
    hide Frames, Numberable, NumberOf;
    DistinctConcat(queue, Frames(n, size, data));
  }

  /**
   What a splitter queues for up to 2^32 non-empty messages meets the assumptions of
   `ReassemblySafety`: the numbers tell the messages apart, and no two frames are equal.
   */
  lemma {:induction false} QueueIsSound(start: U32, size: nat, ms: seq<Bytes>)
    requires |ms| <= U32_LIMIT && Splittable(ms, size)
    ensures Sendable(Numbered(start, ms), size)
    ensures forall f :: f in Queued(start, size, ms) ==> WasSent(f, Numbered(start, ms), size)
    ensures Distinct(Queued(start, size, ms))
  {
    hide Frames, Numberable, WasSent, Sendable, Wrap, Offset;
    NumberedIsSendable(start, size, ms);
    if |ms| > 0 {
      var m := |ms| - 1;
      QueueIsSound(start, size, ms[..m]);
      OffsetOfWrap(start, m);
      NumberedKeys(start, ms[..m], Wrap(start + m));
      OneMoreSent(Queued(start, size, ms[..m]), Numbered(start, ms[..m]), size, Wrap(start + m), ms[m]);
    }
  }

  lemma DistinctConcat(a: seq<Bytes>, b: seq<Bytes>)
    requires Distinct(a) && Distinct(b) && forall x, y :: x in a && y in b ==> x != y
    ensures Distinct(a + b)
  {
    var c := a + b;
    forall i, j | 0 <= i < j < |c|
      ensures c[i] != c[j]
    {
      if i < |a| <= j {
        assert a[i] in a && b[j - |a|] in b;
      }
    }
  }

  /** From splitter to application: whatever the channel does with the frames queued, the buffer returns messages split. */
  lemma ChannelIsSafe(t: Table, start: U32, size: nat, ms: seq<Bytes>, arrivals: seq<Arrival>)
    requires |ms| <= U32_LIMIT && Splittable(ms, size) && t.entries == map[]
    requires PushedOnce(arrivals) && forall i :: 0 <= i < |arrivals| ==> arrivals[i].frame in Queued(start, size, ms)
    ensures var outs := Run(t, arrivals).outs;
            && (forall k :: 0 <= k < |arrivals| && outs[k].Some? ==>
                  (|arrivals[k].frame| >= 9
                  && Offset(start, NumberOf(arrivals[k].frame)) < |ms|
                  && outs[k].value == ms[Offset(start, NumberOf(arrivals[k].frame))]))
            && (forall j, k :: 0 <= j < k < |arrivals| && outs[j].Some? && outs[k].Some? ==>
                  NumberOf(arrivals[j].frame) != NumberOf(arrivals[k].frame))
  {
    var msgs, outs := Numbered(start, ms), Run(t, arrivals).outs;
    QueueIsSound(start, size, ms);
    ReassemblySafety(t, msgs, size, arrivals);
    hide Run, Numbered, Queued, Offset, Sendable;
    forall k | 0 <= k < |arrivals|
      ensures |arrivals[k].frame| >= 9 && Offset(start, NumberOf(arrivals[k].frame)) < |ms|
      ensures msgs[NumberOf(arrivals[k].frame)] == ms[Offset(start, NumberOf(arrivals[k].frame))]
    {
      assert WasSent(arrivals[k].frame, msgs, size);
      NumberedKeys(start, ms, NumberOf(arrivals[k].frame));
    }
  }
}

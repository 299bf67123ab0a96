/**
 Fragmentation of messages into datagram frames and their reassembly over a channel
 that may reorder, interleave, delay and lose frames (src/transport/datagram.rs).
 */
module Datagram {
  import opened Base

  const HEADER_SIZE := 8

  /** What a frame buffer keeps: anything at least nine bytes long. */
  type Frame = f: Bytes | |f| >= 9 witness [0, 0, 0, 0, 0, 0, 0, 0, 0]

  // ---------------------------------------------------------------- frame layout

  function PutU16(x: U16): Bytes {
    [x / 256, x % 256]
  }

  function PutU32(x: U32): Bytes {
    [x / 0x100_0000, x / 0x1_0000 % 256, x / 256 % 256, x % 256]
  }

  function ReadU16(b: Bytes): U16
    requires |b| == 2
  {
    b[0] as int * 256 + b[1]
  }

  function ReadU32(b: Bytes): U32
    requires |b| == 4
  {
    b[0] as int * 0x100_0000 + b[1] as int * 0x1_0000 + b[2] as int * 256 + b[3]
  }

  function FrameOf(number: U32, last: U16, index: U16, payload: Bytes): Bytes {
    PutU32(number) + PutU16(last) + PutU16(index) + payload
  }

  function NumberOf(frame: Bytes): U32
    requires |frame| >= HEADER_SIZE
  {
    ReadU32(frame[0..4])
  }

  function LastOf(frame: Bytes): U16
    requires |frame| >= HEADER_SIZE
  {
    ReadU16(frame[4..6])
  }

  function IndexOf(frame: Bytes): U16
    requires |frame| >= HEADER_SIZE
  {
    ReadU16(frame[6..8])
  }

  function PayloadOf(frame: Bytes): Bytes
    requires |frame| >= HEADER_SIZE
  {
    frame[8..]
  }

  lemma U16RoundTrip(x: U16)
    ensures ReadU16(PutU16(x)) == x
  {
  }

  lemma TwoBytesMore(x: nat)
    ensures x / 0x1_0000 == x / 256 / 256
  {
  }

  lemma ThreeBytesMore(x: nat)
    ensures x / 0x100_0000 == x / 0x1_0000 / 256
  {
  }

  lemma U32RoundTrip(x: U32)
    ensures ReadU32(PutU32(x)) == x
  {
    TwoBytesMore(x);
    ThreeBytesMore(x);
    assert x == x / 256 * 256 + x % 256;
    var a, b := x / 256, x / 0x1_0000;
    assert a == b * 256 + a % 256 && b == x / 0x100_0000 * 256 + b % 256;
  }

  lemma HeaderRoundTrip(number: U32, last: U16, index: U16, payload: Bytes)
    ensures var f := FrameOf(number, last, index, payload);
            && |f| == HEADER_SIZE + |payload|
            && NumberOf(f) == number && LastOf(f) == last
            && IndexOf(f) == index && PayloadOf(f) == payload
  {
    var f := FrameOf(number, last, index, payload);
    var a, b, c := PutU32(number), PutU16(last), PutU16(index);
    U32RoundTrip(number);
    U16RoundTrip(last);
    U16RoundTrip(index);
    Fields(a, b, c, payload);
    assert f == a + b + c + payload;
  }

  lemma Fields(a: Bytes, b: Bytes, c: Bytes, payload: Bytes)
    requires |a| == 4 && |b| == 2 && |c| == 2
    ensures var f := a + b + c + payload;
            f[0..4] == a && f[4..6] == b && f[6..8] == c && f[8..] == payload
  {
  }

  // ---------------------------------------------------------------- splitting

  /** The segments of a message: full ones, then whatever is left; one empty segment for no data. */
  function Segments(data: Bytes, size: nat): (segments: seq<Bytes>)
    requires size > 0
    ensures |segments| > 0
  {
    if |data| <= size then [data] else [data[..size]] + Segments(data[size..], size)
  }

  /** Messages a splitter with this segment size accepts. */
  predicate Accepted(size: nat, data: Bytes) {
    size > 0 && |data| < size * (U16_LIMIT - 1)
  }

  /** Messages whose segments can be numbered by the two u16 header fields. */
  predicate Numberable(size: nat, data: Bytes) {
    size > 0 && |Segments(data, size)| < U16_LIMIT
  }

  /** All frames of one message, in the order the splitter queues them. */
  function Frames(number: U32, size: nat, data: Bytes): (frames: seq<Bytes>)
    requires Numberable(size, data)
  {
    var segments := Segments(data, size);
    seq(|segments|, i requires 0 <= i < |segments| => FrameOf(number, |segments| - 1, i, segments[i]))
  }

  function Payloads(frames: seq<Bytes>): seq<Bytes>
    requires forall f :: f in frames ==> |f| >= HEADER_SIZE
  {
    seq(|frames|, i requires 0 <= i < |frames| => PayloadOf(frames[i]))
  }

  lemma {:induction false} FlattenCons(head: Bytes, tail: seq<Bytes>)
    ensures Flatten([head] + tail) == head + Flatten(tail)
  {
    if |tail| == 0 {
      assert ([head] + tail)[..0] == [];
    } else {
      FlattenCons(head, tail[..|tail| - 1]);
      assert ([head] + tail)[..|tail|] == [head] + tail[..|tail| - 1];
    }
  }

  lemma {:induction false} SegmentsCarryTheData(data: Bytes, size: nat)
    requires size > 0
    ensures Flatten(Segments(data, size)) == data
    ensures forall i {:trigger Segments(data, size)[i]} :: 0 <= i < |Segments(data, size)| ==>
              |Segments(data, size)[i]| <= size && (|data| > 0 ==> |Segments(data, size)[i]| > 0)
    decreases |data|
  {
    if |data| <= size {
      assert Flatten([data]) == Flatten([]) + data;
    } else {
      var rest := Segments(data[size..], size);
      SegmentsCarryTheData(data[size..], size);
      FlattenCons(data[..size], rest);
      assert data[..size] + data[size..] == data;
      assert forall i :: 0 < i < |rest| + 1 ==> Segments(data, size)[i] == rest[i - 1];
    }
  }

  /** All segments but the last are full. */
  lemma {:induction false} SegmentsAreFull(data: Bytes, size: nat, i: nat)
    requires size > 0 && i + 1 < |Segments(data, size)|
    ensures |Segments(data, size)[i]| == size
    decreases |data|
  {
    if i > 0 {
      SegmentsAreFull(data[size..], size, i - 1);
    }
  }

  /** The splitter's index of the last segment, computed from the length alone. */
  function LastSegment(len: nat, size: nat): nat
    requires size > 0
  {
    var q := len / size;
    if len % size == 0 && q > 0 then q - 1 else q
  }

  lemma DivMod(x: nat, d: nat)
    requires d > 0
    ensures x == x / d * d + x % d && 0 <= x % d < d
  {
  }

  lemma Times(a: int, b: int, d: int)
    ensures (a + b) * d == a * d + b * d
  {
  }

  lemma LessTimes(a: int, b: int, d: nat)
    requires a <= b
    ensures a * d <= b * d
  {
    Times(a, b - a, d);
    assert (b - a) * d >= 0;
  }

  lemma DivUnique(x: nat, d: nat, q: nat, r: nat)
    requires d > 0 && r < d && x == q * d + r
    ensures x / d == q && x % d == r
  {
    DivMod(x, d);
    QuotientUnique(d, q, r, x / d, x % d);
  }

  lemma QuotientUnique(d: nat, q: nat, r: nat, q': nat, r': nat)
    requires r < d && r' < d && q * d + r == q' * d + r'
    ensures q == q' && r == r'
  {
    if q < q' {
      LessTimes(q + 1, q', d);
      Times(q, 1, d);
    } else if q' < q {
      LessTimes(q' + 1, q, d);
      Times(q', 1, d);
    }
  }

  lemma LastSegmentOfRest(len: nat, size: nat)
    requires 0 < size < len
    ensures LastSegment(len, size) == LastSegment(len - size, size) + 1
  {
    DivMod(len, size);
    Times(len / size, -1, size);
    DivUnique(len - size, size, len / size - 1, len % size);
  }

  lemma FewSegments(data: Bytes, size: nat)
    requires size > 0 && |data| <= size
    ensures LastSegment(|data|, size) == 0 && SliceIs(data, size, 0, data)
  {
    if |data| == size {
      DivUnique(size, size, 1, 0);
    } else {
      DivUnique(|data|, size, 0, |data|);
    }
  }

  lemma FirstSlice(data: Bytes, size: nat)
    requires 0 < size < |data|
    ensures SliceIs(data, size, 0, data[..size])
  {
    LastSegmentOfRest(|data|, size);
    hide LastSegment;
  }

  /** The division the splitter performs counts the segments, and slicing by index cuts them out. */
  lemma {:induction false} SlicesAreSegments(data: Bytes, size: nat)
    requires size > 0
    ensures |Segments(data, size)| == LastSegment(|data|, size) + 1
    ensures forall i {:trigger Segments(data, size)[i]} :: 0 <= i < |Segments(data, size)| ==>
              SliceIs(data, size, i, Segments(data, size)[i])
    decreases |data|
  {
    hide LastSegment, SliceIs;
    if |data| <= size {
      FewSegments(data, size);
    } else {
      var rest := data[size..];
      SlicesAreSegments(rest, size);
      LastSegmentOfRest(|data|, size);
      FirstSlice(data, size);
      forall i | 0 < i < |Segments(data, size)|
        ensures SliceIs(data, size, i, Segments(data, size)[i])
      {
        SliceOfRest(data, size, i, Segments(rest, size)[i - 1]);
      }
    }
  }

  /** The i-th slice the splitter takes: up to the end for the last one, `size` bytes otherwise. */
  predicate SliceIs(data: Bytes, size: nat, i: nat, slice: Bytes)
    requires size > 0
  {
    var from, to := i * size, (i + 1) * size;
    && from <= |data|
    && (i < LastSegment(|data|, size) ==> to <= |data| && slice == data[from..to])
    && (i == LastSegment(|data|, size) ==> slice == data[from..])
  }

  lemma SliceOfRest(data: Bytes, size: nat, i: nat, slice: Bytes)
    requires 0 < size < |data| && i > 0 && SliceIs(data[size..], size, i - 1, slice)
    ensures SliceIs(data, size, i, slice)
  {
    LastSegmentOfRest(|data|, size);
    hide LastSegment;
    var from, to := (i - 1) * size, i * size;
    Times(i - 1, 1, size);
    Times(i, 1, size);
    if i < LastSegment(|data|, size) {
      assert data[size..][from..to] == data[from + size..to + size];
    } else {
      assert data[size..][from..] == data[from + size..];
    }
  }

  /** An accepted message has max(1, ceil(len / size)) segments, and their indices fit a u16. */
  lemma AcceptedIsNumberable(size: nat, data: Bytes)
    requires Accepted(size, data)
    ensures Numberable(size, data)
    ensures |Segments(data, size)| == if |data| == 0 then 1 else (|data| + size - 1) / size
  {
    SlicesAreSegments(data, size);
    var q, r := |data| / size, |data| % size;
    DivMod(|data|, size);
    if q >= U16_LIMIT - 1 {
      LessTimes(U16_LIMIT - 1, q, size);
    }
    if |data| > 0 {
      CeilingCount(|data|, size);
    } else {
      DivUnique(0, size, 0, 0);
    }
  }

  /** The segments can be numbered exactly up to a certain length, and the splitter accepts all those messages but the longest. */
  lemma NumberableIff(size: nat, data: Bytes)
    requires size > 0
    ensures Numberable(size, data) <==> |data| <= size * (U16_LIMIT - 1)
    ensures Accepted(size, data) <==> Numberable(size, data) && |data| != size * (U16_LIMIT - 1)
  {
    SlicesAreSegments(data, size);
    var q, r, most := |data| / size, |data| % size, U16_LIMIT - 1;
    DivMod(|data|, size);
    if q < most {
      LessTimes(q + 1, most, size);
      Times(q, 1, size);
    } else {
      LessTimes(most, q, size);
      if q > most {
        LessTimes(most + 1, q, size);
        Times(most, 1, size);
      }
    }
  }

  lemma CeilingCount(len: nat, size: nat)
    requires size > 0 && len > 0
    ensures LastSegment(len, size) + 1 == (len + size - 1) / size
  {
    var q, r := len / size, len % size;
    DivMod(len, size);
    if r == 0 {
      DivUnique(len + size - 1, size, q, size - 1);
    } else {
      Times(q, 1, size);
      DivUnique(len + size - 1, size, q + 1, r - 1);
    }
  }

  /**
   What a receiver can rely on: the frames fit the datagram size, carry the message's number and
   their own index, concatenate to the message, and, unless the message is empty, none of
   them is short enough for the receiver to discard.
   */
  lemma FramesCarryTheMessage(number: U32, size: nat, data: Bytes)
    requires Numberable(size, data)
    ensures var fs := Frames(number, size, data);
            && (forall i :: 0 <= i < |fs| ==>
                  && HEADER_SIZE <= |fs[i]| <= HEADER_SIZE + size
                  && (|data| > 0 ==> |fs[i]| >= 9)
                  && NumberOf(fs[i]) == number && LastOf(fs[i]) == |fs| - 1 && IndexOf(fs[i]) == i)
            && Flatten(Payloads(fs)) == data
  {
    hide Segments, FrameOf, NumberOf, LastOf, IndexOf, PayloadOf, Flatten;
    var segments := Segments(data, size);
    var fs := Frames(number, size, data);
    SegmentsCarryTheData(data, size);
    forall i | 0 <= i < |fs|
      ensures && HEADER_SIZE <= |fs[i]| <= HEADER_SIZE + size
              && (|data| > 0 ==> |fs[i]| >= 9)
              && NumberOf(fs[i]) == number && LastOf(fs[i]) == |fs| - 1 && IndexOf(fs[i]) == i
              && PayloadOf(fs[i]) == segments[i]
    {
      HeaderRoundTrip(number, |segments| - 1, i, segments[i]);
      assert segments[i] in segments;
    }
    assert Payloads(fs) == segments;
  }

  /** The caller's queue of outgoing frames. */
  class FrameQueue {
    var items: seq<Bytes>

    constructor ()
      ensures items == []
    {
      items := [];
    }
  }

  class Splitter {
    var sequenceNumber: U32
    const maxSegmentSize: nat
    const maxMessageSize: nat

    constructor (maxDatagramSize: nat)
      requires maxDatagramSize > HEADER_SIZE
      ensures sequenceNumber == 0 && maxSegmentSize == maxDatagramSize - HEADER_SIZE && Valid()
    {
      sequenceNumber := 0;
      maxSegmentSize := maxDatagramSize - HEADER_SIZE;
      maxMessageSize := (maxDatagramSize - HEADER_SIZE) * (U16_LIMIT - 1);
    }

    ghost predicate Valid() {
      maxSegmentSize > 0 && maxMessageSize == maxSegmentSize * (U16_LIMIT - 1)
    }

    method Split(data: Bytes, frames: FrameQueue) returns (ok: bool)
      requires Valid()
      modifies this`sequenceNumber, frames
      ensures ok <==> Accepted(maxSegmentSize, data)
      ensures !ok ==> sequenceNumber == old(sequenceNumber) && frames.items == old(frames.items)
      ensures ok ==> sequenceNumber == Wrap(old(sequenceNumber) + 1)
      ensures ok ==> Numberable(maxSegmentSize, data)
      ensures ok ==> frames.items == old(frames.items) + Frames(old(sequenceNumber), maxSegmentSize, data)
    {
      hide Segments, FrameOf, LastSegment;
      if |data| >= maxMessageSize {
        return false;
      }
      var number := sequenceNumber;
      sequenceNumber := Wrap(sequenceNumber + 1);

      AcceptedIsNumberable(maxSegmentSize, data);
      var last := LastIndex(data, maxSegmentSize);
      var last16: U16 := last;
      ghost var segments := Segments(data, maxSegmentSize);
      ghost var all := Frames(number, maxSegmentSize, data);

      for i := 0 to last + 1
        invariant sequenceNumber == Wrap(number as int + 1)
        invariant frames.items == old(frames.items) + all[..i]
      {
        var segment := CutSegment(data, maxSegmentSize, i, last);
        var index: U16 := i % U16_LIMIT;
        assert index == i;
        var frame := FrameOf(number, last16, index, segment);
        assert frame == all[i];
        assert all[..i + 1] == all[..i] + [frame];
        frames.items := frames.items + [frame];
      }
      return true;
    }
  }

  /** The splitter's division. */
  method LastIndex(data: Bytes, size: nat) returns (last: nat)
    requires size > 0
    ensures last + 1 == |Segments(data, size)|
  {
    SlicesAreSegments(data, size);
    var q := |data| / size;
    last := if |data| % size == 0 && q > 0 then q - 1 else q;
  }

  /** The splitter's slicing. */
  method CutSegment(data: Bytes, size: nat, i: nat, last: nat) returns (segment: Bytes)
    requires size > 0 && last + 1 == |Segments(data, size)| && i <= last
    ensures segment == Segments(data, size)[i]
  {
    SlicesAreSegments(data, size);
    assert SliceIs(data, size, i, Segments(data, size)[i]);
    segment := if i == last then data[i * size..] else data[i * size..(i + 1) * size];
  }
}

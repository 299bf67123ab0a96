/** The sliding dictionary of context-takeover compression (src/transport/compression.rs). */
module Dictionary {
  import opened Base

  function Pow2(n: nat): nat {
    if n == 0 then 1 else 2 * Pow2(n - 1)
  }

  /** The last `size` bytes, or all of them if there are fewer. */
  function Window(size: nat, s: Bytes): Bytes {
    if |s| <= size then s else s[|s| - size..]
  }

  class DictionaryBuffer {
    const size: nat
    const buf: array<Byte>
    var len: nat

    ghost predicate Valid()
      reads this
    {
      len <= size && buf.Length == 2 * size
    }

    ghost function Contents(): Bytes
      requires Valid()
      reads this, buf
    {
      buf[..len]
    }

    constructor (windowBits: nat)
      requires 9 <= windowBits <= 15
      ensures Valid() && fresh(buf) && size == Pow2(windowBits) && Contents() == []
    {
      var n := 2 * Pow2(windowBits - 1);
      size := n;
      buf := new Byte[2 * n](_ => 0);
      len := 0;
    }

    /** `extend_from_slice`, within the capacity reserved at construction. */
    method Extend(msg: Bytes)
      requires len + |msg| <= buf.Length
      modifies this`len, buf
      ensures len == old(len) + |msg|
      ensures buf[..len] == old(buf[..len]) + msg
    {
      for i := 0 to |msg|
        invariant len == old(len)
        invariant buf[..len] == old(buf[..len])
        invariant buf[len..len + i] == msg[..i]
      {
        buf[len + i] := msg[i];
        assert buf[len..len + i + 1] == buf[len..len + i] + [msg[i]];
      }
      assert buf[..len + |msg|] == buf[..len] + buf[len..len + |msg|];
      len := len + |msg|;
    }

    /** `copy_within` to the front: the ranges may overlap, so it copies forwards. */
    method CopyToFront(from: nat)
      requires from + size <= buf.Length
      modifies buf
      ensures buf[..size] == old(buf[from..from + size])
    {
      for i := 0 to size
        invariant forall k :: 0 <= k < i ==> buf[k] == old(buf[from + k])
        invariant forall k :: i <= k < buf.Length ==> buf[k] == old(buf[k])
      {
        buf[i] := buf[from + i];
      }
    }

    method PushMsg(msg: Bytes)
      requires Valid()
      modifies this`len, buf
      ensures Valid() && Contents() == Window(size, old(Contents()) + msg)
    {
      ghost var all := Contents() + msg;
      var remaining: nat := size - len;
      if |msg| >= size {
        len := 0;
        Extend(msg[|msg| - size..]);
        assert Contents() == msg[|msg| - size..] == Window(size, all);
      } else if remaining >= |msg| {
        Extend(msg);
      } else {
        Extend(msg);
        var from: nat := len - size;
        assert buf[from..from + size] == buf[..len][from..] == Window(size, all);
        CopyToFront(from);
        len := size;
      }
    }
  }

  /** The dictionary after a sequence of pushes into an empty buffer. */
  function Pushed(size: nat, msgs: seq<Bytes>): Bytes {
    if |msgs| == 0 then [] else Window(size, Pushed(size, msgs[..|msgs| - 1]) + msgs[|msgs| - 1])
  }

  /** What comes before the last `size` bytes does not matter. */
  lemma WindowForgets(size: nat, a: Bytes, b: Bytes)
    requires |b| >= size
    ensures Window(size, a + b) == Window(size, b)
  {
    assert (a + b)[|a + b| - size..] == b[|b| - size..];
  }

  lemma WindowSplits(size: nat, a: Bytes)
    ensures a == a[..|a| - |Window(size, a)|] + Window(size, a) && (Window(size, a) == a || |Window(size, a)| == size)
  {
  }

  lemma WindowOfWindow(size: nat, a: Bytes, b: Bytes)
    ensures Window(size, Window(size, a) + b) == Window(size, a + b)
  {
    hide Window;
    WindowSplits(size, a);
    var w := Window(size, a);
    if |w| == size {
      var lost := a[..|a| - |w|];
      WindowForgets(size, lost, w + b);
      assert lost + w + b == lost + (w + b);
    }
  }

  /**
   The dictionary is a sliding window: whatever was pushed, in whatever pieces, it holds the
   last min(size, total) bytes of everything.
   */
  lemma {:induction false} DictionaryIsSlidingWindow(size: nat, msgs: seq<Bytes>)
    ensures Pushed(size, msgs) == Window(size, Flatten(msgs))
    ensures |Pushed(size, msgs)| == if |Flatten(msgs)| <= size then |Flatten(msgs)| else size
  {
    if |msgs| > 0 {
      var before, last := msgs[..|msgs| - 1], msgs[|msgs| - 1];
      DictionaryIsSlidingWindow(size, before);
      WindowOfWindow(size, Flatten(before), last);
    }
  }
}

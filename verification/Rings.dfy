/**
 Circular buffers. ByteRing is the drop-oldest byte ring that log_buffer.c and adb_logcat.c both
 use; Fifo is the packet queue of adb_protocol.c and adb_usb.c. Both are proved against sequences.
 */
module Rings {
  import opened Bytes

  /** Index arithmetic of the rings: `(a + b) % n` for indices below `n`. */
  function Wrap(x: nat, n: nat): nat
    requires x < 2 * n
  {
    if x < n then x else x - n
  }

  lemma WrapIsMod(x: nat, n: nat)
    requires x < 2 * n
    ensures x % n == Wrap(x, n) < n
  {
    if x >= n {
      assert x == n + (x - n);
    }
  }

  /** The `len` elements of `buf` from `head` on, going round. */
  function Unroll<T>(buf: seq<T>, head: nat, len: nat): (s: seq<T>)
    requires head < |buf| && len <= |buf|
    ensures |s| == len && forall i :: 0 <= i < len ==> s[i] == buf[Wrap(head + i, |buf|)]
  {
    seq(len, i requires 0 <= i < len => buf[Wrap(head + i, |buf|)])
  }

  lemma UnrollDrop<T>(buf: seq<T>, head: nat, len: nat, drop: nat)
    requires head < |buf| && drop <= len <= |buf|
    ensures var h := (head + drop) % |buf|;
            h < |buf| && Unroll(buf, h, len - drop) == Unroll(buf, head, len)[drop..]
  {
    WrapIsMod(head + drop, |buf|);
  }

  /** Writing at the tail in at most two pieces appends. */
  lemma UnrollAppend<T>(buf: seq<T>, head: nat, len: nat, src: seq<T>, tail: nat, first: nat)
    requires head < |buf| && len + |src| <= |buf|
    requires tail == Wrap(head + len, |buf|)
    requires first == if |src| < |buf| - tail then |src| else |buf| - tail
    ensures var mid := Overlay(buf, tail, src[..first]);
            Unroll(Overlay(mid, 0, src[first..]), head, len + |src|) == Unroll(buf, head, len) + src
  {
    var n := |buf|;
    var mid := Overlay(buf, tail, src[..first]);
    var end := Overlay(mid, 0, src[first..]);
    forall i | 0 <= i < len + |src|
      ensures end[Wrap(head + i, n)] == (Unroll(buf, head, len) + src)[i]
    {
      var at := Wrap(head + i, n);
      if i < len {
        assert at < tail || at >= tail + first;
        assert end[at] == buf[at];
      } else {
        assert at == Wrap(tail + (i - len), n);
      }
    }
  }

  /** The last `n` elements, or all of them. */
  function LastN<T>(s: seq<T>, n: nat): seq<T> {
    if |s| <= n then s else s[|s| - n..]
  }

  /** Keeping the last `n` may be done piece by piece. */
  lemma LastNAppend<T>(a: seq<T>, b: seq<T>, n: nat)
    ensures LastN(LastN(a, n) + b, n) == LastN(a + b, n)
  {
  }

  class ByteRing {
    const buffer: array<Byte>
    var head: nat
    var len: nat

    ghost predicate Valid()
      reads this
    {
      0 < buffer.Length && head < buffer.Length && len <= buffer.Length
    }

    ghost function Contents(): seq<Byte>
      requires Valid()
      reads this, buffer
    {
      Unroll(buffer[..], head, len)
    }

    constructor (capacity: nat)
      requires capacity > 0
      ensures Valid() && Contents() == [] && buffer.Length == capacity && fresh(buffer)
    {
      buffer := new Byte[capacity];
      head, len := 0, 0;
    }

    /** log_buffer_clear */
    method Clear()
      requires Valid()
      modifies this
      ensures Valid() && Contents() == []
    {
      head, len := 0, 0;
    }

    /** log_buffer_put and ring_push: the newest bytes stay, the oldest make room. */
    method Push(input: seq<Byte>)
      requires Valid()
      modifies this, buffer
      ensures Valid()
      ensures Contents() == LastN(old(Contents()) + input, buffer.Length)
    {
      var capacity := buffer.Length;
      var data := input;
      ghost var before := Contents();
      if |data| >= capacity {
        data := data[|data| - capacity..];
        head, len := 0, 0;
      }
      if len + |data| > capacity {
        var drop := len + |data| - capacity;
        UnrollDrop(buffer[..], head, len, drop);
        head := (head + drop) % capacity;
        len := len - drop;
      }
      assert Contents() + data == LastN(before + input, capacity);
      Append(data);
    }

    /** The copy of lines 96-102 and 61-67, in at most two pieces. */
    method Append(data: seq<Byte>)
      requires Valid() && len + |data| <= buffer.Length
      modifies this, buffer
      ensures Valid() && Contents() == old(Contents()) + data
    {
      var capacity := buffer.Length;
      WrapIsMod(head + len, capacity);
      var tail := (head + len) % capacity;
      var first := if |data| < capacity - tail then |data| else capacity - tail;
      UnrollAppend(buffer[..], head, len, data, tail, first);
      Copy(buffer, tail, data[..first]);
      Copy(buffer, 0, data[first..]);
      len := len + |data|;
    }

    /** copy_log_locked: the oldest bytes that leave room for a terminator. */
    method Snapshot(size: nat) returns (out: seq<Byte>)
      requires Valid()
      ensures out == Contents()[..if size == 0 then 0 else if len < size - 1 then len else size - 1]
    {
      if size == 0 {
        return [];
      }
      out := Front(if len < size - 1 then len else size - 1);
    }

    /** The oldest `count` bytes, copied in at most two pieces. */
    method Front(count: nat) returns (out: seq<Byte>)
      requires Valid() && count <= len
      ensures out == Contents()[..count]
    {
      var first := if count < buffer.Length - head then count else buffer.Length - head;
      out := buffer[head..head + first];
      if first != count {
        out := out + buffer[..count - first];
      }
    }

    /** The chunk removal of queue_next. */
    method Take(limit: nat) returns (chunk: seq<Byte>)
      requires Valid()
      modifies this
      ensures Valid()
      ensures |chunk| == if |old(Contents())| < limit then |old(Contents())| else limit
      ensures old(Contents()) == chunk + Contents()
    {
      var count := if len < limit then len else limit;
      chunk := Front(count);
      UnrollDrop(buffer[..], head, len, count);
      head := (head + count) % buffer.Length;
      len := len - count;
    }
  }

  class Fifo<T> {
    const slots: array<T>
    var head: nat
    var tail: nat
    var count: nat

    ghost predicate Valid()
      reads this
    {
      && 0 < slots.Length && head < slots.Length && count <= slots.Length
      && tail == Wrap(head + count, slots.Length)
    }

    ghost function Contents(): seq<T>
      requires Valid()
      reads this, slots
    {
      Unroll(slots[..], head, count)
    }

    constructor (depth: nat, blank: T)
      requires depth > 0
      ensures Valid() && Contents() == [] && slots.Length == depth && fresh(slots)
    {
      slots := new T[depth](_ => blank);
      head, tail, count := 0, 0, 0;
    }

    method Clear()
      requires Valid()
      modifies this
      ensures Valid() && Contents() == []
    {
      head, tail, count := 0, 0, 0;
    }

    method Enqueue(x: T)
      requires Valid() && count < slots.Length
      modifies this, slots
      ensures Valid() && Contents() == old(Contents()) + [x]
    {
      ghost var before := slots[..];
      slots[tail] := x;
      WrapIsMod(tail + 1, slots.Length);
      WrapIsMod(head + count + 1, slots.Length);
      assert Unroll(slots[..], head, count) == Unroll(before, head, count);
      tail := (tail + 1) % slots.Length;
      count := count + 1;
    }

    method Peek() returns (x: T)
      requires Valid() && count > 0
      ensures x == Contents()[0]
    {
      x := slots[head];
    }

    method Dequeue()
      requires Valid() && count > 0
      modifies this
      ensures Valid() && Contents() == old(Contents())[1..]
    {
      UnrollDrop(slots[..], head, count, 1);
      WrapIsMod(head + 1, slots.Length);
      head := (head + 1) % slots.Length;
      count := count - 1;
    }
  }
}

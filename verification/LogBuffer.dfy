/**
 The retained log of app/src/services/log_buffer/log_buffer.c with its one listener. `total` is everything
 put since the last clear; the ring holds exactly the end of it.
 */
module LogBuffer {
  import opened Bytes
  import opened Errno
  import opened Rings

  /** A listener function with its context, or none. */
  datatype Listener = Nobody | Listener(callback: nat, context: nat)

  class LogBuffer {
    const ring: ByteRing
    var listener: Listener
    ghost var total: seq<Byte>

    /** What a listener registered with a snapshot has been shown: the snapshot, then what it was called with. */
    ghost var shown: seq<Byte>

    ghost predicate Valid()
      reads this, ring, ring.buffer
    {
      ring.Valid() && ring.Contents() == LastN(total, ring.buffer.Length)
    }

    constructor (capacity: nat)
      requires capacity > 0
      ensures Valid() && total == [] && listener == Nobody
      ensures ring.buffer.Length == capacity && fresh(ring) && fresh(ring.buffer)
    {
      ring := new ByteRing(capacity);
      listener, total, shown := Nobody, [], [];
    }

    /** log_buffer_put; `notified` is what the listener is called with. */
    method Put(msg: seq<Byte>) returns (notified: seq<Byte>)
      requires Valid()
      modifies this`total, this`shown, ring, ring.buffer
      ensures Valid() && total == old(total) + msg
      ensures notified == if listener.Nobody? then [] else LastN(msg, ring.buffer.Length)
      ensures shown == old(shown) + notified
    {
      LastNAppend(total, msg, ring.buffer.Length);
      total := total + msg;
      notified := [];
      if msg == [] {
        assert LastN(ring.Contents() + msg, ring.buffer.Length) == ring.Contents();
        return;
      }
      ring.Push(msg);
      if listener.Listener? {
        notified := if |msg| >= ring.buffer.Length then msg[|msg| - ring.buffer.Length..] else msg;
      }
      shown := shown + notified;
    }

    /** log_buffer_clear */
    method Clear()
      requires Valid()
      modifies this`total, ring
      ensures Valid() && total == []
    {
      ring.Clear();
      total := [];
    }

    /** log_buffer_read: the oldest retained bytes that leave room for a terminator. */
    method Read(size: nat) returns (out: seq<Byte>)
      requires Valid()
      ensures out <= LastN(total, ring.buffer.Length)
      ensures |out| == if size == 0 then 0 else if ring.len < size - 1 then ring.len else size - 1
    {
      out := ring.Snapshot(size);
    }

    /** log_buffer_set_listener */
    method SetListener(l: Listener) returns (status: Status)
      requires Valid()
      modifies this`listener
      ensures Valid()
      ensures status == if l.Nobody? then EINVAL else if old(listener).Listener? then EBUSY else Ok
      ensures listener == if status == Ok then l else old(listener)
    {
      if l.Nobody? {
        return EINVAL;
      }
      if listener.Listener? {
        return EBUSY;
      }
      listener := l;
      return Ok;
    }

    /**
     log_buffer_snapshot_and_set_listener. A destination longer than the retained log gets all of it; what the
     listener is called with afterwards is appended to `shown` by Put.
     */
    method SnapshotAndSetListener(l: Listener, size: nat) returns (status: Status, snapshot: seq<Byte>)
      requires Valid()
      modifies this`listener, this`shown
      ensures Valid()
      ensures status == if l.Nobody? || size == 0 then EINVAL else if old(listener).Listener? then EBUSY else Ok
      ensures listener == if status == Ok then l else old(listener)
      ensures status != Ok ==> snapshot == [] && shown == old(shown)
      ensures status == Ok ==> snapshot <= LastN(total, ring.buffer.Length) && shown == snapshot
      ensures status == Ok ==> |snapshot| == if ring.len < size - 1 then ring.len else size - 1
      ensures status == Ok && ring.len < size ==> snapshot == LastN(total, ring.buffer.Length)
    {
      snapshot := [];
      if l.Nobody? || size == 0 {
        return EINVAL, [];
      }
      if listener.Listener? {
        return EBUSY, [];
      }
      snapshot := ring.Snapshot(size);
      listener := l;
      shown := snapshot;
      return Ok, snapshot;
    }

    /** log_buffer_clear_listener: only by the listener that is registered. */
    method ClearListener(l: Listener)
      requires Valid()
      modifies this`listener
      ensures Valid() && listener == if old(listener) == l then Nobody else old(listener)
    {
      if listener == l {
        listener := Nobody;
      }
    }
  }
}

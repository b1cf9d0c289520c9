/**
 The logcat service of lib/adb/adb_logcat.c on top of the retained log of log_buffer.c and the
 stream slots of adb_protocol.c. Every section under one lock is one step, so the worker may be
 stopped between preparing a chunk and handing it to the router while acknowledgements, closes,
 reopens and log records come in. Context gives the locked sections; Machine interleaves them.
 */
module LogcatContext {
  import opened Bytes
  import opened Errno
  import opened Rings
  import LogBuffer

  /** struct adb_logcat_context, with the ring by its contents. */
  datatype Context = Context(active: bool, stream: nat, generation: nat, ring: seq<Byte>,
                             sending: bool, drain: bool, txChunk: seq<Byte>)

  /** What queue_next goes on to do after its first locked section. */
  datatype Todo =
    | Nothing
    | CloseStream(stream: nat, generation: nat)
    | WriteChunk(stream: nat, generation: nat, len: nat)

  function Min(a: nat, b: nat): nat { if a < b then a else b }

  /** live_log_listener with the static object as its context */
  const LIVE := LogBuffer.Listener(0, 0)

  /** What a ring of this capacity takes of the retained log; there must be room for a terminator. */
  function Excerpt(retained: seq<Byte>, capacity: nat): seq<Byte> {
    retained[..Min(|retained|, if capacity == 0 then 0 else capacity - 1)]
  }

  lemma ExcerptFits(retained: seq<Byte>, capacity: nat)
    ensures |Excerpt(retained, capacity)| <= capacity
  {
  }

  /** live_log_listener */
  function PushLive(c: Context, data: seq<Byte>, capacity: nat): Context {
    if c.active && !c.drain then c.(ring := LastN(c.ring + data, capacity)) else c
  }

  /** queue_next, lines 123-148 */
  function Prepare(c: Context, limit: nat): (Context, Todo)
    requires limit <= |c.txChunk|
  {
    if !c.active || c.sending then (c, Nothing)
    else if c.ring == [] then (c, if c.drain then CloseStream(c.stream, c.generation) else Nothing)
    else
      var n := Min(|c.ring|, limit);
      (c.(ring := c.ring[n..], sending := true, txChunk := Overlay(c.txChunk, 0, c.ring[..n])),
       if n == 0 then Nothing else WriteChunk(c.stream, c.generation, n))
  }

  predicate Current(c: Context, generation: nat) { c.active && c.generation == generation }

  /** queue_next, lines 157-162 */
  function Refusal(c: Context, generation: nat): Context {
    if Current(c, generation) then c.(sending := false) else c
  }

  /** adb_logcat_tx_ready, lines 239-244 */
  function TxReady(c: Context, stream: nat): Context {
    if c.active && c.stream == stream then c.(sending := false) else c
  }

  /** adb_logcat_open, lines 202-223 */
  function Activate(c: Context, stream: nat, generation: nat, drain: bool, snapshot: seq<Byte>): Context {
    Context(true, stream, generation, snapshot, false, drain, c.txChunk)
  }

  /** adb_logcat_close */
  function Deactivate(c: Context): Context {
    c.(active := false, sending := false, stream := 0, generation := 0, ring := [])
  }

  /** The static `logcat` object; each method is one section under logcat_lock. */
  class LogcatObject {
    const ring: ByteRing
    const txChunk: array<Byte>
    var hasRing: bool
    var active: bool
    var stream: nat
    var generation: nat
    var sending: bool
    var drain: bool

    ghost predicate Valid()
      reads this, ring
    {
      ring.Valid() && ring.buffer != txChunk
    }

    ghost function View(): Context
      requires Valid()
      reads this, ring, ring.buffer, txChunk
    {
      Context(active, stream, generation, ring.Contents(), sending, drain, txChunk[..])
    }

    constructor (capacity: nat, chunkSize: nat)
      requires capacity > 0
      ensures Valid() && !active && !hasRing && ring.buffer.Length == capacity && txChunk.Length == chunkSize
    {
      ring := new ByteRing(capacity);
      txChunk := new Byte[chunkSize];
      hasRing, active, stream, generation, sending, drain := false, false, 0, 0, false, false;
    }

    method LiveLogListener(data: seq<Byte>)
      requires Valid()
      modifies ring, ring.buffer
      ensures Valid() && View() == PushLive(old(View()), data, ring.buffer.Length)
    {
      if active && !drain {
        ring.Push(data);
      }
    }

    method PrepareNext(limit: nat) returns (todo: Todo)
      requires Valid() && limit <= txChunk.Length
      modifies this, ring, txChunk
      ensures Valid() && (View(), todo) == Prepare(old(View()), limit)
    {
      if !active || sending {
        return Nothing;
      }
      if ring.len == 0 {
        return if drain then CloseStream(stream, generation) else Nothing;
      }
      ghost var before := ring.Contents();
      var chunk := ring.Take(limit);
      assert chunk == before[..|chunk|] && ring.Contents() == before[|chunk|..];
      Copy(txChunk, 0, chunk);
      sending := true;
      return if |chunk| == 0 then Nothing else WriteChunk(stream, generation, |chunk|);
    }

    method WriteRefused(failed: nat) returns (current: bool)
      requires Valid()
      modifies this
      ensures Valid() && View() == Refusal(old(View()), failed) && current == Current(old(View()), failed)
    {
      current := active && generation == failed;
      if current {
        sending := false;
      }
    }

    method TxReadySection(acked: nat) returns (current: bool)
      requires Valid()
      modifies this
      ensures Valid() && View() == TxReady(old(View()), acked) && current == (active && stream == acked)
    {
      current := active && stream == acked;
      if current {
        sending := false;
      }
    }

    /** The log and this object have nothing in common. */
    ghost predicate Apart(log: LogBuffer.LogBuffer)
      reads log, log.ring, ring
    {
      ring != log.ring && ring.buffer != log.ring.buffer && txChunk != log.ring.buffer
    }

    /** The part of adb_logcat_open that asks the log */
    method AskLog(log: LogBuffer.LogBuffer, clear: bool, drainOnly: bool) returns (status: Status, snapshot: seq<Byte>)
      requires ring.Valid() && log.Valid() && Apart(log)
      modifies log`listener, log`total, log`shown, log.ring
      ensures log.Valid()
      ensures status == if !clear && !drainOnly && old(log.listener).Listener? then EBUSY else Ok
      ensures log.total == if status == Ok && clear then [] else old(log.total)
      ensures log.listener == if status == Ok && !clear && !drainOnly then LIVE else old(log.listener)
      ensures status == Ok ==>
                snapshot == if clear then [] else Excerpt(LastN(log.total, log.ring.buffer.Length), ring.buffer.Length)
    {
      snapshot, status := [], Ok;
      ghost var retained := LastN(log.total, log.ring.buffer.Length);
      if clear {
        log.Clear();
      } else if drainOnly {
        snapshot := log.Read(ring.buffer.Length);
        assert snapshot == retained[..|snapshot|];
      } else {
        status, snapshot := log.SnapshotAndSetListener(LIVE, ring.buffer.Length);
        assert status == Ok ==> snapshot == retained[..|snapshot|];
      }
    }

    /** The session starts with what was found in the log. */
    method Begin(snapshot: seq<Byte>)
      requires Valid() && |snapshot| <= ring.buffer.Length
      modifies this`active, ring, ring.buffer
      ensures Valid() && View() == old(View()).(active := true, ring := snapshot)
    {
      ring.Clear();
      ring.Push(snapshot);
      active := true;
    }

    /**
     adb_logcat_open up to the end of its locked section; `memory` says whether the ring can be allocated. A session
     that follows the log becomes its listener; if there is another one already, the object stays inactive.
     */
    method Open(log: LogBuffer.LogBuffer, newStream: nat, newGeneration: nat, clear: bool, drainOnly: bool,
                memory: bool)
      returns (status: Status)
      requires Valid() && log.Valid() && Apart(log)
      modifies this, ring, ring.buffer, log`listener, log`total, log`shown, log.ring
      ensures Valid() && log.Valid()
      ensures status == if old(active) then EBUSY else if !old(hasRing) && !memory then ENOMEM
                        else if !clear && !drainOnly && old(log.listener).Listener? then EBUSY else Ok
      ensures log.total == if status == Ok && clear then [] else old(log.total)
      ensures log.listener == if status == Ok && !clear && !drainOnly then LIVE else old(log.listener)
      ensures old(active) || status == ENOMEM ==> View() == old(View())
      ensures status != Ok ==> active == old(active)
      ensures status == Ok ==>
                var retained := LastN(log.total, log.ring.buffer.Length);
                var snapshot := if clear then [] else Excerpt(retained, ring.buffer.Length);
                View() == Activate(old(View()), newStream, newGeneration, clear || drainOnly, snapshot)
    {
      hide Excerpt;
      if active {
        return EBUSY;
      }
      if !hasRing && !memory {
        return ENOMEM;
      }
      hasRing, stream, generation, sending, drain := true, newStream, newGeneration, false, clear || drainOnly;
      ring.Clear();
      var snapshot;
      status, snapshot := AskLog(log, clear, drainOnly);
      if status != Ok {
        stream, generation := 0, 0;
        return;
      }
      ExcerptFits(LastN(log.total, log.ring.buffer.Length), ring.buffer.Length);
      Begin(snapshot);
    }

    /** adb_logcat_close */
    method Close(log: LogBuffer.LogBuffer)
      requires Valid() && log.Valid() && Apart(log)
      modifies this, ring, log`listener
      ensures Valid() && log.Valid() && View() == Deactivate(old(View()))
      ensures log.listener == if old(log.listener) == LIVE then LogBuffer.Nobody else old(log.listener)
    {
      active, sending, stream, generation := false, false, 0, 0;
      ring.Clear();
      log.ClearListener(LIVE);
    }
  }
}

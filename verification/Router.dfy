/**
 The stream router of lib/adb/adb_protocol.c: a table of streams with one transmit slot each, a
 ring of control packets waiting for the transport, and a handler for every message. Each handler,
 and each entry from a service thread, is one step. The transport is arbitrary: it may take a
 packet, hold it back or fail, at every attempt.
 */
module Router {
  import opened Bytes
  import opened Errno

  datatype Command = CNXN | OKAY | CLSE | WRTE

  datatype Packet = Packet(command: Command, arg0: U32, arg1: U32, payload: seq<Byte>)

  /**
   struct webos_adb_stream. History of the stream's life: payloads taken from the service, payloads
   sent and acknowledgements taken; and how often a failing write callback made the router forget
   that an acknowledgement was due, or drop the payload in the slot.
   */
  datatype Stream = Stream(
    used: bool, txPending: bool, awaitingAck: bool, closePending: bool,
    localId: U32, remoteId: U32, generation: U32, txData: seq<Byte>,
    taken: seq<seq<Byte>>, sent: seq<seq<Byte>>, acks: nat, waived: nat, dropped: nat)

  const Free := Stream(false, false, false, false, 0, 0, 0, [], [], [], 0, 0, 0)

  /**
   `accepted` logs the packets since the last reset in the order in which the router committed itself to
   them: a control packet when it is sent or queued, a WRTE when it is sent. `wire` is what the transport
   took; `closed` the streams flush_stream closed, as they were then.
   */
  datatype State = State(
    streams: seq<Stream>, ring: seq<Packet>, nextLocalId: U32, nextGeneration: U32,
    negotiated: nat, online: bool, attempts: nat,
    accepted: seq<Packet>, wire: seq<Packet>, closed: seq<Stream>)

  datatype Config = Config(depth: nat, controlSize: nat, txSize: nat, transferSize: nat, maxPayload: U32,
                           banner: seq<Byte>, send: nat -> Status)

  predicate FlowControl(status: Status) { status == ENOSPC || status == EBUSY }

  function Min(a: nat, b: nat): nat { if a < b then a else b }

  /** webos_adb_stream_max_payload */
  function Limit(cfg: Config, s: State): nat { Min(Min(s.negotiated, cfg.txSize), cfg.transferSize) }

  // ---------- sending ----------

  /** send_packet_raw */
  function Transmit(cfg: Config, s: State, p: Packet): (State, Status) {
    var status := cfg.send(s.attempts);
    var t := s.(attempts := s.attempts + 1);
    (if status == Ok then t.(wire := s.wire + [p]) else t, status)
  }

  /** enqueue_control */
  function Enqueue(cfg: Config, s: State, p: Packet): (State, Status) {
    if |p.payload| > cfg.controlSize then (s, EMSGSIZE)
    else if |s.ring| >= cfg.depth then (s, ENOBUFS)
    else (s.(ring := s.ring + [p], accepted := s.accepted + [p]), Ok)
  }

  /** send_control */
  function SendControl(cfg: Config, s: State, p: Packet): (State, Status) {
    if s.ring != [] then Enqueue(cfg, s, p)
    else
      var (t, status) := Transmit(cfg, s, p);
      if status == Ok then (t.(accepted := t.accepted + [p]), Ok)
      else if FlowControl(status) then Enqueue(cfg, t, p)
      else (t, status)
  }

  /** pump_controls */
  function Pump(cfg: Config, s: State): (r: (State, Status))
    ensures |r.0.ring| <= |s.ring|
    decreases |s.ring|
  {
    if s.ring == [] then (s, Ok)
    else
      var (t, status) := Transmit(cfg, s, s.ring[0]);
      if status != Ok then (t, status) else Pump(cfg, t.(ring := s.ring[1..]))
  }

  function Put(s: State, i: nat, st: Stream): State
    requires i < |s.streams|
  {
    s.(streams := s.streams[i := st])
  }

  /** release_stream */
  function Release(s: State, i: nat): State
    requires i < |s.streams|
  {
    Put(s, i, Free)
  }

  /** The first half of flush_stream: send the slot. */
  function FlushSlot(cfg: Config, s: State, i: nat): (r: (State, Status))
    requires i < |s.streams|
    ensures |r.0.streams| == |s.streams|
  {
    var st := s.streams[i];
    if !st.txPending || st.awaitingAck then (s, Ok)
    else if s.ring != [] then (s, ENOSPC)
    else
      var p := Packet(WRTE, st.localId, st.remoteId, st.txData);
      var (t, status) := Transmit(cfg, s, p);
      if status != Ok then (t, status)
      else
        (Put(t, i, st.(txPending := false, awaitingAck := true, sent := st.sent + [st.txData]))
           .(accepted := s.accepted + [p]), Ok)
  }

  /** The second half of flush_stream: a deferred close. */
  function FlushClose(cfg: Config, s: State, i: nat): (r: (State, Status))
    requires i < |s.streams|
    ensures |r.0.streams| == |s.streams|
  {
    var st := s.streams[i];
    if !st.closePending || st.txPending || st.awaitingAck then (s, Ok)
    else
      var (t, status) := SendControl(cfg, s, Packet(CLSE, st.localId, st.remoteId, []));
      if status != Ok then (t, status) else (Release(t, i).(closed := t.closed + [st]), Ok)
  }

  /** flush_stream */
  function Flush(cfg: Config, s: State, i: nat): (r: (State, Status))
    requires i < |s.streams|
    ensures |r.0.streams| == |s.streams|
  {
    var (t, status) := FlushSlot(cfg, s, i);
    if status != Ok then (t, status) else FlushClose(cfg, t, i)
  }

  // ---------- the service interface ----------

  /** stream_write_locked; generation 0 matches any. */
  function Write(cfg: Config, s: State, i: nat, generation: U32, data: seq<Byte>, dispatching: bool)
    : (r: (State, Status))
    ensures |r.0.streams| == |s.streams|
  {
    if i >= |s.streams| || !s.streams[i].used || (generation != 0 && s.streams[i].generation != generation) then
      (s, EINVAL)
    else if |data| > Limit(cfg, s) then (s, EMSGSIZE)
    else if s.streams[i].txPending || s.streams[i].awaitingAck then (s, EBUSY)
    else
      var st := s.streams[i];
      var filled := st.(txData := data, txPending := true, taken := st.taken + [data]);
      if dispatching then (Put(s, i, filled), Ok)
      else
        var (t, status) := Flush(cfg, Put(s, i, filled), i);
        if status == Ok || FlowControl(status) then (t, Ok)
        else (Put(t, i, st.(txData := [])), status)
  }

  /** stream_close_locked */
  function Close(cfg: Config, s: State, i: nat, generation: U32, dispatching: bool): (t: State)
    ensures |t.streams| == |s.streams|
  {
    if i >= |s.streams| || !s.streams[i].used || (generation != 0 && s.streams[i].generation != generation) then s
    else
      var t := Put(s, i, s.streams[i].(closePending := true));
      if dispatching then t else Flush(cfg, t, i).0
  }

  /** What a service does inside a callback, where flushing is deferred. */
  datatype Action = DoWrite(stream: nat, generation: U32, data: seq<Byte>) | DoClose(stream: nat, generation: U32)

  function ActOnce(cfg: Config, s: State, a: Action): (t: State)
    ensures |t.streams| == |s.streams|
  {
    match a
    case DoWrite(i, g, data) => Write(cfg, s, i, g, data, true).0
    case DoClose(i, g) => Close(cfg, s, i, g, true)
  }

  function Act(cfg: Config, s: State, actions: seq<Action>): (t: State)
    ensures |t.streams| == |s.streams|
    decreases |actions|
  {
    if actions == [] then s else Act(cfg, ActOnce(cfg, s, actions[0]), actions[1..])
  }

  // ---------- the handlers ----------

  /** The first stream from `i` on that satisfies find_stream, or the table size. */
  function Find(streams: seq<Stream>, localId: U32, remoteId: U32, i: nat): (r: nat)
    requires i <= |streams|
    ensures i <= r <= |streams|
    ensures r < |streams| ==> streams[r].used && streams[r].localId == localId && streams[r].remoteId == remoteId
    ensures forall j :: i <= j < r ==>
              !(streams[j].used && streams[j].localId == localId && streams[j].remoteId == remoteId)
    decreases |streams| - i
  {
    if i == |streams| then i
    else if streams[i].used && streams[i].localId == localId && streams[i].remoteId == remoteId then i
    else Find(streams, localId, remoteId, i + 1)
  }

  function FirstFree(streams: seq<Stream>, i: nat): (r: nat)
    requires i <= |streams|
    ensures i <= r <= |streams| && (r < |streams| ==> !streams[r].used)
    ensures forall j :: i <= j < r ==> streams[j].used
    decreases |streams| - i
  {
    if i == |streams| || !streams[i].used then i else FirstFree(streams, i + 1)
  }

  /** next_local_id++ and next_stream_generation++, which skip 0 when they wrap. */
  function Next(n: U32): U32 { if n == 0xFFFF_FFFF then 1 else n + 1 }

  /** allocate_stream */
  function Allocate(s: State, i: nat, remoteId: U32): State
    requires i < |s.streams|
  {
    Put(s, i, Free.(used := true, localId := s.nextLocalId, remoteId := remoteId, generation := s.nextGeneration))
      .(nextLocalId := Next(s.nextLocalId), nextGeneration := Next(s.nextGeneration))
  }

  /** open_stream, for a service whose open callback does `actions` and returns `result`. */
  function Open(cfg: Config, s: State, remoteId: U32, actions: seq<Action>, result: Status): (r: (State, Status))
    ensures |r.0.streams| == |s.streams|
  {
    var i := FirstFree(s.streams, 0);
    if i == |s.streams| then SendControl(cfg, s, Packet(CLSE, 0, remoteId, []))
    else
      var t := Act(cfg, Allocate(s, i, remoteId), actions);
      if result != Ok then SendControl(cfg, Release(t, i), Packet(CLSE, 0, remoteId, []))
      else
        var (u, ready) := SendControl(cfg, t, Packet(OKAY, t.streams[i].localId, t.streams[i].remoteId, []));
        var (v, status) := if ready == Ok then Flush(cfg, u, i) else (u, ready);
        if status == Ok || FlowControl(status) then (v, Ok) else (Release(v, i), status)
  }

  /** What handle_write does to a stream whose write callback failed. */
  function WriteFailed(st: Stream): Stream {
    st.(closePending := true, txPending := false, awaitingAck := false,
        waived := st.waived + if st.awaitingAck then 1 else 0, dropped := st.dropped + if st.txPending then 1 else 0)
  }

  /** handle_write */
  function HandleWrite(cfg: Config, s: State, arg0: U32, arg1: U32, actions: seq<Action>, written: Status)
    : (r: (State, Status))
    ensures |r.0.streams| == |s.streams|
  {
    var i := Find(s.streams, arg1, arg0, 0);
    if i == |s.streams| then SendControl(cfg, s, Packet(CLSE, 0, arg0, []))
    else
      var t := Act(cfg, s, actions);
      var st := t.streams[i];
      if written != Ok then Flush(cfg, Put(t, i, WriteFailed(st)), i)
      else
        var (u, status) := SendControl(cfg, t, Packet(OKAY, st.localId, st.remoteId, []));
        if status == Ok then Flush(cfg, u, i) else (u, status)
  }

  /** handle_ready */
  function HandleReady(cfg: Config, s: State, arg0: U32, arg1: U32, actions: seq<Action>): (r: (State, Status))
    ensures |r.0.streams| == |s.streams|
  {
    var i := Find(s.streams, arg1, arg0, 0);
    if i == |s.streams| || !s.streams[i].awaitingAck then (s, Ok)
    else
      var st := s.streams[i];
      var t := Act(cfg, Put(s, i, st.(awaitingAck := false, acks := st.acks + 1)), actions);
      if t.streams[i].used then Flush(cfg, t, i) else (t, Ok)
  }

  /** handle_close */
  function HandleClose(cfg: Config, s: State, arg0: U32, arg1: U32): (r: (State, Status))
    ensures |r.0.streams| == |s.streams|
  {
    var i := Find(s.streams, arg1, arg0, 0);
    if i == |s.streams| then (s, Ok)
    else
      var (t, status) := SendControl(cfg, s, Packet(CLSE, s.streams[i].localId, s.streams[i].remoteId, []));
      (Release(t, i), status)
  }

  function AllFree(n: nat): (f: seq<Stream>)
    ensures |f| == n && forall i :: 0 <= i < n ==> f[i] == Free
  {
    seq(n, _ => Free)
  }

  /** protocol_reset_unlocked; the histories start again. */
  function Reset(cfg: Config, s: State): State {
    s.(streams := AllFree(|s.streams|), ring := [], nextLocalId := 1, negotiated := cfg.maxPayload, online := false,
       accepted := [], wire := [])
  }

  /** The CNXN case of dispatch_message, where unauthenticated connections are allowed. */
  function HandleConnect(cfg: Config, s: State, arg1: U32): (r: (State, Status))
    ensures |r.0.streams| == |s.streams|
  {
    var t := Reset(cfg, s).(negotiated := Min(arg1, cfg.maxPayload));
    var (u, status) := SendControl(cfg, t, Packet(CNXN, 0x0100_0000, cfg.maxPayload, cfg.banner));
    (u.(online := status == Ok), status)
  }

  /** The stream loop of webos_adb_protocol_tx_ready, from stream `i` on. */
  function FlushFrom(cfg: Config, s: State, i: nat): (t: State)
    requires i <= |s.streams|
    ensures |t.streams| == |s.streams|
    decreases |s.streams| - i
  {
    if i == |s.streams| then s
    else if s.streams[i].used && (s.streams[i].txPending || s.streams[i].closePending) then
      var (t, status) := Flush(cfg, s, i);
      if FlowControl(status) then t else FlushFrom(cfg, t, i + 1)
    else FlushFrom(cfg, s, i + 1)
  }

  lemma {:induction false} PumpKeepsStreams(cfg: Config, s: State)
    ensures Pump(cfg, s).0.streams == s.streams && Pump(cfg, s).0.negotiated == s.negotiated
    ensures Pump(cfg, s).0.closed == s.closed && Pump(cfg, s).0.online == s.online
    decreases |s.ring|
  {
    if s.ring != [] {
      var (t, status) := Transmit(cfg, s, s.ring[0]);
      if status == Ok {
        PumpKeepsStreams(cfg, t.(ring := s.ring[1..]));
      }
    }
  }

  /** webos_adb_protocol_tx_ready */
  function TxReady(cfg: Config, s: State): State {
    if !s.online then s
    else
      var (t, status) := Pump(cfg, s);
      if FlowControl(status) || t.ring != [] then t else FlushFrom(cfg, t, 0)
  }

  // ---------- runs ----------

  datatype Event =
    | GotConnect(arg1: U32)
    | GotOpen(remoteId: U32, actions: seq<Action>, result: Status)
    | GotTrack(remoteId: U32)             // answered with OKAY and no stream
    | GotUnknownService(remoteId: U32)
    | GotWrite(arg0: U32, arg1: U32, actions: seq<Action>, written: Status)
    | GotReady(arg0: U32, arg1: U32, actions: seq<Action>)
    | GotClose(arg0: U32, arg1: U32)
    | ServiceWrite(stream: nat, generation: U32, data: seq<Byte>)
    | ServiceClose(stream: nat, generation: U32)
    | TransportReady
    | TransportReset

  function Step(cfg: Config, s: State, e: Event): (t: State)
    ensures |t.streams| == |s.streams|
  {
    match e
    case GotConnect(arg1) => HandleConnect(cfg, s, arg1).0
    case GotOpen(remoteId, actions, result) =>
      if !s.online || remoteId == 0 then s else Open(cfg, s, remoteId, actions, result).0
    case GotTrack(remoteId) =>
      if !s.online || remoteId == 0 then s
      else SendControl(cfg, s.(nextLocalId := Next(s.nextLocalId)), Packet(OKAY, s.nextLocalId, remoteId, [])).0
    case GotUnknownService(remoteId) =>
      if !s.online || remoteId == 0 then s else SendControl(cfg, s, Packet(CLSE, 0, remoteId, [])).0
    case GotWrite(arg0, arg1, actions, written) => HandleWrite(cfg, s, arg0, arg1, actions, written).0
    case GotReady(arg0, arg1, actions) => HandleReady(cfg, s, arg0, arg1, actions).0
    case GotClose(arg0, arg1) => HandleClose(cfg, s, arg0, arg1).0
    case ServiceWrite(i, g, data) => Write(cfg, s, i, g, data, false).0
    case ServiceClose(i, g) => Close(cfg, s, i, g, false)
    case TransportReady => PumpKeepsStreams(cfg, s); TxReady(cfg, s)
    case TransportReset => Reset(cfg, s)
  }

  function Run(cfg: Config, s: State, events: seq<Event>): State
    decreases |events|
  {
    if events == [] then s else Run(cfg, Step(cfg, s, events[0]), events[1..])
  }

  function Initially(cfg: Config, n: nat): State {
    State(AllFree(n), [], 1, 1, cfg.maxPayload, false, 0, [], [], [])
  }
}

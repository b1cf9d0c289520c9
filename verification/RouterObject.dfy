/**
 The router of lib/adb/adb_protocol.c in its own form: a stream table updated in place, a circular
 control queue, loops over both, and a flag that defers flushing while a message is dispatched.
 Every method is proved to do what the corresponding function of Router says.
 */
module RouterObject {
  import opened Bytes
  import opened Errno
  import opened Rings
  import opened Router

  class RouterObject {
    const cfg: Config
    const streams: array<Stream>
    const control: Fifo<Packet>
    var nextLocalId: U32
    var nextGeneration: U32
    var negotiated: nat
    var online: bool
    var dispatching: bool
    var attempts: nat
    ghost var accepted: seq<Packet>
    ghost var wire: seq<Packet>
    ghost var closed: seq<Stream>

    ghost predicate Valid()
      reads this, control
    {
      control.Valid() && control.slots.Length == cfg.depth
    }

    ghost function View(): State
      requires Valid()
      reads this, streams, control, control.slots
    {
      State(streams[..], control.Contents(), nextLocalId, nextGeneration, negotiated, online, attempts,
            accepted, wire, closed)
    }

    constructor (cfg: Config, maxStreams: nat)
      requires cfg.depth > 0
      ensures Valid() && View() == Initially(cfg, maxStreams) && this.cfg == cfg && !dispatching
    {
      this.cfg := cfg;
      streams := new Stream[maxStreams](_ => Free);
      control := new Fifo(cfg.depth, Packet(CNXN, 0, 0, []));
      nextLocalId, nextGeneration, negotiated, online := 1, 1, cfg.maxPayload, false;
      dispatching, attempts := false, 0;
      accepted, wire, closed := [], [], [];
    }

    method SetStream(i: nat, st: Stream)
      requires Valid() && i < streams.Length
      modifies streams
      ensures Valid() && View() == Put(old(View()), i, st)
    {
      streams[i] := st;
    }

    method SendPacketRaw(p: Packet) returns (status: Status)
      requires Valid()
      modifies this`attempts, this`wire
      ensures Valid() && (View(), status) == Transmit(cfg, old(View()), p)
    {
      status := cfg.send(attempts);
      attempts := attempts + 1;
      if status == Ok {
        wire := wire + [p];
      }
    }

    method EnqueueControl(p: Packet) returns (status: Status)
      requires Valid()
      modifies this`accepted, control, control.slots
      ensures Valid() && (View(), status) == Enqueue(cfg, old(View()), p)
    {
      if |p.payload| > cfg.controlSize {
        return EMSGSIZE;
      }
      if control.count == control.slots.Length {
        return ENOBUFS;
      }
      control.Enqueue(p);
      accepted := accepted + [p];
      return Ok;
    }

    method SendControlPacket(p: Packet) returns (status: Status)
      requires Valid()
      modifies this`attempts, this`wire, this`accepted, control, control.slots
      ensures Valid() && (View(), status) == SendControl(cfg, old(View()), p)
    {
      if control.count != 0 {
        status := EnqueueControl(p);
        return;
      }
      status := SendPacketRaw(p);
      if FlowControl(status) {
        status := EnqueueControl(p);
      } else if status == Ok {
        accepted := accepted + [p];
      }
    }

    method PumpControls() returns (status: Status)
      requires Valid()
      modifies this`attempts, this`wire, control
      ensures Valid() && (View(), status) == Pump(cfg, old(View()))
    {
      while control.count != 0
        invariant Valid()
        invariant Pump(cfg, View()) == Pump(cfg, old(View()))
        decreases control.count
      {
        var packet := control.Peek();
        status := SendPacketRaw(packet);
        if status != Ok {
          return;
        }
        control.Dequeue();
      }
      return Ok;
    }

    method FindStream(localId: U32, remoteId: U32) returns (i: nat)
      ensures i == Find(streams[..], localId, remoteId, 0)
    {
      i := 0;
      while i < streams.Length
        invariant 0 <= i <= streams.Length
        invariant Find(streams[..], localId, remoteId, i) == Find(streams[..], localId, remoteId, 0)
      {
        if streams[i].used && streams[i].localId == localId && streams[i].remoteId == remoteId {
          return;
        }
        i := i + 1;
      }
    }

    method AllocateStream(remoteId: U32) returns (i: nat)
      requires Valid()
      modifies this`nextLocalId, this`nextGeneration, streams
      ensures Valid() && i == FirstFree(old(View()).streams, 0)
      ensures View() == if i < |old(View()).streams| then Allocate(old(View()), i, remoteId) else old(View())
    {
      i := 0;
      while i < streams.Length
        invariant 0 <= i <= streams.Length && View() == old(View())
        invariant FirstFree(streams[..], i) == FirstFree(streams[..], 0)
      {
        if !streams[i].used {
          streams[i] := Free.(used := true, localId := nextLocalId, remoteId := remoteId, generation := nextGeneration);
          nextLocalId := Next(nextLocalId);
          nextGeneration := Next(nextGeneration);
          return;
        }
        i := i + 1;
      }
    }

    method FlushStream(i: nat) returns (status: Status)
      requires Valid() && i < streams.Length
      modifies this`attempts, this`wire, this`accepted, this`closed, streams, control, control.slots
      ensures Valid() && (View(), status) == Flush(cfg, old(View()), i)
    {
      var st := streams[i];
      if st.txPending && !st.awaitingAck {
        if control.count != 0 {
          return ENOSPC;
        }
        var p := Packet(WRTE, st.localId, st.remoteId, st.txData);
        status := SendPacketRaw(p);
        if status != Ok {
          return;
        }
        accepted := accepted + [p];
        st := st.(txPending := false, awaitingAck := true, sent := st.sent + [st.txData]);
        SetStream(i, st);
      }
      status := CloseIfDrained(i);
    }

    method CloseIfDrained(i: nat) returns (status: Status)
      requires Valid() && i < streams.Length
      modifies this`attempts, this`wire, this`accepted, this`closed, streams, control, control.slots
      ensures Valid() && (View(), status) == FlushClose(cfg, old(View()), i)
    {
      var st := streams[i];
      if st.closePending && !st.txPending && !st.awaitingAck {
        status := SendControlPacket(Packet(CLSE, st.localId, st.remoteId, []));
        if status != Ok {
          return;
        }
        SetStream(i, Free);
        closed := closed + [st];
      }
      return Ok;
    }

    method MaxPayload() returns (n: nat)
      requires Valid()
      ensures n == Limit(cfg, View())
    {
      n := Min(negotiated, cfg.txSize);
      n := Min(n, cfg.transferSize);
    }

    /** stream_write_locked */
    method StreamWrite(i: nat, generation: U32, data: seq<Byte>) returns (status: Status)
      requires Valid()
      modifies this`attempts, this`wire, this`accepted, this`closed, streams, control, control.slots
      ensures Valid() && (View(), status) == Write(cfg, old(View()), i, generation, data, dispatching)
    {
      if i >= streams.Length || !streams[i].used || (generation != 0 && streams[i].generation != generation) {
        return EINVAL;
      }
      var limit := MaxPayload();
      if |data| > limit {
        return EMSGSIZE;
      }
      var st := streams[i];
      if st.txPending || st.awaitingAck {
        return EBUSY;
      }
      SetStream(i, st.(txData := data, txPending := true, taken := st.taken + [data]));
      status := Ok;
      if !dispatching {
        status := FlushStream(i);
        if FlowControl(status) {
          status := Ok;
        } else if status != Ok {
          SetStream(i, st.(txData := []));
        }
      }
    }

    /** stream_close_locked */
    method StreamClose(i: nat, generation: U32)
      requires Valid()
      modifies this`attempts, this`wire, this`accepted, this`closed, streams, control, control.slots
      ensures Valid() && View() == Close(cfg, old(View()), i, generation, dispatching)
    {
      if i < streams.Length && streams[i].used && (generation == 0 || streams[i].generation == generation) {
        SetStream(i, streams[i].(closePending := true));
        if !dispatching {
          var _ := FlushStream(i);
        }
      }
    }

    /** What a service callback does through the two calls above. */
    method RunCallback(actions: seq<Action>)
      requires Valid() && dispatching
      modifies this`attempts, this`wire, this`accepted, this`closed, streams, control, control.slots
      ensures Valid() && View() == Act(cfg, old(View()), actions)
    {
      var k := 0;
      assert actions[0..] == actions;
      while k < |actions|
        invariant 0 <= k <= |actions| && Valid()
        invariant Act(cfg, View(), actions[k..]) == Act(cfg, old(View()), actions)
      {
        assert actions[k..][1..] == actions[k + 1..];
        match actions[k] {
          case DoWrite(i, g, data) =>
            var _ := StreamWrite(i, g, data);
          case DoClose(i, g) =>
            StreamClose(i, g);
        }
        k := k + 1;
      }
    }

    method OpenStream(remoteId: U32, actions: seq<Action>, result: Status) returns (status: Status)
      requires Valid() && dispatching
      modifies this, streams, control, control.slots
      ensures Valid() && dispatching && (View(), status) == Open(cfg, old(View()), remoteId, actions, result)
    {
      var i := AllocateStream(remoteId);
      if i == streams.Length {
        status := SendControlPacket(Packet(CLSE, 0, remoteId, []));
        return;
      }
      RunCallback(actions);
      if result != Ok {
        SetStream(i, Free);
        status := SendControlPacket(Packet(CLSE, 0, remoteId, []));
        return;
      }
      status := SendControlPacket(Packet(OKAY, streams[i].localId, streams[i].remoteId, []));
      if status == Ok {
        status := FlushStream(i);
      }
      if FlowControl(status) {
        status := Ok;
      } else if status != Ok {
        SetStream(i, Free);
      }
    }

    method OnWrite(arg0: U32, arg1: U32, actions: seq<Action>, written: Status) returns (status: Status)
      requires Valid() && dispatching
      modifies this, streams, control, control.slots
      ensures Valid() && dispatching && (View(), status) == HandleWrite(cfg, old(View()), arg0, arg1, actions, written)
    {
      hide Flush;
      hide Act;
      hide SendControl;
      var i := FindStream(arg1, arg0);
      if i == streams.Length {
        status := SendControlPacket(Packet(CLSE, 0, arg0, []));
        return;
      }
      RunCallback(actions);
      if written != Ok {
        SetStream(i, WriteFailed(streams[i]));
        status := FlushStream(i);
        return;
      }
      status := SendControlPacket(Packet(OKAY, streams[i].localId, streams[i].remoteId, []));
      if status == Ok {
        status := FlushStream(i);
      }
    }

    method OnReady(arg0: U32, arg1: U32, actions: seq<Action>) returns (status: Status)
      requires Valid() && dispatching
      modifies this, streams, control, control.slots
      ensures Valid() && dispatching && (View(), status) == HandleReady(cfg, old(View()), arg0, arg1, actions)
    {
      var i := FindStream(arg1, arg0);
      if i == streams.Length || !streams[i].awaitingAck {
        return Ok;
      }
      SetStream(i, streams[i].(awaitingAck := false, acks := streams[i].acks + 1));
      RunCallback(actions);
      if streams[i].used {
        status := FlushStream(i);
      } else {
        status := Ok;
      }
    }

    method OnClose(arg0: U32, arg1: U32) returns (status: Status)
      requires Valid()
      modifies this, streams, control, control.slots
      ensures Valid() && (View(), status) == HandleClose(cfg, old(View()), arg0, arg1)
    {
      var i := FindStream(arg1, arg0);
      status := Ok;
      if i != streams.Length {
        status := SendControlPacket(Packet(CLSE, streams[i].localId, streams[i].remoteId, []));
        SetStream(i, Free);
      }
    }

    method CloseAllStreams()
      requires Valid()
      modifies streams
      ensures Valid() && streams[..] == AllFree(streams.Length)
    {
      for i := 0 to streams.Length
        invariant forall j :: 0 <= j < i ==> streams[j] == Free
      {
        streams[i] := Free;
      }
    }

    /** protocol_reset_unlocked */
    method ResetProtocol()
      requires Valid()
      modifies this, streams, control
      ensures Valid() && View() == Reset(cfg, old(View())) && !dispatching
    {
      CloseAllStreams();
      control.Clear();
      nextLocalId, negotiated, online, dispatching := 1, cfg.maxPayload, false, false;
      accepted, wire := [], [];
    }

    method OnConnect(arg1: U32) returns (status: Status)
      requires Valid() && dispatching
      modifies this, streams, control, control.slots
      ensures Valid() && dispatching && (View(), status) == HandleConnect(cfg, old(View()), arg1)
    {
      hide SendControl;
      online := false;
      CloseAllStreams();
      control.Clear();
      nextLocalId := 1;
      accepted, wire := [], [];
      negotiated := Min(arg1, cfg.maxPayload);
      status := SendControlPacket(Packet(CNXN, 0x0100_0000, cfg.maxPayload, cfg.banner));
      if status == Ok {
        online := true;
      }
    }

    method OnTransportReady()
      requires Valid()
      modifies this`attempts, this`wire, this`accepted, this`closed, streams, control, control.slots
      ensures Valid() && View() == TxReady(cfg, old(View()))
    {
      hide Flush;
      hide Pump;
      if !online {
        return;
      }
      var status := PumpControls();
      if FlowControl(status) || control.count != 0 {
        return;
      }
      var i := 0;
      ghost var pumped := View();
      while i < streams.Length
        invariant 0 <= i <= streams.Length && Valid()
        invariant FlushFrom(cfg, View(), i) == FlushFrom(cfg, pumped, 0)
      {
        if streams[i].used && (streams[i].txPending || streams[i].closePending) {
          status := FlushStream(i);
          if FlowControl(status) {
            return;
          }
        }
        i := i + 1;
      }
    }
  }
}

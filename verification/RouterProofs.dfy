/** What every step of the router keeps, and what holds over every run. */
module RouterProofs {
  import opened Bytes
  import opened Errno
  import opened Router

  /** Every payload and every acknowledgement is accounted for. */
  ghost predicate StreamOk(st: Stream, limit: nat) {
    && !(st.txPending && st.awaitingAck)
    && (st.txPending ==> |st.txData| <= limit)
    && |st.sent| == st.acks + st.waived + (if st.awaitingAck then 1 else 0)
    && |st.taken| == |st.sent| + st.dropped + (if st.txPending then 1 else 0)
    && (st.dropped == 0 ==> st.taken == st.sent + (if st.txPending then [st.txData] else []))
  }

  predicate Contains(ps: seq<Packet>, n: nat, p: Packet) {
    n <= |ps| && exists j :: 0 <= j < n && ps[j] == p
  }

  function Okay(localId: U32, remoteId: U32): Packet { Packet(OKAY, localId, remoteId, []) }

  /** Every WRTE on the wire comes after an OKAY with the same ids. */
  ghost predicate WireOk(wire: seq<Packet>) {
    forall i :: 0 <= i < |wire| && wire[i].command == WRTE ==> Contains(wire, i, Okay(wire[i].arg0, wire[i].arg1))
  }

  ghost predicate StreamsOk(cfg: Config, s: State) {
    forall i :: 0 <= i < |s.streams| ==> StreamOk(s.streams[i], Limit(cfg, s))
  }

  /** A stream in use was announced to the host. */
  ghost predicate Announced(s: State) {
    forall i :: 0 <= i < |s.streams| && s.streams[i].used ==>
      Contains(s.accepted, |s.accepted|, Okay(s.streams[i].localId, s.streams[i].remoteId))
  }

  ghost predicate QueueOk(s: State) {
    && s.accepted == s.wire + s.ring
    && (forall i :: 0 <= i < |s.ring| ==> s.ring[i].command != WRTE)
    && WireOk(s.wire)
  }

  /** A close was deferred until everything the service wrote had been sent and acknowledged. */
  ghost predicate ClosedOk(s: State) {
    forall i :: 0 <= i < |s.closed| ==>
      && !s.closed[i].txPending && !s.closed[i].awaitingAck
      && |s.closed[i].sent| == s.closed[i].acks + s.closed[i].waived
      && (s.closed[i].dropped == 0 ==> s.closed[i].taken == s.closed[i].sent)
  }

  ghost predicate Inv(cfg: Config, s: State) {
    StreamsOk(cfg, s) && Announced(s) && QueueOk(s) && ClosedOk(s)
  }

  // ---------- sending ----------

  lemma ContainsMore(ps: seq<Packet>, n: nat, more: seq<Packet>, p: Packet)
    requires Contains(ps, n, p)
    ensures Contains(ps + more, n, p) && Contains(ps + more, |ps + more|, p)
  {
    var j :| 0 <= j < n && ps[j] == p;
    assert (ps + more)[j] == p;
  }

  lemma WireGrows(wire: seq<Packet>, p: Packet)
    requires WireOk(wire)
    requires p.command == WRTE ==> Contains(wire, |wire|, Okay(p.arg0, p.arg1))
    ensures WireOk(wire + [p])
  {
    var w := wire + [p];
    forall i | 0 <= i < |w| && w[i].command == WRTE
      ensures Contains(w, i, Okay(w[i].arg0, w[i].arg1))
    {
      ContainsMore(wire, i, [p], Okay(w[i].arg0, w[i].arg1));
    }
  }

  /** Same streams, and nothing accepted was forgotten. */
  ghost predicate SameTable(s: State, t: State) {
    && t.streams == s.streams && t.negotiated == s.negotiated && t.closed == s.closed
    && s.accepted <= t.accepted
  }

  lemma TableKept(cfg: Config, s: State, t: State)
    requires Inv(cfg, s) && SameTable(s, t) && QueueOk(t)
    ensures Inv(cfg, t)
  {
    forall i | 0 <= i < |t.streams| && t.streams[i].used
      ensures Contains(t.accepted, |t.accepted|, Okay(t.streams[i].localId, t.streams[i].remoteId))
    {
      ContainsMore(s.accepted, |s.accepted|, t.accepted[|s.accepted|..],
                   Okay(s.streams[i].localId, s.streams[i].remoteId));
      assert s.accepted + t.accepted[|s.accepted|..] == t.accepted;
    }
  }

  lemma EnqueueKeeps(cfg: Config, s: State, p: Packet)
    requires QueueOk(s) && p.command != WRTE
    ensures var (t, status) := Enqueue(cfg, s, p);
            && QueueOk(t) && SameTable(s, t)
            && (status == Ok ==> t.accepted == s.accepted + [p])
  {
    Assoc(s.wire, s.ring, [p]);
  }

  lemma TransmitKeeps(cfg: Config, s: State, p: Packet)
    requires QueueOk(s) && s.ring == [] && p.command != WRTE
    ensures var (t, status) := Transmit(cfg, s, p);
            if status == Ok then QueueOk(t.(accepted := s.accepted + [p])) else QueueOk(t)
  {
    WireGrows(s.wire, p);
  }

  lemma SendControlKeeps(cfg: Config, s: State, p: Packet)
    requires QueueOk(s) && p.command != WRTE
    ensures var (t, status) := SendControl(cfg, s, p);
            && QueueOk(t) && SameTable(s, t)
            && (status == Ok ==> t.accepted == s.accepted + [p])
  {
    if s.ring != [] {
      EnqueueKeeps(cfg, s, p);
    } else {
      TransmitKeeps(cfg, s, p);
      var (t, status) := Transmit(cfg, s, p);
      if FlowControl(status) {
        EnqueueKeeps(cfg, t, p);
      }
    }
  }

  lemma PumpOneKeeps(cfg: Config, s: State)
    requires QueueOk(s) && s.ring != []
    ensures QueueOk(s.(wire := s.wire + [s.ring[0]], ring := s.ring[1..]))
  {
    WireGrows(s.wire, s.ring[0]);
    AppendFirst(s.wire, s.ring);
  }

  lemma {:induction false} PumpKeeps(cfg: Config, s: State)
    requires QueueOk(s)
    ensures QueueOk(Pump(cfg, s).0) && SameTable(s, Pump(cfg, s).0)
    ensures Pump(cfg, s).0.accepted == s.accepted
    decreases |s.ring|
  {
    if s.ring != [] {
      var (t, status) := Transmit(cfg, s, s.ring[0]);
      if status == Ok {
        PumpOneKeeps(cfg, s);
        PumpKeeps(cfg, t.(ring := s.ring[1..]));
      }
    }
  }

  /** The OKAY of a live stream is on the wire once the ring is empty, so its WRTE may follow. */
  lemma WrteKeeps(s: State, i: nat)
    requires Announced(s) && QueueOk(s) && i < |s.streams| && s.streams[i].used && s.ring == []
    ensures var p := Packet(WRTE, s.streams[i].localId, s.streams[i].remoteId, s.streams[i].txData);
            QueueOk(s.(wire := s.wire + [p], accepted := s.accepted + [p]))
  {
    var p := Packet(WRTE, s.streams[i].localId, s.streams[i].remoteId, s.streams[i].txData);
    assert s.accepted == s.wire;
    WireGrows(s.wire, p);
  }

  lemma SlotSentKeeps(cfg: Config, s: State, i: nat)
    requires StreamsOk(cfg, s) && i < |s.streams| && s.streams[i].txPending && !s.streams[i].awaitingAck
    ensures var st := s.streams[i];
            StreamsOk(cfg, Put(s, i, st.(txPending := false, awaitingAck := true, sent := st.sent + [st.txData])))
  {
  }

  lemma FlushSlotKeeps(cfg: Config, s: State, i: nat)
    requires Inv(cfg, s) && i < |s.streams| && s.streams[i].used
    ensures Inv(cfg, FlushSlot(cfg, s, i).0)
    ensures FlushSlot(cfg, s, i).0.streams[i].used && FlushSlot(cfg, s, i).0.negotiated == s.negotiated
  {
    var st := s.streams[i];
    if st.txPending && !st.awaitingAck && s.ring == [] {
      WrteKeeps(s, i);
      var p := Packet(WRTE, st.localId, st.remoteId, st.txData);
      var (t, status) := Transmit(cfg, s, p);
      var u := if status == Ok then t.(accepted := s.accepted + [p]) else t;
      assert QueueOk(u);
      TableKept(cfg, s, u);
      SlotSentKeeps(cfg, u, i);
    }
  }

  lemma ReleaseKeeps(cfg: Config, s: State, i: nat)
    requires Inv(cfg, s) && i < |s.streams|
    ensures Inv(cfg, Release(s, i))
  {
  }

  lemma FlushCloseKeeps(cfg: Config, s: State, i: nat)
    requires Inv(cfg, s) && i < |s.streams| && s.streams[i].used
    ensures Inv(cfg, FlushClose(cfg, s, i).0)
    ensures FlushClose(cfg, s, i).0.negotiated == s.negotiated
  {
    var st := s.streams[i];
    var p := Packet(CLSE, st.localId, st.remoteId, []);
    SendControlKeeps(cfg, s, p);
    var t := SendControl(cfg, s, p).0;
    TableKept(cfg, s, t);
    ReleaseKeeps(cfg, t, i);
  }

  lemma FlushKeeps(cfg: Config, s: State, i: nat)
    requires Inv(cfg, s) && i < |s.streams| && s.streams[i].used
    ensures Inv(cfg, Flush(cfg, s, i).0)
  {
    FlushSlotKeeps(cfg, s, i);
    FlushCloseKeeps(cfg, FlushSlot(cfg, s, i).0, i);
  }

  // ---------- the service interface ----------

  /** Only slots changed: the same streams are in use under the same ids and generations. */
  ghost predicate SameIds(s: State, t: State) {
    && |t.streams| == |s.streams|
    && t == s.(streams := t.streams)
    && forall i :: 0 <= i < |s.streams| ==>
         && t.streams[i].used == s.streams[i].used && t.streams[i].localId == s.streams[i].localId
         && t.streams[i].remoteId == s.streams[i].remoteId && t.streams[i].generation == s.streams[i].generation
  }

  lemma IdsKept(cfg: Config, s: State, t: State)
    requires Inv(cfg, s) && SameIds(s, t) && StreamsOk(cfg, t)
    ensures Inv(cfg, t)
  {
  }

  lemma FillKeeps(cfg: Config, s: State, i: nat, data: seq<Byte>)
    requires StreamsOk(cfg, s) && i < |s.streams| && |data| <= Limit(cfg, s)
    requires !s.streams[i].txPending && !s.streams[i].awaitingAck
    ensures var st := s.streams[i];
            var t := Put(s, i, st.(txData := data, txPending := true, taken := st.taken + [data]));
            StreamsOk(cfg, t) && SameIds(s, t)
  {
  }

  lemma ActionKeeps(cfg: Config, s: State, a: Action)
    requires StreamsOk(cfg, s)
    ensures StreamsOk(cfg, ActOnce(cfg, s, a)) && SameIds(s, ActOnce(cfg, s, a))
  {
    if a.DoWrite? && a.stream < |s.streams| && |a.data| <= Limit(cfg, s) &&
       !s.streams[a.stream].txPending && !s.streams[a.stream].awaitingAck {
      FillKeeps(cfg, s, a.stream, a.data);
    }
  }

  lemma {:induction false} ActKeeps(cfg: Config, s: State, actions: seq<Action>)
    requires StreamsOk(cfg, s)
    ensures StreamsOk(cfg, Act(cfg, s, actions)) && SameIds(s, Act(cfg, s, actions))
    decreases |actions|
  {
    if actions != [] {
      ActionKeeps(cfg, s, actions[0]);
      ActKeeps(cfg, ActOnce(cfg, s, actions[0]), actions[1..]);
    }
  }

  /** A failed transmission takes the payload back. */
  lemma WriteKeeps(cfg: Config, s: State, i: nat, g: U32, data: seq<Byte>)
    requires Inv(cfg, s)
    ensures Inv(cfg, Write(cfg, s, i, g, data, false).0)
  {
    if i < |s.streams| && s.streams[i].used && |data| <= Limit(cfg, s)
       && !s.streams[i].txPending && !s.streams[i].awaitingAck {
      var st := s.streams[i];
      FillKeeps(cfg, s, i, data);
      var filled := Put(s, i, st.(txData := data, txPending := true, taken := st.taken + [data]));
      IdsKept(cfg, s, filled);
      FlushKeeps(cfg, filled, i);
      FlushFailure(cfg, filled, i);
      var (t, status) := Flush(cfg, filled, i);
      if status != Ok {
        TakenBack(cfg, s, i, t.attempts);
        assert Put(t, i, st.(txData := [])) == Put(s, i, st.(txData := [])).(attempts := t.attempts);
      }
    }
  }

  lemma FlushFailure(cfg: Config, s: State, i: nat)
    requires i < |s.streams| && s.streams[i].txPending && !s.streams[i].awaitingAck
    ensures var (t, status) := Flush(cfg, s, i);
            status != Ok ==> t == s.(attempts := t.attempts)
  {
  }

  lemma TakenBack(cfg: Config, s: State, i: nat, attempts: nat)
    requires Inv(cfg, s) && i < |s.streams| && !s.streams[i].txPending
    ensures Inv(cfg, Put(s, i, s.streams[i].(txData := [])).(attempts := attempts))
  {
    var t := Put(s, i, s.streams[i].(txData := []));
    IdsKept(cfg, s, t);
    TableKept(cfg, t, t.(attempts := attempts));
  }

  lemma CloseKeeps(cfg: Config, s: State, i: nat, g: U32)
    requires Inv(cfg, s)
    ensures Inv(cfg, Close(cfg, s, i, g, false))
  {
    if i < |s.streams| && s.streams[i].used {
      var t := Put(s, i, s.streams[i].(closePending := true));
      IdsKept(cfg, s, t);
      FlushKeeps(cfg, t, i);
    }
  }

  // ---------- the handlers ----------

  lemma ControlKeeps(cfg: Config, s: State, p: Packet)
    requires Inv(cfg, s) && p.command != WRTE
    ensures Inv(cfg, SendControl(cfg, s, p).0)
  {
    SendControlKeeps(cfg, s, p);
    TableKept(cfg, s, SendControl(cfg, s, p).0);
  }

  lemma AllocateKeeps(cfg: Config, s: State, i: nat, remoteId: U32)
    requires Inv(cfg, s) && i < |s.streams| && !s.streams[i].used
    ensures StreamsOk(cfg, Allocate(s, i, remoteId))
  {
  }

  /** Everything but the announcement of stream `i`. */
  ghost predicate InvBut(cfg: Config, s: State, i: nat) {
    && StreamsOk(cfg, s) && QueueOk(s) && ClosedOk(s)
    && forall j :: 0 <= j < |s.streams| && j != i && s.streams[j].used ==>
         Contains(s.accepted, |s.accepted|, Okay(s.streams[j].localId, s.streams[j].remoteId))
  }

  lemma OpeningKeeps(cfg: Config, s: State, i: nat, remoteId: U32, actions: seq<Action>)
    requires Inv(cfg, s) && i < |s.streams| && !s.streams[i].used
    ensures var t := Act(cfg, Allocate(s, i, remoteId), actions);
            InvBut(cfg, t, i) && t.streams[i].used
  {
    AllocateKeeps(cfg, s, i, remoteId);
    ActKeeps(cfg, Allocate(s, i, remoteId), actions);
  }

  lemma AnnounceKeeps(cfg: Config, s: State, i: nat)
    requires i < |s.streams| && InvBut(cfg, s, i) && s.streams[i].used
    ensures var (t, status) := SendControl(cfg, s, Okay(s.streams[i].localId, s.streams[i].remoteId));
            && t.streams == s.streams
            && (if status == Ok then Inv(cfg, t) else Inv(cfg, Release(t, i)))
  {
    var p := Okay(s.streams[i].localId, s.streams[i].remoteId);
    SendControlKeeps(cfg, s, p);
    var (t, status) := SendControl(cfg, s, p);
    StillAnnounced(cfg, s, t, i);
    if status == Ok {
      assert t.accepted[|s.accepted|] == p;
      assert Announced(t);
    } else {
      var u := Release(t, i);
      assert Announced(u) && StreamsOk(cfg, u) && QueueOk(u);
    }
  }

  lemma StillAnnounced(cfg: Config, s: State, t: State, i: nat)
    requires i < |s.streams| && InvBut(cfg, s, i) && SameTable(s, t)
    ensures forall j :: 0 <= j < |t.streams| && j != i && t.streams[j].used ==>
              Contains(t.accepted, |t.accepted|, Okay(t.streams[j].localId, t.streams[j].remoteId))
  {
    var more := t.accepted[|s.accepted|..];
    assert s.accepted + more == t.accepted;
    forall j | 0 <= j < |t.streams| && j != i && t.streams[j].used
      ensures Contains(t.accepted, |t.accepted|, Okay(t.streams[j].localId, t.streams[j].remoteId))
    {
      ContainsMore(s.accepted, |s.accepted|, more, Okay(t.streams[j].localId, t.streams[j].remoteId));
    }
  }

  lemma OpenKeeps(cfg: Config, s: State, remoteId: U32, actions: seq<Action>, result: Status)
    requires Inv(cfg, s)
    ensures Inv(cfg, Open(cfg, s, remoteId, actions, result).0)
  {
    hide Act;
    hide SendControl;
    hide Flush;
    var i := FirstFree(s.streams, 0);
    var clse := Packet(CLSE, 0, remoteId, []);
    if i == |s.streams| {
      ControlKeeps(cfg, s, clse);
    } else {
      var t := Act(cfg, Allocate(s, i, remoteId), actions);
      OpeningKeeps(cfg, s, i, remoteId, actions);
      if result != Ok {
        assert Inv(cfg, Release(t, i));
        ControlKeeps(cfg, Release(t, i), clse);
      } else {
        AnnounceKeeps(cfg, t, i);
        var (u, ready) := SendControl(cfg, t, Okay(t.streams[i].localId, t.streams[i].remoteId));
        if ready == Ok {
          FlushKeeps(cfg, u, i);
          ReleaseKeeps(cfg, Flush(cfg, u, i).0, i);
        } else {
          ControlNotHeldBack(cfg, t, Okay(t.streams[i].localId, t.streams[i].remoteId));
        }
      }
    }
  }

  lemma ControlNotHeldBack(cfg: Config, s: State, p: Packet)
    ensures !FlowControl(SendControl(cfg, s, p).1)
  {
  }

  lemma HandleWriteKeeps(cfg: Config, s: State, arg0: U32, arg1: U32, actions: seq<Action>, written: Status)
    requires Inv(cfg, s)
    ensures Inv(cfg, HandleWrite(cfg, s, arg0, arg1, actions, written).0)
  {
    hide Act;
    hide Flush;
    hide SendControl;
    hide QueueOk;
    hide StreamOk;
    hide Announced;
    hide ClosedOk;
    var i := Find(s.streams, arg1, arg0, 0);
    if i == |s.streams| {
      ControlKeeps(cfg, s, Packet(CLSE, 0, arg0, []));
    } else {
      var t := Act(cfg, s, actions);
      ActKeeps(cfg, s, actions);
      IdsKept(cfg, s, t);
      var st := t.streams[i];
      if written != Ok {
        WriteFailedKeeps(cfg, t, i);
        FlushKeeps(cfg, Put(t, i, WriteFailed(st)), i);
      } else {
        var p := Okay(st.localId, st.remoteId);
        ControlKeeps(cfg, t, p);
        SendControlKeeps(cfg, t, p);
        FlushKeeps(cfg, SendControl(cfg, t, p).0, i);
      }
    }
  }

  lemma WriteFailedKeeps(cfg: Config, s: State, i: nat)
    requires Inv(cfg, s) && i < |s.streams|
    ensures Inv(cfg, Put(s, i, WriteFailed(s.streams[i])))
  {
    IdsKept(cfg, s, Put(s, i, WriteFailed(s.streams[i])));
  }

  lemma AckKeeps(cfg: Config, s: State, i: nat)
    requires Inv(cfg, s) && i < |s.streams| && s.streams[i].awaitingAck
    ensures Inv(cfg, Put(s, i, s.streams[i].(awaitingAck := false, acks := s.streams[i].acks + 1)))
  {
    IdsKept(cfg, s, Put(s, i, s.streams[i].(awaitingAck := false, acks := s.streams[i].acks + 1)));
  }

  lemma HandleReadyKeeps(cfg: Config, s: State, arg0: U32, arg1: U32, actions: seq<Action>)
    requires Inv(cfg, s)
    ensures Inv(cfg, HandleReady(cfg, s, arg0, arg1, actions).0)
  {
    hide Flush;
    hide Act;
    var i := Find(s.streams, arg1, arg0, 0);
    if i < |s.streams| && s.streams[i].awaitingAck {
      var st := s.streams[i];
      var acked := Put(s, i, st.(awaitingAck := false, acks := st.acks + 1));
      AckKeeps(cfg, s, i);
      ActKeeps(cfg, acked, actions);
      var t := Act(cfg, acked, actions);
      IdsKept(cfg, acked, t);
      FlushKeeps(cfg, t, i);
    }
  }

  lemma HandleCloseKeeps(cfg: Config, s: State, arg0: U32, arg1: U32)
    requires Inv(cfg, s)
    ensures Inv(cfg, HandleClose(cfg, s, arg0, arg1).0)
  {
    var i := Find(s.streams, arg1, arg0, 0);
    if i < |s.streams| {
      var p := Packet(CLSE, s.streams[i].localId, s.streams[i].remoteId, []);
      ControlKeeps(cfg, s, p);
      SendControlKeeps(cfg, s, p);
      ReleaseKeeps(cfg, SendControl(cfg, s, p).0, i);
    }
  }

  lemma ConnectKeeps(cfg: Config, s: State, arg1: U32)
    requires Inv(cfg, s)
    ensures Inv(cfg, Reset(cfg, s)) && Inv(cfg, HandleConnect(cfg, s, arg1).0)
  {
    var t := Reset(cfg, s).(negotiated := Min(arg1, cfg.maxPayload));
    var p := Packet(CNXN, 0x0100_0000, cfg.maxPayload, cfg.banner);
    FreshKeeps(cfg, Reset(cfg, s));
    FreshKeeps(cfg, t);
    ControlKeeps(cfg, t, p);
    OnlineIrrelevant(cfg, SendControl(cfg, t, p).0, SendControl(cfg, t, p).1 == Ok);
  }

  lemma FreshKeeps(cfg: Config, s: State)
    requires s.streams == AllFree(|s.streams|) && s.ring == s.wire == s.accepted == [] && ClosedOk(s)
    ensures Inv(cfg, s)
  {
  }

  lemma OnlineIrrelevant(cfg: Config, s: State, on: bool)
    requires Inv(cfg, s)
    ensures Inv(cfg, s.(online := on))
  {
  }

  lemma {:induction false} FlushFromKeeps(cfg: Config, s: State, i: nat)
    requires Inv(cfg, s) && i <= |s.streams|
    ensures Inv(cfg, FlushFrom(cfg, s, i))
    decreases |s.streams| - i
  {
    if i < |s.streams| {
      if s.streams[i].used && (s.streams[i].txPending || s.streams[i].closePending) {
        FlushKeeps(cfg, s, i);
        FlushFromKeeps(cfg, Flush(cfg, s, i).0, i + 1);
      } else {
        FlushFromKeeps(cfg, s, i + 1);
      }
    }
  }

  lemma TxReadyKeeps(cfg: Config, s: State)
    requires Inv(cfg, s)
    ensures Inv(cfg, TxReady(cfg, s))
  {
    if s.online {
      PumpKeeps(cfg, s);
      TableKept(cfg, s, Pump(cfg, s).0);
      FlushFromKeeps(cfg, Pump(cfg, s).0, 0);
    }
  }

  lemma TrackKeeps(cfg: Config, s: State, remoteId: U32)
    requires Inv(cfg, s)
    ensures Inv(cfg, SendControl(cfg, s.(nextLocalId := Next(s.nextLocalId)), Okay(s.nextLocalId, remoteId)).0)
  {
    TableKept(cfg, s, s.(nextLocalId := Next(s.nextLocalId)));
    ControlKeeps(cfg, s.(nextLocalId := Next(s.nextLocalId)), Okay(s.nextLocalId, remoteId));
  }

  lemma StepKeeps(cfg: Config, s: State, e: Event)
    requires Inv(cfg, s)
    ensures Inv(cfg, Step(cfg, s, e))
  {
    hide Inv;
    hide SendControl;
    hide Open;
    match e
    case GotConnect(arg1) => ConnectKeeps(cfg, s, arg1);
    case GotOpen(remoteId, actions, result) => OpenKeeps(cfg, s, remoteId, actions, result);
    case GotTrack(remoteId) => TrackKeeps(cfg, s, remoteId);
    case GotUnknownService(remoteId) => ControlKeeps(cfg, s, Packet(CLSE, 0, remoteId, []));
    case GotWrite(arg0, arg1, actions, written) => HandleWriteKeeps(cfg, s, arg0, arg1, actions, written);
    case GotReady(arg0, arg1, actions) => HandleReadyKeeps(cfg, s, arg0, arg1, actions);
    case GotClose(arg0, arg1) => HandleCloseKeeps(cfg, s, arg0, arg1);
    case ServiceWrite(i, g, data) => WriteKeeps(cfg, s, i, g, data);
    case ServiceClose(i, g) => CloseKeeps(cfg, s, i, g);
    case TransportReady => TxReadyKeeps(cfg, s);
    case TransportReset => ConnectKeeps(cfg, s, 0);
  }

  lemma {:induction false} RunKeeps(cfg: Config, s: State, events: seq<Event>)
    requires Inv(cfg, s)
    ensures Inv(cfg, Run(cfg, s, events))
    decreases |events|
  {
    if events != [] {
      StepKeeps(cfg, s, events[0]);
      RunKeeps(cfg, Step(cfg, s, events[0]), events[1..]);
    }
  }

  // ---------- theorems ----------

  lemma ReachableInv(cfg: Config, n: nat, events: seq<Event>)
    ensures Inv(cfg, Run(cfg, Initially(cfg, n), events))
  {
    RunKeeps(cfg, Initially(cfg, n), events);
  }

  /** In every run a slot is empty while an acknowledgement is awaited, and fits the limit of the connection. */
  lemma SlotFits(cfg: Config, n: nat, events: seq<Event>, i: nat)
    requires i < |Run(cfg, Initially(cfg, n), events).streams|
    ensures var s := Run(cfg, Initially(cfg, n), events);
            var st := s.streams[i];
            !(st.txPending && st.awaitingAck) && (st.txPending ==> |st.txData| <= Limit(cfg, s))
  {
    ReachableInv(cfg, n, events);
  }

  /** flush_stream sends CLSE only when nothing is in the slot and nothing is unacknowledged. */
  lemma CloseWaits(cfg: Config, n: nat, events: seq<Event>, i: nat)
    requires i < |Run(cfg, Initially(cfg, n), events).closed|
    ensures var st := Run(cfg, Initially(cfg, n), events).closed[i];
            && !st.txPending && !st.awaitingAck
            && (st.waived == 0 ==> |st.sent| == st.acks)
            && (st.dropped == 0 ==> st.taken == st.sent)
  {
    ReachableInv(cfg, n, events);
  }

  /**
   Over every run, since the last reset: what the transport took and then what waits in the ring is everything
   the router committed itself to, in that order. So a WRTE goes out only when no control packet waits:
   each control packet accepted before it precedes it on the wire. Only control packets wait, and every WRTE
   comes after an OKAY with the same ids, which for a live stream is the answer to its OPEN.
   */
  lemma ControlsInOrder(cfg: Config, n: nat, events: seq<Event>)
    ensures var s := Run(cfg, Initially(cfg, n), events);
            && s.accepted == s.wire + s.ring && WireOk(s.wire)
            && (forall i :: 0 <= i < |s.ring| ==> s.ring[i].command != WRTE)
  {
    ReachableInv(cfg, n, events);
  }

  // ---------- delivery ----------

  /** The transport takes every packet from now on. */
  ghost predicate Willing(cfg: Config, s: State) {
    forall n :: n >= s.attempts ==> cfg.send(n) == Ok
  }

  lemma {:induction false} PumpDrains(cfg: Config, s: State)
    requires Willing(cfg, s)
    ensures Pump(cfg, s).1 == Ok && Pump(cfg, s).0.ring == [] && Pump(cfg, s).0.wire == s.wire + s.ring
    decreases |s.ring|
  {
    if s.ring != [] {
      var t := Transmit(cfg, s, s.ring[0]).0.(ring := s.ring[1..]);
      PumpDrains(cfg, t);
      AppendFirst(s.wire, s.ring);
    }
  }

  /** An idle stream that find_stream would return for its own ids. */
  ghost predicate Ready(s: State, i: nat) {
    && i < |s.streams| && s.streams[i].used && s.ring == []
    && !s.streams[i].txPending && !s.streams[i].awaitingAck && !s.streams[i].closePending
    && Find(s.streams, s.streams[i].localId, s.streams[i].remoteId, 0) == i
  }

  function WriteAndAck(s: State, i: nat, data: seq<Byte>): seq<Event>
    requires i < |s.streams|
  {
    [ServiceWrite(i, 0, data), GotReady(s.streams[i].remoteId, s.streams[i].localId, [])]
  }

  function WriteAndAckAll(s: State, i: nat, payloads: seq<seq<Byte>>): seq<Event>
    requires i < |s.streams|
  {
    if payloads == [] then [] else WriteAndAck(s, i, payloads[0]) + WriteAndAckAll(s, i, payloads[1..])
  }

  function Wrtes(st: Stream, payloads: seq<seq<Byte>>): seq<Packet> {
    if payloads == [] then [] else [Packet(WRTE, st.localId, st.remoteId, payloads[0])] + Wrtes(st, payloads[1..])
  }

  lemma {:induction false} RunAppend(cfg: Config, s: State, a: seq<Event>, b: seq<Event>)
    ensures Run(cfg, s, a + b) == Run(cfg, Run(cfg, s, a), b)
    decreases |a|
  {
    if a == [] {
      assert a + b == b;
    } else {
      assert (a + b)[1..] == a[1..] + b;
      RunAppend(cfg, Step(cfg, s, a[0]), a[1..], b);
    }
  }

  /** The stream after `data` was written, sent and acknowledged. */
  function Delivered(s: State, i: nat, data: seq<Byte>): State
    requires i < |s.streams|
  {
    var st := s.streams[i];
    Put(s, i, st.(txData := data, taken := st.taken + [data], sent := st.sent + [data], acks := st.acks + 1))
      .(attempts := s.attempts + 1, wire := s.wire + [Packet(WRTE, st.localId, st.remoteId, data)],
        accepted := s.accepted + [Packet(WRTE, st.localId, st.remoteId, data)])
  }

  lemma {:induction false} FindSame(a: seq<Stream>, b: seq<Stream>, localId: U32, remoteId: U32, k: nat)
    requires |a| == |b| && k <= |a|
    requires forall j :: 0 <= j < |a| ==>
               a[j].used == b[j].used && a[j].localId == b[j].localId && a[j].remoteId == b[j].remoteId
    ensures Find(a, localId, remoteId, k) == Find(b, localId, remoteId, k)
    decreases |a| - k
  {
    if k < |a| {
      FindSame(a, b, localId, remoteId, k + 1);
    }
  }

  lemma WriteSends(cfg: Config, s: State, i: nat, data: seq<Byte>)
    requires Ready(s, i) && Willing(cfg, s) && |data| <= Limit(cfg, s)
    ensures var st := s.streams[i];
            Write(cfg, s, i, 0, data, false) ==
            (Put(s, i, st.(txData := data, taken := st.taken + [data], sent := st.sent + [data], awaitingAck := true))
               .(attempts := s.attempts + 1, wire := s.wire + [Packet(WRTE, st.localId, st.remoteId, data)],
                 accepted := s.accepted + [Packet(WRTE, st.localId, st.remoteId, data)]), Ok)
  {
    var st := s.streams[i];
    var filled := Put(s, i, st.(txData := data, txPending := true, taken := st.taken + [data]));
    assert cfg.send(s.attempts) == Ok;
    var t := Write(cfg, s, i, 0, data, false).0;
    assert t.streams == s.streams[i := t.streams[i]];
  }

  lemma AckFrees(cfg: Config, s: State, i: nat, data: seq<Byte>)
    requires Ready(s, i) && Willing(cfg, s) && |data| <= Limit(cfg, s)
    ensures var t := Write(cfg, s, i, 0, data, false).0;
            HandleReady(cfg, t, s.streams[i].remoteId, s.streams[i].localId, []).0 == Delivered(s, i, data)
    ensures Ready(Delivered(s, i, data), i)
  {
    WriteSends(cfg, s, i, data);
    var t := Write(cfg, s, i, 0, data, false).0;
    var st := s.streams[i];
    FindSame(s.streams, t.streams, st.localId, st.remoteId, 0);
    FindSame(s.streams, Delivered(s, i, data).streams, st.localId, st.remoteId, 0);
    var u := HandleReady(cfg, t, st.remoteId, st.localId, []).0;
    assert u.streams == Delivered(s, i, data).streams;
  }

  lemma RunTwo(cfg: Config, s: State, a: Event, b: Event)
    ensures Run(cfg, s, [a, b]) == Step(cfg, Step(cfg, s, a), b)
  {
    var mid := Step(cfg, s, a);
    assert [a, b][1..] == [b] && [b][1..] == [];
    assert Run(cfg, mid, [b]) == Run(cfg, Step(cfg, mid, b), []);
  }

  /**
   With a willing transport and a host that acknowledges, any list of payloads a service writes goes out
   as one WRTE each, complete and in order, and leaves the stream ready for more.
   */
  lemma {:induction false} DeliversAll(cfg: Config, s: State, i: nat, payloads: seq<seq<Byte>>)
    requires Ready(s, i) && Willing(cfg, s) && forall k :: 0 <= k < |payloads| ==> |payloads[k]| <= Limit(cfg, s)
    ensures var t := Run(cfg, s, WriteAndAckAll(s, i, payloads));
            t.wire == s.wire + Wrtes(s.streams[i], payloads) && Ready(t, i)
    decreases |payloads|
  {
    if payloads != [] {
      var mid := Delivered(s, i, payloads[0]);
      AckFrees(cfg, s, i, payloads[0]);
      RunTwo(cfg, s, ServiceWrite(i, 0, payloads[0]), GotReady(s.streams[i].remoteId, s.streams[i].localId, []));
      RunAppend(cfg, s, WriteAndAck(s, i, payloads[0]), WriteAndAckAll(s, i, payloads[1..]));
      SameEvents(s, mid, i, payloads[1..]);
      DeliversAll(cfg, mid, i, payloads[1..]);
      Assoc(s.wire, [Packet(WRTE, s.streams[i].localId, s.streams[i].remoteId, payloads[0])],
            Wrtes(s.streams[i], payloads[1..]));
    }
  }

  lemma {:induction false} SameEvents(s: State, t: State, i: nat, payloads: seq<seq<Byte>>)
    requires i < |s.streams| && i < |t.streams|
    requires s.streams[i].localId == t.streams[i].localId && s.streams[i].remoteId == t.streams[i].remoteId
    ensures WriteAndAckAll(s, i, payloads) == WriteAndAckAll(t, i, payloads)
    ensures Wrtes(s.streams[i], payloads) == Wrtes(t.streams[i], payloads)
  {
    if payloads != [] {
      SameEvents(s, t, i, payloads[1..]);
    }
  }

  // ---------- a failing write callback breaks stop and wait ----------

  const Demo := Config(4, 128, 512, 512, 4096, [], n => if n == 3 then EIO else Ok)

  /** Connect; open a stream whose service writes at once; a write that fails while the CLSE cannot go out. */
  const DemoEvents: seq<Event> :=
    [GotConnect(4096), GotOpen(1, [DoWrite(0, 0, [7])], Ok), GotWrite(1, 1, [], EIO), ServiceWrite(0, 0, [8])]

  /** Two WRTEs are then out on one stream and neither was acknowledged. */
  lemma FailingWriteBreaksStopAndWait()
    ensures var st := Run(Demo, Initially(Demo, 1), DemoEvents).streams[0];
            st.used && |st.sent| == 2 && st.acks == 0 && st.waived == 1
  {
    hide Step;
    var s0 := Initially(Demo, 1);
    DemoConnect(s0);
    var s1 := Step(Demo, s0, DemoEvents[0]);
    DemoOpen(s1);
    var s2 := Step(Demo, s1, DemoEvents[1]);
    DemoFail(s2);
    var s3 := Step(Demo, s2, DemoEvents[2]);
    DemoWrite(s3);
    var s4 := Step(Demo, s3, DemoEvents[3]);
    assert DemoEvents[1..][1..][1..][1..] == [];
    assert Run(Demo, s0, DemoEvents) == Run(Demo, s1, DemoEvents[1..]);
    assert Run(Demo, s1, DemoEvents[1..]) == Run(Demo, s2, DemoEvents[1..][1..]);
    assert Run(Demo, s2, DemoEvents[1..][1..]) == Run(Demo, s3, DemoEvents[1..][1..][1..]);
    assert Run(Demo, s3, DemoEvents[1..][1..][1..]) == Run(Demo, s4, []);
  }

  lemma DemoConnect(s: State)
    requires s == Initially(Demo, 1)
    ensures var t := Step(Demo, s, DemoEvents[0]);
            && t.online && t.ring == [] && t.attempts == 1 && t.streams == [Free] && t.negotiated == 4096
            && t.nextLocalId == 1
  {
  }

  /** A stream that sent [7]; `waiting` tells whether its acknowledgement is awaited. */
  ghost predicate DemoStream(s: State, waiting: bool, waived: nat) {
    && s.ring == [] && s.negotiated == 4096 && s.online && |s.streams| == 1
    && var st := s.streams[0];
    && st.used && st.awaitingAck == waiting && !st.txPending && st.localId == 1 && st.remoteId == 1
    && st.sent == [[7]] && st.acks == 0 && st.waived == waived
  }

  lemma DemoFail(s: State)
    requires s.attempts == 3 && DemoStream(s, true, 0) && !s.streams[0].closePending
    ensures var t := Step(Demo, s, DemoEvents[2]); t.attempts == 4 && DemoStream(t, false, 1)
  {
    assert Find(s.streams, 1, 1, 0) == 0;
    assert Act(Demo, s, []) == s;
  }

  lemma DemoWrite(s: State)
    requires s.attempts == 4 && DemoStream(s, false, 1)
    ensures var st := Step(Demo, s, DemoEvents[3]).streams[0];
            st.used && |st.sent| == 2 && st.acks == 0 && st.waived == 1
  {
  }

  lemma DemoOpen(s: State)
    requires s.online && s.ring == [] && s.attempts == 1 && s.streams == [Free] && s.negotiated == 4096
    requires s.nextLocalId == 1
    ensures var t := Step(Demo, s, DemoEvents[1]);
            t.attempts == 3 && DemoStream(t, true, 0) && !t.streams[0].closePending
  {
    var actions := [DoWrite(0, 0, [7])];
    assert FirstFree(s.streams, 0) == 0;
    var t := Allocate(s, 0, 1);
    var u := ActOnce(Demo, t, actions[0]);
    assert Act(Demo, t, actions) == Act(Demo, u, actions[1..]) == u;
    assert u.streams[0].txPending && u.streams[0].txData == [7];
  }
}

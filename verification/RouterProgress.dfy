/**
 The router gets on. A service's write is taken or undone, a transport that is ready again gets everything that was
 held back, and with one that is always ready nothing is ever left to do.
 */
module RouterProgress {
  import opened Bytes
  import opened Errno
  import opened Router
  import opened RouterProofs
  import opened RouterAnswers

  // ---------- writes of a service ----------

  /** Why a write of a service is refused; generation 0 matches any. */
  function WriteRefusal(cfg: Config, s: State, i: nat, generation: U32, size: nat): Status {
    if i >= |s.streams| || !s.streams[i].used || (generation != 0 && s.streams[i].generation != generation) then EINVAL
    else if size > Limit(cfg, s) then EMSGSIZE
    else if s.streams[i].txPending || s.streams[i].awaitingAck then EBUSY
    else if s.ring != [] || FlowControl(cfg.send(s.attempts)) then Ok
    else cfg.send(s.attempts)
  }

  /** Nothing is sent, queued or taken; every stream is as it was but for the bytes left in an empty slot. */
  ghost predicate Undone(s: State, t: State) {
    && t == s.(streams := t.streams, attempts := t.attempts) && |t.streams| == |s.streams|
    && forall j :: 0 <= j < |s.streams| ==>
         || t.streams[j] == s.streams[j]
         || (!s.streams[j].txPending && t.streams[j] == s.streams[j].(txData := t.streams[j].txData))
  }

  /**
   In every state a service's write succeeds exactly when the stream is live and idle, the data fit and the transport
   does not fail outright. Then the payload is the last one taken from the service; otherwise everything is undone.
   */
  lemma WritesExactly(cfg: Config, s: State, i: nat, generation: U32, data: seq<Byte>)
    ensures var (t, status) := Write(cfg, s, i, generation, data, false);
            && status == WriteRefusal(cfg, s, i, generation, |data|)
            && (status == Ok ==>
                  i < |t.streams| && t.streams[i].used && t.streams[i].taken == s.streams[i].taken + [data])
            && (status != Ok ==> Undone(s, t))
  {
    hide Flush;
    if i < |s.streams| && s.streams[i].used && (generation == 0 || s.streams[i].generation == generation)
       && |data| <= Limit(cfg, s) && !s.streams[i].txPending && !s.streams[i].awaitingAck {
      hide Write;
      IdleWrites(cfg, s, i, generation, data);
    }
  }

  lemma IdleWrites(cfg: Config, s: State, i: nat, generation: U32, data: seq<Byte>)
    requires i < |s.streams| && s.streams[i].used && (generation == 0 || s.streams[i].generation == generation)
    requires |data| <= Limit(cfg, s) && !s.streams[i].txPending && !s.streams[i].awaitingAck
    ensures var (t, status) := Write(cfg, s, i, generation, data, false);
            && status == WriteRefusal(cfg, s, i, generation, |data|)
            && (status == Ok ==> t.streams[i].used && t.streams[i].taken == s.streams[i].taken + [data])
            && (status != Ok ==> t == Put(s, i, s.streams[i].(txData := [])).(attempts := t.attempts))
  {
    var st := s.streams[i];
    var filled := Put(s, i, st.(txData := data, txPending := true, taken := st.taken + [data]));
    FlushFailure(cfg, filled, i);
    SlotOnly(cfg, filled, i);
  }

  /** With a full slot, flushing is sending it. */
  lemma SlotOnly(cfg: Config, s: State, i: nat)
    requires i < |s.streams| && s.streams[i].txPending && !s.streams[i].awaitingAck
    ensures Flush(cfg, s, i) == FlushSlot(cfg, s, i)
    ensures FlushSlot(cfg, s, i).1 == if s.ring != [] then ENOSPC else cfg.send(s.attempts)
    ensures FlushSlot(cfg, s, i).0.streams[i].used == s.streams[i].used
    ensures FlushSlot(cfg, s, i).0.streams[i].taken == s.streams[i].taken
  {
  }

  // ---------- a transport that is ready again ----------

  /** Nothing of the stream waits for the transport. */
  predicate Settled(st: Stream) { st.used ==> !st.txPending && (st.closePending ==> st.awaitingAck) }

  lemma FlushSettles(cfg: Config, s: State, i: nat)
    requires StreamsOk(cfg, s) && i < |s.streams| && s.ring == [] && Willing(cfg, s)
    ensures var (t, status) := Flush(cfg, s, i);
            && status == Ok && t.ring == [] && Willing(cfg, t) && Settled(t.streams[i]) && StreamsOk(cfg, t)
            && (forall j :: 0 <= j < |s.streams| && j != i ==> t.streams[j] == s.streams[j])
  {
    assert StreamOk(s.streams[i], Limit(cfg, s));
    assert cfg.send(s.attempts) == Ok && cfg.send(s.attempts + 1) == Ok;
  }

  lemma {:induction false} FlushFromSettles(cfg: Config, s: State, i: nat)
    requires StreamsOk(cfg, s) && i <= |s.streams| && s.ring == [] && Willing(cfg, s)
    requires forall j :: 0 <= j < i ==> Settled(s.streams[j])
    ensures var t := FlushFrom(cfg, s, i); t.ring == [] && forall j :: 0 <= j < |t.streams| ==> Settled(t.streams[j])
    decreases |s.streams| - i
  {
    hide Flush;
    hide StreamsOk;
    hide Willing;
    if i < |s.streams| {
      if s.streams[i].used && (s.streams[i].txPending || s.streams[i].closePending) {
        FlushSettles(cfg, s, i);
        FlushFromSettles(cfg, Flush(cfg, s, i).0, i + 1);
      } else {
        FlushFromSettles(cfg, s, i + 1);
      }
    }
  }

  /**
   In every reachable state with a connection: once the transport takes packets again, everything that waited for it
   goes out. The ring is empty, no slot is full, and no close is pending but behind an acknowledgement.
   */
  lemma ReadyFlushesAll(cfg: Config, n: nat, events: seq<Event>)
    requires Run(cfg, Initially(cfg, n), events).online && Willing(cfg, Run(cfg, Initially(cfg, n), events))
    ensures var t := Step(cfg, Run(cfg, Initially(cfg, n), events), TransportReady);
            && t.ring == [] && t.wire == t.accepted
            && forall j :: 0 <= j < |t.streams| ==> Settled(t.streams[j])
  {
    var s := Run(cfg, Initially(cfg, n), events);
    ReachableInv(cfg, n, events);
    StepKeeps(cfg, s, TransportReady);
    ReadySettles(cfg, s);
  }

  lemma ReadySettles(cfg: Config, s: State)
    requires StreamsOk(cfg, s) && s.online && Willing(cfg, s)
    ensures var t := TxReady(cfg, s); t.ring == [] && forall j :: 0 <= j < |t.streams| ==> Settled(t.streams[j])
  {
    hide Pump;
    hide FlushFrom;
    hide StreamOk;
    PumpDrains(cfg, s);
    PumpKeepsStreams(cfg, s);
    PumpAttempts(cfg, s);
    FlushFromSettles(cfg, Pump(cfg, s).0, 0);
  }

  lemma {:induction false} PumpAttempts(cfg: Config, s: State)
    ensures Pump(cfg, s).0.attempts >= s.attempts
    decreases |s.ring|
  {
    if s.ring != [] {
      PumpAttempts(cfg, Transmit(cfg, s, s.ring[0]).0.(ring := s.ring[1..]));
    }
  }

  // ---------- a transport that is always ready ----------

  ghost predicate AlwaysWilling(cfg: Config) { forall n :: cfg.send(n) == Ok }

  /** Nothing waits for the transport. */
  ghost predicate AllSettled(s: State) {
    s.ring == [] && forall j :: 0 <= j < |s.streams| ==> Settled(s.streams[j])
  }

  /** The service touches only stream `i`. */
  predicate Only(actions: seq<Action>, i: nat) { forall k :: 0 <= k < |actions| ==> actions[k].stream == i }

  /** Services use their own streams only. */
  predicate KeepsToItself(s: State, e: Event) {
    match e
    case GotOpen(_, actions, _) => Only(actions, FirstFree(s.streams, 0))
    case GotWrite(arg0, arg1, actions, _) => Only(actions, Find(s.streams, arg1, arg0, 0))
    case GotReady(arg0, arg1, actions) => Only(actions, Find(s.streams, arg1, arg0, 0))
    case _ => true
  }

  /** All streams but `i` are settled. */
  ghost predicate SettledBut(cfg: Config, s: State, i: nat) {
    StreamsOk(cfg, s) && s.ring == [] && forall j :: 0 <= j < |s.streams| && j != i ==> Settled(s.streams[j])
  }

  lemma {:induction false} ActOnly(cfg: Config, s: State, actions: seq<Action>, i: nat)
    requires Only(actions, i)
    ensures forall j :: 0 <= j < |s.streams| && j != i ==> Act(cfg, s, actions).streams[j] == s.streams[j]
    decreases |actions|
  {
    if actions != [] {
      ActOnly(cfg, ActOnce(cfg, s, actions[0]), actions[1..], i);
    }
  }

  lemma ActSettled(cfg: Config, s: State, actions: seq<Action>, i: nat)
    requires SettledBut(cfg, s, i) && Only(actions, i)
    ensures SettledBut(cfg, Act(cfg, s, actions), i)
  {
    hide Act;
    hide StreamOk;
    ActKeeps(cfg, s, actions);
    ActOnly(cfg, s, actions, i);
  }

  lemma FlushAllSettled(cfg: Config, s: State, i: nat)
    requires AlwaysWilling(cfg) && SettledBut(cfg, s, i) && i < |s.streams|
    ensures AllSettled(Flush(cfg, s, i).0)
  {
    hide Flush;
    hide StreamOk;
    FlushSettles(cfg, s, i);
  }

  lemma ReleaseSettled(cfg: Config, s: State, i: nat)
    requires SettledBut(cfg, s, i) && i < |s.streams|
    ensures AllSettled(Release(s, i)) && SettledBut(cfg, Release(s, i), i)
  {
  }

  lemma ControlSettled(cfg: Config, s: State, p: Packet, i: nat)
    requires AlwaysWilling(cfg)
    ensures var (t, status) := SendControl(cfg, s, p);
            && (AllSettled(s) ==> AllSettled(t)) && (s.ring == [] ==> status == Ok)
            && (SettledBut(cfg, s, i) ==> SettledBut(cfg, t, i)) && t.streams == s.streams
  {
    hide StreamOk;
    hide Settled;
    assert cfg.send(s.attempts) == Ok;
  }

  lemma OpenSettles(cfg: Config, s: State, remoteId: U32, actions: seq<Action>, result: Status)
    requires AlwaysWilling(cfg) && Inv(cfg, s) && AllSettled(s) && Only(actions, FirstFree(s.streams, 0))
    ensures AllSettled(Open(cfg, s, remoteId, actions, result).0)
  {
    hide Act;
    hide SendControl;
    hide Flush;
    hide AlwaysWilling;
    hide Announced;
    hide QueueOk;
    hide ClosedOk;
    var i := FirstFree(s.streams, 0);
    ControlSettled(cfg, s, Clse(0, remoteId), i);
    if i < |s.streams| {
      var a := Allocate(s, i, remoteId);
      AllocateKeeps(cfg, s, i, remoteId);
      assert SettledBut(cfg, a, i);
      ActSettled(cfg, a, actions, i);
      var t := Act(cfg, a, actions);
      ReleaseSettled(cfg, t, i);
      ControlSettled(cfg, Release(t, i), Clse(0, remoteId), i);
      var p := Packet(OKAY, t.streams[i].localId, t.streams[i].remoteId, []);
      ControlSettled(cfg, t, p, i);
      var u := SendControl(cfg, t, p).0;
      FlushAllSettled(cfg, u, i);
      FlushSucceeds(cfg, u, i);
    }
  }

  lemma FlushSucceeds(cfg: Config, s: State, i: nat)
    requires AlwaysWilling(cfg) && SettledBut(cfg, s, i) && i < |s.streams|
    ensures Flush(cfg, s, i).1 == Ok
  {
    FlushSettles(cfg, s, i);
  }

  lemma GotWriteSettles(cfg: Config, s: State, arg0: U32, arg1: U32, actions: seq<Action>, written: Status)
    requires AlwaysWilling(cfg) && StreamsOk(cfg, s) && AllSettled(s) && Only(actions, Find(s.streams, arg1, arg0, 0))
    ensures AllSettled(HandleWrite(cfg, s, arg0, arg1, actions, written).0)
  {
    hide Act;
    hide SendControl;
    hide Flush;
    hide AlwaysWilling;
    var i := Find(s.streams, arg1, arg0, 0);
    ControlSettled(cfg, s, Clse(0, arg0), i);
    if i < |s.streams| {
      ActSettled(cfg, s, actions, i);
      var t := Act(cfg, s, actions);
      var failed := Put(t, i, WriteFailed(t.streams[i]));
      assert SettledBut(cfg, failed, i);
      FlushAllSettled(cfg, failed, i);
      var p := Packet(OKAY, t.streams[i].localId, t.streams[i].remoteId, []);
      ControlSettled(cfg, t, p, i);
      FlushAllSettled(cfg, SendControl(cfg, t, p).0, i);
    }
  }

  lemma GotReadySettles(cfg: Config, s: State, arg0: U32, arg1: U32, actions: seq<Action>)
    requires AlwaysWilling(cfg) && StreamsOk(cfg, s) && AllSettled(s) && Only(actions, Find(s.streams, arg1, arg0, 0))
    ensures AllSettled(HandleReady(cfg, s, arg0, arg1, actions).0)
  {
    hide Act;
    hide Flush;
    hide AlwaysWilling;
    var i := Find(s.streams, arg1, arg0, 0);
    if i < |s.streams| && s.streams[i].awaitingAck {
      var acked := Put(s, i, s.streams[i].(awaitingAck := false, acks := s.streams[i].acks + 1));
      assert SettledBut(cfg, acked, i);
      ActKeeps(cfg, acked, actions);
      ActSettled(cfg, acked, actions, i);
      FlushAllSettled(cfg, Act(cfg, acked, actions), i);
    }
  }

  lemma ServiceSettles(cfg: Config, s: State, i: nat, generation: U32, data: seq<Byte>)
    requires AlwaysWilling(cfg) && StreamsOk(cfg, s) && AllSettled(s)
    ensures AllSettled(Write(cfg, s, i, generation, data, false).0) && AllSettled(Close(cfg, s, i, generation, false))
  {
    hide Flush;
    hide AlwaysWilling;
    if i < |s.streams| {
      var st := s.streams[i];
      var closing := Put(s, i, st.(closePending := true));
      assert SettledBut(cfg, closing, i);
      FlushAllSettled(cfg, closing, i);
      if |data| <= Limit(cfg, s) && !st.txPending && !st.awaitingAck {
        FillKeeps(cfg, s, i, data);
        var filled := Put(s, i, st.(txData := data, txPending := true, taken := st.taken + [data]));
        FlushAllSettled(cfg, filled, i);
        FlushSucceeds(cfg, filled, i);
      }
    }
  }

  lemma StepSettles(cfg: Config, s: State, e: Event)
    requires AlwaysWilling(cfg) && Inv(cfg, s) && AllSettled(s) && KeepsToItself(s, e)
    ensures AllSettled(Step(cfg, s, e))
  {
    hide AlwaysWilling;
    hide AllSettled;
    hide SendControl;
    hide Open;
    hide HandleWrite;
    hide HandleReady;
    hide Write;
    hide Close;
    hide TxReady;
    hide Announced;
    hide QueueOk;
    hide ClosedOk;
    hide StreamsOk;
    match e
    case GotConnect(arg1) => FreshSettled(cfg, s, arg1);
    case GotOpen(remoteId, actions, result) => OpenSettles(cfg, s, remoteId, actions, result);
    case GotTrack(remoteId) => TrackSettles(cfg, s, remoteId);
    case GotUnknownService(remoteId) => ControlSettled(cfg, s, Clse(0, remoteId), 0);
    case GotWrite(arg0, arg1, actions, written) => GotWriteSettles(cfg, s, arg0, arg1, actions, written);
    case GotReady(arg0, arg1, actions) => GotReadySettles(cfg, s, arg0, arg1, actions);
    case GotClose(arg0, arg1) => GotCloseSettles(cfg, s, arg0, arg1);
    case ServiceWrite(i, g, data) => ServiceSettles(cfg, s, i, g, data);
    case ServiceClose(i, g) => ServiceSettles(cfg, s, i, g, []);
    case TransportReady =>
      ReadySettledAll(cfg, s);
    case TransportReset => FreshSettled(cfg, s, 0);
  }

  lemma ReadySettledAll(cfg: Config, s: State)
    requires AlwaysWilling(cfg) && StreamsOk(cfg, s) && AllSettled(s)
    ensures AllSettled(TxReady(cfg, s))
  {
    if s.online {
      hide TxReady;
      hide StreamOk;
      ReadySettles(cfg, s);
    }
  }

  lemma FreshSettled(cfg: Config, s: State, arg1: U32)
    requires AlwaysWilling(cfg)
    ensures AllSettled(Reset(cfg, s)) && AllSettled(HandleConnect(cfg, s, arg1).0)
  {
    hide SendControl;
    var u := Reset(cfg, s).(negotiated := Min(arg1, cfg.maxPayload));
    ControlSettled(cfg, u, Packet(CNXN, 0x0100_0000, cfg.maxPayload, cfg.banner), 0);
  }

  lemma TrackSettles(cfg: Config, s: State, remoteId: U32)
    requires AlwaysWilling(cfg) && AllSettled(s)
    ensures AllSettled(SendControl(cfg, s.(nextLocalId := Next(s.nextLocalId)), Okay(s.nextLocalId, remoteId)).0)
  {
    hide SendControl;
    ControlSettled(cfg, s.(nextLocalId := Next(s.nextLocalId)), Okay(s.nextLocalId, remoteId), 0);
  }

  lemma GotCloseSettles(cfg: Config, s: State, arg0: U32, arg1: U32)
    requires AlwaysWilling(cfg) && AllSettled(s)
    ensures AllSettled(HandleClose(cfg, s, arg0, arg1).0)
  {
    hide SendControl;
    var i := Find(s.streams, arg1, arg0, 0);
    if i < |s.streams| {
      ControlSettled(cfg, s, Packet(CLSE, s.streams[i].localId, s.streams[i].remoteId, []), i);
    }
  }

  /** Services use their own streams only, throughout the run. */
  predicate AllKeepToThemselves(cfg: Config, s: State, events: seq<Event>)
    decreases |events|
  {
    events == [] || (KeepsToItself(s, events[0]) && AllKeepToThemselves(cfg, Step(cfg, s, events[0]), events[1..]))
  }

  lemma {:induction false} RunSettles(cfg: Config, s: State, events: seq<Event>)
    requires AlwaysWilling(cfg) && Inv(cfg, s) && AllSettled(s) && AllKeepToThemselves(cfg, s, events)
    ensures AllSettled(Run(cfg, s, events))
    decreases |events|
  {
    hide AlwaysWilling;
    hide Inv;
    hide AllSettled;
    hide Step;
    hide KeepsToItself;
    if events != [] {
      StepSettles(cfg, s, events[0]);
      StepKeeps(cfg, s, events[0]);
      RunSettles(cfg, Step(cfg, s, events[0]), events[1..]);
    }
  }

  /**
   In every run with a transport that takes every packet and services that use their own streams: at the end of every
   event nothing is left to do. No control packet and no payload waits, and no close is pending but behind an
   acknowledgement.
   */
  lemma NothingIsLeft(cfg: Config, n: nat, events: seq<Event>)
    requires AlwaysWilling(cfg) && AllKeepToThemselves(cfg, Initially(cfg, n), events)
    ensures AllSettled(Run(cfg, Initially(cfg, n), events))
  {
    FreshKeeps(cfg, Initially(cfg, n));
    RunSettles(cfg, Initially(cfg, n), events);
  }
}

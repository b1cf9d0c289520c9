/**
 Local ids of streams: until 2^32 - 1 of them have been given out since the last connection, no id is given twice,
 so a packet with an id belongs to the one stream that got it.
 */
module RouterIds {
  import opened Bytes
  import opened Errno
  import opened Router
  import opened RouterProofs

  const MAX_IDS: nat := 0xFFFF_FFFF

  // ---------- how many ids were given out ----------

  predicate Restarts(e: Event) { e.GotConnect? || e.TransportReset? }

  /** How many ids an event takes: every stream gets one, and so does a request to track. */
  function Gives(s: State, e: Event): nat {
    if s.online && ((e.GotTrack? && e.remoteId != 0)
                    || (e.GotOpen? && e.remoteId != 0 && FirstFree(s.streams, 0) < |s.streams|)) then 1 else 0
  }

  /** How many ids have been given out since the last connection, `g` of them before `events`. */
  function Given(cfg: Config, s: State, events: seq<Event>, g: nat): nat
    decreases |events|
  {
    if events == [] then g
    else Given(cfg, Step(cfg, s, events[0]), events[1..], if Restarts(events[0]) then 0 else g + Gives(s, events[0]))
  }

  // ---------- what does not give out ids ----------

  /** Only ids up to `g` occur. */
  ghost predicate Bounded(s: State, g: nat) {
    && (forall i :: 0 <= i < |s.streams| ==> s.streams[i].localId <= g)
    && (forall i :: 0 <= i < |s.accepted| && s.accepted[i].command != CNXN ==> s.accepted[i].arg0 <= g)
  }

  /** Streams in use were in use before under the same ids. */
  ghost predicate Narrows(s: State, t: State) {
    && t.nextLocalId == s.nextLocalId && t.nextGeneration == s.nextGeneration && |t.streams| == |s.streams|
    && forall i :: 0 <= i < |s.streams| ==>
         && (t.streams[i].localId == s.streams[i].localId || t.streams[i].localId == 0)
         && (t.streams[i].used ==>
               && s.streams[i].used && t.streams[i].localId == s.streams[i].localId
               && t.streams[i].remoteId == s.streams[i].remoteId && t.streams[i].generation == s.streams[i].generation)
  }

  ghost predicate Calm(s: State, t: State, g: nat) { Bounded(t, g) && Narrows(s, t) }

  lemma CalmTrans(s: State, t: State, u: State, g: nat)
    requires Calm(s, t, g) && Calm(t, u, g)
    ensures Calm(s, u, g)
  {
    hide Bounded;
  }

  lemma ControlCalm(cfg: Config, s: State, p: Packet, g: nat)
    requires Bounded(s, g) && (p.command == CNXN || p.arg0 <= g)
    ensures Calm(s, SendControl(cfg, s, p).0, g) && SendControl(cfg, s, p).0.streams == s.streams
  {
  }

  lemma SlotCalm(cfg: Config, s: State, i: nat, g: nat)
    requires Bounded(s, g) && i < |s.streams|
    ensures Calm(s, FlushSlot(cfg, s, i).0, g)
  {
  }

  lemma ReleaseCalm(s: State, i: nat, g: nat)
    requires Bounded(s, g) && i < |s.streams|
    ensures Calm(s, Release(s, i), g)
  {
  }

  lemma FlushCloseCalm(cfg: Config, s: State, i: nat, g: nat)
    requires Bounded(s, g) && i < |s.streams|
    ensures Calm(s, FlushClose(cfg, s, i).0, g)
  {
    hide SendControl;
    var p := Packet(CLSE, s.streams[i].localId, s.streams[i].remoteId, []);
    ControlCalm(cfg, s, p, g);
    var t := SendControl(cfg, s, p).0;
    ReleaseCalm(t, i, g);
    CalmTrans(s, t, Release(t, i), g);
  }

  lemma FlushCalm(cfg: Config, s: State, i: nat, g: nat)
    requires Bounded(s, g) && i < |s.streams|
    ensures Calm(s, Flush(cfg, s, i).0, g)
  {
    hide FlushSlot;
    hide FlushClose;
    SlotCalm(cfg, s, i, g);
    var t := FlushSlot(cfg, s, i).0;
    FlushCloseCalm(cfg, t, i, g);
    CalmTrans(s, t, FlushClose(cfg, t, i).0, g);
  }

  lemma SameIdsCalm(s: State, t: State, g: nat)
    requires Bounded(s, g) && SameIds(s, t)
    ensures Calm(s, t, g)
  {
  }

  lemma ActCalm(cfg: Config, s: State, actions: seq<Action>, g: nat)
    requires StreamsOk(cfg, s) && Bounded(s, g)
    ensures Calm(s, Act(cfg, s, actions), g) && SameIds(s, Act(cfg, s, actions))
  {
    ActKeeps(cfg, s, actions);
    SameIdsCalm(s, Act(cfg, s, actions), g);
  }

  lemma WriteCalm(cfg: Config, s: State, i: nat, generation: U32, data: seq<Byte>, g: nat)
    requires Bounded(s, g)
    ensures Calm(s, Write(cfg, s, i, generation, data, false).0, g)
  {
    hide Flush;
    if i < |s.streams| {
      var st := s.streams[i];
      var filled := Put(s, i, st.(txData := data, txPending := true, taken := st.taken + [data]));
      SameIdsCalm(s, filled, g);
      FlushCalm(cfg, filled, i, g);
      CalmTrans(s, filled, Flush(cfg, filled, i).0, g);
      if !st.txPending && !st.awaitingAck {
        FlushFailure(cfg, filled, i);
      }
    }
  }

  lemma CloseCalm(cfg: Config, s: State, i: nat, generation: U32, g: nat)
    requires Bounded(s, g)
    ensures Calm(s, Close(cfg, s, i, generation, false), g)
  {
    hide Flush;
    if i < |s.streams| {
      var t := Put(s, i, s.streams[i].(closePending := true));
      SameIdsCalm(s, t, g);
      FlushCalm(cfg, t, i, g);
      CalmTrans(s, t, Flush(cfg, t, i).0, g);
    }
  }

  lemma GotWriteCalm(cfg: Config, s: State, arg0: U32, arg1: U32, actions: seq<Action>, written: Status, g: nat)
    requires StreamsOk(cfg, s) && Bounded(s, g)
    ensures Calm(s, HandleWrite(cfg, s, arg0, arg1, actions, written).0, g)
  {
    hide Act;
    hide Flush;
    hide SendControl;
    hide StreamsOk;
    ControlCalm(cfg, s, Packet(CLSE, 0, arg0, []), g);
    var i := Find(s.streams, arg1, arg0, 0);
    if i < |s.streams| {
      ActCalm(cfg, s, actions, g);
      var t := Act(cfg, s, actions);
      var p := Packet(OKAY, t.streams[i].localId, t.streams[i].remoteId, []);
      var u := if written != Ok then Put(t, i, WriteFailed(t.streams[i])) else SendControl(cfg, t, p).0;
      if written != Ok {
        SameIdsCalm(t, u, g);
      } else {
        ControlCalm(cfg, t, p, g);
      }
      CalmTrans(s, t, u, g);
      FlushCalm(cfg, u, i, g);
      CalmTrans(s, u, Flush(cfg, u, i).0, g);
    }
  }

  lemma GotReadyCalm(cfg: Config, s: State, arg0: U32, arg1: U32, actions: seq<Action>, g: nat)
    requires Inv(cfg, s) && Bounded(s, g)
    ensures Calm(s, HandleReady(cfg, s, arg0, arg1, actions).0, g)
  {
    hide Act;
    hide Flush;
    hide Announced;
    hide QueueOk;
    hide ClosedOk;
    var i := Find(s.streams, arg1, arg0, 0);
    if i < |s.streams| && s.streams[i].awaitingAck {
      var acked := Put(s, i, s.streams[i].(awaitingAck := false, acks := s.streams[i].acks + 1));
      AckKeeps(cfg, s, i);
      SameIdsCalm(s, acked, g);
      ActCalm(cfg, acked, actions, g);
      var t := Act(cfg, acked, actions);
      CalmTrans(s, acked, t, g);
      FlushCalm(cfg, t, i, g);
      CalmTrans(s, t, Flush(cfg, t, i).0, g);
    }
  }

  lemma GotCloseCalm(cfg: Config, s: State, arg0: U32, arg1: U32, g: nat)
    requires Bounded(s, g)
    ensures Calm(s, HandleClose(cfg, s, arg0, arg1).0, g)
  {
    hide SendControl;
    var i := Find(s.streams, arg1, arg0, 0);
    if i < |s.streams| {
      var p := Packet(CLSE, s.streams[i].localId, s.streams[i].remoteId, []);
      ControlCalm(cfg, s, p, g);
      var t := SendControl(cfg, s, p).0;
      ReleaseCalm(t, i, g);
      CalmTrans(s, t, Release(t, i), g);
    }
  }

  lemma {:induction false} FlushFromCalm(cfg: Config, s: State, i: nat, g: nat)
    requires Bounded(s, g) && i <= |s.streams|
    ensures Calm(s, FlushFrom(cfg, s, i), g)
    decreases |s.streams| - i
  {
    hide Flush;
    if i < |s.streams| {
      FlushCalm(cfg, s, i, g);
      var t := Flush(cfg, s, i).0;
      FlushFromCalm(cfg, t, i + 1, g);
      FlushFromCalm(cfg, s, i + 1, g);
      CalmTrans(s, t, FlushFrom(cfg, t, i + 1), g);
    }
  }

  lemma {:induction false} PumpIds(cfg: Config, s: State)
    ensures var t := Pump(cfg, s).0;
            && t.nextLocalId == s.nextLocalId && t.nextGeneration == s.nextGeneration
            && t.accepted == s.accepted && t.streams == s.streams
    decreases |s.ring|
  {
    if s.ring != [] {
      var (t, status) := Transmit(cfg, s, s.ring[0]);
      if status == Ok {
        PumpIds(cfg, t.(ring := s.ring[1..]));
      }
    }
  }

  lemma TxReadyCalm(cfg: Config, s: State, g: nat)
    requires Bounded(s, g)
    ensures Calm(s, TxReady(cfg, s), g)
  {
    hide Pump;
    hide FlushFrom;
    PumpIds(cfg, s);
    var t := Pump(cfg, s).0;
    assert Calm(s, t, g);
    FlushFromCalm(cfg, t, 0, g);
    CalmTrans(s, t, FlushFrom(cfg, t, 0), g);
  }

  // ---------- ids ----------

  /** The id the router gives out next, after `g` of them. */
  function NextAfter(g: nat): nat { if g < MAX_IDS then g + 1 else 1 }

  /** As long as the ids last: they were given out in order, and live streams have different ones. */
  ghost predicate IdsOk(s: State, g: nat) {
    g <= MAX_IDS ==>
      && s.nextLocalId == NextAfter(g) && Bounded(s, g)
      && forall i, j :: 0 <= i < j < |s.streams| && s.streams[i].used && s.streams[j].used ==>
           s.streams[i].localId != s.streams[j].localId
  }

  lemma CalmIds(s: State, t: State, g: nat)
    requires IdsOk(s, g) && (g <= MAX_IDS ==> Calm(s, t, g))
    ensures IdsOk(t, g)
  {
    hide Bounded;
  }

  lemma AllocateIds(s: State, i: nat, remoteId: U32, g: nat)
    requires IdsOk(s, g) && g < MAX_IDS && i < |s.streams|
    ensures IdsOk(Allocate(s, i, remoteId), g + 1)
  {
  }

  lemma OpenIds(cfg: Config, s: State, remoteId: U32, actions: seq<Action>, result: Status, g: nat)
    requires Inv(cfg, s) && IdsOk(s, g) && g < MAX_IDS && FirstFree(s.streams, 0) < |s.streams|
    ensures IdsOk(Open(cfg, s, remoteId, actions, result).0, g + 1)
  {
    hide Act;
    hide SendControl;
    hide Flush;
    hide Announced;
    hide QueueOk;
    hide ClosedOk;
    hide Bounded;
    var i := FirstFree(s.streams, 0);
    var a := Allocate(s, i, remoteId);
    AllocateIds(s, i, remoteId, g);
    AllocateKeeps(cfg, s, i, remoteId);
    ActCalm(cfg, a, actions, g + 1);
    var t := Act(cfg, a, actions);
    ReleaseCalm(t, i, g + 1);
    var released := Release(t, i);
    var clse, okay := Packet(CLSE, 0, remoteId, []), Packet(OKAY, t.streams[i].localId, t.streams[i].remoteId, []);
    ControlCalm(cfg, released, clse, g + 1);
    BoundedAt(t, i, g + 1);
    ControlCalm(cfg, t, okay, g + 1);
    var u := SendControl(cfg, t, okay).0;
    FlushCalm(cfg, u, i, g + 1);
    var v := Flush(cfg, u, i).0;
    ReleaseCalm(u, i, g + 1);
    ReleaseCalm(v, i, g + 1);
    CalmIds(a, t, g + 1);
    CalmIds(t, released, g + 1);
    CalmIds(released, SendControl(cfg, released, clse).0, g + 1);
    CalmIds(t, u, g + 1);
    CalmIds(u, v, g + 1);
    CalmIds(u, Release(u, i), g + 1);
    CalmIds(v, Release(v, i), g + 1);
  }

  lemma BoundedAt(s: State, i: nat, g: nat)
    requires Bounded(s, g) && i < |s.streams|
    ensures s.streams[i].localId <= g
  {
  }

  lemma TrackIds(cfg: Config, s: State, remoteId: U32, g: nat)
    requires IdsOk(s, g) && g < MAX_IDS
    ensures IdsOk(SendControl(cfg, s.(nextLocalId := Next(s.nextLocalId)), Okay(s.nextLocalId, remoteId)).0, g + 1)
  {
    hide SendControl;
    var t := s.(nextLocalId := Next(s.nextLocalId));
    assert IdsOk(t, g + 1);
    ControlCalm(cfg, t, Okay(s.nextLocalId, remoteId), g + 1);
    CalmIds(t, SendControl(cfg, t, Okay(s.nextLocalId, remoteId)).0, g + 1);
  }

  lemma ConnectIds(cfg: Config, s: State, arg1: U32)
    ensures IdsOk(Reset(cfg, s), 0) && IdsOk(HandleConnect(cfg, s, arg1).0, 0)
  {
    hide SendControl;
    var t := Reset(cfg, s).(negotiated := Min(arg1, cfg.maxPayload));
    var p := Packet(CNXN, 0x0100_0000, cfg.maxPayload, cfg.banner);
    ControlCalm(cfg, t, p, 0);
    CalmIds(t, SendControl(cfg, t, p).0, 0);
  }

  /** An event that gives out no id and does not start again. */
  lemma StepCalm(cfg: Config, s: State, e: Event, g: nat)
    requires Inv(cfg, s) && Bounded(s, g) && !Restarts(e) && Gives(s, e) == 0
    ensures Calm(s, Step(cfg, s, e), g)
  {
    hide SendControl;
    match e
    case GotOpen(remoteId, _, _) => ControlCalm(cfg, s, Packet(CLSE, 0, remoteId, []), g);
    case GotUnknownService(remoteId) => ControlCalm(cfg, s, Packet(CLSE, 0, remoteId, []), g);
    case GotWrite(arg0, arg1, actions, written) => GotWriteCalm(cfg, s, arg0, arg1, actions, written, g);
    case GotReady(arg0, arg1, actions) => GotReadyCalm(cfg, s, arg0, arg1, actions, g);
    case GotClose(arg0, arg1) => GotCloseCalm(cfg, s, arg0, arg1, g);
    case ServiceWrite(i, generation, data) => WriteCalm(cfg, s, i, generation, data, g);
    case ServiceClose(i, generation) => CloseCalm(cfg, s, i, generation, g);
    case TransportReady => TxReadyCalm(cfg, s, g);
    case _ =>
  }

  lemma StepIds(cfg: Config, s: State, e: Event, g: nat)
    requires Inv(cfg, s) && IdsOk(s, g)
    ensures IdsOk(Step(cfg, s, e), if Restarts(e) then 0 else g + Gives(s, e))
  {
    hide Inv;
    hide Bounded;
    hide Open;
    hide HandleConnect;
    hide SendControl;
    if Restarts(e) {
      ConnectIds(cfg, s, if e.GotConnect? then e.arg1 else 0);
    } else if Gives(s, e) == 0 {
      if g <= MAX_IDS {
        StepCalm(cfg, s, e, g);
      }
      CalmIds(s, Step(cfg, s, e), g);
    } else if g < MAX_IDS {
      if e.GotTrack? {
        TrackIds(cfg, s, e.remoteId, g);
      } else {
        OpenIds(cfg, s, e.remoteId, e.actions, e.result, g);
      }
    }
  }

  lemma {:induction false} RunIds(cfg: Config, s: State, events: seq<Event>, g: nat)
    requires Inv(cfg, s) && IdsOk(s, g)
    ensures IdsOk(Run(cfg, s, events), Given(cfg, s, events, g))
    decreases |events|
  {
    hide Inv;
    hide IdsOk;
    hide Step;
    if events != [] {
      StepIds(cfg, s, events[0], g);
      StepKeeps(cfg, s, events[0]);
      RunIds(cfg, Step(cfg, s, events[0]), events[1..], if Restarts(events[0]) then 0 else g + Gives(s, events[0]));
    }
  }

  /**
   Over every run: as long as at most 2^32 - 1 ids were given out since the last connection, live streams have
   different local ids; and while there are ids left, the next one is in no stream and in no packet since then.
   */
  lemma IdsAreFresh(cfg: Config, n: nat, events: seq<Event>)
    ensures var s := Run(cfg, Initially(cfg, n), events); var g := Given(cfg, Initially(cfg, n), events, 0);
            && (g <= MAX_IDS ==>
                  forall i, j :: 0 <= i < j < |s.streams| && s.streams[i].used && s.streams[j].used ==>
                    s.streams[i].localId != s.streams[j].localId)
            && (g < MAX_IDS ==>
                  && (forall i :: 0 <= i < |s.streams| && s.streams[i].used ==> s.streams[i].localId != s.nextLocalId)
                  && (forall k :: 0 <= k < |s.accepted| && s.accepted[k].command != CNXN ==>
                        s.accepted[k].arg0 != s.nextLocalId))
  {
    hide Run;
    hide Given;
    var s0 := Initially(cfg, n);
    FreshKeeps(cfg, s0);
    assert IdsOk(s0, 0);
    RunIds(cfg, s0, events, 0);
  }
}

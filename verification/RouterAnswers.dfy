/**
 What the router answers. Every message of the host gets the reply the protocol asks for, ahead of anything else the
 message sets off; over a whole run a stream is answered once for its OPEN and once for every WRTE it took; and no
 payload is longer than the host offered.
 */
module RouterAnswers {
  import opened Bytes
  import opened Errno
  import opened Router
  import opened RouterProofs
  import opened RouterIds

  // ---------- replies ----------

  /** A control packet with `size` bytes of payload can be sent now or queued. */
  predicate CanAnswer(cfg: Config, s: State, size: nat) {
    if s.ring != [] then |s.ring| < cfg.depth && size <= cfg.controlSize
    else
      || cfg.send(s.attempts) == Ok
      || (FlowControl(cfg.send(s.attempts)) && 0 < cfg.depth && size <= cfg.controlSize)
  }

  /** A stream in use has these ids. */
  predicate Live(s: State, localId: U32, remoteId: U32) {
    exists i :: 0 <= i < |s.streams| && s.streams[i].used
                && s.streams[i].localId == localId && s.streams[i].remoteId == remoteId
  }

  predicate HasRoom(s: State) { exists i :: 0 <= i < |s.streams| && !s.streams[i].used }

  function Clse(localId: U32, remoteId: U32): Packet { Packet(CLSE, localId, remoteId, []) }

  /** What the protocol answers to a message of the host. */
  function Reply(s: State, e: Event): seq<Packet> {
    match e
    case GotOpen(remoteId, _, result) =>
      if !s.online || remoteId == 0 then []
      else if HasRoom(s) && result == Ok then [Okay(s.nextLocalId, remoteId)]
      else [Clse(0, remoteId)]
    case GotTrack(remoteId) => if !s.online || remoteId == 0 then [] else [Okay(s.nextLocalId, remoteId)]
    case GotUnknownService(remoteId) => if !s.online || remoteId == 0 then [] else [Clse(0, remoteId)]
    case GotWrite(arg0, arg1, _, written) =>
      if !Live(s, arg1, arg0) then [Clse(0, arg0)]
      else if written == Ok then [Okay(arg1, arg0)]
      else [Clse(arg1, arg0)]
    case GotClose(arg0, arg1) => if Live(s, arg1, arg0) then [Clse(arg1, arg0)] else []
    case _ => []
  }

  /** Behind what was accepted in `s` come only WRTEs within the limit and CLSEs. */
  ghost predicate Trails(cfg: Config, s: State, t: State) {
    && s.accepted <= t.accepted && t.negotiated == s.negotiated
    && forall k :: |s.accepted| <= k < |t.accepted| ==>
         || (t.accepted[k].command == WRTE && |t.accepted[k].payload| <= Limit(cfg, s))
         || t.accepted[k].command == CLSE
  }

  lemma TrailsTrans(cfg: Config, s: State, t: State, u: State)
    requires Trails(cfg, s, t) && Trails(cfg, t, u)
    ensures Trails(cfg, s, u)
  {
  }

  lemma TrailsSame(cfg: Config, s: State, t: State)
    requires t.accepted == s.accepted && t.negotiated == s.negotiated
    ensures Trails(cfg, s, t)
  {
  }

  /** A control packet is accepted exactly when it can be sent or queued. */
  lemma ControlAccepted(cfg: Config, s: State, p: Packet)
    ensures var (t, status) := SendControl(cfg, s, p);
            && (status == Ok <==> CanAnswer(cfg, s, |p.payload|))
            && t.accepted == (if status == Ok then s.accepted + [p] else s.accepted)
            && t.streams == s.streams && t.negotiated == s.negotiated
  {
  }

  lemma ControlTrails(cfg: Config, s: State, p: Packet)
    requires p.command == CLSE
    ensures Trails(cfg, s, SendControl(cfg, s, p).0)
  {
    hide SendControl;
    ControlAccepted(cfg, s, p);
  }

  // ---------- what flushing sends ----------

  lemma SlotTrails(cfg: Config, s: State, i: nat)
    requires StreamsOk(cfg, s) && i < |s.streams|
    ensures Trails(cfg, s, FlushSlot(cfg, s, i).0)
  {
    assert StreamOk(s.streams[i], Limit(cfg, s));
  }

  lemma FlushTrails(cfg: Config, s: State, i: nat)
    requires StreamsOk(cfg, s) && i < |s.streams|
    ensures Trails(cfg, s, Flush(cfg, s, i).0)
  {
    hide FlushSlot;
    hide SendControl;
    hide StreamsOk;
    SlotTrails(cfg, s, i);
    var t := FlushSlot(cfg, s, i).0;
    ControlTrails(cfg, t, Clse(t.streams[i].localId, t.streams[i].remoteId));
  }

  lemma WriteTrails(cfg: Config, s: State, i: nat, generation: U32, data: seq<Byte>)
    requires StreamsOk(cfg, s)
    ensures Trails(cfg, s, Write(cfg, s, i, generation, data, false).0)
  {
    hide Flush;
    hide StreamOk;
    if i < |s.streams| && |data| <= Limit(cfg, s) && !s.streams[i].txPending && !s.streams[i].awaitingAck {
      var st := s.streams[i];
      FillKeeps(cfg, s, i, data);
      FlushTrails(cfg, Put(s, i, st.(txData := data, txPending := true, taken := st.taken + [data])), i);
    }
  }

  lemma CloseTrails(cfg: Config, s: State, i: nat, generation: U32)
    requires StreamsOk(cfg, s)
    ensures Trails(cfg, s, Close(cfg, s, i, generation, false))
  {
    hide Flush;
    if i < |s.streams| {
      var t := Put(s, i, s.streams[i].(closePending := true));
      assert StreamsOk(cfg, t);
      FlushTrails(cfg, t, i);
    }
  }

  lemma {:induction false} FlushFromTrails(cfg: Config, s: State, i: nat)
    requires Inv(cfg, s) && i <= |s.streams|
    ensures Trails(cfg, s, FlushFrom(cfg, s, i))
    decreases |s.streams| - i
  {
    hide Flush;
    hide Announced;
    hide QueueOk;
    hide ClosedOk;
    hide StreamsOk;
    if i < |s.streams| {
      if s.streams[i].used && (s.streams[i].txPending || s.streams[i].closePending) {
        FlushKeeps(cfg, s, i);
        FlushTrails(cfg, s, i);
        var t := Flush(cfg, s, i).0;
        FlushFromTrails(cfg, t, i + 1);
        TrailsTrans(cfg, s, t, FlushFrom(cfg, t, i + 1));
      } else {
        FlushFromTrails(cfg, s, i + 1);
      }
    }
  }

  lemma TxReadyTrails(cfg: Config, s: State)
    requires Inv(cfg, s)
    ensures Trails(cfg, s, TxReady(cfg, s))
  {
    hide Pump;
    hide FlushFrom;
    PumpKeepsStreams(cfg, s);
    PumpIds(cfg, s);
    PumpKeeps(cfg, s);
    var t := Pump(cfg, s).0;
    TableKept(cfg, s, t);
    TrailsSame(cfg, s, t);
    FlushFromTrails(cfg, t, 0);
    TrailsTrans(cfg, s, t, FlushFrom(cfg, t, 0));
  }

  // ---------- one message ----------

  /** `t` has answered `reply`, if it could, and then flushed. */
  ghost predicate Answered(cfg: Config, s: State, t: State, reply: seq<Packet>) {
    && var first := if CanAnswer(cfg, s, 0) then reply else [];
       Trails(cfg, s.(accepted := s.accepted + first), t)
  }

  lemma FindsLive(s: State, localId: U32, remoteId: U32)
    ensures Live(s, localId, remoteId) <==> Find(s.streams, localId, remoteId, 0) < |s.streams|
  {
  }

  lemma FindsRoom(s: State)
    ensures HasRoom(s) <==> FirstFree(s.streams, 0) < |s.streams|
  {
  }

  /** The reply is the only packet. */
  lemma AnsweredOnce(cfg: Config, s: State, u: State, p: Packet)
    requires u == s.(streams := u.streams) && p.payload == []
    ensures Answered(cfg, s, SendControl(cfg, u, p).0, [p])
    ensures SendControl(cfg, u, p).1 == Ok <==> CanAnswer(cfg, s, 0)
    ensures SendControl(cfg, u, p).0.streams == u.streams && SendControl(cfg, u, p).0.negotiated == s.negotiated
  {
    hide SendControl;
    ControlAccepted(cfg, u, p);
    assert s.accepted + [] == s.accepted;
  }

  lemma AnsweredThen(cfg: Config, s: State, t: State, u: State, reply: seq<Packet>)
    requires Answered(cfg, s, t, reply) && Trails(cfg, t, u)
    ensures Answered(cfg, s, u, reply)
  {
    hide Trails;
    var first := if CanAnswer(cfg, s, 0) then reply else [];
    TrailsTrans(cfg, s.(accepted := s.accepted + first), t, u);
  }

  lemma AnsweredNothing(cfg: Config, s: State, t: State)
    requires Trails(cfg, s, t)
    ensures Answered(cfg, s, t, [])
  {
    assert s.accepted + [] == s.accepted;
  }

  lemma WriteAnswered(cfg: Config, s: State, arg0: U32, arg1: U32, actions: seq<Action>, written: Status)
    requires Inv(cfg, s)
    ensures Answered(cfg, s, HandleWrite(cfg, s, arg0, arg1, actions, written).0,
                     Reply(s, GotWrite(arg0, arg1, actions, written)))
  {
    hide Act;
    hide SendControl;
    hide Flush;
    hide Live;
    hide Answered;
    hide Announced;
    hide QueueOk;
    hide ClosedOk;
    hide StreamOk;
    FindsLive(s, arg1, arg0);
    var i := Find(s.streams, arg1, arg0, 0);
    if i == |s.streams| {
      AnsweredOnce(cfg, s, s, Clse(0, arg0));
    } else {
      ActKeeps(cfg, s, actions);
      var t := Act(cfg, s, actions);
      if written != Ok {
        FailedAnswered(cfg, s, Put(t, i, WriteFailed(t.streams[i])), i);
      } else {
        AnsweredOnce(cfg, s, t, Okay(arg1, arg0));
        var u := SendControl(cfg, t, Okay(arg1, arg0)).0;
        FlushTrails(cfg, u, i);
        AnsweredThen(cfg, s, u, Flush(cfg, u, i).0, [Okay(arg1, arg0)]);
      }
    }
  }

  /** A stream with nothing on its way and a pending close is closed by the CLSE. */
  lemma FailedAnswered(cfg: Config, s: State, u: State, i: nat)
    requires u == s.(streams := u.streams) && i < |u.streams| && u.streams[i].closePending
    requires !u.streams[i].txPending && !u.streams[i].awaitingAck
    ensures Answered(cfg, s, Flush(cfg, u, i).0, [Clse(u.streams[i].localId, u.streams[i].remoteId)])
  {
    hide SendControl;
    hide CanAnswer;
    var p := Clse(u.streams[i].localId, u.streams[i].remoteId);
    AnsweredOnce(cfg, s, u, p);
    assert FlushSlot(cfg, u, i) == (u, Ok);
  }

  lemma CloseAnswered(cfg: Config, s: State, arg0: U32, arg1: U32)
    ensures Answered(cfg, s, HandleClose(cfg, s, arg0, arg1).0, Reply(s, GotClose(arg0, arg1)))
  {
    hide SendControl;
    hide Live;
    FindsLive(s, arg1, arg0);
    AnsweredNothing(cfg, s, s);
    AnsweredOnce(cfg, s, s, Clse(arg1, arg0));
  }

  lemma OpenAnswered(cfg: Config, s: State, remoteId: U32, actions: seq<Action>, result: Status)
    requires Inv(cfg, s) && s.online && remoteId != 0
    ensures Answered(cfg, s, Open(cfg, s, remoteId, actions, result).0, Reply(s, GotOpen(remoteId, actions, result)))
  {
    hide HasRoom;
    hide SendControl;
    hide Announced;
    hide QueueOk;
    hide ClosedOk;
    FindsRoom(s);
    var i := FirstFree(s.streams, 0);
    if i == |s.streams| {
      AnsweredOnce(cfg, s, s, Clse(0, remoteId));
    } else if result != Ok {
      var t := Act(cfg, Allocate(s, i, remoteId), actions);
      AllocateKeeps(cfg, s, i, remoteId);
      ActKeeps(cfg, Allocate(s, i, remoteId), actions);
      OtherCounters(cfg, s, Release(t, i), Clse(0, remoteId));
    } else {
      AcceptedAnswered(cfg, s, remoteId, actions);
    }
  }

  /** Ids and generations play no part in what can be answered. */
  lemma OtherCounters(cfg: Config, s: State, u: State, p: Packet)
    requires u == s.(streams := u.streams, nextLocalId := u.nextLocalId, nextGeneration := u.nextGeneration)
    requires p.payload == []
    ensures Answered(cfg, s, SendControl(cfg, u, p).0, [p])
    ensures SendControl(cfg, u, p).0.streams == u.streams && SendControl(cfg, u, p).0.negotiated == s.negotiated
  {
    hide SendControl;
    ControlAccepted(cfg, u, p);
    assert s.accepted + [] == s.accepted;
  }

  lemma AcceptedAnswered(cfg: Config, s: State, remoteId: U32, actions: seq<Action>)
    requires Inv(cfg, s) && FirstFree(s.streams, 0) < |s.streams|
    ensures Answered(cfg, s, Open(cfg, s, remoteId, actions, Ok).0, [Okay(s.nextLocalId, remoteId)])
  {
    hide Act;
    hide SendControl;
    hide Flush;
    hide Answered;
    hide Announced;
    hide QueueOk;
    hide ClosedOk;
    hide StreamOk;
    var i := FirstFree(s.streams, 0);
    var a := Allocate(s, i, remoteId);
    AllocateKeeps(cfg, s, i, remoteId);
    ActKeeps(cfg, a, actions);
    var t := Act(cfg, a, actions);
    var p := Okay(s.nextLocalId, remoteId);
    OtherCounters(cfg, s, t, p);
    var u := SendControl(cfg, t, p).0;
    FlushTrails(cfg, u, i);
    var v := Flush(cfg, u, i).0;
    AnsweredThen(cfg, s, u, v, [p]);
    TrailsSame(cfg, u, Release(u, i));
    AnsweredThen(cfg, s, u, Release(u, i), [p]);
    TrailsSame(cfg, v, Release(v, i));
    AnsweredThen(cfg, s, v, Release(v, i), [p]);
  }

  lemma ReadyTrails(cfg: Config, s: State, arg0: U32, arg1: U32, actions: seq<Action>)
    requires Inv(cfg, s)
    ensures Trails(cfg, s, HandleReady(cfg, s, arg0, arg1, actions).0)
  {
    hide Act;
    hide Flush;
    hide Announced;
    hide QueueOk;
    hide ClosedOk;
    var i := Find(s.streams, arg1, arg0, 0);
    if i < |s.streams| && s.streams[i].awaitingAck {
      var acked := Put(s, i, s.streams[i].(awaitingAck := false, acks := s.streams[i].acks + 1));
      AckKeeps(cfg, s, i);
      ActKeeps(cfg, acked, actions);
      var t := Act(cfg, acked, actions);
      FlushTrails(cfg, t, i);
    }
  }

  lemma StepAnswered(cfg: Config, s: State, e: Event)
    requires Inv(cfg, s) && !Restarts(e)
    ensures Answered(cfg, s, Step(cfg, s, e), Reply(s, e))
  {
    hide SendControl;
    hide Open;
    hide HandleWrite;
    hide HandleReady;
    hide HandleClose;
    hide Write;
    hide Close;
    hide TxReady;
    hide StreamsOk;
    hide Announced;
    hide QueueOk;
    hide ClosedOk;
    hide Trails;
    TrailsSame(cfg, s, s);
    AnsweredNothing(cfg, s, s);
    match e
    case GotOpen(remoteId, actions, result) =>
      if s.online && remoteId != 0 {
        OpenAnswered(cfg, s, remoteId, actions, result);
      }
    case GotTrack(remoteId) =>
      OtherCounters(cfg, s, s.(nextLocalId := Next(s.nextLocalId)), Okay(s.nextLocalId, remoteId));
    case GotUnknownService(remoteId) => AnsweredOnce(cfg, s, s, Clse(0, remoteId));
    case GotWrite(arg0, arg1, actions, written) => WriteAnswered(cfg, s, arg0, arg1, actions, written);
    case GotReady(arg0, arg1, actions) =>
      ReadyTrails(cfg, s, arg0, arg1, actions);
      AnsweredNothing(cfg, s, HandleReady(cfg, s, arg0, arg1, actions).0);
    case GotClose(arg0, arg1) => CloseAnswered(cfg, s, arg0, arg1);
    case ServiceWrite(i, g, data) =>
      WriteTrails(cfg, s, i, g, data);
      AnsweredNothing(cfg, s, Write(cfg, s, i, g, data, false).0);
    case ServiceClose(i, g) =>
      CloseTrails(cfg, s, i, g);
      AnsweredNothing(cfg, s, Close(cfg, s, i, g, false));
    case TransportReady =>
      TxReadyTrails(cfg, s);
      AnsweredNothing(cfg, s, TxReady(cfg, s));
  }

  /**
   In every reachable state: a message that does not start the connection anew is answered with exactly the packet
   the protocol asks for, at once or in the queue, unless it can be neither sent nor queued; behind it come only WRTEs
   within the limit and CLSEs.
   */
  lemma AnswersExactly(cfg: Config, n: nat, events: seq<Event>, e: Event)
    requires !Restarts(e)
    ensures var s := Run(cfg, Initially(cfg, n), events); var t := Step(cfg, s, e);
            && var first := s.accepted + if CanAnswer(cfg, s, 0) then Reply(s, e) else [];
               first <= t.accepted
               && forall k :: |first| <= k < |t.accepted| ==>
                    || (t.accepted[k].command == WRTE && |t.accepted[k].payload| <= Limit(cfg, s))
                    || t.accepted[k].command == CLSE
  {
    hide Run;
    hide Step;
    hide Reply;
    ReachableInv(cfg, n, events);
    StepAnswered(cfg, Run(cfg, Initially(cfg, n), events), e);
  }

  /** A connection begins with CNXN, unless that can be neither sent nor queued; the limit is what the host offered. */
  lemma ConnectAnswered(cfg: Config, s: State, arg1: U32)
    ensures var t := HandleConnect(cfg, s, arg1).0; var cnxn := Packet(CNXN, 0x0100_0000, cfg.maxPayload, cfg.banner);
            && t.negotiated == Min(arg1, cfg.maxPayload)
            && (t.online <==> CanAnswer(cfg, s.(ring := []), |cfg.banner|))
            && t.accepted == if t.online then [cnxn] else []
  {
    hide SendControl;
    var u := Reset(cfg, s).(negotiated := Min(arg1, cfg.maxPayload));
    ControlAccepted(cfg, u, Packet(CNXN, 0x0100_0000, cfg.maxPayload, cfg.banner));
  }

  // ---------- one OKAY for each ----------

  /** 1 for a WRTE that a live stream with these ids takes, and whose reply can be sent or queued. */
  function Takes(cfg: Config, s: State, e: Event, localId: U32, remoteId: U32): nat {
    if e.GotWrite? && e.arg1 == localId && e.arg0 == remoteId && e.written == Ok && Live(s, localId, remoteId)
       && CanAnswer(cfg, s, 0) then 1 else 0
  }

  /** How many of them a run has seen since the last connection, `n` of them before `events`. */
  function Taken(cfg: Config, s: State, events: seq<Event>, localId: U32, remoteId: U32, n: nat): nat
    decreases |events|
  {
    if events == [] then n
    else
      var m := if Restarts(events[0]) then 0 else n + Takes(cfg, s, events[0], localId, remoteId);
      Taken(cfg, Step(cfg, s, events[0]), events[1..], localId, remoteId, m)
  }

  function Count(s: State, p: Packet): nat { multiset(s.accepted)[p] }

  lemma CountMore(s: State, more: seq<Packet>, p: Packet)
    ensures Count(s.(accepted := s.accepted + more), p) == Count(s, p) + multiset(more)[p]
  {
  }

  lemma CountTrails(cfg: Config, s: State, t: State, p: Packet)
    requires Trails(cfg, s, t) && p.command == OKAY
    ensures Count(t, p) == Count(s, p)
  {
    var more := t.accepted[|s.accepted|..];
    assert t.accepted == s.accepted + more;
    assert p !in more;
  }

  /** Nothing but the reply changes how often an OKAY was accepted. */
  lemma CountAnswered(cfg: Config, s: State, t: State, reply: seq<Packet>, p: Packet)
    requires Answered(cfg, s, t, reply) && p.command == OKAY
    ensures Count(t, p) == Count(s, p) + if CanAnswer(cfg, s, 0) then multiset(reply)[p] else 0
  {
    hide Trails;
    hide Count;
    var first := if CanAnswer(cfg, s, 0) then reply else [];
    CountMore(s, first, p);
    CountTrails(cfg, s.(accepted := s.accepted + first), t, p);
  }

  /** As long as the ids last: a live stream has one OKAY for its OPEN and one for each of the `n` WRTEs it took. */
  ghost predicate Tallied(s: State, g: nat, localId: U32, remoteId: U32, n: nat) {
    g <= MAX_IDS ==>
      && (localId > g ==> n == 0)
      && (Live(s, localId, remoteId) ==> Count(s, Okay(localId, remoteId)) == 1 + n)
  }

  lemma NotYetGiven(s: State, g: nat, localId: U32, remoteId: U32)
    requires Bounded(s, g) && localId > g
    ensures !Live(s, localId, remoteId) && Count(s, Okay(localId, remoteId)) == 0
  {
    assert Okay(localId, remoteId) !in s.accepted;
  }

  lemma NarrowsLive(s: State, t: State, localId: U32, remoteId: U32)
    requires Narrows(s, t) && Live(t, localId, remoteId)
    ensures Live(s, localId, remoteId)
  {
  }

  /** An event that gives out no id. */
  lemma OtherTallied(cfg: Config, s: State, e: Event, g: nat, localId: U32, remoteId: U32, n: nat)
    requires Inv(cfg, s) && IdsOk(s, g) && !Restarts(e) && Gives(s, e) == 0 && Tallied(s, g, localId, remoteId, n)
    ensures Tallied(Step(cfg, s, e), g, localId, remoteId, n + Takes(cfg, s, e, localId, remoteId))
  {
    hide Inv;
    hide Step;
    hide Bounded;
    hide Narrows;
    hide Count;
    hide Live;
    hide CanAnswer;
    hide HasRoom;
    if g <= MAX_IDS {
      StepCalm(cfg, s, e, g);
      StepAnswered(cfg, s, e);
      var t, p := Step(cfg, s, e), Okay(localId, remoteId);
      CountAnswered(cfg, s, t, Reply(s, e), p);
      NoOkayFor(s, e, localId, remoteId);
      if localId > g {
        NotYetGiven(s, g, localId, remoteId);
      }
      if Live(t, localId, remoteId) {
        NarrowsLive(s, t, localId, remoteId);
      }
    }
  }

  /** Without giving out an id, only a WRTE that a live stream takes is answered with OKAY. */
  lemma NoOkayFor(s: State, e: Event, localId: U32, remoteId: U32)
    requires !Restarts(e) && Gives(s, e) == 0
    ensures multiset(Reply(s, e))[Okay(localId, remoteId)] ==
            if e.GotWrite? && e.arg1 == localId && e.arg0 == remoteId && e.written == Ok && Live(s, localId, remoteId)
            then 1 else 0
  {
    hide Live;
    FindsRoom(s);
  }

  /** A stream that is live after an OPEN was so before, or was announced. */
  lemma OpenLive(cfg: Config, s: State, id: U32, actions: seq<Action>, result: Status, localId: U32, remoteId: U32)
    requires Inv(cfg, s) && FirstFree(s.streams, 0) < |s.streams|
    requires Live(Open(cfg, s, id, actions, result).0, localId, remoteId)
    ensures || Live(s, localId, remoteId)
            || (localId == s.nextLocalId && remoteId == id && result == Ok && CanAnswer(cfg, s, 0))
  {
    hide Act;
    hide SendControl;
    hide Flush;
    hide Announced;
    hide QueueOk;
    hide ClosedOk;
    hide StreamOk;
    hide CanAnswer;
    var i := FirstFree(s.streams, 0);
    var a := Allocate(s, i, id);
    AllocateKeeps(cfg, s, i, id);
    ActKeeps(cfg, a, actions);
    var t := Act(cfg, a, actions);
    var p := Okay(s.nextLocalId, id);
    ControlAccepted(cfg, Release(t, i), Clse(0, id));
    ControlAccepted(cfg, t, p);
    var u := SendControl(cfg, t, p).0;
    assert CanAnswer(cfg, t, 0) == CanAnswer(cfg, s, 0) by { SameChance(cfg, s, t); }
    ControlNotHeldBack(cfg, t, p);
    FlushOthers(cfg, u, i);
  }

  lemma SameChance(cfg: Config, s: State, t: State)
    requires t.ring == s.ring && t.attempts == s.attempts
    ensures CanAnswer(cfg, t, 0) == CanAnswer(cfg, s, 0)
  {
  }

  lemma FlushOthers(cfg: Config, s: State, i: nat)
    requires i < |s.streams|
    ensures var t := Flush(cfg, s, i).0;
            && (forall j :: 0 <= j < |s.streams| && j != i ==> t.streams[j] == s.streams[j])
            && (t.streams[i].used ==>
                  t.streams[i].localId == s.streams[i].localId && t.streams[i].remoteId == s.streams[i].remoteId)
  {
    hide SendControl;
    var u := FlushSlot(cfg, s, i).0;
    ControlAccepted(cfg, u, Clse(u.streams[i].localId, u.streams[i].remoteId));
  }

  /** An event that gives out the next id. */
  lemma GivenTallied(cfg: Config, s: State, e: Event, g: nat, localId: U32, remoteId: U32, n: nat)
    requires Inv(cfg, s) && IdsOk(s, g) && g < MAX_IDS && !Restarts(e) && Gives(s, e) == 1
    requires Tallied(s, g, localId, remoteId, n)
    ensures Tallied(Step(cfg, s, e), g + 1, localId, remoteId, n)
  {
    hide Inv;
    hide Open;
    hide SendControl;
    hide Bounded;
    hide Count;
    hide Live;
    hide CanAnswer;
    hide HasRoom;
    FindsRoom(s);
    StepAnswered(cfg, s, e);
    var t, p := Step(cfg, s, e), Okay(localId, remoteId);
    CountAnswered(cfg, s, t, Reply(s, e), p);
    if localId > g {
      NotYetGiven(s, g, localId, remoteId);
    }
    if Live(t, localId, remoteId) {
      if e.GotOpen? {
        OpenLive(cfg, s, e.remoteId, e.actions, e.result, localId, remoteId);
      } else {
        TrackLive(cfg, s, e.remoteId, localId, remoteId);
      }
      if Live(s, localId, remoteId) {
        assert localId <= g;
        assert multiset(Reply(s, e))[p] == 0;
      }
    }
  }

  lemma TrackLive(cfg: Config, s: State, id: U32, localId: U32, remoteId: U32)
    ensures var t := SendControl(cfg, s.(nextLocalId := Next(s.nextLocalId)), Okay(s.nextLocalId, id)).0;
            Live(t, localId, remoteId) == Live(s, localId, remoteId)
  {
    hide SendControl;
    ControlAccepted(cfg, s.(nextLocalId := Next(s.nextLocalId)), Okay(s.nextLocalId, id));
  }

  lemma NoneLive(cfg: Config, s: State, e: Event, localId: U32, remoteId: U32)
    requires Restarts(e)
    ensures !Live(Step(cfg, s, e), localId, remoteId)
  {
    hide SendControl;
    if e.GotConnect? {
      ControlAccepted(cfg, Reset(cfg, s).(negotiated := Min(e.arg1, cfg.maxPayload)),
                      Packet(CNXN, 0x0100_0000, cfg.maxPayload, cfg.banner));
    }
  }

  lemma {:induction false} RunTallied(cfg: Config, s: State, events: seq<Event>, g: nat, localId: U32, remoteId: U32,
                                      n: nat)
    requires Inv(cfg, s) && IdsOk(s, g) && Tallied(s, g, localId, remoteId, n)
    ensures Tallied(Run(cfg, s, events), Given(cfg, s, events, g), localId, remoteId,
                    Taken(cfg, s, events, localId, remoteId, n))
    decreases |events|
  {
    hide Inv;
    hide IdsOk;
    hide Step;
    hide Live;
    hide Count;
    if events != [] {
      var e := events[0];
      StepIds(cfg, s, e, g);
      StepKeeps(cfg, s, e);
      if Restarts(e) {
        NoneLive(cfg, s, e, localId, remoteId);
      } else if Gives(s, e) == 0 {
        OtherTallied(cfg, s, e, g, localId, remoteId, n);
      } else if g < MAX_IDS {
        GivenTallied(cfg, s, e, g, localId, remoteId, n);
      }
      RunTallied(cfg, Step(cfg, s, e), events[1..], if Restarts(e) then 0 else g + Gives(s, e), localId, remoteId,
                 if Restarts(e) then 0 else n + Takes(cfg, s, e, localId, remoteId));
    }
  }

  /**
   Over every run, as long as at most 2^32 - 1 local ids were given out since the last connection: the OKAYs accepted
   for a live stream are one, for its OPEN, and one for each WRTE of the host that it took and that could be answered.
   */
  lemma OneOkayEach(cfg: Config, n: nat, events: seq<Event>, i: nat)
    requires i < |Run(cfg, Initially(cfg, n), events).streams| && Run(cfg, Initially(cfg, n), events).streams[i].used
    requires Given(cfg, Initially(cfg, n), events, 0) <= MAX_IDS
    ensures var s := Run(cfg, Initially(cfg, n), events); var st := s.streams[i];
            multiset(s.accepted)[Okay(st.localId, st.remoteId)] ==
            1 + Taken(cfg, Initially(cfg, n), events, st.localId, st.remoteId, 0)
  {
    hide Run;
    hide Given;
    hide Taken;
    var s0 := Initially(cfg, n);
    FreshKeeps(cfg, s0);
    assert IdsOk(s0, 0);
    var st := Run(cfg, s0, events).streams[i];
    RunTallied(cfg, s0, events, 0, st.localId, st.remoteId, 0);
    assert Live(Run(cfg, s0, events), st.localId, st.remoteId);
  }

  // ---------- payloads ----------

  /** The payload the host offered last, `o` before `events`. */
  function Offered(cfg: Config, events: seq<Event>, o: nat): nat {
    if events == [] then o
    else
      var now := match events[0]
        case GotConnect(arg1) => Min(arg1, cfg.maxPayload)
        case TransportReset => cfg.maxPayload
        case _ => o;
      Offered(cfg, events[1..], now)
  }

  /** No WRTE since the last connection is longer than the limit. */
  ghost predicate Modest(cfg: Config, s: State) {
    forall k :: 0 <= k < |s.accepted| && s.accepted[k].command == WRTE ==> |s.accepted[k].payload| <= Limit(cfg, s)
  }

  lemma StepModest(cfg: Config, s: State, e: Event)
    requires Inv(cfg, s) && Modest(cfg, s)
    ensures Modest(cfg, Step(cfg, s, e))
    ensures Step(cfg, s, e).negotiated ==
            if e.GotConnect? then Min(e.arg1, cfg.maxPayload)
            else if e.TransportReset? then cfg.maxPayload else s.negotiated
  {
    hide Inv;
    hide CanAnswer;
    hide HandleConnect;
    if e.GotConnect? {
      ConnectAnswered(cfg, s, e.arg1);
    } else if !e.TransportReset? {
      hide Step;
      StepAnswered(cfg, s, e);
      ReplyIsControl(s, e);
    }
  }

  lemma ReplyIsControl(s: State, e: Event)
    ensures |Reply(s, e)| <= 1 && forall k :: 0 <= k < |Reply(s, e)| ==> Reply(s, e)[k].command != WRTE
  {
  }

  lemma {:induction false} RunModest(cfg: Config, s: State, events: seq<Event>)
    requires Inv(cfg, s) && Modest(cfg, s)
    ensures Modest(cfg, Run(cfg, s, events)) && Run(cfg, s, events).negotiated == Offered(cfg, events, s.negotiated)
    decreases |events|
  {
    hide Inv;
    hide Modest;
    hide Step;
    if events != [] {
      StepModest(cfg, s, events[0]);
      StepKeeps(cfg, s, events[0]);
      RunModest(cfg, Step(cfg, s, events[0]), events[1..]);
    }
  }

  /** Over every run: no WRTE since the last connection is longer than the host offered then, or than the buffers. */
  lemma WithinTheOffer(cfg: Config, n: nat, events: seq<Event>, k: nat)
    requires k < |Run(cfg, Initially(cfg, n), events).accepted|
    requires Run(cfg, Initially(cfg, n), events).accepted[k].command == WRTE
    ensures var size := |Run(cfg, Initially(cfg, n), events).accepted[k].payload|;
            size <= Offered(cfg, events, cfg.maxPayload) && size <= cfg.txSize && size <= cfg.transferSize
  {
    hide Run;
    hide Offered;
    var s0 := Initially(cfg, n);
    FreshKeeps(cfg, s0);
    RunModest(cfg, s0, events);
  }
}

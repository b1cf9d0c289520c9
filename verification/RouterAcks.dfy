/**
 Stop and wait in the router. Runs without a failing write callback keep it; in general it is lost exactly
 when such a callback finds its stream busy and the CLSE that should follow cannot be sent or queued.
 */
module RouterAcks {
  import opened Bytes
  import opened Errno
  import opened Router
  import opened RouterProofs

  /** WRTEs sent minus acknowledgements taken is 0 or 1, and is the awaiting flag. */
  ghost predicate AckAccounted(st: Stream) { |st.sent| - st.acks == if st.awaitingAck then 1 else 0 }

  /** Payloads taken from the service are those sent and then the slot. */
  ghost predicate PayloadAccounted(st: Stream) { st.taken == st.sent + if st.txPending then [st.txData] else [] }

  ghost predicate AcksAccounted(s: State) { forall i :: 0 <= i < |s.streams| ==> AckAccounted(s.streams[i]) }

  ghost predicate PayloadsAccounted(s: State) { forall i :: 0 <= i < |s.streams| ==> PayloadAccounted(s.streams[i]) }

  ghost predicate NoneWaived(s: State) { forall i :: 0 <= i < |s.streams| ==> s.streams[i].waived == 0 }

  ghost predicate NoneDropped(s: State) { forall i :: 0 <= i < |s.streams| ==> s.streams[i].dropped == 0 }

  lemma AccountsAreTallies(cfg: Config, s: State)
    requires Inv(cfg, s)
    ensures AcksAccounted(s) <==> NoneWaived(s)
    ensures PayloadsAccounted(s) <==> NoneDropped(s)
  {
    forall i | 0 <= i < |s.streams|
      ensures AckAccounted(s.streams[i]) <==> s.streams[i].waived == 0
      ensures PayloadAccounted(s.streams[i]) <==> s.streams[i].dropped == 0
    {
      assert StreamOk(s.streams[i], Limit(cfg, s));
    }
  }

  // ---------- what keeps the tallies ----------

  /** Nothing was waived or dropped on the way from `a` to `b`, though the stream may have been freed. */
  predicate Kept(a: Stream, b: Stream) {
    (b.waived == a.waived && b.dropped == a.dropped) || (b.waived == 0 && b.dropped == 0)
  }

  ghost predicate AllKept(s: State, t: State) {
    |t.streams| == |s.streams| && forall i :: 0 <= i < |s.streams| ==> Kept(s.streams[i], t.streams[i])
  }

  lemma KeptTrans(s: State, t: State, u: State)
    requires AllKept(s, t) && AllKept(t, u)
    ensures AllKept(s, u)
  {
  }

  lemma ControlKept(cfg: Config, s: State, p: Packet)
    ensures SendControl(cfg, s, p).0.streams == s.streams
  {
  }

  lemma FlushKept(cfg: Config, s: State, i: nat)
    requires i < |s.streams|
    ensures AllKept(s, Flush(cfg, s, i).0)
  {
    hide SendControl;
    var t := FlushSlot(cfg, s, i).0;
    ControlKept(cfg, t, Packet(CLSE, t.streams[i].localId, t.streams[i].remoteId, []));
  }

  lemma WriteKept(cfg: Config, s: State, i: nat, g: U32, data: seq<Byte>, dispatching: bool)
    ensures AllKept(s, Write(cfg, s, i, g, data, dispatching).0)
  {
    hide Flush;
    if i < |s.streams| {
      var filled := Put(s, i, s.streams[i].(txData := data, txPending := true, taken := s.streams[i].taken + [data]));
      FlushKept(cfg, filled, i);
    }
  }

  lemma CloseKept(cfg: Config, s: State, i: nat, g: U32, dispatching: bool)
    ensures AllKept(s, Close(cfg, s, i, g, dispatching))
  {
    hide Flush;
    if i < |s.streams| {
      FlushKept(cfg, Put(s, i, s.streams[i].(closePending := true)), i);
    }
  }

  lemma {:induction false} ActKept(cfg: Config, s: State, actions: seq<Action>)
    ensures AllKept(s, Act(cfg, s, actions))
    decreases |actions|
  {
    hide Write;
    hide Close;
    if actions != [] {
      var t := ActOnce(cfg, s, actions[0]);
      match actions[0] {
        case DoWrite(i, g, data) => WriteKept(cfg, s, i, g, data, true);
        case DoClose(i, g) => CloseKept(cfg, s, i, g, true);
      }
      ActKept(cfg, t, actions[1..]);
      KeptTrans(s, t, Act(cfg, s, actions));
    }
  }

  lemma AllocateKept(s: State, i: nat, remoteId: U32)
    requires i < |s.streams|
    ensures AllKept(s, Allocate(s, i, remoteId))
  {
  }

  lemma ReleaseKept(s: State, t: State, i: nat)
    requires AllKept(s, t) && i < |t.streams|
    ensures AllKept(s, Release(t, i))
  {
  }

  lemma OpenKept(cfg: Config, s: State, remoteId: U32, actions: seq<Action>, result: Status)
    ensures AllKept(s, Open(cfg, s, remoteId, actions, result).0)
  {
    hide Act;
    hide Flush;
    hide SendControl;
    hide AllKept;
    KeptSelf(s);
    var i := FirstFree(s.streams, 0);
    var clse := Packet(CLSE, 0, remoteId, []);
    if i == |s.streams| {
      ControlKept(cfg, s, clse);
      SameKept(s, s, SendControl(cfg, s, clse).0);
    } else {
      var a := Allocate(s, i, remoteId);
      AllocateKept(s, i, remoteId);
      ActKept(cfg, a, actions);
      var t := Act(cfg, a, actions);
      KeptTrans(s, a, t);
      ReleaseKept(s, t, i);
      ControlKept(cfg, Release(t, i), clse);
      SameKept(s, Release(t, i), SendControl(cfg, Release(t, i), clse).0);
      var okay := Okay(t.streams[i].localId, t.streams[i].remoteId);
      var u := SendControl(cfg, t, okay).0;
      ControlKept(cfg, t, okay);
      SameKept(s, t, u);
      FlushKept(cfg, u, i);
      KeptTrans(s, u, Flush(cfg, u, i).0);
      ReleaseKept(s, u, i);
      ReleaseKept(s, Flush(cfg, u, i).0, i);
    }
  }

  lemma KeptSelf(s: State)
    ensures AllKept(s, s)
  {
  }

  lemma SameKept(s: State, t: State, u: State)
    requires AllKept(s, t) && u.streams == t.streams
    ensures AllKept(s, u)
  {
  }

  lemma ReadyKept(cfg: Config, s: State, arg0: U32, arg1: U32, actions: seq<Action>)
    ensures AllKept(s, HandleReady(cfg, s, arg0, arg1, actions).0)
  {
    hide Act;
    hide Flush;
    var i := Find(s.streams, arg1, arg0, 0);
    if i < |s.streams| && s.streams[i].awaitingAck {
      var a := Put(s, i, s.streams[i].(awaitingAck := false, acks := s.streams[i].acks + 1));
      ActKept(cfg, a, actions);
      var t := Act(cfg, a, actions);
      KeptTrans(s, a, t);
      FlushKept(cfg, t, i);
      KeptTrans(s, t, Flush(cfg, t, i).0);
    }
  }

  lemma {:induction false} FlushFromKept(cfg: Config, s: State, i: nat)
    requires i <= |s.streams|
    ensures AllKept(s, FlushFrom(cfg, s, i))
    decreases |s.streams| - i
  {
    hide Flush;
    if i < |s.streams| {
      var t := Flush(cfg, s, i).0;
      FlushKept(cfg, s, i);
      FlushFromKept(cfg, t, i + 1);
      KeptTrans(s, t, FlushFrom(cfg, t, i + 1));
      FlushFromKept(cfg, s, i + 1);
    }
  }

  lemma GoodWriteKept(cfg: Config, s: State, arg0: U32, arg1: U32, actions: seq<Action>)
    ensures AllKept(s, HandleWrite(cfg, s, arg0, arg1, actions, Ok).0)
  {
    hide Act;
    hide Flush;
    hide SendControl;
    var i := Find(s.streams, arg1, arg0, 0);
    ControlKept(cfg, s, Packet(CLSE, 0, arg0, []));
    if i < |s.streams| {
      ActKept(cfg, s, actions);
      var t := Act(cfg, s, actions);
      var p := Okay(t.streams[i].localId, t.streams[i].remoteId);
      ControlKept(cfg, t, p);
      var u := SendControl(cfg, t, p).0;
      SameKept(s, t, u);
      FlushKept(cfg, u, i);
      KeptTrans(s, u, Flush(cfg, u, i).0);
    }
  }

  predicate FailingWrite(e: Event) { e.GotWrite? && e.written != Ok }

  /** Every event but a failing write callback keeps the tallies. */
  lemma StepKept(cfg: Config, s: State, e: Event)
    requires !FailingWrite(e)
    ensures AllKept(s, Step(cfg, s, e))
  {
    hide SendControl;
    hide Flush;
    hide Open;
    hide HandleWrite;
    hide HandleReady;
    hide Write;
    hide Close;
    hide Pump;
    hide FlushFrom;
    match e
    case GotConnect(arg1) =>
      var t := Reset(cfg, s).(negotiated := Min(arg1, cfg.maxPayload));
      ControlKept(cfg, t, Packet(CNXN, 0x0100_0000, cfg.maxPayload, cfg.banner));
    case GotOpen(remoteId, actions, result) => OpenKept(cfg, s, remoteId, actions, result);
    case GotTrack(remoteId) =>
      ControlKept(cfg, s.(nextLocalId := Next(s.nextLocalId)), Packet(OKAY, s.nextLocalId, remoteId, []));
    case GotUnknownService(remoteId) => ControlKept(cfg, s, Packet(CLSE, 0, remoteId, []));
    case GotWrite(arg0, arg1, actions, written) => GoodWriteKept(cfg, s, arg0, arg1, actions);
    case GotReady(arg0, arg1, actions) => ReadyKept(cfg, s, arg0, arg1, actions);
    case GotClose(arg0, arg1) =>
      var i := Find(s.streams, arg1, arg0, 0);
      if i < |s.streams| {
        ControlKept(cfg, s, Packet(CLSE, s.streams[i].localId, s.streams[i].remoteId, []));
      }
    case ServiceWrite(i, g, data) => WriteKept(cfg, s, i, g, data, false);
    case ServiceClose(i, g) => CloseKept(cfg, s, i, g, false);
    case TransportReady =>
      PumpKeepsStreams(cfg, s);
      FlushFromKept(cfg, Pump(cfg, s).0, 0);
    case TransportReset =>
  }

  // ---------- the failing branch ----------

  /** A failing write callback whose CLSE can be neither sent nor queued; the stream stays. */
  predicate Stranded(cfg: Config, s: State, e: Event) {
    && FailingWrite(e)
    && var i := Find(s.streams, e.arg1, e.arg0, 0);
    && i < |s.streams|
    && SendControl(cfg, s, Packet(CLSE, s.streams[i].localId, s.streams[i].remoteId, [])).1 != Ok
  }

  /** The stream as the callback leaves it. */
  function Found(cfg: Config, s: State, e: Event): Stream
    requires Stranded(cfg, s, e)
  {
    Act(cfg, s, e.actions).streams[Find(s.streams, e.arg1, e.arg0, 0)]
  }

  /** It was awaiting an acknowledgement. */
  predicate WaivesAck(cfg: Config, s: State, e: Event) { Stranded(cfg, s, e) && Found(cfg, s, e).awaitingAck }

  /** Its slot was full. */
  predicate DropsSlot(cfg: Config, s: State, e: Event) { Stranded(cfg, s, e) && Found(cfg, s, e).txPending }

  lemma ControlIgnoresStreams(cfg: Config, s: State, t: State, p: Packet)
    requires t == s.(streams := t.streams)
    ensures SendControl(cfg, t, p).1 == SendControl(cfg, s, p).1
  {
  }

  /** What a failing write callback comes to. */
  lemma FailingWriteDoes(cfg: Config, s: State, e: Event)
    requires StreamsOk(cfg, s) && FailingWrite(e)
    ensures var i, u := Find(s.streams, e.arg1, e.arg0, 0), Step(cfg, s, e);
            if i == |s.streams| then u.streams == s.streams
            else
              var t := Act(cfg, s, e.actions);
              u.streams == t.streams[i := if Stranded(cfg, s, e) then WriteFailed(t.streams[i]) else Free]
  {
    hide SendControl;
    hide Act;
    var i := Find(s.streams, e.arg1, e.arg0, 0);
    ControlKept(cfg, s, Packet(CLSE, 0, e.arg0, []));
    if i < |s.streams| {
      ActKeeps(cfg, s, e.actions);
      var t := Act(cfg, s, e.actions);
      var v := Put(t, i, WriteFailed(t.streams[i]));
      var p := Packet(CLSE, s.streams[i].localId, s.streams[i].remoteId, []);
      ControlIgnoresStreams(cfg, s, v, p);
      ControlKept(cfg, v, p);
      assert FlushSlot(cfg, v, i) == (v, Ok);
    }
  }

  /** Where nothing was waived yet, an event waives exactly under its guard; and so for dropped slots. */
  lemma StepExact(cfg: Config, s: State, e: Event)
    requires Inv(cfg, s)
    ensures NoneWaived(s) ==> (NoneWaived(Step(cfg, s, e)) <==> !WaivesAck(cfg, s, e))
    ensures NoneDropped(s) ==> (NoneDropped(Step(cfg, s, e)) <==> !DropsSlot(cfg, s, e))
  {
    hide Step;
    hide Act;
    hide SendControl;
    hide Inv;
    var u := Step(cfg, s, e);
    if !FailingWrite(e) {
      StepKept(cfg, s, e);
    } else {
      assert StreamsOk(cfg, s) by { InvStreams(cfg, s); }
      FailingWriteDoes(cfg, s, e);
      ActKept(cfg, s, e.actions);
      var i := Find(s.streams, e.arg1, e.arg0, 0);
      if i < |s.streams| {
        var t := Act(cfg, s, e.actions);
        assert u.streams[i] == if Stranded(cfg, s, e) then WriteFailed(t.streams[i]) else Free;
      }
    }
  }

  lemma InvStreams(cfg: Config, s: State)
    requires Inv(cfg, s)
    ensures StreamsOk(cfg, s)
  {
  }

  // ---------- over runs ----------

  function After(cfg: Config, n: nat, events: seq<Event>, k: nat): State
    requires k <= |events|
  {
    Run(cfg, Initially(cfg, n), events[..k])
  }

  lemma AfterStep(cfg: Config, n: nat, events: seq<Event>, k: nat)
    requires k < |events|
    ensures After(cfg, n, events, k + 1) == Step(cfg, After(cfg, n, events, k), events[k])
    ensures Inv(cfg, After(cfg, n, events, k))
  {
    hide Step;
    assert events[..k + 1] == events[..k] + [events[k]];
    RunAppend(cfg, Initially(cfg, n), events[..k], [events[k]]);
    assert [events[k]][1..] == [];
    var s := After(cfg, n, events, k);
    assert Run(cfg, s, [events[k]]) == Run(cfg, Step(cfg, s, events[k]), []);
    ReachableInv(cfg, n, events[..k]);
  }

  lemma StartsClean(cfg: Config, n: nat, events: seq<Event>)
    ensures NoneWaived(After(cfg, n, events, 0)) && NoneDropped(After(cfg, n, events, 0))
  {
    assert events[..0] == [];
  }

  lemma {:induction false} CleanUntil(cfg: Config, n: nat, events: seq<Event>, k: nat)
    requires k <= |events|
    ensures (forall j :: 0 <= j < k ==> !WaivesAck(cfg, After(cfg, n, events, j), events[j])) ==>
              NoneWaived(After(cfg, n, events, k))
    ensures (forall j :: 0 <= j < k ==> !DropsSlot(cfg, After(cfg, n, events, j), events[j])) ==>
              NoneDropped(After(cfg, n, events, k))
  {
    hide Step;
    hide WaivesAck;
    hide DropsSlot;
    hide Inv;
    hide After;
    if k == 0 {
      StartsClean(cfg, n, events);
    } else {
      CleanUntil(cfg, n, events, k - 1);
      AfterStep(cfg, n, events, k - 1);
      StepExact(cfg, After(cfg, n, events, k - 1), events[k - 1]);
    }
  }

  /** In every run with no failing write callback each stream stops and waits, and loses no payload. */
  lemma StopAndWait(cfg: Config, n: nat, events: seq<Event>)
    requires forall k :: 0 <= k < |events| ==> !FailingWrite(events[k])
    ensures var s := Run(cfg, Initially(cfg, n), events); AcksAccounted(s) && PayloadsAccounted(s)
  {
    hide Inv;
    CleanUntil(cfg, n, events, |events|);
    assert events[..|events|] == events;
    ReachableInv(cfg, n, events);
    AccountsAreTallies(cfg, Run(cfg, Initially(cfg, n), events));
  }

  lemma AccountedAfter(cfg: Config, n: nat, events: seq<Event>, k: nat)
    requires k <= |events|
    ensures AcksAccounted(After(cfg, n, events, k)) <==> NoneWaived(After(cfg, n, events, k))
    ensures PayloadsAccounted(After(cfg, n, events, k)) <==> NoneDropped(After(cfg, n, events, k))
  {
    hide Inv;
    ReachableInv(cfg, n, events[..k]);
    AccountsAreTallies(cfg, After(cfg, n, events, k));
  }

  lemma EventExact(cfg: Config, n: nat, events: seq<Event>, k: nat)
    requires k < |events|
    ensures AcksAccounted(After(cfg, n, events, k)) ==>
              (AcksAccounted(After(cfg, n, events, k + 1)) <==> !WaivesAck(cfg, After(cfg, n, events, k), events[k]))
    ensures PayloadsAccounted(After(cfg, n, events, k)) ==>
              (PayloadsAccounted(After(cfg, n, events, k + 1)) <==>
               !DropsSlot(cfg, After(cfg, n, events, k), events[k]))
  {
    hide Inv;
    hide Step;
    hide After;
    AccountedAfter(cfg, n, events, k);
    AccountedAfter(cfg, n, events, k + 1);
    AfterStep(cfg, n, events, k);
    StepExact(cfg, After(cfg, n, events, k), events[k]);
  }

  /**
   Over every run: all streams account for their acknowledgements throughout if and only if no failing write
   callback found its stream awaiting one while its CLSE could be neither sent nor queued; and so for payloads
   and full slots.
   */
  lemma StopAndWaitExactly(cfg: Config, n: nat, events: seq<Event>)
    ensures (forall k :: 0 <= k <= |events| ==> AcksAccounted(After(cfg, n, events, k))) <==>
            (forall k :: 0 <= k < |events| ==> !WaivesAck(cfg, After(cfg, n, events, k), events[k]))
    ensures (forall k :: 0 <= k <= |events| ==> PayloadsAccounted(After(cfg, n, events, k))) <==>
            (forall k :: 0 <= k < |events| ==> !DropsSlot(cfg, After(cfg, n, events, k), events[k]))
  {
    hide After;
    hide WaivesAck;
    hide DropsSlot;
    hide AcksAccounted;
    hide PayloadsAccounted;
    forall k | 0 <= k <= |events|
      ensures (forall j :: 0 <= j < k ==> !WaivesAck(cfg, After(cfg, n, events, j), events[j])) ==>
                AcksAccounted(After(cfg, n, events, k))
      ensures (forall j :: 0 <= j < k ==> !DropsSlot(cfg, After(cfg, n, events, j), events[j])) ==>
                PayloadsAccounted(After(cfg, n, events, k))
    {
      CleanUntil(cfg, n, events, k);
      AccountedAfter(cfg, n, events, k);
    }
    if forall k :: 0 <= k <= |events| ==> AcksAccounted(After(cfg, n, events, k)) {
      forall k | 0 <= k < |events|
        ensures !WaivesAck(cfg, After(cfg, n, events, k), events[k])
      {
        EventExact(cfg, n, events, k);
      }
    }
    if forall k :: 0 <= k <= |events| ==> PayloadsAccounted(After(cfg, n, events, k)) {
      forall k | 0 <= k < |events|
        ensures !DropsSlot(cfg, After(cfg, n, events, k), events[k])
      {
        EventExact(cfg, n, events, k);
      }
    }
  }

  // ---------- closing ----------

  /** A close that a service asks for while its stream is idle takes effect before the callback's message is done. */
  lemma CloseInWriteReleases(cfg: Config, s: State, i: nat)
    requires Ready(s, i) && Willing(cfg, s)
    ensures var st := s.streams[i];
            !HandleWrite(cfg, s, st.remoteId, st.localId, [DoClose(i, 0)], Ok).0.streams[i].used
  {
    var st := s.streams[i];
    var t := Put(s, i, st.(closePending := true));
    assert [DoClose(i, 0)][1..] == [];
    assert Act(cfg, s, [DoClose(i, 0)]) == Act(cfg, t, []) == t;
    assert cfg.send(s.attempts) == Ok && cfg.send(s.attempts + 1) == Ok;
  }

  /** A close that was asked for while a WRTE was out takes effect with its acknowledgement. */
  lemma CloseOnAckReleases(cfg: Config, s: State, i: nat)
    requires i < |s.streams| && s.ring == [] && Willing(cfg, s)
    requires Find(s.streams, s.streams[i].localId, s.streams[i].remoteId, 0) == i
    requires s.streams[i].awaitingAck && s.streams[i].closePending && !s.streams[i].txPending
    ensures var st := s.streams[i]; !HandleReady(cfg, s, st.remoteId, st.localId, []).0.streams[i].used
  {
    assert cfg.send(s.attempts) == Ok;
  }
}

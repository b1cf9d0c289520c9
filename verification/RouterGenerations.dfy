/**
 Generations of streams: a service that keeps a slot and a generation reaches the stream it was given or none, as long
 as fewer than 2^32 streams were allocated.
 */
module RouterGenerations {
  import opened Bytes
  import opened Errno
  import opened Router
  import opened RouterProofs
  import opened RouterIds

  /** How many streams an event allocates. */
  function Allocates(s: State, e: Event): nat {
    if e.GotOpen? && s.online && e.remoteId != 0 && FirstFree(s.streams, 0) < |s.streams| then 1 else 0
  }

  /** How many streams were allocated, `a` of them before `events`; a new connection does not start again. */
  function Allocations(cfg: Config, s: State, events: seq<Event>, a: nat): nat
    decreases |events|
  {
    if events == [] then a else Allocations(cfg, Step(cfg, s, events[0]), events[1..], a + Allocates(s, events[0]))
  }

  lemma {:induction false} AllocationsGrow(cfg: Config, s: State, events: seq<Event>, a: nat)
    ensures Allocations(cfg, s, events, a) >= a
    decreases |events|
  {
    hide Step;
    if events != [] {
      AllocationsGrow(cfg, Step(cfg, s, events[0]), events[1..], a + Allocates(s, events[0]));
    }
  }

  /** Generations were given out in order, starting with 1, and live streams have different ones. */
  ghost predicate GenerationsOk(s: State, a: nat) {
    && s.nextGeneration == NextAfter(a)
    && (forall i :: 0 <= i < |s.streams| && s.streams[i].used ==> 0 < s.streams[i].generation <= a)
    && (forall i, j :: 0 <= i < j < |s.streams| && s.streams[i].used && s.streams[j].used ==>
          s.streams[i].generation != s.streams[j].generation)
  }

  /** Slot `i` has the stream that had generation `g` and these ids, one allocated since `a`, or none. */
  predicate SameOrLater(s: State, i: nat, a: nat, g: U32, localId: U32, remoteId: U32) {
    i < |s.streams| && s.streams[i].used ==>
      || s.streams[i].generation > a
      || (s.streams[i].generation == g && s.streams[i].localId == localId && s.streams[i].remoteId == remoteId)
  }

  lemma CalmGenerations(s: State, t: State, a: nat)
    requires GenerationsOk(s, a) && Narrows(s, t)
    ensures GenerationsOk(t, a)
  {
  }

  lemma CalmSlot(s: State, t: State, i: nat, a: nat, g: U32, localId: U32, remoteId: U32)
    requires SameOrLater(s, i, a, g, localId, remoteId) && Narrows(s, t)
    ensures SameOrLater(t, i, a, g, localId, remoteId)
  {
  }

  /** Every id is a 32-bit number. */
  lemma AnyBound(s: State)
    ensures Bounded(s, MAX_IDS)
  {
  }

  /** What an accepted or refused OPEN makes of the new stream narrows the table right behind the allocation. */
  lemma OpenNarrows(cfg: Config, s: State, remoteId: U32, actions: seq<Action>, result: Status)
    requires Inv(cfg, s) && FirstFree(s.streams, 0) < |s.streams|
    ensures Narrows(Allocate(s, FirstFree(s.streams, 0), remoteId), Open(cfg, s, remoteId, actions, result).0)
  {
    hide Act;
    hide SendControl;
    hide Flush;
    hide Bounded;
    hide Announced;
    hide QueueOk;
    hide ClosedOk;
    var i, g := FirstFree(s.streams, 0), MAX_IDS;
    var a := Allocate(s, i, remoteId);
    AnyBound(a);
    AllocateKeeps(cfg, s, i, remoteId);
    ActCalm(cfg, a, actions, g);
    var t := Act(cfg, a, actions);
    ReleaseCalm(t, i, g);
    var released := Release(t, i);
    var clse, okay := Packet(CLSE, 0, remoteId, []), Packet(OKAY, t.streams[i].localId, t.streams[i].remoteId, []);
    ControlCalm(cfg, released, clse, g);
    ControlCalm(cfg, t, okay, g);
    var u := SendControl(cfg, t, okay).0;
    FlushCalm(cfg, u, i, g);
    var v := Flush(cfg, u, i).0;
    ReleaseCalm(u, i, g);
    ReleaseCalm(v, i, g);
    CalmTrans(a, t, released, g);
    CalmTrans(a, released, SendControl(cfg, released, clse).0, g);
    CalmTrans(a, t, u, g);
    CalmTrans(a, u, v, g);
    CalmTrans(a, u, Release(u, i), g);
    CalmTrans(a, v, Release(v, i), g);
  }

  /** What an event does to the table: it is narrowed, behind the allocation of a stream if there is one. */
  lemma StepNarrows(cfg: Config, s: State, e: Event)
    requires Inv(cfg, s) && !Restarts(e)
    ensures var t := Step(cfg, s, e);
            if Allocates(s, e) == 1 then Narrows(Allocate(s, FirstFree(s.streams, 0), e.remoteId), t)
            else Narrows(s.(nextLocalId := t.nextLocalId), t)
  {
    hide Inv;
    hide Bounded;
    hide Open;
    hide SendControl;
    AnyBound(s);
    if Allocates(s, e) == 1 {
      OpenNarrows(cfg, s, e.remoteId, e.actions, e.result);
    } else if Gives(s, e) == 0 {
      StepCalm(cfg, s, e, MAX_IDS);
    } else {
      var u := s.(nextLocalId := Next(s.nextLocalId));
      AnyBound(u);
      ControlCalm(cfg, u, Okay(s.nextLocalId, e.remoteId), MAX_IDS);
    }
  }

  lemma RestartFrees(cfg: Config, s: State, e: Event)
    requires Restarts(e)
    ensures var t := Step(cfg, s, e);
            t.nextGeneration == s.nextGeneration && forall i :: 0 <= i < |t.streams| ==> !t.streams[i].used
  {
    hide SendControl;
    if e.GotConnect? {
      var u := Reset(cfg, s).(negotiated := Min(e.arg1, cfg.maxPayload));
      AnyBound(u);
      ControlCalm(cfg, u, Packet(CNXN, 0x0100_0000, cfg.maxPayload, cfg.banner), MAX_IDS);
    }
  }

  lemma StepGenerations(cfg: Config, s: State, e: Event, a: nat)
    requires Inv(cfg, s) && GenerationsOk(s, a) && a + Allocates(s, e) <= MAX_IDS
    ensures GenerationsOk(Step(cfg, s, e), a + Allocates(s, e))
  {
    hide Inv;
    hide Step;
    hide Narrows;
    if Restarts(e) {
      RestartFrees(cfg, s, e);
    } else {
      StepNarrows(cfg, s, e);
      var t := Step(cfg, s, e);
      if Allocates(s, e) == 1 {
        var u := Allocate(s, FirstFree(s.streams, 0), e.remoteId);
        assert GenerationsOk(u, a + 1);
        CalmGenerations(u, t, a + 1);
      } else {
        CalmGenerations(s.(nextLocalId := t.nextLocalId), t, a);
      }
    }
  }

  lemma StepSlot(cfg: Config, s: State, e: Event, b: nat, i: nat, a: nat, g: U32, localId: U32, remoteId: U32)
    requires Inv(cfg, s) && GenerationsOk(s, b) && a <= b && b + Allocates(s, e) <= MAX_IDS
    requires SameOrLater(s, i, a, g, localId, remoteId)
    ensures SameOrLater(Step(cfg, s, e), i, a, g, localId, remoteId)
  {
    hide Inv;
    hide Step;
    hide Narrows;
    if Restarts(e) {
      RestartFrees(cfg, s, e);
    } else {
      StepNarrows(cfg, s, e);
      var t := Step(cfg, s, e);
      if Allocates(s, e) == 1 {
        CalmSlot(Allocate(s, FirstFree(s.streams, 0), e.remoteId), t, i, a, g, localId, remoteId);
      } else {
        CalmSlot(s.(nextLocalId := t.nextLocalId), t, i, a, g, localId, remoteId);
      }
    }
  }

  lemma {:induction false} RunGenerations(cfg: Config, s: State, events: seq<Event>, a: nat)
    requires Inv(cfg, s) && GenerationsOk(s, a) && Allocations(cfg, s, events, a) <= MAX_IDS
    ensures GenerationsOk(Run(cfg, s, events), Allocations(cfg, s, events, a))
    decreases |events|
  {
    hide Inv;
    hide GenerationsOk;
    hide Step;
    if events != [] {
      var t := Step(cfg, s, events[0]);
      AllocationsGrow(cfg, t, events[1..], a + Allocates(s, events[0]));
      StepGenerations(cfg, s, events[0], a);
      StepKeeps(cfg, s, events[0]);
      RunGenerations(cfg, t, events[1..], a + Allocates(s, events[0]));
    }
  }

  lemma {:induction false} RunSlot(cfg: Config, s: State, events: seq<Event>, b: nat, i: nat, a: nat, g: U32,
                                   localId: U32, remoteId: U32)
    requires Inv(cfg, s) && GenerationsOk(s, b) && a <= b && Allocations(cfg, s, events, b) <= MAX_IDS
    requires SameOrLater(s, i, a, g, localId, remoteId)
    ensures SameOrLater(Run(cfg, s, events), i, a, g, localId, remoteId)
    decreases |events|
  {
    hide Inv;
    hide GenerationsOk;
    hide SameOrLater;
    hide Step;
    if events != [] {
      var t := Step(cfg, s, events[0]);
      AllocationsGrow(cfg, t, events[1..], b + Allocates(s, events[0]));
      StepSlot(cfg, s, events[0], b, i, a, g, localId, remoteId);
      StepGenerations(cfg, s, events[0], b);
      StepKeeps(cfg, s, events[0]);
      RunSlot(cfg, t, events[1..], b + Allocates(s, events[0]), i, a, g, localId, remoteId);
    }
  }

  /**
   In every run: a service that was given slot `i` with a generation may write and close through them at any later
   time. As long as fewer than 2^32 streams were allocated in all, the call reaches the stream with the same ids, or
   it is refused and changes nothing, whatever was opened and closed in between.
   */
  lemma HandleIsExact(cfg: Config, n: nat, before: seq<Event>, after: seq<Event>, i: nat, data: seq<Byte>)
    requires var s := Run(cfg, Initially(cfg, n), before); i < |s.streams| && s.streams[i].used
    requires var s := Run(cfg, Initially(cfg, n), before);
             Allocations(cfg, s, after, Allocations(cfg, Initially(cfg, n), before, 0)) <= MAX_IDS
    ensures var s := Run(cfg, Initially(cfg, n), before); var t := Run(cfg, s, after);
            var st := s.streams[i]; var g := st.generation;
            || (i < |t.streams| && t.streams[i].used && t.streams[i].generation == g
                && t.streams[i].localId == st.localId && t.streams[i].remoteId == st.remoteId)
            || (Write(cfg, t, i, g, data, false) == (t, EINVAL) && Close(cfg, t, i, g, false) == t)
  {
    hide Run;
    hide Allocations;
    hide Flush;
    var s0 := Initially(cfg, n);
    FreshKeeps(cfg, s0);
    assert GenerationsOk(s0, 0);
    var s := Run(cfg, s0, before);
    var a := Allocations(cfg, s0, before, 0);
    AllocationsGrow(cfg, s, after, a);
    RunGenerations(cfg, s0, before, 0);
    ReachableInv(cfg, n, before);
    var st := s.streams[i];
    RunSlot(cfg, s, after, a, i, a, st.generation, st.localId, st.remoteId);
  }
}

/**
 A logcat session gets on. While nothing wedges it, its `sending` flag is always somebody's: a thread's, the slot's or
 the peer's. And from wherever it may send, acknowledgements alone deliver its whole log and end it if it only drains.
 */
module LogcatProgress {
  import opened Bytes
  import opened Rings
  import opened LogcatContext
  import opened LogcatMachine

  // ---------- the flag has an owner ----------

  predicate SlotBusy(s: State) {
    Live(s, s.context.stream) && (s.slots[s.context.stream].txPending || s.slots[s.context.stream].awaitingAck)
  }

  /** Whoever will free the flag: a thread on its way, the router with a chunk in the slot, or the peer. */
  predicate Owned(s: State) {
    s.context.active && s.context.sending ==> OwnsSending(s, s.worker) || OwnsSending(s, s.protocol) || SlotBusy(s)
  }

  /**
   What takes the flag from everybody: a chunk of no bytes, because the host negotiated a payload of 0; and a write
   of the host to a stream with a chunk on its way that cannot be hung up at once.
   */
  predicate Wedges(cfg: Config, s: State, step: Step) {
    && Enabled(cfg, s, step)
    && match step
       case PrepareChunk(_) => s.limit == 0 && s.context.active && !s.context.sending && s.context.ring != []
       case HostWrite(i, len, hungUp) => len > 0 && !hungUp && (s.slots[i].txPending || s.slots[i].awaitingAck)
       case _ => false
  }

  lemma OpenOwned(cfg: Config, s: State, step: Step)
    requires Safe(cfg, s) && Owned(s) && Enabled(cfg, s, step)
    requires step.OpenOther? || step.OpenLogcat? || step.OtherTraffic? || step.Renegotiate?
    ensures Owned(Apply(cfg, s, step))
  {
    hide Isolated;
    hide PcOk;
  }

  lemma PrepareOwned(cfg: Config, s: State, who: Thread)
    requires Safe(cfg, s) && Owned(s) && Enabled(cfg, s, PrepareChunk(who))
    ensures Owned(Prepared(s, who)) <==> !Wedges(cfg, s, PrepareChunk(who))
  {
    hide Isolated;
    hide PcOk;
  }

  lemma CommitOwned(cfg: Config, s: State, who: Thread, outcome: Outcome)
    requires Safe(cfg, s) && Owned(s) && Enabled(cfg, s, CommitChunk(who, outcome))
    ensures Owned(Committed(s, who, outcome))
  {
    WritableIffCurrent(cfg, s, who);
    if Current(s.context, PcOf(s, who).generation) {
      HeldStream(cfg, s, who);
    }
    hide Isolated;
    hide PcOk;
  }

  lemma HeldStream(cfg: Config, s: State, who: Thread)
    requires Safe(cfg, s) && PcOf(s, who).Holding? && Current(s.context, PcOf(s, who).generation)
    ensures PcOf(s, who).stream == s.context.stream
  {
  }

  lemma WakeOwned(s: State)
    requires Owned(s) && s.worker == Idle
    ensures Owned(s.(worker := Ready))
  {
  }

  lemma RefusalOwned(cfg: Config, s: State, who: Thread)
    requires Safe(cfg, s) && Owned(s) && Enabled(cfg, s, HandleRefusal(who))
    ensures Owned(Apply(cfg, s, HandleRefusal(who)))
  {
    hide Linked;
    hide OneOwner;
    hide Isolated;
  }

  lemma CloseOwned(s: State, who: Thread)
    requires Owned(s) && PcOf(s, who).Closing?
    ensures Owned(Closed(s, who))
  {
  }

  lemma ReadyOwned(cfg: Config, s: State)
    requires Safe(cfg, s) && s.protocol.Acked?
    ensures Owned(Apply(cfg, s, RunTxReady))
  {
    hide Linked;
    hide OneOwner;
    hide Isolated;
  }

  lemma SlotOwned(cfg: Config, s: State, step: Step)
    requires Safe(cfg, s) && Owned(s) && Enabled(cfg, s, step) && (step.Flush? || step.Ack? || step.Release?)
    ensures Owned(Apply(cfg, s, step))
  {
    hide Isolated;
    hide PcOk;
  }

  lemma WriteOwned(cfg: Config, s: State, i: nat, len: nat, hungUp: bool)
    requires Safe(cfg, s) && Owned(s) && Enabled(cfg, s, HostWrite(i, len, hungUp))
    ensures Owned(HostWrote(s, i, len, hungUp)) <==> !Wedges(cfg, s, HostWrite(i, len, hungUp))
  {
    hide Isolated;
    hide PcOk;
  }

  lemma LogOwned(cfg: Config, s: State, step: Step)
    requires Sized(cfg, s) && Owned(s) && (step.Put? || step.LateNotify?)
    requires PcOf(s, Worker).Holding? ==> s.worker.len <= cfg.chunkSize
    requires PcOf(s, Protocol).Holding? ==> s.protocol.len <= cfg.chunkSize
    ensures Owned(Apply(cfg, s, step))
  {
  }

  /** One step leaves the flag with an owner exactly when it does not wedge the session. */
  lemma StepOwned(cfg: Config, s: State, step: Step)
    requires Safe(cfg, s) && Owned(s)
    ensures Owned(Apply(cfg, s, step)) <==> !Wedges(cfg, s, step)
  {
    hide Owned;
    hide Linked;
    hide OneOwner;
    hide Isolated;
    if Enabled(cfg, s, step) {
      match step
      case PrepareChunk(who) => PrepareOwned(cfg, s, who);
      case CommitChunk(who, outcome) => CommitOwned(cfg, s, who, outcome);
      case HostWrite(i, len, hungUp) => WriteOwned(cfg, s, i, len, hungUp);
      case Put(_) => LogOwned(cfg, s, step);
      case LateNotify(_) => LogOwned(cfg, s, step);
      case Flush(_) => SlotOwned(cfg, s, step);
      case Ack(_) => SlotOwned(cfg, s, step);
      case Release(_) => SlotOwned(cfg, s, step);
      case WakeWorker => WakeOwned(s);
      case HandleRefusal(who) => RefusalOwned(cfg, s, who);
      case RequestClose(who) => CloseOwned(s, who);
      case RunTxReady => ReadyOwned(cfg, s);
      case _ => OpenOwned(cfg, s, step);
    }
  }

  ghost predicate AlwaysOwned(cfg: Config, s: State, steps: seq<Step>)
    requires Safe(cfg, s)
    decreases |steps|
  {
    Owned(s) && (steps == [] || (StepKeeps(cfg, s, steps[0]); AlwaysOwned(cfg, Apply(cfg, s, steps[0]), steps[1..])))
  }

  ghost predicate NeverWedged(cfg: Config, s: State, steps: seq<Step>)
    requires Safe(cfg, s)
    decreases |steps|
  {
    steps == [] ||
    (StepKeeps(cfg, s, steps[0]); !Wedges(cfg, s, steps[0]) && NeverWedged(cfg, Apply(cfg, s, steps[0]), steps[1..]))
  }

  lemma {:induction false} OwnedExactly(cfg: Config, s: State, steps: seq<Step>)
    requires Safe(cfg, s) && Owned(s)
    ensures AlwaysOwned(cfg, s, steps) <==> NeverWedged(cfg, s, steps)
    decreases |steps|
  {
    hide Linked;
    hide OneOwner;
    hide Isolated;
    hide Owned;
    hide Wedges;
    hide Apply;
    if steps != [] {
      StepKeeps(cfg, s, steps[0]);
      StepOwned(cfg, s, steps[0]);
      var t := Apply(cfg, s, steps[0]);
      if Owned(t) {
        OwnedExactly(cfg, t, steps[1..]);
      } else {
        assert !AlwaysOwned(cfg, t, steps[1..]);
      }
    }
  }

  /**
   In every interleaving: the flag of an active session has an owner throughout if and only if no chunk was prepared
   under a negotiated payload of 0 and no write of the host found a chunk on its way that it could not hang up on.
   */
  lemma SendingIsOwned(cfg: Config, s: State, steps: seq<Step>)
    requires Initial(cfg, s)
    ensures Safe(cfg, s)
    ensures AlwaysOwned(cfg, s, steps) <==> NeverWedged(cfg, s, steps)
  {
    InitialIsSafe(cfg, s);
    OwnedExactly(cfg, s, steps);
  }

  // ---------- rounds ----------

  /** The protocol thread is about to look for the next chunk of an active session, and the flag is free. */
  predicate Turn(s: State) { s.protocol == Ready && s.context.active && !s.context.sending && s.limit > 0 }

  /** One chunk: prepared and put into the slot inside the dispatch, sent, acknowledged. */
  function Round(i: nat): seq<Step> {
    [PrepareChunk(Protocol), CommitChunk(Protocol, HeldBack), Flush(i), Ack(i), RunTxReady]
  }

  /** `t` is `s` with the first `n` bytes of the ring delivered. */
  ghost predicate Delivers(s: State, t: State, n: nat) {
    && n <= |s.context.ring| && t.context.ring == s.context.ring[n..]
    && DeliveredBytes(t.delivered, s.context.generation) ==
       DeliveredBytes(s.delivered, s.context.generation) + s.context.ring[..n]
    && t.context.generation == s.context.generation && t.context.stream == s.context.stream
    && t.context.drain == s.context.drain && t.limit == s.limit && t.source == s.source && t.lost == s.lost
    && t.worker == s.worker && t.listening == s.listening && t.retained == s.retained
  }

  lemma RunFirst(cfg: Config, s: State, step: Step, rest: seq<Step>)
    requires Safe(cfg, s)
    ensures Safe(cfg, Apply(cfg, s, step))
    ensures Run(cfg, s, [step] + rest) == Run(cfg, Apply(cfg, s, step), rest)
  {
    hide Safe;
    hide Apply;
    StepKeeps(cfg, s, step);
    assert ([step] + rest)[1..] == rest;
  }

  /** Preparing takes the front of the ring. */
  lemma TurnPrepares(cfg: Config, s: State)
    requires Safe(cfg, s) && Turn(s) && s.context.ring != []
    ensures var n := Min(|s.context.ring|, s.limit); var t := Prepared(s, Protocol);
            && n > 0 && Apply(cfg, s, PrepareChunk(Protocol)) == t && Safe(cfg, t)
            && t.protocol == Holding(s.context.stream, s.context.generation, n, |s.prepared|)
            && t.prepared == s.prepared + [Record(s.context.generation, s.context.ring[..n])]
            && t.context.ring == s.context.ring[n..] && t.context.sending && t.context.active
            && Delivers(s, t.(context := t.context.(ring := s.context.ring)), 0)
            && t.slots == s.slots
  {
    hide DeliveredBytes;
    StepKeeps(cfg, s, PrepareChunk(Protocol));
    var n := Min(|s.context.ring|, s.limit);
    var d := DeliveredBytes(s.delivered, s.context.generation);
    assert s.context.ring[0..] == s.context.ring && d + s.context.ring[..0] == d;
  }

  /** Committing delivers it. */
  lemma HoldingCommits(cfg: Config, s: State)
    requires Safe(cfg, s) && s.protocol.Holding? && Current(s.context, s.protocol.generation)
    ensures var t := Committed(s, Protocol, HeldBack); var h := s.protocol; var i := s.context.stream;
            && Apply(cfg, s, CommitChunk(Protocol, HeldBack)) == t && Safe(cfg, t)
            && t.protocol == Idle && t.context == s.context && t.limit == s.limit && t.source == s.source
            && t.lost == s.lost && t.worker == s.worker && t.listening == s.listening && t.retained == s.retained
            && Live(s, i) && Live(t, i)
            && t.slots[i] == s.slots[i].(txPending := true, awaitingAck := false) && t.slots[i].logcat
            && h.k < |s.prepared|
            && DeliveredBytes(t.delivered, s.context.generation) ==
               DeliveredBytes(s.delivered, s.context.generation) + s.prepared[h.k].data
  {
    hide DeliveredBytes;
    StepKeeps(cfg, s, CommitChunk(Protocol, HeldBack));
    WritableIffCurrent(cfg, s, Protocol);
    DeliveryMoves(cfg, s, Protocol, HeldBack);
    DeliveredSnoc(s.delivered, Delivery(s.context.generation, s.prepared[s.protocol.k].data, s.protocol.k));
  }

  /** The acknowledgement of a chunk frees the flag, and it is the protocol thread's turn again. */
  lemma AckTurns(cfg: Config, s: State, i: nat)
    requires Safe(cfg, s) && s.protocol == Idle && s.limit > 0
    requires Live(s, i) && s.slots[i].logcat && s.slots[i].awaitingAck
    ensures var t := Run(cfg, s, [Ack(i), RunTxReady]);
            && Turn(t) && Delivers(s, t, 0) && t.context.ring == s.context.ring
            && t.slots == s.slots[i := s.slots[i].(awaitingAck := false)]
  {
    hide DeliveredBytes;
    hide Apply;
    hide Linked;
    hide OneOwner;
    hide Isolated;
    AckStep(cfg, s, i);
    RunFirst(cfg, s, Ack(i), [RunTxReady]);
    var u := Apply(cfg, s, Ack(i));
    ReadyStep(cfg, u);
    RunFirst(cfg, u, RunTxReady, []);
    assert [Ack(i), RunTxReady] == [Ack(i)] + [RunTxReady] && [RunTxReady] == [RunTxReady] + [];
    DeliversNone(s);
  }

  lemma AckStep(cfg: Config, s: State, i: nat)
    requires Safe(cfg, s) && s.protocol == Idle && Live(s, i) && s.slots[i].logcat && s.slots[i].awaitingAck
    ensures Apply(cfg, s, Ack(i)) == s.(slots := s.slots[i := s.slots[i].(awaitingAck := false)], protocol := Acked(i))
  {
    hide Linked;
    hide OneOwner;
    hide Isolated;
  }

  lemma ReadyStep(cfg: Config, s: State)
    requires Safe(cfg, s) && s.protocol.Acked?
    ensures s.context.active
    ensures Apply(cfg, s, RunTxReady) == s.(context := s.context.(sending := false), protocol := Ready)
  {
    hide Linked;
    hide OneOwner;
    hide Isolated;
  }

  lemma FlushSends(cfg: Config, s: State, i: nat)
    requires Safe(cfg, s) && s.protocol == Idle && Live(s, i) && s.slots[i].txPending && !s.slots[i].awaitingAck
    ensures Apply(cfg, s, Flush(i)) == s.(slots := s.slots[i := s.slots[i].(txPending := false, awaitingAck := true)])
  {
    hide Safe;
  }

  lemma RunAppend(cfg: Config, s: State, a: seq<Step>, b: seq<Step>)
    requires Safe(cfg, s)
    ensures Run(cfg, s, a + b) == Run(cfg, Run(cfg, s, a), b)
    decreases |a|
  {
    hide Safe;
    hide Apply;
    if a == [] {
      assert a + b == b;
    } else {
      StepKeeps(cfg, s, a[0]);
      assert (a + b)[1..] == a[1..] + b;
      RunAppend(cfg, AfterOne(cfg, s, a[0]), a[1..], b);
    }
  }

  function AfterOne(cfg: Config, s: State, step: Step): (t: State)
    requires Safe(cfg, s)
    ensures Safe(cfg, t) && t == Run(cfg, s, [step])
  {
    StepKeeps(cfg, s, step);
    assert [step][1..] == [];
    Apply(cfg, s, step)
  }

  /** A round delivers the next chunk, and it is the protocol thread's turn again. */
  lemma RoundDelivers(cfg: Config, s: State)
    requires Safe(cfg, s) && Turn(s) && s.context.ring != []
    ensures var t := Run(cfg, s, Round(s.context.stream)); var n := Min(|s.context.ring|, s.limit);
            n > 0 && Turn(t) && Delivers(s, t, n)
  {
    hide DeliveredBytes;
    hide Prepared;
    hide Committed;
    hide Linked;
    hide OneOwner;
    hide Isolated;
    hide Run;
    var i := s.context.stream;
    var n := Min(|s.context.ring|, s.limit);
    TurnPrepares(cfg, s);
    var s1 := Prepared(s, Protocol);
    HoldingCommits(cfg, s1);
    var s2 := Committed(s1, Protocol, HeldBack);
    FlushSends(cfg, s2, i);
    var s3 := s2.(slots := s2.slots[i := s2.slots[i].(txPending := false, awaitingAck := true)]);
    var rest: seq<Step> := [Ack(i), RunTxReady];
    RunFirst(cfg, s, PrepareChunk(Protocol), [CommitChunk(Protocol, HeldBack), Flush(i)] + rest);
    RunFirst(cfg, s1, CommitChunk(Protocol, HeldBack), [Flush(i)] + rest);
    RunFirst(cfg, s2, Flush(i), rest);
    assert Round(i) == [PrepareChunk(Protocol)] + ([CommitChunk(Protocol, HeldBack), Flush(i)] + rest);
    assert [CommitChunk(Protocol, HeldBack), Flush(i)] + rest ==
           [CommitChunk(Protocol, HeldBack)] + ([Flush(i)] + rest);
    AckTurns(cfg, s3, i);
  }

  function Rounds(i: nat, n: nat): seq<Step> { if n == 0 then [] else Round(i) + Rounds(i, n - 1) }

  lemma DeliversMore(s: State, t: State, u: State, m: nat, n: nat)
    requires Delivers(s, t, m) && Delivers(t, u, n)
    ensures Delivers(s, u, m + n)
  {
    hide DeliveredBytes;
    var r := s.context.ring;
    assert r[m..][n..] == r[m + n..] && r[..m] + r[m..][..n] == r[..m + n];
    Assoc(DeliveredBytes(s.delivered, s.context.generation), r[..m], r[m..][..n]);
  }

  lemma DeliversNone(s: State)
    ensures Delivers(s, s, 0)
  {
    hide DeliveredBytes;
    var d := DeliveredBytes(s.delivered, s.context.generation);
    assert s.context.ring[0..] == s.context.ring && d + s.context.ring[..0] == d;
  }

  /** Rounds alone deliver the whole ring. */
  lemma {:induction false} RoundsDeliver(cfg: Config, s: State) returns (n: nat)
    requires Safe(cfg, s) && Turn(s)
    ensures var t := Run(cfg, s, Rounds(s.context.stream, n)); Turn(t) && Delivers(s, t, |s.context.ring|)
    decreases |s.context.ring|
  {
    hide Safe;
    hide Turn;
    hide DeliveredBytes;
    if s.context.ring == [] {
      n := 0;
      DeliversNone(s);
    } else {
      var i := s.context.stream;
      RoundDelivers(cfg, s);
      var t := Run(cfg, s, Round(i));
      var m := RoundsDeliver(cfg, t);
      n := m + 1;
      RunAppend(cfg, s, Round(i), Rounds(i, m));
      DeliversMore(s, t, Run(cfg, t, Rounds(i, m)), Min(|s.context.ring|, s.limit), |t.context.ring|);
    }
  }

  // ---------- the end ----------

  const EndSteps: seq<Step> := [PrepareChunk(Protocol), RequestClose(Protocol)]

  /** With nothing left to send, a session that only drains asks for its close, and another one waits for more. */
  lemma EmptyTurn(cfg: Config, s: State)
    requires Safe(cfg, s) && Turn(s) && s.context.ring == []
    ensures var t := Run(cfg, s, EndSteps);
            && t.protocol == Idle && t.context == s.context && Delivers(s, t, 0) && Live(t, s.context.stream)
            && t.slots[s.context.stream].closePending == (s.context.drain || s.slots[s.context.stream].closePending)
  {
    hide DeliveredBytes;
    hide Apply;
    hide OneOwner;
    hide Isolated;
    DeliversNone(s);
    SessionIsLive(cfg, s);
    RunFirst(cfg, s, PrepareChunk(Protocol), [RequestClose(Protocol)]);
    EmptyPrepares(cfg, s, Protocol);
    var u := Apply(cfg, s, PrepareChunk(Protocol));
    RunFirst(cfg, u, RequestClose(Protocol), []);
    CloseAsked(cfg, u, Protocol);
    assert EndSteps == [PrepareChunk(Protocol)] + [RequestClose(Protocol)];
    assert [RequestClose(Protocol)] == [RequestClose(Protocol)] + [];
  }

  lemma EmptyPrepares(cfg: Config, s: State, who: Thread)
    requires Safe(cfg, s) && PcOf(s, who) == Ready && s.context.active && !s.context.sending && s.context.ring == []
    ensures Apply(cfg, s, PrepareChunk(who)) ==
            WithPc(s, who, if s.context.drain then Closing(s.context.stream, s.context.generation) else Idle)
  {
    hide Linked;
    hide PcOk;
    hide OneOwner;
    hide Isolated;
  }

  /** A thread that is about to close the current session asks for it; an idle one does nothing. */
  lemma CloseAsked(cfg: Config, s: State, who: Thread)
    requires Safe(cfg, s) && s.context.active && Live(s, s.context.stream) && (who == Worker ==> s.protocol == Idle)
    requires PcOf(s, who) == Idle || PcOf(s, who) == Closing(s.context.stream, s.context.generation)
    ensures var i := s.context.stream; var t := Apply(cfg, s, RequestClose(who));
            t == if PcOf(s, who) == Idle then s
                 else WithPc(s, who, Idle).(slots := s.slots[i := s.slots[i].(closePending := true)])
  {
    hide PcOk;
    hide OneOwner;
    hide Isolated;
  }

  /** Nothing is on its way; the ring is empty, and a session that only drains has asked for its close. */
  predicate Finished(t: State) {
    && t.context.active && !t.context.sending && t.context.ring == [] && t.worker == t.protocol == Idle
    && Live(t, t.context.stream) && (t.context.drain ==> t.slots[t.context.stream].closePending)
  }

  /** The same session, with nothing more in its log and nothing more lost. */
  predicate Kin(s: State, t: State) {
    && s.context.active && t.context.active && t.context.generation == s.context.generation
    && t.context.stream == s.context.stream && t.context.drain == s.context.drain && t.limit == s.limit
    && t.source == s.source && t.lost == s.lost
  }

  /** The ordinary steps of the two threads, the transport and the peer. */
  predicate Ordinary(step: Step) {
    || step.WakeWorker? || step.PrepareChunk? || step.HandleRefusal? || step.RequestClose?
    || step.Flush? || step.Ack? || step.RunTxReady? || (step.CommitChunk? && step.outcome != Failed)
  }

  ghost predicate AllOrdinary(steps: seq<Step>) { forall k :: 0 <= k < |steps| ==> Ordinary(steps[k]) }

  /** `steps` are ordinary and finish the session of `s`. */
  ghost predicate Finishes(cfg: Config, s: State, steps: seq<Step>)
    requires Safe(cfg, s)
  {
    AllOrdinary(steps) && Kin(s, Run(cfg, s, steps)) && Finished(Run(cfg, s, steps))
  }

  lemma FinishesLater(cfg: Config, s: State, a: seq<Step>, b: seq<Step>)
    requires Safe(cfg, s) && AllOrdinary(a) && Kin(s, Run(cfg, s, a)) && Finishes(cfg, Run(cfg, s, a), b)
    ensures Finishes(cfg, s, a + b)
  {
    hide Safe;
    hide Finished;
    hide Ordinary;
    RunAppend(cfg, s, a, b);
  }

  lemma {:induction false} RoundsOrdinary(i: nat, n: nat)
    ensures AllOrdinary(Rounds(i, n))
  {
    if n > 0 {
      RoundsOrdinary(i, n - 1);
    }
  }

  /** From the protocol thread's turn on, acknowledgements alone finish the session. */
  lemma TurnFinishes(cfg: Config, s: State) returns (steps: seq<Step>)
    requires Safe(cfg, s) && Turn(s) && s.worker == Idle
    ensures Finishes(cfg, s, steps)
  {
    hide Safe;
    hide DeliveredBytes;
    var n := RoundsDeliver(cfg, s);
    var i := s.context.stream;
    steps := Rounds(i, n) + EndSteps;
    RunAppend(cfg, s, Rounds(i, n), EndSteps);
    EmptyTurn(cfg, Run(cfg, s, Rounds(i, n)));
    RoundsOrdinary(i, n);
  }

  /** The same from a chunk that waits for its acknowledgement. */
  lemma AckFinishes(cfg: Config, s: State) returns (steps: seq<Step>)
    requires Safe(cfg, s) && s.context.active && s.worker == s.protocol == Idle && s.limit > 0
    requires Live(s, s.context.stream) && s.slots[s.context.stream].awaitingAck
    ensures Finishes(cfg, s, steps)
  {
    hide DeliveredBytes;
    hide Finishes;
    hide PcOk;
    hide OneOwner;
    hide Isolated;
    var first: seq<Step> := [Ack(s.context.stream), RunTxReady];
    AckTurns(cfg, s, s.context.stream);
    var rest := TurnFinishes(cfg, Run(cfg, s, first));
    steps := first + rest;
    FinishesLater(cfg, s, first, rest);
  }

  // ---------- from any reachable state ----------

  /** How many steps a thread may still take before it is idle. */
  function Rank(pc: Pc): nat {
    match pc
    case Idle => 0
    case Closing(_, _) => 1
    case Refused(_, _) => 2
    case Holding(_, _, _, _) => 3
    case Ready => 4
    case Acked(_) => 5
  }

  /** What a thread does next. */
  function NextOf(s: State, who: Thread): Step {
    match PcOf(s, who)
    case Idle => WakeWorker
    case Ready => PrepareChunk(who)
    case Acked(_) => RunTxReady
    case Holding(_, _, _, _) => CommitChunk(who, if who == Protocol then HeldBack else Accepted)
    case Refused(_, _) => HandleRefusal(who)
    case Closing(_, _) => RequestClose(who)
  }

  function Other(who: Thread): Thread { if who == Worker then Protocol else Worker }

  /** The session goes on and the thread is nearer to its end. */
  predicate Nearer(s: State, t: State, who: Thread) {
    Kin(s, t) && Rank(PcOf(t, who)) < Rank(PcOf(s, who)) && PcOf(t, Other(who)) == PcOf(s, Other(who))
  }

  lemma PrepareNearer(s: State, who: Thread)
    requires s.limit <= |s.context.txChunk| && s.context.active && PcOf(s, who) == Ready
    ensures Nearer(s, Prepared(s, who), who)
  {
    hide Overlay;
  }

  lemma CommitNearer(s: State, who: Thread, outcome: Outcome)
    requires s.context.active && outcome != Failed
    requires PcOf(s, who).Holding? && PcOf(s, who).len <= |s.context.txChunk|
    ensures Nearer(s, Committed(s, who, outcome), who)
  {
    hide Writable;
  }

  lemma RestNearer(cfg: Config, s: State, who: Thread)
    requires Safe(cfg, s) && s.context.active && (who == Worker ==> s.protocol == Idle)
    requires PcOf(s, who).Refused? || PcOf(s, who).Closing? || PcOf(s, who).Acked?
    ensures Nearer(s, Apply(cfg, s, NextOf(s, who)), who)
  {
    hide Linked;
    hide Isolated;
  }

  lemma ThreadSteps(cfg: Config, s: State, who: Thread)
    requires Safe(cfg, s) && Owned(s) && s.context.active && s.limit > 0
    requires PcOf(s, who) != Idle && (who == Worker ==> s.protocol == Idle)
    ensures var t := Apply(cfg, s, NextOf(s, who));
            Safe(cfg, t) && Owned(t) && Nearer(s, t, who) && Ordinary(NextOf(s, who))
  {
    hide Nearer;
    hide Owned;
    hide Linked;
    hide OneOwner;
    hide Isolated;
    StepKeeps(cfg, s, NextOf(s, who));
    StepOwned(cfg, s, NextOf(s, who));
    match PcOf(s, who)
    case Ready => PrepareNearer(s, who);
    case Holding(_, _, _, _) => CommitNearer(s, who, if who == Protocol then HeldBack else Accepted);
    case _ => RestNearer(cfg, s, who);
  }

  /** A thread alone comes to rest. */
  lemma {:induction false} ThreadSettles(cfg: Config, s: State, who: Thread) returns (steps: seq<Step>)
    requires Safe(cfg, s) && Owned(s) && s.context.active && s.limit > 0 && (who == Worker ==> s.protocol == Idle)
    ensures var t := Run(cfg, s, steps);
            && AllOrdinary(steps) && Owned(t) && Kin(s, t)
            && PcOf(t, who) == Idle && PcOf(t, Other(who)) == PcOf(s, Other(who))
    decreases Rank(PcOf(s, who))
  {
    hide Owned;
    hide Linked;
    hide OneOwner;
    hide Isolated;
    hide Apply;
    hide Ordinary;
    if PcOf(s, who) == Idle {
      steps := [];
    } else {
      var step := NextOf(s, who);
      ThreadSteps(cfg, s, who);
      var t := Apply(cfg, s, step);
      var rest := ThreadSettles(cfg, t, who);
      steps := [step] + rest;
      RunFirst(cfg, s, step, rest);
    }
  }

  /** Both threads at rest and a chunk in the slot or with the peer. */
  lemma SlotFinishes(cfg: Config, s: State) returns (steps: seq<Step>)
    requires Safe(cfg, s) && s.context.active && s.worker == s.protocol == Idle && s.limit > 0 && SlotBusy(s)
    ensures Finishes(cfg, s, steps)
  {
    hide Finishes;
    hide PcOk;
    hide Isolated;
    var i := s.context.stream;
    if s.slots[i].awaitingAck {
      steps := AckFinishes(cfg, s);
    } else {
      FlushSends(cfg, s, i);
      RunFirst(cfg, s, Flush(i), []);
      assert [Flush(i)] + [] == [Flush(i)];
      var rest := AckFinishes(cfg, Run(cfg, s, [Flush(i)]));
      steps := [Flush(i)] + rest;
      FinishesLater(cfg, s, [Flush(i)], rest);
    }
  }

  lemma SessionIsLive(cfg: Config, s: State)
    requires Safe(cfg, s) && s.context.active
    ensures Live(s, s.context.stream)
  {
  }

  lemma WorkerWakes(cfg: Config, s: State)
    requires Safe(cfg, s) && Owned(s) && s.worker == s.protocol == Idle && s.context.active && !s.context.sending
    ensures var t := Apply(cfg, s, WakeWorker);
            && Safe(cfg, t) && Owned(t) && Kin(s, t) && t == s.(worker := Ready) && Ordinary(WakeWorker)
  {
    StepKeeps(cfg, s, WakeWorker);
    StepOwned(cfg, s, WakeWorker);
    hide Safe;
    hide Owned;
  }

  /** What the worker does with an empty ring: it asks for the close of a session that only drains. */
  lemma EmptyWorker(cfg: Config, s: State)
    requires Safe(cfg, s) && s.worker == Ready && s.protocol == Idle && s.context.active && !s.context.sending
    requires s.context.ring == [] && s.limit > 0
    ensures Finishes(cfg, s, [PrepareChunk(Worker), RequestClose(Worker)])
  {
    hide Apply;
    hide PcOk;
    hide OneOwner;
    hide Isolated;
    SessionIsLive(cfg, s);
    RunFirst(cfg, s, PrepareChunk(Worker), [RequestClose(Worker)]);
    EmptyPrepares(cfg, s, Worker);
    var u := Apply(cfg, s, PrepareChunk(Worker));
    RunFirst(cfg, u, RequestClose(Worker), []);
    CloseAsked(cfg, u, Worker);
    assert [PrepareChunk(Worker), RequestClose(Worker)] == [PrepareChunk(Worker)] + [RequestClose(Worker)];
    assert [RequestClose(Worker)] == [RequestClose(Worker)] + [];
  }

  /** What the worker does with bytes in the ring: a chunk of them is with the peer afterwards. */
  lemma WorkerSends(cfg: Config, s: State)
    requires Safe(cfg, s) && s.worker == Ready && s.protocol == Idle && s.context.active && !s.context.sending
    requires s.context.ring != [] && s.limit > 0
    ensures var t := Run(cfg, s, [PrepareChunk(Worker), CommitChunk(Worker, Accepted)]);
            && Kin(s, t) && t.worker == t.protocol == Idle && Live(t, t.context.stream)
            && t.slots[t.context.stream].awaitingAck
  {
    RunFirst(cfg, s, PrepareChunk(Worker), [CommitChunk(Worker, Accepted)]);
    var u := Apply(cfg, s, PrepareChunk(Worker));
    RunFirst(cfg, u, CommitChunk(Worker, Accepted), []);
    assert [PrepareChunk(Worker), CommitChunk(Worker, Accepted)] ==
           [PrepareChunk(Worker)] + [CommitChunk(Worker, Accepted)];
    assert [CommitChunk(Worker, Accepted)] == [CommitChunk(Worker, Accepted)] + [];
    WorkerHolds(s);
    WritableIffCurrent(cfg, u, Worker);
    hide PcOk;
    hide Isolated;
    hide OneOwner;
  }

  lemma WorkerHolds(s: State)
    requires 0 < s.limit <= |s.context.txChunk|
    requires s.context.active && !s.context.sending && s.context.ring != []
    ensures var t := Prepared(s, Worker);
            && t.worker.Holding? && t.worker.stream == s.context.stream && Current(t.context, t.worker.generation)
            && Kin(s, t) && t.protocol == s.protocol && t.slots == s.slots
  {
    assert Min(|s.context.ring|, s.limit) > 0;
  }

  /** Both threads at rest. */
  lemma RestFinishes(cfg: Config, s: State) returns (steps: seq<Step>)
    requires Safe(cfg, s) && Owned(s) && s.context.active && s.worker == s.protocol == Idle && s.limit > 0
    ensures Finishes(cfg, s, steps)
  {
    hide Finishes;
    hide Linked;
    hide PcOk;
    hide OneOwner;
    hide Isolated;
    hide Apply;
    if s.context.sending {
      steps := SlotFinishes(cfg, s);
    } else {
      WorkerWakes(cfg, s);
      RunFirst(cfg, s, WakeWorker, []);
      var t := Apply(cfg, s, WakeWorker);
      assert [WakeWorker] + [] == [WakeWorker];
      assert Run(cfg, t, []) == t;
      if s.context.ring == [] {
        EmptyWorker(cfg, t);
        steps := [WakeWorker] + [PrepareChunk(Worker), RequestClose(Worker)];
        FinishesLater(cfg, s, [WakeWorker], [PrepareChunk(Worker), RequestClose(Worker)]);
      } else {
        var two: seq<Step> := [PrepareChunk(Worker), CommitChunk(Worker, Accepted)];
        WorkerSends(cfg, t);
        var rest := AckFinishes(cfg, Run(cfg, t, two));
        FinishesLater(cfg, t, two, rest);
        steps := [WakeWorker] + (two + rest);
        FinishesLater(cfg, s, [WakeWorker], two + rest);
      }
    }
  }

  lemma OwnedFinishes(cfg: Config, s: State) returns (steps: seq<Step>)
    requires Safe(cfg, s) && Owned(s) && s.context.active && s.limit > 0
    ensures Finishes(cfg, s, steps)
  {
    hide Safe;
    hide Owned;
    hide Finishes;
    var a := ThreadSettles(cfg, s, Protocol);
    var s1 := Run(cfg, s, a);
    var b := ThreadSettles(cfg, s1, Worker);
    var s2 := Run(cfg, s1, b);
    var c := RestFinishes(cfg, s2);
    FinishesLater(cfg, s1, b, c);
    FinishesLater(cfg, s, a, b + c);
    steps := a + (b + c);
  }

  lemma {:induction false} NewSession(ds: seq<Delivery>, g: nat, next: nat)
    requires g >= next && forall d :: 0 <= d < |ds| ==> ds[d].generation < next
    ensures DeliveredBytes(ds, g) == []
  {
    NoneDelivered(ds, g);
  }

  lemma DeliveredEarlier(cfg: Config, s: State)
    requires Safe(cfg, s) && Conserved(cfg, s)
    ensures forall d :: 0 <= d < |s.delivered| ==> s.delivered[d].generation < s.nextGeneration
  {
    hide Linked;
    hide PcOk;
    hide OneOwner;
  }

  /** The protocol thread's turn comes with the session. */
  lemma OpenTurns(cfg: Config, s: State, i: nat, clear: bool, drain: bool)
    requires Safe(cfg, s) && Conserved(cfg, s) && Enabled(cfg, s, OpenLogcat(i, clear, drain)) && s.limit > 0
    ensures var t := Opened(cfg, s, i, clear, drain);
            && Apply(cfg, s, OpenLogcat(i, clear, drain)) == t && Safe(cfg, t) && Turn(t) && t.context.stream == i
            && t.context.ring == (if clear then [] else Excerpt(s.retained, cfg.ringCapacity))
            && t.context.drain == (clear || drain) && t.listening == !(clear || drain)
            && t.retained == (if clear then [] else s.retained)
            && t.context.generation == s.nextGeneration && DeliveredBytes(t.delivered, t.context.generation) == []
  {
    StepKeeps(cfg, s, OpenLogcat(i, clear, drain));
    DeliveredEarlier(cfg, s);
    NewSession(s.delivered, s.nextGeneration, s.nextGeneration);
    hide Safe;
    hide Conserved;
    hide DeliveredBytes;
  }

  /** The whole ring of `s` is delivered in `t`; a session that only drains has its close pending. */
  ghost predicate Emptied(s: State, t: State) {
    && t.context.active && t.context.generation == s.context.generation && t.context.ring == []
    && DeliveredBytes(t.delivered, s.context.generation) ==
       DeliveredBytes(s.delivered, s.context.generation) + s.context.ring
    && Live(t, s.context.stream) && (s.context.drain ==> t.slots[s.context.stream].closePending)
    && t.listening == s.listening && t.retained == s.retained
  }

  lemma EmptiedAtEnd(s: State, t: State, u: State)
    requires Turn(t) && Delivers(s, t, |s.context.ring|) && u.context == t.context && Delivers(t, u, 0)
    requires Live(u, s.context.stream) && (s.context.drain ==> u.slots[s.context.stream].closePending)
    ensures Emptied(s, u)
  {
    hide DeliveredBytes;
    var d := DeliveredBytes(t.delivered, s.context.generation);
    assert s.context.ring[..|s.context.ring|] == s.context.ring && t.context.ring[..0] == [] && d + [] == d;
  }

  lemma TurnDelivers(cfg: Config, s: State) returns (steps: seq<Step>)
    requires Safe(cfg, s) && Turn(s)
    ensures AllOrdinary(steps) && Emptied(s, Run(cfg, s, steps))
  {
    hide Safe;
    hide DeliveredBytes;
    hide Emptied;
    var n := RoundsDeliver(cfg, s);
    var i := s.context.stream;
    steps := Rounds(i, n) + EndSteps;
    RunAppend(cfg, s, Rounds(i, n), EndSteps);
    var t := Run(cfg, s, Rounds(i, n));
    EmptyTurn(cfg, t);
    EmptiedAtEnd(s, t, Run(cfg, t, EndSteps));
    RoundsOrdinary(i, n);
  }

  /**
   A session opened in any reachable state with a positive payload: ordinary steps alone deliver what the ring took of
   the retained log, or nothing if it was to be cleared; then a session that clears or only dumps has its close
   pending, and any other one listens for more.
   */
  lemma OpenFinishes(cfg: Config, s: State, i: nat, clear: bool, drain: bool) returns (more: seq<Step>)
    requires Safe(cfg, s) && Conserved(cfg, s) && Enabled(cfg, s, OpenLogcat(i, clear, drain)) && s.limit > 0
    ensures AllOrdinary(more)
    ensures var t := Run(cfg, s, [OpenLogcat(i, clear, drain)] + more);
            && DeliveredBytes(t.delivered, s.nextGeneration) ==
               (if clear then [] else Excerpt(s.retained, cfg.ringCapacity))
            && t.context.active && t.context.generation == s.nextGeneration && t.context.ring == [] && Live(t, i)
            && (clear || drain ==> t.slots[i].closePending) && (!(clear || drain) ==> t.listening)
            && t.retained == (if clear then [] else s.retained)
  {
    hide DeliveredBytes;
    hide Excerpt;
    hide Opened;
    OpenTurns(cfg, s, i, clear, drain);
    hide Safe;
    hide Conserved;
    hide Apply;
    var t := Opened(cfg, s, i, clear, drain);
    more := TurnDelivers(cfg, t);
    RunFirst(cfg, s, OpenLogcat(i, clear, drain), more);
    assert [] + t.context.ring == t.context.ring;
  }

  lemma {:induction false} OwnedAtEnd(cfg: Config, s: State, steps: seq<Step>)
    requires Safe(cfg, s) && AlwaysOwned(cfg, s, steps)
    ensures Owned(Run(cfg, s, steps))
    decreases |steps|
  {
    hide Safe;
    hide Owned;
    hide Apply;
    if steps != [] {
      StepKeeps(cfg, s, steps[0]);
      OwnedAtEnd(cfg, AfterOne(cfg, s, steps[0]), steps[1..]);
    }
  }

  /**
   From the end of every interleaving that was not wedged, with an active session and a positive payload: ordinary
   steps of the threads, the transport and the peer bring the session to rest with an empty ring. If nothing was lost,
   every byte of its log, the snapshot and all records since, is then delivered, once and in order; and a session
   that only drains has its close pending.
   */
  lemma SessionFinishes(cfg: Config, s: State, steps: seq<Step>) returns (more: seq<Step>)
    requires Initial(cfg, s) && Safe(cfg, s) && NeverWedged(cfg, s, steps)
    requires Run(cfg, s, steps).context.active && Run(cfg, s, steps).limit > 0
    ensures AllOrdinary(more)
    ensures var now := Run(cfg, s, steps); var end := Run(cfg, now, more);
            && Kin(now, end) && Finished(end)
            && (!now.lost ==> DeliveredBytes(end.delivered, end.context.generation) == now.source)
  {
    hide Safe;
    hide Owned;
    hide DeliveredBytes;
    SendingIsOwned(cfg, s, steps);
    OwnedAtEnd(cfg, s, steps);
    var now := Run(cfg, s, steps);
    more := OwnedFinishes(cfg, now);
    RunAppend(cfg, s, steps, more);
    ExactlyOnce(cfg, s, steps + more);
    var end := Run(cfg, now, more);
    var d := DeliveredBytes(end.delivered, end.context.generation);
    assert Held(end) == [] && d + [] + [] == d;
  }
}

/**
 Every interleaving of the logcat worker, the protocol thread, log producers and the host.
 Assumes, as the code does, one logcat stream at a time and fewer than 2^32 - 1 stream
 allocations; the generation counter then never repeats.
 */
module LogcatMachine {
  import opened Bytes
  import opened Rings
  import opened LogcatContext

  const GENERATION_LIMIT := 0xFFFF_FFFF

  /** struct webos_adb_stream, as far as it matters here. */
  datatype Slot = Slot(used: bool, generation: nat, logcat: bool, txPending: bool, awaitingAck: bool,
                       closePending: bool)

  const FreeSlot := Slot(false, 0, false, false, false, false)

  /** Where a thread stands. Holding: a chunk was prepared, and is record `k` of the log of prepared chunks. */
  datatype Pc =
    | Idle
    | Ready
    | Acked(stream: nat)
    | Holding(stream: nat, generation: nat, len: nat, k: nat)
    | Refused(stream: nat, generation: nat)
    | Closing(stream: nat, generation: nat)

  datatype Thread = Worker | Protocol

  /** A chunk, with the generation of its session. */
  datatype Record = Record(generation: nat, data: seq<Byte>)

  /** A chunk copied into a stream's slot: that stream's generation, what was copied, and which record it was. */
  datatype Delivery = Delivery(generation: nat, data: seq<Byte>, k: nat)

  datatype State = State(
    slots: seq<Slot>, nextGeneration: nat, limit: nat,
    context: Context, retained: seq<Byte>, listening: bool,
    worker: Pc, protocol: Pc,
    // History: the chunks prepared and delivered, refusals of a current chunk, the bytes of the current
    // session's log, whether any of them was lost on the way, and the bytes put since the log was cleared.
    prepared: seq<Record>, delivered: seq<Delivery>, refusedCurrent: nat,
    source: seq<Byte>, lost: bool, puts: seq<Byte>)

  datatype Config = Config(logCapacity: nat, ringCapacity: nat, chunkSize: nat)

  /** What the transport does with a WRTE: take it, hold it back, or fail. */
  datatype Outcome = Accepted | HeldBack | Failed

  datatype Step =
    | OpenOther(i: nat)
    | OtherTraffic(i: nat, txPending: bool, awaitingAck: bool)
    | OpenLogcat(i: nat, clear: bool, drain: bool)
    | WakeWorker
    | PrepareChunk(who: Thread)
    | CommitChunk(who: Thread, outcome: Outcome)
    | HandleRefusal(who: Thread)
    | RequestClose(who: Thread)
    | Flush(i: nat)
    | Ack(i: nat)
    | RunTxReady
    | Release(i: nat)
    | Renegotiate(payload: nat)
    | Put(data: seq<Byte>)
    | LateNotify(data: seq<Byte>)
    | HostWrite(i: nat, len: nat, hungUp: bool)

  function PcOf(s: State, who: Thread): Pc { if who == Worker then s.worker else s.protocol }

  function WithPc(s: State, who: Thread, pc: Pc): State {
    if who == Worker then s.(worker := pc) else s.(protocol := pc)
  }

  /** The protocol lock: the worker enters the router only while no callback runs. */
  predicate MayEnterRouter(s: State, who: Thread) { who == Protocol || s.protocol == Idle }

  predicate Live(s: State, i: nat) { i < |s.slots| && s.slots[i].used }

  predicate Enabled(cfg: Config, s: State, step: Step) {
    match step
    case OpenOther(i) => s.protocol == Idle && i < |s.slots| && !s.slots[i].used && s.nextGeneration < GENERATION_LIMIT
    case OtherTraffic(i, _, _) => s.protocol == Idle && Live(s, i) && !s.slots[i].logcat
    case OpenLogcat(i, _, _) =>
      && s.protocol == Idle && i < |s.slots| && !s.slots[i].used && s.nextGeneration < GENERATION_LIMIT
      && (forall j :: 0 <= j < |s.slots| && s.slots[j].used ==> !s.slots[j].logcat)
    case WakeWorker => s.worker == Idle
    case PrepareChunk(who) => PcOf(s, who).Ready?
    case CommitChunk(who, outcome) =>
      PcOf(s, who).Holding? && MayEnterRouter(s, who) && (who == Protocol ==> outcome == HeldBack)
    case HandleRefusal(who) => PcOf(s, who).Refused?
    case RequestClose(who) => PcOf(s, who).Closing? && MayEnterRouter(s, who)
    case Flush(i) => s.protocol == Idle && Live(s, i) && s.slots[i].txPending && !s.slots[i].awaitingAck
    case Ack(i) => s.protocol == Idle && Live(s, i) && s.slots[i].awaitingAck
    case RunTxReady => s.protocol.Acked?
    case Release(i) => s.protocol == Idle && Live(s, i)
    case Renegotiate(payload) =>
      s.protocol == Idle && payload <= cfg.chunkSize && forall j :: 0 <= j < |s.slots| ==> !s.slots[j].used
    case Put(_) => true
    case LateNotify(_) => true
    case HostWrite(i, _, _) => s.protocol == Idle && Live(s, i) && s.slots[i].logcat
  }

  function Allocate(s: State, i: nat, logcat: bool): State
    requires i < |s.slots|
  {
    s.(slots := s.slots[i := Slot(true, s.nextGeneration, logcat, false, false, false)],
       nextGeneration := s.nextGeneration + 1)
  }

  function Snapshot(cfg: Config, s: State): seq<Byte> {
    Excerpt(s.retained, cfg.ringCapacity)
  }

  /** handle_open up to the end of the locked section of adb_logcat_open; queue_next follows. */
  function Opened(cfg: Config, s: State, i: nat, clear: bool, drain: bool): State
    requires i < |s.slots|
  {
    var t := Allocate(s, i, true).(retained := if clear then [] else s.retained);
    var snapshot := if clear then [] else Snapshot(cfg, t);
    t.(context := Activate(s.context, i, s.nextGeneration, clear || drain, snapshot),
       listening := !(clear || drain), protocol := Ready,
       source := t.retained, lost := |snapshot| < |t.retained|,
       puts := if clear then [] else s.puts)
  }

  function Prepared(s: State, who: Thread): State
    requires s.limit <= |s.context.txChunk|
  {
    var (context, todo) := Prepare(s.context, s.limit);
    var t := s.(context := context);
    match todo
    case Nothing => WithPc(t, who, Idle)
    case CloseStream(stream, generation) => WithPc(t, who, Closing(stream, generation))
    case WriteChunk(stream, generation, len) =>
      var chunk := s.context.ring[..Min(|s.context.ring|, s.limit)];
      WithPc(t.(prepared := s.prepared + [Record(generation, chunk)]), who,
             Holding(stream, generation, len, |s.prepared|))
  }

  /** The guard of stream_write_locked. */
  predicate Writable(s: State, stream: nat, generation: nat, len: nat) {
    && Live(s, stream) && s.slots[stream].generation == generation
    && len <= s.limit
    && !s.slots[stream].txPending && !s.slots[stream].awaitingAck
  }

  /** stream_write_locked: the bytes come from the shared buffer, not from the record. */
  function Committed(s: State, who: Thread, outcome: Outcome): State
    requires PcOf(s, who).Holding? && PcOf(s, who).len <= |s.context.txChunk|
  {
    var h := PcOf(s, who);
    if !Writable(s, h.stream, h.generation, h.len) then
      WithPc(s.(refusedCurrent := s.refusedCurrent + if Current(s.context, h.generation) then 1 else 0),
             who, Refused(h.stream, h.generation))
    else if outcome == Failed then WithPc(s.(lost := true), who, Refused(h.stream, h.generation))
    else
      var slot := s.slots[h.stream].(txPending := outcome == HeldBack, awaitingAck := outcome == Accepted);
      var data := s.context.txChunk[..h.len];
      WithPc(s.(slots := s.slots[h.stream := slot],
                delivered := s.delivered + [Delivery(slot.generation, data, h.k)]), who, Idle)
  }

  function Closed(s: State, who: Thread): State
    requires PcOf(s, who).Closing?
  {
    var c := PcOf(s, who);
    var t := WithPc(s, who, Idle);
    if Live(s, c.stream) && s.slots[c.stream].generation == c.generation
    then t.(slots := s.slots[c.stream := s.slots[c.stream].(closePending := true)])
    else t
  }

  function Released(s: State, i: nat): State
    requires i < |s.slots|
  {
    var t := s.(slots := s.slots[i := FreeSlot]);
    if s.slots[i].logcat then t.(context := Deactivate(s.context), listening := false) else t
  }

  /**
   handle_write of a WRTE from the host: adb_logcat_write refuses any data, the router drops the chunk and asks
   for a close, and the stream is released if CLSE can be sent at once.
   */
  function HostWrote(s: State, i: nat, len: nat, hungUp: bool): State
    requires i < |s.slots|
  {
    if len == 0 then s
    else
      var slot := s.slots[i].(txPending := false, awaitingAck := false, closePending := true);
      var t := s.(slots := s.slots[i := slot], lost := s.lost || s.slots[i].txPending);
      if hungUp then Released(t, i) else t
  }

  /** log_buffer_put; with a listener the record goes to the logcat ring in the same step. */
  function Logged(cfg: Config, s: State, data: seq<Byte>): State {
    var t := s.(retained := LastN(s.retained + data, cfg.logCapacity), puts := s.puts + data);
    if !s.listening then t
    else
      var u := Notified(cfg, t, LastN(data, cfg.logCapacity));
      u.(source := s.source + data, lost := u.lost || |data| > cfg.logCapacity)
  }

  function Notified(cfg: Config, s: State, data: seq<Byte>): State {
    s.(context := PushLive(s.context, data, cfg.ringCapacity),
       lost := s.lost || |s.context.ring| + |data| > cfg.ringCapacity)
  }

  ghost predicate Sized(cfg: Config, s: State) {
    |s.context.txChunk| == cfg.chunkSize && s.limit <= cfg.chunkSize
  }

  function Apply(cfg: Config, s: State, step: Step): State
    requires Sized(cfg, s)
    requires PcOf(s, Worker).Holding? ==> s.worker.len <= cfg.chunkSize
    requires PcOf(s, Protocol).Holding? ==> s.protocol.len <= cfg.chunkSize
  {
    if !Enabled(cfg, s, step) then s else
    match step
    case OpenOther(i) => Allocate(s, i, false)
    case OtherTraffic(i, p, a) => s.(slots := s.slots[i := s.slots[i].(txPending := p, awaitingAck := a)])
    case OpenLogcat(i, clear, drain) => Opened(cfg, s, i, clear, drain)
    case WakeWorker => s.(worker := Ready)
    case PrepareChunk(who) => Prepared(s, who)
    case CommitChunk(who, outcome) => Committed(s, who, outcome)
    case HandleRefusal(who) =>
      var r := PcOf(s, who);
      WithPc(s.(context := Refusal(s.context, r.generation)), who,
             if Current(s.context, r.generation) then Closing(r.stream, r.generation) else Idle)
    case RequestClose(who) => Closed(s, who)
    case Flush(i) => s.(slots := s.slots[i := s.slots[i].(txPending := false, awaitingAck := true)])
    case Ack(i) =>
      s.(slots := s.slots[i := s.slots[i].(awaitingAck := false)],
         protocol := if s.slots[i].logcat then Acked(i) else Idle)
    case RunTxReady =>
      var current := s.context.active && s.context.stream == s.protocol.stream;
      s.(context := TxReady(s.context, s.protocol.stream), protocol := if current then Ready else Idle)
    case Release(i) => Released(s, i)
    case Renegotiate(payload) => s.(limit := payload)
    case Put(data) => Logged(cfg, s, data)
    case LateNotify(data) => Notified(cfg, s, data).(lost := true)
    case HostWrite(i, len, hungUp) => HostWrote(s, i, len, hungUp)
  }

  // ---------- the invariant ----------

  /** Slots and context agree: a live logcat slot is the session's stream, and there is none without a session. */
  ghost predicate Linked(s: State) {
    && s.nextGeneration > 0
    && (forall i :: 0 <= i < |s.slots| && s.slots[i].used ==> s.slots[i].generation < s.nextGeneration)
    && (forall i :: 0 <= i < |s.slots| && s.slots[i].used && s.slots[i].logcat ==>
          s.context.active && s.context.stream == i && s.context.generation == s.slots[i].generation)
    && (s.context.active ==> Live(s, s.context.stream) && s.slots[s.context.stream].logcat)
    && (s.listening ==> s.context.active && !s.context.drain)
  }

  ghost predicate PcOk(s: State, pc: Pc) {
    match pc
    case Idle => true
    case Ready => true
    case Acked(i) => s.context.active && s.context.stream == i
    case Holding(i, g, len, k) =>
      && g < s.nextGeneration && len <= |s.context.txChunk|
      && (Live(s, i) && s.slots[i].generation == g ==> s.slots[i].logcat)
      && k < |s.prepared| && s.prepared[k].generation == g && |s.prepared[k].data| == len
      && (Current(s.context, g) ==>
            && i == s.context.stream && len <= s.limit
            && s.context.txChunk[..len] == s.prepared[k].data
            && (forall d :: 0 <= d < |s.delivered| ==> s.delivered[d].k < k))
    case Refused(i, g) => g < s.nextGeneration
    case Closing(i, g) => g < s.nextGeneration
  }

  predicate OwnsSending(s: State, pc: Pc) {
    || pc.Acked?
    || ((pc.Holding? || pc.Refused?) && Current(s.context, pc.generation))
  }

  /** At most one place owns the session's `sending` flag: a thread, the slot, or the peer. */
  ghost predicate OneOwner(s: State) {
    && !s.worker.Acked?
    && (s.context.active && Live(s, s.context.stream) ==>
          var slot := s.slots[s.context.stream];
          var w, p := OwnsSending(s, s.worker), OwnsSending(s, s.protocol);
          && (w || p || slot.txPending || slot.awaitingAck ==> s.context.sending)
          && !(w && p) && !(slot.txPending && slot.awaitingAck)
          && (w || p ==> !slot.txPending && !slot.awaitingAck))
  }

  /** Every delivery is a chunk prepared for that very session, once, in the order of preparation. */
  ghost predicate Isolated(s: State) {
    && s.refusedCurrent == 0
    && (forall d :: 0 <= d < |s.delivered| ==>
          && s.delivered[d].k < |s.prepared|
          && s.prepared[s.delivered[d].k] == Record(s.delivered[d].generation, s.delivered[d].data))
    && (forall d, e :: 0 <= d < e < |s.delivered| ==> s.delivered[d].k < s.delivered[e].k)
  }

  ghost predicate Safe(cfg: Config, s: State) {
    && Sized(cfg, s)
    && Linked(s)
    && PcOk(s, s.worker) && PcOk(s, s.protocol)
    && OneOwner(s)
    && Isolated(s)
  }

  ghost predicate Initial(cfg: Config, s: State) {
    && Sized(cfg, s) && s.nextGeneration == 1
    && (forall i :: 0 <= i < |s.slots| ==> s.slots[i] == FreeSlot)
    && !s.context.active && !s.listening && s.worker == s.protocol == Idle
    && s.prepared == [] && s.delivered == [] && s.refusedCurrent == 0
    && s.retained == s.puts == []
  }

  lemma OpenKeeps(cfg: Config, s: State, step: Step)
    requires Safe(cfg, s) && Enabled(cfg, s, step) && (step.OpenOther? || step.OpenLogcat? || step.OtherTraffic?)
    ensures Safe(cfg, Apply(cfg, s, step))
  {
  }

  lemma PrepareKeeps(cfg: Config, s: State, who: Thread)
    requires Safe(cfg, s) && Enabled(cfg, s, PrepareChunk(who))
    ensures Safe(cfg, Apply(cfg, s, PrepareChunk(who)))
  {
    var t := Prepared(s, who);
    if PcOf(t, who).Holding? {
      ChunkPrepared(cfg, s, who);
    } else {
      NothingPrepared(cfg, s, who);
    }
  }

  lemma NothingPrepared(cfg: Config, s: State, who: Thread)
    requires Safe(cfg, s) && !PcOf(Prepared(s, who), who).Holding?
    ensures Safe(cfg, Prepared(s, who))
  {
    var pc := PcOf(Prepared(s, who), who);
    var t := WithPc(s, who, pc);
    NewPcKeeps(cfg, s, who, pc);
    if s.context.active && !s.context.sending && s.context.ring != [] {
      assert s.limit == 0;
      StalledKeeps(cfg, t);
    } else {
      assert Prepared(s, who) == t;
    }
  }

  lemma ChunkPrepared(cfg: Config, s: State, who: Thread)
    requires Safe(cfg, s) && PcOf(s, who).Ready? && PcOf(Prepared(s, who), who).Holding?
    ensures Safe(cfg, Prepared(s, who))
  {
    HoldingOk(s, who);
    BystanderOk(s, who, if who == Worker then s.protocol else s.worker);
    RecordAppended(s, who);
    SendingTaken(s, who);
  }

  lemma RecordAppended(s: State, who: Thread)
    requires s.limit <= |s.context.txChunk| && Linked(s) && Isolated(s) && PcOf(Prepared(s, who), who).Holding?
    ensures Linked(Prepared(s, who)) && Isolated(Prepared(s, who))
  {
  }

  lemma SendingTaken(s: State, who: Thread)
    requires s.limit <= |s.context.txChunk| && Linked(s) && OneOwner(s) && PcOf(Prepared(s, who), who).Holding?
    ensures OneOwner(Prepared(s, who))
  {
  }

  /** With a negotiated payload of 0 the flag is taken and nothing is ever sent. */
  lemma StalledKeeps(cfg: Config, s: State)
    requires Safe(cfg, s)
    ensures Safe(cfg, s.(context := Prepare(s.context, 0).0))
  {
    assert s.context.ring[0..] == s.context.ring;
    assert Overlay(s.context.txChunk, 0, []) == s.context.txChunk;
  }

  lemma HoldingOk(s: State, who: Thread)
    requires s.limit <= |s.context.txChunk| && Linked(s) && Isolated(s) && PcOf(Prepared(s, who), who).Holding?
    ensures var t := Prepared(s, who); PcOk(t, PcOf(t, who))
  {
    var c := s.context;
    var n := Min(|c.ring|, s.limit);
    assert Overlay(c.txChunk, 0, c.ring[..n])[..n] == c.ring[..n];
  }

  lemma BystanderOk(s: State, who: Thread, pc: Pc)
    requires s.limit <= |s.context.txChunk| && Linked(s) && PcOf(Prepared(s, who), who).Holding?
    requires PcOk(s, pc) && !OwnsSending(s, pc)
    ensures PcOk(Prepared(s, who), pc)
  {
  }

  /** A thread may give up what it holds and move to a place that owns nothing. */
  lemma NewPcKeeps(cfg: Config, s: State, who: Thread, pc: Pc)
    requires Safe(cfg, s) && (pc.Idle? || pc.Ready? || (pc.Closing? && pc.generation < s.nextGeneration))
    ensures Safe(cfg, WithPc(s, who, pc))
  {
    var t := WithPc(s, who, pc);
    assert Linked(t) && Isolated(t);
    if who == Worker {
      SamePc(s, t, s.protocol);
    } else {
      SamePc(s, t, s.worker);
    }
  }

  lemma SamePc(s: State, t: State, pc: Pc)
    requires PcOk(s, pc) && t == s.(worker := t.worker, protocol := t.protocol)
    ensures PcOk(t, pc) && OwnsSending(t, pc) == OwnsSending(s, pc)
  {
  }

  /** A chunk of the current session is never refused; a chunk of an earlier one always is. */
  lemma WritableIffCurrent(cfg: Config, s: State, who: Thread)
    requires Safe(cfg, s) && PcOf(s, who).Holding?
    ensures var h := PcOf(s, who); Writable(s, h.stream, h.generation, h.len) <==> Current(s.context, h.generation)
  {
  }

  lemma CommitKeeps(cfg: Config, s: State, who: Thread, outcome: Outcome)
    requires Safe(cfg, s) && Enabled(cfg, s, CommitChunk(who, outcome))
    ensures Safe(cfg, Apply(cfg, s, CommitChunk(who, outcome)))
  {
    WritableIffCurrent(cfg, s, who);
    if !Current(s.context, PcOf(s, who).generation) {
      StaleRefused(cfg, s, who, outcome);
    } else if outcome == Failed {
      WriteFailed(cfg, s, who);
    } else {
      CurrentDelivered(cfg, s, who, outcome);
    }
  }

  lemma StaleRefused(cfg: Config, s: State, who: Thread, outcome: Outcome)
    requires Safe(cfg, s) && PcOf(s, who).Holding? && !Current(s.context, PcOf(s, who).generation)
    ensures Safe(cfg, Committed(s, who, outcome))
  {
    WritableIffCurrent(cfg, s, who);
    NewPcKeeps(cfg, s, who, Closing(PcOf(s, who).stream, PcOf(s, who).generation));
  }

  lemma WriteFailed(cfg: Config, s: State, who: Thread)
    requires Safe(cfg, s) && PcOf(s, who).Holding? && Current(s.context, PcOf(s, who).generation)
    ensures Safe(cfg, Committed(s, who, Failed))
  {
    WritableIffCurrent(cfg, s, who);
  }

  lemma CurrentDelivered(cfg: Config, s: State, who: Thread, outcome: Outcome)
    requires Safe(cfg, s) && Enabled(cfg, s, CommitChunk(who, outcome)) && Current(s.context, PcOf(s, who).generation)
    requires outcome != Failed
    ensures Safe(cfg, Committed(s, who, outcome))
  {
    WritableIffCurrent(cfg, s, who);
    var other := if who == Worker then s.protocol else s.worker;
    DeliveredOk(cfg, s, who, outcome, other);
    var t := Committed(s, who, outcome);
    assert Linked(t) && Isolated(t);
  }

  lemma DeliveredOk(cfg: Config, s: State, who: Thread, outcome: Outcome, pc: Pc)
    requires Safe(cfg, s) && Enabled(cfg, s, CommitChunk(who, outcome)) && Current(s.context, PcOf(s, who).generation)
    requires pc == if who == Worker then s.protocol else s.worker
    ensures PcOk(Committed(s, who, outcome), pc)
  {
  }

  lemma HandleRefusalKeeps(cfg: Config, s: State, who: Thread)
    requires Safe(cfg, s) && Enabled(cfg, s, HandleRefusal(who))
    ensures Safe(cfg, Apply(cfg, s, HandleRefusal(who)))
  {
    var r := PcOf(s, who);
    if !Current(s.context, r.generation) {
      NewPcKeeps(cfg, s, who, Idle);
    }
  }

  lemma RequestCloseKeeps(cfg: Config, s: State, who: Thread)
    requires Safe(cfg, s) && Enabled(cfg, s, RequestClose(who))
    ensures Safe(cfg, Apply(cfg, s, RequestClose(who)))
  {
    NewPcKeeps(cfg, s, who, Idle);
    hide Safe;
    var c := PcOf(s, who);
    if Live(s, c.stream) && s.slots[c.stream].generation == c.generation {
      MarkedKeeps(cfg, WithPc(s, who, Idle), c.stream);
    }
  }

  /** A close that is pending changes nothing yet. */
  lemma MarkedKeeps(cfg: Config, s: State, i: nat)
    requires Safe(cfg, s) && Live(s, i)
    ensures Safe(cfg, s.(slots := s.slots[i := s.slots[i].(closePending := true)]))
  {
    hide Isolated;
    IsolatedSame(s, s.(slots := s.slots[i := s.slots[i].(closePending := true)]));
  }

  lemma WakeWorkerKeeps(cfg: Config, s: State)
    requires Safe(cfg, s) && Enabled(cfg, s, WakeWorker)
    ensures Safe(cfg, Apply(cfg, s, WakeWorker))
  {
  }

  lemma RunTxReadyKeeps(cfg: Config, s: State)
    requires Safe(cfg, s) && Enabled(cfg, s, RunTxReady)
    ensures Safe(cfg, Apply(cfg, s, RunTxReady))
  {
  }

  lemma FlushKeeps(cfg: Config, s: State, i: nat)
    requires Safe(cfg, s) && Enabled(cfg, s, Flush(i))
    ensures Safe(cfg, Apply(cfg, s, Flush(i)))
  {
  }

  lemma AckKeeps(cfg: Config, s: State, i: nat)
    requires Safe(cfg, s) && Enabled(cfg, s, Ack(i))
    ensures Safe(cfg, Apply(cfg, s, Ack(i)))
  {
  }

  lemma ReleaseKeeps(cfg: Config, s: State, i: nat)
    requires Safe(cfg, s) && Enabled(cfg, s, Release(i))
    ensures Safe(cfg, Apply(cfg, s, Release(i)))
  {
    if s.slots[i].logcat {
      SessionReleased(cfg, s, i);
    } else {
      OtherReleased(cfg, s, i);
    }
  }

  lemma SessionReleased(cfg: Config, s: State, i: nat)
    requires Safe(cfg, s) && Enabled(cfg, s, Release(i)) && s.slots[i].logcat
    ensures Safe(cfg, Released(s, i))
  {
    hide Isolated;
    IsolatedSame(s, Released(s, i));
  }

  lemma OtherReleased(cfg: Config, s: State, i: nat)
    requires Safe(cfg, s) && Enabled(cfg, s, Release(i)) && !s.slots[i].logcat
    ensures Safe(cfg, Released(s, i))
  {
    hide Isolated;
    IsolatedSame(s, Released(s, i));
  }

  lemma IsolatedSame(s: State, t: State)
    requires Isolated(s) && t.refusedCurrent == s.refusedCurrent
    requires t.prepared == s.prepared && t.delivered == s.delivered
    ensures Isolated(t)
  {
  }

  lemma HostWriteKeeps(cfg: Config, s: State, i: nat, len: nat, hungUp: bool)
    requires Safe(cfg, s) && Enabled(cfg, s, HostWrite(i, len, hungUp))
    ensures Safe(cfg, Apply(cfg, s, HostWrite(i, len, hungUp)))
  {
    if len > 0 {
      var t := HostWrote(s, i, len, false);
      assert Safe(cfg, t);
      if hungUp {
        ReleaseKeeps(cfg, t, i);
      }
    }
  }

  lemma RenegotiateKeeps(cfg: Config, s: State, payload: nat)
    requires Safe(cfg, s) && Enabled(cfg, s, Renegotiate(payload))
    ensures Safe(cfg, Apply(cfg, s, Renegotiate(payload)))
  {
  }

  lemma PutKeeps(cfg: Config, s: State, data: seq<Byte>)
    requires Safe(cfg, s) && Enabled(cfg, s, Put(data))
    ensures Safe(cfg, Apply(cfg, s, Put(data)))
  {
    LogKeeps(cfg, s, Apply(cfg, s, Put(data)));
  }

  /** Log contents play no part in who may send. */
  lemma LogKeeps(cfg: Config, s: State, t: State)
    requires Safe(cfg, s)
    requires t == s.(context := s.context.(ring := t.context.ring), retained := t.retained,
                     puts := t.puts, source := t.source, lost := t.lost)
    ensures Safe(cfg, t)
  {
  }

  lemma LateNotifyKeeps(cfg: Config, s: State, data: seq<Byte>)
    requires Safe(cfg, s) && Enabled(cfg, s, LateNotify(data))
    ensures Safe(cfg, Apply(cfg, s, LateNotify(data)))
  {
    LogKeeps(cfg, s, Apply(cfg, s, LateNotify(data)));
  }

  lemma StepKeeps(cfg: Config, s: State, step: Step)
    requires Safe(cfg, s)
    ensures Safe(cfg, Apply(cfg, s, step))
  {
    if Enabled(cfg, s, step) {
      match step
      case OpenOther(_) => OpenKeeps(cfg, s, step);
      case OpenLogcat(_, _, _) => OpenKeeps(cfg, s, step);
      case OtherTraffic(_, _, _) => OpenKeeps(cfg, s, step);
      case PrepareChunk(who) => PrepareKeeps(cfg, s, who);
      case CommitChunk(who, outcome) => CommitKeeps(cfg, s, who, outcome);
      case HandleRefusal(who) => HandleRefusalKeeps(cfg, s, who);
      case RequestClose(who) => RequestCloseKeeps(cfg, s, who);
      case WakeWorker => WakeWorkerKeeps(cfg, s);
      case RunTxReady => RunTxReadyKeeps(cfg, s);
      case Flush(i) => FlushKeeps(cfg, s, i);
      case Ack(i) => AckKeeps(cfg, s, i);
      case Release(i) => ReleaseKeeps(cfg, s, i);
      case Renegotiate(payload) => RenegotiateKeeps(cfg, s, payload);
      case Put(data) => PutKeeps(cfg, s, data);
      case LateNotify(data) => LateNotifyKeeps(cfg, s, data);
      case HostWrite(i, len, hungUp) => HostWriteKeeps(cfg, s, i, len, hungUp);
    }
  }

  function Run(cfg: Config, s: State, steps: seq<Step>): (end: State)
    requires Safe(cfg, s)
    ensures Safe(cfg, end)
    decreases |steps|
  {
    if steps == [] then s
    else
      StepKeeps(cfg, s, steps[0]);
      Run(cfg, Apply(cfg, s, steps[0]), steps[1..])
  }

  lemma InitialIsSafe(cfg: Config, s: State)
    requires Initial(cfg, s)
    ensures Safe(cfg, s) && Conserved(cfg, s)
  {
  }

  /**
   In every interleaving: no chunk of the current session is refused by the router, and whatever is
   handed to a stream was prepared for that stream's own session, unchanged, once and in order.
   */
  lemma SessionsAreIsolated(cfg: Config, s: State, steps: seq<Step>)
    requires Initial(cfg, s)
    ensures Safe(cfg, s)
    ensures var end := Run(cfg, s, steps);
            && end.refusedCurrent == 0
            && (forall d :: 0 <= d < |end.delivered| ==>
                  && end.delivered[d].k < |end.prepared|
                  && end.prepared[end.delivered[d].k] == Record(end.delivered[d].generation, end.delivered[d].data))
            && (forall d, e :: 0 <= d < e < |end.delivered| ==> end.delivered[d].k < end.delivered[e].k)
  {
    InitialIsSafe(cfg, s);
  }

  // ---------- conservation ----------

  /** The bytes handed to streams of one generation, in order. */
  function DeliveredBytes(ds: seq<Delivery>, g: nat): seq<Byte> {
    if ds == [] then []
    else
      var last := ds[|ds| - 1];
      DeliveredBytes(ds[..|ds| - 1], g) + if last.generation == g then last.data else []
  }

  function HeldBy(s: State, pc: Pc): seq<Byte> {
    if pc.Holding? && pc.k < |s.prepared| && Current(s.context, pc.generation) then s.prepared[pc.k].data else []
  }

  function Held(s: State): seq<Byte> { HeldBy(s, s.worker) + HeldBy(s, s.protocol) }

  /** Where the current session's log is: delivered, in a thread's hands, or still in the ring. */
  function Whereabouts(s: State): seq<Byte> {
    DeliveredBytes(s.delivered, s.context.generation) + Held(s) + s.context.ring
  }

  ghost predicate Conserved(cfg: Config, s: State) {
    && (forall p :: 0 <= p < |s.prepared| ==> s.prepared[p].generation < s.nextGeneration)
    && s.retained == LastN(s.puts, cfg.logCapacity)
    && (s.context.active && !s.lost ==> Whereabouts(s) == s.source)
  }

  lemma {:induction false} NoneDelivered(ds: seq<Delivery>, g: nat)
    requires forall d :: 0 <= d < |ds| ==> ds[d].generation != g
    ensures DeliveredBytes(ds, g) == []
  {
    if ds != [] {
      NoneDelivered(ds[..|ds| - 1], g);
    }
  }

  lemma OpenConserves(cfg: Config, s: State, i: nat, clear: bool, drain: bool)
    requires Safe(cfg, s) && Conserved(cfg, s) && Enabled(cfg, s, OpenLogcat(i, clear, drain))
    ensures Conserved(cfg, Opened(cfg, s, i, clear, drain))
  {
    var t := Opened(cfg, s, i, clear, drain);
    NoneDelivered(s.delivered, s.nextGeneration);
    assert Held(t) == [];
    if !t.lost {
      assert t.context.ring == t.retained;
    }
  }

  lemma PrepareConserves(cfg: Config, s: State, who: Thread)
    requires Safe(cfg, s) && Conserved(cfg, s) && Enabled(cfg, s, PrepareChunk(who))
    ensures Conserved(cfg, Prepared(s, who))
  {
    hide DeliveredBytes;
    hide Isolated;
    hide Whereabouts;
    hide Prepared;
    if PcOf(Prepared(s, who), who).Holding? {
      ChunkHeld(cfg, s, who);
      ChunkConserved(cfg, s, who);
    } else {
      StillConserves(cfg, s, who);
    }
  }

  lemma StillConserves(cfg: Config, s: State, who: Thread)
    requires s.limit <= |s.context.txChunk| && Conserved(cfg, s)
    requires PcOf(s, who).Ready? && !PcOf(Prepared(s, who), who).Holding?
    ensures Conserved(cfg, Prepared(s, who))
  {
    hide DeliveredBytes;
    hide Whereabouts;
    assert s.context.ring[0..] == s.context.ring;
    SameWhereabouts(cfg, s, Prepared(s, who));
  }

  lemma ChunkMoves(s: State, who: Thread)
    requires s.limit <= |s.context.txChunk| && PcOf(Prepared(s, who), who).Holding?
    ensures var t, n := Prepared(s, who), Min(|s.context.ring|, s.limit);
            && t.context.ring == s.context.ring[n..] && t.context.generation == s.context.generation
            && t.context.active && s.context.active
            && t.delivered == s.delivered && t.nextGeneration == s.nextGeneration
            && t.prepared == s.prepared + [Record(s.context.generation, s.context.ring[..n])]
            && t.retained == s.retained && t.puts == s.puts && t.source == s.source && t.lost == s.lost
  {
    var n := Min(|s.context.ring|, s.limit);
    assert Overlay(s.context.txChunk, 0, s.context.ring[..n])[..n] == s.context.ring[..n];
  }

  lemma ChunkConserved(cfg: Config, s: State, who: Thread)
    requires s.limit <= |s.context.txChunk| && Linked(s) && Conserved(cfg, s) && PcOf(Prepared(s, who), who).Holding?
    requires Held(s) == [] && Held(Prepared(s, who)) == s.context.ring[..Min(|s.context.ring|, s.limit)]
    ensures Conserved(cfg, Prepared(s, who))
  {
    hide DeliveredBytes;
    hide Prepared;
    hide Held;
    var n := Min(|s.context.ring|, s.limit);
    ChunkMoves(s, who);
    SplitRing(DeliveredBytes(s.delivered, s.context.generation), s.context.ring, n);
  }

  lemma SplitRing(d: seq<Byte>, ring: seq<Byte>, n: nat)
    requires n <= |ring|
    ensures d + ring[..n] + ring[n..] == d + [] + ring
  {
    assert ring == ring[..n] + ring[n..];
    Assoc(d, ring[..n], ring[n..]);
  }

  lemma ChunkHeld(cfg: Config, s: State, who: Thread)
    requires Safe(cfg, s) && PcOf(s, who).Ready? && PcOf(Prepared(s, who), who).Holding?
    ensures Held(s) == [] && Held(Prepared(s, who)) == s.context.ring[..Min(|s.context.ring|, s.limit)]
  {
  }

  /** Nothing moved. */
  lemma SameWhereabouts(cfg: Config, s: State, t: State)
    requires Conserved(cfg, s)
    requires t.prepared == s.prepared && t.delivered == s.delivered && t.nextGeneration >= s.nextGeneration
    requires t.retained == s.retained && t.puts == s.puts
    requires t.context.active && !t.lost ==>
               && s.context.active && !s.lost && t.source == s.source
               && t.context.generation == s.context.generation && t.context.ring == s.context.ring
               && HeldBy(t, t.worker) == HeldBy(s, s.worker) && HeldBy(t, t.protocol) == HeldBy(s, s.protocol)
    ensures Conserved(cfg, t)
  {
  }

  lemma StaleConserves(cfg: Config, s: State, who: Thread, outcome: Outcome)
    requires Safe(cfg, s) && Conserved(cfg, s) && Enabled(cfg, s, CommitChunk(who, outcome))
    requires !Current(s.context, PcOf(s, who).generation)
    ensures Conserved(cfg, Committed(s, who, outcome))
  {
    hide DeliveredBytes;
    hide Whereabouts;
    WritableIffCurrent(cfg, s, who);
    SameWhereabouts(cfg, s, Committed(s, who, outcome));
  }

  lemma DeliveryMoves(cfg: Config, s: State, who: Thread, outcome: Outcome)
    requires Safe(cfg, s) && Enabled(cfg, s, CommitChunk(who, outcome)) && outcome != Failed
    requires Current(s.context, PcOf(s, who).generation)
    ensures var t, h := Committed(s, who, outcome), PcOf(s, who);
            && t.delivered == s.delivered + [Delivery(s.context.generation, s.prepared[h.k].data, h.k)]
            && Held(s) == s.prepared[h.k].data && Held(t) == []
            && t.context == s.context && t.prepared == s.prepared && t.nextGeneration == s.nextGeneration
            && t.retained == s.retained && t.puts == s.puts && t.source == s.source && t.lost == s.lost
  {
    hide Isolated;
    WritableIffCurrent(cfg, s, who);
  }

  lemma DeliveredSnoc(ds: seq<Delivery>, d: Delivery)
    ensures DeliveredBytes(ds + [d], d.generation) == DeliveredBytes(ds, d.generation) + d.data
  {
    assert (ds + [d])[..|ds|] == ds;
  }

  lemma DeliveryConserves(cfg: Config, s: State, who: Thread, outcome: Outcome)
    requires Safe(cfg, s) && Conserved(cfg, s) && Enabled(cfg, s, CommitChunk(who, outcome)) && outcome != Failed
    requires Current(s.context, PcOf(s, who).generation)
    ensures Conserved(cfg, Committed(s, who, outcome))
  {
    DeliveryMoves(cfg, s, who, outcome);
    hide Safe;
    hide DeliveredBytes;
    hide Committed;
    hide Held;
    var h := PcOf(s, who);
    DeliveredSnoc(s.delivered, Delivery(s.context.generation, s.prepared[h.k].data, h.k));
    var d, x := DeliveredBytes(s.delivered, s.context.generation), s.prepared[h.k].data;
    assert d + x + [] + s.context.ring == d + x + s.context.ring;
  }

  /** A chunk the transport failed to take is lost. */
  lemma FailureConserves(cfg: Config, s: State, who: Thread)
    requires Safe(cfg, s) && Conserved(cfg, s) && Enabled(cfg, s, CommitChunk(who, Failed))
    requires Current(s.context, PcOf(s, who).generation)
    ensures Conserved(cfg, Committed(s, who, Failed))
  {
    WritableIffCurrent(cfg, s, who);
    hide Safe;
    hide Whereabouts;
  }

  lemma CommitConserves(cfg: Config, s: State, who: Thread, outcome: Outcome)
    requires Safe(cfg, s) && Conserved(cfg, s) && Enabled(cfg, s, CommitChunk(who, outcome))
    ensures Conserved(cfg, Committed(s, who, outcome))
  {
    hide Conserved;
    hide Committed;
    hide Linked;
    hide PcOk;
    hide OneOwner;
    hide Isolated;
    if !Current(s.context, PcOf(s, who).generation) {
      StaleConserves(cfg, s, who, outcome);
    } else if outcome != Failed {
      DeliveryConserves(cfg, s, who, outcome);
    } else {
      FailureConserves(cfg, s, who);
    }
  }

  lemma PutConserves(cfg: Config, s: State, data: seq<Byte>)
    requires Safe(cfg, s) && Conserved(cfg, s)
    ensures Conserved(cfg, Logged(cfg, s, data))
  {
    var t := Logged(cfg, s, data);
    LastNAppend(s.puts, data, cfg.logCapacity);
    assert Held(t) == Held(s);
    if t.context.active && !t.lost && s.listening {
      assert t.context.ring == s.context.ring + data;
      Assoc(DeliveredBytes(s.delivered, s.context.generation) + Held(s), s.context.ring, data);
    }
  }

  lemma RefusalConserves(cfg: Config, s: State, who: Thread)
    requires Safe(cfg, s) && Conserved(cfg, s) && Enabled(cfg, s, HandleRefusal(who))
    ensures Conserved(cfg, Apply(cfg, s, HandleRefusal(who)))
  {
    hide DeliveredBytes;
    hide Whereabouts;
    hide Isolated;
    hide Linked;
    SameWhereabouts(cfg, s, Apply(cfg, s, HandleRefusal(who)));
  }

  lemma CloseConserves(cfg: Config, s: State, who: Thread)
    requires Safe(cfg, s) && Conserved(cfg, s) && Enabled(cfg, s, RequestClose(who))
    ensures Conserved(cfg, Apply(cfg, s, RequestClose(who)))
  {
    hide DeliveredBytes;
    hide Whereabouts;
    hide Isolated;
    SameWhereabouts(cfg, s, Apply(cfg, s, RequestClose(who)));
  }

  lemma HostWriteConserves(cfg: Config, s: State, i: nat, len: nat, hungUp: bool)
    requires Safe(cfg, s) && Conserved(cfg, s) && Enabled(cfg, s, HostWrite(i, len, hungUp))
    ensures Conserved(cfg, HostWrote(s, i, len, hungUp))
  {
    hide DeliveredBytes;
    hide Whereabouts;
    hide Isolated;
    SameWhereabouts(cfg, s, HostWrote(s, i, len, hungUp));
  }

  lemma OtherConserves(cfg: Config, s: State, step: Step)
    requires Safe(cfg, s) && Conserved(cfg, s) && Enabled(cfg, s, step)
    requires !step.OpenLogcat? && !step.PrepareChunk? && !step.CommitChunk? && !step.Put?
    requires !step.HandleRefusal? && !step.RequestClose? && !step.HostWrite?
    ensures Conserved(cfg, Apply(cfg, s, step))
  {
    SameWhereabouts(cfg, s, Apply(cfg, s, step));
  }

  lemma StepConserves(cfg: Config, s: State, step: Step)
    requires Safe(cfg, s) && Conserved(cfg, s)
    ensures Conserved(cfg, Apply(cfg, s, step))
  {
    if Enabled(cfg, s, step) {
      match step
      case OpenLogcat(i, clear, drain) => OpenConserves(cfg, s, i, clear, drain);
      case PrepareChunk(who) => PrepareConserves(cfg, s, who);
      case CommitChunk(who, outcome) => CommitConserves(cfg, s, who, outcome);
      case Put(data) => PutConserves(cfg, s, data);
      case HandleRefusal(who) => RefusalConserves(cfg, s, who);
      case RequestClose(who) => CloseConserves(cfg, s, who);
      case HostWrite(i, len, hungUp) => HostWriteConserves(cfg, s, i, len, hungUp);
      case _ => OtherConserves(cfg, s, step);
    }
  }

  lemma {:induction false} RunConserves(cfg: Config, s: State, steps: seq<Step>)
    requires Safe(cfg, s) && Conserved(cfg, s)
    ensures Conserved(cfg, Run(cfg, s, steps))
    decreases |steps|
  {
    if steps != [] {
      StepKeeps(cfg, s, steps[0]);
      StepConserves(cfg, s, steps[0]);
      RunConserves(cfg, Apply(cfg, s, steps[0]), steps[1..]);
    }
  }

  /**
   In every interleaving the retained log is the last bytes put since it was cleared, and unless the
   ring overflowed, the snapshot was cut, a record came late, the transport failed or the host wrote, the bytes
   delivered to the current session, those in flight between two locks and those still in the ring
   are together the log at the time of opening and every record since: each byte once, in order.
   */
  lemma ExactlyOnce(cfg: Config, s: State, steps: seq<Step>)
    requires Initial(cfg, s)
    ensures Safe(cfg, s)
    ensures var end := Run(cfg, s, steps);
            && end.retained == LastN(end.puts, cfg.logCapacity)
            && (end.context.active && !end.lost ==> Whereabouts(end) == end.source)
  {
    InitialIsSafe(cfg, s);
    RunConserves(cfg, s, steps);
  }

  /** A snapshot leaves room for a terminator, so it is complete exactly when the log is shorter than the ring. */
  lemma SnapshotComplete(cfg: Config, s: State)
    ensures Snapshot(cfg, s) == s.retained <==> |s.retained| < cfg.ringCapacity || s.retained == []
  {
    if |s.retained| < cfg.ringCapacity {
      assert s.retained[..|s.retained|] == s.retained;
    }
  }
}

/**
 The IN half of the USB transport, lib/adb/transports/adb_usb.c: a packet queue whose head is sent
 in two phases, header then payload. UsbTx gives each locked section on values, the theorems are
 about whole runs of them, and UsbDevice is the original's form with the circular queue.
 */
module UsbTx {
  import opened Bytes
  import opened Errno

  datatype Phase = TxIdle | TxHeader | TxPayload

  datatype Packet = Packet(header: seq<Byte>, payload: seq<Byte>)

  datatype Buffer = NoBuffer | Buffer(id: nat)

  /** What allocating a buffer and handing it to the controller comes to. */
  datatype Hardware = Refuses(error: Status) | Takes(buffer: nat)

  /**
   `outstanding` are the buffers in the controller's hands; the pool gives out a buffer again only after its
   completion. `accepted`, `done` and `issued` are the packets accepted, the packets sent to the end and the IN
   transfers handed to the controller since the last reset.
   */
  datatype State = State(
    enabled: bool, resetting: bool, engaged: bool, phase: Phase,
    queue: seq<Packet>, active: Buffer, outstanding: set<nat>,
    accepted: seq<Packet>, done: seq<Packet>, issued: seq<seq<Byte>>)

  /** reset_tx_queue_unlocked */
  function Reset(s: State): State {
    s.(phase := TxIdle, queue := [], active := NoBuffer, engaged := false, accepted := [], done := [], issued := [])
  }

  /** A buffer that is in use is not given out, and a refusal is never success. */
  function Granted(s: State, hw: Hardware): Status {
    if hw.Refuses? then (if hw.error == Ok then EIO else hw.error)
    else if hw.buffer in s.outstanding then ENOMEM
    else Ok
  }

  /** enqueue_in, when the controller takes the buffer. */
  function Issue(s: State, data: seq<Byte>, buffer: nat): State {
    s.(active := Buffer(buffer), outstanding := s.outstanding + {buffer}, issued := s.issued + [data])
  }

  /** start_tx_packet_unlocked */
  function Start(s: State, hw: Hardware): (State, Status) {
    if s.queue == [] then (s, ENOENT)
    else if s.engaged then (s, EBUSY)
    else if Granted(s, hw) != Ok then (s.(phase := TxIdle, active := NoBuffer), Granted(s, hw))
    else (Issue(s.(engaged := true, phase := TxHeader), s.queue[0].header, hw.buffer), Ok)
  }

  /** webos_adb_usb_send for a well-formed header. */
  function Send(s: State, depth: nat, transferSize: nat, p: Packet, hw: Hardware): (State, Status) {
    if !s.enabled || s.resetting then (s, ENODEV)
    else if |p.payload| > transferSize then (s, EMSGSIZE)
    else if |s.queue| == depth then (s, ENOSPC)
    else
      var t := s.(queue := s.queue + [p], accepted := s.accepted + [p]);
      if s.queue != [] then (t, Ok)
      else
        var (u, status) := Start(t, hw);
        if status == Ok then (u, Ok)
        else (Reset(u).(accepted := s.accepted, done := s.done, issued := s.issued), status)
  }

  /** The transport fails: the queue is dropped and senders are held off until it is back. */
  function Fail(s: State): State { Reset(s).(resetting := true) }

  /** The header went out and a payload follows. */
  function AfterHeader(s: State, hw: Hardware): State
    requires s.queue != []
  {
    if Granted(s, hw) != Ok then Fail(s) else Issue(s.(phase := TxPayload), s.queue[0].payload, hw.buffer)
  }

  /** The packet at the head went out completely. */
  function AfterPacket(s: State, hw: Hardware): State
    requires s.queue != []
  {
    var t := s.(queue := s.queue[1..], done := s.done + [s.queue[0]],
                phase := TxIdle, engaged := false, active := NoBuffer);
    if t.queue == [] then t
    else
      var (u, status) := Start(t, hw);
      if status == Ok then u else Fail(t)
  }

  /** adb_usb_request on the IN endpoint, under the lock; the buffer goes back to the pool in any case. */
  function Complete(s0: State, buffer: nat, err: bool, hw: Hardware): State {
    var s := s0.(outstanding := s0.outstanding - {buffer});
    if s.active != Buffer(buffer) then s
    else if err then Fail(s)
    else if s.queue == [] then s.(active := NoBuffer)
    else if s.phase == TxHeader && s.queue[0].payload != [] then AfterHeader(s, hw)
    else AfterPacket(s, hw)
  }

  datatype Step =
    | DoSend(packet: Packet, hw: Hardware)
    | DoComplete(buffer: nat, err: bool, hw: Hardware)
    | DoReset                 // reset_usb_queues and webos_adb_usb_reset_tx
    | SetResetting(on: bool)
    | ClearState              // adb_usb_disable, before it resets the queues
    | Enable                  // adb_usb_enable

  function Apply(depth: nat, transferSize: nat, s: State, step: Step): State {
    match step
    case DoSend(p, hw) => Send(s, depth, transferSize, p, hw).0
    case DoComplete(buffer, err, hw) => Complete(s, buffer, err, hw)
    case DoReset => Reset(s)
    case SetResetting(on) => s.(resetting := on)
    case ClearState => s.(enabled := false, resetting := false, engaged := false)
    case Enable => Reset(s).(enabled := true)
  }

  function Run(depth: nat, transferSize: nat, s: State, steps: seq<Step>): State
    decreases |steps|
  {
    if steps == [] then s else Run(depth, transferSize, Apply(depth, transferSize, s, steps[0]), steps[1..])
  }

  const Initially := State(false, false, false, TxIdle, [], NoBuffer, {}, [], [], [])

  // ---------- what every step keeps ----------

  /** The IN transfers of one packet: the header, then the payload if there is one. */
  function TransfersOf(p: Packet): seq<seq<Byte>> {
    if p.payload == [] then [p.header] else [p.header, p.payload]
  }

  function Transfers(ps: seq<Packet>): seq<seq<Byte>> {
    if ps == [] then [] else Transfers(ps[..|ps| - 1]) + TransfersOf(ps[|ps| - 1])
  }

  /** What has been issued for the packet at the head of the queue. */
  function Partial(s: State): seq<seq<Byte>> {
    if s.phase == TxIdle || s.queue == [] then []
    else if s.phase == TxHeader then [s.queue[0].header]
    else [s.queue[0].header, s.queue[0].payload]
  }

  ghost predicate Consistent(s: State) {
    && (s.queue != [] <==> s.phase != TxIdle)
    && (s.queue != [] <==> s.active != NoBuffer)
    && (s.engaged ==> s.queue != [])
    && (s.enabled ==> (s.engaged <==> s.queue != []))
    && (s.phase == TxPayload && s.queue != [] ==> s.queue[0].payload != [])
  }

  /** An active buffer is in the controller's hands. */
  ghost predicate Owned(s: State) { s.active.Buffer? ==> s.active.id in s.outstanding }

  ghost predicate InOrder(s: State) {
    && s.accepted == s.done + s.queue
    && s.issued == Transfers(s.done) + Partial(s)
  }

  ghost predicate Inv(s: State) { Consistent(s) && InOrder(s) }

  /** Which buffers are in use has no part in the order. */
  lemma PoolIrrelevant(s: State, outstanding: set<nat>)
    requires Inv(s)
    ensures Inv(s.(outstanding := outstanding))
  {
    hide Transfers;
  }

  lemma ResetKeeps(s: State)
    ensures Inv(Reset(s)) && Inv(Fail(s))
  {
  }

  lemma QueuedKeeps(s: State, p: Packet)
    requires Inv(s) && s.queue != []
    ensures Inv(s.(queue := s.queue + [p], accepted := s.accepted + [p]))
  {
    Assoc(s.done, s.queue, [p]);
  }

  lemma StartedKeeps(s: State, p: Packet, buffer: nat)
    requires Inv(s) && s.queue == []
    ensures Inv(Issue(s.(queue := [p], accepted := s.accepted + [p], engaged := true, phase := TxHeader),
                      p.header, buffer))
  {
    assert s.accepted == s.done && s.issued == Transfers(s.done);
  }

  /** A packet is accepted exactly when the call succeeds, and a refused one leaves no trace. */
  lemma SendKeeps(depth: nat, transferSize: nat, s: State, p: Packet, hw: Hardware)
    requires Inv(s)
    ensures Inv(Send(s, depth, transferSize, p, hw).0)
    ensures var (t, status) := Send(s, depth, transferSize, p, hw);
            t.accepted == if status == Ok then s.accepted + [p] else s.accepted
  {
    if s.queue == [] {
      assert [] + [p] == [p];
      if hw.Takes? {
        StartedKeeps(s, p, hw.buffer);
      }
    } else {
      QueuedKeeps(s, p);
    }
  }

  lemma AfterHeaderKeeps(s: State, hw: Hardware)
    requires Inv(s) && s.queue != [] && s.phase == TxHeader && s.queue[0].payload != []
    ensures Inv(AfterHeader(s, hw))
  {
    hide Transfers;
    ResetKeeps(s);
    Assoc(Transfers(s.done), [s.queue[0].header], [s.queue[0].payload]);
  }

  /** The head of the queue is now among the packets sent. */
  lemma PacketDone(s: State)
    requires Inv(s) && s.queue != [] && (s.phase == TxPayload || s.queue[0].payload == [])
    ensures var done := s.done + [s.queue[0]];
            s.accepted == done + s.queue[1..] && s.issued == Transfers(done)
  {
    var done := s.done + [s.queue[0]];
    AppendFirst(s.done, s.queue);
    assert done[..|done| - 1] == s.done;
  }

  lemma AfterPacketKeeps(s: State, hw: Hardware)
    requires Inv(s) && s.queue != [] && (s.phase == TxPayload || s.queue[0].payload == [])
    ensures Inv(AfterPacket(s, hw))
  {
    hide Transfers;
    PacketDone(s);
    var t := s.(queue := s.queue[1..], done := s.done + [s.queue[0]],
                phase := TxIdle, engaged := false, active := NoBuffer);
    ResetKeeps(t);
    assert Transfers(t.done) + [] == Transfers(t.done);
  }

  lemma CompleteKeeps(s: State, buffer: nat, err: bool, hw: Hardware)
    requires Inv(s)
    ensures Inv(Complete(s, buffer, err, hw))
  {
    var t := s.(outstanding := s.outstanding - {buffer});
    PoolIrrelevant(s, s.outstanding - {buffer});
    if s.active == Buffer(buffer) {
      if err {
        ResetKeeps(t);
      } else if s.phase == TxHeader && s.queue[0].payload != [] {
        AfterHeaderKeeps(t, hw);
      } else {
        AfterPacketKeeps(t, hw);
      }
    }
  }

  lemma StepKeeps(depth: nat, transferSize: nat, s: State, step: Step)
    requires Inv(s)
    ensures Inv(Apply(depth, transferSize, s, step))
  {
    match step
    case DoSend(p, hw) => SendKeeps(depth, transferSize, s, p, hw);
    case DoComplete(buffer, err, hw) => CompleteKeeps(s, buffer, err, hw);
    case DoReset => ResetKeeps(s);
    case Enable => ResetKeeps(s);
    case _ =>
  }

  lemma {:induction false} RunKeeps(depth: nat, transferSize: nat, s: State, steps: seq<Step>)
    requires Inv(s)
    ensures Inv(Run(depth, transferSize, s, steps))
    decreases |steps|
  {
    if steps != [] {
      StepKeeps(depth, transferSize, s, steps[0]);
      RunKeeps(depth, transferSize, Apply(depth, transferSize, s, steps[0]), steps[1..]);
    }
  }

  lemma {:induction false} TransfersAppend(a: seq<Packet>, b: seq<Packet>)
    ensures Transfers(a + b) == Transfers(a) + Transfers(b)
  {
    if b == [] {
      assert a + b == a;
    } else {
      var n := |b| - 1;
      TransfersAppend(a, b[..n]);
      assert (a + b)[..|a + b| - 1] == a + b[..n];
      Assoc(Transfers(a), Transfers(b[..n]), TransfersOf(b[n]));
    }
  }

  lemma OneTransfer(p: Packet)
    ensures Transfers([p]) == TransfersOf(p)
  {
    assert [p][..0] == [] && Transfers([p][..0]) + TransfersOf(p) == TransfersOf(p);
  }

  lemma HeadFirst(queue: seq<Packet>)
    requires queue != []
    ensures TransfersOf(queue[0]) <= Transfers(queue)
  {
    hide Transfers;
    hide TransfersOf;
    assert queue == [queue[0]] + queue[1..];
    TransfersAppend([queue[0]], queue[1..]);
    OneTransfer(queue[0]);
  }

  lemma PartialIsPrefix(s: State)
    requires Consistent(s)
    ensures Partial(s) <= Transfers(s.queue)
  {
    hide Transfers;
    if s.queue != [] {
      HeadFirst(s.queue);
      assert Partial(s) <= TransfersOf(s.queue[0]);
    }
  }

  /**
   In every run, whatever the controller, the protocol and the host do: the IN transfers issued since
   the last reset are a prefix of the header-then-payload sequence of the accepted packets, all of it
   once the queue is empty; and a queued packet, a busy phase, an active buffer and, while the
   interface is enabled, the engaged bit go together.
   */
  lemma TransfersInOrder(depth: nat, transferSize: nat, steps: seq<Step>)
    ensures var s := Run(depth, transferSize, Initially, steps);
            && s.issued <= Transfers(s.accepted)
            && (s.queue == [] ==> s.issued == Transfers(s.accepted))
            && (s.queue != [] <==> s.phase != TxIdle)
            && (s.queue != [] <==> s.active != NoBuffer)
            && (s.enabled ==> (s.engaged <==> s.queue != []))
  {
    RunKeeps(depth, transferSize, Initially, steps);
    var s := Run(depth, transferSize, Initially, steps);
    PartialIsPrefix(s);
    TransfersAppend(s.done, s.queue);
  }

  // ---------- completions of dropped transfers ----------

  lemma StepOwned(depth: nat, transferSize: nat, s: State, step: Step)
    requires Owned(s)
    ensures Owned(Apply(depth, transferSize, s, step))
  {
  }

  /** A buffer in the controller's hands that is not the active one stays so until its completion. */
  lemma StaleStays(depth: nat, transferSize: nat, s: State, step: Step, buffer: nat)
    requires buffer in s.outstanding && s.active != Buffer(buffer) && !(step.DoComplete? && step.buffer == buffer)
    ensures var t := Apply(depth, transferSize, s, step); buffer in t.outstanding && t.active != Buffer(buffer)
  {
  }

  lemma {:induction false} StaleStaysLong(depth: nat, transferSize: nat, s: State, steps: seq<Step>, buffer: nat)
    requires buffer in s.outstanding && s.active != Buffer(buffer)
    requires forall k :: 0 <= k < |steps| ==> !(steps[k].DoComplete? && steps[k].buffer == buffer)
    ensures var t := Run(depth, transferSize, s, steps); buffer in t.outstanding && t.active != Buffer(buffer)
    decreases |steps|
  {
    if steps != [] {
      StaleStays(depth, transferSize, s, steps[0], buffer);
      StaleStaysLong(depth, transferSize, Apply(depth, transferSize, s, steps[0]), steps[1..], buffer);
    }
  }

  lemma {:induction false} RunOwned(depth: nat, transferSize: nat, s: State, steps: seq<Step>)
    requires Owned(s)
    ensures Owned(Run(depth, transferSize, s, steps))
    decreases |steps|
  {
    if steps != [] {
      StepOwned(depth, transferSize, s, steps[0]);
      RunOwned(depth, transferSize, Apply(depth, transferSize, s, steps[0]), steps[1..]);
    }
  }

  /**
   The completion of a buffer that was active when the queue was reset only gives the buffer back, whatever was
   sent meanwhile and whichever other buffers were used for it: the pool cannot have given this one out again.
   */
  lemma StaleCompletionIgnored(depth: nat, transferSize: nat, before: seq<Step>, after: seq<Step>, buffer: nat,
                               err: bool, hw: Hardware)
    requires Run(depth, transferSize, Initially, before).active == Buffer(buffer)
    requires forall k :: 0 <= k < |after| ==> !(after[k].DoComplete? && after[k].buffer == buffer)
    ensures var t := Run(depth, transferSize, Reset(Run(depth, transferSize, Initially, before)), after);
            Complete(t, buffer, err, hw) == t.(outstanding := t.outstanding - {buffer})
  {
    RunOwned(depth, transferSize, Initially, before);
    StaleStaysLong(depth, transferSize, Reset(Run(depth, transferSize, Initially, before)), after, buffer);
  }
}

/**
 The USB transmit queue gets on: a packet is refused only for a reason, every completion issues the next transfer
 unless something failed, and completions alone send everything that was accepted.
 */
module UsbProgress {
  import opened Errno
  import opened UsbTx

  // ---------- sending ----------

  /** Why webos_adb_usb_send refuses a packet; the controller is asked only when nothing is on its way. */
  function Refusal(s: State, depth: nat, transferSize: nat, p: Packet, hw: Hardware): Status {
    if !s.enabled || s.resetting then ENODEV
    else if |p.payload| > transferSize then EMSGSIZE
    else if |s.accepted| - |s.done| == depth then ENOSPC
    else if s.accepted == s.done then Granted(s, hw)
    else Ok
  }

  /**
   In every reachable state: the call succeeds exactly when there is no reason against it, and then the packet is
   last in the queue and, if it was the only one, its header is on its way. A refused packet leaves no trace.
   */
  lemma SendsExactly(depth: nat, transferSize: nat, steps: seq<Step>, p: Packet, hw: Hardware)
    ensures var s := Run(depth, transferSize, Initially, steps);
            var (t, status) := Send(s, depth, transferSize, p, hw);
            && status == Refusal(s, depth, transferSize, p, hw)
            && (status != Ok ==> t == s)
            && (status == Ok ==>
                  && t.accepted == s.accepted + [p] && t.done == s.done && t.enabled && !t.resetting
                  && t.issued == if s.accepted == s.done then s.issued + [p.header] else s.issued)
  {
    RunKeeps(depth, transferSize, Initially, steps);
    var s := Run(depth, transferSize, Initially, steps);
    if s.queue == [] {
      assert s.accepted == s.done;
      assert [] + [p] == [p];
    } else {
      assert |s.accepted| == |s.done| + |s.queue|;
    }
  }

  // ---------- completions ----------

  /** How many transfers of the accepted packets have not been issued yet. */
  function Left(s: State): int { |Transfers(s.accepted)| - |s.issued| }

  lemma {:induction false} TransfersFirst(queue: seq<Packet>)
    requires queue != []
    ensures Transfers(queue) == TransfersOf(queue[0]) + Transfers(queue[1..])
  {
    hide TransfersOf;
    assert queue == [queue[0]] + queue[1..];
    TransfersAppend([queue[0]], queue[1..]);
    OneTransfer(queue[0]);
  }

  lemma EveryPacketIsSent(queue: seq<Packet>)
    ensures queue == [] <==> Transfers(queue) == []
  {
    if queue != [] {
      TransfersFirst(queue);
    }
  }

  /** What is left are the transfers of the queue but those issued for its head. */
  lemma LeftIs(s: State)
    requires Inv(s)
    ensures Left(s) == |Transfers(s.queue)| - |Partial(s)| >= 0
    ensures s.issued <= Transfers(s.accepted)
  {
    TransfersAppend(s.done, s.queue);
    PartialIsPrefix(s);
  }

  /** Nothing is left exactly when the head is the last packet and its last transfer is out. */
  lemma NothingLeft(s: State)
    requires Inv(s) && s.queue != []
    ensures Left(s) == 0 <==> |s.queue| == 1 && (s.phase == TxPayload || s.queue[0].payload == [])
  {
    LeftIs(s);
    TransfersFirst(s.queue);
    EveryPacketIsSent(s.queue[1..]);
  }

  /** The completion went well, and so did the next transfer if there is one. */
  predicate WentWell(s: State, buffer: nat, err: bool, hw: Hardware) {
    !err && (Left(s) == 0 || Granted(s.(outstanding := s.outstanding - {buffer}), hw) == Ok)
  }

  /**
   In every reachable state the completion of the active buffer issues exactly the next transfer of the accepted
   packets, if there is one, and drops nothing; unless it reports an error or the controller takes no buffer for the
   next transfer, and exactly then the queue is dropped and senders are held off.
   */
  lemma CompletesExactly(depth: nat, transferSize: nat, steps: seq<Step>, buffer: nat, err: bool, hw: Hardware)
    requires Run(depth, transferSize, Initially, steps).active == Buffer(buffer)
    ensures var s := Run(depth, transferSize, Initially, steps);
            GoesOn(s, Complete(s, buffer, err, hw), WentWell(s, buffer, err, hw))
  {
    RunKeeps(depth, transferSize, Initially, steps);
    CompleteGoesOn(Run(depth, transferSize, Initially, steps), buffer, err, hw);
  }

  ghost predicate GoesOn(s: State, t: State, well: bool) {
    && t.enabled == s.enabled
    && if well then
         && t.accepted == s.accepted && t.resetting == s.resetting
         && s.issued <= t.issued <= Transfers(s.accepted)
         && |t.issued| == |s.issued| + (if Left(s) > 0 then 1 else 0)
         && (t.active == NoBuffer <==> Left(s) == 0)
       else t.accepted == t.queue == [] && t.active == NoBuffer && t.resetting
  }

  lemma CompleteGoesOn(s: State, buffer: nat, err: bool, hw: Hardware)
    requires Inv(s) && s.active == Buffer(buffer)
    ensures GoesOn(s, Complete(s, buffer, err, hw), WentWell(s, buffer, err, hw))
  {
    hide Transfers;
    hide AfterHeader;
    hide AfterPacket;
    hide Partial;
    var t := s.(outstanding := s.outstanding - {buffer});
    PoolIrrelevant(s, s.outstanding - {buffer});
    LeftIs(s);
    NothingLeft(s);
    if !err {
      if s.phase == TxPayload || s.queue[0].payload == [] {
        PacketGoesOn(t, hw);
      } else {
        HeaderGoesOn(t, hw);
      }
    }
  }

  /** A payload is left. */
  lemma HeaderGoesOn(s: State, hw: Hardware)
    requires Inv(s) && s.queue != [] && s.phase == TxHeader && s.queue[0].payload != []
    ensures GoesOn(s, AfterHeader(s, hw), Granted(s, hw) == Ok) && Left(s) > 0
  {
    hide Transfers;
    NothingLeft(s);
    AfterHeaderKeeps(s, hw);
    LeftIs(s);
    LeftIs(AfterHeader(s, hw));
  }

  /** The next packet is left, or nothing. */
  lemma PacketGoesOn(s: State, hw: Hardware)
    requires Inv(s) && s.queue != [] && (s.phase == TxPayload || s.queue[0].payload == [])
    ensures GoesOn(s, AfterPacket(s, hw), Left(s) == 0 || Granted(s, hw) == Ok)
  {
    hide Transfers;
    NothingLeft(s);
    PacketDone(s);
    AfterPacketKeeps(s, hw);
    LeftIs(s);
    LeftIs(AfterPacket(s, hw));
  }

  // ---------- draining ----------

  /** A pool that never runs out: whatever is in use, it gives out another buffer. */
  ghost predicate NeverEmpty(pick: set<nat> -> nat) { forall used: set<nat> :: pick(used) !in used }

  /** `n` completions of the active buffer without error; `pick` gives the buffer for what comes next. */
  function Completions(s: State, pick: set<nat> -> nat, n: nat): State
    decreases n
  {
    if n == 0 || s.active == NoBuffer then s
    else
      var b := s.active.id;
      Completions(Complete(s, b, false, Takes(pick(s.outstanding - {b}))), pick, n - 1)
  }

  lemma {:induction false} CompletionsDrain(s: State, pick: set<nat> -> nat, n: nat)
    requires Inv(s) && n > Left(s) && NeverEmpty(pick)
    ensures var t := Completions(s, pick, n);
            && t.queue == [] && t.accepted == s.accepted && t.issued == Transfers(s.accepted)
            && t.resetting == s.resetting && t.enabled == s.enabled
    decreases n
  {
    hide Transfers;
    hide Complete;
    LeftIs(s);
    if s.active == NoBuffer {
      EveryPacketIsSent(s.queue);
    } else {
      var b := s.active.id;
      var hw := Takes(pick(s.outstanding - {b}));
      var t := Complete(s, b, false, hw);
      CompleteKeeps(s, b, false, hw);
      CompleteGoesOn(s, b, false, hw);
      if Left(s) > 0 {
        CompletionsDrain(t, pick, n - 1);
      } else {
        assert Completions(t, pick, n - 1) == t;
      }
    }
  }

  /** Completions alone issue all that was accepted in `s`, and drop nothing of it. */
  ghost predicate DrainsFully(s: State, pick: set<nat> -> nat) {
    && Left(s) >= 0
    && var t := Completions(s, pick, Left(s) + 1);
       && t.queue == [] && t.accepted == s.accepted && t.issued == Transfers(s.accepted)
       && t.resetting == s.resetting
  }

  lemma FromInv(s: State, pick: set<nat> -> nat)
    requires Inv(s) && NeverEmpty(pick)
    ensures DrainsFully(s, pick)
  {
    hide Transfers;
    hide Completions;
    LeftIs(s);
    CompletionsDrain(s, pick, Left(s) + 1);
  }

  /**
   From every reachable state completions alone, each with a free buffer for the next transfer, bring the queue to its
   end: every packet accepted was issued, header and payload, and none was dropped on the way.
   */
  lemma Drains(depth: nat, transferSize: nat, steps: seq<Step>, pick: set<nat> -> nat)
    requires NeverEmpty(pick)
    ensures DrainsFully(Run(depth, transferSize, Initially, steps), pick)
  {
    RunKeeps(depth, transferSize, Initially, steps);
    FromInv(Run(depth, transferSize, Initially, steps), pick);
  }
}

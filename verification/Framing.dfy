/**
 The byte-stream framer of lib/adb/adb_protocol.c.
 Feed is the simple form: an automaton that takes one byte at a time. The class Receiver is the
 original's form, which copies as much of each chunk as fits; it is proved to compute Feed.
 On the automaton: what is dispatched is exactly what was encoded, however the bytes were cut.
 */
module Framing {
  import opened Bytes
  import opened Errno

  const HEADER_SIZE := 24
  const CNXN: U32 := 0x4e58_4e43
  const VERSION_NO_CHECKSUM: U32 := 0x0100_0001

  /** A message as it stood on the wire; `check` is the checksum field the sender wrote. */
  datatype Message = Message(command: U32, arg0: U32, arg1: U32, check: U32, payload: seq<Byte>)

  /**
   What the framer cannot see: whether the n-th allocation succeeds and what dispatching
   returns, given every message handed over so far (the last one included).
   */
  datatype Env = Env(maxPayload: nat, alloc: nat -> bool, reply: seq<Message> -> Status)

  // ---------- the wire format ----------

  function Sum(data: seq<Byte>): (n: int)
    ensures n >= 0
  {
    if data == [] then 0 else Sum(data[..|data| - 1]) + data[|data| - 1] as int
  }

  lemma {:induction false} SumAppend(a: seq<Byte>, b: seq<Byte>)
    ensures Sum(a + b) == Sum(a) + Sum(b)
  {
    if b == [] {
      assert a + b == a;
    } else {
      SumAppend(a, b[..|b| - 1]);
      assert (a + b)[..|a + b| - 1] == a + b[..|b| - 1];
    }
  }

  /** The byte sum modulo 2^32. */
  function Checksum(data: seq<Byte>): U32 { Sum(data) % 0x1_0000_0000 }

  lemma ModAdd(x: nat, y: nat)
    ensures (x + y) % 0x1_0000_0000 == (x % 0x1_0000_0000 + y % 0x1_0000_0000) % 0x1_0000_0000
  {
    var p, q := x / 0x1_0000_0000, y / 0x1_0000_0000;
    var r := x % 0x1_0000_0000 + y % 0x1_0000_0000;
    assert x + y == 0x1_0000_0000 * (p + q) + r;
  }

  /** rx.payload_checksum may be accumulated piece by piece. */
  lemma ChecksumAppend(a: seq<Byte>, b: seq<Byte>)
    ensures Checksum(a + b) == (Checksum(a) + Checksum(b)) % 0x1_0000_0000
  {
    hide Sum;
    SumAppend(a, b);
    ModAdd(Sum(a), Sum(b));
  }

  /** adb_checksum: the sum wraps at every addition. */
  method ComputeChecksum(data: seq<Byte>) returns (sum: U32)
    ensures sum == Checksum(data)
  {
    sum := 0;
    for i := 0 to |data|
      invariant sum == Checksum(data[..i])
    {
      sum := (sum + data[i]) % 0x1_0000_0000;
      assert data[..i + 1][..i] == data[..i];
    }
    assert data[..|data|] == data;
  }

  /** command ^ UINT32_MAX */
  function Magic(command: U32): U32 { 0xFFFF_FFFF - command }

  /** encode_message; the length field is cast to 32 bits. */
  function Header(m: Message): (h: seq<Byte>)
    ensures |h| == HEADER_SIZE
  {
    PutWords([m.command, m.arg0, m.arg1, |m.payload| % 0x1_0000_0000, m.check, Magic(m.command)])
  }

  function Wire(m: Message): seq<Byte> { Header(m) + m.payload }

  function WireAll(ms: seq<Message>): seq<Byte> {
    if ms == [] then [] else WireAll(ms[..|ms| - 1]) + Wire(ms[|ms| - 1])
  }

  /** The fields of a header: command, arg0, arg1, data_length, data_check, magic. */
  function Field(h: seq<Byte>, i: nat): U32
    requires |h| == HEADER_SIZE && i < 6
  {
    GetWords(h)[i]
  }

  function LengthOf(h: seq<Byte>): U32
    requires |h| == HEADER_SIZE
  {
    Field(h, 3)
  }

  function MessageOf(h: seq<Byte>, payload: seq<Byte>): Message
    requires |h| == HEADER_SIZE
  {
    Message(Field(h, 0), Field(h, 1), Field(h, 2), Field(h, 4), payload)
  }

  /** The magic field matches the command field. */
  predicate Sealed(h: seq<Byte>)
    requires |h| == HEADER_SIZE
  {
    Field(h, 5) == Magic(Field(h, 0))
  }

  /** The bytes decode to `m` and to nothing else. */
  predicate IsFrame(w: seq<Byte>, m: Message) {
    && |w| == HEADER_SIZE + |m.payload|
    && Sealed(w[..HEADER_SIZE])
    && LengthOf(w[..HEADER_SIZE]) == |m.payload|
    && MessageOf(w[..HEADER_SIZE], w[HEADER_SIZE..]) == m
  }

  lemma WireIsFrame(m: Message)
    requires |m.payload| <= 0xFFFF_FFFF
    ensures IsFrame(Wire(m), m)
  {
    assert Wire(m)[..HEADER_SIZE] == Header(m) && Wire(m)[HEADER_SIZE..] == m.payload;
    GetPutWords([m.command, m.arg0, m.arg1, |m.payload|, m.check, Magic(m.command)]);
  }

  lemma FrameIsWire(w: seq<Byte>, m: Message)
    requires IsFrame(w, m)
    ensures w == Wire(m)
  {
    var h := w[..HEADER_SIZE];
    PutGetWords(h);
    assert GetWords(h) == [m.command, m.arg0, m.arg1, |m.payload|, m.check, Magic(m.command)];
    assert w == h + w[HEADER_SIZE..];
  }

  // ---------- the automaton ----------

  /** A partly received message, and everything dispatched so far. */
  datatype Rx = Rx(header: seq<Byte>, payload: seq<Byte>, dispatched: seq<Message>, allocs: nat)

  const Start := Rx([], [], [], 0)

  function Idle(rx: Rx): Rx { rx.(header := [], payload := []) }

  predicate Reachable(env: Env, rx: Rx) {
    && |rx.header| <= HEADER_SIZE
    && (|rx.header| < HEADER_SIZE ==> rx.payload == [])
    && (|rx.header| == HEADER_SIZE ==>
          && Sealed(rx.header)
          && |rx.payload| < LengthOf(rx.header) <= env.maxPayload)
  }

  predicate ChecksumAccepted(m: Message) {
    m.check == Checksum(m.payload) || (m.command == CNXN && m.arg0 >= VERSION_NO_CHECKSUM && m.check == 0)
  }

  function Dispatch(env: Env, rx: Rx, m: Message): (Rx, Status) {
    if !ChecksumAccepted(m) then (Idle(rx), EBADMSG)
    else (Idle(rx).(dispatched := rx.dispatched + [m]), env.reply(rx.dispatched + [m]))
  }

  function HeaderComplete(env: Env, rx: Rx): (Rx, Status)
    requires |rx.header| == HEADER_SIZE
  {
    if !Sealed(rx.header) then (Idle(rx), EBADMSG)
    else if LengthOf(rx.header) > env.maxPayload then (Idle(rx), EMSGSIZE)
    else if LengthOf(rx.header) == 0 then Dispatch(env, rx, MessageOf(rx.header, []))
    else if env.alloc(rx.allocs) then (rx.(allocs := rx.allocs + 1), Ok)
    else (Idle(rx).(allocs := rx.allocs + 1), ENOMEM)
  }

  function TakeByte(env: Env, rx: Rx, b: Byte): (r: (Rx, Status))
    requires Reachable(env, rx)
    ensures Reachable(env, r.0)
    ensures r.1 != Ok ==> r.0.header == []
  {
    if |rx.header| < HEADER_SIZE then
      var next := rx.(header := rx.header + [b]);
      if |next.header| < HEADER_SIZE then (next, Ok) else HeaderComplete(env, next)
    else
      var next := rx.(payload := rx.payload + [b]);
      if |next.payload| < LengthOf(rx.header) then (next, Ok)
      else Dispatch(env, next, MessageOf(next.header, next.payload))
  }

  /** One call of webos_adb_protocol_receive: the rest of the chunk is dropped at the first error. */
  function Feed(env: Env, rx: Rx, data: seq<Byte>): (r: (Rx, Status))
    requires Reachable(env, rx)
    ensures Reachable(env, r.0)
    ensures r.1 != Ok ==> r.0.header == []
    decreases |data|
  {
    if data == [] then (rx, Ok)
    else
      var (next, status) := TakeByte(env, rx, data[0]);
      if status != Ok then (next, status) else Feed(env, next, data[1..])
  }

  lemma {:induction false} FeedAppend(env: Env, rx: Rx, a: seq<Byte>, b: seq<Byte>)
    requires Reachable(env, rx)
    ensures var (mid, status) := Feed(env, rx, a);
            Feed(env, rx, a + b) == if status != Ok then (mid, status) else Feed(env, mid, b)
    decreases |a|
  {
    if a == [] {
      assert a + b == b;
    } else {
      assert (a + b)[1..] == a[1..] + b;
      var (next, status) := TakeByte(env, rx, a[0]);
      if status == Ok {
        FeedAppend(env, next, a[1..], b);
      }
    }
  }

  lemma {:induction false} FeedWithinHeader(env: Env, rx: Rx, part: seq<Byte>)
    requires Reachable(env, rx) && |rx.header| + |part| < HEADER_SIZE
    ensures Feed(env, rx, part) == (rx.(header := rx.header + part), Ok)
    decreases |part|
  {
    if part == [] {
      assert rx.header + part == rx.header;
    } else {
      var next := rx.(header := rx.header + [part[0]]);
      FeedWithinHeader(env, next, part[1..]);
      assert next.header + part[1..] == rx.header + part;
    }
  }

  /** Bulk copy of the rest of a header equals feeding it byte by byte. */
  lemma FeedRestOfHeader(env: Env, rx: Rx, part: seq<Byte>)
    requires Reachable(env, rx) && part != [] && |rx.header| + |part| == HEADER_SIZE
    ensures Feed(env, rx, part) == HeaderComplete(env, rx.(header := rx.header + part))
  {
    var n := |part| - 1;
    assert part == part[..n] + [part[n]];
    FeedAppend(env, rx, part[..n], [part[n]]);
    FeedWithinHeader(env, rx, part[..n]);
    var mid := rx.(header := rx.header + part[..n]);
    assert mid.header + [part[n]] == rx.header + part;
    FeedOne(env, mid, part[n]);
  }

  lemma FeedOne(env: Env, rx: Rx, b: Byte)
    requires Reachable(env, rx)
    ensures Feed(env, rx, [b]) == TakeByte(env, rx, b)
  {
    assert [b][1..] == [];
  }

  lemma {:induction false} FeedWithinPayload(env: Env, rx: Rx, part: seq<Byte>)
    requires Reachable(env, rx) && |rx.header| == HEADER_SIZE && |rx.payload| + |part| < LengthOf(rx.header)
    ensures Feed(env, rx, part) == (rx.(payload := rx.payload + part), Ok)
    decreases |part|
  {
    if part == [] {
      assert rx.payload + part == rx.payload;
    } else {
      var next := rx.(payload := rx.payload + [part[0]]);
      FeedWithinPayload(env, next, part[1..]);
      assert next.payload + part[1..] == rx.payload + part;
    }
  }

  lemma FeedRestOfPayload(env: Env, rx: Rx, part: seq<Byte>)
    requires Reachable(env, rx) && |rx.header| == HEADER_SIZE
    requires part != [] && |rx.payload| + |part| == LengthOf(rx.header)
    ensures Feed(env, rx, part) ==
            Dispatch(env, rx.(payload := rx.payload + part), MessageOf(rx.header, rx.payload + part))
  {
    var n := |part| - 1;
    assert part == part[..n] + [part[n]];
    FeedAppend(env, rx, part[..n], [part[n]]);
    FeedWithinPayload(env, rx, part[..n]);
    var mid := rx.(payload := rx.payload + part[..n]);
    assert mid.payload + [part[n]] == rx.payload + part;
    FeedOne(env, mid, part[n]);
  }

  // ---------- whole runs ----------

  /** A run of receive calls; the transport carries on after an error. */
  function FeedChunks(env: Env, rx: Rx, chunks: seq<seq<Byte>>): (r: (Rx, seq<Status>))
    requires Reachable(env, rx)
    ensures Reachable(env, r.0) && |r.1| == |chunks|
    decreases |chunks|
  {
    if chunks == [] then (rx, [])
    else
      var (mid, status) := Feed(env, rx, chunks[0]);
      var (end, statuses) := FeedChunks(env, mid, chunks[1..]);
      (end, [status] + statuses)
  }

  predicate AllOk(statuses: seq<Status>) {
    forall i :: 0 <= i < |statuses| ==> statuses[i] == Ok
  }

  /** While nothing fails, where the stream was cut makes no difference. */
  lemma {:induction false} ChunkingIrrelevant(env: Env, rx: Rx, chunks: seq<seq<Byte>>)
    requires Reachable(env, rx) && Feed(env, rx, Flatten(chunks)).1 == Ok
    ensures FeedChunks(env, rx, chunks).0 == Feed(env, rx, Flatten(chunks)).0
    ensures AllOk(FeedChunks(env, rx, chunks).1)
    decreases |chunks|
  {
    if chunks != [] {
      FeedAppend(env, rx, chunks[0], Flatten(chunks[1..]));
      var (mid, status) := Feed(env, rx, chunks[0]);
      ChunkingIrrelevant(env, mid, chunks[1..]);
    }
  }

  lemma {:induction false} UncutRun(env: Env, rx: Rx, chunks: seq<seq<Byte>>)
    requires Reachable(env, rx) && AllOk(FeedChunks(env, rx, chunks).1)
    ensures Feed(env, rx, Flatten(chunks)) == (FeedChunks(env, rx, chunks).0, Ok)
    decreases |chunks|
  {
    if chunks != [] {
      var statuses := FeedChunks(env, rx, chunks).1;
      var (mid, status) := Feed(env, rx, chunks[0]);
      assert statuses[0] == status && statuses[1..] == FeedChunks(env, mid, chunks[1..]).1;
      UncutRun(env, mid, chunks[1..]);
      FeedAppend(env, rx, chunks[0], Flatten(chunks[1..]));
    }
  }

  /** In-range payloads with the right checksum, and nothing between the host and the services fails on them. */
  ghost predicate Delivers(env: Env, ms: seq<Message>) {
    && (forall n :: env.alloc(n))
    && (forall i :: 0 <= i < |ms| ==>
          |ms[i].payload| <= env.maxPayload && |ms[i].payload| <= 0xFFFF_FFFF && ms[i].check == Checksum(ms[i].payload))
    && (forall k :: 0 < k <= |ms| ==> env.reply(ms[..k]) == Ok)
  }

  lemma FeedSealedHeader(env: Env, rx: Rx, h: seq<Byte>)
    requires rx.header == [] == rx.payload && |h| == HEADER_SIZE && Sealed(h) && 0 < LengthOf(h) <= env.maxPayload
    requires env.alloc(rx.allocs)
    ensures Feed(env, rx, h) == (rx.(header := h, allocs := rx.allocs + 1), Ok)
  {
    assert rx.header + h == h;
    FeedRestOfHeader(env, rx, h);
  }

  lemma FeedHeaderAndPayload(env: Env, rx: Rx, h: seq<Byte>, payload: seq<Byte>)
    requires rx.header == [] == rx.payload && |h| == HEADER_SIZE && Sealed(h) && 0 < LengthOf(h) <= env.maxPayload
    requires env.alloc(rx.allocs) && |payload| == LengthOf(h)
    ensures Feed(env, rx, h + payload) ==
            Dispatch(env, rx.(header := h, payload := payload, allocs := rx.allocs + 1), MessageOf(h, payload))
  {
    var mid := rx.(header := h, allocs := rx.allocs + 1);
    FeedSealedHeader(env, rx, h);
    FeedAppend(env, rx, h, payload);
    assert mid.payload + payload == payload;
    FeedRestOfPayload(env, mid, payload);
  }

  lemma FeedFrame(env: Env, rx: Rx, w: seq<Byte>, m: Message)
    requires rx.header == [] == rx.payload && IsFrame(w, m) && |m.payload| <= env.maxPayload
    requires m.payload != [] ==> env.alloc(rx.allocs)
    requires ChecksumAccepted(m) && env.reply(rx.dispatched + [m]) == Ok
    ensures Feed(env, rx, w) ==
            (rx.(dispatched := rx.dispatched + [m], allocs := rx.allocs + if m.payload == [] then 0 else 1), Ok)
  {
    var h := w[..HEADER_SIZE];
    if m.payload == [] {
      assert w == h && rx.header + h == h;
      FeedRestOfHeader(env, rx, h);
    } else {
      assert w == h + m.payload;
      FeedHeaderAndPayload(env, rx, h, m.payload);
    }
  }

  /** All messages but the last are delivered, and then the last. */
  lemma DeliversLast(env: Env, ms: seq<Message>)
    requires Delivers(env, ms) && ms != []
    ensures var n := |ms| - 1;
            && Delivers(env, ms[..n]) && ChecksumAccepted(ms[n]) && |ms[n].payload| <= env.maxPayload
            && env.reply(ms) == Ok && (forall k :: env.alloc(k))
  {
    var n := |ms| - 1;
    assert forall k :: 0 < k <= n ==> ms[..n][..k] == ms[..k];
    assert ms[..n + 1] == ms;
  }

  lemma {:induction false} FeedWireAll(env: Env, ms: seq<Message>)
    requires Delivers(env, ms)
    ensures var (end, status) := Feed(env, Start, WireAll(ms));
            status == Ok && end.header == end.payload == [] && end.dispatched == ms
  {
    hide Wire;
    hide Checksum;
    hide TakeByte;
    if ms != [] {
      var n := |ms| - 1;
      DeliversLast(env, ms);
      hide Feed;
      hide Delivers;
      hide ChecksumAccepted;
      FeedWireAll(env, ms[..n]);
      var mid := Feed(env, Start, WireAll(ms[..n])).0;
      FeedAppend(env, Start, WireAll(ms[..n]), Wire(ms[n]));
      WireIsFrame(ms[n]);
      assert mid.dispatched + [ms[n]] == ms;
      FeedFrame(env, mid, Wire(ms[n]), ms[n]);
    }
  }

  /**
   Any list of messages with in-range payloads, encoded, concatenated and cut anywhere,
   is dispatched as exactly that list, in order, with nothing left over.
   */
  lemma RoundTrip(env: Env, ms: seq<Message>, chunks: seq<seq<Byte>>)
    requires Delivers(env, ms) && Flatten(chunks) == WireAll(ms)
    ensures var (end, statuses) := FeedChunks(env, Start, chunks);
            end.dispatched == ms && end.header == end.payload == [] && AllOk(statuses)
  {
    FeedWireAll(env, ms);
    ChunkingIrrelevant(env, Start, chunks);
  }

  /** What a partial message accounts for on the wire. */
  function Pending(rx: Rx): seq<Byte> { rx.header + rx.payload }

  /** Every byte behind what was dispatched and what is pending. */
  function Received(rx: Rx): seq<Byte> { WireAll(rx.dispatched) + Pending(rx) }

  ghost predicate Acceptable(env: Env, ms: seq<Message>) {
    forall i :: 0 <= i < |ms| ==> ChecksumAccepted(ms[i]) && |ms[i].payload| <= env.maxPayload
  }

  lemma LastByteMakesFrame(env: Env, rx: Rx, b: Byte)
    requires Reachable(env, rx) && TakeByte(env, rx, b).0.dispatched != rx.dispatched
    ensures var next := TakeByte(env, rx, b).0;
            && Pending(next) == []
            && |next.dispatched| == |rx.dispatched| + 1 && next.dispatched[..|rx.dispatched|] == rx.dispatched
            && var m := next.dispatched[|rx.dispatched|];
            && IsFrame(Pending(rx) + [b], m) && ChecksumAccepted(m) && |m.payload| <= env.maxPayload
  {
    var w := Pending(rx) + [b];
    if |rx.header| < HEADER_SIZE {
      assert w == rx.header + [b] && w[..HEADER_SIZE] == w;
    } else {
      assert w[..HEADER_SIZE] == rx.header && w[HEADER_SIZE..] == rx.payload + [b];
    }
  }

  lemma PendingGrows(env: Env, rx: Rx, b: Byte)
    requires Reachable(env, rx) && TakeByte(env, rx, b).1 == Ok && TakeByte(env, rx, b).0.dispatched == rx.dispatched
    ensures Pending(TakeByte(env, rx, b).0) == Pending(rx) + [b]
  {
  }

  lemma ByteAccounted(env: Env, rx: Rx, b: Byte)
    requires Reachable(env, rx) && TakeByte(env, rx, b).1 == Ok && Acceptable(env, rx.dispatched)
    ensures var next := TakeByte(env, rx, b).0;
            && Acceptable(env, next.dispatched)
            && Received(next) == Received(rx) + [b]
  {
    var next := TakeByte(env, rx, b).0;
    Assoc(WireAll(rx.dispatched), Pending(rx), [b]);
    if next.dispatched == rx.dispatched {
      PendingGrows(env, rx, b);
    } else {
      LastByteMakesFrame(env, rx, b);
      FrameIsWire(Pending(rx) + [b], next.dispatched[|rx.dispatched|]);
      assert Received(next) == WireAll(next.dispatched);
    }
  }

  lemma {:induction false} FeedAccounted(env: Env, rx: Rx, data: seq<Byte>)
    requires Reachable(env, rx) && Feed(env, rx, data).1 == Ok && Acceptable(env, rx.dispatched)
    ensures var end := Feed(env, rx, data).0;
            Acceptable(env, end.dispatched) && Received(end) == Received(rx) + data
    decreases |data|
  {
    if data != [] {
      ByteAccounted(env, rx, data[0]);
      FeedAccounted(env, TakeByte(env, rx, data[0]).0, data[1..]);
      AppendFirst(Received(rx), data);
    }
  }

  /**
   The converse: in any run without an error every byte received is accounted for, by the wire
   form of the messages dispatched and then the message still incomplete. Nothing is invented,
   skipped or reordered, and every checksum was accepted.
   */
  lemma NothingInvented(env: Env, chunks: seq<seq<Byte>>)
    requires AllOk(FeedChunks(env, Start, chunks).1)
    ensures var end := FeedChunks(env, Start, chunks).0;
            Flatten(chunks) == Received(end) && Acceptable(env, end.dispatched)
  {
    UncutRun(env, Start, chunks);
    FeedAccounted(env, Start, Flatten(chunks));
  }

  // ---------- one message, whatever is wrong with it ----------

  /** What is wrong with a message; only a CNXN that announces version 0x01000001 or later may leave out the sum. */
  function Fault(env: Env, allocs: nat, m: Message): Status {
    if |m.payload| > env.maxPayload then EMSGSIZE
    else if m.payload != [] && !env.alloc(allocs) then ENOMEM
    else if m.check == Sum(m.payload) % 0x1_0000_0000 then Ok
    else if m.command == 0x4e58_4e43 && m.arg0 >= 0x0100_0001 && m.check == 0 then Ok
    else EBADMSG
  }

  /**
   A receiver between messages hands a message to the services exactly when nothing is wrong with it, refuses it
   with the reason otherwise, and is between messages again.
   */
  lemma MessageOutcome(env: Env, rx: Rx, m: Message)
    requires rx.header == [] == rx.payload && |m.payload| <= 0xFFFF_FFFF
    ensures var (end, status) := Feed(env, rx, Wire(m)); var fault := Fault(env, rx.allocs, m);
            && end.header == [] == end.payload
            && end.dispatched == (if fault == Ok then rx.dispatched + [m] else rx.dispatched)
            && status == if fault == Ok then env.reply(rx.dispatched + [m]) else fault
  {
    hide Feed;
    hide Sum;
    hide Header;
    WireIsFrame(m);
    var w := Wire(m);
    var h := w[..HEADER_SIZE];
    assert w == h + m.payload && w[HEADER_SIZE..] == m.payload;
    assert rx.header + h == h;
    FeedRestOfHeader(env, rx, h);
    FeedAppend(env, rx, h, m.payload);
    FeedNone(env, Feed(env, rx, h).0);
    if m.payload != [] && |m.payload| <= env.maxPayload && env.alloc(rx.allocs) {
      FeedHeaderAndPayload(env, rx, h, m.payload);
    }
  }

  lemma FeedNone(env: Env, rx: Rx)
    requires Reachable(env, rx)
    ensures Feed(env, rx, []) == (rx, Ok)
  {
  }

  /** A header whose last word is not the complement of its first is refused, and nothing behind it is looked at. */
  lemma BrokenSeal(env: Env, rx: Rx, h: seq<Byte>, rest: seq<Byte>)
    requires rx.header == [] == rx.payload && |h| == HEADER_SIZE && Field(h, 0) + Field(h, 5) != 0xFFFF_FFFF
    ensures Feed(env, rx, h + rest) == (rx, EBADMSG)
  {
    hide Field;
    assert rx.header + h == h;
    FeedRestOfHeader(env, rx, h);
    FeedAppend(env, rx, h, rest);
  }
}

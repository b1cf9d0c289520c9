/**
 The receive path of lib/adb/adb_protocol.c in its own form: a header buffer, an allocated
 payload buffer and a loop that copies as much of the chunk as the current part can take.
 It is proved to compute the byte-at-a-time automaton Framing.Feed.
 */
module Receiver {
  import opened Bytes
  import opened Errno
  import opened Framing

  datatype Fields = Fields(command: U32, arg0: U32, arg1: U32, dataLength: U32, dataCheck: U32, magic: U32)

  function FieldsOf(h: seq<Byte>): Fields
    requires |h| == HEADER_SIZE
  {
    Fields(Field(h, 0), Field(h, 1), Field(h, 2), Field(h, 3), Field(h, 4), Field(h, 5))
  }

  class Receiver {
    const env: Env
    const header: array<Byte>
    var headerUsed: nat
    var payload: array?<Byte>
    var payloadUsed: nat
    var payloadChecksum: U32
    var message: Fields
    var dispatched: seq<Message>
    var allocs: nat

    ghost predicate Valid()
      reads this, header, payload
    {
      && header.Length == HEADER_SIZE && headerUsed <= HEADER_SIZE
      && (headerUsed < HEADER_SIZE ==> payload == null)
      && (payload == null ==> payloadUsed == 0 && payloadChecksum == 0)
      && (headerUsed == HEADER_SIZE ==> payload != null && Filling())
    }

    /** A payload is being collected: the loop cannot stall, because there is room for another byte. */
    ghost predicate Filling()
      requires header.Length == HEADER_SIZE && payload != null
      reads this, header, payload
    {
      && payload != header
      && Sealed(header[..]) && message == FieldsOf(header[..])
      && payload.Length == message.dataLength <= env.maxPayload
      && payloadUsed < payload.Length
      && payloadChecksum == Checksum(payload[..payloadUsed])
    }

    ghost function View(): (rx: Rx)
      requires Valid()
      reads this, header, payload
      ensures Reachable(env, rx)
    {
      assert headerUsed == HEADER_SIZE ==> header[..headerUsed] == header[..];
      Rx(header[..headerUsed], if payload == null then [] else payload[..payloadUsed], dispatched, allocs)
    }

    constructor (env: Env)
      ensures Valid() && View() == Start && this.env == env
    {
      this.env := env;
      header := new Byte[HEADER_SIZE];
      headerUsed, payload, payloadUsed, payloadChecksum := 0, null, 0, 0;
      dispatched, allocs := [], 0;
      message := Fields(0, 0, 0, 0, 0, 0);
    }

    /** reset_rx */
    method ResetRx()
      requires header.Length == HEADER_SIZE
      modifies this
      ensures Valid() && dispatched == old(dispatched) && allocs == old(allocs)
      ensures headerUsed == 0
    {
      headerUsed, payload, payloadUsed, payloadChecksum := 0, null, 0, 0;
    }

    /** dispatch_message and the reset that follows it; `body` is the collected payload. */
    method DispatchMessage(body: seq<Byte>) returns (status: Status)
      requires header.Length == HEADER_SIZE && message == FieldsOf(header[..])
      requires payloadChecksum == Checksum(body)
      modifies this
      ensures Valid()
      ensures (View(), status) ==
              Dispatch(env, Rx(header[..], body, old(dispatched), old(allocs)), MessageOf(header[..], body))
    {
      if message.dataCheck != payloadChecksum &&
         !(message.command == CNXN && message.arg0 >= VERSION_NO_CHECKSUM && message.dataCheck == 0) {
        status := EBADMSG;
      } else {
        var m := Message(message.command, message.arg0, message.arg1, message.dataCheck, body);
        dispatched := dispatched + [m];
        status := env.reply(dispatched);
      }
      ResetRx();
    }

    /** decode_header, with the dispatch of an empty message. */
    method DecodeHeader() returns (status: Status)
      requires header.Length == HEADER_SIZE && headerUsed == HEADER_SIZE
      requires payload == null && payloadUsed == 0 && payloadChecksum == 0
      modifies this
      ensures Valid()
      ensures (View(), status) == HeaderComplete(env, Rx(header[..], [], old(dispatched), old(allocs)))
      ensures payload != null ==> fresh(payload)
    {
      var words := GetWords(header[..]);
      message := Fields(words[0], words[1], words[2], words[3], words[4], words[5]);
      if message.magic != Magic(message.command) {
        ResetRx();
        return EBADMSG;
      }
      if message.dataLength > env.maxPayload {
        ResetRx();
        return EMSGSIZE;
      }
      if message.dataLength == 0 {
        status := DispatchMessage([]);
        return;
      }
      var available := env.alloc(allocs);
      allocs := allocs + 1;
      if !available {
        ResetRx();
        return ENOMEM;
      }
      payload := new Byte[message.dataLength];
      assert header[..headerUsed] == header[..] && payload[..0] == [];
      return Ok;
    }

    method TakeHeader(data: seq<Byte>, pos: nat) returns (end: nat, status: Status)
      requires Valid() && headerUsed < HEADER_SIZE && pos < |data|
      modifies this, header
      ensures Valid() && pos < end <= |data|
      ensures (View(), status) == Feed(env, old(View()), data[pos..end])
      ensures payload != null ==> fresh(payload)
    {
      var count := if |data| - pos < HEADER_SIZE - headerUsed then |data| - pos else HEADER_SIZE - headerUsed;
      end := pos + count;
      var part := data[pos..end];
      ghost var before := View();
      var start := headerUsed;
      Copy(header, start, part);
      headerUsed := headerUsed + count;
      assert header[..headerUsed] == before.header + part;
      if headerUsed != HEADER_SIZE {
        FeedWithinHeader(env, before, part);
        return end, Ok;
      }
      assert header[..headerUsed] == header[..];
      FeedRestOfHeader(env, before, part);
      status := DecodeHeader();
    }

    method TakePayload(data: seq<Byte>, pos: nat) returns (end: nat, status: Status)
      requires Valid() && headerUsed == HEADER_SIZE && pos < |data|
      modifies this, payload
      ensures Valid() && pos < end <= |data|
      ensures (View(), status) == Feed(env, old(View()), data[pos..end])
      ensures payload == null || payload == old(payload)
    {
      hide Sum;
      hide Feed;
      hide Checksum;
      hide MessageOf;
      var room := payload.Length - payloadUsed;
      var count := if |data| - pos < room then |data| - pos else room;
      end := pos + count;
      var part := data[pos..end];
      ghost var before := View();
      var start := payloadUsed;
      assert before.header == header[..] && LengthOf(before.header) == payload.Length;
      Copy(payload, start, part);
      var sum := ComputeChecksum(part);
      payloadChecksum := (payloadChecksum + sum) % 0x1_0000_0000;
      payloadUsed := payloadUsed + count;
      assert payload[..payloadUsed] == before.payload + part;
      ChecksumAppend(before.payload, part);
      if payloadUsed < payload.Length {
        FeedWithinPayload(env, before, part);
        return end, Ok;
      }
      assert payload[..payloadUsed] == payload[..];
      FeedRestOfPayload(env, before, part);
      status := DispatchMessage(payload[..]);
    }

    /** protocol_receive_unlocked: every pass consumes at least one byte, or the call would not end. */
    method Receive(data: seq<Byte>) returns (status: Status)
      requires Valid()
      modifies this, header, payload
      ensures Valid()
      ensures (View(), status) == Feed(env, old(View()), data)
    {
      var pos := 0;
      status := Ok;
      assert data[0..] == data;
      while pos < |data|
        invariant 0 <= pos <= |data|
        invariant Valid() && status == Ok
        invariant payload == null || payload == old(payload) || fresh(payload)
        invariant Feed(env, View(), data[pos..]) == Feed(env, old(View()), data)
        decreases |data| - pos
      {
        var from := pos;
        ghost var before := View();
        if headerUsed < HEADER_SIZE {
          pos, status := TakeHeader(data, from);
          FeedSlices(env, before, data, from, pos);
          if status != Ok {
            return;
          }
        }
        from, before := pos, View();
        if headerUsed == HEADER_SIZE && message.dataLength > 0 && from < |data| {
          pos, status := TakePayload(data, from);
          FeedSlices(env, before, data, from, pos);
          if status != Ok {
            return;
          }
        }
      }
    }
  }

  lemma FeedSlices(env: Env, rx: Rx, data: seq<Byte>, from: nat, to: nat)
    requires Reachable(env, rx) && from <= to <= |data|
    ensures var (mid, status) := Feed(env, rx, data[from..to]);
            Feed(env, rx, data[from..]) == if status != Ok then (mid, status) else Feed(env, mid, data[to..])
  {
    assert data[from..] == data[from..to] + data[to..];
    FeedAppend(env, rx, data[from..to], data[to..]);
  }
}

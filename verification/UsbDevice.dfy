/** The transmit half of lib/adb/transports/adb_usb.c in its own form, proved against UsbTx. */
module UsbDevice {
  import opened Bytes
  import opened Errno
  import opened Rings
  import opened UsbTx

  class UsbDevice {
    const queue: Fifo<Packet>
    const transferSize: nat
    var enabled: bool
    var resetting: bool
    var engaged: bool
    var phase: Phase
    var active: Buffer
    var outstanding: set<nat>
    ghost var accepted: seq<Packet>
    ghost var done: seq<Packet>
    ghost var issued: seq<seq<Byte>>

    ghost predicate Valid()
      reads this, queue
    {
      queue.Valid()
    }

    ghost function View(): State
      requires Valid()
      reads this, queue, queue.slots
    {
      State(enabled, resetting, engaged, phase, queue.Contents(), active, outstanding, accepted, done, issued)
    }

    constructor (depth: nat, transferSize: nat)
      requires depth > 0
      ensures Valid() && View() == Initially && queue.slots.Length == depth && this.transferSize == transferSize
    {
      queue := new Fifo(depth, Packet([], []));
      this.transferSize := transferSize;
      enabled, resetting, engaged, phase, active, outstanding := false, false, false, TxIdle, NoBuffer, {};
      accepted, done, issued := [], [], [];
    }

    method ResetTxQueue()
      requires Valid()
      modifies this, queue
      ensures Valid() && View() == Reset(old(View()))
    {
      phase, active, engaged := TxIdle, NoBuffer, false;
      queue.Clear();
      accepted, done, issued := [], [], [];
    }

    method EnqueueIn(data: seq<Byte>, hw: Hardware) returns (status: Status)
      requires Valid()
      modifies this
      ensures Valid() && status == Granted(old(View()), hw)
      ensures View() == if status == Ok then Issue(old(View()), data, hw.buffer) else old(View()).(active := NoBuffer)
    {
      if hw.Refuses? {
        active := NoBuffer;
        return if hw.error == Ok then EIO else hw.error;
      }
      if hw.buffer in outstanding {
        active := NoBuffer;
        return ENOMEM;
      }
      active := Buffer(hw.buffer);
      outstanding := outstanding + {hw.buffer};
      issued := issued + [data];
      return Ok;
    }

    method StartTxPacket(hw: Hardware) returns (status: Status)
      requires Valid()
      modifies this
      ensures Valid() && (View(), status) == Start(old(View()), hw)
    {
      if queue.count == 0 {
        return ENOENT;
      }
      if engaged {
        return EBUSY;
      }
      engaged := true;
      var packet := queue.Peek();
      phase := TxHeader;
      status := EnqueueIn(packet.header, hw);
      if status != Ok {
        phase := TxIdle;
        engaged := false;
      }
    }

    /** webos_adb_usb_send */
    method SendPacket(packet: Packet, hw: Hardware) returns (status: Status)
      requires Valid()
      modifies this, queue, queue.slots
      ensures Valid()
      ensures (View(), status) == Send(old(View()), queue.slots.Length, transferSize, packet, hw)
    {
      if !enabled || resetting {
        return ENODEV;
      }
      if |packet.payload| > transferSize {
        return EMSGSIZE;
      }
      if queue.count == queue.slots.Length {
        return ENOSPC;
      }
      var startNow := queue.count == 0;
      ghost var before := View();
      queue.Enqueue(packet);
      accepted := accepted + [packet];
      if startNow {
        status := StartTxPacket(hw);
        if status != Ok {
          ResetTxQueue();
          accepted, done, issued := before.accepted, before.done, before.issued;
        }
      } else {
        status := Ok;
      }
    }

    method FailTransport()
      requires Valid()
      modifies this, queue
      ensures Valid() && View() == Fail(old(View()))
    {
      ResetTxQueue();
      resetting := true;
    }

    method PopPacket(hw: Hardware)
      requires Valid() && queue.count != 0
      modifies this, queue
      ensures Valid() && View() == AfterPacket(old(View()), hw)
    {
      var packet := queue.Peek();
      queue.Dequeue();
      done := done + [packet];
      active := NoBuffer;
      phase := TxIdle;
      engaged := false;
      if queue.count != 0 {
        var status := StartTxPacket(hw);
        if status != Ok {
          FailTransport();
        }
      }
    }

    /** The header went out and a payload follows. */
    method SendPayload(packet: Packet, hw: Hardware)
      requires Valid() && queue.count != 0 && packet == queue.Contents()[0]
      modifies this, queue
      ensures Valid() && View() == AfterHeader(old(View()), hw)
    {
      active, phase := NoBuffer, TxPayload;
      var status := EnqueueIn(packet.payload, hw);
      if status != Ok {
        FailTransport();
      }
    }

    /** The IN half of adb_usb_request, up to the unlock. */
    method RequestIn(buffer: nat, err: bool, hw: Hardware)
      requires Valid()
      modifies this, queue
      ensures Valid() && View() == Complete(old(View()), buffer, err, hw)
    {
      hide AfterHeader;
      hide AfterPacket;
      outstanding := outstanding - {buffer};
      if active != Buffer(buffer) {
        return;
      }
      if err {
        FailTransport();
      } else if queue.count == 0 {
        active := NoBuffer;
      } else {
        var packet := queue.Peek();
        if phase == TxHeader && packet.payload != [] {
          SendPayload(packet, hw);
        } else {
          PopPacket(hw);
        }
      }
    }
  }
}

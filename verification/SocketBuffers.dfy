/** The buffers of a socket and the two ends of its traffic, in the form of the classes that the pipe describes. */
module SocketBuffers {
  import opened ByteBuffers
  import opened MqttFraming
  import opened CircularBufferModel
  import opened Pipe

  class PacketSendBuffer {
    var currentItem: Bytes
    var bytesSent: nat
    var inProgress: bool
    const buffer: CircularBuffer<Bytes>

    ghost predicate Valid()
      reads this, buffer, buffer.buffer
    {
      buffer.Valid() && buffer.buffer.Length == BUFFER_SIZE
    }

    ghost function State(): Tx
      requires Valid()
      reads this, buffer, buffer.buffer
    {
      Tx(buffer.Items(), currentItem, bytesSent, inProgress)
    }

    constructor ()
      ensures Valid() && fresh(buffer) && fresh(buffer.buffer) && State() == Tx([], [], 0, false)
    {
      currentItem, bytesSent, inProgress := [], 0, false;
      buffer := new CircularBuffer<Bytes>(BUFFER_SIZE);
    }

    method PutItem(item: Bytes) returns (res: bool)
      requires Valid()
      modifies buffer, buffer.buffer
      ensures Valid() && State() == PutPacket(old(State()), item) && buffer.buffer == old(buffer.buffer)
      ensures res == (|old(State()).ring| < BUFFER_SIZE)
    {
      res := !buffer.IsFull();
      if res {
        buffer.PutItem(item);
      }
    }

    method PrepareNextPacket()
      requires Valid() && !inProgress
      modifies this`currentItem, this`inProgress, this`bytesSent, buffer
      ensures Valid() && buffer.buffer == old(buffer.buffer)
      ensures old(State()).ring != [] ==> State() == Prepared(old(State()))
      ensures old(State()).ring == [] ==> State() == old(State()).(bytesSent := 0)
    {
      var got, item := buffer.GetItem();
      if got {
        currentItem := item;
      }
      inProgress := got;
      bytesSent := 0;
    }

    method DataHasBeenSent(length: nat)
      requires Valid() && inProgress
      modifies this`bytesSent, this`inProgress
      ensures Valid() && State() == HasSent(old(State()), length)
    {
      bytesSent := bytesSent + length;
      if bytesSent >= |currentItem| {
        inProgress := false;
      }
    }

    method Clear()
      requires Valid()
      modifies this`bytesSent, this`inProgress, buffer
      ensures Valid() && State() == Tx([], old(currentItem), 0, false) && buffer.buffer == old(buffer.buffer)
    {
      buffer.Clear();
      inProgress, bytesSent := false, 0;
    }
  }

  class PacketReceiveBuffer {
    const proto: MqttProtocol
    var currentItem: RxPacket
    var inProgress: bool
    const buffer: CircularBuffer<Bytes>

    ghost predicate Valid()
      reads this, proto, currentItem, buffer, buffer.buffer
    {
      buffer.Valid() && buffer.buffer.Length == BUFFER_SIZE && !proto.tooBig
    }

    function Assembling(): Assembly
      reads this, proto, currentItem
    {
      proto.Value(currentItem)
    }

    ghost function Items(): seq<Bytes>
      requires Valid()
      reads this, proto, currentItem, buffer, buffer.buffer
    {
      buffer.Items()
    }

    constructor ()
      ensures Valid() && Assembling() == FRESH && Items() == [] && !inProgress
      ensures fresh(proto) && fresh(currentItem) && fresh(buffer) && fresh(buffer.buffer)
    {
      proto := new MqttProtocol();
      currentItem := new RxPacket();
      buffer := new CircularBuffer<Bytes>(BUFFER_SIZE);
      inProgress := false;
    }

    /** data_received: the packet enters the ring when it is complete. */
    method DataReceived(length: nat)
      requires Valid()
      requires 1 <= length && proto.bytesReceived + length <= |currentItem.data|
      modifies this`inProgress, proto, currentItem, buffer, buffer.buffer
      ensures Valid() && buffer.buffer == old(buffer.buffer) && currentItem == old(currentItem)
      ensures Assembling() == Advanced(old(Assembling()), length)
      ensures Items()
           == if IsComplete(Assembling()) then PutIn(old(Items()), currentItem.data, BUFFER_SIZE) else old(Items())
    {
      proto.DataReceived(currentItem, length);
      if proto.remainingBytesToRead == 0 {
        buffer.PutItem(currentItem.data);
        inProgress := false;
      }
    }

    method Get() returns (res: bool, packet: Bytes)
      requires Valid()
      modifies buffer
      ensures Valid() && buffer.buffer == old(buffer.buffer) && Assembling() == old(Assembling())
      ensures res == (old(Items()) != [])
      ensures res ==> packet == old(Items())[0] && Items() == old(Items())[1..]
      ensures !res ==> Items() == old(Items())
    {
      res, packet := buffer.GetItem();
    }

    method PrepareNewPacket()
      requires Valid()
      modifies this`currentItem, this`inProgress, proto
      ensures Valid() && fresh(currentItem) && inProgress
      ensures Assembling() == Consumed(old(Assembling())) && Items() == old(Items())
    {
      currentItem := new RxPacket();
      inProgress := true;
      proto.PacketConsumed();
    }
  }

  /** What recv() or send() reports: a number of bytes, the end of the connection, nothing to do now, or an error. */
  datatype Outcome = Moved(amount: nat) | Closed | WouldBlock | Failed

  /** The reading and writing of a socket. `events` counts the queued DataAvailable events and `emptied` the queued
      events that tell the application to send more; `stopped` records that stop() has been called. */
  class Socket {
    const tx: PacketSendBuffer
    const rx: PacketReceiveBuffer
    var active: bool
    var connected: bool
    var events: nat
    var emptied: nat
    var stopped: bool

    ghost predicate Valid()
      reads this, tx, tx.buffer, tx.buffer.buffer,
            rx, rx.proto, rx.currentItem, rx.buffer, rx.buffer.buffer
    {
      && tx.Valid() && rx.Valid() && tx.buffer != rx.buffer && tx.buffer.buffer != rx.buffer.buffer
    }

    constructor (tx: PacketSendBuffer, rx: PacketReceiveBuffer)
      requires tx.Valid() && rx.Valid() && tx.buffer != rx.buffer && tx.buffer.buffer != rx.buffer.buffer
      ensures Valid() && this.tx == tx && this.rx == rx && events == emptied == 0
      ensures active && connected && !stopped
    {
      this.tx, this.rx := tx, rx;
      events, emptied, active, connected, stopped := 0, 0, true, true, false;
    }

    method Stop()
      modifies this`active, this`connected, this`stopped
      ensures !active && stopped && connected == (old(connected) && !old(active))
    {
      if active {
        active, connected := false, false;
      }
      stopped := true;
    }

    /** The queue refuses an event when it is full. */
    method TellEmpty()
      modifies this`emptied
      ensures emptied == if old(emptied) < BUFFER_SIZE then old(emptied) + 1 else old(emptied)
    {
      if emptied < BUFFER_SIZE {
        emptied := emptied + 1;
      }
    }

    /** send_next_packet followed by write_data, with what send() reports. The application is told when there is
        nothing to send or a packet has been sent whole. */
    method SendNextPacket(result: Outcome) returns (written: Bytes)
      requires Valid() && (tx.State().inProgress ==> tx.State().bytesSent <= |tx.State().current|)
      requires result.Moved? ==> result.amount <= |Remaining(Prepared(tx.State()))|
      modifies this`active, this`connected, this`stopped, this`emptied, tx, tx.buffer
      ensures Valid() && tx.buffer.buffer == old(tx.buffer.buffer)
      ensures !old(connected) ==>
                tx.State() == old(tx.State()) && written == [] && emptied == old(emptied) && stopped == old(stopped)
      ensures old(connected) && IsEmpty(old(tx.State())) ==>
                tx.State() == old(tx.State()) && written == [] && stopped == old(stopped)
                && emptied == if old(emptied) < BUFFER_SIZE then old(emptied) + 1 else old(emptied)
      ensures old(connected) && !IsEmpty(old(tx.State())) && !result.Moved? ==>
                tx.State() == Prepared(old(tx.State())) && written == [] && stopped && emptied == old(emptied)
      ensures old(connected) && !IsEmpty(old(tx.State())) && result.Moved? ==>
                var ready := Prepared(old(tx.State()));
                && tx.State() == HasSent(ready, result.amount) && written == Remaining(ready)[..result.amount]
                && stopped == old(stopped)
                && emptied == old(emptied) + if !tx.State().inProgress && old(emptied) < BUFFER_SIZE then 1 else 0
      ensures if old(connected) && !IsEmpty(old(tx.State())) && !result.Moved? then !active && connected == !old(active)
              else active == old(active) && connected == old(connected)
    {
      written := [];
      if connected {
        if !tx.inProgress && tx.buffer.count == 0 {
          TellEmpty();
        } else {
          if !tx.inProgress {
            tx.PrepareNextPacket();
          }
          if result.Moved? {
            written := tx.currentItem[tx.bytesSent..tx.bytesSent + result.amount];
            tx.DataHasBeenSent(result.amount);
            if !tx.inProgress {
              TellEmpty();
            }
          } else {
            Stop();
          }
        }
      }
    }

    /** readable followed by read_data, with what recv() reports and the bytes it delivers. */
    method ReadData(result: Outcome, chunk: Bytes)
      requires Valid()
      requires 0 <= Wanted(rx.Assembling())
      requires result.Moved? ==> 1 <= result.amount == |chunk| <= Wanted(rx.Assembling())
      modifies this`events, this`active, this`connected, this`stopped,
               rx, rx.proto, rx.currentItem, rx.buffer, rx.buffer.buffer
      ensures rx.Valid() && rx.buffer.buffer == old(rx.buffer.buffer)
      ensures !old(active) || |old(rx.Items())| == BUFFER_SIZE ==>
                rx.Assembling() == old(rx.Assembling()) && rx.Items() == old(rx.Items()) && events == old(events)
                && stopped == old(stopped)
      ensures old(active) && |old(rx.Items())| < BUFFER_SIZE && !result.Moved? ==>
                rx.Assembling() == WithRoom(old(rx.Assembling())) && rx.Items() == old(rx.Items())
                && events == old(events) && stopped == (old(stopped) || !result.WouldBlock?)
      ensures old(active) && |old(rx.Items())| < BUFFER_SIZE && result.Moved? ==>
                var a := Read(old(rx.Assembling()), chunk);
                stopped == old(stopped) &&
                if IsComplete(a) then
                  && rx.Assembling() == Consumed(a)
                  && rx.Items() == old(rx.Items()) + [a.data]
                  && events == (if old(events) < BUFFER_SIZE then old(events) + 1 else old(events))
                else
                  rx.Assembling() == a && rx.Items() == old(rx.Items()) && events == old(events)
      ensures if old(active) && |old(rx.Items())| < BUFFER_SIZE && (result.Closed? || result.Failed?)
              then !active && !connected else active == old(active) && connected == old(connected)
    {
      if active && !rx.buffer.IsFull() {
        var pos := rx.proto.GetWritePos(rx.currentItem);
        match result
        case Moved(amount) =>
          rx.currentItem.data := Overwrite(rx.currentItem.data, pos, chunk);
          FinishRead(amount);
        case WouldBlock =>
        case Closed => Stop();
        case Failed => Stop();
      }
    }

    /** The bytes are in the buffer. */
    method FinishRead(amount: nat)
      requires rx.Valid() && |rx.Items()| < BUFFER_SIZE
      requires 1 <= amount && rx.proto.bytesReceived + amount <= |rx.currentItem.data|
      modifies this`events, rx, rx.proto, rx.currentItem, rx.buffer, rx.buffer.buffer
      ensures rx.Valid() && rx.buffer.buffer == old(rx.buffer.buffer)
      ensures var a := Advanced(old(rx.Assembling()), amount);
              if IsComplete(a) then
                && rx.Assembling() == Consumed(a)
                && rx.Items() == old(rx.Items()) + [a.data]
                && events == (if old(events) < BUFFER_SIZE then old(events) + 1 else old(events))
              else
                rx.Assembling() == a && rx.Items() == old(rx.Items()) && events == old(events)
    {
      rx.DataReceived(amount);
      if rx.proto.remainingBytesToRead == 0 {
        if events < BUFFER_SIZE {
          events := events + 1;
        }
        rx.PrepareNewPacket();
      }
    }
  }
}

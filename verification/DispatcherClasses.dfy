/** The sockets and their dispatcher in the form of the source's classes. */
module DispatcherClasses {
  import opened DispatcherModel

  class Socket {
    const id: SocketId
    const server: bool
    var socketId: int
    var active: bool
    var connected: bool
    ghost var started: bool

    constructor (id: SocketId, server: bool)
      ensures this.id == id && Value() == Sock(server, INVALID_SOCKET, false, false, false)
    {
      this.id, this.server, socketId, active, connected, started := id, server, INVALID_SOCKET, false, false, false;
    }

    ghost function Value(): Sock
      reads this
    {
      Sock(server, socketId, active, connected, started)
    }
  }

  /** `open` stands for the descriptors that the network stack has handed out. */
  class SocketDispatcher {
    const capacity: nat
    var sockets: seq<Socket>
    var activeSockets: map<int, Socket>
    var inactiveSockets: seq<Socket>
    var socketOp: seq<(Kind, Socket)>
    var hasIp: bool
    var open: map<int, SocketId>
    ghost var overflowed: bool

    constructor (capacity: nat)
      ensures Valid() && Value() == Fresh(capacity)
    {
      this.capacity, sockets, activeSockets, inactiveSockets, socketOp, hasIp := capacity, [], map[], [], [], false;
      open, overflowed := map[], false;
    }

    /** Every socket that the dispatcher knows is one of the program's sockets. */
    ghost predicate Known(socket: Socket)
      reads this
    {
      socket.id < |sockets| && sockets[socket.id] == socket
    }

    ghost predicate Valid()
      reads this
    {
      && (forall i :: 0 <= i < |sockets| ==> sockets[i].id == i)
      && (forall fd :: fd in activeSockets ==> Known(activeSockets[fd]))
      && (forall i :: 0 <= i < |inactiveSockets| ==> Known(inactiveSockets[i]))
      && (forall i :: 0 <= i < |socketOp| ==> Known(socketOp[i].1))
    }

    ghost function Socks(): seq<Sock>
      reads this, sockets
    {
      seq(|sockets|, i requires 0 <= i < |sockets| reads this, sockets => sockets[i].Value())
    }

    ghost function Active(): map<int, SocketId>
      reads this
    {
      map fd | fd in activeSockets :: activeSockets[fd].id
    }

    ghost function Inactive(): seq<SocketId>
      reads this
    {
      seq(|inactiveSockets|, i requires 0 <= i < |inactiveSockets| reads this => inactiveSockets[i].id)
    }

    ghost function Ops(): seq<Operation>
      reads this
    {
      seq(|socketOp|, i requires 0 <= i < |socketOp| reads this => Operation(socketOp[i].0, socketOp[i].1.id))
    }

    ghost function Value(): Dispatcher
      reads this, sockets
    {
      Dispatcher(capacity, Socks(), Active(), Inactive(), Ops(), open, hasIp, overflowed)
    }

    method PerformOp(op: Kind, socket: Socket)
      requires Valid() && Known(socket)
      modifies this`socketOp, this`overflowed
      ensures Valid() && Value() == DispatcherModel.PerformOp(old(Value()), Operation(op, socket.id))
    {
      if |socketOp| < capacity {
        socketOp := socketOp + [(op, socket)];
      } else {
        overflowed := true;
      }
    }

    method StopInternal(socket: Socket)
      requires Valid() && Known(socket)
      modifies socket`active, socket`connected
      ensures Valid() && Value() == DispatcherModel.StopInternal(old(Value()), socket.id)
    {
      if socket.active {
        socket.active := false;
        socket.connected := false;
      }
      assert Socks() == DispatcherModel.StopInternal(old(Value()), socket.id).socks;
    }

    /** CommonSocket::stop */
    method Stop(socket: Socket)
      requires Valid() && Known(socket)
      modifies socket`active, socket`connected, this`socketOp, this`overflowed
      ensures Valid() && Value() == StopSocket(old(Value()), socket.id)
    {
      StopInternal(socket);
      PerformOp(Kind.Stop, socket);
    }

    /** Socket::start and ServerSocket::start */
    method Start(socket: Socket, resolved: bool) returns (res: bool)
      requires Valid() && Known(socket)
      modifies socket`started, this`socketOp, this`overflowed
      ensures Valid() && Value() == Apply(old(Value()), CallStart(socket.id, resolved))
      ensures res == (!socket.active && resolved)
    {
      res := false;
      if !socket.active {
        res := resolved;
        if res {
          socket.started := true;
          assert Socks() == old(Socks())[socket.id := socket.Value()];
          PerformOp(Kind.Start, socket);
        }
      }
    }

    /** create_socket */
    method CreateSocket(socket: Socket, a: Answer) returns (res: bool)
      requires Valid() && Known(socket)
      modifies socket`socketId, this`open
      ensures Valid() && Value() == CreateDescriptor(old(Value()), socket.id, a)
      ensures res == Creates(old(Value()), socket.id, a)
    {
      res := false;
      if socket.socketId < 0 {
        if a.created && a.fd !in open {
          socket.socketId := a.fd;
          open := open[a.fd as int := socket.id];
          res := a.options;
        }
      } else {
        res := true;
      }
      assert Socks() == CreateDescriptor(old(Value()), socket.id, a).socks;
    }

    method Activate(socket: Socket)
      requires Valid() && Known(socket)
      modifies socket`active, socket`connected
      ensures Valid()
      ensures Value()
           == SetSock(old(Value()), socket.id,
                      old(socket.Value()).(active := true, connected := old(socket.connected) || socket.server))
    {
      if socket.server {
        socket.connected := true;
      }
      socket.active := true;
      assert Socks() == old(Socks())[socket.id := socket.Value()];
    }

    /** internal_start of a client, and of a server. */
    method InternalStart(socket: Socket, a: Answer) returns (res: bool)
      requires Valid() && Known(socket)
      modifies socket, this`socketOp, this`overflowed, this`open
      ensures Valid() && Value() == DispatcherModel.InternalStart(old(Value()), socket.id, a)
      ensures res == DispatcherModel.Started(old(Value()), socket.id, a)
    {
      res := socket.active && !socket.server;
      if !socket.active {
        var created := CreateSocket(socket, a);
        if created && a.connected && (!socket.server || a.listening) {
          Activate(socket);
          res := true;
        } else {
          Stop(socket);
        }
      }
    }

    method InsertActive(socket: Socket)
      requires Valid() && Known(socket)
      modifies this`activeSockets
      ensures Valid() && Value() == Insert(old(Value()), socket.id)
    {
      if socket.socketId !in activeSockets {
        activeSockets := activeSockets[socket.socketId := socket];
      }
      assert Active() == Insert(old(Value()), socket.id).active;
    }

    method StartSocket(socket: Socket, a: Answer)
      requires Valid() && Known(socket)
      modifies this, socket
      ensures Valid() && Value() == DispatcherModel.StartSocket(old(Value()), socket.id, a)
      ensures sockets == old(sockets)
    {
      if hasIp {
        var started := InternalStart(socket, a);
        if started {
          InsertActive(socket);
        }
      } else {
        AddInactive(socket);
      }
    }

    /** find_if on the vector. */
    method FindInactive(socket: Socket) returns (i: nat)
      requires Valid() && Known(socket)
      ensures i <= |inactiveSockets| && (i < |inactiveSockets| ==> inactiveSockets[i] == socket)
      ensures RemoveFirst(Inactive(), socket.id)
           == if i < |inactiveSockets| then Inactive()[..i] + Inactive()[i + 1..] else Inactive()
    {
      i := 0;
      while i < |inactiveSockets| && inactiveSockets[i] != socket
        invariant i <= |inactiveSockets| && forall j :: 0 <= j < i ==> inactiveSockets[j] != socket
      {
        i := i + 1;
      }
      FirstAt(Inactive(), socket.id, i);
    }

    method RemoveFromInactive(socket: Socket)
      requires Valid() && Known(socket)
      modifies this`inactiveSockets
      ensures Valid() && Value() == old(Value()).(inactive := RemoveFirst(old(Inactive()), socket.id))
    {
      var i := FindInactive(socket);
      if i < |inactiveSockets| {
        ghost var ids := Inactive();
        inactiveSockets := inactiveSockets[..i] + inactiveSockets[i + 1..];
        assert Inactive() == ids[..i] + ids[i + 1..];
      }
    }

    method RemoveFromActive(socket: Socket)
      requires Valid() && Known(socket)
      modifies this`activeSockets
      ensures Valid()
      ensures Value()
           == old(Value()).(active :=
                              map fd | fd in old(Active()) && old(Active())[fd] != socket.id :: old(Active())[fd])
    {
      activeSockets := map fd | fd in activeSockets && activeSockets[fd] != socket :: activeSockets[fd];
      assert forall fd :: fd in old(Active()) ==>
               (old(Active())[fd] != socket.id <==> old(activeSockets)[fd] != socket);
    }

    method Close(socket: Socket)
      requires Valid() && Known(socket)
      modifies socket`socketId, this`open
      ensures Valid() && Value() == Closed(old(Value()), socket.id)
    {
      if socket.socketId != INVALID_SOCKET {
        open := open - {socket.socketId};
        socket.socketId := INVALID_SOCKET;
      }
      assert Socks() == Closed(old(Value()), socket.id).socks;
    }

    method Unwatch(socket: Socket)
      requires Valid() && Known(socket)
      modifies this`activeSockets, this`inactiveSockets
      ensures Valid() && Value() == Unwatched(old(Value()), socket.id)
    {
      RemoveFromActive(socket);
      RemoveFromInactive(socket);
    }

    method AddInactive(socket: Socket)
      requires Valid() && Known(socket)
      modifies this`inactiveSockets
      ensures Valid() && Value() == old(Value()).(inactive := old(Inactive()) + [socket.id])
    {
      inactiveSockets := inactiveSockets + [socket];
      assert Inactive() == old(Inactive()) + [socket.id];
    }

    method ShutdownSocket(socket: Socket)
      requires Valid() && Known(socket)
      modifies this, socket
      ensures Valid() && Value() == DispatcherModel.ShutdownSocket(old(Value()), socket.id)
      ensures sockets == old(sockets)
    {
      StopInternal(socket);
      Unwatch(socket);
      Close(socket);
      if socket.server {
        AddInactive(socket);
      }
    }

    method PopOperation() returns (op: Kind, socket: Socket)
      requires Valid() && socketOp != []
      modifies this`socketOp
      ensures Valid() && Known(socket) && (op, socket) == old(socketOp)[0]
      ensures old(Value()).ops[0] == Operation(op, socket.id)
      ensures Value() == old(Value()).(ops := old(Value()).ops[1..])
    {
      op, socket := socketOp[0].0, socketOp[0].1;
      socketOp := socketOp[1..];
      assert Ops() == old(Ops())[1..];
    }

    method Perform(op: Kind, socket: Socket, a: Answer)
      requires Valid() && Known(socket)
      modifies this, socket
      ensures Valid() && Value() == DispatcherModel.Perform(old(Value()), Operation(op, socket.id), a)
    {
      match op
      case Start => StartSocket(socket, a);
      case AddActiveSocket => InsertActive(socket);
      case Stop => ShutdownSocket(socket);
    }

    /** event(SocketOperation): the first operation of the queue. */
    method HandleOperationEvent(a: Answer)
      requires Valid() && socketOp != []
      modifies this, socketOp[0].1
      ensures Valid() && Value() == Apply(old(Value()), HandleOperation(a))
    {
      var op, socket := PopOperation();
      Perform(op, socket, a);
    }

    method StopWatched(fd: int)
      requires Valid()
      modifies this`socketOp, this`overflowed
      ensures Valid()
      ensures Value()
           == if fd in old(Active())
              then DispatcherModel.PerformOp(old(Value()), Operation(Kind.Stop, old(Active())[fd]))
              else old(Value())
    {
      if fd in activeSockets {
        PerformOp(Kind.Stop, activeSockets[fd]);
      }
    }

    /** event(NetworkStatus): Stop for every watched socket, in the order of the keys. */
    method NetworkEvent(event: DispatcherModel.NetworkEvent, keys: seq<int>)
      requires Valid()
      modifies this`hasIp, this`socketOp, this`overflowed
      ensures Valid() && Value() == Apply(old(Value()), Network(event, keys))
    {
      if event != Other {
        hasIp := event == GotIp;
        assert Value() == old(Value()).(hasIp := event == GotIp) && keys[0..] == keys;
        var i := 0;
        while i < |keys|
          invariant i <= |keys| && Valid() && sockets == old(sockets) && activeSockets == old(activeSockets)
          invariant StopAll(old(Value()).(hasIp := event == GotIp), keys) == StopAll(Value(), keys[i..])
        {
          assert keys[i..][1..] == keys[i + 1..];
          StopWatched(keys[i]);
          i := i + 1;
        }
      }
    }

    /** One socket of restart_inactive_sockets. */
    method RestartSocket(socket: Socket, a: Answer)
      requires Valid() && Known(socket)
      modifies this`activeSockets, this`socketOp, this`overflowed, this`open, socket
      ensures Valid() && Value() == RestartOne(old(Value()), socket.id, a)
    {
      var started := InternalStart(socket, a);
      if started {
        InsertActive(socket);
      } else {
        Stop(socket);
      }
    }

    method RestartEach(answers: seq<Answer>)
      requires Valid()
      modifies this`activeSockets, this`socketOp, this`overflowed, this`open, sockets
      ensures Valid() && Value() == RestartAll(old(Value()), old(Inactive()), answers)
    {
      ghost var ids := Inactive();
      var left := answers;
      var i := 0;
      assert ids[0..] == ids;
      while i < |inactiveSockets|
        invariant i <= |inactiveSockets| && Valid()
        invariant RestartAll(old(Value()), ids, answers) == RestartAll(Value(), ids[i..], left)
      {
        RestartStep(Value(), ids[i..], left);
        assert ids[i..][1..] == ids[i + 1..];
        RestartSocket(inactiveSockets[i], AnswerFor(left));
        left := Later(left);
        i := i + 1;
      }
    }

    /** restart_inactive_sockets: the list is cleared when all have been tried. */
    method RestartInactiveSockets(answers: seq<Answer>)
      requires Valid()
      modifies this`activeSockets, this`inactiveSockets, this`socketOp, this`overflowed, this`open, sockets
      ensures Valid() && Value() == Apply(old(Value()), Tick(answers))
    {
      if hasIp {
        RestartEach(answers);
        inactiveSockets := [];
      }
    }
  }

  lemma {:induction false} RestartStep(d: Dispatcher, waiting: seq<SocketId>, answers: seq<Answer>)
    requires waiting != [] && waiting[0] < |d.socks|
    ensures RestartAll(d, waiting, answers)
         == RestartAll(RestartOne(d, waiting[0], AnswerFor(answers)), waiting[1..], Later(answers))
  {
  }

  lemma {:induction false} FirstAt(list: seq<SocketId>, s: SocketId, i: nat)
    requires i <= |list| && (forall j :: 0 <= j < i ==> list[j] != s) && (i < |list| ==> list[i] == s)
    ensures RemoveFirst(list, s) == if i < |list| then list[..i] + list[i + 1..] else list
  {
    if list != [] && i > 0 {
      FirstAt(list[1..], s, i - 1);
    }
  }
}

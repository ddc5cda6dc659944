/** The socket dispatcher: which descriptors are open, which sockets it watches, which wait for the network, and the
    queue of operations that sockets send it. */
module DispatcherModel {
  /** Sockets are numbered in the order of their creation. */
  type SocketId = nat

  const INVALID_SOCKET := -1

  /** `started` records that start() has been accepted once. */
  datatype Sock = Sock(server: bool, fd: int, active: bool, connected: bool, started: bool)

  datatype Kind = Start | Stop | AddActiveSocket

  datatype Operation = Operation(kind: Kind, sock: SocketId)

  /** `active` is the map of watched sockets by descriptor; `open` are the open descriptors, each with the socket it
      was opened for. `overflowed` records that an operation was refused by the full queue. */
  datatype Dispatcher = Dispatcher(capacity: nat, socks: seq<Sock>, active: map<int, SocketId>, inactive: seq<SocketId>,
                                   ops: seq<Operation>, open: map<int, SocketId>, hasIp: bool, overflowed: bool)

  /** What the network stack answers to a socket that starts: the descriptor it hands out, if any, and whether
      setting the options, connecting or binding, and listening succeed. */
  datatype Answer = Answer(created: bool, fd: nat, options: bool, connected: bool, listening: bool)

  datatype NetworkEvent = GotIp | Disconnected | Other

  datatype Step =
    | Create(server: bool)
    | CallStart(sock: SocketId, resolved: bool)
    | CallStop(sock: SocketId)
    | Accept(listener: SocketId, fd: nat)
    | Connected(sock: SocketId)
    | HandleOperation(answer: Answer)
    | Network(event: NetworkEvent, keys: seq<int>)
    | Tick(answers: seq<Answer>)

  // ---------------------------------------------------------------------------------------------------
  // Sockets
  // ---------------------------------------------------------------------------------------------------

  /** perform_op */
  function PerformOp(d: Dispatcher, op: Operation): Dispatcher {
    if |d.ops| < d.capacity then d.(ops := d.ops + [op]) else d.(overflowed := true)
  }

  function SetSock(d: Dispatcher, s: SocketId, sock: Sock): Dispatcher
    requires s < |d.socks|
  {
    d.(socks := d.socks[s := sock])
  }

  /** stop_internal */
  function StopInternal(d: Dispatcher, s: SocketId): Dispatcher
    requires s < |d.socks|
  {
    if d.socks[s].active then SetSock(d, s, d.socks[s].(active := false, connected := false)) else d
  }

  /** CommonSocket::stop */
  function StopSocket(d: Dispatcher, s: SocketId): Dispatcher
    requires s < |d.socks|
  {
    PerformOp(StopInternal(d, s), Operation(Stop, s))
  }

  /** create_socket may leave a descriptor open although it fails. */
  function CreateDescriptor(d: Dispatcher, s: SocketId, a: Answer): Dispatcher
    requires s < |d.socks|
  {
    if d.socks[s].fd < 0 && a.created && a.fd !in d.open then
      SetSock(d, s, d.socks[s].(fd := a.fd)).(open := d.open[a.fd as int := s])
    else
      d
  }

  predicate Creates(d: Dispatcher, s: SocketId, a: Answer)
    requires s < |d.socks|
  {
    d.socks[s].fd >= 0 || (a.created && a.fd !in d.open && a.options)
  }

  /** The socket comes up, unless it is already active. */
  predicate ComesUp(d: Dispatcher, s: SocketId, a: Answer)
    requires s < |d.socks|
  {
    !d.socks[s].active && Creates(d, s, a) && a.connected && (d.socks[s].server ==> a.listening)
  }

  /** internal_start: a client or server that does not come up is stopped. */
  function InternalStart(d: Dispatcher, s: SocketId, a: Answer): Dispatcher
    requires s < |d.socks|
  {
    if d.socks[s].active then
      d
    else
      var e := CreateDescriptor(d, s, a);
      if ComesUp(d, s, a) then
        SetSock(e, s, e.socks[s].(active := true, connected := e.socks[s].connected || e.socks[s].server))
      else
        StopSocket(e, s)
  }

  /** What internal_start returns: an active client says yes, an active server says no. */
  predicate Started(d: Dispatcher, s: SocketId, a: Answer)
    requires s < |d.socks|
  {
    ComesUp(d, s, a) || (d.socks[s].active && !d.socks[s].server)
  }

  /** insert and emplace leave an entry alone. */
  function Insert(d: Dispatcher, s: SocketId): Dispatcher
    requires s < |d.socks|
  {
    if d.socks[s].fd in d.active then d else d.(active := d.active[d.socks[s].fd := s])
  }

  function StartIt(d: Dispatcher, s: SocketId, a: Answer): Dispatcher
    requires s < |d.socks|
  {
    if Started(d, s, a) then Insert(InternalStart(d, s, a), s) else InternalStart(d, s, a)
  }

  // ---------------------------------------------------------------------------------------------------
  // The dispatcher
  // ---------------------------------------------------------------------------------------------------

  function StartSocket(d: Dispatcher, s: SocketId, a: Answer): Dispatcher
    requires s < |d.socks|
  {
    if d.hasIp then StartIt(d, s, a) else d.(inactive := d.inactive + [s])
  }

  function RemoveFirst(list: seq<SocketId>, s: SocketId): seq<SocketId> {
    if list == [] then [] else if list[0] == s then list[1..] else [list[0]] + RemoveFirst(list[1..], s)
  }

  /** Taken off both lists. */
  function Unwatched(d: Dispatcher, s: SocketId): Dispatcher {
    d.(active := map fd | fd in d.active && d.active[fd] != s :: d.active[fd], inactive := RemoveFirst(d.inactive, s))
  }

  function Closed(d: Dispatcher, s: SocketId): Dispatcher
    requires s < |d.socks|
  {
    if d.socks[s].fd != INVALID_SOCKET then
      SetSock(d, s, d.socks[s].(fd := INVALID_SOCKET)).(open := d.open - {d.socks[s].fd})
    else
      d
  }

  function ShutdownSocket(d: Dispatcher, s: SocketId): Dispatcher
    requires s < |d.socks|
  {
    var e := Closed(Unwatched(StopInternal(d, s), s), s);
    if e.socks[s].server then e.(inactive := e.inactive + [s]) else e
  }

  function Perform(d: Dispatcher, op: Operation, a: Answer): Dispatcher
    requires op.sock < |d.socks|
  {
    match op.kind
    case Start => StartSocket(d, op.sock, a)
    case AddActiveSocket => Insert(d, op.sock)
    case Stop => ShutdownSocket(d, op.sock)
  }

  /** One inactive socket is started, or stopped if it cannot be. */
  function RestartOne(d: Dispatcher, s: SocketId, a: Answer): Dispatcher
    requires s < |d.socks|
    ensures |RestartOne(d, s, a).socks| == |d.socks|
  {
    if Started(d, s, a) then StartIt(d, s, a) else StopSocket(InternalStart(d, s, a), s)
  }

  function AnswerFor(answers: seq<Answer>): Answer {
    if answers == [] then Answer(false, 0, false, false, false) else answers[0]
  }

  function Later(answers: seq<Answer>): seq<Answer> {
    if answers == [] then [] else answers[1..]
  }

  function RestartAll(d: Dispatcher, waiting: seq<SocketId>, answers: seq<Answer>): Dispatcher
    decreases |waiting|
  {
    if waiting == [] || waiting[0] >= |d.socks| then
      d
    else
      RestartAll(RestartOne(d, waiting[0], AnswerFor(answers)), waiting[1..], Later(answers))
  }

  /** Stop is sent to each watched socket, in the order of the map. */
  function StopAll(d: Dispatcher, keys: seq<int>): Dispatcher
    decreases |keys|
  {
    if keys == [] then d
    else if keys[0] in d.active then StopAll(PerformOp(d, Operation(Stop, d.active[keys[0]])), keys[1..])
    else StopAll(d, keys[1..])
  }

  function Apply(d: Dispatcher, step: Step): Dispatcher {
    match step
    case Create(server) =>
      d.(socks := d.socks + [Sock(server, INVALID_SOCKET, false, false, false)])
    case CallStart(s, resolved) =>
      if s < |d.socks| && !d.socks[s].active && resolved then
        PerformOp(SetSock(d, s, d.socks[s].(started := true)), Operation(Start, s))
      else
        d
    case CallStop(s) =>
      if s < |d.socks| then StopSocket(d, s) else d
    case Accept(listener, fd) =>
      if listener < |d.socks| && d.socks[listener].server && d.socks[listener].fd in d.active && fd !in d.open then
        PerformOp(d.(socks := d.socks + [Sock(false, fd, true, true, false)], open := d.open[fd as int := |d.socks|]),
                  Operation(AddActiveSocket, |d.socks|))
      else
        d
    case Connected(s) =>
      if s < |d.socks| && d.socks[s].active then SetSock(d, s, d.socks[s].(connected := true)) else d
    case HandleOperation(a) =>
      if d.ops == [] || d.ops[0].sock >= |d.socks| then d else Perform(d.(ops := d.ops[1..]), d.ops[0], a)
    case Network(event, keys) =>
      (match event
       case GotIp => StopAll(d.(hasIp := true), keys)
       case Disconnected => StopAll(d.(hasIp := false), keys)
       case Other => d)
    case Tick(answers) =>
      if d.hasIp then RestartAll(d, d.inactive, answers).(inactive := []) else d
  }

  function Run(d: Dispatcher, steps: seq<Step>): Dispatcher
    decreases |steps|
  {
    if steps == [] then d else Run(Apply(d, steps[0]), steps[1..])
  }

  function Fresh(capacity: nat): Dispatcher {
    Dispatcher(capacity, [], map[], [], [], map[], false, false)
  }

  // ---------------------------------------------------------------------------------------------------
  // Accounting
  // ---------------------------------------------------------------------------------------------------

  predicate Watched(d: Dispatcher, s: SocketId)
    requires s < |d.socks|
  {
    d.socks[s].fd in d.active && d.active[d.socks[s].fd] == s
  }

  predicate Named(ops: seq<Operation>, s: SocketId) {
    Operation(Start, s) in ops || Operation(Stop, s) in ops || Operation(AddActiveSocket, s) in ops
  }

  /** Every key of the active map is the descriptor of the socket below it. */
  ghost predicate KeysMatch(d: Dispatcher) {
    forall fd :: fd in d.active ==>
      fd != INVALID_SOCKET && d.active[fd] < |d.socks| && d.socks[d.active[fd]].fd == fd
  }

  /** The open descriptors are those that the sockets hold, each held by one socket. */
  ghost predicate OpenMatch(d: Dispatcher) {
    && (forall fd :: fd in d.open ==> fd >= 0 && d.open[fd] < |d.socks| && d.socks[d.open[fd]].fd == fd)
    && (forall s :: 0 <= s < |d.socks| && d.socks[s].fd != INVALID_SOCKET ==>
          d.socks[s].fd in d.open && d.open[d.socks[s].fd] == s)
  }

  /** The socket that holds an open descriptor is watched, or about to be watched or closed. */
  ghost predicate Accounted(d: Dispatcher, s: SocketId)
    requires s < |d.socks|
  {
    && (d.socks[s].fd != INVALID_SOCKET ==>
          Watched(d, s) || Operation(Stop, s) in d.ops || Operation(AddActiveSocket, s) in d.ops)
    && (d.socks[s].active ==>
          d.socks[s].fd != INVALID_SOCKET && (Watched(d, s) || Operation(AddActiveSocket, s) in d.ops))
  }

  /** A started server is watched, waits to be started, or has an operation pending. */
  ghost predicate Remembered(d: Dispatcher, s: SocketId, waiting: seq<SocketId>)
    requires s < |d.socks|
  {
    d.socks[s].server && d.socks[s].started ==> Watched(d, s) || s in waiting || Named(d.ops, s)
  }

  /** AddActiveSocket comes first among the operations of its socket, and finds the descriptor open. */
  ghost predicate AddsFirst(d: Dispatcher) {
    forall i :: 0 <= i < |d.ops| && d.ops[i].kind == AddActiveSocket && d.ops[i].sock < |d.socks| ==>
      && d.socks[d.ops[i].sock].fd != INVALID_SOCKET && !d.socks[d.ops[i].sock].server
      && forall j :: 0 <= j < i ==> d.ops[j].sock != d.ops[i].sock
  }

  ghost predicate InRange(d: Dispatcher, waiting: seq<SocketId>) {
    && (forall i :: 0 <= i < |d.ops| ==> d.ops[i].sock < |d.socks|)
    && (forall i :: 0 <= i < |waiting| ==> waiting[i] < |d.socks|)
  }

  /** Sound for every socket but one. */
  ghost predicate SoundBut(d: Dispatcher, waiting: seq<SocketId>, x: int) {
    && InRange(d, waiting) && KeysMatch(d) && OpenMatch(d) && AddsFirst(d)
    && (forall s :: 0 <= s < |d.socks| && s != x ==> Accounted(d, s))
    && (forall s :: 0 <= s < |d.socks| && s != x ==> Remembered(d, s, waiting))
  }

  ghost predicate Sound(d: Dispatcher, waiting: seq<SocketId>) {
    SoundBut(d, waiting, -1)
  }

  /** While no operation has been refused. */
  ghost predicate Good(d: Dispatcher, waiting: seq<SocketId>) {
    d.overflowed || Sound(d, waiting)
  }

  ghost predicate Inv(d: Dispatcher) {
    Good(d, d.inactive)
  }

  lemma SoundAgain(d: Dispatcher, waiting: seq<SocketId>, s: SocketId)
    requires SoundBut(d, waiting, s) && s < |d.socks| && Accounted(d, s) && Remembered(d, s, waiting)
    ensures Sound(d, waiting)
  {
  }

  /** A start or stop is queued. */
  lemma PerformOpKeeps(d: Dispatcher, waiting: seq<SocketId>, x: int, op: Operation)
    requires SoundBut(d, waiting, x) && op.sock < |d.socks| && op.kind != AddActiveSocket
    ensures var e := PerformOp(d, op);
            && e == d.(ops := e.ops, overflowed := e.overflowed)
            && (e.overflowed || (SoundBut(e, waiting, x) && op in e.ops))
            && forall o :: o in d.ops ==> o in e.ops
  {
    var e := PerformOp(d, op);
    if |d.ops| < d.capacity {
      forall t | 0 <= t < |e.socks| && t != x ensures Accounted(e, t) && Remembered(e, t, waiting) {
        assert Accounted(d, t) && Remembered(d, t, waiting);
      }
    }
  }

  lemma StopInternalKeeps(d: Dispatcher, waiting: seq<SocketId>, x: int, s: SocketId)
    requires SoundBut(d, waiting, x) && s < |d.socks|
    ensures SoundBut(StopInternal(d, s), waiting, x)
    ensures |StopInternal(d, s).socks| == |d.socks|
  {
    var e := StopInternal(d, s);
    forall t | 0 <= t < |e.socks| && t != x ensures Accounted(e, t) && Remembered(e, t, waiting) {
      assert Accounted(d, t) && Remembered(d, t, waiting);
    }
  }

  /** A socket that is stopped is accounted for: its Stop is pending. */
  lemma StopSocketKeeps(d: Dispatcher, waiting: seq<SocketId>, s: SocketId)
    requires SoundBut(d, waiting, s) && s < |d.socks|
    ensures Good(StopSocket(d, s), waiting)
  {
    StopInternalKeeps(d, waiting, s, s);
    var e := StopInternal(d, s);
    PerformOpKeeps(e, waiting, s, Operation(Stop, s));
    var r := StopSocket(d, s);
    if !r.overflowed {
      assert Accounted(r, s) && Remembered(r, s, waiting);
      SoundAgain(r, waiting, s);
    }
  }

  /** Two sockets never hold the same descriptor. */
  lemma KeyUnique(d: Dispatcher, s: SocketId)
    requires KeysMatch(d) && OpenMatch(d) && s < |d.socks| && d.socks[s].fd != INVALID_SOCKET
    ensures d.socks[s].fd in d.active ==> d.active[d.socks[s].fd] == s
  {
  }

  lemma CreateDescriptorKeeps(d: Dispatcher, waiting: seq<SocketId>, s: SocketId, a: Answer)
    requires SoundBut(d, waiting, s) && s < |d.socks|
    ensures var e := CreateDescriptor(d, s, a);
            && SoundBut(e, waiting, s) && |e.socks| == |d.socks|
            && e == d.(socks := e.socks, open := e.open)
            && e.socks[s] == d.socks[s].(fd := e.socks[s].fd)
            && (Creates(d, s, a) ==> e.socks[s].fd != INVALID_SOCKET || d.socks[s].fd != INVALID_SOCKET)
  {
    var e := CreateDescriptor(d, s, a);
    forall t | 0 <= t < |e.socks| && t != s ensures Accounted(e, t) && Remembered(e, t, waiting) {
      assert Accounted(d, t) && Remembered(d, t, waiting);
    }
  }

  /** A socket with a descriptor becomes active and watched. */
  lemma InsertKeeps(d: Dispatcher, waiting: seq<SocketId>, s: SocketId)
    requires SoundBut(d, waiting, s) && s < |d.socks| && d.socks[s].fd != INVALID_SOCKET
    ensures Sound(Insert(d, s), waiting) && Watched(Insert(d, s), s)
  {
    KeyUnique(d, s);
    var e := Insert(d, s);
    forall t | 0 <= t < |e.socks| && t != s ensures Accounted(e, t) && Remembered(e, t, waiting) {
      assert Accounted(d, t) && Remembered(d, t, waiting);
    }
    assert Accounted(e, s) && Remembered(e, s, waiting);
    SoundAgain(e, waiting, s);
  }

  lemma ActivateKeeps(d: Dispatcher, waiting: seq<SocketId>, s: SocketId, sock: Sock)
    requires SoundBut(d, waiting, s) && s < |d.socks| && sock.fd == d.socks[s].fd && sock.server == d.socks[s].server
    ensures SoundBut(SetSock(d, s, sock), waiting, s)
  {
    var e := SetSock(d, s, sock);
    forall t | 0 <= t < |e.socks| && t != s ensures Accounted(e, t) && Remembered(e, t, waiting) {
      assert Accounted(d, t) && Remembered(d, t, waiting);
    }
  }

  /** Starting leaves the socket watched, stopped or, if it was active before, as it was. */
  lemma StartItKeeps(d: Dispatcher, waiting: seq<SocketId>, s: SocketId, a: Answer)
    requires SoundBut(d, waiting, s) && s < |d.socks| && Accounted(d, s)
    ensures Good(StartIt(d, s, a), waiting)
  {
    if d.socks[s].active {
      if d.socks[s].server {
        assert Remembered(d, s, waiting);
        SoundAgain(d, waiting, s);
      } else {
        InsertKeeps(d, waiting, s);
      }
    } else {
      var e := CreateDescriptor(d, s, a);
      CreateDescriptorKeeps(d, waiting, s, a);
      if ComesUp(d, s, a) {
        var sock := e.socks[s].(active := true, connected := e.socks[s].connected || e.socks[s].server);
        ActivateKeeps(e, waiting, s, sock);
        InsertKeeps(SetSock(e, s, sock), waiting, s);
      } else {
        StopSocketKeeps(e, waiting, s);
      }
    }
  }

  lemma {:induction false} RemoveFirstKeeps(list: seq<SocketId>, s: SocketId, t: SocketId)
    requires t in list && t != s
    ensures t in RemoveFirst(list, s)
  {
    if list[0] != s && list[0] != t {
      RemoveFirstKeeps(list[1..], s, t);
    }
  }

  lemma {:induction false} RemoveFirstInRange(list: seq<SocketId>, s: SocketId, n: nat)
    requires forall i :: 0 <= i < |list| ==> list[i] < n
    ensures forall i :: 0 <= i < |RemoveFirst(list, s)| ==> RemoveFirst(list, s)[i] < n
  {
    if list != [] && list[0] != s {
      RemoveFirstInRange(list[1..], s, n);
    }
  }

  lemma UnwatchedKeeps(d: Dispatcher, s: SocketId)
    requires SoundBut(d, d.inactive, s) && s < |d.socks|
    ensures var e := Unwatched(d, s);
            SoundBut(e, e.inactive, s) && forall fd :: fd in e.active ==> e.active[fd] != s
  {
    var e := Unwatched(d, s);
    RemoveFirstInRange(d.inactive, s, |d.socks|);
    forall t | 0 <= t < |e.socks| && t != s ensures Accounted(e, t) && Remembered(e, t, e.inactive) {
      assert Accounted(d, t) && Remembered(d, t, d.inactive);
      if t in d.inactive {
        RemoveFirstKeeps(d.inactive, s, t);
      }
    }
  }

  lemma ClosedKeeps(d: Dispatcher, s: SocketId)
    requires SoundBut(d, d.inactive, s) && s < |d.socks|
    requires forall fd :: fd in d.active ==> d.active[fd] != s
    requires Operation(AddActiveSocket, s) !in d.ops
    ensures var e := Closed(d, s);
            SoundBut(e, e.inactive, s) && e == d.(socks := e.socks, open := e.open) && |e.socks| == |d.socks|
            && e.socks[s] == d.socks[s].(fd := INVALID_SOCKET)
  {
    var e := Closed(d, s);
    forall t | 0 <= t < |e.socks| && t != s ensures Accounted(e, t) && Remembered(e, t, e.inactive) {
      assert Accounted(d, t) && Remembered(d, t, d.inactive);
    }
    forall i | 0 <= i < |e.ops| && e.ops[i].kind == AddActiveSocket ensures e.ops[i].sock != s {
      assert d.ops[i] in d.ops;
    }
  }

  lemma MoreWaiting(d: Dispatcher, s: SocketId, x: int)
    requires SoundBut(d, d.inactive, x) && s < |d.socks|
    ensures var e := d.(inactive := d.inactive + [s]);
            SoundBut(e, e.inactive, x) && s in e.inactive
  {
    var e := d.(inactive := d.inactive + [s]);
    forall t | 0 <= t < |e.socks| && t != x ensures Accounted(e, t) && Remembered(e, t, e.inactive) {
      assert Accounted(d, t) && Remembered(d, t, d.inactive);
    }
  }

  /** Shutting a socket down closes its descriptor; a server waits to be started again. */
  lemma ShutdownKeeps(d: Dispatcher, s: SocketId)
    requires SoundBut(d, d.inactive, s) && s < |d.socks| && Operation(AddActiveSocket, s) !in d.ops
    ensures var e := ShutdownSocket(d, s);
            Sound(e, e.inactive) && |e.socks| == |d.socks| && e.socks[s].fd == INVALID_SOCKET
  {
    var d1 := StopInternal(d, s);
    StopInternalKeeps(d, d.inactive, s, s);
    var d2 := Unwatched(d1, s);
    UnwatchedKeeps(d1, s);
    var d3 := Closed(d2, s);
    ClosedKeeps(d2, s);
    var e := ShutdownSocket(d, s);
    if d3.socks[s].server {
      MoreWaiting(d3, s, s);
    }
    assert Accounted(e, s) && Remembered(e, s, e.inactive);
    SoundAgain(e, e.inactive, s);
  }

  /** Taking the first operation off the queue leaves only its socket to be accounted for. */
  lemma PopKeeps(d: Dispatcher)
    requires Sound(d, d.inactive) && d.ops != []
    ensures var e, op := d.(ops := d.ops[1..]), d.ops[0];
            && op.sock < |d.socks| && SoundBut(e, d.inactive, op.sock)
            && (op.kind == Start ==> Accounted(e, op.sock))
            && (op.kind != AddActiveSocket ==> Operation(AddActiveSocket, op.sock) !in e.ops)
            && (op.kind == AddActiveSocket ==> d.socks[op.sock].fd != INVALID_SOCKET)
  {
    var e, op := d.(ops := d.ops[1..]), d.ops[0];
    assert forall o :: o in d.ops && o != op ==> o in e.ops by {
      assert d.ops == [op] + e.ops;
    }
    forall t | 0 <= t < |e.socks| && t != op.sock ensures Accounted(e, t) && Remembered(e, t, d.inactive) {
      assert Accounted(d, t) && Remembered(d, t, d.inactive);
    }
    assert Accounted(d, op.sock);
    assert Operation(AddActiveSocket, op.sock) !in e.ops by {
      assert forall i :: 0 <= i < |e.ops| ==> e.ops[i] == d.ops[i + 1];
    }
    forall i | 0 <= i < |e.ops| && e.ops[i].kind == AddActiveSocket
      ensures e.socks[e.ops[i].sock].fd != INVALID_SOCKET && !e.socks[e.ops[i].sock].server
      ensures forall j :: 0 <= j < i ==> e.ops[j].sock != e.ops[i].sock
    {
      assert d.ops[i + 1] == e.ops[i];
      assert forall j :: 0 <= j < i ==> e.ops[j] == d.ops[j + 1];
    }
  }

  lemma HandleKeeps(d: Dispatcher, a: Answer)
    requires Sound(d, d.inactive) && d.ops != []
    ensures Inv(Apply(d, HandleOperation(a)))
  {
    var e, op := d.(ops := d.ops[1..]), d.ops[0];
    PopKeeps(d);
    match op.kind
    case Start =>
      if d.hasIp {
        StartItKeeps(e, e.inactive, op.sock, a);
        WaitingUnchanged(e, op.sock, a);
      } else {
        MoreWaiting(e, op.sock, op.sock);
        var r := e.(inactive := e.inactive + [op.sock]);
        assert Accounted(r, op.sock) && Remembered(r, op.sock, r.inactive);
        SoundAgain(r, r.inactive, op.sock);
      }
    case AddActiveSocket =>
      InsertKeeps(e, e.inactive, op.sock);
    case Stop =>
      ShutdownKeeps(e, op.sock);
  }

  lemma WaitingUnchanged(d: Dispatcher, s: SocketId, a: Answer)
    requires s < |d.socks|
    ensures StartIt(d, s, a).inactive == d.inactive && |StartIt(d, s, a).socks| == |d.socks|
    ensures RestartOne(d, s, a).inactive == d.inactive
    ensures d.overflowed ==> StartIt(d, s, a).overflowed && RestartOne(d, s, a).overflowed
  {
  }

  lemma RestartOneKeeps(d: Dispatcher, waiting: seq<SocketId>, s: SocketId, a: Answer)
    requires SoundBut(d, waiting, s) && s < |d.socks| && Accounted(d, s)
    ensures Good(RestartOne(d, s, a), waiting)
  {
    if Started(d, s, a) {
      StartItKeeps(d, waiting, s, a);
    } else if d.socks[s].active {
      StopSocketKeeps(d, waiting, s);
    } else {
      var e := CreateDescriptor(d, s, a);
      CreateDescriptorKeeps(d, waiting, s, a);
      StopSocketKeeps(e, waiting, s);
      var f := StopSocket(e, s);
      if !f.overflowed {
        StopSocketKeeps(f, waiting, s);
      }
    }
  }

  lemma FewerWaiting(d: Dispatcher, waiting: seq<SocketId>)
    requires Sound(d, waiting) && waiting != []
    ensures waiting[0] < |d.socks| && SoundBut(d, waiting[1..], waiting[0]) && Accounted(d, waiting[0])
  {
    forall t | 0 <= t < |d.socks| && t != waiting[0] ensures Remembered(d, t, waiting[1..]) {
      assert Remembered(d, t, waiting);
      assert waiting == [waiting[0]] + waiting[1..];
    }
  }

  /** Every waiting socket is watched or stopped when all have been tried. */
  lemma {:induction false} RestartAllKeeps(d: Dispatcher, waiting: seq<SocketId>, answers: seq<Answer>)
    requires Good(d, waiting)
    ensures Good(RestartAll(d, waiting, answers), [])
    decreases |waiting|
  {
    if !d.overflowed && waiting != [] {
      FewerWaiting(d, waiting);
    }
    if waiting != [] && waiting[0] < |d.socks| {
      var s, a := waiting[0], AnswerFor(answers);
      var e := RestartOne(d, s, a);
      WaitingUnchanged(d, s, a);
      if !d.overflowed {
        RestartOneKeeps(d, waiting[1..], s, a);
      }
      RestartAllKeeps(e, waiting[1..], Later(answers));
    }
  }

  lemma KeyInRange(d: Dispatcher, fd: int)
    requires KeysMatch(d) && fd in d.active
    ensures d.active[fd] < |d.socks| && d.socks[d.active[fd]].fd == fd
  {
  }

  lemma {:induction false} StopAllKeeps(d: Dispatcher, keys: seq<int>)
    requires Inv(d)
    ensures Inv(StopAll(d, keys))
    decreases |keys|
  {
    if keys != [] {
      if keys[0] in d.active && !d.overflowed {
        KeyInRange(d, keys[0]);
        PerformOpKeeps(d, d.inactive, -1, Operation(Stop, d.active[keys[0]]));
        StopAllKeeps(PerformOp(d, Operation(Stop, d.active[keys[0]])), keys[1..]);
      } else if keys[0] in d.active {
        StopAllKeeps(PerformOp(d, Operation(Stop, d.active[keys[0]])), keys[1..]);
      } else {
        StopAllKeeps(d, keys[1..]);
      }
    }
  }

  lemma CreateKeeps(d: Dispatcher, server: bool)
    requires Sound(d, d.inactive)
    ensures Inv(Apply(d, Create(server)))
  {
    var e := Apply(d, Create(server));
    forall t | 0 <= t < |e.socks| ensures Accounted(e, t) && Remembered(e, t, e.inactive) {
      if t < |d.socks| {
        assert Accounted(d, t) && Remembered(d, t, d.inactive);
      }
    }
  }

  lemma CallStartKeeps(d: Dispatcher, s: SocketId, resolved: bool)
    requires Sound(d, d.inactive)
    ensures Inv(Apply(d, CallStart(s, resolved)))
  {
    if s < |d.socks| && !d.socks[s].active && resolved {
      var e := SetSock(d, s, d.socks[s].(started := true));
      ActivateKeeps(d, d.inactive, s, e.socks[s]);
      PerformOpKeeps(e, e.inactive, s, Operation(Start, s));
      var r := PerformOp(e, Operation(Start, s));
      if !r.overflowed {
        assert Accounted(d, s);
        assert Accounted(r, s) && Remembered(r, s, r.inactive);
        SoundAgain(r, r.inactive, s);
      }
    }
  }

  /** An accepted connection is open and about to be watched. */
  lemma AcceptKeeps(d: Dispatcher, listener: SocketId, fd: nat)
    requires Sound(d, d.inactive)
    ensures Inv(Apply(d, Accept(listener, fd)))
  {
    var r := Apply(d, Accept(listener, fd));
    if r != d && !r.overflowed {
      assert forall t :: 0 <= t < |d.socks| ==> r.socks[t] == d.socks[t];
      assert Operation(AddActiveSocket, |d.socks|) in r.ops;
      forall t | 0 <= t < |r.socks| ensures Accounted(r, t) && Remembered(r, t, r.inactive) {
        if t < |d.socks| {
          assert Accounted(d, t) && Remembered(d, t, d.inactive);
        }
      }
    }
  }

  lemma ConnectedKeeps(d: Dispatcher, s: SocketId)
    requires Sound(d, d.inactive)
    ensures Inv(Apply(d, Connected(s)))
  {
    if s < |d.socks| && d.socks[s].active {
      var r := Apply(d, Connected(s));
      assert Accounted(d, s) && Remembered(d, s, d.inactive);
      ActivateKeeps(d, d.inactive, s, r.socks[s]);
      assert Accounted(r, s) && Remembered(r, s, r.inactive);
      SoundAgain(r, r.inactive, s);
    }
  }

  lemma SoundIsSoundBut(d: Dispatcher, waiting: seq<SocketId>, s: SocketId)
    requires Sound(d, waiting)
    ensures SoundBut(d, waiting, s)
  {
  }

  lemma NothingWaits(d: Dispatcher)
    requires Good(d, [])
    ensures Inv(d.(inactive := []))
  {
    var e := d.(inactive := []);
    if !d.overflowed {
      forall t | 0 <= t < |e.socks| ensures Accounted(e, t) && Remembered(e, t, []) {
        assert Accounted(d, t) && Remembered(d, t, []);
      }
    }
  }

  lemma StepKeeps(d: Dispatcher, step: Step)
    requires Sound(d, d.inactive)
    ensures Inv(Apply(d, step))
  {
    match step
    case Create(server) => CreateKeeps(d, server);
    case CallStart(s, resolved) => CallStartKeeps(d, s, resolved);
    case CallStop(s) =>
      if s < |d.socks| {
        SoundIsSoundBut(d, d.inactive, s);
        StopSocketKeeps(d, d.inactive, s);
      }
    case Accept(listener, fd) => AcceptKeeps(d, listener, fd);
    case Connected(s) => ConnectedKeeps(d, s);
    case HandleOperation(a) =>
      if d.ops != [] {
        HandleKeeps(d, a);
      }
    case Network(event, keys) =>
      var e := d.(hasIp := event == GotIp);
      assert Inv(e) by {
        forall t | 0 <= t < |e.socks| ensures Accounted(e, t) && Remembered(e, t, e.inactive) {
          assert Accounted(d, t) && Remembered(d, t, d.inactive);
        }
      }
      StopAllKeeps(e, keys);
    case Tick(answers) =>
      if d.hasIp {
        RestartAllKeeps(d, d.inactive, answers);
        NothingWaits(RestartAll(d, d.inactive, answers));
      }
  }

  // ---------------------------------------------------------------------------------------------------
  // Whole runs
  // ---------------------------------------------------------------------------------------------------

  lemma {:induction false} RestartAllOverflow(d: Dispatcher, waiting: seq<SocketId>, answers: seq<Answer>)
    requires d.overflowed
    ensures RestartAll(d, waiting, answers).overflowed
    decreases |waiting|
  {
    if waiting != [] && waiting[0] < |d.socks| {
      WaitingUnchanged(d, waiting[0], AnswerFor(answers));
      RestartAllOverflow(RestartOne(d, waiting[0], AnswerFor(answers)), waiting[1..], Later(answers));
    }
  }

  lemma {:induction false} StopAllOverflow(d: Dispatcher, keys: seq<int>)
    requires d.overflowed
    ensures StopAll(d, keys).overflowed
    decreases |keys|
  {
    if keys != [] {
      StopAllOverflow(if keys[0] in d.active then PerformOp(d, Operation(Stop, d.active[keys[0]])) else d, keys[1..]);
    }
  }

  lemma OverflowStays(d: Dispatcher, step: Step)
    requires d.overflowed
    ensures Apply(d, step).overflowed
  {
    match step
    case HandleOperation(a) =>
      if d.ops != [] && d.ops[0].sock < |d.socks| {
        WaitingUnchanged(d.(ops := d.ops[1..]), d.ops[0].sock, a);
      }
    case Network(event, keys) => StopAllOverflow(d.(hasIp := event == GotIp), keys);
    case Tick(answers) => RestartAllOverflow(d, d.inactive, answers);
    case _ =>
  }

  lemma {:induction false} RunKeeps(d: Dispatcher, steps: seq<Step>)
    requires Inv(d)
    ensures Inv(Run(d, steps))
    decreases |steps|
  {
    if steps != [] {
      if d.overflowed {
        OverflowStays(d, steps[0]);
      } else {
        StepKeeps(d, steps[0]);
      }
      RunKeeps(Apply(d, steps[0]), steps[1..]);
    }
  }

  /** In every run, as long as no operation has been refused: the keys of the active map are the descriptors of its
      sockets and no socket has two, every open descriptor belongs to a socket that is watched or has Stop or
      AddActiveSocket pending, and no started server is forgotten. */
  lemma {:induction false} DescriptorAccounting(capacity: nat, steps: seq<Step>)
    ensures var d := Run(Fresh(capacity), steps);
            d.overflowed ||
            (&& (forall fd :: fd in d.active ==> d.active[fd] < |d.socks| && d.socks[d.active[fd]].fd == fd)
             && (forall k, l :: k in d.active && l in d.active && d.active[k] == d.active[l] ==> k == l)
             && (forall fd :: fd in d.open ==>
                   && d.open[fd] < |d.socks| && d.socks[d.open[fd]].fd == fd
                   && (Watched(d, d.open[fd]) || Operation(Stop, d.open[fd]) in d.ops
                       || Operation(AddActiveSocket, d.open[fd]) in d.ops))
             && (forall s :: 0 <= s < |d.socks| && d.socks[s].server && d.socks[s].started ==>
                   Watched(d, s) || s in d.inactive || Named(d.ops, s)))
  {
    RunKeeps(Fresh(capacity), steps);
    var d := Run(Fresh(capacity), steps);
    if !d.overflowed {
      forall fd | fd in d.open
        ensures d.open[fd] < |d.socks| && d.socks[d.open[fd]].fd == fd
        ensures Watched(d, d.open[fd]) || Operation(Stop, d.open[fd]) in d.ops
                || Operation(AddActiveSocket, d.open[fd]) in d.ops
      {
        assert OpenMatch(d) && Accounted(d, d.open[fd]);
      }
      forall s | 0 <= s < |d.socks| && d.socks[s].server && d.socks[s].started
        ensures Watched(d, s) || s in d.inactive || Named(d.ops, s)
      {
        assert Remembered(d, s, d.inactive);
      }
    }
  }

  /** An accepted connection is accounted for exactly when the operation queue has room; otherwise its descriptor
      stays open with no socket watched and no operation pending for it. */
  lemma AcceptNeedsRoom(d: Dispatcher, listener: SocketId, fd: nat)
    requires Sound(d, d.inactive) && fd !in d.open
    requires listener < |d.socks| && d.socks[listener].server && Watched(d, listener)
    ensures var r := Apply(d, Accept(listener, fd));
            && |r.socks| == |d.socks| + 1 && fd in r.open && r.open[fd] == |d.socks|
            && (Accounted(r, |d.socks|) <==> |d.ops| < d.capacity)
            && (r.overflowed <==> d.overflowed || |d.ops| >= d.capacity)
  {
    var r := Apply(d, Accept(listener, fd));
    if |d.ops| < d.capacity {
      assert r.ops[|d.ops|] == Operation(AddActiveSocket, |d.socks|);
    } else {
      assert forall i :: 0 <= i < |r.ops| ==> r.ops[i].sock < |d.socks|;
      assert r.active == d.active && KeysMatch(d);
    }
  }

  lemma {:induction false} StopAllReaches(d: Dispatcher, keys: seq<int>, fd: int)
    requires fd in d.active
    ensures var r := StopAll(d, keys);
            && r.active == d.active && (forall o :: o in d.ops ==> o in r.ops)
            && (fd in keys && !r.overflowed ==> Operation(Stop, d.active[fd]) in r.ops)
    decreases |keys|
  {
    if keys != [] {
      var e := if keys[0] in d.active then PerformOp(d, Operation(Stop, d.active[keys[0]])) else d;
      StopAllReaches(e, keys[1..], fd);
      assert keys == [keys[0]] + keys[1..];
      if e.overflowed {
        StopAllOverflow(e, keys[1..]);
      } else if keys[0] == fd {
        assert Operation(Stop, d.active[fd]) in e.ops;
      }
    }
  }

  /** When the network comes or goes, every watched socket is going to be stopped. */
  lemma NetworkStopsAll(d: Dispatcher, event: NetworkEvent, keys: seq<int>, s: SocketId)
    requires event != Other && s < |d.socks| && Watched(d, s) && (forall fd :: fd in d.active ==> fd in keys)
    ensures var r := Apply(d, Network(event, keys));
            r.hasIp == (event == GotIp) && (r.overflowed || Operation(Stop, s) in r.ops)
  {
    var e := d.(hasIp := event == GotIp);
    StopAllReaches(e, keys, d.socks[s].fd);
    StopAllKeepsIp(e, keys);
  }

  lemma {:induction false} StopAllKeepsIp(d: Dispatcher, keys: seq<int>)
    ensures StopAll(d, keys).hasIp == d.hasIp
    decreases |keys|
  {
    if keys != [] {
      StopAllKeepsIp(if keys[0] in d.active then PerformOp(d, Operation(Stop, d.active[keys[0]])) else d, keys[1..]);
    }
  }
}

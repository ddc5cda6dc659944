/** What becomes of a socket that has been started: it is not forgotten, and it comes up when the network lets it. */
module DispatcherStarts {
  import opened DispatcherModel

  /** Watched, waiting for the network, or about to be stopped. */
  ghost predicate Kept(d: Dispatcher, s: SocketId) {
    s < |d.socks| && (Watched(d, s) || s in d.inactive || Operation(Stop, s) in d.ops)
  }

  /** Watched or about to be stopped, whatever waits. */
  ghost predicate Tried(d: Dispatcher, s: SocketId) {
    s < |d.socks| && (Watched(d, s) || Operation(Stop, s) in d.ops)
  }

  // ---------------------------------------------------------------------------------------------------
  // Operations on other sockets
  // ---------------------------------------------------------------------------------------------------

  /** Nothing that concerns the watched descriptor of s, and no pending Stop, is taken away. */
  ghost predicate Spares(d: Dispatcher, e: Dispatcher, s: SocketId)
    requires s < |d.socks|
  {
    && |e.socks| >= |d.socks| && (Watched(d, s) ==> Watched(e, s))
    && (Operation(Stop, s) in d.ops ==> Operation(Stop, s) in e.ops)
  }

  lemma StopSocketSpares(d: Dispatcher, t: SocketId, s: SocketId)
    requires s < |d.socks| && t < |d.socks|
    ensures Spares(d, StopSocket(d, t), s) && StopSocket(d, t).inactive == d.inactive
    ensures |StopSocket(d, t).socks| == |d.socks|
  {
  }

  lemma CreateSpares(d: Dispatcher, t: SocketId, s: SocketId, a: Answer)
    requires s < |d.socks| && t < |d.socks|
    requires d.socks[t].fd >= 0 || !Watched(d, t)
    ensures Spares(d, CreateDescriptor(d, t, a), s)
  {
  }

  lemma StartItSpares(d: Dispatcher, t: SocketId, s: SocketId, a: Answer)
    requires s < |d.socks| && t < |d.socks| && KeysMatch(d) && OpenMatch(d)
    ensures Spares(d, StartIt(d, t, a), s) && StartIt(d, t, a).inactive == d.inactive
  {
    if !d.socks[t].active {
      var e := CreateDescriptor(d, t, a);
      CreateSpares(d, t, s, a);
      if ComesUp(d, t, a) {
        assert Spares(e, InternalStart(d, t, a), s);
      } else {
        StopSocketSpares(e, t, s);
      }
    }
  }

  lemma RestartOneSpares(d: Dispatcher, t: SocketId, s: SocketId, a: Answer)
    requires s < |d.socks| && t < |d.socks| && KeysMatch(d) && OpenMatch(d)
    ensures Spares(d, RestartOne(d, t, a), s) && RestartOne(d, t, a).inactive == d.inactive
  {
    StartItSpares(d, t, s, a);
    if !Started(d, t, a) {
      var e := InternalStart(d, t, a);
      assert e == StartIt(d, t, a);
      StopSocketSpares(e, t, s);
    }
  }

  // ---------------------------------------------------------------------------------------------------
  // A start is handled
  // ---------------------------------------------------------------------------------------------------

  /** A socket that is started is watched afterwards or has Stop pending. */
  lemma StartTries(d: Dispatcher, s: SocketId, a: Answer)
    requires s < |d.socks| && KeysMatch(d) && OpenMatch(d) && Accounted(d, s)
    requires d.socks[s].server ==> Operation(AddActiveSocket, s) !in d.ops
    ensures StartIt(d, s, a).overflowed || Tried(StartIt(d, s, a), s)
  {
    if d.socks[s].active {
      KeyUnique(d, s);
    } else {
      var e := CreateDescriptor(d, s, a);
      if ComesUp(d, s, a) {
        var f := InternalStart(d, s, a);
        assert f.active == d.active && f.socks[s].fd == e.socks[s].fd;
        if d.socks[s].fd >= 0 {
          KeyUnique(d, s);
        }
      }
    }
  }

  lemma RestartTries(d: Dispatcher, s: SocketId, a: Answer)
    requires s < |d.socks| && KeysMatch(d) && OpenMatch(d) && Accounted(d, s)
    requires d.socks[s].server ==> Operation(AddActiveSocket, s) !in d.ops
    ensures RestartOne(d, s, a).overflowed || Tried(RestartOne(d, s, a), s)
  {
    StartTries(d, s, a);
  }

  /** Servers are never added by AddActiveSocket. */
  lemma NoServerAdded(d: Dispatcher, s: SocketId)
    requires AddsFirst(d) && s < |d.socks| && d.socks[s].server
    ensures Operation(AddActiveSocket, s) !in d.ops
  {
  }

  /** When a Start is handled, the socket, client or server, waits for the network if there is none, and is watched or
      has Stop pending if there is. */
  lemma StartIsKept(d: Dispatcher, a: Answer)
    requires Sound(d, d.inactive) && d.ops != [] && d.ops[0].kind == Start
    ensures var r, s := Apply(d, HandleOperation(a)), d.ops[0].sock;
            if d.hasIp then r.overflowed || Tried(r, s)
            else s in r.inactive && r == d.(ops := d.ops[1..], inactive := d.inactive + [s])
  {
    var e, s := d.(ops := d.ops[1..]), d.ops[0].sock;
    PopKeeps(d);
    if d.hasIp {
      if d.socks[s].server {
        NoServerAdded(e, s);
      }
      StartTries(e, s, a);
    }
  }

  // ---------------------------------------------------------------------------------------------------
  // No started socket is forgotten
  // ---------------------------------------------------------------------------------------------------

  lemma SparesTried(d: Dispatcher, e: Dispatcher, s: SocketId)
    requires Tried(d, s) && Spares(d, e, s)
    ensures Tried(e, s)
  {
  }

  /** A restart round tries every waiting socket. */
  lemma {:induction false} RestartAllTries(d: Dispatcher, waiting: seq<SocketId>, answers: seq<Answer>, s: SocketId)
    requires Good(d, waiting) && s < |d.socks| && (s in waiting || Tried(d, s))
    ensures var r := RestartAll(d, waiting, answers); r.overflowed || Tried(r, s)
    decreases |waiting|
  {
    if d.overflowed {
      RestartAllOverflow(d, waiting, answers);
    } else if waiting != [] {
      var t, a := waiting[0], AnswerFor(answers);
      FewerWaiting(d, waiting);
      RestartOneKeeps(d, waiting[1..], t, a);
      RestartOneSpares(d, t, s, a);
      if t == s {
        if d.socks[s].server {
          NoServerAdded(d, s);
        }
        RestartTries(d, s, a);
      } else if s in waiting {
        assert waiting == [t] + waiting[1..];
      }
      var e := RestartOne(d, t, a);
      if e.overflowed {
        RestartAllOverflow(e, waiting[1..], Later(answers));
      } else {
        RestartAllTries(e, waiting[1..], Later(answers), s);
      }
    }
  }

  lemma OtherShutdownKeeps(d: Dispatcher, t: SocketId, s: SocketId)
    requires Kept(d, s) && t < |d.socks| && t != s
    ensures Kept(ShutdownSocket(d, t), s)
  {
    if s in d.inactive {
      RemoveFirstKeeps(d.inactive, t, s);
    }
  }

  /** The Stop of s is handled in this step. */
  predicate HandlesStop(d: Dispatcher, step: Step, s: SocketId) {
    step.HandleOperation? && d.ops != [] && d.ops[0] == Operation(Stop, s)
  }

  lemma PerformKeeps(d: Dispatcher, a: Answer, s: SocketId)
    requires Sound(d, d.inactive) && d.ops != [] && Kept(d, s) && !HandlesStop(d, HandleOperation(a), s)
    ensures var r := Apply(d, HandleOperation(a)); r.overflowed || Kept(r, s)
  {
    var e, op := d.(ops := d.ops[1..]), d.ops[0];
    assert d.ops == [op] + e.ops;
    PopKeeps(d);
    if op.kind == Start && op.sock == s {
      StartIsKept(d, a);
    } else {
      match op.kind
      case Start => StartItSpares(e, op.sock, s, a);
      case AddActiveSocket =>
        if op.sock == s {
          InsertKeeps(e, e.inactive, s);
        }
      case Stop => OtherShutdownKeeps(e, op.sock, s);
    }
  }

  /** Until its Stop is handled, a kept socket stays kept, unless an operation is refused. */
  lemma StepKeepsKept(d: Dispatcher, step: Step, s: SocketId)
    requires Sound(d, d.inactive) && Kept(d, s) && !HandlesStop(d, step, s)
    ensures var r := Apply(d, step); r.overflowed || Kept(r, s)
  {
    match step
    case HandleOperation(a) =>
      if d.ops != [] {
        PerformKeeps(d, a, s);
      }
    case Network(event, keys) =>
      var e := d.(hasIp := event == GotIp);
      if Watched(d, s) {
        StopAllReaches(e, keys, d.socks[s].fd);
      }
      StopAllSpares(e, keys);
    case Tick(answers) =>
      if d.hasIp {
        RestartAllTries(d, d.inactive, answers, s);
      }
    case CallStop(t) =>
      if t < |d.socks| {
        StopSocketSpares(d, t, s);
      }
    case _ =>
  }

  lemma {:induction false} StopAllSpares(d: Dispatcher, keys: seq<int>)
    ensures var r := StopAll(d, keys);
            && r.socks == d.socks && r.inactive == d.inactive && (forall o :: o in d.ops ==> o in r.ops)
    decreases |keys|
  {
    if keys != [] {
      StopAllSpares(if keys[0] in d.active then PerformOp(d, Operation(Stop, d.active[keys[0]])) else d, keys[1..]);
    }
  }

  ghost predicate NoStopHandled(d: Dispatcher, steps: seq<Step>, s: SocketId)
    decreases |steps|
  {
    steps == [] || (!HandlesStop(d, steps[0], s) && NoStopHandled(Apply(d, steps[0]), steps[1..], s))
  }

  lemma {:induction false} RunKeepsKept(d: Dispatcher, steps: seq<Step>, s: SocketId)
    requires Inv(d) && (d.overflowed || Kept(d, s)) && NoStopHandled(d, steps, s)
    ensures var r := Run(d, steps); r.overflowed || Kept(r, s)
    decreases |steps|
  {
    if steps != [] {
      if d.overflowed {
        OverflowStays(d, steps[0]);
      } else {
        StepKeepsKept(d, steps[0], s);
        StepKeeps(d, steps[0]);
      }
      RunKeepsKept(Apply(d, steps[0]), steps[1..], s);
    }
  }

  /** In every run: from the moment at which its Start is handled until its Stop is, a socket, client or server, is
      watched, waits for the network, or has Stop pending, unless an operation is refused. */
  lemma {:induction false} StartedIsKept(capacity: nat, before: seq<Step>, a: Answer, after: seq<Step>)
    requires var d := Run(Fresh(capacity), before);
             !d.overflowed && d.ops != [] && d.ops[0].kind == Start
             && NoStopHandled(Apply(d, HandleOperation(a)), after, d.ops[0].sock)
    ensures var d := Run(Fresh(capacity), before);
            var r := Run(Apply(d, HandleOperation(a)), after);
            r.overflowed || Kept(r, d.ops[0].sock)
  {
    RunKeeps(Fresh(capacity), before);
    var d := Run(Fresh(capacity), before);
    StartIsKept(d, a);
    StepKeeps(d, HandleOperation(a));
    RunKeepsKept(Apply(d, HandleOperation(a)), after, d.ops[0].sock);
  }

  // ---------------------------------------------------------------------------------------------------
  // Coming up
  // ---------------------------------------------------------------------------------------------------

  /** Every answer is yes, and a new descriptor is one that is not in use. */
  predicate SaysYes(d: Dispatcher, s: SocketId, a: Answer)
    requires s < |d.socks|
  {
    (d.socks[s].fd >= 0 || (a.created && a.fd !in d.open && a.options)) && a.connected
    && (d.socks[s].server ==> a.listening)
  }

  ghost predicate Up(d: Dispatcher, s: SocketId) {
    s < |d.socks| && d.socks[s].active && Watched(d, s) && (d.socks[s].server ==> d.socks[s].connected)
  }

  /** A socket that is not active comes up exactly if every answer is yes; otherwise it is inactive and its Stop is
      pending. */
  lemma ComesUpIff(d: Dispatcher, s: SocketId, a: Answer)
    requires s < |d.socks| && !d.socks[s].active && KeysMatch(d) && OpenMatch(d)
    ensures Up(StartIt(d, s, a), s) <==> SaysYes(d, s, a)
    ensures SaysYes(d, s, a) ==>
              StartIt(d, s, a).socks[s].connected == (d.socks[s].server || d.socks[s].connected)
    ensures !SaysYes(d, s, a) ==>
              var r := StartIt(d, s, a);
              !r.socks[s].active && (Operation(Stop, s) in r.ops || r.overflowed)
  {
    if SaysYes(d, s, a) && d.socks[s].fd >= 0 {
      KeyUnique(d, s);
    }
  }

  /** Starting an active socket: a client is watched and goes on; a server goes on when its Start is handled, but is
      stopped when a restart round comes to it. */
  lemma ActiveStarts(d: Dispatcher, s: SocketId, a: Answer)
    requires s < |d.socks| && d.socks[s].active && KeysMatch(d) && OpenMatch(d) && d.socks[s].fd != INVALID_SOCKET
    ensures var r := StartIt(d, s, a);
            r.socks == d.socks && r.ops == d.ops && (if d.socks[s].server then r == d else Watched(r, s))
    ensures var r := RestartOne(d, s, a);
            if d.socks[s].server then !r.socks[s].active && (r.overflowed || Operation(Stop, s) in r.ops)
            else r == StartIt(d, s, a)
  {
    KeyUnique(d, s);
  }

  /** An accepted connection is an active, connected client. */
  lemma AcceptedIsConnected(d: Dispatcher, listener: SocketId, fd: nat)
    requires listener < |d.socks| && d.socks[listener].server && Watched(d, listener) && fd !in d.open
    ensures var r, s := Apply(d, Accept(listener, fd)), |d.socks|;
            && |r.socks| == s + 1 && !r.socks[s].server && r.socks[s].fd == fd
            && r.socks[s].active && r.socks[s].connected
            && (|d.ops| < d.capacity ==> r.ops == d.ops + [Operation(AddActiveSocket, s)])
  {
  }

  /** Answers for the sockets before s leave s as it is. */
  lemma OtherStartLeaves(d: Dispatcher, t: SocketId, s: SocketId, a: Answer)
    requires s < |d.socks| && t < |d.socks| && s != t
    ensures var e := StartIt(d, t, a);
            && |e.socks| == |d.socks| && e.socks[s] == d.socks[s]
            && forall fd :: fd in e.open ==> fd in d.open || (a.created && fd == a.fd)
  {
    if !d.socks[t].active {
      var c := CreateDescriptor(d, t, a);
      assert c.socks[s] == d.socks[s] && forall fd :: fd in c.open ==> fd in d.open || (a.created && fd == a.fd);
      OtherStopLeaves(c, t, s);
    }
  }

  lemma OtherStopLeaves(d: Dispatcher, t: SocketId, s: SocketId)
    requires s < |d.socks| && t < |d.socks| && s != t
    ensures StopSocket(d, t).socks[s] == d.socks[s] && StopSocket(d, t).open == d.open
  {
  }

  lemma OtherRestartLeaves(d: Dispatcher, t: SocketId, s: SocketId, a: Answer)
    requires s < |d.socks| && t < |d.socks| && s != t
    ensures RestartOne(d, t, a).socks[s] == d.socks[s]
    ensures forall fd :: fd in RestartOne(d, t, a).open ==> fd in d.open || (a.created && fd == a.fd)
  {
    OtherStartLeaves(d, t, s, a);
    if !Started(d, t, a) {
      OtherStopLeaves(StartIt(d, t, a), t, s);
    }
  }

  lemma OtherRestartUp(d: Dispatcher, t: SocketId, s: SocketId, a: Answer)
    requires t < |d.socks| && s != t && KeysMatch(d) && OpenMatch(d) && Up(d, s)
    ensures Up(RestartOne(d, t, a), s)
  {
    RestartOneSpares(d, t, s, a);
    OtherRestartLeaves(d, t, s, a);
  }

  lemma {:induction false} RestKeepsUp(d: Dispatcher, waiting: seq<SocketId>, answers: seq<Answer>, s: SocketId)
    requires Good(d, waiting) && Up(d, s) && s !in waiting
    ensures var r := RestartAll(d, waiting, answers); r.overflowed || Up(r, s)
    decreases |waiting|
  {
    if d.overflowed {
      RestartAllOverflow(d, waiting, answers);
    } else if waiting != [] {
      var t, a := waiting[0], AnswerFor(answers);
      FewerWaiting(d, waiting);
      RestartOneKeeps(d, waiting[1..], t, a);
      OtherRestartUp(d, t, s, a);
      var e := RestartOne(d, t, a);
      if e.overflowed {
        RestartAllOverflow(e, waiting[1..], Later(answers));
      } else {
        RestKeepsUp(e, waiting[1..], Later(answers), s);
      }
    }
  }

  /** The k-th waiting socket is answered yes, with a descriptor that none before it gets. */
  predicate YesInTurn(d: Dispatcher, answers: seq<Answer>, s: SocketId, k: nat)
    requires s < |d.socks| && k < |answers|
  {
    SaysYes(d, s, answers[k])
    && (d.socks[s].fd < 0 ==> forall j :: 0 <= j < k ==> !answers[j].created || answers[j].fd != answers[k].fd)
  }

  lemma {:induction false} WaitingComesUp(d: Dispatcher, waiting: seq<SocketId>, answers: seq<Answer>, s: SocketId,
                                          k: nat)
    requires Good(d, waiting) && s < |d.socks| && !d.socks[s].active && k < |waiting| && k < |answers|
    requires waiting[k] == s && (forall j :: 0 <= j < |waiting| && j != k ==> waiting[j] != s)
    requires YesInTurn(d, answers, s, k)
    ensures var r := RestartAll(d, waiting, answers); r.overflowed || Up(r, s)
    decreases |waiting|
  {
    if d.overflowed {
      RestartAllOverflow(d, waiting, answers);
    } else {
      var t, a, later := waiting[0], answers[0], waiting[1..];
      var e := RestartOne(d, t, a);
      FewerWaiting(d, waiting);
      RestartOneKeeps(d, later, t, a);
      if e.overflowed {
        RestartAllOverflow(e, later, answers[1..]);
      } else if k == 0 {
        ComesUpIff(d, s, a);
        RestKeepsUp(e, later, answers[1..], s);
      } else {
        OtherRestartLeaves(d, t, s, a);
        assert forall j :: 0 <= j < |later| ==> later[j] == waiting[j + 1];
        assert forall j :: 0 <= j < |answers[1..]| ==> answers[1..][j] == answers[j + 1];
        assert answers[0].created && a.fd == answers[k].fd ==> d.socks[s].fd >= 0;
        WaitingComesUp(e, later, answers[1..], s, k - 1);
      }
    }
  }

  /** With a network, a tick brings up each socket that waits once, is not active, and is answered yes throughout. */
  lemma TickBringsUp(d: Dispatcher, answers: seq<Answer>, s: SocketId, k: nat)
    requires Sound(d, d.inactive) && d.hasIp && s < |d.socks| && !d.socks[s].active
    requires k < |d.inactive| && k < |answers| && d.inactive[k] == s && YesInTurn(d, answers, s, k)
    requires forall j :: 0 <= j < |d.inactive| && j != k ==> d.inactive[j] != s
    ensures var r := Apply(d, Tick(answers)); r.overflowed || Up(r, s)
  {
    WaitingComesUp(d, d.inactive, answers, s, k);
  }

  // ---------------------------------------------------------------------------------------------------
  // Calls
  // ---------------------------------------------------------------------------------------------------

  /** start() asks for Start exactly if the socket is not active and its address resolves. */
  lemma StartIsAsked(d: Dispatcher, s: SocketId, resolved: bool)
    requires s < |d.socks|
    ensures var r := Apply(d, CallStart(s, resolved));
            if d.socks[s].active || !resolved then r == d
            else if |d.ops| >= d.capacity then r.overflowed && r.ops == d.ops
            else r.ops == d.ops + [Operation(Start, s)] && r.inactive == d.inactive && r.active == d.active
  {
  }

  /** A stopped socket is neither active nor connected, and its Stop is pending. */
  lemma StopIsAsked(d: Dispatcher, s: SocketId)
    requires s < |d.socks|
    ensures var r := Apply(d, CallStop(s));
            && !r.socks[s].active && (d.socks[s].active ==> !r.socks[s].connected)
            && (r.overflowed || (r.ops != [] && r.ops[|r.ops| - 1] == Operation(Stop, s)))
  {
  }

  /** A handled Stop leaves the socket inactive, unwatched and closed; a server waits to be started again, a client
      does not. */
  lemma {:induction false} ShutdownEnds(d: Dispatcher, s: SocketId)
    requires s < |d.socks| && KeysMatch(d) && OpenMatch(d)
    ensures var r := ShutdownSocket(d, s);
            && s < |r.socks| && !r.socks[s].active && r.socks[s].fd == INVALID_SOCKET
            && (d.socks[s].fd !in r.open)
            && (forall fd :: fd in r.active ==> r.active[fd] != s)
            && r.inactive == RemoveFirst(d.inactive, s) + if d.socks[s].server then [s] else []
  {
    var d1 := StopInternal(d, s);
    var d2 := Unwatched(d1, s);
    var d3 := Closed(d2, s);
    assert d2.socks == d1.socks && d2.open == d.open && d1.socks[s].fd == d.socks[s].fd;
    assert d3.inactive == RemoveFirst(d.inactive, s) && d3.socks[s].server == d.socks[s].server;
    assert RemoveFirst(d.inactive, s) + [] == RemoveFirst(d.inactive, s);
  }

  lemma StopEnds(d: Dispatcher, a: Answer)
    requires Sound(d, d.inactive) && d.ops != [] && d.ops[0].kind == Stop
    ensures var r, s := Apply(d, HandleOperation(a)), d.ops[0].sock;
            && s < |r.socks| && !r.socks[s].active && r.socks[s].fd == INVALID_SOCKET
            && (d.socks[s].fd !in r.open)
            && (forall fd :: fd in r.active ==> r.active[fd] != s)
            && r.inactive == RemoveFirst(d.inactive, s) + if d.socks[s].server then [s] else []
  {
    ShutdownEnds(d.(ops := d.ops[1..]), d.ops[0].sock);
  }

  // ---------------------------------------------------------------------------------------------------
  // Connections
  // ---------------------------------------------------------------------------------------------------

  /** Only active sockets are connected. */
  ghost predicate OnlyActiveConnected(d: Dispatcher) {
    forall s :: 0 <= s < |d.socks| && d.socks[s].connected ==> d.socks[s].active
  }

  lemma RestartKeepsConnected(d: Dispatcher, s: SocketId, a: Answer)
    requires OnlyActiveConnected(d) && s < |d.socks|
    ensures OnlyActiveConnected(StartIt(d, s, a)) && OnlyActiveConnected(RestartOne(d, s, a))
  {
    var e := CreateDescriptor(d, s, a);
    assert OnlyActiveConnected(e);
    assert OnlyActiveConnected(InternalStart(d, s, a));
  }

  lemma {:induction false} RestartAllKeepsConnected(d: Dispatcher, waiting: seq<SocketId>, answers: seq<Answer>)
    requires OnlyActiveConnected(d)
    ensures OnlyActiveConnected(RestartAll(d, waiting, answers))
    decreases |waiting|
  {
    if waiting != [] && waiting[0] < |d.socks| {
      RestartKeepsConnected(d, waiting[0], AnswerFor(answers));
      RestartAllKeepsConnected(RestartOne(d, waiting[0], AnswerFor(answers)), waiting[1..], Later(answers));
    }
  }

  lemma ShutdownKeepsConnected(d: Dispatcher, s: SocketId)
    requires OnlyActiveConnected(d) && s < |d.socks|
    ensures OnlyActiveConnected(ShutdownSocket(d, s))
  {
    var d1 := StopInternal(d, s);
    assert OnlyActiveConnected(d1);
    assert OnlyActiveConnected(Closed(Unwatched(d1, s), s));
  }

  lemma PerformKeepsConnected(d: Dispatcher, op: Operation, a: Answer)
    requires OnlyActiveConnected(d) && op.sock < |d.socks|
    ensures OnlyActiveConnected(Perform(d, op, a))
  {
    match op.kind
    case Start => RestartKeepsConnected(d, op.sock, a);
    case AddActiveSocket =>
    case Stop => ShutdownKeepsConnected(d, op.sock);
  }

  lemma StepKeepsConnected(d: Dispatcher, step: Step)
    requires OnlyActiveConnected(d)
    ensures OnlyActiveConnected(Apply(d, step))
  {
    match step
    case HandleOperation(a) =>
      if d.ops != [] && d.ops[0].sock < |d.socks| {
        PerformKeepsConnected(d.(ops := d.ops[1..]), d.ops[0], a);
      }
    case Network(event, keys) => StopAllSpares(d.(hasIp := event == GotIp), keys);
    case Tick(answers) => RestartAllKeepsConnected(d, d.inactive, answers);
    case _ =>
  }

  /** In every run only active sockets are connected, and an active one is when its connection is established. */
  lemma {:induction false} ConnectedIsActive(capacity: nat, steps: seq<Step>, s: SocketId)
    ensures var d := Run(Fresh(capacity), steps);
            && OnlyActiveConnected(d)
            && (s < |d.socks| ==>
                  var r := Apply(d, Connected(s));
                  r.socks[s].connected == d.socks[s].active && r.socks[s].active == d.socks[s].active)
  {
    RunKeepsConnected(Fresh(capacity), steps);
  }

  lemma {:induction false} RunKeepsConnected(d: Dispatcher, steps: seq<Step>)
    requires OnlyActiveConnected(d)
    ensures OnlyActiveConnected(Run(d, steps))
    decreases |steps|
  {
    if steps != [] {
      StepKeepsConnected(d, steps[0]);
      RunKeepsConnected(Apply(d, steps[0]), steps[1..]);
    }
  }
}

/** The queue that interrupt handlers signal: it keeps the newest signals, and the Task polls it instead of being
    notified. */
module IsrQueueModel {
  datatype Phase = Idle | Taken | Received

  /** `queue` of at most `size` signals; `tokens` naming this queue in the Task's list; how far the Task is with
      forwarding. Histories: all `signals`, and for each delivery the index of its signal. */
  datatype Isr<T> = Isr(size: nat, queue: seq<T>, readSincePoll: bool, tokens: nat, phase: Phase,
                        signals: seq<T>, delivered: seq<T>, indices: seq<nat>)

  datatype Step<T> = Signal(data: T) | Poll | Take | Receive | SetFlag

  function Start<T>(size: nat): Isr<T> {
    Isr(size, [], true, 0, Idle, [], [], [])
  }

  /** The last n elements, or all. */
  function Newest<T>(s: seq<T>, n: nat): (r: seq<T>)
    ensures |r| == if |s| <= n then |s| else n
  {
    if |s| <= n then s else s[|s| - n..]
  }

  function Apply<T>(s: Isr<T>, step: Step<T>): Isr<T> {
    match step
    case Signal(x) => s.(queue := Newest(s.queue + [x], s.size), signals := s.signals + [x])
    case Poll =>
      if s.readSincePoll && s.queue != [] then s.(readSincePoll := false, tokens := s.tokens + 1) else s
    case Take =>
      if s.tokens > 0 && s.phase == Idle then s.(tokens := s.tokens - 1, phase := Taken) else s
    case Receive =>
      if s.phase != Taken then
        s
      else if s.queue == [] then
        s.(phase := Received)
      else
        s.(queue := s.queue[1..], phase := Received, delivered := s.delivered + [s.queue[0]],
           indices := s.indices + [if |s.queue| <= |s.signals| then |s.signals| - |s.queue| else 0])
    case SetFlag =>
      if s.phase == Received then s.(readSincePoll := true, phase := Idle) else s
  }

  function Run<T>(s: Isr<T>, steps: seq<Step<T>>): Isr<T>
    decreases |steps|
  {
    if steps == [] then s else Run(Apply(s, steps[0]), steps[1..])
  }

  /** Where the unread signals begin: behind the last one delivered. */
  function ReadUpTo(indices: seq<nat>): nat {
    if indices == [] then 0 else indices[|indices| - 1] + 1
  }

  /** One token is outstanding or being handled exactly while the flag is down, and then there is a signal for it. */
  ghost predicate FlagLaw<T>(s: Isr<T>) {
    && s.tokens + (if s.phase == Idle then 0 else 1) == (if s.readSincePoll then 0 else 1)
    && (!s.readSincePoll && s.phase != Received ==> s.queue != [])
  }

  /** The queue holds the newest of the unread signals. */
  ghost predicate HoldsNewest<T>(s: Isr<T>) {
    ReadUpTo(s.indices) <= |s.signals| && s.queue == Newest(s.signals[ReadUpTo(s.indices)..], s.size)
  }

  /** Deliveries are signals, in the order of the signals. */
  ghost predicate InOrder<T>(signals: seq<T>, delivered: seq<T>, indices: seq<nat>) {
    && |delivered| == |indices|
    && (forall i :: 0 <= i < |indices| ==> indices[i] < |signals| && delivered[i] == signals[indices[i]])
    && (forall i, j :: 0 <= i < j < |indices| ==> indices[i] < indices[j])
  }

  ghost predicate Inv<T>(s: Isr<T>) {
    s.size > 0 && FlagLaw(s) && HoldsNewest(s) && InOrder(s.signals, s.delivered, s.indices)
  }

  lemma NewestAppend<T>(unread: seq<T>, x: T, n: nat)
    requires n > 0
    ensures Newest(Newest(unread, n) + [x], n) == Newest(unread + [x], n)
  {
  }

  lemma SignalKeeps<T>(s: Isr<T>, x: T)
    requires Inv(s)
    ensures Inv(Apply(s, Signal(x)))
  {
    var from := ReadUpTo(s.indices);
    NewestAppend(s.signals[from..], x, s.size);
    assert (s.signals + [x])[from..] == s.signals[from..] + [x];
  }

  lemma ReceivedInOrder<T>(signals: seq<T>, delivered: seq<T>, indices: seq<nat>, at: nat)
    requires InOrder(signals, delivered, indices) && ReadUpTo(indices) <= at < |signals|
    ensures InOrder(signals, delivered + [signals[at]], indices + [at])
  {
  }

  lemma ReceiveKeeps<T>(s: Isr<T>)
    requires Inv(s) && s.phase == Taken
    ensures s.queue != [] && Inv(Apply(s, Receive))
    ensures Apply(s, Receive).delivered == s.delivered + [s.queue[0]]
  {
    var from, unread := ReadUpTo(s.indices), s.signals[ReadUpTo(s.indices)..];
    var at := |s.signals| - |s.queue|;
    assert s.queue == s.signals[at..] && from <= at;
    var r := Apply(s, Receive);
    assert r.indices == s.indices + [at];
    assert s.signals[at + 1..] == s.queue[1..];
    assert s.queue[0] == s.signals[at];
    ReceivedInOrder(s.signals, s.delivered, s.indices, at);
  }

  lemma StepKeeps<T>(s: Isr<T>, step: Step<T>)
    requires Inv(s)
    ensures Inv(Apply(s, step))
  {
    match step
    case Signal(x) => SignalKeeps(s, x);
    case Receive =>
      if s.phase == Taken {
        ReceiveKeeps(s);
      }
    case Poll =>
    case Take =>
    case SetFlag =>
  }

  /** In every run. */
  lemma {:induction false} RunKeeps<T>(s: Isr<T>, steps: seq<Step<T>>)
    requires Inv(s)
    ensures Inv(Run(s, steps))
    decreases |steps|
  {
    if steps != [] {
      StepKeeps(s, steps[0]);
      RunKeeps(Apply(s, steps[0]), steps[1..]);
    }
  }

  lemma {:induction false} StartHolds<T>(size: nat, steps: seq<Step<T>>)
    requires size > 0
    ensures Inv(Run(Start(size), steps))
  {
    RunKeeps(Start<T>(size), steps);
  }

  // ---------------------------------------------------------------------------------------------------
  // Every signal kept is delivered
  // ---------------------------------------------------------------------------------------------------

  /** A signal is always taken in, and is then the newest one kept. */
  lemma SignalIsKept<T>(s: Isr<T>, x: T)
    requires Inv(s)
    ensures var r := Apply(s, Signal(x));
            && r.signals == s.signals + [x] && r.queue != [] && r.queue[|r.queue| - 1] == x
            && |r.queue| == (if |s.queue| < s.size then |s.queue| + 1 else s.size)
            && r.tokens == s.tokens && r.readSincePoll == s.readSincePoll
  {
  }

  /** After a poll of a queue that is not empty exactly one token is outstanding or being handled. */
  lemma PollNotifies<T>(s: Isr<T>)
    requires Inv(s) && s.queue != []
    ensures var r := Apply(s, Poll);
            && !r.readSincePoll && r.tokens + (if r.phase == Idle then 0 else 1) == 1
            && r.queue == s.queue && r.delivered == s.delivered
  {
  }

  /** A poll, and what the Task does with the token. */
  function Round<T>(): seq<Step<T>> {
    [Poll, Take, Receive, SetFlag]
  }

  function Rounds<T>(n: nat): seq<Step<T>> {
    if n == 0 then [] else Round() + Rounds(n - 1)
  }

  /** The Task is idle, and the queue is as it is after its oldest signal, if any, has been delivered. */
  ghost predicate Delivers<T>(s: Isr<T>, r: Isr<T>) {
    && r.readSincePoll && r.phase == Idle && r.tokens == 0
    && if s.queue == [] then r.queue == [] && r.delivered == s.delivered
       else r.queue == s.queue[1..] && r.delivered == s.delivered + [s.queue[0]]
  }

  lemma {:induction false} RunFirst<T>(s: Isr<T>, step: Step<T>, later: seq<Step<T>>)
    ensures Run(s, [step] + later) == Run(Apply(s, step), later)
  {
    assert ([step] + later)[1..] == later;
  }

  /** One round delivers the oldest signal, wherever the Task was, unless it has just received one. */
  lemma {:induction false} RoundDelivers<T>(s: Isr<T>, later: seq<Step<T>>) returns (r: Isr<T>)
    requires Inv(s)
    ensures Run(s, Round() + later) == Run(r, later) && Inv(r)
    ensures if s.phase == Received then r == Apply(s, SetFlag) else Delivers(s, r)
  {
    var s1 := Apply(s, Poll);
    var s2 := Apply(s1, Take);
    var s3 := Apply(s2, Receive);
    r := Apply(s3, SetFlag);
    assert Round() + later == [Poll] + ([Take] + ([Receive] + ([SetFlag] + later)));
    RunFirst(s, Poll, [Take] + ([Receive] + ([SetFlag] + later)));
    RunFirst(s1, Take, [Receive] + ([SetFlag] + later));
    RunFirst(s2, Receive, [SetFlag] + later);
    RunFirst(s3, SetFlag, later);
    StepKeeps(s, Poll);
    StepKeeps(s1, Take);
    StepKeeps(s2, Receive);
    StepKeeps(s3, SetFlag);
  }

  lemma {:induction false} RoundsDeliver<T>(s: Isr<T>, n: nat) returns (r: Isr<T>)
    requires Inv(s) && s.phase != Received && n >= |s.queue|
    ensures r == Run(s, Rounds(n)) && r.queue == [] && r.delivered == s.delivered + s.queue
    decreases n
  {
    if n == 0 {
      r := s;
      assert s.delivered + s.queue == s.delivered;
    } else {
      var d := RoundDelivers(s, Rounds(n - 1));
      r := RoundsDeliver(d, n - 1);
      assert d.delivered + d.queue == s.delivered + s.queue;
    }
  }

  /** From any state of any run: one round more than there are signals delivers all of them, in their order. */
  lemma {:induction false} AllDelivered<T>(size: nat, steps: seq<Step<T>>) returns (r: Isr<T>)
    requires size > 0
    ensures var s := Run(Start(size), steps);
            && r == Run(s, Rounds(|s.queue| + 1))
            && r.queue == [] && r.delivered == s.delivered + s.queue
  {
    StartHolds(size, steps);
    var s := Run(Start(size), steps);
    if s.phase == Received {
      var d := RoundDelivers(s, Rounds(|s.queue|));
      r := RoundsDeliver(d, |s.queue|);
    } else {
      r := RoundsDeliver(s, |s.queue| + 1);
    }
  }

  // ---------------------------------------------------------------------------------------------------
  // The class
  // ---------------------------------------------------------------------------------------------------

  /** The ghost fields record the histories and where the Task is. */
  class IsrTaskEventQueue<T(0)> {
    const size: nat
    var queue: seq<T>
    var readSincePoll: bool
    var notified: nat
    var received: seq<T>
    ghost var phase: Phase
    ghost var signals: seq<T>
    ghost var indices: seq<nat>

    ghost function State(): Isr<T>
      reads this
    {
      Isr(size, queue, readSincePoll, notified, phase, signals, received, indices)
    }

    constructor (size: nat)
      ensures State() == Start(size)
    {
      this.size, queue, readSincePoll, notified, received := size, [], true, 0, [];
      phase, signals, indices := Idle, [], [];
    }

    /** xQueueSendToBack */
    method Send(data: T) returns (sent: bool)
      modifies this`queue
      ensures sent == (|old(queue)| < size) && queue == if sent then old(queue) + [data] else old(queue)
    {
      sent := |queue| < size;
      if sent {
        queue := queue + [data];
      }
    }

    /** signal(): the oldest signals are dropped until there is room. */
    method SignalData(data: T)
      requires size > 0 && |queue| <= size
      modifies this`queue, this`signals
      ensures State() == Apply(old(State()), Signal(data))
    {
      var sent := Send(data);
      while !sent
        invariant sent ==> queue == Newest(old(queue) + [data], size)
        invariant !sent ==> queue == old(queue) && |queue| == size
        invariant signals == old(signals)
        decreases !sent
      {
        queue := queue[1..];
        sent := Send(data);
      }
      signals := signals + [data];
    }

    method PollQueue()
      modifies this`readSincePoll, this`notified
      ensures State() == Apply(old(State()), Poll)
    {
      if readSincePoll && |queue| > 0 {
        readSincePoll := false;
        notified := notified + 1;
      }
    }

    /** The Task has taken the token. */
    method ForwardToEventListener()
      requires phase == Taken
      modifies this`queue, this`received, this`readSincePoll, this`phase, this`indices
      ensures State() == Apply(Apply(old(State()), Receive), SetFlag)
    {
      if queue != [] {
        indices := indices + [if |queue| <= |signals| then |signals| - |queue| else 0];
        received := received + [queue[0]];
        queue := queue[1..];
      }
      readSincePoll := true;
      phase := Idle;
    }
  }
}

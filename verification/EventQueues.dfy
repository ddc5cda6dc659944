/** Many bounded event queues of one Task and the list of notifications that they share: pushing puts an event into
    its queue and a token naming the queue at the end of the list; the Task takes the first token and one event
    from the queue it names. */
module EventQueues {
  /** An event queue, named by the order of creation. */
  type QueueId = nat

  /** Events are told apart by number. */
  datatype Event = Event(queue: QueueId, number: nat)

  datatype Bounded = Bounded(size: nat, items: seq<Event>)

  /** The task's queues, its tokens, and what its listeners have received. */
  datatype World = World(queues: map<QueueId, Bounded>, tokens: seq<QueueId>, delivered: seq<Event>)

  /** One FIFO for all queues; a queue keeps its own bound. */
  datatype Fifo = Fifo(sizes: map<QueueId, nat>, waiting: seq<Event>, delivered: seq<Event>)

  datatype Step =
    | Create(queue: QueueId, size: nat)
    | Push(event: Event)
    | Handle
    | Destroy(queue: QueueId)

  // ---------------------------------------------------------------------------------------------------
  // The queues
  // ---------------------------------------------------------------------------------------------------

  /** Queue::push */
  function Pushed(b: Bounded, e: Event): Bounded {
    if |b.items| < b.size then b.(items := b.items + [e]) else b
  }

  /** Queue::pop */
  function Popped(b: Bounded): Bounded {
    if b.items == [] then b else b.(items := b.items[1..])
  }

  /** remove_expired_queues */
  function Without(tokens: seq<QueueId>, q: QueueId): (r: seq<QueueId>)
    ensures q !in r
  {
    if tokens == [] then []
    else if tokens[0] == q then Without(tokens[1..], q)
    else [tokens[0]] + Without(tokens[1..], q)
  }

  function Apply(w: World, step: Step): World {
    match step
    case Create(q, size) =>
      if q in w.queues || q in w.tokens then w else w.(queues := w.queues[q := Bounded(size, [])])
    case Push(e) =>
      if e.queue in w.queues && |w.queues[e.queue].items| < w.queues[e.queue].size then
        w.(queues := w.queues[e.queue := Pushed(w.queues[e.queue], e)], tokens := w.tokens + [e.queue])
      else
        w
    case Handle =>
      if w.tokens == [] then
        w
      else
        var q := w.tokens[0];
        if q in w.queues && w.queues[q].items != [] then
          World(w.queues[q := Popped(w.queues[q])], w.tokens[1..], w.delivered + [w.queues[q].items[0]])
        else
          w.(tokens := w.tokens[1..])
    case Destroy(q) =>
      w.(queues := map p | p in w.queues && p != q :: w.queues[p], tokens := Without(w.tokens, q))
  }

  function Run(w: World, steps: seq<Step>): World
    decreases |steps|
  {
    if steps == [] then w else Run(Apply(w, steps[0]), steps[1..])
  }

  // ---------------------------------------------------------------------------------------------------
  // The FIFO
  // ---------------------------------------------------------------------------------------------------

  function CountOf(events: seq<Event>, q: QueueId): nat {
    if events == [] then 0 else (if events[0].queue == q then 1 else 0) + CountOf(events[1..], q)
  }

  function Others(events: seq<Event>, q: QueueId): seq<Event> {
    if events == [] then []
    else if events[0].queue == q then Others(events[1..], q)
    else [events[0]] + Others(events[1..], q)
  }

  function FifoApply(f: Fifo, step: Step): Fifo {
    match step
    case Create(q, size) =>
      if q in f.sizes then f else f.(sizes := f.sizes[q := size])
    case Push(e) =>
      if e.queue in f.sizes && CountOf(f.waiting, e.queue) < f.sizes[e.queue] then f.(waiting := f.waiting + [e]) else f
    case Handle =>
      if f.waiting == [] then f else f.(waiting := f.waiting[1..], delivered := f.delivered + [f.waiting[0]])
    case Destroy(q) =>
      f.(sizes := map p | p in f.sizes && p != q :: f.sizes[p], waiting := Others(f.waiting, q))
  }

  function FifoRun(f: Fifo, steps: seq<Step>): Fifo
    decreases |steps|
  {
    if steps == [] then f else FifoRun(FifoApply(f, steps[0]), steps[1..])
  }

  // ---------------------------------------------------------------------------------------------------
  // The abstraction
  // ---------------------------------------------------------------------------------------------------

  function Count(tokens: seq<QueueId>, q: QueueId): nat {
    if tokens == [] then 0 else (if tokens[0] == q then 1 else 0) + Count(tokens[1..], q)
  }

  /** Every event has its token, and every token its event. */
  ghost predicate Balanced(queues: map<QueueId, Bounded>, tokens: seq<QueueId>) {
    && (forall q :: q in queues ==> |queues[q].items| == Count(tokens, q))
    && (forall i :: 0 <= i < |tokens| ==> tokens[i] in queues)
  }

  ghost predicate Bounds(queues: map<QueueId, Bounded>) {
    forall q :: q in queues ==> |queues[q].items| <= queues[q].size && forall e :: e in queues[q].items ==> e.queue == q
  }

  ghost predicate Inv(w: World) {
    Balanced(w.queues, w.tokens) && Bounds(w.queues)
  }

  /** The waiting events of all queues in the order of the tokens. */
  function Waiting(queues: map<QueueId, Bounded>, tokens: seq<QueueId>): seq<Event> {
    if tokens == [] then
      []
    else if tokens[0] in queues && queues[tokens[0]].items != [] then
      [queues[tokens[0]].items[0]] + Waiting(queues[tokens[0] := Popped(queues[tokens[0]])], tokens[1..])
    else
      Waiting(queues, tokens[1..])
  }

  function Sizes(queues: map<QueueId, Bounded>): map<QueueId, nat> {
    map q | q in queues :: queues[q].size
  }

  function Abs(w: World): Fifo {
    Fifo(Sizes(w.queues), Waiting(w.queues, w.tokens), w.delivered)
  }

  // ---------------------------------------------------------------------------------------------------
  // Refinement
  // ---------------------------------------------------------------------------------------------------

  lemma {:induction false} CountAppend(tokens: seq<QueueId>, p: QueueId, q: QueueId)
    ensures Count(tokens + [p], q) == Count(tokens, q) + if p == q then 1 else 0
  {
    if tokens != [] {
      assert (tokens + [p])[1..] == tokens[1..] + [p];
      CountAppend(tokens[1..], p, q);
    }
  }

  lemma {:induction false} CountIn(tokens: seq<QueueId>, q: QueueId)
    ensures Count(tokens, q) > 0 <==> q in tokens
  {
    if tokens != [] {
      CountIn(tokens[1..], q);
      assert tokens == [tokens[0]] + tokens[1..];
    }
  }

  /** The first token of a balanced world stands for the oldest event of its queue; taking both leaves it balanced. */
  lemma HeadBalanced(queues: map<QueueId, Bounded>, tokens: seq<QueueId>)
    requires Balanced(queues, tokens) && tokens != []
    ensures tokens[0] in queues && queues[tokens[0]].items != []
    ensures Balanced(queues[tokens[0] := Popped(queues[tokens[0]])], tokens[1..])
  {
    var q := tokens[0];
    CountIn(tokens, q);
  }

  lemma {:induction false} WaitingCount(queues: map<QueueId, Bounded>, tokens: seq<QueueId>, q: QueueId)
    requires Balanced(queues, tokens) && Bounds(queues)
    ensures CountOf(Waiting(queues, tokens), q) == Count(tokens, q)
    decreases |tokens|
  {
    if tokens != [] {
      HeadBalanced(queues, tokens);
      var popped := queues[tokens[0] := Popped(queues[tokens[0]])];
      WaitingCount(popped, tokens[1..], q);
      assert Waiting(queues, tokens)[1..] == Waiting(popped, tokens[1..]);
    }
  }

  /** An accepted push appends to the FIFO. */
  lemma {:induction false} PushAppends(queues: map<QueueId, Bounded>, tokens: seq<QueueId>, e: Event)
    requires Balanced(queues, tokens) && e.queue in queues && |queues[e.queue].items| < queues[e.queue].size
    ensures Waiting(queues[e.queue := Pushed(queues[e.queue], e)], tokens + [e.queue]) == Waiting(queues, tokens) + [e]
    decreases |tokens|
  {
    var q := e.queue;
    var pushed := queues[q := Pushed(queues[q], e)];
    if tokens == [] {
      assert [q][1..] == [] && tokens + [q] == [q];
    } else {
      HeadBalanced(queues, tokens);
      var t := tokens[0];
      var popped := queues[t := Popped(queues[t])];
      assert (tokens + [q])[1..] == tokens[1..] + [q];
      assert pushed[t].items[0] == queues[t].items[0];
      assert Popped(pushed[q]) == Pushed(Popped(queues[q]), e) || q != t;
      assert pushed[t := Popped(pushed[t])] == popped[q := Pushed(popped[q], e)];
      PushAppends(popped, tokens[1..], e);
    }
  }

  function Dropped(queues: map<QueueId, Bounded>, q: QueueId): map<QueueId, Bounded> {
    map p | p in queues && p != q :: queues[p]
  }

  /** Destroying a queue removes exactly its own events and keeps the order of the others. */
  lemma {:induction false} DestroyFilters(queues: map<QueueId, Bounded>, tokens: seq<QueueId>, q: QueueId)
    requires Balanced(queues, tokens) && Bounds(queues)
    ensures Waiting(Dropped(queues, q), Without(tokens, q)) == Others(Waiting(queues, tokens), q)
    decreases |tokens|
  {
    if tokens != [] {
      HeadBalanced(queues, tokens);
      var t := tokens[0];
      var popped := queues[t := Popped(queues[t])];
      DestroyFilters(popped, tokens[1..], q);
      assert Waiting(queues, tokens)[1..] == Waiting(popped, tokens[1..]);
      if t == q {
        assert Dropped(popped, q) == Dropped(queues, q);
      } else {
        assert Dropped(popped, q) == Dropped(queues, q)[t := Popped(queues[t])];
        assert Without(tokens, q)[1..] == Without(tokens[1..], q);
        assert Dropped(queues, q)[t] == queues[t];
      }
    }
  }

  lemma {:induction false} WithoutCount(tokens: seq<QueueId>, q: QueueId, p: QueueId)
    ensures Count(Without(tokens, q), p) == if p == q then 0 else Count(tokens, p)
    ensures forall i :: 0 <= i < |Without(tokens, q)| ==> Without(tokens, q)[i] in tokens
  {
    if tokens != [] {
      WithoutCount(tokens[1..], q, p);
      if tokens[0] != q {
        assert Without(tokens, q)[1..] == Without(tokens[1..], q);
      }
    }
  }

  lemma CreateRefines(w: World, q: QueueId, size: nat)
    requires Inv(w)
    ensures Inv(Apply(w, Create(q, size))) && Abs(Apply(w, Create(q, size))) == FifoApply(Abs(w), Create(q, size))
  {
    if q !in w.queues {
      CountIn(w.tokens, q);
      NewQueueWaits(w.queues, w.tokens, q, size);
      assert Sizes(w.queues[q := Bounded(size, [])]) == Sizes(w.queues)[q := size];
    }
  }

  lemma {:induction false} NewQueueWaits(queues: map<QueueId, Bounded>, tokens: seq<QueueId>, q: QueueId, size: nat)
    requires Balanced(queues, tokens) && q !in queues && q !in tokens
    ensures Waiting(queues[q := Bounded(size, [])], tokens) == Waiting(queues, tokens)
    decreases |tokens|
  {
    if tokens != [] {
      HeadBalanced(queues, tokens);
      var t := tokens[0];
      var popped := queues[t := Popped(queues[t])];
      NewQueueWaits(popped, tokens[1..], q, size);
      assert queues[q := Bounded(size, [])][t := Popped(queues[t])] == popped[q := Bounded(size, [])];
    }
  }

  lemma PushRefines(w: World, e: Event)
    requires Inv(w)
    ensures Inv(Apply(w, Push(e))) && Abs(Apply(w, Push(e))) == FifoApply(Abs(w), Push(e))
  {
    WaitingCount(w.queues, w.tokens, e.queue);
    if e.queue in w.queues && |w.queues[e.queue].items| < w.queues[e.queue].size {
      PushAppends(w.queues, w.tokens, e);
      var pushed := w.queues[e.queue := Pushed(w.queues[e.queue], e)];
      forall q | q in pushed ensures |pushed[q].items| == Count(w.tokens + [e.queue], q) {
        CountAppend(w.tokens, e.queue, q);
      }
      assert Sizes(pushed) == Sizes(w.queues);
    }
  }

  lemma HandleRefines(w: World)
    requires Inv(w)
    ensures Inv(Apply(w, Handle)) && Abs(Apply(w, Handle)) == FifoApply(Abs(w), Handle)
  {
    if w.tokens != [] {
      HeadBalanced(w.queues, w.tokens);
      var popped := w.queues[w.tokens[0] := Popped(w.queues[w.tokens[0]])];
      assert Sizes(popped) == Sizes(w.queues);
      assert Waiting(w.queues, w.tokens)[1..] == Waiting(popped, w.tokens[1..]);
    }
  }

  lemma DestroyRefines(w: World, q: QueueId)
    requires Inv(w)
    ensures Inv(Apply(w, Destroy(q))) && Abs(Apply(w, Destroy(q))) == FifoApply(Abs(w), Destroy(q))
  {
    DestroyFilters(w.queues, w.tokens, q);
    var w' := Apply(w, Destroy(q));
    assert w'.queues == Dropped(w.queues, q);
    forall p | p in w'.queues ensures |w'.queues[p].items| == Count(w'.tokens, p) {
      WithoutCount(w.tokens, q, p);
    }
    WithoutCount(w.tokens, q, q);
    assert Sizes(w'.queues) == map p | p in Sizes(w.queues) && p != q :: Sizes(w.queues)[p];
  }

  lemma StepRefines(w: World, step: Step)
    requires Inv(w)
    ensures Inv(Apply(w, step)) && Abs(Apply(w, step)) == FifoApply(Abs(w), step)
  {
    match step
    case Create(q, size) => CreateRefines(w, q, size);
    case Push(e) => PushRefines(w, e);
    case Handle => HandleRefines(w);
    case Destroy(q) => DestroyRefines(w, q);
  }

  /** In every run the queues and their token list behave as one FIFO. */
  lemma {:induction false} GlobalFifo(w: World, steps: seq<Step>)
    requires Inv(w)
    ensures Inv(Run(w, steps)) && Abs(Run(w, steps)) == FifoRun(Abs(w), steps)
    decreases |steps|
  {
    if steps != [] {
      StepRefines(w, steps[0]);
      GlobalFifo(Apply(w, steps[0]), steps[1..]);
    }
  }

  const EMPTY_WORLD := World(map[], [], [])

  const EMPTY_FIFO := Fifo(map[], [], [])

  /** A Task begins without queues, as does the FIFO. */
  lemma {:induction false} FifoFromStart(steps: seq<Step>)
    ensures Inv(Run(EMPTY_WORLD, steps)) && Abs(Run(EMPTY_WORLD, steps)) == FifoRun(EMPTY_FIFO, steps)
  {
    assert Abs(EMPTY_WORLD) == EMPTY_FIFO;
    GlobalFifo(EMPTY_WORLD, steps);
  }

  /** The event that a step puts into its queue. */
  function AcceptedBy(w: World, step: Step): seq<Event> {
    if step.Push? && |Apply(w, step).tokens| > |w.tokens| then [step.event] else []
  }

  function Accepted(w: World, steps: seq<Step>): seq<Event>
    decreases |steps|
  {
    if steps == [] then [] else AcceptedBy(w, steps[0]) + Accepted(Apply(w, steps[0]), steps[1..])
  }

  predicate NoDestroy(steps: seq<Step>) {
    forall i :: 0 <= i < |steps| ==> !steps[i].Destroy?
  }

  /** Received events, followed by what waits. */
  function History(w: World): seq<Event> {
    w.delivered + Waiting(w.queues, w.tokens)
  }

  lemma StepConserves(w: World, step: Step)
    requires Inv(w) && !step.Destroy?
    ensures History(Apply(w, step)) == History(w) + AcceptedBy(w, step)
  {
    StepRefines(w, step);
    var f := Abs(w);
    match step
    case Push(e) =>
      if |Apply(w, step).tokens| > |w.tokens| {
        PushAppends(w.queues, w.tokens, e);
        assert f.delivered + (f.waiting + [e]) == f.delivered + f.waiting + [e];
      }
    case Handle =>
      if f.waiting != [] {
        assert f.waiting == [f.waiting[0]] + f.waiting[1..];
      }
    case Create(_, _) =>
  }

  lemma Regroup(a: seq<Event>, b: seq<Event>, c: seq<Event>)
    ensures (a + b) + c == a + (b + c)
  {
  }

  /** While no queue is destroyed, what the listeners of all queues have received, followed by what waits, is what
      has been accepted, in the order of the pushes. */
  lemma {:induction false} DeliveredInPushOrder(w: World, steps: seq<Step>)
    requires Inv(w) && NoDestroy(steps)
    ensures History(Run(w, steps)) == History(w) + Accepted(w, steps)
    decreases |steps|
  {
    if steps == [] {
      assert History(w) + [] == History(w);
    } else {
      var w1 := Apply(w, steps[0]);
      StepRefines(w, steps[0]);
      StepConserves(w, steps[0]);
      DeliveredInPushOrder(w1, steps[1..]);
      Regroup(History(w), AcceptedBy(w, steps[0]), Accepted(w1, steps[1..]));
    }
  }
}

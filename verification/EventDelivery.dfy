/** What the queues of a Task do with an event: it is accepted while its queue has room, and every event that waits is
    delivered once the Task has taken its turn. */
module EventDelivery {
  import opened EventQueues

  /** The world with other items in one queue. */
  ghost predicate OnlyItems(w: World, r: World, q: QueueId, items: seq<Event>) {
    && r.queues.Keys == w.queues.Keys && q in w.queues
    && r.queues[q].size == w.queues[q].size && r.queues[q].items == items
    && forall p :: p in w.queues && p != q ==> r.queues[p] == w.queues[p]
  }

  /** A new queue is empty and has the given size. */
  lemma CreateOpens(w: World, q: QueueId, size: nat)
    requires Inv(w)
    ensures var r := Apply(w, Create(q, size));
            if q in w.queues then r == w
            else r == w.(queues := r.queues) && r.queues.Keys == w.queues.Keys + {q} && r.queues[q] == Bounded(size, [])
                 && forall p :: p in w.queues ==> r.queues[p] == w.queues[p]
  {
    CountIn(w.tokens, q);
  }

  /** An event is accepted exactly if its queue is there and has room; then it is the newest, with a token. */
  lemma PushIsAccepted(w: World, e: Event)
    ensures var r := Apply(w, Push(e));
            if e.queue in w.queues && |w.queues[e.queue].items| < w.queues[e.queue].size then
              && OnlyItems(w, r, e.queue, w.queues[e.queue].items + [e])
              && r.tokens == w.tokens + [e.queue] && r.delivered == w.delivered
            else r == w
  {
  }

  /** Handling delivers the oldest event of the queue that the first token names. */
  lemma HandleDelivers(w: World)
    requires Inv(w) && w.tokens != []
    ensures var r, q := Apply(w, Handle), w.tokens[0];
            && q in w.queues && w.queues[q].items != []
            && OnlyItems(w, r, q, w.queues[q].items[1..])
            && r.tokens == w.tokens[1..] && r.delivered == w.delivered + [w.queues[q].items[0]]
  {
    HeadBalanced(w.queues, w.tokens);
  }

  function Handles(n: nat): seq<Step> {
    seq(n, _ => Handle)
  }

  /** The event waits or has been delivered. */
  ghost predicate Known(w: World, e: Event) {
    e in w.delivered || (e.queue in w.queues && e in w.queues[e.queue].items)
  }

  lemma HandleKeepsKnown(w: World, e: Event)
    requires Inv(w) && w.tokens != [] && Known(w, e)
    ensures Known(Apply(w, Handle), e)
  {
    HandleDelivers(w);
    var q := w.tokens[0];
    var items := w.queues[q].items;
    if e !in w.delivered && e.queue == q && e != items[0] {
      var i :| 0 <= i < |items| && items[i] == e;
      assert items[1..][i - 1] == e;
    }
  }

  /** As many turns as there are tokens deliver everything that waits, and nothing is left. */
  lemma {:induction false} AllDelivered(w: World, e: Event)
    requires Inv(w)
    ensures var r := Run(w, Handles(|w.tokens|));
            && r.tokens == [] && r.delivered == w.delivered + Waiting(w.queues, w.tokens)
            && (forall q :: q in w.queues <==> q in r.queues) && (forall q :: q in r.queues ==> r.queues[q].items == [])
            && (Known(w, e) ==> e in r.delivered)
    decreases |w.tokens|
  {
    if w.tokens == [] {
      forall q | q in w.queues ensures w.queues[q].items == [] {
        assert |w.queues[q].items| == Count(w.tokens, q);
      }
      assert w.delivered + [] == w.delivered;
    } else {
      var w1 := Apply(w, Handle);
      HandleDelivers(w);
      StepRefines(w, Handle);
      if Known(w, e) {
        HandleKeepsKnown(w, e);
      }
      AllDelivered(w1, e);
      assert Handles(|w.tokens|)[1..] == Handles(|w1.tokens|);
      WaitingHead(w);
    }
  }

  lemma WaitingHead(w: World)
    requires Inv(w) && w.tokens != []
    ensures var r := Apply(w, Handle);
            r.delivered + Waiting(r.queues, r.tokens) == w.delivered + Waiting(w.queues, w.tokens)
  {
    StepConserves(w, Handle);
    assert History(w) + [] == History(w);
  }

  /** After every run from an empty Task. */
  lemma {:induction false} NothingIsLeft(steps: seq<Step>, e: Event)
    ensures var w := Run(EMPTY_WORLD, steps);
            var r := Run(w, Handles(|w.tokens|));
            && (forall q :: q in r.queues ==> r.queues[q].items == []) && (Known(w, e) ==> e in r.delivered)
  {
    FifoFromStart(steps);
    AllDelivered(Run(EMPTY_WORLD, steps), e);
  }
}

/** The queue, its notification list and the loop of Task, in the form of the source's classes. */
module EventQueueClasses {
  import opened EventQueues

  class Queue {
    const size: nat
    var items: seq<Event>

    constructor (size: nat)
      ensures this.size == size && items == []
    {
      this.size, items := size, [];
    }

    ghost function Value(): Bounded
      reads this
    {
      Bounded(size, items)
    }

    method Push(item: Event) returns (res: bool)
      modifies this`items
      ensures res == (|old(items)| < size) && Value() == Pushed(old(Value()), item)
    {
      res := |items| < size;
      if res {
        items := items + [item];
      }
    }

    method Pop() returns (res: bool, target: Event)
      modifies this`items
      ensures res == (old(items) != []) && Value() == Popped(old(Value()))
      ensures res ==> target == old(items)[0]
    {
      res := |items| > 0;
      target := Event(0, 0);
      if res {
        target := items[0];
        items := items[1..];
      }
    }
  }

  class Listener {
    var received: seq<Event>

    constructor ()
      ensures received == []
    {
      received := [];
    }

    method OnEvent(item: Event)
      modifies this
      ensures received == old(received) + [item]
    {
      received := received + [item];
    }
  }

  /** `alive` is false once the last owner is gone and only weak pointers are left. */
  class TaskEventQueue {
    const id: QueueId
    const queue: Queue
    const notif: QueueNotification
    const listener: Listener
    var alive: bool

    constructor (id: QueueId, size: nat, notif: QueueNotification, listener: Listener)
      ensures this.id == id && this.notif == notif && this.listener == listener && alive
      ensures fresh(queue) && queue.size == size && queue.items == []
    {
      this.id, this.notif, this.listener, alive := id, notif, listener, true;
      queue := new Queue(size);
    }

    /** push_internal */
    method Push(item: Event) returns (res: bool)
      modifies queue`items, notif
      ensures res == (|old(queue.items)| < queue.size) && queue.Value() == Pushed(old(queue.Value()), item)
      ensures notif.queues == if res then old(notif.queues) + [this] else old(notif.queues)
    {
      res := queue.Push(item);
      if res {
        notif.Notify(this);
      }
    }

    method ForwardToEventListener()
      modifies queue`items, listener
      ensures queue.Value() == Popped(old(queue.Value()))
      ensures listener.received
           == if old(queue.items) == [] then old(listener.received) else old(listener.received) + [old(queue.items)[0]]
    {
      var popped, m := queue.Pop();
      if popped {
        listener.OnEvent(m);
      }
    }

    /** clear(): pops until the queue is empty; the tokens stay. */
    method Clear()
      modifies queue`items
      ensures queue.items == []
    {
      while queue.items != []
        decreases |queue.items|
      {
        var _, _ := queue.Pop();
      }
    }
  }

  /** The tokens whose queue is still alive. */
  function Alive(tokens: seq<TaskEventQueue>): seq<TaskEventQueue>
    reads tokens
  {
    if tokens == [] then []
    else if tokens[0].alive then [tokens[0]] + Alive(tokens[1..])
    else Alive(tokens[1..])
  }

  lemma {:induction false} AliveAppend(tokens: seq<TaskEventQueue>, t: TaskEventQueue)
    ensures Alive(tokens + [t]) == if t.alive then Alive(tokens) + [t] else Alive(tokens)
  {
    if tokens == [] {
      assert [] + [t] == [t] && [t][1..] == [];
    } else {
      assert (tokens + [t])[1..] == tokens[1..] + [t];
      AliveAppend(tokens[1..], t);
    }
  }

  class QueueNotification {
    var queues: seq<TaskEventQueue>

    constructor ()
      ensures queues == []
    {
      queues := [];
    }

    method Notify(queue: TaskEventQueue)
      modifies this
      ensures queues == old(queues) + [queue]
    {
      queues := queues + [queue];
    }

    /** remove_if over the list. */
    method RemoveExpiredQueues()
      modifies this
      ensures queues == Alive(old(queues))
    {
      var kept: seq<TaskEventQueue> := [];
      var i := 0;
      while i < |queues|
        invariant i <= |queues| && queues == old(queues) && kept == Alive(queues[..i])
      {
        assert queues[..i + 1] == queues[..i] + [queues[i]];
        AliveAppend(queues[..i], queues[i]);
        if queues[i].alive {
          kept := kept + [queues[i]];
        }
        i := i + 1;
      }
      assert queues[..|queues|] == queues;
      queues := kept;
    }

    /** null stands for the empty pointer that a timeout returns. */
    method WaitForNotification() returns (res: TaskEventQueue?)
      modifies this
      ensures old(queues) == [] ==> res == null && queues == []
      ensures old(queues) != [] ==> res == old(queues)[0] && queues == old(queues)[1..]
    {
      res := null;
      if queues != [] {
        res := queues[0];
        queues := queues[1..];
      }
    }
  }

  function Ids(tokens: seq<TaskEventQueue>): (ids: seq<QueueId>)
    ensures |ids| == |tokens|
  {
    seq(|tokens|, i requires 0 <= i < |tokens| => tokens[i].id)
  }

  /** When one queue has expired, removing the expired tokens removes the tokens that name it. */
  lemma {:induction false} AliveIsWithout(tokens: seq<TaskEventQueue>, q: QueueId)
    requires forall i :: 0 <= i < |tokens| ==> (tokens[i].alive <==> tokens[i].id != q)
    ensures Ids(Alive(tokens)) == Without(Ids(tokens), q)
    ensures forall i :: 0 <= i < |Alive(tokens)| ==> Alive(tokens)[i] in tokens && Alive(tokens)[i].alive
  {
    if tokens != [] {
      assert Ids(tokens)[1..] == Ids(tokens[1..]);
      AliveIsWithout(tokens[1..], q);
      if tokens[0].alive {
        assert Ids(Alive(tokens)) == [tokens[0].id] + Ids(Alive(tokens[1..]));
      }
    }
  }

  class Task {
    const notification: QueueNotification
    var registered: map<QueueId, TaskEventQueue>
    var ticks: nat
    ghost var delivered: seq<Event>

    constructor ()
      ensures Valid() && World() == EventQueues.World(map[], [], []) && fresh(notification)
    {
      notification := new QueueNotification();
      registered, ticks, delivered := map[], 0, [];
    }

    ghost predicate ValidQueues()
      reads this, registered.Values
    {
      && (forall q :: q in registered ==>
            registered[q].id == q && registered[q].notif == notification && registered[q].alive)
      && (forall p, q :: p in registered && q in registered && p != q ==> registered[p].queue != registered[q].queue)
    }

    ghost predicate Named(tokens: seq<TaskEventQueue>)
      reads this
    {
      forall i :: 0 <= i < |tokens| ==> tokens[i].id in registered && registered[tokens[i].id] == tokens[i]
    }

    ghost predicate Valid()
      reads this, notification, registered.Values
    {
      ValidQueues() && Named(notification.queues)
    }

    ghost function Queues(): map<QueueId, Bounded>
      reads this, registered.Values, set q | q in registered :: registered[q].queue
    {
      map q | q in registered :: registered[q].queue.Value()
    }

    ghost function World(): World
      reads this, notification, registered.Values, set q | q in registered :: registered[q].queue
    {
      EventQueues.World(Queues(), Ids(notification.queues), delivered)
    }

    /** register_queue_with_task, for a new queue. */
    method Register(q: QueueId, size: nat, listener: Listener)
      requires Valid() && q !in registered
      modifies this`registered
      ensures Valid() && World() == Apply(old(World()), Create(q, size))
    {
      var queue := new TaskEventQueue(q, size, notification, listener);
      registered := registered[q := queue];
      assert forall i :: 0 <= i < |notification.queues| ==> Ids(notification.queues)[i] == notification.queues[i].id;
      assert Queues() == old(Queues())[q := Bounded(size, [])];
    }

    /** The queue is gone, its tokens are still there. */
    method Unregister(q: QueueId)
      requires Valid() && q in registered
      modifies this`registered, registered[q]
      ensures ValidQueues() && registered == map p | p in old(registered) && p != q :: old(registered)[p]
      ensures Queues() == Dropped(old(Queues()), q)
      ensures forall i :: 0 <= i < |notification.queues| ==>
                var t := notification.queues[i];
                (t.alive <==> t.id != q) && (t.id != q ==> t.id in registered && registered[t.id] == t)
    {
      registered[q].alive := false;
      registered := map p | p in registered && p != q :: registered[p];
    }

    /** The last owner of a queue goes: its destructor removes the expired tokens. */
    method DestroyQueue(q: QueueId)
      requires Valid() && q in registered
      modifies this`registered, registered[q], notification
      ensures Valid() && World() == Apply(old(World()), Destroy(q))
    {
      Unregister(q);
      AliveIsWithout(notification.queues, q);
      notification.RemoveExpiredQueues();
    }

    /** A push to one of this Task's queues. */
    method PushTo(q: QueueId, item: Event) returns (res: bool)
      requires Valid() && q in registered && item.queue == q
      modifies notification, registered[q].queue
      ensures Valid() && World() == Apply(old(World()), EventQueues.Push(item))
      ensures res == (|old(registered[q].queue.items)| < registered[q].queue.size)
    {
      var queue := registered[q];
      res := queue.Push(item);
      assert Queues() == old(Queues())[q := queue.queue.Value()];
      assert Ids(notification.queues) == old(Ids(notification.queues)) + if res then [q] else [];
    }

    /** The listener of the queue has received its oldest event. */
    twostate predicate HandedOn(queue: TaskEventQueue)
      reads queue.listener
    {
      queue.listener.received
      == old(queue.listener.received) + if old(queue.queue.items) == [] then [] else [old(queue.queue.items)[0]]
    }

    method Tick()
      modifies this`ticks
      ensures ticks == old(ticks) + 1
    {
      ticks := ticks + 1;
    }

    /** The event at the head of the queue that the token names goes to the listener. */
    method Forward(queue: TaskEventQueue)
      requires ValidQueues() && queue.id in registered && registered[queue.id] == queue
      modifies this`delivered, queue.queue, queue.listener
      ensures ValidQueues() && HandedOn(queue)
      ensures Queues() == old(Queues())[queue.id := Popped(old(queue.queue.Value()))]
      ensures old(queue.queue.items) == [] ==> Queues() == old(Queues())
      ensures delivered == old(delivered) + if old(queue.queue.items) == [] then [] else [old(queue.queue.items)[0]]
    {
      delivered := delivered + if queue.queue.items == [] then [] else [queue.queue.items[0]];
      queue.ForwardToEventListener();
    }

    method TakeToken() returns (queue: TaskEventQueue?)
      requires Valid()
      modifies notification
      ensures Valid() && Queues() == old(Queues())
      ensures old(notification.queues) == [] ==> queue == null && World() == old(World())
      ensures old(notification.queues) != [] ==>
                && queue == old(notification.queues)[0] && queue.id in registered && registered[queue.id] == queue
                && World().tokens == old(World()).tokens[1..] && old(World()).tokens[0] == queue.id
    {
      queue := notification.WaitForNotification();
      assert queue != null ==> Ids(notification.queues) == old(Ids(notification.queues))[1..];
    }

    /** One round of the loop, when no tick is due first: the first token is taken and one event of the queue it
        names is handed to its listener; without a token there is a tick. */
    method HandleNext()
      requires Valid()
      modifies this`ticks, this`delivered, notification,
               set q | q in registered :: registered[q].queue, set q | q in registered :: registered[q].listener
      ensures Valid() && World() == Apply(old(World()), Handle)
      ensures ticks == old(ticks) + if old(notification.queues) == [] then 1 else 0
      ensures old(notification.queues) != [] ==> HandedOn(old(notification.queues)[0])
    {
      var queue := TakeToken();
      if queue == null {
        Tick();
      } else {
        Forward(queue);
      }
    }
  }
}

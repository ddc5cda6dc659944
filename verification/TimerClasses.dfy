/** The timer and the timer service in the form of the source's classes. */
module TimerClasses {
  import opened TimerHeap
  import TimerModel

  /** `sent` are the times at which the timer has put an expiry event into its queue; the ghost fields record when it
      was armed and what has happened since. */
  class Timer {
    const repeating: bool
    var timerInterval: nat
    var expireTime: int
    ghost var armed: int
    ghost var steady: bool
    ghost var sent: seq<int>

    constructor (repeating: bool, interval: nat, now: int)
      ensures this.repeating == repeating && Value() == TimerModel.Timer(interval, repeating, now, now, false, [])
    {
      this.repeating, timerInterval, expireTime := repeating, interval, now;
      armed, steady, sent := now, false, [];
    }

    ghost function Value(): TimerModel.Timer
      reads this
    {
      TimerModel.Timer(timerInterval, repeating, expireTime, armed, steady, sent)
    }

    /** The event goes to the queue of the timer's owner. */
    method Expired(ghost now: int)
      modifies this`sent
      ensures Value() == old(Value()).(fired := old(sent) + [now])
    {
      sent := sent + [now];
    }

    method CalculateNextExecution(now: int)
      modifies this`expireTime
      ensures Value() == old(Value()).(expires := now + timerInterval)
    {
      expireTime := now + timerInterval;
    }
  }

  function Repeats(timers: seq<Timer>): seq<Timer> {
    if timers == [] then []
    else if timers[0].repeating then [timers[0]] + Repeats(timers[1..])
    else Repeats(timers[1..])
  }

  lemma {:induction false} RepeatsAppend(timers: seq<Timer>, t: Timer)
    ensures Repeats(timers + [t]) == if t.repeating then Repeats(timers) + [t] else Repeats(timers)
  {
    if timers == [] {
      assert [] + [t] == [t] && [t][1..] == [];
    } else {
      assert (timers + [t])[1..] == timers[1..] + [t];
      RepeatsAppend(timers[1..], t);
    }
  }

  /** The timers of the program as values. */
  ghost function Values(all: set<Timer>): map<Timer, TimerModel.Timer>
    reads all
  {
    map t | t in all :: t.Value()
  }

  /** The keys that the comparator looks up. */
  function KeysOf(all: set<Timer>): (keys: map<Timer, int>)
    reads all
    ensures keys == TimerModel.Keys(Values(all))
  {
    map t | t in all :: t.expireTime
  }

  class TimerService {
    var queue: seq<Timer>

    constructor ()
      ensures queue == []
    {
      queue := [];
    }

    ghost function Value(all: set<Timer>): TimerModel.Service<Timer>
      reads this, all
    {
      TimerModel.Service(Values(all), queue)
    }

    method Recalculate(timer: Timer, now: int, ghost all: set<Timer>)
      requires timer in all
      modifies timer`expireTime
      ensures Values(all) == old(Values(all))[timer := old(Values(all))[timer].(expires := now + timer.timerInterval)]
    {
      timer.CalculateNextExecution(now);
    }

    /** The timer starts: its histories begin anew. */
    ghost method Arm(timer: Timer, now: int, all: set<Timer>)
      requires timer in all
      modifies timer`armed, timer`steady, timer`sent
      ensures Values(all)
           == old(Values(all))[timer := old(Values(all))[timer].(armed := now, steady := true, fired := [])]
    {
      timer.armed, timer.steady, timer.sent := now, true, [];
    }

    method AddTimer(timer: Timer, now: int, all: set<Timer>)
      requires timer in all
      modifies this`queue, timer
      ensures Value(all) == TimerModel.Apply(old(Value(all)), TimerModel.Add(timer, now))
    {
      ghost var before := Values(all);
      Recalculate(timer, now, all);
      Arm(timer, now, all);
      assert Values(all) == before[timer := before[timer].(expires := now + before[timer].interval,
                                                           armed := now, steady := true, fired := [])];
      ghost var after := Values(all);
      queue := Push(KeysOf(all), queue, timer);
      assert Values(all) == after;
    }

    /** find_if on the vector, then erase. */
    method RemoveTimer(timer: Timer, ghost all: set<Timer>)
      modifies this`queue
      ensures Value(all) == TimerModel.Apply(old(Value(all)), TimerModel.Remove(timer))
    {
      var i := 0;
      while i < |queue| && queue[i] != timer
        invariant i <= |queue| && TimerModel.Find(queue, timer) == i + TimerModel.Find(queue[i..], timer)
      {
        assert queue[i..][1..] == queue[i + 1..];
        i := i + 1;
      }
      if i < |queue| {
        queue := queue[..i] + queue[i + 1..];
      }
    }

    /** One tick: fire what is due at the fixed now, then queue the repeating timers anew. */
    method Tick(now: int, clock: Timer -> int, all: set<Timer>)
      requires forall t :: t in queue ==> t in all
      modifies this`queue, all
      ensures Value(all) == TimerModel.DoTick(old(Value(all)), now, clock)
    {
      var processed := FireDue(now, all);
      Requeue(processed, clock, all);
    }

    /** The first timer of the queue fires and leaves the queue. */
    method FireTop(now: int, all: set<Timer>) returns (timer: Timer)
      requires queue != [] && queue[0] in all
      modifies this`queue, queue[0]
      ensures timer == old(queue)[0] && queue == Pop(KeysOf(all), old(queue)) && KeysOf(all) == old(KeysOf(all))
      ensures Values(all) == TimerModel.NotedOne(old(Values(all)), timer, now)
    {
      timer := queue[0];
      timer.Expired(now);
      queue := Pop(KeysOf(all), queue);
    }

    method FireDue(now: int, all: set<Timer>) returns (processed: seq<Timer>)
      requires forall t :: t in queue ==> t in all
      modifies this`queue, all
      ensures var before := old(Value(all));
              var due := TimerModel.Fire(TimerModel.Keys(before.timers), before.queue, now);
              && Value(all) == TimerModel.Service(TimerModel.Noted(before.timers, due.fired, now), due.queue)
              && processed == TimerModel.Repeating(before.timers, due.fired)
              && (forall i :: 0 <= i < |processed| ==> processed[i] in all)
    {
      ghost var before, at := Values(all), KeysOf(all);
      ghost var due := TimerModel.Fire(at, queue, now);
      ghost var fired: seq<Timer> := [];
      processed := [];
      ProgressStarts(all, queue, at, now);
      while queue != [] && now >= queue[0].expireTime
        invariant Progress(all, queue, fired, at, now, due)
        invariant KeysOf(all) == at && Values(all) == TimerModel.Noted(before, fired, now)
        invariant processed == Repeats(fired)
        decreases |queue|
      {
        ProgressStep(all, queue, fired, at, now, due);
        var timer := FireTop(now, all);
        NotedAppend(before, fired, now, timer);
        RepeatsAppend(fired, timer);
        fired := fired + [timer];
        if timer.repeating {
          processed := processed + [timer];
        }
      }
      ProgressEnds(all, queue, fired, at, now, due);
      FiredAll(before, all, fired);
    }

    method Requeue(processed: seq<Timer>, clock: Timer -> int, all: set<Timer>)
      requires forall i :: 0 <= i < |processed| ==> processed[i] in all
      modifies this`queue, all
      ensures Value(all) == TimerModel.Requeue(old(Value(all)), processed, clock)
    {
      var i := 0;
      while i < |processed|
        invariant i <= |processed|
        invariant TimerModel.Requeue(old(Value(all)), processed, clock)
               == TimerModel.Requeue(Value(all), processed[i..], clock)
      {
        assert processed[i..][0] == processed[i] && processed[i..][1..] == processed[i + 1..];
        RequeueTimer(processed[i], clock(processed[i]), clock, all);
        i := i + 1;
      }
    }

    method RequeueTimer(t: Timer, now: int, ghost clock: Timer -> int, all: set<Timer>)
      requires t in all && now == clock(t)
      modifies this`queue, t`expireTime
      ensures Value(all) == TimerModel.RequeueOne(old(Value(all)), t, clock)
    {
      Recalculate(t, now, all);
      ghost var after := Values(all);
      queue := Push(KeysOf(all), queue, t);
      assert Values(all) == after;
    }
  }

  lemma {:induction false} NotedAppend(timers: map<Timer, TimerModel.Timer>, fired: seq<Timer>, now: int, t: Timer)
    ensures TimerModel.Noted(timers, fired + [t], now)
         == TimerModel.NotedOne(TimerModel.Noted(timers, fired, now), t, now)
    decreases |fired|
  {
    if fired == [] {
      assert [] + [t] == [t] && [t][1..] == [];
    } else {
      assert (fired + [t])[1..] == fired[1..] + [t];
      NotedAppend(TimerModel.NotedOne(timers, fired[0], now), fired[1..], now, t);
    }
  }

  ghost function Prepend(fired: seq<Timer>, due: TimerModel.Due<Timer>): TimerModel.Due<Timer> {
    due.(fired := fired + due.fired)
  }

  /** The loop of the tick, seen from the value it computes. */
  ghost predicate Progress(all: set<Timer>, queue: seq<Timer>, fired: seq<Timer>, at: map<Timer, int>, now: int,
                           due: TimerModel.Due<Timer>)
  {
    && (forall t :: t in queue ==> t in all) && (forall t :: t in fired ==> t in all)
    && due == Prepend(fired, TimerModel.Fire(at, queue, now))
  }

  lemma {:induction false} ProgressStarts(all: set<Timer>, queue: seq<Timer>, at: map<Timer, int>, now: int)
    requires forall t :: t in queue ==> t in all
    ensures Progress(all, queue, [], at, now, TimerModel.Fire(at, queue, now))
  {
    assert [] + TimerModel.Fire(at, queue, now).fired == TimerModel.Fire(at, queue, now).fired;
  }

  lemma ProgressStep(all: set<Timer>, queue: seq<Timer>, fired: seq<Timer>, at: map<Timer, int>, now: int,
                     due: TimerModel.Due<Timer>)
    requires Progress(all, queue, fired, at, now, due) && queue != [] && Key(at, queue[0]) <= now
    ensures queue[0] in all && |Pop(at, queue)| < |queue|
    ensures Progress(all, Pop(at, queue), fired + [queue[0]], at, now, due)
  {
    var rest := Pop(at, queue);
    PopPermutes(at, queue);
    forall t | t in rest ensures t in queue {
      TimerModel.InMultiset(rest, t);
      TimerModel.InMultiset(queue, t);
    }
    var later := TimerModel.Fire(at, rest, now).fired;
    assert fired + ([queue[0]] + later) == (fired + [queue[0]]) + later;
  }

  lemma ProgressEnds(all: set<Timer>, queue: seq<Timer>, fired: seq<Timer>, at: map<Timer, int>, now: int,
                     due: TimerModel.Due<Timer>)
    requires Progress(all, queue, fired, at, now, due) && (queue == [] || Key(at, queue[0]) > now)
    ensures due == TimerModel.Due(fired, queue)
  {
    assert fired + [] == fired;
  }

  lemma {:induction false} FiredAll(before: map<Timer, TimerModel.Timer>, all: set<Timer>, fired: seq<Timer>)
    requires forall t :: t in fired ==> t in all
    requires forall t :: t in all ==> t in before && before[t].repeating == t.repeating
    ensures Repeats(fired) == TimerModel.Repeating(before, fired)
    ensures forall i :: 0 <= i < |Repeats(fired)| ==> Repeats(fired)[i] in all
    decreases |fired|
  {
    if fired != [] {
      assert fired[0] in fired && forall t :: t in fired[1..] ==> t in fired;
      FiredAll(before, all, fired[1..]);
    }
  }
}

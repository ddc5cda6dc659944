/** Timers and the service that fires them. */
module TimerModel {
  import opened TimerHeap

  /** `expires` is the key under which the timer is queued. Histories: when the timer was `armed` last, whether its
      interval has been the same since (`steady`), and the times at which it has `fired` since. */
  datatype Timer = Timer(interval: nat, repeating: bool, expires: int, armed: int, steady: bool, fired: seq<int>)

  /** The vector of the priority queue names timers. */
  datatype Service<!T> = Service(timers: map<T, Timer>, queue: seq<T>)

  /** Timer::start() is Remove and then Add, start(interval) is SetInterval before them, reset() is Remove twice and
      Add. A tick reads the clock once for what is due and again for each timer that it queues anew. */
  datatype Step<!T> =
    | SetInterval(timer: T, interval: nat)
    | Remove(timer: T)
    | Add(timer: T, now: int)
    | Tick(now: int, clock: T -> int)

  function Keys<T>(timers: map<T, Timer>): map<T, int> {
    map t | t in timers :: timers[t].expires
  }

  /** Where remove_timer finds the timer. */
  function Find<T(==)>(c: seq<T>, t: T): (i: nat)
    ensures i <= |c| && (i < |c| ==> c[i] == t) && t !in c[..i]
  {
    if c == [] || c[0] == t then 0
    else
      var i := Find(c[1..], t) + 1;
      assert c[..i] == [c[0]] + c[1..][..i - 1];
      i
  }

  function Removed<T(==)>(c: seq<T>, t: T): seq<T> {
    var i := Find(c, t);
    if i < |c| then Erase(c, i) else c
  }

  /** The timers that a tick fires at its fixed now, and what is left of the queue. */
  datatype Due<T> = Due(fired: seq<T>, queue: seq<T>)

  function Fire<T>(at: map<T, int>, c: seq<T>, now: int): Due<T>
    decreases |c|
  {
    if c == [] || Key(at, c[0]) > now then
      Due([], c)
    else
      PopPermutes(at, c);
      var later := Fire(at, Pop(at, c), now);
      Due([c[0]] + later.fired, later.queue)
  }

  function Repeating<T>(timers: map<T, Timer>, fired: seq<T>): seq<T> {
    if fired == [] then []
    else if fired[0] in timers && timers[fired[0]].repeating then [fired[0]] + Repeating(timers, fired[1..])
    else Repeating(timers, fired[1..])
  }

  function NotedOne<T>(timers: map<T, Timer>, t: T, now: int): map<T, Timer> {
    if t in timers then timers[t := timers[t].(fired := timers[t].fired + [now])] else timers
  }

  /** The fired timers with the time of this tick in their histories. */
  function Noted<T>(timers: map<T, Timer>, fired: seq<T>, now: int): map<T, Timer>
    decreases |fired|
  {
    if fired == [] then timers else Noted(NotedOne(timers, fired[0], now), fired[1..], now)
  }

  /** A processed timer gets its next expiry and is queued again. */
  function RequeueOne<T>(s: Service<T>, t: T, clock: T -> int): Service<T>
    requires t in s.timers
  {
    var timers := s.timers[t := s.timers[t].(expires := clock(t) + s.timers[t].interval)];
    Service(timers, Push(Keys(timers), s.queue, t))
  }

  function Requeue<T>(s: Service<T>, processed: seq<T>, clock: T -> int): Service<T>
    decreases |processed|
  {
    if processed == [] || processed[0] !in s.timers then
      s
    else
      Requeue(RequeueOne(s, processed[0], clock), processed[1..], clock)
  }

  function DoTick<T>(s: Service<T>, now: int, clock: T -> int): Service<T> {
    var due := Fire(Keys(s.timers), s.queue, now);
    Requeue(Service(Noted(s.timers, due.fired, now), due.queue), Repeating(s.timers, due.fired), clock)
  }

  function Apply<T>(s: Service<T>, step: Step<T>): Service<T> {
    match step
    case SetInterval(t, interval) =>
      if t in s.timers then s.(timers := s.timers[t := s.timers[t].(interval := interval, steady := false)]) else s
    case Remove(t) => s.(queue := Removed(s.queue, t))
    case Add(t, now) =>
      if t in s.timers then
        var timers := s.timers[t := s.timers[t].(expires := now + s.timers[t].interval,
                                                 armed := now, steady := true, fired := [])];
        Service(timers, Push(Keys(timers), s.queue, t))
      else
        s
    case Tick(now, clock) => DoTick(s, now, clock)
  }

  /** No two starts of one timer overlap: it is added only when it has been removed; and the clock does not run
      backwards during a tick. */
  predicate Allowed<T(==)>(s: Service<T>, step: Step<T>) {
    match step
    case Add(t, _) => t !in s.queue
    case Tick(now, clock) => forall i {:trigger s.queue[i]} :: 0 <= i < |s.queue| ==> clock(s.queue[i]) >= now
    case _ => true
  }

  ghost predicate Orderly<T>(s: Service<T>, steps: seq<Step<T>>)
    decreases |steps|
  {
    steps == [] || (Allowed(s, steps[0]) && Orderly(Apply(s, steps[0]), steps[1..]))
  }

  function Run<T>(s: Service<T>, steps: seq<Step<T>>): Service<T>
    decreases |steps|
  {
    if steps == [] then s else Run(Apply(s, steps[0]), steps[1..])
  }

  // ---------------------------------------------------------------------------------------------------
  // What one tick fires
  // ---------------------------------------------------------------------------------------------------

  /** Whatever the order of the queue: the loop ends; it fires only timers that are due, each as often as it is
      queued, and stops at one that is not. */
  lemma {:induction false} FiresOnlyDue<T>(at: map<T, int>, c: seq<T>, now: int)
    ensures var due := Fire(at, c, now);
            && multiset(due.fired) + multiset(due.queue) == multiset(c)
            && (forall i :: 0 <= i < |due.fired| ==> Key(at, due.fired[i]) <= now)
            && (due.queue != [] ==> Key(at, due.queue[0]) > now)
    decreases |c|
  {
    if c != [] && Key(at, c[0]) <= now {
      PopPermutes(at, c);
      FiresOnlyDue(at, Pop(at, c), now);
      var later := Fire(at, Pop(at, c), now);
      HeadAdds(c[0], later.fired, later.queue);
    }
  }

  lemma HeadAdds<T>(t: T, fired: seq<T>, queue: seq<T>)
    ensures multiset([t] + fired) + multiset(queue) == multiset{t} + (multiset(fired) + multiset(queue))
  {
  }

  ghost predicate InOrder<T>(at: map<T, int>, fired: seq<T>) {
    forall i, j :: 0 <= i < j < |fired| ==> Key(at, fired[i]) <= Key(at, fired[j])
  }

  lemma InOrderCons<T>(at: map<T, int>, t: T, fired: seq<T>)
    requires InOrder(at, fired) && forall j :: 0 <= j < |fired| ==> Key(at, t) <= Key(at, fired[j])
    ensures InOrder(at, [t] + fired)
  {
  }

  /** On a heap a tick fires exactly the timers that are due, in the order of their expiry, and leaves a heap. */
  lemma {:induction false} FiresAllDue<T>(at: map<T, int>, c: seq<T>, now: int)
    requires Heap(at, c)
    ensures var due := Fire(at, c, now);
            && Heap(at, due.queue)
            && (forall i :: 0 <= i < |due.queue| ==> Key(at, due.queue[i]) > now)
            && InOrder(at, due.fired)
    decreases |c|
  {
    if c == [] {
    } else if Key(at, c[0]) > now {
      forall i | 0 <= i < |c| ensures Key(at, c[i]) > now {
        TopIsFirst(at, c, i);
      }
    } else {
      var d := Pop(at, c);
      PopPermutes(at, c);
      PopHeap(at, c);
      FiresAllDue(at, d, now);
      FiresOnlyDue(at, d, now);
      TopBeforeLater(at, c, d, Fire(at, d, now));
      InOrderCons(at, c[0], Fire(at, d, now).fired);
    }
  }

  lemma TopBeforeLater<T>(at: map<T, int>, c: seq<T>, d: seq<T>, later: Due<T>)
    requires c != [] && Heap(at, c) && multiset(c) == multiset{c[0]} + multiset(d)
    requires multiset(later.fired) + multiset(later.queue) == multiset(d)
    ensures forall j :: 0 <= j < |later.fired| ==> Key(at, c[0]) <= Key(at, later.fired[j])
  {
    forall j | 0 <= j < |later.fired| ensures Key(at, c[0]) <= Key(at, later.fired[j]) {
      MemberOf(later.fired, later.queue, d, j);
      MemberOf(d, [c[0]], c, Index(d, later.fired[j]));
      TopIsFirst(at, c, Index(c, later.fired[j]));
    }
  }

  ghost function Index<T>(c: seq<T>, t: T): (i: nat)
    requires t in c
    ensures i < |c| && c[i] == t
  {
    var i :| 0 <= i < |c| && c[i] == t;
    i
  }

  lemma MemberOf<T>(part: seq<T>, other: seq<T>, all: seq<T>, i: nat)
    requires multiset(part) + multiset(other) == multiset(all) && i < |part|
    ensures part[i] in all
  {
    assert part[i] in multiset(part);
    assert part[i] in multiset(all);
  }

  // ---------------------------------------------------------------------------------------------------
  // Every run
  // ---------------------------------------------------------------------------------------------------

  /** No element is there twice. */
  ghost predicate Once<T>(c: seq<T>) {
    forall t :: t in c ==> multiset(c)[t] == 1
  }

  /** k intervals after arming. */
  function After(armed: int, interval: nat, k: nat): int {
    if k == 0 then armed else After(armed, interval, k - 1) + interval
  }

  lemma {:induction false} AfterIs(armed: int, interval: nat, k: nat)
    ensures After(armed, interval, k) == armed + k * interval
  {
    if k > 0 {
      AfterIs(armed, interval, k - 1);
    }
  }

  /** While its interval is not changed, a timer's k-th expiry comes no earlier than k intervals after arming, and
      as long as it is queued its key respects the next one. */
  ghost predicate OnTime(timer: Timer, queued: bool) {
    timer.steady ==>
      && (forall k :: 0 <= k < |timer.fired| ==> timer.fired[k] >= After(timer.armed, timer.interval, k + 1))
      && (queued ==> timer.expires >= After(timer.armed, timer.interval, |timer.fired| + 1))
  }

  ghost predicate Inv<T>(s: Service<T>) {
    && Once(s.queue) && (forall t :: t in s.queue ==> t in s.timers)
    && (forall t :: t in s.timers ==> OnTime(s.timers[t], t in s.queue))
  }

  lemma InMultiset<T>(c: seq<T>, t: T)
    ensures t in c <==> multiset(c)[t] > 0
  {
  }

  lemma PushedMember<T>(at: map<T, int>, c: seq<T>, t: T, u: T)
    ensures u in Push(at, c, t) <==> u in c || u == t
    ensures multiset(Push(at, c, t))[u] == multiset(c)[u] + if u == t then 1 else 0
  {
    PushPermutes(at, c, t);
    InMultiset(Push(at, c, t), u);
    InMultiset(c, u);
  }

  lemma PushedOnce<T>(at: map<T, int>, c: seq<T>, t: T)
    requires Once(c) && t !in c
    ensures Once(Push(at, c, t))
  {
    var d := Push(at, c, t);
    forall u | u in d ensures multiset(d)[u] == 1 {
      PushedMember(at, c, t, u);
      InMultiset(c, u);
    }
  }

  lemma RemovedMultiset<T>(c: seq<T>, t: T)
    requires t in c
    ensures multiset(c) == multiset(Removed(c, t)) + multiset{t}
  {
    var i := Find(c, t);
    assert c[..|c|] == c;
    assert c == c[..i] + [t] + c[i + 1..];
  }

  lemma RemovedOnce<T>(c: seq<T>, t: T)
    requires Once(c)
    ensures Once(Removed(c, t)) && forall u :: u in Removed(c, t) <==> u in c && u != t
  {
    var d := Removed(c, t);
    if t in c {
      RemovedMultiset(c, t);
      assert forall u :: multiset(d)[u] == if u == t then multiset(c)[u] - 1 else multiset(c)[u];
    } else {
      assert d == c;
    }
    assert forall u :: u in d <==> u in multiset(d);
  }

  lemma {:induction false} RequeuedQueue<T>(s: Service<T>, processed: seq<T>, clock: T -> int)
    requires forall i :: 0 <= i < |processed| ==> processed[i] in s.timers
    ensures multiset(Requeue(s, processed, clock).queue) == multiset(s.queue) + multiset(processed)
    decreases |processed|
  {
    if processed != [] {
      var s1 := RequeueOne(s, processed[0], clock);
      PushPermutes(Keys(s1.timers), s.queue, processed[0]);
      RequeuedQueue(s1, processed[1..], clock);
      assert processed == [processed[0]] + processed[1..];
    }
  }

  /** Only the processed timers get a new key. */
  lemma {:induction false} RequeuedTimer<T>(s: Service<T>, processed: seq<T>, clock: T -> int, t: T)
    requires Distinct(processed)
    requires forall i :: 0 <= i < |processed| ==> processed[i] in s.timers
    ensures var r := Requeue(s, processed, clock);
            && (t in r.timers <==> t in s.timers)
            && (t in s.timers ==>
                  r.timers[t] == if t in processed then s.timers[t].(expires := clock(t) + s.timers[t].interval)
                                 else s.timers[t])
    decreases |processed|
  {
    if processed != [] {
      RequeuedTimer(RequeueOne(s, processed[0], clock), processed[1..], clock, t);
      assert processed == [processed[0]] + processed[1..];
    }
  }

  lemma {:induction false} NotedKeys<T>(timers: map<T, Timer>, fired: seq<T>, now: int)
    ensures Keys(Noted(timers, fired, now)) == Keys(timers)
    ensures Noted(timers, fired, now).Keys == timers.Keys
    decreases |fired|
  {
    if fired != [] {
      NotedKeys(NotedOne(timers, fired[0], now), fired[1..], now);
    }
  }

  lemma {:induction false} NotedTimer<T>(timers: map<T, Timer>, fired: seq<T>, now: int, t: T)
    requires Distinct(fired) && t in timers
    ensures t in Noted(timers, fired, now)
    ensures Noted(timers, fired, now)[t]
         == if t in fired then timers[t].(fired := timers[t].fired + [now]) else timers[t]
    decreases |fired|
  {
    if fired != [] {
      NotedTimer(NotedOne(timers, fired[0], now), fired[1..], now, t);
      assert fired == [fired[0]] + fired[1..];
    }
  }

  lemma {:induction false} RepeatingMembers<T>(timers: map<T, Timer>, fired: seq<T>)
    requires Distinct(fired)
    ensures var r := Repeating(timers, fired);
            && (forall t :: t in r <==> t in fired && t in timers && timers[t].repeating)
            && Distinct(r) && forall i :: 0 <= i < |r| ==> r[i] in timers
    decreases |fired|
  {
    if fired != [] {
      RepeatingMembers(timers, fired[1..]);
      assert fired == [fired[0]] + fired[1..];
    }
  }

  lemma OnceIsDistinct<T>(c: seq<T>)
    requires Once(c)
    ensures Distinct(c)
  {
    forall i, j | 0 <= i < j < |c| ensures c[i] != c[j] {
      assert c == c[..i] + [c[i]] + c[i + 1..j] + [c[j]] + c[j + 1..];
      assert multiset(c)[c[i]] == 1;
    }
  }

  lemma DistinctIsOnce<T>(c: seq<T>)
    requires Distinct(c)
    ensures Once(c)
  {
    forall t | t in c ensures multiset(c)[t] == 1 {
      var i := Index(c, t);
      assert c == c[..i] + [c[i]] + c[i + 1..];
      assert t !in c[..i] && t !in c[i + 1..];
    }
  }

  lemma SplitOnce<T>(all: seq<T>, a: seq<T>, b: seq<T>, t: T)
    requires Once(all) && multiset(a) + multiset(b) == multiset(all)
    ensures (t in all <==> t in a || t in b) && (t in a ==> t !in b)
    ensures (t in a ==> multiset(a)[t] == 1) && (t in b ==> multiset(b)[t] == 1)
  {
    InMultiset(all, t);
    InMultiset(a, t);
    InMultiset(b, t);
    assert multiset(all)[t] == multiset(a)[t] + multiset(b)[t];
  }

  /** A queue without repetitions is split into fired timers and the rest. */
  lemma FiredOnce<T>(at: map<T, int>, c: seq<T>, now: int) returns (due: Due<T>)
    requires Once(c)
    ensures due == Fire(at, c, now) && multiset(due.fired) + multiset(due.queue) == multiset(c)
    ensures Once(due.fired) && Once(due.queue)
  {
    due := Fire(at, c, now);
    FiresOnlyDue(at, c, now);
    forall t | t in due.fired ensures multiset(due.fired)[t] == 1 {
      SplitOnce(c, due.fired, due.queue, t);
    }
    forall t | t in due.queue ensures multiset(due.queue)[t] == 1 {
      SplitOnce(c, due.fired, due.queue, t);
    }
  }

  /** The timers that a tick queues anew. */
  lemma AgainMembers<T>(timers: map<T, Timer>, c: seq<T>, now: int) returns (due: Due<T>, again: seq<T>)
    requires Once(c) && forall t :: t in c ==> t in timers
    ensures due == Fire(Keys(timers), c, now) && again == Repeating(timers, due.fired)
    ensures Once(due.fired) && Once(due.queue) && Once(again) && Distinct(again)
    ensures multiset(due.fired) + multiset(due.queue) == multiset(c)
    ensures forall i :: 0 <= i < |again| ==> again[i] in timers
    ensures forall t :: t in again <==> t in due.fired && t in timers && timers[t].repeating
  {
    due := FiredOnce(Keys(timers), c, now);
    again := Repeating(timers, due.fired);
    OnceIsDistinct(due.fired);
    RepeatingMembers(timers, due.fired);
    DistinctIsOnce(again);
  }

  /** After a tick a timer is queued if it was and has not fired or repeats. */
  lemma {:induction false} TickOnQueue<T>(s: Service<T>, now: int, clock: T -> int, t: T)
    requires Inv(s)
    ensures var r, fired := DoTick(s, now, clock), Fire(Keys(s.timers), s.queue, now).fired;
            && (t in fired ==> t in s.queue)
            && (t in r.queue <==> t in s.queue && (t in fired ==> s.timers[t].repeating))
            && (t in r.queue ==> multiset(r.queue)[t] == 1)
  {
    var due, again := AgainMembers(s.timers, s.queue, now);
    SplitOnce(s.queue, due.fired, due.queue, t);
    var noted := Service(Noted(s.timers, due.fired, now), due.queue);
    NotedKeys(s.timers, due.fired, now);
    RequeuedQueue(noted, again, clock);
    var r := Requeue(noted, again, clock);
    InMultiset(r.queue, t);
    InMultiset(due.queue, t);
    InMultiset(again, t);
    assert multiset(r.queue)[t] == multiset(due.queue)[t] + multiset(again)[t];
  }

  /** Fired timers were due and note the time; repeating ones get the next key. */
  lemma {:induction false} TickOnTimer<T>(s: Service<T>, now: int, clock: T -> int, t: T)
    requires Inv(s)
    ensures var r, fired := DoTick(s, now, clock), Fire(Keys(s.timers), s.queue, now).fired;
            && (t in r.timers <==> t in s.timers)
            && (t in fired && t in s.timers ==> s.timers[t].expires <= now)
            && (t in s.timers ==>
                  r.timers[t] == if t !in fired then s.timers[t]
                                 else if !s.timers[t].repeating then s.timers[t].(fired := s.timers[t].fired + [now])
                                 else s.timers[t].(fired := s.timers[t].fired + [now],
                                                   expires := clock(t) + s.timers[t].interval))
  {
    var due, again := AgainMembers(s.timers, s.queue, now);
    var noted := Service(Noted(s.timers, due.fired, now), due.queue);
    NotedKeys(s.timers, due.fired, now);
    RequeuedTimer(noted, again, clock, t);
    if t in s.timers {
      OnceIsDistinct(due.fired);
      NotedTimer(s.timers, due.fired, now, t);
    }
    if t in due.fired {
      FiresOnlyDue(Keys(s.timers), s.queue, now);
      assert Key(Keys(s.timers), due.fired[Index(due.fired, t)]) <= now;
    }
  }

  lemma TickKeepsOnTime(timer: Timer, now: int, later: int)
    requires OnTime(timer, true) && timer.expires <= now <= later
    ensures OnTime(timer.(fired := timer.fired + [now], expires := later + timer.interval), true)
    ensures OnTime(timer.(fired := timer.fired + [now]), false)
  {
    var k := |timer.fired|;
    assert After(timer.armed, timer.interval, k + 2) == After(timer.armed, timer.interval, k + 1) + timer.interval;
  }

  lemma TickKeeps<T>(s: Service<T>, now: int, clock: T -> int)
    requires Inv(s) && Allowed(s, Tick(now, clock))
    ensures Inv(DoTick(s, now, clock))
  {
    var r, fired := DoTick(s, now, clock), Fire(Keys(s.timers), s.queue, now).fired;
    forall t | t in r.queue ensures multiset(r.queue)[t] == 1 && t in r.timers {
      TickOnQueue(s, now, clock, t);
      TickOnTimer(s, now, clock, t);
    }
    forall t | t in r.timers ensures OnTime(r.timers[t], t in r.queue) {
      TickOnQueue(s, now, clock, t);
      TickOnTimer(s, now, clock, t);
      if t in fired {
        assert clock(s.queue[Index(s.queue, t)]) >= now;
        TickKeepsOnTime(s.timers[t], now, clock(t));
      }
    }
  }

  lemma AddKeeps<T>(s: Service<T>, t: T, now: int)
    requires Inv(s) && t !in s.queue
    ensures Inv(Apply(s, Add(t, now)))
  {
    if t in s.timers {
      var r := Apply(s, Add(t, now));
      assert r.queue == Push(Keys(r.timers), s.queue, t);
      PushedOnce(Keys(r.timers), s.queue, t);
      forall u | u in r.queue ensures u in r.timers {
        PushedMember(Keys(r.timers), s.queue, t, u);
      }
      forall u | u in r.timers ensures OnTime(r.timers[u], u in r.queue) {
        PushedMember(Keys(r.timers), s.queue, t, u);
      }
      assert After(now, s.timers[t].interval, 1) == After(now, s.timers[t].interval, 0) + s.timers[t].interval;
    }
  }

  lemma StepKeeps<T>(s: Service<T>, step: Step<T>)
    requires Inv(s) && Allowed(s, step)
    ensures Inv(Apply(s, step))
  {
    match step
    case SetInterval(t, interval) =>
    case Remove(t) => RemovedOnce(s.queue, t);
    case Add(t, now) => AddKeeps(s, t, now);
    case Tick(now, clock) => TickKeeps(s, now, clock);
  }

  /** In every run in which no two starts of one timer overlap. */
  lemma {:induction false} RunKeeps<T>(s: Service<T>, steps: seq<Step<T>>)
    requires Inv(s) && Orderly(s, steps)
    ensures Inv(Run(s, steps))
    decreases |steps|
  {
    if steps != [] {
      StepKeeps(s, steps[0]);
      RunKeeps(Apply(s, steps[0]), steps[1..]);
    }
  }

  /** The k-th expiry since arming never comes before arming time + k * interval. */
  lemma {:induction false} NeverEarly<T>(s: Service<T>, steps: seq<Step<T>>, t: T, k: nat)
    requires Inv(s) && Orderly(s, steps) && t in Run(s, steps).timers
    ensures var timer := Run(s, steps).timers[t];
            timer.steady && 1 <= k <= |timer.fired| ==> timer.fired[k - 1] >= timer.armed + k * timer.interval
  {
    RunKeeps(s, steps);
    var timer := Run(s, steps).timers[t];
    assert OnTime(timer, t in Run(s, steps).queue);
    AfterIs(timer.armed, timer.interval, k);
  }

  /** A queued timer's key changes only in a tick that takes it out of the queue first. */
  lemma KeyFixedWhileQueued<T>(s: Service<T>, step: Step<T>, t: T)
    requires Inv(s) && Allowed(s, step) && t in s.queue
    ensures t in s.timers && t in Apply(s, step).timers
    ensures Apply(s, step).timers[t].expires == s.timers[t].expires
            || (step.Tick? && t in Fire(Keys(s.timers), s.queue, step.now).fired)
  {
    if step.Tick? {
      TickOnTimer(s, step.now, step.clock, t);
    }
  }

  predicate NoStart<T(==)>(steps: seq<Step<T>>, t: T) {
    forall i :: 0 <= i < |steps| ==> !(steps[i].Add? && steps[i].timer == t)
  }

  lemma StaysOut<T>(s: Service<T>, step: Step<T>, t: T)
    requires Inv(s) && Allowed(s, step) && t !in s.queue && t in s.timers && !(step.Add? && step.timer == t)
    ensures t !in Apply(s, step).queue && t in Apply(s, step).timers
    ensures Apply(s, step).timers[t].fired == s.timers[t].fired
  {
    match step
    case SetInterval(u, interval) =>
    case Remove(u) => RemovedOnce(s.queue, u);
    case Add(u, now) =>
      if u in s.timers {
        var r := Apply(s, step);
        assert r.queue == Push(Keys(r.timers), s.queue, u);
        PushedMember(Keys(r.timers), s.queue, u, t);
      }
    case Tick(now, clock) =>
      TickOnQueue(s, now, clock, t);
      TickOnTimer(s, now, clock, t);
  }

  lemma {:induction false} SilentRun<T>(s: Service<T>, steps: seq<Step<T>>, t: T)
    requires Inv(s) && Orderly(s, steps) && NoStart(steps, t) && t !in s.queue && t in s.timers
    ensures t in Run(s, steps).timers && Run(s, steps).timers[t].fired == s.timers[t].fired
    decreases |steps|
  {
    if steps != [] {
      StaysOut(s, steps[0], t);
      StepKeeps(s, steps[0]);
      SilentRun(Apply(s, steps[0]), steps[1..], t);
    }
  }

  /** Once stopped, a timer does not fire until it is started again. */
  lemma {:induction false} SilentAfterStop<T>(s: Service<T>, steps: seq<Step<T>>, t: T)
    requires Inv(s) && t in s.timers && Orderly(Apply(s, Remove(t)), steps) && NoStart(steps, t)
    ensures var r := Run(Apply(s, Remove(t)), steps);
            t in r.timers && r.timers[t].fired == s.timers[t].fired
  {
    RemovedOnce(s.queue, t);
    StepKeeps(s, Remove(t));
    SilentRun(Apply(s, Remove(t)), steps, t);
  }

  // ---------------------------------------------------------------------------------------------------
  // Order
  // ---------------------------------------------------------------------------------------------------

  ghost predicate InHeapOrder<T>(s: Service<T>) {
    Heap(Keys(s.timers), s.queue)
  }

  /** Removals that leave a heap: the timer is not queued, or every timer behind it fits where it moves to. */
  predicate Harmless<T(==)>(s: Service<T>, step: Step<T>) {
    step.Remove? ==>
      var i := Find(s.queue, step.timer);
      i == |s.queue| || ShiftFits(Keys(s.timers), s.queue, i)
  }

  /** The heap looks only at the keys of its elements. */
  lemma SameKeys<T>(at: map<T, int>, at': map<T, int>, c: seq<T>)
    requires Heap(at, c) && forall i :: 0 <= i < |c| ==> Key(at, c[i]) == Key(at', c[i])
    ensures Heap(at', c)
  {
    forall i | 0 < i < |c| ensures Ordered(at', c, i) {
      assert Ordered(at, c, i);
    }
  }

  lemma RequeueOneOrdered<T>(s: Service<T>, t: T, clock: T -> int)
    requires InHeapOrder(s) && t in s.timers && t !in s.queue
    ensures InHeapOrder(RequeueOne(s, t, clock))
  {
    var r := RequeueOne(s, t, clock);
    SameKeys(Keys(s.timers), Keys(r.timers), s.queue);
    PushHeap(Keys(r.timers), s.queue, t);
  }

  lemma {:induction false} RequeueOrdered<T>(s: Service<T>, processed: seq<T>, clock: T -> int)
    requires InHeapOrder(s) && Distinct(processed)
    requires forall i :: 0 <= i < |processed| ==> processed[i] in s.timers && processed[i] !in s.queue
    ensures InHeapOrder(Requeue(s, processed, clock))
    decreases |processed|
  {
    if processed != [] {
      var s1 := RequeueOne(s, processed[0], clock);
      RequeueOneOrdered(s, processed[0], clock);
      PushPermutes(Keys(s1.timers), s.queue, processed[0]);
      forall i | 0 <= i < |processed[1..]| ensures processed[1..][i] !in s1.queue {
        InMultiset(s1.queue, processed[1..][i]);
        InMultiset(s.queue, processed[1..][i]);
      }
      RequeueOrdered(s1, processed[1..], clock);
    }
  }

  /** The tick fires exactly the due timers, in the order of their expiry and each once. */
  ghost predicate ExactTick<T>(s: Service<T>, now: int) {
    var fired := Fire(Keys(s.timers), s.queue, now).fired;
    && Distinct(fired)
    && (forall t :: t in fired ==> t in s.queue && t in s.timers && s.timers[t].expires <= now)
    && (forall t :: t in s.queue && t in s.timers && s.timers[t].expires <= now ==> t in fired)
    && (forall i, j :: 0 <= i < j < |fired| && fired[i] in s.timers && fired[j] in s.timers ==>
          s.timers[fired[i]].expires <= s.timers[fired[j]].expires)
  }

  /** On a heap a tick is exact, and it keeps the heap. */
  lemma TickInOrder<T>(s: Service<T>, now: int, clock: T -> int)
    requires Inv(s) && InHeapOrder(s)
    ensures ExactTick(s, now) && InHeapOrder(DoTick(s, now, clock))
  {
    var at := Keys(s.timers);
    var due, again := AgainMembers(s.timers, s.queue, now);
    FiresAllDue(at, s.queue, now);
    OnceIsDistinct(due.fired);
    forall t ensures t in due.fired <==> t in s.queue && t in s.timers && s.timers[t].expires <= now {
      SplitOnce(s.queue, due.fired, due.queue, t);
      TickOnTimer(s, now, clock, t);
      if t in due.queue {
        assert Key(at, due.queue[Index(due.queue, t)]) > now;
      }
    }
    var noted := Service(Noted(s.timers, due.fired, now), due.queue);
    NotedKeys(s.timers, due.fired, now);
    SameKeys(at, Keys(noted.timers), due.queue);
    forall i | 0 <= i < |again| ensures again[i] !in due.queue {
      assert again[i] in again;
      SplitOnce(s.queue, due.fired, due.queue, again[i]);
    }
    RequeueOrdered(noted, again, clock);
  }

  lemma StepKeepsOrder<T>(s: Service<T>, step: Step<T>)
    requires Inv(s) && InHeapOrder(s) && Allowed(s, step) && Harmless(s, step)
    ensures InHeapOrder(Apply(s, step))
  {
    var r := Apply(s, step);
    match step
    case SetInterval(t, interval) => SameKeys(Keys(s.timers), Keys(r.timers), s.queue);
    case Remove(t) =>
      if Find(s.queue, t) < |s.queue| {
        EraseKeepsHeap(Keys(s.timers), s.queue, Find(s.queue, t));
      }
    case Add(t, now) =>
      if t in s.timers {
        SameKeys(Keys(s.timers), Keys(r.timers), s.queue);
        PushHeap(Keys(r.timers), s.queue, t);
      }
    case Tick(now, clock) => TickInOrder(s, now, clock);
  }

  ghost predicate AllHarmless<T>(s: Service<T>, steps: seq<Step<T>>)
    decreases |steps|
  {
    steps == [] || (Harmless(s, steps[0]) && AllHarmless(Apply(s, steps[0]), steps[1..]))
  }

  /** Every tick of the run fires exactly the timers that are due. */
  ghost predicate ExactTicks<T>(s: Service<T>, steps: seq<Step<T>>)
    decreases |steps|
  {
    steps == []
    || ((steps[0].Tick? ==> ExactTick(s, steps[0].now)) && ExactTicks(Apply(s, steps[0]), steps[1..]))
  }

  /** While every removed timer leaves the others where they fit, each tick of a run fires exactly the timers that
      are due. */
  lemma {:induction false} RunInOrder<T>(s: Service<T>, steps: seq<Step<T>>)
    requires Inv(s) && InHeapOrder(s) && Orderly(s, steps) && AllHarmless(s, steps)
    ensures ExactTicks(s, steps)
    ensures Inv(Run(s, steps)) && InHeapOrder(Run(s, steps))
    decreases |steps|
  {
    if steps != [] {
      if steps[0].Tick? {
        TickInOrder(s, steps[0].now, steps[0].clock);
      }
      StepKeeps(s, steps[0]);
      StepKeepsOrder(s, steps[0]);
      RunInOrder(Apply(s, steps[0]), steps[1..]);
    }
  }

  /** Timers that have been created and not started, as every run begins. */
  ghost predicate Unstarted<T>(s: Service<T>) {
    s.queue == [] && forall t :: t in s.timers ==> s.timers[t].fired == []
  }

  lemma StartHolds<T>(s: Service<T>)
    requires Unstarted(s)
    ensures Inv(s) && InHeapOrder(s)
  {
  }
}

/** When a timer fires: its key is exactly its arming time plus the interval set last, and the first tick at or after
    it fires the timer. */
module TimerDeadlines {
  import opened TimerHeap
  import opened TimerModel

  // ---------------------------------------------------------------------------------------------------
  // The key of a started timer
  // ---------------------------------------------------------------------------------------------------

  /** While its interval has not been changed since, a queued timer that has not fired since it was armed is queued
      for one interval after that. */
  predicate ExactKey(timer: Timer, queued: bool) {
    timer.steady && queued && timer.fired == [] ==> timer.expires == timer.armed + timer.interval
  }

  ghost predicate KeyLaw<T>(s: Service<T>) {
    forall t :: t in s.timers ==> ExactKey(s.timers[t], t in s.queue)
  }

  lemma StepKeepsKeys<T>(s: Service<T>, step: Step<T>)
    requires Inv(s) && KeyLaw(s) && Allowed(s, step)
    ensures KeyLaw(Apply(s, step))
  {
    var r := Apply(s, step);
    forall t | t in r.timers ensures ExactKey(r.timers[t], t in r.queue) {
      match step
      case SetInterval(_, _) =>
      case Remove(u) => RemovedOnce(s.queue, u);
      case Add(u, _) =>
        if u in s.timers {
          PushedMember(Keys(r.timers), s.queue, u, t);
        }
      case Tick(now, clock) =>
        TickOnQueue(s, now, clock, t);
        TickOnTimer(s, now, clock, t);
    }
  }

  /** In every run in which no two starts of one timer overlap. */
  lemma {:induction false} RunKeepsKeys<T>(s: Service<T>, steps: seq<Step<T>>)
    requires Inv(s) && KeyLaw(s) && Orderly(s, steps)
    ensures KeyLaw(Run(s, steps))
    decreases |steps|
  {
    if steps != [] {
      StepKeepsKeys(s, steps[0]);
      StepKeeps(s, steps[0]);
      RunKeepsKeys(Apply(s, steps[0]), steps[1..]);
    }
  }

  lemma {:induction false} KeysFromStart<T>(s: Service<T>, steps: seq<Step<T>>)
    requires Unstarted(s) && Orderly(s, steps)
    ensures KeyLaw(Run(s, steps))
  {
    StartHolds(s);
    RunKeepsKeys(s, steps);
  }

  // ---------------------------------------------------------------------------------------------------
  // Waiting for a key
  // ---------------------------------------------------------------------------------------------------

  /** Queued under this key. */
  predicate WaitsFor<T(==)>(s: Service<T>, t: T, due: int, fired: seq<int>) {
    t in s.queue && t in s.timers && s.timers[t].expires == due && s.timers[t].fired == fired
  }

  /** No stop of the timer, and no tick at or after `due`. */
  predicate Before<T(==)>(steps: seq<Step<T>>, t: T, due: int) {
    forall i :: 0 <= i < |steps| ==>
      !(steps[i].Remove? && steps[i].timer == t) && !(steps[i].Tick? && steps[i].now >= due)
  }

  lemma StepKeepsWaiting<T>(s: Service<T>, step: Step<T>, t: T, due: int, fired: seq<int>)
    requires Inv(s) && Allowed(s, step) && WaitsFor(s, t, due, fired)
    requires !(step.Remove? && step.timer == t) && !(step.Tick? && step.now >= due)
    ensures WaitsFor(Apply(s, step), t, due, fired)
  {
    var r := Apply(s, step);
    match step
    case SetInterval(_, _) =>
    case Remove(u) => RemovedOnce(s.queue, u);
    case Add(u, _) =>
      if u in s.timers {
        PushedMember(Keys(r.timers), s.queue, u, t);
      }
    case Tick(now, clock) =>
      TickOnQueue(s, now, clock, t);
      TickOnTimer(s, now, clock, t);
  }

  lemma {:induction false} RunKeepsWaiting<T>(s: Service<T>, steps: seq<Step<T>>, t: T, due: int, fired: seq<int>)
    requires Inv(s) && Orderly(s, steps) && WaitsFor(s, t, due, fired) && Before(steps, t, due)
    ensures WaitsFor(Run(s, steps), t, due, fired)
    decreases |steps|
  {
    if steps != [] {
      StepKeepsWaiting(s, steps[0], t, due, fired);
      StepKeeps(s, steps[0]);
      assert forall i :: 0 <= i < |steps[1..]| ==> steps[1..][i] == steps[i + 1];
      RunKeepsWaiting(Apply(s, steps[0]), steps[1..], t, due, fired);
    }
  }

  /** The first tick at or after its key fires a timer that has not been stopped, and no tick before it does. */
  lemma {:induction false} FiresWhenDue<T>(s: Service<T>, steps: seq<Step<T>>, t: T, due: int, now: int,
                                           clock: T -> int)
    requires Inv(s) && InHeapOrder(s) && Orderly(s, steps) && AllHarmless(s, steps)
    requires t in s.queue && t in s.timers && s.timers[t].expires == due && Before(steps, t, due) && now >= due
    ensures var r := Run(s, steps);
            && t in r.timers && r.timers[t].fired == s.timers[t].fired
            && t in Fire(Keys(r.timers), r.queue, now).fired
            && t in DoTick(r, now, clock).timers
            && DoTick(r, now, clock).timers[t].fired == s.timers[t].fired + [now]
  {
    RunKeepsWaiting(s, steps, t, due, s.timers[t].fired);
    RunInOrder(s, steps);
    var r := Run(s, steps);
    TickInOrder(r, now, clock);
    TickOnTimer(r, now, clock, t);
  }

  /** start(interval) at time a. */
  function Restarted<T>(s: Service<T>, t: T, interval: nat, a: int): Service<T> {
    Apply(Apply(Apply(s, SetInterval(t, interval)), Remove(t)), Add(t, a))
  }

  lemma RestartedWaits<T>(s: Service<T>, t: T, interval: nat, a: int)
    requires Inv(s) && InHeapOrder(s) && t in s.timers && Harmless(s, Remove(t))
    ensures var r := Restarted(s, t, interval, a);
            Inv(r) && InHeapOrder(r) && WaitsFor(r, t, a + interval, [])
  {
    var s0 := Apply(s, SetInterval(t, interval));
    var s1 := Apply(s0, Remove(t));
    StepKeeps(s, SetInterval(t, interval));
    StepKeepsOrder(s, SetInterval(t, interval));
    assert Keys(s0.timers) == Keys(s.timers);
    StepKeeps(s0, Remove(t));
    StepKeepsOrder(s0, Remove(t));
    RemovedOnce(s0.queue, t);
    StepKeeps(s1, Add(t, a));
    StepKeepsOrder(s1, Add(t, a));
    PushedMember(Keys(Apply(s1, Add(t, a)).timers), s1.queue, t, t);
  }

  /** Unless the timer is stopped, it fires in the first tick at or after a + interval, and in none before. */
  lemma {:induction false} FiresAfterStart<T>(s: Service<T>, t: T, interval: nat, a: int, steps: seq<Step<T>>,
                                              now: int, clock: T -> int)
    requires Inv(s) && InHeapOrder(s) && t in s.timers && Harmless(s, Remove(t)) && now >= a + interval
    requires var r := Restarted(s, t, interval, a);
             Orderly(r, steps) && AllHarmless(r, steps) && Before(steps, t, a + interval)
    ensures var r := Run(Restarted(s, t, interval, a), steps);
            && t in r.timers && r.timers[t].fired == []
            && t in Fire(Keys(r.timers), r.queue, now).fired
            && t in DoTick(r, now, clock).timers && DoTick(r, now, clock).timers[t].fired == [now]
  {
    RestartedWaits(s, t, interval, a);
    FiresWhenDue(Restarted(s, t, interval, a), steps, t, a + interval, now, clock);
  }

  /** A timer that fires is queued again exactly if it repeats, for one interval after the time at which it is
      queued. */
  lemma {:induction false} FiredAgain<T>(s: Service<T>, now: int, clock: T -> int, t: T)
    requires Inv(s) && t in Fire(Keys(s.timers), s.queue, now).fired
    ensures t in s.timers && t in s.queue
    ensures var r := DoTick(s, now, clock);
            && (t in r.queue <==> s.timers[t].repeating)
            && (s.timers[t].repeating ==>
                  WaitsFor(r, t, clock(t) + s.timers[t].interval, s.timers[t].fired + [now]))
  {
    TickOnQueue(s, now, clock, t);
    TickOnTimer(s, now, clock, t);
  }
}

/** The event queues of one Task under any number of pushing threads: putting an event into its queue and adding the
    token are two critical sections, and so are taking a token and popping the event. */
module EventThreads {
  import opened EventQueues

  /** Queues are numbered; `items` counts the events of each. `pushing` holds the queues of the pushes that have put
      their event in but not yet added the token, `handling` the queue of the token that the Task has taken.
      Histories: `cleared` events removed by clear(), `idle` forwards that found the queue empty. */
  datatype System = System(sizes: seq<nat>, items: seq<nat>, tokens: seq<nat>, pushing: seq<nat>, handling: seq<nat>,
                           cleared: seq<nat>, idle: seq<nat>)

  datatype Step =
    | Put(queue: nat)
    | Notify(thread: nat)
    | Take
    | Forward
    | ClearOne(queue: nat)

  function None(n: nat): (r: seq<nat>)
    ensures |r| == n
  {
    seq(n, _ => 0)
  }

  function Start(sizes: seq<nat>): System {
    System(sizes, None(|sizes|), [], [], [], None(|sizes|), None(|sizes|))
  }

  function RemoveAt(s: seq<nat>, i: nat): seq<nat>
    requires i < |s|
  {
    s[..i] + s[i + 1..]
  }

  predicate Shaped(s: System) {
    |s.items| == |s.cleared| == |s.idle| == |s.sizes| && |s.handling| <= 1
  }

  function Apply(s: System, step: Step): System
    requires Shaped(s)
  {
    match step
    case Put(q) =>
      if q < |s.sizes| && s.items[q] < s.sizes[q] then
        s.(items := s.items[q := s.items[q] + 1], pushing := s.pushing + [q])
      else
        s
    case Notify(i) =>
      if i < |s.pushing| then s.(pushing := RemoveAt(s.pushing, i), tokens := s.tokens + [s.pushing[i]]) else s
    case Take =>
      if s.tokens != [] && s.handling == [] then s.(tokens := s.tokens[1..], handling := [s.tokens[0]]) else s
    case Forward =>
      if s.handling == [] || s.handling[0] >= |s.sizes| then
        s
      else
        var q := s.handling[0];
        if s.items[q] > 0 then s.(items := s.items[q := s.items[q] - 1], handling := [])
        else s.(idle := s.idle[q := s.idle[q] + 1], handling := [])
    case ClearOne(q) =>
      if q < |s.sizes| && s.items[q] > 0 then
        s.(items := s.items[q := s.items[q] - 1], cleared := s.cleared[q := s.cleared[q] + 1])
      else
        s
  }

  ghost function Run(s: System, steps: seq<Step>): System
    requires Inv(s)
    decreases |steps|
  {
    if steps == [] then s else StepKeeps(s, steps[0]); Run(Apply(s, steps[0]), steps[1..])
  }

  // ---------------------------------------------------------------------------------------------------
  // The balance of every queue
  // ---------------------------------------------------------------------------------------------------

  /** Tokens of the queue, wherever they are: in the list, about to be added, or being handled. */
  function Due(s: System, q: nat): nat {
    Count(s.tokens, q) + Count(s.pushing, q) + Count(s.handling, q)
  }

  /** Events and cleared events of a queue equal its tokens and its idle forwards. */
  ghost predicate Balance(s: System, q: nat)
    requires Shaped(s) && q < |s.sizes|
  {
    s.items[q] + s.cleared[q] == Due(s, q) + s.idle[q] && s.idle[q] <= s.cleared[q] && s.items[q] <= s.sizes[q]
  }

  ghost predicate Below(tokens: seq<nat>, n: nat) {
    forall i :: 0 <= i < |tokens| ==> tokens[i] < n
  }

  ghost predicate Inv(s: System) {
    && Shaped(s) && Below(s.tokens, |s.sizes|) && Below(s.pushing, |s.sizes|) && Below(s.handling, |s.sizes|)
    && forall q :: 0 <= q < |s.sizes| ==> Balance(s, q)
  }

  lemma {:induction false} CountAdd(a: seq<nat>, b: seq<nat>, q: nat)
    ensures Count(a + b, q) == Count(a, q) + Count(b, q)
    decreases |a|
  {
    if a == [] {
      assert a + b == b;
    } else {
      assert (a + b)[1..] == a[1..] + b;
      CountAdd(a[1..], b, q);
    }
  }

  lemma {:induction false} CountRemoved(s: seq<nat>, i: nat, q: nat)
    requires i < |s|
    ensures Count(s, q) == Count(RemoveAt(s, i), q) + Count([s[i]], q)
  {
    assert s == s[..i] + ([s[i]] + s[i + 1..]);
    CountAdd(s[..i], [s[i]] + s[i + 1..], q);
    CountAdd([s[i]], s[i + 1..], q);
    CountAdd(s[..i], s[i + 1..], q);
  }

  /** The step keeps each queue's balance. */
  lemma BalanceKept(s: System, step: Step, q: nat)
    requires Inv(s) && q < |s.sizes|
    ensures Shaped(Apply(s, step)) && Balance(Apply(s, step), q)
  {
    assert Balance(s, q);
    match step
    case Put(p) => CountAdd(s.pushing, [p], q);
    case Notify(i) =>
      if i < |s.pushing| {
        CountRemoved(s.pushing, i, q);
        CountAdd(s.tokens, [s.pushing[i]], q);
      }
    case Take =>
      if s.tokens != [] {
        CountRemoved(s.tokens, 0, q);
        assert RemoveAt(s.tokens, 0) == s.tokens[1..];
      }
    case Forward =>
      if s.handling != [] {
        assert s.handling[1..] == [];
      }
    case ClearOne(p) =>
  }

  lemma StepKeeps(s: System, step: Step)
    requires Inv(s)
    ensures Inv(Apply(s, step))
  {
    forall q | 0 <= q < |s.sizes| ensures Balance(Apply(s, step), q) {
      BalanceKept(s, step, q);
    }
  }

  lemma {:induction false} RunKeeps(s: System, steps: seq<Step>)
    requires Inv(s)
    ensures Inv(Run(s, steps)) && Run(s, steps).sizes == s.sizes
    decreases |steps|
  {
    if steps != [] {
      StepKeeps(s, steps[0]);
      RunKeeps(Apply(s, steps[0]), steps[1..]);
    }
  }

  lemma StartHolds(sizes: seq<nat>)
    ensures Inv(Start(sizes))
  {
  }

  /** In every run no event is stranded: each one has a token of its queue that is listed, about to be listed, or
      being handled; and when no step but a push is possible, all queues are empty. */
  lemma {:induction false} NoStrandedEvent(sizes: seq<nat>, steps: seq<Step>, q: nat)
    requires q < |sizes|
    ensures Inv(Start(sizes))
    ensures var s := Run(Start(sizes), steps);
            && Inv(s) && s.sizes == sizes
            && s.items[q] <= Due(s, q)
            && (s.tokens == s.pushing == s.handling == [] ==> s.items[q] == 0)
  {
    StartHolds(sizes);
    RunKeeps(Start(sizes), steps);
    assert Balance(Run(Start(sizes), steps), q);
  }

  // ---------------------------------------------------------------------------------------------------
  // Every event can be handled
  // ---------------------------------------------------------------------------------------------------

  /** How much the Task and the pushing threads still have to do. */
  function Work(s: System): nat {
    3 * |s.pushing| + 2 * |s.tokens| + |s.handling|
  }

  /** One of them can take a step, and then there is less to do. */
  lemma OneStep(s: System) returns (step: Step)
    requires Inv(s) && Work(s) > 0
    ensures !step.Put? && !step.ClearOne?
    ensures var r := Apply(s, step); Work(r) < Work(s) && r.cleared == s.cleared && r.sizes == s.sizes
  {
    step := if s.handling != [] then Forward else if s.tokens != [] then Take else Notify(0);
    assert s.handling != [] ==> s.handling[0] < |s.sizes|;
  }

  /** From any state of any run, clear() included, the threads can add their tokens and the Task can take them, without
      another push or clear(), until all queues are empty. */
  lemma {:induction false} EveryEventCanBeHandled(s: System) returns (steps: seq<Step>)
    requires Inv(s)
    ensures forall i :: 0 <= i < |steps| ==> !steps[i].Put? && !steps[i].ClearOne?
    ensures var r := Run(s, steps);
            && r.tokens == r.pushing == r.handling == [] && r.cleared == s.cleared && |r.items| == |s.items|
            && forall q :: 0 <= q < |r.items| ==> r.items[q] == 0
    decreases Work(s)
  {
    if Work(s) == 0 {
      steps := [];
      forall q | 0 <= q < |s.items| ensures s.items[q] == 0 {
        assert Balance(s, q) && Count(s.tokens, q) == 0;
      }
    } else {
      var step := OneStep(s);
      RunFirstStep(s, step);
      var later := EveryEventCanBeHandled(Apply(s, step));
      steps := [step] + later;
      assert steps[1..] == later;
    }
  }

  lemma RunFirstStep(s: System, step: Step)
    requires Inv(s)
    ensures Inv(Apply(s, step)) && |Apply(s, step).items| == |s.items|
  {
    StepKeeps(s, step);
  }

  /** What a push, a notification, the Task and a forward do. */
  lemma StepsOfOneEvent(s: System, q: nat)
    requires Inv(s) && q < |s.sizes|
    ensures var r := Apply(s, Put(q));
            if s.items[q] < s.sizes[q] then r.items == s.items[q := s.items[q] + 1] && r.pushing == s.pushing + [q]
            else r == s
    ensures forall i :: 0 <= i < |s.pushing| ==>
              var r := Apply(s, Notify(i));
              r.tokens == s.tokens + [s.pushing[i]] && |r.pushing| == |s.pushing| - 1 && r.items == s.items
    ensures s.handling == [] && s.tokens != [] ==>
              var r := Apply(s, Take); r.handling == s.tokens[..1] && r.tokens == s.tokens[1..] && r.items == s.items
    ensures s.handling == [q] && s.items[q] > 0 ==>
              var r := Apply(s, Forward); r.items[q] == s.items[q] - 1 && r.handling == [] && r.idle == s.idle
  {
  }

  // ---------------------------------------------------------------------------------------------------
  // Without clear()
  // ---------------------------------------------------------------------------------------------------

  predicate NoClear(steps: seq<Step>) {
    forall i :: 0 <= i < |steps| ==> !steps[i].ClearOne?
  }

  lemma {:induction false} NothingCleared(s: System, steps: seq<Step>)
    requires Inv(s) && NoClear(steps)
    ensures Run(s, steps).cleared == s.cleared
    decreases |steps|
  {
    if steps != [] {
      StepKeeps(s, steps[0]);
      NothingCleared(Apply(s, steps[0]), steps[1..]);
    }
  }

  function Sum(s: seq<nat>): nat {
    if s == [] then 0 else s[|s| - 1] + Sum(s[..|s| - 1])
  }

  /** The tokens of the first n queues. */
  function CountBelow(tokens: seq<nat>, n: nat): nat {
    if n == 0 then 0 else Count(tokens, n - 1) + CountBelow(tokens, n - 1)
  }

  lemma {:induction false} CountBelowStep(tokens: seq<nat>, n: nat)
    requires tokens != []
    ensures CountBelow(tokens, n) == CountBelow(tokens[1..], n) + if tokens[0] < n then 1 else 0
    decreases n
  {
    if n > 0 {
      CountBelowStep(tokens, n - 1);
    }
  }

  lemma {:induction false} AllCounted(tokens: seq<nat>, n: nat)
    requires Below(tokens, n)
    ensures CountBelow(tokens, n) == |tokens|
  {
    if tokens == [] {
      NothingCounted(n);
    } else {
      CountBelowStep(tokens, n);
      AllCounted(tokens[1..], n);
    }
  }

  lemma {:induction false} NothingCounted(n: nat)
    ensures CountBelow([], n) == 0
  {
    if n > 0 {
      NothingCounted(n - 1);
    }
  }

  lemma {:induction false} CountsFit(tokens: seq<nat>, sizes: seq<nat>, n: nat)
    requires n <= |sizes| && forall q :: 0 <= q < n ==> Count(tokens, q) <= sizes[q]
    ensures CountBelow(tokens, n) <= Sum(sizes[..n])
  {
    if n > 0 {
      CountsFit(tokens, sizes, n - 1);
      assert sizes[..n][..n - 1] == sizes[..n - 1];
    }
  }

  /** While clear() is not used, every queue has exactly as many events as tokens, no forward is idle, and the token
      list is no longer than the sizes of all queues together. */
  lemma {:induction false} TokensBounded(sizes: seq<nat>, steps: seq<Step>)
    requires NoClear(steps)
    ensures Inv(Start(sizes))
    ensures var s := Run(Start(sizes), steps);
            && Inv(s) && s.sizes == sizes
            && (forall q :: 0 <= q < |sizes| ==> s.items[q] == Due(s, q) && s.idle[q] == 0)
            && |s.tokens| <= Sum(sizes)
  {
    StartHolds(sizes);
    RunKeeps(Start(sizes), steps);
    NothingCleared(Start(sizes), steps);
    var s := Run(Start(sizes), steps);
    forall q | 0 <= q < |sizes| ensures s.items[q] == Due(s, q) && s.idle[q] == 0 && Count(s.tokens, q) <= sizes[q] {
      assert Balance(s, q);
    }
    AllCounted(s.tokens, |sizes|);
    CountsFit(s.tokens, sizes, |sizes|);
    assert sizes[..|sizes|] == sizes;
  }

  // ---------------------------------------------------------------------------------------------------
  // With clear()
  // ---------------------------------------------------------------------------------------------------

  /** k pushes to queue q that complete, each followed by a clear() before the token is taken. */
  function Repeat(q: nat, k: nat): seq<Step> {
    if k == 0 then [] else [Put(q), Notify(0), ClearOne(q)] + Repeat(q, k - 1)
  }

  function Times(q: nat, k: nat): (r: seq<nat>)
    ensures |r| == k
  {
    seq(k, _ => q)
  }

  /** The system after k of them. */
  function PiledUp(sizes: seq<nat>, q: nat, k: nat): System
    requires q < |sizes|
  {
    Start(sizes).(tokens := Times(q, k), cleared := None(|sizes|)[q := k])
  }

  lemma {:induction false} CountTimes(q: nat, k: nat, p: nat)
    ensures Count(Times(q, k), p) == if p == q then k else 0
  {
    if k > 0 {
      assert Times(q, k)[1..] == Times(q, k - 1);
      CountTimes(q, k - 1, p);
    }
  }

  lemma PiledUpHolds(sizes: seq<nat>, q: nat, k: nat)
    requires q < |sizes|
    ensures Inv(PiledUp(sizes, q, k))
  {
    var s := PiledUp(sizes, q, k);
    forall p | 0 <= p < |sizes| ensures Balance(s, p) {
      CountTimes(q, k, p);
    }
  }

  lemma {:induction false} RunFirst(s: System, step: Step, later: seq<Step>)
    requires Inv(s)
    ensures Inv(Apply(s, step)) && Run(s, [step] + later) == Run(Apply(s, step), later)
  {
    StepKeeps(s, step);
    assert ([step] + later)[1..] == later;
  }

  lemma SplitThree(a: Step, b: Step, c: Step, later: seq<Step>)
    ensures [a, b, c] + later == [a] + ([b, c] + later)
    ensures [b, c] + later == [b] + ([c] + later)
  {
  }

  /** A push that completes, and a clear() before the token is taken: one more token and no event. */
  lemma PileUp(sizes: seq<nat>, q: nat, j: nat) returns (put: System, told: System)
    requires q < |sizes| && sizes[q] > 0
    ensures Apply(PiledUp(sizes, q, j), Put(q)) == put && Shaped(put)
    ensures Apply(put, Notify(0)) == told && Shaped(told)
    ensures Apply(told, ClearOne(q)) == PiledUp(sizes, q, j + 1)
  {
    var s := PiledUp(sizes, q, j);
    put := s.(items := s.items[q := 1], pushing := [q]);
    told := s.(items := s.items[q := 1], tokens := Times(q, j + 1));
    assert [] + [q] == [q] && RemoveAt([q], 0) == [] && Times(q, j) + [q] == Times(q, j + 1);
    assert s.items[q := 1][q := 0] == s.items;
    assert s.cleared[q := j + 1] == None(|sizes|)[q := j + 1];
  }

  lemma {:induction false} TokensPileUp(sizes: seq<nat>, q: nat, k: nat, j: nat)
    requires q < |sizes| && sizes[q] > 0
    ensures Inv(PiledUp(sizes, q, j)) && Run(PiledUp(sizes, q, j), Repeat(q, k)) == PiledUp(sizes, q, j + k)
    decreases k
  {
    PiledUpHolds(sizes, q, j);
    if k > 0 {
      var later := Repeat(q, k - 1);
      var put, told := PileUp(sizes, q, j);
      RunFirst(PiledUp(sizes, q, j), Put(q), [Notify(0), ClearOne(q)] + later);
      RunFirst(put, Notify(0), [ClearOne(q)] + later);
      RunFirst(told, ClearOne(q), later);
      SplitThree(Put(q), Notify(0), ClearOne(q), later);
      TokensPileUp(sizes, q, k - 1, j + 1);
    }
  }

  /** With clear() a queue that can hold an event lets the token list grow to any length. */
  lemma {:induction false} ClearBreaksTokenBound(sizes: seq<nat>, q: nat, k: nat)
    requires q < |sizes| && sizes[q] > 0
    ensures Inv(Start(sizes)) && |Run(Start(sizes), Repeat(q, k)).tokens| == k
  {
    StartHolds(sizes);
    TokensPileUp(sizes, q, k, 0);
    assert Start(sizes) == PiledUp(sizes, q, 0);
  }

  lemma {:induction false} SomeSize(sizes: seq<nat>) returns (q: nat)
    requires Sum(sizes) > 0
    ensures q < |sizes| && sizes[q] > 0
    decreases |sizes|
  {
    q := |sizes| - 1;
    if sizes[q] == 0 {
      q := SomeSize(sizes[..q]);
    }
  }

  lemma {:induction false} NoSize(sizes: seq<nat>)
    requires Sum(sizes) == 0
    ensures forall q :: 0 <= q < |sizes| ==> sizes[q] == 0
    decreases |sizes|
  {
    if sizes != [] {
      NoSize(sizes[..|sizes| - 1]);
    }
  }

  lemma {:induction false} NothingHappens(sizes: seq<nat>, steps: seq<Step>)
    requires forall q :: 0 <= q < |sizes| ==> sizes[q] == 0
    ensures Inv(Start(sizes)) && Run(Start(sizes), steps) == Start(sizes)
    decreases |steps|
  {
    StartHolds(sizes);
    if steps != [] {
      NothingHappens(sizes, steps[1..]);
    }
  }

  /** The token list is no longer than the sizes of all queues together. */
  ghost predicate WithinBound(sizes: seq<nat>, steps: seq<Step>) {
    StartHolds(sizes);
    |Run(Start(sizes), steps).tokens| <= Sum(sizes)
  }

  /** With clear() the bound holds in all runs exactly if no queue can hold an event. */
  lemma {:induction false} BoundIffNothingFits(sizes: seq<nat>)
    ensures (forall steps :: WithinBound(sizes, steps)) <==> Sum(sizes) == 0
  {
    if Sum(sizes) == 0 {
      NoSize(sizes);
      forall steps ensures WithinBound(sizes, steps) {
        NothingHappens(sizes, steps);
      }
    } else {
      var q := SomeSize(sizes);
      ClearBreaksTokenBound(sizes, q, Sum(sizes) + 1);
      assert !WithinBound(sizes, Repeat(q, Sum(sizes) + 1));
    }
  }
}

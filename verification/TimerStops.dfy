/** What stopping a timer does to the others: it is erased from the vector of a heap that is not put in order. */
module TimerStops {
  import opened TimerHeap
  import opened TimerModel

  // ---------------------------------------------------------------------------------------------------
  // The first timer to fire
  // ---------------------------------------------------------------------------------------------------

  /** The next tick fires something if something is due. */
  ghost predicate Prompt<T>(at: map<T, int>, c: seq<T>, now: int) {
    (exists i :: 0 <= i < |c| && Key(at, c[i]) <= now) ==> Fire(at, c, now).fired != []
  }

  ghost predicate AlwaysPrompt<T>(at: map<T, int>, c: seq<T>) {
    forall now :: Prompt(at, c, now)
  }

  lemma PromptIffTopFirst<T>(at: map<T, int>, c: seq<T>)
    ensures AlwaysPrompt(at, c) <==> TopFirst(at, c)
  {
    if TopFirst(at, c) {
      forall now ensures Prompt(at, c, now) {
        if i :| 0 <= i < |c| && Key(at, c[i]) <= now {
          assert Before(at, c, 0, i);
        }
      }
    } else {
      var i :| 0 <= i < |c| && !Before(at, c, 0, i);
      assert !Prompt(at, c, Key(at, c[i]));
    }
  }

  /** Stopping a timer leaves the next tick prompt exactly when it was not the top of the queue, or the timer that
      moves up to the top is due no later than its sibling. */
  lemma PromptAfterStop<T>(s: Service<T>, t: T)
    requires Inv(s) && InHeapOrder(s) && t in s.queue
    ensures var at, r := Keys(s.timers), Apply(s, Remove(t));
            AlwaysPrompt(at, r.queue) <==> s.queue[0] != t || |s.queue| <= 2 || Before(at, s.queue, 1, 2)
  {
    var at, i := Keys(s.timers), Find(s.queue, t);
    assert i < |s.queue| by {
      assert s.queue[..|s.queue|] == s.queue;
    }
    assert i == 0 <==> s.queue[0] == t by {
      if i > 0 {
        assert s.queue[..i][0] == s.queue[0];
      }
    }
    EraseKeepsTop(at, s.queue, i);
    PromptIffTopFirst(at, Erase(s.queue, i));
  }

  // ---------------------------------------------------------------------------------------------------
  // All timers that are due
  // ---------------------------------------------------------------------------------------------------

  /** A tick leaves nothing in the queue that is due. */
  ghost predicate Complete<T>(at: map<T, int>, c: seq<T>, now: int) {
    forall i :: 0 <= i < |Fire(at, c, now).queue| ==> Key(at, Fire(at, c, now).queue[i]) > now
  }

  ghost predicate AlwaysComplete<T>(at: map<T, int>, c: seq<T>) {
    forall now :: Complete(at, c, now)
  }

  lemma HeapIsComplete<T>(at: map<T, int>, c: seq<T>)
    requires Heap(at, c)
    ensures AlwaysComplete(at, c)
  {
    forall now ensures Complete(at, c, now) {
      FiresAllDue(at, c, now);
    }
  }

  function PushAll<T>(at: map<T, int>, c: seq<T>, added: seq<T>): seq<T>
    decreases |added|
  {
    if added == [] then c else PushAll(at, Push(at, c, added[0]), added[1..])
  }

  /** `at'` gives the elements of c their keys and others to the added ones, which are new and different. */
  ghost predicate Continues<T>(at: map<T, int>, c: seq<T>, at': map<T, int>, added: seq<T>) {
    && (forall i :: 0 <= i < |c| ==> Key(at', c[i]) == Key(at, c[i]))
    && Distinct(added) && (forall i :: 0 <= i < |added| ==> added[i] !in c)
  }

  /** Whatever timers are started before it, every tick fires all timers that are due. */
  ghost predicate StaysComplete<T(!new)>(at: map<T, int>, c: seq<T>) {
    forall at': map<T, int>, added: seq<T> ::
      Continues(at, c, at', added) ==> AlwaysComplete(at', PushAll(at', c, added))
  }

  lemma {:induction false} PushAllHeap<T>(at: map<T, int>, c: seq<T>, added: seq<T>)
    requires Heap(at, c)
    ensures Heap(at, PushAll(at, c, added))
    decreases |added|
  {
    if added != [] {
      PushHeap(at, c, added[0]);
      PushAllHeap(at, Push(at, c, added[0]), added[1..]);
    }
  }

  lemma HeapStaysComplete<T(!new)>(at: map<T, int>, c: seq<T>)
    requires Heap(at, c)
    ensures StaysComplete(at, c)
  {
    forall at': map<T, int>, added: seq<T> | Continues(at, c, at', added)
      ensures AlwaysComplete(at', PushAll(at', c, added))
    {
      SameKeys(at, at', c);
      PushAllHeap(at', c, added);
      HeapIsComplete(at', PushAll(at', c, added));
    }
  }

  // ---------------------------------------------------------------------------------------------------
  // A queue that is no heap
  // ---------------------------------------------------------------------------------------------------

  /** y is in the subtree under x. */
  predicate Under(x: nat, y: nat)
    decreases y
  {
    y > 0 && (Parent(y) == x || Under(x, Parent(y)))
  }

  lemma {:induction false} UnderIsBehind(x: nat, y: nat)
    requires Under(x, y)
    ensures x < y
    decreases y
  {
    if Parent(y) != x {
      UnderIsBehind(x, Parent(y));
    }
  }

  lemma {:induction false} UnderTransitive(x: nat, y: nat, z: nat)
    requires Under(x, y) && Under(y, z)
    ensures Under(x, z)
    decreases z
  {
    if Parent(z) != y {
      UnderTransitive(x, y, Parent(z));
    }
  }

  /** No key is later than `late`, and from m on all keys are. */
  ghost predicate LateTail<T>(at: map<T, int>, c: seq<T>, m: nat, late: int) {
    && (forall i :: 0 <= i < |c| ==> Key(at, c[i]) <= late)
    && (forall i :: m <= i < |c| ==> Key(at, c[i]) == late)
  }

  /** A timer at y is due and sits under a timer at x that is not. */
  ghost predicate Blocked<T>(at: map<T, int>, c: seq<T>, now: int, x: nat, y: nat) {
    x < |c| && y < |c| && Under(x, y) && Key(at, c[x]) > now && Key(at, c[y]) <= now
  }

  /** While a late element sinks from j to its place, a blocked timer stays blocked. */
  lemma {:induction false} SinkKeepsBlocked<T>(at: map<T, int>, c: seq<T>, j: nat, now: int, x: nat, y: nat,
                                               m: nat, late: int)
    returns (x': nat, y': nat)
    requires j < |c| && Key(at, c[j]) == late && LateTail(at, c, m, late)
    requires Blocked(at, c, now, x, y) && j != x && j != y
    ensures Blocked(at, SiftDown(at, c, j), now, x', y') && LateTail(at, SiftDown(at, c, j), m, late)
    decreases |c| - j
  {
    if 2 * j + 1 >= |c| || Before(at, c, j, Child(at, c, j)) {
      x', y' := x, y;
    } else {
      var k := Child(at, c, j);
      var d := Swap(c, j, k);
      x', y' := if x == k then j else x, if y == k then j else y;
      UnderIsBehind(x, y);
      if x == k {
        UnderTransitive(j, k, y);
      }
      assert Blocked(at, d, now, x', y');
      x', y' := SinkKeepsBlocked(at, d, k, now, x', y', m, late);
    }
  }

  /** The top is popped and a late element from the end takes its place. */
  lemma PopKeepsBlocked<T>(at: map<T, int>, c: seq<T>, now: int, x: nat, y: nat, m: nat, late: int)
    returns (x': nat, y': nat)
    requires LateTail(at, c, m, late) && m < |c| && Blocked(at, c, now, x, y) && now < late && Key(at, c[0]) <= now
    ensures Blocked(at, Pop(at, c), now, x', y') && LateTail(at, Pop(at, c), m, late) && |Pop(at, c)| == |c| - 1
  {
    UnderIsBehind(x, y);
    var d := [c[|c| - 1]] + c[1..|c| - 1];
    assert Blocked(at, d, now, x, y);
    assert LateTail(at, d, m, late) by {
      assert forall i :: 1 <= i < |d| ==> d[i] == c[i];
    }
    x', y' := SinkKeepsBlocked(at, d, 0, now, x, y, m, late);
  }

  /** As long as late elements remain at the end, the blocked timer is never reached. */
  lemma {:induction false} NeverReached<T>(at: map<T, int>, c: seq<T>, now: int, x: nat, y: nat, m: nat, late: int)
    requires LateTail(at, c, m, late) && Blocked(at, c, now, x, y) && now < late
    requires |Fire(at, c, now).fired| + m < |c|
    ensures !Complete(at, c, now)
    decreases |c|
  {
    if Key(at, c[0]) > now {
      assert Fire(at, c, now).queue[y] == c[y];
    } else {
      var x', y' := PopKeepsBlocked(at, c, now, x, y, m, late);
      NeverReached(at, Pop(at, c), now, x', y', m, late);
      assert Fire(at, c, now).queue == Fire(at, Pop(at, c), now).queue;
    }
  }

  /** A number above all elements and keys. */
  function Above(c: seq<nat>): (n: nat)
    ensures forall i :: 0 <= i < |c| ==> c[i] < n
  {
    if c == [] then 0
    else
      var rest := Above(c[1..]);
      if c[0] < rest then rest else c[0] + 1
  }

  function LatestKey(at: map<nat, int>, c: seq<nat>): (late: int)
    ensures forall i :: 0 <= i < |c| ==> Key(at, c[i]) < late
  {
    if c == [] then 0
    else
      var rest := LatestKey(at, c[1..]);
      if Key(at, c[0]) < rest then rest else Key(at, c[0]) + 1
  }

  /** The numbers from n on, as new timers. */
  function NewTimers(n: nat, size: nat): (r: seq<nat>)
    ensures |r| == size && forall i :: 0 <= i < size ==> r[i] == n + i
  {
    seq(size, i => n + i)
  }

  function WithLate(at: map<nat, int>, c: seq<nat>, added: seq<nat>, late: int): map<nat, int> {
    map t | t in c + added :: if t in added then late else Key(at, t)
  }

  /** An element that is due no earlier than its parent stays at the end. */
  lemma PushLast<T>(at: map<T, int>, c: seq<T>, t: T)
    requires c == [] || Key(at, c[Parent(|c|)]) <= Key(at, t)
    ensures Push(at, c, t) == c + [t]
  {
  }

  lemma {:induction false} PushAllLate<T>(at: map<T, int>, c: seq<T>, added: seq<T>, late: int)
    requires forall i :: 0 <= i < |c| ==> Key(at, c[i]) <= late
    requires forall i :: 0 <= i < |added| ==> Key(at, added[i]) == late
    ensures PushAll(at, c, added) == c + added
    decreases |added|
  {
    if added != [] {
      PushLast(at, c, added[0]);
      PushAllLate(at, c + [added[0]], added[1..], late);
      assert c + [added[0]] + added[1..] == c + added;
    } else {
      assert c + [] == c;
    }
  }

  lemma {:induction false} DistinctFits<T>(part: seq<T>, all: seq<T>)
    requires Distinct(part) && forall i :: 0 <= i < |part| ==> part[i] in all
    ensures |part| <= |all|
    decreases |part|
  {
    if part != [] {
      var k := Index(all, part[0]);
      var rest := all[..k] + all[k + 1..];
      forall i | 0 <= i < |part[1..]| ensures part[1..][i] in rest {
        var j := Index(all, part[i + 1]);
        assert part[i + 1] != part[0];
        assert rest[if j < k then j else j - 1] == part[i + 1];
      }
      DistinctFits(part[1..], rest);
    }
  }

  /** Only timers of the old queue are due. */
  lemma {:induction false} FewFire(at: map<nat, int>, c: seq<nat>, added: seq<nat>, now: int, late: int)
    requires Distinct(c + added) && now < late
    requires forall i :: 0 <= i < |added| ==> Key(at, added[i]) == late
    ensures |Fire(at, c + added, now).fired| <= |c|
  {
    var all := c + added;
    DistinctIsOnce(all);
    var due := FiredOnce(at, all, now);
    OnceIsDistinct(due.fired);
    assert forall j :: |c| <= j < |all| ==> Key(at, all[j]) == late;
    FiresOnlyDue(at, all, now);
    forall i | 0 <= i < |due.fired| ensures due.fired[i] in c {
      MemberOf(due.fired, due.queue, all, i);
      var j := Index(all, due.fired[i]);
      assert j < |c|;
    }
    DistinctFits(due.fired, c);
  }

  /** As many new timers as are queued and one more, all later than those. */
  lemma LateTimers(at: map<nat, int>, c: seq<nat>) returns (at': map<nat, int>, added: seq<nat>, late: int)
    requires Distinct(c)
    ensures Continues(at, c, at', added) && Distinct(c + added) && |added| == |c| + 1
    ensures (forall i :: 0 <= i < |c| ==> Key(at, c[i]) < late) && LateTail(at', c + added, |c|, late)
    ensures forall i :: 0 <= i < |added| ==> Key(at', added[i]) == late
  {
    late := LatestKey(at, c);
    added := NewTimers(Above(c), |c| + 1);
    at' := WithLate(at, c, added, late);
    var all := c + added;
    assert forall i :: 0 <= i < |added| ==> added[i] in all && Key(at', added[i]) == late;
    assert forall i :: 0 <= i < |c| ==> c[i] in all && c[i] !in added && Key(at', c[i]) == Key(at, c[i]);
  }

  /** If a timer is due before its parent, starting enough late timers makes a tick pass it over. */
  lemma NoHeapIsPassedOver(at: map<nat, int>, c: seq<nat>)
    requires Distinct(c) && !Heap(at, c)
    ensures !StaysComplete(at, c)
  {
    var y :| 0 < y < |c| && !Ordered(at, c, y);
    var x, now := Parent(y), Key(at, c[y]);
    var at', added, late := LateTimers(at, c);
    PushAllLate(at', c, added, late);
    FewFire(at', c, added, now, late);
    NeverReached(at', c + added, now, x, y, |c|, late);
    assert !AlwaysComplete(at', PushAll(at', c, added));
  }

  /** The exact condition. When a timer is stopped, every later tick fires all timers that are due, whatever timers
      are started meanwhile, exactly when each timer behind it in the vector is due no earlier than the one that
      becomes its parent. */
  lemma {:induction false} CompleteAfterStop(s: Service<nat>, t: nat)
    requires Inv(s) && InHeapOrder(s) && t in s.queue
    ensures var at, r := Keys(s.timers), Apply(s, Remove(t));
            StaysComplete(at, r.queue) <==> ShiftFits(at, s.queue, Find(s.queue, t))
  {
    var at, r, i := Keys(s.timers), Apply(s, Remove(t)), Find(s.queue, t);
    assert i < |s.queue| by {
      assert s.queue[..|s.queue|] == s.queue;
    }
    EraseKeepsHeap(at, s.queue, i);
    RemovedOnce(s.queue, t);
    OnceIsDistinct(r.queue);
    if Heap(at, r.queue) {
      HeapStaysComplete(at, r.queue);
    } else {
      NoHeapIsPassedOver(at, r.queue);
    }
  }

  /** For the next tick alone the condition is sufficient. */
  lemma CompleteIfFits<T>(s: Service<T>, t: T)
    requires Inv(s) && InHeapOrder(s) && t in s.queue && ShiftFits(Keys(s.timers), s.queue, Find(s.queue, t))
    ensures AlwaysComplete(Keys(s.timers), Apply(s, Remove(t)).queue)
  {
    var i := Find(s.queue, t);
    assert i < |s.queue| by {
      assert s.queue[..|s.queue|] == s.queue;
    }
    EraseKeepsHeap(Keys(s.timers), s.queue, i);
    HeapIsComplete(Keys(s.timers), Erase(s.queue, i));
  }

  // ---------------------------------------------------------------------------------------------------
  // Examples
  // ---------------------------------------------------------------------------------------------------

  lemma {:induction false} RunFirst<T>(s: Service<T>, step: Step<T>, later: seq<Step<T>>)
    ensures Run(s, [step] + later) == Run(Apply(s, step), later)
    ensures Orderly(s, [step] + later) <==> Allowed(s, step) && Orderly(Apply(s, step), later)
  {
    assert ([step] + later)[1..] == later;
  }

  function OneShot(interval: nat): Timer {
    Timer(interval, false, 0, 0, false, [])
  }

  /** Timers named by their intervals, not yet started. */
  function OneShots(intervals: seq<nat>): Service<nat> {
    Service(map t | t in intervals :: OneShot(t), [])
  }

  function StartAll(intervals: seq<nat>): seq<Step<nat>> {
    if intervals == [] then [] else [Add(intervals[0], 0)] + StartAll(intervals[1..])
  }

  /** The vector after the timers in c were started at time 0. */
  ghost predicate Started(s: Service<nat>, intervals: seq<nat>, c: seq<nat>) {
    && s.queue == c
    && (forall t :: t in intervals ==> t in s.timers && s.timers[t].interval == t)
    && (forall i :: 0 <= i < |c| ==> c[i] in intervals && s.timers[c[i]].expires == c[i])
  }

  lemma StartNext(s: Service<nat>, all: seq<nat>, n: nat) returns (r: Service<nat>)
    requires n < |all| && Distinct(all) && Started(s, all, all[..n]) && (n > 0 ==> all[Parent(n)] <= all[n])
    ensures Allowed(s, Add(all[n], 0)) && r == Apply(s, Add(all[n], 0)) && Started(r, all, all[..n + 1])
  {
    r := Apply(s, Add(all[n], 0));
    PushLast(Keys(r.timers), all[..n], all[n]);
    assert all[..n + 1] == all[..n] + [all[n]];
  }

  /** Each started timer stays at the end of the vector, so the vector lists them in the order of their starts. */
  lemma {:induction false} StartsInOrder(s: Service<nat>, all: seq<nat>, n: nat) returns (r: Service<nat>)
    requires n <= |all| && Distinct(all) && Started(s, all, all[..n])
    requires forall i :: 0 < i < |all| ==> all[Parent(i)] <= all[i]
    ensures Orderly(s, StartAll(all[n..])) && r == Run(s, StartAll(all[n..])) && Started(r, all, all)
    decreases |all| - n
  {
    if n == |all| {
      assert all[..n] == all;
      r := s;
    } else {
      var s1 := StartNext(s, all, n);
      r := StartsInOrder(s1, all, n + 1);
      assert all[n..][1..] == all[n + 1..];
      RunFirst(s, Add(all[n], 0), StartAll(all[n + 1..]));
    }
  }

  lemma {:induction false} RunAppend<T>(s: Service<T>, a: seq<Step<T>>, step: Step<T>)
    ensures Run(s, a + [step]) == Apply(Run(s, a), step)
    ensures Orderly(s, a) && Allowed(Run(s, a), step) ==> Orderly(s, a + [step])
    decreases |a|
  {
    if a == [] {
      assert a + [step] == [step] + [];
      RunFirst(s, step, []);
    } else {
      assert (a + [step])[1..] == a[1..] + [step];
      RunAppend(Apply(s, a[0]), a[1..], step);
    }
  }

  lemma {:induction false} FindsIt(c: seq<nat>, k: nat)
    requires Distinct(c) && k < |c|
    ensures Find(c, c[k]) == k
  {
  }

  lemma StopsAt(s: Service<nat>, all: seq<nat>, k: nat) returns (r: Service<nat>)
    requires k < |all| && Distinct(all) && Started(s, all, all)
    ensures r == Apply(s, Remove(all[k])) && r.queue == Erase(all, k)
    ensures forall i :: 0 <= i < |all| ==> all[i] in r.timers && r.timers[all[i]].expires == all[i]
  {
    FindsIt(all, k);
    r := Apply(s, Remove(all[k]));
  }

  /** Starting the listed timers at time 0 and then stopping one of them. */
  lemma StartsThenStop(all: seq<nat>, k: nat) returns (steps: seq<Step<nat>>, r: Service<nat>)
    requires k < |all| && Distinct(all) && forall i :: 0 < i < |all| ==> all[Parent(i)] <= all[i]
    ensures Unstarted(OneShots(all)) && Orderly(OneShots(all), steps)
    ensures r == Run(OneShots(all), steps) && r.queue == Erase(all, k)
    ensures forall i :: 0 <= i < |all| ==> all[i] in r.timers && r.timers[all[i]].expires == all[i]
  {
    var s := OneShots(all);
    var q := StartsInOrder(s, all, 0);
    steps := StartAll(all[0..]) + [Remove(all[k])];
    RunAppend(s, StartAll(all[0..]), Remove(all[k]));
    r := StopsAt(q, all, k);
  }

  /** Timers of 1, 5 and 2 units are started at time 0 and the first is stopped: at time 3 the one of 2 units is due,
      but the tick fires nothing. */
  lemma StopDelaysAnother() returns (steps: seq<Step<nat>>, r: Service<nat>)
    ensures var s := OneShots([1, 5, 2]);
            Unstarted(s) && Orderly(s, steps) && r == Run(s, steps)
    ensures 2 in r.queue && 2 in r.timers && r.timers[2].expires == 2 && Fire(Keys(r.timers), r.queue, 3).fired == []
  {
    var all: seq<nat> := [1, 5, 2];
    steps, r := StartsThenStop(all, 0);
    assert all[1] == 5 && all[2] == 2;
    assert r.queue == [5, 2];
  }

  /** Stopping a timer that is not the top can also delay another one: of timers of 1, 2, 10, 3, 4, 11 and 12 units the
      second is stopped. The next tick is prompt, but at time 4 it fires the timers of 1 and 3 units and passes over
      the one of 4. */
  lemma StopPassesOverAnother() returns (steps: seq<Step<nat>>, r: Service<nat>)
    ensures var s := OneShots([1, 2, 10, 3, 4, 11, 12]);
            Unstarted(s) && Orderly(s, steps) && r == Run(s, steps)
    ensures AlwaysPrompt(Keys(r.timers), r.queue)
    ensures 4 in r.timers && r.timers[4].expires == 4
    ensures Fire(Keys(r.timers), r.queue, 4) == Due([1, 3], [10, 4, 12, 11])
  {
    var all: seq<nat> := [1, 2, 10, 3, 4, 11, 12];
    steps, r := StartsThenStop(all, 1);
    var at := Keys(r.timers);
    assert r.queue == [1, 10, 3, 4, 11, 12];
    assert Key(at, all[0]) == 1 && Key(at, all[2]) == 10 && Key(at, all[3]) == 3;
    assert Key(at, all[4]) == 4 && Key(at, all[5]) == 11 && Key(at, all[6]) == 12;
    PassesOver(at);
    PromptIffTopFirst(at, r.queue);
  }

  lemma {:induction false} PopsTo<T>(at: map<T, int>, c: seq<T>, d: seq<T>)
    requires |c| > 1 && |d| == |c| - 1 && d[0] == c[|c| - 1] && forall i :: 1 <= i < |d| ==> d[i] == c[i]
    ensures Pop(at, c) == SiftDown(at, d, 0)
  {
    assert d == [c[|c| - 1]] + c[1..|c| - 1];
  }

  lemma {:induction false} PassesOver(at: map<nat, int>)
    requires Key(at, 1) == 1 && Key(at, 10) == 10 && Key(at, 3) == 3
    requires Key(at, 4) == 4 && Key(at, 11) == 11 && Key(at, 12) == 12
    ensures TopFirst(at, [1, 10, 3, 4, 11, 12])
    ensures Fire(at, [1, 10, 3, 4, 11, 12], 4) == Due([1, 3], [10, 4, 12, 11])
  {
    var c, d, e, f: seq<nat> := [1, 10, 3, 4, 11, 12], [3, 10, 12, 4, 11], [10, 4, 12, 11], [10, 11, 12, 4];
    PopsTo(at, c, [12, 10, 3, 4, 11]);
    assert Swap([12, 10, 3, 4, 11], 0, 2) == d;
    PopsTo(at, d, [11, 10, 12, 4]);
    assert Swap([11, 10, 12, 4], 0, 1) == f && Swap(f, 1, 3) == e;
    assert SiftDown(at, f, 1) == e;
    assert Fire(at, e, 4) == Due([], e);
    assert Fire(at, d, 4) == Due([3], e);
  }

  /** For the next tick alone the condition is not necessary: the vector that erasing the second of five timers
      leaves, with keys 1, 3, 1 and 2, is no heap, but no tick passes anything over. */
  lemma LuckyStop() returns (at: map<nat, int>, c: seq<nat>)
    ensures Distinct(c) && |c| == 5 && Heap(at, c) && !ShiftFits(at, c, 1) && AlwaysComplete(at, Erase(c, 1))
  {
    at := map[10 := 1, 11 := 1, 12 := 3, 13 := 1, 14 := 2];
    c := [10, 11, 12, 13, 14];
    var d, e: seq<nat> := [10, 12, 13, 14], [13, 12, 14];
    assert Erase(c, 1) == d;
    assert !Fits(at, c, 1, 3);
    PopsTo(at, d, [14, 12, 13]);
    assert Swap([14, 12, 13], 0, 2) == e;
    assert Pop(at, d) == e;
    HeapIsComplete(at, e);
    forall now ensures Complete(at, d, now) {
      assert Complete(at, e, now);
    }
  }
}

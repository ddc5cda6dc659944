/** The binary heap of a priority queue whose keys are looked up in the elements. */
module TimerHeap {
  function Key<T>(at: map<T, int>, t: T): int {
    if t in at then at[t] else 0
  }

  function Parent(i: nat): nat
    requires i > 0
  {
    (i - 1) / 2
  }

  /** The element at i is due no later than the one at j. */
  predicate Before<T>(at: map<T, int>, c: seq<T>, i: nat, j: nat)
    requires i < |c| && j < |c|
  {
    Key(at, c[i]) <= Key(at, c[j])
  }

  /** The element at i is due no earlier than its parent. */
  predicate Ordered<T>(at: map<T, int>, c: seq<T>, i: nat)
    requires 0 < i < |c|
  {
    Before(at, c, Parent(i), i)
  }

  ghost predicate Heap<T>(at: map<T, int>, c: seq<T>) {
    forall i :: 0 < i < |c| ==> Ordered(at, c, i)
  }

  ghost predicate Distinct<T>(c: seq<T>) {
    forall i, j :: 0 <= i < j < |c| ==> c[i] != c[j]
  }

  function Swap<T>(c: seq<T>, i: nat, j: nat): (r: seq<T>)
    requires i < |c| && j < |c|
    ensures |r| == |c|
  {
    c[i := c[j]][j := c[i]]
  }

  lemma SwapPermutes<T>(c: seq<T>, i: nat, j: nat)
    requires i < |c| && j < |c|
    ensures multiset(Swap(c, i, j)) == multiset(c)
  {
  }

  /** push_heap */
  function SiftUp<T>(at: map<T, int>, c: seq<T>, j: nat): (r: seq<T>)
    requires j < |c|
    ensures |r| == |c|
    decreases j
  {
    if j == 0 || Before(at, c, Parent(j), j) then c else SiftUp(at, Swap(c, j, Parent(j)), Parent(j))
  }

  function Push<T>(at: map<T, int>, c: seq<T>, t: T): seq<T> {
    SiftUp(at, c + [t], |c|)
  }

  /** The child of j that is due first. */
  function Child<T>(at: map<T, int>, c: seq<T>, j: nat): (k: nat)
    requires 2 * j + 1 < |c|
    ensures k < |c| && k > 0 && Parent(k) == j
  {
    if 2 * j + 2 < |c| && !Before(at, c, 2 * j + 1, 2 * j + 2) then 2 * j + 2 else 2 * j + 1
  }

  function SiftDown<T>(at: map<T, int>, c: seq<T>, j: nat): (r: seq<T>)
    requires j < |c|
    ensures |r| == |c|
    decreases |c| - j
  {
    if 2 * j + 1 >= |c| || Before(at, c, j, Child(at, c, j)) then c
    else SiftDown(at, Swap(c, j, Child(at, c, j)), Child(at, c, j))
  }

  /** pop_heap and pop_back */
  function Pop<T>(at: map<T, int>, c: seq<T>): seq<T>
    requires c != []
  {
    if |c| == 1 then [] else SiftDown(at, [c[|c| - 1]] + c[1..|c| - 1], 0)
  }

  // ---------------------------------------------------------------------------------------------------
  // Pushing and popping keep the heap
  // ---------------------------------------------------------------------------------------------------

  /** A heap but for the element at j, which may be due before its parent. */
  ghost predicate HeapAbove<T>(at: map<T, int>, c: seq<T>, j: nat) {
    && j < |c|
    && (forall i :: 0 < i < |c| && i != j ==> Ordered(at, c, i))
    && (forall i :: 0 < i < |c| && j > 0 && Parent(i) == j ==> Before(at, c, Parent(j), i))
  }

  /** A heap but for the element at j, which may be due after its children. */
  ghost predicate HeapBelow<T>(at: map<T, int>, c: seq<T>, j: nat) {
    && j < |c|
    && (forall i :: 0 < i < |c| && Parent(i) != j ==> Ordered(at, c, i))
    && (forall i :: 0 < i < |c| && j > 0 && Parent(i) == j ==> Before(at, c, Parent(j), i))
  }

  lemma SwapUp<T>(at: map<T, int>, c: seq<T>, j: nat)
    requires HeapAbove(at, c, j) && j > 0 && !Before(at, c, Parent(j), j)
    ensures HeapAbove(at, Swap(c, j, Parent(j)), Parent(j))
  {
    var p, r := Parent(j), Swap(c, j, Parent(j));
    forall i | 0 < i < |r| && i != p ensures Ordered(at, r, i) {
      assert Ordered(at, c, i) || i == j;
      assert p > 0 ==> Ordered(at, c, p);
    }
    forall i | 0 < i < |r| && p > 0 && Parent(i) == p ensures Before(at, r, Parent(p), i) {
      assert Ordered(at, c, p);
      assert Ordered(at, c, i) || i == j;
    }
  }

  lemma {:induction false} SiftUpHeap<T>(at: map<T, int>, c: seq<T>, j: nat)
    requires HeapAbove(at, c, j)
    ensures Heap(at, SiftUp(at, c, j)) && multiset(SiftUp(at, c, j)) == multiset(c)
    decreases j
  {
    if j > 0 && !Before(at, c, Parent(j), j) {
      SwapUp(at, c, j);
      SwapPermutes(c, j, Parent(j));
      SiftUpHeap(at, Swap(c, j, Parent(j)), Parent(j));
    }
  }

  /** Without any assumption about the order. */
  lemma {:induction false} SiftUpPermutes<T>(at: map<T, int>, c: seq<T>, j: nat)
    requires j < |c|
    ensures multiset(SiftUp(at, c, j)) == multiset(c)
    decreases j
  {
    if j > 0 && !Before(at, c, Parent(j), j) {
      SwapPermutes(c, j, Parent(j));
      SiftUpPermutes(at, Swap(c, j, Parent(j)), Parent(j));
    }
  }

  lemma PushPermutes<T>(at: map<T, int>, c: seq<T>, t: T)
    ensures multiset(Push(at, c, t)) == multiset(c) + multiset{t}
  {
    SiftUpPermutes(at, c + [t], |c|);
  }

  lemma PushHeap<T>(at: map<T, int>, c: seq<T>, t: T)
    requires Heap(at, c)
    ensures Heap(at, Push(at, c, t))
  {
    var d := c + [t];
    forall i | 0 < i < |d| && i != |c| ensures Ordered(at, d, i) {
      assert Ordered(at, c, i);
    }
    SiftUpHeap(at, d, |c|);
  }

  lemma SwapDown<T>(at: map<T, int>, c: seq<T>, j: nat)
    requires HeapBelow(at, c, j) && 2 * j + 1 < |c| && !Before(at, c, j, Child(at, c, j))
    ensures HeapBelow(at, Swap(c, j, Child(at, c, j)), Child(at, c, j))
  {
    var k := Child(at, c, j);
    var r := Swap(c, j, k);
    forall i | 0 < i < |r| && Parent(i) != k ensures Ordered(at, r, i) {
      assert j > 0 ==> Before(at, c, Parent(j), k);
      assert Parent(i) != j ==> Ordered(at, c, i);
      assert Parent(i) == j ==> i == 2 * j + 1 || i == 2 * j + 2;
    }
    forall i | 0 < i < |r| && Parent(i) == k ensures Before(at, r, Parent(k), i) {
      assert Ordered(at, c, i);
    }
  }

  lemma {:induction false} SiftDownHeap<T>(at: map<T, int>, c: seq<T>, j: nat)
    requires HeapBelow(at, c, j)
    ensures Heap(at, SiftDown(at, c, j))
    decreases |c| - j
  {
    if 2 * j + 1 >= |c| {
    } else if Before(at, c, j, Child(at, c, j)) {
      forall i | 0 < i < |c| && Parent(i) == j ensures Ordered(at, c, i) {
        assert i == 2 * j + 1 || i == 2 * j + 2;
      }
    } else {
      SwapDown(at, c, j);
      SiftDownHeap(at, Swap(c, j, Child(at, c, j)), Child(at, c, j));
    }
  }

  lemma {:induction false} SiftDownPermutes<T>(at: map<T, int>, c: seq<T>, j: nat)
    requires j < |c|
    ensures multiset(SiftDown(at, c, j)) == multiset(c)
    decreases |c| - j
  {
    if 2 * j + 1 < |c| && !Before(at, c, j, Child(at, c, j)) {
      SwapPermutes(c, j, Child(at, c, j));
      SiftDownPermutes(at, Swap(c, j, Child(at, c, j)), Child(at, c, j));
    }
  }

  lemma PopPermutes<T>(at: map<T, int>, c: seq<T>)
    requires c != []
    ensures multiset(c) == multiset{c[0]} + multiset(Pop(at, c)) && |Pop(at, c)| == |c| - 1
  {
    if |c| == 1 {
      assert c == [c[0]];
    } else {
      var last, middle := c[|c| - 1], c[1..|c| - 1];
      assert c == [c[0]] + middle + [last];
      SiftDownPermutes(at, [last] + middle, 0);
    }
  }

  lemma PopHeap<T>(at: map<T, int>, c: seq<T>)
    requires Heap(at, c) && c != []
    ensures Heap(at, Pop(at, c))
  {
    if |c| > 1 {
      var d := [c[|c| - 1]] + c[1..|c| - 1];
      forall i | 0 < i < |d| && Parent(i) != 0 ensures Ordered(at, d, i) {
        assert Ordered(at, c, i);
      }
      SiftDownHeap(at, d, 0);
    }
  }

  /** The top of a heap is due first. */
  lemma {:induction false} TopIsFirst<T>(at: map<T, int>, c: seq<T>, i: nat)
    requires Heap(at, c) && i < |c|
    ensures Before(at, c, 0, i)
    decreases i
  {
    if i > 0 {
      assert Ordered(at, c, i);
      TopIsFirst(at, c, Parent(i));
    }
  }

  // ---------------------------------------------------------------------------------------------------
  // Removing from the vector
  // ---------------------------------------------------------------------------------------------------

  /** vector::erase */
  function Erase<T>(c: seq<T>, i: nat): (r: seq<T>)
    requires i < |c|
    ensures |r| == |c| - 1
  {
    c[..i] + c[i + 1..]
  }

  /** No element is due before the top. */
  ghost predicate TopFirst<T>(at: map<T, int>, c: seq<T>) {
    forall i :: 0 <= i < |c| ==> Before(at, c, 0, i)
  }

  /** Removing an element by erasing it from the vector leaves the first due one on top exactly when it was not the
      top itself, or the element that moves up is due no later than its sibling. */
  lemma EraseKeepsTop<T>(at: map<T, int>, c: seq<T>, i: nat)
    requires Heap(at, c) && i < |c|
    ensures TopFirst(at, Erase(c, i)) <==> i > 0 || |c| <= 2 || Before(at, c, 1, 2)
  {
    var d := Erase(c, i);
    if i > 0 {
      forall k | 0 <= k < |d| ensures Before(at, d, 0, k) {
        TopIsFirst(at, c, if k < i then k else k + 1);
      }
    } else if |c| > 2 {
      assert d[1] == c[2];
      if Before(at, c, 1, 2) {
        forall k | 0 <= k < |d| ensures Before(at, d, 0, k) {
          BelowChildren(at, c, k + 1);
        }
      } else {
        assert !Before(at, d, 0, 1);
      }
    }
  }

  /** Every element but the top is due no earlier than one of the two below the top. */
  lemma {:induction false} BelowChildren<T>(at: map<T, int>, c: seq<T>, i: nat)
    requires Heap(at, c) && 0 < i < |c|
    ensures Before(at, c, 1, i) || (|c| > 2 && Before(at, c, 2, i))
    decreases i
  {
    if i > 2 {
      assert Ordered(at, c, i);
      BelowChildren(at, c, Parent(i));
    }
  }

  /** The element that moves from j + 1 to j when the one at i is erased is due no earlier than the element that
      then is its parent. */
  predicate Fits<T>(at: map<T, int>, c: seq<T>, i: nat, j: nat)
    requires i <= j && 0 < j < |c| - 1
  {
    Before(at, c, if Parent(j) < i then Parent(j) else Parent(j) + 1, j + 1)
  }

  /** All elements behind the erased one fit where they move to. */
  predicate ShiftFits<T>(at: map<T, int>, c: seq<T>, i: nat) {
    forall j :: i <= j < |c| - 1 && 0 < j ==> Fits(at, c, i, j)
  }

  /** Erasing an element leaves a heap exactly when all elements behind it fit where they move to. */
  lemma EraseKeepsHeap<T>(at: map<T, int>, c: seq<T>, i: nat)
    requires Heap(at, c) && i < |c|
    ensures Heap(at, Erase(c, i)) <==> ShiftFits(at, c, i)
  {
    var d := Erase(c, i);
    forall j | 0 < j < |d| ensures Ordered(at, d, j) <==> j < i || Fits(at, c, i, j) {
      if j < i {
        assert Ordered(at, c, j);
      }
    }
    if Heap(at, d) {
      forall j | i <= j < |c| - 1 && 0 < j ensures Fits(at, c, i, j) {
        assert Ordered(at, d, j);
      }
    } else {
      var j :| 0 < j < |d| && !Ordered(at, d, j);
      assert !Fits(at, c, i, j);
    }
  }
}

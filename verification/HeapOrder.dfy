/**
The order of a binary heap, on the sequence of its keys, and what one exchange of a parent and
a child does to it.  Shared by the two users of container/heap: the backend pool and the frame
queue.
*/
module HeapOrder {

  function Parent(i: nat): nat { if i == 0 then 0 else (i - 1) / 2 }

  ghost predicate InOrder(ks: seq<int>, i: nat) {
    0 < i < |ks| ==> ks[Parent(i)] <= ks[i]
  }

  /** Every child below `n` is in order, except `up` itself and the children of `down`. */
  ghost predicate Ordered(ks: seq<int>, n: nat, up: int, down: int) {
    n <= |ks| && forall i: nat :: i < n && i != up && Parent(i) != down ==> InOrder(ks, i)
  }

  ghost predicate ChildAbove(ks: seq<int>, i: nat, c: nat) {
    0 < i < |ks| && 0 < c < |ks| && Parent(c) == i ==> ks[Parent(i)] <= ks[c]
  }

  /** The children of `i` below `n` are not below the parent of `i`. */
  ghost predicate Shielded(ks: seq<int>, n: nat, i: nat) {
    n <= |ks| && forall c: nat :: c < n ==> ChildAbove(ks, i, c)
  }

  ghost predicate Heap(ks: seq<int>) { Ordered(ks, |ks|, -1, -1) }

  /** All keys are the same. */
  ghost predicate Level(ks: seq<int>) { forall i :: 0 <= i < |ks| ==> ks[i] == ks[0] }

  ghost function Exchange<T>(s: seq<T>, i: nat, j: nat): seq<T>
    requires i < |s| && j < |s|
  {
    s[i := s[j]][j := s[i]]
  }

  /** One round of `up`. */
  lemma UpStep(ks: seq<int>, n: nat, j: nat)
    requires 0 < j < n && Ordered(ks, n, j, -1) && Shielded(ks, n, j) && ks[j] < ks[Parent(j)]
    ensures Ordered(Exchange(ks, Parent(j), j), n, Parent(j), -1)
    ensures Shielded(Exchange(ks, Parent(j), j), n, Parent(j))
  {
    var i := Parent(j);
    var ks' := Exchange(ks, i, j);
    forall x: nat | x < n && x != i ensures InOrder(ks', x) {
      assert ChildAbove(ks, j, x);
      assert x != j ==> InOrder(ks, x);
    }
    forall c: nat | c < n ensures ChildAbove(ks', i, c) {
      assert InOrder(ks, i);
      assert c != j ==> InOrder(ks, c);
    }
  }

  lemma UpDone(ks: seq<int>, n: nat, j: nat)
    requires j < n && Ordered(ks, n, j, -1) && (j == 0 || ks[Parent(j)] <= ks[j])
    ensures Ordered(ks, n, -1, -1)
  {
    assert InOrder(ks, j);
  }

  /** No child of `i` below `n` has a key under `k`. */
  ghost predicate Bounds(ks: seq<int>, n: nat, i: nat, k: int) {
    n <= |ks| && forall c: nat :: 0 < c < n && Parent(c) == i ==> k <= ks[c]
  }

  /** The child selected by `down`. */
  lemma ChildPicked(ks: seq<int>, n: nat, i: nat, j: nat)
    requires j < n <= |ks|
    requires (j == 2 * i + 1 && (j + 1 < n ==> ks[j] < ks[j + 1])) || (j == 2 * i + 2 && ks[j - 1] >= ks[j])
    ensures Parent(j) == i && Bounds(ks, n, i, ks[j])
  {
  }

  lemma NoChild(ks: seq<int>, n: nat, i: nat, k: int)
    requires n <= |ks| && 2 * i + 1 >= n
    ensures Bounds(ks, n, i, k)
  {
  }

  /** One round of `down` from `i`, where the sift began at `start`; `j` is a least child of `i`. */
  lemma DownStep(ks: seq<int>, n: nat, start: nat, i: nat, j: nat)
    requires i < j < n <= |ks| && Parent(j) == i && ks[j] < ks[i]
    requires Bounds(ks, n, i, ks[j])
    requires Ordered(ks, n, if i == start then start else -1, i) && Shielded(ks, n, i)
    ensures Ordered(Exchange(ks, i, j), n, -1, j)
    ensures Shielded(Exchange(ks, i, j), n, j)
  {
    var ks' := Exchange(ks, i, j);
    forall x: nat | x < n && Parent(x) != j ensures InOrder(ks', x) {
      assert ChildAbove(ks, i, j);
      assert x != start && Parent(x) != i ==> InOrder(ks, x);
    }
    forall c: nat | c < n ensures ChildAbove(ks', j, c) {
      assert Parent(c) == j && c != start ==> InOrder(ks, c);
    }
  }

  lemma BoundsRelax(ks: seq<int>, n: nat, i: nat, k: int, l: int)
    requires Bounds(ks, n, i, k) && l <= k
    ensures Bounds(ks, n, i, l)
  {
  }

  /** `down` stops at `i`. */
  lemma DownDone(ks: seq<int>, n: nat, start: nat, i: nat)
    requires start <= i < n && Ordered(ks, n, if i == start then start else -1, i) && Shielded(ks, n, i)
    requires i < |ks| && Bounds(ks, n, i, ks[i])
    ensures Ordered(ks, n, start, -1) && Shielded(ks, n, start)
  {
    forall x: nat | x < n && x != start ensures InOrder(ks, x) {
    }
    if i != start {
      forall c: nat | c < n ensures ChildAbove(ks, start, c) {
        assert InOrder(ks, start) && InOrder(ks, c);
      }
    }
  }

  lemma {:induction false} RootIsLeast(ks: seq<int>, i: nat)
    requires Heap(ks) && i < |ks|
    ensures ks[0] <= ks[i]
  {
    if i > 0 {
      RootIsLeast(ks, Parent(i));
      assert InOrder(ks, i);
    }
  }

  /** Appending a key leaves only the new leaf possibly out of order. */
  lemma Appended(ks: seq<int>, k: int)
    requires Heap(ks)
    ensures Ordered(ks + [k], |ks| + 1, |ks|, -1) && Shielded(ks + [k], |ks| + 1, |ks|)
  {
    forall x: nat | x < |ks| ensures InOrder(ks + [k], x) {
      assert InOrder(ks, x);
    }
  }

  /** Exchanging position `i` with the last one leaves, below the last, only position `i` possibly out of order. */
  lemma LastMoved(ks: seq<int>, i: nat)
    requires Heap(ks) && i < |ks| - 1
    ensures Ordered(Exchange(ks, i, |ks| - 1), |ks| - 1, i, i) && Shielded(Exchange(ks, i, |ks| - 1), |ks| - 1, i)
  {
    var n := |ks| - 1;
    var ks' := Exchange(ks, i, n);
    forall x: nat | x < n && x != i && Parent(x) != i ensures InOrder(ks', x) {
      assert InOrder(ks, x);
    }
    forall c: nat | c < n ensures ChildAbove(ks', i, c) {
      assert InOrder(ks, i) && InOrder(ks, c);
    }
  }

  lemma Shortened(ks: seq<int>, n: nat)
    requires Heap(ks) && n <= |ks|
    ensures Ordered(ks, n, -1, -1)
  {
  }

  lemma Truncated(ks: seq<int>, n: nat)
    requires n <= |ks| && Ordered(ks, n, -1, -1)
    ensures Heap(ks[..n])
  {
    forall x: nat | x < n ensures InOrder(ks[..n], x) {
      assert InOrder(ks, x);
    }
  }

  /** A sequence without its first entry, the last in its place. */
  ghost function Headless<T>(s: seq<T>): seq<T>
    requires s != []
  {
    if |s| == 1 then [] else [s[|s| - 1]] + s[1..|s| - 1]
  }

  lemma HeadlessIs<T>(s: seq<T>)
    requires s != []
    ensures Exchange(s, 0, |s| - 1)[..|s| - 1] == Headless(s)
  {
  }

  /** First and last change places, and are back after a second turn. */
  lemma TurnTwice<T>(s: seq<T>)
    requires s != []
    ensures var t := Headless(s) + [s[0]];
            t == Exchange(s, 0, |s| - 1) && Headless(t) + [t[0]] == s
  {
  }

  lemma LevelExchange(ks: seq<int>, i: nat, j: nat)
    requires Level(ks) && i < |ks| && j < |ks|
    ensures Exchange(ks, i, j) == ks
  {
  }

  lemma EmptyHeap(ks: seq<int>)
    requires ks == []
    ensures Heap(ks)
  {
  }
}

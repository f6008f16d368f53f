/**
The heap of backends.  `Pool` supplies Less, Swap, Push and Pop; the loops `Up` and `Down` and the
operations `HeapPush`, `HeapPop` and `HeapRemove` are those of Go 1.3's container/heap, which is
not part of the repository.  Every backend of the heap stores its own position in `index`.
*/
module Pools {
  import opened Backends
  import opened HeapOrder

  const MAX_FORWARDERS: nat := 8192

  class Pool {
    const leastweight: bool
    var backends: seq<Backend>

    constructor (leastweight: bool)
      ensures this.leastweight == leastweight && backends == []
    {
      this.leastweight := leastweight;
      backends := [];
    }

    function Key(b: Backend): int
      reads b`ongoing
    {
      if leastweight then b.weight else b.ongoing
    }

    ghost function Keys(): (ks: seq<int>)
      reads this, Members()
      ensures |ks| == |backends| && forall i :: 0 <= i < |backends| ==> ks[i] == Key(backends[i])
    {
      seq(|backends|, i requires 0 <= i < |backends| reads this, Members() => Key(backends[i]))
    }

    /** Back-indices are right, hence no backend occurs twice. */
    ghost predicate Indexed()
      reads this`backends, Members()`index
    {
      forall i :: 0 <= i < |backends| ==> backends[i].index == i
    }

    ghost predicate Valid()
      reads this, Members()
    {
      Indexed() && Heap(Keys())
    }

    lemma ChildNotLess(i: nat, j: nat)
      requires i < j < |backends| && (j == 2 * i + 1 || j == 2 * i + 2) && Valid()
      ensures !Less(j, i)
    {
      assert InOrder(Keys(), j) && Parent(j) == i;
    }

    ghost function Members(): set<Backend>
      reads this`backends
    {
      set b | b in backends
    }

    predicate Less(i: nat, j: nat)
      requires i < |backends| && j < |backends|
      reads this, Members()
      ensures Less(i, j) <==> Keys()[i] < Keys()[j]
    {
      if leastweight then backends[i].weight < backends[j].weight
      else backends[i].ongoing < backends[j].ongoing
    }

    method Swap(i: nat, j: nat)
      requires i < |backends| && j < |backends| && Indexed()
      modifies this`backends, Members()`index
      ensures |backends| == old(|backends|) && forall k :: 0 <= k < |backends| && k != i && k != j ==> backends[k] == old(backends)[k]
      ensures backends == Exchange(old(backends), i, j) && Keys() == Exchange(old(Keys()), i, j)
      ensures Indexed() && Members() == old(Members())
    {
      backends := backends[i := backends[j]][j := backends[i]];
      backends[i].index := i;
      backends[j].index := j;
      ExchangeKeeps(old(backends), i, j);
    }

    static lemma ExchangeKeeps(s: seq<Backend>, i: nat, j: nat)
      requires i < |s| && j < |s|
      ensures forall b :: b in Exchange(s, i, j) <==> b in s
    {
      var t := Exchange(s, i, j);
      forall k | 0 <= k < |s| ensures s[k] in t {
        assert t[if k == i then j else if k == j then i else k] == s[k];
      }
    }

    /** heap.Interface's Push: append within the capacity of the slice. */
    method Push(b: Backend)
      requires Indexed() && b !in backends && |backends| < MAX_FORWARDERS
      modifies this`backends, b`index
      ensures backends == old(backends) + [b] && Indexed()
    {
      b.index := |backends|;
      backends := backends + [b];
    }

    method Pop() returns (b: Backend)
      requires Indexed() && backends != []
      modifies this`backends, Members()`index
      ensures old(backends) == backends + [b] && b.index == -1 && Indexed() && b !in backends
    {
      b := backends[|backends| - 1];
      backends := backends[..|backends| - 1];
      b.index := -1;
    }

    /** From `n` on nothing has moved. */
    ghost predicate Beyond(n: nat, before: seq<Backend>)
      reads this`backends
    {
      |backends| == |before| && forall k :: n <= k < |before| ==> backends[k] == before[k]
    }

    method Up(start: nat, ghost n: nat)
      requires start < n <= |backends| && Indexed()
      requires Ordered(Keys(), n, start, -1) && Shielded(Keys(), n, start)
      modifies this`backends, Members()`index
      ensures |backends| == old(|backends|) && Indexed() && Members() == old(Members())
      ensures Ordered(Keys(), n, -1, -1) && Beyond(n, old(backends))
      ensures old(Level(Keys())) ==> backends == old(backends)
    {
      hide Ordered, Shielded;
      var j: nat := start;
      while true
        invariant old(Level(Keys())) ==> backends == old(backends) && Keys() == old(Keys())
        invariant j < n <= |backends| == old(|backends|) && Indexed() && Members() == old(Members())
        invariant Ordered(Keys(), n, j, -1) && Shielded(Keys(), n, j) && Beyond(n, old(backends))
        decreases j
      {
        var i := if j == 0 then 0 else (j - 1) / 2;
        if i == j || !Less(j, i) {
          break;
        }
        UpStep(Keys(), n, j);
        Swap(i, j);
        j := i;
      }
      UpDone(Keys(), n, j);
    }

    method Down(start: nat, n: nat)
      requires start < n <= |backends| && Indexed()
      requires Ordered(Keys(), n, start, start) && Shielded(Keys(), n, start)
      modifies this`backends, Members()`index
      ensures |backends| == old(|backends|) && Indexed() && Members() == old(Members())
      ensures Ordered(Keys(), n, start, -1) && Shielded(Keys(), n, start) && Beyond(n, old(backends))
      ensures old(Level(Keys())) ==> backends == old(backends)
    {
      hide Ordered, Shielded, Bounds, Parent, Exchange, Less, Keys, Members, Heap;
      var i: nat := start;
      while true
        invariant old(Level(Keys())) ==> backends == old(backends) && Keys() == old(Keys())
        invariant start <= i < n <= |backends| == old(|backends|) && Indexed() && Members() == old(Members())
        invariant Beyond(n, old(backends))
        invariant Ordered(Keys(), n, if i == start then start else -1, i) && Shielded(Keys(), n, i)
        decreases n - i
      {
        var j1 := 2 * i + 1;
        if j1 >= n {
          NoChild(Keys(), n, i, Keys()[i]);
          break;
        }
        var j := if j1 + 1 < n && !Less(j1, j1 + 1) then j1 + 1 else j1;
        ChildPicked(Keys(), n, i, j);
        if !Less(j, i) {
          BoundsRelax(Keys(), n, i, Keys()[j], Keys()[i]);
          break;
        }
        DownStep(Keys(), n, start, i, j);
        Swap(i, j);
        i := j;
      }
      DownDone(Keys(), n, start, i);
    }

    /** heap.Push.  Among equal keys the newcomer stays last. */
    method HeapPush(b: Backend)
      requires Valid() && b !in backends && |backends| < MAX_FORWARDERS
      modifies this`backends, Members()`index, b`index
      ensures Valid() && Members() == old(Members()) + {b} && |backends| == old(|backends|) + 1
      ensures Level(old(Keys()) + [old(Key(b))]) ==> backends == old(backends) + [b]
    {
      hide Ordered, Shielded, Level;
      Appended(Keys(), Key(b));
      Push(b);
      assert Members() == old(Members()) + {b};
      assert Keys() == old(Keys()) + [Key(b)];
      Up(|backends| - 1, |backends|);
    }

    lemma RootLeast()
      requires Valid() && backends != []
      ensures forall c :: c in Members() ==> Key(backends[0]) <= Key(c)
    {
      forall c | c in backends ensures Key(backends[0]) <= Key(c) {
        RootIsLeast(Keys(), c.index);
      }
    }

    /** The root trades places with the last backend, which sinks. */
    method SinkRoot(n: nat)
      requires Valid() && n + 1 == |backends|
      modifies this`backends, Members()`index
      ensures |backends| == n + 1 && Indexed() && Members() == old(Members())
      ensures backends[n] == old(backends[0]) && Heap(Keys()[..n])
      ensures old(Level(Keys())) ==> backends == Exchange(old(backends), 0, n)
    {
      hide Ordered, Shielded;
      if Level(Keys()) {
        LevelExchange(Keys(), 0, n);
      }
      hide Level;
      Swap(0, n);
      if n > 0 {
        LastMoved(old(Keys()), 0);
        Down(0, n);
        UpDone(Keys(), n, 0);
        Truncated(Keys(), n);
      } else {
        EmptyHeap(Keys()[..n]);
      }
    }

    /** heap.Pop: a backend of least key leaves; among equal keys it is the first, and the last takes its place. */
    method HeapPop() returns (b: Backend)
      requires Valid() && backends != []
      modifies this`backends, Members()`index
      ensures Valid() && Members() == old(Members()) - {b} && b in old(Members()) && b.index == -1
      ensures |backends| == old(|backends|) - 1
      ensures forall c :: c in old(Members()) ==> Key(b) <= Key(c)
      ensures old(Level(Keys())) ==> b == old(backends)[0] && backends == Headless(old(backends))
    {
      RootLeast();
      HeadlessIs(backends);
      hide Heap, Level, Headless, Exchange;
      SinkRoot(|backends| - 1);
      label full:
      b := Pop();
      assert Keys() == old@full(Keys())[..|backends|];
    }

    /** heap.Remove */
    method HeapRemove(i: nat) returns (b: Backend)
      requires Valid() && i < |backends|
      modifies this`backends, Members()`index
      ensures Valid() && b == old(backends[i]) && b.index == -1
      ensures Members() == old(Members()) - {b} && |backends| == old(|backends|) - 1
    {
      hide Ordered, Shielded;
      var n := |backends| - 1;
      if n != i {
        LastMoved(Keys(), i);
        Swap(i, n);
        Down(i, n);
        Up(i, n);
      } else {
        Shortened(Keys(), n);
      }
      Truncated(Keys(), n);
      label full:
      b := Pop();
      assert Keys() == old@full(Keys())[..n];
    }
  }
}

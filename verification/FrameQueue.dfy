/**
The priority queue of SPDY frames: a binary heap ordered by priority and insertion id, proved to
be a list sorted by priority in which a new frame goes behind those of its own priority.
*/
module FrameQueues {
  import opened HeapOrder

  const INSERT_IDS: nat := 0x1_0000_0000_0000_0000   // insertId is a uint64

  datatype Entry<F> = Entry(frame: F, priority: nat, insertId: nat)

  // ---------- The list ----------

  predicate Before<F>(p: Entry<F>, q: Entry<F>) {
    p.priority < q.priority || (p.priority == q.priority && p.insertId < q.insertId)
  }

  ghost predicate Sorted<F>(m: seq<Entry<F>>) {
    forall i, j :: 0 <= i < j < |m| ==> Before(m[i], m[j])
  }

  ghost predicate ByPriority<F>(m: seq<Entry<F>>) {
    forall i, j :: 0 <= i < j < |m| ==> m[i].priority <= m[j].priority
  }

  /** Number of entries a new entry of priority `priority` goes behind. */
  ghost function Ahead<F>(m: seq<Entry<F>>, priority: nat): (k: nat)
    ensures k <= |m|
  {
    if m == [] || priority < m[0].priority then 0 else 1 + Ahead(m[1..], priority)
  }

  ghost function Insert<F>(m: seq<Entry<F>>, p: Entry<F>): seq<Entry<F>> {
    var k := Ahead(m, p.priority);
    m[..k] + [p] + m[k..]
  }

  /** A new entry comes before an old one exactly when its priority number is smaller. */
  lemma {:induction false} OvertakesIff<F>(m: seq<Entry<F>>, priority: nat, i: nat)
    requires ByPriority(m) && i < |m|
    ensures Ahead(m, priority) <= i <==> priority < m[i].priority
    decreases |m|
  {
    if priority >= m[0].priority && i > 0 {
      OvertakesIff(m[1..], priority, i - 1);
    }
  }

  lemma InsertSorted<F>(m: seq<Entry<F>>, p: Entry<F>)
    requires Sorted(m) && forall q :: q in m ==> q.insertId < p.insertId
    ensures Sorted(Insert(m, p))
    ensures multiset(Insert(m, p)) == multiset(m) + multiset{p}
    ensures forall q :: q in Insert(m, p) ==> q.insertId <= p.insertId
  {
    var k := Ahead(m, p.priority);
    assert m == m[..k] + m[k..];
    forall i | 0 <= i < |m| ensures if i < k then Before(m[i], p) else Before(p, m[i]) {
      OvertakesIff(m, p.priority, i);
      assert m[i] in m;
    }
    SplicedSorted(m, k, p);
  }

  lemma SplicedSorted<F>(m: seq<Entry<F>>, k: nat, p: Entry<F>)
    requires Sorted(m) && k <= |m|
    requires forall i :: 0 <= i < |m| ==> if i < k then Before(m[i], p) else Before(p, m[i])
    ensures Sorted(m[..k] + [p] + m[k..])
  {
    hide Before;
    var n := m[..k] + [p] + m[k..];
    forall i, j | 0 <= i < j < |n| ensures Before(n[i], n[j]) {
      assert i != k ==> n[i] == m[if i < k then i else i - 1];
      assert j != k ==> n[j] == m[if j < k then j else j - 1];
    }
  }

  /** The entries of one priority, in list order. */
  ghost function Class<F>(m: seq<Entry<F>>, priority: nat): seq<Entry<F>> {
    if m == [] then []
    else (if m[0].priority == priority then [m[0]] else []) + Class(m[1..], priority)
  }

  lemma {:induction false} ClassSplit<F>(m: seq<Entry<F>>, n: seq<Entry<F>>, priority: nat)
    ensures Class(m + n, priority) == Class(m, priority) + Class(n, priority)
    decreases |m|
  {
    if m == [] {
      assert m + n == n;
    } else {
      ClassStep(m, n, priority);
      ClassSplit(m[1..], n, priority);
      hide Class;
      Regroup(Class(m[..1], priority), Class(m[1..], priority), Class(n, priority));
    }
  }

  lemma ClassStep<F>(m: seq<Entry<F>>, n: seq<Entry<F>>, priority: nat)
    requires m != []
    ensures Class(m + n, priority) == Class(m[..1], priority) + Class(m[1..] + n, priority)
    ensures Class(m, priority) == Class(m[..1], priority) + Class(m[1..], priority)
  {
    assert (m + n)[0] == m[0] && (m + n)[1..] == m[1..] + n;
    assert m[..1][0] == m[0] && m[..1][1..] == [];
  }

  lemma Regroup<F>(a: seq<F>, b: seq<F>, c: seq<F>)
    ensures a + (b + c) == a + b + c
  {
  }

  lemma {:induction false} ClassEmpty<F>(m: seq<Entry<F>>, priority: nat)
    requires forall q :: q in m ==> q.priority != priority
    ensures Class(m, priority) == []
    decreases |m|
  {
    if m != [] {
      assert m[0] in m;
      ClassEmpty(m[1..], priority);
    }
  }

  /** Each priority is a first-in first-out queue: a new entry joins the end of its own and leaves the others alone. */
  lemma InsertIsFifo<F>(m: seq<Entry<F>>, p: Entry<F>, priority: nat)
    requires ByPriority(m)
    ensures Class(Insert(m, p), priority) == Class(m, priority) + if p.priority == priority then [p] else []
  {
    var k := Ahead(m, p.priority);
    var front, back := m[..k], m[k..];
    assert m == front + back;
    if p.priority == priority {
      forall i | k <= i < |m| ensures m[i].priority != priority {
        OvertakesIff(m, priority, i);
      }
      ClassEmpty(back, priority);
    }
    SplicedClass(front, p, back, priority);
  }

  lemma SplicedClass<F>(front: seq<Entry<F>>, p: Entry<F>, back: seq<Entry<F>>, priority: nat)
    requires p.priority == priority ==> Class(back, priority) == []
    ensures Class(front + [p] + back, priority)
         == Class(front + back, priority) + if p.priority == priority then [p] else []
  {
    ClassSplit(front, back, priority);
    ClassSplit(front + [p], back, priority);
    ClassSplit(front, [p], priority);
    assert [p][1..] == [];
  }

  /** The head is the oldest entry of the smallest priority present, and taking it takes the head of its class. */
  lemma HeadIsFirst<F>(m: seq<Entry<F>>, priority: nat)
    requires Sorted(m) && m != []
    ensures forall q :: q in m ==> q == m[0] || Before(m[0], q)
    ensures Class(m, m[0].priority) == [m[0]] + Class(m[1..], m[0].priority)
    ensures priority != m[0].priority ==> Class(m[1..], priority) == Class(m, priority)
  {
    forall q | q in m ensures q == m[0] || Before(m[0], q) {
      var i :| 0 <= i < |m| && m[i] == q;
    }
  }

  lemma TailKeeps<F>(m: seq<Entry<F>>)
    requires Sorted(m) && m != []
    ensures Sorted(m[1..]) && multiset(m[1..]) == multiset(m) - multiset{m[0]}
    ensures forall q :: q in m[1..] ==> q in m
  {
    assert m == [m[0]] + m[1..];
  }

  // ---------- The heap ----------

  ghost function Rank<F>(p: Entry<F>): int { p.priority * INSERT_IDS + p.insertId }

  ghost function Ranks<F>(s: seq<Entry<F>>): (ks: seq<int>)
    ensures |ks| == |s| && forall i :: 0 <= i < |s| ==> ks[i] == Rank(s[i])
  {
    seq(|s|, i requires 0 <= i < |s| => Rank(s[i]))
  }

  lemma RankOrder<F>(p: Entry<F>, q: Entry<F>)
    requires p.insertId < INSERT_IDS && q.insertId < INSERT_IDS
    ensures Rank(p) < Rank(q) <==> Before(p, q)
  {
  }

  /** The root of the heap is the head of the list. */
  lemma RootIsHead<F>(queue: seq<Entry<F>>, m: seq<Entry<F>>)
    requires multiset(queue) == multiset(m) && Sorted(m) && Heap(Ranks(queue)) && queue != []
    requires forall q :: q in m ==> q.insertId < INSERT_IDS
    ensures m != [] && queue[0] == m[0]
  {
    assert queue[0] in multiset(m);
    assert m != [];
    assert m[0] in multiset(queue);
    var i :| 0 <= i < |queue| && queue[i] == m[0];
    RootIsLeast(Ranks(queue), i);
    RankOrder(m[0], queue[0]);
    HeadIsFirst(m, 0);
  }

  datatype Popped<F> = Waits | Drained | Frame(frame: F)

  class PriorityFrameQueue<F> {
    const size: nat
    var queue: seq<Entry<F>>
    var nextInsertId: nat
    var drain: bool
    ghost var model: seq<Entry<F>>

    ghost predicate Valid()
      reads this
    {
      && Heap(Ranks(queue)) && |queue| <= size
      && multiset(queue) == multiset(model) && Sorted(model)
      && nextInsertId < INSERT_IDS && forall q :: q in model ==> q.insertId < nextInsertId
    }

    constructor (size: nat)
      ensures Valid() && model == [] && this.size == size && nextInsertId == 0 && !drain
    {
      this.size := size;
      queue, nextInsertId, drain := [], 0, false;
      model := [];
    }

    ghost predicate Numbered()
      reads this`queue
    {
      forall q :: q in queue ==> q.insertId < INSERT_IDS
    }

    predicate Less(i: nat, j: nat)
      requires i < |queue| && j < |queue| && Numbered()
      reads this`queue
      ensures Less(i, j) <==> Ranks(queue)[i] < Ranks(queue)[j]
    {
      RankOrder(queue[i], queue[j]);
      if queue[i].priority == queue[j].priority then queue[i].insertId < queue[j].insertId
      else queue[i].priority < queue[j].priority
    }

    method Swap(i: nat, j: nat)
      requires i < |queue| && j < |queue|
      modifies this`queue
      ensures queue == Exchange(old(queue), i, j) && multiset(queue) == multiset(old(queue))
      ensures Ranks(queue) == Exchange(Ranks(old(queue)), i, j)
      ensures old(Numbered()) ==> Numbered()
    {
      hide Rank;
      queue := queue[i := queue[j]][j := queue[i]];
      if old(Numbered()) {
        forall q | q in queue ensures q.insertId < INSERT_IDS {
          assert q in old(queue);
        }
      }
    }

    method Up(start: nat)
      requires start < |queue| && Numbered()
      requires Ordered(Ranks(queue), |queue|, start, -1) && Shielded(Ranks(queue), |queue|, start)
      modifies this`queue
      ensures multiset(queue) == multiset(old(queue)) && Heap(Ranks(queue))
    {
      hide Ordered, Shielded, Rank;
      var j: nat := start;
      while true
        invariant j < |queue| == |old(queue)| && multiset(queue) == multiset(old(queue)) && Numbered()
        invariant Ordered(Ranks(queue), |queue|, j, -1) && Shielded(Ranks(queue), |queue|, j)
        decreases j
      {
        var i := if j == 0 then 0 else (j - 1) / 2;
        if i == j || !Less(j, i) {
          break;
        }
        UpStep(Ranks(queue), |queue|, j);
        Swap(i, j);
        j := i;
      }
      UpDone(Ranks(queue), |queue|, j);
    }

    method Down(n: nat)
      requires 0 < n && n + 1 == |queue| && Numbered()
      requires Ordered(Ranks(queue), n, 0, 0) && Shielded(Ranks(queue), n, 0)
      modifies this`queue
      ensures multiset(queue) == multiset(old(queue)) && |queue| == n + 1 && queue[n] == old(queue)[n]
      ensures Ordered(Ranks(queue), n, -1, -1)
    {
      hide Ordered, Shielded, Bounds, Parent, Rank, Less;
      var i: nat := 0;
      while true
        invariant i < n && n + 1 == |queue| == |old(queue)| && multiset(queue) == multiset(old(queue)) && Numbered()
        invariant queue[n] == old(queue)[n]
        invariant Ordered(Ranks(queue), n, if i == 0 then 0 else -1, i) && Shielded(Ranks(queue), n, i)
        decreases n - i
      {
        var j1 := 2 * i + 1;
        if j1 >= n {
          NoChild(Ranks(queue), n, i, Ranks(queue)[i]);
          break;
        }
        var j := if j1 + 1 < n && !Less(j1, j1 + 1) then j1 + 1 else j1;
        ChildPicked(Ranks(queue), n, i, j);
        if !Less(j, i) {
          BoundsRelax(Ranks(queue), n, i, Ranks(queue)[j], Ranks(queue)[i]);
          break;
        }
        DownStep(Ranks(queue), n, 0, i, j);
        Swap(i, j);
        i := j;
      }
      DownDone(Ranks(queue), n, 0, i);
      UpDone(Ranks(queue), n, 0);
    }

    /**
    A full queue makes the caller wait and nothing changes; otherwise the frame joins the end of
    its priority.  The caller is not at the last insertion id, where the counter would wrap.
    */
    method Push(frame: F, priority: nat) returns (waits: bool)
      requires Valid() && nextInsertId + 1 < INSERT_IDS
      modifies this
      ensures Valid() && drain == old(drain) && (waits <==> |old(model)| >= size)
      ensures waits ==> model == old(model) && queue == old(queue) && nextInsertId == old(nextInsertId)
      ensures !waits ==> model == Insert(old(model), Entry(frame, priority, old(nextInsertId)))
      ensures !waits ==> nextInsertId == old(nextInsertId) + 1
    {
      SameEntries(nextInsertId);
      if |queue| >= size {
        return true;
      }
      hide Heap, Before, Rank, Insert, Ranks, Sorted;
      var p := Entry(frame, priority, nextInsertId);
      nextInsertId := nextInsertId + 1;
      HeapPush(p);
      InsertSorted(model, p);
      model := Insert(model, p);
      SameEntries(nextInsertId);
      return false;
    }

    method HeapPush(p: Entry<F>)
      requires Heap(Ranks(queue)) && Numbered() && p.insertId < INSERT_IDS
      modifies this`queue
      ensures Heap(Ranks(queue)) && multiset(queue) == multiset(old(queue)) + multiset{p}
    {
      hide Ordered, Shielded, Rank;
      Appended(Ranks(queue), Rank(p));
      queue := queue + [p];
      assert Ranks(queue) == Ranks(old(queue)) + [Rank(p)];
      Up(|queue| - 1);
    }

    method HeapPop() returns (p: Entry<F>)
      requires Heap(Ranks(queue)) && Numbered() && queue != []
      modifies this`queue
      ensures p == old(queue)[0] && Heap(Ranks(queue))
      ensures multiset(queue) + multiset{p} == multiset(old(queue))
    {
      hide Ordered, Shielded, Rank;
      var n := |queue| - 1;
      Swap(0, n);
      if n > 0 {
        LastMoved(Ranks(old(queue)), 0);
        Down(n);
        Truncated(Ranks(queue), n);
      }
      p := queue[n];
      LastOff(queue);
      hide Heap, Exchange;
      queue := queue[..n];
    }

    static lemma LastOff(s: seq<Entry<F>>)
      requires s != []
      ensures var n := |s| - 1;
              Ranks(s[..n]) == Ranks(s)[..n] && multiset(s[..n]) + multiset{s[n]} == multiset(s) && (n == 0 ==> Heap(Ranks(s[..n])))
    {
      hide Rank;
      var n := |s| - 1;
      assert s == s[..n] + [s[n]];
      if n == 0 {
        EmptyHeap(Ranks(s[..n]));
      }
    }

    /** An empty queue makes the caller wait or, when drained, go home; otherwise the head of the list leaves. */
    method Pop() returns (r: Popped<F>)
      requires Valid()
      modifies this
      ensures Valid() && nextInsertId == old(nextInsertId) && drain == old(drain)
      ensures r == Drained <==> old(model) == [] && drain
      ensures r == Waits <==> old(model) == [] && !drain
      ensures old(model) == [] ==> model == [] && queue == old(queue)
      ensures old(model) != [] ==> r == Frame(old(model)[0].frame) && model == old(model)[1..]
    {
      SameEntries(nextInsertId);
      if |queue| == 0 {
        return if drain then Drained else Waits;
      }
      RootIsHead(queue, model);
      TailKeeps(model);
      hide Heap, Sorted, Before, Rank, Ranks;
      var p := HeapPop();
      model := model[1..];
      assert multiset(queue) == multiset(old(queue)) - multiset{p};
      SameEntries(nextInsertId);
      return Frame(p.frame);
    }

    /** The heap and the list hold the same entries. */
    lemma SameEntries(bound: nat)
      requires multiset(queue) == multiset(model) && forall q :: q in model ==> q.insertId < bound
      ensures |queue| == |model| && forall q :: q in queue ==> q.insertId < bound
    {
      assert |multiset(queue)| == |queue| && |multiset(model)| == |model|;
      forall q | q in queue ensures q.insertId < bound {
        assert q in multiset(queue);
      }
    }

    method Drain()
      requires Valid()
      modifies this`drain
      ensures Valid() && drain
    {
      drain := true;
    }
  }
}

/**
The closing of tunnel connections over the runs of `TunnelRepair`: whoever takes a connection out of
its slot closes it, be it the scheduler that puts another one there or the forwarder whose
compare-and-swap wins.
*/
module TunnelClosings {
  import opened TunnelRepair
  import opened Wrappers

  function One(b: bool): nat { if b then 1 else 0 }

  /** The step puts `c` into a slot. */
  ghost predicate Installs<K, C>(e: Step<K, C>, c: C) { e.Switch? && e.conn == c }

  /** The step closes `c`: a switch finds it in the slot, or a swap finds it still there. */
  ghost predicate Closes<K, C>(n: Net<K, C>, e: Step<K, C>, c: C) {
    (e.Switch? || (e.Swap? && e.conn == c)) && e.key in n.slots && n.slots[e.key].conn == Some(c)
  }

  /** How often the first `n` steps install, and close, `c`. */
  ghost function Installed<K, C>(steps: seq<Step<K, C>>, n: nat, c: C): nat
    requires n <= |steps|
  {
    if n == 0 then 0 else Installed(steps, n - 1, c) + One(Installs(steps[n - 1], c))
  }

  ghost function Closed<K, C>(run: seq<Net<K, C>>, steps: seq<Step<K, C>>, n: nat, c: C): nat
    requires n <= |run| && n <= |steps|
  {
    if n == 0 then 0 else Closed(run, steps, n - 1, c) + One(Closes(run[n - 1], steps[n - 1], c))
  }

  /** The slots that hold `c`. */
  ghost function Holders<K, C>(slots: map<K, Slot<C>>, c: C): set<K> {
    set k | k in slots && slots[k].conn == Some(c)
  }

  lemma OneSlotWritten<K, C>(slots: map<K, Slot<C>>, k: K, s: Slot<C>, c: C)
    requires k in slots
    ensures |Holders(slots[k := s], c)| + One(slots[k].conn == Some(c)) == |Holders(slots, c)| + One(s.conn == Some(c))
  {
    var before, after := Holders(slots, c), Holders(slots[k := s], c);
    assert after - {k} == before - {k};
    assert |after| == |after - {k}| + One(k in after);
    assert |before| == |before - {k}| + One(k in before);
  }

  lemma SameHolders<K, C>(n: Net<K, C>, e: Step<K, C>, c: C)
    requires Enabled(n, e) && !e.Switch? && !e.Swap?
    ensures Holders(Next(n, e).slots, c) == Holders(n.slots, c)
  {
  }

  /** One step. */
  lemma StepBalances<K, C>(n: Net<K, C>, e: Step<K, C>, c: C)
    requires Enabled(n, e)
    ensures |Holders(Next(n, e).slots, c)| + One(Closes(n, e, c)) == |Holders(n.slots, c)| + One(Installs(e, c))
  {
    hide Holders;
    match e
    case Switch(k, d) => OneSlotWritten(n.slots, k, Slot(Some(d), false), c);
    case Swap(k, d) => OneSlotWritten(n.slots, k, n.slots[k].(conn := None), c);
    case _ => SameHolders(n, e, c);
  }

  /**
  In every interleaving and for every connection: each time it was put into a slot it has been
  closed once or is in a slot still.
  */
  lemma {:induction false} ClosingBalance<K, C>(run: seq<Net<K, C>>, steps: seq<Step<K, C>>, n: nat, c: C)
    requires IsRun(run, steps) && n < |run|
    ensures Closed(run, steps, n, c) + |Holders(run[n].slots, c)| == Installed(steps, n, c)
  {
    hide Enabled, Next, Closes, Installs;
    if n == 0 {
      assert Holders(run[0].slots, c) == {};
    } else {
      ClosingBalance(run, steps, n - 1, c);
      hide Holders;
      StepBalances(run[n - 1], steps[n - 1], c);
    }
  }

  /** `c` came with one of the first `n` steps. */
  ghost predicate Came<K, C>(steps: seq<Step<K, C>>, n: nat, c: C) {
    exists i :: 0 <= i < n && i < |steps| && Installs(steps[i], c)
  }

  /** Every session brings its own connection. */
  ghost predicate OwnConnections<K, C>(steps: seq<Step<K, C>>) {
    forall i, j :: 0 <= i < j < |steps| && steps[i].Switch? && steps[j].Switch? ==> steps[i].conn != steps[j].conn
  }

  lemma {:induction false} InstalledOnce<K, C>(steps: seq<Step<K, C>>, n: nat, c: C)
    requires n <= |steps| && OwnConnections(steps)
    ensures Installed(steps, n, c) == One(Came(steps, n, c))
  {
    if n > 0 {
      InstalledOnce(steps, n - 1, c);
    }
  }

  lemma HeldNowhere<K, C>(slots: map<K, Slot<C>>, c: C)
    ensures |Holders(slots, c)| == 0 <==> forall k :: k in slots ==> slots[k].conn != Some(c)
  {
    if k :| k in slots && slots[k].conn == Some(c) {
      assert k in Holders(slots, c);
    }
  }

  /**
  While a connection is in a slot it is in one slot and open, and once it has left it has been closed
  exactly once.
  */
  lemma ClosedExactlyOnce<K, C>(run: seq<Net<K, C>>, steps: seq<Step<K, C>>, n: nat, c: C)
    requires IsRun(run, steps) && n < |run| && OwnConnections(steps)
    ensures |Holders(run[n].slots, c)| <= 1 && Closed(run, steps, n, c) <= 1
    ensures Closed(run, steps, n, c) == 1
       <==> Came(steps, n, c) && forall k :: k in run[n].slots ==> run[n].slots[k].conn != Some(c)
  {
    ClosingBalance(run, steps, n, c);
    InstalledOnce(steps, n, c);
    HeldNowhere(run[n].slots, c);
    hide Holders, IsRun, Came, Closed, Installed, OwnConnections;
  }

  // ---------- Connections in the hands of forwarders ----------

  /** A forwarder loads `c` from slot `k`; it is done with it, with a stream or with its compare-and-swap. */
  ghost predicate Loads<K, C>(n: Net<K, C>, e: Step<K, C>, k: K, c: C) {
    e == Load(k) && k in n.slots && n.slots[k].conn == Some(c)
  }

  ghost predicate Leaves<K, C>(e: Step<K, C>, k: K, c: C) { e == StreamCreated(k, c) || e == Swap(k, c) }

  ghost function LoadCount<K, C>(run: seq<Net<K, C>>, steps: seq<Step<K, C>>, n: nat, k: K, c: C): nat
    requires n <= |run| && n <= |steps|
  {
    if n == 0 then 0 else LoadCount(run, steps, n - 1, k, c) + One(Loads(run[n - 1], steps[n - 1], k, c))
  }

  ghost function LeaveCount<K, C>(steps: seq<Step<K, C>>, n: nat, k: K, c: C): nat
    requires n <= |steps|
  {
    if n == 0 then 0 else LeaveCount(steps, n - 1, k, c) + One(Leaves(steps[n - 1], k, c))
  }

  lemma StepHolds<K, C>(n: Net<K, C>, e: Step<K, C>, k: K, c: C)
    requires Enabled(n, e)
    ensures Next(n, e).held[(k, c)] + One(Leaves(e, k, c)) == n.held[(k, c)] + One(Loads(n, e, k, c))
  {
  }

  /** Every connection that a forwarder has loaded it still holds, or it has left it with a stream or a compare-and-swap. */
  lemma {:induction false} HeldBalance<K, C>(run: seq<Net<K, C>>, steps: seq<Step<K, C>>, n: nat, k: K, c: C)
    requires IsRun(run, steps) && n < |run|
    ensures run[n].held[(k, c)] + LeaveCount(steps, n, k, c) == LoadCount(run, steps, n, k, c)
    decreases n
  {
    hide Enabled, Next, Loads, Leaves;
    if n > 0 {
      HeldBalance(run, steps, n - 1, k, c);
      StepHolds(run[n - 1], steps[n - 1], k, c);
    }
  }
}

/**
The repair protocol of the tunnel slots, with forwarders, session creators and the scheduler
interleaved at will.  A slot is named by `K` (a backend and a slot index) and a connection by
`C`.  One step is one atomic action: a load, a compare-and-swap, a channel operation, or a
branch of the scheduler that touches a slot.  Channels are bags, so no order of delivery is
assumed.
*/
module TunnelRepair {
  import opened Wrappers


  datatype Slot<C> = Slot(conn: Option<C>, switching: bool)

  datatype Net<K(==), C(==)> = Net(
    slots: map<K, Slot<C>>,
    creating: multiset<K>,    // CreateSpdySession goroutines at work
    ready: multiset<K>,       // their sessions on newTunnelChan
    held: multiset<(K, C)>,   // forwarders between loading a connection and the compare-and-swap
    reporting: multiset<K>,   // forwarders that swapped and have not sent their report yet
    failed: multiset<K>)      // reports on spdyFailChan

  datatype Step<K(==), C(==)> =
    | NewSlots(keys: set<K>)               // the status branch creates a backend
    | SessionReady(key: K)                 // a creator connects and sends its session
    | Switch(key: K, conn: C)              // the new-tunnel branch
    | Precreate(keys: set<K>)              // SpdyCheckStreamId finds connections nearly out of ids
    | FailReceived(key: K)                 // the fail branch
    | Load(key: K)                         // a forwarder reads the slot
    | StreamCreated(key: K, conn: C)       // its stream is there: it leaves the slot alone
    | Swap(key: K, conn: C)                // its stream failed: compare-and-swap with nil
    | Report(key: K)                       // and send on the fail channel

  ghost predicate Enabled<K, C>(n: Net<K, C>, e: Step<K, C>) {
    match e
    case NewSlots(keys) => keys !! n.slots.Keys
    case SessionReady(k) => k in n.creating
    case Switch(k, _) => k in n.ready && k in n.slots
    case Precreate(keys) => keys <= n.slots.Keys && forall k :: k in keys ==> n.slots[k].conn.Some? && !n.slots[k].switching
    case FailReceived(k) => k in n.failed && k in n.slots
    case Load(k) => k in n.slots && n.slots[k].conn.Some?
    case StreamCreated(k, c) => (k, c) in n.held
    case Swap(k, c) => (k, c) in n.held && k in n.slots
    case Report(k) => k in n.reporting
  }

  ghost function Next<K, C>(n: Net<K, C>, e: Step<K, C>): Net<K, C>
    requires Enabled(n, e)
  {
    match e
    case NewSlots(keys) =>
      n.(slots := n.slots + (map k | k in keys :: Slot(None, false)), creating := n.creating + multiset(keys))
    case SessionReady(k) =>
      n.(creating := n.creating - multiset{k}, ready := n.ready + multiset{k})
    case Switch(k, c) =>
      n.(ready := n.ready - multiset{k}, slots := n.slots[k := Slot(Some(c), false)])
    case Precreate(keys) =>
      n.(slots := n.slots + (map k | k in keys && k in n.slots :: n.slots[k].(switching := true)),
         creating := n.creating + multiset(keys))
    case FailReceived(k) =>
      var n1 := n.(failed := n.failed - multiset{k});
      if n.slots[k].switching then n1
      else n1.(slots := n.slots[k := n.slots[k].(switching := true)], creating := n.creating + multiset{k})
    case Load(k) =>
      n.(held := n.held + multiset{(k, n.slots[k].conn.value)})
    case StreamCreated(k, c) =>
      n.(held := n.held - multiset{(k, c)})
    case Swap(k, c) =>
      var n1 := n.(held := n.held - multiset{(k, c)});
      if n.slots[k].conn == Some(c) then
        n1.(slots := n.slots[k := n.slots[k].(conn := None)], reporting := n.reporting + multiset{k})
      else n1
    case Report(k) =>
      n.(reporting := n.reporting - multiset{k}, failed := n.failed + multiset{k})
  }

  ghost function Initial<K, C>(): Net<K, C> {
    Net(map[], multiset{}, multiset{}, multiset{}, multiset{}, multiset{})
  }

  ghost predicate IsRun<K, C>(run: seq<Net<K, C>>, steps: seq<Step<K, C>>) {
    && |run| == |steps| + 1
    && run[0] == Initial()
    && forall i :: 0 <= i < |steps| ==> Enabled(run[i], steps[i]) && run[i + 1] == Next(run[i], steps[i])
  }

  ghost predicate Path<K, C>(n: Net<K, C>, steps: seq<Step<K, C>>, m: Net<K, C>)
    decreases |steps|
  {
    if steps == [] then m == n
    else Enabled(n, steps[0]) && Path(Next(n, steps[0]), steps[1..], m)
  }

  lemma {:induction false} PathExtends<K, C>(n: Net<K, C>, steps: seq<Step<K, C>>, m: Net<K, C>, e: Step<K, C>)
    requires Path(n, steps, m) && Enabled(m, e)
    ensures Path(n, steps + [e], Next(m, e))
    decreases |steps|
  {
    hide Enabled, Next;
    var more := steps + [e];
    if steps == [] {
      assert more[1..] == [];
    } else {
      assert more[0] == steps[0] && more[1..] == steps[1..] + [e];
      PathExtends(Next(n, steps[0]), steps[1..], m, e);
    }
  }

  lemma {:induction false} PathAppends<K, C>(n: Net<K, C>, steps: seq<Step<K, C>>, m: Net<K, C>, more: seq<Step<K, C>>, o: Net<K, C>)
    requires Path(n, steps, m) && Path(m, more, o)
    ensures Path(n, steps + more, o)
    decreases |steps|
  {
    hide Enabled, Next;
    var all := steps + more;
    if steps == [] {
      assert all == more;
    } else {
      assert all[0] == steps[0] && all[1..] == steps[1..] + more;
      PathAppends(Next(n, steps[0]), steps[1..], m, more, o);
    }
  }

  lemma {:induction false} PathKeeps<K, C>(n: Net<K, C>, steps: seq<Step<K, C>>, m: Net<K, C>)
    requires Path(n, steps, m) && Invariant(n)
    ensures Invariant(m)
    decreases |steps|
  {
    hide Enabled, Next, Invariant;
    if steps != [] {
      StepKeeps(n, steps[0]);
      PathKeeps(Next(n, steps[0]), steps[1..], m);
    }
  }

  /** Session creations of a slot that have not been consumed by the scheduler. */
  ghost function Outstanding<K, C>(n: Net<K, C>, k: K): nat { n.creating[k] + n.ready[k] }

  /** Failure reports of a slot that the scheduler has not seen, sent or about to be sent. */
  ghost function Reports<K, C>(n: Net<K, C>, k: K): nat { n.reporting[k] + n.failed[k] }

  ghost predicate Sound<K, C>(n: Net<K, C>, k: K)
    requires k in n.slots
  {
    && Outstanding(n, k) <= 1
    && (n.slots[k].switching ==> Outstanding(n, k) == 1)
    // only the first session of a slot is outstanding without the flag, and then nobody has used the slot
    && (Outstanding(n, k) == 1 && !n.slots[k].switching ==> n.slots[k].conn.None? && Reports(n, k) == 0)
    && (n.slots[k].conn.None? ==> Outstanding(n, k) == 1 || Reports(n, k) >= 1)
  }

  ghost predicate Invariant<K, C>(n: Net<K, C>) {
    Named(n) && forall k :: k in n.slots ==> Sound(n, k)
  }

  /** The steps of forwarders; the others are those of the scheduler and the session creators. */
  ghost predicate Forwards<K, C>(e: Step<K, C>) { e.Load? || e.StreamCreated? || e.Swap? || e.Report? }

  lemma SlotForwarded<K, C>(n: Net<K, C>, e: Step<K, C>, k: K)
    requires Enabled(n, e) && k in n.slots && Sound(n, k) && Forwards(e)
    ensures k in Next(n, e).slots && Sound(Next(n, e), k)
  {
  }

  lemma SlotScheduled<K, C>(n: Net<K, C>, e: Step<K, C>, k: K)
    requires Enabled(n, e) && k in n.slots && Sound(n, k) && (e.SessionReady? || e.Switch? || e.FailReceived?)
    ensures k in Next(n, e).slots && Sound(Next(n, e), k)
  {
  }

  lemma SlotMarked<K, C>(n: Net<K, C>, e: Step<K, C>, k: K)
    requires Enabled(n, e) && k in n.slots && Sound(n, k) && (e.NewSlots? || e.Precreate?)
    ensures k in Next(n, e).slots && Sound(Next(n, e), k)
  {
  }

  /** One slot through one step. */
  lemma SlotKeeps<K, C>(n: Net<K, C>, e: Step<K, C>, k: K)
    requires Enabled(n, e) && k in n.slots && Sound(n, k)
    ensures k in Next(n, e).slots && Sound(Next(n, e), k)
  {
    hide Sound, Next, Enabled;
    if Forwards(e) {
      SlotForwarded(n, e, k);
    } else if e.NewSlots? || e.Precreate? {
      SlotMarked(n, e, k);
    } else {
      SlotScheduled(n, e, k);
    }
  }

  ghost predicate Within<K, C>(bag: multiset<K>, slots: map<K, Slot<C>>) {
    forall k :: k in bag ==> k in slots
  }

  /** The bags name existing slots only. */
  ghost predicate Named<K, C>(n: Net<K, C>) {
    Within(n.creating, n.slots) && Within(n.ready, n.slots) && Within(n.reporting, n.slots) && Within(n.failed, n.slots)
  }

  lemma WithinHas<K, C>(bag: multiset<K>, slots: map<K, Slot<C>>, k: K)
    requires Within(bag, slots) && k in bag
    ensures k in slots
  {
  }

  /** A bag that gains only existing slots stays within. */
  lemma WithinKeeps<K, C>(bag: multiset<K>, slots: map<K, Slot<C>>, more: multiset<K>, less: multiset<K>, slots': map<K, Slot<C>>)
    requires Within(bag, slots) && slots.Keys <= slots'.Keys && forall k :: k in more ==> k in slots'
    ensures Within(bag, slots') && Within(bag + more, slots') && Within(bag - less, slots')
  {
  }

  /** The slots that a step adds or puts in a bag. */
  ghost function Names<K, C>(e: Step<K, C>): multiset<K> {
    match e
    case NewSlots(keys) => multiset(keys)
    case Precreate(keys) => multiset(keys)
    case Load(_) => multiset{}
    case StreamCreated(_, _) => multiset{}
    case _ => multiset{e.key}
  }

  lemma SlotsStay<K, C>(n: Net<K, C>, e: Step<K, C>)
    requires Enabled(n, e)
    ensures n.slots.Keys <= Next(n, e).slots.Keys && (e.NewSlots? || Next(n, e).slots.Keys == n.slots.Keys)
  {
  }

  lemma NamesThere<K, C>(n: Net<K, C>, e: Step<K, C>, k: K)
    requires Named(n) && Enabled(n, e) && k in Names(e)
    ensures k in Next(n, e).slots
  {
  }

  /** What a step does to one of the four bags. */
  ghost predicate Moves<K>(bag: multiset<K>, keys: multiset<K>, after: multiset<K>) {
    after == bag || after == bag + keys || after == bag - keys
  }

  lemma BagsMove<K, C>(n: Net<K, C>, e: Step<K, C>)
    requires Enabled(n, e)
    ensures var m, keys := Next(n, e), Names(e);
            && Moves(n.creating, keys, m.creating) && Moves(n.ready, keys, m.ready)
            && Moves(n.reporting, keys, m.reporting) && Moves(n.failed, keys, m.failed)
  {
  }

  lemma NamesKeep<K, C>(n: Net<K, C>, e: Step<K, C>)
    requires Named(n) && Enabled(n, e)
    ensures Named(Next(n, e)) && n.slots.Keys <= Next(n, e).slots.Keys
    ensures e.NewSlots? || Next(n, e).slots.Keys == n.slots.Keys
  {
    var m, keys := Next(n, e), Names(e);
    SlotsStay(n, e);
    BagsMove(n, e);
    forall k | k in keys ensures k in m.slots {
      NamesThere(n, e, k);
    }
    hide Within, Enabled, Next, Names;
    WithinKeeps(n.creating, n.slots, keys, keys, m.slots);
    WithinKeeps(n.ready, n.slots, keys, keys, m.slots);
    WithinKeeps(n.reporting, n.slots, keys, keys, m.slots);
    WithinKeeps(n.failed, n.slots, keys, keys, m.slots);
  }

  lemma NewSlotSound<K, C>(n: Net<K, C>, keys: set<K>, k: K)
    requires Named(n) && Enabled(n, NewSlots(keys)) && k in keys
    ensures k in Next(n, NewSlots(keys)).slots && Sound(Next(n, NewSlots(keys)), k)
  {
    assert k !in n.creating && k !in n.ready && k !in n.reporting && k !in n.failed;
  }

  lemma StepKeeps<K, C>(n: Net<K, C>, e: Step<K, C>)
    requires Invariant(n) && Enabled(n, e)
    ensures Invariant(Next(n, e))
  {
    hide Sound;
    NamesKeep(n, e);
    forall k | k in Next(n, e).slots ensures Sound(Next(n, e), k) {
      if k in n.slots {
        SlotKeeps(n, e, k);
      } else {
        NewSlotSound(n, e.keys, k);
      }
    }
  }

  lemma EmptyNet<K, C>()
    ensures Invariant(Initial<K, C>())
  {
  }

  /**
  Whatever the interleaving: a slot has at most one session creation outstanding, and an empty
  slot has one, or a failure report on its way to the scheduler.
  */
  lemma {:induction false} RepairUnderWay<K, C>(run: seq<Net<K, C>>, steps: seq<Step<K, C>>)
    requires IsRun(run, steps)
    ensures Invariant(run[|steps|])
    ensures forall k :: k in run[|steps|].slots ==>
              && Outstanding(run[|steps|], k) <= 1
              && (run[|steps|].slots[k].conn.None? ==> Outstanding(run[|steps|], k) == 1 || Reports(run[|steps|], k) >= 1)
    decreases |steps|
  {
    hide Next, Enabled, Within;
    var n := |steps|;
    if n == 0 {
      assert Invariant(run[0]) by { EmptyNet<K, C>(); }
    } else {
      assert IsRun(run[..n], steps[..n - 1]);
      RepairUnderWay(run[..n], steps[..n - 1]);
      StepKeeps(run[n - 1], steps[n - 1]);
    }
  }
}

/**
Where the reader of a connection puts a frame, in numbers: its priority, its queue of the five, and
its place among the frames that wait there, over whole runs.
*/
module FrameRoutes {
  import opened FrameOrder
  import opened FrameQueues

  // ---------- Priority and queue ----------

  function One(b: bool): nat { if b then 1 else 0 }

  /** A frame that belongs to no stream: PING, GOAWAY, and whatever is not known. */
  predicate Streamless(step: Step) { step.Read? && (step.f.kind == Ping || step.f.kind == GoAway || step.f.kind == Other) }

  function StreamlessCount(steps: seq<Step>, n: nat): nat
    requires n <= |steps|
  {
    if n == 0 then 0 else StreamlessCount(steps, n - 1) + One(Streamless(steps[n - 1]))
  }

  lemma {:induction false} RoundRobinIs(cs: seq<Conn>, steps: seq<Step>, n: nat)
    requires Path(cs, steps) && n < |cs|
    ensures cs[n].roundRobin == StreamlessCount(steps, n) % 5
    decreases n
  {
    if n > 0 {
      RoundRobinIs(cs, steps, n - 1);
      hide Pushed, Taken;
      var k := StreamlessCount(steps, n - 1);
      assert Enabled(cs[n - 1], steps[n - 1]) && cs[n] == After(cs[n - 1], steps[n - 1]);
      NextOfFive(k);
    }
  }

  lemma NextOfFive(k: nat)
    ensures (k % 5 + 1) % 5 == (k + 1) % 5
  {
  }

  /**
  What becomes of a frame that is read.  PING and GOAWAY get priority 0 and an unknown frame 7, and the
  k-th of them goes to queue k modulo 5.  A frame of a stream goes to the queue of its id modulo 5 with
  the priority of its stream, 7 without one; a SYN_STREAM brings its own and is dropped when refused.
  */
  lemma ReadIsRouted(cs: seq<Conn>, steps: seq<Step>, i: nat, f: ReadFrame)
    requires Path(cs, steps) && i < |steps| && steps[i] == Read(f)
    ensures var c, slot := cs[i], cs[i + 1].slot;
            match f.kind
            case Ping => slot == Slot(f, 0, StreamlessCount(steps, i) % 5)
            case GoAway => slot == Slot(f, 0, StreamlessCount(steps, i) % 5)
            case Other => slot == Slot(f, 7, StreamlessCount(steps, i) % 5)
            case SynStream => slot == if !c.goneAway && c.received <= f.streamId <= 2147483647 then Slot(f, f.priority, f.streamId % 5)
                                      else Empty
            case _ => slot == Slot(f, if f.streamId in c.streams then c.streams[f.streamId] else 7, f.streamId % 5)
  {
    RoundRobinIs(cs, steps, i);
    assert Enabled(cs[i], steps[i]) && cs[i + 1] == After(cs[i], steps[i]);
  }

  // ---------- Place in the queue ----------

  /** The frame about to be pushed has the priority of its kind. */
  ghost predicate SlotPriority(c: Conn) {
    c.slot != Empty ==>
      && ((c.slot.frame.kind == Ping || c.slot.frame.kind == GoAway) ==> c.slot.priority == 0)
      && (c.slot.frame.kind == Other ==> c.slot.priority == 7)
  }

  lemma {:induction false} SlotPriorityIs(cs: seq<Conn>, steps: seq<Step>, n: nat)
    requires Path(cs, steps) && n < |cs|
    ensures SlotPriority(cs[n])
    decreases n
  {
    if n > 0 {
      SlotPriorityIs(cs, steps, n - 1);
      hide Pushed, Taken;
      assert Enabled(cs[n - 1], steps[n - 1]) && cs[n] == After(cs[n - 1], steps[n - 1]);
    }
  }

  /** `k` frames of `before` stay in front of the new one, all the others come behind it. */
  ghost predicate Placed(before: seq<Entry<ReadFrame>>, f: ReadFrame, after: seq<Entry<ReadFrame>>, k: nat) {
    && k <= |before| && |after| == |before| + 1
    && after[k].frame == f
    && (forall i :: 0 <= i < k ==> after[i] == before[i])
    && (forall i :: k <= i < |before| ==> after[i + 1] == before[i])
  }

  lemma PushPlaces(l: Line, f: ReadFrame, priority: nat)
    requires LineOk(l)
    ensures var k := Ahead(l.queue, priority);
            && k <= |l.queue| && Placed(l.queue, f, Pushed(l, f, priority).queue, k)
            && forall i :: 0 <= i < |l.queue| ==> (l.queue[i].priority <= priority <==> i < k)
  {
    var k := Ahead(l.queue, priority);
    assert ByPriority(l.queue);
    forall i | 0 <= i < |l.queue| ensures l.queue[i].priority <= priority <==> i < k {
      OvertakesIff(l.queue, priority, i);
    }
    hide Fifo, Conserved, Numbered, Sorted, ByPriority;
  }

  /** The place of the frame that a push puts into its queue, and the queue before and after. */
  lemma PushedWhere(cs: seq<Conn>, steps: seq<Step>, i: nat) returns (k: nat)
    requires Path(cs, steps) && i < |steps| && steps[i] == Push
    ensures cs[i].slot != Empty && cs[i].slot.partition < |cs[i].lines| == |cs[i + 1].lines| && cs[i + 1].slot == Empty
    ensures var q, before := cs[i].slot.partition, cs[i].lines[cs[i].slot.partition].queue;
            && Placed(before, cs[i].slot.frame, cs[i + 1].lines[q].queue, k)
            && (forall m :: 0 <= m < |before| ==> (before[m].priority <= cs[i].slot.priority <==> m < k))
            && (forall r :: 0 <= r < |cs[i].lines| && r != q ==> cs[i + 1].lines[r] == cs[i].lines[r])
  {
    RunKeeps(cs, steps, i);
    assert Enabled(cs[i], steps[i]) && cs[i + 1] == After(cs[i], steps[i]);
    var l := cs[i].lines[cs[i].slot.partition];
    hide LineOk, Placed, Pushed, Ahead;
    PushPlaces(l, cs[i].slot.frame, cs[i].slot.priority);
    k := Ahead(l.queue, cs[i].slot.priority);
  }

  /** PING and GOAWAY go in front of every waiting frame but those of priority 0. */
  lemma ControlGoesFirst(cs: seq<Conn>, steps: seq<Step>, i: nat) returns (k: nat)
    requires Path(cs, steps) && i < |steps| && steps[i] == Push && cs[i].slot != Empty
    requires cs[i].slot.frame.kind == Ping || cs[i].slot.frame.kind == GoAway
    ensures cs[i].slot.partition < |cs[i].lines| == |cs[i + 1].lines|
    ensures var q, before := cs[i].slot.partition, cs[i].lines[cs[i].slot.partition].queue;
            && Placed(before, cs[i].slot.frame, cs[i + 1].lines[q].queue, k)
            && forall m :: 0 <= m < |before| ==> (m < k <==> before[m].priority == 0)
  {
    k := PushedWhere(cs, steps, i);
    SlotPriorityIs(cs, steps, i);
    hide Path, Placed;
  }

  /** An unknown frame goes behind every waiting frame of priority 7 or less. */
  lemma UnknownGoesLast(cs: seq<Conn>, steps: seq<Step>, i: nat) returns (k: nat)
    requires Path(cs, steps) && i < |steps| && steps[i] == Push && cs[i].slot != Empty && cs[i].slot.frame.kind == Other
    ensures cs[i].slot.partition < |cs[i].lines| == |cs[i + 1].lines|
    ensures var q, before := cs[i].slot.partition, cs[i].lines[cs[i].slot.partition].queue;
            && Placed(before, cs[i].slot.frame, cs[i + 1].lines[q].queue, k)
            && forall m :: 0 <= m < |before| ==> (m < k <==> before[m].priority <= 7)
  {
    k := PushedWhere(cs, steps, i);
    SlotPriorityIs(cs, steps, i);
    hide Path, Placed;
  }

  // ---------- Every frame once ----------

  ghost function Frames(es: seq<Entry<ReadFrame>>): multiset<ReadFrame> {
    if es == [] then multiset{} else Frames(es[..|es| - 1]) + multiset{es[|es| - 1].frame}
  }

  /** All frames that have been pushed, on any queue. */
  ghost function Arrived(lines: seq<Line>): multiset<ReadFrame> { Total(Bags(lines)) }

  ghost function Bags(lines: seq<Line>): seq<multiset<ReadFrame>> {
    seq(|lines|, i requires 0 <= i < |lines| => Frames(lines[i].arrived))
  }

  ghost function Total(bags: seq<multiset<ReadFrame>>): multiset<ReadFrame> {
    if bags == [] then multiset{} else Total(bags[..|bags| - 1]) + bags[|bags| - 1]
  }

  ghost function InSlot(c: Conn): multiset<ReadFrame> { if c.slot == Empty then multiset{} else multiset{c.slot.frame} }

  /** The frames read, but for SYN_STREAM frames that are refused. */
  ghost function Taking(cs: seq<Conn>, steps: seq<Step>, n: nat): multiset<ReadFrame>
    requires n <= |cs| && n <= |steps|
  {
    if n == 0 then multiset{}
    else
      Taking(cs, steps, n - 1) + ReadNow(cs[n - 1], steps[n - 1])
  }

  lemma {:induction false} TotalMore(bags: seq<multiset<ReadFrame>>, q: nat, more: multiset<ReadFrame>)
    requires q < |bags|
    ensures Total(bags[q := bags[q] + more]) == Total(bags) + more
  {
    var n, next := |bags| - 1, bags[q := bags[q] + more];
    if q < n {
      assert next[..n] == bags[..n][q := bags[..n][q] + more];
      TotalMore(bags[..n], q, more);
    } else {
      assert next[..n] == bags[..n];
    }
  }

  lemma OneLineMore(lines: seq<Line>, q: nat, l: Line, more: multiset<ReadFrame>)
    requires q < |lines| && Frames(l.arrived) == Frames(lines[q].arrived) + more
    ensures Arrived(lines[q := l]) == Arrived(lines) + more
  {
    hide Frames, Total;
    assert Bags(lines[q := l]) == Bags(lines)[q := Bags(lines)[q] + more];
    TotalMore(Bags(lines), q, more);
  }

  ghost function ReadNow(c: Conn, step: Step): multiset<ReadFrame> {
    match step
    case Read(f) =>
      if f.kind == SynStream && (c.goneAway || f.streamId < c.received || f.streamId > 2147483647) then multiset{}
      else multiset{f}
    case _ => multiset{}
  }

  lemma StepTakes(c: Conn, step: Step)
    requires Enabled(c, step)
    ensures Arrived(After(c, step).lines) + InSlot(After(c, step)) == Arrived(c.lines) + InSlot(c) + ReadNow(c, step)
  {
    hide Arrived, InSlot;
    match step
    case Push => PushTakes(c);
    case Handle(w) => HandleTakes(c, w);
    case Read(f) => ReadTakes(c, f);
    case _ => SameTakes(c, step);
  }

  lemma HandleTakes(c: Conn, w: nat)
    requires Enabled(c, Handle(w))
    ensures Arrived(After(c, Handle(w)).lines) == Arrived(c.lines) && InSlot(After(c, Handle(w))) == InSlot(c)
  {
    hide Arrived, Frames;
    OneLineMore(c.lines, w, Taken(c.lines[w]), multiset{});
  }

  lemma ReadTakes(c: Conn, f: ReadFrame)
    requires Enabled(c, Read(f))
    ensures After(c, Read(f)).lines == c.lines && InSlot(After(c, Read(f))) == InSlot(c) + ReadNow(c, Read(f))
  {
  }

  lemma SameTakes(c: Conn, step: Step)
    requires Enabled(c, step) && !step.Push? && !step.Handle? && !step.Read?
    ensures After(c, step).lines == c.lines && InSlot(After(c, step)) == InSlot(c) && ReadNow(c, step) == multiset{}
  {
  }

  lemma PushTakes(c: Conn)
    requires Enabled(c, Push)
    ensures Arrived(After(c, Push).lines) + InSlot(After(c, Push)) == Arrived(c.lines) + InSlot(c)
  {
    var q := c.slot.partition;
    var l := Pushed(c.lines[q], c.slot.frame, c.slot.priority);
    assert l.arrived[..|l.arrived| - 1] == c.lines[q].arrived;
    assert Frames(l.arrived) == Frames(c.lines[q].arrived) + multiset{c.slot.frame};
    hide Arrived, Frames, Pushed;
    OneLineMore(c.lines, q, l, multiset{c.slot.frame});
  }

  lemma {:induction false} NothingYet(bags: seq<multiset<ReadFrame>>)
    requires forall i :: 0 <= i < |bags| ==> bags[i] == multiset{}
    ensures Total(bags) == multiset{}
  {
    if bags != [] {
      NothingYet(bags[..|bags| - 1]);
    }
  }

  /** Over every run: each frame read, unless it is a refused SYN_STREAM, is pushed once or about to be. */
  lemma {:induction false} PushedOnce(cs: seq<Conn>, steps: seq<Step>, n: nat)
    requires Path(cs, steps) && n < |cs|
    ensures Arrived(cs[n].lines) + InSlot(cs[n]) == Taking(cs, steps, n)
    decreases n
  {
    if n == 0 {
      NothingYet(Bags(cs[0].lines));
    } else {
      PushedOnce(cs, steps, n - 1);
      hide Arrived, InSlot, After, Enabled;
      StepTakes(cs[n - 1], steps[n - 1]);
    }
  }

  /** A queue takes a frame as long as fewer than 50 wait in it, and never holds more. */
  lemma FiftyWait(cs: seq<Conn>, steps: seq<Step>, n: nat)
    requires Path(cs, steps) && n < |cs|
    ensures |cs[n].lines| == 5 && forall q :: 0 <= q < 5 ==> |cs[n].lines[q].queue| <= 50
    ensures cs[n].slot != Empty ==>
              cs[n].slot.partition < 5 && (Enabled(cs[n], Push) <==> |cs[n].lines[cs[n].slot.partition].queue| < 50)
  {
    RunKeeps(cs, steps, n);
    hide Sorted, Fifo, Numbered, Conserved, Partitioned;
  }

  // ---------- What the reader knows of streams ----------

  /** The step says something of stream `s`. */
  predicate Concerns(c: Conn, step: Step, s: nat) {
    match step
    case SetPriority(r, _) => r == s
    case Create(r) => r == s
    case Remove(r) => r == s
    case Read(f) => f.kind == SynStream && f.streamId == s && !c.goneAway && c.received <= s <= 2147483647
    case _ => false
  }

  /** The last step that concerns a stream decides: opened by either side it has priority 0, then the one it was given last. */
  lemma {:induction false} PriorityIsTheLast(cs: seq<Conn>, steps: seq<Step>, i: nat, n: nat, s: nat)
    requires Path(cs, steps) && i < n < |cs| && Concerns(cs[i], steps[i], s)
    requires forall j :: i < j < n ==> !Concerns(cs[j], steps[j], s)
    ensures match steps[i]
            case SetPriority(_, p) => s in cs[n].streams && cs[n].streams[s] == p
            case Remove(_) => s !in cs[n].streams
            case _ => s in cs[n].streams && cs[n].streams[s] == 0
    decreases n
  {
    hide Pushed, Taken;
    if n == i + 1 {
      assert Enabled(cs[i], steps[i]) && cs[n] == After(cs[i], steps[i]);
    } else {
      PriorityIsTheLast(cs, steps, i, n - 1, s);
      assert Enabled(cs[n - 1], steps[n - 1]) && cs[n] == After(cs[n - 1], steps[n - 1]);
      hide Path;
    }
  }

  lemma {:induction false} GoneAwayIff(cs: seq<Conn>, steps: seq<Step>, n: nat)
    requires Path(cs, steps) && n < |cs|
    ensures cs[n].goneAway <==> exists i :: 0 <= i < n && steps[i] == Leave
  {
    hide Pushed, Taken;
    if n > 0 {
      GoneAwayIff(cs, steps, n - 1);
      assert Enabled(cs[n - 1], steps[n - 1]) && cs[n] == After(cs[n - 1], steps[n - 1]);
    }
  }
}

/**
The reader of a SPDY connection and its five frame workers: every frame is given a priority and a
queue when it is read, and one worker empties each queue.  What reaches the handlers of one stream,
and in which order, over whole runs.
*/
module FrameOrder {
  import opened FrameQueues

  const FRAME_WORKERS: nat := 5
  const QUEUE_SIZE: nat := 50
  const MAX_STREAM_ID: nat := 0x7fffffff

  datatype Kind = SynStream | SynReply | Data | RstStream | Headers | Ping | GoAway | Other
  datatype ReadFrame = ReadFrame(kind: Kind, streamId: nat, priority: nat)

  predicate HasStream(kind: Kind) { kind != Ping && kind != GoAway && kind != Other }

  predicate OnStream(f: ReadFrame, s: nat) { HasStream(f.kind) && f.streamId == s }

  // ---------- One queue and its worker ----------

  /** What was pushed on a queue, what its worker took, and what is left, each in order. */
  datatype Line = Line(arrived: seq<Entry<ReadFrame>>, handled: seq<Entry<ReadFrame>>, queue: seq<Entry<ReadFrame>>)

  ghost function Pushed(l: Line, f: ReadFrame, priority: nat): Line {
    var e := Entry(f, priority, |l.arrived|);
    Line(l.arrived + [e], l.handled, Insert(l.queue, e))
  }

  ghost function Taken(l: Line): Line
    requires l.queue != []
  {
    Line(l.arrived, l.handled + [l.queue[0]], l.queue[1..])
  }

  ghost predicate Numbered(l: Line) {
    && (forall i :: 0 <= i < |l.arrived| ==> l.arrived[i].insertId == i)
    && (forall e :: e in l.queue ==> e in l.arrived)
    && (forall e :: e in l.handled ==> e in l.arrived)
  }

  /** Every priority is a first-in first-out queue, so no frame is lost and none is handled twice. */
  ghost predicate Fifo(l: Line) {
    forall p: nat :: Class(l.handled, p) + Class(l.queue, p) == Class(l.arrived, p)
  }

  ghost predicate Conserved(l: Line) {
    multiset(l.handled) + multiset(l.queue) == multiset(l.arrived)
  }

  ghost predicate LineOk(l: Line) {
    Sorted(l.queue) && |l.queue| <= QUEUE_SIZE && Numbered(l) && Fifo(l) && Conserved(l)
  }

  lemma ClassOne(e: Entry<ReadFrame>, p: nat)
    ensures Class([e], p) == if e.priority == p then [e] else []
  {
    assert [e][1..] == [];
  }

  lemma PushFifo(l: Line, e: Entry<ReadFrame>)
    requires ByPriority(l.queue) && Fifo(l)
    ensures Fifo(Line(l.arrived + [e], l.handled, Insert(l.queue, e)))
  {
    hide ByPriority, Insert;
    forall p: nat ensures Class(l.handled, p) + Class(Insert(l.queue, e), p) == Class(l.arrived + [e], p) {
      InsertIsFifo(l.queue, e, p);
      ClassSplit(l.arrived, [e], p);
      ClassOne(e, p);
    }
  }

  lemma PushNumbered(l: Line, e: Entry<ReadFrame>)
    requires Numbered(l) && e.insertId == |l.arrived|
    requires multiset(Insert(l.queue, e)) == multiset(l.queue) + multiset{e}
    ensures Numbered(Line(l.arrived + [e], l.handled, Insert(l.queue, e)))
  {
    hide Insert;
    forall q | q in Insert(l.queue, e) ensures q in l.arrived + [e] {
      assert q in multiset(Insert(l.queue, e));
    }
  }

  lemma OlderIds(l: Line, q: Entry<ReadFrame>)
    requires Numbered(l) && (q in l.queue || q in l.handled)
    ensures q.insertId < |l.arrived|
  {
    assert q in l.arrived;
  }

  lemma PushKeeps(l: Line, f: ReadFrame, priority: nat)
    requires LineOk(l) && |l.queue| < QUEUE_SIZE
    ensures LineOk(Pushed(l, f, priority))
  {
    hide Fifo, Numbered;
    var e := Entry(f, priority, |l.arrived|);
    forall q | q in l.queue ensures q.insertId < e.insertId {
      OlderIds(l, q);
    }
    InsertSorted(l.queue, e);
    PushFifo(l, e);
    PushNumbered(l, e);
    hide Sorted;
  }

  lemma TakeFifo(l: Line)
    requires Fifo(l) && l.queue != []
    ensures Fifo(Taken(l))
  {
    var e := l.queue[0];
    forall p: nat ensures Class(l.handled + [e], p) + Class(l.queue[1..], p) == Class(l.arrived, p) {
      assert Class(l.handled, p) + Class(l.queue, p) == Class(l.arrived, p);
      ClassSplit(l.handled, [e], p);
      ClassOne(e, p);
    }
  }

  lemma TakeKeeps(l: Line)
    requires LineOk(l) && l.queue != []
    ensures LineOk(Taken(l))
  {
    TakeFifo(l);
    TailKeeps(l.queue);
    hide Fifo, Sorted;
    assert multiset(l.handled + [l.queue[0]]) == multiset(l.handled) + multiset{l.queue[0]};
  }

  // ---------- One stream in its queue ----------

  ghost function OfStream(es: seq<Entry<ReadFrame>>, s: nat): (r: seq<Entry<ReadFrame>>)
    ensures forall e :: e in r <==> e in es && OnStream(e.frame, s)
  {
    if es == [] then []
    else (if OnStream(es[0].frame, s) then [es[0]] else []) + OfStream(es[1..], s)
  }

  lemma {:induction false} OfStreamSplit(a: seq<Entry<ReadFrame>>, b: seq<Entry<ReadFrame>>, s: nat)
    ensures OfStream(a + b, s) == OfStream(a, s) + OfStream(b, s)
    decreases |a|
  {
    if a == [] {
      assert a + b == b;
    } else {
      assert (a + b)[0] == a[0] && (a + b)[1..] == a[1..] + b;
      OfStreamSplit(a[1..], b, s);
    }
  }

  lemma OfStreamOne(e: Entry<ReadFrame>, s: nat)
    ensures OfStream([e], s) == if OnStream(e.frame, s) then [e] else []
  {
    assert [e][1..] == [];
  }

  /** The frames of `s` are handled, and still stand, in the order in which they arrived. */
  ghost predicate InOrder(l: Line, s: nat) {
    OfStream(l.handled, s) + OfStream(l.queue, s) == OfStream(l.arrived, s)
  }

  /** A frame of `s` pushed with this priority goes in front of a waiting frame of `s`. */
  ghost predicate Overtakes(l: Line, s: nat, priority: nat) {
    exists e :: e in l.queue && OnStream(e.frame, s) && priority < e.priority
  }

  lemma TakeOrder(l: Line, s: nat)
    requires l.queue != []
    ensures InOrder(Taken(l), s) <==> InOrder(l, s)
  {
    var e := l.queue[0];
    assert l.queue == [e] + l.queue[1..];
    OfStreamSplit([e], l.queue[1..], s);
    OfStreamSplit(l.handled, [e], s);
    assert OfStream(l.handled + [e], s) + OfStream(l.queue[1..], s)
        == OfStream(l.handled, s) + OfStream(l.queue, s);
  }

  lemma Spliced(front: seq<Entry<ReadFrame>>, e: Entry<ReadFrame>, back: seq<Entry<ReadFrame>>, s: nat)
    ensures OfStream(front + back, s) == OfStream(front, s) + OfStream(back, s)
    ensures !OnStream(e.frame, s) ==> OfStream(front + [e] + back, s) == OfStream(front + back, s)
    ensures OnStream(e.frame, s) ==>
              OfStream(front + [e] + back, s) == OfStream(front, s) + [e] + OfStream(back, s)
  {
    OfStreamOne(e, s);
    OfStreamSplit(front, back, s);
    OfStreamSplit(front, [e], s);
    OfStreamSplit(front + [e], back, s);
  }

  lemma PushOther(l: Line, f: ReadFrame, priority: nat, s: nat)
    requires !OnStream(f, s)
    ensures InOrder(Pushed(l, f, priority), s) <==> InOrder(l, s)
  {
    var e := Entry(f, priority, |l.arrived|);
    var k := Ahead(l.queue, priority);
    assert l.queue == l.queue[..k] + l.queue[k..];
    assert l.arrived + [e] + [] == l.arrived + [e] && l.arrived + [] == l.arrived;
    Spliced(l.queue[..k], e, l.queue[k..], s);
    Spliced(l.arrived, e, [], s);
    hide OfStream;
  }

  /** Inserting `x`, not yet present, at the seam of a + b gives (a + b) + [x] only at the very end. */
  lemma LastOrNot<T>(h: seq<T>, a: seq<T>, b: seq<T>, x: T, whole: seq<T>)
    requires x !in b
    ensures h + (a + [x] + b) == whole + [x] <==> b == [] && h + (a + b) == whole
  {
    var left, right := h + (a + [x] + b), whole + [x];
    if b != [] {
      assert left[|left| - 1] == b[|b| - 1] && right[|right| - 1] == x;
    } else {
      assert left == h + (a + b) + [x];
      assert left[..|left| - 1] == h + (a + b) && right[..|right| - 1] == whole;
    }
  }

  /** A push keeps the order of its stream exactly when it overtakes no frame of that stream. */
  lemma PushOrder(l: Line, f: ReadFrame, priority: nat, s: nat)
    requires LineOk(l) && OnStream(f, s)
    ensures InOrder(Pushed(l, f, priority), s) <==> InOrder(l, s) && !Overtakes(l, s, priority)
  {
    var e := Entry(f, priority, |l.arrived|);
    var k := Ahead(l.queue, priority);
    var front, back := l.queue[..k], l.queue[k..];
    assert l.queue == front + back;
    Spliced(front, e, back, s);
    OfStreamSplit(l.arrived, [e], s);
    OfStreamOne(e, s);
    BackIsOvertaken(l, s, priority);
    forall q | q in back ensures q != e {
      assert q in l.queue;
      OlderIds(l, q);
    }
    hide LineOk, OfStream, Overtakes;
    LastOrNot(OfStream(l.handled, s), OfStream(front, s), OfStream(back, s), e, OfStream(l.arrived, s));
  }

  lemma NoneOfStream(es: seq<Entry<ReadFrame>>, s: nat)
    ensures OfStream(es, s) == [] <==> forall e :: e in es ==> !OnStream(e.frame, s)
  {
    if OfStream(es, s) != [] {
      assert OfStream(es, s)[0] in OfStream(es, s);
    }
  }

  lemma BackIsBehind(m: seq<Entry<ReadFrame>>, priority: nat, e: Entry<ReadFrame>)
    requires ByPriority(m)
    ensures e in m[Ahead(m, priority)..] <==> e in m && priority < e.priority
  {
    hide ByPriority;
    var k := Ahead(m, priority);
    if i: nat :| i < |m| && m[i] == e && priority < e.priority {
      OvertakesIff(m, priority, i);
      assert m[k..][i - k] == e;
    }
    if j: nat :| j < |m[k..]| && m[k..][j] == e {
      OvertakesIff(m, priority, k + j);
    }
  }

  lemma BackIsOvertaken(l: Line, s: nat, priority: nat)
    requires Sorted(l.queue)
    ensures OfStream(l.queue[Ahead(l.queue, priority)..], s) == [] <==> !Overtakes(l, s, priority)
  {
    assert ByPriority(l.queue);
    hide Sorted, ByPriority, OfStream, OnStream, Ahead;
    forall e ensures e in l.queue[Ahead(l.queue, priority)..] <==> e in l.queue && priority < e.priority {
      BackIsBehind(l.queue, priority, e);
    }
    NoneOfStream(l.queue[Ahead(l.queue, priority)..], s);
  }

  // ---------- The connection ----------

  datatype Slot = Empty | Slot(frame: ReadFrame, priority: nat, partition: nat)

  /**
  `streams` maps the streams of the connection to their priority; `slot` is the frame the reader
  has read and not pushed yet; `strays` are the streams of which a frame was read while absent.
  */
  datatype Conn = Conn(lines: seq<Line>, roundRobin: nat, streams: map<nat, nat>, received: nat, goneAway: bool,
                       slot: Slot, strays: set<nat>)

  datatype Step = Read(f: ReadFrame) | Push | Handle(worker: nat)
                | SetPriority(s: nat, p: nat) | Create(s: nat) | Remove(s: nat) | Leave

  ghost function Init(streams: map<nat, nat>, received: nat): Conn {
    Conn(seq(FRAME_WORKERS, i => Line([], [], [])), 0, streams, received, false, Empty, {})
  }

  predicate Accepted(c: Conn, f: ReadFrame) {
    !c.goneAway && c.received <= f.streamId <= MAX_STREAM_ID
  }

  ghost predicate Enabled(c: Conn, step: Step) {
    match step
    case Read(f) => c.slot == Empty
    case Push => c.slot != Empty && c.slot.partition < |c.lines| && |c.lines[c.slot.partition].queue| < QUEUE_SIZE
    case Handle(w) => w < |c.lines| && c.lines[w].queue != []
    case SetPriority(s, p) => s in c.streams
    case Create(s) => true
    case Remove(s) => true
    case Leave => true
  }

  function StreamPriority(c: Conn, s: nat): nat { if s in c.streams then c.streams[s] else 7 }

  ghost function AfterRead(c: Conn, f: ReadFrame): Conn {
    if f.kind == SynStream then
      if Accepted(c, f) then
        c.(slot := Slot(f, f.priority, f.streamId % FRAME_WORKERS),
           streams := c.streams[f.streamId := 0], received := f.streamId + 2)
      else c
    else if HasStream(f.kind) then
      c.(slot := Slot(f, StreamPriority(c, f.streamId), f.streamId % FRAME_WORKERS),
         strays := if f.streamId in c.streams then c.strays else c.strays + {f.streamId})
    else
      c.(slot := Slot(f, if f.kind == Other then 7 else 0, c.roundRobin),
         roundRobin := (c.roundRobin + 1) % FRAME_WORKERS)
  }

  ghost function After(c: Conn, step: Step): Conn
    requires Enabled(c, step)
  {
    match step
    case Read(f) => AfterRead(c, f)
    case Push =>
      var q := c.slot.partition;
      c.(lines := c.lines[q := Pushed(c.lines[q], c.slot.frame, c.slot.priority)], slot := Empty)
    case Handle(w) => c.(lines := c.lines[w := Taken(c.lines[w])])
    case SetPriority(s, p) => c.(streams := c.streams[s := p])
    case Create(s) => c.(streams := c.streams[s := 0])
    case Remove(s) => c.(streams := c.streams - {s})
    case Leave => c.(goneAway := true)
  }

  ghost predicate Path(cs: seq<Conn>, steps: seq<Step>) {
    && |cs| == |steps| + 1
    && cs[0] == Init(cs[0].streams, cs[0].received)
    && forall i :: 0 <= i < |steps| ==> Enabled(cs[i], steps[i]) && cs[i + 1] == After(cs[i], steps[i])
  }

  ghost predicate Routed(c: Conn) {
    c.slot != Empty ==>
      c.slot.partition < FRAME_WORKERS
      && (HasStream(c.slot.frame.kind) ==> c.slot.partition == c.slot.frame.streamId % FRAME_WORKERS)
  }

  /** A queue holds frames of its own streams only. */
  ghost predicate Partitioned(c: Conn) {
    forall q: nat, e :: q < |c.lines| && e in c.lines[q].arrived && HasStream(e.frame.kind)
                        ==> e.frame.streamId % FRAME_WORKERS == q
  }

  ghost predicate Ok(c: Conn) {
    && |c.lines| == FRAME_WORKERS && c.roundRobin < FRAME_WORKERS
    && (forall q: nat :: q < FRAME_WORKERS ==> LineOk(c.lines[q]))
    && Routed(c) && Partitioned(c)
  }

  lemma StepKeeps(c: Conn, step: Step)
    requires Ok(c) && Enabled(c, step)
    ensures Ok(After(c, step))
  {
    hide LineOk;
    match step
    case Push => PushKeeps(c.lines[c.slot.partition], c.slot.frame, c.slot.priority);
    case Handle(w) => TakeKeeps(c.lines[w]);
    case _ =>
  }

  /**
  In every reachable state the five queues conserve their frames: what was pushed is, as a
  multiset, what was handled plus what waits, and each priority of each queue is first-in first-out.
  */
  lemma {:induction false} RunKeeps(cs: seq<Conn>, steps: seq<Step>, n: nat)
    requires Path(cs, steps) && n < |cs|
    ensures Ok(cs[n])
  {
    if n == 0 {
      forall q: nat | q < FRAME_WORKERS ensures LineOk(cs[0].lines[q]) {
        assert cs[0].lines[q] == Line([], [], []);
      }
    } else {
      RunKeeps(cs, steps, n - 1);
      StepKeeps(cs[n - 1], steps[n - 1]);
    }
  }

  // ---------- Order of one stream ----------

  ghost function LineOf(c: Conn, s: nat): Line
    requires |c.lines| == FRAME_WORKERS
  {
    c.lines[s % FRAME_WORKERS]
  }

  ghost predicate OvertakingPush(c: Conn, step: Step, s: nat)
    requires |c.lines| == FRAME_WORKERS
  {
    step == Push && c.slot != Empty && OnStream(c.slot.frame, s) && Overtakes(LineOf(c, s), s, c.slot.priority)
  }

  lemma StepOrder(c: Conn, step: Step, s: nat)
    requires Ok(c) && Enabled(c, step)
    ensures |After(c, step).lines| == FRAME_WORKERS
    ensures InOrder(LineOf(After(c, step), s), s) <==> InOrder(LineOf(c, s), s) && !OvertakingPush(c, step, s)
  {
    hide LineOk, InOrder, Overtakes, Pushed, Taken, Partitioned;
    match step
    case Push =>
      if OnStream(c.slot.frame, s) {
        PushOrder(LineOf(c, s), c.slot.frame, c.slot.priority, s);
      } else if c.slot.partition == s % FRAME_WORKERS {
        PushOther(LineOf(c, s), c.slot.frame, c.slot.priority, s);
      }
    case Handle(w) =>
      if w == s % FRAME_WORKERS {
        TakeOrder(LineOf(c, s), s);
      }
    case _ =>
  }

  lemma EmptyInOrder(s: nat)
    ensures InOrder(Line([], [], []), s)
  {
  }

  /**
  Frames of a stream are handled in the order of their arrival exactly when, over the whole run,
  none was pushed while one of larger priority number was still waiting.
  */
  lemma {:induction false} StreamOrder(cs: seq<Conn>, steps: seq<Step>, n: nat, s: nat)
    requires Path(cs, steps) && n < |cs|
    ensures forall i :: 0 <= i <= n ==> |cs[i].lines| == FRAME_WORKERS
    ensures InOrder(LineOf(cs[n], s), s) <==> forall i :: 0 <= i < n ==> !OvertakingPush(cs[i], steps[i], s)
  {
    hide LineOk, InOrder, OvertakingPush, After, Enabled, Routed, Partitioned;
    RunKeeps(cs, steps, n);
    if n == 0 {
      EmptyInOrder(s);
      assert LineOf(cs[0], s) == Line([], [], []);
    } else {
      StreamOrder(cs, steps, n - 1, s);
      RunKeeps(cs, steps, n - 1);
      StepOrder(cs[n - 1], steps[n - 1], s);
    }
  }

  /** The priorities given to the frames of `s`, in order of arrival, do not decrease. */
  ghost predicate NonDecreasing(arrived: seq<Entry<ReadFrame>>, s: nat) {
    forall i, j :: 0 <= i < j < |arrived| && OnStream(arrived[i].frame, s) && OnStream(arrived[j].frame, s)
                   ==> arrived[i].priority <= arrived[j].priority
  }

  lemma NonDecreasingPush(l: Line, f: ReadFrame, priority: nat, s: nat)
    requires LineOk(l) && NonDecreasing(Pushed(l, f, priority).arrived, s)
    ensures NonDecreasing(l.arrived, s) && (OnStream(f, s) ==> !Overtakes(l, s, priority))
  {
    hide Fifo, Sorted, Conserved;
    var arrived := Pushed(l, f, priority).arrived;
    assert forall i :: 0 <= i < |l.arrived| ==> arrived[i] == l.arrived[i];
    assert arrived[|l.arrived|] == Entry(f, priority, |l.arrived|);
    if OnStream(f, s) {
      forall e | e in l.queue && OnStream(e.frame, s) ensures e.priority <= priority {
        var i :| 0 <= i < |l.arrived| && l.arrived[i] == e;
      }
    }
  }

  lemma {:induction false} NonDecreasingInOrder(cs: seq<Conn>, steps: seq<Step>, n: nat, s: nat)
    requires Path(cs, steps) && n < |cs|
    ensures |cs[n].lines| == FRAME_WORKERS
    ensures NonDecreasing(LineOf(cs[n], s).arrived, s) ==> InOrder(LineOf(cs[n], s), s)
  {
    hide LineOk, InOrder, Overtakes, NonDecreasing;
    RunKeeps(cs, steps, n);
    if n == 0 {
      EmptyInOrder(s);
      assert LineOf(cs[0], s) == Line([], [], []);
    } else {
      var c := cs[n - 1];
      NonDecreasingInOrder(cs, steps, n - 1, s);
      RunKeeps(cs, steps, n - 1);
      StepOrder(c, steps[n - 1], s);
      if NonDecreasing(LineOf(cs[n], s).arrived, s) {
        NonDecreasingStep(c, steps[n - 1], s);
      }
    }
  }

  lemma NonDecreasingStep(c: Conn, step: Step, s: nat)
    requires Ok(c) && Enabled(c, step) && |After(c, step).lines| == FRAME_WORKERS
    requires NonDecreasing(LineOf(After(c, step), s).arrived, s)
    ensures NonDecreasing(LineOf(c, s).arrived, s) && !OvertakingPush(c, step, s)
  {
    hide LineOk, Overtakes;
    match step
    case Push =>
      if c.slot.partition == s % FRAME_WORKERS {
        NonDecreasingPush(LineOf(c, s), c.slot.frame, c.slot.priority, s);
      }
    case _ =>
  }

  // ---------- Streams opened with priority 0 ----------

  /** The step leaves the priority of `s` alone, opens `s` with priority 0 only, and never after a stray frame of `s`. */
  ghost predicate Calm(c: Conn, step: Step, s: nat) {
    match step
    case Read(f) => f.kind == SynStream && f.streamId == s && Accepted(c, f) ==> f.priority == 0 && s !in c.strays
    case SetPriority(r, p) => r != s
    case Create(r) => r == s ==> s !in c.strays
    case _ => true
  }

  ghost predicate Settled(c: Conn, s: nat) {
    && |c.lines| == FRAME_WORKERS
    && (s in c.streams ==> c.streams[s] == 0 && s !in c.strays)
    && (c.slot != Empty && OnStream(c.slot.frame, s) ==> c.slot.priority == if s in c.strays then 7 else 0)
    && NonDecreasing(LineOf(c, s).arrived, s)
    && forall e :: e in LineOf(c, s).arrived && OnStream(e.frame, s) ==>
                   e.priority == 0 || (e.priority == 7 && s in c.strays)
  }

  lemma SettledStep(c: Conn, step: Step, s: nat)
    requires Ok(c) && Enabled(c, step) && Settled(c, s) && Calm(c, step, s)
    ensures Settled(After(c, step), s)
  {
    hide LineOk, Partitioned, NonDecreasing;
    match step
    case Push =>
      if c.slot.partition == s % FRAME_WORKERS {
        SettledPush(LineOf(c, s), c.slot.frame, c.slot.priority, s, s in c.strays);
      }
    case _ =>
  }

  lemma SettledPush(l: Line, f: ReadFrame, priority: nat, s: nat, stray: bool)
    requires NonDecreasing(l.arrived, s)
    requires OnStream(f, s) ==> priority == if stray then 7 else 0
    requires forall e :: e in l.arrived && OnStream(e.frame, s) ==> e.priority == 0 || (e.priority == 7 && stray)
    ensures NonDecreasing(Pushed(l, f, priority).arrived, s)
    ensures forall e :: e in Pushed(l, f, priority).arrived && OnStream(e.frame, s) ==>
                          e.priority == 0 || (e.priority == 7 && stray)
  {
    var arrived := Pushed(l, f, priority).arrived;
    forall i, j | 0 <= i < j < |arrived| && OnStream(arrived[i].frame, s) && OnStream(arrived[j].frame, s)
      ensures arrived[i].priority <= arrived[j].priority
    {
      assert arrived[i] == l.arrived[i];
      assert arrived[i] in l.arrived;
    }
  }

  lemma {:induction false} SettledRun(cs: seq<Conn>, steps: seq<Step>, n: nat, s: nat)
    requires Path(cs, steps) && n < |cs|
    requires s in cs[0].streams ==> cs[0].streams[s] == 0
    requires forall i :: 0 <= i < n ==> Calm(cs[i], steps[i], s)
    ensures Settled(cs[n], s)
  {
    hide Ok, Calm, After, Enabled;
    if n > 0 {
      SettledRun(cs, steps, n - 1, s);
      RunKeeps(cs, steps, n - 1);
      SettledStep(cs[n - 1], steps[n - 1], s);
    } else {
      assert LineOf(cs[0], s) == Line([], [], []);
    }
  }

  /** A stream opened with priority 0 and left alone has its frames handled in the order of their arrival. */
  lemma PriorityZeroInOrder(cs: seq<Conn>, steps: seq<Step>, n: nat, s: nat)
    requires Path(cs, steps) && n < |cs|
    requires s in cs[0].streams ==> cs[0].streams[s] == 0
    requires forall i :: 0 <= i < n ==> Calm(cs[i], steps[i], s)
    ensures |cs[n].lines| == FRAME_WORKERS && InOrder(LineOf(cs[n], s), s)
  {
    SettledRun(cs, steps, n, s);
    NonDecreasingInOrder(cs, steps, n, s);
  }

  ghost function OpeningRun(streams: map<nat, nat>, received: nat, s: nat, p: nat): seq<Conn>
    requires received <= s <= MAX_STREAM_ID
  {
    var c0 := Init(streams, received);
    var c1 := After(c0, Read(ReadFrame(SynStream, s, p)));
    var c2 := After(c1, Push);
    var c3 := After(c2, Read(ReadFrame(Data, s, 0)));
    [c0, c1, c2, c3, After(c3, Push)]
  }

  /** Any other priority can put the data of a stream before the frame that opens it. */
  lemma OpeningOvertaken(streams: map<nat, nat>, received: nat, s: nat, p: nat) returns (cs: seq<Conn>, steps: seq<Step>)
    requires received <= s <= MAX_STREAM_ID && p > 0
    ensures Path(cs, steps) && cs[0] == Init(streams, received)
    ensures steps == [Read(ReadFrame(SynStream, s, p)), Push, Read(ReadFrame(Data, s, 0)), Push]
    ensures |cs[4].lines| == FRAME_WORKERS
    ensures LineOf(cs[4], s).queue ==
            [Entry(ReadFrame(Data, s, 0), 0, 1), Entry(ReadFrame(SynStream, s, p), p, 0)]
    ensures !InOrder(LineOf(cs[4], s), s)
  {
    hide OfStream, InOrder, LineOk, Ok;
    steps := [Read(ReadFrame(SynStream, s, p)), Push, Read(ReadFrame(Data, s, 0)), Push];
    cs := OpeningRun(streams, received, s, p);
    OpeningQueues(streams, received, s, p);
    assert OvertakingPush(cs[3], steps[3], s);
    StreamOrder(cs, steps, 4, s);
  }

  lemma OpeningQueues(streams: map<nat, nat>, received: nat, s: nat, p: nat)
    requires received <= s <= MAX_STREAM_ID && p > 0
    ensures var cs, e, d := OpeningRun(streams, received, s, p), Entry(ReadFrame(SynStream, s, p), p, 0), Entry(ReadFrame(Data, s, 0), 0, 1);
            && |cs[3].lines| == |cs[4].lines| == FRAME_WORKERS
            && LineOf(cs[3], s).queue == [e] && LineOf(cs[4], s).queue == [d, e]
            && Overtakes(LineOf(cs[3], s), s, 0)
  {
    var cs, e := OpeningRun(streams, received, s, p), Entry(ReadFrame(SynStream, s, p), p, 0);
    assert Insert([], e) == [e];
    assert LineOf(cs[2], s) == Line([e], [], [e]);
    assert e in LineOf(cs[3], s).queue;
  }
}

/**
The channels of one SPDY stream under the frame worker and any number of local callers.  One step
is one lock operation, one select, one channel operation or one assignment, so every interleaving
the locks allow is a run.  A stream handler called by the worker counts as a local caller.
*/
module StreamChannels {
  import opened Wrappers

  /** What a thread goes on with after the region that closes the two channels. */
  datatype Purpose = RemoteFinish(reply: bool) | PeerReset | LocalClose | LocalReset

  datatype Pc =
    | Idle
    // dataLock held for writing: close dataChan and closeChan unless closeChan is closed
    | LockWait(p: Purpose) | Locked(p: Purpose) | HalfClosed(p: Purpose) | Unlocking(p: Purpose)
    // dataLock held for reading: send a data frame unless closeChan is closed
    | ReadWait(fin: bool) | ReadLocked(fin: bool) | Sending(fin: bool) | ReadUnlocking(fin: bool)
    // the rest of the handlers of the worker
    | ReplySet(fin: bool) | CloseStart(reset: bool) | FinishCheck(reply: bool) | HeaderSend(fin: bool)
    | ResetCheck | ResetSet | SendStart | ResetFinish
    // the rest of the local calls
    | AwaitReply | FinishTake | WriteFin | ResetTake | WriteReset
    | ReplyLock(fin: bool) | ReplyTest(fin: bool) | WriteReply(fin: bool) | ReplyMark | ReplyUnlock
    | RefuseSet | WriteRefusal | WriteCancel | WriteHeaders(fin: bool)

  const WORKER: nat := 0

  /**
  `dataCloses`, `closeCloses` and `startCloses` count the close calls on the three channels.  The
  last five count the frames written that end this side of the stream: those of the takers of
  finishLock, the resets of `Refuse` and `Cancel`, the replies and the headers that carry FIN.
  */
  datatype Shared = Shared(
    initiated: bool, registered: bool, replied: bool, finished: bool,
    dataCloses: nat, closeCloses: nat, startCloses: nat, delivered: nat,
    writer: set<nat>, readers: set<nat>, replier: set<nat>,
    lasts: nat, refusals: nat, cancels: nat, lastReplies: nat, lastHeaders: nat)

  datatype Stream = Stream(h: Shared, pcs: map<nat, Pc>)

  datatype Call = ReplyFrame(fin: bool) | ResetFrame | DataFrame(nonempty: bool, fin: bool) | HeadersFrame(fin: bool)
                | Close | Reset | WriteLast | SendReply(fin: bool) | SendHeader(fin: bool) | Refuse | Cancel

  datatype Step = Begin(t: nat, call: Call) | Go(t: nat, choice: bool)

  datatype Moved = Moved(h: Shared, pc: Pc)

  predicate ByWorker(call: Call) {
    call.ReplyFrame? || call.ResetFrame? || call.DataFrame? || call.HeadersFrame?
  }

  function PcOf(s: Stream, t: nat): Pc { if t in s.pcs then s.pcs[t] else Idle }

  /**
  A stream begins closed for reading when the peer's opening frame carries FIN.  It begins finished
  when it is unidirectional, or when its own opening frame carried FIN, which ends this side.
  */
  function Init(initiated: bool, finished: bool, fin: bool): Stream {
    var n := if fin then 1 else 0;
    Stream(Shared(initiated, true, false, finished, n, n, 0, 0, {}, {}, {},
                  if initiated && finished then 1 else 0, 0, 0, 0, 0), map[])
  }

  /** `choice` is the channel that a select takes, and whether the write of a reply fails. */
  predicate CanGo(h: Shared, pc: Pc, choice: bool) {
    match pc
    case Idle => false
    case LockWait(_) => h.writer == {} && h.readers == {}
    case ReadWait(_) => h.writer == {}
    case AwaitReply => h.initiated || h.replied
    case ReplyLock(_) => h.replier == {}
    case HeaderSend(_) => choice ==> h.closeCloses > 0
    case _ => true
  }

  predicate Enabled(s: Stream, step: Step) {
    match step
    case Begin(t, call) => PcOf(s, t) == Idle && (ByWorker(call) <==> t == WORKER)
    case Go(t, choice) => CanGo(s.h, PcOf(s, t), choice)
  }

  function Begun(h: Shared, call: Call): Moved {
    match call
    case ReplyFrame(fin) => Moved(h, if h.registered && !h.replied then ReplySet(fin) else Idle)
    case ResetFrame => if h.registered then Moved(h.(registered := false), LockWait(PeerReset)) else Moved(h, Idle)
    case DataFrame(nonempty, fin) =>
      Moved(h, if !h.registered || !h.replied then Idle
               else if nonempty then ReadWait(fin)
               else if fin then LockWait(RemoteFinish(false))
               else Idle)
    case HeadersFrame(fin) => Moved(h, if h.registered && h.replied then HeaderSend(fin) else Idle)
    case Close => Moved(h, LockWait(LocalClose))
    case Reset => Moved(h.(registered := false), ResetTake)
    case WriteLast => Moved(h, AwaitReply)
    case SendReply(fin) => Moved(h, if h.initiated then Idle else ReplyLock(fin))
    case SendHeader(fin) => Moved(h, WriteHeaders(fin))
    case Refuse => Moved(h, if h.replied then Idle else RefuseSet)
    case Cancel => Moved(h, WriteCancel)
  }

  function Onward(p: Purpose): Pc {
    match p
    case RemoteFinish(reply) => FinishCheck(reply)
    case PeerReset => ResetCheck
    case LocalClose => AwaitReply
    case LocalReset => WriteReset
  }

  predicate InRegion(pc: Pc) {
    || pc.LockWait? || pc.Locked? || pc.HalfClosed? || pc.Unlocking?
    || pc.ReadWait? || pc.ReadLocked? || pc.Sending? || pc.ReadUnlocking?
  }

  predicate InHandler(pc: Pc) {
    || pc.ReplySet? || pc.CloseStart? || pc.FinishCheck? || pc.HeaderSend?
    || pc.ResetCheck? || pc.ResetSet? || pc.SendStart? || pc.ResetFinish?
  }

  predicate InReply(pc: Pc) {
    || pc.ReplyLock? || pc.ReplyTest? || pc.WriteReply? || pc.ReplyMark?
    || pc.ReplyUnlock?
  }

  /** A step of the two regions of dataLock. */
  function GoneRegion(h: Shared, t: nat, pc: Pc, choice: bool): Moved {
    match pc
    case LockWait(p) => Moved(h.(writer := {t}), Locked(p))
    case Locked(p) =>
      if h.closeCloses > 0 then Moved(if p == LocalClose then h.(registered := false) else h, Unlocking(p))
      else Moved(h.(dataCloses := h.dataCloses + 1), HalfClosed(p))
    case HalfClosed(p) => Moved(h.(closeCloses := h.closeCloses + 1), Unlocking(p))
    case Unlocking(p) => Moved(h.(writer := {}), Onward(p))
    case ReadWait(fin) => Moved(h.(readers := h.readers + {t}), ReadLocked(fin))
    case ReadLocked(fin) => Moved(h, if h.closeCloses > 0 then ReadUnlocking(fin) else Sending(fin))
    case Sending(fin) => Moved(h.(delivered := h.delivered + 1), ReadUnlocking(fin))
    case ReadUnlocking(fin) =>
      Moved(h.(readers := h.readers - {t}), if fin then LockWait(RemoteFinish(false)) else Idle)
    case _ => Moved(h, pc)
  }

  /** A step of the worker's handlers. */
  function GoneHandler(h: Shared, t: nat, pc: Pc, choice: bool): Moved {
    match pc
    case ReplySet(fin) => Moved(h.(replied := true), if fin then LockWait(RemoteFinish(true)) else CloseStart(false))
    case CloseStart(reset) => Moved(h.(startCloses := h.startCloses + 1), if reset then ResetFinish else Idle)
    case FinishCheck(reply) =>
      Moved(if h.finished then h.(registered := false) else h, if reply then CloseStart(false) else Idle)
    case HeaderSend(fin) => Moved(h, if !choice && fin then LockWait(RemoteFinish(false)) else Idle)
    case ResetCheck => Moved(h, if h.replied then ResetFinish else ResetSet)
    case ResetSet => Moved(h.(replied := true), SendStart)
    case SendStart => Moved(h, CloseStart(true))
    case ResetFinish => Moved(h.(finished := true), Idle)
    case _ => Moved(h, pc)
  }

  /** A step of the region of replyCond. */
  function GoneReply(h: Shared, t: nat, pc: Pc, choice: bool): Moved {
    match pc
    case ReplyLock(fin) => Moved(h.(replier := {t}), ReplyTest(fin))
    case ReplyTest(fin) => Moved(h, if h.replied then ReplyUnlock else WriteReply(fin))
    case WriteReply(fin) =>
      if choice then Moved(h, ReplyUnlock)
      else Moved(h.(lastReplies := h.lastReplies + if fin then 1 else 0), ReplyMark)
    case ReplyMark => Moved(h.(replied := true), ReplyUnlock)
    case ReplyUnlock => Moved(h.(replier := {}), Idle)
    case _ => Moved(h, pc)
  }

  /** A step of the other local calls. */
  function GoneLocal(h: Shared, t: nat, pc: Pc, choice: bool): Moved {
    match pc
    case AwaitReply => Moved(h, FinishTake)
    case FinishTake => if h.finished then Moved(h, Idle) else Moved(h.(finished := true), WriteFin)
    case WriteFin => Moved(h.(lasts := h.lasts + 1), Idle)
    case ResetTake => if h.finished then Moved(h, Idle) else Moved(h.(finished := true), LockWait(LocalReset))
    case WriteReset => Moved(h.(lasts := h.lasts + 1), Idle)
    case RefuseSet => Moved(h.(replied := true), WriteRefusal)
    case WriteRefusal => Moved(h.(refusals := h.refusals + 1), Idle)
    case WriteCancel => Moved(h.(cancels := h.cancels + 1), Idle)
    case WriteHeaders(fin) => Moved(h.(lastHeaders := h.lastHeaders + if fin then 1 else 0), Idle)
    case _ => Moved(h, pc)
  }

  function Gone(h: Shared, t: nat, pc: Pc, choice: bool): Moved {
    if InRegion(pc) then GoneRegion(h, t, pc, choice)
    else if InHandler(pc) then GoneHandler(h, t, pc, choice)
    else if InReply(pc) then GoneReply(h, t, pc, choice)
    else GoneLocal(h, t, pc, choice)
  }

  function Move(s: Stream, step: Step): Moved {
    match step
    case Begin(_, call) => Begun(s.h, call)
    case Go(t, choice) => Gone(s.h, t, PcOf(s, t), choice)
  }

  function After(s: Stream, step: Step): Stream {
    var m := Move(s, step);
    Stream(m.h, s.pcs[step.t := m.pc])
  }

  // ---------- The lock ----------

  predicate Writing(pc: Pc) { pc.Locked? || pc.HalfClosed? || pc.Unlocking? }

  predicate Reading(pc: Pc) { pc.ReadLocked? || pc.Sending? || pc.ReadUnlocking? }

  ghost predicate Exclusive(s: Stream) {
    && (forall t: nat :: t in s.h.writer <==> Writing(PcOf(s, t)))
    && (forall t: nat :: t in s.h.readers <==> Reading(PcOf(s, t)))
    && (forall t: nat, u: nat :: t in s.h.writer && u in s.h.writer ==> t == u)
    && (s.h.writer != {} ==> s.h.readers == {})
  }

  // ---------- dataChan and closeChan ----------

  /** Only inside the exclusive region are the two channels ever in different states, and each is closed at most once. */
  ghost predicate ClosedTogether(s: Stream) {
    && (forall t: nat :: PcOf(s, t).HalfClosed? ==> s.h.dataCloses == 1 && s.h.closeCloses == 0)
    && ((forall t: nat :: !PcOf(s, t).HalfClosed?) ==> s.h.dataCloses == s.h.closeCloses <= 1)
    && (forall t: nat :: PcOf(s, t).Sending? ==> s.h.dataCloses == 0)
  }

  // ---------- startChan ----------

  /** The worker is on its way to close startChan. */
  predicate WillClose(pc: Pc) {
    || pc.CloseStart? || pc.ResetSet? || pc.SendStart? || pc.ReplySet?
    || (pc.FinishCheck? && pc.reply)
    || ((pc.LockWait? || Writing(pc)) && pc.p == RemoteFinish(true))
  }

  /** Between the test of `replied` and its assignment. */
  predicate Deciding(pc: Pc) { pc.ReplySet? || pc.ResetSet? }

  predicate OfWorker(pc: Pc) {
    || WillClose(pc) || pc == ResetCheck || pc == ResetFinish || pc.HeaderSend? || pc.FinishCheck?
    || pc.ReadWait? || Reading(pc)
    || ((pc.LockWait? || Writing(pc)) && (pc.p.RemoteFinish? || pc.p == PeerReset))
  }

  ghost predicate StartOnce(s: Stream) {
    && (forall t: nat :: OfWorker(PcOf(s, t)) ==> t == WORKER)
    && s.h.startCloses <= 1
    && (s.h.startCloses == 1 ==> s.h.replied)
    && (WillClose(PcOf(s, WORKER)) ==> s.h.startCloses == 0 && (s.h.replied || Deciding(PcOf(s, WORKER))))
  }

  // ---------- The closing frame ----------

  /** The thread has marked the stream finished and is about to write the frame that says so. */
  predicate Owes(pc: Pc) {
    pc == WriteFin || pc == WriteReset || ((pc.LockWait? || Writing(pc)) && pc.p == LocalReset)
  }

  ghost predicate LastOnce(s: Stream) {
    && s.h.lasts <= 1
    && (!s.h.finished ==> s.h.lasts == 0)
    && (forall t: nat :: Owes(PcOf(s, t)) ==> s.h.finished && s.h.lasts == 0)
    && (forall t: nat, u: nat :: Owes(PcOf(s, t)) && Owes(PcOf(s, u)) ==> t == u)
  }

  // ---------- The reply ----------

  /** Inside the region of replyCond. */
  predicate Replying(pc: Pc) { pc.ReplyTest? || pc.WriteReply? || pc.ReplyMark? || pc.ReplyUnlock? }

  /** replyCond lets one reply out: it is written by a holder that has seen none before. */
  ghost predicate ReplyOnce(s: Stream) {
    && (forall t: nat :: t in s.h.replier <==> Replying(PcOf(s, t)))
    && (forall t: nat, u: nat :: t in s.h.replier && u in s.h.replier ==> t == u)
    && s.h.lastReplies <= 1
    && (forall t: nat :: PcOf(s, t).WriteReply? ==> s.h.lastReplies == 0)
    && (s.h.lastReplies == 1 ==> s.h.replied || exists t: nat :: PcOf(s, t).ReplyMark?)
  }

  ghost predicate Ok(s: Stream) {
    Exclusive(s) && ClosedTogether(s) && StartOnce(s) && LastOnce(s) && ReplyOnce(s)
  }

  // ---------- One step, seen from its thread ----------

  lemma OthersStay(s: Stream, step: Step, u: nat)
    requires u != step.t
    ensures PcOf(After(s, step), u) == PcOf(s, u)
  {
    hide Move;
  }

  lemma OwnMoves(s: Stream, step: Step)
    ensures PcOf(After(s, step), step.t) == Move(s, step).pc && After(s, step).h == Move(s, step).h
  {
    hide Move;
  }

  ghost predicate LockFx(h: Shared, t: nat, pc: Pc, m: Moved) {
    && (Writing(m.pc) && !Writing(pc) ==> h.writer == {} && h.readers == {})
    && (Reading(m.pc) && !Reading(pc) ==> h.writer == {})
    && !(Writing(pc) && Reading(m.pc)) && !(Reading(pc) && Writing(m.pc))
    && m.h.writer == (if Writing(pc) == Writing(m.pc) then h.writer else if Writing(m.pc) then {t} else {})
    && m.h.readers == (if Reading(pc) == Reading(m.pc) then h.readers
                       else if Reading(m.pc) then h.readers + {t} else h.readers - {t})
  }

  ghost predicate CloseFx(h: Shared, pc: Pc, m: Moved) {
    && m.h.dataCloses == h.dataCloses + (if m.pc.HalfClosed? then 1 else 0)
    && m.h.closeCloses == h.closeCloses + (if pc.HalfClosed? then 1 else 0)
    && (pc.HalfClosed? ==> !m.pc.HalfClosed? && !m.pc.Sending?)
    && (m.pc.HalfClosed? ==> pc.Locked? && h.closeCloses == 0)
    && (m.pc.Sending? ==> pc.ReadLocked? && h.closeCloses == 0)
  }

  ghost predicate StartFx(h: Shared, pc: Pc, m: Moved) {
    && (h.replied ==> m.h.replied)
    && m.h.startCloses == h.startCloses + (if pc.CloseStart? then 1 else 0)
    && (pc.CloseStart? ==> !WillClose(m.pc))
    && (WillClose(m.pc) && !WillClose(pc) ==> !h.replied)
    && (WillClose(m.pc) && !Deciding(m.pc) ==> WillClose(pc) && (m.h.replied || !Deciding(pc)))
  }

  ghost predicate LastFx(h: Shared, pc: Pc, m: Moved) {
    && (h.finished ==> m.h.finished)
    && (Owes(m.pc) ==> m.h.finished || Owes(pc)) && (Owes(m.pc) && !Owes(pc) ==> !h.finished)
    && m.h.lasts == h.lasts + (if Owes(pc) && !Owes(m.pc) then 1 else 0)
  }

  ghost predicate ReplyFx(h: Shared, t: nat, pc: Pc, m: Moved) {
    && (Replying(m.pc) && !Replying(pc) ==> h.replier == {} && m.pc.ReplyTest?)
    && m.h.replier == (if Replying(pc) == Replying(m.pc) then h.replier else if Replying(m.pc) then {t} else {})
    && (h.replied ==> m.h.replied)
    && (m.pc.WriteReply? ==> pc.ReplyTest? && !h.replied)
    && (m.pc.ReplyMark? ==> pc.WriteReply?)
    && (pc.ReplyMark? ==> m.h.replied)
    && h.lastReplies <= m.h.lastReplies <= h.lastReplies + 1
    && (m.h.lastReplies > h.lastReplies ==> pc.WriteReply? && m.pc.ReplyMark?)
  }

  /** What one step of a thread at `pc` may do to the locks and the channels under them. */
  ghost predicate LocksFx(h: Shared, t: nat, pc: Pc, m: Moved) {
    LockFx(h, t, pc, m) && CloseFx(h, pc, m) && ReplyFx(h, t, pc, m)
  }

  /** And to the rest. */
  ghost predicate FlagsFx(h: Shared, pc: Pc, m: Moved) {
    StartFx(h, pc, m) && LastFx(h, pc, m)
  }

  lemma RegionLocks(h: Shared, t: nat, pc: Pc, choice: bool)
    requires InRegion(pc) && CanGo(h, pc, choice)
    ensures LocksFx(h, t, pc, GoneRegion(h, t, pc, choice))
  {
  }

  lemma RegionFlags(h: Shared, t: nat, pc: Pc, choice: bool)
    requires InRegion(pc)
    ensures FlagsFx(h, pc, GoneRegion(h, t, pc, choice)) && (OfWorker(GoneRegion(h, t, pc, choice).pc) ==> OfWorker(pc))
  {
  }

  lemma HandlerLocks(h: Shared, t: nat, pc: Pc, choice: bool)
    requires InHandler(pc) && CanGo(h, pc, choice)
    ensures LocksFx(h, t, pc, GoneHandler(h, t, pc, choice))
  {
  }

  lemma HandlerFlags(h: Shared, t: nat, pc: Pc, choice: bool)
    requires InHandler(pc)
    ensures FlagsFx(h, pc, GoneHandler(h, t, pc, choice)) && (OfWorker(GoneHandler(h, t, pc, choice).pc) ==> OfWorker(pc))
  {
  }

  lemma ReplyLocks(h: Shared, t: nat, pc: Pc, choice: bool)
    requires InReply(pc) && CanGo(h, pc, choice)
    ensures LocksFx(h, t, pc, GoneReply(h, t, pc, choice))
  {
  }

  lemma ReplyFlags(h: Shared, t: nat, pc: Pc, choice: bool)
    requires InReply(pc)
    ensures FlagsFx(h, pc, GoneReply(h, t, pc, choice)) && (OfWorker(GoneReply(h, t, pc, choice).pc) ==> OfWorker(pc))
  {
  }

  lemma LocalLocks(h: Shared, t: nat, pc: Pc, choice: bool)
    requires !InRegion(pc) && !InHandler(pc) && !InReply(pc) && CanGo(h, pc, choice)
    ensures LocksFx(h, t, pc, GoneLocal(h, t, pc, choice))
  {
  }

  lemma LocalFlags(h: Shared, t: nat, pc: Pc, choice: bool)
    requires !InRegion(pc) && !InHandler(pc) && !InReply(pc)
    ensures FlagsFx(h, pc, GoneLocal(h, t, pc, choice)) && (OfWorker(GoneLocal(h, t, pc, choice).pc) ==> OfWorker(pc))
  {
    LocalStart(h, t, pc, choice);
    LocalLast(h, t, pc, choice);
    hide StartFx, LastFx, GoneLocal;
  }

  lemma LocalStart(h: Shared, t: nat, pc: Pc, choice: bool)
    requires !InRegion(pc) && !InHandler(pc) && !InReply(pc)
    ensures StartFx(h, pc, GoneLocal(h, t, pc, choice)) && (OfWorker(GoneLocal(h, t, pc, choice).pc) ==> OfWorker(pc))
  {
  }

  lemma LocalLast(h: Shared, t: nat, pc: Pc, choice: bool)
    requires !InRegion(pc) && !InHandler(pc) && !InReply(pc)
    ensures LastFx(h, pc, GoneLocal(h, t, pc, choice))
  {
  }

  lemma BeginLocks(h: Shared, t: nat, call: Call)
    ensures LocksFx(h, t, Idle, Begun(h, call))
  {
  }

  lemma BeginFlags(h: Shared, call: Call)
    ensures FlagsFx(h, Idle, Begun(h, call)) && (OfWorker(Begun(h, call).pc) ==> ByWorker(call))
  {
  }

  lemma StepFx(s: Stream, step: Step)
    requires Enabled(s, step)
    ensures LocksFx(s.h, step.t, PcOf(s, step.t), Move(s, step)) && FlagsFx(s.h, PcOf(s, step.t), Move(s, step))
    ensures OfWorker(Move(s, step).pc) ==> OfWorker(PcOf(s, step.t)) || step.t == WORKER
    ensures PcOf(After(s, step), step.t) == Move(s, step).pc && After(s, step).h == Move(s, step).h
    ensures forall u: nat :: u != step.t ==> PcOf(After(s, step), u) == PcOf(s, u)
  {
    hide LocksFx, FlagsFx, OfWorker, Begun, GoneRegion, GoneHandler, GoneReply, GoneLocal, InRegion, InHandler, InReply, CanGo;
    OwnMoves(s, step);
    forall u: nat | u != step.t ensures PcOf(After(s, step), u) == PcOf(s, u) {
      OthersStay(s, step, u);
    }
    match step
    case Begin(t, call) =>
      BeginLocks(s.h, t, call);
      BeginFlags(s.h, call);
    case Go(t, choice) =>
      var pc := PcOf(s, t);
      if InRegion(pc) {
        RegionLocks(s.h, t, pc, choice);
        RegionFlags(s.h, t, pc, choice);
      } else if InHandler(pc) {
        HandlerLocks(s.h, t, pc, choice);
        HandlerFlags(s.h, t, pc, choice);
      } else if InReply(pc) {
        ReplyLocks(s.h, t, pc, choice);
        ReplyFlags(s.h, t, pc, choice);
      } else {
        LocalLocks(s.h, t, pc, choice);
        LocalFlags(s.h, t, pc, choice);
      }
  }

  lemma ExclusiveKept(s: Stream, step: Step)
    requires Enabled(s, step) && Exclusive(s)
    ensures Exclusive(After(s, step))
  {
    StepFx(s, step);
    hide Enabled, Move, After, PcOf, Writing, Reading, CloseFx, StartFx, LastFx, ReplyFx, OfWorker;
  }

  /** While `t` holds the lock nobody else does. */
  lemma OneWriter(s: Stream, t: nat)
    requires Exclusive(s)
    ensures Writing(PcOf(s, t)) ==> forall u: nat :: u != t ==> !Writing(PcOf(s, u)) && !Reading(PcOf(s, u))
    ensures Reading(PcOf(s, t)) ==> forall u: nat :: !Writing(PcOf(s, u))
  {
    hide PcOf;
  }

  lemma ClosedTogetherKept(s: Stream, step: Step)
    requires Enabled(s, step) && Exclusive(s) && ClosedTogether(s)
    ensures ClosedTogether(After(s, step))
  {
    StepFx(s, step);
    OneWriter(s, step.t);
    hide Enabled, Move, After, PcOf, Exclusive, LockFx, StartFx, LastFx, ReplyFx, OfWorker;
  }

  lemma StartOnceKept(s: Stream, step: Step)
    requires Enabled(s, step) && StartOnce(s)
    ensures StartOnce(After(s, step))
  {
    StepFx(s, step);
    hide Enabled, Move, After, PcOf, LockFx, CloseFx, LastFx, ReplyFx, OfWorker, WillClose, Deciding;
  }

  lemma LastOnceKept(s: Stream, step: Step)
    requires Enabled(s, step) && LastOnce(s)
    ensures LastOnce(After(s, step))
  {
    StepFx(s, step);
    hide Enabled, Move, After, PcOf, LockFx, CloseFx, StartFx, ReplyFx, OfWorker, Owes;
  }

  lemma ReplyOnceKept(s: Stream, step: Step)
    requires Enabled(s, step) && ReplyOnce(s)
    ensures ReplyOnce(After(s, step))
  {
    StepFx(s, step);
    hide Enabled, Move, After, PcOf, LockFx, CloseFx, StartFx, LastFx, OfWorker, Replying;
    ReplyingPcs();
  }

  lemma ReplyingPcs()
    ensures forall pc: Pc :: pc.ReplyTest? || pc.WriteReply? || pc.ReplyMark? ==> Replying(pc)
  {
  }

  // ---------- Runs ----------

  ghost predicate Path(ss: seq<Stream>, steps: seq<Step>) {
    && |ss| == |steps| + 1
    && (exists initiated, finished, fin :: ss[0] == Init(initiated, finished, fin))
    && forall i :: 0 <= i < |steps| ==> Enabled(ss[i], steps[i]) && ss[i + 1] == After(ss[i], steps[i])
  }

  lemma {:induction false} RunKeeps(ss: seq<Stream>, steps: seq<Step>, n: nat)
    requires Path(ss, steps) && n < |ss|
    ensures Ok(ss[n])
  {
    hide Exclusive, ClosedTogether, StartOnce, LastOnce, ReplyOnce, Enabled, After;
    if n == 0 {
      var initiated, finished, fin :| ss[0] == Init(initiated, finished, fin);
      InitOk(initiated, finished, fin);
    } else {
      RunKeeps(ss, steps, n - 1);
      ExclusiveKept(ss[n - 1], steps[n - 1]);
      ClosedTogetherKept(ss[n - 1], steps[n - 1]);
      StartOnceKept(ss[n - 1], steps[n - 1]);
      LastOnceKept(ss[n - 1], steps[n - 1]);
      ReplyOnceKept(ss[n - 1], steps[n - 1]);
    }
  }

  lemma InitOk(initiated: bool, finished: bool, fin: bool)
    ensures Ok(Init(initiated, finished, fin))
  {
    var s := Init(initiated, finished, fin);
    assert forall t: nat :: PcOf(s, t) == Idle;
    assert !PcOf(s, WORKER).HalfClosed?;
  }

  /**
  In every interleaving: dataChan and closeChan are closed at most once each and, whenever no
  thread holds the lock, both or neither; nothing is sent on a closed dataChan or startChan and
  no channel is closed twice.
  */
  lemma ChannelDiscipline(ss: seq<Stream>, steps: seq<Step>, n: nat, t: nat)
    requires Path(ss, steps) && n < |ss|
    ensures ss[n].h.dataCloses <= 1 && ss[n].h.closeCloses <= 1 && ss[n].h.startCloses <= 1
    ensures ss[n].h.writer == {} ==> ss[n].h.dataCloses == ss[n].h.closeCloses
    ensures var h, pc := ss[n].h, PcOf(ss[n], t);
            && (pc.Sending? ==> h.dataCloses == 0)
            && (pc.Locked? && h.closeCloses == 0 ==> h.dataCloses == 0)
            && (pc.HalfClosed? ==> h.closeCloses == 0)
            && (pc.SendStart? || pc.CloseStart? ==> h.startCloses == 0 && t == WORKER)
  {
    RunKeeps(ss, steps, n);
    OneWriter(ss[n], t);
    hide Exclusive, StartOnce, LastOnce, ReplyOnce, PcOf, Enabled, After;
    Lasting(ss[n], t);
  }

  lemma Lasting(s: Stream, t: nat)
    requires Ok(s)
    ensures s.h.startCloses <= 1 && s.h.lasts <= 1 && s.h.lastReplies <= 1 && s.h.dataCloses <= 1 && s.h.closeCloses <= 1
    ensures s.h.writer == {} ==> s.h.dataCloses == s.h.closeCloses
    ensures PcOf(s, t).SendStart? || PcOf(s, t).CloseStart? ==> s.h.startCloses == 0 && t == WORKER
  {
    hide PcOf;
  }

  // ---------- What a call or a frame has brought about when its thread is done ----------

  /**
  The channels are closed; this side is finished; the stream is answered; a finished stream is dropped,
  and so is a closed one; the peer's reset is over.
  */
  datatype Goal = Shut | End | Answer | Drop | GoneToo | PeerGone

  /** What asks for it, told from the step and the state before it. */
  predicate Asks(s: Stream, step: Step, g: Goal) {
    match g
    case Shut => Shuts(s, step)
    case End => step.Begin? && (step.call.Close? || step.call.Reset? || step.call.WriteLast?)
    case Answer => step.Begin? && step.call.SendReply? && !s.h.initiated
    case Drop => s.h.finished && PeerFin(s, step)
    case GoneToo => step.Begin? && step.call.Close? && s.h.closeCloses >= 1
    case PeerGone => step.Begin? && step.call.ResetFrame? && s.h.registered
  }

  /**
  The peer's FIN: a data frame with FIN on a stream that is there and has been answered, a reply with
  FIN that is the first, or a headers frame with FIN, once its headers are sent.
  */
  predicate PeerFin(s: Stream, step: Step) {
    match step
    case Begin(_, call) => || (call.DataFrame? && call.fin && s.h.registered && s.h.replied)
                           || (call.ReplyFrame? && call.fin && s.h.registered && !s.h.replied)
    case Go(t, choice) => PcOf(s, t) == HeaderSend(true) && !choice
  }

  /** What closes the channels: the peer's FIN, its reset of a stream that is there, `Close`, and a `Reset` that finds the stream unfinished. */
  predicate Shuts(s: Stream, step: Step) {
    || PeerFin(s, step)
    || (step.Begin? && (step.call.Close? || (step.call.ResetFrame? && s.h.registered)))
    || (step.Go? && PcOf(s, step.t) == ResetTake && !s.h.finished)
  }

  predicate Met(h: Shared, g: Goal) {
    match g
    case Shut => h.closeCloses >= 1
    case End => h.finished
    case Answer => h.replied
    case Drop => !h.registered
    case GoneToo => !h.registered
    case PeerGone => h.finished && h.replied && !h.registered
  }

  /** The thread is on its way there. */
  predicate Towards(pc: Pc, g: Goal) {
    var reading := (pc.ReadWait? || pc.ReadLocked? || pc.Sending? || pc.ReadUnlocking?) && pc.fin;
    var closing := pc.LockWait? || pc.Locked? || pc.HalfClosed?;
    match g
    case Shut => reading || (pc.ReplySet? && pc.fin) || closing
    case End => ((closing || pc.Unlocking?) && pc.p == LocalClose) || pc.AwaitReply? || pc.FinishTake? || pc.ResetTake?
    case Answer => pc.ReplyLock? || pc.ReplyTest? || pc.WriteReply? || pc.ReplyMark?
    case Drop => reading || (pc.ReplySet? && pc.fin) || ((closing || pc.Unlocking?) && pc.p.RemoteFinish?) || pc.FinishCheck?
    case GoneToo => (pc.LockWait? || pc.Locked?) && pc.p == LocalClose
    case PeerGone => || ((closing || pc.Unlocking?) && pc.p == PeerReset) || pc.ResetCheck? || pc.ResetSet? || pc.SendStart?
                     || (pc.CloseStart? && pc.reset) || pc.ResetFinish?
  }

  /** A thread on the last way knows as much. */
  predicate Halfway(h: Shared, pc: Pc, g: Goal) {
    match g
    case Drop => h.finished
    case GoneToo => h.closeCloses >= 1
    case PeerGone => !h.registered && (pc.SendStart? || pc.CloseStart? || pc.ResetFinish? ==> h.replied)
    case _ => true
  }

  /** The reply of a `SendReply` could not be written. */
  predicate FailsReply(pc: Pc, choice: bool) { pc.WriteReply? && choice }

  /** One step on the way, and one that changes only what others see. */
  ghost predicate WayFx(h: Shared, pc: Pc, choice: bool, m: Moved, g: Goal) {
    && (Met(h, g) ==> Met(m.h, g))
    && h.closeCloses <= m.h.closeCloses && (h.finished ==> m.h.finished) && (h.replied ==> m.h.replied) && (m.h.registered ==> h.registered)
    && (Towards(pc, g) && Halfway(h, pc, g) && !FailsReply(pc, choice) ==>
          (Towards(m.pc, g) && Halfway(m.h, m.pc, g)) || Met(m.h, g))
  }

  lemma RegionWay(h: Shared, t: nat, pc: Pc, choice: bool, g: Goal)
    requires InRegion(pc)
    ensures WayFx(h, pc, choice, GoneRegion(h, t, pc, choice), g)
  {
    if Closer(pc) {
      CloserWay(h, t, pc, choice, g);
    } else {
      SenderWay(h, t, pc, choice, g);
    }
    hide WayFx, GoneRegion, Closer, InRegion;
  }

  predicate Closer(pc: Pc) { pc.LockWait? || Writing(pc) }

  lemma CloserWay(h: Shared, t: nat, pc: Pc, choice: bool, g: Goal)
    requires Closer(pc)
    ensures WayFx(h, pc, choice, GoneRegion(h, t, pc, choice), g)
  {
  }

  lemma SenderWay(h: Shared, t: nat, pc: Pc, choice: bool, g: Goal)
    requires InRegion(pc) && !Closer(pc)
    ensures WayFx(h, pc, choice, GoneRegion(h, t, pc, choice), g)
  {
  }

  lemma HandlerWay(h: Shared, t: nat, pc: Pc, choice: bool, g: Goal)
    requires InHandler(pc)
    ensures WayFx(h, pc, choice, GoneHandler(h, t, pc, choice), g)
  {
  }

  lemma ReplyWay(h: Shared, t: nat, pc: Pc, choice: bool, g: Goal)
    requires InReply(pc)
    ensures WayFx(h, pc, choice, GoneReply(h, t, pc, choice), g)
  {
  }

  lemma LocalWay(h: Shared, t: nat, pc: Pc, choice: bool, g: Goal)
    requires !InRegion(pc) && !InHandler(pc) && !InReply(pc)
    ensures WayFx(h, pc, choice, GoneLocal(h, t, pc, choice), g)
  {
  }

  lemma BeginWay(h: Shared, call: Call, g: Goal)
    ensures WayFx(h, Idle, false, Begun(h, call), g)
  {
  }

  lemma MoveWay(s: Stream, step: Step, g: Goal)
    requires Enabled(s, step)
    ensures WayFx(s.h, PcOf(s, step.t), step.Go? && step.choice, Move(s, step), g)
  {
    hide WayFx, GoneRegion, GoneHandler, GoneReply, GoneLocal, Begun, InRegion, InHandler, InReply, CanGo, PcOf;
    match step
    case Begin(t, call) => BeginWay(s.h, call, g);
    case Go(t, choice) =>
      var pc := PcOf(s, t);
      if InRegion(pc) {
        RegionWay(s.h, t, pc, choice, g);
      } else if InHandler(pc) {
        HandlerWay(s.h, t, pc, choice, g);
      } else if InReply(pc) {
        ReplyWay(s.h, t, pc, choice, g);
      } else {
        LocalWay(s.h, t, pc, choice, g);
      }
  }

  lemma SetsOut(s: Stream, step: Step, g: Goal)
    requires Enabled(s, step) && Asks(s, step, g)
    ensures var m := Move(s, step); (Towards(m.pc, g) && Halfway(m.h, m.pc, g)) || Met(m.h, g)
  {
    if step.Begin? {
      hide Gone;
    } else {
      hide Begun;
    }
  }

  /** The step may fail the reply of `t`. */
  predicate FailsOf(s: Stream, step: Step, t: nat) { step == Go(t, true) && PcOf(s, t).WriteReply? }

  lemma {:induction false} OnTheWay(ss: seq<Stream>, steps: seq<Step>, i: nat, j: nat, g: Goal)
    requires Path(ss, steps) && i < j < |ss| && Asks(ss[i], steps[i], g)
    requires g.Answer? ==> forall k :: i < k < j ==> !FailsOf(ss[k], steps[k], steps[i].t)
    ensures var pc := PcOf(ss[j], steps[i].t); (Towards(pc, g) && Halfway(ss[j].h, pc, g)) || Met(ss[j].h, g)
    decreases j
  {
    var t := steps[i].t;
    if j == i + 1 {
      SetsOut(ss[i], steps[i], g);
      hide Asks, Towards, Halfway, Met, Enabled, Move;
      OwnMoves(ss[i], steps[i]);
    } else {
      OnTheWay(ss, steps, i, j - 1, g);
      var s, step := ss[j - 1], steps[j - 1];
      MoveWay(s, step, g);
      OwnMoves(s, step);
      WayStays(s, step, t, g);
    }
  }

  lemma WayStays(s: Stream, step: Step, t: nat, g: Goal)
    requires Enabled(s, step) && (g.Answer? ==> !FailsOf(s, step, t))
    requires (Towards(PcOf(s, t), g) && Halfway(s.h, PcOf(s, t), g)) || Met(s.h, g)
    ensures var u := After(s, step); (Towards(PcOf(u, t), g) && Halfway(u.h, PcOf(u, t), g)) || Met(u.h, g)
  {
    MoveWay(s, step, g);
    OwnMoves(s, step);
    if step.t != t {
      OthersStay(s, step, t);
    } else {
      NoFailure(PcOf(s, t), step.Go? && step.choice, g);
    }
    hide Enabled, Move, PcOf, Towards, Met, After;
  }

  lemma NoFailure(pc: Pc, choice: bool, g: Goal)
    ensures Towards(pc, g) && !g.Answer? ==> !FailsReply(pc, choice)
  {
  }

  /**
  What was asked for has happened once the thread that asked is done.  After the peer's FIN both
  channels are closed, and a finished stream is gone from the connection; after its reset the stream is
  closed, finished, answered and gone; `Close`, `Reset` and a last `WriteData` leave this side finished,
  `Close` the channels closed and a stream that was closed already gone; a `SendReply` that could be written leaves the stream answered.
  */
  lemma AskedIsDone(ss: seq<Stream>, steps: seq<Step>, i: nat, j: nat, g: Goal)
    requires Path(ss, steps) && i < j < |ss| && Asks(ss[i], steps[i], g) && PcOf(ss[j], steps[i].t) == Idle
    requires g.Answer? ==> forall k :: i < k < j ==> !FailsOf(ss[k], steps[k], steps[i].t)
    ensures match g
            case Shut => ss[j].h.dataCloses == 1 && ss[j].h.closeCloses == 1
            case End => ss[j].h.finished
            case Answer => ss[j].h.replied
            case Drop => !ss[j].h.registered
            case GoneToo => !ss[j].h.registered
            case PeerGone => ss[j].h.finished && ss[j].h.replied && !ss[j].h.registered
  {
    OnTheWay(ss, steps, i, j, g);
    assert Met(ss[j].h, g);
    if g.Shut? {
      RunKeeps(ss, steps, j);
      BothClosed(ss[j]);
    }
  }

  lemma BothClosed(s: Stream)
    requires Ok(s) && s.h.closeCloses >= 1
    ensures s.h.dataCloses == 1 && s.h.closeCloses == 1
  {
    hide Exclusive, StartOnce, LastOnce, ReplyOnce, PcOf;
  }

  // ---------- And nothing else closes them ----------

  ghost predicate Asked(ss: seq<Stream>, steps: seq<Step>, n: nat) {
    exists i :: 0 <= i < n && i < |ss| && i < |steps| && Shuts(ss[i], steps[i])
  }

  /** A thread gets on the way only by asking, and the channels are closed only on the way. */
  ghost predicate SourceFx(h: Shared, pc: Pc, asks: bool, m: Moved) {
    && (Towards(m.pc, Shut) ==> Towards(pc, Shut) || asks)
    && (m.h.closeCloses > h.closeCloses ==> Towards(pc, Shut))
  }

  lemma RegionSource(h: Shared, t: nat, pc: Pc, choice: bool)
    requires InRegion(pc)
    ensures SourceFx(h, pc, false, GoneRegion(h, t, pc, choice))
  {
  }

  lemma HandlerSource(h: Shared, t: nat, pc: Pc, choice: bool)
    requires InHandler(pc)
    ensures SourceFx(h, pc, pc == HeaderSend(true) && !choice, GoneHandler(h, t, pc, choice))
  {
  }

  lemma ReplySource(h: Shared, t: nat, pc: Pc, choice: bool)
    requires InReply(pc)
    ensures SourceFx(h, pc, false, GoneReply(h, t, pc, choice))
  {
  }

  lemma LocalSource(h: Shared, t: nat, pc: Pc, choice: bool)
    requires !InRegion(pc) && !InHandler(pc) && !InReply(pc)
    ensures SourceFx(h, pc, pc == ResetTake && !h.finished, GoneLocal(h, t, pc, choice))
  {
  }

  lemma BeginSource(s: Stream, t: nat, call: Call)
    requires PcOf(s, t) == Idle
    ensures SourceFx(s.h, Idle, Shuts(s, Begin(t, call)), Begun(s.h, call))
  {
  }

  lemma MoveSource(s: Stream, step: Step)
    requires Enabled(s, step)
    ensures SourceFx(s.h, PcOf(s, step.t), Shuts(s, step), Move(s, step))
  {
    match step
    case Begin(t, call) =>
      BeginSource(s, t, call);
    case Go(t, choice) =>
      var pc := PcOf(s, t);
      hide GoneRegion, GoneHandler, GoneReply, GoneLocal, CanGo, PcOf, Towards;
      if InRegion(pc) {
        RegionSource(s.h, t, pc, choice);
      } else if InHandler(pc) {
        HandlerSource(s.h, t, pc, choice);
      } else if InReply(pc) {
        ReplySource(s.h, t, pc, choice);
      } else {
        LocalSource(s.h, t, pc, choice);
      }
  }

  lemma {:induction false} Sources(ss: seq<Stream>, steps: seq<Step>, n: nat)
    requires Path(ss, steps) && n < |ss|
    ensures ss[n].h.closeCloses >= 1 ==> ss[0].h.closeCloses >= 1 || Asked(ss, steps, n)
    ensures forall t: nat :: Towards(PcOf(ss[n], t), Shut) ==> Asked(ss, steps, n)
    decreases n
  {
    hide Enabled, After, Shuts, Towards;
    if n == 0 {
      var initiated, finished, fin :| ss[0] == Init(initiated, finished, fin);
      IdleIsNowhere();
    } else {
      Sources(ss, steps, n - 1);
      var s, step := ss[n - 1], steps[n - 1];
      MoveSource(s, step);
      OwnMoves(s, step);
      hide Move, PcOf;
      forall t: nat | Towards(PcOf(ss[n], t), Shut) ensures Asked(ss, steps, n) {
        if t != step.t {
          OthersStay(s, step, t);
        }
      }
    }
  }

  lemma IdleIsNowhere()
    ensures forall g: Goal :: !Towards(Idle, g)
  {
  }

  /** With every thread done, the channels are closed exactly when the stream began so or one of these asked for it. */
  lemma ClosedIff(ss: seq<Stream>, steps: seq<Step>, n: nat)
    requires Path(ss, steps) && n < |ss| && forall t: nat :: PcOf(ss[n], t) == Idle
    ensures ss[n].h.closeCloses == 1 <==> ss[0].h.closeCloses == 1 || exists i :: 0 <= i < n && Shuts(ss[i], steps[i])
    ensures ss[n].h.dataCloses == ss[n].h.closeCloses <= 1
  {
    Sources(ss, steps, n);
    RunKeeps(ss, steps, n);
    RunKeeps(ss, steps, 0);
    Quiet(ss[n]);
    Quiet(ss[0]);
    StaysClosed(ss, steps, n);
    if i :| 0 <= i < n && Shuts(ss[i], steps[i]) {
      AskedIsDone(ss, steps, i, n, Shut);
    }
  }

  lemma Quiet(s: Stream)
    requires Ok(s)
    ensures s.h.closeCloses <= 1 && s.h.dataCloses <= 1
    ensures (forall t: nat :: PcOf(s, t) == Idle) ==> s.h.dataCloses == s.h.closeCloses
  {
    hide Exclusive, StartOnce, LastOnce, ReplyOnce, PcOf;
  }

  lemma {:induction false} StaysClosed(ss: seq<Stream>, steps: seq<Step>, n: nat)
    requires Path(ss, steps) && n < |ss|
    ensures ss[0].h.closeCloses >= 1 ==> ss[n].h.closeCloses >= 1
  {
    hide Enabled, After;
    if n > 0 {
      StaysClosed(ss, steps, n - 1);
      ClosesGrow(ss[n - 1], steps[n - 1]);
    }
  }

  lemma ClosesGrow(s: Stream, step: Step)
    requires Enabled(s, step)
    ensures After(s, step).h.closeCloses >= s.h.closeCloses
  {
    MoveWay(s, step, Shut);
    OwnMoves(s, step);
    hide Enabled, After, Move, PcOf, Towards, Halfway;
  }

  // ---------- startChan ----------

  /** The first reply, and a reset that comes before any. */
  predicate Starts(s: Stream, step: Step) {
    match step
    case Begin(_, call) => call.ReplyFrame? && s.h.registered && !s.h.replied
    case Go(t, _) => PcOf(s, t) == ResetCheck && !s.h.replied
  }

  function StartCount(ss: seq<Stream>, steps: seq<Step>, n: nat): nat
    requires n <= |ss| && n <= |steps|
  {
    if n == 0 then 0 else StartCount(ss, steps, n - 1) + One(Starts(ss[n - 1], steps[n - 1]))
  }

  ghost predicate StartBalances(h: Shared, pc: Pc, starts: bool, m: Moved) {
    m.h.startCloses + One(WillClose(m.pc)) == h.startCloses + One(WillClose(pc)) + One(starts)
  }

  lemma MoveStarts(s: Stream, step: Step)
    requires Enabled(s, step)
    ensures StartBalances(s.h, PcOf(s, step.t), Starts(s, step), Move(s, step))
  {
    match step
    case Begin(t, call) => BeginStarts(s, t, call);
    case Go(t, choice) =>
      var pc := PcOf(s, t);
      hide GoneRegion, GoneHandler, GoneReply, GoneLocal, CanGo, PcOf, WillClose;
      if InRegion(pc) {
        RegionStarts(s.h, t, pc, choice);
      } else if InHandler(pc) {
        HandlerStarts(s.h, t, pc, choice);
      } else if InReply(pc) {
        ReplyStarts(s.h, t, pc, choice);
      } else {
        LocalStarts(s.h, t, pc, choice);
      }
  }

  lemma RegionStarts(h: Shared, t: nat, pc: Pc, choice: bool)
    requires InRegion(pc)
    ensures StartBalances(h, pc, false, GoneRegion(h, t, pc, choice))
  {
  }

  lemma HandlerStarts(h: Shared, t: nat, pc: Pc, choice: bool)
    requires InHandler(pc)
    ensures StartBalances(h, pc, pc == ResetCheck && !h.replied, GoneHandler(h, t, pc, choice))
  {
  }

  lemma ReplyStarts(h: Shared, t: nat, pc: Pc, choice: bool)
    requires InReply(pc)
    ensures StartBalances(h, pc, false, GoneReply(h, t, pc, choice))
  {
  }

  lemma LocalStarts(h: Shared, t: nat, pc: Pc, choice: bool)
    requires !InRegion(pc) && !InHandler(pc) && !InReply(pc)
    ensures StartBalances(h, pc, false, GoneLocal(h, t, pc, choice))
  {
  }

  lemma BeginStarts(s: Stream, t: nat, call: Call)
    requires PcOf(s, t) == Idle
    ensures StartBalances(s.h, Idle, Starts(s, Begin(t, call)), Begun(s.h, call))
  {
  }

  lemma {:induction false} StartBalance(ss: seq<Stream>, steps: seq<Step>, n: nat)
    requires Path(ss, steps) && n < |ss|
    ensures ss[n].h.startCloses + One(WillClose(PcOf(ss[n], WORKER))) == StartCount(ss, steps, n)
    decreases n
  {
    hide Enabled, After, Starts, WillClose;
    if n == 0 {
      var initiated, finished, fin :| ss[0] == Init(initiated, finished, fin);
      assert !WillClose(Idle) by { NotYet(); }
    } else {
      StartBalance(ss, steps, n - 1);
      var s, step := ss[n - 1], steps[n - 1];
      MoveStarts(s, step);
      OwnMoves(s, step);
      RunKeeps(ss, steps, n - 1);
      RunKeeps(ss, steps, n);
      OnlyWorkerStarts(s, step.t);
      OnlyWorkerStarts(ss[n], step.t);
      hide Move, PcOf, Ok;
      if step.t != WORKER {
        OthersStay(s, step, WORKER);
      }
    }
  }

  lemma NotYet()
    ensures !WillClose(Idle)
  {
  }

  lemma OnlyWorkerStarts(s: Stream, t: nat)
    requires Ok(s)
    ensures WillClose(PcOf(s, t)) ==> t == WORKER
  {
    hide Exclusive, ClosedTogether, LastOnce, ReplyOnce, PcOf;
  }

  /** startChan is closed exactly when the first reply, or a reset before any, has been handled. */
  lemma StartedIff(ss: seq<Stream>, steps: seq<Step>, n: nat)
    requires Path(ss, steps) && n < |ss| && PcOf(ss[n], WORKER) == Idle
    ensures ss[n].h.startCloses == StartCount(ss, steps, n) <= 1
  {
    StartBalance(ss, steps, n);
    RunKeeps(ss, steps, n);
    Lasting(ss[n], WORKER);
    NotYet();
    hide PcOf, Path, WillClose;
  }

  // ---------- Data ----------

  /** The worker is at a data frame: before the test, and after it. */
  predicate BeforeTest(pc: Pc, fin: bool) { pc == ReadWait(fin) || pc == ReadLocked(fin) }

  predicate AfterTest(pc: Pc, fin: bool) {
    || pc == Idle || pc == ReadUnlocking(fin)
    || (fin && ((pc.LockWait? || Writing(pc)) && pc.p == RemoteFinish(false))) || (fin && pc == FinishCheck(false))
  }

  lemma DeliverFx(h: Shared, t: nat, pc: Pc, choice: bool)
    ensures Gone(h, t, pc, choice).h.delivered == h.delivered + One(pc.Sending?)
  {
    hide GoneRegion, GoneHandler, GoneReply, GoneLocal, InRegion, InHandler, InReply;
    RegionDelivers(h, t, pc, choice);
    HandlerDelivers(h, t, pc, choice);
    ReplyDelivers(h, t, pc, choice);
    LocalDelivers(h, t, pc, choice);
  }

  lemma RegionDelivers(h: Shared, t: nat, pc: Pc, choice: bool)
    ensures InRegion(pc) ==> GoneRegion(h, t, pc, choice).h.delivered == h.delivered + One(pc.Sending?)
  {
  }

  lemma HandlerDelivers(h: Shared, t: nat, pc: Pc, choice: bool)
    ensures InHandler(pc) ==> GoneHandler(h, t, pc, choice).h.delivered == h.delivered && !pc.Sending?
  {
  }

  lemma ReplyDelivers(h: Shared, t: nat, pc: Pc, choice: bool)
    ensures InReply(pc) ==> GoneReply(h, t, pc, choice).h.delivered == h.delivered && !pc.Sending?
  {
  }

  lemma LocalDelivers(h: Shared, t: nat, pc: Pc, choice: bool)
    ensures !InRegion(pc) && !InHandler(pc) && !InReply(pc) ==>
              GoneLocal(h, t, pc, choice).h.delivered == h.delivered && !pc.Sending?
  {
  }

  /** Delivered so far, against `d` at the beginning of the frame and the test at state `k`. */
  ghost predicate Delivery(ss: seq<Stream>, i: nat, j: nat, fin: bool) {
    && i < j < |ss|
    && var pc, d, now := PcOf(ss[j], WORKER), ss[i].h.delivered, ss[j].h.delivered;
    || (BeforeTest(pc, fin) && now == d)
    || (pc == Sending(fin) && now == d && exists k :: i < k < j && Tested(ss, k, fin) && ss[k].h.closeCloses == 0)
    || (AfterTest(pc, fin) && exists k :: i < k < j && Tested(ss, k, fin) && now == d + One(ss[k].h.closeCloses == 0))
  }

  ghost predicate Tested(ss: seq<Stream>, k: nat, fin: bool)
    requires k < |ss|
  {
    PcOf(ss[k], WORKER) == ReadLocked(fin)
  }

  /** What one step of the worker does to this. */
  ghost predicate DeliveryFx(h: Shared, pc: Pc, fin: bool, m: Moved) {
    && m.h.delivered == h.delivered + One(pc.Sending?)
    && (pc == ReadWait(fin) ==> m.pc == ReadLocked(fin))
    && (pc == ReadLocked(fin) ==> m.pc == if h.closeCloses == 0 then Sending(fin) else ReadUnlocking(fin))
    && (pc == Sending(fin) ==> m.pc == ReadUnlocking(fin))
    && AfterTest(ReadUnlocking(fin), fin) && (AfterTest(pc, fin) ==> AfterTest(m.pc, fin))
  }

  lemma DeliveryMove(h: Shared, pc: Pc, choice: bool, fin: bool)
    requires pc != Idle
    ensures DeliveryFx(h, pc, fin, Gone(h, WORKER, pc, choice))
  {
    hide Gone, AfterTest;
    DeliverFx(h, WORKER, pc, choice);
    if AfterTest(pc, fin) {
      AfterStays(h, pc, choice, fin);
    }
    ReadingMoves(h, choice, fin);
  }

  lemma ReadingMoves(h: Shared, choice: bool, fin: bool)
    ensures Gone(h, WORKER, ReadWait(fin), choice).pc == ReadLocked(fin)
    ensures Gone(h, WORKER, ReadLocked(fin), choice).pc == if h.closeCloses == 0 then Sending(fin) else ReadUnlocking(fin)
    ensures Gone(h, WORKER, Sending(fin), choice).pc == ReadUnlocking(fin)
    ensures AfterTest(ReadUnlocking(fin), fin)
  {
    hide GoneHandler, GoneReply, GoneLocal;
  }

  lemma AfterStays(h: Shared, pc: Pc, choice: bool, fin: bool)
    requires pc != Idle && AfterTest(pc, fin)
    ensures AfterTest(Gone(h, WORKER, pc, choice).pc, fin)
  {
    if InRegion(pc) {
      hide GoneHandler, GoneReply, GoneLocal;
    } else {
      hide GoneRegion, GoneReply, GoneLocal;
    }
  }

  lemma {:induction false} DeliveryHolds(ss: seq<Stream>, steps: seq<Step>, i: nat, j: nat, fin: bool)
    requires Path(ss, steps) && i < j < |ss| && steps[i] == Begin(WORKER, DataFrame(true, fin))
    requires ss[i].h.registered && ss[i].h.replied
    requires forall k :: i < k < j ==> PcOf(ss[k], WORKER) != Idle
    ensures Delivery(ss, i, j, fin)
    decreases j
  {
    if j == i + 1 {
      OwnMoves(ss[i], steps[i]);
      hide PcOf;
    } else {
      hide Delivery;
      DeliveryHolds(ss, steps, i, j - 1, fin);
      if steps[j - 1].t == WORKER {
        DeliveryStep(ss, steps, i, j, fin);
      } else {
        DeliveryWaits(ss, steps, i, j, fin);
      }
    }
  }

  lemma DeliveryWaits(ss: seq<Stream>, steps: seq<Step>, i: nat, j: nat, fin: bool)
    requires Path(ss, steps) && i + 1 < j < |ss| && steps[j - 1].t != WORKER && Delivery(ss, i, j - 1, fin)
    ensures Delivery(ss, i, j, fin)
  {
    RunKeeps(ss, steps, j - 1);
    OthersStay(ss[j - 1], steps[j - 1], WORKER);
    DeliveredStays(ss[j - 1], steps[j - 1]);
    hide PcOf, Enabled, After, Move, Delivery, Ok;
    DeliveryUnmoved(ss, i, j, fin);
  }

  lemma DeliveryUnmoved(ss: seq<Stream>, i: nat, j: nat, fin: bool)
    requires i + 1 < j < |ss| && Delivery(ss, i, j - 1, fin)
    requires PcOf(ss[j], WORKER) == PcOf(ss[j - 1], WORKER) && ss[j].h.delivered == ss[j - 1].h.delivered
    ensures Delivery(ss, i, j, fin)
  {
    hide PcOf, BeforeTest, AfterTest, Tested;
  }

  lemma DeliveryStep(ss: seq<Stream>, steps: seq<Step>, i: nat, j: nat, fin: bool)
    requires Path(ss, steps) && i + 1 < j < |ss| && steps[j - 1].t == WORKER && PcOf(ss[j - 1], WORKER) != Idle
    requires Delivery(ss, i, j - 1, fin)
    ensures Delivery(ss, i, j, fin)
  {
    var s, step := ss[j - 1], steps[j - 1];
    assert step.Go?;
    OwnMoves(s, step);
    var pc := PcOf(s, WORKER);
    DeliveryMove(s.h, pc, step.choice, fin);
    hide Gone, Enabled, Delivery, DeliveryFx;
    DeliveryNext(ss, i, j, fin, Move(s, step));
  }

  lemma DeliveryNext(ss: seq<Stream>, i: nat, j: nat, fin: bool, m: Moved)
    requires i + 1 < j < |ss| && Delivery(ss, i, j - 1, fin)
    requires PcOf(ss[j], WORKER) == m.pc && ss[j].h == m.h && DeliveryFx(ss[j - 1].h, PcOf(ss[j - 1], WORKER), fin, m)
    ensures Delivery(ss, i, j, fin)
  {
    if PcOf(ss[j - 1], WORKER) == ReadLocked(fin) {
      assert Tested(ss, j - 1, fin);
    }
    hide PcOf, AfterTest;
  }

  lemma DeliveredStays(s: Stream, step: Step)
    requires Enabled(s, step) && Ok(s) && step.t != WORKER
    ensures After(s, step).h.delivered == s.h.delivered
  {
    OwnMoves(s, step);
    OnlyWorkerReads(s, step.t);
    hide Ok, Enabled, PcOf;
    match step
    case Begin(t, call) => hide Gone;
    case Go(t, choice) =>
      DeliverFx(s.h, t, PcOf(s, t), choice);
      hide Gone;
  }

  lemma OnlyWorkerReads(s: Stream, t: nat)
    requires Ok(s)
    ensures PcOf(s, t).Sending? ==> t == WORKER
  {
    hide Exclusive, ClosedTogether, LastOnce, ReplyOnce, PcOf;
  }

  /**
  A data frame for a stream that is there and has been answered: when the worker is done with it, it
  has been delivered exactly once if the stream was open at the worker's test, and not at all otherwise.
  */
  lemma DataIsDelivered(ss: seq<Stream>, steps: seq<Step>, i: nat, j: nat, fin: bool)
    requires Path(ss, steps) && i < j < |ss| && steps[i] == Begin(WORKER, DataFrame(true, fin))
    requires ss[i].h.registered && ss[i].h.replied
    requires PcOf(ss[j], WORKER) == Idle && forall k :: i < k < j ==> PcOf(ss[k], WORKER) != Idle
    ensures exists k :: i < k < j && Tested(ss, k, fin) && ss[j].h.delivered == ss[i].h.delivered + One(ss[k].h.closeCloses == 0)
  {
    DeliveryHolds(ss, steps, i, j, fin);
    hide Path, PcOf, Tested;
  }

  /** A frame or call that its thread is done with at once: the stream is not there, or not answered, or answered already. */
  lemma DroppedIff(s: Stream, t: nat, call: Call)
    requires Enabled(s, Begin(t, call))
    ensures PcOf(After(s, Begin(t, call)), t) == Idle <==>
              match call
              case ReplyFrame(_) => !s.h.registered || s.h.replied
              case ResetFrame => !s.h.registered
              case DataFrame(nonempty, fin) => !s.h.registered || !s.h.replied || (!nonempty && !fin)
              case HeadersFrame(_) => !s.h.registered || !s.h.replied
              case SendReply(_) => s.h.initiated
              case Refuse => s.h.replied
              case _ => false
  {
    OwnMoves(s, Begin(t, call));
    hide PcOf;
  }

  /** A data frame that is not dropped, and one that finds the stream closed. */
  predicate Brings(s: Stream, step: Step) { step.Begin? && step.call.DataFrame? && step.call.nonempty && s.h.registered && s.h.replied }

  predicate Misses(s: Stream, step: Step) { step.Go? && PcOf(s, step.t).ReadLocked? && s.h.closeCloses > 0 }

  predicate Bringing(pc: Pc) { pc.ReadWait? || pc.ReadLocked? || pc.Sending? }

  function BringCount(ss: seq<Stream>, steps: seq<Step>, n: nat): nat
    requires n <= |ss| && n <= |steps|
  {
    if n == 0 then 0 else BringCount(ss, steps, n - 1) + One(Brings(ss[n - 1], steps[n - 1]))
  }

  function MissCount(ss: seq<Stream>, steps: seq<Step>, n: nat): nat
    requires n <= |ss| && n <= |steps|
  {
    if n == 0 then 0 else MissCount(ss, steps, n - 1) + One(Misses(ss[n - 1], steps[n - 1]))
  }

  ghost predicate DataFx(h: Shared, pc: Pc, brings: bool, misses: bool, m: Moved) {
    m.h.delivered + One(Bringing(m.pc)) + One(misses) == h.delivered + One(Bringing(pc)) + One(brings)
  }

  lemma GoData(h: Shared, t: nat, pc: Pc, choice: bool)
    requires CanGo(h, pc, choice)
    ensures DataFx(h, pc, false, pc.ReadLocked? && h.closeCloses > 0, Gone(h, t, pc, choice))
  {
    DeliverFx(h, t, pc, choice);
    BringsOn(h, t, pc, choice);
    hide Gone, Bringing, CanGo;
  }

  lemma BringsOn(h: Shared, t: nat, pc: Pc, choice: bool)
    ensures Bringing(Gone(h, t, pc, choice).pc) <==> pc.ReadWait? || (pc.ReadLocked? && h.closeCloses == 0)
    ensures Bringing(pc) <==> pc.ReadWait? || pc.ReadLocked? || pc.Sending?
  {
    hide GoneRegion, GoneHandler, GoneReply, GoneLocal, InRegion, InHandler, InReply, Bringing;
    assert Bringing(pc) <==> pc.ReadWait? || pc.ReadLocked? || pc.Sending? by { BringingIs(pc); }
    RegionBrings(h, t, pc, choice);
    HandlerBrings(h, t, pc, choice);
    ReplyBrings(h, t, pc, choice);
    LocalBrings(h, t, pc, choice);
  }

  lemma BringingIs(pc: Pc)
    ensures Bringing(pc) <==> pc.ReadWait? || pc.ReadLocked? || pc.Sending?
  {
  }

  lemma RegionBrings(h: Shared, t: nat, pc: Pc, choice: bool)
    ensures InRegion(pc) ==>
              (Bringing(GoneRegion(h, t, pc, choice).pc) <==> pc.ReadWait? || (pc.ReadLocked? && h.closeCloses == 0))
  {
  }

  lemma HandlerBrings(h: Shared, t: nat, pc: Pc, choice: bool)
    ensures InHandler(pc) ==> !Bringing(GoneHandler(h, t, pc, choice).pc) && !pc.ReadWait? && !pc.ReadLocked?
  {
  }

  lemma ReplyBrings(h: Shared, t: nat, pc: Pc, choice: bool)
    ensures InReply(pc) ==> !Bringing(GoneReply(h, t, pc, choice).pc) && !pc.ReadWait? && !pc.ReadLocked?
  {
  }

  lemma LocalBrings(h: Shared, t: nat, pc: Pc, choice: bool)
    ensures !InRegion(pc) && !InHandler(pc) && !InReply(pc) ==>
              !Bringing(GoneLocal(h, t, pc, choice).pc) && !pc.ReadWait? && !pc.ReadLocked?
  {
  }

  lemma BeginData(s: Stream, t: nat, call: Call)
    requires PcOf(s, t) == Idle
    ensures DataFx(s.h, Idle, Brings(s, Begin(t, call)), false, Begun(s.h, call))
  {
  }

  lemma MoveData(s: Stream, step: Step)
    requires Enabled(s, step)
    ensures DataFx(s.h, PcOf(s, step.t), Brings(s, step), Misses(s, step), Move(s, step))
  {
    hide Gone, Begun, CanGo, PcOf, DataFx;
    match step
    case Begin(t, call) => BeginData(s, t, call);
    case Go(t, choice) => GoData(s.h, t, PcOf(s, t), choice);
  }

  /** Over every run: what the worker is not busy with has been delivered or has found the stream closed, and nothing else has. */
  lemma {:induction false} DataBalance(ss: seq<Stream>, steps: seq<Step>, n: nat)
    requires Path(ss, steps) && n < |ss|
    ensures ss[n].h.delivered + One(Bringing(PcOf(ss[n], WORKER))) + MissCount(ss, steps, n) == BringCount(ss, steps, n)
    decreases n
  {
    hide Enabled, After, Brings, Misses, Bringing;
    if n == 0 {
      var initiated, finished, fin :| ss[0] == Init(initiated, finished, fin);
      assert !Bringing(Idle) by { NotBringing(); }
    } else {
      DataBalance(ss, steps, n - 1);
      var s, step := ss[n - 1], steps[n - 1];
      MoveData(s, step);
      OwnMoves(s, step);
      RunKeeps(ss, steps, n - 1);
      RunKeeps(ss, steps, n);
      OnlyWorkerBrings(s, step.t);
      OnlyWorkerBrings(ss[n], step.t);
      hide Move, PcOf, Ok;
      if step.t != WORKER {
        OthersStay(s, step, WORKER);
      }
    }
  }

  lemma NotBringing()
    ensures !Bringing(Idle)
  {
  }

  lemma OnlyWorkerBrings(s: Stream, t: nat)
    requires Ok(s)
    ensures Bringing(PcOf(s, t)) ==> t == WORKER
  {
    hide Exclusive, ClosedTogether, LastOnce, ReplyOnce, PcOf;
  }

  // ---------- Leaving the connection ----------

  /** What takes the stream off the connection. */
  predicate Removes(s: Stream, step: Step) {
    match step
    case Begin(_, call) => call.Reset? || call.ResetFrame?
    case Go(t, _) => || (PcOf(s, t) == Locked(LocalClose) && s.h.closeCloses >= 1)
                     || (PcOf(s, t).FinishCheck? && s.h.finished)
  }

  lemma MoveRemoves(s: Stream, step: Step)
    requires Enabled(s, step)
    ensures Move(s, step).h.registered <==> s.h.registered && !Removes(s, step)
  {
    hide PcOf, CanGo;
    match step
    case Begin(t, call) => hide Gone;
    case Go(t, choice) =>
      hide Begun;
      GoRemoves(s.h, t, PcOf(s, t), choice);
      hide Gone;
  }

  lemma GoRemoves(h: Shared, t: nat, pc: Pc, choice: bool)
    ensures Gone(h, t, pc, choice).h.registered <==>
              h.registered && !(pc == Locked(LocalClose) && h.closeCloses >= 1) && !(pc.FinishCheck? && h.finished)
  {
    if InRegion(pc) {
      hide GoneHandler, GoneReply, GoneLocal;
    } else if InHandler(pc) {
      hide GoneRegion, GoneReply, GoneLocal;
    } else if InReply(pc) {
      hide GoneRegion, GoneHandler, GoneLocal;
    } else {
      hide GoneRegion, GoneHandler, GoneReply;
    }
  }

  /** A stream is on the connection until the first of them, and never comes back. */
  lemma {:induction false} RemovedIff(ss: seq<Stream>, steps: seq<Step>, n: nat)
    requires Path(ss, steps) && n < |ss|
    ensures ss[n].h.registered <==> forall i :: 0 <= i < n ==> !Removes(ss[i], steps[i])
  {
    hide Enabled, After, Removes, PcOf;
    if n > 0 {
      RemovedIff(ss, steps, n - 1);
      MoveRemoves(ss[n - 1], steps[n - 1]);
      OwnMoves(ss[n - 1], steps[n - 1]);
      hide Move;
    }
  }

  // ---------- Waiting ----------

  /** A stream begins closed when its opening frame carried FIN, and unanswered. */
  lemma BeginsClosedIff(initiated: bool, finished: bool, fin: bool)
    ensures var h := Init(initiated, finished, fin).h;
            && h.dataCloses == h.closeCloses == (if fin then 1 else 0) && h.startCloses == 0
            && h.registered && !h.replied && (h.finished <==> finished) && (h.initiated <==> initiated)
  {
  }

  /** The last frame of a caller: past its wait for the answer. */
  predicate PastWait(pc: Pc) { pc.FinishTake? || pc.WriteFin? }

  ghost predicate WaitFx(h: Shared, pc: Pc, m: Moved) {
    && (m.h.initiated <==> h.initiated) && (h.replied ==> m.h.replied)
    && (PastWait(m.pc) ==> PastWait(pc) || h.initiated || h.replied)
  }

  lemma GoWaits(h: Shared, t: nat, pc: Pc, choice: bool)
    requires CanGo(h, pc, choice)
    ensures WaitFx(h, pc, Gone(h, t, pc, choice))
  {
    if InRegion(pc) {
      RegionWaits(h, t, pc, choice);
    } else if InHandler(pc) {
      HandlerWaits(h, t, pc, choice);
    } else if InReply(pc) {
      ReplyWaits(h, t, pc, choice);
    } else {
      LocalWaits(h, t, pc, choice);
    }
    hide GoneRegion, GoneHandler, GoneReply, GoneLocal, WaitFx, CanGo;
  }

  lemma RegionWaits(h: Shared, t: nat, pc: Pc, choice: bool)
    requires CanGo(h, pc, choice) && InRegion(pc)
    ensures WaitFx(h, pc, GoneRegion(h, t, pc, choice))
  {
  }

  lemma HandlerWaits(h: Shared, t: nat, pc: Pc, choice: bool)
    requires CanGo(h, pc, choice) && InHandler(pc)
    ensures WaitFx(h, pc, GoneHandler(h, t, pc, choice))
  {
  }

  lemma ReplyWaits(h: Shared, t: nat, pc: Pc, choice: bool)
    requires CanGo(h, pc, choice) && InReply(pc)
    ensures WaitFx(h, pc, GoneReply(h, t, pc, choice))
  {
  }

  lemma LocalWaits(h: Shared, t: nat, pc: Pc, choice: bool)
    requires CanGo(h, pc, choice) && !InRegion(pc) && !InHandler(pc) && !InReply(pc)
    ensures WaitFx(h, pc, GoneLocal(h, t, pc, choice))
  {
  }

  lemma MoveWaits(s: Stream, step: Step)
    requires Enabled(s, step)
    ensures WaitFx(s.h, PcOf(s, step.t), Move(s, step))
  {
    match step
    case Begin(t, call) => hide Gone;
    case Go(t, choice) =>
      hide Begun, PcOf;
      GoWaits(s.h, t, PcOf(s, t), choice);
      hide Gone, WaitFx;
  }

  /** Over every run: `Close` and a last `WriteData` end a stream that the peer opened only after it has been answered. */
  lemma {:induction false} NoEndBeforeReply(ss: seq<Stream>, steps: seq<Step>, n: nat, t: nat)
    requires Path(ss, steps) && n < |ss|
    ensures PastWait(PcOf(ss[n], t)) ==> ss[n].h.initiated || ss[n].h.replied
    decreases n
  {
    if n == 0 {
      var initiated, finished, fin :| ss[0] == Init(initiated, finished, fin);
    } else {
      NoEndBeforeReply(ss, steps, n - 1, t);
      var s, step := ss[n - 1], steps[n - 1];
      MoveWaits(s, step);
      OwnMoves(s, step);
      hide Enabled, After, Move, PcOf, PastWait;
      if step.t != t {
        OthersStay(s, step, t);
      }
    }
  }

  /** The headers of an open stream are handed over: the worker gives up only once the stream is closed. */
  lemma HeadersGivenUp(s: Stream, t: nat, fin: bool)
    requires PcOf(s, t) == HeaderSend(fin)
    ensures Enabled(s, Go(t, false)) && (Enabled(s, Go(t, true)) <==> s.h.closeCloses > 0)
  {
  }

  // ---------- Frames that end this side of the stream ----------

  datatype Ender = Taker | Refuser | Canceller | Replier | Header

  /** The kind of closing frame that the next step of a thread writes. */
  function EnderOf(pc: Pc, choice: bool): Option<Ender> {
    match pc
    case WriteFin => Some(Taker)
    case WriteReset => Some(Taker)
    case WriteRefusal => Some(Refuser)
    case WriteCancel => Some(Canceller)
    case WriteReply(fin) => if fin && !choice then Some(Replier) else None
    case WriteHeaders(fin) => if fin then Some(Header) else None
    case _ => None
  }

  function Ends(s: Stream, step: Step): Option<Ender> {
    if step.Go? then EnderOf(PcOf(s, step.t), step.choice) else None
  }

  function Written(h: Shared, kind: Ender): nat {
    match kind
    case Taker => h.lasts
    case Refuser => h.refusals
    case Canceller => h.cancels
    case Replier => h.lastReplies
    case Header => h.lastHeaders
  }

  /** All the closing frames written. */
  function Closings(h: Shared): nat { h.lasts + h.refusals + h.cancels + h.lastReplies + h.lastHeaders }

  /** Steps of the run that write a closing frame of a kind. */
  function Count(ss: seq<Stream>, steps: seq<Step>, n: nat, kind: Ender): nat
    requires n <= |ss| && n <= |steps|
  {
    if n == 0 then 0
    else Count(ss, steps, n - 1, kind) + if Ends(ss[n - 1], steps[n - 1]) == Some(kind) then 1 else 0
  }

  lemma RegionWrites(h: Shared, t: nat, pc: Pc, choice: bool, kind: Ender)
    requires InRegion(pc)
    ensures Written(GoneRegion(h, t, pc, choice).h, kind)
         == Written(h, kind) + if EnderOf(pc, choice) == Some(kind) then 1 else 0
  {
  }

  lemma HandlerWrites(h: Shared, t: nat, pc: Pc, choice: bool, kind: Ender)
    requires InHandler(pc)
    ensures Written(GoneHandler(h, t, pc, choice).h, kind)
         == Written(h, kind) + if EnderOf(pc, choice) == Some(kind) then 1 else 0
  {
  }

  lemma ReplyWrites(h: Shared, t: nat, pc: Pc, choice: bool, kind: Ender)
    requires InReply(pc)
    ensures Written(GoneReply(h, t, pc, choice).h, kind)
         == Written(h, kind) + if EnderOf(pc, choice) == Some(kind) then 1 else 0
  {
  }

  lemma LocalWrites(h: Shared, t: nat, pc: Pc, choice: bool, kind: Ender)
    requires !InRegion(pc) && !InHandler(pc) && !InReply(pc)
    ensures Written(GoneLocal(h, t, pc, choice).h, kind)
         == Written(h, kind) + if EnderOf(pc, choice) == Some(kind) then 1 else 0
  {
  }

  lemma WriteEffect(h: Shared, t: nat, pc: Pc, choice: bool, kind: Ender)
    ensures Written(Gone(h, t, pc, choice).h, kind)
         == Written(h, kind) + if EnderOf(pc, choice) == Some(kind) then 1 else 0
  {
    hide GoneRegion, GoneHandler, GoneReply, GoneLocal, InRegion, InHandler, InReply, Written, EnderOf;
    if InRegion(pc) {
      RegionWrites(h, t, pc, choice, kind);
    } else if InHandler(pc) {
      HandlerWrites(h, t, pc, choice, kind);
    } else if InReply(pc) {
      ReplyWrites(h, t, pc, choice, kind);
    } else {
      LocalWrites(h, t, pc, choice, kind);
    }
  }

  lemma BeginWrites(h: Shared, call: Call, kind: Ender)
    ensures Written(Begun(h, call).h, kind) == Written(h, kind)
  {
  }

  lemma {:induction false} WrittenIs(ss: seq<Stream>, steps: seq<Step>, n: nat, kind: Ender)
    requires Path(ss, steps) && n < |ss|
    ensures Written(ss[n].h, kind) == Written(ss[0].h, kind) + Count(ss, steps, n, kind)
  {
    hide Gone, Begun, Enabled, Written, EnderOf;
    if n > 0 {
      WrittenIs(ss, steps, n - 1, kind);
      var s := ss[n - 1];
      match steps[n - 1]
      case Begin(t, call) => BeginWrites(s.h, call, kind);
      case Go(t, choice) => WriteEffect(s.h, t, PcOf(s, t), choice, kind);
    }
  }

  /** A stream that was opened with FIN from this side. */
  predicate OpenedLast(s: Stream) { s.h.initiated && s.h.finished }

  /**
  What ends a stream, over every run: the closing frames are the opening frame when it carried FIN,
  those of the callers that took finishLock, the resets of `Refuse` and `Cancel`, the replies and
  the headers with FIN.  finishLock lets out at most one of the first two and replyCond at most one
  reply; nothing bounds the others.
  */
  lemma ClosingFrames(ss: seq<Stream>, steps: seq<Step>, n: nat)
    requires Path(ss, steps) && n < |ss|
    ensures Closings(ss[n].h) == (if OpenedLast(ss[0]) then 1 else 0)
                               + Count(ss, steps, n, Taker) + Count(ss, steps, n, Refuser) + Count(ss, steps, n, Canceller)
                               + Count(ss, steps, n, Replier) + Count(ss, steps, n, Header)
    ensures (if OpenedLast(ss[0]) then 1 else 0) + Count(ss, steps, n, Taker) <= 1
    ensures Count(ss, steps, n, Replier) <= 1
  {
    WrittenIs(ss, steps, n, Taker);
    WrittenIs(ss, steps, n, Refuser);
    WrittenIs(ss, steps, n, Canceller);
    WrittenIs(ss, steps, n, Replier);
    WrittenIs(ss, steps, n, Header);
    RunKeeps(ss, steps, n);
    AtMostOne(ss[n]);
    var initiated, finished, fin :| ss[0] == Init(initiated, finished, fin);
    hide Count, Path, Ok, Ends;
  }

  lemma AtMostOne(s: Stream)
    requires Ok(s)
    ensures s.h.lasts <= 1 && s.h.lastReplies <= 1
  {
    hide PcOf;
  }

  // ---------- Who takes it on to end this side ----------

  /**
  The guards of the branches that lead to a closing frame: `Cancel` and a header with FIN have none,
  `Refuse` tests replied without a lock, the takers of finishLock test finished, and a reply with
  FIN tests replied under replyCond.
  */
  predicate Claims(s: Stream, step: Step) {
    match step
    case Begin(_, call) => call.Cancel? || call == SendHeader(true) || (call.Refuse? && !s.h.replied)
    case Go(t, _) => ClaimsAt(s.h, PcOf(s, t))
  }

  predicate ClaimsAt(h: Shared, pc: Pc) {
    ((pc.FinishTake? || pc.ResetTake?) && !h.finished) || (pc == ReplyTest(true) && !h.replied)
  }

  /** The thread has passed such a guard and has not written its frame yet. */
  predicate Due(pc: Pc) {
    Owes(pc) || pc.RefuseSet? || pc.WriteRefusal? || pc.WriteCancel? || pc == WriteHeaders(true) || pc == WriteReply(true)
  }

  /** The write of a reply with FIN fails. */
  predicate Fails(s: Stream, step: Step) { step.Go? && FailsAt(PcOf(s, step.t), step.choice) }

  predicate FailsAt(pc: Pc, choice: bool) { pc == WriteReply(true) && choice }

  function One(b: bool): nat { if b then 1 else 0 }

  /** Threads of the table that are due. */
  ghost function Debtors(pcs: map<nat, Pc>): set<nat> { set t | t in pcs && Due(pcs[t]) }

  lemma DebtorsMove(pcs: map<nat, Pc>, t: nat, pc: Pc)
    ensures |Debtors(pcs[t := pc])| + One(t in pcs && Due(pcs[t])) == |Debtors(pcs)| + One(Due(pc))
  {
    hide Due;
    var before, after := Debtors(pcs), Debtors(pcs[t := pc]);
    assert after - {t} == before - {t};
    assert |after| == |after - {t}| + One(t in after);
    assert |before| == |before - {t}| + One(t in before);
  }

  /** One step moves a frame from claimed to due, and from due to written or failed. */
  ghost predicate Balances(h: Shared, pc: Pc, claims: bool, fails: bool, m: Moved) {
    Closings(m.h) + One(Due(m.pc)) + One(fails) == Closings(h) + One(Due(pc)) + One(claims)
  }

  lemma RegionBalances(h: Shared, t: nat, pc: Pc, choice: bool)
    requires InRegion(pc)
    ensures Balances(h, pc, ClaimsAt(h, pc), FailsAt(pc, choice), GoneRegion(h, t, pc, choice))
  {
  }

  lemma HandlerBalances(h: Shared, t: nat, pc: Pc, choice: bool)
    requires InHandler(pc)
    ensures Balances(h, pc, ClaimsAt(h, pc), FailsAt(pc, choice), GoneHandler(h, t, pc, choice))
  {
  }

  lemma ReplyBalances(h: Shared, t: nat, pc: Pc, choice: bool)
    requires InReply(pc)
    ensures Balances(h, pc, ClaimsAt(h, pc), FailsAt(pc, choice), GoneReply(h, t, pc, choice))
  {
  }

  lemma LocalBalances(h: Shared, t: nat, pc: Pc, choice: bool)
    requires !InRegion(pc) && !InHandler(pc) && !InReply(pc)
    ensures Balances(h, pc, ClaimsAt(h, pc), FailsAt(pc, choice), GoneLocal(h, t, pc, choice))
  {
  }

  lemma BeginBalances(s: Stream, t: nat, call: Call)
    requires PcOf(s, t) == Idle
    ensures Balances(s.h, Idle, Claims(s, Begin(t, call)), false, Begun(s.h, call))
  {
  }

  lemma MoveBalances(s: Stream, step: Step)
    requires Enabled(s, step)
    ensures Balances(s.h, PcOf(s, step.t), Claims(s, step), Fails(s, step), Move(s, step))
  {
    hide Balances, GoneRegion, GoneHandler, GoneReply, GoneLocal, Begun, InRegion, InHandler, InReply, ClaimsAt, FailsAt, CanGo, PcOf;
    match step
    case Begin(t, call) => BeginBalances(s, t, call);
    case Go(t, choice) =>
      var pc := PcOf(s, t);
      if InRegion(pc) {
        RegionBalances(s.h, t, pc, choice);
      } else if InHandler(pc) {
        HandlerBalances(s.h, t, pc, choice);
      } else if InReply(pc) {
        ReplyBalances(s.h, t, pc, choice);
      } else {
        LocalBalances(s.h, t, pc, choice);
      }
  }

  lemma StepBalances(s: Stream, step: Step)
    requires Enabled(s, step)
    ensures Closings(After(s, step).h) + |Debtors(After(s, step).pcs)| + One(Fails(s, step))
         == Closings(s.h) + |Debtors(s.pcs)| + One(Claims(s, step))
  {
    hide Enabled, Move, Closings, Debtors, Claims, Fails;
    MoveBalances(s, step);
    DebtorsMove(s.pcs, step.t, Move(s, step).pc);
    assert Due(PcOf(s, step.t)) <==> step.t in s.pcs && Due(s.pcs[step.t]);
  }

  /** Claims, and failed replies, among the first `n` steps. */
  function ClaimCount(ss: seq<Stream>, steps: seq<Step>, n: nat): nat
    requires n <= |ss| && n <= |steps|
  {
    if n == 0 then 0 else ClaimCount(ss, steps, n - 1) + One(Claims(ss[n - 1], steps[n - 1]))
  }

  function FailCount(ss: seq<Stream>, steps: seq<Step>, n: nat): nat
    requires n <= |ss| && n <= |steps|
  {
    if n == 0 then 0 else FailCount(ss, steps, n - 1) + One(Fails(ss[n - 1], steps[n - 1]))
  }

  /** At every moment of every run: each claim, and the opening with FIN, is a frame written, a frame due, or a failed reply. */
  lemma {:induction false} ClosingBalance(ss: seq<Stream>, steps: seq<Step>, n: nat)
    requires Path(ss, steps) && n < |ss|
    ensures Closings(ss[n].h) + |Debtors(ss[n].pcs)| + FailCount(ss, steps, n)
         == One(OpenedLast(ss[0])) + ClaimCount(ss, steps, n)
  {
    hide Claims, Fails, Enabled, After;
    if n == 0 {
      var initiated, finished, fin :| ss[0] == Init(initiated, finished, fin);
      assert Debtors(map[]) == {};
    } else {
      ClosingBalance(ss, steps, n - 1);
      hide Closings, Debtors, OpenedLast;
      StepBalances(ss[n - 1], steps[n - 1]);
    }
  }

  lemma NobodyDue(s: Stream)
    requires forall t: nat :: PcOf(s, t) == Idle
    ensures Debtors(s.pcs) == {}
  {
    forall t | t in s.pcs ensures !Due(s.pcs[t]) {
      assert PcOf(s, t) == Idle;
    }
  }

  /**
  Once every call has returned, at most one frame has ended this side exactly when at most one guard
  was passed, the opening with FIN included and failed replies left out.
  */
  lemma OneClosingFrameIff(ss: seq<Stream>, steps: seq<Step>, n: nat)
    requires Path(ss, steps) && n < |ss| && forall t: nat :: PcOf(ss[n], t) == Idle
    ensures Closings(ss[n].h) <= 1 <==> One(OpenedLast(ss[0])) + ClaimCount(ss, steps, n) <= 1 + FailCount(ss, steps, n)
  {
    hide Path, Closings;
    ClosingBalance(ss, steps, n);
    NobodyDue(ss[n]);
  }

  // ---------- Two closing frames ----------

  /** A stream with one caller, thread 1. */
  function Solo(h: Shared, pc: Pc): Stream { Stream(h, map[1 := pc]) }

  ghost predicate EndsAt(ss: seq<Stream>, steps: seq<Step>, s: Stream) {
    Path(ss, steps) && ss[|steps|] == s
  }

  lemma Extend(ss: seq<Stream>, steps: seq<Step>, s: Stream, step: Step)
    requires EndsAt(ss, steps, s) && Enabled(s, step)
    ensures EndsAt(ss + [After(s, step)], steps + [step], After(s, step))
  {
    hide Enabled, After;
  }

  lemma Begins(initiated: bool, finished: bool, fin: bool, call: Call) returns (ss: seq<Stream>, steps: seq<Step>)
    requires !ByWorker(call)
    ensures steps == [Begin(1, call)]
    ensures var h := Init(initiated, finished, fin).h; EndsAt(ss, steps, Solo(Begun(h, call).h, Begun(h, call).pc))
  {
    hide Begun;
    var s := Init(initiated, finished, fin);
    ss, steps := [s, After(s, Begin(1, call))], [Begin(1, call)];
  }

  lemma GoesOn(ss: seq<Stream>, steps: seq<Step>, h: Shared, pc: Pc) returns (ss': seq<Stream>, steps': seq<Step>)
    requires EndsAt(ss, steps, Solo(h, pc)) && CanGo(h, pc, false)
    ensures steps' == steps + [Go(1, false)]
    ensures EndsAt(ss', steps', Solo(Gone(h, 1, pc, false).h, Gone(h, 1, pc, false).pc))
  {
    hide Gone, CanGo, EndsAt;
    Extend(ss, steps, Solo(h, pc), Go(1, false));
    var m := Gone(h, 1, pc, false);
    assert map[1 := pc][1 := m.pc] == map[1 := m.pc];
    ss', steps' := ss + [Solo(m.h, m.pc)], steps + [Go(1, false)];
  }

  lemma CallsOn(ss: seq<Stream>, steps: seq<Step>, h: Shared, call: Call) returns (ss': seq<Stream>, steps': seq<Step>)
    requires EndsAt(ss, steps, Solo(h, Idle)) && !ByWorker(call)
    ensures steps' == steps + [Begin(1, call)]
    ensures EndsAt(ss', steps', Solo(Begun(h, call).h, Begun(h, call).pc))
  {
    hide Begun, EndsAt;
    Extend(ss, steps, Solo(h, Idle), Begin(1, call));
    var m := Begun(h, call);
    assert map[1 := Idle][1 := m.pc] == map[1 := m.pc];
    ss', steps' := ss + [Solo(m.h, m.pc)], steps + [Begin(1, call)];
  }

  /** `Close` by the only caller of a live stream that has been answered, from the lock to the frame. */
  lemma CloseAlone(ss: seq<Stream>, steps: seq<Step>, h: Shared) returns (ss': seq<Stream>, steps': seq<Step>)
    requires EndsAt(ss, steps, Solo(h, LockWait(LocalClose)))
    requires h.writer == {} && h.readers == {} && h.dataCloses == 0 && h.closeCloses == 0 && !h.finished && h.lasts == 0
    requires h.replied || h.initiated
    ensures steps <= steps'
    ensures EndsAt(ss', steps', Solo(h.(dataCloses := 1, closeCloses := 1, finished := true, lasts := 1), Idle))
  {
    hide EndsAt, Solo, GoneHandler, GoneReply;
    var h1 := h.(writer := {1});
    var h2 := h1.(dataCloses := 1);
    var h3 := h2.(closeCloses := 1);
    ss', steps' := GoesOn(ss, steps, h, LockWait(LocalClose));
    ss', steps' := GoesOn(ss', steps', h1, Locked(LocalClose));
    ss', steps' := GoesOn(ss', steps', h2, HalfClosed(LocalClose));
    ss', steps' := GoesOn(ss', steps', h3, Unlocking(LocalClose));
    ss', steps' := FinishAlone(ss', steps', h3.(writer := {}));
    assert h3.(writer := {}).(finished := true, lasts := 1) == h.(dataCloses := 1, closeCloses := 1, finished := true, lasts := 1);
  }

  lemma FinishAlone(ss: seq<Stream>, steps: seq<Step>, h: Shared) returns (ss': seq<Stream>, steps': seq<Step>)
    requires EndsAt(ss, steps, Solo(h, AwaitReply)) && !h.finished && h.lasts == 0 && (h.replied || h.initiated)
    ensures steps <= steps' && EndsAt(ss', steps', Solo(h.(finished := true, lasts := 1), Idle))
  {
    hide EndsAt, Solo, GoneHandler, GoneReply;
    ss', steps' := GoesOn(ss, steps, h, AwaitReply);
    ss', steps' := GoesOn(ss', steps', h, FinishTake);
    ss', steps' := GoesOn(ss', steps', h.(finished := true), WriteFin);
  }

  lemma AtEnd(ss: seq<Stream>, steps: seq<Step>, h: Shared)
    requires EndsAt(ss, steps, Solo(h, Idle))
    ensures Path(ss, steps) && ss[|steps|].h == h
  {
    hide Path;
  }

  /** A peer-opened stream that is refused and then closed: a reset, and a data frame with FIN. */
  lemma RefuseThenClose() returns (ss: seq<Stream>, steps: seq<Step>)
    ensures Path(ss, steps) && [Begin(1, Refuse), Go(1, false), Go(1, false), Begin(1, Close)] <= steps
    ensures ss[|steps|].h.refusals == 1 && ss[|steps|].h.lasts == 1 && Closings(ss[|steps|].h) == 2
  {
    hide GoneRegion, GoneHandler, GoneReply, EndsAt, Solo, Path;
    var h0 := Init(false, false, false).h;
    var h1 := h0.(replied := true);
    ss, steps := Begins(false, false, false, Refuse);
    ss, steps := GoesOn(ss, steps, h0, RefuseSet);
    ss, steps := GoesOn(ss, steps, h1, WriteRefusal);
    ss, steps := CallsOn(ss, steps, h1.(refusals := 1), Close);
    ss, steps := CloseAlone(ss, steps, h1.(refusals := 1));
    AtEnd(ss, steps, h1.(refusals := 1, dataCloses := 1, closeCloses := 1, finished := true, lasts := 1));
  }

  /** `Close` and then `Cancel`: a data frame with FIN, and a reset. */
  lemma CloseThenCancel() returns (ss: seq<Stream>, steps: seq<Step>)
    ensures Path(ss, steps) && steps != [] && steps[0] == Begin(1, Close)
    ensures ss[|steps|].h.lasts == 1 && ss[|steps|].h.cancels == 1 && Closings(ss[|steps|].h) == 2
  {
    hide GoneRegion, GoneHandler, GoneReply, EndsAt, Solo, Path;
    var h := Init(true, false, false).h;
    var last := h.(dataCloses := 1, closeCloses := 1, finished := true, lasts := 1);
    ss, steps := Begins(true, false, false, Close);
    ss, steps := CloseAlone(ss, steps, h);
    ss, steps := CallsOn(ss, steps, last, Cancel);
    ss, steps := GoesOn(ss, steps, last, WriteCancel);
    AtEnd(ss, steps, last.(cancels := 1));
  }
}

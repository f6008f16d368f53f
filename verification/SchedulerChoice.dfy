/**
Which backend a request gets, and what becomes of a request that was dialled twice.
*/
module SchedulerChoice {
  import opened SchedulerSpec
  import opened SchedulerProperties
  import opened Wrappers

  // ---------- Least connections (leastweight off) ----------

  /** A request goes to a backend with the fewest forwarders, and is refused exactly when every backend in the heap is full. */
  lemma LeastConnections<B, R>(cfg: Config, s: State<B, R>, r: R, pick: Option<B>)
    requires Invariant(cfg, s) && !cfg.leastweight && s.pool != {} && Enabled(cfg, s, Job(r, pick))
    ensures var t := Next(cfg, s, Job(r, pick));
      && pick.value in s.pool && pick.value in s.ongoing
      && (forall c :: c in s.pool ==> c in s.ongoing && s.ongoing[pick.value] <= s.ongoing[c])
      && (r in t.jobs.refused <==> forall c :: c in s.pool ==> c in s.ongoing && s.ongoing[c] >= MAX_FORWARDERS_PER_BACKEND)
      && (r in t.jobs.flight <==> r !in t.jobs.refused)
      && (r in t.jobs.flight ==> t.jobs.flight[r] == pick.value)
  {
    hide Ranked, Accounted, Separate;
  }

  /** Loads in the heap differ by at most `d`. */
  ghost predicate Spread<B, R>(s: State<B, R>, d: int) {
    forall b, c :: b in s.pool && c in s.pool && b in s.ongoing && c in s.ongoing ==> s.ongoing[b] - s.ongoing[c] <= d
  }

  ghost predicate OnlyJobs<B, R>(events: seq<Event<B, R>>) {
    forall i :: 0 <= i < |events| ==> events[i].Job?
  }

  lemma DispatchSpread<B, R>(cfg: Config, s: State<B, R>, r: R, pick: Option<B>, d: int)
    requires !cfg.leastweight && Legal(cfg, s, pick) && Spread(s, d) && d >= 1 && s.pool <= s.reg.weight.Keys
    ensures Spread(Dispatch(cfg, s, r, pick), d)
  {
  }

  /** A run of requests alone never widens the spread of the loads beyond one: from idle they stay within one of each other. */
  lemma {:induction false} JobsBalance<B, R>(cfg: Config, run: seq<State<B, R>>, events: seq<Event<B, R>>, d: int)
    requires IsPath(cfg, run, events) && OnlyJobs(events) && !cfg.leastweight && Invariant(cfg, run[0])
    requires d >= 1 && Spread(run[0], d)
    ensures Spread(run[|events|], d) && Invariant(cfg, run[|events|])
    decreases |events|
  {
    hide Spread, Least, Ranked, Accounted, Separate, Placed, Held;
    var n := |events|;
    if n > 0 {
      assert IsPath(cfg, run[..n], events[..n - 1]);
      JobsBalance(cfg, run[..n], events[..n - 1], d);
      var s, e := run[n - 1], events[n - 1];
      PoolIsKnown(s.reg, s.backends, s.pool);
      DispatchSpread(cfg, s, e.request, e.pick, d);
      StepKeeps(cfg, s, e);
    }
  }

  lemma PoolIsKnown<B>(g: Registry<B>, backends: map<string, B>, pool: set<B>)
    requires Placed(g.address, backends, pool)
    ensures pool <= g.address.Keys
  {
  }

  // ---------- Failover (leastweight on) ----------

  /** The request goes to a backend of the heap of least weight; it is refused exactly when that one is full. */
  lemma FailoverPicksLeast<B, R>(cfg: Config, s: State<B, R>, r: R, pick: Option<B>)
    requires Invariant(cfg, s) && cfg.leastweight && s.pool != {} && Enabled(cfg, s, Job(r, pick))
    ensures var t := Next(cfg, s, Job(r, pick));
      && pick.value in s.pool && pick.value in s.reg.weight && pick.value in s.ongoing
      && (forall c :: c in s.pool ==> c in s.reg.weight && s.reg.weight[pick.value] <= s.reg.weight[c])
      && (r in t.jobs.refused <==> s.ongoing[pick.value] >= MAX_FORWARDERS_PER_BACKEND)
      && (r in t.jobs.flight <==> r !in t.jobs.refused)
      && (r in t.jobs.flight ==> t.jobs.flight[r] == pick.value)
  {
    hide Ranked, Accounted, Separate;
  }

  /** A shuffled list, which is the default, leaves every backend of the heap least. */
  lemma ShuffledOffersAny<B, R>(cfg: Config, s: State<B, R>, b: B)
    requires Invariant(cfg, s) && cfg.leastweight && cfg.shuffle && b in s.pool
    ensures Least(cfg, s, b)
  {
    hide Accounted, Separate;
  }

  /** The request goes to the backend of the heap that was created first; it is refused exactly when that one is full. */
  lemma FailoverPicksEldest<B, R>(cfg: Config, s: State<B, R>, r: R, pick: Option<B>)
    requires Invariant(cfg, s) && cfg.leastweight && !cfg.shuffle && s.pool != {} && Enabled(cfg, s, Job(r, pick))
    ensures var t := Next(cfg, s, Job(r, pick));
      && pick.value in s.pool && pick.value in s.reg.birth && pick.value in s.ongoing
      && (forall c :: c in s.pool && c != pick.value ==> c in s.reg.birth && s.reg.birth[pick.value] < s.reg.birth[c])
      && (r in t.jobs.refused <==> s.ongoing[pick.value] >= MAX_FORWARDERS_PER_BACKEND)
      && (r in t.jobs.flight <==> r !in t.jobs.refused)
      && (r in t.jobs.flight ==> t.jobs.flight[r] == pick.value)
  {
    hide Accounted, Separate;
  }

  /** Weights of all backends ever created are pairwise different. */
  lemma FailoverWeightsDiffer<B, R>(cfg: Config, run: seq<State<B, R>>, events: seq<Event<B, R>>, b: B, c: B)
    requires IsRun(cfg, run, events) && !cfg.shuffle
    requires b in run[|events|].reg.address && c in run[|events|].reg.address && b != c
    ensures var g := run[|events|].reg; b in g.weight && c in g.weight && g.weight[b] != g.weight[c]
  {
    hide IsRun, Placed, Accounted, Separate;
    RunKeeps(cfg, run, events);
  }

  /** Requests arriving and goroutines returning, and requests finishing without an error. */
  ghost predicate Quiet<B, R>(s: State<B, R>, e: Event<B, R>) {
    match e
    case Job(_, _) => true
    case Return(_, _) => true
    case Finish(_) => s.jobs.done != [] && ErrorOf(s.jobs, s.jobs.done[0]).NoError?
    case Status(_, _, _) => false
    case NewTunnel(_, _) => false
  }

  lemma QuietStep<B, R>(cfg: Config, s: State<B, R>, e: Event<B, R>)
    requires Enabled(cfg, s, e) && Quiet(s, e) && s.pool != {}
    ensures Next(cfg, s, e).pool == s.pool && Next(cfg, s, e).reg == s.reg
  {
  }

  lemma JobPicksLeast<B, R>(cfg: Config, s: State<B, R>, e: Event<B, R>)
    requires Enabled(cfg, s, e) && e.Job? && s.pool != {}
    ensures e.pick.Some? && Least(cfg, s, e.pick.value)
  {
  }

  lemma LeastIsNotEmpty<B, R>(cfg: Config, s: State<B, R>, b: B)
    requires Least(cfg, s, b)
    ensures s.pool != {}
  {
  }

  /** The heap can offer `b` and no other backend. */
  ghost predicate OnlyLeast<B, R>(cfg: Config, s: State<B, R>, b: B) {
    Least(cfg, s, b) && forall c :: c in s.pool && Least(cfg, s, c) ==> c == b
  }

  lemma UnshuffledOffersOne<B, R>(cfg: Config, s: State<B, R>, b: B)
    requires Invariant(cfg, s) && cfg.leastweight && !cfg.shuffle && Least(cfg, s, b)
    ensures OnlyLeast(cfg, s, b)
  {
    hide Accounted, Separate, Placed;
  }

  lemma ShuffledOffersOneIff<B, R>(cfg: Config, s: State<B, R>, b: B)
    requires Invariant(cfg, s) && cfg.leastweight && cfg.shuffle && b in s.pool
    ensures OnlyLeast(cfg, s, b) <==> s.pool == {b}
  {
    forall c | c in s.pool ensures Least(cfg, s, c) {
      ShuffledOffersAny(cfg, s, c);
    }
    hide Invariant, Least;
  }

  ghost predicate IsQuiet<B, R>(cfg: Config, run: seq<State<B, R>>, events: seq<Event<B, R>>) {
    IsPath(cfg, run, events) && forall i :: 0 <= i < |events| ==> Quiet(run[i], events[i])
  }

  ghost predicate Offered<B, R>(events: seq<Event<B, R>>, b: B) {
    forall i :: 0 <= i < |events| && events[i].Job? ==> events[i].pick == Some(b)
  }

  /** As long as nothing joins, leaves or fails, every request is offered to the one backend that is least. */
  lemma {:induction false} FailoverSticks<B, R>(cfg: Config, run: seq<State<B, R>>, events: seq<Event<B, R>>, b: B)
    requires IsQuiet(cfg, run, events) && cfg.leastweight && Invariant(cfg, run[0]) && OnlyLeast(cfg, run[0], b)
    ensures Offered(events, b) && Invariant(cfg, run[|events|]) && OnlyLeast(cfg, run[|events|], b)
    decreases |events|
  {
    hide Invariant, Least, Quiet, Enabled, Next;
    var n := |events|;
    if n > 0 {
      assert IsPath(cfg, run[..n], events[..n - 1]);
      FailoverSticks(cfg, run[..n], events[..n - 1], b);
      var s, e := run[n - 1], events[n - 1];
      StepKeeps(cfg, s, e);
      LeastIsNotEmpty(cfg, s, b);
      QuietStep(cfg, s, e);
      SameTables(cfg, s, run[n]);
      OnlyLeastStays(cfg, s, run[n], b);
      if e.Job? {
        JobPicksLeast(cfg, s, e);
        LeastIn(cfg, s, e.pick.value);
      }
    }
  }

  lemma OnlyLeastStays<B, R>(cfg: Config, s: State<B, R>, t: State<B, R>, b: B)
    requires cfg.leastweight && t.pool == s.pool && t.reg == s.reg && t.ongoing.Keys == s.ongoing.Keys
    requires OnlyLeast(cfg, s, b)
    ensures OnlyLeast(cfg, t, b)
  {
    LeastStays(cfg, s, t, b);
    forall c | c in t.pool && Least(cfg, t, c) ensures c == b {
      LeastStays(cfg, s, t, c);
    }
  }

  lemma LeastIn<B, R>(cfg: Config, s: State<B, R>, b: B)
    requires Least(cfg, s, b)
    ensures b in s.pool
  {
  }

  /** For every configuration that compares weights: quiet runs stick to `b` exactly when no other backend of the heap is least. */
  lemma FailoverSticksIff<B, R>(cfg: Config, s: State<B, R>, b: B, r: R)
    requires Invariant(cfg, s) && cfg.leastweight && Least(cfg, s, b) && r !in Held(s.jobs) && r !in s.jobs.err
    ensures (forall run, events :: IsQuiet(cfg, run, events) && run[0] == s ==> Offered(events, b)) <==> OnlyLeast(cfg, s, b)
  {
    if OnlyLeast(cfg, s, b) {
      forall run, events | IsQuiet(cfg, run, events) && run[0] == s ensures Offered(events, b) {
        FailoverSticks(cfg, run, events, b);
      }
    } else {
      var c :| c in s.pool && Least(cfg, s, c) && c != b;
      var run, events := OneJob(cfg, s, r, c);
      hide IsQuiet, Invariant, Least;
      assert events[0].Job? && events[0].pick != Some(b);
    }
  }

  lemma OneJob<B, R>(cfg: Config, s: State<B, R>, r: R, c: B) returns (run: seq<State<B, R>>, events: seq<Event<B, R>>)
    requires Invariant(cfg, s) && Least(cfg, s, c) && r !in Held(s.jobs) && r !in s.jobs.err
    ensures events == [Job(r, Some(c))] && IsQuiet(cfg, run, events) && run[0] == s
  {
    hide *;
    JobEnabled(cfg, s, r, c);
    run, events := QuietStepPath(cfg, s, Job(r, Some(c)));
  }

  lemma QuietStepPath<B, R>(cfg: Config, s: State<B, R>, e: Event<B, R>) returns (run: seq<State<B, R>>, events: seq<Event<B, R>>)
    requires Enabled(cfg, s, e) && Quiet(s, e)
    ensures events == [e] && IsQuiet(cfg, run, events) && run[0] == s
  {
    hide Enabled, Next, Quiet;
    run, events := [s, Next(cfg, s, e)], [e];
  }

  lemma JobEnabled<B, R>(cfg: Config, s: State<B, R>, r: R, c: B)
    requires Invariant(cfg, s) && Least(cfg, s, c) && r !in Held(s.jobs) && r !in s.jobs.err
    ensures Enabled(cfg, s, Job(r, Some(c))) && Quiet(s, Job(r, Some(c)))
  {
    InvariantSeparates(cfg, s);
    NotDone(s.jobs, r);
    LeastIsNotEmpty(cfg, s, c);
    hide Invariant, Held, Least;
  }

  lemma NotDone<B, R>(j: Jobs<B, R>, r: R)
    requires Separate(j) && r !in Held(j)
    ensures r !in j.done
  {
  }

  lemma LeastStays<B, R>(cfg: Config, s: State<B, R>, t: State<B, R>, b: B)
    requires cfg.leastweight && t.pool == s.pool && t.reg == s.reg && t.ongoing.Keys == s.ongoing.Keys
    ensures Least(cfg, s, b) <==> Least(cfg, t, b)
  {
  }

  lemma SameTables<B, R>(cfg: Config, s: State<B, R>, t: State<B, R>)
    requires Invariant(cfg, s) && Invariant(cfg, t) && t.reg == s.reg
    ensures t.ongoing.Keys == s.ongoing.Keys
  {
    hide Accounted, Separate, Placed, Ranked;
  }

  // ---------- The error a retry leaves behind ----------

  lemma FinishDecides<B, R>(cfg: Config, s: State<B, R>, r: R, pick: Option<B>)
    requires Invariant(cfg, s) && Enabled(cfg, s, Finish(pick)) && s.jobs.done[0] == r
    ensures var t := Next(cfg, s, Finish(pick));
      && (r in t.jobs.completed <==> !ErrorOf(s.jobs, r).DialError?)
      && (r in t.jobs.flight || r in t.jobs.pending || r in t.jobs.refused <==> ErrorOf(s.jobs, r).DialError?)
      && (s.jobs.flight[r] in t.pool <==> s.jobs.flight[r] in s.pool && ErrorOf(s.jobs, r).NoError?)
  {
    hide Ranked, Accounted, Placed;
  }

  /** While a request sits on the done channel its error and its backend do not change. */
  lemma ParkedStays<B, R>(cfg: Config, s: State<B, R>, e: Event<B, R>, r: R)
    requires Enabled(cfg, s, e) && r in s.jobs.done && r in s.jobs.flight && Separate(s.jobs)
    requires e.Finish? ==> s.jobs.done[0] != r
    ensures var j := Next(cfg, s, e).jobs;
      r in j.done && r in j.flight && j.flight[r] == s.jobs.flight[r] && ErrorOf(j, r) == ErrorOf(s.jobs, r)
  {
    hide Least, CanReconcile, CreateAll, DispatchAll, LegalAll;
    match e
    case Job(_, _) =>
    case Return(_, _) =>
    case Finish(_) =>
    case Status(up, order, born) => SameJobs(cfg, s, up, order, born);
    case NewTunnel(b, picks) =>
      if s.reg.address[b] !in s.backends {
        DrainSpares(cfg, AddBackend(s, b), s.jobs.pending, picks, r);
      }
  }

  lemma SameJobs<B, R>(cfg: Config, s: State<B, R>, up: set<string>, order: seq<string>, born: seq<B>)
    requires CanReconcile(s, up, order, born)
    ensures CreateAll(cfg, Reconcile(s, up), order, born).jobs == s.jobs
  {
    CreateAllFrame(cfg, Reconcile(s, up), order, born);
  }

  lemma {:induction false} DrainSpares<B, R>(cfg: Config, s: State<B, R>, rs: seq<R>, picks: seq<Option<B>>, r: R)
    requires LegalAll(cfg, s, rs, picks) && r in s.jobs.flight && r !in rs
    ensures var j := DispatchAll(cfg, s, rs, picks).jobs;
      j.done == s.jobs.done && j.err == s.jobs.err && r in j.flight && j.flight[r] == s.jobs.flight[r]
    decreases |rs|
  {
    if rs != [] {
      assert rs == [rs[0]] + rs[1..];
      DrainSpares(cfg, Dispatch(cfg, s, rs[0], picks[0]), rs[1..], picks[1..], r);
    }
  }

  /**
  A request that has been served is completed when its turn comes exactly when its error did
  not say "dial" before, or a copy failed (which clears the error).  Otherwise it is dispatched
  again.  Its backend, if in the heap, is left there exactly when no error at all remained.
  `events` runs from the return of the goroutine to the finish of that request.
  */
  lemma {:induction false} ServedIsOver<B, R>(cfg: Config, run: seq<State<B, R>>, events: seq<Event<B, R>>, r: R, copyError: bool)
    requires |events| >= 2 && IsPath(cfg, run, events) && Invariant(cfg, run[0])
    requires events[0] == Return(r, Served(copyError))
    requires forall i :: 0 < i < |events| && events[i].Finish? ==> (run[i].jobs.done[0] == r <==> i == |events| - 1)
    requires events[|events| - 1].Finish?
    ensures var b, t := run[0].jobs.flight[r], run[|events|];
      && (r in t.jobs.completed <==> copyError || !ErrorOf(run[0].jobs, r).DialError?)
      && (r !in t.jobs.completed <==> r in t.jobs.flight || r in t.jobs.pending || r in t.jobs.refused)
      && (b in t.pool <==> b in run[|events| - 1].pool && (copyError || ErrorOf(run[0].jobs, r).NoError?))
  {
    hide Invariant, Separate, Held, Next;
    var n := |events|;
    assert run[1].jobs == Returned(run[0].jobs, r, Served(copyError)) by { ReturnIs(cfg, run[0], r, Served(copyError)); }
    StepKeeps(cfg, run[0], events[0]);
    var k := 1;
    while k < n - 1
      invariant 1 <= k <= n - 1
      invariant Invariant(cfg, run[k])
      invariant r in run[k].jobs.done && r in run[k].jobs.flight
      invariant run[k].jobs.flight[r] == run[0].jobs.flight[r]
      invariant ErrorOf(run[k].jobs, r) == ErrorOf(run[1].jobs, r)
    {
      StepKeeps(cfg, run[k], events[k]);
      InvariantSeparates(cfg, run[k]);
      ParkedStays(cfg, run[k], events[k], r);
      k := k + 1;
    }
    FinishDecides(cfg, run[n - 1], r, events[n - 1].pick);
  }

  lemma ReturnIs<B, R>(cfg: Config, s: State<B, R>, r: R, outcome: Outcome)
    requires Enabled(cfg, s, Return(r, outcome))
    ensures Next(cfg, s, Return(r, outcome)).jobs == Returned(s.jobs, r, outcome)
  {
  }

  lemma InvariantSeparates<B, R>(cfg: Config, s: State<B, R>)
    requires Invariant(cfg, s)
    ensures Separate(s.jobs)
  {
  }

  /** The six steps of a run in which request 7 is served and dispatched again. */
  ghost function Stage(i: nat): State<nat, nat> {
    var g := Registry(map[0 := "a", 1 := "b"], map[0 := 0, 1 := 1], map[0 := 0, 1 := 0], 0);
    var m := map["a" := 0, "b" := 1];
    if i == 0 then Initial()
    else if i == 1 then State(g, m, {0, 1}, map[0 := 0, 1 := 0], Jobs([], map[], [], map[], {}, {}, multiset{}))
    else if i == 2 then State(g, m, {0, 1}, map[0 := 1, 1 := 0], Jobs([], map[7 := 0], [], map[], {}, {}, multiset{0}))
    else if i == 3 then State(g, m, {0, 1}, map[0 := 1, 1 := 0], Jobs([], map[7 := 0], [7], map[7 := DialError], {}, {}, multiset{0}))
    else if i == 4 then State(g, m, {1}, map[0 := 0, 1 := 1], Jobs([], map[7 := 1], [], map[7 := DialError], {}, {}, multiset{0, 1}))
    else if i == 5 then State(g, m, {1}, map[0 := 0, 1 := 1], Jobs([], map[7 := 1], [7], map[7 := DialError], {}, {}, multiset{0, 1}))
    else State(g, m, {}, map[0 := 0, 1 := 0], Jobs([7], map[], [], map[7 := DialError], {}, {}, multiset{0, 1}))
  }

  ghost function StageEvent(i: nat): Event<nat, nat> {
    if i == 0 then Status({"a", "b"}, ["a", "b"], [0, 1])
    else if i == 1 then Job(7, Some(0))
    else if i == 2 then Return(7, NoConnection(DialError))
    else if i == 3 then Finish(Some(1))
    else if i == 4 then Return(7, Served(false))
    else Finish(None)
  }

  ghost predicate StageHolds(i: nat) {
    var cfg := Config(false, true, 0);
    Enabled(cfg, Stage(i), StageEvent(i)) && Stage(i + 1) == Next(cfg, Stage(i), StageEvent(i))
  }

  lemma Stage0() ensures StageHolds(0) {
    var cfg := Config(false, true, 0);
    NothingToReconcile();
    CreateStage1(cfg);
    CreatedStage1(cfg);
    hide Reconcile, CreateAll, Create;
  }

  lemma NothingToReconcile()
    ensures Reconcile(Stage(0), {"a", "b"}) == Stage(0)
  {
  }

  lemma CreatedStage1(cfg: Config)
    requires cfg == Config(false, true, 0)
    ensures Create(cfg, Create(cfg, Stage(0), "a", 0), "b", 1) == Stage(1)
  {
    var c, s := Create(cfg, Create(cfg, Stage(0), "a", 0), "b", 1), Stage(1);
    assert c.pool == s.pool && c.backends == s.backends && c.ongoing == s.ongoing && c.reg == s.reg;
  }

  lemma CreateStage1(cfg: Config)
    requires cfg == Config(false, true, 0)
    ensures CreateAll(cfg, Stage(0), ["a", "b"], [0, 1])
         == Create(cfg, Create(cfg, Stage(0), "a", 0), "b", 1)
  {
    var order, born: seq<nat> := ["a", "b"], [0, 1];
    assert "a"[0] != "b"[0];
    hide Create, Stage;
    assert order[1..] == ["b"] && order[1..][1..] == [] && born[1..] == [1] && born[1..][1..] == [];
  }

  lemma Stage1() ensures StageHolds(1) {}

  lemma Stage2() ensures StageHolds(2) {}

  /** The counter of the failed backend is lowered and it leaves the heap; the other one takes the request. */
  ghost function Freed(): State<nat, nat> {
    Stage(3).(pool := {1}, ongoing := map[0 := 0, 1 := 0], jobs := Stage(3).jobs.(flight := map[], done := []))
  }

  lemma FreedIs()
    ensures CanFinish(Config(false, true, 0), Stage(3), Some(1)) <==> Legal(Config(false, true, 0), Freed(), Some(1))
    ensures Stage(3).jobs.done == [7] && ErrorOf(Stage(3).jobs, 7).DialError?
    ensures 7 in Stage(3).jobs.flight && Stage(3).jobs.flight[7] in Stage(3).ongoing && Released(Stage(3)) == Freed()
  {
    assert Released(Stage(3)).pool == {1} && Released(Stage(3)).jobs.flight == map[];
    hide Legal;
  }

  lemma FreedFlies()
    ensures Legal(Config(false, true, 0), Freed(), Some(1)) && Dispatch(Config(false, true, 0), Freed(), 7, Some(1)) == Stage(4)
  {
  }

  lemma Stage3() ensures StageHolds(3) {
    FreedIs();
    FreedFlies();
    hide Stage, Released, Freed, Legal, Dispatch;
  }

  lemma Stage4() ensures StageHolds(4) {}

  lemma Stage5() ensures StageHolds(5) {
    assert Released(Stage(5)).pool == {} && Released(Stage(5)).jobs.flight == map[];
  }

  /** One dial failure, then a served retry: the request ends up pending again and the healthy backend out of the heap. */
  lemma ServedRequestReturns()
    returns (cfg: Config, run: seq<State<nat, nat>>, events: seq<Event<nat, nat>>)
    ensures IsRun(cfg, run, events) && |events| == 6
    ensures events[4] == Return(7, Served(false))
    ensures 7 in run[6].jobs.pending && run[6].pool == {} && run[6].backends.Keys == {"a", "b"}
  {
    hide Enabled, Next;
    cfg := Config(false, true, 0);
    run := seq(7, i requires 0 <= i < 7 => Stage(i));
    events := seq(6, i requires 0 <= i < 6 => StageEvent(i));
    Stage0(); Stage1(); Stage2(); Stage3(); Stage4(); Stage5();
    forall i | 0 <= i < 6 ensures StageHolds(i) {
    }
    forall i | 0 <= i < 6 ensures Enabled(cfg, run[i], events[i]) && run[i + 1] == Next(cfg, run[i], events[i]) {
      assert StageHolds(i);
    }
  }
}

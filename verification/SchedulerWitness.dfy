/**
Runs that show what the scheduler does not promise: a backend that comes back after it was announced
to be gone, a request that is overtaken while it waits, and one that is overtaken when its turn comes.
*/
module SchedulerWitnesses {
  import opened SchedulerSpec
  import opened Wrappers

  type Run = seq<State<nat, nat>>
  type Events = seq<Event<nat, nat>>

  ghost predicate Steps(cfg: Config, s: State<nat, nat>, e: Event<nat, nat>, t: State<nat, nat>) {
    Enabled(cfg, s, e) && Next(cfg, s, e) == t
  }

  lemma RunOfSteps(cfg: Config, run: Run, events: Events)
    requires |run| == |events| + 1 && run[0] == Initial()
    requires forall i :: 0 <= i < |events| ==> Steps(cfg, run[i], events[i], run[i + 1])
    ensures IsRun(cfg, run, events)
  {
    hide Enabled, Next;
    assert IsPath(cfg, run, events) by {
      forall i | 0 <= i < |events| ensures Enabled(cfg, run[i], events[i]) && run[i + 1] == Next(cfg, run[i], events[i]) {
        assert Steps(cfg, run[i], events[i], run[i + 1]);
      }
    }
  }

  lemma StepsJoin(cfg: Config, run: Run, events: Events, tail: Run, later: Events)
    requires IsRun(cfg, run, events) && |tail| == |later| + 1 && tail[0] == run[|events|]
    requires forall i :: 0 <= i < |later| ==> Steps(cfg, tail[i], later[i], tail[i + 1])
    ensures IsRun(cfg, run + tail[1..], events + later)
  {
    hide Enabled, Next, Initial;
    var all, es := run + tail[1..], events + later;
    forall i | 0 <= i < |es| ensures Enabled(cfg, all[i], es[i]) && all[i + 1] == Next(cfg, all[i], es[i]) {
      if i >= |events| {
        assert Steps(cfg, tail[i - |events|], later[i - |events|], tail[i - |events| + 1]);
      }
    }
  }

  lemma StepJoins(cfg: Config, run: Run, events: Events, e: Event<nat, nat>, t: State<nat, nat>)
    requires IsRun(cfg, run, events) && Steps(cfg, run[|events|], e, t)
    ensures IsRun(cfg, run + [t], events + [e])
  {
    hide Enabled, Next, Initial;
    assert (run + [t])[..|run|] == run && (events + [e])[..|events|] == events;
  }

  ghost function NoJobs(): Jobs<nat, nat> { Jobs([], map[], [], map[], {}, {}, multiset{}) }

  /** One backend, 0, at the address "a". */
  ghost function One(backends: map<string, nat>, pool: set<nat>, ongoing: int, jobs: Jobs<nat, nat>): State<nat, nat> {
    State(Registry(map[0 := "a"], map[0 := 0], map[0 := 0], 0), backends, pool, map[0 := ongoing], jobs)
  }

  ghost function Listed(pool: set<nat>, ongoing: int, jobs: Jobs<nat, nat>): State<nat, nat> {
    One(map["a" := 0], pool, ongoing, jobs)
  }

  /** A shuffled list and tunnels. */
  ghost predicate Tunnelled(cfg: Config) { cfg.shuffle && cfg.tunnels > 0 }

  ghost function Empty(): State<nat, nat> { One(map[], {}, 0, NoJobs()) }

  lemma FirstStatus(cfg: Config)
    requires Tunnelled(cfg)
    ensures Steps(cfg, Initial(), Status({"a"}, ["a"], [0]), Empty())
  {
    var s0: State<nat, nat>, e: Event<nat, nat> := Initial(), Status({"a"}, ["a"], [0]);
    var m := Reconcile(s0, {"a"});
    assert m == s0;
    assert CreateAll(cfg, m, ["a"], [0]) == Create(cfg, m, "a", 0) by {
      hide Create, Reconcile;
      var order, born: seq<nat> := ["a"], [0];
      assert order[1..] == [] && born[1..] == [];
    }
    assert Create(cfg, m, "a", 0) == Empty();
    hide Create, Reconcile, CreateAll;
  }

  lemma SessionAdds(cfg: Config, ongoing: int)
    requires Tunnelled(cfg)
    ensures Steps(cfg, One(map[], {}, ongoing, NoJobs()), NewTunnel(0, []), Listed({0}, ongoing, NoJobs()))
  {
    var s := One(map[], {}, ongoing, NoJobs());
    assert AddBackend(s, 0).backends == map["a" := 0] && AddBackend(s, 0).pool == {0};
  }

  lemma SessionOfListed(cfg: Config, pool: set<nat>, ongoing: int, jobs: Jobs<nat, nat>)
    requires Tunnelled(cfg)
    ensures Steps(cfg, Listed(pool, ongoing, jobs), NewTunnel(0, []), Listed(pool, ongoing, jobs))
  {
  }

  // ---------- A backend announced to be gone ----------

  lemma AnnouncedGone(cfg: Config)
    requires Tunnelled(cfg)
    ensures Steps(cfg, Listed({0}, 0, NoJobs()), Status({}, [], []), Empty())
  {
    var s := Listed({0}, 0, NoJobs());
    assert Kept(s.backends, {}) == map[];
    assert s.backends["a"] == 0 && 0 in (set x | x in s.backends && x !in {} :: s.backends[x]);
    assert Reconcile(s, {}).pool == {};
  }

  lemma GoneAndBack()
    ensures Empty().backends == map[] && Listed({0}, 0, NoJobs()).backends == map["a" := 0] && Listed({0}, 0, NoJobs()).pool == {0}
  {
  }

  /** "a" is announced, its session comes, it is announced to be gone, a second session comes: it is back. */
  lemma GoneBackendReturns() returns (cfg: Config, run: Run, events: Events)
    ensures IsRun(cfg, run, events) && cfg.tunnels == 2
    ensures events == [Status({"a"}, ["a"], [0]), NewTunnel(0, []), Status({}, [], []), NewTunnel(0, [])]
    ensures |run| == 5 && run[3].backends == map[] && run[4].backends == map["a" := 0] && run[4].pool == {0}
  {
    cfg := Config(false, true, 2);
    FirstStatus(cfg);
    SessionAdds(cfg, 0);
    AnnouncedGone(cfg);
    GoneAndBack();
    hide Steps, One, Listed, Empty, NoJobs, Tunnelled;
    run := [Initial(), Empty(), Listed({0}, 0, NoJobs()), Empty(), Listed({0}, 0, NoJobs())];
    events := [Status({"a"}, ["a"], [0]), NewTunnel(0, []), Status({}, [], []), NewTunnel(0, [])];
    RunOfSteps(cfg, run, events);
  }

  // ---------- A request that is overtaken ----------

  lemma Flies(cfg: Config, r: nat, jobs: Jobs<nat, nat>)
    requires Tunnelled(cfg) && r !in Held(jobs) && r !in jobs.done && r !in jobs.err
    ensures Steps(cfg, Listed({0}, 0, jobs), Job(r, Some(0)), Listed({0}, 1, SchedulerSpec.Launch(jobs, r, 0)))
  {
    hide Held;
  }

  lemma FirstFlies(cfg: Config)
    requires Tunnelled(cfg)
    ensures Steps(cfg, Listed({0}, 0, NoJobs()), Job(5, Some(0)), Listed({0}, 1, SchedulerSpec.Launch(NoJobs(), 5, 0)))
  {
    hide Steps, Listed;
    Flies(cfg, 5, NoJobs());
  }

  lemma ComesBack(cfg: Config, jobs: Jobs<nat, nat>)
    requires Tunnelled(cfg)
    ensures Steps(cfg, Listed({}, 0, jobs), Status({"a"}, [], []), Listed({0}, 0, jobs))
  {
    var s := Listed({}, 0, jobs);
    assert Kept(s.backends, {"a"}) == s.backends;
    assert s.backends["a"] == 0;
    assert Reconcile(s, {"a"}).pool == {0};
  }

  ghost function Failing(): Jobs<nat, nat> { Jobs([], map[5 := 0], [5], map[5 := DialError], {}, {}, multiset{0}) }

  ghost function Parked(): Jobs<nat, nat> { Jobs([5], map[], [], map[5 := DialError], {}, {}, multiset{0}) }

  ghost function Flown(): Jobs<nat, nat> { SchedulerSpec.Launch(Parked(), 7, 0) }

  lemma Fails(cfg: Config)
    requires Tunnelled(cfg)
    ensures Steps(cfg, Listed({0}, 1, SchedulerSpec.Launch(NoJobs(), 5, 0)), Return(5, NoConnection(DialError)), Listed({0}, 1, Failing()))
  {
  }

  /** The retry finds the heap empty. */
  lemma Parks(cfg: Config)
    requires Tunnelled(cfg)
    ensures Steps(cfg, Listed({0}, 1, Failing()), Finish(None), Listed({}, 0, Parked()))
  {
    var s := Listed({0}, 1, Failing());
    assert Released(s).pool == {} && Released(s).jobs.flight == map[];
  }

  ghost function Parking(): Events { [Job(5, Some(0)), Return(5, NoConnection(DialError)), Finish(None)] }

  lemma ParkingSteps(cfg: Config, run: Run)
    requires Tunnelled(cfg)
    requires run == [Listed({0}, 0, NoJobs()), Listed({0}, 1, SchedulerSpec.Launch(NoJobs(), 5, 0)), Listed({0}, 1, Failing()), Listed({}, 0, Parked())]
    ensures forall i :: 0 <= i < 3 ==> Steps(cfg, run[i], Parking()[i], run[i + 1])
  {
    FirstFlies(cfg);
    Fails(cfg);
    Parks(cfg);
    hide Steps, Listed, Parked, Failing, Tunnelled, NoJobs, SchedulerSpec.Launch;
  }

  /** A dial fails, which empties the heap, and its request is parked. */
  lemma RequestParks(cfg: Config) returns (run: Run, events: Events)
    requires Tunnelled(cfg)
    ensures IsRun(cfg, run, events) && |events| == 5 && run[5] == Listed({}, 0, Parked())
    ensures events[2..] == Parking()
  {
    FirstStatus(cfg);
    SessionAdds(cfg, 0);
    var tail := [Listed({0}, 0, NoJobs()), Listed({0}, 1, SchedulerSpec.Launch(NoJobs(), 5, 0)), Listed({0}, 1, Failing()), Listed({}, 0, Parked())];
    ParkingSteps(cfg, tail);
    hide Steps, One, Listed, Empty, Parked, Failing, Tunnelled, NoJobs, SchedulerSpec.Launch;
    run, events := [Initial(), Empty(), Listed({0}, 0, NoJobs())], [Status({"a"}, ["a"], [0]), NewTunnel(0, [])];
    RunOfSteps(cfg, run, events);
    StepsJoin(cfg, run, events, tail, Parking());
    run, events := run + tail[1..], events + Parking();
  }

  ghost function Overtaking(): Events { [Status({"a"}, [], []), Job(7, Some(0)), NewTunnel(0, [])] }

  lemma OvertakingSteps(cfg: Config, run: Run)
    requires Tunnelled(cfg)
    requires run == [Listed({}, 0, Parked()), Listed({0}, 0, Parked()), Listed({0}, 1, Flown()), Listed({0}, 1, Flown())]
    ensures forall i :: 0 <= i < 3 ==> Steps(cfg, run[i], Overtaking()[i], run[i + 1])
  {
    ComesBack(cfg, Parked());
    Flies(cfg, 7, Parked());
    SessionOfListed(cfg, {0}, 1, Flown());
    hide Steps, One, Listed, Parked, Tunnelled;
  }

  lemma OvertakenEnds(jobs: Jobs<nat, nat>)
    ensures Listed({0}, 0, Parked()).pool == {0} && Listed({0}, 0, Parked()).jobs.pending == [5]
    ensures Listed({0}, 1, jobs).pool == {0} && Listed({0}, 1, jobs).jobs == jobs
  {
  }

  /**
  The dial of request 5 fails and it waits, the heap being empty; a status message brings the backend
  back; request 7 flies, and 5 still waits after another session.
  */
  lemma LaterRequestOvertakes() returns (cfg: Config, run: Run, events: Events)
    ensures IsRun(cfg, run, events) && cfg.tunnels > 0 && |events| == 8
    ensures events[2..] == [Job(5, Some(0)), Return(5, NoConnection(DialError)), Finish(None)]
                         + [Status({"a"}, [], []), Job(7, Some(0)), NewTunnel(0, [])]
    ensures run[6].pool == {0} && run[6].jobs.pending == [5]
    ensures run[8].jobs.pending == [5] && run[8].jobs.flight == map[7 := 0] && run[8].pool == {0}
  {
    cfg := Config(false, true, 1);
    run, events := RequestParks(cfg);
    var tail := [Listed({}, 0, Parked()), Listed({0}, 0, Parked()), Listed({0}, 1, Flown()), Listed({0}, 1, Flown())];
    OvertakingSteps(cfg, tail);
    OvertakenEnds(Flown());
    assert Flown().pending == [5] && Flown().flight == map[7 := 0];
    hide Steps, One, Listed, Parked, Tunnelled, Flown;
    StepsJoin(cfg, run, events, tail, Overtaking());
    assert (events + Overtaking())[2..] == events[2..] + Overtaking();
    run, events := run + tail[1..], events + Overtaking();
  }

  // ---------- A drain out of order ----------

  /** Requests 10 to 10 + n, on backend 0. */
  ghost function Flights(n: nat): map<nat, nat> { if n == 0 then map[] else Flights(n - 1)[9 + n := 0] }

  lemma {:induction false} FlightsAre(n: nat)
    ensures forall r :: r in Flights(n) ==> 10 <= r < 10 + n
  {
    if n > 0 {
      FlightsAre(n - 1);
    }
  }

  ghost function Launches(n: nat): multiset<nat> { if n == 0 then multiset{} else Launches(n - 1) + multiset{0} }

  ghost function TwoWait(n: nat): Jobs<nat, nat> { Jobs([5, 6], Flights(n), [], map[5 := DialError], {}, {}, Launches(n + 1)) }

  /** Backend 0 has `n` requests in flight; 1 is known and its session has not come; requests 5 and 6 wait. */
  ghost function Filled(n: nat): State<nat, nat> {
    State(Registry(map[0 := "a", 1 := "b"], map[0 := 0, 1 := 1], map[0 := 0, 1 := 0], 0), map["a" := 0], {0},
          map[0 := n, 1 := 0], TwoWait(n))
  }

  lemma ParksToo(cfg: Config)
    requires Tunnelled(cfg)
    ensures Steps(cfg, Listed({}, 0, Parked()), Job(6, None), Listed({}, 0, TwoWait(0)))
  {
    assert Launches(1) == multiset{0};
  }

  lemma SecondBackend(cfg: Config)
    requires Tunnelled(cfg)
    ensures Steps(cfg, Listed({}, 0, TwoWait(0)), Status({"a", "b"}, ["b"], [1]), Filled(0))
  {
    var s := Listed({}, 0, TwoWait(0));
    assert "a"[0] != "b"[0];
    var m := Listed({0}, 0, TwoWait(0));
    assert Reconcile(s, {"a", "b"}) == m by {
      assert Kept(s.backends, {"a", "b"}) == s.backends && s.backends["a"] == 0;
      assert Reconcile(s, {"a", "b"}).pool == {0};
    }
    assert CreateAll(cfg, m, ["b"], [1]) == Create(cfg, m, "b", 1) by {
      hide Create, Reconcile;
      var order, born: seq<nat> := ["b"], [1];
      assert order[1..] == [] && born[1..] == [];
    }
    assert Create(cfg, m, "b", 1) == Filled(0);
    hide Create, Reconcile, CreateAll;
  }

  lemma FillStep(cfg: Config, n: nat)
    requires Tunnelled(cfg) && n < MAX_FORWARDERS_PER_BACKEND
    ensures Steps(cfg, Filled(n), Job(10 + n, Some(0)), Filled(n + 1))
  {
    NewRequest(n);
    FillDispatch(cfg, n);
    hide Held, Dispatch, Filled, Legal;
  }

  lemma NewRequest(n: nat)
    ensures 10 + n !in Held(Filled(n).jobs) && 10 + n !in Filled(n).jobs.done && 10 + n !in Filled(n).jobs.err
  {
    FlightsAre(n);
    hide Flights;
  }

  lemma FillDispatch(cfg: Config, n: nat)
    requires Tunnelled(cfg) && n < MAX_FORWARDERS_PER_BACKEND
    ensures Legal(cfg, Filled(n), Some(0)) && Dispatch(cfg, Filled(n), 10 + n, Some(0)) == Filled(n + 1)
  {
    FillLaunches(n);
    hide TwoWait, SchedulerSpec.Launch;
  }

  lemma FillLaunches(n: nat)
    ensures SchedulerSpec.Launch(TwoWait(n), 10 + n, 0) == TwoWait(n + 1)
  {
    assert Flights(n + 1) == Flights(n)[10 + n := 0] && Launches(n + 2) == Launches(n + 1) + multiset{0};
    hide Flights, Launches;
  }

  lemma {:induction false} Fills(cfg: Config, run: Run, events: Events, n: nat) returns (run': Run, events': Events)
    requires Tunnelled(cfg) && IsRun(cfg, run, events) && run[|events|] == Filled(0) && n <= MAX_FORWARDERS_PER_BACKEND
    ensures IsRun(cfg, run', events') && run'[|events'|] == Filled(n)
  {
    if n == 0 {
      run', events' := run, events;
    } else {
      run', events' := Fills(cfg, run, events, n - 1);
      FillStep(cfg, n - 1);
      hide Filled, Steps;
      StepJoins(cfg, run', events', Job(9 + n, Some(0)), Filled(n));
      run', events' := run' + [Filled(n)], events' + [Job(9 + n, Some(0))];
    }
  }

  ghost function Joined(): State<nat, nat> { AddBackend(Filled(4096), 1) }

  /** The heap offers the full backend first, although the idle one has the same weight. */
  lemma FirstRefused(cfg: Config)
    requires Tunnelled(cfg) && cfg.leastweight
    ensures Legal(cfg, Joined(), Some(0))
    ensures Dispatch(cfg, Joined(), 5, Some(0)) == Joined().(jobs := SchedulerSpec.Refuse(TwoWait(4096), 5))
  {
    hide TwoWait;
  }

  lemma SecondFlies(cfg: Config)
    requires Tunnelled(cfg) && cfg.leastweight
    ensures var t := Joined().(jobs := SchedulerSpec.Refuse(TwoWait(4096), 5));
            Legal(cfg, t, Some(1)) && Dispatch(cfg, t, 6, Some(1)).jobs == SchedulerSpec.Launch(t.jobs, 6, 1)
  {
    hide TwoWait, SchedulerSpec.Refuse, SchedulerSpec.Launch;
  }

  lemma DrainOne(cfg: Config, s: State<nat, nat>, r: nat, b: Option<nat>)
    requires Legal(cfg, s, b)
    ensures LegalAll(cfg, s, [r], [b]) && DispatchAll(cfg, s, [r], [b]) == Dispatch(cfg, s, r, b)
  {
    hide Legal, Dispatch;
    assert [r][1..] == [] && [b][1..] == [];
  }

  lemma DrainTwo(cfg: Config, s: State<nat, nat>, q: nat, r: nat, a: Option<nat>, b: Option<nat>)
    requires Legal(cfg, s, a) && Legal(cfg, Dispatch(cfg, s, q, a), b)
    ensures LegalAll(cfg, s, [q, r], [a, b])
    ensures DispatchAll(cfg, s, [q, r], [a, b]) == Dispatch(cfg, Dispatch(cfg, s, q, a), r, b)
  {
    hide Legal, Dispatch;
    DrainOne(cfg, Dispatch(cfg, s, q, a), r, b);
    assert [q, r][1..] == [r] && [a, b][1..] == [b];
  }

  lemma SessionDrains(cfg: Config)
    requires Tunnelled(cfg) && LegalAll(cfg, Joined(), [5, 6], [Some(0), Some(1)])
    ensures Steps(cfg, Filled(4096), NewTunnel(1, [Some(0), Some(1)]),
                  WithPending(DispatchAll(cfg, Joined(), [5, 6], [Some(0), Some(1)]), []))
  {
    hide LegalAll, DispatchAll;
  }

  /** From the parked request to a full heap with two waiting. */
  lemma FillsUp(cfg: Config) returns (run: Run, events: Events)
    requires Tunnelled(cfg)
    ensures IsRun(cfg, run, events) && run[|events|] == Filled(4096)
  {
    run, events := RequestParks(cfg);
    ParksToo(cfg);
    SecondBackend(cfg);
    hide Steps, Listed, Parked, TwoWait, Filled, Tunnelled;
    var tail, later := [Listed({}, 0, Parked()), Listed({}, 0, TwoWait(0)), Filled(0)], [Job(6, None), Status({"a", "b"}, ["b"], [1])];
    StepsJoin(cfg, run, events, tail, later);
    run, events := Fills(cfg, run + tail[1..], events + later, 4096);
  }

  ghost function Jumped(cfg: Config): State<nat, nat>
    requires LegalAll(cfg, Joined(), [5, 6], [Some(0), Some(1)])
  {
    WithPending(DispatchAll(cfg, Joined(), [5, 6], [Some(0), Some(1)]), [])
  }

  lemma Jumps(cfg: Config)
    requires Tunnelled(cfg) && cfg.leastweight
    ensures LegalAll(cfg, Joined(), [5, 6], [Some(0), Some(1)])
    ensures Steps(cfg, Filled(4096), NewTunnel(1, [Some(0), Some(1)]), Jumped(cfg))
    ensures 5 in Jumped(cfg).jobs.refused && 6 in Jumped(cfg).jobs.flight && Jumped(cfg).jobs.flight[6] == 1
  {
    FirstRefused(cfg);
    SecondFlies(cfg);
    DrainTwo(cfg, Joined(), 5, 6, Some(0), Some(1));
    SessionDrains(cfg);
    hide Filled, Dispatch, DispatchAll, Legal, LegalAll, Flights, Launches, Joined, Steps;
  }

  /**
  Failover as it is by default: request 5 has waited longer than 6, the heap holds a full backend and
  one that has just come, and the drain refuses 5 and lets 6 fly.
  */
  lemma DrainJumps() returns (cfg: Config, run: Run, events: Events)
    ensures IsRun(cfg, run, events) && cfg.leastweight && cfg.shuffle && cfg.tunnels == 1
    ensures events != [] && events[|events| - 1] == NewTunnel(1, [Some(0), Some(1)]) && run[|events| - 1].jobs.pending == [5, 6]
    ensures 5 in run[|events|].jobs.refused && 6 in run[|events|].jobs.flight && run[|events|].jobs.flight[6] == 1
  {
    cfg := Config(true, true, 1);
    run, events := FillsUp(cfg);
    Jumps(cfg);
    SecondWaits();
    RunLength(cfg, run, events);
    hide Tunnelled, Filled, Jumped, LegalAll, IsRun, Joined, Steps;
    StepJoins(cfg, run, events, NewTunnel(1, [Some(0), Some(1)]), Jumped(cfg));
    run, events := run + [Jumped(cfg)], events + [NewTunnel(1, [Some(0), Some(1)])];
  }

  lemma SecondWaits()
    ensures Filled(4096).jobs.pending == [5, 6]
  {
    hide Flights, Launches;
  }

  lemma RunLength(cfg: Config, run: Run, events: Events)
    requires IsRun(cfg, run, events)
    ensures |run| == |events| + 1
  {
  }
}

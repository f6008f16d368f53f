/**
What holds over whole runs of the scheduler: request conservation, counter accounting,
membership, the choice of a backend, and where the code does less than one would expect.
*/
module SchedulerProperties {
  import opened SchedulerSpec
  import opened Wrappers

  // ---------- Every reachable state ----------

  ghost function Submitted<B, R>(events: seq<Event<B, R>>): set<R> {
    if events == [] then {}
    else
      var last := events[|events| - 1];
      Submitted(events[..|events| - 1]) + if last.Job? then {last.request} else {}
  }

  lemma InitialHolds<B, R>(cfg: Config)
    ensures Invariant<B, R>(cfg, Initial()) && Held(Initial<B, R>().jobs) == {}
  {
  }

  /** Placement, ranks, counters and separation hold after every run, and nothing is invented or lost. */
  lemma {:induction false} RunKeeps<B, R>(cfg: Config, run: seq<State<B, R>>, events: seq<Event<B, R>>)
    requires IsRun(cfg, run, events)
    ensures Invariant(cfg, run[|events|])
    ensures Held(run[|events|].jobs) == Submitted(events)
    decreases |events|
  {
    hide Invariant, Held, Enabled, Next, Initial;
    var n := |events|;
    if n == 0 {
      InitialHolds<B, R>(cfg);
    } else {
      assert IsRun(cfg, run[..n], events[..n - 1]);
      RunKeeps(cfg, run[..n], events[..n - 1]);
      StepKeeps(cfg, run[n - 1], events[n - 1]);
    }
  }

  ghost predicate Waiting<B, R>(j: Jobs<B, R>, r: R) { r in j.pending }
  ghost predicate Flying<B, R>(j: Jobs<B, R>, r: R) { r in j.flight }
  ghost predicate TurnedAway<B, R>(j: Jobs<B, R>, r: R) { r in j.refused }
  ghost predicate Over<B, R>(j: Jobs<B, R>, r: R) { r in j.completed }

  /** A submitted request is in exactly one of the four places, and once in the pending list; others are nowhere. */
  lemma RequestConservation<B, R>(cfg: Config, run: seq<State<B, R>>, events: seq<Event<B, R>>, r: R)
    requires IsRun(cfg, run, events)
    ensures var j := run[|events|].jobs;
      && (r in Submitted(events) <==> Waiting(j, r) || Flying(j, r) || TurnedAway(j, r) || Over(j, r))
      && !(Waiting(j, r) && (Flying(j, r) || TurnedAway(j, r) || Over(j, r)))
      && !(Flying(j, r) && (TurnedAway(j, r) || Over(j, r))) && !(TurnedAway(j, r) && Over(j, r))
      && Distinct(j.pending)
  {
    hide IsRun, Known, Placed, Ranked, Accounted;
    RunKeeps(cfg, run, events);
  }

  /** The counter of every backend ever created, in the map or not, is the number of requests flying on it. */
  lemma CounterAccounting<B, R>(cfg: Config, run: seq<State<B, R>>, events: seq<Event<B, R>>, b: B)
    requires IsRun(cfg, run, events) && b in run[|events|].reg.address
    ensures b in run[|events|].ongoing
    ensures run[|events|].ongoing[b] == Load(run[|events|].jobs.flight, b)
    ensures 0 <= run[|events|].ongoing[b] <= MAX_FORWARDERS_PER_BACKEND
  {
    hide IsRun, Placed, Ranked, Separate, Held;
    RunKeeps(cfg, run, events);
  }

  // ---------- Membership ----------

  lemma ValuesAdd<B>(m: map<string, B>, a: string, b: B)
    requires a !in m
    ensures m[a := b].Values == m.Values + {b}
  {
    forall c | c in m.Values ensures c in m[a := b].Values {
      var x :| x in m && m[x] == c;
      assert m[a := b][x] == c;
    }
    assert m[a := b][a] == b;
  }

  lemma {:induction false} CreateAllPopulates<B, R>(cfg: Config, s: State<B, R>, order: seq<string>, born: seq<B>)
    requires |order| == |born| && Distinct(order) && s.pool == s.backends.Values
    requires forall a :: a in order ==> a !in s.backends
    ensures var t := CreateAll(cfg, s, order, born);
      && t.pool == t.backends.Values
      && t.backends.Keys == s.backends.Keys + if cfg.tunnels == 0 then (set a | a in order) else {}
    decreases |order|
  {
    if order == [] {
    } else {
      assert order == [order[0]] + order[1..];
      ValuesAdd(s.backends, order[0], born[0]);
      CreateAllPopulates(cfg, Create(cfg, s, order[0], born[0]), order[1..], born[1..]);
    }
  }

  lemma {:induction false} CreateAllSpares<B, R>(cfg: Config, s: State<B, R>, order: seq<string>, born: seq<B>)
    requires |order| == |born| && forall a :: a in order ==> a !in s.backends
    requires Distinct(order)
    ensures var t := CreateAll(cfg, s, order, born);
      && (forall a :: a in s.backends ==> a in t.backends && t.backends[a] == s.backends[a])
      && (forall b :: b in s.ongoing && b !in born ==> b in t.ongoing && t.ongoing[b] == s.ongoing[b])
    decreases |order|
  {
    if order == [] {
    } else {
      assert order == [order[0]] + order[1..] && born == [born[0]] + born[1..];
      CreateAllSpares(cfg, Create(cfg, s, order[0], born[0]), order[1..], born[1..]);
    }
  }

  lemma {:induction false} CreateAllFrame<B, R>(cfg: Config, s: State<B, R>, order: seq<string>, born: seq<B>)
    requires |order| == |born|
    ensures CreateAll(cfg, s, order, born).jobs == s.jobs
    decreases |order|
  {
    if order != [] {
      CreateAllFrame(cfg, Create(cfg, s, order[0], born[0]), order[1..], born[1..]);
    }
  }

  /**
  After a status step with the addresses `up`: without tunnels the map has exactly those
  addresses, with tunnels those of them it had; every backend in the map is in the heap
  and nothing else is; survivors keep their object and their counter; no request moves.
  The order in which the two maps are traversed is the event's, so it holds for any order.
  */
  lemma StatusReconciles<B, R>(cfg: Config, s: State<B, R>, up: set<string>, order: seq<string>, born: seq<B>)
    requires Invariant(cfg, s) && Enabled(cfg, s, Status(up, order, born))
    ensures var t := Next(cfg, s, Status(up, order, born));
      && t.backends.Keys == (if cfg.tunnels == 0 then up else up * s.backends.Keys)
      && t.pool == t.backends.Values
      && (forall a :: a in s.backends && a in up ==>
            && t.backends[a] == s.backends[a]
            && t.backends[a] in s.ongoing && t.backends[a] in t.ongoing
            && t.ongoing[t.backends[a]] == s.ongoing[s.backends[a]])
      && t.jobs == s.jobs
  {
    hide Ranked, Accounted, Separate, Placed, CreateAll;
    var m := Reconcile(s, up);
    PlacedReconcile(s, up);
    CreateAllPopulates(cfg, m, order, born);
    CreateAllSpares(cfg, m, order, born);
    CreateAllFrame(cfg, m, order, born);
    forall a | a in s.backends && a in up ensures s.backends[a] in s.ongoing && s.backends[a] !in born {
      assert s.backends[a] in s.reg.address by { PlacedOne(s.reg.address, s.backends, s.pool, a); }
    }
  }

  lemma PlacedOne<B>(address: map<B, string>, backends: map<string, B>, pool: set<B>, a: string)
    requires Placed(address, backends, pool) && a in backends
    ensures backends[a] in address
  {
  }

  /** A session of a backend that is not in the map puts it there and into the heap. */
  lemma SessionJoins<B, R>(cfg: Config, s: State<B, R>, b: B, picks: seq<Option<B>>)
    requires Invariant(cfg, s) && Enabled(cfg, s, NewTunnel(b, picks)) && s.reg.address[b] !in s.backends
    ensures var t := Next(cfg, s, NewTunnel(b, picks));
      && t.backends == s.backends[s.reg.address[b] := b]
      && t.pool == s.pool + {b}
  {
    hide Ranked, Accounted, Separate, Known, Placed, Held;
    DrainFrame(cfg, AddBackend(s, b), s.jobs.pending, picks);
  }

  /** The address a session names, if the event is one. */
  ghost function SessionOf<B, R>(s: State<B, R>, e: Event<B, R>): set<string> {
    if e.NewTunnel? && e.backend in s.reg.address then {s.reg.address[e.backend]} else {}
  }

  /** The addresses that the sessions among the events `from..n` name. */
  ghost function SessionsIn<B, R>(run: seq<State<B, R>>, events: seq<Event<B, R>>, from: nat, n: nat): set<string>
    requires from <= n <= |run| && n <= |events|
    decreases n
  {
    if n == from then {} else SessionsIn(run, events, from, n - 1) + SessionOf(run[n - 1], events[n - 1])
  }

  lemma {:induction false} SessionsMean<B, R>(run: seq<State<B, R>>, events: seq<Event<B, R>>, from: nat, n: nat, up: set<string>)
    requires from <= n <= |run| && n <= |events|
    ensures SessionsIn(run, events, from, n) <= up <==> forall i :: from <= i < n ==> SessionOf(run[i], events[i]) <= up
    decreases n
  {
    hide SessionOf;
    if n > from {
      SessionsMean(run, events, from, n - 1, up);
    }
  }

  lemma KeysStep<B, R>(cfg: Config, s: State<B, R>, e: Event<B, R>)
    requires Enabled(cfg, s, e) && !e.Status?
    ensures Next(cfg, s, e).backends.Keys == s.backends.Keys + SessionOf(s, e)
    ensures Next(cfg, s, e).reg == s.reg
  {
    hide Least, LegalAll, DispatchAll;
    if e.NewTunnel? && s.reg.address[e.backend] !in s.backends {
      DrainFrame(cfg, AddBackend(s, e.backend), s.jobs.pending, e.picks);
    }
  }

  /** Between two status messages the map only grows, and by exactly the addresses that sessions name. */
  lemma {:induction false} KeysBetweenStatuses<B, R>(cfg: Config, run: seq<State<B, R>>, events: seq<Event<B, R>>, from: nat, n: nat)
    requires IsPath(cfg, run, events) && from <= n <= |events|
    requires forall i :: from <= i < n ==> !events[i].Status?
    ensures run[n].backends.Keys == run[from].backends.Keys + SessionsIn(run, events, from, n)
    decreases n
  {
    hide Enabled, Next, SessionOf;
    if n > from {
      KeysBetweenStatuses(cfg, run, events, from, n - 1);
      KeysStep(cfg, run[n - 1], events[n - 1]);
    }
  }

  /**
  The addresses of the map stay among those last announced if and only if every session that
  arrives before the next announcement names one of them.
  */
  lemma AnnouncedIff<B, R>(cfg: Config, run: seq<State<B, R>>, events: seq<Event<B, R>>)
    requires IsPath(cfg, run, events) && Invariant(cfg, run[0]) && events != [] && events[0].Status?
    requires forall i :: 1 <= i < |events| ==> !events[i].Status?
    ensures run[|events|].backends.Keys <= events[0].up <==>
              forall i :: 1 <= i < |events| ==> SessionOf(run[i], events[i]) <= events[0].up
  {
    hide Invariant, SessionOf, CreateAll, Least, LegalAll;
    var e := events[0];
    StatusReconciles(cfg, run[0], e.up, e.order, e.born);
    KeysBetweenStatuses(cfg, run, events, 1, |events|);
    SessionsMean(run, events, 1, |events|, e.up);
  }

  /**
  A late session: its backend was in the map, a status message without its address removed it, and
  no later message or session named it.  The session puts that backend back into map and heap.
  */
  lemma LateSessionRestores<B, R>(cfg: Config, run: seq<State<B, R>>, events: seq<Event<B, R>>, a: string, b: B, picks: seq<Option<B>>)
    requires IsPath(cfg, run, events) && Invariant(cfg, run[0]) && |events| >= 2
    requires a in run[0].backends && run[0].backends[a] == b && events[0].Status? && a !in events[0].up
    requires forall i :: 1 <= i < |events| - 1 ==> !events[i].Status? && a !in SessionOf(run[i], events[i])
    requires events[|events| - 1] == NewTunnel(b, picks)
    ensures var s, t := run[|events| - 1], run[|events|];
      && a !in s.backends && t.backends == s.backends[a := b] && t.pool == s.pool + {b}
      && (forall i :: 1 <= i < |events| ==> a !in run[i].backends)
  {
    hide Invariant, SessionOf, CreateAll, Least, LegalAll, Enabled, Next;
    var n := |events| - 1;
    var e := events[0];
    StatusReconciles(cfg, run[0], e.up, e.order, e.born);
    forall i | 1 <= i <= n ensures a !in run[i].backends {
      KeysBetweenStatuses(cfg, run, events, 1, i);
      NotAmong(run, events, 1, i, a);
    }
    PathKeeps(cfg, run, events, n);
    AddressStays(cfg, run, events, n, a, b);
    SessionJoins(cfg, run[n], b, picks);
  }

  lemma {:induction false} NotAmong<B, R>(run: seq<State<B, R>>, events: seq<Event<B, R>>, from: nat, n: nat, a: string)
    requires from <= n <= |run| && n <= |events|
    requires forall i :: from <= i < n ==> a !in SessionOf(run[i], events[i])
    ensures a !in SessionsIn(run, events, from, n)
    decreases n
  {
    hide SessionOf;
    if n > from {
      NotAmong(run, events, from, n - 1, a);
    }
  }

  lemma {:induction false} PathKeeps<B, R>(cfg: Config, run: seq<State<B, R>>, events: seq<Event<B, R>>, n: nat)
    requires IsPath(cfg, run, events) && Invariant(cfg, run[0]) && n < |run|
    ensures Invariant(cfg, run[n])
  {
    hide Invariant, Enabled, Next, Held;
    if n > 0 {
      PathKeeps(cfg, run, events, n - 1);
      StepKeeps(cfg, run[n - 1], events[n - 1]);
    }
  }

  /** A backend keeps its address. */
  lemma {:induction false} AddressStays<B, R>(cfg: Config, run: seq<State<B, R>>, events: seq<Event<B, R>>, n: nat, a: string, b: B)
    requires IsPath(cfg, run, events) && Invariant(cfg, run[0]) && n < |run|
    requires a in run[0].backends && run[0].backends[a] == b
    ensures b in run[n].reg.address && run[n].reg.address[b] == a
  {
    hide Known, Ranked, Accounted, Separate, Enabled, Next, Held;
    if n > 0 {
      AddressStays(cfg, run, events, n - 1, a, b);
      RegistryGrows(cfg, run[n - 1], events[n - 1], b);
    }
  }

  lemma RegistryGrows<B, R>(cfg: Config, s: State<B, R>, e: Event<B, R>, b: B)
    requires Enabled(cfg, s, e) && b in s.reg.address
    ensures b in Next(cfg, s, e).reg.address && Next(cfg, s, e).reg.address[b] == s.reg.address[b]
  {
    if e.Status? {
      hide CreateAll;
      CreateAllRegistry(cfg, Reconcile(s, e.up), e.order, e.born, b);
    } else {
      hide Enabled, Next;
      KeysStep(cfg, s, e);
    }
  }

  lemma {:induction false} CreateAllRegistry<B, R>(cfg: Config, s: State<B, R>, order: seq<string>, born: seq<B>, b: B)
    requires |order| == |born| && b in s.reg.address && b !in born
    ensures var t := CreateAll(cfg, s, order, born); b in t.reg.address && t.reg.address[b] == s.reg.address[b]
    decreases |order|
  {
    if order != [] {
      CreateAllRegistry(cfg, Create(cfg, s, order[0], born[0]), order[1..], born[1..], b);
    }
  }

  // ---------- The pending list ----------

  lemma {:induction false} DrainFrame<B, R>(cfg: Config, s: State<B, R>, rs: seq<R>, picks: seq<Option<B>>)
    requires LegalAll(cfg, s, rs, picks) && s.pool != {}
    ensures var t := DispatchAll(cfg, s, rs, picks);
      t.pool == s.pool && t.backends == s.backends && t.reg == s.reg && t.jobs.pending == s.jobs.pending
    decreases |rs|
  {
    if rs != [] {
      DrainFrame(cfg, Dispatch(cfg, s, rs[0], picks[0]), rs[1..], picks[1..]);
    }
  }

  /** Draining handles each pending request exactly once: it flies or is refused, and the list is left empty. */
  lemma DrainHandlesEach<B, R>(cfg: Config, s: State<B, R>, b: B, picks: seq<Option<B>>)
    requires Invariant(cfg, s) && Enabled(cfg, s, NewTunnel(b, picks)) && s.reg.address[b] !in s.backends
    ensures var t := Next(cfg, s, NewTunnel(b, picks));
      && t.jobs.pending == [] && t.jobs.completed == s.jobs.completed
      && t.jobs.flight.Keys + t.jobs.refused == s.jobs.flight.Keys + s.jobs.refused + (set r | r in s.jobs.pending)
      && t.jobs.flight.Keys !! t.jobs.refused
      && (forall r :: r in s.jobs.flight ==> r in t.jobs.flight && t.jobs.flight[r] == s.jobs.flight[r])
      && s.jobs.refused <= t.jobs.refused
  {
    hide Known, Placed, Ranked, Accounted, LegalAll, DispatchAll;
    ArriveKeeps(cfg, s, b, picks);
    DrainGrows(cfg, AddBackend(s, b), s.jobs.pending, picks);
    var t := Next(cfg, s, NewTunnel(b, picks));
    assert Separate(t.jobs) && Held(t.jobs) == Held(s.jobs);
  }

  lemma {:induction false} DrainGrows<B, R>(cfg: Config, s: State<B, R>, rs: seq<R>, picks: seq<Option<B>>)
    requires LegalAll(cfg, s, rs, picks) && s.pool != {} && Distinct(rs)
    requires forall r :: r in rs ==> r !in s.jobs.flight
    ensures var t := DispatchAll(cfg, s, rs, picks);
      && t.jobs.completed == s.jobs.completed && s.jobs.refused <= t.jobs.refused
      && (forall r :: r in s.jobs.flight ==> r in t.jobs.flight && t.jobs.flight[r] == s.jobs.flight[r])
    decreases |rs|
  {
    if rs != [] {
      assert rs == [rs[0]] + rs[1..];
      DrainGrows(cfg, Dispatch(cfg, s, rs[0], picks[0]), rs[1..], picks[1..]);
    }
  }

  /** The step empties a pending list that is not empty. */
  ghost predicate Drains<B, R>(s: State<B, R>, e: Event<B, R>) {
    e.NewTunnel? && e.backend in s.reg.address && s.reg.address[e.backend] !in s.backends && s.jobs.pending != []
  }

  /** For every configuration, what is pending stays pending exactly when the step is not the session of an absent backend. */
  lemma PendingKeptIff<B, R>(cfg: Config, s: State<B, R>, e: Event<B, R>)
    requires Enabled(cfg, s, e)
    ensures s.jobs.pending <= Next(cfg, s, e).jobs.pending <==> !Drains(s, e)
    ensures Drains(s, e) ==> Next(cfg, s, e).jobs.pending == []
  {
    hide CreateAll, Least, DispatchAll, LegalAll;
    if e.Status? {
      CreateAllFrame(cfg, Reconcile(s, e.up), e.order, e.born);
    }
  }

  /** A request that is pending stays pending through a run, behind the same others, if and only if no step of it drains. */
  lemma {:induction false} PendingUntilDrained<B, R>(cfg: Config, run: seq<State<B, R>>, events: seq<Event<B, R>>, n: nat)
    requires IsPath(cfg, run, events) && n <= |events| && run[0].jobs.pending != []
    ensures (forall i :: 0 <= i <= n ==> run[0].jobs.pending <= run[i].jobs.pending) <==>
              forall i :: 0 <= i < n ==> !Drains(run[i], events[i])
  {
    hide Enabled, Next, Drains;
    if n > 0 {
      PendingUntilDrained(cfg, run, events, n - 1);
      PendingKeptIff(cfg, run[n - 1], events[n - 1]);
      var first, before, after := run[0].jobs.pending, run[n - 1].jobs.pending, run[n].jobs.pending;
      if first <= before && before <= after {
        assert after[..|first|] == before[..|first|];
      }
      assert after == [] ==> !(first <= after);
    }
  }

  /** Without tunnels no session ever comes: a pending request stays pending for ever. */
  lemma PendingStaysWithoutTunnels<B, R>(cfg: Config, run: seq<State<B, R>>, events: seq<Event<B, R>>)
    requires IsPath(cfg, run, events) && cfg.tunnels == 0
    ensures run[0].jobs.pending <= run[|events|].jobs.pending
  {
    if run[0].jobs.pending != [] {
      forall i | 0 <= i < |events| ensures !Drains(run[i], events[i]) {
        assert Enabled(cfg, run[i], events[i]);
      }
      hide Enabled, Next, Drains;
      PendingUntilDrained(cfg, run, events, |events|);
    }
  }

  // ---------- How often a backend was chosen ----------

  /** Finishes, among the first `n` events, of a request that was flying on `b`. */
  ghost function FinishesOf<B, R>(run: seq<State<B, R>>, events: seq<Event<B, R>>, n: nat, b: B): nat
    requires n <= |run| && n <= |events|
  {
    if n == 0 then 0 else FinishesOf(run, events, n - 1, b) + if FinishesOn(run[n - 1], events[n - 1], b) then 1 else 0
  }

  ghost predicate FinishesOn<B, R>(s: State<B, R>, e: Event<B, R>, b: B) {
    e.Finish? && s.jobs.done != [] && s.jobs.done[0] in s.jobs.flight && s.jobs.flight[s.jobs.done[0]] == b
  }

  lemma DispatchBalance<B, R>(cfg: Config, s: State<B, R>, r: R, pick: Option<B>, b: B)
    requires Legal(cfg, s, pick) && r !in s.jobs.flight
    ensures var j := Dispatch(cfg, s, r, pick).jobs; j.launched[b] - Load(j.flight, b) == s.jobs.launched[b] - Load(s.jobs.flight, b)
  {
    hide Load, Least;
    if pick.Some? {
      LoadAdd(s.jobs.flight, r, pick.value, b);
    }
  }

  lemma {:induction false} DrainBalance<B, R>(cfg: Config, s: State<B, R>, rs: seq<R>, picks: seq<Option<B>>, b: B)
    requires LegalAll(cfg, s, rs, picks) && Distinct(rs) && forall r :: r in rs ==> r !in s.jobs.flight
    ensures var j := DispatchAll(cfg, s, rs, picks).jobs; j.launched[b] - Load(j.flight, b) == s.jobs.launched[b] - Load(s.jobs.flight, b)
    decreases |rs|
  {
    hide Load, Legal;
    if rs != [] {
      assert rs == [rs[0]] + rs[1..];
      DispatchBalance(cfg, s, rs[0], picks[0], b);
      DrainBalance(cfg, Dispatch(cfg, s, rs[0], picks[0]), rs[1..], picks[1..], b);
    }
  }

  lemma StepBalance<B, R>(cfg: Config, s: State<B, R>, e: Event<B, R>, b: B)
    requires Enabled(cfg, s, e) && Separate(s.jobs)
    ensures var j := Next(cfg, s, e).jobs;
      j.launched[b] - Load(j.flight, b) == s.jobs.launched[b] - Load(s.jobs.flight, b) + if FinishesOn(s, e, b) then 1 else 0
  {
    hide Load, Legal, LegalAll, DispatchAll, CreateAll, Dispatch;
    match e
    case Job(r, pick) => DispatchBalance(cfg, s, r, pick, b);
    case Return(_, _) =>
    case Finish(pick) =>
      LoadRemove(s.jobs.flight, s.jobs.done[0], b);
      if ErrorOf(s.jobs, s.jobs.done[0]).DialError? {
        DispatchBalance(cfg, Released(s), s.jobs.done[0], pick, b);
      }
    case Status(up, order, born) => CreateAllFrame(cfg, Reconcile(s, up), order, born);
    case NewTunnel(c, picks) =>
      if s.reg.address[c] !in s.backends {
        DrainBalance(cfg, AddBackend(s, c), s.jobs.pending, picks, b);
      }
  }

  /** Over every run a backend has been handed as many requests as are flying on it and have come back from it. */
  lemma {:induction false} LaunchAccounting<B, R>(cfg: Config, run: seq<State<B, R>>, events: seq<Event<B, R>>, n: nat, b: B)
    requires IsRun(cfg, run, events) && n <= |events|
    ensures run[n].jobs.launched[b] == Load(run[n].jobs.flight, b) + FinishesOf(run, events, n, b)
    decreases n
  {
    if n == 0 {
      EmptyLoad<B, R>(run[0].jobs.flight, b);
    } else {
      LaunchAccounting(cfg, run, events, n - 1, b);
      hide Load, Enabled, Next, Invariant, Initial, FinishesOn;
      InitialHolds<B, R>(cfg);
      PathKeeps(cfg, run, events, n - 1);
      assert Separate(run[n - 1].jobs) by { SeparateIn(cfg, run[n - 1]); }
      StepBalance(cfg, run[n - 1], events[n - 1], b);
    }
  }

  lemma EmptyLoad<B, R>(flight: map<R, B>, b: B)
    requires flight == map[]
    ensures Load(flight, b) == 0
  {
  }

  lemma SeparateIn<B, R>(cfg: Config, s: State<B, R>)
    requires Invariant(cfg, s)
    ensures Separate(s.jobs)
  {
  }
}

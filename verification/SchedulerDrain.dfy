/**
The order in which a drain serves the pending list.  The heap is a set here and any backend of least
key may be picked, so what holds of all picks holds of those of the real heap.
*/
module SchedulerDrains {
  import opened SchedulerSpec
  import opened SchedulerProperties
  import opened Wrappers

  /** Every backend the heap could offer is at the limit. */
  ghost predicate Full<B, R>(cfg: Config, s: State<B, R>) {
    forall b :: b in s.pool && Least(cfg, s, b) ==> s.ongoing[b] >= MAX_FORWARDERS_PER_BACKEND
  }

  /** The first `k` fly and the others are refused. */
  ghost predicate ServedUpTo<B, R>(rs: seq<R>, j: Jobs<B, R>, k: nat) {
    && k <= |rs|
    && (forall i :: 0 <= i < k ==> rs[i] in j.flight)
    && (forall i :: k <= i < |rs| ==> rs[i] in j.refused)
  }

  ghost predicate InOrder<B, R>(rs: seq<R>, j: Jobs<B, R>) {
    exists k: nat :: ServedUpTo(rs, j, k)
  }

  /**
  Weights are compared, two backends share the least one, `n` requests are enough to fill one of them
  and leave two more, and the other is not full.
  */
  ghost predicate Jumps<B, R>(cfg: Config, s: State<B, R>, n: nat) {
    cfg.leastweight && exists b, c :: b in s.pool && c in s.pool && Jump(cfg, s, n, b, c)
  }

  ghost predicate Jump<B, R>(cfg: Config, s: State<B, R>, n: nat, b: B, c: B) {
    && b != c && Least(cfg, s, b) && Least(cfg, s, c)
    && s.ongoing[b] + n >= MAX_FORWARDERS_PER_BACKEND + 2 && s.ongoing[c] < MAX_FORWARDERS_PER_BACKEND
  }

  /** Backends of the heap are known, and none is over the limit. */
  ghost predicate Within<B, R>(s: State<B, R>) {
    && s.pool != {}
    && forall b :: b in s.pool ==> b in s.reg.weight && b in s.ongoing && s.ongoing[b] <= MAX_FORWARDERS_PER_BACKEND
  }

  /** Requests that have not been dispatched. */
  ghost predicate Waiting<B, R>(rs: seq<R>, j: Jobs<B, R>) {
    Distinct(rs) && forall r :: r in rs ==> r !in j.flight && r !in j.refused
  }

  lemma WaitingTail<B, R>(cfg: Config, s: State<B, R>, rs: seq<R>, pick: Option<B>)
    requires Waiting(rs, s.jobs) && rs != [] && s.pool != {} && Legal(cfg, s, pick)
    ensures Waiting(rs[1..], Dispatch(cfg, s, rs[0], pick).jobs)
  {
    assert rs == [rs[0]] + rs[1..];
  }

  lemma WithinKept<B, R>(cfg: Config, s: State<B, R>, r: R, pick: Option<B>)
    requires Within(s) && Legal(cfg, s, pick)
    ensures Within(Dispatch(cfg, s, r, pick))
  {
  }

  /** A request that is not in the list is left where it is. */
  lemma {:induction false} DrainSparesOthers<B, R>(cfg: Config, s: State<B, R>, rs: seq<R>, picks: seq<Option<B>>, r: R)
    requires LegalAll(cfg, s, rs, picks) && s.pool != {} && r !in rs
    ensures var j := DispatchAll(cfg, s, rs, picks).jobs;
            (r in j.flight <==> r in s.jobs.flight) && (r in j.refused <==> r in s.jobs.refused)
    decreases |rs|
  {
    if rs != [] {
      assert rs == [rs[0]] + rs[1..];
      DrainSparesOthers(cfg, Dispatch(cfg, s, rs[0], picks[0]), rs[1..], picks[1..], r);
    }
  }

  /** Once every backend the heap could offer is full, all is refused. */
  lemma {:induction false} AllRefused<B, R>(cfg: Config, s: State<B, R>, rs: seq<R>, picks: seq<Option<B>>)
    requires LegalAll(cfg, s, rs, picks) && s.pool != {} && Full(cfg, s) && Waiting(rs, s.jobs)
    ensures ServedUpTo(rs, DispatchAll(cfg, s, rs, picks).jobs, 0)
    decreases |rs|
  {
    if rs != [] {
      var t := Dispatch(cfg, s, rs[0], picks[0]);
      FullKept(cfg, s, rs[0], picks[0]);
      WaitingTail(cfg, s, rs, picks[0]);
      hide Full, Least, Dispatch;
      AllRefused(cfg, t, rs[1..], picks[1..]);
      RefusedStay(cfg, t, rs[1..], picks[1..], rs[0]);
      assert rs == [rs[0]] + rs[1..];
    }
  }

  lemma FullKept<B, R>(cfg: Config, s: State<B, R>, r: R, pick: Option<B>)
    requires Full(cfg, s) && s.pool != {} && Legal(cfg, s, pick)
    ensures var t := Dispatch(cfg, s, r, pick); Full(cfg, t) && t.pool != {} && r in t.jobs.refused
  {
    var t := Dispatch(cfg, s, r, pick);
    assert forall b :: Least(cfg, t, b) ==> Least(cfg, s, b);
  }

  lemma {:induction false} RefusedStay<B, R>(cfg: Config, s: State<B, R>, rs: seq<R>, picks: seq<Option<B>>, r: R)
    requires LegalAll(cfg, s, rs, picks) && s.pool != {} && r in s.jobs.refused
    ensures r in DispatchAll(cfg, s, rs, picks).jobs.refused
    decreases |rs|
  {
    if rs != [] {
      RefusedStay(cfg, Dispatch(cfg, s, rs[0], picks[0]), rs[1..], picks[1..], r);
    }
  }

  lemma NoJumpKept<B, R>(cfg: Config, s: State<B, R>, n: nat, r: R, pick: Option<B>)
    requires !Jumps(cfg, s, n + 1) && s.pool != {} && Legal(cfg, s, pick)
    ensures !Jumps(cfg, Dispatch(cfg, s, r, pick), n)
  {
    var t := Dispatch(cfg, s, r, pick);
    if cfg.leastweight {
      forall b, c | b in t.pool && c in t.pool && Jump(cfg, t, n, b, c) ensures Jump(cfg, s, n + 1, b, c) {
      }
    }
  }

  /** Without such a pair a refusal means that the heap has nothing left. */
  lemma RefusalIsLast<B, R>(cfg: Config, s: State<B, R>, n: nat, pick: Option<B>)
    requires !Jumps(cfg, s, n) && n >= 2 && s.pool != {} && Legal(cfg, s, pick)
    requires s.ongoing[pick.value] >= MAX_FORWARDERS_PER_BACKEND
    ensures Full(cfg, s)
  {
    if cfg.leastweight {
      forall c | c in s.pool && Least(cfg, s, c) ensures s.ongoing[c] >= MAX_FORWARDERS_PER_BACKEND {
        assert !Jump(cfg, s, n, pick.value, c);
      }
    }
  }

  /** A drain without such a pair serves in order of arrival: a first part flies and all the rest is refused. */
  lemma {:induction false} DrainIsFirstComeFirstServed<B, R>(cfg: Config, s: State<B, R>, rs: seq<R>, picks: seq<Option<B>>)
    returns (k: nat)
    requires LegalAll(cfg, s, rs, picks) && s.pool != {} && !Jumps(cfg, s, |rs|) && Waiting(rs, s.jobs)
    ensures ServedUpTo(rs, DispatchAll(cfg, s, rs, picks).jobs, k) && (Full(cfg, s) ==> k == 0)
    decreases |rs|
  {
    assert rs != [] ==> picks[0].Some? && picks[0].value in s.ongoing;
    hide Jumps, Full, Least;
    if rs == [] {
      k := 0;
    } else if Full(cfg, s) || (s.ongoing[picks[0].value] >= MAX_FORWARDERS_PER_BACKEND && |rs| >= 2) {
      if !Full(cfg, s) {
        RefusalIsLast(cfg, s, |rs|, picks[0]);
      }
      AllRefused(cfg, s, rs, picks);
      k := 0;
    } else {
      var t := Dispatch(cfg, s, rs[0], picks[0]);
      NoJumpKept(cfg, s, |rs| - 1, rs[0], picks[0]);
      WaitingTail(cfg, s, rs, picks[0]);
      var k1 := DrainIsFirstComeFirstServed(cfg, t, rs[1..], picks[1..]);
      assert rs == [rs[0]] + rs[1..];
      if s.ongoing[picks[0].value] >= MAX_FORWARDERS_PER_BACKEND {
        k := 0;
      } else {
        DrainGrows(cfg, t, rs[1..], picks[1..]);
        k := k1 + 1;
      }
    }
  }

  // ---------- Otherwise ----------

  /** Nothing but `c` from now on. */
  lemma {:induction false} AlwaysLegal<B, R>(cfg: Config, s: State<B, R>, rs: seq<R>, c: B) returns (picks: seq<Option<B>>)
    requires cfg.leastweight && Least(cfg, s, c)
    ensures LegalAll(cfg, s, rs, picks)
    decreases |rs|
  {
    if rs == [] {
      picks := [];
    } else {
      var t := Dispatch(cfg, s, rs[0], Some(c));
      LeastKept(cfg, s, rs[0], Some(c), c);
      hide Least, Dispatch;
      var more := AlwaysLegal(cfg, t, rs[1..], c);
      picks := [Some(c)] + more;
      assert picks[1..] == more;
    }
  }

  lemma LeastKept<B, R>(cfg: Config, s: State<B, R>, r: R, pick: Option<B>, c: B)
    requires cfg.leastweight && Least(cfg, s, c) && Legal(cfg, s, pick)
    ensures Legal(cfg, s, Some(c)) && Least(cfg, Dispatch(cfg, s, r, pick), c)
  {
  }

  /** A request is refused before a later one that flies. */
  ghost predicate Overtaken<R, B>(rs: seq<R>, j: Jobs<B, R>, i: nat, k: nat) {
    i < k < |rs| && rs[i] !in j.flight && rs[k] in j.flight && rs[k] !in j.refused
  }

  lemma OvertakenShifts<B, R>(rs: seq<R>, j: Jobs<B, R>, i: nat, k: nat)
    requires rs != [] && Overtaken(rs[1..], j, i, k)
    ensures Overtaken(rs, j, i + 1, k + 1)
  {
  }

  lemma RefuseThenFly<B, R>(cfg: Config, s: State<B, R>, rs: seq<R>, b: B, c: B) returns (picks: seq<Option<B>>)
    requires cfg.leastweight && |rs| >= 2 && Least(cfg, s, b) && Least(cfg, s, c) && Waiting(rs, s.jobs)
    requires s.ongoing[b] >= MAX_FORWARDERS_PER_BACKEND && s.ongoing[c] < MAX_FORWARDERS_PER_BACKEND
    ensures LegalAll(cfg, s, rs, picks) && Overtaken(rs, DispatchAll(cfg, s, rs, picks).jobs, 0, 1)
  {
    LeastKept(cfg, s, rs[0], Some(b), b);
    LeastKept(cfg, s, rs[0], Some(b), c);
    var t := Dispatch(cfg, s, rs[0], Some(b));
    LeastKept(cfg, t, rs[1], Some(c), c);
    var u := Dispatch(cfg, t, rs[1], Some(c));
    assert u.pool != {} && rs[0] !in u.jobs.flight && rs[1] in u.jobs.flight && rs[1] !in u.jobs.refused;
    hide Least, Dispatch;
    var more := AlwaysLegal(cfg, u, rs[2..], c);
    picks := [Some(b), Some(c)] + more;
    assert picks[1..][1..] == more && rs[1..][1..] == rs[2..];
    assert DispatchAll(cfg, s, rs, picks) == DispatchAll(cfg, u, rs[2..], more);
    DrainSparesOthers(cfg, u, rs[2..], more, rs[0]);
    DrainSparesOthers(cfg, u, rs[2..], more, rs[1]);
  }

  /** `b` is filled, one more request is refused on it, and the next one flies on `c`. */
  lemma {:induction false} JumpRun<B, R>(cfg: Config, s: State<B, R>, rs: seq<R>, b: B, c: B) returns (picks: seq<Option<B>>, i: nat)
    requires cfg.leastweight && Within(s) && Jump(cfg, s, |rs|, b, c) && Waiting(rs, s.jobs)
    ensures LegalAll(cfg, s, rs, picks) && Overtaken(rs, DispatchAll(cfg, s, rs, picks).jobs, i, i + 1)
    decreases |rs|
  {
    assert b in s.ongoing && s.ongoing[b] <= MAX_FORWARDERS_PER_BACKEND;
    hide Least;
    if s.ongoing[b] >= MAX_FORWARDERS_PER_BACKEND {
      picks := RefuseThenFly(cfg, s, rs, b, c);
      i := 0;
    } else {
      var t := Dispatch(cfg, s, rs[0], Some(b));
      LeastKept(cfg, s, rs[0], Some(b), b);
      LeastKept(cfg, s, rs[0], Some(b), c);
      WithinKept(cfg, s, rs[0], Some(b));
      WaitingTail(cfg, s, rs, Some(b));
      assert Jump(cfg, t, |rs| - 1, b, c);
      hide Dispatch, Jump, Within, Waiting;
      var more, m := JumpRun(cfg, t, rs[1..], b, c);
      picks := [Some(b)] + more;
      assert picks[1..] == more;
      OvertakenShifts(rs, DispatchAll(cfg, t, rs[1..], more).jobs, m, m + 1);
      i := m + 1;
    }
  }

  lemma OvertakenIsNotInOrder<B, R>(rs: seq<R>, j: Jobs<B, R>, i: nat, k: nat)
    requires Overtaken(rs, j, i, k)
    ensures !InOrder(rs, j)
  {
    forall n: nat ensures !ServedUpTo(rs, j, n) {
    }
  }

  /** Every drain of `rs` serves in order of arrival, whatever backends of least key the heap offers, exactly without such a pair. */
  lemma DrainOrderIff<B, R>(cfg: Config, s: State<B, R>, rs: seq<R>)
    requires Within(s) && Waiting(rs, s.jobs)
    ensures (forall picks :: LegalAll(cfg, s, rs, picks) ==> InOrder(rs, DispatchAll(cfg, s, rs, picks).jobs))
       <==> !Jumps(cfg, s, |rs|)
  {
    hide LegalAll, DispatchAll, Jump, Waiting, InOrder, ServedUpTo, Overtaken;
    if Jumps(cfg, s, |rs|) {
      var b, c :| b in s.pool && c in s.pool && Jump(cfg, s, |rs|, b, c);
      var picks, i := JumpRun(cfg, s, rs, b, c);
      OvertakenIsNotInOrder(rs, DispatchAll(cfg, s, rs, picks).jobs, i, i + 1);
    } else {
      forall picks | LegalAll(cfg, s, rs, picks) ensures InOrder(rs, DispatchAll(cfg, s, rs, picks).jobs) {
        var k := DrainIsFirstComeFirstServed(cfg, s, rs, picks);
        InOrderBy(rs, DispatchAll(cfg, s, rs, picks).jobs, k);
      }
    }
  }

  lemma InOrderBy<B, R>(rs: seq<R>, j: Jobs<B, R>, k: nat)
    requires ServedUpTo(rs, j, k)
    ensures InOrder(rs, j)
  {
  }

  ghost predicate SomeFlies<R, B>(rs: seq<R>, j: Jobs<B, R>) {
    exists i :: 0 <= i < |rs| && rs[i] in j.flight
  }

  lemma OfferFlies<B, R>(cfg: Config, s: State<B, R>, rs: seq<R>, c: B) returns (picks: seq<Option<B>>)
    requires cfg.leastweight && Least(cfg, s, c) && s.ongoing[c] < MAX_FORWARDERS_PER_BACKEND && rs != [] && Waiting(rs, s.jobs)
    ensures LegalAll(cfg, s, rs, picks) && SomeFlies(rs, DispatchAll(cfg, s, rs, picks).jobs)
  {
    LeastKept(cfg, s, rs[0], Some(c), c);
    var t := Dispatch(cfg, s, rs[0], Some(c));
    assert t.pool != {} && rs[0] in t.jobs.flight;
    hide Least, Dispatch;
    var more := AlwaysLegal(cfg, t, rs[1..], c);
    picks := [Some(c)] + more;
    assert picks[1..] == more;
    DrainSparesOthers(cfg, t, rs[1..], more, rs[0]);
  }

  /** After a refusal a later request can still fly exactly when some backend the heap could offer is not full. */
  lemma LaterFliesIff<B, R>(cfg: Config, s: State<B, R>, r: R, pick: Option<B>, rs: seq<R>)
    requires s.pool != {} && Legal(cfg, s, pick) && s.ongoing[pick.value] >= MAX_FORWARDERS_PER_BACKEND
    requires rs != [] && Waiting(rs, s.jobs) && r !in rs
    ensures var t := Dispatch(cfg, s, r, pick);
            (exists picks :: LegalAll(cfg, t, rs, picks) && SomeFlies(rs, DispatchAll(cfg, t, rs, picks).jobs)) <==> !Full(cfg, s)
  {
    var t := Dispatch(cfg, s, r, pick);
    assert Waiting(rs, t.jobs);
    if Full(cfg, s) {
      FullKept(cfg, s, r, pick);
      forall picks | LegalAll(cfg, t, rs, picks) ensures !SomeFlies(rs, DispatchAll(cfg, t, rs, picks).jobs) {
        NoneFlies(cfg, t, rs, picks);
      }
    } else {
      var c :| c in s.pool && Least(cfg, s, c) && s.ongoing[c] < MAX_FORWARDERS_PER_BACKEND;
      assert cfg.leastweight && Least(cfg, t, c);
      var picks := OfferFlies(cfg, t, rs, c);
    }
  }

  /** With everything full nothing of the list flies. */
  lemma {:induction false} NoneFlies<B, R>(cfg: Config, s: State<B, R>, rs: seq<R>, picks: seq<Option<B>>)
    requires LegalAll(cfg, s, rs, picks) && s.pool != {} && Full(cfg, s) && Waiting(rs, s.jobs)
    ensures DispatchAll(cfg, s, rs, picks).jobs.flight == s.jobs.flight
    ensures !SomeFlies(rs, DispatchAll(cfg, s, rs, picks).jobs)
    decreases |rs|
  {
    if rs != [] {
      var t := Dispatch(cfg, s, rs[0], picks[0]);
      FullKept(cfg, s, rs[0], picks[0]);
      WaitingTail(cfg, s, rs, picks[0]);
      assert t.jobs.flight == s.jobs.flight;
      hide Full, Least, Dispatch;
      NoneFlies(cfg, t, rs[1..], picks[1..]);
    }
  }

  // ---------- The drain of a session ----------

  lemma ArrivalIsWithin<B, R>(cfg: Config, s: State<B, R>, b: B)
    requires Invariant(cfg, s) && b in s.reg.address
    ensures Within(AddBackend(s, b)) && Waiting(s.jobs.pending, s.jobs)
  {
  }

  lemma SessionDrains<B, R>(cfg: Config, s: State<B, R>, b: B, picks: seq<Option<B>>)
    requires cfg.tunnels > 0 && b in s.reg.address && s.reg.address[b] !in s.backends
    ensures Enabled(cfg, s, NewTunnel(b, picks)) <==> LegalAll(cfg, AddBackend(s, b), s.jobs.pending, picks)
    ensures LegalAll(cfg, AddBackend(s, b), s.jobs.pending, picks) ==>
              var j := DispatchAll(cfg, AddBackend(s, b), s.jobs.pending, picks).jobs;
              InOrder(s.jobs.pending, Next(cfg, s, NewTunnel(b, picks)).jobs) <==> InOrder(s.jobs.pending, j)
  {
    hide LegalAll, DispatchAll, InOrder;
    if LegalAll(cfg, AddBackend(s, b), s.jobs.pending, picks) {
      SameOrder(s.jobs.pending, DispatchAll(cfg, AddBackend(s, b), s.jobs.pending, picks).jobs, Next(cfg, s, NewTunnel(b, picks)).jobs);
    }
  }

  /**
  Whatever run led to `s`: the session of an absent backend drains the pending list in order of
  arrival, for every choice the heap has, exactly without such a pair in the heap that it joins.
  */
  lemma SessionOrderIff<B, R>(cfg: Config, s: State<B, R>, b: B)
    requires Invariant(cfg, s) && cfg.tunnels > 0 && b in s.reg.address && s.reg.address[b] !in s.backends
    ensures (forall picks :: Enabled(cfg, s, NewTunnel(b, picks)) ==> InOrder(s.jobs.pending, Next(cfg, s, NewTunnel(b, picks)).jobs))
       <==> !Jumps(cfg, AddBackend(s, b), |s.jobs.pending|)
  {
    ArrivalIsWithin(cfg, s, b);
    var m, rs := AddBackend(s, b), s.jobs.pending;
    hide Invariant, LegalAll, DispatchAll, Jumps, InOrder, Waiting, Within, Enabled, Next, AddBackend;
    DrainOrderIff(cfg, m, rs);
    if Jumps(cfg, m, |rs|) {
      var picks :| LegalAll(cfg, m, rs, picks) && !InOrder(rs, DispatchAll(cfg, m, rs, picks).jobs);
      SessionDrains(cfg, s, b, picks);
    } else {
      forall picks | Enabled(cfg, s, NewTunnel(b, picks)) ensures InOrder(rs, Next(cfg, s, NewTunnel(b, picks)).jobs) {
        SessionDrains(cfg, s, b, picks);
      }
    }
  }

  lemma SameOrder<B, R>(rs: seq<R>, j: Jobs<B, R>, l: Jobs<B, R>)
    requires l.flight == j.flight && l.refused == j.refused
    ensures InOrder(rs, j) <==> InOrder(rs, l)
  {
    forall k: nat ensures ServedUpTo(rs, j, k) <==> ServedUpTo(rs, l, k) {
    }
  }

  /** There is none unless weights are compared and all of them are 0. */
  lemma NeverJumps<B, R>(cfg: Config, s: State<B, R>, n: nat)
    requires Ranked(cfg, s.reg) && s.reg.weight.Keys <= s.reg.birth.Keys && (!cfg.leastweight || !cfg.shuffle)
    ensures !Jumps(cfg, s, n)
  {
  }
}

/**
The native scheduler as the source writes it: an object whose methods update the map of backends,
the heap, the pending list and the counters.  Two ghost fields hold the abstract states of
`SchedulerSpec` and `TunnelRepair`; every method states its effect as a function of them and keeps
the coupling with the real fields.  What a dial, a stream or a clock answers is a parameter.
*/
module Scheduling {
  import opened Backends
  import opened Pools
  import opened HeapOrder
  import opened Wrappers
  import Spec = SchedulerSpec
  import Repair = TunnelRepair
  import Runs = SchedulerProperties

  class Request {
    var backend: Backend?
    var err: Spec.Failure

    constructor ()
      ensures backend == null && err == Spec.NoError
    {
      backend := null;
      err := Spec.NoError;
    }
  }

  datatype Session = Session(backend: Backend, index: nat, conn: nat, addr: nat)

  type Slots = Repair.Net<(Backend, nat), nat>

  /** A change of the slots of `b`, and of the abstract net with it. */
  datatype Rewiring = Rewiring(b: Backend, reg: Spec.Registry<Backend>, ongoing: map<Backend, int>,
                               pooled: set<Backend>, pushed: set<Backend>, before: Slots, after: Slots)

  class Scheduler {
    const cfg: Spec.Config
    const pool: Pool
    var backendSeq: nat
    var backends: map<string, Backend>
    var pending: seq<Request>
    var done: seq<Request>
    var newTunnelChan: seq<Session>
    var spdyFailChan: seq<(Backend, nat)>

    ghost var st: Spec.State<Backend, Request>
    ghost var net: Slots
    ghost var pushed: set<Backend>      // has been in the heap
    ghost var requests: set<Request>

    constructor (cfg: Spec.Config)
      ensures Valid() && this.cfg == cfg && st == Spec.Initial() && requests == {} && fresh(pool)
      ensures net == Repair.Initial() && newTunnelChan == [] && spdyFailChan == []
    {
      this.cfg := cfg;
      pool := new Pool(cfg.leastweight);
      backendSeq, backends, pending, done, newTunnelChan, spdyFailChan := 0, map[], [], [], [], [];
      st, net, pushed, requests := Spec.Initial(), Repair.Initial(), {}, {};
      new;
      hide Valid, Coupled, Spec.Invariant, Repair.Invariant;
      Start();
    }

    ghost predicate Empty()
      reads this, pool
    {
      && backends == map[] && pending == [] && done == [] && backendSeq == 0 && pushed == {} && requests == {}
      && newTunnelChan == [] && spdyFailChan == [] && pool.backends == [] && pool.leastweight == cfg.leastweight
      && st == Spec.Initial() && net == Repair.Initial()
    }

    lemma Start()
      requires Empty()
      ensures Valid()
    {
      Runs.InitialHolds<Backend, Request>(cfg);
      Repair.EmptyNet<(Backend, nat), nat>();
      hide Spec.Invariant, Repair.Invariant;
      assert pool.Members() == {} && pool.Keys() == [];
      EmptyHeap(pool.Keys());
    }

    // ---------- Coupling ----------

    ghost function Known(): set<Backend>
      reads this`st
    {
      st.reg.address.Keys
    }

    /** The fields of the scheduler are those of the abstract state. */
    ghost predicate Mirrors()
      reads this
    {
      && backends == st.backends && pending == st.jobs.pending && done == st.jobs.done
      && backendSeq == st.reg.sequence
    }

    /** The heap is a heap, holds the pooled backends, and fits its slice. */
    ghost predicate Heaped(pooled: set<Backend>)
      reads pool, pooled
    {
      pool.Members() == pooled && pool.Valid() && pool.leastweight == cfg.leastweight
    }

    /** Every backend carries what the tables say of it. */
    ghost predicate Tabled(reg: Spec.Registry<Backend>, ongoing: map<Backend, int>)
      reads reg.address.Keys`ongoing, reg.address.Keys`tunnel
    {
      && ongoing.Keys == reg.address.Keys && reg.weight.Keys == reg.address.Keys
      && forall b :: b in reg.address ==>
           && b.address == reg.address[b] && b.weight == reg.weight[b] && b.ongoing == ongoing[b]
           && b.tunnels == cfg.tunnels && |b.tunnel| == cfg.tunnels
    }

    /** `index` of a backend outside the heap: -1 once it has been there, 0 before. */
    static ghost predicate Marked(known: set<Backend>, pooled: set<Backend>, pushed: set<Backend>)
      reads known`index
    {
      && pooled <= pushed <= known
      && forall b :: b in known && b !in pooled ==> b.index == if b in pushed then -1 else 0
    }

    /** Backends in the map or with requests in flight have been in the heap. */
    static ghost predicate Used(backends: map<string, Backend>, flight: map<Request, Backend>, pushed: set<Backend>)
    {
      (forall a :: a in backends ==> backends[a] in pushed) && (forall r :: r in flight ==> flight[r] in pushed)
    }

    static ghost predicate Requested(jobs: Spec.Jobs<Backend, Request>, requests: set<Request>)
      reads requests
    {
      && Spec.Held(jobs) <= requests && jobs.err.Keys <= requests
      && (forall r :: r in requests ==> r.err == Spec.ErrorOf(jobs, r))
      && (forall r :: r in jobs.flight ==> r in requests && r.backend == jobs.flight[r])
    }

    /** `count` of a backend says how often a request was handed to it. */
    static ghost predicate Counted(known: set<Backend>, launched: multiset<Backend>)
      reads known`count
    {
      (forall b :: b in known ==> b.count == launched[b]) && (forall b :: b in launched ==> b in known)
    }

    /** The slots of the abstract net are those of the backends. */
    ghost predicate Wired(known: set<Backend>, n: Slots)
      reads known`tunnel
    {
      && (forall b, i :: b in known && 0 <= i < cfg.tunnels ==>
            |b.tunnel| == cfg.tunnels && (b, i) in n.slots && n.slots[(b, i)] == b.tunnel[i])
      && (forall k :: k in n.slots ==> k.0 in known && k.1 < cfg.tunnels)
    }

    static ghost function Origins(sessions: seq<Session>): multiset<(Backend, nat)> {
      if sessions == [] then multiset{}
      else multiset{(sessions[0].backend, sessions[0].index)} + Origins(sessions[1..])
    }

    /** The two tunnel channels of the abstract net are the real ones. */
    static ghost predicate Queued(sessions: seq<Session>, reports: seq<(Backend, nat)>, n: Slots) {
      n.ready == Origins(sessions) && n.failed == multiset(reports)
    }

    /** Heap, tables, marks and slots together. */
    ghost predicate Stocked(reg: Spec.Registry<Backend>, ongoing: map<Backend, int>, pooled: set<Backend>,
                            pushed: set<Backend>, n: Slots)
      reads pool, reg.address.Keys
    {
      && pooled <= reg.address.Keys
      && Heaped(pooled) && Tabled(reg, ongoing) && Marked(reg.address.Keys, pooled, pushed) && Wired(reg.address.Keys, n)
    }

    ghost predicate Coupled()
      reads this, pool, Known(), requests
    {
      && |pool.backends| <= MAX_FORWARDERS && Mirrors()
      && Stocked(st.reg, st.ongoing, st.pool, pushed, net)
      && Used(st.backends, st.jobs.flight, pushed) && Requested(st.jobs, requests) && Queued(newTunnelChan, spdyFailChan, net)
      && Counted(Known(), st.jobs.launched)
    }

    // ---------- The heap, with every known backend in view ----------

    /** The heap cannot tell these apart: weights are compared, and are the same. */
    ghost predicate Alike(bs: seq<Backend>) {
      pool.leastweight && forall i, j :: 0 <= i < |bs| && 0 <= j < |bs| ==> bs[i].weight == bs[j].weight
    }

    method Push(b: Backend, ghost reg: Spec.Registry<Backend>, ghost ongoing: map<Backend, int>,
                ghost pooled: set<Backend>, ghost pushed: set<Backend>, ghost n: Slots)
      requires Stocked(reg, ongoing, pooled, pushed, n)
      requires b in reg.address && b !in pooled && |pool.backends| < MAX_FORWARDERS
      modifies pool, reg.address.Keys`index
      ensures Stocked(reg, ongoing, pooled + {b}, pushed + {b}, n)
      ensures |pool.backends| == old(|pool.backends|) + 1
      ensures Alike(old(pool.backends) + [b]) ==> pool.backends == old(pool.backends) + [b]
    {
      LevelIfAlike(b);
      pool.HeapPush(b);
    }

    lemma LevelIfAlike(b: Backend)
      ensures Alike(pool.backends) ==> Level(pool.Keys())
      ensures Alike(pool.backends + [b]) ==> Level(pool.Keys() + [pool.Key(b)])
    {
      var bs := pool.backends + [b];
      if Alike(bs) {
        forall i | 0 <= i < |bs| ensures (pool.Keys() + [pool.Key(b)])[i] == bs[i].weight {
        }
      }
    }

    method Remove(b: Backend, ghost reg: Spec.Registry<Backend>, ghost ongoing: map<Backend, int>,
                  ghost pooled: set<Backend>, ghost pushed: set<Backend>, ghost n: Slots)
      requires Stocked(reg, ongoing, pooled, pushed, n) && b in pushed
      modifies pool, reg.address.Keys`index
      ensures Stocked(reg, ongoing, pooled - {b}, pushed, n)
      ensures |pool.backends| == old(|pool.backends|) - (if b in pooled then 1 else 0)
    {
      if b.index != -1 {
        assert b in pool.Members();
        var c := pool.HeapRemove(b.index);
      }
    }

    method PopLeast(ghost reg: Spec.Registry<Backend>, ghost ongoing: map<Backend, int>,
                    ghost pooled: set<Backend>, ghost pushed: set<Backend>, ghost n: Slots) returns (b: Backend)
      requires Stocked(reg, ongoing, pooled, pushed, n) && |pool.backends| > 0
      modifies pool, reg.address.Keys`index
      ensures b in pooled && b in pushed && Stocked(reg, ongoing, pooled - {b}, pushed, n)
      ensures |pool.backends| == old(|pool.backends|) - 1
      ensures forall c :: c in pooled ==> old(pool.Key(b)) <= old(pool.Key(c))
      ensures Alike(old(pool.backends)) ==> b == old(pool.backends)[0] && pool.backends == Headless(old(pool.backends))
    {
      LevelIfAlike(pool.backends[0]);
      b := pool.HeapPop();
    }

    /** Adds to the counter of a backend that is out of the heap. */
    method Count(b: Backend, delta: int, ghost reg: Spec.Registry<Backend>, ghost ongoing: map<Backend, int>,
                 ghost pooled: set<Backend>, ghost pushed: set<Backend>, ghost n: Slots)
      requires Stocked(reg, ongoing, pooled, pushed, n) && b in reg.address && b !in pooled && b in ongoing
      modifies b`ongoing
      ensures Stocked(reg, ongoing[b := ongoing[b] + delta], pooled, pushed, n)
    {
      hide Marked, Wired;
      b.ongoing := b.ongoing + delta;
      assert pool.Keys() == old(pool.Keys());
    }

    /** Of the known backends only that of `k` has changed, in nothing but its slots. */
    twostate lemma TunnelChanged(k: Rewiring)
      requires old(Stocked(k.reg, k.ongoing, k.pooled, k.pushed, k.before)) && k.b in k.reg.address && unchanged(pool)
      requires |k.b.tunnel| == old(|k.b.tunnel|) && k.after.slots.Keys == k.before.slots.Keys
      requires forall c :: c in k.reg.address ==> c.index == old(c.index) && c.ongoing == old(c.ongoing)
      requires forall c :: c in k.reg.address && c != k.b ==> c.tunnel == old(c.tunnel)
      requires forall x :: x in k.before.slots && x.0 != k.b ==> k.after.slots[x] == k.before.slots[x]
      requires forall i: nat :: i < |k.b.tunnel| && (k.b, i) in k.before.slots ==> k.after.slots[(k.b, i)] == k.b.tunnel[i]
      ensures Stocked(k.reg, k.ongoing, k.pooled, k.pushed, k.after)
    {
      assert pool.Keys() == old(pool.Keys());
      forall c | c in k.reg.address && cfg.tunnels > 0 ensures |c.tunnel| == cfg.tunnels {
        assert (c, 0) in k.before.slots;
      }
    }

    lemma SlotsOfOne(b: Backend, reg: Spec.Registry<Backend>, ongoing: map<Backend, int>, pooled: set<Backend>, pushed: set<Backend>, n: Slots)
      requires Stocked(reg, ongoing, pooled, pushed, n) && b in reg.address
      ensures |b.tunnel| == b.tunnels == cfg.tunnels
      ensures forall i: nat :: i < cfg.tunnels ==> (b, i) in n.slots && n.slots[(b, i)] == b.tunnel[i]
      ensures forall k :: k in n.slots && k.0 == b ==> k.1 < cfg.tunnels
    {
    }

    /**
    The slots of `b` that its check starts a session for: five seconds have passed since the last one,
    the connection is up and not being replaced, and its next stream id is above the threshold.
    */
    static ghost function Due(n: Slots, b: Backend, elapsed: bool, peek: nat -> int): set<(Backend, nat)> {
      set k | k in n.slots && elapsed && k.0 == b && n.slots[k].conn.Some? && !n.slots[k].switching
              && peek(n.slots[k].conn.value) > 0x7fef_ffff
    }

    /** The slots for which the dispatch of a request starts a session: none unless the request is launched. */
    static ghost function DueAt(s: Spec.State<Backend, Request>, n: Slots, pick: Option<Backend>, elapsed: bool, peek: nat -> int)
      : (keys: set<(Backend, nat)>)
      ensures Repair.Enabled(n, Repair.Precreate(keys))
    {
      if pick.Some? && pick.value in s.ongoing && s.ongoing[pick.value] < 4096 then Due(n, pick.value, elapsed, peek) else {}
    }

    static lemma DueIs(b: Backend, slots: seq<Repair.Slot<nat>>, created: set<nat>, checked: set<(Backend, nat)>, n: Slots,
                       elapsed: bool, peek: nat -> int)
      requires forall i: nat :: i < |slots| ==> (b, i) in n.slots && n.slots[(b, i)] == slots[i]
      requires forall k :: k in n.slots && k.0 == b ==> k.1 < |slots|
      requires created == set i: nat | i < |slots| && elapsed && Backend.NearlyUsedUp(slots[i], peek)
      requires checked == set i | i in created :: (b, i)
      ensures checked == Due(n, b, elapsed, peek)
    {
      forall k | k in Due(n, b, elapsed, peek) ensures k in checked {
        assert k == (b, k.1) && k.1 in created;
      }
    }

    static lemma Precreated(b: Backend, created: set<nat>, checked: set<(Backend, nat)>, n: Slots)
      requires forall i :: i in created ==> (b, i) in n.slots && n.slots[(b, i)].conn.Some? && !n.slots[(b, i)].switching
      requires forall k :: k in checked <==> k.0 == b && k.1 in created
      ensures Repair.Enabled(n, Repair.Precreate(checked))
      ensures var m := Repair.Next(n, Repair.Precreate(checked));
              && m.slots.Keys == n.slots.Keys
              && (forall k :: k in n.slots && k.0 != b ==> m.slots[k] == n.slots[k])
              && (forall i: nat :: (b, i) in n.slots ==>
                    m.slots[(b, i)] == if i in created then n.slots[(b, i)].(switching := true) else n.slots[(b, i)])
    {
      forall k | k in checked ensures k in n.slots && n.slots[k].conn.Some? && !n.slots[k].switching {
        assert k == (b, k.1);
      }
    }

    /** `SpdyCheckStreamId` on a backend of the heap: heap, tables and marks do not notice. */
    method Check(b: Backend, elapsed: bool, peek: nat -> int, ghost reg: Spec.Registry<Backend>, ghost ongoing: map<Backend, int>,
                 ghost pooled: set<Backend>, ghost pushed: set<Backend>, ghost n: Slots)
      returns (ghost checked: set<(Backend, nat)>)
      requires Stocked(reg, ongoing, pooled, pushed, n) && b in reg.address
      modifies b`tunnel, b`count
      ensures checked == Due(n, b, elapsed, peek) && b.count == old(b.count) + 1
      ensures Repair.Enabled(n, Repair.Precreate(checked))
      ensures Stocked(reg, ongoing, pooled, pushed, Repair.Next(n, Repair.Precreate(checked)))
    {
      hide Stocked, Repair.Next, Repair.Enabled;
      SlotsOfOne(b, reg, ongoing, pooled, pushed, n);
      ghost var slots := b.tunnel;
      var created := b.SpdyCheckStreamId(elapsed, peek);
      checked := set i | i in created :: (b, i);
      DueIs(b, slots, created, checked, n, elapsed, peek);
      Precreated(b, created, checked, n);
      ghost var m := Repair.Next(n, Repair.Precreate(checked));
      TunnelChanged(Rewiring(b, reg, ongoing, pooled, pushed, n, m));
    }

    lemma Row(b: Backend)
      requires Stocked(st.reg, st.ongoing, st.pool, pushed, net) && b in Known()
      ensures b in st.ongoing && b in st.reg.weight
      ensures b.address == st.reg.address[b] && b.weight == st.reg.weight[b] && b.ongoing == st.ongoing[b]
      ensures b.tunnels == cfg.tunnels && |b.tunnel| == cfg.tunnels
    {
    }

    lemma StockedCount(reg: Spec.Registry<Backend>, ongoing: map<Backend, int>, pooled: set<Backend>, pushed: set<Backend>, n: Slots)
      requires Stocked(reg, ongoing, pooled, pushed, n)
      ensures pool.leastweight == cfg.leastweight && (pooled == {} <==> |pool.backends| == 0)
      ensures pooled <= pushed <= reg.address.Keys && pooled <= reg.address.Keys && ongoing.Keys == reg.address.Keys
    {
      if |pool.backends| > 0 {
        assert pool.backends[0] in pool.Members();
      }
    }

    static lemma UsedAdd(backends: map<string, Backend>, flight: map<Request, Backend>, pushed: set<Backend>, addr: string, b: Backend)
      requires Used(backends, flight, pushed)
      ensures Used(backends[addr := b], flight, pushed + {b})
    {
    }

    method AddBackend(b: Backend)
      requires Coupled() && b in Known() && b !in st.pool && |pool.backends| < MAX_FORWARDERS
      modifies this`backends, this`st, this`pushed, pool, Known()`index
      ensures Coupled() && st == Spec.AddBackend(old(st), b) && pushed == old(pushed) + {b}
    {
      hide Requested, Stocked, Used, Queued, Counted;
      Row(b);
      UsedAdd(st.backends, st.jobs.flight, pushed, b.address, b);
      Push(b, st.reg, st.ongoing, st.pool, pushed, net);
      backends := backends[b.address := b];
      st := Spec.AddBackend(st, b);
      pushed := pushed + {b};
    }

    /** An address that is not up is only logged. */
    method RemoveBackend(addr: string)
      requires Coupled() && Spec.Placed(st.reg.address, st.backends, st.pool)
      modifies this`backends, this`st, pool, Known()`index
      ensures Coupled() && |pool.backends| <= old(|pool.backends|)
      ensures addr in old(backends) ==>
                st == old(st).(backends := old(backends) - {addr}, pool := old(st.pool) - {old(backends)[addr]})
      ensures addr !in old(backends) ==> st == old(st)
    {
      hide Requested, Counted, Stocked;
      if addr in backends {
        var b := backends[addr];
        Row(b);
        Remove(b, st.reg, st.ongoing, st.pool, pushed, net);
        backends := backends - {b.address};
        st := st.(backends := backends, pool := st.pool - {b});
      }
    }

    // ---------- dispatch ----------

    method Bind(req: Request, b: Backend, ghost jobs: Spec.Jobs<Backend, Request>, ghost requests: set<Request>)
      requires Requested(jobs, requests) && req in requests && req !in jobs.flight
      modifies req`backend
      ensures Requested(Spec.Launch(jobs, req, b), requests)
    {
      req.backend := b;
    }

    static lemma PutBack(pooled: set<Backend>, pushed: set<Backend>, b: Backend)
      requires b in pooled && b in pushed
      ensures (pooled - {b}) + {b} == pooled && pushed + {b} == pushed
    {
    }

    /** The dispatch of a request with this pick launches it on `c`. */
    static ghost predicate Takes(s: Spec.State<Backend, Request>, pick: Option<Backend>, c: Backend) {
      pick == Some(c) && c in s.ongoing && s.ongoing[c] < 4096
    }

    /** The popped backend takes the request, goes back into the heap, and has its connections checked. */
    method Launch(req: Request, b: Backend, elapsed: bool, peek: nat -> int) returns (ghost checked: set<(Backend, nat)>)
      requires b in st.pool && b in pushed && b in Known() && b in st.ongoing && |pool.backends| < MAX_FORWARDERS
      requires Stocked(st.reg, st.ongoing, st.pool - {b}, pushed, net)
      requires Requested(st.jobs, requests) && req in requests && req !in st.jobs.flight
      requires Counted(Known(), st.jobs.launched)
      modifies pool, Known(), req`backend
      ensures checked == Due(net, b, elapsed, peek) && Counted(Known(), Spec.Launch(st.jobs, req, b).launched)
      ensures forall c :: c in Known() ==> c.count == old(c.count) + if c == b then 1 else 0
      ensures |pool.backends| == old(|pool.backends|) + 1
      ensures Alike(old(pool.backends) + [b]) ==> pool.backends == old(pool.backends) + [b]
      ensures Repair.Enabled(net, Repair.Precreate(checked))
      ensures Stocked(st.reg, st.ongoing[b := st.ongoing[b] + 1], st.pool, pushed, Repair.Next(net, Repair.Precreate(checked)))
      ensures Requested(Spec.Launch(st.jobs, req, b), requests)
    {
      hide Requested, Stocked, Counted, Due, Repair.Next, Repair.Enabled;
      ghost var more := st.ongoing[b := st.ongoing[b] + 1];
      PutBack(st.pool, pushed, b);
      Bind(req, b, st.jobs, requests);
      Count(b, 1, st.reg, st.ongoing, st.pool - {b}, pushed, net);
      Push(b, st.reg, more, st.pool - {b}, pushed, net);
      checked := Check(b, elapsed, peek, st.reg, more, st.pool, pushed, net);
      OneMore(b);
    }

    twostate lemma OneMore(b: Backend)
      requires old(Counted(Known(), st.jobs.launched)) && st == old(st) && b in Known()
      requires forall c :: c in Known() ==> c.count == old(c.count) + if c == b then 1 else 0
      ensures Counted(Known(), st.jobs.launched + multiset{b})
    {
    }

    /**
    Hands the request to a backend of least key, or parks or refuses it.  When all weights are the
    same and weights are compared, which is what failover does by default, that is the first of the
    heap, and it changes places with the last: two backends take turns.  `elapsed` and `peek` are
    what `SpdyCheckStreamId` reads from the clock and the connections; `checked` names the slots
    for which it starts a session.
    */
    method Dispatch(req: Request, elapsed: bool, peek: nat -> int)
      returns (ghost pick: Option<Backend>, ghost checked: set<(Backend, nat)>)
      requires Coupled() && req in requests && req !in st.jobs.flight
      modifies this`pending, this`st, this`net, pool, Known(), req`backend
      ensures Coupled() && Spec.Legal(cfg, old(st), pick) && st == Spec.Dispatch(cfg, old(st), req, pick)
      ensures checked == DueAt(old(st), old(net), pick, elapsed, peek)
      ensures forall c :: c in old(Known()) ==> c.count == old(c.count) + if Takes(old(st), pick, c) then 1 else 0
      ensures Repair.Enabled(old(net), Repair.Precreate(checked)) && net == Repair.Next(old(net), Repair.Precreate(checked))
      ensures |pool.backends| == old(|pool.backends|)
      ensures Alike(old(pool.backends)) && |pool.backends| > 0 ==>
                pick == Some(old(pool.backends)[0]) && pool.backends == Exchange(old(pool.backends), 0, |pool.backends| - 1)
    {
      hide Requested, Stocked, Repair.Next, Repair.Enabled, Used, Queued, Counted, Spec.Least, Alike, Exchange;
      checked := {};
      NoneTaken(st, net, elapsed, peek);
      NoCheck(net);
      StockedCount(st.reg, st.ongoing, st.pool, pushed, net);
      if |pool.backends| == 0 {
        WaitRequested(st.jobs, req, requests);
        pending := pending + [req];
        pick := None;
        st := Spec.Dispatch(cfg, st, req, pick);
        return;
      }
      pick, checked := Offer(req, elapsed, peek);
    }

    /** The second half: a least backend is popped, and goes back with the request or without it. */
    method Offer(req: Request, elapsed: bool, peek: nat -> int)
      returns (ghost pick: Option<Backend>, ghost checked: set<(Backend, nat)>)
      requires Coupled() && req in requests && req !in st.jobs.flight && |pool.backends| > 0
      modifies this`st, this`net, pool, Known(), req`backend
      ensures Coupled() && Spec.Legal(cfg, old(st), pick) && st == Spec.Dispatch(cfg, old(st), req, pick)
      ensures checked == DueAt(old(st), old(net), pick, elapsed, peek)
      ensures forall c :: c in old(Known()) ==> c.count == old(c.count) + if Takes(old(st), pick, c) then 1 else 0
      ensures Repair.Enabled(old(net), Repair.Precreate(checked)) && net == Repair.Next(old(net), Repair.Precreate(checked))
      ensures |pool.backends| == old(|pool.backends|)
      ensures Alike(old(pool.backends)) ==>
                pick == Some(old(pool.backends)[0]) && pool.backends == Exchange(old(pool.backends), 0, |pool.backends| - 1)
    {
      hide Requested, Stocked, Repair.Next, Repair.Enabled, Used, Queued, Counted, Spec.Least, Alike, Headless, Exchange,
           Spec.Dispatch, Due, DueAt, Takes;
      checked := {};
      NoCheck(net);
      StockedCount(st.reg, st.ongoing, st.pool, pushed, net);
      LeastIsLegal();
      AlikeTurns(pool.backends);
      var b := PopLeast(st.reg, st.ongoing, st.pool, pushed, net);
      pick := Some(b);
      TakesOne(st, net, b, elapsed, peek);
      if b.ongoing >= Spec.MAX_FORWARDERS_PER_BACKEND {
        TurnAway(req, b);
      } else {
        checked := Accept(req, b, elapsed, peek);
      }
    }

    static lemma TakesOne(s: Spec.State<Backend, Request>, n: Slots, b: Backend, elapsed: bool, peek: nat -> int)
      requires b in s.ongoing
      ensures DueAt(s, n, Some(b), elapsed, peek) == if s.ongoing[b] < 4096 then Due(n, b, elapsed, peek) else {}
      ensures forall c :: Takes(s, Some(b), c) <==> c == b && s.ongoing[b] < 4096
    {
    }

    static lemma NoneTaken(s: Spec.State<Backend, Request>, n: Slots, elapsed: bool, peek: nat -> int)
      ensures DueAt(s, n, None, elapsed, peek) == {} && forall c :: !Takes(s, None, c)
    {
    }

    /** A shuffled list, the default of failover, gives every backend weight 0. */
    lemma ShuffledAlike()
      requires Valid() && cfg.leastweight && cfg.shuffle
      ensures Alike(pool.backends)
    {
      hide Requested, Queued, Counted, Used, Wired, Marked, Spec.Accounted, Spec.Separate, Spec.Placed, Repair.Invariant;
      forall i | 0 <= i < |pool.backends| ensures pool.backends[i].weight == 0 {
        assert pool.backends[i] in pool.Members();
      }
    }

    lemma AlikeTurns(bs: seq<Backend>)
      requires bs != []
      ensures Headless(bs) + [bs[0]] == Exchange(bs, 0, |bs| - 1)
      ensures Alike(bs) ==> Alike(Headless(bs) + [bs[0]])
    {
      TurnTwice(bs);
    }

    /** The popped backend is at the limit: it goes back and the request's connection is closed. */
    method TurnAway(req: Request, b: Backend)
      requires |pool.backends| < MAX_FORWARDERS && Mirrors() && Queued(newTunnelChan, spdyFailChan, net)
      requires b in st.pool && b in pushed && b in Known() && b in st.ongoing && st.ongoing[b] >= Spec.MAX_FORWARDERS_PER_BACKEND
      requires Stocked(st.reg, st.ongoing, st.pool - {b}, pushed, net) && Used(st.backends, st.jobs.flight, pushed)
      requires Requested(st.jobs, requests) && req in requests && Spec.Legal(cfg, st, Some(b))
      requires Counted(Known(), st.jobs.launched)
      modifies this`st, pool, Known()`index
      ensures Coupled() && st == Spec.Dispatch(cfg, old(st), req, Some(b))
      ensures |pool.backends| == old(|pool.backends|) + 1
      ensures Alike(old(pool.backends) + [b]) ==> pool.backends == old(pool.backends) + [b]
    {
      hide Requested, Stocked, Used, Queued, Counted, Spec.Least, Alike;
      PutBack(st.pool, pushed, b);
      Push(b, st.reg, st.ongoing, st.pool - {b}, pushed, net);
      RefuseRequested(st.jobs, req, requests);
      st := Spec.Dispatch(cfg, st, req, Some(b));
    }

    /** The popped backend takes the request. */
    method Accept(req: Request, b: Backend, elapsed: bool, peek: nat -> int) returns (ghost checked: set<(Backend, nat)>)
      requires |pool.backends| < MAX_FORWARDERS && Mirrors() && Queued(newTunnelChan, spdyFailChan, net)
      requires b in st.pool && b in pushed && b in Known() && b in st.ongoing && st.ongoing[b] < Spec.MAX_FORWARDERS_PER_BACKEND
      requires Stocked(st.reg, st.ongoing, st.pool - {b}, pushed, net) && Used(st.backends, st.jobs.flight, pushed)
      requires Requested(st.jobs, requests) && req in requests && req !in st.jobs.flight
      requires Spec.Legal(cfg, st, Some(b)) && Counted(Known(), st.jobs.launched)
      modifies this`st, this`net, pool, Known(), req`backend
      ensures Coupled() && st == Spec.Dispatch(cfg, old(st), req, Some(b))
      ensures checked == Due(old(net), b, elapsed, peek)
      ensures forall c :: c in old(Known()) ==> c.count == old(c.count) + if c == b then 1 else 0
      ensures Repair.Enabled(old(net), Repair.Precreate(checked)) && net == Repair.Next(old(net), Repair.Precreate(checked))
      ensures |pool.backends| == old(|pool.backends|) + 1
      ensures Alike(old(pool.backends) + [b]) ==> pool.backends == old(pool.backends) + [b]
    {
      hide Requested, Stocked, Repair.Next, Repair.Enabled, Used, Queued, Counted, Due, Spec.Least, Alike;
      checked := Launch(req, b, elapsed, peek);
      UsedLaunch(st.backends, st.jobs.flight, pushed, req, b);
      QueuedCheck(net, checked);
      net := Repair.Next(net, Repair.Precreate(checked));
      st := Spec.Dispatch(cfg, st, req, Some(b));
    }

    static lemma UsedLaunch(backends: map<string, Backend>, flight: map<Request, Backend>, pushed: set<Backend>, req: Request, b: Backend)
      requires Used(backends, flight, pushed) && b in pushed
      ensures Used(backends, flight[req := b], pushed)
    {
    }

    lemma QueuedCheck(n: Slots, checked: set<(Backend, nat)>)
      requires Queued(newTunnelChan, spdyFailChan, n) && Repair.Enabled(n, Repair.Precreate(checked))
      ensures Queued(newTunnelChan, spdyFailChan, Repair.Next(n, Repair.Precreate(checked)))
    {
    }

    static lemma NoCheck(n: Slots)
      ensures Repair.Enabled(n, Repair.Precreate({})) && Repair.Next(n, Repair.Precreate({})) == n
    {
      assert Repair.Next(n, Repair.Precreate({})).slots == n.slots;
    }

    static lemma WaitRequested(jobs: Spec.Jobs<Backend, Request>, req: Request, requests: set<Request>)
      requires Requested(jobs, requests) && req in requests
      ensures Requested(Spec.Wait(jobs, req), requests)
    {
    }

    static lemma RefuseRequested(jobs: Spec.Jobs<Backend, Request>, req: Request, requests: set<Request>)
      requires Requested(jobs, requests) && req in requests
      ensures Requested(Spec.Refuse(jobs, req), requests)
    {
    }

    /** A backend whose key is least among the real ones is least in the abstract state. */
    lemma LeastIsLegal()
      requires Stocked(st.reg, st.ongoing, st.pool, pushed, net)
      ensures forall b :: b in st.pool && (forall c :: c in st.pool ==> pool.Key(b) <= pool.Key(c)) ==>
                Spec.Legal(cfg, st, Some(b))
      ensures forall b :: b in st.pool ==> b in st.ongoing && b.ongoing == st.ongoing[b]
    {
      forall c | c in st.pool ensures c in st.ongoing && c in st.reg.weight && pool.Key(c) == Spec.Key(cfg, st, c) {
      }
    }

    // ---------- The branches of the event loop ----------

    ghost predicate Valid()
      reads this, pool, Known(), requests
    {
      Coupled() && Spec.Invariant(cfg, st) && Repair.Invariant(net)
    }

    /**
    What every branch keeps, in terms of the real fields: the heap is one under `Less`, the index of
    a backend in it is its position, one outside it is at -1 if the map has it, and a backend in
    the heap is the map's entry for its own address.
    */
    lemma Placement()
      requires Valid()
      ensures forall i :: 0 <= i < |pool.backends| ==>
                var b := pool.backends[i]; b.index == i && b.address in backends && backends[b.address] == b
      ensures forall i, j :: 0 <= i < j < |pool.backends| && (j == 2 * i + 1 || j == 2 * i + 2) ==> !pool.Less(j, i)
      ensures forall a :: a in backends ==>
                backends[a].address == a && (backends[a] !in pool.backends ==> backends[a].index == -1)
      ensures forall b :: b in Known() ==> b.count == st.jobs.launched[b]
    {
      hide Requested, Queued, Wired, Spec.Ranked, Spec.Accounted, Spec.Separate;
      forall i | 0 <= i < |pool.backends|
        ensures var b := pool.backends[i]; b.index == i && b.address in backends && backends[b.address] == b
      {
        assert pool.backends[i] in pool.Members();
      }
      forall i, j | 0 <= i < j < |pool.backends| && (j == 2 * i + 1 || j == 2 * i + 2) ensures !pool.Less(j, i) {
        pool.ChildNotLess(i, j);
      }
      forall a | a in backends
        ensures backends[a].address == a && (backends[a] !in pool.backends ==> backends[a].index == -1)
      {
        assert backends[a] in pushed && backends[a] in Known();
      }
    }

    /** A request that has not been submitted before. */
    ghost predicate New(req: Request)
      reads this`requests, req
    {
      req !in requests && req.err == Spec.NoError
    }

    /** `case j := <-job` */
    method Job(req: Request, elapsed: bool, peek: nat -> int)
      returns (ghost pick: Option<Backend>, ghost checked: set<(Backend, nat)>)
      requires Valid() && New(req)
      modifies this, pool, Known(), req
      ensures Valid() && requests == old(requests) + {req}
      ensures Spec.Enabled(cfg, old(st), Spec.Job(req, pick)) && st == Spec.Next(cfg, old(st), Spec.Job(req, pick))
      ensures Repair.Enabled(old(net), Repair.Precreate(checked)) && net == Repair.Next(old(net), Repair.Precreate(checked))
      ensures checked == DueAt(old(st), old(net), pick, elapsed, peek)
      ensures forall c :: c in old(Known()) ==> c.count == old(c.count) + if Takes(old(st), pick, c) then 1 else 0
    {
      hide Stocked, Used, Queued, Counted, DueAt, Takes, Repair.Enabled, Repair.Next, Repair.Invariant, Spec.Invariant;
      SubmitRequested(st.jobs, requests, req);
      SeparateIn(cfg, st);
      requests := requests + {req};
      hide Requested;
      pick, checked := Dispatch(req, elapsed, peek);
      Spec.StepKeeps(cfg, old(st), Spec.Job(req, pick));
      Repair.StepKeeps(old(net), Repair.Precreate(checked));
    }

    static lemma SubmitRequested(jobs: Spec.Jobs<Backend, Request>, requests: set<Request>, req: Request)
      requires Requested(jobs, requests) && req !in requests && req.err == Spec.NoError
      ensures Requested(jobs, requests + {req}) && req !in Spec.Held(jobs) && req !in jobs.err && req !in jobs.flight
    {
    }

    static lemma SeparateIn(cfg: Spec.Config, s: Spec.State<Backend, Request>)
      requires Spec.Invariant(cfg, s)
      ensures Spec.Separate(s.jobs) && Spec.Placed(s.reg.address, s.backends, s.pool)
      ensures forall r :: r in s.jobs.done ==> r in s.jobs.flight
    {
      hide Spec.Ranked, Spec.Accounted, Spec.Placed, Spec.Known;
    }

    /**
    The goroutine `run` comes back.  With a connection, an error of either copy overwrites the
    request's error with nil; without one the dial error is kept; otherwise nothing is written.
    */
    method Return(req: Request, outcome: Spec.Outcome)
      requires Valid() && req in st.jobs.flight && req !in st.jobs.done && outcome != Spec.NoConnection(Spec.NoError)
      modifies this`done, this`st, req`err
      ensures Valid()
      ensures Spec.Enabled(cfg, old(st), Spec.Return(req, outcome)) && st == Spec.Next(cfg, old(st), Spec.Return(req, outcome))
    {
      hide Stocked, Used, Queued, Counted, Requested, Repair.Invariant, Spec.Invariant;
      Note(req, outcome, st.jobs, requests);
      done := done + [req];
      st := Spec.Next(cfg, st, Spec.Return(req, outcome));
      Spec.StepKeeps(cfg, old(st), Spec.Return(req, outcome));
    }

    method Note(req: Request, outcome: Spec.Outcome, ghost jobs: Spec.Jobs<Backend, Request>, ghost requests: set<Request>)
      requires Requested(jobs, requests) && req in jobs.flight && req !in jobs.done
      modifies req`err
      ensures Requested(Spec.Returned(jobs, req, outcome), requests)
    {
      match outcome {
        case NoConnection(failure) =>
          req.err := failure;
        case Served(copyError) =>
          if copyError {
            req.err := Spec.NoError;
          }
      }
    }

    /** The heap side of `finish`: the counter goes down, and after an error the backend stays out. */
    method Lower(b: Backend, failed: bool, ghost reg: Spec.Registry<Backend>, ghost ongoing: map<Backend, int>,
                 ghost pooled: set<Backend>, ghost pushed: set<Backend>, ghost n: Slots)
      requires Stocked(reg, ongoing, pooled, pushed, n) && b in pushed && b in reg.address && b in ongoing
      requires |pool.backends| <= MAX_FORWARDERS
      modifies pool, reg.address.Keys`index, b`ongoing
      ensures Stocked(reg, ongoing[b := ongoing[b] - 1], if failed then pooled - {b} else pooled, pushed, n)
      ensures |pool.backends| <= old(|pool.backends|)
    {
      hide Stocked;
      ghost var less := ongoing[b := ongoing[b] - 1];
      OutOfHeap(b, reg, ongoing, pooled, pushed, n);
      var outside := b.index == -1;
      Remove(b, reg, ongoing, pooled, pushed, n);
      Count(b, -1, reg, ongoing, pooled - {b}, pushed, n);
      if failed || outside {
        assert outside ==> pooled - {b} == pooled;
      } else {
        assert (pooled - {b}) + {b} == pooled && pushed + {b} == pushed;
        Push(b, reg, less, pooled - {b}, pushed, n);
      }
    }

    lemma OutOfHeap(b: Backend, reg: Spec.Registry<Backend>, ongoing: map<Backend, int>, pooled: set<Backend>, pushed: set<Backend>, n: Slots)
      requires Stocked(reg, ongoing, pooled, pushed, n) && b in pushed && b in reg.address
      ensures b.index == -1 <==> b !in pooled
    {
    }

    static lemma ReleaseRequested(jobs: Spec.Jobs<Backend, Request>, requests: set<Request>)
      requires Requested(jobs, requests) && jobs.done != [] && jobs.done[0] in jobs.flight && Spec.Separate(jobs)
      ensures var r := jobs.done[0];
        && r in requests && r.backend == jobs.flight[r] && r.err == Spec.ErrorOf(jobs, r)
        && Requested(Spec.Release(jobs, r), requests)
        && Requested(Spec.Complete(Spec.Release(jobs, r), r), requests)
        && r !in Spec.Release(jobs, r).flight
    {
      Spec.ReleaseKeeps(jobs, jobs.done[0]);
      Spec.CompleteKeeps(Spec.Release(jobs, jobs.done[0]), jobs.done[0]);
    }

    /** First half of `finish`: the request leaves the done channel and its backend's counter goes down. */
    method Release() returns (req: Request)
      requires Valid() && done != []
      modifies this`done, this`st, pool, Known()
      ensures Coupled() && old(st.jobs.done) != [] && req == old(st.jobs.done[0]) && req in requests
      ensures req in old(st.jobs.flight) && old(st.jobs.flight)[req] in old(st.ongoing)
      ensures st == Spec.Released(old(st)) && st.reg == old(st.reg)
      ensures req !in st.jobs.flight && req.err == Spec.ErrorOf(old(st.jobs), req)
      ensures forall c :: c in Known() ==> c.count == old(c.count)
      ensures Requested(Spec.Complete(st.jobs, req), requests)
    {
      hide Stocked, Requested, Used, Queued, Counted, Spec.Invariant, Spec.Separate, Spec.Placed, Spec.ErrorOf, Repair.Invariant,
           Spec.Complete;
      SeparateIn(cfg, st);
      ReleaseRequested(st.jobs, requests);
      StockedCount(st.reg, st.ongoing, st.pool, pushed, net);
      UsedRelease(st.backends, st.jobs.flight, pushed, st.jobs.done[0]);
      req := done[0];
      done := done[1..];
      Lower(req.backend, req.err != Spec.NoError, st.reg, st.ongoing, st.pool, pushed, net);
      st := Spec.Released(st);
    }

    static lemma UsedRelease(backends: map<string, Backend>, flight: map<Request, Backend>, pushed: set<Backend>, req: Request)
      requires Used(backends, flight, pushed) && req in flight
      ensures flight[req] in pushed && Used(backends, flight - {req}, pushed)
    {
    }

    /** The request that comes back is dispatched once more. */
    static ghost predicate Retries(s: Spec.State<Backend, Request>) {
      s.jobs.done != [] && Spec.ErrorOf(s.jobs, s.jobs.done[0]).DialError?
    }

    /** `case back := <-s.done` */
    method Finish(elapsed: bool, peek: nat -> int)
      returns (ghost pick: Option<Backend>, ghost checked: set<(Backend, nat)>)
      requires Valid() && done != []
      modifies this, pool, Known(), requests
      ensures Valid() && requests == old(requests)
      ensures Spec.Enabled(cfg, old(st), Spec.Finish(pick)) && st == Spec.Next(cfg, old(st), Spec.Finish(pick))
      ensures Repair.Enabled(old(net), Repair.Precreate(checked)) && net == Repair.Next(old(net), Repair.Precreate(checked))
      ensures checked == if Retries(old(st)) then DueAt(Spec.Released(old(st)), old(net), pick, elapsed, peek) else {}
      ensures forall c :: c in old(Known()) ==>
                c.count == old(c.count) + if Retries(old(st)) && Takes(Spec.Released(old(st)), pick, c) then 1 else 0
    {
      hide DueAt, Takes, Coupled, Spec.Invariant, Repair.Enabled, Repair.Next, Repair.Invariant, Spec.Least,
           Spec.Enabled, Spec.Next, Spec.Released, Spec.Dispatch, Spec.Legal, Requested;
      pick, checked := None, {};
      NoCheck(net);
      var req := Release();
      if req.err == Spec.DialError {
        pick, checked := Dispatch(req, elapsed, peek);
      } else {
        Conclude(req);
      }
      Repair.StepKeeps(old(net), Repair.Precreate(checked));
      FinishIs(cfg, old(st), pick);
      Spec.StepKeeps(cfg, old(st), Spec.Finish(pick));
    }

    /** No retry: the request is over. */
    method Conclude(req: Request)
      requires Coupled() && Requested(Spec.Complete(st.jobs, req), requests)
      modifies this`st
      ensures Coupled() && st == old(st).(jobs := Spec.Complete(old(st.jobs), req))
    {
      hide Stocked, Requested, Used, Queued, Counted;
      st := st.(jobs := Spec.Complete(st.jobs, req));
    }

    static lemma FinishIs(cfg: Spec.Config, s: Spec.State<Backend, Request>, pick: Option<Backend>)
      requires s.jobs.done != [] && s.jobs.done[0] in s.jobs.flight && s.jobs.flight[s.jobs.done[0]] in s.ongoing
      requires Spec.ErrorOf(s.jobs, s.jobs.done[0]).DialError? ==> Spec.Legal(cfg, Spec.Released(s), pick)
      ensures Spec.Enabled(cfg, s, Spec.Finish(pick))
      ensures var r, m := s.jobs.done[0], Spec.Released(s);
        Spec.Next(cfg, s, Spec.Finish(pick)) ==
          if Spec.ErrorOf(s.jobs, r).DialError? then Spec.Dispatch(cfg, m, r, pick)
          else m.(jobs := Spec.Complete(m.jobs, r))
    {
    }

    // ---------- The branches that touch a slot ----------

    method Mark(b: Backend, i: nat, ghost reg: Spec.Registry<Backend>, ghost ongoing: map<Backend, int>,
                ghost pooled: set<Backend>, ghost pushed: set<Backend>, ghost n: Slots, ghost m: Slots)
      requires Stocked(reg, ongoing, pooled, pushed, n) && b in reg.address && i < |b.tunnel| == cfg.tunnels
      requires m.slots == n.slots[(b, i) := b.tunnel[i].(switching := true)]
      modifies b`tunnel
      ensures Stocked(reg, ongoing, pooled, pushed, m)
    {
      hide Stocked;
      SlotsOfOne(b, reg, ongoing, pooled, pushed, n);
      b.tunnel := b.tunnel[i := b.tunnel[i].(switching := true)];
      TunnelChanged(Rewiring(b, reg, ongoing, pooled, pushed, n, m));
    }

    method Install(b: Backend, i: nat, conn: nat, addr: nat, ghost reg: Spec.Registry<Backend>, ghost ongoing: map<Backend, int>,
                   ghost pooled: set<Backend>, ghost pushed: set<Backend>, ghost n: Slots, ghost m: Slots)
      returns (closed: Option<nat>)
      requires Stocked(reg, ongoing, pooled, pushed, n) && b in reg.address && i < |b.tunnel| == cfg.tunnels
      requires m.slots == n.slots[(b, i) := Repair.Slot(Some(conn), false)]
      modifies b`tunnel, b`tcpAddr
      ensures Stocked(reg, ongoing, pooled, pushed, m) && closed == old(b.tunnel)[i].conn && b.tcpAddr == old(b.tcpAddr)[i := addr]
    {
      hide Stocked;
      SlotsOfOne(b, reg, ongoing, pooled, pushed, n);
      closed := b.SwitchSpdyConn(i, conn, addr);
      TunnelChanged(Rewiring(b, reg, ongoing, pooled, pushed, n, m));
    }

    /** A slot of the abstract net is a slot of a known backend. */
    lemma SlotOf(k: (Backend, nat), reg: Spec.Registry<Backend>, ongoing: map<Backend, int>, pooled: set<Backend>, pushed: set<Backend>, n: Slots)
      requires Stocked(reg, ongoing, pooled, pushed, n) && k in n.slots
      ensures k.0 in reg.address && k.1 < |k.0.tunnel| == cfg.tunnels && n.slots[k] == k.0.tunnel[k.1]
      ensures k.0.address == reg.address[k.0]
    {
    }

    lemma SlotIn(b: Backend, i: nat, reg: Spec.Registry<Backend>, ongoing: map<Backend, int>, pooled: set<Backend>, pushed: set<Backend>, n: Slots)
      requires Stocked(reg, ongoing, pooled, pushed, n) && b in reg.address && i < cfg.tunnels
      ensures i < |b.tunnel| && (b, i) in n.slots && n.slots[(b, i)] == b.tunnel[i]
    {
    }

    lemma SameSlots(reg: Spec.Registry<Backend>, ongoing: map<Backend, int>, pooled: set<Backend>, pushed: set<Backend>, n: Slots, m: Slots)
      requires Stocked(reg, ongoing, pooled, pushed, n) && m.slots == n.slots
      ensures Stocked(reg, ongoing, pooled, pushed, m)
    {
    }

    /** `case session := <-s.spdyFailChan` */
    method Fail()
      requires Valid() && spdyFailChan != []
      modifies this`spdyFailChan, this`net, Known()`tunnel
      ensures Valid() && st == old(st)
      ensures var k := old(spdyFailChan)[0];
        Repair.Enabled(old(net), Repair.FailReceived(k)) && net == Repair.Next(old(net), Repair.FailReceived(k))
    {
      hide Requested, Used, Stocked, Queued, Counted, Spec.Invariant, Repair.Invariant, Repair.Enabled, Repair.Next;
      var session := spdyFailChan[0];
      var backend, index := session.0, session.1;
      QueuedHas(newTunnelChan, spdyFailChan, net);
      FailIs(net, session);
      SlotOf(session, st.reg, st.ongoing, st.pool, pushed, net);
      ghost var m := Repair.Next(net, Repair.FailReceived(session));
      Repair.StepKeeps(net, Repair.FailReceived(session));
      if !backend.tunnel[index].switching {
        Mark(backend, index, st.reg, st.ongoing, st.pool, pushed, net, m);
      } else {
        SameSlots(st.reg, st.ongoing, st.pool, pushed, net, m);
      }
      QueuedFail(newTunnelChan, spdyFailChan, net, m);
      spdyFailChan := spdyFailChan[1..];
      net := m;
    }

    static lemma QueuedHas(sessions: seq<Session>, reports: seq<(Backend, nat)>, n: Slots)
      requires Queued(sessions, reports, n)
      ensures reports != [] ==> reports[0] in n.failed
      ensures sessions != [] ==> (sessions[0].backend, sessions[0].index) in n.ready
    {
    }

    static lemma QueuedFail(sessions: seq<Session>, reports: seq<(Backend, nat)>, n: Slots, m: Slots)
      requires Queued(sessions, reports, n) && reports != []
      requires m.ready == n.ready && m.failed == n.failed - multiset{reports[0]}
      ensures Queued(sessions, reports[1..], m)
    {
      assert reports == [reports[0]] + reports[1..];
    }

    static lemma FailIs(n: Slots, k: (Backend, nat))
      requires Repair.Invariant(n) && k in n.failed
      ensures k in n.slots && Repair.Enabled(n, Repair.FailReceived(k))
      ensures var m := Repair.Next(n, Repair.FailReceived(k));
        && m.slots == (if n.slots[k].switching then n.slots else n.slots[k := n.slots[k].(switching := true)])
        && m.ready == n.ready && m.failed == n.failed - multiset{k}
    {
      hide Repair.Sound, Repair.Within;
      Repair.WithinHas(n.failed, n.slots, k);
    }

    // ---------- A session arrives ----------

    static lemma {:induction false} DistinctCount(bs: seq<Backend>)
      requires forall i, j :: 0 <= i < j < |bs| ==> bs[i] != bs[j]
      ensures |set b | b in bs| == |bs|
    {
      if bs != [] {
        var front, last := bs[..|bs| - 1], bs[|bs| - 1];
        DistinctCount(front);
        assert (set b | b in bs) == (set b | b in front) + {last};
      }
    }

    static lemma {:induction false} ValuesCount(m: map<string, Backend>)
      ensures |m.Values| <= |m|
    {
      if m == map[] {
        assert m.Values == {};
      } else {
        var a :| a in m;
        var rest := m - {a};
        ValuesCount(rest);
        forall v | v in m.Values ensures v in rest.Values + {m[a]} {
          var x :| x in m && m[x] == v;
          assert x != a ==> rest[x] == v;
        }
        SubsetCount(m.Values, rest.Values + {m[a]});
      }
    }

    static lemma SubsetCount<T>(s: set<T>, t: set<T>)
      requires s <= t
      ensures |s| <= |t|
    {
      assert t == s + (t - s);
    }

    /** The heap holds at most the backends of the map, and fewer when one of them is missing. */
    lemma Room(missing: set<Backend>)
      requires Stocked(st.reg, st.ongoing, st.pool, pushed, net) && Spec.Placed(st.reg.address, st.backends, st.pool)
      requires missing <= st.backends.Values && missing !! st.pool
      ensures |pool.backends| + |missing| <= |st.backends|
    {
      hide Tabled, Marked, Wired;
      forall i, j | 0 <= i < j < |pool.backends| ensures pool.backends[i] != pool.backends[j] {
        assert pool.backends[i].index != pool.backends[j].index;
      }
      DistinctCount(pool.backends);
      ValuesCount(st.backends);
      SubsetCount(st.pool + missing, st.backends.Values);
    }

    /** The session leaves its channel and its connection goes into its slot, where it replaces `closed`. */
    method Connect() returns (session: Session, closed: Option<nat>)
      requires Valid() && newTunnelChan != []
      modifies this`newTunnelChan, this`net, Known()`tunnel, Known()`tcpAddr
      ensures Valid() && st == old(st) && pushed == old(pushed) && requests == old(requests)
      ensures |pool.backends| == old(|pool.backends|)
      ensures session == old(newTunnelChan)[0] && session.backend in Known()
      ensures session.backend.address == st.reg.address[session.backend] && cfg.tunnels > 0
      ensures Repair.Path(old(net), [Repair.Switch((session.backend, session.index), session.conn)], net)
      ensures Repair.Enabled(old(net), Repair.Switch((session.backend, session.index), session.conn))
      ensures net == Repair.Next(old(net), Repair.Switch((session.backend, session.index), session.conn))
      ensures (session.backend, session.index) in old(net).slots && closed == old(net).slots[(session.backend, session.index)].conn
    {
      hide Requested, Used, Stocked, Queued, Counted, Spec.Invariant, Repair.Invariant, Repair.Enabled, Repair.Next;
      session := newTunnelChan[0];
      ghost var k := (session.backend, session.index);
      QueuedHas(newTunnelChan, spdyFailChan, net);
      SwitchIs(net, k, session.conn);
      SlotOf(k, st.reg, st.ongoing, st.pool, pushed, net);
      ghost var m := Repair.Next(net, Repair.Switch(k, session.conn));
      Repair.StepKeeps(net, Repair.Switch(k, session.conn));
      closed := Install(session.backend, session.index, session.conn, session.addr, st.reg, st.ongoing, st.pool, pushed, net, m);
      QueuedSwitch(newTunnelChan, spdyFailChan, net, m);
      newTunnelChan := newTunnelChan[1..];
      net := m;
    }

    static lemma SwitchIs(n: Slots, k: (Backend, nat), conn: nat)
      requires Repair.Invariant(n) && k in n.ready
      ensures k in n.slots && Repair.Enabled(n, Repair.Switch(k, conn))
      ensures var m := Repair.Next(n, Repair.Switch(k, conn));
        && m.slots == n.slots[k := Repair.Slot(Some(conn), false)]
        && m.ready == n.ready - multiset{k} && m.failed == n.failed
        && Repair.Path(n, [Repair.Switch(k, conn)], m)
    {
      hide Repair.Sound, Repair.Within;
      Repair.WithinHas(n.ready, n.slots, k);
      assert Repair.Path(Repair.Next(n, Repair.Switch(k, conn)), [], Repair.Next(n, Repair.Switch(k, conn)));
    }

    static lemma QueuedSwitch(sessions: seq<Session>, reports: seq<(Backend, nat)>, n: Slots, m: Slots)
      requires Queued(sessions, reports, n) && sessions != []
      requires m.ready == n.ready - multiset{(sessions[0].backend, sessions[0].index)} && m.failed == n.failed
      ensures Queued(sessions[1..], reports, m)
    {
    }

    /** The session creations that a drain starts, one dispatch after the other; `from` is the round of the first. */
    ghost function Checks(s: Spec.State<Backend, Request>, n: Slots, rs: seq<Request>, picks: seq<Option<Backend>>,
                          elapsed: nat -> bool, from: nat, peek: nat -> int): seq<Repair.Step<(Backend, nat), nat>>
      requires Spec.LegalAll(cfg, s, rs, picks)
      decreases |rs|
    {
      if rs == [] then []
      else
        var e := Repair.Precreate(DueAt(s, n, picks[0], elapsed(from), peek));
        [e] + Checks(Spec.Dispatch(cfg, s, rs[0], picks[0]), Repair.Next(n, e), rs[1..], picks[1..], elapsed, from + 1, peek)
    }

    lemma {:induction false} ChecksExtend(s: Spec.State<Backend, Request>, n: Slots, m: Slots, rs: seq<Request>, picks: seq<Option<Backend>>,
                                          elapsed: nat -> bool, from: nat, peek: nat -> int, r: Request, pick: Option<Backend>)
      requires Spec.LegalAll(cfg, s, rs, picks) && Spec.Legal(cfg, Spec.DispatchAll(cfg, s, rs, picks), pick)
      requires Spec.LegalAll(cfg, s, rs + [r], picks + [pick])
      requires Repair.Path(n, Checks(s, n, rs, picks, elapsed, from, peek), m)
      ensures Checks(s, n, rs + [r], picks + [pick], elapsed, from, peek)
           == Checks(s, n, rs, picks, elapsed, from, peek)
              + [Repair.Precreate(DueAt(Spec.DispatchAll(cfg, s, rs, picks), m, pick, elapsed(from + |rs|), peek))]
      decreases |rs|
    {
      hide DueAt, Spec.Legal, Spec.Dispatch, Repair.Next, Repair.Enabled;
      var rs', picks' := rs + [r], picks + [pick];
      if rs == [] {
        assert rs'[1..] == [] && picks'[1..] == [];
      } else {
        assert rs'[1..] == rs[1..] + [r] && picks'[1..] == picks[1..] + [pick];
        var e := Repair.Precreate(DueAt(s, n, picks[0], elapsed(from), peek));
        var t, o := Spec.Dispatch(cfg, s, rs[0], picks[0]), Repair.Next(n, e);
        var more := Checks(t, o, rs[1..], picks[1..], elapsed, from + 1, peek);
        assert ([e] + more)[1..] == more;
        ChecksExtend(t, o, m, rs[1..], picks[1..], elapsed, from + 1, peek, r, pick);
      }
    }

    /** Dispatches the pending requests in order and empties the list. */
    method Drain(elapsed: nat -> bool, peek: nat -> int)
      returns (ghost picks: seq<Option<Backend>>, ghost steps: seq<Repair.Step<(Backend, nat), nat>>)
      requires Coupled() && st.pool != {} && Spec.Separate(st.jobs)
      modifies this`pending, this`st, this`net, pool, Known(), requests
      ensures Coupled() && Spec.LegalAll(cfg, old(st), old(st.jobs.pending), picks)
      ensures st == Spec.WithPending(Spec.DispatchAll(cfg, old(st), old(st.jobs.pending), picks), [])
      ensures Repair.Path(old(net), steps, net)
      ensures steps == Checks(old(st), old(net), old(st.jobs.pending), picks, elapsed, 0, peek)
    {
      hide Stocked, Used, Queued, Counted, Requested, Spec.Legal, Spec.Dispatch, Spec.LegalAll, Spec.DispatchAll,
           Repair.Path, Repair.Enabled, Repair.Next, Checks, DueAt, Takes;
      ghost var s0, known := st, Known();
      picks, steps := [], [];
      var ps := pending;
      PendingRequested(st.jobs, requests);
      DrainStart(s0, net);
      ChecksStart(s0, net, elapsed, peek);
      assert ps[..0] == [];
      for k := 0 to |ps|
        invariant Coupled() && st.reg == s0.reg && st.jobs.pending == ps
        invariant Spec.LegalAll(cfg, s0, ps[..k], picks) && st == Spec.DispatchAll(cfg, s0, ps[..k], picks)
        invariant forall i :: k <= i < |ps| ==> ps[i] !in st.jobs.flight
        invariant Repair.Path(old(net), steps, net)
        invariant steps == Checks(s0, old(net), ps[..k], picks, elapsed, 0, peek)
      {
        label before:
        ghost var pick, checked;
        pick, checked := Dispatch(ps[k], elapsed(k), peek);
        Spec.DispatchAllExtends(cfg, s0, ps[..k], picks, ps[k], pick);
        Repair.PathExtends(old(net), steps, old@before(net), Repair.Precreate(checked));
        ChecksExtend(s0, old(net), old@before(net), ps[..k], picks, elapsed, 0, peek, ps[k], pick);
        assert ps[..k + 1] == ps[..k] + [ps[k]];
        picks, steps := picks + [pick], steps + [Repair.Precreate(checked)];
        Runs.DrainFrame(cfg, s0, ps[..k + 1], picks);
        DispatchFlight(old@before(st), ps[k], pick);
      }
      assert ps[..|ps|] == ps;
      EmptyPending(st.jobs, requests);
      pending := [];
      st := Spec.WithPending(st, []);
    }

    lemma ChecksStart(s: Spec.State<Backend, Request>, n: Slots, elapsed: nat -> bool, peek: nat -> int)
      requires Spec.LegalAll(cfg, s, [], [])
      ensures Checks(s, n, [], [], elapsed, 0, peek) == []
    {
    }

    lemma DrainStart(s: Spec.State<Backend, Request>, n: Slots)
      ensures Spec.LegalAll(cfg, s, [], []) && Spec.DispatchAll(cfg, s, [], []) == s
      ensures Repair.Path(n, [], n)
    {
    }

    lemma DispatchFlight(s: Spec.State<Backend, Request>, r: Request, pick: Option<Backend>)
      requires Spec.Legal(cfg, s, pick)
      ensures Spec.Dispatch(cfg, s, r, pick).jobs.flight.Keys <= s.jobs.flight.Keys + {r}
    {
    }

    static lemma PendingRequested(jobs: Spec.Jobs<Backend, Request>, requests: set<Request>)
      requires Requested(jobs, requests) && Spec.Separate(jobs)
      ensures forall r :: r in jobs.pending ==> r in requests && r !in jobs.flight
      ensures Spec.Distinct(jobs.pending)
    {
    }

    static lemma EmptyPending(jobs: Spec.Jobs<Backend, Request>, requests: set<Request>)
      requires Requested(jobs, requests)
      ensures Requested(jobs.(pending := []), requests)
    {
    }

    /**
    `case session := <-s.newTunnelChan`.  The capacity of the heap's slice is the only demand on
    the number of backends; the source panics beyond it.
    */
    method NewTunnel(elapsed: nat -> bool, peek: nat -> int)
      returns (session: Session, closed: Option<nat>, ghost picks: seq<Option<Backend>>, ghost steps: seq<Repair.Step<(Backend, nat), nat>>)
      requires Valid() && newTunnelChan != [] && |backends| < MAX_FORWARDERS
      modifies this, pool, Known(), requests
      ensures Valid() && session == old(newTunnelChan)[0] && requests == old(requests)
      ensures Spec.Enabled(cfg, old(st), Spec.NewTunnel(session.backend, picks))
      ensures st == Spec.Next(cfg, old(st), Spec.NewTunnel(session.backend, picks))
      ensures Repair.Path(old(net), [Repair.Switch((session.backend, session.index), session.conn)] + steps, net)
      ensures Repair.Enabled(old(net), Repair.Switch((session.backend, session.index), session.conn))
      ensures steps == ChecksOf(old(st), Repair.Next(old(net), Repair.Switch((session.backend, session.index), session.conn)),
                                session.backend, picks, elapsed, peek)
      ensures (session.backend, session.index) in old(net).slots && closed == old(net).slots[(session.backend, session.index)].conn
    {
      hide Coupled, ChecksOf, Spec.Invariant, Spec.Enabled, Spec.Next, Repair.Path, Repair.Enabled, Repair.Next, Repair.Invariant;
      session, closed := Connect();
      ghost var first := [Repair.Switch((session.backend, session.index), session.conn)];
      ghost var net1 := net;
      picks, steps := Admit(session.backend, elapsed, peek);
      Repair.PathAppends(old(net), first, net1, steps, net);
      Repair.PathKeeps(net1, steps, net);
      Spec.StepKeeps(cfg, old(st), Spec.NewTunnel(session.backend, picks));
    }

    /** Those of a session of `b`, which drains only when `b` is not in the map. */
    ghost function ChecksOf(s: Spec.State<Backend, Request>, n: Slots, b: Backend, picks: seq<Option<Backend>>,
                            elapsed: nat -> bool, peek: nat -> int): seq<Repair.Step<(Backend, nat), nat>>
      requires Spec.Enabled(cfg, s, Spec.NewTunnel(b, picks))
    {
      if s.reg.address[b] in s.backends then []
      else Checks(Spec.AddBackend(s, b), n, s.jobs.pending, picks, elapsed, 0, peek)
    }

    /** Second half of the branch: a backend that is not in the map joins, and the pending list is drained. */
    method Admit(b: Backend, elapsed: nat -> bool, peek: nat -> int)
      returns (ghost picks: seq<Option<Backend>>, ghost steps: seq<Repair.Step<(Backend, nat), nat>>)
      requires Valid() && b in Known() && b.address == st.reg.address[b] && cfg.tunnels > 0 && |backends| < MAX_FORWARDERS
      modifies this`backends, this`pending, this`st, this`net, this`pushed, pool, Known(), requests
      ensures Coupled()
      ensures Spec.Enabled(cfg, old(st), Spec.NewTunnel(b, picks)) && st == Spec.Next(cfg, old(st), Spec.NewTunnel(b, picks))
      ensures Repair.Path(old(net), steps, net)
      ensures steps == ChecksOf(old(st), old(net), b, picks, elapsed, peek)
    {
      hide Checks, Stocked, Used, Queued, Counted, Requested, Spec.LegalAll, Spec.DispatchAll, Spec.Invariant, Spec.Separate, Spec.Placed,
           Spec.Enabled, Spec.Next, Repair.Path, Repair.Enabled, Repair.Next, Repair.Invariant;
      picks, steps := [], [];
      ghost var s := st;
      if b.address !in backends {
        SeparateIn(cfg, st);
        Room({});
        NotPooled(b);
        AddBackend(b);
        DrainStart(st, net);
        StockedCount(st.reg, st.ongoing, st.pool, pushed, net);
        if |pending| > 0 && |pool.backends| > 0 {
          picks, steps := Drain(elapsed, peek);
        } else {
          assert Spec.WithPending(st, []) == st;
          ChecksStart(st, net, elapsed, peek);
        }
        JoinIs(cfg, s, b, picks);
      } else {
        DrainStart(st, net);
        StayIs(cfg, s, b);
      }
    }

    static lemma JoinIs(cfg: Spec.Config, s: Spec.State<Backend, Request>, b: Backend, picks: seq<Option<Backend>>)
      requires cfg.tunnels > 0 && b in s.reg.address && s.reg.address[b] !in s.backends
      requires Spec.LegalAll(cfg, Spec.AddBackend(s, b), s.jobs.pending, picks)
      ensures Spec.Enabled(cfg, s, Spec.NewTunnel(b, picks))
      ensures Spec.Next(cfg, s, Spec.NewTunnel(b, picks))
           == Spec.WithPending(Spec.DispatchAll(cfg, Spec.AddBackend(s, b), s.jobs.pending, picks), [])
    {
    }

    static lemma StayIs(cfg: Spec.Config, s: Spec.State<Backend, Request>, b: Backend)
      requires cfg.tunnels > 0 && b in s.reg.address && s.reg.address[b] in s.backends
      ensures Spec.Enabled(cfg, s, Spec.NewTunnel(b, [])) && Spec.Next(cfg, s, Spec.NewTunnel(b, [])) == s
    {
    }

    lemma NotPooled(b: Backend)
      requires Spec.Placed(st.reg.address, st.backends, st.pool) && b in st.reg.address && st.reg.address[b] !in st.backends
      ensures b !in st.pool
    {
    }

    // ---------- A status message ----------

    /** "bring back": a backend of the map that an error took out of the heap returns to it. */
    method BringBack(b: Backend)
      requires Coupled() && Spec.Placed(st.reg.address, st.backends, st.pool)
      requires b in st.backends.Values && |backends| <= MAX_FORWARDERS
      modifies this`st, pool, Known()`index
      ensures Coupled() && st == old(st).(pool := old(st.pool) + {b})
    {
      hide Stocked, Requested, Queued, Counted, Spec.Placed;
      OutOfHeap(b, st.reg, st.ongoing, st.pool, pushed, net) by {
        StockedCount(st.reg, st.ongoing, st.pool, pushed, net);
      }
      StockedCount(st.reg, st.ongoing, st.pool, pushed, net);
      assert pushed + {b} == pushed;
      if b.index == -1 {
        Room({b});
        Push(b, st.reg, st.ongoing, st.pool, pushed, net);
      } else {
        assert st.pool + {b} == st.pool;
      }
      st := st.(pool := st.pool + {b});
    }

    /** One round of the first loop. */
    method Visit(addr: string, listed: bool, ghost s0: Spec.State<Backend, Request>, ghost up: set<string>, ghost seen: set<string>)
      requires Coupled() && st == Spec.ReconcileSome(s0, up, seen) && Spec.Placed(s0.reg.address, s0.backends, s0.pool)
      requires addr in s0.backends && addr !in seen && (listed <==> addr in up) && |backends| <= MAX_FORWARDERS
      modifies this`backends, this`st, pool, Known()`index
      ensures Coupled() && st == Spec.ReconcileSome(s0, up, seen + {addr}) && |backends| <= MAX_FORWARDERS
      ensures st.reg == old(st.reg)
    {
      hide Coupled, Spec.Placed, Spec.ReconcileSome;
      MirrorsIn();
      Spec.ReconcileVisits(s0, up, seen, addr);
      if !listed {
        RemoveBackend(addr);
        MirrorsIn();
        SubsetCount(backends.Keys, old(backends).Keys);
      } else {
        BringBack(backends[addr]);
        MirrorsIn();
      }
    }

    /** The first loop, in whatever order the map yields its addresses; `remaining` are the new ones. */
    method Sweep(up: set<string>) returns (remaining: set<string>)
      requires Coupled() && Spec.Placed(st.reg.address, st.backends, st.pool) && |backends| <= MAX_FORWARDERS
      modifies this`backends, this`st, pool, Known()`index
      ensures Coupled() && st == Spec.Reconcile(old(st), up) && remaining == up - old(st.backends).Keys
    {
      hide Coupled, Spec.Placed, Spec.ReconcileSome, Spec.Reconcile;
      remaining := up;
      ghost var s0, all := st, st.backends.Keys;
      Spec.ReconcileEnds(s0, up);
      MirrorsIn();
      var todo := backends.Keys;
      assert all - todo == {};
      while todo != {}
        invariant Coupled() && st == Spec.ReconcileSome(s0, up, all - todo) && st.reg == s0.reg && |backends| <= MAX_FORWARDERS
        invariant todo <= all && remaining == up - (all - todo)
        decreases todo
      {
        var addr :| addr in todo;
        Visit(addr, addr in remaining, s0, up, all - todo);
        assert all - (todo - {addr}) == all - todo + {addr};
        todo, remaining := todo - {addr}, remaining - {addr};
      }
      assert all - todo == all;
    }

    lemma MirrorsIn()
      requires Coupled()
      ensures backends == st.backends
    {
    }

    method NextBackendSequence() returns (sequence: nat)
      modifies this`backendSeq
      ensures sequence == backendSeq == old(backendSeq) + 1
    {
      backendSeq := backendSeq + 1;
      sequence := backendSeq;
    }

    /** The addresses in some order; the order `sort.Strings` or `utils.Shuffle` gives them is left open. */
    method Listing(addresses: set<string>) returns (order: seq<string>)
      ensures Spec.Distinct(order) && |order| == |addresses| && forall a :: a in order <==> a in addresses
    {
      order := [];
      var todo := addresses;
      while todo != {}
        invariant Spec.Distinct(order) && (forall a :: a in order <==> a in addresses && a !in todo) && todo <= addresses
        invariant |order| + |todo| == |addresses|
        decreases todo
      {
        var a :| a in todo;
        todo := todo - {a};
        order := order + [a];
      }
    }

    static ghost function SlotsOf(b: Backend, tunnels: nat): set<(Backend, nat)> {
      set i: nat | i < tunnels :: (b, i)
    }

    /** What the constructor of a backend sets. */
    ghost predicate Newborn(b: Backend, addr: string, reg: Spec.Registry<Backend>)
      reads b
    {
      && b.address == addr && b.index == 0 && b.ongoing == 0 && b.count == 0 && b.tunnels == cfg.tunnels
      && b.weight == (if cfg.shuffle then 0 else reg.sequence + 1)
      && b.tunnel == seq(cfg.tunnels, i => Repair.Slot(None, false))
    }

    lemma EnrolledWired(b: Backend, addr: string, reg: Spec.Registry<Backend>, n: Slots)
      requires Wired(reg.address.Keys, n) && b !in reg.address && Newborn(b, addr, reg)
      ensures Repair.Enabled(n, Repair.NewSlots(SlotsOf(b, cfg.tunnels)))
      ensures Wired(reg.address.Keys + {b}, Repair.Next(n, Repair.NewSlots(SlotsOf(b, cfg.tunnels))))
    {
      var keys, known := SlotsOf(b, cfg.tunnels), reg.address.Keys;
      NewSlotsEnabled(b, known, n);
      assert b.tunnel == seq(cfg.tunnels, _ => Repair.Slot(None, false));
      hide Repair.Next, Repair.Enabled, SlotsOf, Newborn;
      var m := Repair.Next(n, Repair.NewSlots(keys));
      forall c | c in known + {b} && cfg.tunnels > 0 ensures |c.tunnel| == cfg.tunnels {
        WiredOne(c, 0, b, known, n);
      }
      forall c, i | c in known + {b} && 0 <= i < cfg.tunnels
        ensures |c.tunnel| == cfg.tunnels && (c, i) in m.slots && m.slots[(c, i)] == c.tunnel[i]
      {
        WiredOne(c, i, b, known, n);
      }
      forall k | k in m.slots ensures k.0 in known + {b} && k.1 < cfg.tunnels {
        WiredBack(k, b, known, n);
      }
    }

    lemma NewSlotsEnabled(b: Backend, known: set<Backend>, n: Slots)
      requires Wired(known, n) && b !in known
      ensures Repair.Enabled(n, Repair.NewSlots(SlotsOf(b, cfg.tunnels)))
    {
    }

    lemma WiredOne(c: Backend, i: nat, b: Backend, known: set<Backend>, n: Slots)
      requires Wired(known, n) && b !in known && c in known + {b} && i < cfg.tunnels
      requires Repair.Enabled(n, Repair.NewSlots(SlotsOf(b, cfg.tunnels)))
      requires b.tunnel == seq(cfg.tunnels, _ => Repair.Slot(None, false))
      ensures var m := Repair.Next(n, Repair.NewSlots(SlotsOf(b, cfg.tunnels)));
              |c.tunnel| == cfg.tunnels && (c, i) in m.slots && m.slots[(c, i)] == c.tunnel[i]
    {
      if c == b {
        assert b.tunnel[i] == Repair.Slot(None, false) && (b, i) in SlotsOf(b, cfg.tunnels);
      } else {
        assert (c, i) in n.slots && (c, i) !in SlotsOf(b, cfg.tunnels);
      }
    }

    lemma WiredBack(k: (Backend, nat), b: Backend, known: set<Backend>, n: Slots)
      requires Wired(known, n) && Repair.Enabled(n, Repair.NewSlots(SlotsOf(b, cfg.tunnels)))
      requires k in Repair.Next(n, Repair.NewSlots(SlotsOf(b, cfg.tunnels))).slots
      ensures k.0 in known + {b} && k.1 < cfg.tunnels
    {
    }

    lemma EnrolledTabled(b: Backend, addr: string, reg: Spec.Registry<Backend>, ongoing: map<Backend, int>)
      requires Tabled(reg, ongoing) && b !in reg.address && Newborn(b, addr, reg)
      ensures Tabled(Spec.Enrol(cfg, reg, addr, b), ongoing[b := 0])
      ensures Spec.Enrol(cfg, reg, addr, b).address.Keys == reg.address.Keys + {b}
    {
    }

    /** A backend that was not known enters tables, marks and slots. */
    lemma Enrolled(b: Backend, addr: string, reg: Spec.Registry<Backend>, ongoing: map<Backend, int>,
                   pooled: set<Backend>, pushed: set<Backend>, n: Slots)
      requires Stocked(reg, ongoing, pooled, pushed, n) && b !in reg.address && Newborn(b, addr, reg)
      ensures Repair.Enabled(n, Repair.NewSlots(SlotsOf(b, cfg.tunnels)))
      ensures Stocked(Spec.Enrol(cfg, reg, addr, b), ongoing[b := 0], pooled, pushed,
                      Repair.Next(n, Repair.NewSlots(SlotsOf(b, cfg.tunnels))))
    {
      hide Heaped, Wired, Tabled, Repair.Next, Repair.Enabled, Spec.Enrol;
      EnrolledWired(b, addr, reg, n);
      EnrolledTabled(b, addr, reg, ongoing);
    }

    method Make(addr: string, ghost reg: Spec.Registry<Backend>) returns (b: Backend)
      requires backendSeq == reg.sequence
      modifies this`backendSeq
      ensures fresh(b) && Newborn(b, addr, reg) && backendSeq == Spec.Enrol(cfg, reg, addr, b).sequence
    {
      var weight := 0;
      if !cfg.shuffle {
        weight := NextBackendSequence();
      }
      b := new Backend(addr, cfg.tunnels, weight);
    }

    lemma CountedNew(b: Backend, addr: string, reg: Spec.Registry<Backend>, launched: multiset<Backend>)
      requires Newborn(b, addr, reg) && Counted(reg.address.Keys, launched) && b !in reg.address
      ensures Counted(reg.address.Keys + {b}, launched)
    {
    }

    lemma EnrolKeys(reg: Spec.Registry<Backend>, addr: string, b: Backend)
      ensures Spec.Enrol(cfg, reg, addr, b).address == reg.address[b := addr]
      ensures Spec.Enrol(cfg, reg, addr, b).address.Keys == reg.address.Keys + {b}
    {
    }

    /** A new backend enters the tables, with a session creator for every slot. */
    method Build(addr: string) returns (b: Backend)
      requires Coupled()
      modifies this`backendSeq, this`st, this`net
      ensures Coupled() && fresh(b) && b !in old(Known()) && Known() == old(Known()) + {b}
      ensures st == old(st).(reg := Spec.Enrol(cfg, old(st.reg), addr, b), ongoing := old(st.ongoing)[b := 0])
      ensures Repair.Enabled(old(net), Repair.NewSlots(SlotsOf(b, cfg.tunnels)))
      ensures net == Repair.Next(old(net), Repair.NewSlots(SlotsOf(b, cfg.tunnels)))
    {
      hide Stocked, Requested, Queued, Used, Counted, SlotsOf, Newborn, Repair.Enabled, Repair.Next, Spec.Enrol;
      b := Make(addr, st.reg);
      CountedNew(b, addr, st.reg, st.jobs.launched);
      EnrolKeys(st.reg, addr, b);
      Enrolled(b, addr, st.reg, st.ongoing, st.pool, pushed, net);
      QueuedNew(newTunnelChan, spdyFailChan, net, SlotsOf(b, cfg.tunnels));
      net := Repair.Next(net, Repair.NewSlots(SlotsOf(b, cfg.tunnels)));
      st := st.(reg := Spec.Enrol(cfg, st.reg, addr, b), ongoing := st.ongoing[b := 0]);
    }

    /** Without tunnels the new backend joins at once. */
    method Create(addr: string) returns (b: Backend)
      requires Coupled() && Spec.Placed(st.reg.address, st.backends, st.pool)
      requires addr !in st.backends && |backends| < MAX_FORWARDERS
      modifies this`backends, this`backendSeq, this`st, this`net, this`pushed, pool, Known()`index
      ensures Coupled() && fresh(b) && Known() == old(Known()) + {b}
      ensures b !in old(Known()) && st == Spec.Create(cfg, old(st), addr, b)
      ensures Repair.Enabled(old(net), Repair.NewSlots(SlotsOf(b, cfg.tunnels)))
      ensures net == Repair.Next(old(net), Repair.NewSlots(SlotsOf(b, cfg.tunnels)))
    {
      hide Coupled, Spec.Placed, SlotsOf, Repair.Enabled, Repair.Next;
      CoupledRoom();
      b := Build(addr);
      if cfg.tunnels == 0 {
        AddBackend(b);
      }
    }

    lemma CoupledRoom()
      requires Coupled() && Spec.Placed(st.reg.address, st.backends, st.pool)
      ensures |pool.backends| <= |backends| && st.pool <= Known()
    {
      Room({});
    }

    static lemma QueuedNew(sessions: seq<Session>, reports: seq<(Backend, nat)>, n: Slots, keys: set<(Backend, nat)>)
      requires Queued(sessions, reports, n) && Repair.Enabled(n, Repair.NewSlots(keys))
      ensures Queued(sessions, reports, Repair.Next(n, Repair.NewSlots(keys)))
    {
    }

    /** The addresses from position `k` on are distinct and not in the map. */
    ghost predicate Absent(addrs: seq<string>, k: nat)
      reads this`backends
    {
      k <= |addrs| && Spec.Distinct(addrs) && forall i :: k <= i < |addrs| ==> addrs[i] !in backends
    }

    /** One round of the second loop, which has created `born` so far. */
    method PopulateOne(addrs: seq<string>, k: nat, ghost s0: Spec.State<Backend, Request>, ghost born: seq<Backend>,
                       ghost n: Slots, ghost steps: seq<Repair.Step<(Backend, nat), nat>>) returns (b: Backend)
      requires Coupled() && Spec.Invariant(cfg, st) && Absent(addrs, k) && |born| == k < |addrs|
      requires st == Spec.CreateAll(cfg, s0, addrs[..k], born) && (forall b :: b in born ==> b in Known()) && Spec.Distinct(born)
      requires |backends| < MAX_FORWARDERS && Repair.Path(n, steps, net)
      modifies this`backends, this`backendSeq, this`st, this`net, this`pushed, pool, Known()`index
      ensures Coupled() && Spec.Invariant(cfg, st) && st == Spec.CreateAll(cfg, s0, addrs[..k + 1], born + [b])
      ensures fresh(b) && b !in old(Known()) && Known() == old(Known()) + {b}
      ensures Spec.Distinct(born + [b]) && Absent(addrs, k + 1) && |backends| <= old(|backends|) + 1
      ensures Repair.Path(n, steps + [Repair.NewSlots(SlotsOf(b, cfg.tunnels))], net)
    {
      hide Coupled, Spec.Invariant, Spec.CreateAll, Spec.Create, Spec.Placed, SlotsOf, Repair.Path, Repair.Enabled, Repair.Next;
      ghost var s1, net1, before := st, net, backends;
      var addr := addrs[k];
      assert addr !in backends && Spec.Distinct(addrs) && forall i :: k <= i < |addrs| ==> addrs[i] !in before;
      hide Absent, Spec.Distinct;
      MirrorsIn();
      SeparateIn(cfg, st);
      b := Create(addr);
      MirrorsIn();
      CreateGrows(s1, addr, b);
      Spec.CreateKeeps(cfg, s1, addr, b);
      CreateOneMore(addrs, k, s0, born, b);
      AbsentNext(addrs, k, before);
      DistinctNext(born, b);
      Repair.PathExtends(n, steps, net1, Repair.NewSlots(SlotsOf(b, cfg.tunnels)));
    }

    lemma AbsentNext(addrs: seq<string>, k: nat, before: map<string, Backend>)
      requires k < |addrs| && Spec.Distinct(addrs) && backends.Keys <= before.Keys + {addrs[k]}
      requires forall i :: k <= i < |addrs| ==> addrs[i] !in before
      ensures Absent(addrs, k + 1)
    {
    }

    lemma CreateOneMore(addrs: seq<string>, k: nat, s: Spec.State<Backend, Request>, born: seq<Backend>, b: Backend)
      requires k < |addrs| && |born| == k
      ensures Spec.CreateAll(cfg, s, addrs[..k + 1], born + [b]) == Spec.Create(cfg, Spec.CreateAll(cfg, s, addrs[..k], born), addrs[k], b)
    {
      hide Spec.CreateAll, Spec.Create;
      assert addrs[..k + 1] == addrs[..k] + [addrs[k]];
      Spec.CreateAllExtends(cfg, s, addrs[..k], born, addrs[k], b);
    }

    static lemma DistinctNext(born: seq<Backend>, b: Backend)
      requires Spec.Distinct(born) && b !in born
      ensures Spec.Distinct(born + [b])
    {
    }

    /** The second loop, over the addresses in the order chosen. */
    method PopulateAll(addrs: seq<string>)
      returns (ghost born: seq<Backend>, ghost steps: seq<Repair.Step<(Backend, nat), nat>>)
      requires Coupled() && Spec.Invariant(cfg, st) && Absent(addrs, 0)
      requires |backends| + |addrs| <= MAX_FORWARDERS
      modifies this`backends, this`backendSeq, this`st, this`net, this`pushed, pool, Known()`index
      ensures Coupled() && fresh(Known() - old(Known()))
      ensures |addrs| == |born| && Spec.Distinct(born) && (forall b :: b in born ==> b !in old(Known()))
      ensures st == Spec.CreateAll(cfg, old(st), addrs, born)
      ensures Repair.Path(old(net), steps, net)
    {
      hide Coupled, Spec.Invariant, Spec.CreateAll, SlotsOf, Repair.Path, Spec.Distinct, Absent;
      ghost var s0, known := st, Known();
      born, steps := [], [];
      PopulateStart(s0, net);
      assert addrs[..0] == [];
      for k := 0 to |addrs|
        invariant Coupled() && Spec.Invariant(cfg, st)
        invariant known <= Known() && fresh(Known() - known)
        invariant |born| == k && Spec.Distinct(born) && (forall b :: b in born ==> b in Known() - known)
        invariant st == Spec.CreateAll(cfg, s0, addrs[..k], born)
        invariant Absent(addrs, k)
        invariant |backends| + |addrs| - k <= MAX_FORWARDERS
        invariant Repair.Path(old(net), steps, net)
      {
        var b := PopulateOne(addrs, k, s0, born, old(net), steps);
        born, steps := born + [b], steps + [Repair.NewSlots(SlotsOf(b, cfg.tunnels))];
      }
      assert addrs[..|addrs|] == addrs;
    }

    /** One new backend for every new address. */
    method Populate(remaining: set<string>)
      returns (ghost order: seq<string>, ghost born: seq<Backend>, ghost steps: seq<Repair.Step<(Backend, nat), nat>>)
      requires Coupled() && Spec.Invariant(cfg, st) && remaining !! backends.Keys
      requires |backends| + |remaining| <= MAX_FORWARDERS
      modifies this`backends, this`backendSeq, this`st, this`net, this`pushed, pool, Known()`index
      ensures Coupled() && fresh(Known() - old(Known()))
      ensures |order| == |born| && Spec.Distinct(order) && (forall a :: a in order <==> a in remaining)
      ensures Spec.Distinct(born) && (forall b :: b in born ==> b !in old(Known()))
      ensures st == Spec.CreateAll(cfg, old(st), order, born)
      ensures Repair.Path(old(net), steps, net)
    {
      hide Coupled, Spec.Invariant, Spec.CreateAll, Repair.Path, Spec.Distinct, Absent;
      var addrs := Listing(remaining);
      AbsentStart(addrs);
      order := addrs;
      born, steps := PopulateAll(addrs);
    }

    lemma AbsentStart(addrs: seq<string>)
      requires Spec.Distinct(addrs) && forall a :: a in addrs ==> a !in backends
      ensures Absent(addrs, 0)
    {
    }

    lemma PopulateStart(s: Spec.State<Backend, Request>, n: Slots)
      ensures Spec.CreateAll(cfg, s, [], []) == s && Repair.Path(n, [], n)
      ensures Spec.Distinct<Backend>([])
    {
    }

    lemma CreateGrows(s: Spec.State<Backend, Request>, addr: string, b: Backend)
      ensures Spec.Create(cfg, s, addr, b).backends.Keys <= s.backends.Keys + {addr}
      ensures |Spec.Create(cfg, s, addr, b).backends| <= |s.backends| + 1
    {
    }

    /** The two loops of the status branch. */
    method Renew(up: set<string>)
      returns (ghost order: seq<string>, ghost born: seq<Backend>, ghost steps: seq<Repair.Step<(Backend, nat), nat>>)
      requires Coupled() && Spec.Invariant(cfg, st) && |backends| <= MAX_FORWARDERS && |up| <= MAX_FORWARDERS
      modifies this`backends, this`backendSeq, this`st, this`net, this`pushed, pool, Known()`index
      ensures Coupled() && fresh(Known() - old(Known()))
      ensures |order| == |born| && Spec.Distinct(order) && (forall a :: a in order <==> a in up - old(st.backends).Keys)
      ensures Spec.Distinct(born) && (forall b :: b in born ==> b !in old(Known()))
      ensures st == Spec.CreateAll(cfg, Spec.Reconcile(old(st), up), order, born)
      ensures Repair.Path(old(net), steps, net)
    {
      hide Coupled, Spec.Invariant, Spec.CreateAll, Spec.Placed, Spec.Reconcile, Spec.Distinct, Repair.Path;
      SeparateIn(cfg, st);
      Spec.ReconcileKeeps(cfg, st, up);
      SweepCount(st, up);
      var remaining := Sweep(up);
      MirrorsIn();
      order, born, steps := Populate(remaining);
    }

    /**
    `case backends := <-status`.  The capacity of the heap's slice bounds the number of backends; the
    source panics beyond it.
    */
    method Status(up: set<string>)
      returns (ghost order: seq<string>, ghost born: seq<Backend>, ghost steps: seq<Repair.Step<(Backend, nat), nat>>)
      requires Valid() && |backends| <= MAX_FORWARDERS && |up| <= MAX_FORWARDERS
      modifies this, pool, Known()`index
      ensures Valid() && fresh(Known() - old(Known())) && requests == old(requests)
      ensures Spec.Enabled(cfg, old(st), Spec.Status(up, order, born))
      ensures st == Spec.Next(cfg, old(st), Spec.Status(up, order, born))
      ensures Repair.Path(old(net), steps, net)
    {
      hide Coupled, Spec.Invariant, Spec.CreateAll, Spec.Reconcile, Spec.Distinct, Spec.Enabled, Spec.Next,
           Repair.Path, Repair.Invariant;
      order, born, steps := Renew(up);
      StatusIs(old(st), up, order, born);
      Spec.StepKeeps(cfg, old(st), Spec.Status(up, order, born));
      Repair.PathKeeps(old(net), steps, net);
    }

    lemma SweepCount(s: Spec.State<Backend, Request>, up: set<string>)
      ensures var left, rest := Spec.Reconcile(s, up).backends, up - s.backends.Keys;
        rest !! left.Keys && |left| + |rest| == |up| && Spec.Reconcile(s, up).reg == s.reg
    {
      var left, rest := Spec.Reconcile(s, up).backends, up - s.backends.Keys;
      assert up == left.Keys + rest && |left.Keys| == |left|;
    }

    lemma StatusIs(s: Spec.State<Backend, Request>, up: set<string>, order: seq<string>, born: seq<Backend>)
      requires |order| == |born| && Spec.Distinct(order) && (forall a :: a in order <==> a in up - s.backends.Keys)
      requires Spec.Distinct(born) && (forall b :: b in born ==> b !in s.reg.address)
      ensures Spec.Enabled(cfg, s, Spec.Status(up, order, born))
      ensures Spec.Next(cfg, s, Spec.Status(up, order, born)) == Spec.CreateAll(cfg, Spec.Reconcile(s, up), order, born)
    {
    }

    // ---------- The goroutines that share the slots ----------

    static lemma {:induction false} OriginsAppend(sessions: seq<Session>, session: Session)
      ensures Origins(sessions + [session]) == Origins(sessions) + multiset{(session.backend, session.index)}
      decreases |sessions|
    {
      var all := sessions + [session];
      if sessions == [] {
        assert all[1..] == [];
      } else {
        assert all[0] == sessions[0] && all[1..] == sessions[1..] + [session];
        OriginsAppend(sessions[1..], session);
      }
    }

    /** A creator got its connection and sends the session (`ready <- request`). */
    method SessionReady(b: Backend, i: nat, conn: nat, addr: nat)
      requires Valid() && (b, i) in net.creating
      modifies this`newTunnelChan, this`net
      ensures Valid() && st == old(st) && newTunnelChan == old(newTunnelChan) + [Session(b, i, conn, addr)]
      ensures Repair.Enabled(old(net), Repair.SessionReady((b, i))) && net == Repair.Next(old(net), Repair.SessionReady((b, i)))
    {
      hide Stocked, Used, Requested, Counted, Spec.Invariant, Repair.Invariant;
      Repair.StepKeeps(net, Repair.SessionReady((b, i)));
      OriginsAppend(newTunnelChan, Session(b, i, conn, addr));
      SameSlots(st.reg, st.ongoing, st.pool, pushed, net, Repair.Next(net, Repair.SessionReady((b, i))));
      newTunnelChan := newTunnelChan + [Session(b, i, conn, addr)];
      net := Repair.Next(net, Repair.SessionReady((b, i)));
    }

    /** A forwarder reads a slot. */
    method Load(b: Backend, i: nat) returns (conn: Option<nat>)
      requires Valid() && b in Known() && i < cfg.tunnels
      modifies this`net
      ensures Valid() && st == old(st) && (b, i) in old(net.slots) && conn == old(net.slots)[(b, i)].conn
      ensures conn.Some? ==>
                Repair.Enabled(old(net), Repair.Load((b, i))) && net == Repair.Next(old(net), Repair.Load((b, i)))
      ensures conn.None? ==> net == old(net)
    {
      hide Used, Requested, Queued, Counted, Stocked, Spec.Invariant, Repair.Invariant;
      SlotIn(b, i, st.reg, st.ongoing, st.pool, pushed, net);
      conn := b.tunnel[i].conn;
      if conn.Some? {
        SameSlots(st.reg, st.ongoing, st.pool, pushed, net, Repair.Next(net, Repair.Load((b, i))));
        Repair.StepKeeps(net, Repair.Load((b, i)));
        SameChannels(net, Repair.Load((b, i)));
        net := Repair.Next(net, Repair.Load((b, i)));
      }
    }

    lemma SameChannels(n: Slots, e: Repair.Step<(Backend, nat), nat>)
      requires Queued(newTunnelChan, spdyFailChan, n) && Repair.Enabled(n, e) && (e.Load? || e.Swap? || e.StreamCreated?)
      ensures Queued(newTunnelChan, spdyFailChan, Repair.Next(n, e))
    {
    }

    method Clear(b: Backend, i: nat, ghost reg: Spec.Registry<Backend>, ghost ongoing: map<Backend, int>,
                 ghost pooled: set<Backend>, ghost pushed: set<Backend>, ghost n: Slots, ghost m: Slots)
      requires Stocked(reg, ongoing, pooled, pushed, n) && b in reg.address && i < |b.tunnel| == cfg.tunnels
      requires m.slots == n.slots[(b, i) := b.tunnel[i].(conn := None)]
      modifies b`tunnel
      ensures Stocked(reg, ongoing, pooled, pushed, m)
    {
      hide Stocked;
      SlotsOfOne(b, reg, ongoing, pooled, pushed, n);
      b.tunnel := b.tunnel[i := b.tunnel[i].(conn := None)];
      TunnelChanged(Rewiring(b, reg, ongoing, pooled, pushed, n, m));
    }

    /** A forwarder whose stream failed swaps the connection it loaded for nil, unless it has changed. */
    method Swap(b: Backend, i: nat, conn: nat) returns (swapped: bool)
      requires Valid() && ((b, i), conn) in net.held && (b, i) in net.slots
      modifies this`net, Known()`tunnel
      ensures Valid() && st == old(st)
      ensures swapped <==> old(net.slots)[(b, i)].conn == Some(conn)
      ensures Repair.Enabled(old(net), Repair.Swap((b, i), conn)) && net == Repair.Next(old(net), Repair.Swap((b, i), conn))
    {
      hide Used, Requested, Queued, Counted, Stocked, Spec.Invariant, Repair.Invariant;
      ghost var e := Repair.Swap((b, i), conn);
      SlotOf((b, i), st.reg, st.ongoing, st.pool, pushed, net);
      Repair.StepKeeps(net, e);
      SameChannels(net, e);
      swapped := b.tunnel[i].conn == Some(conn);
      if swapped {
        Clear(b, i, st.reg, st.ongoing, st.pool, pushed, net, Repair.Next(net, e));
      } else {
        SameSlots(st.reg, st.ongoing, st.pool, pushed, net, Repair.Next(net, e));
      }
      net := Repair.Next(net, e);
    }

    /** The forwarder that swapped sends its report (`b.failChan <- ...`). */
    method Report(b: Backend, i: nat)
      requires Valid() && (b, i) in net.reporting
      modifies this`spdyFailChan, this`net
      ensures Valid() && st == old(st) && spdyFailChan == old(spdyFailChan) + [(b, i)]
      ensures Repair.Enabled(old(net), Repair.Report((b, i))) && net == Repair.Next(old(net), Repair.Report((b, i)))
    {
      hide Stocked, Used, Requested, Counted, Spec.Invariant, Repair.Invariant;
      Repair.StepKeeps(net, Repair.Report((b, i)));
      SameSlots(st.reg, st.ongoing, st.pool, pushed, net, Repair.Next(net, Repair.Report((b, i))));
      spdyFailChan := spdyFailChan + [(b, i)];
      net := Repair.Next(net, Repair.Report((b, i)));
    }
  }
}

/**
The event loop of the native scheduler as a labelled transition system over values.

A state holds what the loop owns (the map of backends, the heap of backends seen as a set,
the pending list) together with what the goroutines it starts hold on its behalf (requests
being forwarded, requests waiting on the done channel).  One event is one branch of the
select statement, or the return of one forwarding goroutine; its label carries whatever the
state does not determine.  The heap appears only through the choice it makes: a backend of
least key.  Module `Scheduling` holds the imperative scheduler and ties each of its methods
to `Next`.

`B` and `R` are the identities of backends and requests.
*/
module SchedulerSpec {
  import opened Wrappers

  const MAX_FORWARDERS_PER_BACKEND: int := 4096


  /** The error kept in a request: none, a `*net.OpError` whose `Op` is "dial", or another one. */
  datatype Failure = NoError | DialError | OtherError

  /**
  How a forwarding goroutine ends: without a connection, or after both copies, one of which may have
  failed.  A connection is missing when the plain dial failed, so its error says "dial"; the steps
  allow for any other too.
  */
  datatype Outcome = NoConnection(failure: Failure) | Served(copyError: bool)

  datatype Config = Config(leastweight: bool, shuffle: bool, tunnels: nat)

  /** What is fixed when a backend is created; backends are never forgotten here. */
  datatype Registry<B(==)> = Registry(
    address: map<B, string>,
    birth: map<B, nat>,       // how many were created before
    weight: map<B, int>,
    sequence: nat)

  datatype Jobs<B(==), R(==)> = Jobs(
    pending: seq<R>,
    flight: map<R, B>,        // being forwarded, or back on the done channel
    done: seq<R>,             // the done channel
    err: map<R, Failure>,     // absent means NoError
    refused: set<R>,          // connection closed at the forwarder limit
    completed: set<R>,        // finished and not dispatched again
    launched: multiset<B>)    // every backend as often as a request was handed to it

  datatype State<B(==), R(==)> = State(
    reg: Registry<B>,
    backends: map<string, B>,
    pool: set<B>,
    ongoing: map<B, int>,
    jobs: Jobs<B, R>)

  /** `pick` is the backend popped from the heap by `dispatch`, None when the heap is empty. */
  datatype Event<B, R> =
    | Job(request: R, pick: Option<B>)
    | Return(request: R, outcome: Outcome)
    | Finish(pick: Option<B>)
    | Status(up: set<string>, order: seq<string>, born: seq<B>)
    | NewTunnel(backend: B, picks: seq<Option<B>>)

  ghost function Initial<B, R>(): State<B, R> {
    State(Registry(map[], map[], map[], 0), map[], {}, map[], Jobs([], map[], [], map[], {}, {}, multiset{}))
  }

  ghost function ErrorOf<B, R>(j: Jobs<B, R>, r: R): Failure {
    if r in j.err then j.err[r] else NoError
  }

  ghost predicate Distinct<T>(q: seq<T>) {
    forall i, j :: 0 <= i < j < |q| ==> q[i] != q[j]
  }

  /** What the heap compares. */
  ghost function Key<B, R>(cfg: Config, s: State<B, R>, b: B): int
    requires b in s.reg.weight && b in s.ongoing
  {
    if cfg.leastweight then s.reg.weight[b] else s.ongoing[b]
  }

  ghost predicate Least<B, R>(cfg: Config, s: State<B, R>, b: B) {
    && b in s.pool && b in s.reg.weight && b in s.ongoing
    && forall c :: c in s.pool && c in s.reg.weight && c in s.ongoing ==> Key(cfg, s, b) <= Key(cfg, s, c)
  }

  // ---------- dispatch ----------

  ghost predicate Legal<B, R>(cfg: Config, s: State<B, R>, pick: Option<B>) {
    if s.pool == {} then pick.None? else pick.Some? && Least(cfg, s, pick.value)
  }

  ghost function Wait<B, R>(j: Jobs<B, R>, r: R): Jobs<B, R> { j.(pending := j.pending + [r]) }

  ghost function Refuse<B, R>(j: Jobs<B, R>, r: R): Jobs<B, R> { j.(refused := j.refused + {r}) }

  ghost function Launch<B, R>(j: Jobs<B, R>, r: R, b: B): Jobs<B, R> {
    j.(flight := j.flight[r := b], launched := j.launched + multiset{b})
  }

  ghost function Dispatch<B, R>(cfg: Config, s: State<B, R>, r: R, pick: Option<B>): State<B, R>
    requires Legal(cfg, s, pick)
  {
    if s.pool == {} then
      s.(jobs := Wait(s.jobs, r))
    else if s.ongoing[pick.value] >= MAX_FORWARDERS_PER_BACKEND then
      s.(jobs := Refuse(s.jobs, r))
    else
      s.(ongoing := s.ongoing[pick.value := s.ongoing[pick.value] + 1], jobs := Launch(s.jobs, r, pick.value))
  }

  /** Dispatching the requests of `rs` one after the other. */
  ghost predicate LegalAll<B, R>(cfg: Config, s: State<B, R>, rs: seq<R>, picks: seq<Option<B>>)
    decreases |rs|
  {
    && |rs| == |picks|
    && (rs != [] ==>
      && Legal(cfg, s, picks[0])
      && LegalAll(cfg, Dispatch(cfg, s, rs[0], picks[0]), rs[1..], picks[1..]))
  }

  ghost function DispatchAll<B, R>(cfg: Config, s: State<B, R>, rs: seq<R>, picks: seq<Option<B>>): State<B, R>
    requires LegalAll(cfg, s, rs, picks)
    decreases |rs|
  {
    if rs == [] then s
    else DispatchAll(cfg, Dispatch(cfg, s, rs[0], picks[0]), rs[1..], picks[1..])
  }

  /** Dispatching one more. */
  lemma {:induction false} DispatchAllExtends<B, R>(cfg: Config, s: State<B, R>, rs: seq<R>, picks: seq<Option<B>>, r: R, pick: Option<B>)
    requires LegalAll(cfg, s, rs, picks) && Legal(cfg, DispatchAll(cfg, s, rs, picks), pick)
    ensures LegalAll(cfg, s, rs + [r], picks + [pick])
    ensures DispatchAll(cfg, s, rs + [r], picks + [pick]) == Dispatch(cfg, DispatchAll(cfg, s, rs, picks), r, pick)
    decreases |rs|
  {
    hide Legal, Dispatch;
    var rs', picks' := rs + [r], picks + [pick];
    if rs == [] {
      assert rs'[1..] == [] && picks'[1..] == [];
    } else {
      assert rs'[1..] == rs[1..] + [r] && picks'[1..] == picks[1..] + [pick];
      DispatchAllExtends(cfg, Dispatch(cfg, s, rs[0], picks[0]), rs[1..], picks[1..], r, pick);
    }
  }

  ghost function WithPending<B, R>(s: State<B, R>, rs: seq<R>): State<B, R> {
    s.(jobs := s.jobs.(pending := rs))
  }

  // ---------- finish ----------

  ghost function Release<B, R>(j: Jobs<B, R>, r: R): Jobs<B, R>
    requires j.done != []
  {
    j.(done := j.done[1..], flight := j.flight - {r})
  }

  ghost function Complete<B, R>(j: Jobs<B, R>, r: R): Jobs<B, R> { j.(completed := j.completed + {r}) }

  /** The state in which `finish` may dispatch the request again: off the done channel, its backend's counter lowered. */
  ghost function Released<B, R>(s: State<B, R>): State<B, R>
    requires s.jobs.done != [] && s.jobs.done[0] in s.jobs.flight && s.jobs.flight[s.jobs.done[0]] in s.ongoing
  {
    var r := s.jobs.done[0];
    var b := s.jobs.flight[r];
    s.(pool := if ErrorOf(s.jobs, r).NoError? then s.pool else s.pool - {b},
       ongoing := s.ongoing[b := s.ongoing[b] - 1],
       jobs := Release(s.jobs, r))
  }

  ghost predicate CanFinish<B, R>(cfg: Config, s: State<B, R>, pick: Option<B>) {
    && s.jobs.done != [] && s.jobs.done[0] in s.jobs.flight && s.jobs.flight[s.jobs.done[0]] in s.ongoing
    && (ErrorOf(s.jobs, s.jobs.done[0]).DialError? ==> Legal(cfg, Released(s), pick))
  }

  ghost function Finished<B, R>(cfg: Config, s: State<B, R>, pick: Option<B>): State<B, R>
    requires CanFinish(cfg, s, pick)
  {
    var r := s.jobs.done[0];
    if ErrorOf(s.jobs, r).DialError? then
      Dispatch(cfg, Released(s), r, pick)
    else
      Released(s).(jobs := Complete(Released(s).jobs, r))
  }

  /** A goroutine overwrites the request's error only when it gets no connection, or with nil when a copy fails. */
  ghost function Returned<B, R>(j: Jobs<B, R>, r: R, outcome: Outcome): Jobs<B, R> {
    var err := match outcome
               case NoConnection(f) => j.err[r := f]
               case Served(copyError) => if copyError then j.err[r := NoError] else j.err;
    j.(done := j.done + [r], err := err)
  }

  // ---------- status ----------

  ghost function AddBackend<B, R>(s: State<B, R>, b: B): State<B, R>
    requires b in s.reg.address
  {
    s.(backends := s.backends[s.reg.address[b] := b], pool := s.pool + {b})
  }

  ghost function Enrol<B>(cfg: Config, g: Registry<B>, addr: string, b: B): Registry<B> {
    var sequence := if cfg.shuffle then g.sequence else g.sequence + 1;
    var weight := if cfg.shuffle then 0 else sequence;
    Registry(g.address[b := addr], g.birth[b := |g.birth|], g.weight[b := weight], sequence)
  }

  ghost function Create<B, R>(cfg: Config, s: State<B, R>, addr: string, b: B): State<B, R> {
    var s1 := s.(reg := Enrol(cfg, s.reg, addr, b), ongoing := s.ongoing[b := 0]);
    if cfg.tunnels > 0 then s1 else AddBackend(s1, b)
  }

  ghost function CreateAll<B, R>(cfg: Config, s: State<B, R>, order: seq<string>, born: seq<B>): State<B, R>
    requires |order| == |born|
    decreases |order|
  {
    if order == [] then s
    else CreateAll(cfg, Create(cfg, s, order[0], born[0]), order[1..], born[1..])
  }

  lemma {:induction false} CreateAllExtends<B, R>(cfg: Config, s: State<B, R>, order: seq<string>, born: seq<B>, addr: string, b: B)
    requires |order| == |born|
    ensures CreateAll(cfg, s, order + [addr], born + [b]) == Create(cfg, CreateAll(cfg, s, order, born), addr, b)
    decreases |order|
  {
    hide Create;
    var order', born' := order + [addr], born + [b];
    if order == [] {
      assert order'[1..] == [] && born'[1..] == [];
    } else {
      assert order'[1..] == order[1..] + [addr] && born'[1..] == born[1..] + [b];
      CreateAllExtends(cfg, Create(cfg, s, order[0], born[0]), order[1..], born[1..], addr, b);
    }
  }

  ghost function Kept<B>(backends: map<string, B>, up: set<string>): map<string, B> {
    map a | a in backends && a in up :: backends[a]
  }

  /** The first loop of the status branch: drop what is gone, push back what an error took out. */
  ghost function Reconcile<B, R>(s: State<B, R>, up: set<string>): State<B, R> {
    var dropped := set a | a in s.backends && a !in up :: s.backends[a];
    s.(backends := Kept(s.backends, up), pool := (s.pool - dropped) + Kept(s.backends, up).Values)
  }

  /** The first loop after it has visited the addresses `seen`. */
  ghost function ReconcileSome<B, R>(s: State<B, R>, up: set<string>, seen: set<string>): State<B, R> {
    var dropped := set a | a in s.backends && a in seen && a !in up :: s.backends[a];
    var kept := set a | a in s.backends && a in seen && a in up :: s.backends[a];
    s.(backends := map a | a in s.backends && (a !in seen || a in up) :: s.backends[a],
       pool := (s.pool - dropped) + kept)
  }

  /** Visiting one more address, and the two ends of the loop. */
  lemma ReconcileVisits<B, R>(s: State<B, R>, up: set<string>, seen: set<string>, a: string)
    requires Placed(s.reg.address, s.backends, s.pool) && a in s.backends && a !in seen
    ensures var m, n, b := ReconcileSome(s, up, seen), ReconcileSome(s, up, seen + {a}), s.backends[a];
      && a in m.backends && m.backends[a] == b && Placed(m.reg.address, m.backends, m.pool)
      && n == if a in up then m.(pool := m.pool + {b}) else m.(backends := m.backends - {a}, pool := m.pool - {b})
  {
    var m, n, b := ReconcileSome(s, up, seen), ReconcileSome(s, up, seen + {a}), s.backends[a];
    assert forall x :: x in s.backends && x != a ==> s.backends[x] != b;
    if a in up {
      assert n.pool == m.pool + {b};
      assert n.backends == m.backends;
    } else {
      assert n.pool == m.pool - {b};
      assert n.backends == m.backends - {a};
    }
  }

  lemma ReconcileEnds<B, R>(s: State<B, R>, up: set<string>)
    ensures ReconcileSome(s, up, {}) == s
    ensures ReconcileSome(s, up, s.backends.Keys) == Reconcile(s, up)
  {
    assert ReconcileSome(s, up, {}).backends == s.backends && ReconcileSome(s, up, {}).pool == s.pool;
    var m := ReconcileSome(s, up, s.backends.Keys);
    assert m.backends == Reconcile(s, up).backends;
    assert m.pool == Reconcile(s, up).pool;
  }

  ghost predicate CanReconcile<B, R>(s: State<B, R>, up: set<string>, order: seq<string>, born: seq<B>) {
    && |order| == |born|
    && Distinct(order) && (forall a :: a in order <==> a in up && a !in s.backends)
    && Distinct(born) && (forall b :: b in born ==> b !in s.reg.address)
  }

  // ---------- The system ----------

  /** A tunnel session of `b` arrives: a backend not in the map is added and the pending list drained. */
  ghost predicate CanArrive<B, R>(cfg: Config, s: State<B, R>, b: B, picks: seq<Option<B>>) {
    && cfg.tunnels > 0 && b in s.reg.address
    && (s.reg.address[b] !in s.backends ==> LegalAll(cfg, AddBackend(s, b), s.jobs.pending, picks))
  }

  ghost function Arrived<B, R>(cfg: Config, s: State<B, R>, b: B, picks: seq<Option<B>>): State<B, R>
    requires CanArrive(cfg, s, b, picks)
  {
    if s.reg.address[b] in s.backends then s
    else WithPending(DispatchAll(cfg, AddBackend(s, b), s.jobs.pending, picks), [])
  }

  ghost predicate Enabled<B, R>(cfg: Config, s: State<B, R>, e: Event<B, R>) {
    match e
    case Job(r, pick) => r !in Held(s.jobs) && r !in s.jobs.done && r !in s.jobs.err && Legal(cfg, s, pick)
    case Return(r, outcome) => r in s.jobs.flight && r !in s.jobs.done && outcome != NoConnection(NoError)
    case Finish(pick) => CanFinish(cfg, s, pick)
    case Status(up, order, born) => CanReconcile(s, up, order, born)
    case NewTunnel(b, picks) => CanArrive(cfg, s, b, picks)
  }

  ghost function Next<B, R>(cfg: Config, s: State<B, R>, e: Event<B, R>): State<B, R>
    requires Enabled(cfg, s, e)
  {
    match e
    case Job(r, pick) => Dispatch(cfg, s, r, pick)
    case Return(r, outcome) => s.(jobs := Returned(s.jobs, r, outcome))
    case Finish(pick) => Finished(cfg, s, pick)
    case Status(up, order, born) => CreateAll(cfg, Reconcile(s, up), order, born)
    case NewTunnel(b, picks) => Arrived(cfg, s, b, picks)
  }

  /** `run` is the list of states visited from `run[0]` under `events`. */
  ghost predicate IsPath<B, R>(cfg: Config, run: seq<State<B, R>>, events: seq<Event<B, R>>) {
    && |run| == |events| + 1
    && forall i :: 0 <= i < |events| ==> Enabled(cfg, run[i], events[i]) && run[i + 1] == Next(cfg, run[i], events[i])
  }

  ghost predicate IsRun<B, R>(cfg: Config, run: seq<State<B, R>>, events: seq<Event<B, R>>) {
    IsPath(cfg, run, events) && run[0] == Initial()
  }

  // ---------- Invariants ----------

  /** The tables speak of the same backends, and requests fly on known ones. */
  ghost predicate Known<B, R>(g: Registry<B>, ongoing: map<B, int>, flight: map<R, B>) {
    && g.birth.Keys == g.address.Keys && g.weight.Keys == g.address.Keys && ongoing.Keys == g.address.Keys
    && forall r :: r in flight ==> flight[r] in g.address
  }

  /** A backend in the map is there under its own address; one in the heap is in the map. */
  ghost predicate Placed<B>(address: map<B, string>, backends: map<string, B>, pool: set<B>) {
    && (forall a :: a in backends ==> backends[a] in address && address[backends[a]] == a)
    && (forall b :: b in pool ==> b in address && address[b] in backends && backends[address[b]] == b)
  }

  /** Weights: all zero when the list is shuffled, otherwise the order of creation. */
  ghost predicate Ranked<B>(cfg: Config, g: Registry<B>) {
    && (forall b :: b in g.birth ==> g.birth[b] < |g.birth|)
    && (forall b, c :: b in g.birth && c in g.birth && b != c ==> g.birth[b] != g.birth[c])
    && (cfg.shuffle ==> forall b :: b in g.weight ==> g.weight[b] == 0)
    && (!cfg.shuffle ==> g.sequence == |g.birth| && forall b :: b in g.weight && b in g.birth ==> g.weight[b] == g.birth[b] + 1)
  }

  /** Number of requests in flight on `b`. */
  ghost function Load<B, R>(flight: map<R, B>, b: B): nat {
    |set r | r in flight && flight[r] == b|
  }

  /** Counter accounting. */
  ghost predicate Accounted<B, R>(ongoing: map<B, int>, flight: map<R, B>) {
    forall b :: b in ongoing ==> ongoing[b] == Load(flight, b) && 0 <= ongoing[b] <= MAX_FORWARDERS_PER_BACKEND
  }

  /** No request is in two places, and only requests in flight are on the done channel. */
  ghost predicate Separate<B, R>(j: Jobs<B, R>) {
    && Distinct(j.pending) && Distinct(j.done)
    && (forall r :: r in j.done ==> r in j.flight)
    && (forall r :: r in j.pending ==> r !in j.flight && r !in j.refused && r !in j.completed)
    && (forall r :: r in j.flight ==> r !in j.refused && r !in j.completed)
    && (forall r :: r in j.refused ==> r !in j.completed)
  }

  ghost predicate Invariant<B, R>(cfg: Config, s: State<B, R>) {
    && Known(s.reg, s.ongoing, s.jobs.flight)
    && Placed(s.reg.address, s.backends, s.pool)
    && Ranked(cfg, s.reg)
    && Accounted(s.ongoing, s.jobs.flight)
    && Separate(s.jobs)
  }

  /** Every request the scheduler answers for. */
  ghost function Held<B, R>(j: Jobs<B, R>): set<R> {
    (set r | r in j.pending) + j.flight.Keys + j.refused + j.completed
  }

  // ---------- Each step keeps the invariants ----------

  lemma LoadAdd<B, R>(flight: map<R, B>, r: R, b: B, c: B)
    requires r !in flight
    ensures Load(flight[r := b], c) == Load(flight, c) + if c == b then 1 else 0
  {
    var m := flight[r := b];
    var before := set q | q in flight && flight[q] == c;
    var after := set q | q in m && m[q] == c;
    assert after == if c == b then before + {r} else before;
  }

  lemma LoadRemove<B, R>(flight: map<R, B>, r: R, c: B)
    requires r in flight
    ensures Load(flight - {r}, c) == Load(flight, c) - if c == flight[r] then 1 else 0
  {
    assert flight == (flight - {r})[r := flight[r]];
    LoadAdd(flight - {r}, r, flight[r], c);
  }

  lemma AccountedAdd<B, R>(ongoing: map<B, int>, flight: map<R, B>, r: R, b: B)
    requires Accounted(ongoing, flight) && r !in flight && b in ongoing && ongoing[b] < MAX_FORWARDERS_PER_BACKEND
    ensures Accounted(ongoing[b := ongoing[b] + 1], flight[r := b])
  {
    forall c | c in ongoing { LoadAdd(flight, r, b, c); }
  }

  lemma AccountedRemove<B, R>(ongoing: map<B, int>, flight: map<R, B>, r: R)
    requires Accounted(ongoing, flight) && r in flight && flight[r] in ongoing
    ensures Accounted(ongoing[flight[r] := ongoing[flight[r]] - 1], flight - {r})
  {
    forall c | c in ongoing { LoadRemove(flight, r, c); }
  }

  lemma WaitKeeps<B, R>(j: Jobs<B, R>, r: R)
    requires Separate(j) && r !in Held(j)
    ensures Separate(Wait(j, r)) && Held(Wait(j, r)) == Held(j) + {r}
  {
    assert r !in j.pending;
  }

  lemma RefuseKeeps<B, R>(j: Jobs<B, R>, r: R)
    requires Separate(j) && r !in Held(j)
    ensures Separate(Refuse(j, r)) && Held(Refuse(j, r)) == Held(j) + {r}
  {
  }

  lemma LaunchKeeps<B, R>(j: Jobs<B, R>, r: R, b: B)
    requires Separate(j) && r !in Held(j)
    ensures Separate(Launch(j, r, b)) && Held(Launch(j, r, b)) == Held(j) + {r}
  {
  }

  lemma ReleaseKeeps<B, R>(j: Jobs<B, R>, r: R)
    requires Separate(j) && j.done != [] && r == j.done[0]
    ensures Separate(Release(j, r)) && Held(j) == Held(Release(j, r)) + {r}
    ensures r !in Held(Release(j, r)) && r !in Release(j, r).done
  {
  }

  lemma CompleteKeeps<B, R>(j: Jobs<B, R>, r: R)
    requires Separate(j) && r !in Held(j)
    ensures Separate(Complete(j, r)) && Held(Complete(j, r)) == Held(j) + {r}
  {
  }

  /** The request being dispatched is held nowhere; afterwards it is in exactly one place. */
  lemma DispatchKeeps<B, R>(cfg: Config, s: State<B, R>, r: R, pick: Option<B>)
    requires Invariant(cfg, s) && r !in Held(s.jobs) && Legal(cfg, s, pick)
    ensures Invariant(cfg, Dispatch(cfg, s, r, pick))
    ensures Held(Dispatch(cfg, s, r, pick).jobs) == Held(s.jobs) + {r}
  {
    hide Ranked, Accounted, Placed, Separate, Held;
    WaitKeeps(s.jobs, r);
    RefuseKeeps(s.jobs, r);
    if s.pool != {} && s.ongoing[pick.value] < MAX_FORWARDERS_PER_BACKEND {
      LaunchKeeps(s.jobs, r, pick.value);
      AccountedAdd(s.ongoing, s.jobs.flight, r, pick.value);
    }
  }

  lemma FinishKeeps<B, R>(cfg: Config, s: State<B, R>, pick: Option<B>)
    requires Invariant(cfg, s) && CanFinish(cfg, s, pick)
    ensures Invariant(cfg, Finished(cfg, s, pick))
    ensures Held(Finished(cfg, s, pick).jobs) == Held(s.jobs)
  {
    hide Ranked, Accounted, Separate, Held;
    var r, t := s.jobs.done[0], Released(s);
    CompleteKeeps(t.jobs, r) by { ReleaseKeeps(s.jobs, r); }
    AccountedRemove(s.ongoing, s.jobs.flight, r);
    ReleaseKeeps(s.jobs, r);
    assert Invariant(cfg, t);
    if ErrorOf(s.jobs, r).DialError? {
      DispatchKeeps(cfg, t, r, pick);
    }
  }

  lemma PlacedReconcile<B, R>(s: State<B, R>, up: set<string>)
    requires Placed(s.reg.address, s.backends, s.pool)
    ensures Placed(s.reg.address, Reconcile(s, up).backends, Reconcile(s, up).pool)
    ensures Reconcile(s, up).pool == Reconcile(s, up).backends.Values
  {
    var t := Reconcile(s, up);
    forall b | b in s.pool && s.reg.address[b] in up
      ensures b in t.backends.Values
    {
      assert t.backends[s.reg.address[b]] == b;
    }
  }

  lemma ReconcileKeeps<B, R>(cfg: Config, s: State<B, R>, up: set<string>)
    requires Invariant(cfg, s)
    ensures Invariant(cfg, Reconcile(s, up))
  {
    hide Ranked, Accounted, Placed, Separate, Known;
    PlacedReconcile(s, up);
  }

  lemma EnrolKeeps<B>(cfg: Config, g: Registry<B>, addr: string, b: B)
    requires Ranked(cfg, g) && b !in g.birth
    ensures Ranked(cfg, Enrol(cfg, g, addr, b))
  {
  }

  lemma PlacedAdd<B>(address: map<B, string>, backends: map<string, B>, pool: set<B>, b: B)
    requires Placed(address, backends, pool) && b in address && address[b] !in backends
    ensures Placed(address, backends[address[b] := b], pool + {b})
  {
  }

  lemma PlacedEnrol<B>(address: map<B, string>, backends: map<string, B>, pool: set<B>, addr: string, b: B)
    requires Placed(address, backends, pool) && b !in address
    ensures Placed(address[b := addr], backends, pool)
  {
  }

  lemma AccountedEnrol<B, R>(ongoing: map<B, int>, flight: map<R, B>, b: B)
    requires Accounted(ongoing, flight) && forall r :: r in flight ==> flight[r] != b
    ensures Accounted(ongoing[b := 0], flight)
  {
    assert (set r | r in flight && flight[r] == b) == {};
  }

  lemma CreateKeeps<B, R>(cfg: Config, s: State<B, R>, addr: string, b: B)
    requires Invariant(cfg, s) && addr !in s.backends && b !in s.reg.address
    ensures Invariant(cfg, Create(cfg, s, addr, b))
  {
    hide Ranked, Accounted, Placed, Separate;
    EnrolKeeps(cfg, s.reg, addr, b);
    AccountedEnrol(s.ongoing, s.jobs.flight, b);
    PlacedEnrol(s.reg.address, s.backends, s.pool, addr, b);
    PlacedAdd(s.reg.address[b := addr], s.backends, s.pool, b);
    KnownEnrol(cfg, s.reg, s.ongoing, s.jobs.flight, addr, b);
    hide Known;
  }

  lemma KnownEnrol<B, R>(cfg: Config, g: Registry<B>, ongoing: map<B, int>, flight: map<R, B>, addr: string, b: B)
    requires Known(g, ongoing, flight) && b !in g.address
    ensures Known(Enrol(cfg, g, addr, b), ongoing[b := 0], flight)
  {
  }

  lemma {:induction false} CreateAllKeeps<B, R>(cfg: Config, s: State<B, R>, order: seq<string>, born: seq<B>)
    requires Invariant(cfg, s) && |order| == |born| && Distinct(order) && Distinct(born)
    requires forall a :: a in order ==> a !in s.backends
    requires forall b :: b in born ==> b !in s.reg.address
    ensures Invariant(cfg, CreateAll(cfg, s, order, born))
    ensures CreateAll(cfg, s, order, born).jobs == s.jobs
    decreases |order|
  {
    hide Known, Placed, Ranked, Accounted, Separate;
    if order != [] {
      CreateKeeps(cfg, s, order[0], born[0]);
      CreateAllKeeps(cfg, Create(cfg, s, order[0], born[0]), order[1..], born[1..]);
    }
  }

  lemma ShortenKeeps<B, R>(j: Jobs<B, R>, rs: seq<R>)
    requires rs != [] && Separate(j.(pending := rs))
    ensures Separate(j.(pending := rs[1..])) && rs[0] !in Held(j.(pending := rs[1..]))
    ensures Held(j.(pending := rs)) == Held(j.(pending := rs[1..])) + {rs[0]}
  {
    assert rs == [rs[0]] + rs[1..];
  }

  /** With a non-empty pool `Dispatch` leaves the pending list alone, so the list may be taken as already shortened. */
  lemma {:induction false} DrainKeeps<B, R>(cfg: Config, s: State<B, R>, rs: seq<R>, picks: seq<Option<B>>)
    requires s.pool != {} && LegalAll(cfg, s, rs, picks) && Invariant(cfg, WithPending(s, rs))
    ensures Invariant(cfg, WithPending(DispatchAll(cfg, s, rs, picks), []))
    ensures DispatchAll(cfg, s, rs, picks).pool == s.pool
    ensures Held(WithPending(DispatchAll(cfg, s, rs, picks), []).jobs) == Held(WithPending(s, rs).jobs)
    decreases |rs|
  {
    hide Known, Placed, Ranked, Accounted, Separate, Held;
    if rs == [] {
    } else {
      var short := WithPending(s, rs[1..]);
      var m := Dispatch(cfg, s, rs[0], picks[0]);
      ShortenKeeps(s.jobs, rs);
      DispatchKeeps(cfg, short, rs[0], picks[0]);
      assert Dispatch(cfg, short, rs[0], picks[0]) == WithPending(m, rs[1..]);
      DrainKeeps(cfg, m, rs[1..], picks[1..]);
    }
  }

  lemma ArriveKeeps<B, R>(cfg: Config, s: State<B, R>, b: B, picks: seq<Option<B>>)
    requires Invariant(cfg, s) && CanArrive(cfg, s, b, picks)
    ensures Invariant(cfg, Arrived(cfg, s, b, picks))
    ensures Held(Arrived(cfg, s, b, picks).jobs) == Held(s.jobs)
  {
    if s.reg.address[b] !in s.backends {
      hide Ranked, Accounted, Placed, Separate, Known, Held;
      var s1 := AddBackend(s, b);
      assert WithPending(s1, s.jobs.pending) == s1;
      PlacedAdd(s.reg.address, s.backends, s.pool, b);
      DrainKeeps(cfg, s1, s.jobs.pending, picks);
    }
  }

  lemma ReturnKeeps<B, R>(j: Jobs<B, R>, r: R, outcome: Outcome)
    requires Separate(j) && r in j.flight && r !in j.done
    ensures Separate(Returned(j, r, outcome)) && Held(Returned(j, r, outcome)) == Held(j)
  {
  }

  lemma StepKeeps<B, R>(cfg: Config, s: State<B, R>, e: Event<B, R>)
    requires Invariant(cfg, s) && Enabled(cfg, s, e)
    ensures Invariant(cfg, Next(cfg, s, e))
    ensures Held(Next(cfg, s, e).jobs) == Held(s.jobs) + if e.Job? then {e.request} else {}
  {
    hide Placed, Ranked, Accounted, Separate, Held;
    match e
    case Job(r, pick) => DispatchKeeps(cfg, s, r, pick);
    case Return(r, outcome) => ReturnKeeps(s.jobs, r, outcome);
    case Finish(pick) => FinishKeeps(cfg, s, pick);
    case Status(up, order, born) =>
      ReconcileKeeps(cfg, s, up);
      CreateAllKeeps(cfg, Reconcile(s, up), order, born);
    case NewTunnel(b, picks) => ArriveKeeps(cfg, s, b, picks);
  }
}

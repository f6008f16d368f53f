/**
The identifiers of a SPDY connection over whole runs: the stream ids it hands out, the stream ids
it accepts from its peer, its ping ids, and the id it names when it goes away.
*/
module ConnectionIds {
  import opened Wrappers

  const MAX_STREAM_ID: nat := 0x7fffffff
  const PING_WRAP: nat := 0x7ffffffe
  const PING_CYCLE: nat := 0x40000000


  datatype Ids = Ids(next: nat, received: nat, ping: nat, goneAway: bool)

  function Start(server: bool): Ids {
    if server then Ids(2, 1, 2, false) else Ids(1, 2, 1, false)
  }

  /** First id of the connection's own parity. */
  function First(server: bool): nat { if server then 2 else 1 }

  // ---------- Operations ----------

  /** The id of a new stream, 0 when none is left. */
  function NewStream(s: Ids): (Ids, nat) {
    if s.next > MAX_STREAM_ID then (s, 0) else (s.(next := s.next + 2), s.next)
  }

  predicate ValidStreamId(s: Ids, rid: nat) { s.received <= rid <= MAX_STREAM_ID }

  function PeerStream(s: Ids, rid: nat): (Ids, bool) {
    if s.goneAway || !ValidStreamId(s, rid) then (s, false) else (s.(received := rid + 2), true)
  }

  function AdvancePing(s: Ids): Ids {
    s.(ping := if s.ping > PING_WRAP then s.ping - PING_WRAP else s.ping + 2)
  }

  predicate Echoes(s: Ids, id: nat) { s.ping % 2 != id % 2 }

  /** The id a GOAWAY frame carries, when `Close` is the one to send it. */
  function GoAway(s: Ids): (Ids, Option<nat>) {
    if s.goneAway then (s, None)
    else (s.(goneAway := true), Some(if s.received > 2 then s.received - 2 else 0))
  }

  // ---------- Runs ----------

  /** `Ping` reads the ping id before it takes the lock under which it advances it: two steps. */
  datatype Event = OpenStream(id: nat) | Syn(rid: nat, accepted: bool)
                 | PingRead(id: nat) | PingAdvance
                 | PeerPing(id: nat, echoed: bool) | PeerGoAway | Close(goAway: Option<nat>)

  ghost predicate Next(s: Ids, e: Event, t: Ids) {
    match e
    case OpenStream(id) => (t, id) == NewStream(s)
    case Syn(rid, accepted) => (t, accepted) == PeerStream(s, rid)
    case PingRead(id) => t == s && id == s.ping
    case PingAdvance => t == AdvancePing(s)
    case PeerPing(id, echoed) => t == s && echoed == Echoes(s, id)
    case PeerGoAway => t == s.(goneAway := true)
    case Close(goAway) => (t, goAway) == GoAway(s)
  }

  ghost predicate Path(server: bool, ss: seq<Ids>, es: seq<Event>) {
    && |ss| == |es| + 1 && ss[0] == Start(server)
    && forall i :: 0 <= i < |es| ==> Next(ss[i], es[i], ss[i + 1])
  }

  // ---------- Local stream ids ----------

  function Opens(es: seq<Event>): nat {
    if es == [] then 0 else Opens(es[..|es| - 1]) + if es[|es| - 1].OpenStream? then 1 else 0
  }

  /** Number of ids a side has. */
  function Stock(server: bool): nat { (MAX_STREAM_ID - First(server)) / 2 + 1 }

  function Capped(k: nat, n: nat): nat { if k < n then k else n }

  lemma {:induction false} NextIdIs(server: bool, ss: seq<Ids>, es: seq<Event>, n: nat)
    requires Path(server, ss, es) && n < |ss|
    ensures ss[n].next == First(server) + 2 * Capped(Opens(es[..n]), Stock(server))
  {
    if n > 0 {
      NextIdIs(server, ss, es, n - 1);
      assert es[..n][..n - 1] == es[..n - 1];
      assert Next(ss[n - 1], es[n - 1], ss[n]);
    }
  }

  /** The k-th call returns the k-th id of the side's parity, and 0 for ever once they have run out. */
  lemma KthStreamId(server: bool, ss: seq<Ids>, es: seq<Event>, i: nat)
    requires Path(server, ss, es) && i < |es| && es[i].OpenStream?
    ensures es[i].id == if Opens(es[..i]) < Stock(server) then First(server) + 2 * Opens(es[..i]) else 0
    ensures es[i].id == 0 || (es[i].id <= MAX_STREAM_ID && es[i].id % 2 == First(server) % 2)
  {
    NextIdIs(server, ss, es, i);
    assert Next(ss[i], es[i], ss[i + 1]);
  }

  lemma {:induction false} OpensGrow(es: seq<Event>, i: nat, j: nat)
    requires i < j <= |es|
    ensures Opens(es[..i]) + (if es[i].OpenStream? then 1 else 0) <= Opens(es[..j])
    decreases j
  {
    assert es[..j][..j - 1] == es[..j - 1];
    if i < j - 1 {
      OpensGrow(es, i, j - 1);
    }
  }

  /** Stream ids strictly increase until they run out; no id is handed out twice. */
  lemma StreamIdsIncrease(server: bool, ss: seq<Ids>, es: seq<Event>, i: nat, j: nat)
    requires Path(server, ss, es) && i < j < |es| && es[i].OpenStream? && es[j].OpenStream?
    ensures es[j].id == 0 || 0 < es[i].id < es[j].id
    ensures es[i].id == 0 ==> es[j].id == 0
  {
    KthStreamId(server, ss, es, i);
    KthStreamId(server, ss, es, j);
    OpensGrow(es, i, j);
  }

  // ---------- Ping ids ----------

  function Advances(es: seq<Event>): nat {
    if es == [] then 0 else Advances(es[..|es| - 1]) + if es[|es| - 1] == PingAdvance then 1 else 0
  }

  lemma {:induction false} PingIdIs(server: bool, ss: seq<Ids>, es: seq<Event>, n: nat)
    requires Path(server, ss, es) && n < |ss|
    ensures ss[n].ping == First(server) + 2 * (Advances(es[..n]) % PING_CYCLE)
  {
    if n > 0 {
      PingIdIs(server, ss, es, n - 1);
      assert es[..n][..n - 1] == es[..n - 1];
      assert Next(ss[n - 1], es[n - 1], ss[n]);
    }
  }

  /** Two pings carry the same id exactly when a whole number of cycles of advances lies between them. */
  lemma PingIdsCollide(server: bool, ss: seq<Ids>, es: seq<Event>, i: nat, j: nat)
    requires Path(server, ss, es) && i < j < |es| && es[i].PingRead? && es[j].PingRead?
    ensures es[i].id == es[j].id <==> Advances(es[..i]) % PING_CYCLE == Advances(es[..j]) % PING_CYCLE
  {
    PingIdIs(server, ss, es, i);
    PingIdIs(server, ss, es, j);
    assert Next(ss[i], es[i], ss[i + 1]) && Next(ss[j], es[j], ss[j + 1]);
  }

  /** Reading the id outside the lock lets two concurrent pings share one. */
  lemma ConcurrentPingsShareAnId(server: bool) returns (ss: seq<Ids>, es: seq<Event>)
    ensures Path(server, ss, es)
    ensures es == [PingRead(First(server)), PingRead(First(server)), PingAdvance, PingAdvance]
  {
    var s0 := Start(server);
    var s1 := AdvancePing(s0);
    es := [PingRead(s0.ping), PingRead(s0.ping), PingAdvance, PingAdvance];
    ss := [s0, s0, s0, s1, AdvancePing(s1)];
  }

  /**
  The two ends of a connection tell their pings apart: whenever a ping one end sent reaches the
  other it is echoed, and when the echo comes back it is not echoed again.
  */
  lemma EchoesTheOthersPings(server: bool, ss: seq<Ids>, es: seq<Event>, i: nat, peer: seq<Ids>, pes: seq<Event>, j: nat, k: nat)
    requires Path(server, ss, es) && i < |es| && es[i].PingRead? && k < |ss|
    requires Path(!server, peer, pes) && j < |peer|
    ensures 0 < es[i].id <= 0x80000000
    ensures Echoes(peer[j], es[i].id) && !Echoes(ss[k], es[i].id)
  {
    PingParity(server, ss, es, i);
    PingParity(server, ss, es, k);
    PingParity(!server, peer, pes, j);
    assert Next(ss[i], es[i], ss[i + 1]);
    hide Path, First;
  }

  lemma PingParity(server: bool, ss: seq<Ids>, es: seq<Event>, n: nat)
    requires Path(server, ss, es) && n < |ss|
    ensures 0 < ss[n].ping <= 0x80000000 && ss[n].ping % 2 == if server then 0 else 1
  {
    PingIdIs(server, ss, es, n);
    Doubled(Advances(es[..n]) % PING_CYCLE);
    hide Path, Advances;
  }

  lemma Doubled(k: nat)
    ensures (2 + 2 * k) % 2 == 0 && (1 + 2 * k) % 2 == 1
  {
  }

  // ---------- Peer stream ids and GOAWAY ----------

  /** The last peer stream accepted, 0 when there is none. */
  function LastAccepted(es: seq<Event>): nat {
    if es == [] then 0
    else if es[|es| - 1].Syn? && es[|es| - 1].accepted then es[|es| - 1].rid
    else LastAccepted(es[..|es| - 1])
  }

  lemma {:induction false} ReceivedIs(server: bool, ss: seq<Ids>, es: seq<Event>, n: nat)
    requires Path(server, ss, es) && n < |ss|
    ensures ss[n].received == if LastAccepted(es[..n]) > 0 then LastAccepted(es[..n]) + 2 else 3 - First(server)
    ensures LastAccepted(es[..n]) <= MAX_STREAM_ID
  {
    if n > 0 {
      ReceivedIs(server, ss, es, n - 1);
      assert es[..n][..n - 1] == es[..n - 1];
      assert Next(ss[n - 1], es[n - 1], ss[n]);
    }
  }

  lemma {:induction false} LaterStates(server: bool, ss: seq<Ids>, es: seq<Event>, i: nat, j: nat)
    requires Path(server, ss, es) && i <= j < |ss|
    ensures ss[i].received <= ss[j].received && (ss[i].goneAway ==> ss[j].goneAway)
  {
    if i < j {
      LaterStates(server, ss, es, i, j - 1);
      assert Next(ss[j - 1], es[j - 1], ss[j]);
    }
  }

  /** Accepted peer stream ids strictly increase. */
  lemma AcceptedIncrease(server: bool, ss: seq<Ids>, es: seq<Event>, i: nat, j: nat)
    requires Path(server, ss, es) && i < j < |es|
    requires es[i].Syn? && es[i].accepted && es[j].Syn? && es[j].accepted
    ensures 0 < es[i].rid < es[j].rid <= MAX_STREAM_ID
  {
    ReceivedIs(server, ss, es, i);
    LaterStates(server, ss, es, i + 1, j);
    assert Next(ss[i], es[i], ss[i + 1]) && Next(ss[j], es[j], ss[j + 1]);
  }

  lemma {:induction false} KthOpen(es: seq<Event>, k: nat) returns (j: nat)
    requires k < Opens(es)
    ensures j < |es| && es[j].OpenStream? && Opens(es[..j]) == k
  {
    var n := |es| - 1;
    if k < Opens(es[..n]) {
      j := KthOpen(es[..n], k);
      assert es[..n][..j] == es[..j];
    } else {
      j := n;
    }
  }

  /**
  A peer's id of the connection's own parity is accepted like any other.  It collides with the id of
  a local stream exactly when it is below the next local id, now or at any later point of the run.
  */
  lemma AcceptedCollidesIff(server: bool, ss: seq<Ids>, es: seq<Event>, i: nat)
    requires Path(server, ss, es) && i < |es| && es[i].Syn? && es[i].accepted
    ensures (exists j :: 0 <= j < |es| && es[j].OpenStream? && es[j].id == es[i].rid)
       <==> es[i].rid % 2 == First(server) % 2 && es[i].rid < ss[|es|].next
  {
    var rid, n := es[i].rid, |es|;
    ReceivedIs(server, ss, es, i);
    assert Next(ss[i], es[i], ss[i + 1]);
    NextIdIs(server, ss, es, n);
    assert es[..n] == es;
    forall j | 0 <= j < n && es[j].OpenStream? && es[j].id == rid ensures rid % 2 == First(server) % 2 && rid < ss[n].next {
      KthStreamId(server, ss, es, j);
      OpensGrow(es, j, n);
    }
    if rid % 2 == First(server) % 2 && rid < ss[n].next {
      var k := HalfUp(rid, First(server));
      hide Path, Next, Opens;
      var j := KthOpen(es, k);
      KthStreamId(server, ss, es, j);
    }
  }

  lemma HalfUp(n: nat, first: nat) returns (k: nat)
    requires first <= n && n % 2 == first % 2
    ensures n == first + 2 * k
  {
    k := (n - first) / 2;
  }

  /** A client that has opened stream 3 accepts the peer's stream 3. */
  lemma AcceptedMayCollide() returns (ss: seq<Ids>, es: seq<Event>)
    ensures Path(false, ss, es) && es == [OpenStream(1), OpenStream(3), Syn(3, true)]
  {
    es := [OpenStream(1), OpenStream(3), Syn(3, true)];
    ss := [Ids(1, 2, 1, false), Ids(3, 2, 1, false), Ids(5, 2, 1, false), Ids(5, 5, 1, false)];
  }

  /** The ids that two such ends hand out are never the same. */
  lemma EndsNeverShareAnId(server: bool, ss: seq<Ids>, es: seq<Event>, i: nat, peer: seq<Ids>, pes: seq<Event>, j: nat)
    requires Path(server, ss, es) && i < |es| && es[i].OpenStream? && es[i].id != 0
    requires Path(!server, peer, pes) && j < |pes| && pes[j].OpenStream?
    ensures es[i].id != pes[j].id
  {
    KthStreamId(server, ss, es, i);
    KthStreamId(!server, peer, pes, j);
  }

  /**
  A GOAWAY names the last peer stream accepted, or 0; there is at most one, and nothing is
  accepted after it or after the peer's own.
  */
  lemma GoAwayIsLast(server: bool, ss: seq<Ids>, es: seq<Event>, i: nat, j: nat)
    requires Path(server, ss, es) && i < |es|
    ensures es[i].Close? && es[i].goAway.Some? ==> es[i].goAway.value == LastAccepted(es[..i])
    ensures i < j < |es| && (es[i].Close? || es[i].PeerGoAway?) ==>
              !(es[j].Close? && es[j].goAway.Some?) && !(es[j].Syn? && es[j].accepted)
    ensures i < j < |es| && (es[i].Close? || es[i].PeerGoAway?) ==> ss[j].goneAway
  {
    ReceivedIs(server, ss, es, i);
    assert Next(ss[i], es[i], ss[i + 1]);
    if i < j < |es| {
      LaterStates(server, ss, es, i + 1, j);
      assert Next(ss[j], es[j], ss[j + 1]);
    }
  }

  /** A reachable close of a connection that nobody has ended yet does send one. */
  lemma FirstCloseSpeaks(server: bool, ss: seq<Ids>, es: seq<Event>, i: nat)
    requires Path(server, ss, es) && i < |es| && es[i].Close?
    requires forall j :: 0 <= j < i ==> !es[j].Close? && !es[j].PeerGoAway?
    ensures es[i].goAway == Some(LastAccepted(es[..i]))
  {
    NotGoneYet(server, ss, es, i);
    ReceivedIs(server, ss, es, i);
    assert Next(ss[i], es[i], ss[i + 1]);
  }

  lemma {:induction false} NotGoneYet(server: bool, ss: seq<Ids>, es: seq<Event>, n: nat)
    requires Path(server, ss, es) && n < |ss|
    requires forall j :: 0 <= j < n ==> !es[j].Close? && !es[j].PeerGoAway?
    ensures !ss[n].goneAway
  {
    if n > 0 {
      NotGoneYet(server, ss, es, n - 1);
      assert Next(ss[n - 1], es[n - 1], ss[n]);
    }
  }

  // ---------- In numbers ----------

  /** A client hands out 1, 3, 5 and so on, a server 2, 4, 6, up to 2^31 - 1, and then 0. */
  lemma StreamIdsAre(server: bool, ss: seq<Ids>, es: seq<Event>, i: nat)
    requires Path(server, ss, es) && i < |es| && es[i].OpenStream?
    ensures var id := 2 * Opens(es[..i]) + if server then 2 else 1;
            es[i].id == if id <= 2147483647 then id else 0
  {
    KthStreamId(server, ss, es, i);
  }

  /** Ping ids run through the same parity, 2^30 of them, and start again. */
  lemma PingIdsAre(server: bool, ss: seq<Ids>, es: seq<Event>, i: nat)
    requires Path(server, ss, es) && i < |es| && es[i].PingRead?
    ensures es[i].id == 2 * (Advances(es[..i]) % 1073741824) + if server then 2 else 1
  {
    PingIdIs(server, ss, es, i);
    assert Next(ss[i], es[i], ss[i + 1]);
  }

  /** A server echoes the odd pings, a client the even ones. */
  lemma EchoesIff(server: bool, ss: seq<Ids>, es: seq<Event>, i: nat)
    requires Path(server, ss, es) && i < |es| && es[i].PeerPing?
    ensures es[i].echoed <==> es[i].id % 2 == if server then 1 else 0
  {
    PingIdIs(server, ss, es, i);
    assert Next(ss[i], es[i], ss[i + 1]);
  }

  /**
  A stream of the peer is accepted exactly when neither side has gone away and its id is at least 2
  above the last one accepted, or the first the peer can have, and below 2^31.
  */
  lemma AcceptedIff(server: bool, ss: seq<Ids>, es: seq<Event>, i: nat)
    requires Path(server, ss, es) && i < |es| && es[i].Syn?
    ensures es[i].accepted <==>
              && (forall j :: 0 <= j < i ==> !es[j].Close? && !es[j].PeerGoAway?)
              && (if LastAccepted(es[..i]) > 0 then LastAccepted(es[..i]) + 2 else if server then 1 else 2) <= es[i].rid <= 2147483647
  {
    ReceivedIs(server, ss, es, i);
    assert Next(ss[i], es[i], ss[i + 1]);
    if forall j :: 0 <= j < i ==> !es[j].Close? && !es[j].PeerGoAway? {
      NotGoneYet(server, ss, es, i);
    } else {
      var j :| 0 <= j < i && (es[j].Close? || es[j].PeerGoAway?);
      assert Next(ss[j], es[j], ss[j + 1]);
      LaterStates(server, ss, es, j + 1, i);
    }
  }
}

/**
A backend server and its tunnel slots.  Connections are named by numbers; what the network
answers (the next stream id of a connection, whether a stream can be opened) is a parameter.
*/
module Backends {
  import opened TunnelRepair
  import opened Wrappers
  import Ids = ConnectionIds

  const THRESH_STREAM_ID: int := 0x7fffffff - 0x10_0000

  /** Outcome of `ForwarderNewConnection`: a stream on a tunnel, or the plain dial it falls back to. */
  datatype Connected = Stream(slot: nat) | Dialled

  /**
  What a forwarder meets: `loads(i)` and `meets(i)` are the slots as the other goroutines have left
  them when it loads the slot of round `i` and when it comes to its compare-and-swap, and `opens`
  tells which connections open a stream.
  */
  datatype Others = Others(loads: nat -> seq<Slot<nat>>, meets: nat -> seq<Slot<nat>>, opens: nat -> bool) {
    ghost predicate Fit(tunnels: nat) {
      forall i: nat :: i < tunnels ==> |loads(i)| == tunnels && |meets(i)| == tunnels
    }
  }

  class Backend {
    const address: string
    const weight: int
    const tunnels: nat
    var tunnel: seq<Slot<nat>>
    var tcpAddr: map<nat, nat>          // by slot, the local address of the connection put there last
    var index: int
    var ongoing: int
    var count: nat

    /** As in the source, `index` starts at 0 and becomes -1 only when the backend leaves the heap. */
    constructor (address: string, tunnels: nat, weight: int)
      ensures this.address == address && this.tunnels == tunnels && this.weight == weight
      ensures tunnel == seq(tunnels, i => Slot(None, false)) && index == 0 && ongoing == 0 && count == 0 && tcpAddr == map[]
    {
      this.address, this.tunnels, this.weight := address, tunnels, weight;
      tunnel := seq(tunnels, i => Slot(None, false));
      index, ongoing, count, tcpAddr := 0, 0, 0, map[];
    }

    /** Put a new connection and its address in a slot; the connection that was there is closed. */
    method SwitchSpdyConn(i: nat, to: nat, addr: nat) returns (closed: Option<nat>)
      requires i < |tunnel|
      modifies this`tunnel, this`tcpAddr
      ensures tunnel == old(tunnel)[i := Slot(Some(to), false)] && closed == old(tunnel)[i].conn
      ensures tcpAddr == old(tcpAddr)[i := addr]
    {
      closed := None;
      if tunnel[i].conn.Some? {
        closed := tunnel[i].conn;
      }
      tunnel := tunnel[i := Slot(Some(to), false)];
      tcpAddr := tcpAddr[i := addr];
    }

    /** A connection that is up, not being replaced, and nearly out of stream ids. */
    static ghost predicate NearlyUsedUp(slot: Slot<nat>, peek: nat -> int) {
      slot.conn.Some? && !slot.switching && peek(slot.conn.value) > THRESH_STREAM_ID
    }

    /**
    Starts a session for every slot whose connection is nearly out of stream ids.  `elapsed` says
    that five seconds have passed since the last check of any backend; `created` lists the slots.
    */
    method SpdyCheckStreamId(elapsed: bool, peek: nat -> int) returns (created: set<nat>)
      requires |tunnel| == tunnels
      modifies this`tunnel, this`count
      ensures count == old(count) + 1 && |tunnel| == tunnels
      ensures created == set i: nat | i < tunnels && elapsed && NearlyUsedUp(old(tunnel)[i], peek)
      ensures forall i :: 0 <= i < tunnels ==>
                tunnel[i] == if i in created then old(tunnel)[i].(switching := true) else old(tunnel)[i]
    {
      count := count + 1;
      created := {};
      if tunnels == 0 || !elapsed {
        return;
      }
      for i := 0 to tunnels
        invariant |tunnel| == tunnels && count == old(count) + 1
        invariant created == set k: nat | k < i && NearlyUsedUp(old(tunnel)[k], peek)
        invariant forall k :: 0 <= k < tunnels ==>
                    tunnel[k] == if k in created then old(tunnel)[k].(switching := true) else old(tunnel)[k]
      {
        if tunnel[i].conn.Some? {
          if !tunnel[i].switching {
            if peek(tunnel[i].conn.value) > THRESH_STREAM_ID {
              tunnel := tunnel[i := tunnel[i].(switching := true)];
              created := created + {i};
            }
          }
        }
      }
    }

    /** What the threshold is for: a connection that is left alone has more than 2^19 stream ids left to hand out. */
    static lemma LeftAloneHasIds(slot: Slot<nat>, next: nat)
      requires slot.conn.Some? && !slot.switching && !NearlyUsedUp(slot, _ => next)
      ensures next + 2 * 0x8_0000 <= Ids.MAX_STREAM_ID
      ensures next == Ids.MAX_STREAM_ID - 2 * 0x8_0000 + 1 ==> NearlyUsedUp(slot, _ => next)
    {
    }

    /** The slot probed in round `i`. */
    function Probe(i: nat): (k: nat)
      requires tunnels > 0
      reads this`count
      ensures k < tunnels
    {
      (count + i) % tunnels
    }

    static ghost predicate Opens(slots: seq<Slot<nat>>, opens: nat -> bool, k: nat) {
      k < |slots| && slots[k].conn.Some? && opens(slots[k].conn.value)
    }

    /** The slots probed before round `r` whose connection is up but opens no stream, in order. */
    ghost function Broken(slots: seq<Slot<nat>>, opens: nat -> bool, r: nat): seq<nat>
      requires tunnels > 0 && |slots| == tunnels
      reads this`count
    {
      if r == 0 then []
      else
        Broken(slots, opens, r - 1)
        + if slots[Probe(r - 1)].conn.Some? && !opens(slots[Probe(r - 1)].conn.value) then [Probe(r - 1)] else []
    }

    static lemma Multiple(k: int, t: int)
      requires t > 0 && k != 0
      ensures k * t >= t || k * t <= -t
    {
      if k >= 1 {
        assert (k - 1) * t >= 0;
      } else {
        assert (-k - 1) * t >= 0;
      }
    }

    static lemma Remainder(q: nat, r: nat, t: nat)
      requires r < t
      ensures (q * t + r) % t == r
    {
      var x: nat := q * t + r;
      assert x == (x / t) * t + x % t;
      assert (q - x / t) * t == x % t - r;
      if q != x / t {
        Multiple(q - x / t, t);
      }
    }

    /** Less than a round apart is another slot. */
    static lemma Apart(from: nat, i: nat, j: nat, t: nat)
      requires i < j < t
      ensures (from + i) % t != (from + j) % t
    {
      var x := from + i;
      var q, r := x / t, x % t;
      assert x == q * t + r;
      if r + (j - i) < t {
        Remainder(q, r + (j - i), t);
      } else {
        Remainder(q + 1, r + (j - i) - t, t);
        assert (q + 1) * t == q * t + t;
      }
    }

    /** A round of probes visits no slot twice. */
    lemma ProbesDiffer(i: nat, j: nat)
      requires i < j < tunnels
      ensures Probe(i) != Probe(j)
    {
      Apart(count, i, j, tunnels);
    }

    /** The slots of `slots` have lost their connections. */
    static ghost predicate Taken(before: seq<Slot<nat>>, after: seq<Slot<nat>>, slots: seq<nat>) {
      && |after| == |before|
      && forall k :: 0 <= k < |before| ==> after[k] == if k in slots then before[k].(conn := None) else before[k]
    }

    lemma NoneTaken(slots: seq<Slot<nat>>, opens: nat -> bool)
      requires tunnels > 0 && |slots| == tunnels
      ensures Taken(slots, slots, []) && Broken(slots, opens, 0) == []
    {
    }

    static lemma TakeOne(before: seq<Slot<nat>>, after: seq<Slot<nat>>, slots: seq<nat>, k: nat)
      requires Taken(before, after, slots) && k < |before| && k !in slots
      ensures |after| == |before| && after[k] == before[k]
      ensures Taken(before, after[k := after[k].(conn := None)], slots + [k])
    {
    }

    // ---------- The probing loop ----------

    /** The connection loaded in round `i`. */
    function Loaded(o: Others, i: nat): Option<nat>
      requires o.Fit(tunnels) && i < tunnels
      reads this`count
    {
      o.loads(i)[Probe(i)].conn
    }

    ghost predicate Works(o: Others, i: nat)
      requires o.Fit(tunnels) && i < tunnels
      reads this`count
    {
      Loaded(o, i).Some? && o.opens(Loaded(o, i).value)
    }

    /** The compare-and-swap of round `i` wins: the stream failed and its connection is still in the slot. */
    ghost predicate Wins(o: Others, i: nat)
      requires o.Fit(tunnels) && i < tunnels
      reads this`count
    {
      Loaded(o, i).Some? && !o.opens(Loaded(o, i).value) && o.meets(i)[Probe(i)].conn == Loaded(o, i)
    }

    /** The slots that the first `r` rounds report, each with the connection closed for it. */
    ghost function Won(o: Others, r: nat): seq<(nat, nat)>
      requires o.Fit(tunnels) && r <= tunnels
      reads this`count
    {
      if r == 0 then [] else Won(o, r - 1) + if Wins(o, r - 1) then [(Probe(r - 1), Loaded(o, r - 1).value)] else []
    }

    /** What those rounds write, each time before and after: the connection of one slot, and nothing else. */
    ghost function Writes(o: Others, r: nat): seq<(seq<Slot<nat>>, seq<Slot<nat>>)>
      requires o.Fit(tunnels) && r <= tunnels
      reads this`count
    {
      if r == 0 then []
      else
        Writes(o, r - 1)
        + if Wins(o, r - 1) then [(o.meets(r - 1), o.meets(r - 1)[Probe(r - 1) := o.meets(r - 1)[Probe(r - 1)].(conn := None)])]
          else []
    }

    /** The slots as round `i` leaves them. */
    ghost function Left(o: Others, i: nat): seq<Slot<nat>>
      requires o.Fit(tunnels) && i < tunnels
      reads this`count
    {
      var k := Probe(i);
      if Wins(o, i) then o.meets(i)[k := o.meets(i)[k].(conn := None)]
      else if Loaded(o, i).Some? && !Works(o, i) then o.meets(i)
      else o.loads(i)
    }

    lemma NoRound(o: Others)
      requires o.Fit(tunnels)
      ensures Won(o, 0) == [] && Writes(o, 0) == []
    {
    }

    lemma OneRound(o: Others, i: nat)
      requires o.Fit(tunnels) && i < tunnels
      ensures var k, c := Probe(i), o.loads(i)[Probe(i)].conn;
              && (Works(o, i) <==> c.Some? && o.opens(c.value))
              && (Wins(o, i) <==> c.Some? && !o.opens(c.value) && o.meets(i)[k].conn == c)
              && Won(o, i + 1) == Won(o, i) + (if Wins(o, i) then [(k, c.value)] else [])
              && Writes(o, i + 1) ==
                   Writes(o, i) + (if Wins(o, i) then [(o.meets(i), o.meets(i)[k := o.meets(i)[k].(conn := None)])] else [])
              && Left(o, i) == if Wins(o, i) then o.meets(i)[k := o.meets(i)[k].(conn := None)]
                               else if c.Some? && !Works(o, i) then o.meets(i) else o.loads(i)
    {
      hide Probe;
    }

    /**
    The probing loop of a forwarder, whatever the other goroutines do in between: slots are tried in
    turn from `count` on, the first one whose connection opens a stream wins, and every other
    connection met on the way is taken off its slot, closed and reported, unless it has left it.
    */
    method ForwarderNewConnection(o: Others)
      returns (res: Connected, won: seq<(nat, nat)>, ghost round: nat, ghost writes: seq<(seq<Slot<nat>>, seq<Slot<nat>>)>)
      requires o.Fit(tunnels)
      modifies this`tunnel
      ensures round <= tunnels && forall i :: 0 <= i < round ==> !Works(o, i)
      ensures res.Stream? ==> round < tunnels && res.slot == (count + round) % tunnels && Works(o, round)
      ensures tunnels > 0 && Opens(o.loads(0), o.opens, count % tunnels) ==> res == Stream(count % tunnels)
      ensures res.Dialled? ==> round == tunnels
      ensures won == Won(o, round) && writes == Writes(o, round)
      ensures tunnel == if tunnels == 0 then old(tunnel) else Left(o, if res.Stream? then round else tunnels - 1)
    {
      hide Probe, Won, Writes, Works, Wins, Left, Opens;
      won, round, writes := [], 0, [];
      NoRound(o);
      if tunnels <= 0 {
        return Dialled, won, 0, writes;
      }
      for i := 0 to tunnels
        invariant round == i && forall k :: 0 <= k < i ==> !Works(o, k)
        invariant i > 0 ==> !Opens(o.loads(0), o.opens, count % tunnels)
        invariant won == Won(o, i) && writes == Writes(o, i)
        invariant i > 0 ==> tunnel == Left(o, i - 1)
      {
        var index := Probe(i);
        Starts(o, i);
        OneRound(o, i);
        tunnel := o.loads(i);
        var spdyconn := tunnel[index].conn;
        if spdyconn.Some? {
          if o.opens(spdyconn.value) {
            return Stream(index), won, i, writes;
          }
          tunnel := o.meets(i);
          if tunnel[index].conn == spdyconn {
            tunnel := tunnel[index := tunnel[index].(conn := None)];
            writes := writes + [(o.meets(i), tunnel)];
            won := won + [(index, spdyconn.value)];
          }
        }
        round := round + 1;
      }
      res := Dialled;
    }

    // ---------- Where the probing starts ----------

    /** As long as the slot of each round is as it was, round `i` tries the slot `i` places after `count`, around the ring. */
    lemma ProbesFromCount(o: Others, slots: seq<Slot<nat>>, r: nat)
      requires o.Fit(tunnels) && |slots| == tunnels && r <= tunnels
      requires forall i: nat :: i < r ==> o.loads(i)[(count + i) % tunnels] == slots[(count + i) % tunnels]
      ensures forall i: nat :: i < r ==> (Works(o, i) <==> Opens(slots, o.opens, (count + i) % tunnels))
    {
      forall i: nat | i < r ensures Works(o, i) <==> Opens(slots, o.opens, (count + i) % tunnels) {
        Starts(o, i);
        hide Works;
        assert o.loads(i)[(count + i) % tunnels] == slots[(count + i) % tunnels];
      }
    }

    lemma Starts(o: Others, i: nat)
      requires o.Fit(tunnels) && i < tunnels
      ensures Probe(i) == (count + i) % tunnels
      ensures Works(o, i) <==> Opens(o.loads(i), o.opens, (count + i) % tunnels)
    {
    }

    /**
    When every connection opens streams, as many consecutive counts as there are slots take each slot
    exactly once: `d` calls later it is the turn of slot `k`, and `Apart` lets no other turn be the same.
    */
    static lemma EverySlotHasATurn(from: nat, tunnels: nat, k: nat) returns (d: nat)
      requires k < tunnels
      ensures d < tunnels && (from + d) % tunnels == k
    {
      var q, r := from / tunnels, from % tunnels;
      assert from == q * tunnels + r;
      if r <= k {
        d := k - r;
        Remainder(q, k, tunnels);
      } else {
        d := tunnels + k - r;
        Remainder(q + 1, k, tunnels);
        assert (q + 1) * tunnels == q * tunnels + tunnels;
      }
    }

    // ---------- Nobody interferes ----------

    /** The slots after `r` rounds that start from `slots`. */
    ghost function Alone(slots: seq<Slot<nat>>, opens: nat -> bool, r: nat): (after: seq<Slot<nat>>)
      requires tunnels > 0 && |slots| == tunnels
      reads this`count
      ensures |after| == tunnels
    {
      if r == 0 then slots
      else
        var before, k := Alone(slots, opens, r - 1), Probe(r - 1);
        if before[k].conn.Some? && !opens(before[k].conn.value) then before[k := before[k].(conn := None)] else before
    }

    ghost predicate Undisturbed(o: Others, slots: seq<Slot<nat>>, r: nat)
      requires tunnels > 0 && |slots| == tunnels && r <= tunnels
      reads this`count
    {
      forall i: nat :: i < r ==> o.loads(i) == o.meets(i) == Alone(slots, o.opens, i)
    }

    /** A slot is as it was until its round comes. */
    lemma {:induction false} NotProbedYet(slots: seq<Slot<nat>>, opens: nat -> bool, r: nat, i: nat)
      requires |slots| == tunnels && r <= i < tunnels
      ensures Alone(slots, opens, r)[Probe(i)] == slots[Probe(i)]
    {
      hide Probe;
      if r > 0 {
        NotProbedYet(slots, opens, r - 1, i);
        ProbesDiffer(r - 1, i);
      }
    }

    static function Slots(won: seq<(nat, nat)>): seq<nat> { seq(|won|, i requires 0 <= i < |won| => won[i].0) }

    lemma {:induction false} BrokenWereProbed(slots: seq<Slot<nat>>, opens: nat -> bool, r: nat, i: nat)
      requires |slots| == tunnels && r <= i < tunnels
      ensures Probe(i) !in Broken(slots, opens, r)
    {
      hide Probe;
      if r > 0 {
        BrokenWereProbed(slots, opens, r - 1, i);
        ProbesDiffer(r - 1, i);
      }
    }

    lemma SlotsAppend(won: seq<(nat, nat)>, more: seq<(nat, nat)>)
      ensures Slots(won + more) == Slots(won) + Slots(more)
    {
    }

    /** A round without interference looks at the slot as it was in the beginning. */
    lemma RoundAlone(o: Others, slots: seq<Slot<nat>>, i: nat)
      requires o.Fit(tunnels) && |slots| == tunnels && i < tunnels && o.loads(i) == o.meets(i) == Alone(slots, o.opens, i)
      ensures Works(o, i) <==> Opens(slots, o.opens, Probe(i))
      ensures Wins(o, i) <==> slots[Probe(i)].conn.Some? && !o.opens(slots[Probe(i)].conn.value)
      ensures Left(o, i) == Alone(slots, o.opens, i + 1)
    {
      hide Probe;
      NotProbedYet(slots, o.opens, i, i);
    }

    lemma {:induction false} ClearedAlone(slots: seq<Slot<nat>>, opens: nat -> bool, r: nat)
      requires tunnels > 0 && |slots| == tunnels && r <= tunnels
      ensures Taken(slots, Alone(slots, opens, r), Broken(slots, opens, r))
    {
      hide Probe, Taken;
      NoneTaken(slots, opens);
      if r > 0 {
        ClearedAlone(slots, opens, r - 1);
        NotProbedYet(slots, opens, r - 1, r - 1);
        BrokenWereProbed(slots, opens, r - 1, r - 1);
        TakeOne(slots, Alone(slots, opens, r - 1), Broken(slots, opens, r - 1), Probe(r - 1));
        assert Broken(slots, opens, r - 1) + [] == Broken(slots, opens, r - 1);
      }
    }

    lemma {:induction false} WonAlone(o: Others, slots: seq<Slot<nat>>, r: nat)
      requires o.Fit(tunnels) && tunnels > 0 && |slots| == tunnels && r <= tunnels && Undisturbed(o, slots, r)
      ensures Slots(Won(o, r)) == Broken(slots, o.opens, r)
    {
      if r > 0 {
        WonAlone(o, slots, r - 1);
        RoundAlone(o, slots, r - 1);
        OneRound(o, r - 1);
        hide Probe, Won, Wins, Works, Opens, Alone;
        var c := o.loads(r - 1)[Probe(r - 1)].conn;
        SlotsAppend(Won(o, r - 1), if Wins(o, r - 1) then [(Probe(r - 1), c.value)] else []);
      }
    }

    /**
    Without interference the winner is the first slot from `count` on whose connection opens a stream,
    and exactly the broken ones before it are reported, in that order, and cleared.
    */
    lemma UndisturbedProbes(o: Others, slots: seq<Slot<nat>>, r: nat)
      requires o.Fit(tunnels) && tunnels > 0 && |slots| == tunnels && r <= tunnels && Undisturbed(o, slots, r)
      ensures forall i :: 0 <= i < r ==> (Works(o, i) <==> Opens(slots, o.opens, Probe(i)))
      ensures Slots(Won(o, r)) == Broken(slots, o.opens, r)
      ensures r > 0 ==> Taken(slots, Left(o, r - 1), Broken(slots, o.opens, r))
    {
      forall i | 0 <= i < r ensures Works(o, i) <==> Opens(slots, o.opens, Probe(i)) {
        RoundAlone(o, slots, i);
      }
      WonAlone(o, slots, r);
      ClearedAlone(slots, o.opens, r);
      if r > 0 {
        RoundAlone(o, slots, r - 1);
      }
    }
  }
}

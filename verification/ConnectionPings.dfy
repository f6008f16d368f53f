/**
The channels on which the callers of `Ping` wait, over whole runs: each call makes one and enters it
under its id, an echo closes the one that is entered, and the call deletes the entry when it returns.
Channels are numbered in the order they are made.
*/
module ConnectionPings {
  datatype Pings = Pings(chans: map<nat, nat>, closes: multiset<nat>, made: nat)

  /** `Forget` is the deferred delete of a call. */
  datatype Event = Register(id: nat) | Echo(id: nat) | Forget(id: nat)

  function Start(): Pings { Pings(map[], multiset{}, 0) }

  function Next(s: Pings, e: Event): Pings {
    match e
    case Register(id) => s.(chans := s.chans[id := s.made], made := s.made + 1)
    case Echo(id) => if id in s.chans then s.(closes := s.closes + multiset{s.chans[id]}) else s
    case Forget(id) => s.(chans := s.chans - {id})
  }

  function After(es: seq<Event>): Pings {
    if es == [] then Start() else Next(After(es[..|es| - 1]), es[|es| - 1])
  }

  /** Calls that have made their channel. */
  function Made(es: seq<Event>): nat {
    if es == [] then 0 else Made(es[..|es| - 1]) + if es[|es| - 1].Register? then 1 else 0
  }

  /** The entry made by event `k` is still there before event `n`. */
  ghost predicate Entered(es: seq<Event>, k: nat, n: nat) {
    k < n <= |es| && es[k].Register? && forall i :: k < i < n ==> es[i] != Forget(es[k].id) && es[i] != Register(es[k].id)
  }

  /** Echoes of the id of event `k` that arrive while its entry is there, among the first `n` events. */
  ghost function Echoes(es: seq<Event>, k: nat, n: nat): nat
    requires k < |es| && es[k].Register? && n <= |es|
  {
    if n == 0 then 0
    else Echoes(es, k, n - 1) + if Entered(es, k, n - 1) && es[n - 1] == Echo(es[k].id) then 1 else 0
  }

  /** The channel of event `k` is under its own id only, exactly while its entry is there, and closed by each echo meanwhile. */
  ghost predicate Follows(es: seq<Event>, k: nat, n: nat, s: Pings)
    requires k < |es| && es[k].Register? && n <= |es|
  {
    var id, c := es[k].id, Made(es[..k]);
    && (forall x :: x in s.chans && s.chans[x] == c ==> x == id)
    && (Entered(es, k, n) <==> id in s.chans && s.chans[id] == c)
    && s.closes[c] == Echoes(es, k, n)
  }

  ghost predicate Holds(es: seq<Event>, n: nat, s: Pings)
    requires n <= |es|
  {
    && s.made == Made(es[..n])
    && (forall id :: id in s.chans ==> s.chans[id] < s.made)
    && (forall k :: 0 <= k < n && es[k].Register? ==> Follows(es, k, n, s))
    && (forall c :: c in s.closes ==> c < s.made)
  }

  lemma {:induction false} MadeGrows(es: seq<Event>, i: nat, j: nat)
    requires i < j <= |es|
    ensures Made(es[..i]) + (if es[i].Register? then 1 else 0) <= Made(es[..j])
    decreases j
  {
    assert es[..j][..j - 1] == es[..j - 1];
    if i < j - 1 {
      MadeGrows(es, i, j - 1);
    }
  }

  lemma AfterStep(es: seq<Event>, n: nat)
    requires n < |es|
    ensures After(es[..n + 1]) == Next(After(es[..n]), es[n])
    ensures Made(es[..n + 1]) == Made(es[..n]) + if es[n].Register? then 1 else 0
  {
    assert es[..n + 1][..n] == es[..n];
  }

  lemma {:induction false} RunHolds(es: seq<Event>, n: nat)
    requires n <= |es|
    ensures Holds(es, n, After(es[..n]))
  {
    hide Follows, Entered, Echoes, After, Made;
    if n == 0 {
      NothingYet(es);
    } else {
      RunHolds(es, n - 1);
      AfterStep(es, n - 1);
      forall k | 0 <= k < n && es[k].Register? ensures Follows(es, k, n, After(es[..n])) {
        EntryKept(es, k, n);
      }
    }
  }

  lemma NothingYet(es: seq<Event>)
    ensures After(es[..0]) == Start() && Made(es[..0]) == 0
  {
  }

  lemma EntryKept(es: seq<Event>, k: nat, n: nat)
    requires k < n <= |es| && es[k].Register? && Holds(es, n - 1, After(es[..n - 1]))
    ensures Follows(es, k, n, After(es[..n]))
  {
    AfterStep(es, n - 1);
    var s, t := After(es[..n - 1]), After(es[..n]);
    if k < n - 1 {
      MadeGrows(es, k, n - 1);
      assert Follows(es, k, n - 1, s) && Made(es[..k]) < s.made;
      hide Made, After, Holds;
      EntryStep(es, k, n, s);
    } else {
      NoEchoYet(es, k, n - 1);
      assert s.closes[s.made] == 0;
    }
  }

  lemma EntryStep(es: seq<Event>, k: nat, n: nat, s: Pings)
    requires k < n - 1 < n <= |es| && es[k].Register? && Follows(es, k, n - 1, s) && Made(es[..k]) < s.made
    ensures Follows(es, k, n, Next(s, es[n - 1]))
  {
    hide Made;
    EnteredStep(es, k, n);
  }

  lemma EnteredStep(es: seq<Event>, k: nat, n: nat)
    requires k < n - 1 < n <= |es| && es[k].Register?
    ensures Entered(es, k, n) <==> Entered(es, k, n - 1) && es[n - 1] != Forget(es[k].id) && es[n - 1] != Register(es[k].id)
  {
  }

  lemma {:induction false} NoEchoYet(es: seq<Event>, k: nat, n: nat)
    requires n <= k < |es| && es[k].Register?
    ensures Echoes(es, k, n) == 0
  {
    if n > 0 {
      NoEchoYet(es, k, n - 1);
    }
  }

  // ---------- When a channel is closed twice ----------

  /** Two echoes of the id of event `k` before its entry goes. */
  ghost predicate EchoedTwice(es: seq<Event>, k: nat, n: nat, i: nat, j: nat)
    requires n <= |es|
  {
    i < j < n && Entered(es, k, j) && es[i] == Echo(es[k].id) && es[j] == Echo(es[k].id) && k < i
  }

  lemma {:induction false} EchoesMean(es: seq<Event>, k: nat, n: nat)
    requires k < |es| && es[k].Register? && n <= |es|
    ensures Echoes(es, k, n) >= 1 <==> exists i: nat :: i < n && Entered(es, k, i) && es[i] == Echo(es[k].id)
    ensures Echoes(es, k, n) >= 2 <==> exists i: nat, j: nat :: EchoedTwice(es, k, n, i, j)
    decreases n
  {
    if n > 0 {
      EchoesMean(es, k, n - 1);
      var last := Entered(es, k, n - 1) && es[n - 1] == Echo(es[k].id);
      if Echoes(es, k, n - 1) >= 2 {
        var i: nat, j: nat :| EchoedTwice(es, k, n - 1, i, j);
        assert EchoedTwice(es, k, n, i, j);
      } else if last && Echoes(es, k, n - 1) >= 1 {
        var i: nat :| i < n - 1 && Entered(es, k, i) && es[i] == Echo(es[k].id);
        assert EchoedTwice(es, k, n, i, n - 1);
      }
      if i: nat, j: nat :| EchoedTwice(es, k, n, i, j) {
        assert Entered(es, k, i);
        assert j < n - 1 ==> EchoedTwice(es, k, n - 1, i, j);
      }
    }
  }

  lemma {:induction false} KthRegister(es: seq<Event>, c: nat) returns (k: nat)
    requires c < Made(es)
    ensures k < |es| && es[k].Register? && Made(es[..k]) == c
  {
    var n := |es| - 1;
    if c < Made(es[..n]) {
      k := KthRegister(es[..n], c);
      assert es[..n][..k] == es[..k];
    } else {
      k := n;
    }
  }

  /** No channel is ever closed twice, which would panic, exactly when no id is echoed twice before the call that used it returns. */
  lemma ClosedOnceIff(es: seq<Event>)
    ensures (forall c :: After(es).closes[c] <= 1)
       <==> forall k: nat, i: nat, j: nat :: k < |es| && es[k].Register? ==> !EchoedTwice(es, k, |es|, i, j)
  {
    var n, s := |es|, After(es);
    assert es[..n] == es;
    RunHolds(es, n);
    forall k | 0 <= k < n && es[k].Register?
      ensures s.closes[Made(es[..k])] >= 2 <==> exists i: nat, j: nat :: EchoedTwice(es, k, n, i, j)
    {
      assert Follows(es, k, n, s);
      EchoesMean(es, k, n);
    }
    hide EchoedTwice, After, Follows;
    forall c | s.closes[c] >= 2 ensures exists k: nat, i: nat, j: nat :: k < n && es[k].Register? && EchoedTwice(es, k, n, i, j) {
      assert c in s.closes;
      var k := KthRegister(es, c);
    }
  }

  /** A peer that echoes twice before the call has returned. */
  lemma TwoEchoes(id: nat)
    ensures After([Register(id), Echo(id), Echo(id)]).closes[0] == 2
  {
    var es := [Register(id), Echo(id), Echo(id)];
    assert es[..2] == [Register(id), Echo(id)] && es[..2][..1] == [Register(id)] && es[..2][..1][..0] == [];
    assert After([Register(id)]) == Next(Start(), Register(id));
  }

  /** Two calls that share an id: the entry is the second one's, and the first is not woken any more. */
  lemma {:induction false} ReplacedSleeps(es: seq<Event>, k: nat, j: nat, n: nat)
    requires k < j < n <= |es| && es[k].Register? && es[j] == es[k]
    ensures Echoes(es, k, n) == Echoes(es, k, j)
    decreases n
  {
    if n - 1 > j {
      ReplacedSleeps(es, k, j, n - 1);
    }
  }
}

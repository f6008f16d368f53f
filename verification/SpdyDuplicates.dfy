/**
Duplicate names in a SPDY header block.  The reader looks a name up as it came, in small letters,
in a map whose keys carry capitals, so it finds only names that the stored form leaves alone.
*/
module SpdyDuplicates {
  import opened ByteStrings
  import opened SpdyFrames
  import opened SpdyRoundTrip
  import opened Wrappers

  /** No word of the name begins with a small letter. */
  predicate Capless(name: Bytes) {
    forall i :: 0 <= i < |name| && (i == 0 || name[i - 1] == 45) ==> !(97 <= name[i] <= 122)
  }

  lemma CaplessIff(name: Bytes)
    requires Lower(name) == name
    ensures Canonical(name) == name <==> Capless(name)
  {
    assert forall i :: 0 <= i < |name| ==> LowerByte(name[i]) == name[i];
  }

  /** The names of `n` entries as they came. */
  function RawName(s: Bytes): Parsed<Bytes> {
    var nameLength :- Read32(s);
    var name :- Take(nameLength.value, nameLength.rest);
    var valueLength :- Read32(name.rest);
    var value :- Take(valueLength.value, valueLength.rest);
    Ok(Piece(name.value, value.rest))
  }

  function RawNames(n: nat, s: Bytes): Parsed<seq<Bytes>> {
    if n == 0 then Ok(Piece([], s))
    else
      var first :- RawName(s);
      var more :- RawNames(n - 1, first.rest);
      Ok(Piece([first.value] + more.value, more.rest))
  }

  /** All names in small letters, and those whose words begin with no letter not among `keys` and not there twice. */
  ghost predicate Unrepeated(names: seq<Bytes>, keys: set<Bytes>) {
    && (forall i :: 0 <= i < |names| ==> Lower(names[i]) == names[i])
    && (forall i :: 0 <= i < |names| && Capless(names[i]) ==> names[i] !in keys)
    && (forall i, j :: 0 <= i < j < |names| && names[i] == names[j] ==> !Capless(names[i]))
  }

  lemma LowerOfStored(s: Bytes)
    ensures Lower(Canonical(Lower(s))) == Lower(s)
  {
    var c := Canonical(Lower(s));
    forall i | 0 <= i < |s| ensures Lower(c)[i] == Lower(s)[i] {
    }
  }

  /** The key of `other` is found under `name` only if the two are one name, and it gets no capital. */
  lemma FoundIff(name: Bytes, other: Bytes)
    requires Lower(name) == name && Lower(other) == other
    ensures name == Canonical(other) <==> name == other && Capless(name)
  {
    LowerOfStored(other);
    CaplessIff(other);
  }

  lemma KeyIsCapless(name: Bytes)
    requires Proper(name) && Lower(name) == name
    ensures Capless(name)
  {
    CaplessIff(name);
  }

  lemma UnrepeatedStep(name: Bytes, names: seq<Bytes>, keys: set<Bytes>)
    requires forall n :: n in keys ==> Proper(n)
    ensures Unrepeated([name] + names, keys)
       <==> Lower(name) == name && name !in keys && Unrepeated(names, keys + {Canonical(Lower(name))})
  {
    var all := [name] + names;
    hide Lower, Canonical, Capless, Proper;
    assert all[0] == name && forall i :: 0 <= i < |names| ==> all[i + 1] == names[i];
    if Lower(name) == name && forall i :: 0 <= i < |names| ==> Lower(names[i]) == names[i] {
      if name in keys { KeyIsCapless(name); }
      forall i | 0 <= i < |names| ensures names[i] == Canonical(name) <==> names[i] == name && Capless(name) {
        FoundIff(names[i], name);
      }
      FoundIff(name, name);
      assert Capless(name) ==> name == Canonical(name);
      if Unrepeated(all, keys) {
        assert Unrepeated(names, keys + {Canonical(name)});
      }
      if name !in keys && Unrepeated(names, keys + {Canonical(name)}) {
        assert Unrepeated(all, keys);
      }
    }
  }

  lemma EntryRead(s: Bytes, b: Block, id: U32)
    requires forall n :: n in b.fields ==> Proper(n)
    ensures ReadEntry(s, b, id).Ok? == RawName(s).Ok?
    ensures RawName(s).Ok? ==>
              var name, e := RawName(s).piece.value, ReadEntry(s, b, id).piece;
              && e.rest == RawName(s).piece.rest
              && e.value.fields.Keys == b.fields.Keys + {Canonical(Lower(name))}
              && (forall n :: n in e.value.fields ==> Proper(n))
              && e.value.complaint == (if Lower(name) in b.fields then Some(DuplicateHeaders(id))
                                       else if Lower(name) != name then Some(UnlowercasedHeaderName(id)) else b.complaint)
              && (e.value.complaint.None? <==> b.complaint.None? && Lower(name) == name && name !in b.fields)
  {
    if RawName(s).Ok? {
      KeysAreProper(RawName(s).piece.value);
    }
    hide Read32, Take, Split, Lower, Canonical, Proper;
  }

  lemma {:induction false} EntriesComplaint(n: nat, s: Bytes, b: Block, id: U32)
    requires forall n :: n in b.fields ==> Proper(n)
    ensures ReadEntries(n, s, b, id).Ok? == RawNames(n, s).Ok?
    ensures RawNames(n, s).Ok? ==>
              (ReadEntries(n, s, b, id).piece.value.complaint.None?
          <==> b.complaint.None? && Unrepeated(RawNames(n, s).piece.value, b.fields.Keys))
    decreases n
  {
    hide ReadEntry, RawName, Lower, Canonical, Proper, Capless;
    if n > 0 {
      EntryRead(s, b, id);
      if RawName(s).Ok? {
        var e := ReadEntry(s, b, id).piece;
        EntriesComplaint(n - 1, e.rest, e.value, id);
        if RawNames(n - 1, e.rest).Ok? {
          UnrepeatedStep(RawName(s).piece.value, RawNames(n - 1, e.rest).piece.value, b.fields.Keys);
        }
      }
    }
  }

  function NamesOf(s: Bytes): Parsed<seq<Bytes>> {
    var n :- Read32(s);
    RawNames(n.value, n.rest)
  }

  /**
  A block is accepted exactly when it is all there, its names are in small letters, and no name
  without a capital to get is there twice; any other name may be repeated.
  */
  lemma BlockAcceptedIff(s: Bytes, id: U32)
    ensures ReadBlock(s, id).Ok? <==> NamesOf(s).Ok? && Unrepeated(NamesOf(s).piece.value, {})
  {
    hide Read32, ReadEntries, RawNames, Unrepeated;
    if Read32(s).Ok? {
      var none: Fields := map[];
      assert none.Keys == {};
      EntriesComplaint(Read32(s).piece.value, Read32(s).piece.rest, Block(none, None), id);
    }
  }

  /** A repeated name that does get a capital goes through: its values are put together. */
  lemma DuplicatesMerge(name: Bytes, v: Bytes, w: Bytes, id: U32)
    requires Lower(name) == name && !Capless(name) && |name| < LIMIT && |v| < LIMIT && |w| < LIMIT
    ensures ReadBlock(B32(2) + (EntryBytes(name, [v]) + EntryBytes(name, [w])), id)
         == Ok(Piece(map[Canonical(name) := Split(v) + Split(w)], []))
  {
    CaplessIff(name);
    var none: Fields := map[];
    assert AddAll(none, name, Split(v)) == map[Canonical(name) := Split(v)] by {
      assert [] + Split(v) == Split(v);
    }
    var one: Fields := map[Canonical(name) := Split(v)];
    assert AddAll(one, name, Split(w)) == map[Canonical(name) := Split(v) + Split(w)];
    assert Join([v]) == v && Join([w]) == w;
    hide Read32, B32, EntryBytes, ReadEntry, AddAll, Split, Lower, Canonical, Join;
    var first, second := EntryBytes(name, [v]), EntryBytes(name, [w]);
    ReadB32(2, first + second);
    EntryBack(name, [v], Block(none, None), id, second);
    EntryBack(name, [w], Block(one, None), id, []);
    assert second + [] == second;
    assert ReadEntries(2, first + second, Block(none, None), id) == ReadEntries(1, second, Block(one, None), id);
    assert ReadEntries(1, second, Block(one, None), id)
        == ReadEntries(0, [], Block(map[Canonical(name) := Split(v) + Split(w)], None), id);
  }
}

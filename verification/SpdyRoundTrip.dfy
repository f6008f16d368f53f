/**
What a writer emits, a reader reads back: for frames of every kind, followed by anything, and for
lists of frames.
*/
module SpdyRoundTrip {
  import opened ByteStrings
  import opened SpdyFrames
  import opened Wrappers

  // ---------- Integers ----------

  lemma ReadB32(n: U32, rest: Bytes)
    ensures Read32(B32(n) + rest) == Ok(Piece(n, rest))
  {
    var s := B32(n) + rest;
    assert s[..4] == B32(n) && s[4..] == rest;
    Digits(n);
  }

  lemma Digits(n: U32)
    ensures V32(B32(n)) == n
  {
    var a: int, b: int, c: int := n / 0x100_0000, n / 0x1_0000, n / 0x100;
    assert b / 0x100 == a && c / 0x100 == b;
  }

  lemma OrZero(a: Byte)
    ensures Or(a, 0) == a
  {
    assert (a as bv8) | 0 == a as bv8;
  }

  lemma PackLow(top: Byte, low: U32)
    ensures Pack(top, low) % 0x100_0000 == low % 0x100_0000
    ensures low < 0x100_0000 ==> Pack(top, low) == top * 0x100_0000 + low
  {
    OrZero(top);
    hide Or;
  }

  lemma TakeAll(b: Bytes, rest: Bytes)
    ensures Take(|b|, b + rest) == Ok(Piece(b, rest))
  {
    assert (b + rest)[..|b|] == b && (b + rest)[|b|..] == rest;
  }

  // ---------- Values ----------

  ghost predicate ValuesReturn(vs: seq<Bytes>) {
    vs != [] && forall v :: v in vs ==> 0 !in v
  }

  lemma {:induction false} SplitPlain(v: Bytes)
    requires 0 !in v
    ensures Split(v) == [v]
  {
    if v != [] {
      SplitPlain(v[1..]);
      assert v == [v[0]] + v[1..];
    }
  }

  lemma {:induction false} SplitCut(v: Bytes, s: Bytes)
    requires 0 !in v
    ensures Split(v + [0] + s) == [v] + Split(s)
    decreases |v|
  {
    if v == [] {
      assert v + [0] + s == [0] + s;
      assert ([0] + s)[1..] == s;
    } else {
      assert (v + [0] + s)[0] == v[0] && (v + [0] + s)[1..] == v[1..] + [0] + s;
      SplitCut(v[1..], s);
      assert v == [v[0]] + v[1..];
    }
  }

  lemma {:induction false} PiecesArePlain(s: Bytes, i: nat)
    requires i < |Split(s)|
    ensures 0 !in Split(s)[i]
  {
    if s != [] {
      var r := Split(s[1..]);
      if s[0] == 0 {
        if i > 0 {
          PiecesArePlain(s[1..], i - 1);
        }
      } else if i == 0 {
        PiecesArePlain(s[1..], 0);
      } else {
        PiecesArePlain(s[1..], i);
        assert ([[s[0]] + r[0]] + r[1..])[i] == r[i];
      }
    }
  }

  lemma {:induction false} SplitJoin(vs: seq<Bytes>)
    requires ValuesReturn(vs)
    ensures Split(Join(vs)) == vs
    decreases |vs|
  {
    if |vs| == 1 {
      SplitPlain(vs[0]);
    } else {
      SplitCut(vs[0], Join(vs[1..]));
      SplitJoin(vs[1..]);
    }
  }

  /** Joining with NULs and splitting gives the values back exactly when there is one and none holds a NUL. */
  lemma SplitJoinIff(vs: seq<Bytes>)
    ensures Split(Join(vs)) == vs <==> ValuesReturn(vs)
  {
    if ValuesReturn(vs) {
      SplitJoin(vs);
    } else if Split(Join(vs)) == vs {
      forall v | v in vs ensures 0 !in v {
        var i :| 0 <= i < |vs| && vs[i] == v;
        PiecesArePlain(Join(vs), i);
      }
    }
  }

  // ---------- Names ----------

  /** The key under which a header is stored by its name in small letters. */
  ghost predicate Proper(name: Bytes) { Canonical(Lower(name)) == name }

  lemma LowerLower(s: Bytes)
    ensures Lower(Lower(s)) == Lower(s)
  {
  }

  lemma KeysAreProper(s: Bytes)
    ensures Proper(Canonical(Lower(s)))
  {
    var c := Canonical(Lower(s));
    forall i | 0 <= i < |s| ensures Lower(c)[i] == Lower(s)[i] {
    }
    assert Lower(c) == Lower(s);
  }

  lemma ProperDiffer(a: Bytes, b: Bytes)
    requires Proper(a) && Proper(b) && Lower(a) == Lower(b)
    ensures a == b
  {
  }

  // ---------- Header blocks ----------

  const LIMIT: nat := 0x1_0000_0000

  /** The sizes the writer puts in 32-bit fields do not overflow them. */
  ghost predicate SizedFields(h: Fields) {
    |h| < LIMIT && forall n :: n in h ==> |n| < LIMIT && |Join(h[n])| < LIMIT
  }

  /** What the reader has collected after the entries of `order`. */
  ghost function Collected(h: Fields, order: seq<Bytes>, b: Block, id: U32): Block
    requires Listed(order, h)
  {
    if order == [] then b
    else
      var name := Lower(order[0]);
      var c := if name in b.fields then Some(DuplicateHeaders(id)) else b.complaint;
      Collected(h, order[1..], Block(AddAll(b.fields, name, Split(Join(h[order[0]]))), c), id)
  }

  lemma EntryBack(name: Bytes, vs: seq<Bytes>, b: Block, id: U32, rest: Bytes)
    requires |name| < LIMIT && |Join(vs)| < LIMIT
    ensures ReadEntry(EntryBytes(name, vs) + rest, b, id)
         == Ok(Piece(Block(AddAll(b.fields, Lower(name), Split(Join(vs))),
                           if Lower(name) in b.fields then Some(DuplicateHeaders(id)) else b.complaint), rest))
  {
    hide AddAll, Split, Join, Read32, B32, Take;
    var lower, value := Lower(name), Join(vs);
    LowerLower(name);
    var s3 := value + rest;
    var s2 := B32(|value|) + s3;
    var s1 := lower + s2;
    assert EntryBytes(name, vs) + rest == B32(|name|) + s1;
    ReadB32(|name|, s1);
    TakeAll(lower, s2);
    ReadB32(|value|, s3);
    TakeAll(value, rest);
  }

  lemma {:induction false} EntriesBack(h: Fields, order: seq<Bytes>, b: Block, id: U32, rest: Bytes)
    requires SizedFields(h) && Listed(order, h)
    ensures ReadEntries(|order|, EntriesBytes(h, order) + rest, b, id) == Ok(Piece(Collected(h, order, b, id), rest))
    decreases |order|
  {
    hide ReadEntry, EntryBytes, AddAll, Split, Join, Lower;
    if order == [] {
      assert [] + rest == rest;
    } else {
      var name, tail := order[0], EntriesBytes(h, order[1..]) + rest;
      assert EntriesBytes(h, order) + rest == EntryBytes(name, h[name]) + tail;
      EntryBack(name, h[name], b, id, tail);
      var b' := ReadEntry(EntriesBytes(h, order) + rest, b, id).piece.value;
      EntriesBack(h, order[1..], b', id, rest);
    }
  }

  lemma {:induction false} VisitsAll(order: seq<Bytes>, names: set<Bytes>)
    requires forall n :: n in order <==> n in names
    requires forall i, j :: 0 <= i < j < |order| ==> order[i] != order[j]
    ensures |order| == |names|
    decreases |order|
  {
    if order == [] {
      assert names == {};
    } else {
      VisitsAll(order[1..], names - {order[0]});
    }
  }

  ghost function Settled(b: Block, rest: Bytes): Parsed<Fields> {
    if b.complaint.Some? then Failed(b.complaint.value, rest) else Ok(Piece(b.fields, rest))
  }

  lemma BlockBack(h: Fields, order: seq<Bytes>, id: U32, rest: Bytes)
    requires SizedFields(h) && Visits(order, h)
    ensures ReadBlock(BlockBytes(h, order) + rest, id) == Settled(Collected(h, order, Block(map[], None), id), rest)
  {
    hide Read32, B32, ReadEntries, EntriesBytes, Collected;
    VisitsAll(order, h.Keys);
    assert |h| == |h.Keys|;
    assert BlockBytes(h, order) + rest == B32(|h|) + (EntriesBytes(h, order) + rest);
    ReadB32(|h|, EntriesBytes(h, order) + rest);
    EntriesBack(h, order, Block(map[], None), id, rest);
  }

  ghost predicate FieldsReturn(h: Fields) {
    forall n :: n in h ==> Proper(n) && ValuesReturn(h[n])
  }

  ghost function Resplit(h: Fields, order: seq<Bytes>): Fields
    requires Listed(order, h)
  {
    map n | n in order :: Split(Join(h[n]))
  }

  lemma AddProper(fields: Fields, name: Bytes, vs: seq<Bytes>)
    requires Proper(name) && name !in fields && forall n :: n in fields ==> Proper(n)
    ensures Lower(name) !in fields && AddAll(fields, Lower(name), vs) == fields[name := vs]
  {
    if Lower(name) in fields {
      LowerLower(name);
      ProperDiffer(name, Lower(name));
    }
    assert [] + vs == vs;
  }

  lemma CollectedStep(h: Fields, order: seq<Bytes>, b: Block, id: U32)
    requires order != [] && Listed(order, h) && Proper(order[0]) && order[0] !in b.fields
    requires forall n :: n in b.fields ==> Proper(n)
    ensures Collected(h, order, b, id)
         == Collected(h, order[1..], Block(b.fields[order[0] := Split(Join(h[order[0]]))], b.complaint), id)
  {
    AddProper(b.fields, order[0], Split(Join(h[order[0]])));
    hide Split, Join, Proper, Lower, Canonical, AddAll;
  }

  lemma ResplitStep(h: Fields, order: seq<Bytes>, fields: Fields)
    requires order != [] && Listed(order, h) && order[0] !in order[1..]
    ensures fields[order[0] := Split(Join(h[order[0]]))] + Resplit(h, order[1..]) == fields + Resplit(h, order)
  {
    hide Split, Join;
  }

  /** Names already in their stored form never collide. */
  lemma {:induction false} ProperCollected(h: Fields, order: seq<Bytes>, b: Block, id: U32)
    requires Listed(order, h) && forall n :: n in order ==> Proper(n) && n !in b.fields
    requires forall i, j :: 0 <= i < j < |order| ==> order[i] != order[j]
    requires forall n :: n in b.fields ==> Proper(n)
    ensures Collected(h, order, b, id) == Block(b.fields + Resplit(h, order), b.complaint)
    decreases |order|
  {
    hide Split, Join, Proper, Lower, Canonical, AddAll;
    if order == [] {
      assert b.fields + Resplit(h, order) == b.fields;
    } else {
      CollectedStep(h, order, b, id);
      ResplitStep(h, order, b.fields);
      ProperCollected(h, order[1..], Block(b.fields[order[0] := Split(Join(h[order[0]]))], b.complaint), id);
    }
  }

  lemma {:induction false} CollectedIsProper(h: Fields, order: seq<Bytes>, b: Block, id: U32)
    requires Listed(order, h)
    requires forall n :: n in b.fields ==> Proper(n)
    ensures forall n :: n in Collected(h, order, b, id).fields ==> Proper(n)
    decreases |order|
  {
    hide Split, Join, Proper, Lower, Canonical;
    if order != [] {
      var name := Lower(order[0]);
      KeysAreProper(order[0]);
      var c := if name in b.fields then Some(DuplicateHeaders(id)) else b.complaint;
      CollectedIsProper(h, order[1..], Block(AddAll(b.fields, name, Split(Join(h[order[0]]))), c), id);
    }
  }

  /** A header map comes back exactly when its names are in stored form and its values survive the joining. */
  lemma FieldsBackIff(h: Fields, order: seq<Bytes>, id: U32)
    requires Visits(order, h)
    ensures Collected(h, order, Block(map[], None), id) == Block(h, None) <==> FieldsReturn(h)
  {
    hide Proper, ValuesReturn, Split, Join, Collected;
    var b := Block(map[], None);
    CollectedIsProper(h, order, b, id);
    if forall n :: n in h ==> Proper(n) {
      ProperCollected(h, order, b, id);
      assert b.fields + Resplit(h, order) == Resplit(h, order);
      forall n | n in h ensures Split(Join(h[n])) == h[n] <==> ValuesReturn(h[n]) {
        SplitJoinIff(h[n]);
      }
      assert Resplit(h, order).Keys == h.Keys;
      if FieldsReturn(h) {
        assert Resplit(h, order) == h;
      }
    }
  }

  /** Headers a reader of these frames refuses are refused on the way back too. */
  ghost predicate FieldsAccepted(fields: Fields, frameType: U16, id: U32) {
    FieldsReturn(fields) && fields.Keys !! InvalidIn(frameType, id)
  }

  lemma ReadFieldsBack(fields: Fields, order: seq<Bytes>, frameType: U16, id: U32, rest: Bytes)
    requires SizedFields(fields) && Visits(order, fields) && id != 0
    ensures ReadFields(BlockBytes(fields, order) + rest, id, frameType) == Ok(Piece(fields, rest))
       <==> FieldsAccepted(fields, frameType, id)
  {
    hide ReadBlock, BlockBytes, Collected, FieldsReturn, InvalidIn, Visits, SizedFields;
    BlockBack(fields, order, id, rest);
    FieldsBackIff(fields, order, id);
  }

  // ---------- Frames ----------

  ghost predicate Sized(f: Frame) {
    SizedFields(FieldsOf(f)) && (f.Settings? ==> |f.values| < LIMIT)
  }

  ghost predicate IdsFit(vs: seq<Setting>) { forall v :: v in vs ==> v.id < 0x100_0000 }

  /** The frame, its header stamped by the writer, keeps within the fields of the format. */
  ghost predicate Returns(f: Frame) {
    match f
    case SynStream(h, id, _, priority, _, fields) =>
      h.length < 0x100_0000 && priority < 8 && FieldsAccepted(fields, TYPE_SYN_STREAM, id)
    case SynReply(h, id, fields) => h.length < 0x100_0000 && FieldsAccepted(fields, TYPE_SYN_REPLY, id)
    case Headers(h, id, fields) => h.length < 0x100_0000 && FieldsAccepted(fields, TYPE_HEADERS, id)
    case Settings(h, values) => h.length < 0x100_0000 && IdsFit(values)
    case _ => true
  }

  /** The header as the reader takes it apart. */
  function Unpacked(h: Header): Header {
    Header(VERSION, h.frameType, Pack(h.flags, h.length) / 0x100_0000, Pack(h.flags, h.length) % 0x100_0000)
  }

  lemma UnpackedIs(h: Header)
    requires h.version == VERSION
    ensures Unpacked(h) == h <==> h.length < 0x100_0000
    ensures Unpacked(h).frameType == h.frameType
  {
    PackLow(h.flags, h.length);
    hide Pack;
  }

  lemma FirstWord(frameType: U16, s: Bytes)
    ensures Read32(B16(0x8000 + VERSION) + (B16(frameType) + s)) == Ok(Piece(0x8003_0000 + frameType, s))
  {
    var t := B16(0x8000 + VERSION) + (B16(frameType) + s);
    assert t[4..] == s;
    assert t[..4] == [0x80, 0x03, frameType / 0x100, frameType % 0x100];
  }

  lemma HeaderBack(h: Header, s: Bytes)
    requires h.version == VERSION
    ensures Read(HeaderBytes(h) + s) == ReadBody(Unpacked(h), s)
  {
    hide *;
    var word := Pack(h.flags, h.length);
    HeaderSplit(h, s);
    HeaderWords(h);
    FirstWord(h.frameType, B32(word) + s);
    ReadB32(word, s);
    ControlRead(HeaderBytes(h) + s, B32(word) + s, 0x8003_0000 + h.frameType, s, word);
  }

  lemma HeaderSplit(h: Header, s: Bytes)
    requires h.version == VERSION
    ensures HeaderBytes(h) + s == B16(0x8000 + VERSION) + (B16(h.frameType) + (B32(Pack(h.flags, h.length)) + s))
  {
    hide B16, B32, Pack;
    Regroup3(B16(0x8000 + VERSION), B16(h.frameType), B32(Pack(h.flags, h.length)), s);
  }

  lemma Regroup3(a: Bytes, b: Bytes, c: Bytes, rest: Bytes)
    ensures a + (b + c) + rest == a + (b + (c + rest))
  {
  }

  lemma HeaderWords(h: Header)
    ensures HeaderOf(0x8003_0000 + h.frameType, Pack(h.flags, h.length)) == Unpacked(h)
  {
    hide Pack;
  }

  lemma ControlRead(s: Bytes, t: Bytes, first: U32, u: Bytes, second: U32)
    requires first >= 0x8000_0000 && Read32(s) == Ok(Piece(first, t)) && Read32(t) == Ok(Piece(second, u))
    ensures Read(s) == ReadBody(HeaderOf(first, second), u)
  {
    hide Read32, HeaderOf, ReadBody;
  }

  function WithFields(h: Header, id: U32, associated: U32, priority: Byte, slot: Byte, r: Parsed<Fields>): Parsed<Frame> {
    var fields :- r;
    Ok(Piece(SynStream(h, id, associated, priority, slot, fields.value), fields.rest))
  }

  lemma SynHeadBack(id: U32, associated: U32, packed: Byte, slot: Byte, tail: Bytes)
    ensures ReadSynHead(B32(id) + (B32(associated) + ([packed, slot] + tail)))
         == Ok(Piece(SynHead(id, associated, Unshifted(packed), slot), tail))
  {
    PairBack(packed, slot, tail);
    hide Read32, B32, ReadPair, Unshifted;
    ReadB32(id, B32(associated) + ([packed, slot] + tail));
    ReadB32(associated, [packed, slot] + tail);
  }

  lemma PairBack(packed: Byte, slot: Byte, tail: Bytes)
    ensures ReadPair([packed, slot] + tail) == Ok(Piece((Unshifted(packed), slot), tail))
  {
    var s := [packed, slot] + tail;
    assert s[1..][1..] == tail;
  }

  lemma SynStreamHead(h: Header, id: U32, associated: U32, packed: Byte, slot: Byte, tail: Bytes)
    ensures ReadSynStream(h, B32(id) + (B32(associated) + ([packed, slot] + tail)))
         == WithFields(h, id, associated, Unshifted(packed), slot, ReadFields(tail, id, TYPE_SYN_STREAM))
  {
    hide ReadSynHead, B32, ReadFields, Unshifted;
    SynHeadBack(id, associated, packed, slot, tail);
  }

  lemma Regroup(a: Bytes, b: Bytes, c: Bytes, d: Bytes, rest: Bytes)
    ensures a + (b + (c + d)) + rest == a + (b + (c + (d + rest)))
  {
  }

  lemma Priority(p: Byte)
    ensures Unshifted(Shifted(p)) == p <==> p < 8
  {
  }

  lemma SynStreamParsed(h: Header, f: Frame, order: seq<Bytes>, rest: Bytes)
    requires f.SynStream? && Listed(order, FieldsOf(f))
    ensures ReadSynStream(h, Body(f, order) + rest)
         == WithFields(h, f.id, f.associated, Unshifted(Shifted(f.priority)), f.slot,
                       ReadFields(BlockBytes(FieldsOf(f), order) + rest, f.id, TYPE_SYN_STREAM))
  {
    hide Listed, B32, BlockBytes, ReadSynStream, ReadFields, WithFields, Shifted, Unshifted;
    Regroup(B32(f.id), B32(f.associated), [Shifted(f.priority), f.slot], BlockBytes(FieldsOf(f), order), rest);
    SynStreamHead(h, f.id, f.associated, Shifted(f.priority), f.slot, BlockBytes(FieldsOf(f), order) + rest);
  }

  lemma SynStreamBack(f: Frame, order: seq<Bytes>, rest: Bytes)
    requires f.SynStream? && f.h.version == VERSION && f.id != 0
    requires SizedFields(FieldsOf(f)) && Visits(order, FieldsOf(f)) && Listed(order, FieldsOf(f))
    ensures ReadSynStream(Unpacked(f.h), Body(f, order) + rest) == Ok(Piece(f, rest)) <==> Returns(f)
  {
    hide *;
    var h := Unpacked(f.h);
    var r := ReadFields(BlockBytes(FieldsOf(f), order) + rest, f.id, TYPE_SYN_STREAM);
    SynStreamParsed(h, f, order, rest);
    assert r == Ok(Piece(f.fields, rest)) <==> FieldsAccepted(f.fields, TYPE_SYN_STREAM, f.id) by {
      SynStreamReturns(f);
      ReadFieldsBack(FieldsOf(f), order, TYPE_SYN_STREAM, f.id, rest);
    }
    assert h == f.h <==> f.h.length < 0x100_0000 by {
      UnpackedIs(f.h);
    }
    SynStreamReturns(f);
    Priority(f.priority);
    WithFieldsIs(h, f, Unshifted(Shifted(f.priority)), r, rest);
  }

  lemma WithFieldsIs(h: Header, f: Frame, priority: Byte, r: Parsed<Fields>, rest: Bytes)
    requires f.SynStream?
    ensures WithFields(h, f.id, f.associated, priority, f.slot, r) == Ok(Piece(f, rest))
       <==> h == f.h && priority == f.priority && r == Ok(Piece(f.fields, rest))
  {
  }

  lemma SynStreamReturns(f: Frame)
    requires f.SynStream?
    ensures FieldsOf(f) == f.fields
    ensures Returns(f) <==> f.h.length < 0x100_0000 && f.priority < 8 && FieldsAccepted(f.fields, TYPE_SYN_STREAM, f.id)
  {
    hide FieldsAccepted;
  }

  lemma WordFirst(id: U32, tail: Bytes, rest: Bytes)
    ensures Read32(B32(id) + tail + rest) == Ok(Piece(id, tail + rest))
  {
    hide Read32, B32;
    assert B32(id) + tail + rest == B32(id) + (tail + rest);
    ReadB32(id, tail + rest);
  }

  lemma IdFieldsBack(id: U32, fields: Fields, order: seq<Bytes>, frameType: U16, rest: Bytes)
    requires id != 0 && SizedFields(fields) && Visits(order, fields) && Listed(order, fields)
    ensures ReadIdFields(B32(id) + BlockBytes(fields, order) + rest, frameType) == Ok(Piece(IdFields(id, fields), rest))
       <==> FieldsAccepted(fields, frameType, id)
  {
    hide Read32, B32, ReadFields, BlockBytes, FieldsAccepted, SizedFields, Visits, Listed;
    WordFirst(id, BlockBytes(fields, order), rest);
    ReadFieldsBack(fields, order, frameType, id, rest);
  }

  lemma SynReplyBack(f: Frame, order: seq<Bytes>, rest: Bytes)
    requires f.SynReply? && f.h.version == VERSION && f.id != 0
    requires SizedFields(FieldsOf(f)) && Visits(order, FieldsOf(f)) && Listed(order, FieldsOf(f))
    ensures ReadSynReply(Unpacked(f.h), Body(f, order) + rest) == Ok(Piece(f, rest)) <==> Returns(f)
  {
    hide ReadIdFields, B32, BlockBytes, Unpacked, FieldsAccepted, SizedFields, Visits, Listed;
    IdFieldsBack(f.id, FieldsOf(f), order, TYPE_SYN_REPLY, rest);
    UnpackedIs(f.h);
  }

  lemma HeadersBack(f: Frame, order: seq<Bytes>, rest: Bytes)
    requires f.Headers? && f.h.version == VERSION && f.id != 0
    requires SizedFields(FieldsOf(f)) && Visits(order, FieldsOf(f)) && Listed(order, FieldsOf(f))
    ensures ReadHeaders(Unpacked(f.h), Body(f, order) + rest) == Ok(Piece(f, rest)) <==> Returns(f)
  {
    hide ReadIdFields, B32, BlockBytes, Unpacked, FieldsAccepted, SizedFields, Visits, Listed;
    IdFieldsBack(f.id, FieldsOf(f), order, TYPE_HEADERS, rest);
    UnpackedIs(f.h);
  }

  lemma TwoWords(a: U32, b: U32, rest: Bytes)
    ensures Read32(B32(a) + B32(b) + rest) == Ok(Piece(a, B32(b) + rest))
    ensures Read32(B32(b) + rest) == Ok(Piece(b, rest))
  {
    assert B32(a) + B32(b) + rest == B32(a) + (B32(b) + rest);
    ReadB32(a, B32(b) + rest);
    ReadB32(b, rest);
  }

  function Repacked(v: Setting): Setting {
    Setting(Pack(v.flag, v.id) / 0x100_0000, Pack(v.flag, v.id) % 0x100_0000, v.value)
  }

  function AllRepacked(vs: seq<Setting>): seq<Setting> {
    if vs == [] then [] else [Repacked(vs[0])] + AllRepacked(vs[1..])
  }

  lemma SettingBack(v: Setting, rest: Bytes)
    ensures ReadSetting(SettingBytes(v) + rest) == Ok(Piece(Repacked(v), rest))
  {
    TwoWords(Pack(v.flag, v.id), v.value, rest);
    hide Read32, B32, Pack;
  }

  lemma SettingsStep(n: nat, v: Setting, tail: Bytes, acc: seq<Setting>)
    requires n > 0
    ensures ReadSettings(n, SettingBytes(v) + tail, acc) == ReadSettings(n - 1, tail, acc + [Repacked(v)])
  {
    hide ReadSetting, SettingBytes, Repacked;
    SettingBack(v, tail);
  }

  lemma {:induction false} SettingsBack(vs: seq<Setting>, acc: seq<Setting>, rest: Bytes)
    ensures ReadSettings(|vs|, SettingsBytes(vs) + rest, acc) == Ok(Piece(acc + AllRepacked(vs), rest))
    decreases |vs|
  {
    hide ReadSetting, SettingBytes, Repacked;
    if vs == [] {
      assert [] + rest == rest && acc + [] == acc;
    } else {
      var tail, acc' := SettingsBytes(vs[1..]) + rest, acc + [Repacked(vs[0])];
      SettingsBack(vs[1..], acc', rest);
      SettingsStep(|vs|, vs[0], tail, acc);
      assert SettingsBytes(vs) + rest == SettingBytes(vs[0]) + tail;
      assert acc' + AllRepacked(vs[1..]) == acc + AllRepacked(vs);
    }
  }

  lemma {:induction false} RepackedIff(vs: seq<Setting>)
    ensures AllRepacked(vs) == vs <==> IdsFit(vs)
    decreases |vs|
  {
    if vs != [] {
      PackLow(vs[0].flag, vs[0].id);
      hide Pack;
      RepackedIff(vs[1..]);
      assert vs == [vs[0]] + vs[1..];
      assert Repacked(vs[0]) == vs[0] <==> vs[0].id < 0x100_0000;
      assert AllRepacked(vs) == [Repacked(vs[0])] + AllRepacked(vs[1..]);
      assert AllRepacked(vs)[1..] == AllRepacked(vs[1..]);
    }
  }

  lemma SettingsFrameBack(f: Frame, order: seq<Bytes>, rest: Bytes)
    requires f.Settings? && f.h.version == VERSION && |f.values| < LIMIT && Listed(order, FieldsOf(f))
    ensures ReadSettingsFrame(Unpacked(f.h), Body(f, order) + rest) == Ok(Piece(f, rest)) <==> Returns(f)
  {
    hide Read32, B32, Unpacked, ReadSettings, SettingsBytes, AllRepacked, Listed, FieldsAccepted, IdsFit;
    var n, tail := |f.values|, SettingsBytes(f.values) + rest;
    assert Body(f, order) + rest == B32(n) + tail;
    ReadB32(n, tail);
    SettingsBack(f.values, [], rest);
    RepackedIff(f.values);
    assert [] + AllRepacked(f.values) == AllRepacked(f.values);
    UnpackedIs(f.h);
  }

  lemma DataBodyBack(id: U32, flags: Byte, data: Bytes, rest: Bytes)
    requires 0 < id && |data| <= MAX_DATA_LENGTH
    ensures ReadData(id, B32(Pack(flags, |data|)) + data + rest) == Ok(Piece(Data(id, flags, data), rest))
  {
    PackLow(flags, |data|);
    hide Read32, B32, Pack, Take;
    WordFirst(Pack(flags, |data|), data, rest);
    TakeAll(data, rest);
  }

  lemma DataBack(id: U32, flags: Byte, data: Bytes, rest: Bytes)
    requires 0 < id < 0x8000_0000 && |data| <= MAX_DATA_LENGTH
    ensures Read(B32(id) + (B32(Pack(flags, |data|)) + data) + rest) == Ok(Piece(Data(id, flags, data), rest))
  {
    hide Read32, B32, Pack, ReadData;
    WordFirst(id, B32(Pack(flags, |data|)) + data, rest);
    DataBodyBack(id, flags, data, rest);
  }

  /**
  The round trip: a frame that its writer accepted is read back, with whatever follows left on the
  input, exactly when it keeps within the format.
  */
  lemma RoundTripIff(f: Frame, order: seq<Bytes>, rest: Bytes)
    requires Sized(f) && Visits(order, FieldsOf(f)) && Write(f, order).Wrote?
    ensures Read(Write(f, order).out + rest) == Ok(Piece(Write(f, order).frame, rest)) <==> Returns(Write(f, order).frame)
  {
    WriteShape(f, order);
    var out, g := Write(f, order).out, Write(f, order).frame;
    hide *;
    if g.Data? {
      DataBack(g.id, g.flags, g.data, rest);
      AlwaysReturns(g);
    } else {
      ControlBack(g, order, rest);
    }
  }

  lemma ControlBack(f: Frame, order: seq<Bytes>, rest: Bytes)
    requires !f.Data? && f.h.version == VERSION && WellFormed(f) && Sized(f)
    requires Visits(order, FieldsOf(f)) && Listed(order, FieldsOf(f))
    ensures Read(HeaderBytes(f.h) + Body(f, order) + rest) == Ok(Piece(f, rest)) <==> Returns(f)
  {
    hide *;
    BodyBack(f, order, rest);
    HeaderBack(f.h, Body(f, order) + rest);
    Regroup([], [], HeaderBytes(f.h), Body(f, order), rest);
    assert HeaderBytes(f.h) + Body(f, order) + rest == HeaderBytes(f.h) + (Body(f, order) + rest);
  }

  lemma WriteShape(f: Frame, order: seq<Bytes>)
    requires Sized(f) && Visits(order, FieldsOf(f)) && Write(f, order).Wrote?
    ensures var g := Write(f, order).frame;
            && WellFormed(g) && Sized(g) && Visits(order, FieldsOf(g)) && Listed(order, FieldsOf(g))
            && (if g.Data? then
                  0 < g.id < 0x8000_0000 && |g.data| <= MAX_DATA_LENGTH
                  && Write(f, order).out == B32(g.id) + (B32(Pack(g.flags, |g.data|)) + g.data)
                else
                  g.h.version == VERSION && Write(f, order).out == HeaderBytes(g.h) + Body(g, order))
  {
    assert Listed(order, FieldsOf(f));
    hide Visits, Listed, SizedFields, HeaderBytes, Body, BlockBytes, B32, Pack;
  }

  lemma AlwaysReturns(f: Frame)
    requires f.Data? || f.RstStream? || f.Ping? || f.GoAway? || f.WindowUpdate?
    ensures Returns(f)
  {
    hide FieldsAccepted;
  }

  /** The writer's header names the kind of the frame, and the frame is one its writer accepts. */
  ghost predicate WellFormed(f: Frame) {
    && (f.SynStream? ==> f.h.frameType == TYPE_SYN_STREAM && f.id != 0)
    && (f.SynReply? ==> f.h.frameType == TYPE_SYN_REPLY && f.id != 0)
    && (f.Headers? ==> f.h.frameType == TYPE_HEADERS && f.id != 0)
    && (f.Settings? ==> f.h.frameType == TYPE_SETTINGS)
    && (f.RstStream? ==> f.h == Header(VERSION, TYPE_RST_STREAM, 0, 8) && f.id != 0 && f.status != 0)
    && (f.Ping? ==> f.h == Header(VERSION, TYPE_PING, 0, 4) && f.id != 0)
    && (f.GoAway? ==> f.h == Header(VERSION, TYPE_GO_AWAY, 0, 8))
    && (f.WindowUpdate? ==> f.h == Header(VERSION, TYPE_WINDOW_UPDATE, 0, 8))
  }

  lemma Dispatch(h: Header, s: Bytes)
    ensures h.frameType == TYPE_SYN_STREAM ==> ReadBody(h, s) == ReadSynStream(h, s)
    ensures h.frameType == TYPE_SYN_REPLY ==> ReadBody(h, s) == ReadSynReply(h, s)
    ensures h.frameType == TYPE_HEADERS ==> ReadBody(h, s) == ReadHeaders(h, s)
    ensures h.frameType == TYPE_SETTINGS ==> ReadBody(h, s) == ReadSettingsFrame(h, s)
  {
    hide ReadSynStream, ReadSynReply, ReadHeaders, ReadSettingsFrame, ReadRstStream, ReadPing, ReadGoAway, ReadWindowUpdate;
  }

  lemma BodyBack(f: Frame, order: seq<Bytes>, rest: Bytes)
    requires !f.Data? && f.h.version == VERSION && WellFormed(f) && Sized(f) && Visits(order, FieldsOf(f))
    ensures ReadBody(Unpacked(f.h), Body(f, order) + rest) == Ok(Piece(f, rest)) <==> Returns(f)
  {
    UnpackedIs(f.h);
    assert Listed(order, FieldsOf(f));
    Dispatch(Unpacked(f.h), Body(f, order) + rest);
    hide ReadBody, Body, Unpacked, Returns, Visits, Listed, SizedFields, ReadSynStream, ReadSynReply, ReadHeaders,
         ReadSettingsFrame;
    if f.SynStream? {
      SynStreamBack(f, order, rest);
    } else if f.SynReply? {
      SynReplyBack(f, order, rest);
    } else if f.Headers? {
      HeadersBack(f, order, rest);
    } else if f.Settings? {
      SettingsFrameBack(f, order, rest);
    } else {
      PlainBack(f, order, rest);
    }
  }

  lemma RstStreamBack(h: Header, id: U32, status: U32, rest: Bytes)
    requires id != 0 && status != 0
    ensures ReadRstStream(h, B32(id) + B32(status) + rest) == Ok(Piece(RstStream(h, id, status), rest))
  {
    TwoWords(id, status, rest);
    hide Read32, B32;
  }

  lemma GoAwayBack(h: Header, last: U32, status: U32, rest: Bytes)
    requires h.flags == 0 && h.length == 8
    ensures ReadGoAway(h, B32(last) + B32(status) + rest) == Ok(Piece(GoAway(h, last, status), rest))
  {
    TwoWords(last, status, rest);
    hide Read32, B32;
  }

  lemma WindowUpdateBack(h: Header, id: U32, delta: U32, rest: Bytes)
    requires h.flags == 0 && h.length == 8
    ensures ReadWindowUpdate(h, B32(id) + B32(delta) + rest) == Ok(Piece(WindowUpdate(h, id, delta), rest))
  {
    TwoWords(id, delta, rest);
    hide Read32, B32;
  }

  lemma PingBack(h: Header, id: U32, rest: Bytes)
    requires h.flags == 0 && id != 0
    ensures ReadPing(h, B32(id) + rest) == Ok(Piece(Ping(h, id), rest))
  {
    ReadB32(id, rest);
    hide Read32, B32;
  }

  /** The body of a frame of fixed size, and which reader gets it. */
  lemma PlainBody(f: Frame, order: seq<Bytes>, s: Bytes)
    requires (f.RstStream? || f.Ping? || f.GoAway? || f.WindowUpdate?) && WellFormed(f) && Listed(order, FieldsOf(f))
    ensures f.RstStream? ==> Body(f, order) == B32(f.id) + B32(f.status) && ReadBody(f.h, s) == ReadRstStream(f.h, s)
    ensures f.GoAway? ==> Body(f, order) == B32(f.last) + B32(f.status) && ReadBody(f.h, s) == ReadGoAway(f.h, s)
    ensures f.WindowUpdate? ==> Body(f, order) == B32(f.id) + B32(f.delta) && ReadBody(f.h, s) == ReadWindowUpdate(f.h, s)
    ensures f.Ping? ==> Body(f, order) == B32(f.id) && ReadBody(f.h, s) == ReadPing(f.h, s)
    ensures f.h.version == VERSION && f.h.length < 0x100_0000 && f.h.flags == 0
    ensures !f.Ping? ==> f.h.length == 8
    ensures (f.RstStream? || f.Ping? ==> f.id != 0) && (f.RstStream? ==> f.status != 0)
  {
    hide B32, Listed, ReadRstStream, ReadPing, ReadGoAway, ReadWindowUpdate;
  }

  lemma PlainBack(f: Frame, order: seq<Bytes>, rest: Bytes)
    requires f.RstStream? || f.Ping? || f.GoAway? || f.WindowUpdate?
    requires WellFormed(f) && Listed(order, FieldsOf(f))
    ensures Returns(f) && ReadBody(Unpacked(f.h), Body(f, order) + rest) == Ok(Piece(f, rest))
  {
    hide *;
    AlwaysReturns(f);
    PlainBody(f, order, Body(f, order) + rest);
    assert Unpacked(f.h) == f.h by { UnpackedIs(f.h); }
    if f.RstStream? {
      RstStreamBack(f.h, f.id, f.status, rest);
    } else if f.GoAway? {
      GoAwayBack(f.h, f.last, f.status, rest);
    } else if f.WindowUpdate? {
      WindowUpdateBack(f.h, f.id, f.delta, rest);
    } else {
      PingBack(f.h, f.id, rest);
    }
  }

  // ---------- The format on the wire ----------

  lemma {:induction false} SettingsLength(vs: seq<Setting>)
    ensures |SettingsBytes(vs)| == 8 * |vs|
  {
    if vs != [] {
      SettingsLength(vs[1..]);
    }
  }

  function BodySize(f: Frame, order: seq<Bytes>): nat
    requires Listed(order, FieldsOf(f))
  {
    if f.SynStream? then |BlockBytes(FieldsOf(f), order)| + 10
    else if HasFields(f) then |BlockBytes(FieldsOf(f), order)| + 4
    else if f.Settings? then |f.values| * 8 + 4
    else if f.Ping? then 4
    else 8
  }

  lemma BodyLength(f: Frame, order: seq<Bytes>)
    requires !f.Data? && Listed(order, FieldsOf(f))
    ensures |Body(f, order)| == BodySize(f, order)
  {
    if f.Settings? {
      SettingsLength(f.values);
    }
    hide Listed, BlockBytes, Shifted, SettingsBytes, B32;
  }

  /** The length a writer puts in the header is that of the bytes behind it; only the readers of GOAWAY and WINDOW_UPDATE look at it. */
  lemma LengthIsHonest(f: Frame, order: seq<Bytes>)
    requires Listed(order, FieldsOf(f)) && Write(f, order).Wrote? && !f.Data? && |Write(f, order).out| < LIMIT
    ensures var w := Write(f, order); !w.frame.Data? && |w.out| == 8 + w.frame.h.length
  {
    BodyLength(f, order);
    EmitsHeader(f, order);
    hide Listed, BlockBytes, HeaderBytes, Body;
    StampedLength(f, order);
  }

  lemma StampedLength(f: Frame, order: seq<Bytes>)
    requires Listed(order, FieldsOf(f)) && Write(f, order).Wrote? && !f.Data? && |Body(f, order)| < LIMIT
    ensures Write(f, order).frame.h.length == |Body(f, order)|
  {
    hide *;
    BodyLength(f, order);
    StampedSize(f, order);
    TruncIs(BodySize(f, order));
  }

  lemma TruncIs(n: nat)
    requires n < LIMIT
    ensures Trunc(n) == n
  {
  }

  lemma StampedSize(f: Frame, order: seq<Bytes>)
    requires Listed(order, FieldsOf(f)) && Write(f, order).Wrote? && !f.Data?
    ensures Write(f, order).frame.h.length == Trunc(BodySize(f, order))
  {
    hide Listed, BlockBytes, HeaderBytes, Body, Trunc;
  }

  /** Network byte order, the control bit, version, type, flags and 24-bit length in front of every control frame. */
  lemma ControlHeaderOnTheWire(f: Frame, order: seq<Bytes>)
    requires Listed(order, FieldsOf(f)) && Write(f, order).Wrote? && !f.Data?
    requires !Write(f, order).frame.Data? && Write(f, order).frame.h.length < 0x100_0000
    ensures var h, out := Write(f, order).frame.h, Write(f, order).out;
            |out| >= 8 && out[..8] == [0x80, 3, h.frameType / 0x100, h.frameType % 0x100, h.flags,
                                       h.length / 0x1_0000, h.length / 0x100 % 0x100, h.length % 0x100]
  {
    var g := Write(f, order).frame;
    HeaderOnTheWire(g.h);
    EmitsHeader(f, order);
    hide *;
  }

  lemma EmitsHeader(f: Frame, order: seq<Bytes>)
    requires Listed(order, FieldsOf(f)) && Write(f, order).Wrote? && !f.Data?
    ensures var g, out := Write(f, order).frame, Write(f, order).out;
            && !g.Data? && g.h.version == VERSION && |HeaderBytes(g.h)| == 8 && HeaderBytes(g.h) <= out
            && |out| == 8 + |Body(f, order)|
  {
    var g := Write(f, order).frame;
    SameBody(f, order);
    assert |HeaderBytes(g.h)| == 8 by { HeaderLength(g.h); }
    hide Listed, Body, Pack, BlockBytes, HeaderBytes, Stamp;
  }

  lemma HeaderLength(h: Header)
    requires h.version == VERSION
    ensures |HeaderBytes(h)| == 8
  {
    hide Pack, B16, B32;
  }

  lemma SameBody(f: Frame, order: seq<Bytes>)
    requires Listed(order, FieldsOf(f)) && Write(f, order).Wrote? && !f.Data?
    ensures var g := Write(f, order).frame;
            && !g.Data? && g.h.version == VERSION && Listed(order, FieldsOf(g)) && Body(g, order) == Body(f, order)
            && Write(f, order).out == HeaderBytes(g.h) + Body(g, order)
  {
    hide Listed, Pack, BlockBytes, HeaderBytes, B32, SettingsBytes;
  }

  lemma HeaderOnTheWire(h: Header)
    requires h.version == VERSION && h.length < 0x100_0000
    ensures HeaderBytes(h) == [0x80, 3, h.frameType / 0x100, h.frameType % 0x100, h.flags,
                               h.length / 0x1_0000, h.length / 0x100 % 0x100, h.length % 0x100]
  {
    PackLow(h.flags, h.length);
    TopByte(h.flags, h.length);
    var w := B32(Pack(h.flags, h.length));
    assert w[0] == h.flags && w[1] == h.length / 0x1_0000;
    assert B16(0x8000 + VERSION) == [0x80, 3];
    hide Pack, B32;
    EightBytes(0x80, 3, h.frameType / 0x100, h.frameType % 0x100, w);
  }

  lemma EightBytes(a: Byte, b: Byte, c: Byte, d: Byte, w: Bytes)
    requires |w| == 4
    ensures [a, b] + ([c, d] + w) == [a, b, c, d, w[0], w[1], w[2], w[3]]
  {
  }

  lemma LowByte(q: nat, x: nat)
    ensures (q * 0x100 + x) % 0x100 == x % 0x100
  {
  }

  lemma ShiftDown(t: nat, n: nat)
    requires n < 0x100_0000
    ensures (t * 0x100_0000 + n) / 0x100_0000 == t
    ensures (t * 0x100_0000 + n) / 0x1_0000 == t * 0x100 + n / 0x1_0000
    ensures (t * 0x100_0000 + n) / 0x100 == t * 0x1_0000 + n / 0x100
  {
  }

  lemma TopByte(top: Byte, low: U32)
    requires low < 0x100_0000
    ensures B32(top * 0x100_0000 + low) == [top, low / 0x1_0000, low / 0x100 % 0x100, low % 0x100]
  {
    var t: int, n: int := top, low;
    ShiftDown(t, n);
    LowByte(t * 0x1_0000, n);
    LowByte(t * 0x100, n / 0x100);
    LowByte(t, n / 0x1_0000);
  }

  // ---------- Lists of frames ----------

  /** A frame to be written and the order in which the writer visits its headers. */
  datatype Job = Job(frame: Frame, order: seq<Bytes>)

  ghost predicate Sendable(j: Job) {
    && Sized(j.frame) && Visits(j.order, FieldsOf(j.frame)) && Listed(j.order, FieldsOf(j.frame))
    && Write(j.frame, j.order).Wrote? && Returns(Write(j.frame, j.order).frame)
  }

  /** The bytes a job puts on the wire. */
  function OutOf(j: Job): Bytes {
    if Listed(j.order, FieldsOf(j.frame)) then Write(j.frame, j.order).out else []
  }

  /** The frame of a job as its writer leaves it. */
  function SentBy(j: Job): Frame {
    if Listed(j.order, FieldsOf(j.frame)) && Write(j.frame, j.order).Wrote? then Write(j.frame, j.order).frame else j.frame
  }

  function Emitted(jobs: seq<Job>): Bytes {
    if jobs == [] then [] else OutOf(jobs[0]) + Emitted(jobs[1..])
  }

  function Sent(jobs: seq<Job>): seq<Frame> {
    if jobs == [] then [] else [SentBy(jobs[0])] + Sent(jobs[1..])
  }

  function ReadMany(n: nat, s: Bytes): Parsed<seq<Frame>> {
    if n == 0 then Ok(Piece([], s))
    else
      var f :- Read(s);
      var fs :- ReadMany(n - 1, f.rest);
      Ok(Piece([f.value] + fs.value, fs.rest))
  }

  /** Frames written one after another are read back one after another, and nothing else is consumed. */
  lemma {:induction false} ListRoundTrip(jobs: seq<Job>, rest: Bytes)
    requires forall j :: j in jobs ==> Sendable(j)
    ensures ReadMany(|jobs|, Emitted(jobs) + rest) == Ok(Piece(Sent(jobs), rest))
    decreases |jobs|
  {
    hide Read, OutOf, SentBy, Sendable;
    if jobs == [] {
      assert [] + rest == rest;
    } else {
      var tail := Emitted(jobs[1..]) + rest;
      JobRoundTrip(jobs[0], tail);
      assert Emitted(jobs) + rest == OutOf(jobs[0]) + tail;
      ListRoundTrip(jobs[1..], rest);
    }
  }

  lemma JobRoundTrip(j: Job, rest: Bytes)
    requires Sendable(j)
    ensures Read(OutOf(j) + rest) == Ok(Piece(SentBy(j), rest))
  {
    hide Read, Write, Returns, Sized, Visits, Listed;
    RoundTripIff(j.frame, j.order, rest);
  }

  // ---------- What a reader returns can be written ----------

  lemma SplitReturns(s: Bytes)
    ensures ValuesReturn(Split(s))
  {
    forall v | v in Split(s) ensures 0 !in v {
      var i :| 0 <= i < |Split(s)| && Split(s)[i] == v;
      PiecesArePlain(s, i);
    }
  }

  lemma AddReturns(h: Fields, name: Bytes, value: Bytes)
    requires FieldsReturn(h)
    ensures FieldsReturn(AddAll(h, Lower(name), Split(value)))
  {
    KeysAreProper(name);
    SplitReturns(value);
    hide Split, Proper;
  }

  lemma EntryReturns(s: Bytes, b: Block, id: U32)
    requires FieldsReturn(b.fields)
    ensures var r := ReadEntry(s, b, id); r.Ok? ==> FieldsReturn(r.piece.value.fields)
  {
    hide Read32, FieldsReturn, AddAll, Split, Lower, Take;
    if ReadEntry(s, b, id).Ok? {
      var nameLength := Read32(s).piece;
      var name := Take(nameLength.value, nameLength.rest).piece;
      var valueLength := Read32(name.rest).piece;
      AddReturns(b.fields, name.value, Take(valueLength.value, valueLength.rest).piece.value);
    }
  }

  lemma {:induction false} EntriesReturn(n: nat, s: Bytes, b: Block, id: U32)
    requires FieldsReturn(b.fields)
    ensures var r := ReadEntries(n, s, b, id); r.Ok? ==> FieldsReturn(r.piece.value.fields)
  {
    hide FieldsReturn, ReadEntry;
    if n > 0 && ReadEntry(s, b, id).Ok? {
      EntryReturns(s, b, id);
      EntriesReturn(n - 1, ReadEntry(s, b, id).piece.rest, ReadEntry(s, b, id).piece.value, id);
    }
  }

  lemma ReadFieldsReturn(s: Bytes, id: U32, frameType: U16)
    ensures var r := ReadFields(s, id, frameType); r.Ok? ==> id != 0 && FieldsAccepted(r.piece.value, frameType, id)
  {
    hide ReadEntries, Read32, FieldsReturn, InvalidIn;
    var n := Read32(s);
    if n.Ok? {
      assert FieldsReturn(map[]) by { EmptyReturns(); }
      EntriesReturn(n.piece.value, n.piece.rest, Block(map[], None), id);
    }
  }

  lemma EmptyReturns()
    ensures FieldsReturn(map[])
  {
  }

  /** All that keeps a frame that was read from being written and read again is its size. */
  ghost predicate Rewritable(f: Frame) {
    match f
    case SynStream(_, id, _, priority, _, fields) => id != 0 && priority < 8 && FieldsAccepted(fields, TYPE_SYN_STREAM, id)
    case SynReply(_, id, fields) => id != 0 && FieldsAccepted(fields, TYPE_SYN_REPLY, id)
    case Headers(_, id, fields) => id != 0 && FieldsAccepted(fields, TYPE_HEADERS, id)
    case Settings(_, values) => IdsFit(values)
    case RstStream(_, id, status) => id != 0 && status != 0
    case Ping(_, id) => id != 0
    case Data(id, _, data) => 0 < id < 0x8000_0000 && |data| <= MAX_DATA_LENGTH
    case _ => true
  }

  lemma {:induction false} SettingsFit(n: nat, s: Bytes, vs: seq<Setting>)
    requires IdsFit(vs)
    ensures var r := ReadSettings(n, s, vs); r.Ok? ==> IdsFit(r.piece.value)
  {
    if n > 0 && ReadSetting(s).Ok? {
      var v := ReadSetting(s).piece;
      assert v.value.id < 0x100_0000 by { hide Read32; }
      hide ReadSetting;
      SettingsFit(n - 1, v.rest, vs + [v.value]);
    }
  }

  lemma BodyRewritable(h: Header, s: Bytes)
    ensures ReadBody(h, s).Ok? ==> Rewritable(ReadBody(h, s).piece.value)
  {
    hide ReadSynStream, ReadSynReply, ReadHeaders, ReadSettingsFrame, ReadRstStream, ReadPing, ReadGoAway, ReadWindowUpdate,
         Rewritable;
    SynStreamRewritable(h, s);
    IdFieldsRewritable(h, s);
    SettingsRewritable(h, s);
    StatusRewritable(h, s);
    PairRewritable(h, s);
  }

  lemma SettingsRewritable(h: Header, s: Bytes)
    ensures ReadSettingsFrame(h, s).Ok? ==> Rewritable(ReadSettingsFrame(h, s).piece.value)
  {
    hide Read32, ReadSettings, IdsFit, FieldsAccepted;
    var n := Read32(s);
    if n.Ok? {
      assert IdsFit([]) by { NoIds(); }
      SettingsFit(n.piece.value, n.piece.rest, []);
    }
  }

  lemma StatusRewritable(h: Header, s: Bytes)
    ensures ReadRstStream(h, s).Ok? ==> Rewritable(ReadRstStream(h, s).piece.value)
    ensures ReadPing(h, s).Ok? ==> Rewritable(ReadPing(h, s).piece.value)
  {
    hide Read32, FieldsAccepted, IdsFit;
  }

  lemma PairRewritable(h: Header, s: Bytes)
    ensures ReadGoAway(h, s).Ok? ==> Rewritable(ReadGoAway(h, s).piece.value)
    ensures ReadWindowUpdate(h, s).Ok? ==> Rewritable(ReadWindowUpdate(h, s).piece.value)
  {
    hide Read32, FieldsAccepted, IdsFit;
  }

  lemma NoIds()
    ensures IdsFit([])
  {
  }

  lemma PriorityFits(s: Bytes)
    ensures ReadSynHead(s).Ok? ==> ReadSynHead(s).piece.value.priority < 8
  {
    hide Read32;
  }

  lemma SynStreamRewritable(h: Header, s: Bytes)
    ensures ReadSynStream(h, s).Ok? ==> Rewritable(ReadSynStream(h, s).piece.value)
  {
    PriorityFits(s);
    hide ReadSynHead, ReadFields, FieldsAccepted, IdsFit;
    if ReadSynHead(s).Ok? {
      ReadFieldsReturn(ReadSynHead(s).piece.rest, ReadSynHead(s).piece.value.id, TYPE_SYN_STREAM);
    }
  }

  lemma IdFieldsRewritable(h: Header, s: Bytes)
    ensures ReadSynReply(h, s).Ok? ==> Rewritable(ReadSynReply(h, s).piece.value)
    ensures ReadHeaders(h, s).Ok? ==> Rewritable(ReadHeaders(h, s).piece.value)
  {
    hide Read32, ReadFields, FieldsAccepted, IdsFit;
    if Read32(s).Ok? {
      var id := Read32(s).piece;
      ReadFieldsReturn(id.rest, id.value, TYPE_SYN_REPLY);
      ReadFieldsReturn(id.rest, id.value, TYPE_HEADERS);
    }
  }

  lemma ReadRewritable(s: Bytes)
    ensures Read(s).Ok? ==> Rewritable(Read(s).piece.value)
  {
    hide Read32, ReadBody, FieldsAccepted, HeaderOf;
    var first := Read32(s);
    if first.Ok? {
      if first.piece.value >= 0x8000_0000 {
        var second := Read32(first.piece.rest);
        if second.Ok? {
          BodyRewritable(HeaderOf(first.piece.value, second.piece.value), second.piece.rest);
        }
      }
    }
  }

  /**
  Whatever bytes came in, a frame that was read can be written again, in any order of its headers,
  and is read back as written unless it has outgrown the length field.
  */
  lemma ReadThenWrite(s: Bytes, order: seq<Bytes>, rest: Bytes)
    requires Read(s).Ok? && Sized(Read(s).piece.value) && Visits(order, FieldsOf(Read(s).piece.value))
    ensures var w := Write(Read(s).piece.value, order);
            w.Wrote? && (w.frame.Data? || w.frame.h.length < 0x100_0000 ==> Read(w.out + rest) == Ok(Piece(w.frame, rest)))
  {
    var f := Read(s).piece.value;
    ReadRewritable(s);
    RewritableIsWritten(f, order);
    hide *;
    RoundTripIff(f, order, rest);
  }

  function WithHeader(f: Frame, h: Header): Frame {
    match f
    case SynStream(_, id, associated, priority, slot, fields) => SynStream(h, id, associated, priority, slot, fields)
    case SynReply(_, id, fields) => SynReply(h, id, fields)
    case Headers(_, id, fields) => Headers(h, id, fields)
    case RstStream(_, id, status) => RstStream(h, id, status)
    case Settings(_, values) => Settings(h, values)
    case Ping(_, id) => Ping(h, id)
    case GoAway(_, last, status) => GoAway(h, last, status)
    case WindowUpdate(_, id, delta) => WindowUpdate(h, id, delta)
    case Data(_, _, _) => f
  }

  /** A writer changes nothing of a frame but its header. */
  lemma KeepsContents(f: Frame, order: seq<Bytes>)
    requires Listed(order, FieldsOf(f)) && Write(f, order).Wrote?
    ensures var g := Write(f, order).frame; if f.Data? then g == f else !g.Data? && g == WithHeader(f, g.h)
  {
    hide Listed, HeaderBytes, Body, B32, Pack, BlockBytes, Stamp;
  }

  lemma RewritableAnyHeader(f: Frame, h: Header)
    requires Rewritable(f)
    ensures Rewritable(WithHeader(f, h))
  {
    hide FieldsAccepted, IdsFit;
  }

  lemma RewritableReturns(f: Frame)
    requires Rewritable(f) && (f.Data? || f.h.length < 0x100_0000)
    ensures Returns(f)
  {
    hide FieldsAccepted, IdsFit;
  }

  lemma RewritableWrote(f: Frame, order: seq<Bytes>)
    requires Rewritable(f) && Listed(order, FieldsOf(f))
    ensures Write(f, order).Wrote?
  {
    hide Listed, FieldsAccepted, IdsFit, HeaderBytes, Body, B32, Pack, BlockBytes, Stamp;
  }

  lemma RewritableIsWritten(f: Frame, order: seq<Bytes>)
    requires Rewritable(f) && Visits(order, FieldsOf(f))
    ensures Listed(order, FieldsOf(f)) && Write(f, order).Wrote?
    ensures var g := Write(f, order).frame; g.Data? || g.h.length < 0x100_0000 ==> Returns(g)
  {
    assert Listed(order, FieldsOf(f));
    hide *;
    RewritableWrote(f, order);
    KeepsContents(f, order);
    var g := Write(f, order).frame;
    if g.Data? {
      AlwaysReturns(g);
    } else if g.h.length < 0x100_0000 {
      RewritableAnyHeader(f, g.h);
      RewritableReturns(g);
    }
  }
}

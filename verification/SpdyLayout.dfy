/**
Where every field of a SPDY Draft 3 frame stands on the wire, in numbers: what the writers emit and
what the readers make of any input (sections 2.2.1, 2.2.2 and 2.6.1 to 2.6.10).
*/
module SpdyLayouts {
  import opened ByteStrings
  import opened SpdyFrames
  import opened SpdyRoundTrip
  import opened Wrappers

  // ---------- Network byte order ----------

  /** The numbers that start at offset `i`. */
  function N16(s: Bytes, i: nat): U16
    requires i + 2 <= |s|
  {
    var a: int, b: int := s[i], s[i + 1];
    a * 256 + b
  }

  function N24(s: Bytes, i: nat): U32
    requires i + 3 <= |s|
  {
    var a: int, b: int, c: int := s[i], s[i + 1], s[i + 2];
    a * 65536 + b * 256 + c
  }

  function N32(s: Bytes, i: nat): U32
    requires i + 4 <= |s|
  {
    var a: int, b: int, c: int, d: int := s[i], s[i + 1], s[i + 2], s[i + 3];
    a * 16777216 + b * 65536 + c * 256 + d
  }

  lemma N32Bound(s: Bytes, i: nat)
    requires i + 4 <= |s|
    ensures var a: int := s[i]; N32(s, i) == a * 16777216 + N24(s, i + 1) && N32(s, i) < 0x1_0000_0000 && N24(s, i + 1) < 16777216
  {
  }

  // ---------- Reading ----------

  /** The end of the input before `n` bytes from offset `i` on. */
  function Cut(s: Bytes, i: nat): Error { if |s| <= i then EndOfInput else UnexpectedEnd }

  lemma Read32At(s: Bytes, i: nat)
    requires i <= |s|
    ensures Read32(s[i..]) == if i + 4 <= |s| then Ok(Piece(N32(s, i), s[i + 4..])) else Failed(Cut(s, i), [])
  {
    if i + 4 <= |s| {
      assert s[i..][..4] == [s[i], s[i + 1], s[i + 2], s[i + 3]] && s[i..][4..] == s[i + 4..];
    }
  }

  /** The header of a control frame, whatever its version, flags and length. */
  predicate Control(s: Bytes, kind: nat) { |s| >= 8 && s[0] >= 128 && N16(s, 2) == kind }

  function HeaderAt(s: Bytes, kind: U16): Header
    requires Control(s, kind)
  {
    Header(N16(s, 0) - 32768, kind, s[4], N24(s, 5))
  }

  lemma ControlParts(s: Bytes, kind: U16)
    requires Control(s, kind)
    ensures N32(s, 0) >= 0x8000_0000 && N32(s, 4) < 0x1_0000_0000
    ensures HeaderOf(N32(s, 0), N32(s, 4)) == HeaderAt(s, kind)
  {
    N32Bound(s, 4);
    var hi: nat, lo: nat := N16(s, 0), N16(s, 2);
    assert N32(s, 0) == hi * 65536 + lo;
    Halves(hi, lo);
    TopAndRest(s[4], N24(s, 5));
  }

  lemma Halves(hi: nat, lo: nat)
    requires lo < 65536
    ensures (hi * 65536 + lo) / 0x1_0000 == hi && (hi * 65536 + lo) % 0x1_0000 == lo
  {
  }

  lemma ReadControl(s: Bytes, kind: U16)
    requires Control(s, kind)
    ensures Read(s) == ReadBody(HeaderAt(s, kind), s[8..])
    ensures HeaderAt(s, kind).frameType == kind && HeaderAt(s, kind).flags == s[4] && HeaderAt(s, kind).length == N24(s, 5)
  {
    ReadIsControl(s, kind);
    hide Read, ReadBody, N24, N16, Control;
  }

  lemma ReadIsControl(s: Bytes, kind: U16)
    requires Control(s, kind)
    ensures Read(s) == ReadBody(HeaderAt(s, kind), s[8..])
  {
    hide ReadBody, N32, HeaderOf, HeaderAt, Read32;
    Read32At(s, 0);
    Read32At(s, 4);
    ControlParts(s, kind);
    assert s[0..] == s;
  }

  /** The reader of each kind. */
  lemma Readers(h: Header, t: Bytes)
    ensures h.frameType == 1 ==> ReadBody(h, t) == ReadSynStream(h, t)
    ensures h.frameType == 2 ==> ReadBody(h, t) == ReadSynReply(h, t)
    ensures h.frameType == 3 ==> ReadBody(h, t) == ReadRstStream(h, t)
    ensures h.frameType == 4 ==> ReadBody(h, t) == ReadSettingsFrame(h, t)
    ensures h.frameType == 6 ==> ReadBody(h, t) == ReadPing(h, t)
    ensures h.frameType == 7 ==> ReadBody(h, t) == ReadGoAway(h, t)
    ensures h.frameType == 8 ==> ReadBody(h, t) == ReadHeaders(h, t)
    ensures h.frameType == 9 ==> ReadBody(h, t) == ReadWindowUpdate(h, t)
    ensures h.frameType !in {1, 2, 3, 4, 6, 7, 8, 9} ==> ReadBody(h, t) == Failed(InvalidControlFrame(0), t)
  {
    hide ReadSynStream, ReadSynReply, ReadRstStream, ReadSettingsFrame, ReadPing, ReadGoAway, ReadHeaders, ReadWindowUpdate;
  }

  /** PING is kind 6: a non-zero id and no flags. */
  lemma ReadPingAt(s: Bytes)
    requires Control(s, 6)
    ensures Read(s) ==
      if |s| < 12 then Failed(Cut(s, 8), [])
      else if N32(s, 8) == 0 then Failed(ZeroStreamId, s[12..])
      else if s[4] != 0 then Failed(InvalidControlFrame(N32(s, 8)), s[12..])
      else Ok(Piece(Ping(HeaderAt(s, 6), N32(s, 8)), s[12..]))
  {
    ReadControl(s, 6);
    Readers(HeaderAt(s, 6), s[8..]);
    hide Read, ReadBody, Read32, N32, N24, Control, HeaderAt;
    Read32At(s, 8);
  }

  /** What every tunnel sends first is read back: 80 03 00 06 00 00 00 04 and an id. */
  lemma PingBytes(a: Byte, b: Byte, c: Byte, d: Byte, rest: Bytes)
    requires a != 0 || b != 0 || c != 0 || d != 0
    ensures var id := N32([a, b, c, d], 0);
            id < 0x1_0000_0000 && Read([0x80, 3, 0, 6, 0, 0, 0, 4, a, b, c, d] + rest) == Ok(Piece(Ping(Header(3, 6, 0, 4), id), rest))
  {
    var s := [0x80, 3, 0, 6, 0, 0, 0, 4, a, b, c, d] + rest;
    PingHead(s);
    ReadPingAt(s);
    hide Read, ReadBody, N24, N16, Control, HeaderAt;
    assert s[12..] == rest;
    assert N32(s, 8) == N32([a, b, c, d], 0);
  }

  lemma PingHead(s: Bytes)
    requires |s| >= 12 && s[..8] == [0x80, 3, 0, 6, 0, 0, 0, 4]
    ensures Control(s, 6) && HeaderAt(s, 6) == Header(3, 6, 0, 4) && s[4] == 0
  {
    assert s[..8][0] == s[0] && s[..8][1] == s[1] && s[..8][2] == s[2] && s[..8][3] == s[3];
    assert s[..8][4] == s[4] && s[..8][5] == s[5] && s[..8][6] == s[6] && s[..8][7] == s[7];
  }

  /** RST_STREAM is kind 3: id and status, neither of them zero. */
  lemma ReadRstStreamAt(s: Bytes)
    requires Control(s, 3)
    ensures Read(s) ==
      if |s| < 12 then Failed(Cut(s, 8), [])
      else if |s| < 16 then Failed(Cut(s, 12), [])
      else if N32(s, 12) == 0 then Failed(InvalidControlFrame(N32(s, 8)), s[16..])
      else if N32(s, 8) == 0 then Failed(ZeroStreamId, s[16..])
      else Ok(Piece(RstStream(HeaderAt(s, 3), N32(s, 8), N32(s, 12)), s[16..]))
  {
    ReadControl(s, 3);
    Readers(HeaderAt(s, 3), s[8..]);
    hide Read, ReadBody, Read32, N32, N24, Control, HeaderAt;
    Read32At(s, 8);
    if |s| >= 12 { Read32At(s, 12); }
  }

  /** GOAWAY is kind 7: no flags, length 8, the last good stream id and a status. */
  lemma ReadGoAwayAt(s: Bytes)
    requires Control(s, 7)
    ensures Read(s) ==
      if |s| < 12 then Failed(Cut(s, 8), [])
      else if s[4] != 0 || N24(s, 5) != 8 then Failed(InvalidControlFrame(N32(s, 8)), s[12..])
      else if |s| < 16 then Failed(Cut(s, 12), [])
      else Ok(Piece(GoAway(HeaderAt(s, 7), N32(s, 8), N32(s, 12)), s[16..]))
  {
    ReadControl(s, 7);
    Readers(HeaderAt(s, 7), s[8..]);
    hide Read, ReadBody, Read32, N32, N24, Control, HeaderAt;
    Read32At(s, 8);
    if |s| >= 12 { Read32At(s, 12); }
  }

  /** WINDOW_UPDATE is kind 9: no flags, length 8, an id and a delta. */
  lemma ReadWindowUpdateAt(s: Bytes)
    requires Control(s, 9)
    ensures Read(s) ==
      if |s| < 12 then Failed(Cut(s, 8), [])
      else if s[4] != 0 || N24(s, 5) != 8 then Failed(InvalidControlFrame(N32(s, 8)), s[12..])
      else if |s| < 16 then Failed(Cut(s, 12), [])
      else Ok(Piece(WindowUpdate(HeaderAt(s, 9), N32(s, 8), N32(s, 12)), s[16..]))
  {
    ReadControl(s, 9);
    Readers(HeaderAt(s, 9), s[8..]);
    hide Read, ReadBody, Read32, N32, N24, Control, HeaderAt;
    Read32At(s, 8);
    if |s| >= 12 { Read32At(s, 12); }
  }

  /** No other kind is known. */
  lemma ReadUnknownAt(s: Bytes, kind: U16)
    requires Control(s, kind) && kind !in {1, 2, 3, 4, 6, 7, 8, 9}
    ensures Read(s) == Failed(InvalidControlFrame(0), s[8..])
  {
    ReadControl(s, kind);
    Readers(HeaderAt(s, kind), s[8..]);
    hide Read, ReadBody;
  }

  /** A data frame has its top bit clear: id, flags, 24-bit length, data. */
  lemma ReadDataAt(s: Bytes)
    requires |s| >= 4 && s[0] < 128
    ensures Read(s) ==
      if |s| < 8 then Failed(Cut(s, 4), [])
      else if |s| < 8 + N24(s, 5) then Failed(Cut(s, 8), [])
      else if N32(s, 0) == 0 then Failed(ZeroStreamId, s[8 + N24(s, 5)..])
      else Ok(Piece(Data(N32(s, 0), s[4], s[8..8 + N24(s, 5)]), s[8 + N24(s, 5)..]))
  {
    DataParts(s);
    ReadIsData(s);
    hide Read, Read32, N32, N24, Take;
    Read32At(s, 4);
    if |s| >= 8 {
      TakeAt(s, 8, N24(s, 5));
    }
  }

  lemma ReadIsData(s: Bytes)
    requires |s| >= 4 && N32(s, 0) < 0x8000_0000
    ensures Read(s) == ReadData(N32(s, 0), s[4..])
  {
    hide ReadData, ReadBody, N32, Read32, HeaderOf;
    Read32At(s, 0);
    assert s[0..] == s;
  }

  lemma DataParts(s: Bytes)
    requires |s| >= 4 && s[0] < 128
    ensures N32(s, 0) < 0x8000_0000
    ensures |s| >= 8 ==> N32(s, 4) / 0x100_0000 == s[4] && N32(s, 4) % 0x100_0000 == N24(s, 5)
  {
    if |s| >= 8 {
      N32Bound(s, 4);
      TopAndRest(s[4], N24(s, 5));
      hide N24;
    }
  }

  lemma TopAndRest(top: nat, low: nat)
    requires low < 16777216
    ensures (top * 16777216 + low) / 0x100_0000 == top && (top * 16777216 + low) % 0x100_0000 == low
  {
  }

  lemma TakeAt(s: Bytes, i: nat, n: nat)
    requires i <= |s|
    ensures Take(n, s[i..]) == if i + n <= |s| then Ok(Piece(s[i..i + n], s[i + n..])) else Failed(Cut(s, i), [])
  {
    if i + n <= |s| {
      assert s[i..][..n] == s[i..i + n] && s[i..][n..] == s[i + n..];
    }
  }

  // ---------- Readers of header blocks ----------

  /** The names that no request may hold, and no response; a request is a SYN_STREAM, or HEADERS of an even stream. */
  lemma RefusedNames(name: Bytes, kind: U16, id: U32)
    ensures name in InvalidIn(kind, id) <==>
              || name in {Ascii("Connection"), Ascii("Keep-Alive"), Ascii("Proxy-Connection"), Ascii("Transfer-Encoding")}
              || (name == Ascii("Host") && (kind == 1 || (kind == 8 && id % 2 == 0)))
  {
    hide Ascii;
  }

  /** The outcome of the frame that carries the fields of `b` under `id`, none of them among the names `refused`. */
  ghost predicate BlockOutcome(r: Parsed<Frame>, f: Frame, b: Parsed<Fields>, refused: set<Bytes>, id: U32) {
    match b
    case Failed(e, left) => r == Failed(e, left)
    case Ok(p) =>
      r == if !(p.value.Keys !! refused) then Failed(InvalidHeaderPresent(id), p.rest)
           else if id == 0 then Failed(ZeroStreamId, p.rest)
           else Ok(Piece(f, p.rest))
  }

  function FieldsIn(b: Parsed<Fields>): Fields { if b.Ok? then b.piece.value else map[] }

  /** SYN_STREAM is kind 1: id, associated id, priority in the upper three bits, slot, headers. */
  lemma ReadSynStreamAt(s: Bytes)
    requires Control(s, 1) && |s| >= 18
    ensures var id, b := N32(s, 8), ReadBlock(s[18..], N32(s, 8));
            BlockOutcome(Read(s), SynStream(HeaderAt(s, 1), id, N32(s, 12), s[16] / 32, s[17], FieldsIn(b)), b, InvalidIn(1, id), id)
  {
    ReadControl(s, 1);
    Readers(HeaderAt(s, 1), s[8..]);
    SynHeadAt(s);
    ReadFieldsIs(s[18..], N32(s, 8), 1);
    hide Read, ReadBody, N32, N24, ReadBlock, InvalidIn, Control, HeaderAt, ReadSynHead, ReadFields;
  }

  lemma SynHeadAt(s: Bytes)
    requires |s| >= 18
    ensures ReadSynHead(s[8..]) == Ok(Piece(SynHead(N32(s, 8), N32(s, 12), s[16] / 32, s[17]), s[18..]))
  {
    hide Read32, N32;
    Read32At(s, 8);
    Read32At(s, 12);
    Read8At(s, 16);
    Read8At(s, 17);
    hide Read8;
  }

  lemma ReadFieldsIs(t: Bytes, id: U32, kind: U16)
    ensures ReadFields(t, id, kind) ==
      match ReadBlock(t, id)
      case Failed(e, left) => Failed(e, left)
      case Ok(p) => if !(p.value.Keys !! InvalidIn(kind, id)) then Failed(InvalidHeaderPresent(id), p.rest)
                    else if id == 0 then Failed(ZeroStreamId, p.rest) else Ok(p)
  {
    hide ReadBlock, InvalidIn;
  }

  lemma Read8At(s: Bytes, i: nat)
    requires i < |s|
    ensures Read8(s[i..]) == Ok(Piece(s[i], s[i + 1..]))
  {
    assert s[i..][..1] == [s[i]] && s[i..][1..] == s[i + 1..];
  }

  lemma IdFieldsAt(s: Bytes, kind: U16)
    requires Control(s, kind) && |s| >= 12
    ensures var id, b := N32(s, 8), ReadBlock(s[12..], N32(s, 8));
            ReadIdFields(s[8..], kind) ==
              match b
              case Failed(e, left) => Failed(e, left)
              case Ok(p) => if !(p.value.Keys !! InvalidIn(kind, id)) then Failed(InvalidHeaderPresent(id), p.rest)
                            else if id == 0 then Failed(ZeroStreamId, p.rest)
                            else Ok(Piece(IdFields(id, p.value), p.rest))
  {
    hide Read32, N32, ReadBlock, InvalidIn;
    Read32At(s, 8);
  }

  /** SYN_REPLY is kind 2: id and headers. */
  lemma ReadSynReplyAt(s: Bytes)
    requires Control(s, 2) && |s| >= 12
    ensures var id, b := N32(s, 8), ReadBlock(s[12..], N32(s, 8));
            BlockOutcome(Read(s), SynReply(HeaderAt(s, 2), id, FieldsIn(b)), b, InvalidIn(2, id), id)
  {
    ReadControl(s, 2);
    Readers(HeaderAt(s, 2), s[8..]);
    IdFieldsAt(s, 2);
    hide Read, ReadBody, N32, N24, ReadBlock, InvalidIn, ReadIdFields, Control, HeaderAt;
  }

  /** HEADERS is kind 8: id and headers. */
  lemma ReadHeadersAt(s: Bytes)
    requires Control(s, 8) && |s| >= 12
    ensures var id, b := N32(s, 8), ReadBlock(s[12..], N32(s, 8));
            BlockOutcome(Read(s), Headers(HeaderAt(s, 8), id, FieldsIn(b)), b, InvalidIn(8, id), id)
  {
    ReadControl(s, 8);
    Readers(HeaderAt(s, 8), s[8..]);
    IdFieldsAt(s, 8);
    hide Read, ReadBody, N32, N24, ReadBlock, InvalidIn, ReadIdFields, Control, HeaderAt;
  }

  // ---------- SETTINGS ----------

  /** The `n` settings from offset `i` on: a byte of flags, a 24-bit id and a value each. */
  function SettingsAt(s: Bytes, i: nat, n: nat): seq<Setting>
    requires i + 8 * n <= |s|
    decreases n
  {
    if n == 0 then [] else [Setting(s[i], N24(s, i + 1), N32(s, i + 4))] + SettingsAt(s, i + 8, n - 1)
  }

  lemma SettingAt(s: Bytes, i: nat)
    requires i + 8 <= |s|
    ensures ReadSetting(s[i..]) == Ok(Piece(Setting(s[i], N24(s, i + 1), N32(s, i + 4)), s[i + 8..]))
  {
    Read32At(s, i);
    Read32At(s, i + 4);
    N32Bound(s, i);
    TopAndRest(s[i], N24(s, i + 1));
    hide Read32, N24;
  }

  lemma {:induction false} SettingsListAt(s: Bytes, i: nat, n: nat, vs: seq<Setting>)
    requires i + 8 * n <= |s|
    ensures ReadSettings(n, s[i..], vs) == Ok(Piece(vs + SettingsAt(s, i, n), s[i + 8 * n..]))
    decreases n
  {
    hide ReadSetting, N24, N32;
    if n == 0 {
      assert vs + [] == vs;
    } else {
      SettingAt(s, i);
      var v := Setting(s[i], N24(s, i + 1), N32(s, i + 4));
      SettingsListAt(s, i + 8, n - 1, vs + [v]);
      assert vs + [v] + SettingsAt(s, i + 8, n - 1) == vs + SettingsAt(s, i, n);
    }
  }

  /** SETTINGS is kind 4: a count and as many settings. */
  lemma ReadSettingsAt(s: Bytes)
    requires Control(s, 4) && |s| >= 12 && |s| >= 12 + 8 * N32(s, 8)
    ensures Read(s) == Ok(Piece(Settings(HeaderAt(s, 4), SettingsAt(s, 12, N32(s, 8))), s[12 + 8 * N32(s, 8)..]))
  {
    ReadControl(s, 4);
    Readers(HeaderAt(s, 4), s[8..]);
    hide Read, ReadBody, Read32, N32, N24, ReadSettings, SettingsAt, Control, HeaderAt;
    Read32At(s, 8);
    SettingsFrom(s, 12, N32(s, 8));
  }

  lemma SettingsFrom(s: Bytes, i: nat, n: nat)
    requires i + 8 * n <= |s|
    ensures ReadSettings(n, s[i..], []) == Ok(Piece(SettingsAt(s, i, n), s[i + 8 * n..]))
  {
    hide ReadSettings, SettingsAt;
    SettingsListAt(s, i, n, []);
    assert [] + SettingsAt(s, i, n) == SettingsAt(s, i, n);
  }

  // ---------- Writing ----------

  /** The word written at offset `i`. */
  lemma WordAt(s: Bytes, i: nat, n: U32)
    requires i + 4 <= |s| && s[i..i + 4] == B32(n)
    ensures N32(s, i) == n
  {
    Digits(n);
    assert s[i..i + 4][0] == s[i] && s[i..i + 4][1] == s[i + 1] && s[i..i + 4][2] == s[i + 2] && s[i..i + 4][3] == s[i + 3];
  }

  /** The first piece of what stands at offset `i`, and what stands behind it. */
  lemma PieceAt(s: Bytes, i: nat, piece: Bytes, rest: Bytes)
    requires i <= |s| && s[i..] == piece + rest
    ensures i + |piece| <= |s| && s[i..i + |piece|] == piece && s[i + |piece|..] == rest
  {
    assert s[i..][..|piece|] == piece && s[i..][|piece|..] == rest;
  }

  lemma FieldAt(s: Bytes, i: nat, n: U32, rest: Bytes)
    requires i <= |s| && s[i..] == B32(n) + rest
    ensures i + 4 <= |s| && N32(s, i) == n && s[i + 4..] == rest
  {
    PieceAt(s, i, B32(n), rest);
    WordAt(s, i, n);
  }

  lemma LastFieldAt(s: Bytes, i: nat, n: U32)
    requires i <= |s| && s[i..] == B32(n)
    ensures |s| == i + 4 && N32(s, i) == n
  {
    assert s[i..i + 4] == B32(n);
    WordAt(s, i, n);
  }

  /** The number of each kind. */
  function Number(f: Frame): nat
    requires !f.Data?
  {
    match f
    case SynStream(_, _, _, _, _, _) => 1
    case SynReply(_, _, _) => 2
    case RstStream(_, _, _) => 3
    case Settings(_, _) => 4
    case Ping(_, _) => 6
    case GoAway(_, _, _) => 7
    case Headers(_, _, _) => 8
    case WindowUpdate(_, _, _) => 9
  }

  /** The flags a kind goes out with: those of its caller for four of them, none for the others. */
  function FlagsOf(f: Frame): Byte
    requires !f.Data?
  {
    if f.SynStream? || f.SynReply? || f.Headers? || f.Settings? then f.h.flags else 0
  }

  /** 80 03, the kind, the flags, and the number of bytes that follow, for every control frame that its writer accepts. */
  lemma EveryControlHead(f: Frame, order: seq<Bytes>)
    requires Listed(order, FieldsOf(f)) && Write(f, order).Wrote? && !f.Data? && |Write(f, order).out| - 8 < 0x100_0000
    ensures var out := Write(f, order).out;
            |out| >= 8 && out[0] == 0x80 && out[1] == 3 && out[2] == 0 && out[3] == Number(f) && out[4] == FlagsOf(f)
            && N24(out, 5) == |out| - 8
  {
    StampedKind(f, order);
    LengthIsHonest(f, order);
    ControlHeaderOnTheWire(f, order);
    var h, out := Write(f, order).frame.h, Write(f, order).out;
    hide Write, Listed;
    var head := out[..8];
    assert out[0] == head[0] && out[1] == head[1] && out[2] == head[2] && out[3] == head[3] && out[4] == head[4];
    assert out[5] == head[5] && out[6] == head[6] && out[7] == head[7];
    ThreeBytes(h.length);
  }

  lemma ThreeBytes(n: nat)
    ensures n / 0x1_0000 * 65536 + n / 0x100 % 0x100 * 256 + n % 0x100 == n
  {
    assert n / 0x100 == n / 0x1_0000 * 0x100 + n / 0x100 % 0x100;
  }

  lemma StampedKind(f: Frame, order: seq<Bytes>)
    requires Listed(order, FieldsOf(f)) && Write(f, order).Wrote? && !f.Data?
    ensures var h := Write(f, order).frame; !h.Data? && h.h.frameType == Number(f) && h.h.flags == FlagsOf(f)
  {
    hide Listed, HeaderBytes, Body, BlockBytes;
  }

  /** What stands behind the header. */
  lemma BodyOnTheWire(f: Frame, order: seq<Bytes>)
    requires Listed(order, FieldsOf(f)) && Write(f, order).Wrote? && !f.Data?
    ensures |Write(f, order).out| >= 8 && Write(f, order).out[8..] == Body(f, order)
  {
    SameBody(f, order);
    EmitsHeader(f, order);
    hide Write, Listed, HeaderBytes, Body;
  }

  /** PING and the frames of two words: their fields, at their places. */
  lemma WordFrames(f: Frame, order: seq<Bytes>)
    requires Listed(order, FieldsOf(f)) && Write(f, order).Wrote?
    ensures var out := Write(f, order).out;
            match f
            case Ping(_, id) => |out| == 12 && N32(out, 8) == id
            case RstStream(_, id, status) => |out| == 16 && N32(out, 8) == id && N32(out, 12) == status
            case GoAway(_, last, status) => |out| == 16 && N32(out, 8) == last && N32(out, 12) == status
            case WindowUpdate(_, id, delta) => |out| == 16 && N32(out, 8) == id && N32(out, 12) == delta
            case _ => true
  {
    if f.Ping? || f.RstStream? || f.GoAway? || f.WindowUpdate? {
      BodyOnTheWire(f, order);
      var out := Write(f, order).out;
      hide Write, N32, B32, Listed;
      match f
      case Ping(_, id) => LastFieldAt(out, 8, id);
      case RstStream(_, id, status) => FieldAt(out, 8, id, B32(status)); LastFieldAt(out, 12, status);
      case GoAway(_, last, status) => FieldAt(out, 8, last, B32(status)); LastFieldAt(out, 12, status);
      case WindowUpdate(_, id, delta) => FieldAt(out, 8, id, B32(delta)); LastFieldAt(out, 12, delta);
    }
  }

  lemma BlockAt(s: Bytes, i: nat, fields: Fields, order: seq<Bytes>)
    requires i <= |s| && Listed(order, fields) && |fields| < LIMIT && s[i..] == BlockBytes(fields, order)
    ensures i + 4 <= |s| && N32(s, i) == |fields| && s[i + 4..] == EntriesBytes(fields, order)
  {
    hide N32, B32, EntriesBytes, Listed;
    FieldAt(s, i, |fields|, EntriesBytes(fields, order));
  }

  lemma SynStreamBody(f: Frame, order: seq<Bytes>)
    requires f.SynStream? && Listed(order, FieldsOf(f))
    ensures Body(f, order) == B32(f.id) + (B32(f.associated) + ([Shifted(f.priority), f.slot] + BlockBytes(f.fields, order)))
  {
    hide BlockBytes, B32, Listed, Shifted;
  }

  lemma TwoBytes(s: Bytes, i: nat, w: Bytes)
    requires i + 2 <= |s| && |w| == 2 && s[i..i + 2] == w
    ensures s[i] == w[0] && s[i + 1] == w[1]
  {
  }

  /** SYN_STREAM: id, associated id, priority in the upper three bits of byte 16, slot, number of headers, headers. */
  lemma SynStreamOnTheWire(f: Frame, order: seq<Bytes>)
    requires f.SynStream? && Listed(order, FieldsOf(f)) && Write(f, order).Wrote? && |f.fields| < LIMIT
    ensures var out := Write(f, order).out;
            && |out| >= 22 && N32(out, 8) == f.id && N32(out, 12) == f.associated && out[16] == f.priority % 8 * 32 && out[17] == f.slot
            && N32(out, 18) == |f.fields| && out[22..] == EntriesBytes(f.fields, order)
  {
    SynStreamFields(f, order);
    hide *;
    BodyOnTheWire(f, order);
    SynStreamBody(f, order);
    ShiftedIs(f.priority);
    var out, block, pair := Write(f, order).out, BlockBytes(f.fields, order), [Shifted(f.priority), f.slot];
    SynStreamAt(out, f.id, f.associated, pair, block);
    TwoBytes(out, 16, pair);
    BlockAt(out, 18, f.fields, order);
  }

  lemma SynStreamFields(f: Frame, order: seq<Bytes>)
    requires f.SynStream? && Listed(order, FieldsOf(f))
    ensures Listed(order, f.fields)
  {
    hide Listed;
  }

  lemma ShiftedIs(p: Byte)
    ensures Shifted(p) == p % 8 * 32
  {
  }

  lemma SynStreamAt(out: Bytes, id: U32, associated: U32, pair: Bytes, block: Bytes)
    requires |out| >= 8 && |pair| == 2 && out[8..] == B32(id) + (B32(associated) + (pair + block))
    ensures |out| >= 18 && N32(out, 8) == id && N32(out, 12) == associated && out[16..18] == pair && out[18..] == block
  {
    hide B32, N32;
    FieldAt(out, 8, id, B32(associated) + (pair + block));
    FieldAt(out, 12, associated, pair + block);
    PieceAt(out, 16, pair, block);
  }

  /** SYN_REPLY and HEADERS: id, number of headers, headers. */
  lemma IdFieldsOnTheWire(f: Frame, order: seq<Bytes>)
    requires (f.SynReply? || f.Headers?) && Listed(order, FieldsOf(f)) && Write(f, order).Wrote? && |f.fields| < LIMIT
    ensures var out := Write(f, order).out;
            |out| >= 16 && N32(out, 8) == f.id && N32(out, 12) == |f.fields| && out[16..] == EntriesBytes(f.fields, order)
  {
    BodyOnTheWire(f, order);
    var out, block := Write(f, order).out, BlockBytes(f.fields, order);
    assert out[8..] == B32(f.id) + block;
    hide Write, Body, N32, B32, BlockBytes, EntriesBytes, Listed;
    FieldAt(out, 8, f.id, block);
    BlockAt(out, 12, f.fields, order);
  }

  /** A header: length of its name, the name in small letters, length of its values, the values with a zero byte between each two. */
  lemma EntryOnTheWire(name: Bytes, vs: seq<Bytes>)
    requires |name| < LIMIT && |Join(vs)| < LIMIT
    ensures var e, n := EntryBytes(name, vs), |name|;
            && |e| == 8 + n + |Join(vs)| && N32(e, 0) == n && N32(e, 4 + n) == |Join(vs)| && e[8 + n..] == Join(vs)
            && (forall i :: 0 <= i < n ==> e[4 + i] == if 65 <= name[i] <= 90 then name[i] + 32 else name[i])
    ensures |vs| == 1 ==> Join(vs) == vs[0]
    ensures |vs| > 1 ==> Join(vs) == vs[0] + [0] + Join(vs[1..])
  {
    EntryIs(name, vs);
    LowerIs(name);
    JoinIs(vs);
    var lower, value, e := Lower(name), Join(vs), EntryBytes(name, vs);
    hide *;
    EntryAt(e, lower, value);
  }

  lemma LowerIs(name: Bytes)
    ensures |Lower(name)| == |name|
    ensures forall i :: 0 <= i < |name| ==> Lower(name)[i] == if 65 <= name[i] <= 90 then name[i] + 32 else name[i]
  {
  }

  lemma JoinIs(vs: seq<Bytes>)
    ensures |vs| == 1 ==> Join(vs) == vs[0]
    ensures |vs| > 1 ==> Join(vs) == vs[0] + [0] + Join(vs[1..])
  {
  }

  lemma EntryAt(e: Bytes, lower: Bytes, value: Bytes)
    requires |lower| < LIMIT && |value| < LIMIT && e == B32(|lower|) + (lower + (B32(|value|) + value))
    ensures var n := |lower|;
            && |e| == 8 + n + |value| && N32(e, 0) == n && N32(e, 4 + n) == |value| && e[8 + n..] == value
            && forall i :: 0 <= i < n ==> e[4 + i] == lower[i]
  {
    assert e[0..] == e;
    hide B32, N32;
    FieldAt(e, 0, |lower|, lower + (B32(|value|) + value));
    PieceAt(e, 4, lower, B32(|value|) + value);
    FieldAt(e, 4 + |lower|, |value|, value);
    SliceAt(e, 4, lower);
  }

  lemma EntryIs(name: Bytes, vs: seq<Bytes>)
    requires |name| < LIMIT && |Join(vs)| < LIMIT
    ensures EntryBytes(name, vs) == B32(|name|) + (Lower(name) + (B32(|Join(vs)|) + Join(vs)))
  {
    hide B32, Join, Lower;
  }

  lemma SliceAt(s: Bytes, i: nat, piece: Bytes)
    requires i + |piece| <= |s| && s[i..i + |piece|] == piece
    ensures forall k :: 0 <= k < |piece| ==> s[i + k] == piece[k]
  {
  }

  lemma SettingOnTheWire(s: Bytes, i: nat, v: Setting, rest: Bytes)
    requires v.id < 0x100_0000 && i <= |s| && s[i..] == SettingBytes(v) + rest
    ensures i + 8 <= |s| && s[i] == v.flag && N24(s, i + 1) == v.id && N32(s, i + 4) == v.value && s[i + 8..] == rest
  {
    PackLow(v.flag, v.id);
    TopByte(v.flag, v.id);
    ThreeBytes(v.id);
    var w := B32(Pack(v.flag, v.id));
    assert w == [v.flag, v.id / 0x1_0000, v.id / 0x100 % 0x100, v.id % 0x100];
    assert SettingBytes(v) + rest == w + (B32(v.value) + rest);
    hide Pack, B32, N32, SettingBytes;
    PieceAt(s, i, w, B32(v.value) + rest);
    FieldAt(s, i + 4, v.value, rest);
    FourBytes(s, i, w);
  }

  lemma FourBytes(s: Bytes, i: nat, w: Bytes)
    requires i + 4 <= |s| && |w| == 4 && s[i..i + 4] == w
    ensures s[i] == w[0] && s[i + 1] == w[1] && s[i + 2] == w[2] && s[i + 3] == w[3]
  {
  }

  /** Settings from offset `i` on: a byte of flags, a 24-bit id and a value each. */
  lemma {:induction false} SettingsListOnTheWire(s: Bytes, i: nat, vs: seq<Setting>)
    requires i <= |s| && s[i..] == SettingsBytes(vs) && IdsFit(vs)
    ensures |s| == i + 8 * |vs| && SettingsAt(s, i, |vs|) == vs
    decreases |vs|
  {
    hide N24, N32, SettingBytes;
    if vs != [] {
      SettingOnTheWire(s, i, vs[0], SettingsBytes(vs[1..]));
      SettingsListOnTheWire(s, i + 8, vs[1..]);
      assert vs == [vs[0]] + vs[1..];
    }
  }

  lemma SettingsBody(f: Frame, order: seq<Bytes>)
    requires f.Settings? && Listed(order, FieldsOf(f)) && |f.values| < LIMIT
    ensures Body(f, order) == B32(|f.values|) + SettingsBytes(f.values)
  {
    hide SettingsBytes, B32, Listed;
  }

  /** SETTINGS: the number of settings and the settings. */
  lemma SettingsOnTheWire(f: Frame, order: seq<Bytes>)
    requires f.Settings? && Listed(order, FieldsOf(f)) && Write(f, order).Wrote? && |f.values| < LIMIT && IdsFit(f.values)
    ensures var out := Write(f, order).out;
            |out| == 12 + 8 * |f.values| && N32(out, 8) == |f.values| && SettingsAt(out, 12, |f.values|) == f.values
  {
    BodyOnTheWire(f, order);
    SettingsBody(f, order);
    var out := Write(f, order).out;
    hide *;
    FieldAt(out, 8, |f.values|, SettingsBytes(f.values));
    SettingsListOnTheWire(out, 12, f.values);
  }

  /** DATA: id, flags, 24-bit length, data. */
  lemma DataOnTheWire(f: Frame, order: seq<Bytes>)
    requires f.Data? && Listed(order, FieldsOf(f)) && Write(f, order).Wrote?
    ensures var out := Write(f, order).out;
            && |out| == 8 + |f.data| && N32(out, 0) == f.id < 0x8000_0000 && out[4] == f.flags && N24(out, 5) == |f.data|
            && out[8..] == f.data
  {
    PackLow(f.flags, |f.data|);
    TopByte(f.flags, |f.data|);
    ThreeBytes(|f.data|);
    var w, out := B32(Pack(f.flags, |f.data|)), Write(f, order).out;
    assert w == [f.flags, |f.data| / 0x1_0000, |f.data| / 0x100 % 0x100, |f.data| % 0x100];
    assert out == B32(f.id) + (w + f.data) && f.id < 0x8000_0000 && out[0..] == out;
    hide Pack, B32, N32, Write, Listed;
    FieldAt(out, 0, f.id, w + f.data);
    PieceAt(out, 4, w, f.data);
    FourBytes(out, 4, w);
  }

  // ---------- Refusals of the writers ----------

  /** A writer refuses a zero id where there is one, a zero status, a data frame whose id has the top bit set, and too much data; nothing else. */
  lemma WriteRefusedIff(f: Frame, order: seq<Bytes>)
    requires Listed(order, FieldsOf(f))
    ensures Write(f, order).WriteFailed? <==>
              match f
              case Settings(_, _) => false
              case GoAway(_, _, _) => false
              case WindowUpdate(_, _, _) => false
              case RstStream(_, id, status) => id == 0 || status == 0
              case Data(id, _, data) => id == 0 || id >= 2147483648 || |data| > 16777215
              case _ => f.id == 0
    ensures Write(f, order).WriteFailed? && !(f.RstStream? && f.id != 0) ==> Write(f, order).out == []
  {
    hide Listed, HeaderBytes, Body, BlockBytes, EntriesBytes, B32;
  }

  /** A zero status is noticed when header and id are out: 80 03 00 03 00 00 00 08 and the id. */
  lemma ZeroStatusOnTheWire(f: Frame)
    requires f.RstStream? && f.id != 0 && f.status == 0
    ensures var w := Write(f, []);
            w.WriteFailed? && |w.out| == 12 && w.out[..8] == [0x80, 3, 0, 3, 0, 0, 0, 8] && N32(w.out, 8) == f.id
  {
    hide Write, HeaderBytes, B32, N32;
    ZeroStatusBytes(f);
    HeaderOnTheWire(Header(3, 3, 0, 8));
    var out := Write(f, []).out;
    EightThen(HeaderBytes(Header(3, 3, 0, 8)), B32(f.id), out);
    LastFieldAt(out, 8, f.id);
  }

  lemma ZeroStatusBytes(f: Frame)
    requires f.RstStream? && f.id != 0 && f.status == 0
    ensures Write(f, []) == WriteFailed(HeaderBytes(Header(3, 3, 0, 8)) + B32(f.id), InvalidControlFrame(f.id))
  {
    hide HeaderBytes, B32;
  }

  lemma EightThen(head: Bytes, rest: Bytes, out: Bytes)
    requires |head| == 8 && out == head + rest
    ensures |out| >= 8 && out[..8] == head && out[8..] == rest
  {
  }
}

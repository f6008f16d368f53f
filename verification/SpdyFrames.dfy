/**
SPDY Draft 3 frames, the bytes their writers emit and the readers of those bytes, header
compression off.
*/
module SpdyFrames {
  import opened ByteStrings
  import opened Wrappers

  type U16 = n: int | 0 <= n < 0x1_0000
  type U32 = n: int | 0 <= n < 0x1_0000_0000

  const VERSION: U16 := 3
  const MAX_DATA_LENGTH: nat := 0xff_ffff

  const TYPE_SYN_STREAM: U16 := 1
  const TYPE_SYN_REPLY: U16 := 2
  const TYPE_RST_STREAM: U16 := 3
  const TYPE_SETTINGS: U16 := 4
  const TYPE_PING: U16 := 6
  const TYPE_GO_AWAY: U16 := 7
  const TYPE_HEADERS: U16 := 8
  const TYPE_WINDOW_UPDATE: U16 := 9


  /** `length` is the 24-bit length of what follows the header. */
  datatype Header = Header(version: U16, frameType: U16, flags: Byte, length: U32)

  datatype Setting = Setting(flag: Byte, id: U32, value: U32)

  type Fields = map<Bytes, seq<Bytes>>

  datatype Frame =
    | SynStream(h: Header, id: U32, associated: U32, priority: Byte, slot: Byte, fields: Fields)
    | SynReply(h: Header, id: U32, fields: Fields)
    | RstStream(h: Header, id: U32, status: U32)
    | Settings(h: Header, values: seq<Setting>)
    | Ping(h: Header, id: U32)
    | GoAway(h: Header, last: U32, status: U32)
    | Headers(h: Header, id: U32, fields: Fields)
    | WindowUpdate(h: Header, id: U32, delta: U32)
    | Data(id: U32, flags: Byte, data: Bytes)

  datatype Error =
    | EndOfInput | UnexpectedEnd
    | UnlowercasedHeaderName(id: U32) | DuplicateHeaders(id: U32) | InvalidHeaderPresent(id: U32)
    | InvalidControlFrame(id: U32) | InvalidDataFrame(id: U32) | ZeroStreamId

  // ---------- Integers ----------

  function Trunc(n: nat): U32 { n % 0x1_0000_0000 }

  function B16(n: U16): (b: Bytes)
    ensures |b| == 2
  {
    [n / 0x100, n % 0x100]
  }

  function B32(n: U32): (b: Bytes)
    ensures |b| == 4
  {
    [n / 0x100_0000, n / 0x1_0000 % 0x100, n / 0x100 % 0x100, n % 0x100]
  }

  function V32(b: Bytes): U32
    requires |b| == 4
  {
    var b0: int, b1: int, b2: int, b3: int := b[0], b[1], b[2], b[3];
    b0 * 0x100_0000 + b1 * 0x1_0000 + b2 * 0x100 + b3
  }

  function Or(a: Byte, b: Byte): Byte { ((a as bv8) | (b as bv8)) as int }

  /** `uint32(top)<<24 | low` */
  function Pack(top: Byte, low: U32): U32 {
    Or(top, low / 0x100_0000) * 0x100_0000 + low % 0x100_0000
  }

  // ---------- Header names and values ----------

  function LowerByte(c: Byte): Byte { if 65 <= c <= 90 then c + 32 else c }

  function UpperByte(c: Byte): Byte { if 97 <= c <= 122 then c - 32 else c }

  /** strings.ToLower on ASCII */
  function Lower(s: Bytes): (r: Bytes)
    ensures |r| == |s| && forall i :: 0 <= i < |s| ==> r[i] == LowerByte(s[i])
  {
    seq(|s|, i requires 0 <= i < |s| => LowerByte(s[i]))
  }

  /** http.CanonicalHeaderKey: a capital at the start and after each hyphen, small letters elsewhere. */
  function Canonical(s: Bytes): (r: Bytes)
    ensures |r| == |s|
    ensures forall i :: 0 <= i < |s| ==>
              r[i] == if i == 0 || s[i - 1] == 45 then UpperByte(s[i]) else LowerByte(s[i])
  {
    seq(|s|, i requires 0 <= i < |s| => if i == 0 || s[i - 1] == 45 then UpperByte(s[i]) else LowerByte(s[i]))
  }

  /** strings.Join with a NUL between the values */
  function Join(vs: seq<Bytes>): Bytes {
    if vs == [] then [] else if |vs| == 1 then vs[0] else vs[0] + [0] + Join(vs[1..])
  }

  /** strings.Split at every NUL */
  function Split(s: Bytes): (r: seq<Bytes>)
    ensures r != []
  {
    if s == [] then [[]]
    else
      var r := Split(s[1..]);
      if s[0] == 0 then [[]] + r else [[s[0]] + r[0]] + r[1..]
  }

  /** http.Header.Add of every value in turn */
  function AddAll(h: Fields, name: Bytes, vs: seq<Bytes>): Fields {
    var key := Canonical(name);
    h[key := (if key in h then h[key] else []) + vs]
  }

  // ---------- Writers ----------

  function EntryBytes(name: Bytes, vs: seq<Bytes>): Bytes {
    B32(Trunc(|name|)) + (Lower(name) + (B32(Trunc(|Join(vs)|)) + Join(vs)))
  }

  predicate Listed(order: seq<Bytes>, h: Fields) { forall n :: n in order ==> n in h }

  function EntriesBytes(h: Fields, order: seq<Bytes>): Bytes
    requires Listed(order, h)
  {
    if order == [] then [] else EntryBytes(order[0], h[order[0]]) + EntriesBytes(h, order[1..])
  }

  /** An order in which the writer may visit the header map. */
  ghost predicate Visits(order: seq<Bytes>, h: Fields) {
    && Listed(order, h) && (forall n :: n in h ==> n in order)
    && (forall i, j :: 0 <= i < j < |order| ==> order[i] != order[j])
  }

  function BlockBytes(h: Fields, order: seq<Bytes>): Bytes
    requires Listed(order, h)
  {
    B32(Trunc(|h|)) + EntriesBytes(h, order)
  }

  function SettingBytes(v: Setting): Bytes { B32(Pack(v.flag, v.id)) + B32(v.value) }

  function SettingsBytes(vs: seq<Setting>): Bytes {
    if vs == [] then [] else SettingBytes(vs[0]) + SettingsBytes(vs[1..])
  }

  function HeaderBytes(h: Header): Bytes
    requires h.version == VERSION
  {
    B16(0x8000 + h.version) + (B16(h.frameType) + B32(Pack(h.flags, h.length)))
  }

  /** What a writer does: the bytes it emits, and the frame as it leaves it or the error it returns. */
  datatype Written = Wrote(out: Bytes, frame: Frame) | WriteFailed(out: Bytes, error: Error)

  function HasFields(f: Frame): bool { f.SynStream? || f.SynReply? || f.Headers? }

  function FieldsOf(f: Frame): Fields { if HasFields(f) then f.fields else map[] }

  function Stamp(h: Header, frameType: U16, flags: Byte, length: nat): Header {
    h.(version := VERSION, frameType := frameType, flags := flags, length := Trunc(length))
  }

  /** `Priority<<5` in a byte */
  function Shifted(priority: Byte): Byte { priority * 32 % 0x100 }

  /** What follows the header of a control frame. */
  function Body(f: Frame, order: seq<Bytes>): Bytes
    requires !f.Data? && Listed(order, FieldsOf(f))
  {
    match f
    case SynStream(_, id, associated, priority, slot, _) =>
      B32(id) + (B32(associated) + ([Shifted(priority), slot] + BlockBytes(FieldsOf(f), order)))
    case SynReply(_, id, _) => B32(id) + BlockBytes(FieldsOf(f), order)
    case Headers(_, id, _) => B32(id) + BlockBytes(FieldsOf(f), order)
    case RstStream(_, id, status) => B32(id) + B32(status)
    case Settings(_, values) => B32(Trunc(|values|)) + SettingsBytes(values)
    case Ping(_, id) => B32(id)
    case GoAway(_, last, status) => B32(last) + B32(status)
    case WindowUpdate(_, id, delta) => B32(id) + B32(delta)
  }

  function Emit(f: Frame, order: seq<Bytes>): Written
    requires !f.Data? && f.h.version == VERSION && Listed(order, FieldsOf(f))
  {
    Wrote(HeaderBytes(f.h) + Body(f, order), f)
  }

  function Write(f: Frame, order: seq<Bytes>): Written
    requires Listed(order, FieldsOf(f))
  {
    match f
    case SynStream(h, id, associated, priority, slot, fields) =>
      if id == 0 then WriteFailed([], ZeroStreamId)
      else
        var h' := Stamp(h, TYPE_SYN_STREAM, h.flags, |BlockBytes(FieldsOf(f), order)| + 10);
        Emit(SynStream(h', id, associated, priority, slot, fields), order)
    case SynReply(h, id, fields) =>
      if id == 0 then WriteFailed([], ZeroStreamId)
      else Emit(SynReply(Stamp(h, TYPE_SYN_REPLY, h.flags, |BlockBytes(FieldsOf(f), order)| + 4), id, fields), order)
    case Headers(h, id, fields) =>
      if id == 0 then WriteFailed([], ZeroStreamId)
      else Emit(Headers(Stamp(h, TYPE_HEADERS, h.flags, |BlockBytes(FieldsOf(f), order)| + 4), id, fields), order)
    case RstStream(h, id, status) =>
      var h' := Stamp(h, TYPE_RST_STREAM, 0, 8);
      if id == 0 then WriteFailed([], ZeroStreamId)
      else if status == 0 then WriteFailed(HeaderBytes(h') + B32(id), InvalidControlFrame(id))
      else Emit(RstStream(h', id, status), order)
    case Settings(h, values) => Emit(Settings(Stamp(h, TYPE_SETTINGS, h.flags, |values| * 8 + 4), values), order)
    case Ping(h, id) =>
      if id == 0 then WriteFailed([], ZeroStreamId) else Emit(Ping(Stamp(h, TYPE_PING, 0, 4), id), order)
    case GoAway(h, last, status) => Emit(GoAway(Stamp(h, TYPE_GO_AWAY, 0, 8), last, status), order)
    case WindowUpdate(h, id, delta) => Emit(WindowUpdate(Stamp(h, TYPE_WINDOW_UPDATE, 0, 8), id, delta), order)
    case Data(id, flags, data) =>
      if id == 0 then WriteFailed([], ZeroStreamId)
      else if id >= 0x8000_0000 || |data| > MAX_DATA_LENGTH then WriteFailed([], InvalidDataFrame(id))
      else Wrote(B32(id) + (B32(Pack(flags, |data|)) + data), f)
  }

  // ---------- Readers ----------

  datatype Piece<T> = Piece(value: T, rest: Bytes)

  /** The outcome of a read, with what is left of the input. */
  datatype Parsed<T> = Ok(piece: Piece<T>) | Failed(error: Error, left: Bytes) {
    predicate IsFailure() { Failed? }
    function PropagateFailure<U>(): Parsed<U>
      requires Failed?
    {
      Failed(error, left)
    }
    function Extract(): Piece<T>
      requires Ok?
    {
      piece
    }
  }

  /** io.ReadFull */
  function Take(n: nat, s: Bytes): (r: Parsed<Bytes>)
    ensures r.Ok? ==> |r.piece.value| == n
  {
    if n <= |s| then Ok(Piece(s[..n], s[n..]))
    else Failed(if s == [] then EndOfInput else UnexpectedEnd, [])
  }

  function Read32(s: Bytes): Parsed<U32> {
    var b :- Take(4, s);
    Ok(Piece(V32(b.value), b.rest))
  }

  function Read8(s: Bytes): Parsed<Byte> {
    var b :- Take(1, s);
    Ok(Piece(b.value[0], b.rest))
  }

  /** The header map read so far, and the last complaint about it. */
  datatype Block = Block(fields: Fields, complaint: Option<Error>)

  function ReadEntry(s: Bytes, b: Block, id: U32): Parsed<Block> {
    var nameLength :- Read32(s);
    var name :- Take(nameLength.value, nameLength.rest);
    var lower := Lower(name.value);
    var c1 := if name.value != lower then Some(UnlowercasedHeaderName(id)) else b.complaint;
    var c2 := if lower in b.fields then Some(DuplicateHeaders(id)) else c1;
    var valueLength :- Read32(name.rest);
    var value :- Take(valueLength.value, valueLength.rest);
    Ok(Piece(Block(AddAll(b.fields, lower, Split(value.value)), c2), value.rest))
  }

  function ReadEntries(n: nat, s: Bytes, b: Block, id: U32): Parsed<Block> {
    if n == 0 then Ok(Piece(b, s))
    else
      var e :- ReadEntry(s, b, id);
      ReadEntries(n - 1, e.rest, e.value, id)
  }

  function ReadBlock(s: Bytes, id: U32): Parsed<Fields> {
    var n :- Read32(s);
    var b :- ReadEntries(n.value, n.rest, Block(map[], None), id);
    if b.value.complaint.Some? then Failed(b.value.complaint.value, b.rest)
    else Ok(Piece(b.value.fields, b.rest))
  }

  function Ascii(s: string): Bytes {
    if s == "" then [] else [s[0] as int % 0x100] + Ascii(s[1..])
  }

  function InvalidRespHeaders(): set<Bytes> {
    {Ascii("Connection"), Ascii("Keep-Alive"), Ascii("Proxy-Connection"), Ascii("Transfer-Encoding")}
  }

  function InvalidReqHeaders(): set<Bytes> { InvalidRespHeaders() + {Ascii("Host")} }

  /** The checks on a header map after it is read. */
  function CheckFields(fields: Fields, invalid: set<Bytes>, id: U32): Option<Error> {
    if fields.Keys !! invalid then (if id == 0 then Some(ZeroStreamId) else None)
    else Some(InvalidHeaderPresent(id))
  }

  function InvalidIn(frameType: U16, id: U32): set<Bytes> {
    if frameType == TYPE_SYN_STREAM || (frameType == TYPE_HEADERS && id % 2 == 0) then InvalidReqHeaders()
    else InvalidRespHeaders()
  }

  function ReadFields(s: Bytes, id: U32, frameType: U16): Parsed<Fields> {
    var fields :- ReadBlock(s, id);
    match CheckFields(fields.value, InvalidIn(frameType, id), id)
    case None => Ok(fields)
    case Some(e) => Failed(e, fields.rest)
  }

  function ReadSetting(s: Bytes): Parsed<Setting> {
    var flagId :- Read32(s);
    var value :- Read32(flagId.rest);
    Ok(Piece(Setting(flagId.value / 0x100_0000, flagId.value % 0x100_0000, value.value), value.rest))
  }

  function ReadSettings(n: nat, s: Bytes, vs: seq<Setting>): Parsed<seq<Setting>> {
    if n == 0 then Ok(Piece(vs, s))
    else
      var v :- ReadSetting(s);
      ReadSettings(n - 1, v.rest, vs + [v.value])
  }

  datatype SynHead = SynHead(id: U32, associated: U32, priority: Byte, slot: Byte)

  /** `Priority >>= 5` */
  function Unshifted(b: Byte): Byte { b / 32 }

  function ReadPair(s: Bytes): Parsed<(Byte, Byte)> {
    var priority :- Read8(s);
    var slot :- Read8(priority.rest);
    Ok(Piece((Unshifted(priority.value), slot.value), slot.rest))
  }

  function ReadSynHead(s: Bytes): Parsed<SynHead> {
    var id :- Read32(s);
    var associated :- Read32(id.rest);
    var pair :- ReadPair(associated.rest);
    Ok(Piece(SynHead(id.value, associated.value, pair.value.0, pair.value.1), pair.rest))
  }

  function ReadSynStream(h: Header, s: Bytes): Parsed<Frame> {
    var head :- ReadSynHead(s);
    var fields :- ReadFields(head.rest, head.value.id, TYPE_SYN_STREAM);
    Ok(Piece(SynStream(h, head.value.id, head.value.associated, head.value.priority, head.value.slot, fields.value),
             fields.rest))
  }

  datatype IdFields = IdFields(id: U32, fields: Fields)

  function ReadIdFields(s: Bytes, frameType: U16): Parsed<IdFields> {
    var id :- Read32(s);
    var fields :- ReadFields(id.rest, id.value, frameType);
    Ok(Piece(IdFields(id.value, fields.value), fields.rest))
  }

  function ReadSynReply(h: Header, s: Bytes): Parsed<Frame> {
    var r :- ReadIdFields(s, TYPE_SYN_REPLY);
    Ok(Piece(SynReply(h, r.value.id, r.value.fields), r.rest))
  }

  function ReadHeaders(h: Header, s: Bytes): Parsed<Frame> {
    var r :- ReadIdFields(s, TYPE_HEADERS);
    Ok(Piece(Headers(h, r.value.id, r.value.fields), r.rest))
  }

  function ReadRstStream(h: Header, s: Bytes): Parsed<Frame> {
    var id :- Read32(s);
    var status :- Read32(id.rest);
    if status.value == 0 then Failed(InvalidControlFrame(id.value), status.rest)
    else if id.value == 0 then Failed(ZeroStreamId, status.rest)
    else Ok(Piece(RstStream(h, id.value, status.value), status.rest))
  }

  function ReadSettingsFrame(h: Header, s: Bytes): Parsed<Frame> {
    var n :- Read32(s);
    var vs :- ReadSettings(n.value, n.rest, []);
    Ok(Piece(Settings(h, vs.value), vs.rest))
  }

  function ReadPing(h: Header, s: Bytes): Parsed<Frame> {
    var id :- Read32(s);
    if id.value == 0 then Failed(ZeroStreamId, id.rest)
    else if h.flags != 0 then Failed(InvalidControlFrame(id.value), id.rest)
    else Ok(Piece(Ping(h, id.value), id.rest))
  }

  function ReadGoAway(h: Header, s: Bytes): Parsed<Frame> {
    var last :- Read32(s);
    if h.flags != 0 || h.length != 8 then Failed(InvalidControlFrame(last.value), last.rest)
    else
      var status :- Read32(last.rest);
      Ok(Piece(GoAway(h, last.value, status.value), status.rest))
  }

  function ReadWindowUpdate(h: Header, s: Bytes): Parsed<Frame> {
    var id :- Read32(s);
    if h.flags != 0 || h.length != 8 then Failed(InvalidControlFrame(id.value), id.rest)
    else
      var delta :- Read32(id.rest);
      Ok(Piece(WindowUpdate(h, id.value, delta.value), delta.rest))
  }

  function ReadData(id: U32, s: Bytes): Parsed<Frame> {
    var word :- Read32(s);
    var data :- Take(word.value % 0x100_0000, word.rest);
    if id == 0 then Failed(ZeroStreamId, data.rest)
    else Ok(Piece(Data(id, word.value / 0x100_0000, data.value), data.rest))
  }

  function ReadBody(h: Header, s: Bytes): Parsed<Frame> {
    if h.frameType == TYPE_SYN_STREAM then ReadSynStream(h, s)
    else if h.frameType == TYPE_SYN_REPLY then ReadSynReply(h, s)
    else if h.frameType == TYPE_RST_STREAM then ReadRstStream(h, s)
    else if h.frameType == TYPE_SETTINGS then ReadSettingsFrame(h, s)
    else if h.frameType == TYPE_PING then ReadPing(h, s)
    else if h.frameType == TYPE_GO_AWAY then ReadGoAway(h, s)
    else if h.frameType == TYPE_HEADERS then ReadHeaders(h, s)
    else if h.frameType == TYPE_WINDOW_UPDATE then ReadWindowUpdate(h, s)
    else Failed(InvalidControlFrame(0), s)
  }

  /** The header of a control frame from its two words. */
  function HeaderOf(first: U32, second: U32): Header {
    Header(first / 0x1_0000 % 0x8000, first % 0x1_0000, second / 0x100_0000, second % 0x100_0000)
  }

  function Read(s: Bytes): Parsed<Frame> {
    var first :- Read32(s);
    if first.value >= 0x8000_0000 then
      var second :- Read32(first.rest);
      ReadBody(HeaderOf(first.value, second.value), second.rest)
    else ReadData(first.value, first.rest)
  }
}

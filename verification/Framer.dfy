/**
The SPDY framer: writers that stamp a frame's header and emit it field by field, and readers that
consume their input field by field.  Each is proved to do what `SpdyFrames` says, on failures too.
*/
module Framers {
  import opened ByteStrings
  import opened SpdyFrames
  import opened Wrappers

  datatype Result<T> = Got(value: T) | Error(error: SpdyFrames.Error)

  /** The outcome of a method that reads agrees with what `SpdyFrames` parses from the same input. */
  ghost predicate Agrees<T>(p: Parsed<T>, r: Result<T>, left: Bytes) {
    match p
    case Ok(piece) => r == Got(piece.value) && left == piece.rest
    case Failed(e, rest) => r == Error(e) && left == rest
  }

  class Framer {
    var w: Bytes           // what has been written
    var headerBuf: Bytes   // the header block being put together, empty between frames
    var r: Bytes           // what is left to read

    constructor (input: Bytes)
      ensures w == [] && headerBuf == [] && r == input
    {
      w, headerBuf, r := [], [], input;
    }

    // ---------- Writing ----------

    method WriteControlFrameHeader(h: Header)
      requires h.version == VERSION
      modifies this`w
      ensures w == old(w) + HeaderBytes(h)
    {
      w := w + B16(0x8000 + h.version);
      w := w + B16(h.frameType);
      w := w + B32(Pack(h.flags, h.length));
    }

    method WriteHeaderValueBlock(h: Fields, order: seq<Bytes>)
      requires Visits(order, h) && Listed(order, h)
      modifies this`headerBuf
      ensures headerBuf == old(headerBuf) + BlockBytes(h, order)
    {
      hide Visits, B32, EntryBytes, Lower;
      headerBuf := headerBuf + B32(Trunc(|h|));
      ghost var start := headerBuf;
      assert order[0..] == order;
      for i := 0 to |order|
        invariant Listed(order[i..], h)
        invariant headerBuf + EntriesBytes(h, order[i..]) == start + EntriesBytes(h, order)
      {
        ghost var before := headerBuf;
        assert order[i] in h;
        WriteEntry(order[i], h[order[i]]);
        assert order[i..][0] == order[i] && order[i..][1..] == order[i + 1..];
        assert before + (EntryBytes(order[i], h[order[i]]) + EntriesBytes(h, order[i + 1..]))
            == headerBuf + EntriesBytes(h, order[i + 1..]);
      }
      assert order[|order|..] == [] && headerBuf + [] == headerBuf;
      assert start + EntriesBytes(h, order) == old(headerBuf) + BlockBytes(h, order);
    }

    method WriteEntry(name: Bytes, values: seq<Bytes>)
      modifies this`headerBuf
      ensures headerBuf == old(headerBuf) + EntryBytes(name, values)
    {
      hide B32, Lower, Join, Trunc;
      var v := Join(values);
      headerBuf := headerBuf + B32(Trunc(|name|));
      headerBuf := headerBuf + Lower(name);
      headerBuf := headerBuf + B32(Trunc(|v|));
      headerBuf := headerBuf + v;
    }

    /** What a writer leaves behind. */
    ghost predicate Left(before: Bytes, done: Written, frame: Frame, error: Option<SpdyFrames.Error>)
      reads this
    {
      && headerBuf == [] && w == before + done.out
      && match done
         case Wrote(_, f) => frame == f && error == None
         case WriteFailed(_, e) => error == Some(e)
    }

    method WriteSynStream(f: Frame, order: seq<Bytes>) returns (g: Frame, error: Option<SpdyFrames.Error>)
      requires f.SynStream? && Visits(order, f.fields) && Listed(order, FieldsOf(f)) && headerBuf == []
      modifies this`w, this`headerBuf
      ensures Left(old(w), Write(f, order), g, error)
    {
      hide Visits, Listed, HeaderBytes, B32, BlockBytes, Shifted, Stamp;
      g, error := f, None;
      if f.id == 0 {
        return g, Some(ZeroStreamId);
      }
      WriteHeaderValueBlock(f.fields, order);
      var h := Stamp(f.h, TYPE_SYN_STREAM, f.h.flags, |headerBuf| + 10);
      g := SynStream(h, f.id, f.associated, f.priority, f.slot, f.fields);
      StampIs(f.h, TYPE_SYN_STREAM, f.h.flags, |headerBuf| + 10);
      WriteControlFrameHeader(h);
      w := w + B32(f.id);
      w := w + B32(f.associated);
      w := w + [Shifted(f.priority)];
      w := w + [f.slot];
      w := w + headerBuf;
      headerBuf := [];
    }

    static lemma StampIs(h: Header, frameType: U16, flags: Byte, length: nat)
      ensures Stamp(h, frameType, flags, length) == Header(VERSION, frameType, flags, Trunc(length))
    {
    }

    method WriteSynReply(f: Frame, order: seq<Bytes>) returns (g: Frame, error: Option<SpdyFrames.Error>)
      requires f.SynReply? && Visits(order, f.fields) && Listed(order, FieldsOf(f)) && headerBuf == []
      modifies this`w, this`headerBuf
      ensures Left(old(w), Write(f, order), g, error)
    {
      hide Visits, Listed, HeaderBytes, B32, BlockBytes, Stamp;
      g, error := f, None;
      if f.id == 0 {
        return g, Some(ZeroStreamId);
      }
      WriteHeaderValueBlock(f.fields, order);
      StampIs(f.h, TYPE_SYN_REPLY, f.h.flags, |headerBuf| + 4);
      g := SynReply(Stamp(f.h, TYPE_SYN_REPLY, f.h.flags, |headerBuf| + 4), f.id, f.fields);
      WriteControlFrameHeader(g.h);
      w := w + B32(f.id);
      w := w + headerBuf;
      headerBuf := [];
    }

    method WriteHeaders(f: Frame, order: seq<Bytes>) returns (g: Frame, error: Option<SpdyFrames.Error>)
      requires f.Headers? && Visits(order, f.fields) && Listed(order, FieldsOf(f)) && headerBuf == []
      modifies this`w, this`headerBuf
      ensures Left(old(w), Write(f, order), g, error)
    {
      hide Visits, Listed, HeaderBytes, B32, BlockBytes, Stamp;
      g, error := f, None;
      if f.id == 0 {
        return g, Some(ZeroStreamId);
      }
      WriteHeaderValueBlock(f.fields, order);
      StampIs(f.h, TYPE_HEADERS, f.h.flags, |headerBuf| + 4);
      g := Headers(Stamp(f.h, TYPE_HEADERS, f.h.flags, |headerBuf| + 4), f.id, f.fields);
      WriteControlFrameHeader(g.h);
      w := w + B32(f.id);
      w := w + headerBuf;
      headerBuf := [];
    }

    /** A zero status is noticed only after the header and the id have gone out. */
    method WriteRstStream(f: Frame) returns (g: Frame, error: Option<SpdyFrames.Error>)
      requires f.RstStream? && headerBuf == []
      modifies this`w
      ensures Left(old(w), Write(f, []), g, error)
    {
      hide HeaderBytes, B32;
      g, error := f, None;
      if f.id == 0 {
        return g, Some(ZeroStreamId);
      }
      g := RstStream(Header(VERSION, TYPE_RST_STREAM, 0, 8), f.id, f.status);
      WriteControlFrameHeader(g.h);
      w := w + B32(f.id);
      if f.status == 0 {
        return g, Some(InvalidControlFrame(f.id));
      }
      w := w + B32(f.status);
    }

    method WriteSettings(f: Frame) returns (g: Frame, error: Option<SpdyFrames.Error>)
      requires f.Settings? && headerBuf == []
      modifies this`w
      ensures Left(old(w), Write(f, []), g, error)
    {
      hide HeaderBytes, B32, SettingBytes, Stamp;
      StampIs(f.h, TYPE_SETTINGS, f.h.flags, |f.values| * 8 + 4);
      g, error := Settings(Stamp(f.h, TYPE_SETTINGS, f.h.flags, |f.values| * 8 + 4), f.values), None;
      WriteControlFrameHeader(g.h);
      w := w + B32(Trunc(|f.values|));
      WriteSettingsValues(f.values);
    }

    method WriteSettingsValues(vs: seq<Setting>)
      modifies this`w
      ensures w == old(w) + SettingsBytes(vs)
    {
      hide B32, Pack;
      assert vs[0..] == vs;
      for i := 0 to |vs|
        invariant w + SettingsBytes(vs[i..]) == old(w) + SettingsBytes(vs)
      {
        ghost var before := w;
        w := w + B32(Pack(vs[i].flag, vs[i].id));
        w := w + B32(vs[i].value);
        assert vs[i..][0] == vs[i] && vs[i..][1..] == vs[i + 1..];
        assert w == before + SettingBytes(vs[i]);
        assert before + (SettingBytes(vs[i]) + SettingsBytes(vs[i + 1..])) == w + SettingsBytes(vs[i + 1..]);
      }
    }

    method WritePing(f: Frame) returns (g: Frame, error: Option<SpdyFrames.Error>)
      requires f.Ping? && headerBuf == []
      modifies this`w
      ensures Left(old(w), Write(f, []), g, error)
    {
      hide HeaderBytes, B32;
      g, error := f, None;
      if f.id == 0 {
        return g, Some(ZeroStreamId);
      }
      g := Ping(Header(VERSION, TYPE_PING, 0, 4), f.id);
      WriteControlFrameHeader(g.h);
      w := w + B32(f.id);
    }

    method WriteGoAway(f: Frame) returns (g: Frame, error: Option<SpdyFrames.Error>)
      requires f.GoAway? && headerBuf == []
      modifies this`w
      ensures Left(old(w), Write(f, []), g, error)
    {
      hide HeaderBytes, B32;
      g, error := GoAway(Header(VERSION, TYPE_GO_AWAY, 0, 8), f.last, f.status), None;
      WriteControlFrameHeader(g.h);
      w := w + B32(f.last);
      w := w + B32(f.status);
    }

    method WriteWindowUpdate(f: Frame) returns (g: Frame, error: Option<SpdyFrames.Error>)
      requires f.WindowUpdate? && headerBuf == []
      modifies this`w
      ensures Left(old(w), Write(f, []), g, error)
    {
      hide HeaderBytes, B32;
      g, error := WindowUpdate(Header(VERSION, TYPE_WINDOW_UPDATE, 0, 8), f.id, f.delta), None;
      WriteControlFrameHeader(g.h);
      w := w + B32(f.id);
      w := w + B32(f.delta);
    }

    method WriteData(f: Frame) returns (g: Frame, error: Option<SpdyFrames.Error>)
      requires f.Data? && headerBuf == []
      modifies this`w
      ensures Left(old(w), Write(f, []), g, error)
    {
      hide B32, Pack;
      g, error := f, None;
      if f.id == 0 {
        return g, Some(ZeroStreamId);
      }
      if f.id >= 0x8000_0000 || |f.data| > MAX_DATA_LENGTH {
        return g, Some(InvalidDataFrame(f.id));
      }
      w := w + B32(f.id);
      w := w + B32(Pack(f.flags, |f.data|));
      w := w + f.data;
    }

    method WriteFrame(f: Frame, order: seq<Bytes>) returns (g: Frame, error: Option<SpdyFrames.Error>)
      requires Visits(order, FieldsOf(f)) && Listed(order, FieldsOf(f)) && headerBuf == []
      modifies this`w, this`headerBuf
      ensures Left(old(w), Write(f, order), g, error)
    {
      NoHeaders(f, order);
      hide Visits, Listed, Write;
      match f
      case SynStream(_, _, _, _, _, _) => g, error := WriteSynStream(f, order);
      case SynReply(_, _, _) => g, error := WriteSynReply(f, order);
      case RstStream(_, _, _) => g, error := WriteRstStream(f);
      case Settings(_, _) => g, error := WriteSettings(f);
      case Ping(_, _) => g, error := WritePing(f);
      case GoAway(_, _, _) => g, error := WriteGoAway(f);
      case Headers(_, _, _) => g, error := WriteHeaders(f, order);
      case WindowUpdate(_, _, _) => g, error := WriteWindowUpdate(f);
      case Data(_, _, _) => g, error := WriteData(f);
    }

    /** A frame without a header map has nothing to visit. */
    static lemma NoHeaders(f: Frame, order: seq<Bytes>)
      requires Visits(order, FieldsOf(f)) && Listed(order, FieldsOf(f))
      ensures if HasFields(f) then Visits(order, f.fields) else order == []
    {
      if order != [] {
        assert order[0] in FieldsOf(f);
      }
    }

    // ---------- Reading ----------

    method TakeBytes(n: nat) returns (b: Result<Bytes>)
      modifies this`r
      ensures Agrees(Take(n, old(r)), b, r)
    {
      if n <= |r| {
        b := Got(r[..n]);
        r := r[n..];
      } else {
        b := Error(if r == [] then EndOfInput else UnexpectedEnd);
        r := [];
      }
    }

    method ReadU32() returns (n: Result<U32>)
      modifies this`r
      ensures Agrees(Read32(old(r)), n, r)
    {
      var b := TakeBytes(4);
      if b.Error? {
        return Error(b.error);
      }
      return Got(V32(b.value));
    }

    method ReadU8() returns (n: Result<Byte>)
      modifies this`r
      ensures Agrees(Read8(old(r)), n, r)
    {
      var b := TakeBytes(1);
      if b.Error? {
        return Error(b.error);
      }
      return Got(b.value[0]);
    }

    /** One round of the header loop. */
    method ParseEntry(b: Block, id: U32) returns (res: Result<Block>)
      modifies this`r
      ensures Agrees(ReadEntry(old(r), b, id), res, r)
    {
      hide Read32, Take, Lower, AddAll, Split;
      var e := b.complaint;
      var length := ReadU32();
      if length.Error? {
        return Error(length.error);
      }
      var nameBytes := TakeBytes(length.value);
      if nameBytes.Error? {
        return Error(nameBytes.error);
      }
      var name := nameBytes.value;
      if name != Lower(name) {
        e := Some(UnlowercasedHeaderName(id));
        name := Lower(name);
      }
      if name in b.fields {
        e := Some(DuplicateHeaders(id));
      }
      length := ReadU32();
      if length.Error? {
        return Error(length.error);
      }
      var value := TakeBytes(length.value);
      if value.Error? {
        return Error(value.error);
      }
      return Got(Block(AddAll(b.fields, name, Split(value.value)), e));
    }

    method ParseHeaderValueBlock(id: U32) returns (res: Result<Fields>)
      modifies this`r
      ensures Agrees(ReadBlock(old(r), id), res, r)
    {
      hide Read32, ReadEntry;
      var n := ReadU32();
      if n.Error? {
        return Error(n.error);
      }
      var b := Block(map[], None);
      ghost var whole := ReadEntries(n.value, r, b, id);
      for i := 0 to n.value
        invariant ReadEntries(n.value - i, r, b, id) == whole
      {
        var e := ParseEntry(b, id);
        if e.Error? {
          return Error(e.error);
        }
        b := e.value;
      }
      if b.complaint.Some? {
        return Error(b.complaint.value);
      }
      return Got(b.fields);
    }

    method ParseFields(id: U32, frameType: U16) returns (res: Result<Fields>)
      modifies this`r
      ensures Agrees(ReadFields(old(r), id, frameType), res, r)
    {
      hide ReadBlock, InvalidIn;
      res := ParseHeaderValueBlock(id);
      if res.Error? {
        return;
      }
      if !(res.value.Keys !! InvalidIn(frameType, id)) {
        return Error(InvalidHeaderPresent(id));
      }
      if id == 0 {
        return Error(ZeroStreamId);
      }
    }

    method ParseSynStream(h: Header) returns (res: Result<Frame>)
      modifies this`r
      ensures Agrees(ReadSynStream(h, old(r)), res, r)
    {
      hide ReadFields, ReadSynHead;
      var head := ParseSynHead();
      if head.Error? {
        return Error(head.error);
      }
      var fields := ParseFields(head.value.id, TYPE_SYN_STREAM);
      if fields.Error? {
        return Error(fields.error);
      }
      return Got(SynStream(h, head.value.id, head.value.associated, head.value.priority, head.value.slot, fields.value));
    }

    method ParseSynHead() returns (res: Result<SynHead>)
      modifies this`r
      ensures Agrees(ReadSynHead(old(r)), res, r)
    {
      hide Read32, Read8, Unshifted;
      var id := ReadU32();
      if id.Error? {
        return Error(id.error);
      }
      var associated := ReadU32();
      if associated.Error? {
        return Error(associated.error);
      }
      var priority := ReadU8();
      if priority.Error? {
        return Error(priority.error);
      }
      var slot := ReadU8();
      if slot.Error? {
        return Error(slot.error);
      }
      return Got(SynHead(id.value, associated.value, Unshifted(priority.value), slot.value));
    }

    method ParseIdFields(frameType: U16) returns (res: Result<IdFields>)
      modifies this`r
      ensures Agrees(ReadIdFields(old(r), frameType), res, r)
    {
      hide ReadFields, Read32;
      var id := ReadU32();
      if id.Error? {
        return Error(id.error);
      }
      var fields := ParseFields(id.value, frameType);
      if fields.Error? {
        return Error(fields.error);
      }
      return Got(IdFields(id.value, fields.value));
    }

    method ParseSynReply(h: Header) returns (res: Result<Frame>)
      modifies this`r
      ensures Agrees(ReadSynReply(h, old(r)), res, r)
    {
      hide ReadIdFields;
      var x := ParseIdFields(TYPE_SYN_REPLY);
      return if x.Error? then Error(x.error) else Got(SynReply(h, x.value.id, x.value.fields));
    }

    method ParseHeaders(h: Header) returns (res: Result<Frame>)
      modifies this`r
      ensures Agrees(ReadHeaders(h, old(r)), res, r)
    {
      hide ReadIdFields;
      var x := ParseIdFields(TYPE_HEADERS);
      return if x.Error? then Error(x.error) else Got(Headers(h, x.value.id, x.value.fields));
    }

    method ParseRstStream(h: Header) returns (res: Result<Frame>)
      modifies this`r
      ensures Agrees(ReadRstStream(h, old(r)), res, r)
    {
      hide Read32;
      var id := ReadU32();
      if id.Error? {
        return Error(id.error);
      }
      var status := ReadU32();
      if status.Error? {
        return Error(status.error);
      }
      if status.value == 0 {
        return Error(InvalidControlFrame(id.value));
      }
      if id.value == 0 {
        return Error(ZeroStreamId);
      }
      return Got(RstStream(h, id.value, status.value));
    }

    method ParseSetting() returns (res: Result<Setting>)
      modifies this`r
      ensures Agrees(ReadSetting(old(r)), res, r)
    {
      hide Read32;
      var flagId := ReadU32();
      if flagId.Error? {
        return Error(flagId.error);
      }
      var value := ReadU32();
      if value.Error? {
        return Error(value.error);
      }
      return Got(Setting(flagId.value / 0x100_0000, flagId.value % 0x100_0000, value.value));
    }

    method ParseSettings(h: Header) returns (res: Result<Frame>)
      modifies this`r
      ensures Agrees(ReadSettingsFrame(h, old(r)), res, r)
    {
      hide Read32, ReadSetting;
      var n := ReadU32();
      if n.Error? {
        return Error(n.error);
      }
      var vs: seq<Setting> := [];
      ghost var whole := ReadSettings(n.value, r, vs);
      for i := 0 to n.value
        invariant ReadSettings(n.value - i, r, vs) == whole
      {
        var v := ParseSetting();
        if v.Error? {
          return Error(v.error);
        }
        vs := vs + [v.value];
      }
      return Got(Settings(h, vs));
    }

    method ParsePing(h: Header) returns (res: Result<Frame>)
      modifies this`r
      ensures Agrees(ReadPing(h, old(r)), res, r)
    {
      hide Read32;
      var id := ReadU32();
      if id.Error? {
        return Error(id.error);
      }
      if id.value == 0 {
        return Error(ZeroStreamId);
      }
      if h.flags != 0 {
        return Error(InvalidControlFrame(id.value));
      }
      return Got(Ping(h, id.value));
    }

    method ParseGoAway(h: Header) returns (res: Result<Frame>)
      modifies this`r
      ensures Agrees(ReadGoAway(h, old(r)), res, r)
    {
      hide Read32;
      var last := ReadU32();
      if last.Error? {
        return Error(last.error);
      }
      if h.flags != 0 || h.length != 8 {
        return Error(InvalidControlFrame(last.value));
      }
      var status := ReadU32();
      return if status.Error? then Error(status.error) else Got(GoAway(h, last.value, status.value));
    }

    method ParseWindowUpdate(h: Header) returns (res: Result<Frame>)
      modifies this`r
      ensures Agrees(ReadWindowUpdate(h, old(r)), res, r)
    {
      hide Read32;
      var id := ReadU32();
      if id.Error? {
        return Error(id.error);
      }
      if h.flags != 0 || h.length != 8 {
        return Error(InvalidControlFrame(id.value));
      }
      var delta := ReadU32();
      return if delta.Error? then Error(delta.error) else Got(WindowUpdate(h, id.value, delta.value));
    }

    method ParseDataFrame(id: U32) returns (res: Result<Frame>)
      modifies this`r
      ensures Agrees(ReadData(id, old(r)), res, r)
    {
      hide Read32, Take;
      var word := ReadU32();
      if word.Error? {
        return Error(word.error);
      }
      var data := TakeBytes(word.value % 0x100_0000);
      if data.Error? {
        return Error(data.error);
      }
      if id == 0 {
        return Error(ZeroStreamId);
      }
      return Got(Data(id, word.value / 0x100_0000, data.value));
    }

    method ParseBody(h: Header) returns (res: Result<Frame>)
      modifies this`r
      ensures Agrees(ReadBody(h, old(r)), res, r)
    {
      hide ReadSynStream, ReadSynReply, ReadHeaders, ReadRstStream, ReadSettingsFrame, ReadPing, ReadGoAway, ReadWindowUpdate;
      if h.frameType == TYPE_SYN_STREAM {
        res := ParseSynStream(h);
      } else if h.frameType == TYPE_SYN_REPLY {
        res := ParseSynReply(h);
      } else if h.frameType == TYPE_RST_STREAM {
        res := ParseRstStream(h);
      } else if h.frameType == TYPE_SETTINGS {
        res := ParseSettings(h);
      } else if h.frameType == TYPE_PING {
        res := ParsePing(h);
      } else if h.frameType == TYPE_GO_AWAY {
        res := ParseGoAway(h);
      } else if h.frameType == TYPE_HEADERS {
        res := ParseHeaders(h);
      } else if h.frameType == TYPE_WINDOW_UPDATE {
        res := ParseWindowUpdate(h);
      } else {
        res := Error(InvalidControlFrame(0));
      }
    }

    method ReadFrame() returns (res: Result<Frame>)
      modifies this`r
      ensures Agrees(Read(old(r)), res, r)
    {
      hide Read32, ReadBody, ReadData, HeaderOf;
      var first := ReadU32();
      if first.Error? {
        return Error(first.error);
      }
      if first.value >= 0x8000_0000 {
        var second := ReadU32();
        if second.Error? {
          return Error(second.error);
        }
        res := ParseBody(HeaderOf(first.value, second.value));
      } else {
        res := ParseDataFrame(first.value);
      }
    }
  }
}

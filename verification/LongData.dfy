/**
Long parameters of a prepared statement: the argument is cut into commands that all carry the same
prefix, built one after another in the same array, each over the tail of the one before.
*/
module LongData {
  import opened ByteStrings
  import opened MysqlBuffers
  import opened MysqlPackets
  import opened Wrappers

  const COM_STMT_SEND_LONG_DATA: Byte := 24
  const DATA_OFFSET: nat := 7    // command, statement id, parameter id

  /** The prefix of every command. */
  function Prefix(stmt: nat, param: nat): (b: Bytes)
    ensures |b| == DATA_OFFSET
  {
    [COM_STMT_SEND_LONG_DATA, ByteOf(stmt, 1), ByteOf(stmt, 0x100), ByteOf(stmt, 0x1_0000), ByteOf(stmt, 0x100_0000),
     ByteOf(param, 1), ByteOf(param, 0x100)]
  }

  /** `byte(n >> k)`, where `unit` is 2 to the k */
  function ByteOf(n: nat, unit: nat): Byte
    requires unit > 0
  {
    n / unit % 0x100
  }

  // ---------- The pieces ----------

  /** The pieces of an argument when a command has room for `room` bytes of it. */
  function Pieces(arg: Bytes, room: nat): seq<Bytes>
    requires room > 0
    decreases |arg|
  {
    if arg == [] then [] else if |arg| <= room then [arg] else [arg[..room]] + Pieces(arg[room..], room)
  }

  /** The pieces are the argument: none empty, none over the room, and only the last short of it. */
  lemma {:induction false} PiecesAreTheArgument(arg: Bytes, room: nat)
    requires room > 0
    ensures Concat(Pieces(arg, room)) == arg
    ensures forall i :: 0 <= i < |Pieces(arg, room)| ==> 0 < |Pieces(arg, room)[i]| <= room
    ensures forall i :: 0 <= i < |Pieces(arg, room)| - 1 ==> |Pieces(arg, room)[i]| == room
    decreases |arg|
  {
    if arg != [] {
      if |arg| <= room {
        assert Pieces(arg, room)[1..] == [];
      } else {
        PiecesAreTheArgument(arg[room..], room);
        assert Pieces(arg, room)[1..] == Pieces(arg[room..], room);
        assert arg == arg[..room] + arg[room..];
      }
    }
  }

  // ---------- The wire ----------

  /**
  One command: small enough, it goes out under a header numbered 0; otherwise it is split, and
  numbered from the connection's sequence number `q`.
  */
  function Command(prefix: Bytes, piece: Bytes, maxWrite: int, q: Byte): Bytes
    requires |prefix| == DATA_OFFSET && maxWrite < MAX_PACKET_SIZE
  {
    if DATA_OFFSET + |piece| <= maxWrite then Head(DATA_OFFSET + |piece|, 0) + (prefix + piece)
    else Packets(prefix + piece, q)
  }

  /** The sequence number after a command that carries `k` bytes. */
  function After(k: nat, maxWrite: int, q: Byte): Byte {
    if DATA_OFFSET + k <= maxWrite then Following(q) else Skip(q, Count(DATA_OFFSET + k))
  }

  function Wire(prefix: Bytes, pieces: seq<Bytes>, maxWrite: int, q: Byte): Bytes
    requires |prefix| == DATA_OFFSET && maxWrite < MAX_PACKET_SIZE
    decreases |pieces|
  {
    if pieces == [] then []
    else Command(prefix, pieces[0], maxWrite, q) + Wire(prefix, pieces[1..], maxWrite, After(|pieces[0]|, maxWrite, q))
  }

  /** A command with `k` bytes goes out unsplit, or split from sequence number 0 with something in its last packet. */
  predicate Readable(k: nat, maxWrite: int, q: Byte) {
    DATA_OFFSET + k <= maxWrite || (q == 0 && (DATA_OFFSET + k) % MAX_PACKET_SIZE != 0)
  }

  /** A receiver that expects every command to be numbered from 0 reads those commands and refuses all others. */
  lemma CommandReadIff(prefix: Bytes, piece: Bytes, maxWrite: int, q: Byte, rest: Bytes)
    requires |prefix| == DATA_OFFSET && 0 < |piece| && maxWrite < MAX_PACKET_SIZE
    ensures var o := Parse(Command(prefix, piece, maxWrite, q) + rest, 0);
            if Readable(|piece|, maxWrite, q) then o.Packet? && o.body == prefix + piece && o.rest == rest else !o.Packet?
  {
    hide Parse, Packets, Skip, Count, Head;
    var body := prefix + piece;
    if |body| <= maxWrite {
      ParseHead(|body|, 0, body, rest, 0);
      assert Head(|body|, 0) + body + rest == Command(prefix, piece, maxWrite, q) + rest;
    } else if q == 0 {
      RoundTripIff(body, 0, rest);
    } else {
      WrongSequence(body, q, rest, 0);
    }
  }

  /** What a receiver makes of `n` commands: each without its prefix, one behind the other. */
  function Received(n: nat, s: Bytes): Option<Bytes> {
    if n == 0 then Some([])
    else
      match Parse(s, 0)
      case Packet(body, rest, _) =>
        if |body| < DATA_OFFSET then None
        else
          (match Received(n - 1, rest)
           case Some(more) => Some(body[DATA_OFFSET..] + more)
           case None => None)
      case _ => None
  }

  ghost predicate AllReadable(pieces: seq<Bytes>, maxWrite: int, q: Byte)
    decreases |pieces|
  {
    pieces == [] || (Readable(|pieces[0]|, maxWrite, q) && AllReadable(pieces[1..], maxWrite, After(|pieces[0]|, maxWrite, q)))
  }

  /** The receiver gets the pieces if it can read every command, and nothing otherwise. */
  lemma {:induction false} PiecesArriveIff(prefix: Bytes, pieces: seq<Bytes>, maxWrite: int, q: Byte, rest: Bytes)
    requires |prefix| == DATA_OFFSET && maxWrite < MAX_PACKET_SIZE
    requires forall p :: p in pieces ==> 0 < |p|
    ensures Received(|pieces|, Wire(prefix, pieces, maxWrite, q) + rest)
         == if AllReadable(pieces, maxWrite, q) then Some(Concat(pieces)) else None
    decreases |pieces|
  {
    hide Parse, Command, Readable, After;
    if pieces != [] {
      var piece, q' := pieces[0], After(|pieces[0]|, maxWrite, q);
      var tail := Wire(prefix, pieces[1..], maxWrite, q') + rest;
      PiecesArriveIff(prefix, pieces[1..], maxWrite, q', rest);
      CommandReadIff(prefix, piece, maxWrite, q, tail);
      assert Wire(prefix, pieces, maxWrite, q) + rest == Command(prefix, piece, maxWrite, q) + tail;
      assert (prefix + piece)[DATA_OFFSET..] == piece;
    }
  }

  /** The sequence number is back where it was after a command of `k` bytes that is split. */
  predicate Wraps(k: nat) { Count(DATA_OFFSET + k) % 0x100 == 0 }

  /**
  When an argument of `full` commands with `room` bytes and one with `last` bytes can be read:
  no command needs to be split, or numbering starts from 0, one full command is split, and what is
  left fits into a command that is not; only a full command of a multiple of 256 packets leaves the
  number at 0 for another one.
  */
  predicate Arrives(full: nat, last: nat, room: nat, maxWrite: int, q: Byte) {
    DATA_OFFSET + room <= maxWrite ||
    ((full > 0 ==> Readable(room, maxWrite, q) && (full == 1 || Wraps(room)))
     && (last > 0 ==> DATA_OFFSET + last <= maxWrite || ((full == 0 || Wraps(room)) && Readable(last, maxWrite, q))))
  }

  lemma {:induction false} PiecesReadableIff(arg: Bytes, full: nat, last: nat, room: nat, maxWrite: int, q: Byte)
    requires last < room && |arg| == full * room + last
    ensures AllReadable(Pieces(arg, room), maxWrite, q) <==> Arrives(full, last, room, maxWrite, q)
    decreases |arg|
  {
    hide Count;
    if full == 0 {
    } else {
      assert (full - 1) * room + last == |arg| - room;
      PiecesReadableIff(arg[room..], full - 1, last, room, maxWrite, After(room, maxWrite, q));
    }
  }

  /**
  For every argument, limit and sequence number: the receiver gets the argument back exactly then,
  and otherwise nothing.
  */
  lemma ArgumentArrivesIff(prefix: Bytes, arg: Bytes, full: nat, last: nat, room: nat, maxWrite: int, q: Byte, rest: Bytes)
    requires |prefix| == DATA_OFFSET && maxWrite < MAX_PACKET_SIZE
    requires last < room && |arg| == full * room + last
    ensures Received(|Pieces(arg, room)|, Wire(prefix, Pieces(arg, room), maxWrite, q) + rest)
         == if Arrives(full, last, room, maxWrite, q) then Some(arg) else None
  {
    hide Arrives, AllReadable, Received, Wire, Pieces;
    PiecesAreTheArgument(arg, room);
    PiecesArriveIff(prefix, Pieces(arg, room), maxWrite, q, rest);
    PiecesReadableIff(arg, full, last, room, maxWrite, q);
  }

  // ---------- On the wire ----------

  /** A number of `n` bytes from offset `i` on, the lowest first. */
  function Number(b: Bytes, i: nat, n: nat): nat
    requires i + n <= |b|
    decreases n
  {
    if n == 0 then 0 else b[i] as int + 256 * Number(b, i + 1, n - 1)
  }

  /** Command 24, statement and parameter: what a receiver that looks at the prefix finds there. */
  lemma PrefixOnTheWire(stmt: nat, param: nat)
    ensures var b := Prefix(stmt, param);
            |b| == 7 && b[0] == 24 && Number(b, 1, 4) == stmt % 4294967296 && Number(b, 5, 2) == param % 65536
  {
    var b := Prefix(stmt, param);
    FourDigits(stmt);
    TwoDigits(param);
    var b1: int, b2: int, b3: int, b4: int := b[1], b[2], b[3], b[4];
    var b5: int, b6: int := b[5], b[6];
    assert Number(b, 4, 1) == b4 && Number(b, 3, 2) == b3 + 256 * b4 && Number(b, 2, 3) == b2 + 256 * (b3 + 256 * b4);
    assert Number(b, 6, 1) == b6 && Number(b, 5, 2) == b5 + 256 * b6;
  }

  lemma TwoDigits(n: nat)
    ensures n % 256 + 256 * (n / 256 % 256) == n % 65536
  {
    assert n / 256 / 256 == n / 65536;
  }

  lemma FourDigits(n: nat)
    ensures n % 256 + 256 * (n / 256 % 256 + 256 * (n / 65536 % 256 + 256 * (n / 16777216 % 256))) == n % 4294967296
  {
    TwoDigits(n);
    TwoDigits(n / 65536);
    assert n / 65536 / 256 == n / 16777216 && n / 65536 / 65536 == n / 4294967296;
  }

  // ---------- The method ----------

  class MysqlStmt {
    const mc: MysqlConn
    const id: nat

    constructor (mc: MysqlConn, id: nat)
      ensures this.mc == mc && this.id == id
    {
      this.mc, this.id := mc, id;
    }

    /** Put a command's header and prefix over the eleven bytes at `off`. */
    method PutPrefix(data: array<Byte>, off: nat, pktLen: nat, paramID: nat)
      requires off + 4 + DATA_OFFSET <= data.Length
      modifies data
      ensures data[off + 4..off + 4 + DATA_OFFSET] == Prefix(id, paramID)
      ensures pktLen <= MAX_PACKET_SIZE ==> data[off..off + 4] == Head(pktLen, 0)
      ensures forall i :: 0 <= i < data.Length && !(off <= i < off + 4 + DATA_OFFSET) ==> data[i] == old(data[i])
    {
      PutLength(data, off, pktLen);
      label prefix:
      hide ByteOf;
      data[off + 4] := COM_STMT_SEND_LONG_DATA;
      data[off + 5] := ByteOf(id, 1);
      data[off + 6] := ByteOf(id, 0x100);
      data[off + 7] := ByteOf(id, 0x1_0000);
      data[off + 8] := ByteOf(id, 0x100_0000);
      data[off + 9] := ByteOf(paramID, 1);
      data[off + 10] := ByteOf(paramID, 0x100);
      assert data[off..off + 4] == old@prefix(data[off..off + 4]);
    }

    static method PutLength(data: array<Byte>, off: nat, pktLen: nat)
      requires off + 4 <= data.Length
      modifies data
      ensures pktLen <= MAX_PACKET_SIZE ==> data[off..off + 4] == Head(pktLen, 0)
      ensures forall i :: 0 <= i < data.Length && !(off <= i < off + 4) ==> data[i] == old(data[i])
    {
      data[off] := pktLen % 0x100;
      data[off + 1] := pktLen / 0x100 % 0x100;
      data[off + 2] := pktLen / 0x1_0000 % 0x100;
      data[off + 3] := 0;
    }

    /** One command, carrying the bytes `piece` that start eleven bytes after `off`. */
    method SendCommand(data: array<Byte>, off: nat, pktLen: nat, paramID: nat, ghost piece: Bytes) returns (e: WriteError)
      requires mc.Limits() && DATA_OFFSET < pktLen < mc.maxPacketAllowed && off + 4 + pktLen <= data.Length
      requires data[off + 4 + DATA_OFFSET..off + 4 + pktLen] == piece
      modifies mc`sequence, mc.net, data
      ensures forall i :: 0 <= i < data.Length && !(off <= i < off + 4 + pktLen) ==> data[i] == old(data[i])
      ensures e != PacketTooLarge && old(mc.net.sent) <= mc.net.sent
      ensures var c := Command(Prefix(id, paramID), piece, mc.maxWriteSize, old(mc.sequence));
              (e == Sent ==> mc.net.sent == old(mc.net.sent) + c) && mc.net.sent <= old(mc.net.sent) + c
      ensures e == Sent ==> mc.sequence == After(|piece|, mc.maxWriteSize, old(mc.sequence))
    {
      hide Head, Packets, Prefix, Count, Skip;
      PutPrefix(data, off, pktLen, paramID);
      assert data[off + 4..off + 4 + pktLen] == Prefix(id, paramID) + piece;
      assert pktLen <= MAX_PACKET_SIZE ==> data[off..off + 4 + pktLen] == Head(pktLen, 0) + (Prefix(id, paramID) + piece);
      e := mc.WritePacket(data, off, off + 4 + pktLen);
    }

    /**
    Send a long parameter, for any limit that leaves room for the prefix.  Each round writes over
    the last eleven bytes that have been sent.
    */
    method WriteCommandLongData(paramID: nat, arg: Bytes) returns (e: WriteError)
      requires mc.Limits() && mc.maxPacketAllowed - 1 > DATA_OFFSET
      modifies mc`sequence, mc.net
      ensures e != PacketTooLarge && old(mc.net.sent) <= mc.net.sent
      ensures var w := Wire(Prefix(id, paramID), Pieces(arg, mc.maxPacketAllowed - 1 - DATA_OFFSET), mc.maxWriteSize, old(mc.sequence));
              (e == Sent ==> mc.net.sent == old(mc.net.sent) + w) && mc.net.sent <= old(mc.net.sent) + w
      ensures e == Sent ==> mc.sequence == 0
    {
      hide Command, Prefix, After, Wire, Pieces;
      var maxLen: nat := mc.maxPacketAllowed - 1;
      var pktLen, room := maxLen, maxLen - DATA_OFFSET;
      var data := new Byte[4 + DATA_OFFSET + |arg|](i => 0);
      forall i | 0 <= i < |arg| {
        data[4 + DATA_OFFSET + i] := arg[i];
      }
      var off, argLen := 0, |arg|;
      ghost var prefix, left, before := Prefix(id, paramID), arg, mc.net.sent;
      ghost var target := before + Wire(prefix, Pieces(arg, room), mc.maxWriteSize, mc.sequence);
      assert data[4 + DATA_OFFSET..] == arg;
      while argLen > 0
        invariant 0 <= argLen == |left| && off + 4 + DATA_OFFSET + argLen == data.Length && fresh(data)
        invariant data[off + 4 + DATA_OFFSET..] == left && (argLen > 0 ==> pktLen == maxLen)
        invariant before <= mc.net.sent
        invariant mc.net.sent + Wire(prefix, Pieces(left, room), mc.maxWriteSize, mc.sequence) == target
        decreases argLen
      {
        if DATA_OFFSET + argLen < maxLen {
          pktLen := DATA_OFFSET + argLen;
        }
        ghost var n := pktLen - DATA_OFFSET;
        assert data[off + 4 + DATA_OFFSET..off + 4 + pktLen] == left[..n];
        label round:
        e := SendCommand(data, off, pktLen, paramID, left[..n]);
        PrefixTransitive(before, old@round(mc.net.sent), mc.net.sent);
        FirstPiece(old@round(mc.net.sent), left, room, prefix, mc.maxWriteSize, old@round(mc.sequence));
        if e != Sent {
          return e;
        }
        off, argLen, left := off + (pktLen - DATA_OFFSET), argLen - (pktLen - DATA_OFFSET), left[n..];
      }
      NothingLeft(prefix, left, room, mc.maxWriteSize, mc.sequence, mc.net.sent);
      mc.sequence := 0;
      return Sent;
    }

    static lemma NothingLeft(prefix: Bytes, left: Bytes, room: nat, maxWrite: int, q: Byte, sent: Bytes)
      requires left == [] && room > 0 && |prefix| == DATA_OFFSET && maxWrite < MAX_PACKET_SIZE
      ensures sent + Wire(prefix, Pieces(left, room), maxWrite, q) == sent
    {
    }

    static lemma PrefixTransitive(a: Bytes, b: Bytes, c: Bytes)
      requires a <= b <= c
      ensures a <= c
    {
    }

    static lemma FirstPiece(sent: Bytes, left: Bytes, room: nat, prefix: Bytes, maxWrite: int, q: Byte)
      requires room > 0 && left != [] && |prefix| == DATA_OFFSET && maxWrite < MAX_PACKET_SIZE
      ensures var n := Min(room, |left|);
              var c, q' := Command(prefix, left[..n], maxWrite, q), After(n, maxWrite, q);
              var w := Wire(prefix, Pieces(left, room), maxWrite, q);
              sent + c + Wire(prefix, Pieces(left[n..], room), maxWrite, q') == sent + w && sent + c <= sent + w
    {
      var n := Min(room, |left|);
      assert Pieces(left, room)[0] == left[..n] && Pieces(left, room)[1..] == Pieces(left[n..], room);
      hide Command, After, Pieces;
      var c, tail := Command(prefix, left[..n], maxWrite, q), Wire(prefix, Pieces(left[n..], room), maxWrite, After(n, maxWrite, q));
      assert Wire(prefix, Pieces(left, room), maxWrite, q) == c + tail;
      Regroup(sent, c, tail);
      hide Wire;
    }

    static lemma Regroup(a: Bytes, b: Bytes, c: Bytes)
      ensures a + b + c == a + (b + c) && a + b <= a + (b + c)
    {
    }
  }
}

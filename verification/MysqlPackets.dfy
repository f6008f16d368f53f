/**
MySQL packets: a body too long for one packet goes out as a train of full packets and a shorter
one, every header but the first written over bytes that have been sent already, and is put
together again by the reader (MySQL internals manual, section "Sending More Than 16Mb").
*/
module MysqlPackets {
  import opened ByteStrings
  import opened MysqlBuffers
  import opened Wrappers

  // ---------- The format ----------

  function Head(n: nat, q: Byte): Bytes
    requires n <= MAX_PACKET_SIZE
  {
    [n % 0x100, n / 0x100 % 0x100, n / 0x1_0000, q]
  }

  /** The length in a header. */
  function Length24(b: Bytes): (n: nat)
    requires |b| >= 3
    ensures n <= MAX_PACKET_SIZE
  {
    var b0: int, b1: int, b2: int := b[0], b[1], b[2];
    b0 + b1 * 0x100 + b2 * 0x1_0000
  }

  function Following(q: Byte): Byte { (q + 1) % 0x100 }

  /** The packets of `body`, numbered from `q`: a body of full packets only ends with an empty one. */
  function Packets(body: Bytes, q: Byte): Bytes
    decreases |body|
  {
    if |body| < MAX_PACKET_SIZE then Head(|body|, q) + body
    else Head(MAX_PACKET_SIZE, q) + body[..MAX_PACKET_SIZE] + Packets(body[MAX_PACKET_SIZE..], Following(q))
  }

  /** Number of packets of a body, and the sequence number after them. */
  function Count(n: nat): nat { n / MAX_PACKET_SIZE + 1 }

  function Skip(q: Byte, k: nat): Byte { (q + k) % 0x100 }

  datatype Outcome = Packet(body: Bytes, rest: Bytes, next: Byte) | BadConn | OutOfSync | OutOfSyncMulti

  /** What the caller of `readPacket` sees of it. */
  datatype ReadResult = Data(body: Bytes) | ErrBadConn | ErrPktSync | ErrPktSyncMul

  function Seen(o: Outcome): ReadResult {
    match o
    case Packet(body, _, _) => Data(body)
    case BadConn => ErrBadConn
    case OutOfSync => ErrPktSync
    case OutOfSyncMulti => ErrPktSyncMul
  }

  /** What `readPacket` makes of the bytes `s`, expecting sequence number `q`. */
  function Parse(s: Bytes, q: Byte): Outcome
    decreases |s|
  {
    if |s| < 4 then BadConn
    else
      var n := Length24(s);
      if n < 1 then BadConn
      else if s[3] > q then OutOfSyncMulti
      else if s[3] < q then OutOfSync
      else if |s| - 4 < n then BadConn
      else
        var body, rest := s[4..4 + n], s[4 + n..];
        if n < MAX_PACKET_SIZE then Packet(body, rest, Following(q))
        else
          Continue(body, Parse(rest, Following(q)))
  }

  /** Any failure of a later packet is a lost connection. */
  function Continue(front: Bytes, r: Outcome): Outcome {
    match r
    case Packet(more, left, next) => Packet(front + more, left, next)
    case _ => BadConn
  }

  lemma SkipOne(q: Byte, k: nat)
    ensures Skip(Following(q), k) == Skip(q, k + 1)
  {
    if q == 0xff {
      assert 0x100 + k == q + (k + 1) && (0x100 + k) % 0x100 == k % 0x100;
    }
  }

  lemma CountOne(q: Byte, n: nat)
    requires n < MAX_PACKET_SIZE
    ensures Skip(q, Count(n)) == Following(q)
  {
  }

  lemma CountDown(q: Byte, n: nat)
    requires n >= MAX_PACKET_SIZE
    ensures Skip(Following(q), Count(n - MAX_PACKET_SIZE)) == Skip(q, Count(n))
  {
    assert n / MAX_PACKET_SIZE == (n - MAX_PACKET_SIZE) / MAX_PACKET_SIZE + 1;
    hide Skip, Following;
    SkipOne(q, Count(n - MAX_PACKET_SIZE));
  }

  // ---------- The round trip ----------

  lemma HeadBack(n: nat, q: Byte)
    requires n <= MAX_PACKET_SIZE
    ensures Length24(Head(n, q)) == n
  {
  }

  /** One packet in front of `rest`. */
  lemma ParseHead(n: nat, q: Byte, body: Bytes, rest: Bytes, p: Byte)
    requires |body| == n <= MAX_PACKET_SIZE
    ensures Parse(Head(n, q) + body + rest, p)
         == if n < 1 then BadConn
            else if q > p then OutOfSyncMulti
            else if q < p then OutOfSync
            else if n < MAX_PACKET_SIZE then Packet(body, rest, Following(p))
            else Continue(body, Parse(rest, Following(p)))
  {
    var s := Head(n, q) + body + rest;
    HeadBack(n, q);
    assert Length24(s) == Length24(Head(n, q)) && s[3] == q;
    assert s[4..4 + n] == body && s[4 + n..] == rest;
  }

  /** A body comes back exactly when its length is not a multiple of the full packet: an empty packet is refused. */
  lemma {:induction false} RoundTripIff(body: Bytes, q: Byte, rest: Bytes)
    ensures Parse(Packets(body, q) + rest, q)
         == if |body| % MAX_PACKET_SIZE != 0 then Packet(body, rest, Skip(q, Count(|body|))) else BadConn
    decreases |body|
  {
    hide Parse, Head, Skip, Following, Count;
    if |body| < MAX_PACKET_SIZE {
      CountOne(q, |body|);
      ParseHead(|body|, q, body, rest, q);
    } else {
      CountDown(q, |body|);
      var front, back := body[..MAX_PACKET_SIZE], body[MAX_PACKET_SIZE..];
      RoundTripIff(back, Following(q), rest);
      var tail := Packets(back, Following(q)) + rest;
      assert Packets(body, q) + rest == Head(MAX_PACKET_SIZE, q) + front + tail;
      ParseHead(MAX_PACKET_SIZE, q, front, tail, q);
      assert body == front + back;
      assert |body| % MAX_PACKET_SIZE == |back| % MAX_PACKET_SIZE;
    }
  }

  /** Sequence numbers must agree. */
  lemma WrongSequence(body: Bytes, q: Byte, rest: Bytes, p: Byte)
    requires p != q
    ensures !Parse(Packets(body, q) + rest, p).Packet?
  {
    hide Parse, Head;
    if |body| < MAX_PACKET_SIZE {
      ParseHead(|body|, q, body, rest, p);
    } else {
      var front, tail := body[..MAX_PACKET_SIZE], Packets(body[MAX_PACKET_SIZE..], Following(q)) + rest;
      assert Packets(body, q) + rest == Head(MAX_PACKET_SIZE, q) + front + tail;
      ParseHead(MAX_PACKET_SIZE, q, front, tail, p);
    }
  }

  // ---------- On the wire ----------

  /** Three bytes of length, the lowest first, a sequence number, the body; 0xffffff bytes or more in as many packets as it takes. */
  lemma PacketOnTheWire(body: Bytes, q: Byte)
    ensures |body| < 16777215 ==>
              Packets(body, q) == [|body| % 256, |body| / 256 % 256, |body| / 65536, q] + body
    ensures |body| >= 16777215 ==>
              Packets(body, q) == [255, 255, 255, q] + body[..16777215]
                                  + Packets(body[16777215..], if q == 255 then 0 else q + 1)
  {
    hide Packets;
    OnePacket(body, q);
  }

  lemma OnePacket(body: Bytes, q: Byte)
    ensures Packets(body, q) ==
      if |body| < MAX_PACKET_SIZE then Head(|body|, q) + body
      else Head(MAX_PACKET_SIZE, q) + body[..MAX_PACKET_SIZE] + Packets(body[MAX_PACKET_SIZE..], Following(q))
  {
    hide Head, Following;
  }

  /**
  What the reader makes of any bytes when it expects number `q`: a header cut short or of length 0 is a
  lost connection, a foreign number is a packet out of order, and what is longer than one packet goes on.
  */
  lemma ReadFromTheWire(s: Bytes, q: Byte)
    ensures |s| < 4 ==> Parse(s, q) == BadConn
    ensures |s| >= 4 ==>
      var b0: int, b1: int, b2: int := s[0], s[1], s[2];
      var n := b0 + 256 * b1 + 65536 * b2;
      Parse(s, q) == if n == 0 then BadConn
                     else if s[3] > q then OutOfSyncMulti
                     else if s[3] < q then OutOfSync
                     else if |s| < 4 + n then BadConn
                     else if n < 16777215 then Packet(s[4..4 + n], s[4 + n..], if q == 255 then 0 else q + 1)
                     else
                       match Parse(s[4 + n..], if q == 255 then 0 else q + 1)
                       case Packet(more, rest, next) => Packet(s[4..4 + n] + more, rest, next)
                       case _ => BadConn
  {
  }

  /** A number that is too high is reported as `errPktSyncMul`, one too low as `errPktSync`, all else as a lost connection. */
  lemma SeenOnTheWire(s: Bytes, q: Byte)
    requires |s| >= 4 && (s[0] != 0 || s[1] != 0 || s[2] != 0)
    ensures s[3] > q ==> Seen(Parse(s, q)) == ErrPktSyncMul
    ensures s[3] < q ==> Seen(Parse(s, q)) == ErrPktSync
    ensures s[3] == q ==> Seen(Parse(s, q)) == ErrBadConn || (Parse(s, q).Packet? && Seen(Parse(s, q)) == Data(Parse(s, q).body))
  {
    ReadFromTheWire(s, q);
    hide Parse;
  }

  // ---------- The connection ----------

  /**
  The connection written to.  `script` fixes how it answers a write: all of it, or a shorter count,
  which the driver takes for a lost connection.
  */
  class Net {
    var sent: Bytes
    var script: seq<Option<nat>>

    constructor (script: seq<Option<nat>>)
      ensures sent == [] && this.script == script
    {
      sent, this.script := [], script;
    }

    method Write(b: Bytes) returns (ok: bool)
      modifies this
      ensures old(sent) <= sent <= old(sent) + b
      ensures ok ==> sent == old(sent) + b
      ensures ok <==> old(script) == [] || old(script)[0].None? || old(script)[0].value >= |b|
    {
      var answer := if script == [] then None else script[0];
      script := if script == [] then [] else script[1..];
      var n := if answer.None? then |b| else Min(answer.value, |b|);
      sent := sent + b[..n];
      return n == |b|;
    }
  }

  datatype WriteError = Sent | PacketTooLarge | BadWrite

  class MysqlConn {
    const net: Net
    const buf: Buffer
    var sequence: Byte
    const maxPacketAllowed: int
    const maxWriteSize: int
    var closed: bool

    /** As `Open` sets the two limits. */
    ghost predicate Limits() {
      maxWriteSize == if maxPacketAllowed < MAX_PACKET_SIZE then maxPacketAllowed else MAX_PACKET_SIZE - 1
    }

    ghost predicate Valid()
      reads this, buf
    {
      Limits() && buf.Valid()
    }

    constructor (net: Net, buf: Buffer, maxPacketAllowed: int)
      requires buf.Valid()
      ensures Valid() && this.net == net && this.buf == buf && sequence == 0 && !closed
      ensures this.maxPacketAllowed == maxPacketAllowed
    {
      this.net, this.buf, this.maxPacketAllowed := net, buf, maxPacketAllowed;
      maxWriteSize := if maxPacketAllowed < MAX_PACKET_SIZE then maxPacketAllowed else MAX_PACKET_SIZE - 1;
      sequence, closed := 0, false;
    }

    /** Put a header over `data[from..from + 4]`. */
    method PutHead(data: array<Byte>, from: nat, n: nat, q: Byte)
      requires n <= MAX_PACKET_SIZE && from + 4 <= data.Length
      modifies data
      ensures data[from..from + 4] == Head(n, q)
      ensures forall i :: 0 <= i < data.Length && !(from <= i < from + 4) ==> data[i] == old(data[i])
    {
      data[from] := n % 0x100;
      data[from + 1] := n / 0x100 % 0x100;
      data[from + 2] := n / 0x1_0000;
      data[from + 3] := q;
    }

    /** Send `data[from..until]` as it is. */
    method SendOne(data: array<Byte>, from: nat, until: nat) returns (ok: bool)
      requires from <= until <= data.Length
      modifies this`sequence, net
      ensures ok ==> net.sent == old(net.sent) + data[from..until] && sequence == Following(old(sequence))
      ensures !ok ==> old(net.sent) <= net.sent <= old(net.sent) + data[from..until] && sequence == old(sequence)
    {
      ok := net.Write(data[from..until]);
      if ok {
        sequence := (sequence + 1) % 0x100;
      }
    }

    /** Nothing outside `data[from..until]` has changed. */
    twostate predicate Outside(data: array<Byte>, from: nat, until: nat)
      reads data
    {
      forall i :: 0 <= i < data.Length && !(from <= i < until) ==> data[i] == old(data[i])
    }

    /**
    The packet `data[from..until]`, header included.  A body within `maxWriteSize` goes out under
    the header its caller wrote; a longer one is split, and its headers are written here.
    */
    method WritePacket(data: array<Byte>, from: nat, until: nat) returns (e: WriteError)
      requires Limits() && from + 4 <= until <= data.Length
      modifies this`sequence, net, data
      ensures Outside(data, from, until)
      ensures e == PacketTooLarge <==> until - from - 4 > maxWriteSize && until - from - 4 > maxPacketAllowed
      ensures e == PacketTooLarge ==> net.sent == old(net.sent) && sequence == old(sequence)
      ensures until - from - 4 <= maxWriteSize ==> data[..] == old(data[..])
      ensures e == Sent && until - from - 4 <= maxWriteSize ==>
                net.sent == old(net.sent) + old(data[from..until]) && sequence == Following(old(sequence))
      ensures e == Sent && until - from - 4 > maxWriteSize ==>
                net.sent == old(net.sent) + Packets(old(data[from + 4..until]), old(sequence))
                && sequence == Skip(old(sequence), Count(until - from - 4))
      ensures e == BadWrite ==>
                old(net.sent) <= net.sent <= old(net.sent) + (if until - from - 4 <= maxWriteSize then old(data[from..until])
                                                              else Packets(old(data[from + 4..until]), old(sequence)))
      decreases if until - from - 4 <= maxWriteSize then 0 else 2, 0
    {
      if until - from - 4 <= maxWriteSize {
        var ok := SendOne(data, from, until);
        return if ok then Sent else BadWrite;
      }
      e := SplitPacket(data, from, until);
    }

    method SplitPacket(data: array<Byte>, from: nat, until: nat) returns (e: WriteError)
      requires Limits() && from + 4 <= until <= data.Length && until - from - 4 > maxWriteSize
      modifies this`sequence, net, data
      ensures Outside(data, from, until)
      ensures e == PacketTooLarge <==> until - from - 4 > maxPacketAllowed
      ensures e == PacketTooLarge ==> net.sent == old(net.sent) && sequence == old(sequence)
      ensures e == Sent ==>
                net.sent == old(net.sent) + Packets(old(data[from + 4..until]), old(sequence))
                && sequence == Skip(old(sequence), Count(until - from - 4))
      ensures e == BadWrite ==>
                old(net.sent) <= net.sent <= old(net.sent) + Packets(old(data[from + 4..until]), old(sequence))
      decreases 1
    {
      hide Head, Packets, Count, Skip, Following;
      var pktLen := until - from - 4;
      if pktLen > maxPacketAllowed {
        return PacketTooLarge;
      }
      var off := from;
      ghost var left, before := data[from + 4..until], net.sent;
      ghost var target, next := before + Packets(left, sequence), Skip(sequence, Count(|left|));
      while pktLen >= MAX_PACKET_SIZE
        invariant from <= off && off + 4 + pktLen == until && 0 <= pktLen
        invariant Outside(data, from, until) && data[off + 4..until] == left
        invariant before <= net.sent && net.sent + Packets(left, sequence) == target
        invariant Skip(sequence, Count(pktLen)) == next
        decreases pktLen
      {
        label round:
        var ok := SendFull(data, off, until, left);
        PrefixTransitive(before, old@round(net.sent), net.sent);
        if !ok {
          return BadWrite;
        }
        CountDown(old@round(sequence), pktLen);
        off, pktLen, left := off + MAX_PACKET_SIZE, pktLen - MAX_PACKET_SIZE, left[MAX_PACKET_SIZE..];
      }
      label last:
      var ok := SendLast(data, off, until);
      PrefixTransitive(before, old@last(net.sent), net.sent);
      CountOne(old@last(sequence), pktLen);
      return if ok then Sent else BadWrite;
    }

    /** The last packet, its header written here. */
    method SendLast(data: array<Byte>, off: nat, until: nat) returns (ok: bool)
      requires Limits() && off + 4 <= until <= data.Length && until - off - 4 <= maxWriteSize
      modifies this`sequence, net, data
      ensures Outside(data, off, until) && old(net.sent) <= net.sent
      ensures ok ==> net.sent == old(net.sent) + Packets(old(data[off + 4..until]), old(sequence))
      ensures ok ==> sequence == Following(old(sequence))
      ensures !ok ==> net.sent <= old(net.sent) + Packets(old(data[off + 4..until]), old(sequence))
      decreases 0, 1
    {
      hide Head, Packets, Count, Skip;
      ghost var body := data[off + 4..until];
      PutHead(data, off, until - off - 4, sequence);
      assert data[off..until] == Head(until - off - 4, sequence) + body;
      LastPacket(body, sequence);
      var e := WritePacket(data, off, until);
      ok := e == Sent;
    }

    static lemma PrefixTransitive(a: Bytes, b: Bytes, c: Bytes)
      requires a <= b <= c
      ensures a <= c
    {
    }

    static lemma LastPacket(body: Bytes, q: Byte)
      requires |body| < MAX_PACKET_SIZE
      ensures Packets(body, q) == Head(|body|, q) + body && Count(|body|) == 1
    {
    }

    /** One full packet of the body `left`, which starts four bytes after `off`. */
    method SendFull(data: array<Byte>, off: nat, until: nat, ghost left: Bytes) returns (ok: bool)
      requires off + 4 + MAX_PACKET_SIZE <= until <= data.Length && data[off + 4..until] == left
      modifies this`sequence, net, data
      ensures Outside(data, off, until) && data[off + 4..until] == left
      ensures ok ==> net.sent + Packets(left[MAX_PACKET_SIZE..], sequence) == old(net.sent) + Packets(left, old(sequence))
      ensures ok ==> sequence == Following(old(sequence))
      ensures old(net.sent) <= net.sent && (!ok ==> net.sent <= old(net.sent) + Packets(left, old(sequence)))
    {
      hide Head;
      PutHead(data, off, MAX_PACKET_SIZE, sequence);
      assert data[off + 4..until] == left;
      assert data[off..off + 4 + MAX_PACKET_SIZE] == Head(MAX_PACKET_SIZE, sequence) + left[..MAX_PACKET_SIZE];
      ok := SendOne(data, off, off + 4 + MAX_PACKET_SIZE);
      FullPacket(old(net.sent), left, old(sequence));
    }

    static lemma FullPacket(sent: Bytes, left: Bytes, q: Byte)
      requires |left| >= MAX_PACKET_SIZE
      ensures sent + (Head(MAX_PACKET_SIZE, q) + left[..MAX_PACKET_SIZE]) + Packets(left[MAX_PACKET_SIZE..], Following(q))
           == sent + Packets(left, q)
    {
      hide Head;
    }
  
    // ---------- Reading ----------

    /**
    Read a packet.  What comes out is what `Parse` makes of the bytes to come, unless the
    connection breaks; the bytes of a packet that was delivered, and no others, are consumed.
    */
    method ReadPacket() returns (r: ReadResult)
      requires buf.Valid()
      modifies this, buf, buf.buf, buf.rd
      ensures buf.Valid() && (buf.buf == old(buf.buf) || fresh(buf.buf))
      ensures r.Data? ==> Parse(old(buf.Pending()), old(sequence)) == Packet(r.body, buf.Pending(), sequence)
      ensures old(buf.rd.Whole()) ==> buf.rd.Whole() && r == Seen(Parse(old(buf.Pending()), old(sequence)))
      ensures closed <==> old(closed) || r == ErrBadConn
      decreases |buf.Pending()|
    {
      ghost var s := buf.Pending();
      var header := buf.ReadNext(4);
      if header.None? {
        closed := true;
        return ErrBadConn;
      }
      var data := header.value;
      var pktLen := Length24(data[..3]);
      assert pktLen == Length24(s);
      if pktLen < 1 {
        closed := true;
        return ErrBadConn;
      }
      if data[3] != sequence {
        return if data[3] > sequence then ErrPktSyncMul else ErrPktSync;
      }
      sequence := (sequence + 1) % 0x100;
      r := ReadBody(pktLen, s);
    }

    static lemma ParseBody(s: Bytes)
      requires |s| >= 4 && Length24(s) > 0
      ensures Parse(s, s[3])
           == if |s[4..]| < Length24(s) then BadConn
              else if Length24(s) < MAX_PACKET_SIZE then Packet(s[4..][..Length24(s)], s[4..][Length24(s)..], Following(s[3]))
              else Continue(s[4..][..Length24(s)], Parse(s[4..][Length24(s)..], Following(s[3])))
    {
      if |s| - 4 >= Length24(s) {
        assert s[4..][..Length24(s)] == s[4..4 + Length24(s)] && s[4..][Length24(s)..] == s[4 + Length24(s)..];
      }
    }

    /** The rest of `readPacket`, after the header of the packet at the head of `s`. */
    method ReadBody(pktLen: nat, ghost s: Bytes) returns (r: ReadResult)
      requires buf.Valid() && |s| >= 4 && buf.Pending() == s[4..] && 0 < pktLen == Length24(s) && sequence == Following(s[3])
      modifies this, buf, buf.buf, buf.rd
      ensures buf.Valid() && (buf.buf == old(buf.buf) || fresh(buf.buf))
      ensures r.Data? ==> Parse(s, s[3]) == Packet(r.body, buf.Pending(), sequence)
      ensures old(buf.rd.Whole()) ==> buf.rd.Whole() && r == Seen(Parse(s, s[3]))
      ensures closed <==> old(closed) || r == ErrBadConn
      decreases |buf.Pending()|, 0
    {
      ParseBody(s);
      hide Parse;
      var body := buf.ReadNext(pktLen);
      if body.None? {
        closed := true;
        return ErrBadConn;
      }
      if pktLen < MAX_PACKET_SIZE {
        return Data(body.value);
      }
      r := ReadPacket();
      if r.Data? {
        return Data(body.value + r.body);
      }
      closed := true;
      return ErrBadConn;
    }
  }
}

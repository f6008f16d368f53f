/**
The read buffer of a MySQL connection: it compacts and grows in place while it is refilled from a
reader that hands out its bytes in pieces of its own choosing.  Whatever the pieces, the buffer is
the byte stream.
*/
module MysqlBuffers {
  import opened ByteStrings
  import opened Wrappers

  const DEFAULT_BUF_SIZE: nat := 4096
  const MAX_PACKET_SIZE: nat := 0xff_ffff

  datatype ReadError = NoError | EndOfFile | Broken


  /** How the reader answers a call: the most it gives, and the error it would add. */
  datatype Answer = Answer(size: nat, error: ReadError)

  /**
  An io.Reader over `data`.  `script` fixes its answers, one a call: at least one byte unless it
  breaks or is at its end, and the end of file only together with the last byte or after it.
  */
  class Reader {
    var data: seq<Byte>
    var script: seq<Answer>

    constructor (data: seq<Byte>, script: seq<Answer>)
      ensures this.data == data && this.script == script
    {
      this.data, this.script := data, script;
    }

    /** The connection does not break. */
    ghost predicate Whole()
      reads this
    {
      forall a :: a in script ==> a.error != Broken
    }

    /** Read into `b[from..]`. */
    method Read(b: array<Byte>, from: nat) returns (n: nat, error: ReadError)
      requires from < b.Length
      modifies this, b
      ensures from + n <= b.Length && n <= |old(data)| && data == old(data)[n..]
      ensures b[..from] == old(b[..from]) && b[from..from + n] == old(data)[..n]
      ensures error == NoError ==> n > 0
      ensures error == EndOfFile ==> data == []
      ensures old(Whole()) ==> Whole() && error != Broken
    {
      var answer := if script == [] then Answer(|data|, NoError) else script[0];
      script := if script == [] then [] else script[1..];
      n := Min(Min(answer.size, |data|), b.Length - from);
      error := answer.error;
      if error == NoError && n == 0 {
        n := Min(1, |data|);
        error := if data == [] then EndOfFile else NoError;
      } else if error == EndOfFile && n < |data| {
        n := if n == 0 then 1 else n;
        error := if n < |data| then NoError else EndOfFile;
      }
      forall i | 0 <= i < n {
        b[from + i] := data[i];
      }
      assert b[from..from + n] == data[..n];
      data := data[n..];
    }
  }

  class Buffer {
    var buf: array<Byte>
    const rd: Reader
    var idx: nat
    var length: nat

    ghost predicate Valid()
      reads this
    {
      idx + length <= buf.Length && DEFAULT_BUF_SIZE <= buf.Length
    }

    /** The bytes a caller has still to see: those buffered, then those not read yet. */
    ghost function Pending(): seq<Byte>
      requires Valid()
      reads this, buf, rd
    {
      buf[idx..idx + length] + rd.data
    }

    constructor (rd: Reader)
      ensures Valid() && this.rd == rd && fresh(buf) && length == 0 && Pending() == rd.data
    {
      buf := new Byte[DEFAULT_BUF_SIZE](i => 0);
      this.rd := rd;
      idx, length := 0, 0;
    }

    /** Move the buffered bytes to the front, into a larger array when `need` asks for one. */
    method Compact(need: nat)
      requires Valid()
      modifies this, buf
      ensures Valid() && idx == 0 && length == old(length) && need <= buf.Length
      ensures buf[..length] == old(buf[idx..idx + length])
      ensures buf == old(buf) || fresh(buf)
      ensures buf.Length == if need > old(buf.Length) then (need / 4096 + 1) * 4096 else old(buf.Length)
    {
      if length > 0 && idx > 0 {
        forall i | 0 <= i < length {
          buf[i] := buf[idx + i];
        }
      }
      assert buf[..length] == old(buf[idx..idx + length]);
      if need > buf.Length {
        var newBuf := new Byte[(need / DEFAULT_BUF_SIZE + 1) * DEFAULT_BUF_SIZE](i => 0);
        forall i | 0 <= i < buf.Length {
          newBuf[i] := buf[i];
        }
        assert newBuf[..length] == buf[..length];
        buf := newBuf;
      }
      idx := 0;
    }

    /** One read behind the buffered bytes. */
    method FillOnce() returns (error: ReadError)
      requires Valid() && idx == 0 && length < buf.Length
      modifies this`length, buf, rd
      ensures Valid() && Pending() == old(Pending()) && length + |rd.data| == old(length + |rd.data|)
      ensures error == NoError ==> |rd.data| < |old(rd.data)|
      ensures error == EndOfFile ==> rd.data == []
      ensures old(rd.Whole()) ==> rd.Whole() && error != Broken
    {
      ghost var before, given := buf[..length], rd.data;
      var n;
      n, error := rd.Read(buf, length);
      assert buf[..length + n] == before + given[..n];
      assert before + given[..n] + given[n..] == before + given;
      length := length + n;
    }

    /** Read until `need` bytes are buffered; `ok` stands for a nil error. */
    method Fill(need: nat) returns (ok: bool)
      requires Valid() && length < need
      modifies this, buf, rd
      ensures Valid() && Pending() == old(Pending())
      ensures ok ==> need <= length
      ensures old(rd.Whole()) ==> rd.Whole() && (ok <==> need <= |old(Pending())|)
      ensures buf == old(buf) || fresh(buf)
    {
      Compact(need);
      assert Pending() == old(Pending());
      while true
        invariant Valid() && idx == 0 && length < need <= buf.Length
        invariant Pending() == old(Pending())
        invariant old(rd.Whole()) ==> rd.Whole()
        invariant buf == old(buf) || fresh(buf)
        decreases |rd.data|
      {
        var error := FillOnce();
        assert |Pending()| == length + |rd.data|;
        if error == NoError {
          if length < need {
            continue;
          }
          return true;
        }
        return length >= need && error == EndOfFile;
      }
    }

    /**
    The next `need` bytes of the stream.  A failure loses nothing: what was pending still is.  The
    result is the window of the array before `idx`, not a copy: it stays as it is through calls that
    find enough buffered, and the next one that has to fill writes over the array.
    */
    method ReadNext(need: nat) returns (data: Option<seq<Byte>>)
      requires Valid()
      modifies this, buf, rd
      ensures Valid() && (buf == old(buf) || fresh(buf))
      ensures data.Some? ==> need <= |old(Pending())| && data.value == old(Pending())[..need] && Pending() == old(Pending())[need..]
      ensures data.Some? ==> need <= idx && data.value == buf[idx - need..idx]
      ensures need <= old(length) ==> data.Some? && buf == old(buf) && buf[..] == old(buf[..]) && idx == old(idx) + need
      ensures data.None? ==> Pending() == old(Pending())
      ensures old(rd.Whole()) ==> rd.Whole() && (data.Some? <==> need <= |old(Pending())|)
    {
      if length < need {
        var ok := Fill(need);
        if !ok {
          return None;
        }
      }
      ghost var pending := Pending();
      var offset := idx;
      idx := idx + need;
      length := length - need;
      data := Some(buf[offset..idx]);
      assert pending[..need] == buf[offset..idx];
      assert pending[need..] == Pending();
    }

    /** A buffer to write in: the read buffer itself, when nothing is buffered there and it is not too long. */
    method TakeBuffer(size: nat) returns (b: Option<array<Byte>>)
      requires Valid()
      modifies this
      ensures Valid() && length == old(length) && rd.data == old(rd.data)
      ensures b.None? <==> length > 0
      ensures b.Some? ==> size <= b.value.Length && Pending() == rd.data
      ensures b.Some? ==> b.value == buf || (fresh(b.value) && size >= 16777215)
      ensures buf == old(buf) || (fresh(buf) && buf.Length == size)
    {
      if length > 0 {
        return None;
      }
      if size <= DEFAULT_BUF_SIZE || size <= buf.Length {
        return Some(buf);
      }
      if size < MAX_PACKET_SIZE {
        buf := new Byte[size](i => 0);
        return Some(buf);
      }
      var big := new Byte[size](i => 0);
      return Some(big);
    }
  }
}

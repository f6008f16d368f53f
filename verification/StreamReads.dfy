/**
Reading from a SPDY stream: `Read` hands out a data frame in pieces, keeping the rest for the next
call.  However the caller sizes its buffers, it sees the bytes of the frames in order.
*/
module StreamReads {
  import opened ByteStrings
  import opened Wrappers

  // ---------- A whole sequence of reads ----------

  /** `frames` are those the worker will send, none of them empty; after the last one the stream is closed. */
  datatype Source = Source(unread: seq<Byte>, frames: seq<seq<Byte>>)

  ghost function Left(s: Source): seq<Byte> { s.unread + Concat(s.frames) }

  /** One `Read` into a buffer of `size` bytes: the bytes delivered, or end of stream. */
  function ReadOnce(s: Source, size: nat): (Source, Option<seq<Byte>>) {
    if s.unread == [] && s.frames == [] then (s, None)
    else
      var (from, rest) := if s.unread == [] then (s.frames[0], s.frames[1..]) else (s.unread, s.frames);
      var n := Min(size, |from|);
      (Source(from[n..], rest), Some(from[..n]))
  }

  /** What a sequence of reads delivers, up to the end of the stream. */
  function ReadAll(s: Source, sizes: seq<nat>): (Source, seq<Byte>)
    decreases |sizes|
  {
    if sizes == [] then (s, [])
    else
      var (s', r) := ReadOnce(s, sizes[0]);
      if r == None then (s, [])
      else
        var (t, more) := ReadAll(s', sizes[1..]);
        (t, r.value + more)
  }

  /** Nothing is lost, repeated or reordered. */
  lemma {:induction false} ReadsAreTheFrames(s: Source, sizes: seq<nat>)
    ensures ReadAll(s, sizes).1 + Left(ReadAll(s, sizes).0) == Left(s)
    decreases |sizes|
  {
    if sizes != [] {
      var (s', r) := ReadOnce(s, sizes[0]);
      if r != None {
        assert r.value + Left(s') == Left(s);
        ReadsAreTheFrames(s', sizes[1..]);
        var (t, more) := ReadAll(s', sizes[1..]);
        assert r.value + more + Left(t) == r.value + (more + Left(t));
      } else {
        assert [] + Left(s) == Left(s);
      }
    }
  }

  /** A read reports the end of the stream only when every byte has been delivered. */
  lemma EndIsTheEnd(s: Source, size: nat)
    requires forall f :: f in s.frames ==> f != []
    ensures ReadOnce(s, size).1 == None <==> Left(s) == []
  {
    if s.frames != [] {
      assert s.frames[0] in s.frames;
    }
  }

  // ---------- The method ----------

  class Reader {
    var unread: seq<Byte>     // the empty sequence stands for nil

    constructor ()
      ensures unread == []
    {
      unread := [];
    }

    /** `received` is the outcome of the select: a data frame, or the stream closed. */
    method Read(p: array<Byte>, received: Option<seq<Byte>>, ghost frames: seq<seq<Byte>>)
      returns (n: nat, eof: bool)
      requires unread == [] ==> received == if frames == [] then None else Some(frames[0])
      modifies this, p
      ensures n <= p.Length && p[n..] == old(p[n..])
      ensures var (s', r) := ReadOnce(Source(old(unread), frames), p.Length);
              s'.unread == unread && r == if eof then None else Some(p[..n])
    {
      if unread == [] {
        if received.None? {
          return 0, true;
        }
        unread := received.value;
      }
      n, eof := Min(p.Length, |unread|), false;
      forall i | 0 <= i < n {
        p[i] := unread[i];
      }
      assert p[..n] == unread[..n];
      unread := unread[n..];
    }

    /** A whole frame at a time, refused while part of one is unread. */
    method ReadData(received: Option<seq<Byte>>) returns (data: Option<seq<Byte>>, partial: bool)
      ensures partial <==> unread != []
      ensures data == if partial then None else received
    {
      if unread != [] {
        return None, true;
      }
      return received, false;
    }
  }

  // ---------- Progress ----------

  ghost predicate NoneEmpty(frames: seq<seq<Byte>>) { forall i :: 0 <= i < |frames| ==> frames[i] != [] }

  /** A read delivers as much of what is unread, or of the next frame, as the buffer holds. */
  lemma ReadFills(s: Source, size: nat)
    requires s.unread != [] || s.frames != []
    ensures var from := if s.unread != [] then s.unread else s.frames[0];
            var (t, r) := ReadOnce(s, size);
            && r.Some? && r.value == (if size < |from| then from[..size] else from)
            && t.frames == (if s.unread != [] then s.frames else s.frames[1..])
            && t.unread == (if size < |from| then from[size..] else [])
  {
  }

  /** Reads into buffers that are not empty deliver everything once there are as many of them as bytes. */
  lemma {:induction false} AllIsDelivered(s: Source, sizes: seq<nat>)
    requires NoneEmpty(s.frames) && (forall i :: 0 <= i < |sizes| ==> sizes[i] > 0) && |sizes| >= |Left(s)|
    ensures ReadAll(s, sizes).1 == Left(s)
    decreases |sizes|
  {
    if sizes == [] {
    } else {
      EndIsTheEnd(s, sizes[0]);
      var (t, r) := ReadOnce(s, sizes[0]);
      if r.Some? {
        ReadFills(s, sizes[0]);
        StepLeft(s, sizes[0]);
        AllIsDelivered(t, sizes[1..]);
      }
    }
  }

  lemma StepLeft(s: Source, size: nat)
    requires size > 0 && NoneEmpty(s.frames) && (s.unread != [] || s.frames != [])
    ensures var (t, r) := ReadOnce(s, size);
            r.Some? && r.value + Left(t) == Left(s) && |Left(t)| < |Left(s)| && NoneEmpty(t.frames)
  {
  }
}

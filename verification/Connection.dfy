/**
The connection object: the methods that hand out and check identifiers, keep the stream map and
classify the frames that are read.  Each is proved to be a step of `ConnectionIds` and, for the
reader, of `FrameOrder`.
*/
module Connections {
  import opened ConnectionIds
  import opened Wrappers
  import FrameOrder
  import Pings = ConnectionPings

  class Connection {
    var nextStreamId: nat
    var receivedStreamId: nat
    var pingId: nat
    var goneAway: bool
    var streams: map<nat, nat>          // the priority of every stream present
    var pingChans: map<nat, nat>        // channels of the pings waiting for their echo
    var pingsMade: nat                  // channels made so far; their numbers
    var closes: multiset<nat>           // how often each channel has been closed
    var partitionRoundRobin: nat
    var notified: bool                  // somebody waits on `lastStreamChan`

    ghost function View(): Ids
      reads this
    {
      Ids(nextStreamId, receivedStreamId, pingId, goneAway)
    }

    ghost function PingView(): Pings.Pings
      reads this
    {
      Pings.Pings(pingChans, closes, pingsMade)
    }

    /** The reader's part of a connection of `FrameOrder`. */
    ghost predicate Reads(c: FrameOrder.Conn)
      reads this
    {
      && c.slot == FrameOrder.Empty && c.roundRobin == partitionRoundRobin && c.streams == streams
      && c.received == receivedStreamId && c.goneAway == goneAway
    }

    constructor (server: bool)
      ensures View() == Start(server) && streams == map[] && PingView() == Pings.Start() && partitionRoundRobin == 0 && !notified
    {
      var sid, rid, pid;
      if server {
        sid, rid, pid := 2, 1, 2;
      } else {
        sid, rid, pid := 1, 2, 1;
      }
      nextStreamId, receivedStreamId, pingId, goneAway := sid, rid, pid, false;
      streams, pingChans, partitionRoundRobin, notified := map[], map[], 0, false;
      pingsMade, closes := 0, multiset{};
    }

    method GetNextStreamId() returns (sid: nat)
      modifies this`nextStreamId
      ensures Next(old(View()), OpenStream(sid), View())
    {
      sid := nextStreamId;
      if sid > MAX_STREAM_ID {
        return 0;
      }
      nextStreamId := nextStreamId + 2;
    }

    method ValidateStreamId(rid: nat) returns (ok: bool)
      modifies this`receivedStreamId
      ensures ok <==> ValidStreamId(old(View()), rid)
      ensures receivedStreamId == if ok then rid + 2 else old(receivedStreamId)
    {
      if rid > MAX_STREAM_ID || rid < receivedStreamId {
        return false;
      }
      receivedStreamId := rid + 2;
      return true;
    }

    /** A refused id of a live connection is answered with a reset. */
    method CheckStreamFrame(rid: nat) returns (ok: bool, reset: bool)
      modifies this`receivedStreamId
      ensures Next(old(View()), Syn(rid, ok), View())
      ensures reset <==> !goneAway && !ok
    {
      if goneAway {
        return false, false;
      }
      ok := ValidateStreamId(rid);
      reset := !ok;
    }

    method AddStream(s: nat, priority: nat)
      modifies this`streams
      ensures streams == old(streams)[s := priority]
    {
      streams := streams[s := priority];
    }

    method RemoveStream(s: nat)
      modifies this`streams
      ensures streams == old(streams) - {s}
    {
      streams := streams - {s};
    }

    method GetStreamPriority(s: nat) returns (priority: nat)
      ensures priority == if s in streams then streams[s] else 7
    {
      if s !in streams {
        return 7;
      }
      return streams[s];
    }

    /** One round of the reader, up to the push of the frame: its queue and its priority. */
    method Classify(f: FrameOrder.ReadFrame, ghost c: FrameOrder.Conn)
      returns (pushes: bool, partition: nat, priority: nat, reset: bool)
      requires Reads(c)
      modifies this`streams, this`receivedStreamId, this`partitionRoundRobin
      ensures Reads(FrameOrder.After(c, FrameOrder.Read(f)).(slot := FrameOrder.Empty))
      ensures FrameOrder.After(c, FrameOrder.Read(f)).slot
           == if pushes then FrameOrder.Slot(f, priority, partition) else FrameOrder.Empty
      ensures reset ==> f.kind == FrameOrder.SynStream && !pushes
    {
      pushes, partition, priority, reset := true, 0, 0, false;
      if f.kind == FrameOrder.SynStream {
        pushes, reset := CheckStreamFrame(f.streamId);
        if pushes {
          priority, partition := f.priority, f.streamId % FrameOrder.FRAME_WORKERS;
          AddStream(f.streamId, 0);
        }
      } else if FrameOrder.HasStream(f.kind) {
        priority := GetStreamPriority(f.streamId);
        partition := f.streamId % FrameOrder.FRAME_WORKERS;
      } else {
        priority := if f.kind == FrameOrder.Other then 7 else 0;
        partition := partitionRoundRobin;
        partitionRoundRobin := (partitionRoundRobin + 1) % FrameOrder.FRAME_WORKERS;
      }
    }

    /** The steps of a ping before its frame is written: its id is read, the id advanced under the lock, its channel entered. */
    method ReadPingId() returns (pid: nat)
      ensures Next(View(), PingRead(pid), View())
    {
      pid := pingId;
    }

    method AdvancePingId()
      modifies this`pingId
      ensures Next(old(View()), PingAdvance, View())
    {
      if pingId > PING_WRAP {
        pingId := pingId - PING_WRAP;
      } else {
        pingId := pingId + 2;
      }
    }

    /** The channel of the caller that read `pid`; `ForgetPing` is its deferred delete. */
    method RegisterPing(pid: nat) returns (channel: nat)
      modifies this`pingChans, this`pingsMade
      ensures PingView() == Pings.Next(old(PingView()), Pings.Register(pid)) && channel == old(pingsMade)
    {
      channel := pingsMade;
      pingsMade := pingsMade + 1;
      pingChans := pingChans[pid := channel];
    }

    method ForgetPing(pid: nat)
      modifies this`pingChans
      ensures PingView() == Pings.Next(old(PingView()), Pings.Forget(pid))
    {
      pingChans := pingChans - {pid};
    }

    /** A ping of the peer is sent back; the echo of one's own closes the channel of its caller. */
    method HandlePingFrame(id: nat) returns (echo: bool)
      modifies this`closes
      ensures Next(old(View()), PeerPing(id, echo), View())
      ensures PingView() == if echo then old(PingView()) else Pings.Next(old(PingView()), Pings.Echo(id))
    {
      if pingId % 2 != id % 2 {
        return true;
      }
      if id in pingChans {
        closes := closes + multiset{pingChans[id]};
      }
      return false;
    }

    method NotifyClose()
      modifies this`notified
      ensures notified
    {
      notified := true;
    }

    /**
    The first word of an end starts the shutdown and sends the last stream the peer has seen, or nil
    when it is not there, to whoever asked to be notified; after it there is neither.
    */
    method HandleGoAwayFrame(lastGoodStreamId: nat) returns (shuts: bool, notice: Option<Option<nat>>)
      modifies this`goneAway
      ensures Next(old(View()), PeerGoAway, View()) && shuts == !old(goneAway)
      ensures notice.Some? <==> !old(goneAway) && notified
      ensures notice.Some? ==> notice.value == if lastGoodStreamId in streams then Some(lastGoodStreamId) else None
    {
      if goneAway {
        return false, None;
      }
      goneAway := true;
      notice := None;
      if notified {
        notice := Some(if lastGoodStreamId in streams then Some(lastGoodStreamId) else None);
      }
      return true, notice;
    }

    method Close() returns (goAway: Option<nat>)
      modifies this`goneAway
      ensures Next(old(View()), Event.Close(goAway), View())
    {
      if goneAway {
        return None;
      }
      goneAway := true;
      var lastStreamId := 0;
      if receivedStreamId > 2 {
        lastStreamId := receivedStreamId - 2;
      }
      return Some(lastStreamId);
    }
  }
}

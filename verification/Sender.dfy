/** The sender's reliable path as an object: accepting messages, draining the queue under the window, closing
and failing (mrudp/sender/Sender.cpp). */
module Senders {
  import opened Serial
  import opened Wire
  import opened Packets
  import opened SendQueues
  import opened SendQueueObjects
  import opened RetrierObjects
  import T = Transport
  import Retriers

  // ---- what a drain does -----------------------------------------------------------------------

  datatype Drained = Drained(queue: Queue, sent: seq<seq<Frame>>)

  /** The loop of `processReliableDataQueue`, given room for so many more packets. */
  function Drain(q: Queue, room: nat, z: Zlib): Drained
    decreases room
  {
    if room == 0 then Drained(q, [])
    else match Dequeue(q, z)
      case Nothing(_) => Drained(q, [])
      case Took(rest, frames) =>
        var d := Drain(rest, room - 1, z);
        Drained(d.queue, [frames] + d.sent)
  }

  function Transmits(n: nat): seq<T.Step> {
    if n == 0 then [] else [T.Transmit] + Transmits(n - 1)
  }

  /** Finding nothing to send leaves the queue as it was. */
  lemma NothingUnchanged(q: Queue, z: Zlib)
    requires Dequeue(q, z).Nothing?
    ensures Dequeue(q, z).queue == q && (q.closed || IsEmpty(q))
  {
    if !q.closed && q.packets == [] && q.pending != [] {
      var _ := CoalesceStreamGrew(q, DATA_COMPRESSED, Batch(q.pending, z));
    }
  }

  /** A drain is a run of single transmissions of the transition system, and stops only when the room is
  used up or nothing is left. */
  lemma {:induction false} DrainTransmits(c: T.Config, s: T.Sys, room: nat)
    requires !s.status.Uninitialized?
    ensures var d := Drain(s.queue, room, c.zlib);
            var t := T.Run(c, s, Transmits(|d.sent|));
            && t.packets == s.packets + d.sent && t.queue == d.queue
            && |d.sent| <= room && (|d.sent| < room ==> d.queue.closed || IsEmpty(d.queue))
    decreases room
  {
    hide Dequeue, IsEmpty, T.Next;
    var d := Drain(s.queue, room, c.zlib);
    if room > 0 && Dequeue(s.queue, c.zlib).Took? {
      var frames := Dequeue(s.queue, c.zlib).frames;
      var n := T.Next(c, s, T.Transmit);
      TransmitTakes(c, s);
      DrainTransmits(c, n, room - 1);
      var later := Drain(n.queue, room - 1, c.zlib);
      TransmitsUnfold(c, s, |later.sent|);
      assert s.packets + ([frames] + later.sent) == s.packets + [frames] + later.sent;
    } else {
      assert s.packets + [] == s.packets;
      if room > 0 {
        NothingUnchanged(s.queue, c.zlib);
      }
    }
  }

  lemma TransmitTakes(c: T.Config, s: T.Sys)
    requires !s.status.Uninitialized? && Dequeue(s.queue, c.zlib).Took?
    ensures var n := T.Next(c, s, T.Transmit);
            && n.queue == Dequeue(s.queue, c.zlib).queue && n.packets == s.packets + [Dequeue(s.queue, c.zlib).frames]
            && !n.status.Uninitialized?
  {
    hide Flush, Log;
  }

  lemma TransmitsUnfold(c: T.Config, s: T.Sys, n: nat)
    ensures T.Run(c, s, Transmits(n + 1)) == T.Run(c, T.Next(c, s, T.Transmit), Transmits(n))
  {
    hide T.Next;
    assert Transmits(n + 1) == [T.Transmit] + Transmits(n);
    assert Transmits(n + 1)[1..] == Transmits(n);
  }

  // ---- the object --------------------------------------------------------------------------------

  datatype SendResult = Ok | PacketTooLarge | ConnectionClosed

  /** None of the `count` identifiers from `from` on is in use. */
  ghost predicate Clear(used: set<Id>, from: Id, count: nat) {
    forall id :: id in used ==> (id - from) % 65536 >= count
  }

  class Sender {
    const zlib: Zlib
    var status: T.Status
    var canSend: bool
    const dataQueue: SendQueue
    const retrier: Retrier
    const packetIDs: IdGenerator
    /** The data packets given to the connection, with the frames they carry. */
    var outbox: seq<Packet>
    ghost var carried: seq<seq<Frame>>

    ghost predicate Valid()
      reads this, dataQueue, dataQueue.Repr, retrier, packetIDs
    {
      && dataQueue.Valid() && packetIDs.Valid()
      && this !in dataQueue.Repr && retrier !in dataQueue.Repr && packetIDs !in dataQueue.Repr
      && dataQueue.closed == retrier.closed && Retriers.Armed(retrier.Model())
    }

    /** Packets that still fit the window. */
    ghost function Room(): nat
      reads this, retrier
    {
      if |retrier.window| < retrier.windowSize then retrier.windowSize - |retrier.window| else 0
    }

    /** The identifiers of the next packets are not in use. */
    ghost predicate Unused(count: nat)
      reads this, retrier, packetIDs
    {
      Clear(retrier.window.Keys, Wrap(packetIDs.issued), count)
    }

    /** Every packet given to the connection holds the frames recorded for it, and the queue has let go of it. */
    ghost predicate Carries()
      reads this, dataQueue, outbox, set p | p in outbox :: p.data
    {
      && |outbox| == |carried|
      && (forall i :: 0 <= i < |outbox| ==> dataQueue.Holds(outbox[i], carried[i]))
      && (forall p :: p in outbox ==> p !in dataQueue.Repr && p.data !in dataQueue.Repr)
    }

    constructor (zlib: Zlib)
      ensures Carries() && carried == []
      ensures Valid() && dataQueue.Model() == Empty && outbox == [] && status.Uninitialized?
      ensures this.zlib == zlib && fresh(dataQueue.Repr) && fresh(retrier) && fresh(packetIDs)
      ensures retrier.Model() == Retriers.Start && !canSend
    {
      this.zlib := zlib;
      status, canSend := T.Uninitialized, false;
      outbox, carried := [], [];
      dataQueue := new SendQueue();
      retrier := new Retrier();
      packetIDs := new IdGenerator();
    }

    /** `send`, up to the scheduling that follows it; the mode is that of the options at the time. */
    method Accept(data: Bytes, mode: Mode) returns (r: SendResult)
      requires Valid()
      modifies dataQueue.Repr
      ensures Valid() && fresh(dataQueue.Repr - old(dataQueue.Repr))
      ensures r == ConnectionClosed <==> status == T.Closed
      ensures r == PacketTooLarge <==> status != T.Closed && |data| > 1431 && (mode == Separate || mode == PerPacket)
      ensures var refused := T.Refuses(status, data, mode);
              && (r == Ok <==> !refused)
              && dataQueue.Model() ==
                 if refused then old(dataQueue.Model()) else Enqueue(old(dataQueue.Model()), DATA, data, mode)
    {
      if status.Closed? {
        return ConnectionClosed;
      }
      if |data| > MAX_PACKET_DATA_SIZE && !mode.Stream? && !mode.StreamCompressed? {
        return PacketTooLarge;
      }
      dataQueue.Enqueue(DATA, data, mode);
      assert dataQueue.closed == old(dataQueue.closed) by { EnqueueLeaves(old(dataQueue.Model()), DATA, data, mode); }
      return Ok;
    }

    /** `close`: the close frame goes into the queue as a frame of its own. */
    method CloseGracefully()
      requires Valid()
      modifies this`status, dataQueue.Repr
      ensures Valid() && status.Closed? && fresh(dataQueue.Repr - old(dataQueue.Repr))
      ensures dataQueue.Model() ==
              if old(status).Closed? then old(dataQueue.Model())
                  else Enqueue(old(dataQueue.Model()), CLOSE_WRITE, [], PerPacket)
    {
      if !status.Closed? {
        dataQueue.Enqueue(CLOSE_WRITE, [], PerPacket);
        assert dataQueue.closed == old(dataQueue.closed) by {
          EnqueueLeaves(old(dataQueue.Model()), CLOSE_WRITE, [], PerPacket);
        }
        status := T.Closed;
      }
    }

    method Fail()
      requires Valid()
      modifies this`status, dataQueue.Repr, retrier
      ensures Valid() && status.Closed? && fresh(dataQueue.Repr - old(dataQueue.Repr))
      ensures dataQueue.Model() == Close(old(dataQueue.Model()))
      ensures retrier.Model() == Retriers.Close(old(retrier.Model()))
    {
      status := T.Closed;
      retrier.CloseRetrier();
      dataQueue.Close();
    }

    /** `sendReliably` of a packet without frames, such as CLOSE_READ: the window does not hold it back. */
    method SendControl(typ: Byte, now: int) returns (packet: Packet)
      requires Valid() && Wrap(packetIDs.issued) !in retrier.window
      modifies retrier, packetIDs
      ensures Valid() && fresh(packet) && packet.typ == typ && packet.id == Wrap(old(packetIDs.issued))
      ensures retrier.Model() == Retriers.Send(old(retrier.Model()), packet.id, false, false, now)
      ensures retrier.closed == old(retrier.closed)
      ensures |retrier.window| == old(|retrier.window|) + (if retrier.closed then 0 else 1)
    {
      hide Retriers.Armed, Retriers.Send, Wrap, SendQueue.Valid;
      packet := new Packet();
      ghost var r := retrier.Model();
      var id := packetIDs.NextID();
      packet.typ, packet.id := typ, id;
      Retriers.SendArmed(r, id, false, false, now);
      SendKeys(r, id, false, now);
      retrier.SendReliably(id, false, false, now);
    }

    /** `sendReliably` of a data packet: number it, keep it for retries, send it. */
    method SendReliably(packet: Packet, now: int)
      requires packetIDs.Valid() && Retriers.Armed(retrier.Model()) && !retrier.closed
      requires Room() > 0 && Unused(Room())
      modifies this`outbox, retrier, packetIDs, packet`typ, packet`id
      ensures packetIDs.Valid() && Retriers.Armed(retrier.Model()) && !retrier.closed
      ensures Room() == old(Room()) - 1 && Unused(Room())
      ensures outbox == old(outbox) + [packet] && packet.typ == DATA_RELIABLE
      ensures packet.id == Wrap(old(packetIDs.issued))
      ensures |retrier.window| == old(|retrier.window|) + 1 && retrier.windowSize == old(retrier.windowSize)
      ensures retrier.Model() == Retriers.Send(old(retrier.Model()), packet.id, true, false, now)
    {
      hide Retriers.Armed, Retriers.Send, Clear, Wrap;
      WrapSucc(packetIDs.issued);
      var id := packetIDs.NextID();
      packet.typ, packet.id := DATA_RELIABLE, id;
      ghost var r := retrier.Model();
      SendFills(r, id, now, Room());
      Retriers.SendArmed(r, id, true, false, now);
      retrier.SendReliably(id, true, false, now);
      outbox := outbox + [packet];
    }

    /** One turn of the drain loop, the window having room. */
    method SendOne(now: int) returns (sent: bool)
      requires Valid() && Carries() && Room() > 0 && Unused(Room())
      modifies this`outbox, this`carried, dataQueue.Repr, retrier, packetIDs
      ensures Valid() && fresh(dataQueue.Repr - old(dataQueue.Repr))
      ensures Carries() && old(outbox) <= outbox
      ensures var d := Dequeue(old(dataQueue.Model()), zlib);
              && (sent <==> d.Took?)
              && (sent ==>
                    dataQueue.Model() == d.queue && carried == old(carried) + [d.frames] && Room() == old(Room()) - 1)
              && (!sent ==>
                    dataQueue.Model() == old(dataQueue.Model()) && carried == old(carried) && Room() == old(Room()))
      ensures Unused(Room())
      ensures |retrier.window| == old(|retrier.window|) + (if sent then 1 else 0)
      ensures |outbox| == old(|outbox|) + (if sent then 1 else 0)
      ensures retrier.windowSize == old(retrier.windowSize)
    {
      hide Retriers.Armed, Retriers.Send, SendQueue.Valid, Flush, Clear, Wrap, EncodeFrames;
      ghost var q := dataQueue.Model();
      var packet := dataQueue.Dequeue(zlib);
      assert this !in dataQueue.Repr && retrier !in dataQueue.Repr && packetIDs !in dataQueue.Repr;
      if packet == null {
        NothingUnchanged(q, zlib);
        return false;
      }
      TookOpen(q, zlib);
      carried := carried + [Dequeue(q, zlib).frames];
      SendReliably(packet, now);
      return true;
    }

    /** The loop of `processReliableDataQueue`: sends until the window is full or nothing is left. */
    method DrainLoop(now: int)
      requires Valid() && Carries() && Unused(Room())
      modifies this`outbox, this`carried, dataQueue.Repr, retrier, packetIDs
      ensures Valid() && Carries() && old(outbox) <= outbox
      ensures var d := Drain(old(dataQueue.Model()), old(Room()), zlib);
              dataQueue.Model() == d.queue && carried == old(carried) + d.sent
      ensures |outbox| - old(|outbox|) == |retrier.window| - old(|retrier.window|) >= 0
      ensures |outbox| > old(|outbox|) ==> |retrier.window| <= retrier.windowSize
      ensures |retrier.window| >= retrier.windowSize || dataQueue.closed ||
              (dataQueue.frames == [] && dataQueue.pending == [])
    {
      hide Valid, Carries, Unused, Dequeue, Drain;
      ghost var goal := Drain(dataQueue.Model(), Room(), zlib);
      var sentPacket := true;
      while sentPacket
        invariant Valid() && Unused(Room()) && fresh(dataQueue.Repr - old(dataQueue.Repr))
        invariant Carries() && old(outbox) <= outbox && retrier.windowSize == old(retrier.windowSize)
        invariant |outbox| - old(|outbox|) == |retrier.window| - old(|retrier.window|) >= 0
        invariant |outbox| > old(|outbox|) ==> |retrier.window| <= retrier.windowSize
        invariant Drain(dataQueue.Model(), Room(), zlib).queue == goal.queue
        invariant carried + Drain(dataQueue.Model(), Room(), zlib).sent == old(carried) + goal.sent
        invariant !sentPacket ==> Room() == 0 || Dequeue(dataQueue.Model(), zlib).Nothing?
        decreases Room(), sentPacket
      {
        sentPacket := false;
        if |retrier.window| < retrier.windowSize {
          DrainUnfold(dataQueue.Model(), Room(), zlib);
          ghost var before := carried;
          ghost var frames := if Dequeue(dataQueue.Model(), zlib).Took? then Dequeue(dataQueue.Model(), zlib).frames
              else [];
          sentPacket := SendOne(now);
          ghost var later := Drain(dataQueue.Model(), Room(), zlib).sent;
          assert before + ([frames] + later) == before + [frames] + later;
        }
      }
      DrainUnfold(dataQueue.Model(), Room(), zlib);
      if |retrier.window| < retrier.windowSize {
        NothingUnchanged(dataQueue.Model(), zlib);
      }
      assert carried + [] == carried;
    }

    /** `processReliableDataQueue`: nothing is sent before the connection is ready. */
    method ProcessReliableDataQueue(now: int)
      requires Valid() && Carries() && Unused(Room())
      modifies this`outbox, this`carried, dataQueue.Repr, retrier, packetIDs
      ensures Valid() && Carries() && old(outbox) <= outbox
      ensures var ready := !old(status).Uninitialized? && old(canSend);
              var d := Drain(old(dataQueue.Model()), if ready then old(Room()) else 0, zlib);
              dataQueue.Model() == d.queue && carried == old(carried) + d.sent
      ensures old(status).Uninitialized? || !old(canSend) ==> outbox == old(outbox)
      ensures !old(status).Uninitialized? && old(canSend) ==>
                |retrier.window| >= retrier.windowSize || dataQueue.closed ||
                (dataQueue.frames == [] && dataQueue.pending == [])
    {
      assert carried + [] == carried;
      if status.Uninitialized? || !canSend {
        return;
      }
      DrainLoop(now);
    }
  }

  lemma DrainUnfold(q: Queue, room: nat, z: Zlib)
    ensures room == 0 || Dequeue(q, z).Nothing? ==> Drain(q, room, z) == Drained(q, [])
    ensures room > 0 && Dequeue(q, z).Took? ==>
              var d := Drain(Dequeue(q, z).queue, room - 1, z);
              Drain(q, room, z).queue == d.queue && Drain(q, room, z).sent == [Dequeue(q, z).frames] + d.sent
  {
  }

  lemma TookOpen(q: Queue, z: Zlib)
    requires Dequeue(q, z).Took?
    ensures !q.closed && !Dequeue(q, z).queue.closed
  {
    if q.packets == [] && q.pending != [] {
      var _ := CoalesceStreamGrew(q, DATA_COMPRESSED, Batch(q.pending, z));
    }
  }

  lemma ClearStep(used: set<Id>, id: Id, count: nat)
    requires Clear(used, id, count) && 0 < count < 65536
    ensures id !in used && Clear(used + {id}, Wrap(id + 1), count - 1)
  {
    assert (id - id) % 65536 == 0;
    forall j | j in used + {id}
      ensures (j - Wrap(id + 1)) % 65536 >= count - 1
    {
      DistanceDown(j, id);
    }
  }

  lemma SendKeys(r: Retriers.State, id: Id, isData: bool, now: int)
    requires id !in r.window
    ensures var t := Retriers.Send(r, id, isData, false, now);
            && t.windowSize == r.windowSize && t.closed == r.closed
            && t.window.Keys == r.window.Keys + (if r.closed then {} else {id})
            && |t.window| == |r.window| + (if r.closed then 0 else 1)
  {
    var placed := r.(window := r.window[id := Retriers.Retry(r.nextKey, isData, false, 0, now, 0)]);
    Retriers.RecalculateCounts(placed);
    var t := Retriers.Send(r, id, isData, false, now);
    assert t.window.Keys == r.window.Keys + (if r.closed then {} else {id});
    assert |t.window| == |t.window.Keys| && |r.window| == |r.window.Keys|;
  }

  /** One more data packet takes one place in the window, and leaves the following identifiers unused. */
  lemma SendFills(r: Retriers.State, id: Id, now: int, room: nat)
    requires Retriers.Armed(r) && !r.closed && 0 < room == r.windowSize - |r.window|
    requires Clear(r.window.Keys, id, room)
    ensures id !in r.window
    ensures var t := Retriers.Send(r, id, true, false, now);
            t.windowSize == r.windowSize && |t.window| == |r.window| + 1 && !t.closed &&
                Clear(t.window.Keys, Wrap(id + 1), room - 1)
  {
    hide Clear, Wrap, Retriers.Send;
    Rtts.WindowBounds(r.rtt);
    ClearStep(r.window.Keys, id, room);
    SendKeys(r, id, true, now);
  }

  lemma DistanceDown(j: Id, id: Id)
    ensures (j - Wrap(id + 1)) % 65536 == if j == id then 65535 else (j - id) % 65536 - 1
  {
  }
}

/** What the receiver does with a packet: acknowledge it, put its frames in order, hand the data over, notice
the close frame (mrudp/receiver/Receiver.cpp). */
module Receivers {
  import opened Serial
  import opened Wire
  import opened SendQueues
  import opened Acks
  import C = Compression
  import D = Delivery
  import R = ReceiveQueues
  import T = Transport

  predicate RequiresAck(typ: Byte) {
    typ == DATA_RELIABLE || typ == PROBE || typ == CLOSE_READ
  }

  /** What processing frames leads to: `acc` holds the compression buffer and all messages handed to the
  application, `heard` the acknowledgements given to the sender, `stops` counts the CLOSE_READ packets sent. */
  datatype Seen = Seen(status: T.Status, acc: C.Acc, heard: seq<Ack>, stops: nat)

  datatype State = State(seen: Seen, rq: R.State, acks: seq<Id>, canSend: bool)

  const Start := State(Seen(T.Uninitialized, C.Idle, [], 0), R.Start, [], false)

  /** `close`. */
  function Shut(s: Seen, canSend: bool): Seen {
    if s.status.Closed? then s else s.(status := T.Closed, stops := s.stops + if canSend then 1 else 0)
  }

  /** `processReceived`. An acknowledgement frame that is too short is left out. */
  function Process(s: Seen, f: Frame, reliable: bool, canSend: bool, z: Zlib): Seen {
    if f.typ == ACK_FRAME then (if |f.data| >= 4 then s.(heard := s.heard + [DecodeAck(f.data)]) else s)
    else if f.typ == DATA then s.(acc := s.acc.(messages := s.acc.messages + [f.data]))
    else if f.typ == DATA_COMPRESSED then s.(acc := C.Absorb(s.acc, f, z))
    else if f.typ == CLOSE_WRITE && reliable then Shut(s, canSend)
    else s
  }

  function ProcessAll(s: Seen, fs: seq<Frame>, reliable: bool, canSend: bool, z: Zlib): Seen
    decreases |fs|
  {
    if fs == [] then s else ProcessAll(Process(s, fs[0], reliable, canSend, z), fs[1..], reliable, canSend, z)
  }

  /** The frames delivered since. */
  function Latest(before: R.State, after: R.State): seq<Frame> {
    if |before.delivered| <= |after.delivered| then after.delivered[|before.delivered|..] else []
  }

  /** The reorder queue has moved on, and its processor has run on what it delivered. */
  function Moved(s: State, rq: R.State, z: Zlib): State {
    s.(seen := ProcessAll(s.seen, Latest(s.rq, rq), true, s.canSend, z), rq := rq)
  }

  /** `onReceive`. */
  function OnReceive(s: State, typ: Byte, id: Id, body: Bytes, z: Zlib): State {
    if !s.seen.status.Open? then s
    else
      var t := if RequiresAck(typ) then s.(acks := s.acks + [id]) else s;
      if typ == DATA_RELIABLE then Moved(t, R.ReceiveAll(t.rq, Walk(body)), z)
      else if typ == DATA_UNRELIABLE then t.(seen := ProcessAll(t.seen, Walk(body), false, t.canSend, z))
      else t
  }

  /** `open`: by then the peer's id is known. */
  function Open(s: State, z: Zlib): State {
    var t := Moved(s.(canSend := true), R.Drain(s.rq), z);
    if t.seen.status.Uninitialized? then t.(seen := t.seen.(status := T.Open)) else t
  }

  // ---- what frames do --------------------------------------------------------------------------------

  ghost predicate HasClose(fs: seq<Frame>) {
    exists i :: 0 <= i < |fs| && fs[i].typ == CLOSE_WRITE
  }

  lemma HasCloseUncons(fs: seq<Frame>)
    requires fs != []
    ensures HasClose(fs) <==> fs[0].typ == CLOSE_WRITE || HasClose(fs[1..])
  {
    assert forall i :: 0 <= i < |fs[1..]| ==> fs[1..][i] == fs[i + 1];
    if i :| 0 <= i < |fs| && fs[i].typ == CLOSE_WRITE {
      assert i > 0 ==> fs[1..][i - 1].typ == CLOSE_WRITE;
    }
  }

  /** Frames close the receiver exactly when they come reliably and a close frame is among them, and the peer is
  told once. */
  lemma {:induction false} ClosesExact(s: Seen, fs: seq<Frame>, reliable: bool, canSend: bool, z: Zlib)
    ensures var t := ProcessAll(s, fs, reliable, canSend, z);
            && t.status == (if reliable && HasClose(fs) then T.Closed else s.status)
            && t.stops == s.stops + (if t.status != s.status && canSend then 1 else 0)
    decreases |fs|
  {
    if fs != [] {
      hide C.Absorb, HasClose, DecodeAck;
      HasCloseUncons(fs);
      ClosesExact(Process(s, fs[0], reliable, canSend, z), fs[1..], reliable, canSend, z);
    }
  }

  /** The application's share of the frames: plain data as it comes, compressed data batch by batch. */
  function Taken(acc: C.Acc, fs: seq<Frame>, z: Zlib): C.Acc
    decreases |fs|
  {
    if fs == [] then acc
    else if fs[0].typ == DATA then Taken(acc.(messages := acc.messages + [fs[0].data]), fs[1..], z)
    else if fs[0].typ == DATA_COMPRESSED then Taken(C.Absorb(acc, fs[0], z), fs[1..], z)
    else Taken(acc, fs[1..], z)
  }

  lemma {:induction false} ProcessTakes(s: Seen, fs: seq<Frame>, reliable: bool, canSend: bool, z: Zlib)
    ensures ProcessAll(s, fs, reliable, canSend, z).acc == Taken(s.acc, fs, z)
    decreases |fs|
  {
    if fs != [] {
      hide C.Absorb, DecodeAck;
      ProcessTakes(Process(s, fs[0], reliable, canSend, z), fs[1..], reliable, canSend, z);
    }
  }

  /** The sender hears exactly the acknowledgements among the frames, in order. */
  lemma {:induction false} ProcessHears(s: Seen, fs: seq<Frame>, reliable: bool, canSend: bool, z: Zlib)
    ensures ProcessAll(s, fs, reliable, canSend, z).heard == s.heard + Read(fs)
    decreases |fs|
  {
    if fs != [] {
      hide C.Absorb, DecodeAck;
      var t := Process(s, fs[0], reliable, canSend, z);
      var one := if fs[0].typ == ACK_FRAME && |fs[0].data| >= 4 then [DecodeAck(fs[0].data)] else [];
      assert t.heard == s.heard + one;
      ProcessHears(t, fs[1..], reliable, canSend, z);
      Assoc(s.heard, one, Read(fs[1..]));
    }
  }

  /** An open receiver acknowledges reliable data, probes and CLOSE_READ, each as it comes; a closed one, or one not
  yet open, nothing. Other packets than data change nothing else. */
  lemma AcknowledgesExact(s: State, typ: Byte, id: Id, body: Bytes, z: Zlib)
    ensures var t := OnReceive(s, typ, id, body, z);
            && t.acks == s.acks +
               (if s.seen.status == T.Open && typ in {DATA_RELIABLE, PROBE, CLOSE_READ} then [id] else [])
            && (typ != DATA_RELIABLE && typ != DATA_UNRELIABLE ==> t == s.(acks := t.acks))
            && (typ != DATA_RELIABLE ==> t.rq == s.rq)
  {
    hide R.ReceiveAll, ProcessAll, Walk;
    assert s.acks + [] == s.acks;
  }

  /** Unreliable packets that arrive one after the other. */
  function ReceiveEach(s: State, packets: seq<seq<Frame>>, id: Id, z: Zlib): State
    decreases |packets|
  {
    if packets == [] then s
    else ReceiveEach(OnReceive(s, DATA_UNRELIABLE, id, EncodeFrames(packets[0]), z), packets[1..], id, z)
  }

  lemma {:induction false} PacketsAreHeard(s: State, packets: seq<seq<Frame>>, id: Id, z: Zlib)
    requires s.seen.status.Open?
    ensures var t := ReceiveEach(s, packets, id, z);
            && t.seen.heard == s.seen.heard + FromPackets(packets)
            && t.seen.status == s.seen.status && t.rq == s.rq && t.acks == s.acks
    decreases |packets|
  {
    if packets != [] {
      hide ProcessAll, Walk, EncodeFrames, Read, HasClose;
      var fs := Walk(EncodeFrames(packets[0]));
      ProcessHears(s.seen, fs, false, s.canSend, z);
      ClosesExact(s.seen, fs, false, s.canSend, z);
      var t := OnReceive(s, DATA_UNRELIABLE, id, EncodeFrames(packets[0]), z);
      PacketsAreHeard(t, packets[1..], id, z);
      Assoc(s.seen.heard, Read(fs), FromPackets(packets[1..]));
    }
  }

  /** From one end to the other: the acknowledgements collected at the receiver of the data reach its sender through
  frames, packets and bytes, each once and in order, and change nothing else there but what it has heard. */
  lemma AcksAreHeard(s: State, acks: seq<Ack>, id: Id, z: Zlib)
    requires s.seen.status.Open?
    ensures var t := ReceiveEach(s, QueueAll(Empty, acks).packets, id, z);
            && t.seen.heard == s.seen.heard + acks
            && t.seen.status == s.seen.status && t.rq == s.rq && t.acks == s.acks
  {
    hide QueueAll, ReceiveEach, FromPackets;
    AcksRoundTrip(acks);
    PacketsAreHeard(s, QueueAll(Empty, acks).packets, id, z);
  }

  lemma {:induction false} TakenAppend(acc: C.Acc, fs: seq<Frame>, gs: seq<Frame>, z: Zlib)
    ensures Taken(acc, fs + gs, z) == Taken(Taken(acc, fs, z), gs, z)
    decreases |fs|
  {
    if fs == [] {
      assert fs + gs == gs;
    } else {
      hide C.Absorb;
      assert (fs + gs)[0] == fs[0] && (fs + gs)[1..] == fs[1..] + gs;
      var next := if fs[0].typ == DATA then acc.(messages := acc.messages + [fs[0].data])
                  else if fs[0].typ == DATA_COMPRESSED then C.Absorb(acc, fs[0], z) else acc;
      TakenAppend(next, fs[1..], gs, z);
    }
  }

  /** Without compressed frames the application is handed the data frames one by one. */
  lemma {:induction false} HandsPlain(acc: C.Acc, fs: seq<Frame>, z: Zlib)
    requires forall i :: 0 <= i < |fs| ==> fs[i].typ != DATA_COMPRESSED
    ensures Taken(acc, fs, z) == acc.(messages := acc.messages + D.Handed(fs))
    decreases |fs|
  {
    if fs != [] {
      var plain := if fs[0].typ == DATA then [fs[0].data] else [];
      HandsPlain(acc.(messages := acc.messages + plain), fs[1..], z);
      assert acc.messages + [] == acc.messages;
      Assoc(acc.messages, plain, D.Handed(fs[1..]));
    }
  }

  /** Without plain data frames it is handed the messages of the compressed stream. */
  lemma {:induction false} HandsCompressed(acc: C.Acc, fs: seq<Frame>, z: Zlib)
    requires D.NoPlainData(fs)
    ensures Taken(acc, fs, z) == C.AbsorbAll(acc, fs, z)
    decreases |fs|
  {
    if fs != [] {
      var next := C.Absorb(acc, fs[0], z);
      assert fs[0].typ != DATA_COMPRESSED ==> next == acc;
      hide C.Absorb;
      HandsCompressed(next, fs[1..], z);
    }
  }

  // ---- along a run -----------------------------------------------------------------------------------

  /** The receiver's part in a step of the transition system. */
  function Follow(c: T.Config, s: T.Sys, r: State, step: T.Step): State {
    match step
    case Deliver(k) =>
      if k < |s.packets| then OnReceive(r, DATA_RELIABLE, Wrap(k), EncodeFrames(s.packets[k]), c.zlib) else r
    case OpenReceiver => if s.rstatus.Uninitialized? then Open(r, c.zlib) else r
    case CloseReceiver => r.(seen := Shut(r.seen, r.canSend))
    case _ => r
  }

  function FollowAll(c: T.Config, s: T.Sys, r: State, steps: seq<T.Step>): State
    decreases |steps|
  {
    if steps == [] then r else FollowAll(c, T.Next(c, s, steps[0]), Follow(c, s, r, steps[0]), steps[1..])
  }

  /** The receiver is where the transition system says, has acknowledged what that says, and the application holds
  what the delivered frames carry. */
  ghost predicate Mirrors(c: T.Config, s: T.Sys, r: State) {
    && r.seen.status == s.rstatus && r.rq == s.rq
    && r.seen.acc == Taken(C.Idle, s.rq.delivered, c.zlib)
    && (forall k :: k in s.acks ==> Wrap(k) in r.acks)
    && r.seen.stops <= 1 && (r.seen.stops > 0 ==> r.seen.status.Closed?)
  }

  /** Moving the reorder queue on keeps the application's share in step. */
  lemma MovedTakes(r: State, rq: R.State, z: Zlib)
    requires r.seen.acc == Taken(C.Idle, r.rq.delivered, z) && r.rq.delivered <= rq.delivered
    ensures var t := Moved(r, rq, z);
            && t.seen.acc == Taken(C.Idle, rq.delivered, z)
            && t.seen.status == (if HasClose(rq.delivered[|r.rq.delivered|..]) then T.Closed else r.seen.status)
            && t.seen.stops == r.seen.stops + (if t.seen.status != r.seen.status && r.canSend then 1 else 0)
  {
    hide ProcessAll, Taken, HasClose;
    var latest := rq.delivered[|r.rq.delivered|..];
    ProcessTakes(r.seen, latest, true, r.canSend, z);
    ClosesExact(r.seen, latest, true, r.canSend, z);
    TakenAppend(C.Idle, r.rq.delivered, latest, z);
    assert rq.delivered == r.rq.delivered + latest;
  }

  lemma CloseAmong(fs: seq<Frame>, n: nat)
    requires n <= |fs|
    ensures HasClose(fs[n..]) <==> exists i :: n <= i < |fs| && fs[i].typ == CLOSE_WRITE
  {
    var gs := fs[n..];
    assert forall i :: 0 <= i < |gs| ==> gs[i] == fs[n + i];
    if i :| n <= i < |fs| && fs[i].typ == CLOSE_WRITE {
      assert gs[i - n].typ == CLOSE_WRITE;
    }
  }

  /** Delivering packet `k` in the transition system is what the receiver does with that packet's bytes. */
  lemma DeliverMirrors(c: T.Config, s: T.Sys, r: State, k: nat)
    requires T.Inv(s) && Mirrors(c, s, r) && k < |s.packets|
    requires R.InReach(T.First(s.packets, k), T.First(s.packets, k + 1), R.Expected(s.rq))
    ensures var u := OnReceive(r, DATA_RELIABLE, Wrap(k), EncodeFrames(s.packets[k]), c.zlib);
            Mirrors(c, T.DeliverStep(s, k), u) && (s.rstatus.Open? ==> u.acks == r.acks + [Wrap(k)])
  {
    T.DeliverKeeps(s, k);
    hide R.ReceiveAll, Walk, T.Inv, ProcessAll, Taken, HasClose;
    if s.rstatus.Open? {
      var t := T.DeliverStep(s, k);
      MovedTakes(r.(acks := r.acks + [Wrap(k)]), t.rq, c.zlib);
      CloseAmong(t.rq.delivered, |s.rq.delivered|);
    }
  }

  lemma OpenMirrors(c: T.Config, s: T.Sys, r: State)
    requires T.Inv(s) && Mirrors(c, s, r)
    ensures Mirrors(c, T.Next(c, s, T.OpenReceiver), Follow(c, s, r, T.OpenReceiver))
  {
    if s.rstatus.Uninitialized? {
      assert R.Drain(s.rq) == s.rq;
      hide R.Drain, Taken;
      assert s.rq.delivered[|s.rq.delivered|..] == [];
      assert ProcessAll(r.seen, [], true, true, c.zlib) == r.seen;
    }
  }

  lemma NextMirrors(c: T.Config, s: T.Sys, r: State, step: T.Step)
    requires T.Inv(s) && T.Allowed(c, s, step) && Mirrors(c, s, r)
    ensures Mirrors(c, T.Next(c, s, step), Follow(c, s, r, step))
  {
    hide T.Inv, Taken, OnReceive, Open, T.DeliverStep, R.Drain, Log, Flush, Enqueue, Dequeue;
    match step {
      case Deliver(k) =>
        if k < |s.packets| {
          DeliverMirrors(c, s, r, k);
        } else {
          NoSuchPacket(s, k);
        }
      case OpenReceiver => OpenMirrors(c, s, r);
      case _ =>
    }
  }

  lemma NoSuchPacket(s: T.Sys, k: nat)
    requires k >= |s.packets|
    ensures T.DeliverStep(s, k) == s
  {
  }

  /** In every run the receiver is where the transition system says, and the application holds exactly what the
  frames delivered so far carry. */
  lemma {:induction false} RunMirrors(c: T.Config, s: T.Sys, r: State, steps: seq<T.Step>)
    requires T.Inv(s) && T.AllowedRun(c, s, steps) && Mirrors(c, s, r)
    ensures Mirrors(c, T.Run(c, s, steps), FollowAll(c, s, r, steps))
    decreases |steps|
  {
    hide T.Inv, T.Next, T.Allowed, Mirrors, Follow;
    if steps != [] {
      NextMirrors(c, s, r, steps[0]);
      T.NextKeeps(c, s, steps[0]);
      RunMirrors(c, T.Next(c, s, steps[0]), Follow(c, s, r, steps[0]), steps[1..]);
    }
  }

  /** What the application has been handed, byte by byte as the packets came in: without compression a prefix of
  the accepted bytes, without streaming a prefix of the accepted messages; with compression a prefix of the
  accepted messages. And the peer is told at most once that nobody reads any more. */
  lemma ApplicationIsHanded(c: T.Config, steps: seq<T.Step>)
    requires T.AllowedRun(c, T.Init, steps)
    ensures var s := T.Run(c, T.Init, steps);
            var r := FollowAll(c, T.Init, Start, steps);
            && r.seen.stops <= 1
            && (T.Uncompressed(steps) ==>
                  && r.seen.acc.messages == D.Handed(s.rq.delivered)
                  && Concat(r.seen.acc.messages) <= Concat(s.accepted)
                  && (D.Unstreamed(steps) ==> r.seen.acc.messages <= s.accepted))
            && (D.Compressed(steps) && Lawful(c.zlib) ==>
                  r.seen.acc == D.Decoded(c, s.rq.delivered) && r.seen.acc.messages <= s.accepted)
  {
    T.InitInv();
    StartMirrors(c);
    RunMirrors(c, T.Init, Start, steps);
    hide T.Run, FollowAll, T.AllowedRun, D.Handed, Taken, Concat, C.AbsorbAll;
    var s := T.Run(c, T.Init, steps);
    if T.Uncompressed(steps) {
      D.HandsOverAPrefix(c, steps);
      D.NoBatches(c, steps);
      HandsPlain(C.Idle, s.rq.delivered, c.zlib);
      assert [] + D.Handed(s.rq.delivered) == D.Handed(s.rq.delivered);
    }
    if D.Compressed(steps) && Lawful(c.zlib) {
      D.CompressedRoundTrip(c, steps);
      D.OnlyBatches(c, steps);
      HandsCompressed(C.Idle, s.rq.delivered, c.zlib);
    }
  }

  lemma StartMirrors(c: T.Config)
    ensures Mirrors(c, T.Init, Start)
  {
  }
}

/** The receiver as an object over its two queues. */
module ReceiverObjects {
  import opened Serial
  import opened Wire
  import opened Packets
  import opened SendQueues
  import opened ReceiveQueueObjects
  import opened CompressedReceivers
  import opened Acks
  import opened Spec = Receivers

  class Receiver {
    var status: T.Status
    var canSend: bool
    const receiveQueue: ReceiveQueue
    const compressed: CompressedReceiver
    /** The acknowledgements asked for and received, and the CLOSE_READ packets given to the sender. */
    var acks: seq<Id>
    var heard: seq<Ack>
    var stops: nat

    ghost function Look(): Seen
      reads this, compressed
    {
      Seen(status, compressed.Model(), heard, stops)
    }

    ghost function Model(): State
      reads this, receiveQueue, compressed
    {
      State(Look(), receiveQueue.Model(), acks, canSend)
    }

    constructor (zlib: Zlib)
      ensures Model() == Start && compressed.zlib == zlib && fresh(receiveQueue) && fresh(compressed)
    {
      status, canSend, acks, heard, stops := T.Uninitialized, false, [], [], 0;
      receiveQueue := new ReceiveQueue();
      compressed := new CompressedReceiver(zlib);
    }

    method Close()
      modifies this`status, this`stops
      ensures Look() == Shut(old(Look()), canSend)
    {
      if !status.Closed? {
        if canSend {
          stops := stops + 1;
        }
        status := T.Closed;
      }
    }

    method ProcessReceived(f: Frame, reliable: bool)
      modifies this`status, this`stops, this`heard, compressed
      ensures Look() == Process(old(Look()), f, reliable, canSend, compressed.zlib)
      ensures heard == old(heard) + Read([f])
      ensures f.typ == DATA ==> compressed.received == old(compressed.received) + [f.data]
      ensures status == if f.typ == CLOSE_WRITE && reliable then T.Closed else old(status)
    {
      ReadSingle(f);
      if f.typ == ACK_FRAME {
        if |f.data| >= 4 {
          heard := heard + [DecodeAck(f.data)];
        }
      } else if f.typ == DATA {
        compressed.received := compressed.received + [f.data];
      } else if f.typ == DATA_COMPRESSED {
        compressed.ProcessCompressed(f);
      } else if f.typ == CLOSE_WRITE && reliable {
        Close();
      }
    }

    /** The processor runs on the frames of a queue, in order. */
    method ProcessFrames(fs: seq<Frame>, reliable: bool)
      modifies this`status, this`stops, this`heard, compressed
      ensures Look() == ProcessAll(old(Look()), fs, reliable, canSend, compressed.zlib)
      ensures heard == old(heard) + Read(fs)
    {
      hide Process, Read;
      ProcessHears(Look(), fs, reliable, canSend, compressed.zlib);
      var i := 0;
      assert fs[0..] == fs;
      while i < |fs|
        invariant 0 <= i <= |fs|
        invariant ProcessAll(Look(), fs[i..], reliable, canSend, compressed.zlib) ==
                  ProcessAll(old(Look()), fs, reliable, canSend, compressed.zlib)
      {
        assert fs[i..][1..] == fs[i + 1..];
        ProcessReceived(fs[i], reliable);
        i := i + 1;
      }
    }

    /** The processor of the reorder queue runs on what that has just delivered. */
    method ProcessLatest(before: nat, ghost was: State)
      requires was == Model().(rq := was.rq) && before == |was.rq.delivered|
      modifies this`status, this`stops, this`heard, compressed
      ensures Model() == Moved(was, receiveQueue.Model(), compressed.zlib)
    {
      hide ProcessAll;
      if before <= |receiveQueue.processed| {
        ProcessFrames(receiveQueue.processed[before..], true);
      } else {
        ProcessFrames([], true);
      }
    }

    method OpenReceiver()
      modifies this, receiveQueue, compressed
      ensures Model() == Open(old(Model()), compressed.zlib)
    {
      hide ProcessAll, R.Drain;
      canSend := true;
      ghost var was := Model();
      var before := |receiveQueue.processed|;
      receiveQueue.ProcessQueue();
      ProcessLatest(before, was);
      if status.Uninitialized? {
        status := T.Open;
      }
    }

    method OnReceivePacket(packet: Packet)
      requires packet.Valid()
      modifies this, receiveQueue, compressed
      ensures Model() == OnReceive(old(Model()), packet.typ, packet.id, packet.Body(), compressed.zlib)
    {
      hide ProcessAll, R.ReceiveAll, Walk;
      if !status.Open? {
        return;
      }
      if RequiresAck(packet.typ) {
        acks := acks + [packet.id];
      }
      ghost var was := Model();
      if packet.typ == DATA_RELIABLE {
        var before := |receiveQueue.processed|;
        receiveQueue.OnReceive(packet);
        ProcessLatest(before, was);
      } else if packet.typ == DATA_UNRELIABLE {
        ProcessFrames(Walk(packet.data[..packet.dataSize]), false);
      }
    }
  }
}

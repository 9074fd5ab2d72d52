/** Acknowledgements on their way back: collected, turned into frames of unreliable packets, and read again
(mrudp/sender/Sender.cpp, mrudp/receiver/Receiver.cpp). */
module Acks {
  import opened Serial
  import opened Wire
  import opened SendQueues

  /** Sixteen bits each: the packet, and how long the acknowledgement was held back. */
  datatype Ack = Ack(packetID: Id, delayed: Id)

  function EncodeAck(a: Ack): (b: Bytes)
    ensures |b| == 4
  {
    U16(a.packetID) + U16(a.delayed)
  }

  function DecodeAck(b: Bytes): Ack
    requires |b| >= 4
  {
    Ack(FromU16(b), FromU16(b[2..]))
  }

  lemma AckRoundTrip(a: Ack)
    ensures DecodeAck(EncodeAck(a)) == a
  {
    hide U16, FromU16;
    U16RoundTrip(a.packetID, U16(a.delayed));
    U16RoundTrip(a.delayed, []);
    assert EncodeAck(a)[2..] == U16(a.delayed) + [];
  }

  /** The loop of `queueDelayedAcks` over one batch. */
  function QueueAll(q: Queue, acks: seq<Ack>): Queue
    decreases |acks|
  {
    if acks == [] then q else QueueAll(Enqueue(q, ACK_FRAME, EncodeAck(acks[0]), PerPacket), acks[1..])
  }

  /** The acknowledgements a receiver reads from frames. */
  function Read(fs: seq<Frame>): seq<Ack> {
    if fs == [] then []
    else (if fs[0].typ == ACK_FRAME && |fs[0].data| >= 4 then [DecodeAck(fs[0].data)] else []) + Read(fs[1..])
  }

  lemma ReadCons(f: Frame, fs: seq<Frame>)
    ensures Read([f] + fs) == (if f.typ == ACK_FRAME && |f.data| >= 4 then [DecodeAck(f.data)] else []) + Read(fs)
  {
    hide DecodeAck;
    assert ([f] + fs)[1..] == fs;
  }

  lemma ReadSingle(f: Frame)
    ensures Read([f]) == if f.typ == ACK_FRAME && |f.data| >= 4 then [DecodeAck(f.data)] else []
  {
    hide DecodeAck;
    ReadCons(f, []);
    assert [f] + [] == [f];
  }

  lemma {:induction false} ReadAppend(fs: seq<Frame>, gs: seq<Frame>)
    ensures Read(fs + gs) == Read(fs) + Read(gs)
  {
    if fs == [] {
      assert fs + gs == gs;
    } else {
      hide Read, DecodeAck;
      var f, tail := fs[0], fs[1..];
      Uncons(fs);
      Assoc([f], tail, gs);
      ReadCons(f, tail);
      ReadCons(f, tail + gs);
      ReadAppend(tail, gs);
      Assoc(if f.typ == ACK_FRAME && |f.data| >= 4 then [DecodeAck(f.data)] else [], Read(tail), Read(gs));
    }
  }

  lemma ReadOne(a: Ack, id: Id)
    ensures Read([Frame(id, ACK_FRAME, EncodeAck(a))]) == [a]
  {
    hide DecodeAck, EncodeAck;
    AckRoundTrip(a);
    var f := Frame(id, ACK_FRAME, EncodeAck(a));
    ReadCons(f, []);
    assert [f] + [] == [f];
  }

  /** However they are spread over packets, the acknowledgements that follow what was queued before are read
  as exactly those collected, in order, and no packet grows too large. */
  lemma {:induction false} QueuedAcksAreRead(q: Queue, acks: seq<Ack>)
    requires !q.closed
    ensures var r := QueueAll(q, acks);
            Read(Log(r)) == Read(Log(q)) + acks && (Small(q) ==> Small(r)) && !r.closed && r.pending == q.pending
    decreases |acks|
  {
    hide Read, Log, Enqueue, EncodeAck, Small;
    if acks != [] {
      var a := acks[0];
      var fs := EnqueueGrew(q, ACK_FRAME, EncodeAck(a), PerPacket);
      var m := Enqueue(q, ACK_FRAME, EncodeAck(a), PerPacket);
      ReadAppend(Log(q), fs);
      ReadOne(a, Wrap(q.next));
      QueuedAcksAreRead(m, acks[1..]);
      Uncons(acks);
      Assoc(Read(Log(q)), [a], acks[1..]);
    }
  }

  /** What a receiver reads from one packet on the wire. */
  function FromPacket(body: Bytes): seq<Ack> {
    Read(Walk(body))
  }

  function FromPackets(packets: seq<seq<Frame>>): seq<Ack> {
    if packets == [] then [] else FromPacket(EncodeFrames(packets[0])) + FromPackets(packets[1..])
  }

  lemma {:induction false} PacketsRead(packets: seq<seq<Frame>>)
    requires forall i :: 0 <= i < |packets| ==> ValidFrames(packets[i])
    ensures FromPackets(packets) == Read(Concat(packets))
    decreases |packets|
  {
    hide Read, Walk, EncodeFrames;
    if packets != [] {
      WalkRoundTrip(packets[0]);
      PacketsRead(packets[1..]);
      ReadAppend(packets[0], Concat(packets[1..]));
    } else {
      ReadNothing();
    }
  }

  lemma ReadNothing()
    ensures Read(Concat([])) == []
  {
  }

  /** From the collected list through frames, packets and bytes to the peer: each acknowledgement once, in
  order. */
  lemma AcksRoundTrip(acks: seq<Ack>)
    ensures FromPackets(QueueAll(Empty, acks).packets) == acks
  {
    QueuedAcksAreRead(Empty, acks);
    ReadNothing();
    hide Read, QueueAll;
    assert Log(Empty) == Concat([]);
    assert [] + acks == acks;
    PacketsRead(QueueAll(Empty, acks).packets);
  }
}

/** The two lists of delayed acknowledgements. */
module AckObjects {
  import opened Serial
  import opened Wire
  import opened SendQueues
  import opened SendQueueObjects
  import opened Spec = Acks

  datatype Delayed = Delayed(packetID: Id, when: int)

  /** The delay in milliseconds, cut to sixteen bits as the source casts it. */
  function Stamp(d: Delayed, now: int): Ack {
    Ack(d.packetID, Wrap(now - d.when))
  }

  function StampAll(ds: seq<Delayed>, now: int): (acks: seq<Ack>)
    ensures |acks| == |ds|
  {
    if ds == [] then [] else [Stamp(ds[0], now)] + StampAll(ds[1..], now)
  }

  /** One acknowledgement for each packet, in order, that says how many milliseconds it was held back. */
  ghost predicate Answers(acks: seq<Ack>, ds: seq<Delayed>, now: int) {
    && |acks| == |ds|
    && (forall i :: 0 <= i < |ds| ==> acks[i].packetID == ds[i].packetID)
    && (forall i :: 0 <= i < |ds| ==> acks[i].delayed == (now - ds[i].when) % 65536)
  }

  lemma {:induction false} StampAnswers(ds: seq<Delayed>, now: int)
    ensures Answers(StampAll(ds, now), ds, now)
    decreases |ds|
  {
    if ds != [] {
      StampAnswers(ds[1..], now);
      var rest := StampAll(ds[1..], now);
      forall i | 0 <= i < |ds|
        ensures StampAll(ds, now)[i].packetID == ds[i].packetID
        ensures StampAll(ds, now)[i].delayed == (now - ds[i].when) % 65536
      {
        if i > 0 {
          assert StampAll(ds, now)[i] == rest[i - 1] && ds[i] == ds[1..][i - 1];
        }
      }
    }
  }

  /** A reader of the queued frames finds the acknowledgements it would have found before, then one for each of
  the given packets. */
  ghost predicate Announces(was: Queue, q: Queue, ds: seq<Delayed>, now: int) {
    exists acks :: Answers(acks, ds, now) && Read(Log(q)) == Read(Log(was)) + acks
  }

  lemma QueuedAnnounces(q: Queue, ds: seq<Delayed>, now: int)
    requires !q.closed
    ensures Announces(q, QueueAll(q, StampAll(ds, now)), ds, now)
  {
    hide Answers, Log, Read, QueueAll;
    StampAnswers(ds, now);
    QueuedAcksAreRead(q, StampAll(ds, now));
  }

  class DelayedAcks {
    var waiting: seq<Delayed>
    var sending: seq<Delayed>
    const unreliableQueue: SendQueue

    ghost predicate Valid()
      reads this, unreliableQueue, unreliableQueue.Repr
    {
      unreliableQueue.Valid() && this !in unreliableQueue.Repr && sending == []
    }

    constructor ()
      ensures Valid() && waiting == [] && unreliableQueue.Model() == Empty && fresh(unreliableQueue.Repr)
    {
      waiting, sending := [], [];
      unreliableQueue := new SendQueue();
    }

    method Acknowledge(id: Id, now: int)
      requires Valid()
      modifies this`waiting
      ensures Valid() && waiting == old(waiting) + [Delayed(id, now)]
    {
      waiting := waiting + [Delayed(id, now)];
    }

    /** Enqueues a frame for each acknowledgement of the batch. */
    method EnqueueBatch(now: int)
      requires unreliableQueue.Valid() && this !in unreliableQueue.Repr
      modifies unreliableQueue.Repr
      ensures unreliableQueue.Valid() && fresh(unreliableQueue.Repr - old(unreliableQueue.Repr))
      ensures unreliableQueue.Model() == QueueAll(old(unreliableQueue.Model()), StampAll(sending, now))
      ensures !old(unreliableQueue.closed) ==>
                Announces(old(unreliableQueue.Model()), unreliableQueue.Model(), sending, now)
    {
      if !unreliableQueue.closed {
        QueuedAnnounces(unreliableQueue.Model(), sending, now);
      }
      hide Enqueue, EncodeAck, SendQueue.Valid, Announces;
      var i := 0;
      assert sending[0..] == sending;
      while i < |sending|
        invariant 0 <= i <= |sending| && sending == old(sending)
        invariant unreliableQueue.Valid() && fresh(unreliableQueue.Repr - old(unreliableQueue.Repr))
        invariant QueueAll(unreliableQueue.Model(), StampAll(sending[i..], now)) ==
                  QueueAll(old(unreliableQueue.Model()), StampAll(sending, now))
      {
        var ack := Stamp(sending[i], now);
        assert sending[i..][1..] == sending[i + 1..];
        assert StampAll(sending[i..], now)[1..] == StampAll(sending[i + 1..], now);
        unreliableQueue.Enqueue(ACK_FRAME, EncodeAck(ack), PerPacket);
        i := i + 1;
      }
    }

    /** One turn of the loop: swap the lists and enqueue the batch, while `arriving` come in. */
    method QueueBatch(now: int, arriving: seq<Delayed>)
      requires Valid()
      modifies this`waiting, this`sending, unreliableQueue.Repr
      ensures Valid() && waiting == arriving && fresh(unreliableQueue.Repr - old(unreliableQueue.Repr))
      ensures unreliableQueue.Model() == QueueAll(old(unreliableQueue.Model()), StampAll(old(waiting), now))
      ensures !old(unreliableQueue.closed) ==>
                Announces(old(unreliableQueue.Model()), unreliableQueue.Model(), old(waiting), now)
    {
      hide Announces, QueueAll, StampAll, SendQueue.Valid;
      waiting, sending := sending, waiting;
      EnqueueBatch(now);
      sending := [];
      waiting := waiting + arriving;
    }

    /** `queueDelayedAcks`: swap the lists, enqueue the batch, until nothing waits. `arrivals[k]` are the
    acknowledgements other threads add while the k-th batch is enqueued. Every one that came before the last look
    is queued once, in order of arrival. */
    method QueueDelayedAcks(now: int, arrivals: seq<seq<Delayed>>) returns (batches: nat)
      requires Valid()
      modifies this`waiting, this`sending, unreliableQueue.Repr
      ensures Valid() && waiting == []
      ensures unreliableQueue.Model() ==
              QueueAll(old(unreliableQueue.Model()), StampAll(old(waiting) + Concat(Until(arrivals, batches)), now))
      ensures !old(unreliableQueue.closed) ==>
                Announces(old(unreliableQueue.Model()), unreliableQueue.Model(),
                          old(waiting) + Concat(Until(arrivals, batches)), now)
    {
      hide Valid, QueueAll, StampAll, Concat, Until, Announces;
      ghost var q := unreliableQueue.Model();
      ghost var all := waiting;
      ghost var done: seq<Delayed> := [];
      batches := 0;
      QueueNothing(q, now);
      ConcatNothing(arrivals);
      assert all == old(waiting) + [] && all == done + waiting;
      while waiting != []
        invariant Valid() && fresh(unreliableQueue.Repr - old(unreliableQueue.Repr))
        invariant all == old(waiting) + Concat(Until(arrivals, batches)) && all == done + waiting
        invariant unreliableQueue.Model() == QueueAll(q, StampAll(done, now))
        decreases if batches < |arrivals| then |arrivals| - batches else 0, |waiting|
      {
        QueueMore(q, done, waiting, now);
        done := done + waiting;
        QueueBatch(now, if batches < |arrivals| then arrivals[batches] else []);
        UntilNext(arrivals, batches);
        Assoc(old(waiting), Concat(Until(arrivals, batches)), waiting);
        all := all + waiting;
        batches := batches + 1;
      }
      assert done + [] == done;
      if !old(unreliableQueue.closed) {
        QueuedAnnounces(q, done, now);
      }
    }
  }

  /** What has arrived during the first `n` batches. */
  ghost function Until(arrivals: seq<seq<Delayed>>, n: nat): seq<seq<Delayed>> {
    if n < |arrivals| then arrivals[..n] else arrivals
  }

  lemma UntilNext(arrivals: seq<seq<Delayed>>, n: nat)
    ensures Concat(Until(arrivals, n + 1)) == Concat(Until(arrivals, n)) + (if n < |arrivals| then arrivals[n] else [])
  {
    if n < |arrivals| {
      ConcatSnoc(arrivals[..n], arrivals[n]);
      assert arrivals[..n + 1] == arrivals[..n] + [arrivals[n]];
      assert n + 1 == |arrivals| ==> arrivals[..n + 1] == arrivals;
    } else {
      assert Concat(arrivals) + [] == Concat(arrivals);
    }
  }

  lemma ConcatNothing(arrivals: seq<seq<Delayed>>)
    ensures Concat(Until(arrivals, 0)) == []
  {
    assert arrivals[..0] == [];
  }

  /** Queuing two batches one after the other is queuing them together. */
  lemma QueueMore(q: Queue, a: seq<Delayed>, b: seq<Delayed>, now: int)
    ensures QueueAll(QueueAll(q, StampAll(a, now)), StampAll(b, now)) == QueueAll(q, StampAll(a + b, now))
  {
    StampAppend(a, b, now);
    QueueAppend(q, StampAll(a, now), StampAll(b, now));
  }

  lemma {:induction false} StampAppend(a: seq<Delayed>, b: seq<Delayed>, now: int)
    ensures StampAll(a + b, now) == StampAll(a, now) + StampAll(b, now)
    decreases |a|
  {
    if a == [] {
      assert a + b == b;
    } else {
      assert (a + b)[0] == a[0] && (a + b)[1..] == a[1..] + b;
      StampAppend(a[1..], b, now);
    }
  }

  lemma {:induction false} QueueAppend(q: Queue, a: seq<Ack>, b: seq<Ack>)
    ensures QueueAll(QueueAll(q, a), b) == QueueAll(q, a + b)
    decreases |a|
  {
    hide Enqueue, EncodeAck;
    if a == [] {
      assert a + b == b;
    } else {
      assert (a + b)[0] == a[0] && (a + b)[1..] == a[1..] + b;
      QueueAppend(Enqueue(q, ACK_FRAME, EncodeAck(a[0]), PerPacket), a[1..], b);
    }
  }

  lemma QueueNothing(q: Queue, now: int)
    ensures QueueAll(q, StampAll([], now)) == q
  {
  }
}

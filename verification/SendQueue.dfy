/** The queue of packets waiting to be sent, and how bytes are coalesced into frames
(mrudp/sender/SendQueue.cpp). */
module SendQueues {
  import opened Serial
  import opened Wire

  datatype Mode = Separate | PerPacket | Stream | StreamCompressed

  /** zlib as an unknown pair of functions: `deflate` may fail, and `inflate` undoes it. */
  datatype Zlib = Zlib(deflate: Bytes -> Option<Bytes>, inflate: Bytes -> Bytes, level: int)

  /** `compress2` is given a destination of the source's size, so it never makes its input longer. */
  ghost predicate Lawful(z: Zlib) {
    forall x :: z.deflate(x).Some? ==> |z.deflate(x).value| <= |x| && z.inflate(z.deflate(x).value) == x
  }

  /** `packets` holds the frames of each queued packet, `next` the index of the next frame to be
  numbered, `pending` the first compression buffer. */
  datatype Queue = Queue(packets: seq<seq<Frame>>, next: nat, pending: Bytes, closed: bool)

  const Empty := Queue([], 0, [], false)

  /** All queued frames, front to back. */
  function Log(q: Queue): seq<Frame> {
    Concat(q.packets)
  }

  function Payload(fs: seq<Frame>): Bytes {
    if fs == [] then [] else fs[0].data + Payload(fs[1..])
  }

  // ---- operations ----------------------------------------------------------------------------

  function NextFrame(q: Queue, typ: Byte, data: Bytes): Frame {
    Frame(Wrap(q.next), typ, data)
  }

  function PushLast(q: Queue, typ: Byte, data: Bytes): Queue
    requires q.packets != []
  {
    var last := |q.packets| - 1;
    q.(packets := q.packets[last := q.packets[last] + [NextFrame(q, typ, data)]], next := q.next + 1)
  }

  function PushPacket(q: Queue, fs: seq<Frame>): Queue {
    q.(packets := q.packets + [fs], next := q.next + |fs|)
  }

  /** Payload bytes that still fit into the last packet; may be negative. */
  function Available(q: Queue): int
    requires q.packets != []
  {
    MAX_PACKET_POST_FRAME_SIZE - (FramesSize(q.packets[|q.packets| - 1]) + FRAME_HEADER_SIZE)
  }

  function StreamLoop(q: Queue, typ: Byte, data: Bytes): Queue
    requires q.packets != []
    decreases |data|, Available(q) <= 0
  {
    if data == [] then q
    else if Available(q) > 0 then
      var size := if Available(q) < |data| then Available(q) else |data|;
      StreamLoop(PushLast(q, typ, data[..size]), typ, data[size..])
    else
      StreamLoop(PushPacket(q, []), typ, data)
  }

  function CoalesceStream(q: Queue, typ: Byte, data: Bytes): Queue {
    StreamLoop(if q.packets == [] then PushPacket(q, []) else q, typ, data)
  }

  function EncodeMessage(typ: Byte, data: Bytes): Bytes {
    [typ] + U32(|data|) + data
  }

  function Enqueue(q: Queue, typ: Byte, data: Bytes, mode: Mode): Queue {
    if q.closed then q
    else match mode
      case Separate => PushPacket(q, [NextFrame(q, typ, data)])
      case PerPacket =>
        if q.packets != [] &&
            FramesSize(q.packets[|q.packets| - 1]) + |data| + FRAME_HEADER_SIZE < MAX_PACKET_POST_FRAME_SIZE
        then PushLast(q, typ, data)
        else PushPacket(q, [NextFrame(q, typ, data)])
      case Stream => CoalesceStream(q, typ, data)
      case StreamCompressed => q.(pending := q.pending + EncodeMessage(typ, data))
  }

  /** The batch that `compress` builds from the pending bytes: total size, flag, and either the raw bytes
  or the uncompressed size followed by the compressed bytes. */
  function Batch(pending: Bytes, z: Zlib): Bytes {
    if z.level > 0 && |pending| >= 48 && z.deflate(pending).Some? then
      var c := z.deflate(pending).value;
      U32(9 + |c|) + [1] + U32(|pending|) + c
    else
      U32(5 + |pending|) + [0] + pending
  }

  /** Moves the pending bytes into the queue when nothing else is left to send. */
  function Flush(q: Queue, z: Zlib): Queue {
    if q.closed || q.packets != [] || q.pending == [] then q
    else CoalesceStream(q, DATA_COMPRESSED, Batch(q.pending, z)).(pending := [])
  }

  datatype Dequeued = Nothing(queue: Queue) | Took(queue: Queue, frames: seq<Frame>)

  function Dequeue(q: Queue, z: Zlib): Dequeued {
    var f := Flush(q, z);
    if q.closed || f.packets == [] then Nothing(f)
    else Took(f.(packets := f.packets[1..]), f.packets[0])
  }

  function Close(q: Queue): Queue {
    if q.closed then q else q.(closed := true, packets := [])
  }

  predicate IsEmpty(q: Queue) {
    q.packets == [] && q.pending == []
  }

  // ---- what coalescing keeps -----------------------------------------------------------------

  /** Every packet leaves room for what the lower layers add, and its frames can be encoded. */
  ghost predicate Small(q: Queue) {
    forall i :: 0 <= i < |q.packets| ==>
        FramesSize(q.packets[i]) <= MAX_PACKET_POST_FRAME_SIZE && ValidFrames(q.packets[i])
  }

  /** Frames numbered consecutively from index `from`, all of one type, that spell out `data`. */
  ghost predicate Spells(fs: seq<Frame>, from: nat, typ: Byte, data: Bytes) {
    && (forall i :: 0 <= i < |fs| ==> fs[i].id == Wrap(from + i) && fs[i].typ == typ)
    && Payload(fs) == data
  }

  ghost predicate NoneEmpty(fs: seq<Frame>) {
    forall i :: 0 <= i < |fs| ==> fs[i].data != []
  }

  /** `r` is `q` with more frames at the end: earlier packets are untouched and the last one only grew. */
  ghost predicate Grew(q: Queue, r: Queue, fs: seq<Frame>) {
    && Log(r) == Log(q) + fs
    && r.next == q.next + |fs|
    && |q.packets| <= |r.packets|
    && (forall i :: 0 <= i < |q.packets| ==> q.packets[i] <= r.packets[i])
    && (forall i :: 0 <= i < |q.packets| - 1 ==> q.packets[i] == r.packets[i])
    && r.pending == q.pending && r.closed == q.closed
  }

  lemma PayloadCons(f: Frame, fs: seq<Frame>)
    ensures Payload([f] + fs) == f.data + Payload(fs)
  {
    assert ([f] + fs)[1..] == fs;
  }

  lemma {:induction false} PayloadAppend(fs: seq<Frame>, gs: seq<Frame>)
    ensures Payload(fs + gs) == Payload(fs) + Payload(gs)
  {
    if fs == [] {
      assert fs + gs == gs;
    } else {
      hide Payload;
      var f, tail := fs[0], fs[1..];
      Uncons(fs);
      Assoc([f], tail, gs);
      PayloadCons(f, tail);
      PayloadCons(f, tail + gs);
      PayloadAppend(tail, gs);
      Assoc(f.data, Payload(tail), Payload(gs));
    }
  }

  lemma PayloadOne(f: Frame)
    ensures Payload([f]) == f.data
  {
    assert [f][1..] == [];
    assert Payload([f][1..]) == [];
  }

  lemma FramesSizeSnoc(fs: seq<Frame>, f: Frame)
    ensures EncodeFrames(fs + [f]) == EncodeFrames(fs) + EncodeFrame(f)
    ensures FramesSize(fs + [f]) == FramesSize(fs) + FRAME_HEADER_SIZE + |f.data|
  {
    hide EncodeFrame;
    EncodeAppend(fs, [f]);
    EncodeOne(f);
  }

  lemma PushLastGrew(q: Queue, typ: Byte, data: Bytes)
    requires q.packets != []
    ensures Grew(q, PushLast(q, typ, data), [NextFrame(q, typ, data)])
    ensures Spells([NextFrame(q, typ, data)], q.next, typ, data)
  {
    var n, f := |q.packets| - 1, NextFrame(q, typ, data);
    assert q.packets == q.packets[..n] + [q.packets[n]];
    assert PushLast(q, typ, data).packets == q.packets[..n] + [q.packets[n] + [f]];
    ConcatSnoc(q.packets[..n], q.packets[n]);
    ConcatSnoc(q.packets[..n], q.packets[n] + [f]);
    Assoc(Concat(q.packets[..n]), q.packets[n], [f]);
    PayloadOne(f);
  }

  lemma PushLastSmall(q: Queue, typ: Byte, data: Bytes)
    requires q.packets != []
    ensures Small(q) && |data| <= Available(q) ==> Small(PushLast(q, typ, data))
  {
    hide FramesSize;
    FramesSizeSnoc(q.packets[|q.packets| - 1], NextFrame(q, typ, data));
  }

  lemma PushPacketGrew(q: Queue, fs: seq<Frame>)
    ensures Grew(q, PushPacket(q, fs), fs)
    ensures Small(q) && FramesSize(fs) <= MAX_PACKET_POST_FRAME_SIZE && ValidFrames(fs) ==> Small(PushPacket(q, fs))
  {
    ConcatSnoc(q.packets, fs);
  }

  lemma GrewTrans(q: Queue, r: Queue, s: Queue, fs: seq<Frame>, gs: seq<Frame>)
    requires Grew(q, r, fs) && Grew(r, s, gs)
    ensures Grew(q, s, fs + gs)
  {
    assert Log(q) + fs + gs == Log(q) + (fs + gs);
  }

  lemma SpellsJoin(fs: seq<Frame>, gs: seq<Frame>, from: nat, typ: Byte, a: Bytes, b: Bytes)
    requires Spells(fs, from, typ, a) && Spells(gs, from + |fs|, typ, b)
    ensures Spells(fs + gs, from, typ, a + b)
  {
    PayloadAppend(fs, gs);
    forall i | 0 <= i < |fs + gs|
      ensures (fs + gs)[i].id == Wrap(from + i) && (fs + gs)[i].typ == typ
    {
      if i >= |fs| {
        assert (fs + gs)[i] == gs[i - |fs|];
      }
    }
  }

  /** Joining the frame pushed in one turn with the frames of the following turns. */
  lemma PushThenGrew(q: Queue, typ: Byte, now: Bytes, later: Bytes, rest: seq<Frame>, end: Queue)
    requires q.packets != []
    requires Grew(PushLast(q, typ, now), end, rest) && Spells(rest, q.next + 1, typ, later)
    ensures Grew(q, end, [NextFrame(q, typ, now)] + rest)
    ensures Spells([NextFrame(q, typ, now)] + rest, q.next, typ, now + later)
  {
    hide Grew, Spells, NextFrame;
    PushLastGrew(q, typ, now);
    GrewTrans(q, PushLast(q, typ, now), end, [NextFrame(q, typ, now)], rest);
    SpellsJoin([NextFrame(q, typ, now)], rest, q.next, typ, now, later);
  }

  lemma OpenThenGrew(q: Queue, rest: seq<Frame>, end: Queue)
    requires Grew(PushPacket(q, []), end, rest)
    ensures Grew(q, end, rest)
  {
    PushPacketGrew(q, []);
    GrewTrans(q, PushPacket(q, []), end, [], rest);
    assert [] + rest == rest;
  }

  /** How much one turn of the loop writes. */
  function WriteSize(q: Queue, data: Bytes): nat
    requires q.packets != []
  {
    if Available(q) <= 0 then 0 else if Available(q) < |data| then Available(q) else |data|
  }

  lemma StreamTurn(q: Queue, typ: Byte, data: Bytes)
    requires q.packets != [] && data != []
    ensures Available(q) > 0 ==>
              var size := WriteSize(q, data);
              0 < size <= |data| && size <= Available(q) &&
                  StreamLoop(q, typ, data) == StreamLoop(PushLast(q, typ, data[..size]), typ, data[size..])
    ensures Available(q) <= 0 ==>
              Available(PushPacket(q, [])) > 0 && StreamLoop(q, typ, data) == StreamLoop(PushPacket(q, []), typ, data)
  {
  }

  lemma NothingStreamed(q: Queue, typ: Byte)
    requires q.packets != []
    ensures StreamLoop(q, typ, []) == q && Grew(q, q, []) && Spells([], q.next, typ, [])
  {
    assert Log(q) + [] == Log(q);
  }

  /** The streaming loop cuts the input into frames without losing, reordering or inventing a byte. */
  lemma {:induction false} StreamLoopGrew(q: Queue, typ: Byte, data: Bytes) returns (fs: seq<Frame>)
    requires q.packets != []
    ensures Grew(q, StreamLoop(q, typ, data), fs)
    ensures Spells(fs, q.next, typ, data)
    ensures Small(q) ==> Small(StreamLoop(q, typ, data))
    ensures NoneEmpty(fs) && (data != [] ==> fs != [])
    decreases |data|, Available(q) <= 0
  {
    hide Grew, Spells, Small, StreamLoop, Available, WriteSize;
    if data == [] {
      fs := [];
      NothingStreamed(q, typ);
      return;
    }
    StreamTurn(q, typ, data);
    if Available(q) > 0 {
      var size := WriteSize(q, data);
      var now, later := data[..size], data[size..];
      var mid := PushLast(q, typ, now);
      var rest := StreamLoopGrew(mid, typ, later);
      PushThenGrew(q, typ, now, later, rest, StreamLoop(mid, typ, later));
      fs := [NextFrame(q, typ, now)] + rest;
      assert data == now + later;
      PushLastSmall(q, typ, now);
    } else {
      fs := StreamLoopGrew(PushPacket(q, []), typ, data);
      OpenThenGrew(q, fs, StreamLoop(q, typ, data));
      PushPacketGrew(q, []);
      EncodeNone();
    }
  }

  /** Not one more byte of payload fits. */
  predicate Full(fs: seq<Frame>) {
    FramesSize(fs) + FRAME_HEADER_SIZE >= MAX_PACKET_POST_FRAME_SIZE
  }

  /** Streaming wastes no packet: it opens another one only behind a full one. */
  lemma {:induction false} StreamFills(q: Queue, typ: Byte, data: Bytes)
    requires q.packets != []
    ensures var r := StreamLoop(q, typ, data);
            && |q.packets| <= |r.packets|
            && forall i :: |q.packets| - 1 <= i < |r.packets| - 1 ==> Full(r.packets[i])
    decreases |data|, Available(q) <= 0
  {
    hide StreamLoop, WriteSize, FramesSize;
    if data == [] {
      NothingStreamed(q, typ);
    } else {
      StreamTurn(q, typ, data);
      if Available(q) > 0 {
        var size := WriteSize(q, data);
        StreamFills(PushLast(q, typ, data[..size]), typ, data[size..]);
      } else {
        var wider := PushPacket(q, []);
        StreamFills(wider, typ, data);
        var fs := StreamLoopGrew(wider, typ, data);
        var last := |q.packets| - 1;
        assert StreamLoop(q, typ, data).packets[last] == q.packets[last] by {
          assert wider.packets[last] == q.packets[last] && last < |wider.packets| - 1;
        }
      }
    }
  }

  /** A message joins the last packet exactly when the packet stays below its limit, and else gets its own. */
  lemma JoinsExact(q: Queue, typ: Byte, data: Bytes)
    requires !q.closed
    ensures var joins := q.packets != [] && FramesSize(q.packets[|q.packets| - 1]) + 5 + |data| < 1436;
            |Enqueue(q, typ, data, PerPacket).packets| == |q.packets| + (if joins then 0 else 1)
    ensures |Enqueue(q, typ, data, Separate).packets| == |q.packets| + 1
  {
    hide FramesSize;
  }

  lemma EncodeNone()
    ensures FramesSize([]) == 0 && ValidFrames([])
  {
  }

  lemma StreamLoopNonEmpty(q: Queue, typ: Byte, data: Bytes, fs: seq<Frame>)
    requires q.packets != [] && Grew(q, StreamLoop(q, typ, data), fs)
    ensures StreamLoop(q, typ, data).packets != []
  {
  }

  /** `coalesceStream` from any queue state. */
  lemma CoalesceStreamGrew(q: Queue, typ: Byte, data: Bytes) returns (fs: seq<Frame>)
    ensures Grew(q, CoalesceStream(q, typ, data), fs)
    ensures Spells(fs, q.next, typ, data)
    ensures Small(q) ==> Small(CoalesceStream(q, typ, data))
    ensures CoalesceStream(q, typ, data).packets != []
    ensures NoneEmpty(fs) && (data != [] ==> fs != [])
  {
    var start := if q.packets == [] then PushPacket(q, []) else q;
    fs := StreamLoopGrew(start, typ, data);
    StreamLoopNonEmpty(start, typ, data, fs);
    hide Grew, Spells, Small, StreamLoop, FramesSize;
    if q.packets == [] {
      OpenThenGrew(q, fs, StreamLoop(start, typ, data));
      PushPacketGrew(q, []);
      EncodeNone();
    }
  }

  /** In the uncompressed modes an accepted message becomes frames that spell exactly that message; unless
  streaming, it becomes one frame. */
  lemma EnqueueGrew(q: Queue, typ: Byte, data: Bytes, mode: Mode) returns (fs: seq<Frame>)
    requires !q.closed && !mode.StreamCompressed?
    requires mode.Stream? || |data| <= MAX_PACKET_DATA_SIZE
    ensures Grew(q, Enqueue(q, typ, data, mode), fs)
    ensures Spells(fs, q.next, typ, data)
    ensures Small(q) ==> Small(Enqueue(q, typ, data, mode))
    ensures !mode.Stream? ==> fs == [NextFrame(q, typ, data)]
  {
    if mode.Stream? {
      fs := CoalesceStreamGrew(q, typ, data);
    } else {
      var f := NextFrame(q, typ, data);
      fs := [f];
      PushPacketGrew(q, fs);
      EncodeOne(f);
      PayloadOne(f);
      if q.packets != [] {
        PushLastGrew(q, typ, data);
        PushLastSmall(q, typ, data);
      }
    }
  }

  lemma PushLastFields(q: Queue, typ: Byte, data: Bytes)
    requires q.packets != []
    ensures var r, n := PushLast(q, typ, data), |q.packets| - 1;
            && r == Queue(r.packets, q.next + 1, q.pending, q.closed) && |r.packets| == |q.packets|
            && r.packets[n] == q.packets[n] + [NextFrame(q, typ, data)]
            && (forall i :: 0 <= i < n ==> r.packets[i] == q.packets[i])
  {
  }

  /** Enqueueing neither closes nor opens a queue, and only the compressed mode leaves bytes pending. */
  lemma EnqueueLeaves(q: Queue, typ: Byte, data: Bytes, mode: Mode)
    requires mode.Stream? || mode.StreamCompressed? || |data| <= MAX_PACKET_DATA_SIZE
    ensures Enqueue(q, typ, data, mode).closed == q.closed && (q.closed ==> Enqueue(q, typ, data, mode) == q)
    ensures !mode.StreamCompressed? ==> Enqueue(q, typ, data, mode).pending == q.pending
  {
    if !q.closed && !mode.StreamCompressed? {
      var _ := EnqueueGrew(q, typ, data, mode);
    }
  }
}

/** The same queue as it lies in memory: packets are buffers that frames are pushed into in place. */
module SendQueueObjects {
  import opened Serial
  import opened Wire
  import opened Packets
  import opened Spec = SendQueues

  class SendQueue {
    var queue: seq<Packet>
    const ids: IdGenerator
    var pending: Bytes
    var closed: bool
    ghost var frames: seq<seq<Frame>>
    ghost var Repr: set<object>

    ghost predicate Separated()
      reads this`queue
    {
      forall i, j :: 0 <= i < j < |queue| ==> queue[i] != queue[j] && queue[i].data != queue[j].data
    }

    ghost predicate Holds(p: Packet, fs: seq<Frame>)
      reads p, p.data
    {
      p.Valid() && p.Body() == EncodeFrames(fs)
    }

    ghost predicate Valid()
      reads this, Repr
      ensures Valid() ==> this in Repr && ids in Repr && |frames| == |queue|
    {
      && {this, ids} <= Repr
      && (forall p :: p in queue ==> p in Repr && p.data in Repr)
      && ids.Valid()
      && Separated()
      && |frames| == |queue|
      && (forall i :: 0 <= i < |queue| ==> Holds(queue[i], frames[i]))
    }

    ghost function Model(): Queue
      reads this, ids
    {
      Queue(frames, ids.issued, pending, closed)
    }

    function Last(): Packet
      requires queue != []
      reads this
    {
      queue[|queue| - 1]
    }

    /** The queue keeps no reference to a packet it handed out, nor to its buffer. */
    ghost predicate Released(packet: Packet)
      reads this
    {
      && packet !in Repr && packet.data !in Repr
      && forall p :: p in queue ==> p != packet && p.data != packet.data
    }

    constructor ()
      ensures Valid() && Model() == Empty && fresh(Repr)
    {
      queue, frames, pending, closed := [], [], [], false;
      ids := new IdGenerator();
      Repr := {this, ids};
    }

    /** Pushes one frame into the last packet, in place. */
    method PushIntoLast(typ: Byte, payload: Bytes)
      requires Valid() && queue != []
      requires Last().dataSize + FRAME_HEADER_SIZE + |payload| <= MAX_PACKET_SIZE
      modifies ids, Last(), Last().data
      ensures ids.Valid() && ids.issued == old(ids.issued) + 1
      ensures Holds(Last(), frames[|queue| - 1] + [NextFrame(old(Model()), typ, payload)])
    {
      hide EncodeFrames, EncodeFrame, EncodeHeader, Separated, PushTail;
      var last := Last();
      ghost var fs, f := frames[|queue| - 1], NextFrame(Model(), typ, payload);
      assert Holds(last, fs);
      FramesSizeSnoc(fs, f);
      var id := ids.NextID();
      var ok := last.PushFrame(id, typ, payload);
      assert ok;
      assert last.Body() == EncodeFrames(fs) + EncodeFrame(f);
    }

    /** The same, recorded. */
    method AppendFrame(typ: Byte, payload: Bytes)
      requires Valid() && queue != []
      requires Last().dataSize + FRAME_HEADER_SIZE + |payload| <= MAX_PACKET_SIZE
      modifies this`frames, ids, Last(), Last().data
      ensures queue == old(queue)
      ensures Valid()
      ensures Model() == PushLast(old(Model()), typ, payload)
    {
      hide Holds, PushLast, NextFrame;
      ghost var q, n := Model(), |queue| - 1;
      PushLastFields(q, typ, payload);
      Apart();
      hide Separated;
      PushIntoLast(typ, payload);
      frames := PushLast(q, typ, payload).packets;
      forall i | 0 <= i < n
        ensures Holds(queue[i], frames[i])
      {
        assert old(Holds(queue[i], frames[i]));
      }
    }

    lemma LastSize()
      requires Valid()
      ensures queue != [] ==> Last().dataSize == FramesSize(frames[|queue| - 1])
    {
      hide EncodeFrames, Separated;
      assert queue != [] ==> Holds(Last(), frames[|queue| - 1]);
    }

    /** The last packet shares no buffer with the others. */
    lemma Apart()
      requires Separated() && queue != []
      ensures forall i :: 0 <= i < |queue| - 1 ==> queue[i] != Last() && queue[i].data != Last().data
    {
    }

    method AppendPacket()
      requires Valid()
      modifies this`queue, this`frames, this`Repr
      ensures Valid() && fresh(Repr - old(Repr))
      ensures |queue| == |old(queue)| + 1 && fresh(Last()) && fresh(Last().data) && Last().dataSize == 0
      ensures Model() == PushPacket(old(Model()), [])
    {
      var packet := new Packet();
      queue := queue + [packet];
      frames := frames + [[]];
      Repr := Repr + {packet, packet.data};
      forall i | 0 <= i < |queue|
        ensures Holds(queue[i], frames[i])
      {
        if i < |queue| - 1 {
          assert old(Holds(queue[i], frames[i]));
        }
      }
    }

    /** One turn of the streaming loop: writes a frame, or opens a packet when the last one is full. */
    method StreamTurn(typ: Byte, rest: Bytes) returns (written: nat)
      requires Valid() && queue != [] && rest != []
      modifies Repr
      ensures Valid() && queue != [] && fresh(Repr - old(Repr))
      ensures written <= |rest| && (written > 0 <==> old(Available(Model())) > 0)
      ensures written == 0 ==> Available(Model()) > 0
      ensures StreamLoop(Model(), typ, rest[written..]) == StreamLoop(old(Model()), typ, rest)
    {
      assert Holds(Last(), frames[|queue| - 1]);
      var available := MAX_PACKET_POST_FRAME_SIZE - (Last().dataSize + FRAME_HEADER_SIZE);
      assert available == Available(Model());
      if available > 0 {
        written := if available < |rest| then available else |rest|;
        AppendFrame(typ, rest[..written]);
      } else {
        written := 0;
        AppendPacket();
        assert Holds(Last(), frames[|queue| - 1]);
      }
    }

    method CoalesceStream(typ: Byte, data: Bytes)
      requires Valid()
      modifies Repr
      ensures Valid() && fresh(Repr - old(Repr))
      ensures Model() == Spec.CoalesceStream(old(Model()), typ, data)
    {
      hide Valid, Available, PushPacket;
      if queue == [] {
        AppendPacket();
      }
      ghost var start := Model();
      var offset, size := 0, |data|;
      assert data[offset..] == data;
      while size > 0
        invariant 0 <= offset <= |data| && size == |data| - offset
        invariant Valid() && queue != [] && fresh(Repr - old(Repr))
        invariant StreamLoop(Model(), typ, data[offset..]) == StreamLoop(start, typ, data)
        decreases size, Available(Model()) <= 0
      {
        ghost var rest := data[offset..];
        var written := StreamTurn(typ, data[offset..]);
        assert rest[written..] == data[offset + written..];
        size := size - written;
        offset := offset + written;
      }
    }

    /** The fallback of `enqueue`: a packet of its own, holding one frame. */
    method AppendSingle(typ: Byte, data: Bytes)
      requires Valid() && |data| <= MAX_PACKET_DATA_SIZE
      modifies this`queue, this`frames, this`Repr, ids
      ensures Valid() && fresh(Repr - old(Repr))
      ensures Model() == PushPacket(old(Model()), [NextFrame(old(Model()), typ, data)])
    {
      AppendPacket();
      assert frames == old(frames) + [[]];
      ghost var f := NextFrame(old(Model()), typ, data);
      AppendFrame(typ, data);
      assert [] + [f] == [f];
      assert frames == old(frames) + [[NextFrame(old(Model()), typ, data)]];
    }

    /** `enqueue`. The size bound is the one `Sender::send` checks before calling. */
    method Enqueue(typ: Byte, data: Bytes, mode: Mode)
      requires Valid()
      requires mode.Separate? || mode.PerPacket? ==> |data| <= MAX_PACKET_DATA_SIZE
      modifies Repr
      ensures Valid() && fresh(Repr - old(Repr))
      ensures Model() == Spec.Enqueue(old(Model()), typ, data, mode)
    {
      hide Holds, Separated, Spec.CoalesceStream, EncodeMessage, EncodeFrames;
      if closed {
        return;
      }
      match mode {
        case Separate =>
          AppendSingle(typ, data);
        case PerPacket =>
          LastSize();
          if queue != [] && Last().dataSize + |data| + FRAME_HEADER_SIZE < MAX_PACKET_POST_FRAME_SIZE {
            AppendFrame(typ, data);
          } else {
            AppendSingle(typ, data);
          }
        case Stream =>
          CoalesceStream(typ, data);
        case StreamCompressed =>
          pending := pending + EncodeMessage(typ, data);
      }
    }

    method Compress(z: Zlib)
      requires Valid() && !closed && queue == [] && pending != []
      modifies Repr
      ensures Valid() && fresh(Repr - old(Repr))
      ensures Model() == Flush(old(Model()), z)
    {
      CoalesceStream(DATA_COMPRESSED, Batch(pending, z));
      pending := [];
    }

    method PopFront() returns (packet: Packet)
      requires Valid() && queue != []
      modifies this`queue, this`frames, this`Repr
      ensures Valid() && Repr == old(Repr) - {packet, packet.data}
      ensures packet in old(Repr) && packet.data in old(Repr)
      ensures Model() == old(Model()).(packets := old(frames)[1..])
      ensures Released(packet) && Holds(packet, old(frames)[0])
    {
      hide EncodeFrames;
      packet := queue[0];
      assert Holds(packet, frames[0]);
      assert forall i :: 0 < i < |queue| ==> queue[i] != packet && queue[i].data != packet.data;
      queue, frames := queue[1..], frames[1..];
      Repr := Repr - {packet, packet.data};
      hide Holds;
      forall i | 0 <= i < |queue|
        ensures Holds(queue[i], frames[i]) && queue[i] in Repr && queue[i].data in Repr
      {
        assert old(Holds(queue[i + 1], frames[i + 1])) && queue[i] == old(queue[i + 1]);
      }
    }

    method Dequeue(z: Zlib) returns (packet: Packet?)
      requires Valid()
      modifies Repr
      ensures Valid() && fresh(Repr - old(Repr))
      ensures var d := Spec.Dequeue(old(Model()), z);
              && Model() == d.queue
              && (packet == null <==> d.Nothing?)
              && (packet != null ==> Released(packet) && Holds(packet, d.frames))
              && (packet != null ==> packet in old(Repr) || fresh(packet))
    {
      hide Valid, Holds;
      if closed {
        return null;
      }
      if queue == [] && pending != [] {
        Compress(z);
      }
      if queue == [] {
        return null;
      }
      packet := PopFront();
    }

    method Close()
      requires Valid()
      modifies this`closed, this`queue, this`frames
      ensures Valid()
      ensures Model() == Spec.Close(old(Model()))
    {
      if !closed {
        closed, queue, frames := true, [], [];
      }
    }
  }
}

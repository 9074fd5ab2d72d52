/** The compressed stream: messages are gathered into batches, batches travel as frames, and the receiver
puts them together again (mrudp/sender/SendQueue.cpp, mrudp/receiver/Receiver.cpp). */
module Compression {
  import opened Wire
  import opened SendQueues

  /** The receiver's accumulation buffer and the messages handed to the application. */
  datatype Acc = Acc(buffer: Bytes, messages: seq<Bytes>)

  const Idle := Acc([], [])

  /** `processCompressedSubframes`. */
  function Subframes(b: Bytes): seq<Bytes> {
    if |b| < 5 then []
    else
      var size, body := FromU32(b[1..]), b[5..];
      if |body| < size then [] else [body[..size]] + Subframes(body[size..])
  }

  /** The messages inside a complete batch. */
  function Unpack(b: Bytes, z: Zlib): seq<Bytes> {
    if |b| < 5 then []
    else if b[4] == 0 then Subframes(b[5..])
    else if |b| < 9 then []
    else Subframes(z.inflate(b[9..]))
  }

  /** `processCompressed`: frames of other types pass by. */
  function Absorb(a: Acc, f: Frame, z: Zlib): Acc {
    var b := a.buffer + f.data;
    if f.typ != DATA_COMPRESSED then a
    else if |b| < 4 || |b| < FromU32(b) then a.(buffer := b)
    else Acc([], a.messages + Unpack(b, z))
  }

  function AbsorbAll(a: Acc, fs: seq<Frame>, z: Zlib): Acc
    decreases |fs|
  {
    if fs == [] then a else AbsorbAll(Absorb(a, fs[0], z), fs[1..], z)
  }

  function EncodeMessages(ms: seq<Bytes>): Bytes {
    if ms == [] then [] else EncodeMessage(DATA, ms[0]) + EncodeMessages(ms[1..])
  }

  ghost predicate Fit(ms: seq<Bytes>) {
    forall i :: 0 <= i < |ms| ==> |ms[i]| < 0x1_0000_0000
  }

  // ---- sequences of messages and frames ---------------------------------------------------------

  lemma {:induction false} EncodeMessagesSnoc(ms: seq<Bytes>, m: Bytes)
    ensures EncodeMessages(ms + [m]) == EncodeMessages(ms) + EncodeMessage(DATA, m)
  {
    hide EncodeMessage;
    if ms == [] {
      assert [] + [m] == [m] && [m][1..] == [];
      assert EncodeMessages([m][1..]) == [];
    } else {
      EncodeMessagesSnoc(ms[1..], m);
      assert (ms + [m])[1..] == ms[1..] + [m];
    }
  }

  lemma {:induction false} AbsorbAllAppend(a: Acc, fs: seq<Frame>, gs: seq<Frame>, z: Zlib)
    ensures AbsorbAll(a, fs + gs, z) == AbsorbAll(AbsorbAll(a, fs, z), gs, z)
    decreases |fs|
  {
    hide Absorb;
    if fs == [] {
      assert fs + gs == gs;
    } else {
      AbsorbAllAppend(Absorb(a, fs[0], z), fs[1..], gs, z);
      assert fs + gs == [fs[0]] + (fs[1..] + gs);
      assert (fs + gs)[1..] == fs[1..] + gs;
    }
  }

  /** What has been handed over is never taken back. */
  lemma {:induction false} AbsorbAllGrows(a: Acc, fs: seq<Frame>, z: Zlib)
    ensures a.messages <= AbsorbAll(a, fs, z).messages
    decreases |fs|
  {
    if fs != [] {
      hide Unpack;
      AbsorbAllGrows(Absorb(a, fs[0], z), fs[1..], z);
    }
  }

  // ---- round trips -----------------------------------------------------------------------------

  lemma SubframesUnfold(m: Bytes, tail: Bytes)
    requires |m| < 0x1_0000_0000
    ensures Subframes(EncodeMessage(DATA, m) + tail) == [m] + Subframes(tail)
  {
    hide U32, FromU32;
    var b := EncodeMessage(DATA, m) + tail;
    U32RoundTrip(|m|, m + tail);
    assert b[1..] == U32(|m|) + (m + tail);
    assert b[5..] == m + tail;
    assert b[5..][..|m|] == m && b[5..][|m|..] == tail;
  }

  lemma {:induction false} SubframesRoundTrip(ms: seq<Bytes>)
    requires Fit(ms)
    ensures Subframes(EncodeMessages(ms)) == ms
  {
    if ms != [] {
      hide EncodeMessage, Subframes;
      SubframesRoundTrip(ms[1..]);
      SubframesUnfold(ms[0], EncodeMessages(ms[1..]));
      assert ms == [ms[0]] + ms[1..];
    } else {
      assert EncodeMessages(ms) == [];
    }
  }

  /** Compressed or not, a batch announces its own length and unpacks to what was pending. */
  lemma BatchRoundTrip(pending: Bytes, z: Zlib)
    requires Lawful(z) && |pending| + 9 < 0x1_0000_0000
    ensures var b := Batch(pending, z);
            |b| >= 5 && FromU32(b) == |b| && Unpack(b, z) == Subframes(pending)
    ensures var b, packed := Batch(pending, z), z.level > 0 && |pending| >= 48 && z.deflate(pending).Some?;
            (b[4] == if packed then 1 else 0) && |b| == if packed then 9 + |z.deflate(pending).value| else 5 + |pending|
  {
    hide U32, FromU32, Subframes;
    var b := Batch(pending, z);
    if z.level > 0 && |pending| >= 48 && z.deflate(pending).Some? {
      var c := z.deflate(pending).value;
      U32RoundTrip(9 + |c|, b[4..]);
      assert b == U32(9 + |c|) + b[4..];
      assert b[9..] == c;
    } else {
      U32RoundTrip(5 + |pending|, b[4..]);
      assert b == U32(5 + |pending|) + b[4..];
      assert b[5..] == pending;
    }
  }

  /** Absorbing one more frame of an unfinished batch. */
  lemma AbsorbPart(a: Acc, f: Frame, batch: Bytes, z: Zlib)
    requires f.typ == DATA_COMPRESSED && |batch| >= 5 && FromU32(batch) == |batch|
    requires a.buffer + f.data <= batch
    ensures Absorb(a, f, z) ==
            if a.buffer + f.data == batch then Acc([], a.messages + Unpack(batch, z))
                else a.(buffer := a.buffer + f.data)
  {
    hide Unpack;
    var b := a.buffer + f.data;
    if |b| >= 4 {
      FromU32Prefix(b, batch);
    }
    if |b| == |batch| {
      assert b == batch;
    }
  }

  lemma PayloadUncons(fs: seq<Frame>, buffer: Bytes)
    requires fs != []
    ensures buffer + Payload(fs) == buffer + fs[0].data + Payload(fs[1..])
  {
  }

  lemma PayloadNonEmpty(fs: seq<Frame>)
    requires fs != [] && NoneEmpty(fs)
    ensures Payload(fs) != []
  {
  }

  /** The frames of a batch fill the buffer exactly: it is emptied by the last one and by no other. */
  lemma {:induction false} AbsorbBatch(a: Acc, fs: seq<Frame>, batch: Bytes, z: Zlib)
    requires fs != [] && NoneEmpty(fs) && (forall i :: 0 <= i < |fs| ==> fs[i].typ == DATA_COMPRESSED)
    requires |batch| >= 5 && FromU32(batch) == |batch| && a.buffer + Payload(fs) == batch
    ensures AbsorbAll(a, fs, z) == Acc([], a.messages + Unpack(batch, z))
    decreases |fs|
  {
    hide Unpack, FromU32, Absorb;
    var f, rest := fs[0], fs[1..];
    PayloadUncons(fs, a.buffer);
    AbsorbPart(a, f, batch, z);
    if rest == [] {
      assert Payload(rest) == [];
      assert AbsorbAll(Absorb(a, f, z), rest, z) == Absorb(a, f, z);
    } else {
      PayloadNonEmpty(rest);
      AbsorbBatch(Absorb(a, f, z), rest, batch, z);
    }
  }

  /** Part-way through a batch the buffer holds exactly what has arrived, short of the batch's end. */
  lemma {:induction false} AbsorbNeverPassesEnd(a: Acc, fs: seq<Frame>, batch: Bytes, z: Zlib, k: nat)
    requires k < |fs| && NoneEmpty(fs) && (forall i :: 0 <= i < |fs| ==> fs[i].typ == DATA_COMPRESSED)
    requires |batch| >= 5 && FromU32(batch) == |batch| && a.buffer + Payload(fs) == batch
    ensures var b := AbsorbAll(a, fs[..k], z);
            b.messages == a.messages && b.buffer <= batch && |b.buffer| < |batch|
    decreases k
  {
    hide Unpack, FromU32, Absorb;
    PayloadNonEmpty(fs);
    if k > 0 {
      var f, rest := fs[0], fs[1..];
      PayloadUncons(fs, a.buffer);
      AbsorbPart(a, f, batch, z);
      PayloadNonEmpty(rest);
      AbsorbNeverPassesEnd(Absorb(a, f, z), rest, batch, z, k - 1);
      assert fs[..k][1..] == rest[..k - 1];
    }
  }
}

/** The accumulation buffer and the subframe loop as the receiver runs them. */
module CompressedReceivers {
  import opened Wire
  import opened SendQueues
  import opened Spec = Compression

  class CompressedReceiver {
    const zlib: Zlib
    var compressed: Bytes
    /** The calls of `connection->receive`, oldest first. */
    var received: seq<Bytes>

    ghost function Model(): Acc
      reads this
    {
      Acc(compressed, received)
    }

    constructor (zlib: Zlib)
      ensures Model() == Idle && this.zlib == zlib
    {
      this.zlib, compressed, received := zlib, [], [];
    }

    /** A header that is cut off ends the loop here; the source would read beyond its buffer. */
    method ProcessCompressedSubframes(bytes: Bytes)
      modifies this`received
      ensures received == old(received) + Subframes(bytes)
    {
      hide FromU32;
      var p, end := 0, |bytes|;
      assert bytes[p..] == bytes;
      while p < end
        invariant 0 <= p <= end
        invariant received + Subframes(bytes[p..]) == old(received) + Subframes(bytes)
      {
        var rest := bytes[p..];
        if end - p < 5 {
          break;
        }
        var frameSize := FromU32(rest[1..]);
        if end - p - 5 < frameSize {
          break;
        }
        assert rest[5..][..frameSize] == bytes[p + 5..p + 5 + frameSize];
        assert rest[5..][frameSize..] == bytes[p + 5 + frameSize..];
        received := received + [bytes[p + 5..p + 5 + frameSize]];
        p := p + 5 + frameSize;
      }
    }

    method ProcessCompressed(f: Frame)
      requires f.typ == DATA_COMPRESSED
      modifies this
      ensures Model() == Absorb(old(Model()), f, zlib)
    {
      compressed := compressed + f.data;
      if |compressed| < 4 {
        return;
      }
      var bufferSize := FromU32(compressed);
      if |compressed| < bufferSize {
        return;
      }
      if |compressed| >= 5 {
        var wasCompressed := compressed[4];
        if wasCompressed == 0 {
          ProcessCompressedSubframes(compressed[5..]);
        } else if |compressed| >= 9 {
          ProcessCompressedSubframes(zlib.inflate(compressed[9..]));
        }
      }
      compressed := [];
    }
  }
}

/** What the application sees at the far end of a connection, for each coalescing mode. */
module Delivery {
  import opened Wire
  import opened SendQueues
  import opened Transport
  import C = Compression

  /** The calls of the application's receive handler made by plain data frames. */
  function Handed(fs: seq<Frame>): seq<Bytes> {
    if fs == [] then []
    else (if fs[0].typ == DATA then [fs[0].data] else []) + Handed(fs[1..])
  }

  lemma {:induction false} HandedAppend(fs: seq<Frame>, gs: seq<Frame>)
    ensures Handed(fs + gs) == Handed(fs) + Handed(gs)
  {
    if fs == [] {
      assert fs + gs == gs;
    } else {
      HandedAppend(fs[1..], gs);
      assert fs + gs == [fs[0]] + (fs[1..] + gs);
      assert (fs + gs)[1..] == fs[1..] + gs;
    }
  }

  lemma {:induction false} HandedData(fs: seq<Frame>)
    requires forall i :: 0 <= i < |fs| ==> fs[i].typ == DATA
    ensures Concat(Handed(fs)) == Payload(fs)
    ensures |fs| == 1 ==> Handed(fs) == [fs[0].data]
  {
    if fs != [] {
      HandedData(fs[1..]);
      assert Handed(fs) == [fs[0].data] + Handed(fs[1..]);
      assert Handed(fs)[1..] == Handed(fs[1..]);
    }
  }

  // ---- uncompressed modes ----------------------------------------------------------------------

  /** No message of the run is streamed: each is a frame of its own. */
  ghost predicate Unstreamed(steps: seq<Step>) {
    forall i :: 0 <= i < |steps| && steps[i].Send? ==> !steps[i].mode.Stream?
  }

  /** The numbered frames carry exactly the accepted bytes (message by message if `whole`), and a close frame
  is nowhere but at the very end. */
  ghost predicate Plain(s: Sys, whole: bool) {
    && s.queue.pending == []
    && Concat(Handed(s.log)) == Concat(s.accepted)
    && (whole ==> Handed(s.log) == s.accepted)
    && (s.finished ==> s.log != [] && s.log[|s.log| - 1].typ == CLOSE_WRITE && s.status.Closed?)
    && forall k :: 0 <= k < |s.log| - (if s.finished then 1 else 0) ==> s.log[k].typ == DATA
  }

  lemma SendEffect(c: Config, s: Sys, data: Bytes, mode: Mode) returns (fs: seq<Frame>)
    requires Inv(s) && !mode.StreamCompressed? && !Refuses(s.status, data, mode)
    ensures var t := Next(c, s, Send(data, mode));
            && t.log == s.log + fs && t.queue.pending == s.queue.pending && t.accepted == s.accepted + [data]
            && t.status == s.status && t.finished == s.finished
    ensures Spells(fs, s.queue.next, DATA, data)
    ensures !mode.Stream? ==> |fs| == 1
  {
    hide R.Ordered, Conserved, Log, Enqueue, Appended, R.Numbered, Concat, Small;
    fs := EnqueueAppended(s.queue, DATA, data, mode);
    EnqueueLeaves(s.queue, DATA, data, mode);
    AppendKeeps(s, Enqueue(s.queue, DATA, data, mode), fs);
  }

  /** Closing numbers one close frame at once, whatever the mode. */
  lemma CloseEffect(c: Config, s: Sys) returns (f: Frame)
    requires Inv(s) && !s.status.Closed?
    ensures var t := Next(c, s, CloseSender);
            t.log == s.log + [f] && t.queue.pending == s.queue.pending && t.accepted == s.accepted
    ensures f.typ == CLOSE_WRITE
  {
    hide R.Ordered, Conserved, Log, Enqueue, Appended, Payload, R.Numbered, Concat, Small;
    var fs := EnqueueAppended(s.queue, CLOSE_WRITE, [], PerPacket);
    EnqueueLeaves(s.queue, CLOSE_WRITE, [], PerPacket);
    AppendKeeps(s, Enqueue(s.queue, CLOSE_WRITE, [], PerPacket), fs);
    f := fs[0];
    assert fs == [f];
  }

  lemma PlainSend(c: Config, s: Sys, data: Bytes, mode: Mode, whole: bool)
    requires Inv(s) && Plain(s, whole) && !mode.StreamCompressed? && !Refuses(s.status, data, mode)
    requires whole ==> !mode.Stream?
    ensures Plain(Next(c, s, Send(data, mode)), whole)
  {
    var fs := SendEffect(c, s, data, mode);
    hide Inv, Next, Handed, Payload, Concat;
    HandedAppend(s.log, fs);
    HandedData(fs);
    ConcatAppend(Handed(s.log), Handed(fs));
    ConcatSnoc(s.accepted, data);
    if |fs| == 1 {
      PayloadOne(fs[0]);
      assert fs == [fs[0]];
    }
    assert !s.finished;
  }

  lemma HandedClose(f: Frame)
    requires f.typ == CLOSE_WRITE
    ensures Handed([f]) == []
  {
    assert [f][1..] == [] && Handed([f][1..]) == [];
  }

  lemma PlainClose(c: Config, s: Sys, whole: bool)
    requires Inv(s) && Plain(s, whole) && !s.status.Closed?
    ensures Plain(Next(c, s, CloseSender), whole)
  {
    var f := CloseEffect(c, s);
    hide Inv, Handed, Enqueue, WithQueue, Concat;
    HandedAppend(s.log, [f]);
    HandedClose(f);
    assert Handed(s.log) + [] == Handed(s.log);
    assert !s.finished;
  }

  lemma PlainTransmit(c: Config, s: Sys, whole: bool)
    requires Plain(s, whole)
    ensures Plain(TransmitStep(c, s), whole)
  {
    assert Flush(s.queue, c.zlib) == s.queue;
    assert Log(s.queue)[|Log(s.queue)|..] == [];
    assert s.log + [] == s.log;
  }

  lemma PlainNext(c: Config, s: Sys, step: Step, whole: bool)
    requires Inv(s) && Plain(s, whole)
    requires step.Send? ==> !step.mode.StreamCompressed? && (whole ==> !step.mode.Stream?)
    ensures Plain(Next(c, s, step), whole)
  {
    hide Inv, TransmitStep, WithQueue, Enqueue, Handed;
    match step {
      case Send(data, mode) => if !Refuses(s.status, data, mode) { PlainSend(c, s, data, mode, whole); }
      case CloseSender => if !s.status.Closed? { PlainClose(c, s, whole); }
      case Transmit => PlainTransmit(c, s, whole);
      case _ =>
    }
  }

  lemma {:induction false} PlainRun(c: Config, s: Sys, steps: seq<Step>, whole: bool)
    requires Inv(s) && Plain(s, whole) && AllowedRun(c, s, steps)
    requires Uncompressed(steps) && (whole ==> Unstreamed(steps))
    ensures Inv(Run(c, s, steps)) && Plain(Run(c, s, steps), whole)
    decreases |steps|
  {
    hide Inv, Plain, Next, Allowed;
    if steps != [] {
      NextKeeps(c, s, steps[0]);
      PlainNext(c, s, steps[0], whole);
      PlainRun(c, Next(c, s, steps[0]), steps[1..], whole);
    }
  }

  lemma HandedPrefix(fs: seq<Frame>, gs: seq<Frame>)
    requires fs <= gs
    ensures Handed(fs) <= Handed(gs) && Concat(Handed(fs)) <= Concat(Handed(gs))
  {
    var rest := gs[|fs|..];
    assert gs == fs + rest;
    HandedAppend(fs, rest);
    ConcatAppend(Handed(fs), Handed(rest));
  }

  /** The application is handed a prefix of the bytes accepted by `send`; without streaming, a prefix of
  the very messages, boundaries included. */
  lemma HandsOverAPrefix(c: Config, steps: seq<Step>)
    requires Uncompressed(steps) && AllowedRun(c, Init, steps)
    ensures var s := Run(c, Init, steps);
            && Concat(Handed(s.rq.delivered)) <= Concat(s.accepted)
            && (Unstreamed(steps) ==> Handed(s.rq.delivered) <= s.accepted)
  {
    InitInv();
    PlainRun(c, Init, steps, false);
    if Unstreamed(steps) {
      PlainRun(c, Init, steps, true);
    }
    var s := Run(c, Init, steps);
    HandedPrefix(s.rq.delivered, s.log);
  }

  /** After a close nothing is accepted or numbered any more. */
  lemma {:induction false} ClosedIsFinal(c: Config, s: Sys, steps: seq<Step>)
    requires s.status.Closed? && s.queue.pending == []
    ensures var t := Run(c, s, steps); t.log == s.log && t.accepted == s.accepted
    decreases |steps|
  {
    if steps != [] {
      ClosedStep(c, s, steps[0]);
      ClosedIsFinal(c, Next(c, s, steps[0]), steps[1..]);
    }
  }

  lemma ClosedStep(c: Config, s: Sys, step: Step)
    requires s.status.Closed? && s.queue.pending == []
    ensures var t := Next(c, s, step);
            && t.log == s.log && t.accepted == s.accepted
            && t.status.Closed? && t.queue.pending == []
  {
    hide Log, Concat, Walk, R.ReceiveAll;
    if step.Transmit? {
      assert Flush(s.queue, c.zlib) == s.queue;
      assert Log(s.queue)[|Log(s.queue)|..] == [];
    }
  }

  /** Graceful close is complete: when the close frame is processed the application has been handed every
  byte that `send` accepted, and nothing follows it however long the run goes on. */
  lemma GracefulCloseIsComplete(c: Config, steps: seq<Step>, more: seq<Step>, i: nat)
    requires Uncompressed(steps) && AllowedRun(c, Init, steps)
    requires i < |Run(c, Init, steps).rq.delivered| && Run(c, Init, steps).rq.delivered[i].typ == CLOSE_WRITE
    ensures var s := Run(c, Init, steps);
            && i == |s.log| - 1 && s.rq.delivered == s.log
            && Concat(Handed(s.rq.delivered)) == Concat(s.accepted)
            && (Unstreamed(steps) ==> Handed(s.rq.delivered) == s.accepted)
            && Run(c, s, more).log == s.log && Run(c, s, more).accepted == s.accepted
  {
    InitInv();
    PlainRun(c, Init, steps, false);
    if Unstreamed(steps) {
      PlainRun(c, Init, steps, true);
    }
    var s := Run(c, Init, steps);
    assert s.log[i].typ == CLOSE_WRITE;
    ClosedIsFinal(c, s, more);
  }

  // ---- compressed mode -------------------------------------------------------------------------

  /** The messages the receiver has decoded after processing `fs`. */
  function Decoded(c: Config, fs: seq<Frame>): C.Acc {
    C.AbsorbAll(C.Idle, fs, c.zlib)
  }

  /** Every message of the run is compressed. */
  ghost predicate Compressed(steps: seq<Step>) {
    forall i :: 0 <= i < |steps| && steps[i].Send? ==> steps[i].mode.StreamCompressed?
  }

  /** The numbered frames are whole batches; what they do not carry yet is pending, message by message. */
  ghost predicate Packed(c: Config, s: Sys) {
    var d := Decoded(c, s.log);
    && d.buffer == [] && d.messages <= s.accepted
    && s.queue.pending == C.EncodeMessages(s.accepted[|d.messages|..])
    && |s.queue.pending| + 9 < 0x8000_0000
  }

  lemma {:induction false} EncodedFit(ms: seq<Bytes>)
    requires |C.EncodeMessages(ms)| < 0x8000_0000
    ensures C.Fit(ms)
  {
    if ms != [] {
      hide EncodeMessage;
      assert |EncodeMessage(DATA, ms[0])| == 5 + |ms[0]| by { EncodeMessageSize(DATA, ms[0]); }
      EncodedFit(ms[1..]);
      assert ms == [ms[0]] + ms[1..];
    }
  }

  lemma EncodeMessageSize(typ: Byte, m: Bytes)
    ensures |EncodeMessage(typ, m)| == 5 + |m|
  {
    hide U32;
  }

  lemma PackedSend(c: Config, s: Sys, data: Bytes)
    requires Packed(c, s) && Allowed(c, s, Send(data, StreamCompressed)) && !s.status.Closed? && !s.queue.closed
    ensures Packed(c, Next(c, s, Send(data, StreamCompressed)))
  {
    hide Decoded, EncodeMessage;
    var n := |Decoded(c, s.log).messages|;
    C.EncodeMessagesSnoc(s.accepted[n..], data);
    EncodeMessageSize(DATA, data);
    assert (s.accepted + [data])[n..] == s.accepted[n..] + [data];
    assert Log(s.queue)[|Log(s.queue)|..] == [];
    assert s.log + [] == s.log;
    assert Next(c, s, Send(data, StreamCompressed)).log == s.log;
  }

  lemma DecodedClose(c: Config, log: seq<Frame>, f: Frame)
    requires f.typ == CLOSE_WRITE
    ensures Decoded(c, log + [f]) == Decoded(c, log)
  {
    C.AbsorbAllAppend(C.Idle, log, [f], c.zlib);
    var d := Decoded(c, log);
    assert [f][1..] == [] && C.AbsorbAll(C.Absorb(d, f, c.zlib), [f][1..], c.zlib) == d;
  }

  lemma PackedClose(c: Config, s: Sys)
    requires Inv(s) && Packed(c, s) && !s.status.Closed?
    ensures Packed(c, Next(c, s, CloseSender))
  {
    var f := CloseEffect(c, s);
    hide Inv, Enqueue, WithQueue, Decoded;
    DecodedClose(c, s.log, f);
  }

  /** A flushed batch carries all that was pending: nothing is left behind. */
  lemma PackedFlush(c: Config, s: Sys)
    requires Inv(s) && Packed(c, s) && Lawful(c.zlib) && !s.queue.closed
    ensures var q := Flush(s.queue, c.zlib); Packed(c, WithQueue(s, q)) && (s.queue.packets == [] ==> q.pending == [])
  {
    var fs := FlushAppended(s.queue, c.zlib);
    var q := Flush(s.queue, c.zlib);
    AppendKeeps(s, q, fs);
    if s.queue.packets == [] && s.queue.pending != [] {
      PackedBatch(c, s.log, fs, s.queue.next, s.accepted, s.queue.pending);
    } else {
      assert s.log + [] == s.log;
    }
  }

  lemma PackedBatch(c: Config, log: seq<Frame>, fs: seq<Frame>, next: nat, accepted: seq<Bytes>, pending: Bytes)
    requires Lawful(c.zlib) && |pending| + 9 < 0x8000_0000
    requires var d := Decoded(c, log);
             d.buffer == [] && d.messages <= accepted && pending == C.EncodeMessages(accepted[|d.messages|..])
    requires fs != [] && NoneEmpty(fs) && Spells(fs, next, DATA_COMPRESSED, Batch(pending, c.zlib))
    ensures Decoded(c, log + fs) == C.Acc([], accepted)
    ensures C.EncodeMessages(accepted[|accepted|..]) == []
  {
    hide Batch, C.EncodeMessages, C.AbsorbAll, C.Unpack, C.Subframes, FromU32;
    var d := Decoded(c, log);
    var rest := accepted[|d.messages|..];
    C.BatchRoundTrip(pending, c.zlib);
    EncodedFit(rest);
    C.SubframesRoundTrip(rest);
    C.AbsorbAllAppend(C.Idle, log, fs, c.zlib);
    assert d.buffer + Payload(fs) == Batch(pending, c.zlib);
    C.AbsorbBatch(d, fs, Batch(pending, c.zlib), c.zlib);
    assert d.messages + rest == accepted;
    NothingEncoded(accepted[|accepted|..]);
  }

  lemma NothingEncoded(ms: seq<Bytes>)
    ensures C.EncodeMessages(ms) == [] <==> ms == []
  {
    if ms != [] {
      EncodeMessageSize(DATA, ms[0]);
    }
  }

  lemma PackedTransmit(c: Config, s: Sys)
    requires Inv(s) && Packed(c, s) && Lawful(c.zlib)
    ensures Packed(c, TransmitStep(c, s))
  {
    hide Inv, Flush;
    if s.queue.closed {
      FlushClosed(s, c.zlib);
    } else {
      PackedFlush(c, s);
    }
  }

  lemma PackedNext(c: Config, s: Sys, step: Step)
    requires Inv(s) && Packed(c, s) && Lawful(c.zlib) && Allowed(c, s, step)
    requires step.Send? ==> step.mode.StreamCompressed?
    ensures Packed(c, Next(c, s, step))
  {
    match step {
      case Send(data, _) => if !s.status.Closed? { PackedSend(c, s, data); }
      case CloseSender => if !s.status.Closed? { PackedClose(c, s); }
      case Transmit => PackedTransmit(c, s);
      case Fail => hide Decoded, C.EncodeMessages;
      case _ => hide Decoded, C.EncodeMessages;
    }
  }

  lemma {:induction false} PackedRun(c: Config, s: Sys, steps: seq<Step>)
    requires Inv(s) && Packed(c, s) && Lawful(c.zlib) && Compressed(steps) && AllowedRun(c, s, steps)
    ensures Inv(Run(c, s, steps)) && Packed(c, Run(c, s, steps))
    decreases |steps|
  {
    hide Inv, Packed, Next, Allowed;
    if steps != [] {
      NextKeeps(c, s, steps[0]);
      PackedNext(c, s, steps[0]);
      PackedRun(c, Next(c, s, steps[0]), steps[1..]);
    }
  }

  lemma InitPacked(c: Config)
    ensures Packed(c, Init)
  {
    assert Decoded(c, []) == C.Idle;
  }

  /** Compressed round trip, end to end: whichever batches compressed and however messages, flushes and
  deliveries interleave, the application is handed a prefix of the accepted messages, boundaries included;
  and once a sender that never failed is empty it has been handed all of them. */
  lemma CompressedRoundTrip(c: Config, steps: seq<Step>)
    requires Compressed(steps) && Lawful(c.zlib) && AllowedRun(c, Init, steps)
    ensures var s := Run(c, Init, steps);
            && Decoded(c, s.rq.delivered).messages <= s.accepted
            && (!s.failed && s.window == map[] && IsEmpty(s.queue) ==>
                Decoded(c, s.rq.delivered) == C.Acc([], s.accepted))
  {
    InitInv();
    InitPacked(c);
    PackedRun(c, Init, steps);
    EmptySenderDelivered(c, steps);
    hide Run, AllowedRun, Conserved, Logged, C.AbsorbAll, C.EncodeMessages;
    var s := Run(c, Init, steps);
    var rest := s.log[|s.rq.delivered|..];
    assert s.log == s.rq.delivered + rest;
    C.AbsorbAllAppend(C.Idle, s.rq.delivered, rest, c.zlib);
    C.AbsorbAllGrows(Decoded(c, s.rq.delivered), rest, c.zlib);
    NothingEncoded(s.accepted[|Decoded(c, s.log).messages|..]);
  }

  ghost predicate Batches(fs: seq<Frame>) {
    forall k :: 0 <= k < |fs| ==> fs[k].typ == DATA_COMPRESSED
  }

  lemma TransmitNumbersBatches(c: Config, s: Sys) returns (fs: seq<Frame>)
    requires Inv(s)
    ensures TransmitStep(c, s).log == s.log + fs && Batches(fs)
  {
    hide R.Ordered, Conserved, Log, Concat, R.Numbered, Small, Flush, WithQueue;
    fs := [];
    assert s.log + [] == s.log;
    if !s.status.Uninitialized? {
      if s.queue.closed {
        FlushClosed(s, c.zlib);
      } else {
        fs := FlushAppended(s.queue, c.zlib);
        AppendKeeps(s, Flush(s.queue, c.zlib), fs);
      }
    }
  }

  /** A compressed message is only gathered. */
  lemma GatheringNumbersNothing(s: Sys, data: Bytes)
    ensures WithQueue(s, Enqueue(s.queue, DATA, data, StreamCompressed)).log == s.log
  {
    var q := Enqueue(s.queue, DATA, data, StreamCompressed);
    assert q.packets == s.queue.packets;
    assert Log(s.queue)[|Log(s.queue)|..] == [];
    assert s.log + [] == s.log;
  }

  /** A step other than the close numbers nothing but batches. */
  lemma StepNumbersBatches(c: Config, s: Sys, step: Step) returns (fs: seq<Frame>)
    requires Inv(s) && (step.Send? ==> step.mode.StreamCompressed?) && (step.CloseSender? ==> s.status.Closed?)
    ensures Next(c, s, step).log == s.log + fs && Batches(fs)
  {
    hide Inv, TransmitStep, WithQueue, Enqueue, R.Drain, R.ReceiveAll, Walk;
    fs := [];
    assert s.log + [] == s.log;
    match step {
      case Send(data, mode) => GatheringNumbersNothing(s, data);
      case Transmit => fs := TransmitNumbersBatches(c, s);
      case _ =>
    }
  }

  /** Closed stays closed, and nothing more is accepted. */
  lemma StaysClosed(c: Config, s: Sys, step: Step)
    requires s.status.Closed?
    ensures Next(c, s, step).status.Closed? && Next(c, s, step).accepted == s.accepted
  {
    hide Log, Flush, Enqueue;
  }

  /** After a close only batches are numbered, however long the run goes on. */
  lemma {:induction false} ClosedNumbersBatches(c: Config, s: Sys, steps: seq<Step>) returns (fs: seq<Frame>)
    requires Inv(s) && s.status.Closed? && Compressed(steps) && AllowedRun(c, s, steps)
    ensures var t := Run(c, s, steps); Inv(t) && t.log == s.log + fs && Batches(fs) && t.accepted == s.accepted
    decreases |steps|
  {
    hide Inv, Next, Allowed;
    fs := [];
    assert s.log + [] == s.log;
    if steps != [] {
      var now := StepNumbersBatches(c, s, steps[0]);
      StaysClosed(c, s, steps[0]);
      NextKeeps(c, s, steps[0]);
      var later := ClosedNumbersBatches(c, Next(c, s, steps[0]), steps[1..]);
      Assoc(s.log, now, later);
      fs := now + later;
    }
  }

  /** Up to the close there is nothing but batches. */
  lemma {:induction false} OpenNumbersBatches(c: Config, s: Sys, steps: seq<Step>)
    requires Inv(s) && Compressed(steps) && AllowedRun(c, s, steps) && (!s.status.Closed? ==> Batches(s.log))
    ensures !Run(c, s, steps).status.Closed? ==> Batches(Run(c, s, steps).log)
    decreases |steps|
  {
    hide Inv, Allowed;
    if steps != [] {
      NextKeeps(c, s, steps[0]);
      if s.status.Closed? {
        StaysClosed(c, s, steps[0]);
      } else if !steps[0].CloseSender? {
        var _ := StepNumbersBatches(c, s, steps[0]);
      }
      hide Next;
      OpenNumbersBatches(c, Next(c, s, steps[0]), steps[1..]);
    }
  }

  ghost predicate NoPlainData(fs: seq<Frame>) {
    forall k :: 0 <= k < |fs| ==> fs[k].typ != DATA
  }

  lemma {:induction false} RunNoPlainData(c: Config, s: Sys, steps: seq<Step>)
    requires Inv(s) && Compressed(steps) && AllowedRun(c, s, steps) && NoPlainData(s.log)
    ensures NoPlainData(Run(c, s, steps).log)
    decreases |steps|
  {
    hide Inv, Allowed, Next;
    if steps != [] {
      NextKeeps(c, s, steps[0]);
      if steps[0].CloseSender? && !s.status.Closed? {
        var _ := CloseEffect(c, s);
      } else {
        var _ := StepNumbersBatches(c, s, steps[0]);
      }
      RunNoPlainData(c, Next(c, s, steps[0]), steps[1..]);
    }
  }

  /** With every message compressed, no frame delivered carries plain data. */
  lemma OnlyBatches(c: Config, steps: seq<Step>)
    requires Compressed(steps) && AllowedRun(c, Init, steps)
    ensures NoPlainData(Run(c, Init, steps).rq.delivered)
  {
    InitInv();
    RunNoPlainData(c, Init, steps);
    RunKeeps(c, Init, steps);
    DeliveredInLog(Run(c, Init, steps));
  }

  /** With no message compressed, no frame delivered is part of a batch. */
  lemma NoBatches(c: Config, steps: seq<Step>)
    requires Uncompressed(steps) && AllowedRun(c, Init, steps)
    ensures forall k :: 0 <= k < |Run(c, Init, steps).rq.delivered| ==>
              Run(c, Init, steps).rq.delivered[k].typ != DATA_COMPRESSED
  {
    InitInv();
    PlainRun(c, Init, steps, false);
    hide Inv, Run, AllowedRun, Plain;
    DeliveredInLog(Run(c, Init, steps));
    PlainTypes(Run(c, Init, steps));
  }

  lemma PlainBytes(s: Sys)
    requires Plain(s, false)
    ensures Concat(Handed(s.log)) == Concat(s.accepted)
  {
  }

  lemma PlainTypes(s: Sys)
    requires Plain(s, false)
    ensures forall k :: 0 <= k < |s.log| ==> s.log[k].typ != DATA_COMPRESSED
  {
    hide Handed, Concat;
  }

  /** The state before the close, and the log right after it. */
  lemma CloseInRun(c: Config, before: seq<Step>)
    requires Compressed(before) && Lawful(c.zlib) && AllowedRun(c, Init, before)
    requires !Run(c, Init, before).status.Closed?
    ensures var s := Run(c, Init, before);
            var t := Next(c, s, CloseSender);
            && Inv(t) && t.status.Closed? && Batches(s.log) && |t.log| == |s.log| + 1 && s.log <= t.log
            && (Decoded(c, t.log).messages == t.accepted <==> s.queue.pending == [])
  {
    InitInv();
    InitPacked(c);
    PackedRun(c, Init, before);
    OpenNumbersBatches(c, Init, before);
    var s := Run(c, Init, before);
    var f := CloseEffect(c, s);
    NextKeeps(c, s, CloseSender);
    hide Inv, Run, AllowedRun, Decoded, C.EncodeMessages, Enqueue, WithQueue;
    DecodedClose(c, s.log, f);
    NothingEncoded(s.accepted[|Decoded(c, s.log).messages|..]);
  }

  /** Graceful close in compressed mode, over whole runs: when the receiver processes the close frame, the
  application has been handed every accepted message if and only if nothing was waiting to be compressed when
  `close` was called. The close frame is numbered at once, ahead of the batch with the pending messages. */
  lemma CompressedCloseExact(c: Config, before: seq<Step>, after: seq<Step>, i: nat)
    requires Compressed(before) && Compressed(after) && Lawful(c.zlib)
    requires AllowedRun(c, Init, before) && !Run(c, Init, before).status.Closed?
    requires AllowedRun(c, Next(c, Run(c, Init, before), CloseSender), after)
    requires var u := Run(c, Next(c, Run(c, Init, before), CloseSender), after);
             i < |u.rq.delivered| && u.rq.delivered[i].typ == CLOSE_WRITE
    ensures var s := Run(c, Init, before);
            var u := Run(c, Next(c, s, CloseSender), after);
            && i == |s.log|
            && (Decoded(c, u.rq.delivered[..i + 1]).messages == u.accepted <==> s.queue.pending == [])
  {
    CloseInRun(c, before);
    var s := Run(c, Init, before);
    var t := Next(c, s, CloseSender);
    hide Next, Run, AllowedRun, Decoded;
    var rest := ClosedNumbersBatches(c, t, after);
    var u := Run(c, t, after);
    DeliveredInLog(u);
    assert i == |s.log|;
    assert u.rq.delivered[..i + 1] == t.log;
  }

  lemma DeliveredInLog(u: Sys)
    requires Inv(u)
    ensures u.rq.delivered <= u.log
  {
  }

  /** Such a run: one message is accepted, the connection is closed, and the first packet delivered makes
  the receiver close before the message has even been numbered. */
  lemma CompressedCloseWitness(z: Zlib) returns (s: Sys)
    ensures var c := Config(z);
            var steps := [Send([7], StreamCompressed), CloseSender, OpenReceiver, Transmit, Deliver(0)];
            && AllowedRun(c, Init, steps) && s == Run(c, Init, steps)
            && s.rstatus.Closed? && Decoded(c, s.rq.delivered).messages == [] && s.accepted == [[7]]
  {
    var c := Config(z);
    var f := Frame(0, CLOSE_WRITE, []);
    var pending := EncodeMessage(DATA, [7]);
    var s1 := Init.(queue := Empty.(pending := pending), accepted := [[7]]);
    assert Next(c, Init, Send([7], StreamCompressed)) == s1 by {
      assert Log(s1.queue) == [];
      assert [] + pending == pending;
    }
    var s2 := s1.(queue := Queue([[f]], 1, pending, false), log := [f], status := Closed, finished := true);
    assert Next(c, s1, CloseSender) == s2 by {
      ConcatOne([f]);
      assert Enqueue(s1.queue, CLOSE_WRITE, [], PerPacket) == s2.queue;
      assert Log(s1.queue) == [];
    }
    var s3 := s2.(rstatus := Open);
    assert Next(c, s2, OpenReceiver) == s3;
    var s4 := s3.(queue := Queue([], 1, pending, false), packets := [[f]], window := map[0 := 0]);
    assert Next(c, s3, Transmit) == s4 by {
      assert WithQueue(s3, s3.queue) == s3;
      assert Dequeue(s3.queue, z) == Took(s4.queue, [f]);
    }
    WalkRoundTrip([f]);
    var rq := R.State(1, map[], [f]);
    assert R.ReceiveAll(R.Start, [f]) == rq by {
      assert [f][1..] == [] && R.ReceiveAll(R.ReceiveFrame(R.Start, f), []) == rq;
    }
    s := s4.(acks := {0}, rq := rq, rstatus := Closed);
    assert Next(c, s4, Deliver(0)) == s by {
      assert rq.delivered[0].typ == CLOSE_WRITE;
    }
    assert First([[f]], 0) == 0 && First([[f]], 1) == 1 by {
      ConcatOne([f]);
      assert [[f]][..1] == [[f]] && [[f]][..0] == [];
    }
    WitnessRun(c, s1, s2, s3, s4, s);
    assert Decoded(c, [f]) == C.Idle by {
      DecodedClose(c, [], f);
      assert [] + [f] == [f];
    }
  }

  lemma WitnessRun(c: Config, s1: Sys, s2: Sys, s3: Sys, s4: Sys, s5: Sys)
    requires s1 == Next(c, Init, Send([7], StreamCompressed)) && s2 == Next(c, s1, CloseSender)
    requires s3 == Next(c, s2, OpenReceiver)
    requires s4 == Next(c, s3, Transmit) && s5 == Next(c, s4, Deliver(0))
    requires s3.packets == [] && s3.window == map[] && Allowed(c, s4, Deliver(0))
    ensures var steps := [Send([7], StreamCompressed), CloseSender, OpenReceiver, Transmit, Deliver(0)];
            AllowedRun(c, Init, steps) && s5 == Run(c, Init, steps)
  {
    hide Next;
    var steps := [Send([7], StreamCompressed), CloseSender, OpenReceiver, Transmit, Deliver(0)];
    assert steps[1..] == [CloseSender, OpenReceiver, Transmit, Deliver(0)];
    assert steps[1..][1..] == [OpenReceiver, Transmit, Deliver(0)];
    assert steps[1..][1..][1..] == [Transmit, Deliver(0)];
    assert steps[1..][1..][1..][1..] == [Deliver(0)];
    assert AllowedRun(c, s4, [Deliver(0)]) && Run(c, s4, [Deliver(0)]) == s5;
    assert AllowedRun(c, s3, [Transmit, Deliver(0)]) && Run(c, s3, [Transmit, Deliver(0)]) == s5;
    assert AllowedRun(c, s2, [OpenReceiver, Transmit, Deliver(0)]);
    assert Run(c, s2, [OpenReceiver, Transmit, Deliver(0)]) == s5;
  }
}

/** Connections whose coalescing mode changes while they are open: some messages are compressed, some are not.

Compressed messages wait until the queue has run empty, so a plain message can overtake them
(mrudp/sender/SendQueue.cpp).
*/
module Mixed {
  import opened Wire
  import opened SendQueues
  import opened Transport
  import opened Delivery
  import V = Receivers

  /** What the application will have been handed once everything numbered has been delivered. */
  function Numbered(c: Config, s: Sys): C.Acc {
    V.Taken(C.Idle, s.log, c.zlib)
  }

  /** The messages waiting to be compressed. */
  function Waiting(s: Sys): seq<Bytes> {
    C.Subframes(s.queue.pending)
  }

  /** The numbered frames hold no part of a batch, and what is pending is whole messages. */
  ghost predicate Tidy(c: Config, s: Sys) {
    && Numbered(c, s).buffer == []
    && s.queue.pending == C.EncodeMessages(Waiting(s))
    && |s.queue.pending| + 9 < 0x8000_0000
  }

  // ---- what each step adds ---------------------------------------------------------------------------

  lemma PlainAdds(c: Config, s: Sys, data: Bytes, mode: Mode)
    requires Inv(s) && !mode.StreamCompressed? && !Refuses(s.status, data, mode)
    ensures var t := Next(c, s, Send(data, mode));
            && t.queue.pending == s.queue.pending && t.accepted == s.accepted + [data]
            && Numbered(c, t).buffer == Numbered(c, s).buffer
            && Concat(Numbered(c, t).messages) == Concat(Numbered(c, s).messages) + data
            && (!mode.Stream? ==> Numbered(c, t).messages == Numbered(c, s).messages + [data])
            && Concat(Handed(t.log)) == Concat(Handed(s.log)) + data
            && (!mode.Stream? ==> Handed(t.log) == Handed(s.log) + [data])
            && Decoded(c, t.log) == Decoded(c, s.log)
  {
    var fs := SendEffect(c, s, data, mode);
    hide Inv, Next, Handed, V.Taken, Concat, Refuses, Payload, C.AbsorbAll;
    V.TakenAppend(C.Idle, s.log, fs, c.zlib);
    V.HandsPlain(Numbered(c, s), fs, c.zlib);
    HandedData(fs);
    HandedAppend(s.log, fs);
    ConcatAppend(Numbered(c, s).messages, Handed(fs));
    ConcatAppend(Handed(s.log), Handed(fs));
    C.AbsorbAllAppend(C.Idle, s.log, fs, c.zlib);
    AbsorbsNothing(Decoded(c, s.log), fs, c.zlib);
    if !mode.Stream? {
      PayloadOne(fs[0]);
      assert fs == [fs[0]];
    }
  }

  lemma {:induction false} AbsorbsNothing(a: C.Acc, fs: seq<Frame>, z: Zlib)
    requires forall i :: 0 <= i < |fs| ==> fs[i].typ != DATA_COMPRESSED
    ensures C.AbsorbAll(a, fs, z) == a
    decreases |fs|
  {
    if fs != [] {
      AbsorbsNothing(C.Absorb(a, fs[0], z), fs[1..], z);
    }
  }

  lemma {:induction false} HandsNothing(fs: seq<Frame>)
    requires NoPlainData(fs)
    ensures Handed(fs) == []
  {
    if fs != [] {
      HandsNothing(fs[1..]);
    }
  }

  lemma PackedAdds(c: Config, s: Sys, data: Bytes)
    requires Inv(s) && Tidy(c, s) && Allowed(c, s, Send(data, StreamCompressed)) && !s.status.Closed?
    ensures var t := Next(c, s, Send(data, StreamCompressed));
            && Tidy(c, t) && t.log == s.log && t.accepted == s.accepted + [data] && Waiting(t) == Waiting(s) + [data]
  {
    hide Inv, Next, Numbered, EncodeMessage, C.EncodeMessages, C.Subframes, Log;
    var t := Next(c, s, Send(data, StreamCompressed));
    OpenQueue(s);
    PackedNext(c, s, data);
    EncodeMessageSize(DATA, data);
    C.EncodeMessagesSnoc(Waiting(s), data);
    EncodedFit(Waiting(s) + [data]);
    C.SubframesRoundTrip(Waiting(s) + [data]);
    SameNumbered(c, s, t);
  }

  lemma PackedNext(c: Config, s: Sys, data: Bytes)
    requires !s.queue.closed && !s.status.Closed?
    ensures var t := Next(c, s, Send(data, StreamCompressed));
            && t.log == s.log && t.accepted == s.accepted + [data]
            && t.queue.pending == s.queue.pending + EncodeMessage(DATA, data)
  {
    GatheringNumbersNothing(s, data);
    hide Log;
  }

  lemma OpenQueue(s: Sys)
    requires Inv(s) && !s.status.Closed?
    ensures !s.queue.closed && !s.failed
  {
  }

  lemma SameNumbered(c: Config, s: Sys, t: Sys)
    requires t.log == s.log
    ensures Numbered(c, t) == Numbered(c, s)
  {
  }

  lemma FlushBatch(c: Config, s: Sys) returns (fs: seq<Frame>)
    requires Inv(s) && !s.status.Uninitialized? && !s.queue.closed && s.queue.packets == [] && s.queue.pending != []
    ensures var t := TransmitStep(c, s); t.log == s.log + fs && t.queue.pending == [] && t.accepted == s.accepted
    ensures fs != [] && NoneEmpty(fs) && Spells(fs, s.queue.next, DATA_COMPRESSED, Batch(s.queue.pending, c.zlib))
  {
    hide Log, Flush, WithQueue, NoneEmpty, Spells, R.Ordered, Conserved, R.Numbered, Small;
    fs := FlushAppended(s.queue, c.zlib);
    AppendKeeps(s, Flush(s.queue, c.zlib), fs);
    WithQueueFields(s, Flush(s.queue, c.zlib));
  }

  lemma WithQueueFields(s: Sys, q: Queue)
    ensures WithQueue(s, q).accepted == s.accepted && WithQueue(s, q).queue == q
  {
    hide Log;
  }

  lemma FlushNothing(c: Config, s: Sys)
    requires s.status.Uninitialized? || s.queue.closed || s.queue.packets != [] || s.queue.pending == []
    ensures var t := TransmitStep(c, s);
            t.log == s.log && t.queue.pending == s.queue.pending && t.accepted == s.accepted
  {
    if !s.status.Uninitialized? {
      assert Flush(s.queue, c.zlib) == s.queue;
      assert Log(s.queue)[|Log(s.queue)|..] == [];
      assert s.log + [] == s.log;
      hide Log;
    }
  }

  /** A batch, taken or decoded, gives the messages that waited. */
  lemma BatchGives(c: Config, a: C.Acc, fs: seq<Frame>, next: nat, pending: Bytes)
    requires Lawful(c.zlib) && |pending| + 9 < 0x8000_0000 && a.buffer == []
    requires fs != [] && NoneEmpty(fs) && Spells(fs, next, DATA_COMPRESSED, Batch(pending, c.zlib))
    ensures C.AbsorbAll(a, fs, c.zlib) == C.Acc([], a.messages + C.Subframes(pending))
    ensures V.Taken(a, fs, c.zlib) == C.Acc([], a.messages + C.Subframes(pending))
  {
    hide Batch, C.AbsorbAll, C.Unpack, C.Subframes, FromU32, V.Taken, Lawful;
    C.BatchRoundTrip(pending, c.zlib);
    assert a.buffer + Payload(fs) == Batch(pending, c.zlib);
    C.AbsorbBatch(a, fs, Batch(pending, c.zlib), c.zlib);
    V.HandsCompressed(a, fs, c.zlib);
  }

  // ---- plain and decoded messages, merged ------------------------------------------------------------

  /** `m` is made of `a` and `b`, each in its own order. */
  ghost predicate Merges(m: seq<Bytes>, a: seq<Bytes>, b: seq<Bytes>)
    decreases |m|
  {
    if m == [] then a == [] && b == []
    else
      var front, last := m[..|m| - 1], m[|m| - 1];
      || (a != [] && a[|a| - 1] == last && Merges(front, a[..|a| - 1], b))
      || (b != [] && b[|b| - 1] == last && Merges(front, a, b[..|b| - 1]))
  }

  lemma MergesLeft(m: seq<Bytes>, a: seq<Bytes>, b: seq<Bytes>, x: Bytes)
    requires Merges(m, a, b)
    ensures Merges(m + [x], a + [x], b)
  {
    assert (m + [x])[..|m|] == m && (a + [x])[..|a|] == a;
  }

  lemma {:induction false} MergesRight(m: seq<Bytes>, a: seq<Bytes>, b: seq<Bytes>, xs: seq<Bytes>)
    requires Merges(m, a, b)
    ensures Merges(m + xs, a, b + xs)
    decreases |xs|
  {
    if xs == [] {
      assert m + xs == m && b + xs == b;
    } else {
      var n := |xs| - 1;
      MergesRight(m, a, b, xs[..n]);
      assert (m + xs)[..|m + xs| - 1] == m + xs[..n] && (b + xs)[..|b + xs| - 1] == b + xs[..n];
    }
  }

  /** What one more frame adds. */
  lemma OneMore(acc: C.Acc, d: C.Acc, f: Frame, z: Zlib)
    requires acc.buffer == d.buffer
    ensures var t, e := V.Taken(acc, [f], z), C.AbsorbAll(d, [f], z);
            && t.buffer == e.buffer
            && (f.typ == DATA ==> t.messages == acc.messages + [f.data] && e == d && Handed([f]) == [f.data])
            && (f.typ != DATA ==>
                  && Handed([f]) == [] && d.messages <= e.messages
                  && t.messages == acc.messages + e.messages[|d.messages|..])
  {
    hide C.Unpack, FromU32;
    assert [f][1..] == [];
    var t, e := V.Taken(acc, [f], z), C.AbsorbAll(d, [f], z);
    assert C.AbsorbAll(C.Absorb(d, f, z), [], z) == C.Absorb(d, f, z);
    assert V.Taken(C.Absorb(acc, f, z), [], z) == C.Absorb(acc, f, z) && V.Taken(acc, [], z) == acc;
    assert Handed([]) == [];
  }

  /** The application's messages are the plain ones and the decoded ones, each in order. */
  lemma {:induction false} TakenMerges(fs: seq<Frame>, z: Zlib)
    ensures var t, d := V.Taken(C.Idle, fs, z), C.AbsorbAll(C.Idle, fs, z);
            t.buffer == d.buffer && Merges(t.messages, Handed(fs), d.messages)
    decreases |fs|
  {
    if fs != [] {
      var n := |fs| - 1;
      var gs, f := fs[..n], fs[n];
      assert fs == gs + [f];
      TakenMerges(gs, z);
      hide V.Taken, C.AbsorbAll, Handed, Merges;
      var t, d := V.Taken(C.Idle, gs, z), C.AbsorbAll(C.Idle, gs, z);
      V.TakenAppend(C.Idle, gs, [f], z);
      C.AbsorbAllAppend(C.Idle, gs, [f], z);
      HandedAppend(gs, [f]);
      OneMore(t, d, f, z);
      if f.typ == DATA {
        MergesLeft(t.messages, Handed(gs), d.messages, f.data);
      } else {
        var e := C.AbsorbAll(d, [f], z);
        MergesRight(t.messages, Handed(gs), d.messages, e.messages[|d.messages|..]);
        assert d.messages + e.messages[|d.messages|..] == e.messages;
        assert Handed(gs) + [] == Handed(gs);
      }
    }
  }

  // ---- steps ---------------------------------------------------------------------------------------

  /** Nothing is accepted, and what is numbered or waits stays the same in order. */
  ghost predicate Steady(c: Config, s: Sys, t: Sys) {
    && Tidy(c, t) && t.accepted == s.accepted && Handed(t.log) == Handed(s.log)
    && Numbered(c, t).messages + Waiting(t) == Numbered(c, s).messages + Waiting(s)
    && Decoded(c, t.log).messages + Waiting(t) == Decoded(c, s.log).messages + Waiting(s)
  }

  lemma SameSteady(c: Config, s: Sys, t: Sys)
    requires Tidy(c, s) && t.log == s.log && t.queue.pending == s.queue.pending && t.accepted == s.accepted
    ensures Steady(c, s, t)
  {
  }

  /** Flushing numbers all that waited, as one batch, and nothing else. */
  lemma FlushSteady(c: Config, s: Sys)
    requires Inv(s) && Tidy(c, s) && Lawful(c.zlib)
    ensures Steady(c, s, TransmitStep(c, s))
  {
    hide Inv, Handed, V.Taken, C.AbsorbAll, C.EncodeMessages, C.Subframes, Lawful;
    hide TransmitStep, Merges, NoneEmpty, Spells;
    var t := TransmitStep(c, s);
    if s.status.Uninitialized? || s.queue.closed || s.queue.packets != [] || s.queue.pending == [] {
      FlushNothing(c, s);
      SameSteady(c, s, t);
    } else {
      var fs := FlushBatch(c, s);
      TakenMerges(s.log, c.zlib);
      BatchGives(c, Numbered(c, s), fs, s.queue.next, s.queue.pending);
      BatchGives(c, Decoded(c, s.log), fs, s.queue.next, s.queue.pending);
      V.TakenAppend(C.Idle, s.log, fs, c.zlib);
      C.AbsorbAllAppend(C.Idle, s.log, fs, c.zlib);
      HandedAppend(s.log, fs);
      SpellsNoPlainData(fs, s.queue.next, Batch(s.queue.pending, c.zlib));
      HandsNothing(fs);
      assert Handed(s.log) + [] == Handed(s.log);
      NothingWaiting();
      assert Numbered(c, s).messages + Waiting(s) + [] == Numbered(c, s).messages + Waiting(s);
      assert Decoded(c, s.log).messages + Waiting(s) + [] == Decoded(c, s.log).messages + Waiting(s);
    }
  }

  lemma SpellsNoPlainData(fs: seq<Frame>, next: nat, data: Bytes)
    requires Spells(fs, next, DATA_COMPRESSED, data)
    ensures NoPlainData(fs)
  {
  }

  lemma NothingWaiting()
    ensures C.Subframes([]) == [] && C.EncodeMessages([]) == []
  {
  }

  lemma CloseSteady(c: Config, s: Sys)
    requires Inv(s) && Tidy(c, s) && !s.status.Closed?
    ensures Steady(c, s, Next(c, s, CloseSender))
  {
    var f := CloseEffect(c, s);
    hide Inv, Next, Handed, V.Taken, C.AbsorbAll, C.EncodeMessages, C.Subframes;
    V.TakenAppend(C.Idle, s.log, [f], c.zlib);
    TakesNothing(Numbered(c, s), f, c.zlib);
    DecodedClose(c, s.log, f);
    HandedAppend(s.log, [f]);
    HandedClose(f);
    assert Handed(s.log) + [] == Handed(s.log);
  }

  lemma TakesNothing(a: C.Acc, f: Frame, z: Zlib)
    requires f.typ == CLOSE_WRITE
    ensures V.Taken(a, [f], z) == a
  {
    assert [f][1..] == [] && V.Taken(a, [f][1..], z) == a;
  }

  /** Whether the step is a message that is accepted, and how. */
  predicate Accepts(s: Sys, step: Step, packed: bool) {
    step.Send? && !Refuses(s.status, step.data, step.mode) && step.mode.StreamCompressed? == packed
  }

  lemma OtherSteady(c: Config, s: Sys, step: Step)
    requires Inv(s) && Tidy(c, s) && Lawful(c.zlib) && !Accepts(s, step, true) && !Accepts(s, step, false)
    ensures Steady(c, s, Next(c, s, step))
  {
    hide Inv, Tidy, Steady, Lawful, TransmitStep, WithQueue, Enqueue, DeliverStep;
    match step {
      case Transmit => FlushSteady(c, s);
      case CloseSender =>
        if s.status.Closed? { SameSteady(c, s, s); } else { CloseSteady(c, s); }
      case Deliver(k) => DeliverSame(s, k); SameSteady(c, s, Next(c, s, step));
      case _ => SameSteady(c, s, Next(c, s, step));
    }
  }

  lemma DeliverSame(s: Sys, k: nat)
    ensures var t := DeliverStep(s, k); t.log == s.log && t.queue == s.queue && t.accepted == s.accepted
  {
    hide R.ReceiveAll, Walk;
  }

  // ---- each kind in order --------------------------------------------------------------------------

  /** The messages accepted along a run, compressed or not. */
  function Sent(c: Config, s: Sys, steps: seq<Step>, packed: bool): seq<Bytes>
    decreases |steps|
  {
    if steps == [] then []
    else
      var first := if Accepts(s, steps[0], packed) then [steps[0].data] else [];
      first + Sent(c, Next(c, s, steps[0]), steps[1..], packed)
  }

  /** What a run adds: the plain messages to the plain frames, the compressed ones to the batches. */
  ghost predicate Adds(c: Config, s: Sys, t: Sys, plain: seq<Bytes>, packed: seq<Bytes>, whole: bool) {
    && Tidy(c, t)
    && Concat(Handed(t.log)) == Concat(Handed(s.log)) + Concat(plain)
    && (whole ==> Handed(t.log) == Handed(s.log) + plain)
    && Decoded(c, t.log).messages + Waiting(t) == Decoded(c, s.log).messages + Waiting(s) + packed
  }

  lemma NextAdds(c: Config, s: Sys, step: Step, whole: bool)
    requires Inv(s) && Tidy(c, s) && Lawful(c.zlib) && Allowed(c, s, step)
    requires whole && step.Send? ==> !step.mode.Stream?
    ensures Adds(c, s, Next(c, s, step), if Accepts(s, step, false) then [step.data] else [],
                 if Accepts(s, step, true) then [step.data] else [], whole)
  {
    var t := Next(c, s, step);
    if Accepts(s, step, false) {
      PlainAdds(c, s, step.data, step.mode);
      hide Inv, Next, Handed, V.Taken, C.AbsorbAll, C.EncodeMessages, C.Subframes, Concat;
      ConcatOne(step.data);
      assert Decoded(c, s.log).messages + Waiting(s) + [] == Decoded(c, s.log).messages + Waiting(s);
    } else if Accepts(s, step, true) {
      PackedAdds(c, s, step.data);
      hide Inv, Next, Handed, V.Taken, C.AbsorbAll, C.EncodeMessages, C.Subframes, Concat;
      ConcatNone();
      assert Concat(Handed(s.log)) + [] == Concat(Handed(s.log)) && Handed(s.log) + [] == Handed(s.log);
      Assoc(Decoded(c, s.log).messages, Waiting(s), [step.data]);
    } else {
      OtherSteady(c, s, step);
      hide Inv, Next, Handed, V.Taken, C.AbsorbAll, C.EncodeMessages, C.Subframes, Concat;
      ConcatNone();
      assert Concat(Handed(s.log)) + [] == Concat(Handed(s.log)) && Handed(s.log) + [] == Handed(s.log);
      assert Decoded(c, s.log).messages + Waiting(s) + [] == Decoded(c, s.log).messages + Waiting(s);
    }
  }

  lemma ConcatNone()
    ensures Concat<Byte>([]) == []
  {
  }

  lemma AddsTrans(c: Config, s: Sys, t: Sys, u: Sys, a: seq<Bytes>, b: seq<Bytes>, x: seq<Bytes>, y: seq<Bytes>,
                  whole: bool)
    requires Adds(c, s, t, a, b, whole) && Adds(c, t, u, x, y, whole)
    ensures Adds(c, s, u, a + x, b + y, whole)
  {
    hide Tidy, Handed, Concat, Decoded, Waiting;
    ConcatAppend(a, x);
    Assoc(Concat(Handed(s.log)), Concat(a), Concat(x));
    Assoc(Handed(s.log), a, x);
    Assoc(Decoded(c, s.log).messages + Waiting(s), b, y);
  }

  lemma AddsRefl(c: Config, s: Sys, whole: bool)
    requires Tidy(c, s)
    ensures Adds(c, s, s, [], [], whole)
  {
    hide Tidy, Handed, Decoded, Waiting;
    assert Handed(s.log) + [] == Handed(s.log);
  }

  lemma {:induction false} RunAdds(c: Config, s: Sys, steps: seq<Step>, whole: bool)
    requires Inv(s) && Tidy(c, s) && Lawful(c.zlib) && AllowedRun(c, s, steps) && (whole ==> Unstreamed(steps))
    ensures Inv(Run(c, s, steps))
    ensures Adds(c, s, Run(c, s, steps), Sent(c, s, steps, false), Sent(c, s, steps, true), whole)
    decreases |steps|
  {
    if steps == [] {
      AddsRefl(c, s, whole);
    } else {
      NextAdds(c, s, steps[0], whole);
      NextKeeps(c, s, steps[0]);
      hide Inv, Next, Allowed, Accepts, Lawful;
      var t := Next(c, s, steps[0]);
      assert Tidy(c, t);
      hide Tidy, Adds;
      RunAdds(c, t, steps[1..], whole);
      AddsTrans(c, s, t, Run(c, t, steps[1..]),
                if Accepts(s, steps[0], false) then [steps[0].data] else [],
                if Accepts(s, steps[0], true) then [steps[0].data] else [],
                Sent(c, t, steps[1..], false), Sent(c, t, steps[1..], true), whole);
    }
  }

  /** In every run, however the mode changes: the application is handed the plain messages and the compressed ones
  merged, and of each kind a prefix of those accepted, in order; of plain ones that are streamed, a prefix of the
  bytes. */
  lemma EachKindInOrder(c: Config, steps: seq<Step>)
    requires AllowedRun(c, Init, steps) && Lawful(c.zlib)
    ensures var s := Run(c, Init, steps);
            var r := V.FollowAll(c, Init, V.Start, steps);
            && Merges(r.seen.acc.messages, Handed(s.rq.delivered), Decoded(c, s.rq.delivered).messages)
            && Concat(Handed(s.rq.delivered)) <= Concat(Sent(c, Init, steps, false))
            && (Unstreamed(steps) ==> Handed(s.rq.delivered) <= Sent(c, Init, steps, false))
            && Decoded(c, s.rq.delivered).messages <= Sent(c, Init, steps, true)
  {
    InitInv();
    InitTidy(c);
    V.StartMirrors(c);
    V.RunMirrors(c, Init, V.Start, steps);
    RunAdds(c, Init, steps, false);
    var s := Run(c, Init, steps);
    DeliveredInLog(s);
    TakenMerges(s.rq.delivered, c.zlib);
    HandedPrefix(s.rq.delivered, s.log);
    DecodedPrefix(c, s.rq.delivered, s.log);
    FromNothing(c, s, Sent(c, Init, steps, false), Sent(c, Init, steps, true), false);
    if Unstreamed(steps) {
      RunAdds(c, Init, steps, true);
      FromNothing(c, s, Sent(c, Init, steps, false), Sent(c, Init, steps, true), true);
    }
  }

  lemma InitTidy(c: Config)
    ensures Tidy(c, Init)
  {
    NothingWaiting();
  }

  lemma DecodedPrefix(c: Config, fs: seq<Frame>, gs: seq<Frame>)
    requires fs <= gs
    ensures Decoded(c, fs).messages <= Decoded(c, gs).messages
  {
    hide C.AbsorbAll;
    assert gs == fs + gs[|fs|..];
    C.AbsorbAllAppend(C.Idle, fs, gs[|fs|..], c.zlib);
    C.AbsorbAllGrows(Decoded(c, fs), gs[|fs|..], c.zlib);
  }

  lemma FromNothing(c: Config, t: Sys, plain: seq<Bytes>, packed: seq<Bytes>, whole: bool)
    requires Adds(c, Init, t, plain, packed, whole)
    ensures Concat(Handed(t.log)) == Concat(plain) && (whole ==> Handed(t.log) == plain)
    ensures Decoded(c, t.log).messages + Waiting(t) == packed
  {
    hide Tidy;
    NothingWaiting();
    assert Handed(Init.log) == [] && Concat(Handed(Init.log)) == [];
    assert Decoded(c, Init.log).messages == [] && Waiting(Init) == [];
    hide Handed, Decoded, Concat, Waiting;
    assert [] + Concat(plain) == Concat(plain) && [] + plain == plain && [] + [] + packed == packed;
  }

  // ---- both kinds together -------------------------------------------------------------------------

  /** What is numbered and what waits, one after the other, is what was accepted: byte for byte, or message for
  message if `whole`. */
  ghost predicate Intact(c: Config, s: Sys, whole: bool) {
    if whole then Numbered(c, s).messages + Waiting(s) == s.accepted
    else Concat(Numbered(c, s).messages) + Concat(Waiting(s)) == Concat(s.accepted)
  }

  /** The new message may as well come before those that wait. */
  predicate Commutes(s: Sys, data: Bytes, whole: bool) {
    if whole then [data] + Waiting(s) == Waiting(s) + [data]
    else data + Concat(Waiting(s)) == Concat(Waiting(s)) + data
  }

  /** A plain message that is accepted overtakes nothing that it could be told apart from. */
  predicate Orderly(s: Sys, step: Step, whole: bool) {
    Accepts(s, step, false) ==> Commutes(s, step.data, whole)
  }

  lemma CommutesIfNothingWaits(s: Sys, data: Bytes, whole: bool)
    requires s.queue.pending == []
    ensures Commutes(s, data, whole)
  {
    NothingWaiting();
    assert data + [] == data && [] + data == data;
  }

  lemma Swap<T>(x: seq<T>, p: seq<T>, d: seq<T>)
    ensures x + d + p == x + p + d <==> d + p == p + d
  {
    Assoc(x, d, p);
    Assoc(x, p, d);
    assert (x + (d + p))[|x|..] == d + p && (x + (p + d))[|x|..] == p + d;
  }

  /** A plain message keeps the order exactly when it commutes with what waits. */
  lemma PlainExact(c: Config, s: Sys, data: Bytes, mode: Mode, whole: bool)
    requires Inv(s) && Tidy(c, s) && Intact(c, s, whole) && !mode.StreamCompressed? && !Refuses(s.status, data, mode)
    requires whole ==> !mode.Stream?
    ensures var t := Next(c, s, Send(data, mode)); Tidy(c, t) && (Intact(c, t, whole) <==> Commutes(s, data, whole))
  {
    PlainAdds(c, s, data, mode);
    hide Inv, Next, Numbered, C.EncodeMessages, C.Subframes, Concat, Handed, Decoded;
    if whole {
      Swap(Numbered(c, s).messages, Waiting(s), [data]);
    } else {
      ConcatSnoc(s.accepted, data);
      Swap(Concat(Numbered(c, s).messages), Concat(Waiting(s)), data);
    }
  }

  lemma PackedIntact(c: Config, s: Sys, data: Bytes, whole: bool)
    requires Inv(s) && Tidy(c, s) && Allowed(c, s, Send(data, StreamCompressed)) && !s.status.Closed?
    requires Intact(c, s, whole)
    ensures var t := Next(c, s, Send(data, StreamCompressed)); Tidy(c, t) && Intact(c, t, whole)
  {
    PackedAdds(c, s, data);
    var t := Next(c, s, Send(data, StreamCompressed));
    SameNumbered(c, s, t);
    hide Inv, Next, Tidy, Numbered, Waiting, Concat;
    Assoc(Numbered(c, s).messages, Waiting(s), [data]);
    ConcatSnoc(s.accepted, data);
    ConcatSnoc(Waiting(s), data);
    Assoc(Concat(Numbered(c, s).messages), Concat(Waiting(s)), data);
  }

  lemma SteadyIntact(c: Config, s: Sys, t: Sys, whole: bool)
    requires Steady(c, s, t) && Intact(c, s, whole)
    ensures Tidy(c, t) && Intact(c, t, whole)
  {
    hide Tidy, Numbered, Waiting, Concat, Handed, Decoded;
    ConcatAppend(Numbered(c, s).messages, Waiting(s));
    ConcatAppend(Numbered(c, t).messages, Waiting(t));
  }

  /** One step keeps the order exactly when it is no plain message that overtakes. */
  lemma NextExact(c: Config, s: Sys, step: Step, whole: bool)
    requires Inv(s) && Tidy(c, s) && Lawful(c.zlib) && Allowed(c, s, step) && Intact(c, s, whole)
    requires whole && step.Send? ==> !step.mode.Stream?
    ensures Tidy(c, Next(c, s, step)) && (Intact(c, Next(c, s, step), whole) <==> Orderly(s, step, whole))
  {
    hide Inv, Tidy, Lawful, Next, Intact, Commutes;
    if Accepts(s, step, false) {
      PlainExact(c, s, step.data, step.mode, whole);
    } else if Accepts(s, step, true) {
      PackedIntact(c, s, step.data, whole);
    } else {
      OtherSteady(c, s, step);
      SteadyIntact(c, s, Next(c, s, step), whole);
    }
  }

  ghost predicate AlwaysIntact(c: Config, s: Sys, steps: seq<Step>, whole: bool)
    decreases |steps|
  {
    Intact(c, s, whole) && (steps == [] || AlwaysIntact(c, Next(c, s, steps[0]), steps[1..], whole))
  }

  predicate OrderlyRun(c: Config, s: Sys, steps: seq<Step>, whole: bool)
    decreases |steps|
  {
    steps == [] || (Orderly(s, steps[0], whole) && OrderlyRun(c, Next(c, s, steps[0]), steps[1..], whole))
  }

  /** Over a whole run: numbered and waiting messages are at all times those accepted, in order, if and only if no
  plain message overtakes a waiting one that it can be told apart from. */
  lemma {:induction false} OrderExact(c: Config, s: Sys, steps: seq<Step>, whole: bool)
    requires Inv(s) && Tidy(c, s) && Lawful(c.zlib) && Intact(c, s, whole) && AllowedRun(c, s, steps)
    requires whole ==> Unstreamed(steps)
    ensures AlwaysIntact(c, s, steps, whole) <==> OrderlyRun(c, s, steps, whole)
    ensures OrderlyRun(c, s, steps, whole) ==> Inv(Run(c, s, steps)) && Intact(c, Run(c, s, steps), whole)
    decreases |steps|
  {
    hide Inv, Tidy, Lawful, Next, Allowed, Intact, Orderly;
    if steps != [] {
      NextExact(c, s, steps[0], whole);
      NextKeeps(c, s, steps[0]);
      var t := Next(c, s, steps[0]);
      if Orderly(s, steps[0], whole) {
        OrderExact(c, t, steps[1..], whole);
      } else {
        NotAlways(c, t, steps[1..], whole);
      }
    }
  }

  lemma NotAlways(c: Config, s: Sys, steps: seq<Step>, whole: bool)
    requires !Intact(c, s, whole)
    ensures !AlwaysIntact(c, s, steps, whole)
  {
  }

  /** What the application has been handed in a run without overtaking: a prefix of the accepted bytes, and of the
  accepted messages if none was streamed. */
  lemma OrderlyRunsDeliver(c: Config, steps: seq<Step>, whole: bool)
    requires AllowedRun(c, Init, steps) && Lawful(c.zlib) && OrderlyRun(c, Init, steps, whole)
    requires whole ==> Unstreamed(steps)
    ensures var s := Run(c, Init, steps);
            var handed := V.FollowAll(c, Init, V.Start, steps).seen.acc.messages;
            && Concat(handed) <= Concat(s.accepted)
            && (whole ==> handed <= s.accepted)
  {
    InitInv();
    InitTidy(c);
    InitIntact(c, whole);
    OrderExact(c, Init, steps, whole);
    V.StartMirrors(c);
    V.RunMirrors(c, Init, V.Start, steps);
    var s := Run(c, Init, steps);
    DeliveredInLog(s);
    HandedFromIntact(c, s, whole);
  }

  lemma InitIntact(c: Config, whole: bool)
    ensures Intact(c, Init, whole)
  {
    NothingWaiting();
  }

  lemma {:induction false} TakenGrows(a: C.Acc, fs: seq<Frame>, z: Zlib)
    ensures a.messages <= V.Taken(a, fs, z).messages
    decreases |fs|
  {
    if fs != [] {
      hide C.Unpack;
      var next := if fs[0].typ == DATA then a.(messages := a.messages + [fs[0].data])
                  else if fs[0].typ == DATA_COMPRESSED then C.Absorb(a, fs[0], z) else a;
      TakenGrows(next, fs[1..], z);
    }
  }

  lemma HandedFromIntact(c: Config, s: Sys, whole: bool)
    requires s.rq.delivered <= s.log && Intact(c, s, whole)
    ensures var handed := V.Taken(C.Idle, s.rq.delivered, c.zlib).messages;
            Concat(handed) <= Concat(s.accepted) && (whole ==> handed <= s.accepted)
  {
    hide V.Taken, Waiting, Concat;
    var front, rest := s.rq.delivered, s.log[|s.rq.delivered|..];
    assert s.log == front + rest;
    V.TakenAppend(C.Idle, front, rest, c.zlib);
    var t := V.Taken(C.Idle, front, c.zlib);
    TakenGrows(t, rest, c.zlib);
    var all := Numbered(c, s).messages;
    var more := all[|t.messages|..];
    assert all == t.messages + more;
    ConcatAppend(t.messages, more);
    ConcatAppend(all, Waiting(s));
  }

  /** When everything has been flushed and delivered, the application holds the accepted bytes (messages, if none was
  streamed) exactly when the order was kept. */
  lemma AllDelivered(c: Config, s: Sys, whole: bool)
    requires s.queue.pending == [] && s.rq.delivered == s.log
    ensures var handed := V.Taken(C.Idle, s.rq.delivered, c.zlib).messages;
            Intact(c, s, whole) <==> if whole then handed == s.accepted else Concat(handed) == Concat(s.accepted)
  {
    NothingWaiting();
    hide V.Taken;
    var handed := V.Taken(C.Idle, s.rq.delivered, c.zlib).messages;
    assert handed + [] == handed && Concat(handed) + [] == Concat(handed);
  }

  // ---- a plain message overtakes -------------------------------------------------------------------

  const OVERTAKING :=
    [Send([7], StreamCompressed), Send([8], PerPacket), OpenSender, OpenReceiver, Transmit, Deliver(0)]

  lemma RunCons(c: Config, s: Sys, step: Step, rest: seq<Step>)
    ensures Run(c, s, [step] + rest) == Run(c, Next(c, s, step), rest)
    ensures AllowedRun(c, s, [step] + rest) <==> Allowed(c, s, step) && AllowedRun(c, Next(c, s, step), rest)
  {
    RunAppend(c, s, [step], rest);
    RunOne(c, s, step);
  }

  /** The sender's part: the compressed message waits, the plain one goes out. */
  lemma Overtakes(z: Zlib) returns (s: Sys)
    ensures var c, f := Config(z), Frame(0, DATA, [8]);
            var t := Next(c, Next(c, Init, Send([7], StreamCompressed)), Send([8], PerPacket));
            && s == Next(c, Next(c, Next(c, t, OpenSender), OpenReceiver), Transmit)
            && t.window == map[] && t.packets == [] && t.rstatus.Uninitialized?
            && Next(c, t, OpenSender) == t.(status := Open)
            && Next(c, t.(status := Open), OpenReceiver) == t.(status := Open, rstatus := Open)
            && s == t.(status := Open, rstatus := Open, queue := Queue([], 1, EncodeMessage(DATA, [7]), false),
                       packets := [[f]], window := map[0 := 0])
            && t.log == [f] && t.accepted == [[7], [8]] && t.rq == R.Start && t.acks == {}
  {
    var c, f, pending := Config(z), Frame(0, DATA, [8]), EncodeMessage(DATA, [7]);
    var s1 := Init.(queue := Empty.(pending := pending), accepted := [[7]]);
    assert Next(c, Init, Send([7], StreamCompressed)) == s1 by {
      assert Log(s1.queue) == [];
      assert [] + pending == pending;
    }
    var t := s1.(queue := Queue([[f]], 1, pending, false), log := [f], accepted := [[7], [8]]);
    assert Next(c, s1, Send([8], PerPacket)) == t by {
      ConcatOne([f]);
      assert Enqueue(s1.queue, DATA, [8], PerPacket) == t.queue;
      assert Log(s1.queue) == [];
    }
    var u := t.(status := Open, rstatus := Open);
    s := u.(queue := Queue([], 1, pending, false), packets := [[f]], window := map[0 := 0]);
    assert Next(c, u, Transmit) == s by {
      assert WithQueue(u, u.queue) == u;
      assert Dequeue(u.queue, z) == Took(s.queue, [f]);
    }
  }

  /** The receiver's part: the plain message is all it gets. */
  lemma OvertakenArrives(c: Config, s: Sys)
    requires s.packets == [[Frame(0, DATA, [8])]] && s.rq == R.Start && s.rstatus.Open? && s.acks == {}
    ensures Allowed(c, s, Deliver(0))
    ensures Next(c, s, Deliver(0)) == s.(acks := {0}, rq := R.State(1, map[], [Frame(0, DATA, [8])]))
  {
    var f := Frame(0, DATA, [8]);
    WalkRoundTrip([f]);
    hide Walk, EncodeFrames;
    assert R.ReceiveAll(R.Start, [f]) == R.State(1, map[], [f]) by {
      assert [f][1..] == [] && R.ReceiveAll(R.ReceiveFrame(R.Start, f), []) == R.State(1, map[], [f]);
    }
    assert First([[f]], 0) == 0 && First([[f]], 1) == 1 by {
      ConcatOne([f]);
      assert [[f]][..1] == [[f]] && [[f]][..0] == [];
    }
  }

  lemma TakesPlain(f: Frame, z: Zlib)
    requires f.typ == DATA
    ensures V.Taken(C.Idle, [f], z).messages == [f.data]
  {
    assert [f][1..] == [] && V.Taken(C.Acc([], [f.data]), [], z) == C.Acc([], [f.data]);
    assert [] + [f.data] == [f.data];
  }

  /** One compressed message, then a plain one, and the application is handed the second first. */
  lemma OvertakingWitness(z: Zlib) returns (s: Sys)
    ensures var c := Config(z);
            && AllowedRun(c, Init, OVERTAKING) && s == Run(c, Init, OVERTAKING)
            && s.accepted == [[7], [8]] && V.Taken(C.Idle, s.rq.delivered, z).messages == [[8]]
  {
    var c, f := Config(z), Frame(0, DATA, [8]);
    hide Next, Run, AllowedRun, Allowed, V.Taken, OVERTAKING;
    var s5 := Overtakes(z);
    OvertakenArrives(c, s5);
    s := Next(c, s5, Deliver(0));
    TakesPlain(f, z);
    OvertakingRun(z, s5, s);
  }

  lemma OvertakingAllowed(c: Config, t: Sys)
    requires t.window == map[] && t.packets == []
    ensures Allowed(c, Init, Send([7], StreamCompressed)) && Allowed(c, t, OpenSender) && Allowed(c, t, OpenReceiver)
    ensures forall s :: Allowed(c, s, Send([8], PerPacket))
    ensures Allowed(c, t.(status := Open), OpenReceiver) && Allowed(c, t.(status := Open, rstatus := Open), Transmit)
  {
  }

  lemma RunNil(c: Config, s: Sys)
    ensures Run(c, s, []) == s && AllowedRun(c, s, [])
  {
  }

  lemma OvertakingRun(z: Zlib, s5: Sys, s6: Sys)
    requires var c := Config(z);
             var t := Next(c, Next(c, Init, Send([7], StreamCompressed)), Send([8], PerPacket));
             && s5 == Next(c, Next(c, Next(c, t, OpenSender), OpenReceiver), Transmit)
             && t.window == map[] && t.packets == []
             && Next(c, t, OpenSender) == t.(status := Open)
             && Next(c, t.(status := Open), OpenReceiver) == t.(status := Open, rstatus := Open)
             && s6 == Next(c, s5, Deliver(0)) && Allowed(c, s5, Deliver(0))
    ensures AllowedRun(Config(z), Init, OVERTAKING) && s6 == Run(Config(z), Init, OVERTAKING)
  {
    hide Next, Run, AllowedRun, Allowed;
    var c := Config(z);
    var a, b: Step := Send([7], StreamCompressed), Send([8], PerPacket);
    var s1 := Next(c, Init, a);
    var t := Next(c, s1, b);
    var s3 := Next(c, t, OpenSender);
    var s4 := Next(c, s3, OpenReceiver);
    OvertakingAllowed(c, t);
    var d := [Deliver(0)] + [];
    var e := [Transmit] + d;
    var f := [OpenReceiver] + e;
    var g := [OpenSender] + f;
    var h := [b] + g;
    RunNil(c, s6);
    RunCons(c, s5, Deliver(0), []);
    RunCons(c, s4, Transmit, d);
    RunCons(c, s3, OpenReceiver, e);
    RunCons(c, t, OpenSender, f);
    RunCons(c, s1, b, g);
    RunCons(c, Init, a, h);
    assert OVERTAKING == [a] + h;
  }
}

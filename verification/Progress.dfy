/** A connection that has not failed can always still deliver: from every reachable state, retries and
acknowledgements alone lead to one in which the peer has processed every frame. */
module Progress {
  import opened Serial
  import opened Wire
  import opened SendQueues
  import opened Transport
  import D = Delivery

  // ---- what the peer has is acknowledged ----------------------------------------------------------------

  ghost predicate Within(s: Sys, k: nat, j: nat)
    requires k < |s.packets|
  {
    First(s.packets, k) <= j < First(s.packets, k + 1)
  }

  /** A packet any frame of which has reached the peer's queue has been acknowledged. */
  ghost predicate Answered(s: Sys) {
    forall k: nat, j: nat :: k < |s.packets| && Within(s, k, j) && R.Accepted(s.rq, j) ==> k in s.acks
  }

  /** Nothing is accepted that was not transmitted, and packets are short. */
  ghost predicate Tracked(s: Sys) {
    && Answered(s)
    && (forall j: nat :: R.Accepted(s.rq, j) ==> j < |Concat(s.packets)|)
    && (forall k :: 0 <= k < |s.packets| ==> |s.packets[k]| < HALF)
  }

  lemma SameTracked(s: Sys, t: Sys)
    requires Tracked(s) && t.packets == s.packets && t.rq == s.rq && s.acks <= t.acks
    ensures Tracked(t)
  {
    assert forall k: nat, j: nat :: k < |t.packets| && Within(t, k, j) ==> Within(s, k, j);
  }

  lemma SendTracked(s: Sys, frames: seq<Frame>)
    requires Tracked(s) && |frames| < HALF
    ensures Tracked(SendReliably(s, frames))
  {
    var t := SendReliably(s, frames);
    ConcatSnoc(s.packets, frames);
    assert s.packets[..|s.packets|] == s.packets;
    forall k: nat, j: nat | k < |t.packets| && Within(t, k, j) && R.Accepted(t.rq, j)
      ensures k in t.acks
    {
      FirstStable(s.packets, frames, k);
      if k < |s.packets| {
        FirstStable(s.packets, frames, k + 1);
        assert Within(s, k, j);
      }
    }
  }

  lemma {:induction false} FramesCount(fs: seq<Frame>)
    ensures FramesSize(fs) >= 5 * |fs|
  {
    if fs != [] {
      FramesCount(fs[1..]);
    }
  }

  lemma FrontShort(q: Queue)
    requires Small(q) && q.packets != []
    ensures |q.packets[0]| < HALF
  {
    FramesCount(q.packets[0]);
  }

  lemma TransmitTracked(c: Config, s: Sys)
    requires Inv(s) && Tracked(s)
    ensures Tracked(TransmitStep(c, s))
  {
    hide Tracked, Log, Flush, WithQueue, SendReliably, Conserved, R.Ordered, R.Numbered, Small;
    var f := WithQueue(s, Flush(s.queue, c.zlib));
    QueueOnly(s, Flush(s.queue, c.zlib));
    SameTracked(s, f);
    if !s.status.Uninitialized? && !s.queue.closed {
      var _ := FlushAppended(s.queue, c.zlib);
      var q := Flush(s.queue, c.zlib);
      if q.packets != [] {
        FrontShort(q);
        SameTracked(f, f.(queue := q.(packets := q.packets[1..])));
        SendTracked(f.(queue := q.(packets := q.packets[1..])), q.packets[0]);
      }
    }
  }

  lemma QueueOnly(s: Sys, q: Queue)
    ensures var t := WithQueue(s, q); t.packets == s.packets && t.rq == s.rq && t.acks == s.acks
  {
    hide Log;
  }

  /** A packet as the receiver reads it is a stretch of the log. */
  lemma PacketInLog(s: Sys, k: nat)
    requires Inv(s) && k < |s.packets|
    ensures First(s.packets, k) <= First(s.packets, k + 1) <= |s.log|
    ensures Walk(EncodeFrames(s.packets[k])) == s.log[First(s.packets, k)..First(s.packets, k + 1)]
  {
    WalkRoundTrip(s.packets[k]);
    PacketSlice(s.packets, k);
    hide Walk, EncodeFrames, Conserved, R.Ordered, First;
    assert s.log[..|Concat(s.packets)|] == Concat(s.packets);
    var lo, hi := First(s.packets, k), First(s.packets, k + 1);
    assert s.log[lo..hi] == Concat(s.packets)[lo..hi];
  }

  lemma DeliverTracked(s: Sys, k: nat)
    requires Inv(s) && Tracked(s) && k < |s.packets|
    requires R.InReach(First(s.packets, k), First(s.packets, k + 1), R.Expected(s.rq))
    ensures Tracked(DeliverStep(s, k))
  {
    if s.rstatus.Open? {
      var t := DeliverStep(s, k);
      var lo, hi := First(s.packets, k), First(s.packets, k + 1);
      PacketInLog(s, k);
      R.ReceiveAllOnly(s.rq, s.log, lo, hi);
      assert R.OnlyAdds(s.rq, t.rq, lo, hi);
      hide Inv, R.ReceiveAll, R.Accepted, Walk;
      OnlyTracked(s, t, k);
    }
  }

  lemma OnlyTracked(s: Sys, t: Sys, k: nat)
    requires Tracked(s) && k < |s.packets| && t.packets == s.packets && t.acks == s.acks + {k}
    requires R.OnlyAdds(s.rq, t.rq, First(s.packets, k), First(s.packets, k + 1))
    ensures Tracked(t)
  {
    hide R.Accepted;
    PacketSlice(s.packets, k);
    forall i: nat, j: nat | i < |t.packets| && Within(t, i, j) && R.Accepted(t.rq, j)
      ensures i in t.acks
    {
      if R.Accepted(s.rq, j) {
        assert Within(s, i, j);
      } else if i < k {
        FirstMonotone(s.packets, i + 1, k);
      } else if i > k {
        FirstMonotone(s.packets, k + 1, i);
      }
    }
  }

  lemma {:induction false} FirstMonotone(packets: seq<seq<Frame>>, i: nat, k: nat)
    requires i <= k <= |packets|
    ensures First(packets, i) <= First(packets, k)
    decreases k - i
  {
    if i < k {
      PacketSlice(packets, i);
      FirstMonotone(packets, i + 1, k);
    }
  }

  lemma NextTracked(c: Config, s: Sys, step: Step)
    requires Inv(s) && Tracked(s) && Allowed(c, s, step)
    ensures Tracked(Next(c, s, step))
  {
    match step {
      case Send(data, mode) => hide Inv, Tracked, Enqueue, Log; SameTracked(s, Next(c, s, step));
      case CloseSender => hide Inv, Tracked, Enqueue, Log; SameTracked(s, Next(c, s, step));
      case Transmit => TransmitTracked(c, s);
      case Control => hide Inv; SendTracked(s, []);
      case Deliver(k) =>
        if k < |s.packets| {
          DeliverTracked(s, k);
        } else {
          hide Inv;
          SameTracked(s, DeliverStep(s, k));
        }
      case OpenReceiver => DrainedAlready(s.rq, s.log); hide Inv, R.Drain; SameTracked(s, Next(c, s, step));
      case _ => hide Inv, Tracked; SameTracked(s, Next(c, s, step));
    }
  }

  lemma DrainedAlready(rq: R.State, log: seq<Frame>)
    requires R.Ordered(rq, log)
    ensures R.Drain(rq) == rq
  {
  }

  lemma {:induction false} RunTracked(c: Config, s: Sys, steps: seq<Step>)
    requires Inv(s) && Tracked(s) && AllowedRun(c, s, steps)
    ensures Inv(Run(c, s, steps)) && Tracked(Run(c, s, steps))
    decreases |steps|
  {
    hide Inv, Tracked, Next, Allowed;
    if steps != [] {
      NextTracked(c, s, steps[0]);
      NextKeeps(c, s, steps[0]);
      RunTracked(c, Next(c, s, steps[0]), steps[1..]);
    }
  }

  // ---- one packet further --------------------------------------------------------------------------------

  /** No close frame waits in front of other frames: the receiver would close on it and leave them out. */
  ghost predicate CloseLast(s: Sys) {
    forall k :: R.Expected(s.rq) <= k < |s.log| - 1 ==> s.log[k].typ != CLOSE_WRITE
  }

  ghost predicate Done(s: Sys) {
    s.rq.delivered == s.log
  }

  ghost predicate Alive(s: Sys) {
    Inv(s) && Tracked(s) && !s.failed && CloseLast(s) && (s.rstatus.Open? || Done(s))
  }

  /** The packet with the expected frame is within reach. */
  lemma NextPacket(s: Sys) returns (k: nat)
    requires Tracked(s) && R.Expected(s.rq) < |Concat(s.packets)|
    ensures k < |s.packets| && Within(s, k, R.Expected(s.rq))
    ensures R.InReach(First(s.packets, k), First(s.packets, k + 1), R.Expected(s.rq))
  {
    k := Locate(s.packets, R.Expected(s.rq));
    PacketSlice(s.packets, k);
    hide First, Concat;
  }

  /** Delivered, it moves the peer on. */
  lemma DeliverNext(c: Config, s: Sys) returns (k: nat)
    requires Alive(s) && !Done(s) && R.Expected(s.rq) < |Concat(s.packets)|
    ensures Allowed(c, s, Deliver(k))
    ensures var t := Next(c, s, Deliver(k));
            && Alive(t) && R.Expected(s.rq) < R.Expected(t.rq) && t.queue == s.queue && t.log == s.log
  {
    hide Inv, Tracked, CloseLast, DeliverStep, First, Concat, Within, R.InReach, R.Accepted;
    var e := R.Expected(s.rq);
    k := NextPacket(s);
    DeliverTracked(s, k);
    DeliverKeeps(s, k);
    DeliverAccepts(s, k, e);
    var t := DeliverStep(s, k);
    LogStays(s, k);
    DeliveredPrefix(t);
    DeliverCloses(s, k);
    MovedOn(t, e);
  }

  lemma LogStays(s: Sys, k: nat)
    ensures DeliverStep(s, k).log == s.log
  {
    hide R.ReceiveAll, Walk;
  }

  lemma DeliverAccepts(s: Sys, k: nat, e: nat)
    requires Inv(s) && k < |s.packets| && s.rstatus.Open? && Within(s, k, e)
    requires R.InReach(First(s.packets, k), First(s.packets, k + 1), R.Expected(s.rq))
    ensures R.Accepted(DeliverStep(s, k).rq, e)
  {
    var lo, hi := First(s.packets, k), First(s.packets, k + 1);
    PacketInLog(s, k);
    R.ReceiveAllKeeps(s.rq, s.log, lo, hi);
  }

  lemma MovedOn(t: Sys, e: nat)
    requires Inv(t) && R.Accepted(t.rq, e)
    ensures R.Expected(t.rq) != e
  {
  }

  /** The receiver is still open, unless the close frame has been processed. */
  lemma DeliverCloses(s: Sys, k: nat)
    requires s.rstatus.Open? && CloseLast(s) && s.rq.delivered <= DeliverStep(s, k).rq.delivered
    requires DeliverStep(s, k).rq.delivered <= s.log
    ensures var t := DeliverStep(s, k);
            && t.log == s.log && t.queue == s.queue && t.failed == s.failed
            && CloseLast(t) && (t.rstatus.Open? || Done(t))
  {
    hide R.ReceiveAll, Walk;
    var t := DeliverStep(s, k);
    if !t.rstatus.Open? {
      var i :| |s.rq.delivered| <= i < |t.rq.delivered| && t.rq.delivered[i].typ == CLOSE_WRITE;
      assert s.log[i].typ == CLOSE_WRITE;
      assert i == |s.log| - 1;
    }
  }

  // ---- the next packet of the queue ----------------------------------------------------------------------

  /** Everything transmitted has been processed, so the packet that still blocks the next identifier can be
  acknowledged: it has been before, or is empty and can be delivered at any time. */
  lemma FreeId(c: Config, s: Sys) returns (steps: seq<Step>)
    requires Alive(s) && s.rstatus.Open? && R.Expected(s.rq) >= |Concat(s.packets)|
    ensures AllowedRun(c, s, steps)
    ensures var t := Run(c, s, steps);
            && t == s.(window := t.window, acks := t.acks) && Alive(t) && Wrap(|s.packets|) !in t.window
  {
    var id := Wrap(|s.packets|);
    if id !in s.window {
      steps := [];
    } else {
      var k := s.window[id];
      assert k < |s.packets| && Wrap(k) == id;
      if s.packets[k] == [] {
        EmptyPacket(c, s, k);
        var m := Next(c, s, Deliver(k));
        NextAlive(c, s, Deliver(k));
        steps := [Deliver(k), AckArrives(k)];
        AckNext(c, m, k);
        RunTwo(c, s, Deliver(k), AckArrives(k));
      } else {
        ProcessedIsAnswered(s, k);
        steps := [AckArrives(k)];
        AckNext(c, s, k);
        RunOne(c, s, AckArrives(k));
      }
    }
  }

  lemma ProcessedIsAnswered(s: Sys, k: nat)
    requires Inv(s) && Tracked(s) && k < |s.packets| && s.packets[k] != [] && R.Expected(s.rq) >= |Concat(s.packets)|
    ensures k in s.acks
  {
    PacketSlice(s.packets, k);
    var j := First(s.packets, k);
    assert Within(s, k, j) && R.Accepted(s.rq, j);
  }

  lemma EmptyPacket(c: Config, s: Sys, k: nat)
    requires Inv(s) && k < |s.packets| && s.packets[k] == [] && s.rstatus.Open?
    ensures Allowed(c, s, Deliver(k)) && Next(c, s, Deliver(k)) == s.(acks := s.acks + {k})
  {
    PacketSlice(s.packets, k);
    WalkRoundTrip([]);
    assert R.ReceiveAll(s.rq, []) == s.rq;
  }

  /** An allowed step that keeps log, frames processed and status keeps the sender alive. */
  lemma NextAlive(c: Config, s: Sys, step: Step)
    requires Alive(s) && Allowed(c, s, step)
    requires var t := Next(c, s, step);
             t.log == s.log && t.rq == s.rq && t.failed == s.failed && t.rstatus == s.rstatus
    ensures Alive(Next(c, s, step))
  {
    hide Inv, Tracked, Next, Allowed;
    NextKeeps(c, s, step);
    NextTracked(c, s, step);
  }

  lemma AckNext(c: Config, s: Sys, k: nat)
    requires Alive(s) && k in s.acks && Wrap(k) in s.window && s.window[Wrap(k)] == k
    ensures Allowed(c, s, AckArrives(k))
    ensures var t := Next(c, s, AckArrives(k));
            t == s.(window := s.window - {Wrap(k)}) && Alive(t)
  {
    NextAlive(c, s, AckArrives(k));
  }

  lemma OpenNext(c: Config, s: Sys)
    requires Alive(s)
    ensures var t := Next(c, s, OpenSender);
            && Allowed(c, s, OpenSender) && Alive(t) && !t.status.Uninitialized?
            && t == s.(status := t.status)
  {
    NextAlive(c, s, OpenSender);
  }

  /** The front packet of the queue goes out; nothing is numbered, since the queue is not empty. */
  lemma TransmitNext(c: Config, s: Sys)
    requires Alive(s) && !s.status.Uninitialized? && Wrap(|s.packets|) !in s.window && s.queue.packets != []
    ensures Allowed(c, s, Transmit)
    ensures var t := Next(c, s, Transmit);
            && Alive(t) && t.log == s.log && t.rq == s.rq && t.rstatus == s.rstatus
            && t.queue == s.queue.(packets := s.queue.packets[1..])
  {
    TransmitFront(c, s);
    NextAlive(c, s, Transmit);
  }

  lemma TransmitFront(c: Config, s: Sys)
    requires !s.status.Uninitialized? && !s.queue.closed && s.queue.packets != []
    ensures var q := s.queue.(packets := s.queue.packets[1..]);
            TransmitStep(c, s) == SendReliably(s.(queue := q), s.queue.packets[0])
  {
    assert Flush(s.queue, c.zlib) == s.queue;
    assert WithQueue(s, s.queue) == s by {
      assert Log(s.queue)[|Log(s.queue)|..] == [];
      assert s.log + [] == s.log;
    }
    hide Log, WithQueue;
  }

  /** Opening the sender, freeing the identifier and sending the front packet. */
  lemma SendNext(c: Config, s: Sys) returns (steps: seq<Step>)
    requires Alive(s) && s.rstatus.Open? && R.Expected(s.rq) >= |Concat(s.packets)| && s.queue.packets != []
    ensures AllowedRun(c, s, steps)
    ensures var t := Run(c, s, steps);
            Alive(t) && t.log == s.log && t.queue == s.queue.(packets := s.queue.packets[1..])
  {
    hide Alive, Next, Run, AllowedRun, Allowed;
    OpenNext(c, s);
    var o := Next(c, s, OpenSender);
    var free := FreeId(c, o);
    var f := Run(c, o, free);
    TransmitNext(c, f);
    RunOne(c, s, OpenSender);
    RunOne(c, f, Transmit);
    RunAppend(c, o, free, [Transmit]);
    RunAppend(c, s, [OpenSender], free + [Transmit]);
    steps := [OpenSender] + (free + [Transmit]);
  }

  // ---- to the end ------------------------------------------------------------------------------------------

  lemma RunTwo(c: Config, s: Sys, x: Step, y: Step)
    ensures Run(c, s, [x, y]) == Next(c, Next(c, s, x), y)
    ensures AllowedRun(c, s, [x, y]) <==> Allowed(c, s, x) && Allowed(c, Next(c, s, x), y)
  {
    hide Next, Allowed, Run, AllowedRun;
    assert [x, y] == [x] + [y];
    RunAppend(c, s, [x], [y]);
    RunOne(c, s, x);
    RunOne(c, Next(c, s, x), y);
  }

  lemma NothingQueued(s: Sys)
    requires Alive(s) && s.queue.packets == [] && R.Expected(s.rq) >= |Concat(s.packets)|
    ensures Done(s)
  {
    assert Log(s.queue) == [];
  }

  lemma DoneExactly(s: Sys)
    requires Alive(s)
    ensures R.Expected(s.rq) <= |s.log| && (!Done(s) ==> s.rstatus.Open?)
  {
    hide Tracked, Conserved, Logged;
  }

  lemma {:induction false} DeliverAll(c: Config, s: Sys) returns (steps: seq<Step>)
    requires Alive(s)
    ensures AllowedRun(c, s, steps) && Done(Run(c, s, steps)) && Run(c, s, steps).log == s.log
    decreases |s.queue.packets|, |s.log| - R.Expected(s.rq)
  {
    DoneExactly(s);
    hide Alive, Next, Allowed;
    if Done(s) {
      steps := [];
    } else if R.Expected(s.rq) < |Concat(s.packets)| {
      var k := DeliverNext(c, s);
      var t := Next(c, s, Deliver(k));
      DoneExactly(t);
      var rest := DeliverAll(c, t);
      RunOne(c, s, Deliver(k));
      RunAppend(c, s, [Deliver(k)], rest);
      steps := [Deliver(k)] + rest;
    } else if s.queue.packets == [] {
      NothingQueued(s);
      steps := [];
    } else {
      var first := SendNext(c, s);
      var rest := DeliverAll(c, Run(c, s, first));
      RunAppend(c, s, first, rest);
      steps := first + rest;
    }
  }

  /** From every reachable state in which the sender has not failed and the receiver is not closed, whatever was lost so
  far, some continuation ends with every numbered frame processed, provided no close frame is still in front of
  others. */
  lemma CanDeliver(c: Config, before: seq<Step>) returns (after: seq<Step>)
    requires AllowedRun(c, Init, before)
    requires var s := Run(c, Init, before); !s.failed && !s.rstatus.Closed? && CloseLast(s)
    ensures var s := Run(c, Init, before);
            AllowedRun(c, s, after) && Done(Run(c, s, after)) && Run(c, s, after).log == s.log
  {
    InitInv();
    InitTracked();
    RunTracked(c, Init, before);
    hide Inv, Next, Allowed, Tracked, Run, AllowedRun;
    var s := Run(c, Init, before);
    OpenedNext(c, s);
    var t := Next(c, s, OpenReceiver);
    var rest := DeliverAll(c, t);
    RunOne(c, s, OpenReceiver);
    RunAppend(c, s, [OpenReceiver], rest);
    after := [OpenReceiver] + rest;
  }

  /** A receiver that is not open yet can be opened. */
  lemma OpenedNext(c: Config, s: Sys)
    requires Inv(s) && Tracked(s) && !s.failed && CloseLast(s) && !s.rstatus.Closed?
    ensures Allowed(c, s, OpenReceiver)
    ensures var t := Next(c, s, OpenReceiver); Alive(t) && t.log == s.log
  {
    NextKeeps(c, s, OpenReceiver);
    NextTracked(c, s, OpenReceiver);
    DrainedAlready(s.rq, s.log);
    hide Inv, Tracked, R.Drain;
  }

  lemma InitTracked()
    ensures Tracked(Init)
  {
  }

  /** Without compression that is always so: every accepted byte can still be handed over. */
  lemma PlainCanDeliver(c: Config, before: seq<Step>) returns (after: seq<Step>)
    requires AllowedRun(c, Init, before) && Uncompressed(before)
    requires var s := Run(c, Init, before); !s.failed && !s.rstatus.Closed?
    ensures var s := Run(c, Init, before);
            && AllowedRun(c, s, after)
            && Concat(D.Handed(Run(c, s, after).rq.delivered)) == Concat(s.accepted)
  {
    InitInv();
    D.PlainRun(c, Init, before, false);
    var s := Run(c, Init, before);
    PlainCloseLast(s);
    hide Inv, D.Plain, Run, AllowedRun;
    after := CanDeliver(c, before);
    D.PlainBytes(s);
  }

  lemma PlainCloseLast(s: Sys)
    requires D.Plain(s, false)
    ensures CloseLast(s)
  {
    hide D.Handed, Concat;
  }

  // ---- a close frame too far in front -------------------------------------------------------------------

  /** The close frame `k` has not been processed, or has closed the receiver with at most 2^15 frames behind it. */
  ghost predicate Halted(s: Sys, k: nat) {
    && k < |s.log| && s.log[k].typ == CLOSE_WRITE
    && (R.Expected(s.rq) <= k || (s.rstatus.Closed? && R.Expected(s.rq) <= k + HALF))
  }

  /** One packet moves the peer on by at most half the identifier space. */
  lemma DeliverBound(s: Sys, k: nat)
    requires Inv(s) && k < |s.packets| && s.rstatus.Open?
    requires R.InReach(First(s.packets, k), First(s.packets, k + 1), R.Expected(s.rq))
    ensures R.Expected(DeliverStep(s, k).rq) <= R.Expected(s.rq) + HALF
  {
    var e := R.Expected(s.rq);
    var t := DeliverStep(s, k);
    PacketInLog(s, k);
    R.ReceiveAllOnly(s.rq, s.log, First(s.packets, k), First(s.packets, k + 1));
    assert R.OnlyAdds(s.rq, t.rq, First(s.packets, k), First(s.packets, k + 1));
    hide R.ReceiveAll, Walk, DeliverStep;
    assert !R.Accepted(s.rq, e + HALF);
    assert !R.Accepted(t.rq, e + HALF);
  }

  lemma DeliverHalts(c: Config, s: Sys, i: nat, k: nat)
    requires Inv(s) && Allowed(c, s, Deliver(i)) && Halted(s, k)
    ensures Halted(Next(c, s, Deliver(i)), k)
  {
    if i < |s.packets| && s.rstatus.Open? {
      DeliverBound(s, i);
      DeliverKeeps(s, i);
      var t := DeliverStep(s, i);
      hide R.ReceiveAll, Walk, Conserved, Logged, R.Ordered;
      DeliveredPrefix(t);
      if R.Expected(t.rq) > k {
        assert t.rq.delivered[k].typ == CLOSE_WRITE;
      }
    }
  }

  lemma DeliveredPrefix(s: Sys)
    requires Inv(s)
    ensures s.rq.delivered <= s.log
  {
  }

  lemma NextHalts(c: Config, s: Sys, step: Step, k: nat)
    requires Inv(s) && Allowed(c, s, step) && Halted(s, k)
    ensures Halted(Next(c, s, step), k)
  {
    if step.Deliver? {
      DeliverHalts(c, s, step.k, k);
    } else {
      NextKeeps(c, s, step);
      DrainedAlready(s.rq, s.log);
      OthersLeaveReceiver(c, s, step);
      hide Inv, Next, R.Drain;
    }
  }

  lemma TransmitLeavesReceiver(c: Config, s: Sys)
    ensures TransmitStep(c, s).rq == s.rq && TransmitStep(c, s).rstatus == s.rstatus
  {
    hide Log, Flush;
  }

  lemma OthersLeaveReceiver(c: Config, s: Sys, step: Step)
    requires !step.Deliver? && R.Drain(s.rq) == s.rq
    ensures Next(c, s, step).rq == s.rq && (s.rstatus.Closed? ==> Next(c, s, step).rstatus.Closed?)
  {
    TransmitLeavesReceiver(c, s);
    hide TransmitStep, R.Drain, DeliverStep, Log, Enqueue;
  }

  lemma {:induction false} RunHalts(c: Config, s: Sys, steps: seq<Step>, k: nat)
    requires Inv(s) && AllowedRun(c, s, steps) && Halted(s, k)
    ensures Halted(Run(c, s, steps), k)
    decreases |steps|
  {
    hide Inv, Allowed, Next, Halted;
    if steps != [] {
      NextHalts(c, s, steps[0], k);
      NextKeeps(c, s, steps[0]);
      RunHalts(c, Next(c, s, steps[0]), steps[1..], k);
    }
  }

  /** The condition is needed: with more than 2^15 frames behind a close frame that has not been processed, no
  continuation at all processes every frame, for the receiver closes first. */
  lemma CannotDeliver(c: Config, before: seq<Step>, after: seq<Step>, k: nat)
    requires AllowedRun(c, Init, before) && AllowedRun(c, Run(c, Init, before), after)
    requires var s := Run(c, Init, before);
             R.Expected(s.rq) <= k < k + HALF < |s.log| && s.log[k].typ == CLOSE_WRITE
    ensures !Done(Run(c, Run(c, Init, before), after))
  {
    InitInv();
    RunKeeps(c, Init, before);
    var s := Run(c, Init, before);
    RunHalts(c, s, after, k);
    RunKeeps(c, s, after);
  }
}

/** When a connection is over: both directions closed and nothing left to send, or a failure
(mrudp/Connection.cpp). */
module Connections {
  import opened Serial
  import opened Wire
  import opened SendQueues
  import T = Transport

  datatype Event = ByClose | ByTimeout

  /** `unacked` counts the packets in the retry window, `canSend` tells that the peer's short id is known,
  `notified` are the calls of the close handler. */
  datatype State = State(sender: T.Status, receiver: T.Status, queue: Queue, retrierClosed: bool, unacked: nat,
                         canSend: bool, reason: Event, closed: bool, notified: seq<Event>)

  const Start := State(T.Uninitialized, T.Uninitialized, Empty, false, 0, false, ByClose, false, [])

  /** `Sender::empty`: nothing unacknowledged, nothing queued, nothing waiting to be compressed. */
  predicate SenderEmpty(s: State) {
    s.unacked == 0 && IsEmpty(s.queue)
  }

  predicate Over(s: State) {
    s.sender.Closed? && s.receiver.Closed? && SenderEmpty(s)
  }

  function PossiblyClose(s: State): State {
    if !s.closed && Over(s) then s.(closed := true, notified := s.notified + [s.reason]) else s
  }

  /** `Sender::fail`. */
  function SenderFail(s: State): State {
    s.(sender := T.Closed, retrierClosed := true, unacked := if s.retrierClosed then s.unacked else 0,
       queue := Close(s.queue))
  }

  /** `Connection::fail`. */
  function Fail(s: State, event: Event): State {
    PossiblyClose(SenderFail(s.(reason := event, receiver := T.Closed)))
  }

  datatype Step =
    | Send(data: Bytes, mode: Mode)
    | Open
    | CloseByUser
    | Transmit
    | ControlSent
    | Acked(contained: bool)
    | PeerStoppedReading
    | PeerFinished
    | TimedOut

  function SenderClose(s: State): State {
    if s.sender.Closed? then s else s.(sender := T.Closed, queue := Enqueue(s.queue, CLOSE_WRITE, [], PerPacket))
  }

  function Sent(s: State): State {
    if s.retrierClosed then s else s.(unacked := s.unacked + 1)
  }

  /** `Receiver::close`: the peer is told, by a reliable CLOSE_READ, that nobody reads any more. */
  function ReceiverClose(s: State): State {
    if s.receiver.Closed? then s else (if s.canSend then Sent(s) else s).(receiver := T.Closed)
  }

  function Next(c: T.Config, s: State, step: Step): State {
    match step
    case Send(data, mode) =>
      if T.Refuses(s.sender, data, mode) then s
      else s.(queue := Enqueue(s.queue, DATA, data, mode))
    case Open => s.(canSend := true, sender := if s.sender.Uninitialized? then T.Open else s.sender,
                    receiver := if s.receiver.Uninitialized? then T.Open else s.receiver)
    case CloseByUser => PossiblyClose(ReceiverClose(SenderClose(s)))
    case Transmit =>
      if s.sender.Uninitialized? then s
      else (match Dequeue(s.queue, c.zlib)
            case Nothing(_) => s
            case Took(q, _) => Sent(s.(queue := q)))
    case ControlSent => Sent(s)
    case Acked(contained) => PossiblyClose(if contained && s.unacked > 0 then s.(unacked := s.unacked - 1) else s)
    case PeerStoppedReading => PossiblyClose(SenderFail(s))
    case PeerFinished => PossiblyClose(ReceiverClose(s))
    case TimedOut => Fail(s, ByTimeout)
  }

  function Run(c: T.Config, s: State, steps: seq<Step>): State
    decreases |steps|
  {
    if steps == [] then s else Run(c, Next(c, s, steps[0]), steps[1..])
  }

  // ---- invariants --------------------------------------------------------------------------------

  ghost predicate Inv(s: State) {
    && |s.notified| == (if s.closed then 1 else 0)
    && s.retrierClosed == s.queue.closed
    && (s.retrierClosed ==> s.sender.Closed? && s.unacked == 0 && s.queue.packets == [])
    && (s.closed ==> s.sender.Closed? && s.receiver.Closed?)
  }

  lemma DequeueClosed(q: Queue, z: Zlib)
    ensures Dequeue(q, z).queue.closed == q.closed && (q.closed ==> Dequeue(q, z) == Nothing(q))
  {
    if !q.closed && q.packets == [] && q.pending != [] {
      var _ := CoalesceStreamGrew(q, DATA_COMPRESSED, Batch(q.pending, z));
    }
  }

  lemma NextKeeps(c: T.Config, s: State, step: Step)
    requires Inv(s)
    ensures Inv(Next(c, s, step))
  {
    hide Enqueue, Dequeue;
    match step {
      case Send(data, mode) => if !T.Refuses(s.sender, data, mode) { EnqueueLeaves(s.queue, DATA, data, mode); }
      case CloseByUser => EnqueueLeaves(s.queue, CLOSE_WRITE, [], PerPacket);
      case Transmit => DequeueClosed(s.queue, c.zlib);
      case _ =>
    }
  }

  lemma {:induction false} RunKeeps(c: T.Config, s: State, steps: seq<Step>)
    requires Inv(s)
    ensures Inv(Run(c, s, steps))
    decreases |steps|
  {
    if steps != [] {
      hide Inv, Next;
      NextKeeps(c, s, steps[0]);
      RunKeeps(c, Next(c, s, steps[0]), steps[1..]);
    }
  }

  /** The close handler is called at most once, and exactly when the connection is closed. */
  lemma NotifiedOnce(c: T.Config, steps: seq<Step>)
    ensures var s := Run(c, Start, steps);
            |s.notified| <= 1 && (s.closed <==> |s.notified| == 1)
  {
    RunKeeps(c, Start, steps);
  }

  // ---- closing -------------------------------------------------------------------------------------

  /** Both directions are closed, every packet is acknowledged, none is queued, and no bytes wait to be
  compressed. */
  predicate Finished(s: State) {
    && s.sender == T.Closed && s.receiver == T.Closed
    && s.unacked == 0 && s.queue.packets == [] && s.queue.pending == []
  }

  /** A control packet that is kept for retry although the connection is over: an address challenge, say, before the
  socket forgets the connection. */
  predicate Late(s: State, step: Step) {
    step.ControlSent? && s.closed && !s.retrierClosed
  }

  /** A dequeue takes a packet from an open queue, or finds it closed or empty. */
  lemma DequeueCases(q: Queue, z: Zlib)
    ensures Dequeue(q, z).Took? ==> !q.closed
    ensures Dequeue(q, z).Nothing? ==> q.closed || (q.packets == [] && q.pending == [])
  {
    if !q.closed && q.packets == [] && q.pending != [] {
      var _ := CoalesceStreamGrew(q, DATA_COMPRESSED, Batch(q.pending, z));
    }
  }

  /** The steps that end with a look at whether the connection is over. */
  predicate Looks(step: Step) {
    step.CloseByUser? || step.Acked? || step.PeerFinished? || step.PeerStoppedReading? || step.TimedOut?
  }

  lemma LookFinds(u: State)
    ensures var t := PossiblyClose(u);
            && (t.closed <==> u.closed || Finished(t)) && t.reason == u.reason
            && t.notified == if t.closed && !u.closed then u.notified + [t.reason] else u.notified
  {
  }

  /** Such a step leaves the connection closed exactly when it was closed before or is finished now; the handler
  is then called with the reason. */
  lemma LookExact(c: T.Config, s: State, step: Step)
    requires Looks(step)
    ensures var t := Next(c, s, step);
            && (t.closed <==> s.closed || Finished(t))
            && t.notified == if t.closed && !s.closed then s.notified + [t.reason] else s.notified
    ensures Next(c, s, step).reason == if step.TimedOut? then ByTimeout else s.reason
  {
    hide Enqueue, Dequeue, PossiblyClose, Finished;
    match step {
      case CloseByUser => LookFinds(ReceiverClose(SenderClose(s)));
      case Acked(contained) => LookFinds(if contained && s.unacked > 0 then s.(unacked := s.unacked - 1) else s);
      case PeerStoppedReading => LookFinds(SenderFail(s));
      case PeerFinished => LookFinds(ReceiverClose(s));
      case TimedOut => LookFinds(SenderFail(s.(reason := ByTimeout, receiver := T.Closed)));
    }
  }

  /** No other step closes, finishes or tells the user anything. */
  lemma QuietExact(c: T.Config, s: State, step: Step)
    requires Inv(s) && !Looks(step)
    ensures var t := Next(c, s, step);
            t.closed == s.closed && t.notified == s.notified && t.reason == s.reason && (Finished(t) ==> Finished(s))
  {
    hide Enqueue, Dequeue;
    match step {
      case Transmit =>
        DequeueClosed(s.queue, c.zlib);
        DequeueCases(s.queue, c.zlib);
      case _ =>
    }
  }

  /** A connection that is closed stays as it is, unless a control packet comes late. */
  lemma ClosedStays(c: T.Config, s: State, step: Step)
    requires Inv(s) && s.closed && Finished(s)
    ensures Finished(Next(c, s, step)) <==> !Late(s, step)
  {
    hide Enqueue;
    if step.Transmit? {
      DequeueCases(s.queue, c.zlib);
      assert Flush(s.queue, c.zlib) == s.queue;
    }
  }

  /** Closed and finished are the same; every step keeps that, except a late control packet. */
  lemma ClosedExact(c: T.Config, s: State, step: Step)
    requires Inv(s) && (s.closed <==> Finished(s))
    ensures var t := Next(c, s, step);
            (t.closed <==> Finished(t)) <==> !Late(s, step)
  {
    hide Enqueue, Dequeue, Next, Finished, Late;
    var t := Next(c, s, step);
    if s.closed {
      ClosedStays(c, s, step);
      StaysClosed(c, s, step);
    } else {
      NeverLate(s, step);
      if Looks(step) {
        LookExact(c, s, step);
      } else {
        QuietExact(c, s, step);
      }
    }
  }

  lemma StaysClosed(c: T.Config, s: State, step: Step)
    requires s.closed
    ensures Next(c, s, step).closed
  {
    hide Enqueue, Dequeue;
  }

  lemma NeverLate(s: State, step: Step)
    requires !s.closed
    ensures !Late(s, step)
  {
  }

  /** Closing for the first time queues one close frame behind everything else, tells a peer that is known, reliably,
  that nobody reads any more, and closes both directions. Closing again changes nothing that is sent. */
  lemma CloseTells(c: T.Config, s: State)
    requires Inv(s)
    ensures var t := Next(c, s, CloseByUser);
            && t.sender == T.Closed && t.receiver == T.Closed
            && Log(t.queue) == Log(s.queue) +
               (if s.sender != T.Closed then [Frame(Wrap(s.queue.next), CLOSE_WRITE, [])] else [])
            && t.unacked == s.unacked + (if s.receiver != T.Closed && s.canSend && !s.retrierClosed then 1 else 0)
            && t.queue.pending == s.queue.pending
  {
    if s.sender != T.Closed {
      var _ := EnqueueGrew(s.queue, CLOSE_WRITE, [], PerPacket);
    }
    hide Enqueue, Log;
    assert Log(s.queue) + [] == Log(s.queue);
  }

  /** What the other steps do to the packets in flight. */
  lemma InFlight(c: T.Config, s: State, step: Step)
    requires Inv(s) && !step.CloseByUser?
    ensures var t := Next(c, s, step);
            match step
            case Transmit =>
              t.unacked == s.unacked + if s.sender != T.Uninitialized && Dequeue(s.queue, c.zlib).Took? then 1 else 0
            case ControlSent => t.unacked == s.unacked + if s.retrierClosed then 0 else 1
            case Acked(contained) => t.unacked == s.unacked - if contained && s.unacked > 0 then 1 else 0
            case PeerFinished =>
              && t.receiver == T.Closed
              && t.unacked == s.unacked + if s.receiver != T.Closed && s.canSend && !s.retrierClosed then 1 else 0
            case PeerStoppedReading => t.unacked == 0 && t.sender == T.Closed && t.queue.packets == []
            case TimedOut => t.unacked == 0 && t.sender == T.Closed && t.receiver == T.Closed && t.queue.packets == []
            case _ => t.unacked == s.unacked
  {
    hide Enqueue, Dequeue;
    if step.Transmit? {
      DequeueCases(s.queue, c.zlib);
    }
  }

  /** No control packet comes late in the run. */
  predicate Prompt(c: T.Config, s: State, steps: seq<Step>)
    decreases |steps|
  {
    steps == [] || (!Late(s, steps[0]) && Prompt(c, Next(c, s, steps[0]), steps[1..]))
  }

  /** In every run a connection is closed, and the handler has been called, exactly when both directions are closed,
  nothing is unacknowledged, nothing is queued and nothing waits to be compressed. */
  lemma {:induction false} ClosesWhenFinished(c: T.Config, s: State, steps: seq<Step>)
    requires Inv(s) && (s.closed <==> Finished(s)) && Prompt(c, s, steps)
    ensures var t := Run(c, s, steps);
            Inv(t) && (t.closed <==> Finished(t)) && (t.notified != [] <==> Finished(t))
    decreases |steps|
  {
    if steps != [] {
      hide Inv, Next, Finished, Late;
      ClosedExact(c, s, steps[0]);
      NextKeeps(c, s, steps[0]);
      ClosesWhenFinished(c, Next(c, s, steps[0]), steps[1..]);
    }
  }

  /** The same from the start. Whatever comes late, a finished connection is closed, and in a closed one both
  directions are closed, nothing is queued and nothing waits to be compressed. */
  lemma ConnectionIsOver(c: T.Config, steps: seq<Step>)
    ensures var t := Run(c, Start, steps);
            && (Finished(t) ==> t.closed)
            && (t.closed ==>
                  t.sender == T.Closed && t.receiver == T.Closed && t.queue.packets == [] && t.queue.pending == [])
            && (Prompt(c, Start, steps) ==> (t.closed <==> Finished(t)))
  {
    OverKeeps(c, Start, steps);
    if Prompt(c, Start, steps) {
      ClosesWhenFinished(c, Start, steps);
    }
  }

  /** If closed, then for both directions, with nothing queued and nothing to be compressed. */
  predicate Emptied(s: State) {
    s.closed ==> s.sender == T.Closed && s.receiver == T.Closed && s.queue.packets == [] && s.queue.pending == []
  }

  lemma OverNext(c: T.Config, s: State, step: Step)
    requires Inv(s) && (Finished(s) ==> s.closed) && Emptied(s)
    ensures var t := Next(c, s, step); (Finished(t) ==> t.closed) && Emptied(t)
  {
    hide Enqueue;
    if Looks(step) {
      LookExact(c, s, step);
    } else {
      QuietExact(c, s, step);
    }
    if step.Transmit? && s.closed {
      assert Flush(s.queue, c.zlib) == s.queue;
    }
  }

  lemma {:induction false} OverKeeps(c: T.Config, s: State, steps: seq<Step>)
    requires Inv(s) && (Finished(s) ==> s.closed) && Emptied(s)
    ensures var t := Run(c, s, steps); (Finished(t) ==> t.closed) && Emptied(t)
    decreases |steps|
  {
    if steps != [] {
      hide Inv, Next, Finished, Emptied;
      OverNext(c, s, steps[0]);
      NextKeeps(c, s, steps[0]);
      OverKeeps(c, Next(c, s, steps[0]), steps[1..]);
    }
  }

  /** A failure closes the connection at once exactly when no bytes are waiting to be compressed: failing
  clears the packets but not the compression buffer, and that keeps the sender from counting as empty. */
  lemma FailClosesExact(c: T.Config, steps: seq<Step>, event: Event)
    requires !Run(c, Start, steps).closed
    ensures var s := Run(c, Start, steps);
            Fail(s, event).closed <==> s.queue.pending == []
    ensures var s := Run(c, Start, steps);
            Fail(s, event).closed ==> Fail(s, event).notified == [event]
  {
    RunKeeps(c, Start, steps);
  }

  /** Failed, open to nothing, with bytes left in the compression buffer. */
  predicate Stuck(s: State) {
    !s.closed && s.queue.closed && s.queue.pending != [] && s.sender.Closed? && s.receiver.Closed?
  }

  lemma StuckNext(c: T.Config, s: State, step: Step)
    requires Inv(s) && Stuck(s)
    ensures Stuck(Next(c, s, step))
  {
    hide Enqueue, Dequeue;
    if step.Transmit? {
      DequeueClosed(s.queue, c.zlib);
    }
  }

  /** And then it is never closed: not by acknowledgements, by the peer, by the user or by another failure. */
  lemma {:induction false} StuckForever(c: T.Config, s: State, more: seq<Step>)
    requires Inv(s) && Stuck(s)
    ensures Stuck(Run(c, s, more)) && Run(c, s, more).notified == []
    decreases |more|
  {
    if more == [] {
    } else {
      hide Inv, Stuck, Next;
      StuckNext(c, s, more[0]);
      NextKeeps(c, s, more[0]);
      StuckForever(c, Next(c, s, more[0]), more[1..]);
    }
  }

  lemma FailWithPendingNeverCloses(c: T.Config, steps: seq<Step>, event: Event, more: seq<Step>)
    requires !Run(c, Start, steps).closed && Run(c, Start, steps).queue.pending != []
    ensures var t := Run(c, Fail(Run(c, Start, steps), event), more);
            !t.closed && t.notified == []
  {
    RunKeeps(c, Start, steps);
    var s := Run(c, Start, steps);
    var t := Fail(s, event);
    assert Inv(t) && Stuck(t);
    StuckForever(c, t, more);
  }

  // ---- uncompressed modes --------------------------------------------------------------------------

  /** No message of the run is compressed. */
  ghost predicate Uncompressed(steps: seq<Step>) {
    forall i :: 0 <= i < |steps| && steps[i].Send? ==> !steps[i].mode.StreamCompressed?
  }

  lemma {:induction false} PendingOnlyCompressed(c: T.Config, s: State, steps: seq<Step>)
    requires Uncompressed(steps) && s.queue.pending == []
    ensures Run(c, s, steps).queue.pending == []
    decreases |steps|
  {
    if steps != [] {
      PendingStep(c, s, steps[0]);
      PendingOnlyCompressed(c, Next(c, s, steps[0]), steps[1..]);
    }
  }

  lemma PendingStep(c: T.Config, s: State, step: Step)
    requires (step.Send? ==> !step.mode.StreamCompressed?) && s.queue.pending == []
    ensures Next(c, s, step).queue.pending == []
  {
    hide Enqueue;
    match step {
      case Send(data, mode) => if !T.Refuses(s.sender, data, mode) { EnqueueLeaves(s.queue, DATA, data, mode); }
      case CloseByUser => EnqueueLeaves(s.queue, CLOSE_WRITE, [], PerPacket);
      case Transmit => assert Flush(s.queue, c.zlib) == s.queue;
      case _ =>
    }
  }

  /** Without compression, running out of retries always closes the connection and tells the user why. */
  lemma ExhaustionCloses(c: T.Config, steps: seq<Step>)
    requires Uncompressed(steps) && !Run(c, Start, steps).closed
    ensures var t := Next(c, Run(c, Start, steps), TimedOut);
            t.closed && t.notified == [ByTimeout]
  {
    PendingOnlyCompressed(c, Start, steps);
    FailClosesExact(c, steps, ByTimeout);
  }

  /** The buffer that keeps a failed connection open: one message accepted in compressed mode. */
  lemma StuckWitness(z: Zlib, more: seq<Step>)
    ensures var c := T.Config(z);
            !Run(c, Fail(Run(c, Start, [Send([7], StreamCompressed)]), ByTimeout), more).closed
  {
    var c := T.Config(z);
    var s := Next(c, Start, Send([7], StreamCompressed));
    assert [Send([7], StreamCompressed)][1..] == [];
    assert Run(c, s, [Send([7], StreamCompressed)][1..]) == s;
    assert |s.queue.pending| > 0;
    FailWithPendingNeverCloses(c, [Send([7], StreamCompressed)], ByTimeout, more);
  }
}

/** The connection's closing logic on top of the sender object. */
module ConnectionObjects {
  import opened Serial
  import opened Wire
  import opened SendQueues
  import opened SendQueueObjects
  import opened Senders
  import opened Spec = Connections

  class Connection {
    const sender: Sender
    var receiverStatus: T.Status
    var closeReason: Event
    var closed: bool
    /** The calls of the user's close handler. */
    var notified: seq<Event>

    ghost predicate Valid()
      reads this, sender, sender.dataQueue, sender.dataQueue.Repr, sender.retrier, sender.packetIDs
    {
      && sender.Valid()
      && this !in sender.dataQueue.Repr && sender !in sender.dataQueue.Repr
    }

    ghost function Model(): State
      reads this, sender, sender.dataQueue, sender.dataQueue.ids, sender.retrier
    {
      State(sender.status, receiverStatus, sender.dataQueue.Model(), sender.retrier.closed, |sender.retrier.window|,
            sender.canSend, closeReason, closed, notified)
    }

    constructor (zlib: Zlib)
      ensures Valid() && Model() == Start
    {
      sender := new Sender(zlib);
      receiverStatus, closeReason, closed, notified := T.Uninitialized, ByClose, false, [];
    }

    method IsSenderEmpty() returns (empty: bool)
      requires Valid()
      ensures empty <==>
                sender.retrier.window == map[] && sender.dataQueue.frames == [] && sender.dataQueue.pending == []
      ensures empty == SenderEmpty(Model())
    {
      empty := sender.retrier.window == map[] && sender.dataQueue.queue == [] && sender.dataQueue.pending == [];
      assert |sender.retrier.window| == 0 <==> sender.retrier.window == map[];
    }

    method PossiblyCloseNow()
      requires Valid()
      modifies this`closed, this`notified
      ensures Valid() && Model() == PossiblyClose(old(Model()))
      ensures closed <==> old(closed) || Finished(Model())
      ensures notified == if closed && !old(closed) then old(notified) + [closeReason] else old(notified)
    {
      if closed {
        return;
      }
      if sender.status.Closed? && receiverStatus.Closed? {
        var empty := IsSenderEmpty();
        if empty {
          closed := true;
          notified := notified + [closeReason];
        }
      }
    }

    method FailWith(event: Event)
      requires Valid()
      modifies this, sender`status, sender.dataQueue.Repr, sender.retrier
      ensures Valid() && Model() == Fail(old(Model()), event)
    {
      closeReason := event;
      if !receiverStatus.Closed? {
        receiverStatus := T.Closed;
      }
      sender.Fail();
      PossiblyCloseNow();
    }

    /** `Receiver::close`. The next packet identifier is taken not to be in use. */
    method CloseReceiver(now: int)
      requires Valid() && Wrap(sender.packetIDs.issued) !in sender.retrier.window
      modifies this`receiverStatus, sender.retrier, sender.packetIDs
      ensures Valid() && Model() == ReceiverClose(old(Model()))
    {
      hide SendQueue.Valid;
      if !receiverStatus.Closed? {
        if sender.canSend {
          var _ := sender.SendControl(CLOSE_READ, now);
        }
        receiverStatus := T.Closed;
      }
    }

    /** `close`. */
    method CloseByUserNow(c: T.Config, now: int)
      requires Valid() && Wrap(sender.packetIDs.issued) !in sender.retrier.window
      modifies this, sender`status, sender.dataQueue.Repr, sender.retrier, sender.packetIDs
      ensures Valid() && Model() == Next(c, old(Model()), CloseByUser)
    {
      hide SendQueue.Valid;
      sender.CloseGracefully();
      CloseReceiver(now);
      PossiblyCloseNow();
    }
  }
}

/** One direction of a connection as a transition system: a sender, a network that loses, duplicates and
reorders, and a receiver.

The network is the history of everything transmitted: any packet may be delivered any number of times, in
any order, or never, and so may any acknowledgement. Retransmissions therefore add nothing to it.
*/
module Transport {
  import opened Serial
  import opened Wire
  import opened SendQueues
  import R = ReceiveQueues

  datatype Status = Uninitialized | Open | Closed

  datatype Config = Config(zlib: Zlib)

  /** `packets[k]` are the frames of the k-th reliable packet transmitted (none for a probe or another
  control packet), which carries the packet identifier `Wrap(k)`. `log` is the history of all frames ever
  numbered, `accepted` that of all messages `send` accepted, `finished` tells that the close frame has
  been enqueued. */
  datatype Sys = Sys(
    status: Status, queue: Queue, window: map<Id, nat>, failed: bool, finished: bool,
    accepted: seq<Bytes>, log: seq<Frame>,
    packets: seq<seq<Frame>>, acks: set<nat>,
    rstatus: Status, rq: R.State)

  const Init := Sys(Uninitialized, Empty, map[], false, false, [], [], [], {}, Uninitialized, R.Start)

  datatype Step =
    | Send(data: Bytes, mode: Mode)
    | OpenSender
    | CloseSender
    | Fail
    | Transmit
    | Control
    | Deliver(k: nat)
    | AckArrives(k: nat)
    | OpenReceiver
    | CloseReceiver

  // ---- steps ---------------------------------------------------------------------------------

  /** `Sender::send` refuses after a close, and refuses what does not fit a packet unless streaming. The mode
  is read from the options anew for every message. */
  predicate Refuses(status: Status, data: Bytes, mode: Mode) {
    status.Closed? || (|data| > MAX_PACKET_DATA_SIZE && !mode.Stream? && !mode.StreamCompressed?)
  }

  /** Replaces the send queue and records the frames it has numbered. */
  function WithQueue(s: Sys, q: Queue): Sys {
    var (was, now) := (Log(s.queue), Log(q));
    s.(queue := q, log := if |was| <= |now| then s.log + now[|was|..] else s.log)
  }

  /** `sendReliably`: number the packet, keep it for retries unless its identifier is taken, send it. */
  function SendReliably(s: Sys, frames: seq<Frame>): Sys {
    var k := |s.packets|;
    s.(packets := s.packets + [frames],
       window := if s.failed || Wrap(k) in s.window then s.window else s.window[Wrap(k) := k])
  }

  function TransmitStep(c: Config, s: Sys): Sys {
    if s.status.Uninitialized? then s
    else
      var f := WithQueue(s, Flush(s.queue, c.zlib));
      match Dequeue(s.queue, c.zlib)
      case Nothing(_) => f
      case Took(q, frames) => SendReliably(f.(queue := q), frames)
  }

  /** `Receiver::onReceive`: ignored unless open; acknowledged, then processed. Processing the close
  frame closes the receiver. */
  function DeliverStep(s: Sys, k: nat): Sys {
    if !s.rstatus.Open? || k >= |s.packets| then s
    else
      var rq := R.ReceiveAll(s.rq, Walk(EncodeFrames(s.packets[k])));
      var closes := exists i :: |s.rq.delivered| <= i < |rq.delivered| && rq.delivered[i].typ == CLOSE_WRITE;
      s.(acks := s.acks + {k}, rq := rq, rstatus := if closes then Closed else Open)
  }

  function Next(c: Config, s: Sys, step: Step): Sys {
    match step
    case Send(data, mode) =>
      if Refuses(s.status, data, mode) then s
      else WithQueue(s, Enqueue(s.queue, DATA, data, mode)).(accepted := s.accepted + [data])
    case OpenSender => if s.status.Uninitialized? then s.(status := Open) else s
    case CloseSender =>
      if s.status.Closed? then s
      else WithQueue(s, Enqueue(s.queue, CLOSE_WRITE, [], PerPacket)).(status := Closed, finished := true)
    case Fail => s.(status := Closed, failed := true, window := map[], queue := Close(s.queue))
    case Transmit => TransmitStep(c, s)
    case Control => SendReliably(s, [])
    case Deliver(k) => DeliverStep(s, k)
    case AckArrives(k) => if k in s.acks then s.(window := s.window - {Wrap(k)}) else s
    case OpenReceiver => if s.rstatus.Uninitialized? then s.(rstatus := Open, rq := R.Drain(s.rq)) else s
    case CloseReceiver => s.(rstatus := Closed)
  }

  /** Index of the first frame of packet `k`. */
  /** A message is accepted unless the sender is closed or the message is too large for one packet and not streamed;
  one that is not accepted changes nothing. */
  lemma AcceptsExact(c: Config, s: Sys, data: Bytes, mode: Mode)
    ensures var t := Next(c, s, Send(data, mode));
            if s.status != Closed && (|data| <= 1431 || mode == Stream || mode == StreamCompressed)
            then t.accepted == s.accepted + [data]
            else t == s
  {
    hide Enqueue, WithQueue;
  }

  function First(packets: seq<seq<Frame>>, k: nat): nat
    requires k <= |packets|
  {
    |Concat(packets[..k])|
  }

  /** What the code leaves to its environment: identifiers wrap slowly compared with the life of a packet.
  A packet is delivered only while its frames are nearer than half the identifier space to the expected
  one; a packet identifier is not reused while its packet is unacknowledged or an old acknowledgement for
  it can still arrive; and one compressed batch stays below 2^31 bytes. */
  predicate Allowed(c: Config, s: Sys, step: Step) {
    match step
    case Send(data, mode) => mode.StreamCompressed? ==> |s.queue.pending| + |data| + 14 < 0x8000_0000
    case Transmit => Wrap(|s.packets|) !in s.window
    case Control => Wrap(|s.packets|) !in s.window
    case Deliver(k) => k < |s.packets| ==>
      R.InReach(First(s.packets, k), First(s.packets, k + 1), R.Expected(s.rq))
    case AckArrives(k) => k in s.acks && Wrap(k) in s.window ==> s.window[Wrap(k)] == k
    case _ => true
  }

  function Run(c: Config, s: Sys, steps: seq<Step>): Sys
    decreases |steps|
  {
    if steps == [] then s else Run(c, Next(c, s, steps[0]), steps[1..])
  }

  predicate AllowedRun(c: Config, s: Sys, steps: seq<Step>)
    decreases |steps|
  {
    steps == [] || (Allowed(c, s, steps[0]) && AllowedRun(c, Next(c, s, steps[0]), steps[1..]))
  }

  /** No message of the run is compressed. */
  ghost predicate Uncompressed(steps: seq<Step>) {
    forall i :: 0 <= i < |steps| && steps[i].Send? ==> !steps[i].mode.StreamCompressed?
  }

  // ---- the invariant of the data path ---------------------------------------------------------

  /** All frames of packet `k` have reached the peer's queue. */
  ghost predicate PacketAccepted(s: Sys, k: nat)
    requires k < |s.packets|
  {
    forall j :: First(s.packets, k) <= j < First(s.packets, k + 1) ==> R.Accepted(s.rq, j)
  }

  /** The queue's frames and those already transmitted make up the history, in order. */
  ghost predicate Logged(s: Sys) {
    && R.Numbered(s.log) && |s.log| == s.queue.next
    && Concat(s.packets) <= s.log
    && (!s.failed ==> s.log == Concat(s.packets) + Log(s.queue) && !s.queue.closed)
    && (s.failed ==> s.queue.closed && s.status.Closed? && s.window == map[] && s.queue.packets == [])
    && Small(s.queue)
    && (forall k :: 0 <= k < |s.packets| ==> ValidFrames(s.packets[k]))
  }

  /** An unacknowledged packet is kept for retry, an acknowledged one has been accepted. */
  ghost predicate Conserved(s: Sys) {
    && (forall id :: id in s.window ==> s.window[id] < |s.packets| && Wrap(s.window[id]) == id)
    && (forall k :: k in s.acks ==> k < |s.packets| && PacketAccepted(s, k))
    && (!s.failed ==> forall k :: 0 <= k < |s.packets| ==>
         (Wrap(k) in s.window && s.window[Wrap(k)] == k) || PacketAccepted(s, k))
  }

  ghost predicate Inv(s: Sys) {
    Logged(s) && R.Ordered(s.rq, s.log) && Conserved(s)
  }

  // ---- every step keeps it -------------------------------------------------------------------

  lemma OrderedExtends(rq: R.State, log: seq<Frame>, fs: seq<Frame>)
    requires R.Ordered(rq, log)
    ensures R.Ordered(rq, log + fs)
  {
  }

  /** The send queue grew by the frames `fs`, numbered on from where it was. */
  ghost predicate Appended(q: Queue, r: Queue, fs: seq<Frame>) {
    && Log(r) == Log(q) + fs
    && r.next == q.next + |fs|
    && (forall i :: 0 <= i < |fs| ==> fs[i].id == Wrap(q.next + i))
    && !q.closed && !r.closed && Small(r)
  }

  lemma NumberedAppend(log: seq<Frame>, fs: seq<Frame>)
    requires R.Numbered(log) && forall i :: 0 <= i < |fs| ==> fs[i].id == Wrap(|log| + i)
    ensures R.Numbered(log + fs)
  {
    forall k | |log| <= k < |log + fs|
      ensures (log + fs)[k].id == Wrap(k)
    {
      assert (log + fs)[k] == fs[k - |log|];
    }
  }

  lemma AppendKeeps(s: Sys, r: Queue, fs: seq<Frame>)
    requires Inv(s) && !s.failed && Appended(s.queue, r, fs)
    ensures Inv(WithQueue(s, r)) && WithQueue(s, r).log == s.log + fs
  {
    hide R.Ordered, Conserved, R.Numbered, Log;
    var t := WithQueue(s, r);
    assert Log(r)[|Log(s.queue)|..] == fs;
    assert Concat(s.packets) + (Log(s.queue) + fs) == Concat(s.packets) + Log(s.queue) + fs;
    NumberedAppend(s.log, fs);
    OrderedExtends(s.rq, s.log, fs);
    SameConserved(s, t);
  }

  lemma SameConserved(s: Sys, t: Sys)
    requires Conserved(s) && t.packets == s.packets && t.rq == s.rq
    requires t.window == s.window && t.acks == s.acks && t.failed == s.failed
    ensures Conserved(t)
  {
    assert forall k :: 0 <= k < |s.packets| && PacketAccepted(s, k) ==> PacketAccepted(t, k);
  }

  /** Whatever the mode, enqueueing appends numbered frames (none yet when compressing). */
  lemma EnqueueAppended(q: Queue, typ: Byte, data: Bytes, mode: Mode) returns (fs: seq<Frame>)
    requires !q.closed && Small(q)
    requires mode.Stream? || mode.StreamCompressed? || |data| <= MAX_PACKET_DATA_SIZE
    ensures Appended(q, Enqueue(q, typ, data, mode), fs)
    ensures mode.StreamCompressed? ==> fs == []
    ensures !mode.StreamCompressed? ==> Spells(fs, q.next, typ, data)
    ensures !mode.StreamCompressed? && !mode.Stream? ==> |fs| == 1
  {
    if mode.StreamCompressed? {
      fs := [];
    } else {
      fs := EnqueueGrew(q, typ, data, mode);
    }
  }

  lemma FlushAppended(q: Queue, z: Zlib) returns (fs: seq<Frame>)
    requires !q.closed && Small(q)
    ensures Appended(q, Flush(q, z), fs)
    ensures q.packets == [] && q.pending != [] ==>
              Flush(q, z).packets != [] && NoneEmpty(fs) && fs != [] && Flush(q, z).pending == [] &&
              Spells(fs, q.next, DATA_COMPRESSED, Batch(q.pending, z))
    ensures !(q.packets == [] && q.pending != []) ==> Flush(q, z) == q && fs == []
  {
    if q.packets == [] && q.pending != [] {
      fs := CoalesceStreamGrew(q, DATA_COMPRESSED, Batch(q.pending, z));
      var r := CoalesceStream(q, DATA_COMPRESSED, Batch(q.pending, z));
      assert Flush(q, z) == r.(pending := []);
    } else {
      fs := [];
    }
  }

  lemma FirstStable(packets: seq<seq<Frame>>, frames: seq<Frame>, k: nat)
    requires k <= |packets|
    ensures First(packets + [frames], k) == First(packets, k)
  {
    assert (packets + [frames])[..k] == packets[..k];
  }

  lemma SendReliablyConserves(s: Sys, frames: seq<Frame>)
    requires Conserved(s) && Wrap(|s.packets|) !in s.window
    ensures Conserved(SendReliably(s, frames))
  {
    var t := SendReliably(s, frames);
    forall k | 0 <= k < |s.packets|
      ensures PacketAccepted(t, k) <==> PacketAccepted(s, k)
    {
      FirstStable(s.packets, frames, k);
      FirstStable(s.packets, frames, k + 1);
    }
  }

  /** Moving the front packet of the queue onto the network, or sending a control packet. */
  lemma SendReliablyKeeps(s: Sys, q: Queue, frames: seq<Frame>)
    requires Inv(s) && Wrap(|s.packets|) !in s.window && ValidFrames(frames)
    requires Small(q) && q.next == s.queue.next && q.closed == s.queue.closed
    requires if s.failed then frames == [] && q == s.queue else Log(s.queue) == frames + Log(q)
    ensures Inv(SendReliably(s.(queue := q), frames))
  {
    hide R.Ordered, Conserved, Log;
    SameConserved(s, s.(queue := q));
    SendReliablyConserves(s.(queue := q), frames);
    ConcatSnoc(s.packets, frames);
    assert Concat(s.packets) + (frames + Log(q)) == Concat(s.packets) + frames + Log(q);
  }

  lemma MoveFront(s: Sys, q: Queue, fs: seq<Frame>)
    requires Inv(s) && !s.failed && Wrap(|s.packets|) !in s.window
    requires Appended(s.queue, q, fs) && q.packets != []
    ensures Inv(SendReliably(WithQueue(s, q).(queue := q.(packets := q.packets[1..])), q.packets[0]))
  {
    AppendKeeps(s, q, fs);
    SendReliablyKeeps(WithQueue(s, q), q.(packets := q.packets[1..]), q.packets[0]);
  }

  lemma TransmitKeeps(c: Config, s: Sys)
    requires Inv(s) && Wrap(|s.packets|) !in s.window
    ensures Inv(TransmitStep(c, s))
  {
    hide Flush, SendReliably, R.Ordered, Conserved, Log;
    if s.queue.closed {
      FlushClosed(s, c.zlib);
    } else if !s.status.Uninitialized? {
      var fs := FlushAppended(s.queue, c.zlib);
      var q := Flush(s.queue, c.zlib);
      if q.packets == [] {
        AppendKeeps(s, q, fs);
      } else {
        MoveFront(s, q, fs);
      }
    }
  }

  lemma FlushClosed(s: Sys, z: Zlib)
    requires s.queue.closed
    ensures WithQueue(s, Flush(s.queue, z)) == s
  {
    assert Log(s.queue)[|Log(s.queue)|..] == [];
  }

  lemma {:induction false} PacketSlice(packets: seq<seq<Frame>>, k: nat)
    requires k < |packets|
    ensures First(packets, k + 1) == First(packets, k) + |packets[k]| <= |Concat(packets)|
    ensures Concat(packets)[First(packets, k)..First(packets, k + 1)] == packets[k]
  {
    assert packets[..k + 1] == packets[..k] + [packets[k]];
    ConcatSnoc(packets[..k], packets[k]);
    assert packets == packets[..k + 1] + packets[k + 1..];
    ConcatAppend(packets[..k + 1], packets[k + 1..]);
  }

  lemma DeliverKeeps(s: Sys, k: nat)
    requires Inv(s) && k < |s.packets|
    requires R.InReach(First(s.packets, k), First(s.packets, k + 1), R.Expected(s.rq))
    ensures Inv(DeliverStep(s, k))
    ensures s.rq.delivered <= DeliverStep(s, k).rq.delivered
  {
    if s.rstatus.Open? {
      var t := DeliverStep(s, k);
      WalkRoundTrip(s.packets[k]);
      PacketSlice(s.packets, k);
      var lo, hi := First(s.packets, k), First(s.packets, k + 1);
      assert s.log[lo..hi] == s.packets[k];
      R.ReceiveAllKeeps(s.rq, s.log, lo, hi);
      DeliverConserves(s, t, k);
    }
  }

  lemma DeliverConserves(s: Sys, t: Sys, k: nat)
    requires Conserved(s) && k < |s.packets| && R.KeepsAccepted(s.rq, t.rq)
    requires t.packets == s.packets && t.window == s.window && t.failed == s.failed && t.acks == s.acks + {k}
    requires PacketAccepted(t, k)
    ensures Conserved(t)
  {
    forall j | 0 <= j < |s.packets| && PacketAccepted(s, j)
      ensures PacketAccepted(t, j)
    {
    }
  }

  /** History only grows: nothing numbered, transmitted or delivered is ever undone. */
  ghost predicate Extends(s: Sys, t: Sys) {
    s.rq.delivered <= t.rq.delivered && s.log <= t.log && s.packets <= t.packets
  }

  lemma SendKeeps(c: Config, s: Sys, data: Bytes, mode: Mode)
    requires Inv(s)
    ensures Inv(Next(c, s, Send(data, mode))) && Extends(s, Next(c, s, Send(data, mode)))
  {
    if !Refuses(s.status, data, mode) {
      var fs := EnqueueAppended(s.queue, DATA, data, mode);
      AppendKeeps(s, Enqueue(s.queue, DATA, data, mode), fs);
      SameConserved(s, Next(c, s, Send(data, mode)));
    }
  }

  lemma CloseKeeps(c: Config, s: Sys)
    requires Inv(s)
    ensures Inv(Next(c, s, CloseSender)) && Extends(s, Next(c, s, CloseSender))
  {
    if !s.status.Closed? {
      var fs := EnqueueAppended(s.queue, CLOSE_WRITE, [], PerPacket);
      AppendKeeps(s, Enqueue(s.queue, CLOSE_WRITE, [], PerPacket), fs);
      SameConserved(s, Next(c, s, CloseSender));
    }
  }

  lemma FailKeeps(c: Config, s: Sys)
    requires Inv(s)
    ensures Inv(Next(c, s, Fail)) && Extends(s, Next(c, s, Fail))
  {
    var t := Next(c, s, Fail);
    assert forall k :: 0 <= k < |s.packets| && PacketAccepted(s, k) ==> PacketAccepted(t, k);
  }

  lemma AckKeeps(c: Config, s: Sys, k: nat)
    requires Inv(s) && Allowed(c, s, AckArrives(k))
    ensures Inv(Next(c, s, AckArrives(k))) && Extends(s, Next(c, s, AckArrives(k)))
  {
    var t := Next(c, s, AckArrives(k));
    assert forall j :: 0 <= j < |s.packets| && PacketAccepted(s, j) ==> PacketAccepted(t, j);
    if k in s.acks {
      assert PacketAccepted(s, k);
    }
  }

  lemma OpenReceiverKeeps(c: Config, s: Sys)
    requires Inv(s)
    ensures Inv(Next(c, s, OpenReceiver)) && Extends(s, Next(c, s, OpenReceiver))
  {
    assert R.Drain(s.rq) == s.rq;
    assert Next(c, s, OpenReceiver).rq == s.rq;
    hide R.Drain;
    StatusKeeps(s, Next(c, s, OpenReceiver));
  }

  lemma ControlKeeps(c: Config, s: Sys)
    requires Inv(s) && Wrap(|s.packets|) !in s.window
    ensures Inv(Next(c, s, Control)) && Extends(s, Next(c, s, Control))
  {
    assert Log(s.queue) == [] + Log(s.queue);
    SendReliablyKeeps(s, s.queue, []);
  }

  /** Only the two status fields change. */
  lemma StatusKeeps(s: Sys, t: Sys)
    requires Inv(s) && t == s.(status := t.status, rstatus := t.rstatus) && (s.status.Closed? ==> t.status.Closed?)
    ensures Inv(t) && Extends(s, t)
  {
    SameConserved(s, t);
  }

  lemma DeliverExtends(c: Config, s: Sys, k: nat)
    requires Inv(s) && Allowed(c, s, Deliver(k))
    ensures Inv(Next(c, s, Deliver(k))) && Extends(s, Next(c, s, Deliver(k)))
  {
    if k < |s.packets| {
      DeliverKeeps(s, k);
    }
  }

  lemma NextKeeps(c: Config, s: Sys, step: Step)
    requires Inv(s) && Allowed(c, s, step)
    ensures Inv(Next(c, s, step)) && Extends(s, Next(c, s, step))
  {
    hide Inv, Extends, TransmitStep, DeliverStep, SendReliably, WithQueue, Enqueue;
    match step {
      case Send(data, mode) => SendKeeps(c, s, data, mode);
      case OpenSender => StatusKeeps(s, Next(c, s, step));
      case CloseSender => CloseKeeps(c, s);
      case Fail => FailKeeps(c, s);
      case Transmit => TransmitKeeps(c, s); TransmitExtends(c, s);
      case Control => ControlKeeps(c, s);
      case Deliver(k) => DeliverExtends(c, s, k);
      case AckArrives(k) => AckKeeps(c, s, k);
      case OpenReceiver => OpenReceiverKeeps(c, s);
      case CloseReceiver => StatusKeeps(s, Next(c, s, step));
    }
  }

  lemma TransmitExtends(c: Config, s: Sys)
    ensures Extends(s, TransmitStep(c, s))
  {
    hide Flush, Log;
  }

  lemma InitInv()
    ensures Inv(Init)
  {
    assert Concat(Init.packets) == [] && Log(Init.queue) == [];
  }

  lemma {:induction false} RunKeeps(c: Config, s: Sys, steps: seq<Step>)
    requires Inv(s) && AllowedRun(c, s, steps)
    ensures Inv(Run(c, s, steps)) && Extends(s, Run(c, s, steps))
    decreases |steps|
  {
    hide Inv, Extends, Next, Allowed;
    ExtendsRefl(s);
    if steps != [] {
      NextKeeps(c, s, steps[0]);
      RunKeeps(c, Next(c, s, steps[0]), steps[1..]);
      ExtendsTrans(s, Next(c, s, steps[0]), Run(c, s, steps));
    }
  }

  lemma ExtendsRefl(s: Sys)
    ensures Extends(s, s)
  {
  }

  lemma ExtendsTrans(s: Sys, t: Sys, u: Sys)
    requires Extends(s, t) && Extends(t, u)
    ensures Extends(s, u)
  {
  }

  lemma {:induction false} RunAppend(c: Config, s: Sys, a: seq<Step>, b: seq<Step>)
    ensures Run(c, s, a + b) == Run(c, Run(c, s, a), b)
    ensures AllowedRun(c, s, a + b) <==> AllowedRun(c, s, a) && AllowedRun(c, Run(c, s, a), b)
    decreases |a|
  {
    hide Next, Allowed;
    if a == [] {
      assert a + b == b;
    } else {
      assert (a + b)[0] == a[0] && (a + b)[1..] == a[1..] + b;
      RunAppend(c, Next(c, s, a[0]), a[1..], b);
    }
  }

  lemma RunOne(c: Config, s: Sys, step: Step)
    ensures Run(c, s, [step]) == Next(c, s, step) && (AllowedRun(c, s, [step]) <==> Allowed(c, s, step))
  {
    hide Next, Allowed;
    assert [step][1..] == [];
    assert Run(c, Next(c, s, step), []) == Next(c, s, step) && AllowedRun(c, Next(c, s, step), []);
  }

  // ---- theorems ------------------------------------------------------------------------------

  /** In every run, over a network that loses, duplicates and reorders, and across any number of wraps of
  the identifiers, the frames handed to the processor are a prefix of the frames the peer numbered; a
  longer run only appends to what was handed over. */
  lemma InOrderExactlyOnce(c: Config, before: seq<Step>, after: seq<Step>)
    requires AllowedRun(c, Init, before) && AllowedRun(c, Run(c, Init, before), after)
    ensures var s := Run(c, Init, before);
            var t := Run(c, s, after);
            && s.rq.delivered <= t.rq.delivered <= t.log
            && s.log <= t.log
            && (forall i :: 0 <= i < |t.rq.delivered| ==> t.rq.delivered[i] == t.log[i] && t.log[i].id == Wrap(i))
  {
    InitInv();
    RunKeeps(c, Init, before);
    RunKeeps(c, Run(c, Init, before), after);
  }

  /** The packet that carries frame `j`. */
  lemma {:induction false} Locate(packets: seq<seq<Frame>>, j: nat) returns (k: nat)
    requires j < |Concat(packets)|
    ensures k < |packets| && First(packets, k) <= j < First(packets, k + 1)
    decreases |packets|
  {
    var n := |packets| - 1;
    assert packets == packets[..n] + [packets[n]];
    ConcatSnoc(packets[..n], packets[n]);
    if j < |Concat(packets[..n])| {
      k := Locate(packets[..n], j);
      assert packets[..n][..k] == packets[..k] && packets[..n][..k + 1] == packets[..k + 1];
    } else {
      k := n;
      assert packets[..n + 1] == packets;
    }
  }

  /** Conservation: as long as the sender has not failed, every packet it ever transmitted is still kept for
  retry or has had all its frames accepted by the peer, and the frames it numbered are exactly those
  transmitted followed by those queued. */
  lemma Conservation(c: Config, steps: seq<Step>, k: nat)
    requires AllowedRun(c, Init, steps) && !Run(c, Init, steps).failed && k < |Run(c, Init, steps).packets|
    ensures var s := Run(c, Init, steps);
            && ((Wrap(k) in s.window && s.window[Wrap(k)] == k) || PacketAccepted(s, k))
            && s.log == Concat(s.packets) + Log(s.queue)
  {
    InitInv();
    RunKeeps(c, Init, steps);
  }

  /** What a failed sender has come to: nothing is kept, queued or accepted any more, and no frame goes out. */
  ghost predicate Ended(s: Sys, t: Sys) {
    && t.failed && t.status == Closed && t.window == map[] && t.queue.closed && t.queue.packets == []
    && t.log == s.log && t.accepted == s.accepted && Concat(t.packets) == Concat(s.packets)
  }

  lemma EndedNext(c: Config, s: Sys, t: Sys, step: Step)
    requires Ended(s, t)
    ensures Ended(s, Next(c, t, step))
  {
    hide Walk, R.ReceiveAll, R.Drain, EncodeFrames;
    if step.Transmit? {
      assert Flush(t.queue, c.zlib) == t.queue && Log(t.queue)[|Log(t.queue)|..] == [];
      assert t.log + [] == t.log;
    } else if step.Control? {
      ConcatSnoc(t.packets, []);
      assert Concat(t.packets) + [] == Concat(t.packets);
    }
  }

  lemma {:induction false} EndedRun(c: Config, s: Sys, t: Sys, steps: seq<Step>)
    requires Ended(s, t)
    ensures Ended(s, Run(c, t, steps))
    decreases |steps|
  {
    hide Ended, Next;
    if steps != [] {
      EndedNext(c, s, t, steps[0]);
      EndedRun(c, s, Next(c, t, steps[0]), steps[1..]);
    }
  }

  lemma FailEnds(c: Config, s: Sys)
    requires Inv(s)
    ensures Ended(s, Next(c, s, Fail))
  {
    hide R.Ordered, Conserved, R.Numbered, Log;
  }

  /** A failure is final: from then on, in every continuation, the sender is closed, keeps and queues nothing, accepts
  no message, and no further frame is numbered or transmitted. */
  lemma FailIsFinal(c: Config, before: seq<Step>, after: seq<Step>)
    requires AllowedRun(c, Init, before)
    ensures Ended(Run(c, Init, before), Run(c, Next(c, Run(c, Init, before), Fail), after))
  {
    hide Inv, Ended, Next, Run, AllowedRun;
    InitInv();
    RunKeeps(c, Init, before);
    var s := Run(c, Init, before);
    FailEnds(c, s);
    EndedRun(c, s, Next(c, s, Fail), after);
  }

  /** A sender that never failed and has nothing left, neither unacknowledged nor queued, has had every
  frame delivered: the peer's reorder queue is empty too. */
  lemma EmptySenderDelivered(c: Config, steps: seq<Step>)
    requires AllowedRun(c, Init, steps)
    ensures var s := Run(c, Init, steps);
            !s.failed && s.window == map[] && IsEmpty(s.queue) ==>
              s.rq.delivered == s.log && s.rq.held == map[]
  {
    InitInv();
    RunKeeps(c, Init, steps);
    var s := Run(c, Init, steps);
    if !s.failed && s.window == map[] && IsEmpty(s.queue) {
      assert Log(s.queue) == [];
      forall j | 0 <= j < |s.log|
        ensures R.Accepted(s.rq, j)
      {
        var k := Locate(s.packets, j);
        assert PacketAccepted(s, k);
      }
      R.AllAccepted(s.rq, s.log);
    }
  }

  // ---- short connections need no assumption ----------------------------------------------------

  lemma {:induction false} RunGrows(c: Config, s: Sys, steps: seq<Step>)
    ensures |s.log| <= |Run(c, s, steps).log| && |s.packets| <= |Run(c, s, steps).packets|
    decreases |steps|
  {
    if steps != [] {
      NextGrows(c, s, steps[0]);
      RunGrows(c, Next(c, s, steps[0]), steps[1..]);
    }
  }

  lemma NextGrows(c: Config, s: Sys, step: Step)
    ensures |s.log| <= |Next(c, s, step).log| && |s.packets| <= |Next(c, s, step).packets|
  {
    hide Flush, Enqueue, Log;
  }

  lemma ReachIfShort(s: Sys, k: nat)
    requires Inv(s) && |s.log| < HALF && k < |s.packets|
    ensures R.InReach(First(s.packets, k), First(s.packets, k + 1), R.Expected(s.rq))
  {
    hide Conserved, R.Numbered, R.Below, R.Accepted;
    PacketSlice(s.packets, k);
    assert |Concat(s.packets)| <= |s.log|;
  }

  lemma IdsIfShort(s: Sys)
    requires Conserved(s) && |s.packets| <= 65536
    ensures forall id :: id in s.window ==> s.window[id] == id
    ensures forall k :: k in s.acks ==> Wrap(k) == k
    ensures |s.packets| < 65536 ==> Wrap(|s.packets|) !in s.window
  {
    hide PacketAccepted;
  }

  lemma AllowedIfShort(c: Config, s: Sys, step: Step)
    requires Inv(s) && (step.Send? ==> !step.mode.StreamCompressed?)
    requires |s.log| < HALF && |s.packets| <= 65536 && (step.Transmit? || step.Control? ==> |s.packets| < 65536)
    ensures Allowed(c, s, step)
  {
    IdsIfShort(s);
    hide Logged, Conserved, R.Ordered, R.InReach;
    if step.Deliver? && step.k < |s.packets| {
      ReachIfShort(s, step.k);
    }
  }

  /** Until the identifiers come round, no assumption on the network is needed: with fewer than 2^15
  frames and fewer than 2^16 packets every run whatsoever delivers in order, exactly once. */
  lemma {:induction false} ShortRunsAreAllowed(c: Config, s: Sys, steps: seq<Step>)
    requires Inv(s) && Uncompressed(steps)
    requires |Run(c, s, steps).log| < HALF && |Run(c, s, steps).packets| < 65536
    ensures AllowedRun(c, s, steps)
    decreases |steps|
  {
    hide Inv, Next, Allowed;
    if steps != [] {
      RunGrows(c, s, steps);
      AllowedIfShort(c, s, steps[0]);
      NextKeeps(c, s, steps[0]);
      ShortRunsAreAllowed(c, Next(c, s, steps[0]), steps[1..]);
    }
  }

  lemma ShortRunsDeliverInOrder(c: Config, steps: seq<Step>)
    requires Uncompressed(steps)
    requires |Run(c, Init, steps).log| < HALF && |Run(c, Init, steps).packets| < 65536
    ensures Run(c, Init, steps).rq.delivered <= Run(c, Init, steps).log
  {
    InitInv();
    ShortRunsAreAllowed(c, Init, steps);
    RunKeeps(c, Init, steps);
  }
}

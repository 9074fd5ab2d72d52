/** Reordering of frames by wrapping identifiers (mrudp/receiver/ReceiveQueue.cpp). */
module ReceiveQueues {
  import opened Serial
  import opened Wire

  /** `delivered` records every frame handed to the processor, in order. */
  datatype State = State(expected: Id, held: map<Id, Frame>, delivered: seq<Frame>)

  const Start := State(0, map[], [])

  function Deliver(s: State, f: Frame): State {
    State(Wrap(s.expected + 1), s.held, s.delivered + [f])
  }

  /** `processQueue`: deliver held frames as long as the expected one is there. */
  function Drain(s: State): State
    decreases |s.held|
  {
    if s.expected in s.held then
      Drain(Deliver(s, s.held[s.expected]).(held := s.held - {s.expected}))
    else s
  }

  function ReceiveFrame(s: State, f: Frame): State {
    if f.id == s.expected then Drain(Deliver(s, f))
    else if GreaterThan(f.id, s.expected) && f.id !in s.held then s.(held := s.held[f.id := f])
    else s
  }

  function ReceiveAll(s: State, fs: seq<Frame>): State
    decreases |fs|
  {
    if fs == [] then s else ReceiveAll(ReceiveFrame(s, fs[0]), fs[1..])
  }

  // ---- the invariant -------------------------------------------------------------------------

  /** The index of the expected frame. */
  function Expected(s: State): nat {
    |s.delivered|
  }

  /** Frame `k` of the peer carries identifier `Wrap(k)`. */
  ghost predicate Numbered(log: seq<Frame>) {
    forall k :: 0 <= k < |log| ==> log[k].id == Wrap(k)
  }

  /** Every held frame is the peer's frame with the nearest matching index at or after the expected one. */
  ghost predicate Faithful(s: State, log: seq<Frame>) {
    && s.delivered <= log
    && s.expected == Wrap(Expected(s))
    && forall id :: id in s.held ==> IndexAt(id, Expected(s)) < |log| && s.held[id] == log[IndexAt(id, Expected(s))]
  }

  /** No held frame has an index of `limit` or more. */
  ghost predicate Below(s: State, limit: int) {
    forall id :: id in s.held ==> IndexAt(id, Expected(s)) < limit
  }

  /** The resting state of the queue: what was delivered is a prefix of the peer's frames, and the
  expected frame is not among the held ones. */
  ghost predicate Ordered(s: State, log: seq<Frame>) {
    Faithful(s, log) && Below(s, Expected(s) + HALF) && s.expected !in s.held
  }

  /** Frame `k` has been delivered or is held. */
  ghost predicate Accepted(s: State, k: nat) {
    k < Expected(s) || (Wrap(k) in s.held && IndexAt(Wrap(k), Expected(s)) == k)
  }

  ghost predicate KeepsAccepted(s: State, t: State) {
    forall k: nat :: Accepted(s, k) ==> Accepted(t, k)
  }

  /** Delivering the expected frame moves the window by one and moves no held frame. */
  lemma DeliverKeeps(s: State, log: seq<Frame>, limit: int)
    requires Faithful(s, log) && Below(s, limit) && Expected(s) < |log|
    ensures var t := Deliver(s, log[Expected(s)]).(held := s.held - {s.expected});
            Faithful(t, log) && Below(t, limit) && KeepsAccepted(s, t) && Expected(t) == Expected(s) + 1
  {
    var e := Expected(s);
    var t := Deliver(s, log[e]).(held := s.held - {s.expected});
    WrapSucc(e);
    assert t.delivered == log[..e + 1];
    forall id | id in t.held
      ensures IndexAt(id, e + 1) == IndexAt(id, e)
    {
      IndexAtStable(id, e);
    }
    forall k: nat | Accepted(s, k)
      ensures Accepted(t, k)
    {
      if k > e {
        IndexAtStable(Wrap(k), e);
      }
    }
  }

  lemma {:induction false} DrainKeeps(s: State, log: seq<Frame>, limit: int)
    requires Faithful(s, log) && Below(s, limit) && Expected(s) <= limit
    ensures var t := Drain(s);
            Faithful(t, log) && Below(t, limit) && t.expected !in t.held &&
            KeepsAccepted(s, t) && Expected(s) <= Expected(t) <= limit
    decreases |s.held|
  {
    if s.expected in s.held {
      assert IndexAt(s.expected, Expected(s)) == Expected(s);
      DeliverKeeps(s, log, limit);
      DrainKeeps(Deliver(s, s.held[s.expected]).(held := s.held - {s.expected}), log, limit);
    }
  }

  lemma HoldKeeps(s: State, log: seq<Frame>, i: nat)
    requires Numbered(log) && Ordered(s, log) && i < |log| && 0 < i - Expected(s) < HALF
    ensures var t := if Wrap(i) in s.held then s else s.(held := s.held[Wrap(i) := log[i]]);
            Ordered(t, log) && KeepsAccepted(s, t) && Accepted(t, i)
  {
    assert IndexAt(Wrap(i), Expected(s)) == i;
  }

  lemma ExpectedKeeps(s: State, log: seq<Frame>)
    requires Ordered(s, log) && Expected(s) < |log|
    ensures var t := Drain(Deliver(s, log[Expected(s)]));
            Ordered(t, log) && KeepsAccepted(s, t) && Expected(s) < Expected(t) <= Expected(s) + HALF
  {
    var e := Expected(s);
    assert s.held - {s.expected} == s.held;
    var mid := Deliver(s, log[e]);
    DeliverKeeps(s, log, e + HALF);
    DrainKeeps(mid, log, e + HALF);
  }

  /** Receiving frame `i` of the peer, from nearer than half the identifier space, keeps the order and
  accepts the frame. The window moves only if `i` was the expected one, and then by at most half. */
  lemma ReceiveFrameKeeps(s: State, log: seq<Frame>, i: nat)
    requires Numbered(log) && Ordered(s, log) && i < |log|
    requires -HALF < i - Expected(s) < HALF
    ensures var t := ReceiveFrame(s, log[i]);
            Ordered(t, log) && KeepsAccepted(s, t) && Accepted(t, i) &&
            (Expected(t) == Expected(s) || (i == Expected(s) < Expected(t) <= i + HALF))
  {
    hide Ordered, Drain, KeepsAccepted, GreaterThan;
    var e := Expected(s);
    assert s.expected == Wrap(e) by { OrderedExpects(s, log); }
    GreaterThanExact(i, e);
    if i == e {
      ExpectedKeeps(s, log);
    } else {
      assert Wrap(i) != Wrap(e);
      if i > e {
        HoldKeeps(s, log, i);
      } else {
        KeepsAcceptedRefl(s);
      }
    }
  }

  lemma OrderedExpects(s: State, log: seq<Frame>)
    requires Ordered(s, log)
    ensures s.expected == Wrap(Expected(s))
  {
  }

  lemma KeepsAcceptedRefl(s: State)
    ensures KeepsAccepted(s, s)
  {
  }

  /** All indices from `lo` up to `hi` are nearer than half the identifier space to `e`. */
  predicate InReach(lo: int, hi: int, e: int) {
    lo < hi ==> e - HALF < lo && hi <= e + HALF
  }

  /** A packet of consecutive frames, all within reach when it arrives: no frame of it falls out of
  reach while the earlier ones are processed. */
  lemma {:induction false} ReceiveAllKeeps(s: State, log: seq<Frame>, lo: nat, hi: nat)
    requires Numbered(log) && Ordered(s, log) && lo <= hi <= |log|
    requires InReach(lo, hi, Expected(s))
    ensures var t := ReceiveAll(s, log[lo..hi]);
            Ordered(t, log) && KeepsAccepted(s, t) && Expected(s) <= Expected(t) &&
            (forall k :: lo <= k < hi ==> Accepted(t, k))
    decreases hi - lo
  {
    hide Ordered, Accepted, ReceiveFrame, Numbered;
    var fs := log[lo..hi];
    if lo < hi {
      ReceiveFrameKeeps(s, log, lo);
      assert fs[0] == log[lo] && fs[1..] == log[lo + 1..hi];
      ReceiveAllKeeps(ReceiveFrame(s, log[lo]), log, lo + 1, hi);
    }
  }

  /** Nothing is accepted but what was before, and frames from `lo` up to `hi`. */
  ghost predicate OnlyAdds(s: State, t: State, lo: int, hi: int) {
    forall k: nat :: Accepted(t, k) ==> Accepted(s, k) || lo <= k < hi
  }

  lemma DeliverOnly(s: State, f: Frame)
    requires s.expected == Wrap(Expected(s))
    ensures var t := Deliver(s, f).(held := s.held - {s.expected});
            t.expected == Wrap(Expected(t)) && OnlyAdds(s, t, Expected(s), Expected(s) + 1)
  {
    var e := Expected(s);
    var t := Deliver(s, f).(held := s.held - {s.expected});
    WrapSucc(e);
    forall k: nat | Accepted(t, k)
      ensures Accepted(s, k) || k == e
    {
      if k > e {
        IndexAtStable(Wrap(k), e);
      }
    }
  }

  lemma {:induction false} DrainOnly(s: State)
    requires s.expected == Wrap(Expected(s))
    ensures OnlyAdds(s, Drain(s), 0, 0)
    decreases |s.held|
  {
    if s.expected in s.held {
      var t := Deliver(s, s.held[s.expected]).(held := s.held - {s.expected});
      DeliverOnly(s, s.held[s.expected]);
      DrainOnly(t);
      assert Accepted(s, Expected(s));
    }
  }

  /** Receiving a frame within reach accepts that frame and no other. */
  lemma ReceiveFrameOnly(s: State, log: seq<Frame>, i: nat)
    requires Numbered(log) && Ordered(s, log) && i < |log| && -HALF < i - Expected(s) < HALF
    ensures OnlyAdds(s, ReceiveFrame(s, log[i]), i, i + 1)
  {
    hide Drain;
    var e := Expected(s);
    if i == e {
      assert s.held - {s.expected} == s.held;
      DeliverOnly(s, log[e]);
      DrainOnly(Deliver(s, log[e]));
    } else if i > e {
      assert IndexAt(Wrap(i), e) == i;
    } else {
      GreaterThanExact(i, e);
    }
  }

  lemma {:induction false} ReceiveAllOnly(s: State, log: seq<Frame>, lo: nat, hi: nat)
    requires Numbered(log) && Ordered(s, log) && lo <= hi <= |log| && InReach(lo, hi, Expected(s))
    ensures OnlyAdds(s, ReceiveAll(s, log[lo..hi]), lo, hi)
    decreases hi - lo
  {
    hide Ordered, ReceiveFrame, Accepted;
    if lo < hi {
      ReceiveFrameKeeps(s, log, lo);
      ReceiveFrameOnly(s, log, lo);
      assert log[lo..hi][0] == log[lo] && log[lo..hi][1..] == log[lo + 1..hi];
      ReceiveAllOnly(ReceiveFrame(s, log[lo]), log, lo + 1, hi);
    }
  }

  /** With every frame of the peer accepted, all are delivered and nothing is held back. */
  lemma AllAccepted(s: State, log: seq<Frame>)
    requires Ordered(s, log) && forall k :: 0 <= k < |log| ==> Accepted(s, k)
    ensures s.delivered == log && s.held == map[]
  {
    var e := Expected(s);
    assert !Accepted(s, e);
    assert e == |log|;
    assert forall id :: id in s.held ==> IndexAt(id, e) >= e;
    assert s.held.Keys == {};
  }

  lemma {:induction false} DrainGrows(s: State)
    ensures s.delivered <= Drain(s).delivered && Drain(s).held.Keys <= s.held.Keys
    decreases |s.held|
  {
    if s.expected in s.held {
      DrainGrows(Deliver(s, s.held[s.expected]).(held := s.held - {s.expected}));
    }
  }

  /** At rest: true to the peer's frames, from however far ahead they are held, and the expected one absent. */
  ghost predicate Resting(s: State, log: seq<Frame>) {
    Faithful(s, log) && s.expected !in s.held
  }

  /** The frame is put where it belongs. A frame ahead of the expected one must be comparable with it or held
  already. A late copy must not look new: it is taken for frame `j`, the next one with its identifier, unless that
  is too far ahead, is held already, or is the very same frame. */
  ghost predicate InPlace(s: State, log: seq<Frame>, i: nat)
    requires i < |log|
  {
    var e := Expected(s);
    var j := IndexAt(Wrap(i), e);
    if i >= e then Comparable(i, e) || (i == j && Wrap(i) in s.held)
    else !Comparable(j, e) || Wrap(i) in s.held || (j < |log| && log[i] == log[j])
  }

  /** Exactly when a frame is handled correctly, from however far away it comes: what is delivered and held stays
  true to the peer's frames, and the frame itself is delivered or held. Then the queue is at rest again, so this
  holds frame by frame. */
  lemma ReceiveExact(s: State, log: seq<Frame>, i: nat)
    requires Numbered(log) && Resting(s, log) && i < |log|
    ensures var t := ReceiveFrame(s, log[i]);
            (Resting(t, log) && Accepted(t, i)) <==> InPlace(s, log, i)
    ensures InPlace(s, log, i) ==> KeepsAccepted(s, ReceiveFrame(s, log[i]))
  {
    hide Drain, KeepsAccepted;
    var e := Expected(s);
    if i == e {
      ExpectedRests(s, log);
    } else if IndexAt(Wrap(i), e) == e {
      TakenForExpected(s, log, i);
    } else {
      OtherExact(s, log, i);
    }
  }

  lemma ExpectedRests(s: State, log: seq<Frame>)
    requires Resting(s, log) && Expected(s) < |log|
    ensures var t := Drain(Deliver(s, log[Expected(s)]));
            Resting(t, log) && KeepsAccepted(s, t) && Expected(s) < Expected(t)
  {
    var e := Expected(s);
    assert s.held - {s.expected} == s.held;
    DeliverKeeps(s, log, e + 65536);
    DrainKeeps(Deliver(s, log[e]), log, e + 65536);
  }

  /** A frame any number of whole wraps away is taken for the expected one. */
  lemma TakenForExpected(s: State, log: seq<Frame>, i: nat)
    requires Numbered(log) && Resting(s, log) && i < |log| && Wrap(i) == s.expected && i != Expected(s)
    ensures var t := ReceiveFrame(s, log[i]);
            (Resting(t, log) && Accepted(t, i)) <==> InPlace(s, log, i)
    ensures InPlace(s, log, i) ==> KeepsAccepted(s, ReceiveFrame(s, log[i]))
  {
    hide KeepsAccepted, Drain;
    var e := Expected(s);
    var t := Drain(Deliver(s, log[i]));
    DrainGrows(Deliver(s, log[i]));
    assert t.delivered[e] == log[i];
    assert IndexAt(Wrap(i), e) == e;
    if e < |log| && log[i] == log[e] {
      ExpectedRests(s, log);
      DrainShort(s, log);
    }
  }

  /** Draining never goes a whole wrap. */
  lemma DrainShort(s: State, log: seq<Frame>)
    requires Resting(s, log) && Expected(s) < |log|
    ensures Expected(Drain(Deliver(s, log[Expected(s)]))) <= Expected(s) + 65536
  {
    var e := Expected(s);
    assert s.held - {s.expected} == s.held;
    DeliverKeeps(s, log, e + 65536);
    DrainKeeps(Deliver(s, log[e]), log, e + 65536);
  }

  lemma OtherExact(s: State, log: seq<Frame>, i: nat)
    requires Numbered(log) && Resting(s, log) && i < |log| && Wrap(i) != s.expected
    ensures var t := ReceiveFrame(s, log[i]);
            (Resting(t, log) && Accepted(t, i)) <==> InPlace(s, log, i)
    ensures KeepsAccepted(s, ReceiveFrame(s, log[i]))
  {
    var e := Expected(s);
    var t := ReceiveFrame(s, log[i]);
    var j := IndexAt(Wrap(i), e);
    GreaterThanExact(j, e);
    hide GreaterThan;
    if Comparable(j, e) && Wrap(i) !in s.held {
      assert t.held[Wrap(i)] == log[i];
    }
  }

  /** Less than a wrap away, in terms of the frame's own distance: exactly the comparable frames are handled
  correctly, those held already, and those late copies that do no harm. */
  lemma NearReceiveExact(s: State, log: seq<Frame>, i: nat)
    requires Numbered(log) && Resting(s, log) && i < |log| && -65536 < i - Expected(s) < 65536
    ensures var t := ReceiveFrame(s, log[i]);
            (Resting(t, log) && Accepted(t, i)) <==>
              || Comparable(i, Expected(s)) || Wrap(i) in s.held
              || (i < Expected(s) && i + 65536 < |log| && log[i] == log[i + 65536])
  {
    hide ReceiveFrame, Resting, Accepted;
    ReceiveExact(s, log, i);
    if i < Expected(s) {
      assert IndexAt(Wrap(i), Expected(s)) == i + 65536;
    } else {
      assert IndexAt(Wrap(i), Expected(s)) == i;
    }
  }

  /** The frames of a list arrive one after the other, each in place when it comes. */
  ghost predicate AllInPlace(s: State, log: seq<Frame>, order: seq<nat>)
    requires forall k :: 0 <= k < |order| ==> order[k] < |log|
    decreases |order|
  {
    order == [] || (InPlace(s, log, order[0]) && AllInPlace(ReceiveFrame(s, log[order[0]]), log, order[1..]))
  }

  function Arrivals(log: seq<Frame>, order: seq<nat>): seq<Frame>
    requires forall k :: 0 <= k < |order| ==> order[k] < |log|
  {
    if order == [] then [] else [log[order[0]]] + Arrivals(log, order[1..])
  }

  /** Any number of frames of the peer, in any order and from any distance: as long as each is in place when it
  comes, what is delivered is a prefix of the peer's frames and every one of them has been accepted. */
  lemma {:induction false} ArrivalsKeep(s: State, log: seq<Frame>, order: seq<nat>)
    requires Numbered(log) && Resting(s, log) && forall k :: 0 <= k < |order| ==> order[k] < |log|
    requires AllInPlace(s, log, order)
    ensures var t := ReceiveAll(s, Arrivals(log, order));
            Resting(t, log) && KeepsAccepted(s, t) && forall k :: 0 <= k < |order| ==> Accepted(t, order[k])
    decreases |order|
  {
    hide Resting, ReceiveFrame, Accepted, InPlace;
    if order == [] {
    } else {
      var i := order[0];
      ReceiveExact(s, log, i);
      var m := ReceiveFrame(s, log[i]);
      ArrivalsKeep(m, log, order[1..]);
      var fs := Arrivals(log, order);
      assert fs[0] == log[i] && fs[1..] == Arrivals(log, order[1..]);
      assert forall k :: 0 < k < |order| ==> order[k] == order[1..][k - 1];
    }
  }

  /** One such state: 65536 frames delivered, and a late copy of frame 32768 arrives. It is filed as
  frame 98304, which the peer has sent with different contents. */
  lemma HalfDistanceWitness() returns (s: State, log: seq<Frame>)
    ensures Numbered(log) && Ordered(s, log) && |log| == 98305
    ensures var t := ReceiveFrame(s, log[32768]);
            !Faithful(t, log) && t.held == map[32768 := log[32768]] && log[32768] != log[98304]
  {
    log := seq(98305, k => Frame(Wrap(k), DATA, if k < 65536 then [] else [1]));
    s := State(0, map[], log[..65536]);
    assert GreaterThan(32768, 0);
    NearReceiveExact(s, log, 32768);
    assert Wrap(32768) == 32768 && Wrap(65536) == 0;
  }
}

/** The reordering queue as an object, fed with packet buffers. */
module ReceiveQueueObjects {
  import opened Serial
  import opened Wire
  import opened Packets
  import opened Spec = ReceiveQueues

  class ReceiveQueue {
    var expectedID: Id
    var queue: map<Id, Frame>
    /** The calls of `processor`, oldest first. */
    var processed: seq<Frame>

    ghost function Model(): State
      reads this
    {
      State(expectedID, queue, processed)
    }

    constructor ()
      ensures Model() == Start
    {
      expectedID, queue, processed := 0, map[], [];
    }

    method ProcessNext() returns (more: bool)
      modifies this
      ensures more <==> old(expectedID) in old(queue)
      ensures more ==> |queue| < old(|queue|)
      ensures Drain(Model()) == Drain(old(Model()))
      ensures !more ==> Model() == old(Model())
    {
      if expectedID in queue {
        processed := processed + [queue[expectedID]];
        queue := queue - {expectedID};
        expectedID := Wrap(expectedID + 1);
        return true;
      }
      return false;
    }

    method ProcessQueue()
      modifies this
      ensures Model() == Drain(old(Model()))
    {
      var more := true;
      while more
        invariant Drain(Model()) == Drain(old(Model()))
        invariant !more ==> expectedID !in queue
        decreases |queue|, more
      {
        more := ProcessNext();
      }
    }

    /** One turn of the frame loop. */
    method OnFrame(f: Frame)
      modifies this
      ensures Model() == ReceiveFrame(old(Model()), f)
    {
      if f.id == expectedID {
        processed := processed + [f];
        expectedID := Wrap(expectedID + 1);
        ProcessQueue();
      } else if GreaterThan(f.id, expectedID) && f.id !in queue {
        queue := queue[f.id := f];
      }
    }

    /** `onReceive`: on any packet body the loop ends, never reads past `dataSize`, and processes
    exactly the frames of the walk. */
    method OnReceive(packet: Packet)
      requires packet.Valid()
      modifies this
      ensures Model() == ReceiveAll(old(Model()), Walk(packet.Body()))
    {
      hide Walk, ReceiveFrame;
      var body := packet.data[..packet.dataSize];
      var at, end := 0, packet.dataSize;
      assert body[at..] == body;
      while at < end
        invariant 0 <= at <= end == |body|
        invariant ReceiveAll(Model(), Walk(body[at..])) == ReceiveAll(old(Model()), Walk(body))
      {
        var next := FrameAt(body, at);
        if next == None {
          return;
        }
        var frame := next.value;
        at := at + FRAME_HEADER_SIZE + |frame.data|;
        ReceiveAllCons(Model(), frame, Walk(body[at..]));
        OnFrame(frame);
      }
      WalkNothing(body[at..]);
    }
  }

  /** The two checks of the loop: the header is complete and its payload ends inside the packet. */
  method FrameAt(body: Bytes, at: nat) returns (next: Option<Frame>)
    requires at <= |body|
    ensures match next
            case None => Walk(body[at..]) == []
            case Some(f) =>
              var end := at + FRAME_HEADER_SIZE + |f.data|;
              end <= |body| && Walk(body[at..]) == [f] + Walk(body[end..])
  {
    var rest, remaining := body[at..], |body| - at;
    if remaining < FRAME_HEADER_SIZE {
      return None;
    }
    var size := FromU16(rest[3..]);
    if remaining < FRAME_HEADER_SIZE + size {
      return None;
    }
    var payload := body[at + 5..at + 5 + size];
    WalkUnfold(rest, payload, body[at + 5 + size..]) by {
      assert rest[5..] == payload + body[at + 5 + size..];
    }
    return Some(Frame(FromU16(rest), rest[2], payload));
  }

  lemma WalkNothing(b: Bytes)
    requires |b| < FRAME_HEADER_SIZE
    ensures Walk(b) == []
  {
  }

  lemma ReceiveAllCons(s: State, f: Frame, fs: seq<Frame>)
    ensures ReceiveAll(s, [f] + fs) == ReceiveAll(ReceiveFrame(s, f), fs)
  {
    assert ([f] + fs)[1..] == fs;
  }
}

/** Reliable packets that are sent but not acknowledged, and when they are sent again
(mrudp/sender/Retrier.cpp, with the parts of mrudp/sender/Sender.cpp that drive it). */
module Retriers {
  import opened Serial
  import opened Wire
  import opened Rtts

  type Time = int

  /** `key` numbers the packets in the order they were first sent; unlike identifiers, keys never repeat. */
  datatype Retry = Retry(key: nat, isData: bool, priority: bool, attempts: nat, sentAt: Time, retryAt: Time)

  /** `log` is the history of transmissions, by key; `timer` is when the retry timeout is set for. */
  datatype State = State(window: map<Id, Retry>, priority: set<Id>, closed: bool, timer: Option<Time>,
                         rtt: real, windowSize: nat, nextKey: nat, log: seq<nat>)

  const Start := State(map[], {}, false, None, MAXIMUM, 3, 0, [])

  // ---- operations ------------------------------------------------------------------------------

  /** The numerically smallest member: the `begin()` of an ordered container. */
  function Least(ids: set<Id>): (id: Id)
    requires ids != {}
    ensures id in ids && forall j :: j in ids ==> id <= j
  {
    LeastExists(ids);
    var id :| id in ids && forall j :: j in ids ==> id <= j;
    id
  }

  lemma LeastExists(ids: set<Id>)
    requires ids != {}
    ensures exists id :: id in ids && forall j :: j in ids ==> id <= j
  {
    var id := FindLeast(ids);
  }

  lemma {:induction false} FindLeast(ids: set<Id>) returns (id: Id)
    requires ids != {}
    ensures id in ids && forall j :: j in ids ==> id <= j
    decreases |ids|
  {
    var x :| x in ids;
    var rest := ids - {x};
    id := x;
    if rest != {} {
      var y := FindLeast(rest);
      id := if x <= y then x else y;
    }
    assert forall j :: j in ids ==> j == x || j in rest;
  }

  /** `getNextRetry`: a priority packet if there is one, else the packet with the smallest identifier. */
  function NextRetry(s: State): Option<Id> {
    if s.window == map[] then None
    else if s.priority != {} then Some(Least(s.priority))
    else Some(Least(s.window.Keys))
  }

  /** `recalculateRetryTimeout`. */
  function Recalculate(s: State): State {
    match NextRetry(s)
    case None => s
    case Some(id) =>
      if id !in s.window then s
      else
        var at := s.window[id].sentAt + RetryMillis(s.rtt);
        s.(window := s.window[id := s.window[id].(retryAt := at)], timer := Some(at))
  }

  /** `insert`, and the transmission that follows it in `sendReliablyMultipath`. */
  function Insert(s: State, id: Id, isData: bool, priority: bool, now: Time): State {
    if s.closed || id in s.window then s
    else
      var t := s.(window := s.window[id := Retry(s.nextKey, isData, priority, 0, now, 0)],
                  priority := if priority then s.priority + {id} else s.priority);
      if s.window == map[] || priority then Recalculate(t) else t
  }

  function Send(s: State, id: Id, isData: bool, priority: bool, now: Time): State {
    Insert(s, id, isData, priority, now).(nextKey := s.nextKey + 1, log := s.log + [s.nextKey])
  }

  function Sampled(s: State, rtt: real): State
    requires rtt > 0.0
  {
    s.(rtt := rtt, windowSize := WindowFor(rtt))
  }

  /** The round trip an acknowledgement tells of, in seconds: the time since the packet was last sent, less the time
  the acknowledgement was held back. */
  function SampleOf(r: Retry, now: Time, delayed: Id): real {
    (now - r.sentAt - delayed) as real / 1000.0
  }

  /** `Retrier::ack` and what `Sender::onAck` makes of it. */
  function Ack(s: State, id: Id, sample: real): State {
    if id !in s.window then s
    else
      var wasFirst := id == Least(s.window.Keys);
      var wasPriority := s.window[id].priority;
      CalculateInBounds(s.rtt, sample);
      var t := Sampled(s.(window := s.window - {id}, priority := if wasPriority then s.priority - {id} else s.priority),
                       Calculate(s.rtt, sample));
      if wasFirst || wasPriority then Recalculate(t) else t
  }

  function Close(s: State): State {
    if s.closed then s else s.(closed := true, window := map[])
  }

  /** `retry->attempts >= maximumAttempts` compares unsigned, so a negative limit is never reached. */
  predicate Exhausted(r: Retry, limit: int) {
    0 <= limit <= r.attempts
  }

  /** `onRetryTimeout`: the timeout has gone off at `now`. Running out of attempts fails the connection. */
  function Timeout(s: State, now: Time, limit: int): State {
    var f := s.(timer := None);
    match NextRetry(f)
    case None => f
    case Some(id) =>
      if id !in f.window then f
      else
        var r := f.window[id];
        if now <= r.retryAt then Recalculate(f)
        else if Exhausted(r, limit) then Close(f)
        else
          CalculateInBounds(f.rtt, MAXIMUM);
          var again := f.(window := f.window[id := r.(attempts := r.attempts + 1, sentAt := now)],
              log := f.log + [r.key]);
          Recalculate(Sampled(again, AfterFailure(f.rtt)))
  }

  datatype Step =
    | SendData(id: Id, now: Time)
    | SendControl(id: Id, priority: bool, now: Time)
    | AckFor(id: Id, sample: real)
    | Expire(now: Time)
    | Fail

  /** Data is sent only while the window has room; control packets are sent regardless. */
  function Next(s: State, step: Step, limit: int): State {
    match step
    case SendData(id, now) => if |s.window| < s.windowSize then Send(s, id, true, false, now) else s
    case SendControl(id, priority, now) => Send(s, id, false, priority, now)
    case AckFor(id, sample) => Ack(s, id, sample)
    case Expire(now) => Timeout(s, now, limit)
    case Fail => Close(s)
  }

  /** Identifiers are not reused while their packet is unacknowledged. */
  predicate Allowed(s: State, step: Step) {
    (step.SendData? || step.SendControl?) ==> step.id !in s.window
  }

  function Run(s: State, steps: seq<Step>, limit: int): State
    decreases |steps|
  {
    if steps == [] then s else Run(Next(s, steps[0], limit), steps[1..], limit)
  }

  predicate AllowedRun(s: State, steps: seq<Step>, limit: int)
    decreases |steps|
  {
    steps == [] || (Allowed(s, steps[0]) && AllowedRun(Next(s, steps[0], limit), steps[1..], limit))
  }

  // ---- priorities and the timer -------------------------------------------------------------------

  /** While the retrier is open, the priority set names exactly the window's priority packets, so the next
  retry is always found in the window; and a packet that waits has a timeout set. */
  ghost predicate Armed(s: State) {
    && (!s.closed ==> forall id :: id in s.priority <==> id in s.window && s.window[id].priority)
    && (s.closed ==> s.window == map[])
    && (s.window != map[] ==> s.timer.Some?)
    && InBounds(s.rtt) && s.windowSize == WindowFor(s.rtt)
  }

  lemma NextRetryFound(s: State)
    requires Armed(s)
    ensures NextRetry(s).Some? <==> s.window != map[]
    ensures NextRetry(s).Some? ==> NextRetry(s).value in s.window
  {
  }

  /** The packet whose turn it is: the smallest identifier among those with priority, or among all if none has. */
  ghost predicate Foremost(s: State, id: Id) {
    && id in s.window
    && (forall j :: j in s.window && s.window[j].priority ==> s.window[id].priority)
    && (forall j :: j in s.window && s.window[j].priority == s.window[id].priority ==> id <= j)
  }

  lemma NextRetryExact(s: State, id: Id)
    requires Armed(s)
    ensures NextRetry(s) == Some(id) <==> Foremost(s, id)
  {
    if s.window != map[] {
      var next := NextRetry(s).value;
      assert s.priority != {} ==> next in s.priority;
      assert Foremost(s, next);
    }
  }

  /** Recalculating arms the timeout whenever something waits, and changes nothing else of weight. */
  lemma RecalculateArms(s: State)
    requires !s.closed ==> forall id :: id in s.priority <==> id in s.window && s.window[id].priority
    requires (s.closed ==> s.window == map[]) && InBounds(s.rtt) && s.windowSize == WindowFor(s.rtt)
    ensures Armed(Recalculate(s))
  {
  }

  lemma NextArmed(s: State, step: Step, limit: int)
    requires Armed(s) && Allowed(s, step)
    ensures Armed(Next(s, step, limit))
  {
    match step {
      case SendData(id, now) => SendArmed(s, id, true, false, now);
      case SendControl(id, priority, now) => SendArmed(s, id, false, priority, now);
      case AckFor(id, sample) => AckArmed(s, id, sample);
      case Expire(now) => TimeoutArmed(s, now, limit);
      case Fail =>
    }
  }

  lemma SendArmed(s: State, id: Id, isData: bool, priority: bool, now: Time)
    requires Armed(s) && id !in s.window
    ensures Armed(Send(s, id, isData, priority, now))
  {
    hide Recalculate;
    if !s.closed {
      var t := s.(window := s.window[id := Retry(s.nextKey, isData, priority, 0, now, 0)],
                  priority := if priority then s.priority + {id} else s.priority);
      RecalculateArms(t);
    }
  }

  lemma AckArmed(s: State, id: Id, sample: real)
    requires Armed(s)
    ensures Armed(Ack(s, id, sample))
  {
    hide Recalculate, Calculate;
    if id in s.window {
      CalculateInBounds(s.rtt, sample);
      var wasPriority := s.window[id].priority;
      var t := Sampled(s.(window := s.window - {id}, priority := if wasPriority then s.priority - {id} else s.priority),
                       Calculate(s.rtt, sample));
      RecalculateArms(t);
    }
  }

  lemma TimeoutArmed(s: State, now: Time, limit: int)
    requires Armed(s)
    ensures Armed(Timeout(s, now, limit))
  {
    hide Recalculate, Calculate;
    var f := s.(timer := None);
    NextRetryFound(s);
    RecalculateArms(f);
    if f.window != map[] {
      var id := NextRetry(f).value;
      var r := f.window[id];
      CalculateInBounds(f.rtt, MAXIMUM);
      var again := f.(window := f.window[id := r.(attempts := r.attempts + 1, sentAt := now)], log := f.log + [r.key]);
      RecalculateArms(Sampled(again, AfterFailure(f.rtt)));
    }
  }

  // ---- bounded retries ---------------------------------------------------------------------------

  /** How often the packet with the given key has been transmitted. */
  function Count(log: seq<nat>, key: nat): nat {
    if log == [] then 0 else Count(log[..|log| - 1], key) + (if log[|log| - 1] == key then 1 else 0)
  }

  lemma CountSnoc(log: seq<nat>, k: nat, key: nat)
    ensures Count(log + [k], key) == Count(log, key) + (if k == key then 1 else 0)
  {
    assert (log + [k])[..|log|] == log;
  }

  /** A waiting packet has been sent once more than it was retried, and no packet more than `1 + limit` times. */
  ghost predicate Counted(s: State, limit: nat) {
    && (forall id :: id in s.window ==>
         s.window[id].key < s.nextKey && s.window[id].attempts <= limit &&
             Count(s.log, s.window[id].key) == 1 + s.window[id].attempts)
    && (forall i, j :: i in s.window && j in s.window && i != j ==> s.window[i].key != s.window[j].key)
    && (forall key :: Count(s.log, key) <= 1 + limit)
    && (forall key :: key >= s.nextKey ==> Count(s.log, key) == 0)
  }

  /** Two windows that hold the same packets after the same number of attempts. */
  ghost predicate SameCounts(v: map<Id, Retry>, w: map<Id, Retry>) {
    v.Keys == w.Keys && forall id :: id in v ==>
        v[id].key == w[id].key && v[id].attempts == w[id].attempts && v[id].isData == w[id].isData
  }

  lemma RecalculateCounts(s: State)
    ensures var t := Recalculate(s);
            SameCounts(s.window, t.window) && t.log == s.log && t.nextKey == s.nextKey
  {
  }

  lemma SameCounted(s: State, t: State, limit: nat)
    requires Counted(s, limit) && SameCounts(s.window, t.window) && t.log == s.log && t.nextKey == s.nextKey
    ensures Counted(t, limit)
  {
  }

  lemma SendCounted(s: State, id: Id, isData: bool, priority: bool, now: Time, limit: nat)
    requires Counted(s, limit) && id !in s.window
    ensures Counted(Send(s, id, isData, priority, now), limit)
  {
    hide Recalculate, Counted, SameCounts;
    var log := s.log + [s.nextKey];
    if s.closed {
      LoggedCounted(s, limit);
    } else {
      var r := Retry(s.nextKey, isData, priority, 0, now, 0);
      var t := s.(window := s.window[id := r], priority := if priority then s.priority + {id} else s.priority);
      var u := t.(nextKey := s.nextKey + 1, log := log);
      PlacedCounted(s, id, r, u, limit);
      RecalculateCounts(t);
      SameRefl(t.window);
      SameCounted(u, Send(s, id, isData, priority, now), limit);
    }
  }

  lemma SameRefl(w: map<Id, Retry>)
    ensures SameCounts(w, w)
  {
  }

  lemma LogCounts(s: State)
    ensures var log := s.log + [s.nextKey];
            forall key :: Count(log, key) == Count(s.log, key) + (if s.nextKey == key then 1 else 0)
  {
    forall key
      ensures Count(s.log + [s.nextKey], key) == Count(s.log, key) + (if s.nextKey == key then 1 else 0)
    {
      CountSnoc(s.log, s.nextKey, key);
    }
  }

  /** A transmission that is not kept. */
  lemma LoggedCounted(s: State, limit: nat)
    requires Counted(s, limit)
    ensures Counted(s.(nextKey := s.nextKey + 1, log := s.log + [s.nextKey]), limit)
  {
    LogCounts(s);
    hide Count;
  }

  /** A transmission that is kept. */
  lemma PlacedCounted(s: State, id: Id, r: Retry, u: State, limit: nat)
    requires Counted(s, limit) && id !in s.window && r.key == s.nextKey && r.attempts == 0
    requires u.window == s.window[id := r] && u.nextKey == s.nextKey + 1 && u.log == s.log + [s.nextKey]
    ensures Counted(u, limit)
  {
    LogCounts(s);
    hide Count;
  }

  lemma AckCounted(s: State, id: Id, sample: real, limit: nat)
    requires Counted(s, limit)
    ensures Counted(Ack(s, id, sample), limit)
  {
    hide Recalculate, Count, Calculate, WindowFor;
    if id in s.window {
      CalculateInBounds(s.rtt, sample);
      var wasPriority := s.window[id].priority;
      var t := Sampled(s.(window := s.window - {id}, priority := if wasPriority then s.priority - {id} else s.priority),
                       Calculate(s.rtt, sample));
      assert Counted(t, limit);
      RecalculateCounts(t);
      SameCounted(t, Recalculate(t), limit);
    }
  }

  /** What a timeout retransmits: the next packet, provided it is due and has attempts left. */
  predicate Retransmits(s: State, now: Time, limit: int) {
    var next := NextRetry(s.(timer := None));
    next.Some? && next.value in s.window && s.window[next.value].retryAt < now &&
        !Exhausted(s.window[next.value], limit)
  }

  /** The window after one more attempt at its next packet. */
  function Again(s: State, now: Time): State
    requires NextRetry(s.(timer := None)).Some? && NextRetry(s.(timer := None)).value in s.window
  {
    var id := NextRetry(s.(timer := None)).value;
    var r := s.window[id];
    s.(window := s.window[id := r.(attempts := r.attempts + 1, sentAt := now)], log := s.log + [r.key])
  }

  lemma AgainCounted(s: State, now: Time, limit: nat)
    requires Counted(s, limit) && Retransmits(s, now, limit)
    ensures Counted(Again(s, now), limit)
  {
    hide Count, NextRetry;
    var id := NextRetry(s.(timer := None)).value;
    var r := s.window[id];
    forall key
      ensures Count(s.log + [r.key], key) == Count(s.log, key) + (if r.key == key then 1 else 0)
    {
      CountSnoc(s.log, r.key, key);
    }
  }

  lemma TimeoutCases(s: State, now: Time, limit: int)
    ensures var t := Timeout(s, now, limit);
            if Retransmits(s, now, limit) then
              SameCounts(Again(s, now).window, t.window) && t.log == Again(s, now).log && t.nextKey == s.nextKey
            else (SameCounts(s.window, t.window) || t.window == map[]) && t.log == s.log && t.nextKey == s.nextKey
  {
    hide Recalculate, Calculate, WindowFor, NextRetry;
    var f := s.(timer := None);
    RecalculateCounts(f);
    if Retransmits(s, now, limit) {
      CalculateInBounds(f.rtt, MAXIMUM);
      RecalculateCounts(Sampled(Again(s, now).(timer := None), AfterFailure(f.rtt)));
    }
  }

  lemma TimeoutCounted(s: State, now: Time, limit: nat)
    requires Counted(s, limit)
    ensures Counted(Timeout(s, now, limit), limit)
  {
    hide Timeout, Count, Again, Retransmits;
    TimeoutCases(s, now, limit);
    var t := Timeout(s, now, limit);
    if Retransmits(s, now, limit) {
      RetransmitsFound(s, now, limit);
      AgainCounted(s, now, limit);
      SameCounted(Again(s, now), t, limit);
    } else if t.window != map[] {
      SameCounted(s, t, limit);
    }
  }

  lemma RetransmitsFound(s: State, now: Time, limit: int)
    requires Retransmits(s, now, limit)
    ensures NextRetry(s.(timer := None)).Some? && NextRetry(s.(timer := None)).value in s.window
    ensures Again(s, now).nextKey == s.nextKey
  {
  }

  lemma NextCounted(s: State, step: Step, limit: nat)
    requires Counted(s, limit) && Allowed(s, step)
    ensures Counted(Next(s, step, limit), limit)
  {
    hide Counted, Send, Ack, Timeout;
    match step {
      case SendData(id, now) => SendCounted(s, id, true, false, now, limit);
      case SendControl(id, priority, now) => SendCounted(s, id, false, priority, now, limit);
      case AckFor(id, sample) => AckCounted(s, id, sample, limit);
      case Expire(now) => TimeoutCounted(s, now, limit);
      case Fail => CloseCounted(s, limit);
    }
  }

  lemma CloseCounted(s: State, limit: nat)
    requires Counted(s, limit)
    ensures Counted(Close(s), limit)
  {
  }

  // ---- packets in flight -------------------------------------------------------------------------

  ghost function DataIds(w: map<Id, Retry>): set<Id> {
    set id | id in w && w[id].isData
  }

  /** At most 400 data packets are unacknowledged. */
  ghost predicate Bounded(s: State) {
    |DataIds(s.window)| <= 400
  }

  lemma SameData(v: map<Id, Retry>, w: map<Id, Retry>)
    requires SameCounts(v, w)
    ensures DataIds(v) == DataIds(w)
  {
  }

  lemma FewerData(w: map<Id, Retry>)
    ensures |DataIds(w)| <= |w|
  {
    SubsetCard(DataIds(w), w.Keys);
    assert |w.Keys| == |w|;
  }

  lemma PlacedData(w: map<Id, Retry>, id: Id, r: Retry)
    requires id !in w
    ensures |DataIds(w[id := r])| == |DataIds(w)| + (if r.isData then 1 else 0) && |DataIds(w)| <= |w|
  {
    assert DataIds(w[id := r]) == DataIds(w) + if r.isData then {id} else {};
    FewerData(w);
  }

  lemma SendBounded(s: State, id: Id, isData: bool, priority: bool, now: Time)
    requires Armed(s) && Bounded(s) && id !in s.window && (isData ==> |s.window| < s.windowSize)
    ensures Bounded(Send(s, id, isData, priority, now))
  {
    WindowBounds(s.rtt);
    assert s.windowSize <= 400;
    hide Recalculate, WindowFor, Armed, DataIds;
    if !s.closed {
      var r := Retry(s.nextKey, isData, priority, 0, now, 0);
      var t := s.(window := s.window[id := r], priority := if priority then s.priority + {id} else s.priority);
      RecalculateCounts(t);
      SameData(t.window, Recalculate(t).window);
      PlacedData(s.window, id, r);
    }
  }

  lemma AckBounded(s: State, id: Id, sample: real)
    requires Bounded(s)
    ensures Bounded(Ack(s, id, sample))
  {
    hide Recalculate, Calculate, WindowFor;
    if id in s.window {
      CalculateInBounds(s.rtt, sample);
      var wasPriority := s.window[id].priority;
      var t := Sampled(s.(window := s.window - {id}, priority := if wasPriority then s.priority - {id} else s.priority),
                       Calculate(s.rtt, sample));
      RecalculateCounts(t);
      SameData(t.window, Recalculate(t).window);
      SubsetCard(DataIds(t.window), DataIds(s.window));
    }
  }

  lemma TimeoutBounded(s: State, now: Time, limit: int)
    requires Bounded(s)
    ensures Bounded(Timeout(s, now, limit))
  {
    hide Timeout;
    TimeoutCases(s, now, limit);
    var t := Timeout(s, now, limit);
    if Retransmits(s, now, limit) {
      assert DataIds(Again(s, now).window) == DataIds(s.window);
      SameData(Again(s, now).window, t.window);
    } else if t.window != map[] {
      SameData(s.window, t.window);
    } else {
      assert DataIds(t.window) == {};
    }
  }

  lemma NextBounded(s: State, step: Step, limit: int)
    requires Armed(s) && Bounded(s) && Allowed(s, step)
    ensures Bounded(Next(s, step, limit))
  {
    hide Send, Ack, Timeout;
    match step {
      case SendData(id, now) => if |s.window| < s.windowSize { SendBounded(s, id, true, false, now); }
      case SendControl(id, priority, now) => SendBounded(s, id, false, priority, now);
      case AckFor(id, sample) => AckBounded(s, id, sample);
      case Expire(now) => TimeoutBounded(s, now, limit);
      case Fail => assert DataIds(Close(s).window) == if s.closed then DataIds(s.window) else {};
    }
  }

  // ---- theorems ----------------------------------------------------------------------------------

  lemma StartHolds(limit: nat)
    ensures Armed(Start) && Counted(Start, limit) && Bounded(Start)
  {
    WindowBounds(MAXIMUM);
    assert 2.0 / MAXIMUM == 2.0;
    assert DataIds(map[]) == {};
  }

  lemma {:induction false} RunKeeps(s: State, steps: seq<Step>, limit: nat)
    requires Armed(s) && Counted(s, limit) && Bounded(s) && AllowedRun(s, steps, limit)
    ensures var t := Run(s, steps, limit); Armed(t) && Counted(t, limit) && Bounded(t)
    decreases |steps|
  {
    hide Armed, Counted, Bounded, Next, Allowed;
    if steps != [] {
      NextArmed(s, steps[0], limit);
      NextCounted(s, steps[0], limit);
      NextBounded(s, steps[0], limit);
      RunKeeps(Next(s, steps[0], limit), steps[1..], limit);
    }
  }

  /** In every run with a constant non-negative limit: each packet is transmitted at most `1 + limit` times
  on each of its paths, at most 400 data packets are unacknowledged, and while any packet is, the retry
  timeout is set. */
  lemma RetryIsBounded(steps: seq<Step>, limit: nat)
    requires AllowedRun(Start, steps, limit)
    ensures var s := Run(Start, steps, limit);
            && (forall key :: Count(s.log, key) <= 1 + limit)
            && |DataIds(s.window)| <= 400
            && (s.window != map[] ==> s.timer.Some? && NextRetry(s).Some? && NextRetry(s).value in s.window)
  {
    StartHolds(limit);
    RunKeeps(Start, steps, limit);
    NextRetryFound(Run(Start, steps, limit));
  }

  /** The attempts the waiting packets have left, together. */
  ghost function Remaining(w: map<Id, Retry>, limit: int): int
    decreases |w|
  {
    if w == map[] then 0
    else
      var id := Least(w.Keys);
      limit - w[id].attempts + Remaining(w - {id}, limit)
  }

  lemma {:induction false} RemainingSplit(w: map<Id, Retry>, id: Id, limit: int)
    requires id in w
    ensures Remaining(w, limit) == limit - w[id].attempts + Remaining(w - {id}, limit)
    decreases |w|
  {
    var first := Least(w.Keys);
    if id != first {
      RemainingSplit(w - {first}, id, limit);
      RemainingSplit(w - {id}, first, limit);
      assert w - {first} - {id} == w - {id} - {first};
    }
  }

  lemma {:induction false} RemainingSame(v: map<Id, Retry>, w: map<Id, Retry>, limit: int)
    requires SameCounts(v, w)
    ensures Remaining(v, limit) == Remaining(w, limit)
    decreases |v|
  {
    if v != map[] {
      assert w != map[] by { assert Least(v.Keys) in w; }
      RemainingSame(v - {Least(v.Keys)}, w - {Least(v.Keys)}, limit);
    } else {
      assert w.Keys == {};
      assert w == map[];
    }
  }

  lemma {:induction false} RemainingNonNegative(w: map<Id, Retry>, limit: int)
    requires forall id :: id in w ==> w[id].attempts <= limit
    ensures Remaining(w, limit) >= 0
    decreases |w|
  {
    if w != map[] {
      RemainingNonNegative(w - {Least(w.Keys)}, limit);
    }
  }

  lemma AckRemaining(s: State, id: Id, sample: real, limit: nat)
    requires Counted(s, limit)
    ensures var t := Ack(s, id, sample); t.log == s.log && Remaining(t.window, limit) <= Remaining(s.window, limit)
  {
    hide Recalculate, Count, Calculate, WindowFor, Remaining;
    if id in s.window {
      CalculateInBounds(s.rtt, sample);
      var wasPriority := s.window[id].priority;
      var t := Sampled(s.(window := s.window - {id}, priority := if wasPriority then s.priority - {id} else s.priority),
                       Calculate(s.rtt, sample));
      RecalculateCounts(t);
      RemainingSame(t.window, Recalculate(t).window, limit);
      RemainingSplit(s.window, id, limit);
    }
  }

  lemma TimeoutRemaining(s: State, now: Time, limit: nat)
    requires Counted(s, limit)
    ensures var t := Timeout(s, now, limit);
            |t.log| + Remaining(t.window, limit) <= |s.log| + Remaining(s.window, limit)
  {
    hide Timeout, Count, Remaining, NextRetry;
    TimeoutCases(s, now, limit);
    var t := Timeout(s, now, limit);
    if Retransmits(s, now, limit) {
      var id := NextRetry(s.(timer := None)).value;
      var w := Again(s, now).window;
      RemainingSplit(s.window, id, limit);
      RemainingSplit(w, id, limit);
      assert w - {id} == s.window - {id};
      RemainingSame(w, t.window, limit);
    } else if t.window == map[] {
      RemainingNothing(limit);
      RemainingNonNegative(s.window, limit);
    } else {
      RemainingSame(s.window, t.window, limit);
    }
  }

  lemma RemainingNothing(limit: int)
    ensures Remaining(map[], limit) == 0
  {
  }

  lemma NextRemaining(s: State, step: Step, limit: nat)
    requires Counted(s, limit) && !step.SendData? && !step.SendControl?
    ensures var t := Next(s, step, limit); |t.log| + Remaining(t.window, limit) <= |s.log| + Remaining(s.window, limit)
  {
    hide Ack, Timeout, Counted, Remaining;
    match step {
      case AckFor(id, sample) => AckRemaining(s, id, sample, limit);
      case Expire(now) => TimeoutRemaining(s, now, limit);
      case Fail => CloseRemaining(s, limit);
    }
  }

  lemma CloseRemaining(s: State, limit: nat)
    requires Counted(s, limit)
    ensures var t := Close(s); t.log == s.log && Remaining(t.window, limit) <= Remaining(s.window, limit)
  {
    hide Count;
    RemainingNonNegative(s.window, limit);
  }

  /** With no new packets, the retransmissions still to come are bounded by the attempts left, however
  acknowledgements and timeouts interleave. */
  lemma {:induction false} RetransmissionsAreBounded(s: State, steps: seq<Step>, limit: nat)
    requires Counted(s, limit) && forall i :: 0 <= i < |steps| ==> !steps[i].SendData? && !steps[i].SendControl?
    ensures Counted(Run(s, steps, limit), limit)
    ensures var t := Run(s, steps, limit);
            |t.log| + Remaining(t.window, limit) <= |s.log| + Remaining(s.window, limit)
    ensures |Run(s, steps, limit).log| - |s.log| <= Remaining(s.window, limit)
    decreases |steps|
  {
    if steps != [] {
      hide Next;
      NextRemaining(s, steps[0], limit);
      NextCounted(s, steps[0], limit);
      RetransmissionsAreBounded(Next(s, steps[0], limit), steps[1..], limit);
    }
    hide Next;
    RemainingNonNegative(Run(s, steps, limit).window, limit);
  }

  /** A negative limit never fails a connection: whatever a timeout finds, it leaves the retrier open. */
  lemma NegativeLimitNeverFails(s: State, now: Time, limit: int)
    requires limit < 0
    ensures Timeout(s, now, limit).closed == s.closed
  {
  }

  // ---- one step, exactly ----------------------------------------------------------------------------

  /** The packet is due `2 * rtt + 30` milliseconds, in whole milliseconds, after it was last sent. */
  ghost predicate DueAt(r: Retry, rtt: real, at: Time) {
    var wait := 2000.0 * rtt + 30.0;
    r.retryAt == at && (at - r.sentAt) as real <= wait < (at - r.sentAt) as real + 1.0
  }

  /** The same packet, sent as often and at the same time; only when it is due may differ. */
  predicate SameButDue(r: Retry, t: Retry) {
    t == r.(retryAt := t.retryAt)
  }

  /** The packet whose turn it is has its time and the timeout is set for that; the others are as in `w`. */
  ghost predicate Rescheduled(w: map<Id, Retry>, t: State) {
    && t.window.Keys == w.Keys
    && (forall j :: j in w ==> SameButDue(w[j], t.window[j]))
    && (forall j :: j in w && !Foremost(t, j) ==> t.window[j] == w[j])
    && (forall j :: Foremost(t, j) ==> t.timer.Some? && DueAt(t.window[j], t.rtt, t.timer.value))
  }

  lemma RecalculateExact(s: State)
    requires !s.closed ==> forall id :: id in s.priority <==> id in s.window && s.window[id].priority
    requires (s.closed ==> s.window == map[]) && InBounds(s.rtt) && s.windowSize == WindowFor(s.rtt)
    ensures var t := Recalculate(s);
            Rescheduled(s.window, t) && t == s.(window := t.window, timer := t.timer)
  {
    RecalculateArms(s);
    var t := Recalculate(s);
    hide RetryMillis, WindowFor;
    RetryMillisExact(s.rtt);
    forall j: Id
      ensures Foremost(t, j) <==> NextRetry(t) == Some(j)
    {
      NextRetryExact(t, j);
    }
    assert t.window.Keys == s.window.Keys;
    assert NextRetry(t) == NextRetry(s);
  }

  /** A timeout before its time only sets the timeout again. One after it closes the retrier if the attempts are
  used up, and otherwise sends the packet once more and counts that as a failure. */
  lemma TimeoutExact(s: State, now: Time, limit: int, id: Id)
    requires Armed(s) && Foremost(s, id)
    ensures var t, r := Timeout(s, now, limit), s.window[id];
            && (now <= r.retryAt ==>
                  Rescheduled(s.window, t) && t == s.(window := t.window, timer := t.timer))
            && (now > r.retryAt && 0 <= limit <= r.attempts ==>
                  t == s.(window := map[], closed := true, timer := None))
            && (now > r.retryAt && !(0 <= limit <= r.attempts) ==>
                  && Rescheduled(s.window[id := r.(attempts := r.attempts + 1, sentAt := now)], t)
                  && t == s.(window := t.window, timer := t.timer, log := s.log + [r.key], rtt := AfterFailure(s.rtt),
                             windowSize := t.windowSize)
                  && t.windowSize == WindowFor(t.rtt))
  {
    hide Recalculate, Calculate, WindowFor, Rescheduled;
    NextRetryExact(s, id);
    assert NextRetry(s.(timer := None)) == NextRetry(s);
    var r, f := s.window[id], s.(timer := None);
    RecalculateExact(f);
    CalculateInBounds(f.rtt, MAXIMUM);
    var again := f.(window := f.window[id := r.(attempts := r.attempts + 1, sentAt := now)], log := f.log + [r.key]);
    RecalculateExact(Sampled(again, AfterFailure(f.rtt)));
  }

  /** With nothing unacknowledged a timeout does nothing. */
  lemma TimeoutIdle(s: State, now: Time, limit: int)
    requires s.window == map[]
    ensures Timeout(s, now, limit) == s.(timer := None)
  {
  }

  /** An acknowledgement takes out its packet alone; its own sample moves the estimate, and the window follows. When
  it had priority or the smallest identifier, the packet whose turn it is then has its time set. */
  lemma AckExact(s: State, id: Id, sample: real)
    requires Armed(s) && id in s.window
    ensures var t := Ack(s, id, sample);
            && t.rtt == Calculate(s.rtt, sample) && t.windowSize == WindowFor(t.rtt)
            && t.closed == s.closed && t.nextKey == s.nextKey && t.log == s.log
            && t.window.Keys == s.window.Keys - {id}
            && (forall j :: j in t.window ==> SameButDue(s.window[j], t.window[j]))
            && if s.window[id].priority || forall j :: j in s.window ==> id <= j then Rescheduled(s.window - {id}, t)
               else t.window == s.window - {id} && t.timer == s.timer
  {
    hide Recalculate, Calculate, WindowFor, Rescheduled;
    CalculateInBounds(s.rtt, sample);
    assert id == Least(s.window.Keys) <==> forall j :: j in s.window ==> id <= j;
    var wasPriority := s.window[id].priority;
    var t := Sampled(s.(window := s.window - {id}, priority := if wasPriority then s.priority - {id} else s.priority),
                     Calculate(s.rtt, sample));
    RecalculateExact(t);
    RescheduledSame(t.window, Recalculate(t));
  }

  lemma RescheduledSame(w: map<Id, Retry>, t: State)
    requires Rescheduled(w, t)
    ensures t.window.Keys == w.Keys && forall j :: j in w ==> SameButDue(w[j], t.window[j])
  {
  }

  /** Sending keeps the packet for retry, unless the retrier is closed, with no attempts made and the time noted, and
  transmits it once. The first packet and one with priority have the timeout set. */
  lemma SendExact(s: State, id: Id, isData: bool, priority: bool, now: Time)
    requires Armed(s) && id !in s.window
    ensures var t := Send(s, id, isData, priority, now);
            var w := s.window[id := Retry(s.nextKey, isData, priority, 0, now, 0)];
            && t.nextKey == s.nextKey + 1 && t.log == s.log + [s.nextKey]
            && t.rtt == s.rtt && t.windowSize == s.windowSize && t.closed == s.closed
            && (s.closed ==> t.window == map[] && t.timer == s.timer)
            && (!s.closed && (s.window == map[] || priority) ==> Rescheduled(w, t))
            && (!s.closed && s.window != map[] && !priority ==> t.window == w && t.timer == s.timer)
  {
    hide Recalculate, WindowFor, Rescheduled;
    if !s.closed {
      var t := s.(window := s.window[id := Retry(s.nextKey, isData, priority, 0, now, 0)],
                  priority := if priority then s.priority + {id} else s.priority);
      RecalculateExact(t);
      RescheduledLogged(t.window, Recalculate(t), s.nextKey + 1, s.log + [s.nextKey]);
    }
  }

  lemma RescheduledLogged(w: map<Id, Retry>, t: State, nextKey: nat, log: seq<nat>)
    requires Rescheduled(w, t)
    ensures Rescheduled(w, t.(nextKey := nextKey, log := log))
  {
    var u := t.(nextKey := nextKey, log := log);
    assert forall j :: Foremost(t, j) <==> Foremost(u, j);
  }

  // ---- giving up --------------------------------------------------------------------------------------

  /** A retrier that has given up did so over a packet transmitted `1 + limit` times. */
  ghost predicate GaveUp(s: State, limit: nat) {
    s.closed ==> exists key :: Count(s.log, key) == 1 + limit
  }

  lemma {:induction false} CountGrows(log: seq<nat>, more: seq<nat>, key: nat)
    ensures Count(log, key) <= Count(log + more, key)
    decreases |more|
  {
    if more == [] {
      assert log + more == log;
    } else {
      var n := |more| - 1;
      assert log + more == log + more[..n] + [more[n]];
      CountSnoc(log + more[..n], more[n], key);
      CountGrows(log, more[..n], key);
    }
  }

  /** What one step adds to the log, and that only a timeout closes. */
  lemma NextLogs(s: State, step: Step, limit: nat)
    requires Armed(s) && Allowed(s, step) && !step.Fail?
    ensures s.log <= Next(s, step, limit).log
    ensures !step.Expire? ==> Next(s, step, limit).closed == s.closed
  {
    hide Recalculate, WindowFor, Calculate, Rescheduled;
    match step {
      case SendData(id, now) => SendExact(s, id, true, false, now);
      case SendControl(id, priority, now) => SendExact(s, id, false, priority, now);
      case AckFor(id, sample) => if id in s.window { AckExact(s, id, sample); }
      case Expire(now) => TimeoutCases(s, now, limit);
    }
  }

  lemma NextGaveUp(s: State, step: Step, limit: nat)
    requires Armed(s) && Counted(s, limit) && GaveUp(s, limit) && Allowed(s, step) && !step.Fail?
    ensures Counted(Next(s, step, limit), limit) && GaveUp(Next(s, step, limit), limit)
  {
    NextCounted(s, step, limit);
    NextLogs(s, step, limit);
    var t := Next(s, step, limit);
    hide Next, Count;
    if s.closed {
      var key :| Count(s.log, key) == 1 + limit;
      CountGrows(s.log, t.log[|s.log|..], key);
      assert t.log == s.log + t.log[|s.log|..];
      assert Count(t.log, key) == 1 + limit;
    } else if t.closed {
      Exhaustion(s, step.now, limit);
    }
  }

  lemma Exhaustion(s: State, now: Time, limit: nat)
    requires Armed(s) && Counted(s, limit) && !s.closed && Next(s, Expire(now), limit).closed
    ensures exists key :: Count(Next(s, Expire(now), limit).log, key) == 1 + limit
  {
    hide Recalculate, WindowFor, Calculate, Rescheduled, Count;
    if s.window == map[] {
      TimeoutIdle(s, now, limit);
      assert false;
    } else {
      NextRetryFound(s);
      var id := NextRetry(s).value;
      NextRetryExact(s, id);
      TimeoutExact(s, now, limit, id);
      assert Count(s.log, s.window[id].key) == 1 + limit;
    }
  }

  lemma {:induction false} RunGaveUp(s: State, steps: seq<Step>, limit: nat)
    requires Armed(s) && Counted(s, limit) && GaveUp(s, limit) && AllowedRun(s, steps, limit)
    requires forall i :: 0 <= i < |steps| ==> !steps[i].Fail?
    ensures var t := Run(s, steps, limit); t.closed ==> exists key :: Count(t.log, key) == 1 + limit
    decreases |steps|
  {
    hide Armed, Counted, GaveUp, Next, Allowed;
    if steps == [] {
      GaveUpMeans(s, limit);
    } else {
      NextArmed(s, steps[0], limit);
      NextGaveUp(s, steps[0], limit);
      RunGaveUp(Next(s, steps[0], limit), steps[1..], limit);
    }
  }

  lemma GaveUpMeans(s: State, limit: nat)
    requires GaveUp(s, limit)
    ensures s.closed ==> exists key :: Count(s.log, key) == 1 + limit
  {
  }

  /** In every run in which nobody else closes it, a retrier is closed only over a packet it has transmitted
  `1 + limit` times: the full number of attempts is made before a connection fails. */
  lemma GivesUpOnlyWhenExhausted(steps: seq<Step>, limit: nat)
    requires AllowedRun(Start, steps, limit) && forall i :: 0 <= i < |steps| ==> !steps[i].Fail?
    ensures var t := Run(Start, steps, limit); t.closed ==> exists key :: Count(t.log, key) == 1 + limit
  {
    StartHolds(limit);
    RunGaveUp(Start, steps, limit);
  }

  // ---- when packets are retried -----------------------------------------------------------------------

  const SHORTEST_WAIT := 40

  /** The timeout is set for exactly the moment the next packet is due, and that is at least 40 ms after the
  packet's last transmission. */
  ghost predicate Patient(s: State) {
    NextRetry(s).Some? && NextRetry(s).value in s.window ==>
      var r := s.window[NextRetry(s).value];
      r.sentAt + SHORTEST_WAIT <= r.retryAt && s.timer == Some(r.retryAt)
  }

  lemma RecalculatePatient(s: State)
    requires InBounds(s.rtt)
    ensures Patient(Recalculate(s))
  {
    RetryMillisBounds(s.rtt);
    hide RetryMillis, InBounds;
    var next := NextRetry(s);
    if next.Some? && next.value in s.window {
      assert Recalculate(s).window.Keys == s.window.Keys;
      assert NextRetry(Recalculate(s)) == next;
    }
  }

  /** A packet slips in front of the others: nothing has priority, and its identifier is the smallest. That
  happens when the identifiers have come round while older packets still wait. */
  predicate Overtakes(s: State, id: Id) {
    !s.closed && s.priority == {} && s.window != map[] && id < Least(s.window.Keys)
  }

  lemma LeastOf(ids: set<Id>, id: Id)
    requires id in ids && forall j :: j in ids ==> id <= j
    ensures Least(ids) == id
  {
  }

  /** Sending keeps the retry times right exactly when the new packet does not overtake: one that does has no
  retry time yet, so the timeout finds it overdue and retransmits it at once. */
  lemma SendPatientExact(s: State, id: Id, isData: bool, now: Time)
    requires Armed(s) && Patient(s) && id !in s.window && now >= 0
    ensures Patient(Send(s, id, isData, false, now)) <==> !Overtakes(s, id)
    ensures Overtakes(s, id) ==> NextRetry(Send(s, id, isData, false, now)) == Some(id) &&
                                 Send(s, id, isData, false, now).window[id].retryAt == 0
  {
    hide RetryMillis, WindowFor;
    var r := Retry(s.nextKey, isData, false, 0, now, 0);
    var t := s.(window := s.window[id := r]);
    if !s.closed {
      if s.window == map[] {
        RecalculatePatient(t);
        SamePatient(Recalculate(t), Send(s, id, isData, false, now));
      } else {
        assert t.window.Keys == s.window.Keys + {id};
        if s.priority == {} {
          var least := Least(s.window.Keys);
          LeastOf(t.window.Keys, if id < least then id else least);
        }
        SamePatient(t, Send(s, id, isData, false, now));
      }
    } else {
      SamePatient(s, Send(s, id, isData, false, now));
    }
  }

  lemma SamePatient(s: State, t: State)
    requires t.window == s.window && t.priority == s.priority && t.timer == s.timer
    ensures Patient(s) <==> Patient(t)
  {
  }

  lemma PriorityPatient(s: State, id: Id, isData: bool, now: Time)
    requires Armed(s) && Patient(s) && id !in s.window
    ensures Patient(Send(s, id, isData, true, now))
  {
    hide RetryMillis, WindowFor;
    if !s.closed {
      var t := s.(window := s.window[id := Retry(s.nextKey, isData, true, 0, now, 0)], priority := s.priority + {id});
      RecalculatePatient(t);
      SamePatient(Recalculate(t), Send(s, id, isData, true, now));
    } else {
      SamePatient(s, Send(s, id, isData, true, now));
    }
  }

  lemma AckPatient(s: State, id: Id, sample: real)
    requires Armed(s) && Patient(s)
    ensures Patient(Ack(s, id, sample))
  {
    hide RetryMillis, WindowFor, Calculate;
    if id in s.window {
      CalculateInBounds(s.rtt, sample);
      var first := id == Least(s.window.Keys);
      var priority := s.window[id].priority;
      var t := Sampled(s.(window := s.window - {id}, priority := if priority then s.priority - {id} else s.priority),
          Calculate(s.rtt, sample));
      if first || priority {
        RecalculatePatient(t);
      } else {
        assert t.window.Keys == s.window.Keys - {id};
        LeastOf(t.window.Keys, Least(s.window.Keys));
        assert NextRetry(t) == NextRetry(s);
      }
    }
  }

  lemma TimeoutPatient(s: State, now: Time, limit: int)
    requires Armed(s)
    ensures Patient(Timeout(s, now, limit))
  {
    hide RetryMillis, WindowFor, Calculate, Recalculate;
    var f := s.(timer := None);
    NextRetryFound(s);
    RecalculatePatient(f);
    if f.window != map[] {
      var id := NextRetry(f).value;
      var r := f.window[id];
      CalculateInBounds(f.rtt, MAXIMUM);
      var again := f.(window := f.window[id := r.(attempts := r.attempts + 1, sentAt := now)], log := f.log + [r.key]);
      RecalculatePatient(Sampled(again, AfterFailure(f.rtt)));
    }
  }

  /** The clock has started, and no packet overtakes those that wait. */
  predicate Orderly(s: State, step: Step) {
    match step
    case SendData(id, now) => now >= 0 && !Overtakes(s, id)
    case SendControl(id, priority, now) => now >= 0 && (priority || !Overtakes(s, id))
    case _ => true
  }

  lemma NextPatient(s: State, step: Step, limit: int)
    requires Armed(s) && Patient(s) && Allowed(s, step) && Orderly(s, step)
    ensures Patient(Next(s, step, limit))
  {
    hide Send, Ack, Timeout;
    match step {
      case SendData(id, now) => if |s.window| < s.windowSize { SendPatientExact(s, id, true, now); }
      case SendControl(id, priority, now) =>
        if priority { PriorityPatient(s, id, false, now); } else { SendPatientExact(s, id, false, now); }
      case AckFor(id, sample) => AckPatient(s, id, sample);
      case Expire(now) => TimeoutPatient(s, now, limit);
      case Fail =>
    }
  }

  predicate OrderlyRun(s: State, steps: seq<Step>, limit: int)
    decreases |steps|
  {
    steps == [] || (Allowed(s, steps[0]) && Orderly(s, steps[0]) &&
        OrderlyRun(Next(s, steps[0], limit), steps[1..], limit))
  }

  lemma {:induction false} OrderlyKeeps(s: State, steps: seq<Step>, limit: int)
    requires Armed(s) && Patient(s) && OrderlyRun(s, steps, limit)
    ensures Armed(Run(s, steps, limit)) && Patient(Run(s, steps, limit))
    decreases |steps|
  {
    hide Armed, Patient, Next, Allowed, Orderly;
    if steps != [] {
      NextArmed(s, steps[0], limit);
      NextPatient(s, steps[0], limit);
      OrderlyKeeps(Next(s, steps[0], limit), steps[1..], limit);
    }
  }

  /** In every orderly run the timeout is set for the moment the next packet is due, and no packet is
  retransmitted within 40 ms of its last transmission. */
  lemma RetriesAreNeverEarly(steps: seq<Step>, limit: int, now: Time)
    requires OrderlyRun(Start, steps, limit)
    ensures var s := Run(Start, steps, limit);
            && Patient(s)
            && (Retransmits(s, now, limit) ==> s.window[NextRetry(s).value].sentAt + SHORTEST_WAIT < now)
  {
    StartHolds(0);
    OrderlyKeeps(Start, steps, limit);
    var s := Run(Start, steps, limit);
    assert NextRetry(s.(timer := None)) == NextRetry(s);
  }

  /** Packets 0 to `n - 1`, each acknowledged before the next is sent. */
  function Rounds(n: nat): seq<Step>
    requires n <= 65535
  {
    if n == 0 then [] else Rounds(n - 1) + [SendData(n - 1, 0), AckFor(n - 1, MAXIMUM)]
  }

  /** Nothing waits, and the round trip is what it was at the start. */
  ghost predicate Quiet(s: State) {
    s.window == map[] && s.priority == {} && !s.closed && s.rtt == MAXIMUM && s.windowSize == 3
  }

  lemma {:induction false} RunAppend(s: State, a: seq<Step>, b: seq<Step>, limit: int)
    ensures Run(s, a + b, limit) == Run(Run(s, a, limit), b, limit)
    ensures AllowedRun(s, a + b, limit) <==> AllowedRun(s, a, limit) && AllowedRun(Run(s, a, limit), b, limit)
    decreases |a|
  {
    hide Next, Allowed;
    if a == [] {
      assert a + b == b;
    } else {
      assert (a + b)[0] == a[0] && (a + b)[1..] == a[1..] + b;
      RunAppend(Next(s, a[0], limit), a[1..], b, limit);
    }
  }

  lemma RunTwo(s: State, x: Step, y: Step, limit: int)
    ensures Run(s, [x, y], limit) == Next(Next(s, x, limit), y, limit)
    ensures AllowedRun(s, [x, y], limit) <==> Allowed(s, x) && Allowed(Next(s, x, limit), y)
  {
    hide Next, Allowed;
    var t := Next(s, x, limit);
    assert [x, y][1..] == [y] && [y][1..] == [];
    assert Run(Next(t, y, limit), [], limit) == Next(t, y, limit);
    assert Run(t, [y], limit) == Next(t, y, limit) && (AllowedRun(t, [y], limit) <==> Allowed(t, y));
  }

  /** The first packet of a quiet window has its retry time set. */
  lemma FirstPacket(s: State, id: Id, now: Time, limit: int)
    requires Quiet(s)
    ensures var t := Next(s, SendData(id, now), limit);
            && t.window == map[id := Retry(s.nextKey, true, false, 0, now, now + 2030)] && t.timer == Some(now + 2030)
            && t.priority == {} && !t.closed && t.rtt == MAXIMUM && t.windowSize == 3 && t.nextKey == s.nextKey + 1
  {
    LeastOf({id}, id);
    var placed := s.(window := map[id := Retry(s.nextKey, true, false, 0, now, 0)]);
    assert placed.window.Keys == {id};
    assert RetryMillis(MAXIMUM) == 2030;
    assert NextRetry(placed) == Some(id);
  }

  lemma RoundQuiet(s: State, id: Id, limit: int)
    requires Quiet(s)
    ensures Allowed(s, SendData(id, 0)) && Quiet(Next(Next(s, SendData(id, 0), limit), AckFor(id, MAXIMUM), limit))
  {
    FirstPacket(s, id, 0, limit);
    var t := Next(s, SendData(id, 0), limit);
    hide Send, Recalculate;
    assert t.window - {id} == map[];
    assert Calculate(MAXIMUM, MAXIMUM) == MAXIMUM && WindowFor(MAXIMUM) == 3;
    RecalculateNothing(t.(window := map[]));
  }

  lemma RecalculateNothing(s: State)
    requires s.window == map[]
    ensures Recalculate(s) == s
  {
  }

  lemma {:induction false} RoundsQuiet(n: nat, limit: int)
    requires n <= 65535
    ensures AllowedRun(Start, Rounds(n), limit) && Quiet(Run(Start, Rounds(n), limit))
  {
    hide Quiet, Next, Allowed, Run, AllowedRun;
    if n == 0 {
      StartQuiet(limit);
    } else {
      RoundsQuiet(n - 1, limit);
      var s := Run(Start, Rounds(n - 1), limit);
      RunAppend(Start, Rounds(n - 1), [SendData(n - 1, 0), AckFor(n - 1, MAXIMUM)], limit);
      RunTwo(s, SendData(n - 1, 0), AckFor(n - 1, MAXIMUM), limit);
      RoundQuiet(s, n - 1, limit);
      AckAllowed(Next(s, SendData(n - 1, 0), limit), n - 1);
    }
  }

  lemma StartQuiet(limit: int)
    ensures AllowedRun(Start, Rounds(0), limit) && Quiet(Run(Start, Rounds(0), limit))
  {
  }

  lemma AckAllowed(s: State, id: Id)
    ensures Allowed(s, AckFor(id, MAXIMUM))
  {
  }

  /** Identifiers come round: after 65535 packets, packet 65535 waits, packet 0 is sent again, and the timeout
  retransmits it two milliseconds after it was sent. */
  lemma EarlyRetryWitness() returns (s: State)
    ensures var steps := Rounds(65535) + [SendData(65535, 1000), SendData(0, 3029)];
            AllowedRun(Start, steps, 10) && s == Run(Start, steps, 10)
    ensures s.timer == Some(3030) && Retransmits(s, 3031, 10) && NextRetry(s) == Some(0) && s.window[0].sentAt == 3029
  {
    hide Rounds, Run, AllowedRun;
    RoundsQuiet(65535, 10);
    var q := Run(Start, Rounds(65535), 10);
    RunAppend(Start, Rounds(65535), [SendData(65535, 1000), SendData(0, 3029)], 10);
    RunTwo(q, SendData(65535, 1000), SendData(0, 3029), 10);
    FirstPacket(q, 65535, 1000, 10);
    var s1 := Next(q, SendData(65535, 1000), 10);
    s := Next(s1, SendData(0, 3029), 10);
    SecondPacket(s1);
  }

  lemma SecondPacket(s1: State)
    requires s1.window.Keys == {65535} && s1.priority == {} && !s1.closed && s1.windowSize == 3
    ensures var s := Next(s1, SendData(0, 3029), 10);
            && Allowed(s1, SendData(0, 3029))
            && s.timer == s1.timer && NextRetry(s) == Some(0)
            && Retransmits(s, 3031, 10) && s.window[0].sentAt == 3029
  {
    assert |s1.window| == |s1.window.Keys| == 1;
    var s := Next(s1, SendData(0, 3029), 10);
    assert s.window == s1.window[0 := Retry(s1.nextKey, true, false, 0, 3029, 0)];
    assert s.window.Keys == {0, 65535};
    LeastOf({0, 65535}, 0);
    assert NextRetry(s.(timer := None)) == Some(0);
  }

  // ---- the window of identifiers -----------------------------------------------------------------------

  /** Seen as a set of identifiers, the window changes as in the transition system of the data path: a send
  adds one, an acknowledgement removes one, a timeout changes nothing or empties it by failing. */
  lemma WindowIds(s: State, id: Id, isData: bool, priority: bool, now: Time, sample: real, limit: int)
    ensures !s.closed && id !in s.window ==> Send(s, id, isData, priority, now).window.Keys == s.window.Keys + {id}
    ensures Ack(s, id, sample).window.Keys == s.window.Keys - {id}
    ensures Timeout(s, now, limit).window.Keys == if Timeout(s, now, limit).closed && !s.closed then {}
        else s.window.Keys
  {
    hide Recalculate, WindowFor, Calculate;
    var placed := s.(window := s.window[id := Retry(s.nextKey, isData, priority, 0, now, 0)],
                     priority := if priority then s.priority + {id} else s.priority);
    RecalculateKeys(placed);
    if id in s.window {
      CalculateInBounds(s.rtt, sample);
      RecalculateKeys(Sampled(s.(window := s.window - {id},
          priority := if s.window[id].priority then s.priority - {id} else s.priority),
                              Calculate(s.rtt, sample)));
    }
    TimeoutIds(s, now, limit);
  }

  lemma RecalculateKeys(s: State)
    ensures Recalculate(s).window.Keys == s.window.Keys && Recalculate(s).closed == s.closed
  {
  }

  lemma TimeoutIds(s: State, now: Time, limit: int)
    ensures Timeout(s, now, limit).window.Keys == if Timeout(s, now, limit).closed && !s.closed then {}
        else s.window.Keys
  {
    hide Recalculate, WindowFor, Calculate, NextRetry;
    var f := s.(timer := None);
    RecalculateKeys(f);
    var next := NextRetry(f);
    if next.Some? && next.value in f.window {
      var r := f.window[next.value];
      CalculateInBounds(f.rtt, MAXIMUM);
      var again := f.(window := f.window[next.value := r.(attempts := r.attempts + 1, sentAt := now)],
          log := f.log + [r.key]);
      RecalculateKeys(Sampled(again, AfterFailure(f.rtt)));
    }
  }
}

/** The retrier as an object. The window and the priority set are ordered containers. */
module RetrierObjects {
  import opened Serial
  import opened Wire
  import opened Rtts
  import opened Spec = Retriers

  class Retrier {
    var window: map<Id, Retry>
    var priority: set<Id>
    var closed: bool
    var timer: Option<Time>
    var rtt: real
    var windowSize: nat
    var nextKey: nat
    /** The keys of the packets given to the connection to send, oldest first. */
    var transmitted: seq<nat>

    ghost function Model(): State
      reads this
    {
      State(window, priority, closed, timer, rtt, windowSize, nextKey, transmitted)
    }

    constructor ()
      ensures Model() == Start && Armed(Model())
    {
      StartHolds(0);
      window, priority, closed, timer := map[], {}, false, None;
      rtt, windowSize, nextKey, transmitted := MAXIMUM, 3, 0, [];
    }

    method GetNextRetry() returns (next: Option<Id>)
      ensures next == NextRetry(Model())
    {
      if window == map[] {
        return None;
      }
      if priority != {} {
        return Some(Least(priority));
      }
      return Some(Least(window.Keys));
    }

    method RecalculateRetryTimeout()
      modifies this`window, this`timer
      ensures Model() == Recalculate(old(Model()))
    {
      var next := GetNextRetry();
      if next.Some? && next.value in window {
        var at := window[next.value].sentAt + RetryMillis(rtt);
        window := window[next.value := window[next.value].(retryAt := at)];
        timer := Some(at);
      }
    }

    method InsertRetry(id: Id, isData: bool, isPriority: bool, now: Time)
      requires id !in window
      modifies this`window, this`priority, this`timer
      ensures Model() == Insert(old(Model()), id, isData, isPriority, now)
    {
      if closed {
        return;
      }
      var wasEmpty := window == map[];
      window := window[id := Retry(nextKey, isData, isPriority, 0, now, 0)];
      if isPriority {
        priority := priority + {id};
      }
      if wasEmpty || isPriority {
        RecalculateRetryTimeout();
      }
    }

    /** `sendReliablyMultipath`: insert, then hand to the connection. */
    method SendReliably(id: Id, isData: bool, isPriority: bool, now: Time)
      requires id !in window
      modifies this
      ensures Model() == Send(old(Model()), id, isData, isPriority, now)
    {
      InsertRetry(id, isData, isPriority, now);
      transmitted := transmitted + [nextKey];
      nextKey := nextKey + 1;
    }

    method OnSample(sample: real)
      modifies this`rtt, this`windowSize
      ensures Calculate(old(rtt), sample) > 0.0 && Model() == Sampled(old(Model()), Calculate(old(rtt), sample))
    {
      CalculateInBounds(rtt, sample);
      rtt := Calculate(rtt, sample);
      windowSize := WindowFor(rtt);
    }

    /** `Retrier::ack` with `Sender::onAck`. */
    method OnAck(id: Id, now: Time, delayed: Id)
      modifies this
      ensures id !in old(window) ==> Model() == old(Model())
      ensures id in old(window) ==> Model() == Ack(old(Model()), id, SampleOf(old(window[id]), now, delayed))
      ensures id in old(window) ==>
                rtt == Calculate(old(rtt), (now - old(window[id].sentAt) - delayed) as real / 1000.0) &&
                windowSize == WindowFor(rtt)
    {
      if id in window {
        var sample := SampleOf(window[id], now, delayed);
        var wasFirst := id == Least(window.Keys);
        var wasPriority := window[id].priority;
        if wasPriority {
          priority := priority - {id};
        }
        window := window - {id};
        OnSample(sample);
        if wasFirst || wasPriority {
          RecalculateRetryTimeout();
        }
      }
    }

    method CloseRetrier()
      modifies this`closed, this`window
      ensures Model() == Close(old(Model()))
    {
      if !closed {
        closed := true;
        window := map[];
      }
    }

    method OnRetryTimeout(now: Time, limit: int)
      requires Armed(Model())
      modifies this
      ensures Model() == Timeout(old(Model()), now, limit) && Armed(Model())
    {
      hide Armed, Recalculate, WindowFor, Calculate;
      TimeoutArmed(Model(), now, limit);
      NextRetryFound(Model());
      NextWithoutTimer(Model());
      timer := None;
      var next := GetNextRetry();
      if next == None {
        return;
      }
      var id := next.value;
      var retry := window[id];
      if now > retry.retryAt {
        if 0 <= limit && retry.attempts >= limit {
          CloseRetrier();
        } else {
          window := window[id := retry.(attempts := retry.attempts + 1, sentAt := now)];
          transmitted := transmitted + [retry.key];
          OnSample(MAXIMUM);
          RecalculateRetryTimeout();
        }
      } else {
        RecalculateRetryTimeout();
      }
    }
  }

  /** The timer plays no part in what is retried next. */
  lemma NextWithoutTimer(s: State)
    ensures NextRetry(s.(timer := None)) == NextRetry(s)
  {
  }
}

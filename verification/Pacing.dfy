/** When queued reliable data is processed and when packets are retried, with threads interleaving between
any two locked regions (mrudp/sender/Sender.cpp, mrudp/sender/Retrier.cpp).

The coalescing mode is fixed and is not the one without coalescing, which needs no schedule.
*/
module Pacing {
  import opened Wire
  import opened Rtts

  type Time = int

  /** Who recalculates the retry timeout. */
  datatype Role = ForAck | ForControl | ForDrain | ForRetry

  /** Where a thread stands between two steps. */
  datatype Pc =
    | Enqueued                      // data is in the queue, readiness not yet checked
    | Opened                        // `open` has set the status and is about to schedule
    | Acked(recalculate: bool)      // an unacknowledged packet was removed, the round trip not yet sampled
    | Looks(role: Role)             // about to look for the next packet to retry
    | Sets(role: Role)              // has found one and is about to set the retry timeout
    | Scheduling                    // about to enter the locked part of `scheduleDataQueueProcessing`
    | Fired                         // the processing timeout went off, its lock not yet taken
    | RetryFired                    // the retry timeout went off
    | Resending                     // a packet was retried, the failure not yet sampled
    | Entered                       // `running` is set, readiness not yet checked
    | Checks | Takes | Holds        // the drain loop: window check, dequeue, insert
    | Leaves                        // the drain loop is over, `running` still set

  /** `queued` measures the data `dequeue` can still turn into packets, `armed` and `retryArmed` tell whether
  the two timeouts are with the scheduler. */
  datatype State = State(ready: bool, failed: bool, queued: nat, unacked: nat, rtt: real, windowSize: nat,
                         when: Option<Time>, running: bool, armed: bool, retryArmed: bool, threads: multiset<Pc>)

  const Start := State(false, false, 0, 0, MAXIMUM, 3, None, false, false, false, multiset{})

  datatype Step =
    | Enqueue
    | BecomeReady
    | Control(priority: bool)
    | AckArrives(contained: bool, recalculate: bool)
    | TimerFires
    | RetryTimerFires
    | Fail
    | CheckReady
    | OpenSchedules
    | Schedule(at: Time)
    | Sample(recalculate: bool, sample: real)
    | LookNext(role: Role)
    | SetTimeout(role: Role)
    | EnterProcess
    | CheckStatus
    | CheckWindow
    | Take(amount: nat)
    | Insert
    | Leave
    | LookForRetry(due: bool, exhausted: bool)
    | SampleFailure

  function Spawn(s: State, p: Pc): State {
    s.(threads := s.threads + multiset{p})
  }

  function Move(s: State, p: Pc, q: Pc): State {
    s.(threads := s.threads - multiset{p} + multiset{q})
  }

  function Exit(s: State, p: Pc): State {
    s.(threads := s.threads - multiset{p})
  }

  predicate IsFull(s: State) {
    s.unacked >= s.windowSize
  }

  function Sampled(s: State, rtt: real): State
    requires rtt > 0.0
  {
    s.(rtt := rtt, windowSize := WindowFor(rtt))
  }

  /** What a thread does after `recalculateRetryTimeout`. */
  function Resume(s: State, p: Pc, role: Role): State {
    match role
    case ForAck => Move(s, p, Scheduling)
    case ForDrain => Move(s, p, Checks)
    case _ => Exit(s, p)
  }

  /** The locked part of `scheduleDataQueueProcessing`. */
  function Scheduled(s: State, at: Time): State {
    if s.when == None || at < s.when.value then s.(when := Some(at), armed := s.armed || !s.running) else s
  }

  function Failed(s: State): State {
    s.(failed := true, queued := 0, unacked := 0)
  }

  /** The thread position a step needs. */
  function Needs(step: Step): Option<Pc> {
    match step
    case CheckReady => Some(Enqueued)
    case OpenSchedules => Some(Opened)
    case Schedule(_) => Some(Scheduling)
    case Sample(recalculate, _) => Some(Acked(recalculate))
    case LookNext(role) => Some(Looks(role))
    case SetTimeout(role) => Some(Sets(role))
    case EnterProcess => Some(Fired)
    case CheckStatus => Some(Entered)
    case CheckWindow => Some(Checks)
    case Take(_) => Some(Takes)
    case Insert => Some(Holds)
    case Leave => Some(Leaves)
    case LookForRetry(_, _) => Some(RetryFired)
    case SampleFailure => Some(Resending)
    case _ => None
  }

  predicate Enabled(s: State, step: Step) {
    && (Needs(step).Some? ==> Needs(step).value in s.threads)
    && (step.AckArrives? && step.contained ==> s.unacked > 0)
    && (step.TimerFires? ==> s.armed)
    && (step.RetryTimerFires? ==> s.retryArmed)
    && (step.Take? ==> (s.queued > 0 ==> 0 < step.amount <= s.queued))
  }

  function Next(s: State, step: Step): State
    requires Enabled(s, step)
  {
    match step
    case Enqueue => Spawn(if s.failed then s else s.(queued := s.queued + 1), Enqueued)
    case BecomeReady => Spawn(s.(ready := true), Opened)
    case Control(priority) =>
      if s.failed then s
      else if s.unacked == 0 || priority then Spawn(s.(unacked := s.unacked + 1), Looks(ForControl))
      else s.(unacked := s.unacked + 1)
    case AckArrives(contained, recalculate) =>
      if contained then Spawn(s.(unacked := s.unacked - 1), Acked(recalculate)) else Spawn(s, Scheduling)
    case TimerFires => Spawn(s.(armed := false), Fired)
    case RetryTimerFires => Spawn(s.(retryArmed := false), RetryFired)
    case Fail => Failed(s)
    case CheckReady => if s.ready then Move(s, Enqueued, Scheduling) else Exit(s, Enqueued)
    case OpenSchedules => Move(s, Opened, Scheduling)
    case Schedule(at) => Exit(Scheduled(s, at), Scheduling)
    case Sample(recalculate, sample) =>
      CalculateInBounds(s.rtt, sample);
      Move(Sampled(s, Calculate(s.rtt, sample)), Acked(recalculate), if recalculate then Looks(ForAck) else Scheduling)
    case LookNext(role) => if s.unacked == 0 then Resume(s, Looks(role), role) else Move(s, Looks(role), Sets(role))
    case SetTimeout(role) => Resume(s.(retryArmed := true), Sets(role), role)
    case EnterProcess =>
      if s.running then Exit(s, Fired)
      else Move(s.(when := None, running := true), Fired, Entered)
    case CheckStatus => Move(s, Entered, if s.ready then Checks else Leaves)
    case CheckWindow => Move(s, Checks, if IsFull(s) then Leaves else Takes)
    case Take(amount) => if s.queued == 0 then Move(s, Takes, Leaves)
        else Move(s.(queued := s.queued - amount), Takes, Holds)
    case Insert =>
      if s.failed then Move(s, Holds, Checks)
      else Move(s.(unacked := s.unacked + 1), Holds, if s.unacked == 0 then Looks(ForDrain) else Checks)
    case Leave => Exit(s.(running := false, armed := s.armed || s.when.Some?), Leaves)
    case LookForRetry(due, exhausted) =>
      if s.unacked == 0 then Exit(s, RetryFired)
      else if !due then Move(s, RetryFired, Looks(ForRetry))
      else if exhausted then Exit(Failed(s), RetryFired)
      else Move(s, RetryFired, Resending)
    case SampleFailure =>
      CalculateInBounds(s.rtt, MAXIMUM);
      Move(Sampled(s, AfterFailure(s.rtt)), Resending, Looks(ForRetry))
  }

  // ---- the invariant -------------------------------------------------------------------------------

  /** A thread that is going to schedule processing. */
  predicate WillSchedule(p: Pc) {
    p.Enqueued? || p.Opened? || p.Acked? || p == Looks(ForAck) || p == Sets(ForAck) || p.Scheduling?
  }

  /** A thread that is going to set the retry timeout if anything waits. */
  predicate WillRearm(p: Pc) {
    p == Acked(true) || p.Looks? || p.Sets? || p.RetryFired? || p.Resending?
  }

  /** A thread inside the drain loop. */
  predicate Drains(p: Pc) {
    p.Entered? || p.Checks? || p.Takes? || p.Holds? || p == Looks(ForDrain) || p == Sets(ForDrain)
  }

  predicate Tends(p: Pc) {
    WillSchedule(p) || Drains(p)
  }

  ghost predicate SomeoneTends(t: multiset<Pc>) {
    exists p :: p in t && Tends(p)
  }

  ghost predicate SomeoneRearms(t: multiset<Pc>) {
    exists p :: p in t && WillRearm(p)
  }

  /** How many threads are between setting and resetting `running`. */
  ghost function Drainers(t: multiset<Pc>): nat {
    t[Entered] + t[Checks] + t[Takes] + t[Holds] + t[Looks(ForDrain)] + t[Sets(ForDrain)] + t[Leaves]
  }

  function Weight(p: Pc): nat {
    if Drains(p) || p.Leaves? then 1 else 0
  }

  /** Queued data that may be sent is looked after: a deadline, a drain, or a thread about to schedule. */
  ghost predicate DataLooked(s: State) {
    s.ready && s.queued > 0 && !IsFull(s) ==> s.when.Some? || SomeoneTends(s.threads)
  }

  /** Outside a drain, a deadline has its timeout armed or just gone off. */
  ghost predicate DeadlineArmed(s: State) {
    s.when.Some? && !s.running ==> s.armed || Fired in s.threads
  }

  /** Unacknowledged packets have their timeout armed or a thread about to arm it. */
  ghost predicate RetryLooked(s: State) {
    s.unacked > 0 ==> s.retryArmed || SomeoneRearms(s.threads)
  }

  /** `running` is set exactly while one thread drains. */
  ghost predicate OneDrain(s: State) {
    Drainers(s.threads) == (if s.running then 1 else 0)
  }

  ghost predicate WindowOk(s: State) {
    InBounds(s.rtt) && s.windowSize == WindowFor(s.rtt) && (s.failed ==> s.queued == 0 && s.unacked == 0)
  }

  ghost predicate Inv(s: State) {
    DataLooked(s) && DeadlineArmed(s) && RetryLooked(s) && OneDrain(s) && WindowOk(s)
  }

  // ---- threads come, move and go -------------------------------------------------------------------

  lemma Come(t: multiset<Pc>, p: Pc)
    ensures var u := t + multiset{p};
            && p in u && (Fired in t ==> Fired in u) && Drainers(u) == Drainers(t) + Weight(p)
            && (SomeoneTends(u) <==> SomeoneTends(t) || Tends(p))
            && (SomeoneRearms(u) <==> SomeoneRearms(t) || WillRearm(p))
  {
    var u := t + multiset{p};
    assert forall x :: x in u <==> x in t || x == p;
  }

  lemma GoDrainers(t: multiset<Pc>, p: Pc)
    requires p in t
    ensures Drainers(t - multiset{p}) == Drainers(t) - Weight(p)
  {
  }

  lemma GoOthers(t: multiset<Pc>, p: Pc)
    requires p in t
    ensures var u := t - multiset{p};
            && (SomeoneTends(t) && !Tends(p) ==> SomeoneTends(u))
            && (SomeoneRearms(t) && !WillRearm(p) ==> SomeoneRearms(u))
  {
    hide Tends, WillRearm;
    var u := t - multiset{p};
    if SomeoneTends(t) && !Tends(p) {
      var x :| x in t && Tends(x);
      assert x in u && Tends(x);
    }
    if SomeoneRearms(t) && !WillRearm(p) {
      var x :| x in t && WillRearm(x);
      assert x in u && WillRearm(x);
    }
  }

  lemma Go(t: multiset<Pc>, p: Pc)
    requires p in t
    ensures var u := t - multiset{p};
            && (p != Fired && Fired in t ==> Fired in u) && Drainers(u) == Drainers(t) - Weight(p)
            && (SomeoneTends(t) && !Tends(p) ==> SomeoneTends(u))
            && (SomeoneRearms(t) && !WillRearm(p) ==> SomeoneRearms(u))
  {
    hide Drainers, SomeoneTends, SomeoneRearms, Tends, WillRearm, Weight;
    GoDrainers(t, p);
    GoOthers(t, p);
  }

  /** What a thread's step does to the invariants' view of the threads. */
  lemma GoAndCome(t: multiset<Pc>, p: Pc, q: Pc)
    requires p in t
    ensures var u := t - multiset{p} + multiset{q};
            && q in u && (p != Fired && Fired in t ==> Fired in u) && Drainers(u) == Drainers(t) - Weight(p) + Weight(q)
            && ((SomeoneTends(t) && !Tends(p)) || Tends(q) ==> SomeoneTends(u))
            && ((SomeoneRearms(t) && !WillRearm(p)) || WillRearm(q) ==> SomeoneRearms(u))
  {
    Go(t, p);
    Come(t - multiset{p}, q);
  }

  // ---- every step keeps the invariant ----------------------------------------------------------------

  lemma EnqueueKeeps(s: State)
    requires Inv(s)
    ensures Inv(Spawn(if s.failed then s else s.(queued := s.queued + 1), Enqueued))
  {
    hide WindowFor, Calculate, Drainers, SomeoneTends, SomeoneRearms;
    Come(s.threads, Enqueued);
  }

  lemma ReadyKeeps(s: State)
    requires Inv(s)
    ensures Inv(Spawn(s.(ready := true), Opened))
  {
    hide WindowFor, Calculate, Drainers, SomeoneTends, SomeoneRearms;
    Come(s.threads, Opened);
  }

  lemma ControlKeeps(s: State, priority: bool)
    requires Inv(s) && !s.failed
    ensures Inv(if s.unacked == 0 || priority then Spawn(s.(unacked := s.unacked + 1), Looks(ForControl))
                else s.(unacked := s.unacked + 1))
  {
    hide WindowFor, Calculate, Drainers, SomeoneTends, SomeoneRearms;
    Come(s.threads, Looks(ForControl));
  }

  lemma AckKeeps(s: State, recalculate: bool)
    requires Inv(s) && s.unacked > 0
    ensures Inv(Spawn(s.(unacked := s.unacked - 1), Acked(recalculate)))
  {
    hide WindowFor, Calculate, Drainers, SomeoneTends, SomeoneRearms;
    Come(s.threads, Acked(recalculate));
  }

  lemma StrayAckKeeps(s: State)
    requires Inv(s)
    ensures Inv(Spawn(s, Scheduling))
  {
    hide WindowFor, Calculate, Drainers, SomeoneTends, SomeoneRearms;
    Come(s.threads, Scheduling);
  }

  lemma TimerKeeps(s: State)
    requires Inv(s)
    ensures Inv(Spawn(s.(armed := false), Fired))
  {
    hide WindowFor, Calculate, Drainers, SomeoneTends, SomeoneRearms;
    Come(s.threads, Fired);
  }

  lemma RetryTimerKeeps(s: State)
    requires Inv(s)
    ensures Inv(Spawn(s.(retryArmed := false), RetryFired))
  {
    hide WindowFor, Calculate, Drainers, SomeoneTends, SomeoneRearms;
    Come(s.threads, RetryFired);
  }

  lemma FailKeeps(s: State)
    requires Inv(s)
    ensures Inv(Failed(s))
  {
    hide WindowFor, Calculate, Drainers, SomeoneTends, SomeoneRearms;
  }

  lemma CheckReadyKeeps(s: State)
    requires Inv(s) && Enqueued in s.threads
    ensures Inv(if s.ready then Move(s, Enqueued, Scheduling) else Exit(s, Enqueued))
  {
    hide WindowFor, Calculate, Drainers, SomeoneTends, SomeoneRearms;
    GoAndCome(s.threads, Enqueued, Scheduling);
    Go(s.threads, Enqueued);
  }

  lemma OpenKeeps(s: State)
    requires Inv(s) && Opened in s.threads
    ensures Inv(Move(s, Opened, Scheduling))
  {
    hide WindowFor, Calculate, Drainers, SomeoneTends, SomeoneRearms;
    GoAndCome(s.threads, Opened, Scheduling);
  }

  lemma ScheduleKeeps(s: State, at: Time)
    requires Inv(s) && Scheduling in s.threads
    ensures Inv(Exit(Scheduled(s, at), Scheduling))
  {
    hide WindowFor, Calculate, Drainers, SomeoneTends, SomeoneRearms;
    Go(s.threads, Scheduling);
  }

  lemma SampleKeeps(s: State, recalculate: bool, rtt: real)
    requires Inv(s) && Acked(recalculate) in s.threads && InBounds(rtt)
    ensures Inv(Move(Sampled(s, rtt), Acked(recalculate), if recalculate then Looks(ForAck) else Scheduling))
  {
    hide WindowFor, Calculate, Drainers, SomeoneTends, SomeoneRearms;
    GoAndCome(s.threads, Acked(recalculate), if recalculate then Looks(ForAck) else Scheduling);
  }

  /** A thread done with the retry timeout goes on: nothing waits, or the timeout is armed. */
  lemma ResumeKeeps(s: State, p: Pc, role: Role)
    requires Inv(s) && p in s.threads && (p == Looks(role) || p == Sets(role)) && (s.unacked == 0 || s.retryArmed)
    ensures Inv(Resume(s, p, role))
  {
    hide WindowFor, Calculate, Drainers, SomeoneTends, SomeoneRearms;
    match role {
      case ForAck => ResumeAck(s, p);
      case ForDrain => ResumeDrain(s, p);
      case _ => Go(s.threads, p);
    }
  }

  lemma ResumeAck(s: State, p: Pc)
    requires Inv(s) && p in s.threads && (p == Looks(ForAck) || p == Sets(ForAck)) && (s.unacked == 0 || s.retryArmed)
    ensures Inv(Move(s, p, Scheduling))
  {
    hide WindowFor, Calculate, Drainers, SomeoneTends, SomeoneRearms;
    GoAndCome(s.threads, p, Scheduling);
  }

  lemma ResumeDrain(s: State, p: Pc)
    requires Inv(s) && p in s.threads && (p == Looks(ForDrain) || p == Sets(ForDrain))
    requires s.unacked == 0 || s.retryArmed
    ensures Inv(Move(s, p, Checks))
  {
    hide WindowFor, Calculate, Drainers, SomeoneTends, SomeoneRearms;
    GoAndCome(s.threads, p, Checks);
  }

  lemma FoundKeeps(s: State, role: Role)
    requires Inv(s) && Looks(role) in s.threads
    ensures Inv(Move(s, Looks(role), Sets(role)))
  {
    hide WindowFor, Calculate, Drainers, SomeoneTends, SomeoneRearms;
    GoAndCome(s.threads, Looks(role), Sets(role));
  }

  lemma ArmedKeeps(s: State)
    requires Inv(s)
    ensures Inv(s.(retryArmed := true))
  {
    hide WindowFor, Calculate, Drainers, SomeoneTends, SomeoneRearms;
  }

  lemma EnterKeeps(s: State)
    requires Inv(s) && Fired in s.threads
    ensures Inv(if s.running then Exit(s, Fired) else Move(s.(when := None, running := true), Fired, Entered))
  {
    hide WindowFor, Calculate, Drainers, SomeoneTends, SomeoneRearms;
    Go(s.threads, Fired);
    GoAndCome(s.threads, Fired, Entered);
  }

  lemma CheckStatusKeeps(s: State)
    requires Inv(s) && Entered in s.threads
    ensures Inv(Move(s, Entered, if s.ready then Checks else Leaves))
  {
    hide WindowFor, Calculate, Drainers, SomeoneTends, SomeoneRearms;
    GoAndCome(s.threads, Entered, if s.ready then Checks else Leaves);
  }

  lemma CheckWindowKeeps(s: State)
    requires Inv(s) && Checks in s.threads
    ensures Inv(Move(s, Checks, if IsFull(s) then Leaves else Takes))
  {
    hide WindowFor, Calculate, Drainers, SomeoneTends, SomeoneRearms;
    GoAndCome(s.threads, Checks, if IsFull(s) then Leaves else Takes);
  }

  lemma TakeKeeps(s: State, amount: nat)
    requires Inv(s) && Takes in s.threads && amount <= s.queued
    ensures Inv(if s.queued == 0 then Move(s, Takes, Leaves) else Move(s.(queued := s.queued - amount), Takes, Holds))
  {
    hide WindowFor, Calculate, Drainers, SomeoneTends, SomeoneRearms;
    GoAndCome(s.threads, Takes, if s.queued == 0 then Leaves else Holds);
  }

  lemma InsertKeeps(s: State)
    requires Inv(s) && Holds in s.threads
    ensures Inv(if s.failed then Move(s, Holds, Checks)
                else Move(s.(unacked := s.unacked + 1), Holds, if s.unacked == 0 then Looks(ForDrain) else Checks))
  {
    hide WindowFor, Calculate, Drainers, SomeoneTends, SomeoneRearms;
    GoAndCome(s.threads, Holds, Checks);
    GoAndCome(s.threads, Holds, Looks(ForDrain));
  }

  lemma LeaveKeeps(s: State)
    requires Inv(s) && Leaves in s.threads
    ensures Inv(Exit(s.(running := false, armed := s.armed || s.when.Some?), Leaves))
  {
    hide WindowFor, Calculate, Drainers, SomeoneTends, SomeoneRearms;
    Go(s.threads, Leaves);
  }

  lemma LookKeeps(s: State, due: bool, exhausted: bool)
    requires Inv(s) && RetryFired in s.threads
    ensures Inv(if s.unacked == 0 then Exit(s, RetryFired)
                else if !due then Move(s, RetryFired, Looks(ForRetry))
                else if exhausted then Exit(Failed(s), RetryFired)
                else Move(s, RetryFired, Resending))
  {
    hide WindowFor, Calculate, Drainers, SomeoneTends, SomeoneRearms;
    Go(s.threads, RetryFired);
    GoAndCome(s.threads, RetryFired, Looks(ForRetry));
    GoAndCome(s.threads, RetryFired, Resending);
  }

  lemma SampleFailureKeeps(s: State, rtt: real)
    requires Inv(s) && Resending in s.threads && s.rtt <= rtt && InBounds(rtt) && WindowFor(rtt) <= WindowFor(s.rtt)
    ensures Inv(Move(Sampled(s, rtt), Resending, Looks(ForRetry)))
  {
    hide WindowFor, Calculate, Drainers, SomeoneTends, SomeoneRearms;
    GoAndCome(s.threads, Resending, Looks(ForRetry));
  }

  lemma NextKeeps(s: State, step: Step)
    requires Inv(s) && Enabled(s, step)
    ensures Inv(Next(s, step))
  {
    hide Inv, Next, Enabled;
    if Needs(step).None? {
      ArrivalKeeps(s, step);
    } else {
      ThreadKeeps(s, step);
    }
  }

  /** Steps that begin something. */
  lemma ArrivalKeeps(s: State, step: Step)
    requires Inv(s) && Enabled(s, step) && Needs(step).None?
    ensures Inv(Next(s, step))
  {
    hide Inv, Spawn, Move, Exit, Failed, Resume, Scheduled, Sampled, WindowFor, Calculate;
    match step {
      case Enqueue => EnqueueKeeps(s);
      case BecomeReady => ReadyKeeps(s);
      case Control(priority) => if !s.failed { ControlKeeps(s, priority); }
      case AckArrives(contained, recalculate) => if contained { AckKeeps(s, recalculate); } else { StrayAckKeeps(s); }
      case TimerFires => TimerKeeps(s);
      case RetryTimerFires => RetryTimerKeeps(s);
      case Fail => FailKeeps(s);
    }
  }

  /** Steps of a thread that is under way. */
  lemma ThreadKeeps(s: State, step: Step)
    requires Inv(s) && Enabled(s, step) && Needs(step).Some?
    ensures Inv(Next(s, step))
  {
    hide Inv, Spawn, Move, Exit, Failed, Resume, Scheduled, Sampled, WindowFor, Calculate;
    match step {
      case CheckReady => CheckReadyKeeps(s);
      case OpenSchedules => OpenKeeps(s);
      case Schedule(at) => ScheduleKeeps(s, at);
      case Sample(recalculate, sample) =>
        CalculateInBounds(s.rtt, sample);
        SampleKeeps(s, recalculate, Calculate(s.rtt, sample));
      case LookNext(role) => if s.unacked == 0 { ResumeKeeps(s, Looks(role), role); } else { FoundKeeps(s, role); }
      case SetTimeout(role) =>
        ArmedKeeps(s);
        ResumeKeeps(s.(retryArmed := true), Sets(role), role);
      case EnterProcess => EnterKeeps(s);
      case CheckStatus => CheckStatusKeeps(s);
      case CheckWindow => CheckWindowKeeps(s);
      case Take(amount) => TakeKeeps(s, if s.queued == 0 then 0 else amount);
      case Insert => InsertKeeps(s);
      case Leave => LeaveKeeps(s);
      case LookForRetry(due, exhausted) => LookKeeps(s, due, exhausted);
      case SampleFailure => ShrinkKeeps(s);
    }
  }

  lemma ShrinkKeeps(s: State)
    requires Inv(s) && Resending in s.threads
    ensures AfterFailure(s.rtt) > 0.0 && Inv(Move(Sampled(s, AfterFailure(s.rtt)), Resending, Looks(ForRetry)))
  {
    CalculateInBounds(s.rtt, MAXIMUM);
    FailureShrinks(s.rtt);
    SampleFailureKeeps(s, AfterFailure(s.rtt));
  }

  // ---- theorems ------------------------------------------------------------------------------------

  /** `t` is reached from `s` by the given steps, each enabled when it is taken. */
  ghost predicate Reaches(s: State, steps: seq<Step>, t: State)
    decreases |steps|
  {
    if steps == [] then t == s else Enabled(s, steps[0]) && Reaches(Next(s, steps[0]), steps[1..], t)
  }

  lemma {:induction false} ReachesKeeps(s: State, steps: seq<Step>, t: State)
    requires Inv(s) && Reaches(s, steps, t)
    ensures Inv(t)
    decreases |steps|
  {
    hide Inv, Next;
    if steps != [] {
      NextKeeps(s, steps[0]);
      ReachesKeeps(Next(s, steps[0]), steps[1..], t);
    }
  }

  lemma StartInv()
    ensures Inv(Start)
  {
    assert 2.0 / MAXIMUM == 2.0;
  }

  /** No stall, in every interleaving: a ready sender with queued data has a deadline, a full window, or a
  thread that is draining or about to schedule; a deadline outside a drain has its timeout armed or just
  gone off; and unacknowledged packets have the retry timeout armed or a thread about to arm it. */
  lemma NeverStalls(steps: seq<Step>, s: State)
    requires Reaches(Start, steps, s)
    ensures s.ready && s.queued > 0 ==>
              s.when.Some? || s.unacked >= s.windowSize || exists p :: p in s.threads && (WillSchedule(p) || Drains(p))
    ensures s.when.Some? && !s.running ==> s.armed || Fired in s.threads
    ensures s.unacked > 0 ==> s.retryArmed || exists p :: p in s.threads && WillRearm(p)
    ensures Drainers(s.threads) <= 1
  {
    StartInv();
    ReachesKeeps(Start, steps, s);
    assert SomeoneTends(s.threads) ==> exists p :: p in s.threads && Tends(p);
  }

  /** Until a drain takes it over, a deadline is only ever brought forward, and a request is never scheduled
  later than it asked. */
  lemma DeadlinesComeForward(s: State, step: Step)
    requires Enabled(s, step) && !step.EnterProcess?
    ensures var t := Next(s, step);
            && (s.when.Some? ==> t.when.Some? && t.when.value <= s.when.value)
            && (step.Schedule? ==> t.when.Some? && t.when.value <= step.at)
            && (t.when == s.when || (step.Schedule? && t.when == Some(step.at)))
  {
    if step.Schedule? {
      hide WindowFor, Calculate, Enabled, Needs;
    } else {
      hide Next, Enabled;
      if Needs(step).None? {
        ArrivalsKeepWhen(s, step);
      } else if step.LookNext? || step.SetTimeout? || step.Sample? || step.SampleFailure? {
        SettingKeepsWhen(s, step);
      } else {
        ThreadsKeepWhen(s, step);
      }
    }
  }

  lemma ArrivalsKeepWhen(s: State, step: Step)
    requires Enabled(s, step) && Needs(step).None?
    ensures Next(s, step).when == s.when
  {
    hide WindowFor, Calculate, Move, Exit, Resume;
  }

  lemma SettingKeepsWhen(s: State, step: Step)
    requires Enabled(s, step) && (step.LookNext? || step.SetTimeout? || step.Sample? || step.SampleFailure?)
    ensures Next(s, step).when == s.when
  {
    hide WindowFor, Calculate, Spawn, Resume;
    match step {
      case LookNext(role) => ResumeWhen(s, Looks(role), role);
      case SetTimeout(role) => ResumeWhen(s.(retryArmed := true), Sets(role), role);
      case Sample(_, sample) => CalculateInBounds(s.rtt, sample);
      case SampleFailure => CalculateInBounds(s.rtt, MAXIMUM);
    }
  }

  lemma ThreadsKeepWhen(s: State, step: Step)
    requires Enabled(s, step) && Needs(step).Some? && !step.EnterProcess? && !step.Schedule?
    requires !step.LookNext? && !step.SetTimeout? && !step.Sample? && !step.SampleFailure?
    ensures Next(s, step).when == s.when
  {
    hide WindowFor, Calculate, Spawn, Move, Exit, Resume, Sampled;
    match step {
      case CheckReady => MoveWhen(s, Enqueued, Scheduling);
      case OpenSchedules => MoveWhen(s, Opened, Scheduling);
      case CheckStatus => MoveWhen(s, Entered, if s.ready then Checks else Leaves);
      case CheckWindow => MoveWhen(s, Checks, if IsFull(s) then Leaves else Takes);
      case Take(amount) => TakeWhen(s, amount);
      case Insert => InsertWhen(s);
      case Leave => MoveWhen(s.(running := false, armed := s.armed || s.when.Some?), Leaves, Leaves);
      case LookForRetry(_, _) => LookWhen(s);
    }
  }

  lemma TakeWhen(s: State, amount: nat)
    requires s.queued > 0 ==> amount <= s.queued
    ensures Move(s, Takes, Leaves).when == s.when
    ensures s.queued > 0 ==> Move(s.(queued := s.queued - amount), Takes, Holds).when == s.when
  {
  }

  lemma InsertWhen(s: State)
    ensures Move(s, Holds, Checks).when == s.when
    ensures Move(s.(unacked := s.unacked + 1), Holds, if s.unacked == 0 then Looks(ForDrain) else Checks).when == s.when
  {
  }

  lemma LookWhen(s: State)
    ensures Exit(s, RetryFired).when == s.when && Exit(Failed(s), RetryFired).when == s.when
    ensures Move(s, RetryFired, Looks(ForRetry)).when == s.when && Move(s, RetryFired, Resending).when == s.when
  {
  }

  lemma ResumeWhen(s: State, p: Pc, role: Role)
    ensures Resume(s, p, role).when == s.when
  {
    hide Move, Exit;
    MoveWhen(s, p, Scheduling);
    MoveWhen(s, p, Checks);
  }

  lemma MoveWhen(s: State, p: Pc, q: Pc)
    ensures Move(s, p, q).when == s.when && Exit(s, p).when == s.when
  {
  }

  /** The earliest of the times, if there are any. */
  ghost function Earliest(ats: seq<Time>): (r: Option<Time>)
    ensures r.None? <==> ats == []
    ensures r.Some? ==> r.value in ats && forall at :: at in ats ==> r.value <= at
  {
    if ats == [] then None
    else
      var n := |ats| - 1;
      assert ats == ats[..n] + [ats[n]];
      var r := Earliest(ats[..n]);
      if r.Some? && r.value <= ats[n] then r else Some(ats[n])
  }

  lemma EarliestSnoc(ats: seq<Time>, at: Time)
    ensures var r := Earliest(ats);
            Earliest(ats + [at]) == if r.Some? && r.value <= at then r else Some(at)
  {
    assert (ats + [at])[..|ats|] == ats;
  }

  /** The times for which processing was requested since a drain last began, `ats` being those before the run. */
  ghost function Requested(s: State, ats: seq<Time>, steps: seq<Step>): seq<Time>
    decreases |steps|
  {
    if steps == [] || !Enabled(s, steps[0]) then ats
    else
      Requested(Next(s, steps[0]),
                match steps[0]
                case Schedule(at) => ats + [at]
                case EnterProcess => if s.running then ats else []
                case _ => ats,
                steps[1..])
  }

  /** In every interleaving the deadline is the earliest time requested since a drain last began, and there is none
  when nothing was requested: no request is lost, and none is served twice. */
  lemma {:induction false} DeadlineIsEarliest(s: State, ats: seq<Time>, steps: seq<Step>, t: State)
    requires Reaches(s, steps, t) && s.when == Earliest(ats)
    ensures t.when == Earliest(Requested(s, ats, steps))
    decreases |steps|
  {
    if steps != [] {
      var step := steps[0];
      if step.EnterProcess? {
        EnterWhen(s);
        hide Next, Enabled, Earliest;
        EarliestNothing();
        DeadlineIsEarliest(Next(s, step), if s.running then ats else [], steps[1..], t);
      } else {
        DeadlinesComeForward(s, step);
        hide Next, Enabled, Earliest;
        if step.Schedule? {
          EarliestSnoc(ats, step.at);
          DeadlineIsEarliest(Next(s, step), ats + [step.at], steps[1..], t);
        } else {
          DeadlineIsEarliest(Next(s, step), ats, steps[1..], t);
        }
      }
    }
  }

  lemma EnterWhen(s: State)
    requires Enabled(s, EnterProcess)
    ensures Next(s, EnterProcess).when == if s.running then s.when else None
  {
  }

  lemma EarliestNothing()
    ensures Earliest([]) == None
  {
  }

  /** The data a step adds to the queue or takes out of it, and the packets it puts in flight or takes out. */
  function Stored(s: State, step: Step): int {
    match step
    case Enqueue => 1
    case Take(amount) => if s.queued == 0 then 0 else 0 - amount
    case _ => 0
  }

  function Flown(step: Step): int {
    match step
    case Control(_) => 1
    case Insert => 1
    case AckArrives(contained, _) => if contained then -1 else 0
    case _ => 0
  }

  lemma StepConserves(s: State, step: Step)
    requires Enabled(s, step) && !Next(s, step).failed
    ensures !s.failed && Next(s, step).queued == s.queued + Stored(s, step)
    ensures Next(s, step).unacked == s.unacked + Flown(step)
  {
    hide Next, Enabled, Needs;
    if Needs(step).None? {
      ArrivalConserves(s, step);
    } else if step.LookNext? || step.SetTimeout? || step.Sample? || step.SampleFailure? {
      SettingConserves(s, step);
    } else {
      ThreadConserves(s, step);
    }
  }

  lemma ArrivalConserves(s: State, step: Step)
    requires Enabled(s, step) && Needs(step).None? && !Next(s, step).failed
    ensures !s.failed && Next(s, step).queued == s.queued + Stored(s, step)
    ensures Next(s, step).unacked == s.unacked + Flown(step)
  {
    hide WindowFor, Calculate, Move, Exit, Resume, Scheduled, Sampled;
  }

  /** Where threads stand plays no part in the accounts. */
  ghost predicate SameAccounts(s: State, t: State) {
    t.failed == s.failed && t.queued == s.queued && t.unacked == s.unacked
  }

  lemma MoveAccounts(s: State, p: Pc, q: Pc)
    ensures SameAccounts(s, Move(s, p, q)) && SameAccounts(s, Exit(s, p))
  {
  }

  lemma ResumeAccounts(s: State, p: Pc, role: Role)
    ensures SameAccounts(s, Resume(s, p, role))
  {
    hide Move, Exit, SameAccounts;
    MoveAccounts(s, p, Scheduling);
    MoveAccounts(s, p, Checks);
  }

  lemma SampleAccounts(s: State, rtt: real, p: Pc, q: Pc)
    requires rtt > 0.0
    ensures SameAccounts(s, Move(Sampled(s, rtt), p, q))
  {
    hide WindowFor;
  }

  lemma SettingConserves(s: State, step: Step)
    requires Enabled(s, step) && (step.LookNext? || step.SetTimeout? || step.Sample? || step.SampleFailure?)
    ensures SameAccounts(s, Next(s, step))
  {
    hide WindowFor, Calculate, Spawn, Scheduled, Resume, Move, Exit, Sampled;
    match step {
      case LookNext(role) =>
        ResumeAccounts(s, Looks(role), role);
        MoveAccounts(s, Looks(role), Sets(role));
      case SetTimeout(role) => ResumeAccounts(s.(retryArmed := true), Sets(role), role);
      case Sample(recalculate, sample) =>
        CalculateInBounds(s.rtt, sample);
        SampleAccounts(s, Calculate(s.rtt, sample), Acked(recalculate),
                       if recalculate then Looks(ForAck) else Scheduling);
      case SampleFailure =>
        CalculateInBounds(s.rtt, MAXIMUM);
        SampleAccounts(s, AfterFailure(s.rtt), Resending, Looks(ForRetry));
    }
  }

  lemma ThreadConserves(s: State, step: Step)
    requires Enabled(s, step) && Needs(step).Some? && !Next(s, step).failed
    requires !step.LookNext? && !step.SetTimeout? && !step.Sample? && !step.SampleFailure?
    ensures !s.failed && Next(s, step).queued == s.queued + Stored(s, step)
    ensures Next(s, step).unacked == s.unacked + Flown(step)
  {
    hide WindowFor, Calculate, Spawn, Resume, Sampled, Move, Exit;
    match step {
      case CheckReady => MoveAccounts(s, Enqueued, Scheduling);
      case OpenSchedules => MoveAccounts(s, Opened, Scheduling);
      case Schedule(at) => MoveAccounts(Scheduled(s, at), Scheduling, Scheduling);
      case EnterProcess =>
        MoveAccounts(s, Fired, Entered);
        MoveAccounts(s.(when := None, running := true), Fired, Entered);
      case CheckStatus => MoveAccounts(s, Entered, if s.ready then Checks else Leaves);
      case CheckWindow => MoveAccounts(s, Checks, if IsFull(s) then Leaves else Takes);
      case Take(amount) => TakeAccounts(s, amount);
      case Insert => InsertAccounts(s);
      case Leave => MoveAccounts(s.(running := false, armed := s.armed || s.when.Some?), Leaves, Leaves);
      case LookForRetry(_, _) => LookAccounts(s);
    }
  }

  lemma TakeAccounts(s: State, amount: nat)
    requires s.queued > 0 ==> amount <= s.queued
    ensures SameAccounts(s, Move(s, Takes, Leaves))
    ensures s.queued > 0 ==>
              SameAccounts(s.(queued := s.queued - amount), Move(s.(queued := s.queued - amount), Takes, Holds))
  {
  }

  lemma InsertAccounts(s: State)
    ensures SameAccounts(s, Move(s, Holds, Checks))
    ensures SameAccounts(s.(unacked := s.unacked + 1),
                         Move(s.(unacked := s.unacked + 1), Holds, if s.unacked == 0 then Looks(ForDrain) else Checks))
  {
  }

  lemma LookAccounts(s: State)
    ensures SameAccounts(s, Exit(s, RetryFired)) && Exit(Failed(s), RetryFired).failed
    ensures SameAccounts(s, Move(s, RetryFired, Looks(ForRetry))) && SameAccounts(s, Move(s, RetryFired, Resending))
  {
  }

  ghost function Balance(s: State, steps: seq<Step>): (r: (int, int))
    decreases |steps|
  {
    if steps == [] || !Enabled(s, steps[0]) then (0, 0)
    else
      var rest := Balance(Next(s, steps[0]), steps[1..]);
      (Stored(s, steps[0]) + rest.0, Flown(steps[0]) + rest.1)
  }

  /** Until a failure, in every interleaving, what is queued is what was enqueued less what was taken, and what is
  unacknowledged is what was sent less what was acknowledged. */
  lemma {:induction false} NothingVanishes(s: State, steps: seq<Step>, t: State)
    requires Reaches(s, steps, t) && !t.failed
    ensures !s.failed && t.queued == s.queued + Balance(s, steps).0 && t.unacked == s.unacked + Balance(s, steps).1
    decreases |steps|
  {
    hide Next, Enabled;
    if steps != [] {
      NothingVanishes(Next(s, steps[0]), steps[1..], t);
      StepConserves(s, steps[0]);
    }
  }

  /** When all threads are at rest, data that waits is waiting for a timeout that is armed. */
  lemma RestsOnlyOnTimers(steps: seq<Step>, s: State)
    requires Reaches(Start, steps, s) && s.threads == multiset{}
    ensures s.ready && s.queued > 0 ==> (s.when.Some? && s.armed) || (s.unacked > 0 && s.retryArmed)
    ensures s.unacked > 0 ==> s.retryArmed
    ensures !s.running
  {
    StartInv();
    ReachesKeeps(Start, steps, s);
    WindowBounds(s.rtt);
  }
}

/** The locked regions of one processing schedule. */
module ScheduleObjects {
  import opened Wire
  import opened Spec = Pacing

  class ProcessingSchedule {
    var when: Option<Time>
    var running: bool
    /** Whether the timeout is with the scheduler. */
    var armed: bool

    /** This schedule is the one of the given sender. */
    ghost predicate Is(s: State)
      reads this
    {
      s.when == when && s.running == running && s.armed == armed
    }

    constructor ()
      ensures Is(Start)
    {
      when, running, armed := None, false, false;
    }

    /** The locked region of `scheduleDataQueueProcessing`. */
    method RequestAt(at: Time, ghost s: State)
      requires Is(s) && Scheduling in s.threads
      modifies this
      ensures Is(Next(s, Schedule(at)))
    {
      if when == None || at < when.value {
        when := Some(at);
        if !running {
          armed := true;
        }
      }
    }

    /** The first locked region of `processSchedule`, entered by a timeout that has gone off. */
    method BeginProcess(ghost s: State) returns (entered: bool)
      requires Is(s) && Fired in s.threads
      modifies this
      ensures Is(Next(s, EnterProcess)) && entered == !old(running)
    {
      if running {
        return false;
      }
      when := None;
      running := true;
      return true;
    }

    /** The second locked region of `processSchedule`. */
    method EndProcess(ghost s: State)
      requires Is(s) && Leaves in s.threads && running
      modifies this
      ensures Is(Next(s, Leave))
    {
      running := false;
      if when.Some? {
        armed := true;
      }
    }
  }
}

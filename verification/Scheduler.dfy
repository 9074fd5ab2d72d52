/** Timeouts, their sorted queue and the one timer of the operating system (mrudp/Scheduler.cpp).

Time is counted in nanoseconds, as the steady clock does.
*/
module Schedulers {
  import opened Wire

  type TimeoutId = nat
  type Time = int

  const MS := 1_000_000
  const TIME_MIN := -0x8000_0000_0000_0000

  datatype Node = Node(when: Time, parent: TimeoutId)

  /** `held` are the timeouts that hold their own node, `timer` is the operating system's timer. `asked` is
  history: the time each queued timeout was last scheduled for. */
  datatype State = State(queue: seq<Node>, held: set<TimeoutId>, last: Time, timer: Option<Time>,
      asked: map<TimeoutId, Time>)

  const Start := State([], {}, TIME_MIN, None, map[])

  // ---- rounding --------------------------------------------------------------------------------

  /** `duration_cast<milliseconds>` truncates toward zero. */
  function Millis(t: Time): int {
    if t >= 0 then t / MS else -((-t) / MS)
  }

  /** The deadline `schedule_` computes. */
  function Deadline(at: Time, last: Time): Time {
    var ensureRuns := if at <= last then 1 else 0;
    var from := if at <= last then last else at;
    var milliseconds := (Millis(from) + ensureRuns) % 0x1_0000_0000_0000_0000;
    from + (10 - milliseconds % 10) * MS
  }

  function Max(a: int, b: int): int {
    if a < b then b else a
  }

  /** A deadline is strictly later than both the requested time and the last pass, by at most 10 ms. */
  lemma DeadlineBounds(at: Time, last: Time)
    ensures Max(at, last) < Deadline(at, last) <= Max(at, last) + 10 * MS
  {
  }

  /** Deadlines fall on the same grid of 10 ms, one millisecond early for a time that is already over; less than a
  millisecond is kept as it was asked for. */
  lemma DeadlineExact(at: Time, last: Time)
    requires 0 <= Max(at, last) < 0x8000_0000_0000_0000
    ensures var d := Deadline(at, last);
            && (d - Max(at, last)) % MS == 0
            && d / MS % 10 == if at <= last then 9 else 0
  {
    var from, early := Max(at, last), if at <= last then 1 else 0;
    var k := 10 - (from / MS + early) % 10;
    assert Deadline(at, last) == from + k * MS;
    assert (from + k * MS) / MS == from / MS + k && (k * MS) % MS == 0;
  }
  // ---- the queue -------------------------------------------------------------------------------

  ghost predicate Sorted(q: seq<Node>) {
    forall i, j :: 0 <= i < j < |q| ==> q[i].when <= q[j].when
  }

  ghost predicate Distinct(q: seq<Node>) {
    forall i, j :: 0 <= i < j < |q| ==> q[i].parent != q[j].parent
  }

  predicate Queued(q: seq<Node>, id: TimeoutId) {
    exists i :: 0 <= i < |q| && q[i].parent == id
  }

  /** `multiset::insert` of a node: behind all nodes that are not later. */
  function Insert(q: seq<Node>, n: Node): seq<Node> {
    if q == [] || n.when < q[0].when then [n] + q else [q[0]] + Insert(q[1..], n)
  }

  /** `extract` of the node a timeout points at. */
  function Extract(q: seq<Node>, id: TimeoutId): seq<Node> {
    if q == [] then [] else if q[0].parent == id then q[1..] else [q[0]] + Extract(q[1..], id)
  }

  predicate IsFirst(q: seq<Node>, id: TimeoutId) {
    q != [] && q[0].parent == id
  }

  // ---- operations ------------------------------------------------------------------------------

  datatype Op = Allocate(id: TimeoutId) | Free(id: TimeoutId) | Schedule(id: TimeoutId, at: Time)

  predicate Known(s: State, id: TimeoutId) {
    id in s.held || Queued(s.queue, id)
  }

  function ScheduleStep(s: State, id: TimeoutId, at: Time): State {
    var rest := Extract(s.queue, id);
    var queue := Insert(rest, Node(Deadline(at, s.last), id));
    var changed := IsFirst(s.queue, id) || IsFirst(queue, id);
    var timer := if changed && queue != [] then Some(queue[0].when) else s.timer;
    State(queue, s.held - {id}, s.last, timer, s.asked[id := at])
  }

  /** Operations on timeouts that do not exist, which the source leaves to its callers, change nothing. */
  function Apply(s: State, op: Op): State {
    match op
    case Allocate(id) => if Known(s, id) then s else s.(held := s.held + {id})
    case Free(id) => if Known(s, id) then s.(queue := Extract(s.queue, id), held := s.held - {id}) else s
    case Schedule(id, at) => if Known(s, id) then ScheduleStep(s, id, at) else s
  }

  function ApplyAll(s: State, ops: seq<Op>): State
    decreases |ops|
  {
    if ops == [] then s else ApplyAll(Apply(s, ops[0]), ops[1..])
  }

  // ---- invariants ------------------------------------------------------------------------------

  /** Each timeout is either queued, once, or holds its own node; a queued one is due after the time asked
  for and at most 10 ms late. */
  ghost predicate Inv(s: State) {
    && Sorted(s.queue) && Distinct(s.queue)
    && (forall n :: n in s.queue ==> n.parent !in s.held && Timely(s, n))
  }

  ghost predicate Timely(s: State, n: Node) {
    n.parent in s.asked && s.asked[n.parent] < n.when <= Max(s.asked[n.parent], s.last) + 10 * MS
  }

  /** The timer goes off no later than the earliest deadline. */
  ghost predicate Wakes(s: State) {
    s.queue != [] ==> s.timer.Some? && s.timer.value <= s.queue[0].when
  }

  lemma {:induction false} InsertMembers(q: seq<Node>, n: Node)
    ensures forall m :: m in Insert(q, n) <==> m == n || m in q
    ensures |Insert(q, n)| == |q| + 1
  {
    if q != [] && n.when >= q[0].when {
      InsertMembers(q[1..], n);
    }
  }

  /** A node goes behind all that are not later and before all that are. */
  lemma {:induction false} InsertExact(q: seq<Node>, n: Node) returns (i: nat)
    requires Sorted(q)
    ensures i <= |q| && Insert(q, n) == q[..i] + [n] + q[i..]
    ensures forall m :: m in q[..i] ==> m.when <= n.when
    ensures forall m :: m in q[i..] ==> n.when < m.when
  {
    if q == [] || n.when < q[0].when {
      i := 0;
    } else {
      var j := InsertExact(q[1..], n);
      i := j + 1;
      assert q[..i] == [q[0]] + q[1..][..j] && q[i..] == q[1..][j..];
    }
  }

  lemma ConsSorted(n: Node, q: seq<Node>)
    requires Sorted(q) && forall m :: m in q ==> n.when <= m.when
    ensures Sorted([n] + q)
  {
  }

  lemma ConsDistinct(n: Node, q: seq<Node>)
    requires Distinct(q) && forall m :: m in q ==> n.parent != m.parent
    ensures Distinct([n] + q)
  {
  }

  /** The first node of a sorted queue without repetition, and the rest of it. */
  lemma Uncons(q: seq<Node>)
    requires q != []
    ensures q == [q[0]] + q[1..]
    ensures Sorted(q) ==> Sorted(q[1..]) && forall m :: m in q[1..] ==> q[0].when <= m.when
    ensures Distinct(q) ==> Distinct(q[1..]) && forall m :: m in q[1..] ==> q[0].parent != m.parent
  {
  }

  lemma QueuedMember(q: seq<Node>, id: TimeoutId)
    ensures Queued(q, id) <==> exists m :: m in q && m.parent == id
  {
    if m :| m in q && m.parent == id {
      var i :| 0 <= i < |q| && q[i] == m;
      assert Queued(q, id);
    }
  }

  lemma {:induction false} InsertKeeps(q: seq<Node>, n: Node)
    requires Sorted(q) && Distinct(q) && forall m :: m in q ==> n.parent != m.parent
    ensures Sorted(Insert(q, n)) && Distinct(Insert(q, n))
  {
    hide Sorted, Distinct;
    if q == [] || n.when < q[0].when {
      if q != [] {
        Uncons(q);
      }
      ConsSorted(n, q);
      ConsDistinct(n, q);
    } else {
      Uncons(q);
      InsertKeeps(q[1..], n);
      InsertMembers(q[1..], n);
      ConsSorted(q[0], Insert(q[1..], n));
      ConsDistinct(q[0], Insert(q[1..], n));
    }
  }

  lemma {:induction false} ExtractMembers(q: seq<Node>, id: TimeoutId)
    requires Distinct(q)
    ensures forall m :: m in Extract(q, id) <==> m in q && m.parent != id
  {
    hide Distinct, Sorted;
    if q != [] {
      Uncons(q);
      if q[0].parent != id {
        ExtractMembers(q[1..], id);
      }
    }
  }

  /** Extraction keeps the rest in order. */
  lemma {:induction false} ExtractKeeps(q: seq<Node>, id: TimeoutId)
    requires Sorted(q) && Distinct(q)
    ensures Sorted(Extract(q, id)) && Distinct(Extract(q, id))
  {
    hide Sorted, Distinct;
    if q != [] {
      Uncons(q);
      if q[0].parent != id {
        ExtractKeeps(q[1..], id);
        ExtractMembers(q[1..], id);
        ConsSorted(q[0], Extract(q[1..], id));
        ConsDistinct(q[0], Extract(q[1..], id));
      }
    } else {
      assert Extract(q, id) == q;
    }
  }

  // ---- every operation keeps the invariants ------------------------------------------------------

  lemma ScheduleMembers(s: State, id: TimeoutId, at: Time)
    requires Inv(s)
    ensures var t := ScheduleStep(s, id, at);
            forall m :: m in t.queue <==> m == Node(Deadline(at, s.last), id) || (m in s.queue && m.parent != id)
    ensures ScheduleStep(s, id, at).queue != []
  {
    hide Sorted, Deadline;
    ExtractMembers(s.queue, id);
    InsertMembers(Extract(s.queue, id), Node(Deadline(at, s.last), id));
  }

  lemma ScheduleKeeps(s: State, id: TimeoutId, at: Time)
    requires Inv(s)
    ensures Inv(ScheduleStep(s, id, at))
  {
    ScheduleMembers(s, id, at);
    hide Sorted, Distinct, Deadline, Extract, Insert;
    ExtractMembers(s.queue, id);
    ExtractKeeps(s.queue, id);
    InsertKeeps(Extract(s.queue, id), Node(Deadline(at, s.last), id));
    DeadlineBounds(at, s.last);
    var t := ScheduleStep(s, id, at);
    forall n | n in t.queue
      ensures n.parent !in t.held && Timely(t, n)
    {
      if n.parent != id {
        assert n in s.queue && Timely(s, n);
      }
    }
  }

  lemma FirstIsEarliest(q: seq<Node>)
    requires Sorted(q) && q != []
    ensures forall m :: m in q ==> q[0].when <= m.when
  {
  }

  /** If scheduling touched neither the old nor the new front, the front is the same node as before. */
  lemma ScheduleFront(q: seq<Node>, id: TimeoutId, n: Node)
    requires q != [] && q[0].parent != id && n.parent == id && !IsFirst(Insert(Extract(q, id), n), id)
    ensures Insert(Extract(q, id), n)[0] == q[0]
  {
  }

  lemma ScheduleWakes(s: State, id: TimeoutId, at: Time)
    requires Inv(s) && Wakes(s)
    ensures Wakes(ScheduleStep(s, id, at))
  {
    ScheduleMembers(s, id, at);
    hide Sorted, Distinct, Deadline;
    var n := Node(Deadline(at, s.last), id);
    if s.queue != [] && !IsFirst(s.queue, id) && !IsFirst(ScheduleStep(s, id, at).queue, id) {
      ScheduleFront(s.queue, id, n);
    }
  }

  /** While the timer is set for exactly the earliest deadline, scheduling keeps it so, in both directions. */
  lemma ScheduleTight(s: State, id: TimeoutId, at: Time)
    requires Inv(s) && (s.queue != [] ==> s.timer == Some(s.queue[0].when))
    ensures var t := ScheduleStep(s, id, at);
            t.queue != [] && t.timer == Some(t.queue[0].when)
  {
    ScheduleMembers(s, id, at);
    hide Sorted, Distinct, Deadline;
    var n := Node(Deadline(at, s.last), id);
    if s.queue != [] && !IsFirst(s.queue, id) && !IsFirst(ScheduleStep(s, id, at).queue, id) {
      ScheduleFront(s.queue, id, n);
    }
  }

  lemma FreeKeeps(s: State, id: TimeoutId)
    requires Inv(s)
    ensures Inv(Apply(s, Free(id))) && (Wakes(s) ==> Wakes(Apply(s, Free(id))))
  {
    ExtractMembers(s.queue, id);
    ExtractKeeps(s.queue, id);
    var q := Extract(s.queue, id);
    if s.queue != [] {
      FirstIsEarliest(s.queue);
      assert q != [] ==> q[0] in q && q[0] in s.queue;
    }
  }

  lemma ApplyKeeps(s: State, op: Op)
    requires Inv(s)
    ensures Inv(Apply(s, op)) && (Wakes(s) ==> Wakes(Apply(s, op)))
  {
    match op {
      case Allocate(id) =>
        QueuedMember(s.queue, id);
      case Free(id) =>
        FreeKeeps(s, id);
      case Schedule(id, at) =>
        ScheduleKeeps(s, id, at);
        if Wakes(s) {
          ScheduleWakes(s, id, at);
        }
    }
  }

  // ---- one pass --------------------------------------------------------------------------------

  /** The nodes a pass at `now` would run. */
  function Due(q: seq<Node>, now: Time): nat {
    if q == [] then 0 else (if q[0].when < now then 1 else 0) + Due(q[1..], now)
  }

  predicate FrontIsDue(s: State, now: Time) {
    s.queue != [] && s.queue[0].when < now
  }

  /** Taking the front node out and giving it back to its timeout. */
  function PopFront(s: State): State
    requires s.queue != []
  {
    s.(queue := s.queue[1..], held := s.held + {s.queue[0].parent})
  }

  lemma {:induction false} DueInsert(q: seq<Node>, n: Node, now: Time)
    ensures Due(Insert(q, n), now) == Due(q, now) + (if n.when < now then 1 else 0)
  {
    if q == [] || n.when < q[0].when {
      assert ([n] + q)[1..] == q;
    } else {
      DueInsert(q[1..], n, now);
      assert ([q[0]] + Insert(q[1..], n))[1..] == Insert(q[1..], n);
    }
  }

  lemma {:induction false} DueExtract(q: seq<Node>, id: TimeoutId, now: Time)
    ensures Due(Extract(q, id), now) <= Due(q, now)
  {
    if q != [] && q[0].parent != id {
      DueExtract(q[1..], id, now);
      assert ([q[0]] + Extract(q[1..], id))[1..] == Extract(q[1..], id);
    }
  }

  /** Nothing becomes due, whatever is scheduled or freed: every due node of `t` was in `s`. */
  ghost predicate NoNewDue(s: State, t: State, now: Time) {
    && t.last == s.last && Due(t.queue, now) <= Due(s.queue, now)
    && (forall m :: m in t.queue && m.when < now ==> m in s.queue)
  }

  lemma ApplyNoNewDue(s: State, op: Op, now: Time)
    requires Inv(s) && now <= s.last
    ensures NoNewDue(s, Apply(s, op), now)
  {
    hide Sorted, Deadline;
    match op {
      case Allocate(_) =>
      case Free(id) =>
        ExtractMembers(s.queue, id);
        DueExtract(s.queue, id, now);
      case Schedule(id, at) =>
        ScheduleMembers(s, id, at);
        DeadlineBounds(at, s.last);
        DueExtract(s.queue, id, now);
        DueInsert(Extract(s.queue, id), Node(Deadline(at, s.last), id), now);
    }
  }

  lemma {:induction false} ApplyAllKeeps(s: State, ops: seq<Op>, now: Time)
    requires Inv(s) && now <= s.last
    ensures Inv(ApplyAll(s, ops)) && NoNewDue(s, ApplyAll(s, ops), now)
    decreases |ops|
  {
    if ops != [] {
      hide Apply;
      ApplyKeeps(s, ops[0]);
      ApplyNoNewDue(s, ops[0], now);
      ApplyAllKeeps(Apply(s, ops[0]), ops[1..], now);
    }
  }

  lemma PopFrontKeeps(s: State, now: Time)
    requires Inv(s) && FrontIsDue(s, now)
    ensures Inv(PopFront(s)) && Due(PopFront(s).queue, now) == Due(s.queue, now) - 1
  {
    Uncons(s.queue);
  }

  /** One turn of the loop, whatever the callback and other threads do meanwhile. */
  lemma TurnKeeps(s: State, now: Time, ops: seq<Op>)
    requires Inv(s) && s.last == now && FrontIsDue(s, now)
    ensures var t := ApplyAll(PopFront(s), ops);
            Inv(t) && NoNewDue(PopFront(s), t, now) && Due(t.queue, now) < Due(s.queue, now)
  {
    PopFrontKeeps(s, now);
    ApplyAllKeeps(PopFront(s), ops, now);
  }

  /** `process_`: runs due timeouts from the front, earliest first. `env(k)` is whatever is done to the
  scheduler while the k-th callback runs, by that callback or by any other thread. The measure shows that
  the loop ends in every environment. */
  function Pass(s: State, now: Time, env: nat -> seq<Op>, k: nat): (r: (State, seq<Node>))
    requires Inv(s) && s.last == now
    decreases Due(s.queue, now)
  {
    if FrontIsDue(s, now) then
      TurnKeeps(s, now, env(k));
      var (u, ran) := Pass(ApplyAll(PopFront(s), env(k)), now, env, k + 1);
      (u, [s.queue[0]] + ran)
    else (s, [])
  }

  /** A pass runs each timeout at most once, in order of deadlines, each strictly after the time it was
  asked for; it leaves nothing due. */
  lemma {:induction false} PassLaws(s: State, now: Time, env: nat -> seq<Op>, k: nat)
    requires Inv(s) && s.last == now
    ensures var (u, ran) := Pass(s, now, env, k);
            && Inv(u) && u.last == now && !FrontIsDue(u, now)
            && Sorted(ran) && Distinct(ran)
            && (forall n :: n in ran ==> n in s.queue && n.when < now && s.asked[n.parent] < n.when)
    decreases Due(s.queue, now)
  {
    hide Sorted, Distinct, ApplyAll;
    if FrontIsDue(s, now) {
      TurnKeeps(s, now, env(k));
      var t := ApplyAll(PopFront(s), env(k));
      PassLaws(t, now, env, k + 1);
      var (u, ran) := Pass(t, now, env, k + 1);
      Uncons(s.queue);
      forall n | n in ran
        ensures n in s.queue[1..]
      {
        assert n in t.queue && n in PopFront(s).queue;
      }
      ConsSorted(s.queue[0], ran);
      ConsDistinct(s.queue[0], ran);
      assert s.queue[0] in s.queue;
    } else {
      SortedNothing();
    }
  }

  lemma SortedNothing()
    ensures Sorted([]) && Distinct([])
  {
  }

  /** Left alone, a pass runs exactly the due nodes: those of the queue's front, all of them. */
  lemma {:induction false} PassRunsAllDue(s: State, now: Time, env: nat -> seq<Op>, k: nat)
    requires Inv(s) && s.last == now && forall j :: env(j) == []
    ensures var (u, ran) := Pass(s, now, env, k);
            ran + u.queue == s.queue && |ran| == Due(s.queue, now)
    decreases Due(s.queue, now)
  {
    hide Inv, Pass, Due, ApplyAll;
    PassUnfold(s, now, env, k);
    if FrontIsDue(s, now) {
      ApplyNothing(PopFront(s));
      PopFrontKeeps(s, now);
      PassRunsAllDue(PopFront(s), now, env, k + 1);
      var later := Pass(PopFront(s), now, env, k + 1);
      assert s.queue == [s.queue[0]] + s.queue[1..];
      assert [s.queue[0]] + (later.1 + later.0.queue) == [s.queue[0]] + later.1 + later.0.queue;
    } else {
      RestsNow(s, now);
    }
  }

  lemma ApplyNothing(s: State)
    ensures ApplyAll(s, []) == s
  {
  }

  lemma RestsNow(s: State, now: Time)
    requires Inv(s) && !FrontIsDue(s, now)
    ensures Due(s.queue, now) == 0
  {
    NothingDue(s.queue, now);
  }

  lemma {:induction false} NothingDue(q: seq<Node>, now: Time)
    requires Sorted(q) && (q == [] || q[0].when >= now)
    ensures Due(q, now) == 0
  {
    if q != [] {
      Uncons(q);
      assert |q| > 1 ==> q[1] in q[1..];
      NothingDue(q[1..], now);
    }
  }

  // ---- process ---------------------------------------------------------------------------------

  /** The state a pass at `now` ends in. */
  function AfterPass(s: State, now: Time, env: nat -> seq<Op>): State
    requires Inv(s) && s.last <= now
  {
    LaterLast(s, now);
    Pass(s.(last := now, timer := None), now, env, 0).0
  }

  /** The timer goes off and `process` runs at `now`. The timer is set for the front the pass saw, but only after
  the lock was released: `gap` is whatever other threads do in between. */
  function Fire(s: State, now: Time, env: nat -> seq<Op>, gap: seq<Op>): State
    requires Inv(s) && s.last <= now
  {
    var u := AfterPass(s, now, env);
    var v := ApplyAll(u, gap);
    if u.queue == [] then v else v.(timer := Some(u.queue[0].when))
  }

  lemma LaterLast(s: State, now: Time)
    requires Inv(s) && s.last <= now
    ensures Inv(s.(last := now, timer := None))
  {
    var t := s.(last := now, timer := None);
    assert forall n :: n in s.queue && Timely(s, n) ==> Timely(t, n);
  }

  // ---- the gap between a pass and its timer ------------------------------------------------------

  /** An operation that moves or removes the node of `id`. */
  predicate Touches(op: Op, id: TimeoutId) {
    !op.Allocate? && op.id == id
  }

  /** The k-th operation schedules a timeout that exists, and no later one touches it. */
  ghost predicate Lasts(u: State, ops: seq<Op>, k: nat) {
    && k < |ops| && ops[k].Schedule?
    && Known(ApplyAll(u, ops[..k]), ops[k].id)
    && forall j :: k < j < |ops| ==> !Touches(ops[j], ops[k].id)
  }

  /** Every schedule that lasts is for the front the pass saw, or later. */
  ghost predicate GapSafe(u: State, ops: seq<Op>) {
    u.queue != [] ==> forall k: nat :: Lasts(u, ops, k) ==> u.queue[0].when <= Deadline(ops[k].at, u.last)
  }

  lemma {:induction false} ApplyAllSnoc(s: State, ops: seq<Op>, op: Op)
    ensures ApplyAll(s, ops + [op]) == Apply(ApplyAll(s, ops), op)
    decreases |ops|
  {
    hide Apply;
    if ops == [] {
      assert [] + [op] == [op] && [op][1..] == [];
      assert ApplyAll(Apply(s, op), []) == Apply(s, op);
    } else {
      assert (ops + [op])[1..] == ops[1..] + [op];
      ApplyAllSnoc(Apply(s, ops[0]), ops[1..], op);
    }
  }

  /** The last of several operations, and what lasts up to then. */
  lemma LastsSnoc(u: State, ops: seq<Op>, op: Op, k: nat)
    ensures k < |ops| ==> (Lasts(u, ops + [op], k) <==> Lasts(u, ops, k) && !Touches(op, ops[k].id))
    ensures k == |ops| ==> (Lasts(u, ops + [op], k) <==> op.Schedule? && Known(ApplyAll(u, ops), op.id))
  {
    hide ApplyAll, Known;
    var all := ops + [op];
    if k < |ops| {
      assert all[..k] == ops[..k] && all[k] == ops[k] && all[|ops|] == op;
      assert forall j :: k < j < |ops| ==> all[j] == ops[j];
    } else if k == |ops| {
      assert all[..k] == ops;
    }
  }

  /** What one operation does to the nodes of the queue. */
  lemma ApplyMembers(s: State, op: Op)
    requires Inv(s)
    ensures var t := Apply(s, op);
            && t.last == s.last
            && (forall m :: m in t.queue ==>
                m in s.queue || (op.Schedule? && Known(s, op.id) && m == Node(Deadline(op.at, s.last), op.id)))
            && (forall m :: m in s.queue && !Touches(op, m.parent) ==> m in t.queue)
            && (forall m :: m in t.queue && op.Free? ==> m.parent != op.id || !Known(s, op.id))
            && (op.Schedule? && Known(s, op.id) ==>
                  Node(Deadline(op.at, s.last), op.id) in t.queue &&
                  forall m :: m in t.queue && m.parent == op.id ==> m == Node(Deadline(op.at, s.last), op.id))
  {
    hide Deadline, Sorted;
    match op {
      case Allocate(_) =>
      case Free(id) => ExtractMembers(s.queue, id);
      case Schedule(id, at) => ScheduleMembers(s, id, at);
    }
  }

  /** The node the k-th operation put into the queue. */
  function PutBy(u: State, ops: seq<Op>, k: nat): Node
    requires k < |ops| && ops[k].Schedule?
  {
    Node(Deadline(ops[k].at, u.last), ops[k].id)
  }

  /** The queue after the gap: every node was there before or was put there by a schedule that lasts, and all of
  the latter are there. */
  ghost predicate Placed(u: State, ops: seq<Op>, v: State) {
    && v.last == u.last
    && (forall k: nat :: Lasts(u, ops, k) ==> PutBy(u, ops, k) in v.queue)
    && (forall m :: m in v.queue ==> m in u.queue || exists k: nat :: Lasts(u, ops, k) && m == PutBy(u, ops, k))
  }

  lemma PlacedStep(u: State, ops: seq<Op>, op: Op, v: State)
    requires Inv(v) && v == ApplyAll(u, ops) && Placed(u, ops, v)
    ensures Placed(u, ops + [op], Apply(v, op))
  {
    ApplyMembers(v, op);
    hide ApplyAll, Apply, Known, Deadline, Inv, Lasts;
    var all, w := ops + [op], Apply(v, op);
    forall k: nat | Lasts(u, all, k)
      ensures PutBy(u, all, k) in w.queue
    {
      LastsSnoc(u, ops, op, k);
      LastsBounds(u, all, k);
      if k < |ops| {
        assert PutBy(u, all, k) == PutBy(u, ops, k);
      }
    }
    forall m | m in w.queue
      ensures m in u.queue || exists k: nat :: Lasts(u, all, k) && m == PutBy(u, all, k)
    {
      PlacedNode(u, ops, op, v, m);
    }
  }

  lemma LastsBounds(u: State, ops: seq<Op>, k: nat)
    requires Lasts(u, ops, k)
    ensures k < |ops| && ops[k].Schedule?
  {
  }

  /** A node of the new queue that was not there before the gap. */
  lemma PlacedNode(u: State, ops: seq<Op>, op: Op, v: State, m: Node)
    requires Inv(v) && v == ApplyAll(u, ops) && Placed(u, ops, v) && m in Apply(v, op).queue
    ensures m in u.queue || exists k: nat :: Lasts(u, ops + [op], k) && m == PutBy(u, ops + [op], k)
  {
    ApplyMembers(v, op);
    hide ApplyAll, Apply, Deadline, Lasts;
    var all := ops + [op];
    if op.Schedule? && Known(v, op.id) && m.parent == op.id {
      LastsSnoc(u, ops, op, |ops|);
      assert m == PutBy(u, all, |ops|);
    } else if m !in u.queue {
      assert m in v.queue;
      var k: nat :| Lasts(u, ops, k) && m == PutBy(u, ops, k);
      LastsBounds(u, ops, k);
      LastsSnoc(u, ops, op, k);
      QueuedMember(v.queue, m.parent);
      assert Known(v, m.parent);
      assert m == PutBy(u, all, k);
    }
  }

  lemma {:induction false} GapPlaces(u: State, ops: seq<Op>)
    requires Inv(u)
    ensures Inv(ApplyAll(u, ops)) && Placed(u, ops, ApplyAll(u, ops))
    decreases |ops|
  {
    hide Inv, Apply;
    if ops == [] {
      assert ApplyAll(u, ops) == u;
    } else {
      var n := |ops| - 1;
      assert ops == ops[..n] + [ops[n]];
      GapPlaces(u, ops[..n]);
      PlacedStep(u, ops[..n], ops[n], ApplyAll(u, ops[..n]));
      ApplyKeeps(ApplyAll(u, ops[..n]), ops[n]);
      ApplyAllSnoc(u, ops[..n], ops[n]);
    }
  }

  lemma {:induction false} GapWakes(u: State, ops: seq<Op>)
    requires Inv(u) && Wakes(u)
    ensures Wakes(ApplyAll(u, ops))
    decreases |ops|
  {
    if ops != [] {
      hide Apply, Inv, Wakes;
      ApplyKeeps(u, ops[0]);
      GapWakes(Apply(u, ops[0]), ops[1..]);
    }
  }

  /** `process` sets the timer only after it has released the lock. Whatever is allocated, freed and scheduled in
  that gap, the wake-up of the earliest timeout is kept exactly when every schedule that lasts is for the front
  the pass saw, or later. */
  lemma GapExact(u: State, ops: seq<Op>)
    requires Inv(u) && u.queue != []
    ensures Wakes(ApplyAll(u, ops).(timer := Some(u.queue[0].when))) <==> GapSafe(u, ops)
  {
    GapPlaces(u, ops);
    var v := ApplyAll(u, ops);
    hide ApplyAll, Deadline, Lasts;
    FirstIsEarliest(u.queue);
    if v.queue != [] {
      FirstIsEarliest(v.queue);
      assert v.queue[0] in v.queue;
    }
    forall k: nat | Lasts(u, ops, k)
      ensures k < |ops| && ops[k].Schedule? && PutBy(u, ops, k) in v.queue
    {
      LastsBounds(u, ops, k);
    }
  }

  // ---- whole runs --------------------------------------------------------------------------------

  datatype Event = Do(op: Op) | Tick(now: Time, env: nat -> seq<Op>, gap: seq<Op>)

  /** Runs of a steady clock: passes happen at times that never go back. */
  ghost predicate Runs(s: State, events: seq<Event>, t: State)
    decreases |events|
  {
    if events == [] then t == s
    else match events[0]
      case Do(op) => Runs(Apply(s, op), events[1..], t)
      case Tick(now, env, gap) => Inv(s) && s.last <= now && Runs(Fire(s, now, env, gap), events[1..], t)
  }

  /** Whether the timer can be relied on at the end of a run: the gap of the last pass was safe, or there was no
  pass and it could be relied on before. */
  ghost predicate Settled(s: State, events: seq<Event>, before: bool)
    decreases |events|
  {
    if events == [] then before
    else match events[0]
      case Do(op) => Settled(Apply(s, op), events[1..], before)
      case Tick(now, env, gap) =>
        Inv(s) && s.last <= now && Settled(Fire(s, now, env, gap), events[1..], GapSafe(AfterPass(s, now, env), gap))
  }

  lemma {:induction false} RunsWake(s: State, events: seq<Event>, t: State, before: bool)
    requires Inv(s) && (before ==> Wakes(s)) && Runs(s, events, t)
    ensures Inv(t) && (Settled(s, events, before) ==> Wakes(t))
    decreases |events|
  {
    hide Inv, Apply, Fire, Wakes, GapSafe;
    if events != [] {
      match events[0] {
        case Do(op) =>
          ApplyKeeps(s, op);
          RunsWake(Apply(s, op), events[1..], t, before);
        case Tick(now, env, gap) =>
          FireExact(s, now, env, gap);
          RunsWake(Fire(s, now, env, gap), events[1..], t, GapSafe(AfterPass(s, now, env), gap));
      }
    }
  }

  /** In every run, outside a pass, a timeout that exists is queued once or holds its node, and one that is queued is
  due at most 10 ms after the time asked for. And unless the gap of the last pass was unsafe, the timer is set no
  later than the earliest deadline: a lost wake-up is made good by the next pass. */
  lemma RunsKeep(s: State, events: seq<Event>, t: State, before: bool)
    requires Inv(s) && (before ==> Wakes(s)) && Runs(s, events, t)
    ensures Inv(t) && (Settled(s, events, before) ==> Wakes(t))
    ensures forall id :: (id in t.held || Queued(t.queue, id)) <==> Lives(Known(s, id), Performed(s, events), id)
  {
    hide Inv, Runs, Settled, Wakes, Lives, Performed;
    RunsWake(s, events, t, before);
    forall id: TimeoutId
      ensures (id in t.held || Queued(t.queue, id)) <==> Lives(Known(s, id), Performed(s, events), id)
    {
      RunsKnow(s, events, t, id);
    }
  }

  lemma AfterPassKeeps(s: State, now: Time, env: nat -> seq<Op>)
    requires Inv(s) && s.last <= now
    ensures Inv(AfterPass(s, now, env))
  {
    LaterLast(s, now);
    PassLaws(s.(last := now, timer := None), now, env, 0);
  }

  /** A pass leaves the timer early enough exactly when its gap was safe. */
  lemma FireExact(s: State, now: Time, env: nat -> seq<Op>, gap: seq<Op>)
    requires Inv(s) && s.last <= now
    ensures Inv(Fire(s, now, env, gap))
    ensures Wakes(Fire(s, now, env, gap)) <==> GapSafe(AfterPass(s, now, env), gap)
  {
    AfterPassKeeps(s, now, env);
    var u := AfterPass(s, now, env);
    GapPlaces(u, gap);
    hide AfterPass, ApplyAll, Lasts;
    if u.queue == [] {
      GapWakes(u, gap);
    } else {
      GapExact(u, gap);
      TimerFree(ApplyAll(u, gap), Fire(s, now, env, gap));
    }
  }

  /** The timer plays no part in the queue's invariant. */
  lemma TimerFree(s: State, t: State)
    requires Inv(s) && t == s.(timer := t.timer)
    ensures Inv(t)
  {
    assert forall n :: n in s.queue && Timely(s, n) ==> Timely(t, n);
  }

  /** One turn of a pass. */
  lemma PassUnfold(s: State, now: Time, env: nat -> seq<Op>, k: nat)
    requires Inv(s) && s.last == now
    ensures !FrontIsDue(s, now) ==> Pass(s, now, env, k) == (s, [])
    ensures FrontIsDue(s, now) ==>
              var t := ApplyAll(PopFront(s), env(k));
              && Inv(t) && t.last == now
              && Pass(s, now, env, k).0 == Pass(t, now, env, k + 1).0
              && Pass(s, now, env, k).1 == [s.queue[0]] + Pass(t, now, env, k + 1).1
  {
    if FrontIsDue(s, now) {
      TurnKeeps(s, now, env(k));
    }
  }

  // ---- no timeout is lost --------------------------------------------------------------------------

  /** The timeout was allocated and has not been freed since. */
  ghost predicate Allocated(ops: seq<Op>, id: TimeoutId) {
    exists k :: 0 <= k < |ops| && ops[k] == Allocate(id) && Free(id) !in ops[k..]
  }

  /** Whether a timeout exists after the operations: it was allocated and not freed since, or it existed before and
  was never freed. */
  ghost predicate Lives(before: bool, ops: seq<Op>, id: TimeoutId) {
    (before && Free(id) !in ops) || Allocated(ops, id)
  }

  lemma LivesSnoc(before: bool, ops: seq<Op>, op: Op, id: TimeoutId)
    ensures Lives(before, ops + [op], id) <==> op == Allocate(id) || (op != Free(id) && Lives(before, ops, id))
  {
    var all := ops + [op];
    assert all[|ops|] == op && all[|ops|..] == [op];
    forall k | 0 <= k < |ops|
      ensures all[k] == ops[k] && all[k..] == ops[k..] + [op]
    {
    }
    if op != Free(id) && Lives(before, ops, id) && !(before && Free(id) !in ops) {
      var k :| 0 <= k < |ops| && ops[k] == Allocate(id) && Free(id) !in ops[k..];
      assert all[k] == Allocate(id) && Free(id) !in all[k..];
    }
  }

  lemma {:induction false} LivesAppend(before: bool, a: seq<Op>, b: seq<Op>, id: TimeoutId)
    ensures Lives(before, a + b, id) <==> Lives(Lives(before, a, id), b, id)
    decreases |b|
  {
    hide Lives;
    if b == [] {
      assert a + b == a;
      LivesNothing(Lives(before, a, id), id);
    } else {
      var n := |b| - 1;
      assert a + b == a + b[..n] + [b[n]] && b == b[..n] + [b[n]];
      LivesSnoc(before, a + b[..n], b[n], id);
      LivesSnoc(Lives(before, a, id), b[..n], b[n], id);
      LivesAppend(before, a, b[..n], id);
    }
  }

  lemma LivesNothing(before: bool, id: TimeoutId)
    ensures Lives(before, [], id) <==> before
  {
  }

  lemma KnownApply(s: State, op: Op, id: TimeoutId)
    requires Inv(s)
    ensures Known(Apply(s, op), id) <==> op == Allocate(id) || (op != Free(id) && Known(s, id))
  {
    var t := Apply(s, op);
    QueuedMember(s.queue, id);
    QueuedMember(t.queue, id);
    hide Deadline, Sorted, Queued;
    match op {
      case Allocate(_) =>
      case Free(other) => ExtractMembers(s.queue, other);
      case Schedule(other, at) => ScheduleMembers(s, other, at);
    }
  }

  lemma {:induction false} KnownApplyAll(s: State, ops: seq<Op>, id: TimeoutId)
    requires Inv(s)
    ensures Known(ApplyAll(s, ops), id) <==> Lives(Known(s, id), ops, id)
    decreases |ops|
  {
    hide Inv, Apply, Known, Lives;
    if ops == [] {
      assert ApplyAll(s, ops) == s;
      LivesNothing(Known(s, id), id);
    } else {
      var n := |ops| - 1;
      assert ops == ops[..n] + [ops[n]];
      GapPlaces(s, ops[..n]);
      KnownApplyAll(s, ops[..n], id);
      ApplyAllSnoc(s, ops[..n], ops[n]);
      KnownApply(ApplyAll(s, ops[..n]), ops[n], id);
      LivesSnoc(Known(s, id), ops[..n], ops[n], id);
    }
  }

  /** Running a timeout takes its node from the queue to the timeout. */
  lemma KnownPop(s: State, id: TimeoutId)
    requires s.queue != []
    ensures Known(PopFront(s), id) <==> Known(s, id)
  {
    QueuedMember(s.queue, id);
    QueuedMember(s.queue[1..], id);
    assert s.queue == [s.queue[0]] + s.queue[1..];
    assert s.queue[0] in s.queue;
  }

  /** What is done to the scheduler while `n` callbacks run, from the k-th on. */
  function During(env: nat -> seq<Op>, k: nat, n: nat): seq<Op>
    decreases n
  {
    if n == 0 then [] else env(k) + During(env, k + 1, n - 1)
  }

  lemma {:induction false} KnownPass(s: State, now: Time, env: nat -> seq<Op>, k: nat, id: TimeoutId)
    requires Inv(s) && s.last == now
    ensures var (u, ran) := Pass(s, now, env, k);
            Known(u, id) <==> Lives(Known(s, id), During(env, k, |ran|), id)
    decreases Due(s.queue, now)
  {
    hide Inv, Lives, Known, ApplyAll, Pass;
    PassUnfold(s, now, env, k);
    if FrontIsDue(s, now) {
      TurnKeeps(s, now, env(k));
      PopFrontKeeps(s, now);
      var t := ApplyAll(PopFront(s), env(k));
      KnownPop(s, id);
      KnownApplyAll(PopFront(s), env(k), id);
      KnownPass(t, now, env, k + 1, id);
      LivesAppend(Known(s, id), env(k), During(env, k + 1, |Pass(t, now, env, k + 1).1|), id);
    } else {
      LivesNothing(Known(s, id), id);
    }
  }

  /** All operations of a run, in order: those between passes, those while callbacks run, those in the gaps. */
  ghost function Performed(s: State, events: seq<Event>): seq<Op>
    decreases |events|
  {
    if events == [] then []
    else match events[0]
      case Do(op) => [op] + Performed(Apply(s, op), events[1..])
      case Tick(now, env, gap) =>
        if Inv(s) && s.last <= now then
          LaterLast(s, now);
          During(env, 0, |Pass(s.(last := now, timer := None), now, env, 0).1|) + gap +
              Performed(Fire(s, now, env, gap), events[1..])
        else []
  }

  lemma FireKnows(s: State, now: Time, env: nat -> seq<Op>, gap: seq<Op>, id: TimeoutId)
    requires Inv(s) && s.last <= now
    ensures Inv(s.(last := now, timer := None))
    ensures var n := |Pass(s.(last := now, timer := None), now, env, 0).1|;
            Known(Fire(s, now, env, gap), id) <==> Lives(Known(s, id), During(env, 0, n) + gap, id)
  {
    LaterLast(s, now);
    AfterPassKeeps(s, now, env);
    hide Inv, Lives, Pass, ApplyAll;
    var start := s.(last := now, timer := None);
    var u := AfterPass(s, now, env);
    KnownPass(start, now, env, 0, id);
    KnownApplyAll(u, gap, id);
    LivesAppend(Known(s, id), During(env, 0, |Pass(start, now, env, 0).1|), gap, id);
  }

  lemma {:induction false} RunsKnow(s: State, events: seq<Event>, t: State, id: TimeoutId)
    requires Inv(s) && Runs(s, events, t)
    ensures Known(t, id) <==> Lives(Known(s, id), Performed(s, events), id)
    decreases |events|
  {
    hide Inv, Apply, Fire, Lives, Known, Pass, GapSafe, Wakes;
    if events == [] {
      LivesNothing(Known(s, id), id);
    } else {
      match events[0] {
        case Do(op) =>
          ApplyKeeps(s, op);
          KnownApply(s, op, id);
          RunsKnow(Apply(s, op), events[1..], t, id);
          LivesNothing(Known(s, id), id);
          LivesSnoc(Known(s, id), [], op, id);
          assert [] + [op] == [op];
          LivesAppend(Known(s, id), [op], Performed(Apply(s, op), events[1..]), id);
        case Tick(now, env, gap) =>
          FireExact(s, now, env, gap);
          FireKnows(s, now, env, gap, id);
          var v := Fire(s, now, env, gap);
          RunsKnow(v, events[1..], t, id);
          var n := |Pass(s.(last := now, timer := None), now, env, 0).1|;
          LivesAppend(Known(s, id), During(env, 0, n) + gap, Performed(v, events[1..]), id);
      }
    }
  }

  /** In every run, whatever callbacks and other threads do, a timeout is queued or holds its own node, and not both,
  exactly if it was allocated and has not been freed since: none is lost by running. */
  lemma TimeoutsAreKept(events: seq<Event>, t: State, id: TimeoutId)
    requires Runs(Start, events, t)
    ensures (id in t.held || Queued(t.queue, id)) <==> Allocated(Performed(Start, events), id)
    ensures !(id in t.held && Queued(t.queue, id))
  {
    hide Performed, Runs, Allocated;
    RunsKeep(Start, events, t, true);
    assert !Known(Start, id);
    assert (id in t.held || Queued(t.queue, id)) <==> Lives(false, Performed(Start, events), id);
    QueuedMember(t.queue, id);
  }

  // ---- a timeout that has run ----------------------------------------------------------------------

  /** The j-th operation schedules the timeout, which was not freed before, and no later one touches it. */
  ghost predicate Reschedules(ops: seq<Op>, j: nat, id: TimeoutId) {
    && j < |ops| && ops[j].Schedule? && ops[j].id == id && Free(id) !in ops[..j]
    && forall i :: j < i < |ops| ==> !Touches(ops[i], id)
  }

  /** Where a timeout is that ran in the pass at `now`, after the operations since: with its node if none touched it,
  and queued for the rounded time if one rescheduled it. */
  ghost predicate Returned(s: State, ops: seq<Op>, id: TimeoutId, now: Time) {
    && (Free(id) !in ops ==> Known(s, id))
    && ((forall op :: op in ops ==> !Touches(op, id)) ==> id in s.held)
    && (forall j: nat :: Reschedules(ops, j, id) ==> Node(Deadline(ops[j].at, now), id) in s.queue)
  }

  ghost predicate NotDue(s: State, id: TimeoutId, now: Time) {
    forall m :: m in s.queue && m.parent == id ==> m.when >= now
  }

  lemma NotDueApply(s: State, op: Op, id: TimeoutId, now: Time)
    requires Inv(s) && s.last == now && NotDue(s, id, now)
    ensures NotDue(Apply(s, op), id, now) && Apply(s, op).last == now
  {
    ApplyMembers(s, op);
    if op.Schedule? {
      DeadlineBounds(op.at, s.last);
    }
    hide Inv, Deadline, Apply, Known;
  }

  lemma ReturnedApply(s: State, ops: seq<Op>, op: Op, id: TimeoutId, now: Time)
    requires Inv(s) && s.last == now && Returned(s, ops, id, now)
    ensures Returned(Apply(s, op), ops + [op], id, now)
  {
    var t, all := Apply(s, op), ops + [op];
    assert forall x :: x in all <==> x in ops || x == op;
    KnownApply(s, op, id);
    HeldApply(s, op, id);
    forall j: nat | Reschedules(all, j, id)
      ensures Node(Deadline(all[j].at, now), id) in t.queue
    {
      ReschedulesSnoc(ops, op, j, id);
      ApplyMembers(s, op);
    }
  }

  lemma HeldApply(s: State, op: Op, id: TimeoutId)
    ensures id in s.held && !Touches(op, id) ==> id in Apply(s, op).held
  {
  }

  lemma ReschedulesSnoc(ops: seq<Op>, op: Op, j: nat, id: TimeoutId)
    requires Reschedules(ops + [op], j, id)
    ensures j < |ops| ==> Reschedules(ops, j, id) && ops[j] == (ops + [op])[j] && !Touches(op, id)
    ensures j >= |ops| ==> j == |ops| && op.Schedule? && op.id == id && Free(id) !in ops
  {
    var all := ops + [op];
    if j < |ops| {
      assert all[..j] == ops[..j] && all[|ops|] == op;
      assert forall i :: j < i < |ops| ==> all[i] == ops[i];
    } else {
      assert all[..j] == ops;
    }
  }

  lemma {:induction false} ReturnedAll(s: State, ops: seq<Op>, more: seq<Op>, id: TimeoutId, now: Time)
    requires Inv(s) && s.last == now && Returned(s, ops, id, now) && NotDue(s, id, now)
    ensures var t := ApplyAll(s, more);
            Inv(t) && t.last == now && Returned(t, ops + more, id, now) && NotDue(t, id, now)
    decreases |more|
  {
    hide Inv, Apply, Returned, NotDue;
    if more == [] {
      assert ops + more == ops;
    } else {
      ApplyKeeps(s, more[0]);
      ReturnedApply(s, ops, more[0], id, now);
      NotDueApply(s, more[0], id, now);
      ReturnedAll(Apply(s, more[0]), ops + [more[0]], more[1..], id, now);
      assert ops + [more[0]] + more[1..] == ops + more;
    }
  }

  /** Another timeout is run. */
  lemma ReturnedPop(s: State, ops: seq<Op>, id: TimeoutId, now: Time)
    requires Inv(s) && FrontIsDue(s, now) && Returned(s, ops, id, now) && NotDue(s, id, now)
    ensures Returned(PopFront(s), ops, id, now) && NotDue(PopFront(s), id, now)
  {
    hide Sorted, Distinct, Deadline, Reschedules;
    KnownPop(s, id);
    Uncons(s.queue);
    assert s.queue[0] in s.queue && s.queue[0].parent != id;
  }

  lemma {:induction false} ReturnedPass(s: State, ops: seq<Op>, now: Time, env: nat -> seq<Op>, k: nat, id: TimeoutId)
    requires Inv(s) && s.last == now && Returned(s, ops, id, now) && NotDue(s, id, now)
    ensures var (u, ran) := Pass(s, now, env, k);
            Returned(u, ops + During(env, k, |ran|), id, now)
    decreases Due(s.queue, now)
  {
    hide Inv, Returned, NotDue, ApplyAll, Pass;
    PassUnfold(s, now, env, k);
    if FrontIsDue(s, now) {
      TurnKeeps(s, now, env(k));
      PopFrontKeeps(s, now);
      ReturnedPop(s, ops, id, now);
      ReturnedAll(PopFront(s), ops, env(k), id, now);
      var t := ApplyAll(PopFront(s), env(k));
      ReturnedPass(t, ops + env(k), now, env, k + 1, id);
      var later := During(env, k + 1, |Pass(t, now, env, k + 1).1|);
      assert ops + env(k) + later == ops + (env(k) + later);
    } else {
      assert ops + [] == ops;
    }
  }

  /** The timeout that runs has its node back. */
  lemma RunReturned(s: State, now: Time)
    requires Inv(s) && FrontIsDue(s, now)
    ensures Returned(PopFront(s), [], s.queue[0].parent, now) && NotDue(PopFront(s), s.queue[0].parent, now)
  {
    Uncons(s.queue);
  }

  lemma {:induction false} PassReturns(s: State, now: Time, env: nat -> seq<Op>, k: nat, i: nat)
    requires Inv(s) && s.last == now && i < |Pass(s, now, env, k).1|
    ensures var (u, ran) := Pass(s, now, env, k);
            Returned(u, During(env, k + i, |ran| - i), ran[i].parent, now)
    decreases i
  {
    hide Inv, ApplyAll, Returned, NotDue, Pass, PopFront;
    PassUnfold(s, now, env, k);
    var t := ApplyAll(PopFront(s), env(k));
    if i == 0 {
      var id := s.queue[0].parent;
      FirstReturns(s, now, env(k));
      ReturnedPass(t, env(k), now, env, k + 1, id);
    } else {
      PassReturns(t, now, env, k + 1, i - 1);
    }
  }

  /** The first timeout of a pass, after its callback. */
  lemma FirstReturns(s: State, now: Time, ops: seq<Op>)
    requires Inv(s) && s.last == now && FrontIsDue(s, now)
    ensures var t, id := ApplyAll(PopFront(s), ops), s.queue[0].parent;
            Inv(t) && t.last == now && Returned(t, ops, id, now) && NotDue(t, id, now)
  {
    hide Inv, Returned, NotDue, ApplyAll;
    PopFrontKeeps(s, now);
    RunReturned(s, now);
    ReturnedAll(PopFront(s), [], ops, s.queue[0].parent, now);
    assert [] + ops == ops;
  }

  /** Every timeout a pass runs, by what is done to it from its own callback on: untouched, it holds its node at the
  end of the pass; rescheduled last for some time, by its own callback or by anybody, it is queued for that time. */
  lemma RunTimeoutsReturn(s: State, now: Time, env: nat -> seq<Op>, k: nat, i: nat)
    requires Inv(s) && s.last == now && i < |Pass(s, now, env, k).1|
    ensures var (u, ran) := Pass(s, now, env, k);
            var id, ops := ran[i].parent, During(env, k + i, |ran| - i);
            && ((forall op :: op in ops ==> !Touches(op, id)) ==> id in u.held)
            && (forall j: nat :: Reschedules(ops, j, id) ==> Node(Deadline(ops[j].at, now), id) in u.queue)
            && (Free(id) !in ops ==> id in u.held || Queued(u.queue, id))
  {
    hide Pass, During, Touches, Reschedules, Queued, Deadline;
    PassReturns(s, now, env, k, i);
  }

  /** A run in which a wake-up is lost: the pass sees a deadline a second away, another thread schedules a near one
  in the gap, and the timer ends up at the far one. */
  lemma GapWitness() returns (t: State)
    ensures var idle: nat -> seq<Op> := _ => [];
            Runs(Start, [Do(Allocate(0)), Do(Allocate(1)), Do(Schedule(0, 1000 * MS)),
                         Tick(0, idle, [Schedule(1, 5 * MS)])], t)
    ensures !Wakes(t) && t.queue[0] == Node(10 * MS, 1) && t.timer == Some(1010 * MS)
  {
    var idle: nat -> seq<Op> := _ => [];
    var s2 := Start.(held := {0, 1});
    var s3 := State([Node(1010 * MS, 0)], {1}, TIME_MIN, Some(1010 * MS), map[0 := 1000 * MS]);
    assert Apply(Apply(Start, Allocate(0)), Allocate(1)) == s2;
    FarDeadline(s2, s3);
    var u := s3.(last := 0, timer := None);
    assert Inv(s3) && Inv(u);
    assert AfterPass(s3, 0, idle) == u;
    t := NearDeadline(u);
    assert Fire(s3, 0, idle, [Schedule(1, 5 * MS)]) == t;
    hide Fire, Apply;
    var events := [Do(Allocate(0)), Do(Allocate(1)), Do(Schedule(0, 1000 * MS)), Tick(0, idle, [Schedule(1, 5 * MS)])];
    assert events[1..][1..][1..][1..] == [];
    assert Runs(t, events[1..][1..][1..][1..], t);
    assert events[1..][1..][1..][0] == events[3] && events[1..][1..][0] == events[2] && events[1..][0] == events[1];
    assert Runs(s3, events[1..][1..][1..], t);
    assert Runs(s2, events[1..][1..], t);
  }

  lemma FarDeadline(s2: State, s3: State)
    requires s2 == Start.(held := {0, 1})
    requires s3 == State([Node(1010 * MS, 0)], {1}, TIME_MIN, Some(1010 * MS), map[0 := 1000 * MS])
    ensures Apply(s2, Schedule(0, 1000 * MS)) == s3
  {
    assert Deadline(1000 * MS, TIME_MIN) == 1010 * MS;
    assert Extract([], 0) == [];
    assert Insert([], Node(1010 * MS, 0)) == [Node(1010 * MS, 0)] + [];
  }

  lemma NearDeadline(u: State) returns (t: State)
    requires u == State([Node(1010 * MS, 0)], {1}, 0, None, map[0 := 1000 * MS])
    ensures t == ApplyAll(u, [Schedule(1, 5 * MS)]).(timer := Some(1010 * MS))
    ensures !Wakes(t) && t.queue[0] == Node(10 * MS, 1)
  {
    var op := Schedule(1, 5 * MS);
    assert Deadline(5 * MS, 0) == 10 * MS;
    assert Extract(u.queue, 1) == u.queue by {
      assert u.queue[1..] == [];
    }
    assert [op] == [] + [op];
    ApplyAllSnoc(u, [], op);
    assert ApplyAll(u, []) == u;
    t := ApplyAll(u, [op]).(timer := Some(1010 * MS));
  }
}

/** The scheduler as an object; `queue` stands for the multiset of nodes. */
module SchedulerObjects {
  import opened Wire
  import opened Spec = Schedulers

  class Scheduler {
    var queue: seq<Node>
    var held: set<TimeoutId>
    var last: Time
    var timer: Option<Time>
    ghost var asked: map<TimeoutId, Time>

    ghost function Model(): State
      reads this
    {
      State(queue, held, last, timer, asked)
    }

    constructor ()
      ensures Model() == Start && Inv(Model()) && Wakes(Model())
    {
      queue, held, last, timer, asked := [], {}, TIME_MIN, None, map[];
    }

    method AllocateTimeout(id: TimeoutId)
      requires !Known(Model(), id)
      modifies this
      ensures Model() == Apply(old(Model()), Allocate(id))
    {
      held := held + {id};
    }

    method FreeTimeout(id: TimeoutId)
      requires Known(Model(), id) && Inv(Model())
      modifies this
      ensures Model() == Apply(old(Model()), Free(id))
    {
      if id !in held {
        queue := Extract(queue, id);
      } else {
        ExtractAbsent(queue, id);
      }
      held := held - {id};
    }

    /** `schedule_`: whether the front changed, and the front's deadline. */
    method Enqueue(id: TimeoutId, at: Time) returns (changed: bool, next: Time)
      requires Known(Model(), id) && Inv(Model())
      modifies this`queue, this`held, this`asked
      ensures Inv(Model()) && queue != [] && next == queue[0].when
      ensures Model().(timer := if changed then Some(next) else timer) == ScheduleStep(old(Model()), id, at)
    {
      ScheduleMembers(Model(), id, at);
      ScheduleKeeps(Model(), id, at);
      changed := false;
      if id !in held {
        if IsFirst(queue, id) {
          changed := true;
        }
        queue := Extract(queue, id);
      } else {
        ExtractAbsent(queue, id);
      }
      held := held - {id};
      queue := Insert(queue, Node(Deadline(at, last), id));
      asked := asked[id := at];
      if IsFirst(queue, id) {
        changed := true;
      }
      next := queue[0].when;
      TimerFree(ScheduleStep(old(Model()), id, at), Model());
    }

    method ScheduleTimeout(id: TimeoutId, at: Time)
      requires Known(Model(), id) && Inv(Model())
      modifies this
      ensures Model() == ScheduleStep(old(Model()), id, at)
    {
      var changed, next := Enqueue(id, at);
      if changed {
        timer := Some(next);
      }
    }

    /** What happens to the scheduler while a callback runs. */
    method Perform(ops: seq<Op>)
      requires Inv(Model())
      modifies this
      ensures Inv(Model()) && Model() == ApplyAll(old(Model()), ops)
    {
      var i := 0;
      assert ops[0..] == ops;
      while i < |ops|
        invariant 0 <= i <= |ops| && Inv(Model())
        invariant ApplyAll(Model(), ops[i..]) == ApplyAll(old(Model()), ops)
      {
        assert ops[i..][1..] == ops[i + 1..];
        ApplyKeeps(Model(), ops[i]);
        PerformOne(ops[i]);
        i := i + 1;
      }
    }

    method PerformOne(op: Op)
      requires Inv(Model())
      modifies this
      ensures Model() == Apply(old(Model()), op)
    {
      var known := op.id in held || exists i :: 0 <= i < |queue| && queue[i].parent == op.id;
      match op {
        case Allocate(id) => if !known { AllocateTimeout(id); }
        case Free(id) => if known { FreeTimeout(id); }
        case Schedule(id, at) => if known { ScheduleTimeout(id, at); }
      }
    }

    /** One turn of the loop of `process_`. */
    method Turn(now: Time, ops: seq<Op>) returns (front: Node)
      requires Inv(Model()) && last == now && FrontIsDue(Model(), now)
      modifies this
      ensures front == old(queue)[0] && Model() == ApplyAll(PopFront(old(Model())), ops)
      ensures (forall op :: op in ops ==> !Touches(op, front.parent)) ==> front.parent in held
      ensures forall j: nat :: Reschedules(ops, j, front.parent) ==>
                Node(Deadline(ops[j].at, now), front.parent) in queue
      ensures Inv(Model()) && last == now && Due(queue, now) < old(Due(queue, now))
    {
      hide Inv, ApplyAll, NotDue, Touches, Reschedules, Deadline;
      front := queue[0];
      TurnKeeps(Model(), now, ops);
      PopFrontKeeps(Model(), now);
      FirstReturns(Model(), now, ops);
      queue, held := queue[1..], held + {front.parent};
      Perform(ops);
    }

    /** `process_`, with everything that can go on while it runs its callbacks. */
    method ProcessPass(now: Time, env: nat -> seq<Op>) returns (next: Option<Time>, ran: seq<Node>)
      requires Inv(Model()) && last <= now
      modifies this
      ensures Inv(Model())
      ensures var start := old(Model()).(last := now);
              Inv(start) && Model() == Pass(start, now, env, 0).0 && ran == Pass(start, now, env, 0).1
      ensures next == if queue == [] then None else Some(queue[0].when)
    {
      hide Inv, Pass, ApplyAll;
      LaterLast(Model(), now);
      last := now;
      ghost var start := Model();
      TimerFree(start.(timer := None), start);
      ran := [];
      while queue != [] && queue[0].when < now
        invariant Inv(Model()) && last == now
        invariant Pass(start, now, env, 0).0 == Pass(Model(), now, env, |ran|).0
        invariant Pass(start, now, env, 0).1 == ran + Pass(Model(), now, env, |ran|).1
        decreases Due(queue, now)
      {
        PassUnfold(Model(), now, env, |ran|);
        var front := Turn(now, env(|ran|));
        ghost var later := Pass(Model(), now, env, |ran| + 1).1;
        assert ran + ([front] + later) == ran + [front] + later;
        ran := ran + [front];
      }
      PassUnfold(Model(), now, env, |ran|);
      assert ran + [] == ran;
      next := if queue == [] then None else Some(queue[0].when);
    }

    /** `process`: the timer is set for the front the pass saw, after whatever came in between. */
    method Process(now: Time, env: nat -> seq<Op>, gap: seq<Op>)
      requires Inv(Model()) && last <= now
      modifies this
      ensures Model() == Fire(old(Model()), now, env, gap) && Inv(Model())
    {
      FireExact(Model(), now, env, gap);
      LaterLast(Model(), now);
      timer := None;
      TimerFree(old(Model()), Model());
      var next, _ := ProcessPass(now, env);
      Perform(gap);
      if next.Some? {
        timer := next;
      }
    }
  }

  lemma ExtractAbsent(q: seq<Node>, id: TimeoutId)
    requires !Queued(q, id)
    ensures Extract(q, id) == q
  {
    if q != [] {
      assert q[0].parent != id;
      assert forall i :: 0 <= i < |q[1..]| ==> q[1..][i] == q[i + 1];
      ExtractAbsent(q[1..], id);
    }
  }
}

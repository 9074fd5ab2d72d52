/** The two lookup tables of a socket and the allocator of short connection ids (mrudp/Socket.cpp). */
module Sockets {
  import opened Serial
  import opened Wire

  type LongId = Bytes

  /** The all-zero long id that stands for "none". */
  const NullLongId: LongId := [0, 0, 0, 0, 0, 0, 0, 0, 0, 0, 0, 0, 0, 0, 0, 0]

  /** `key` tells connection objects apart; ids may be used again by later connections. */
  datatype Conn = Conn(key: nat, id: LongId, localID: Id)

  datatype Tables = Tables(shortIDs: set<Id>, connections: map<LongId, Conn>, receive: map<Id, Conn>)

  const Fresh := Tables({}, map[], map[])

  // ---- the allocator -----------------------------------------------------------------------------

  predicate Free(used: set<Id>, id: Id) {
    id != 0 && id !in used
  }

  /** How many increments lead from `id` to `to`, wrapping at sixteen bits. */
  function Distance(id: Id, to: Id): nat {
    if id <= to then to - id else to - id + 65536
  }

  /** The first free id at or after `id`, cyclically. */
  ghost predicate IsNextFree(used: set<Id>, id: Id, r: Id) {
    Free(used, r) && forall k: Id :: Distance(id, k) < Distance(id, r) ==> !Free(used, k)
  }

  function Ids(n: Id): (ids: set<Id>)
    ensures |ids| == n && forall i :: i in ids <==> 1 <= i <= n
  {
    if n == 0 then {} else Ids(n - 1) + {n}
  }

  /** There is a free id exactly while fewer than 65535 are taken. */
  lemma FreeExists(used: set<Id>)
    requires 0 !in used
    ensures |used| <= 65535
    ensures (exists f: Id :: Free(used, f)) <==> |used| < 65535
  {
    hide Ids;
    assert used <= Ids(65535);
    SubsetCard(used, Ids(65535));
    if |used| < 65535 {
      assert used != Ids(65535);
      assert exists f: Id :: f in Ids(65535) && f !in used;
      var f: Id :| f in Ids(65535) && f !in used;
      assert Free(used, f);
    } else {
      assert used == Ids(65535);
    }
  }

  /** `isFull` compares with one less than the number of ids, and for equality. */
  predicate IsFull(t: Tables) {
    |t.shortIDs| == 65534
  }

  // ---- the tables ----------------------------------------------------------------------------

  function Insert(t: Tables, c: Conn): Tables {
    t.(connections := t.connections[c.id := c], receive := t.receive[c.localID := c])
  }

  function Erase(t: Tables, c: Conn): Tables {
    Tables(t.shortIDs - {c.localID}, t.connections - {c.id}, t.receive - {c.localID})
  }

  predicate Live(t: Tables, c: Conn) {
    c.id in t.connections && t.connections[c.id] == c
  }

  /** The two indexes hold the same connections, each under its own two ids. */
  ghost predicate Agree(t: Tables) {
    && (forall l :: l in t.connections ==>
         var c := t.connections[l]; c.id == l && c.localID in t.receive && t.receive[c.localID] == c)
    && (forall s :: s in t.receive ==>
         var c := t.receive[s]; c.localID == s && c.id in t.connections && t.connections[c.id] == c)
  }

  ghost predicate Inv(t: Tables) {
    Agree(t) && 0 !in t.shortIDs && t.receive.Keys <= t.shortIDs && NullLongId !in t.connections
  }

  /** `findConnection`: by long id if the packet carried one, else by a non-zero short id. */
  function Find(t: Tables, shortID: Id, longID: LongId): Option<Conn> {
    if longID != NullLongId then
      if longID in t.connections then Some(t.connections[longID]) else None
    else if shortID != 0 && shortID in t.receive then Some(t.receive[shortID])
    else None
  }

  /** Both ways of looking up lead to the same live connection, live short ids are distinct and non-zero,
  and no lookup leads to a connection that is not live. */
  lemma LookupsAgree(t: Tables, c: Conn)
    requires Inv(t)
    ensures Live(t, c) ==> Find(t, 0, c.id) == Some(c) && Find(t, c.localID, NullLongId) == Some(c) && c.localID != 0
    ensures forall d :: Live(t, c) && Live(t, d) && c.localID == d.localID ==> c == d
    ensures forall s, l :: Find(t, s, l).Some? ==> Live(t, Find(t, s, l).value)
  {
  }

  lemma InsertKeeps(t: Tables, c: Conn)
    requires Inv(t) && c.id !in t.connections && c.id != NullLongId
    requires c.localID in t.shortIDs && c.localID !in t.receive
    ensures Inv(Insert(t, c)) && Live(Insert(t, c), c)
    ensures forall d :: Live(t, d) ==> Live(Insert(t, c), d)
  {
  }

  /** Erasing keeps the tables in agreement exactly when both entries it removes belong together. */
  lemma EraseExact(t: Tables, c: Conn)
    requires Agree(t)
    ensures Agree(Erase(t, c)) <==>
            && (c.localID in t.receive <==> c.id in t.connections)
            && (c.localID in t.receive ==> t.receive[c.localID].id == c.id)
  {
    var u := Erase(t, c);
    if c.localID in t.receive {
      var d := t.receive[c.localID];
      assert d.id in t.connections;
      if d.id != c.id {
        assert d.id in u.connections && u.connections[d.id] == d && c.localID !in u.receive;
      }
    }
    if c.id in t.connections {
      var d := t.connections[c.id];
      assert d.localID in t.receive;
      if d.localID != c.localID {
        assert d.localID in u.receive && u.receive[d.localID] == d && c.id !in u.connections;
      }
    }
  }

  /** Erasing undoes reserving and inserting. */
  lemma EraseInserted(t: Tables, c: Conn)
    requires c.localID !in t.shortIDs && c.localID !in t.receive && c.id !in t.connections
    ensures Erase(Insert(t.(shortIDs := t.shortIDs + {c.localID}), c), c) == t
  {
    var u := Erase(Insert(t.(shortIDs := t.shortIDs + {c.localID}), c), c);
    assert u.connections == t.connections && u.receive == t.receive && u.shortIDs == t.shortIDs;
  }

  lemma EraseKeeps(t: Tables, c: Conn)
    requires Inv(t) && Live(t, c)
    ensures Inv(Erase(t, c)) && !Live(Erase(t, c), c)
    ensures forall d :: Live(t, d) && d != c ==> Live(Erase(t, c), d)
    ensures Free(Erase(t, c).shortIDs, c.localID)
  {
    EraseExact(t, c);
  }

  /** Erasing a connection twice can hit another one that was given its short id in between. */
  lemma EraseTwiceWitness(a: Conn, b: Conn)
    requires a.id != b.id && a.localID == b.localID != 0 && a.id != NullLongId && b.id != NullLongId
    ensures var t := Insert(Erase(Insert(Tables({a.localID}, map[], map[]), a), a).(shortIDs := {b.localID}), b);
            Inv(t) && Live(t, b) && !Agree(Erase(t, a))
  {
    var t := Insert(Erase(Insert(Tables({a.localID}, map[], map[]), a), a).(shortIDs := {b.localID}), b);
    assert t == Tables({b.localID}, map[b.id := b], map[b.localID := b]);
    EraseExact(t, a);
  }

  // ---- whole runs --------------------------------------------------------------------------------

  /** Reserving a short id and inserting its connection are separate steps, so others may come between. */
  datatype Op = Reserve(id: Id) | Put(c: Conn) | Finish(c: Conn)

  function Apply(t: Tables, op: Op): Tables {
    match op
    case Reserve(id) => t.(shortIDs := t.shortIDs + {id})
    case Put(c) => Insert(t, c)
    case Finish(c) => Erase(t, c)
  }

  /** Ids come from the allocator, long ids are new, and each connection is inserted and erased once. */
  predicate Legal(t: Tables, op: Op) {
    match op
    case Reserve(id) => Free(t.shortIDs, id)
    case Put(c) => c.id != NullLongId && c.id !in t.connections && c.localID in t.shortIDs && c.localID !in t.receive
    case Finish(c) => Live(t, c)
  }

  function Run(t: Tables, ops: seq<Op>): Tables
    decreases |ops|
  {
    if ops == [] then t else Run(Apply(t, ops[0]), ops[1..])
  }

  predicate LegalRun(t: Tables, ops: seq<Op>)
    decreases |ops|
  {
    ops == [] || (Legal(t, ops[0]) && LegalRun(Apply(t, ops[0]), ops[1..]))
  }

  lemma {:induction false} RunKeeps(t: Tables, ops: seq<Op>)
    requires Inv(t) && LegalRun(t, ops)
    ensures Inv(Run(t, ops))
    decreases |ops|
  {
    if ops != [] {
      var op := ops[0];
      match op {
        case Reserve(id) =>
        case Put(c) => InsertKeeps(t, c);
        case Finish(c) => EraseKeeps(t, c);
      }
      RunKeeps(Apply(t, op), ops[1..]);
    }
  }

  /** After any legal run, a connection found under one of its ids is found under the other. */
  lemma IndexesAgree(ops: seq<Op>, c: Conn)
    requires LegalRun(Fresh, ops)
    ensures var t := Run(Fresh, ops);
            && (Find(t, 0, c.id) == Some(c) <==> c.id != NullLongId && Live(t, c))
            && (Find(t, c.localID, NullLongId) == Some(c) <==> Live(t, c))
            && (Live(t, c) ==> c.localID != 0 && c.localID in t.shortIDs)
  {
    RunKeeps(Fresh, ops);
    LookupsAgree(Run(Fresh, ops), c);
  }

  /** Exactly when `isFull` tells the truth about the ids after a run: while fewer than 65534 are taken. With
  65534 it says full although one is free; with all 65535 taken, which `connect` can do since it does not ask,
  it says there is room and the allocator has nothing to find. */
  lemma IsFullExact(ops: seq<Op>)
    requires LegalRun(Fresh, ops)
    ensures var t := Run(Fresh, ops);
            (IsFull(t) <==> !exists f: Id :: Free(t.shortIDs, f)) <==> |t.shortIDs| < 65534
  {
    RunKeeps(Fresh, ops);
    FreeExists(Run(Fresh, ops).shortIDs);
  }

  lemma {:induction false} RunSnoc(t: Tables, ops: seq<Op>, op: Op)
    requires LegalRun(t, ops) && Legal(Run(t, ops), op)
    ensures LegalRun(t, ops + [op]) && Run(t, ops + [op]) == Apply(Run(t, ops), op)
    decreases |ops|
  {
    hide Legal, Apply;
    if ops == [] {
      assert [] + [op] == [op] && [op][1..] == [];
      assert LegalRun(Apply(t, op), []) && Run(Apply(t, op), []) == Apply(t, op);
    } else {
      assert (ops + [op])[1..] == ops[1..] + [op];
      RunSnoc(Apply(t, ops[0]), ops[1..], op);
    }
  }

  /** A legal run in which the ids 1 to `n` are taken one after the other. */
  lemma {:induction false} TakeIds(n: Id) returns (ops: seq<Op>)
    ensures LegalRun(Fresh, ops) && Run(Fresh, ops) == Tables(Ids(n), map[], map[])
  {
    if n == 0 {
      ops := [];
    } else {
      ops := TakeIds(n - 1);
      hide Run, LegalRun;
      RunSnoc(Fresh, ops, Reserve(n));
      ops := ops + [Reserve(n)];
    }
  }

  /** Both ways `isFull` can be wrong do happen. */
  lemma IsFullWitness() returns (early: seq<Op>, late: seq<Op>)
    ensures LegalRun(Fresh, early) && IsFull(Run(Fresh, early)) && Free(Run(Fresh, early).shortIDs, 65535)
    ensures LegalRun(Fresh, late) && !IsFull(Run(Fresh, late)) && !exists f: Id :: Free(Run(Fresh, late).shortIDs, f)
  {
    hide Ids, Run, LegalRun;
    early := TakeIds(65534);
    late := TakeIds(65535);
  }

  class Socket {
    var shortConnectionIDs: set<Id>
    var connections: map<LongId, Conn>
    var receiveConnections: map<Id, Conn>
    var created: nat

    ghost function Model(): Tables
      reads this
    {
      Tables(shortConnectionIDs, connections, receiveConnections)
    }

    constructor ()
      ensures Model() == Fresh && Inv(Model())
    {
      shortConnectionIDs, connections, receiveConnections, created := {}, map[], map[], 0;
    }

    /** `acquireShortConnectionID`, from whatever the random generator gave. Like the source it needs a free
    id to exist; then it ends, after as many steps as the next free id is away. */
    method AcquireShortConnectionID(random: Id) returns (id: Id)
      requires exists f: Id :: Free(shortConnectionIDs, f)
      modifies this`shortConnectionIDs
      ensures IsNextFree(old(shortConnectionIDs), random, id)
      ensures shortConnectionIDs == old(shortConnectionIDs) + {id}
    {
      ghost var f: Id :| Free(shortConnectionIDs, f);
      id := random;
      while id == 0 || id in shortConnectionIDs
        invariant Distance(random, id) + Distance(id, f) == Distance(random, f)
        invariant forall k: Id :: Distance(random, k) < Distance(random, id) ==> !Free(shortConnectionIDs, k)
        decreases Distance(id, f)
      {
        id := if id == 65535 then 0 else id + 1;
      }
      shortConnectionIDs := shortConnectionIDs + {id};
    }

    method InsertConnection(c: Conn)
      modifies this`connections, this`receiveConnections
      ensures Model() == Insert(old(Model()), c)
    {
      connections := connections[c.id := c];
      receiveConnections := receiveConnections[c.localID := c];
    }

    method EraseConnection(c: Conn)
      modifies this`shortConnectionIDs, this`connections, this`receiveConnections
      ensures Model() == Erase(old(Model()), c)
    {
      if c.localID in receiveConnections {
        receiveConnections := receiveConnections - {c.localID};
      }
      if c.id in connections {
        connections := connections - {c.id};
      }
      if c.localID in shortConnectionIDs {
        shortConnectionIDs := shortConnectionIDs - {c.localID};
      }
      assert Model().connections == old(connections) - {c.id} &&
          Model().receive == old(receiveConnections) - {c.localID};
    }

    /** Reserving an id, inserting the connection and opening it, as `connect` and `generateConnection` do. A
    connection that does not open is erased again. */
    method Establish(longID: LongId, random: Id, opens: bool) returns (c: Conn)
      requires Inv(Model()) && longID != NullLongId && longID !in connections
      requires |shortConnectionIDs| < 65535
      modifies this
      ensures Inv(Model()) && c.id == longID
      ensures opens ==> Live(Model(), c) && forall d :: old(Live(Model(), d)) ==> Live(Model(), d)
      ensures !opens ==> Model() == old(Model())
    {
      FreeExists(shortConnectionIDs);
      ghost var was := Model();
      var localID := AcquireShortConnectionID(random);
      c := Conn(created, longID, localID);
      created := created + 1;
      InsertKeeps(Model(), c);
      InsertConnection(c);
      if !opens {
        EraseInserted(was, c);
        EraseConnection(c);
      }
    }

    /** `connect`: the random long id is taken to be new. Fullness is not checked. */
    method Connect(longID: LongId, random: Id, opens: bool) returns (r: Option<Conn>)
      requires Inv(Model()) && longID != NullLongId && longID !in connections
      requires |shortConnectionIDs| < 65535
      modifies this
      ensures Inv(Model()) && (r.Some? <==> opens)
      ensures r.Some? ==> Live(Model(), r.value) && r.value.id == longID
      ensures r.None? ==> Model() == old(Model())
      ensures forall d :: old(Live(Model(), d)) ==> Live(Model(), d)
    {
      var c := Establish(longID, random, opens);
      r := if opens then Some(c) else None;
    }

    /** `findOrGenerateConnection`: a known connection, or a new one for a first handshake packet with a long id,
    if the socket wants it and is not full. `made` is the connection put into the tables: when the accept handler
    refuses it, nobody is told of it, but it stays there until it has finished closing. */
    method FindOrGenerate(shortID: Id, longID: LongId, isH0: bool, wanted: bool, opens: bool, accepted: bool,
        random: Id)
      returns (r: Option<Conn>, made: Option<Conn>)
      requires Inv(Model()) && |shortConnectionIDs| != 65535
      modifies this
      ensures Inv(Model())
      ensures forall d :: old(Live(Model(), d)) ==> Live(Model(), d)
      ensures old(Find(Model(), shortID, longID)).Some? ==> r == old(Find(Model(), shortID, longID)) && made == None
      ensures old(Find(Model(), shortID, longID)).None? ==>
                && (made.Some? <==> old(!IsFull(Model())) && isH0 && longID != NullLongId && wanted && opens)
                && r == (if accepted then made else None)
      ensures made.Some? ==> Find(Model(), 0, longID) == made && Find(Model(), made.value.localID, NullLongId) == made
      ensures made.None? ==> Model() == old(Model())
    {
      made := None;
      r := Find(Tables(shortConnectionIDs, connections, receiveConnections), shortID, longID);
      if r.Some? {
        return;
      }
      if |shortConnectionIDs| == 65534 || !isH0 || longID == NullLongId || !wanted {
        return;
      }
      FreeExists(shortConnectionIDs);
      var c := Establish(longID, random, opens);
      if opens {
        LookupsAgree(Model(), c);
        made := Some(c);
        if accepted {
          r := made;
        }
      }
    }
  }
}

/** Sixteen-bit identifiers that wrap, and their comparison (mrudp/Packet.inl, mrudp/sender/IDGenerator.inl).

Frames and packets are numbered by unbounded indices in the proofs; the wire carries only `Wrap(index)`.
*/
module Serial {

  type Id = x: int | 0 <= x < 65536

  /** The identifier carried by the item with the given index. */
  function Wrap(index: int): (id: Id) {
    index % 65536
  }

  /** Half the identifier space: the `top_bit` of the comparison. */
  const HALF := 32768

  /** `id_greater_than` on 16-bit operands. */
  predicate GreaterThan(lhs: Id, rhs: Id) {
    var lhsGtrRhs := lhs > rhs;
    var diff := if lhsGtrRhs then lhs - rhs else rhs - lhs;
    if diff > HALF then !lhsGtrRhs else lhsGtrRhs
  }

  /** The only index in `[from, from + 65536)` that carries `id`. */
  function IndexAt(id: Id, from: int): (index: int)
    ensures from <= index < from + 65536 && Wrap(index) == id
    ensures forall k :: from <= k < from + 65536 && Wrap(k) == id ==> k == index
  {
    from + (id - from) % 65536
  }

  /** Exactly when the comparison of the wrapped identifiers agrees with the order of the indices:
  strictly less than half the space apart, or exactly half apart with the plain order agreeing. */
  predicate Comparable(i: int, j: int) {
    || (-HALF < i - j < HALF)
    || ((i - j == HALF || j - i == HALF) && (Wrap(i) > Wrap(j) <==> i > j))
  }

  lemma GreaterThanExact(i: int, j: int)
    requires -65536 < i - j < 65536
    ensures (GreaterThan(Wrap(i), Wrap(j)) <==> i > j) <==> Comparable(i, j)
  {
    var a, b := i / 65536, j / 65536;
    assert i == 65536 * a + Wrap(i) && j == 65536 * b + Wrap(j);
  }

  lemma GreaterThanTrichotomy(l: Id, r: Id)
    ensures l != r <==> (GreaterThan(l, r) != GreaterThan(r, l))
    ensures l == r ==> !GreaterThan(l, r)
  {
  }

  /** At distance exactly half, half of all positions are misjudged, in both directions. */
  lemma HalfDistanceFails(e: int)
    ensures Comparable(e + HALF, e) <==> Wrap(e) < HALF
    ensures Comparable(e - HALF, e) <==> Wrap(e) >= HALF
  {
    assert e == 65536 * (e / 65536) + Wrap(e);
    assert Wrap(e + HALF) == if Wrap(e) < HALF then Wrap(e) + HALF else Wrap(e) - HALF;
    assert Wrap(e - HALF) == if Wrap(e) < HALF then Wrap(e) + HALF else Wrap(e) - HALF;
  }

  lemma WrapSucc(n: int)
    ensures Wrap(Wrap(n) + 1) == Wrap(n + 1)
  {
  }

  lemma IndexAtStable(id: Id, from: int)
    requires id != Wrap(from)
    ensures IndexAt(id, from + 1) == IndexAt(id, from)
  {
  }

  /** `IDGenerator<T>::nextID`: a counter that wraps in place. */
  class IdGenerator {
    var next: Id
    ghost var issued: nat

    ghost predicate Valid() reads this { next == Wrap(issued) }

    constructor ()
      ensures Valid() && issued == 0
    {
      next, issued := 0, 0;
    }

    method NextID() returns (id: Id)
      requires Valid()
      modifies this
      ensures Valid()
      ensures id == Wrap(old(issued)) && issued == old(issued) + 1
    {
      id := next;
      next := if next == 65535 then 0 else next + 1;
      issued := issued + 1;
    }
  }
}

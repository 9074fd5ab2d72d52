/** The growing ring buffer (mrudp/base/detail/CircularBuffer.hpp), shown to be a plain sequence. */
module CircularBuffers {
  import opened Wire

  function Zeros(n: nat): (z: Bytes)
    ensures |z| == n
  {
    seq(n, _ => 0)
  }

  /** The live bytes: `size` of them from `begin`, running over the end of the buffer to its start. */
  function Contents(buffer: Bytes, begin: nat, size: nat): (c: Bytes)
    requires begin <= |buffer| && size <= |buffer|
    ensures |c| == size
  {
    if begin + size <= |buffer| then buffer[begin..begin + size]
    else buffer[begin..] + buffer[..begin + size - |buffer|]
  }

  /** `x % n` for the only arguments that occur. */
  function WrapOnce(x: nat, n: nat): nat {
    if x < n then x else x - n
  }

  lemma ModOnce(x: nat, n: nat)
    requires 0 < n && x < 2 * n
    ensures x % n == WrapOnce(x, n)
  {
    if x >= n {
      assert x == n + (x - n);
      assert x / n == 1;
    }
  }

  datatype Segment = Segment(to: nat, from: nat, size: nat)

  /** `segments`: where `dataSize` bytes starting at position `from` lie. */
  function Segments(n: nat, from: nat, dataSize: nat): (ss: (Segment, Segment))
    requires n > 0 ==> dataSize <= n
    ensures ss.0.size + ss.1.size == if n == 0 then 0 else dataSize
    ensures ss.0.from == 0 && ss.1.from == ss.0.size && ss.1.to == 0
    ensures n > 0 ==> ss.0.to == from % n && ss.0.to + ss.0.size <= n
    ensures 0 < n && from < 2 * n ==> ss.0.to == WrapOnce(from, n)
    ensures ss.1.size > 0 ==> ss.0.to + ss.0.size == n && ss.1.size <= ss.0.to
  {
    if n == 0 then (Segment(0, 0, 0), Segment(0, 0, 0))
    else
      var start := from % n;
      var end := start + dataSize;
      var over := if end > n then (ModOnce(end, n); end % n) else 0;
      assert from < 2 * n ==> start == WrapOnce(from, n) by { if from < 2 * n { ModOnce(from, n); } }
      (Segment(start, 0, end - over - start), Segment(0, end - over - start, over))
  }

  function Overlay(buffer: Bytes, at: nat, data: Bytes): (r: Bytes)
    requires at + |data| <= |buffer|
    ensures |r| == |buffer|
  {
    buffer[..at] + data + buffer[at + |data|..]
  }

  /** The buffer after writing `data` from position `from` on, wrapping at the end. */
  function Place(buffer: Bytes, from: nat, data: Bytes): (r: Bytes)
    requires |data| <= |buffer|
    requires |buffer| > 0 ==> from < 2 * |buffer|
    ensures |r| == |buffer|
  {
    var (a, b) := Segments(|buffer|, from, |data|);
    if |buffer| == 0 then buffer
    else Overlay(Overlay(buffer, a.to, data[..a.size]), b.to, data[a.size..])
  }

  // ---- what writing and growing do to the contents ----------------------------------------------

  lemma OverlayAt(buffer: Bytes, at: nat, data: Bytes, k: nat)
    requires at + |data| <= |buffer| && k < |buffer|
    ensures Overlay(buffer, at, data)[k] == if at <= k < at + |data| then data[k - at] else buffer[k]
  {
  }

  lemma ContentsAt(buffer: Bytes, begin: nat, size: nat, i: nat)
    requires begin <= |buffer| && size <= |buffer| && i < size
    ensures begin + i - |buffer| < |buffer|
    ensures Contents(buffer, begin, size)[i] == buffer[WrapOnce(begin + i, |buffer|)]
  {
  }

  /** Data cut in two, the second part going to the start of the buffer. */
  lemma LayAt(buffer: Bytes, at: nat, cut: nat, data: Bytes, k: nat)
    requires cut <= |data| <= |buffer| && at + cut <= |buffer| && k < |buffer|
    requires cut < |data| ==> at + cut == |buffer| && |data| - cut <= at
    ensures Overlay(Overlay(buffer, at, data[..cut]), 0, data[cut..])[k] ==
            if at <= k < at + |data| then data[k - at]
            else if k + |buffer| < at + |data| then data[k + |buffer| - at]
            else buffer[k]
  {
    OverlayAt(buffer, at, data[..cut], k);
    OverlayAt(Overlay(buffer, at, data[..cut]), 0, data[cut..], k);
  }

  lemma PlaceAt(buffer: Bytes, from: nat, data: Bytes, k: nat)
    requires |data| <= |buffer| && from < 2 * |buffer| && k < |buffer|
    ensures var start := WrapOnce(from, |buffer|);
            Place(buffer, from, data)[k] ==
            if start <= k < start + |data| then data[k - start]
            else if k + |buffer| < start + |data| then data[k + |buffer| - start]
            else buffer[k]
  {
    hide Segments, Overlay;
    var (a, _) := Segments(|buffer|, from, |data|);
    LayAt(buffer, a.to, a.size, data, k);
  }

  /** Writing right behind the live bytes appends to them. */
  lemma PlaceAppends(buffer: Bytes, begin: nat, size: nat, data: Bytes)
    requires begin < |buffer| && size + |data| <= |buffer|
    ensures Contents(Place(buffer, begin + size, data), begin, size + |data|) == Contents(buffer, begin, size) + data
  {
    hide Place, Contents;
    var n := |buffer|;
    var placed := Place(buffer, begin + size, data);
    forall i | 0 <= i < size + |data|
      ensures Contents(placed, begin, size + |data|)[i] == (Contents(buffer, begin, size) + data)[i]
    {
      ContentsAt(placed, begin, size + |data|, i);
      PlaceAt(buffer, begin + size, data, WrapOnce(begin + i, n));
      if i < size {
        ContentsAt(buffer, begin, size, i);
      }
    }
  }

  /** Growing a wrapped buffer: the part at its start is written again behind the old end, and the live
  bytes stay the same, even when that part is longer than the room gained. */
  lemma GrowWrapped(buffer: Bytes, begin: nat, size: nat, room: nat)
    requires begin < |buffer| && |buffer| <= begin + size && size <= |buffer| && 0 < room
    ensures var n, over := |buffer|, begin + size - |buffer|;
            Contents(Place(buffer + Zeros(room), n, buffer[..over]), begin, size) == Contents(buffer, begin, size)
  {
    hide Place, Contents;
    var n, over := |buffer|, begin + size - |buffer|;
    var larger := buffer + Zeros(room);
    var placed := Place(larger, n, buffer[..over]);
    forall i | 0 <= i < size
      ensures Contents(placed, begin, size)[i] == Contents(buffer, begin, size)[i]
    {
      ContentsAt(placed, begin, size, i);
      ContentsAt(buffer, begin, size, i);
      PlaceAt(larger, n, buffer[..over], WrapOnce(begin + i, n + room));
    }
  }

  lemma GrowStraight(buffer: Bytes, begin: nat, size: nat, room: nat)
    requires begin + size <= |buffer|
    ensures Contents(buffer + Zeros(room), begin, size) == Contents(buffer, begin, size)
  {
  }

  class CircularBuffer {
    var buffer: Bytes
    var begin_: nat
    var end_: nat
    /** Below zero only while `Grow` calls `Write`; the source's unsigned counter wraps and comes back. */
    var size_: int

    ghost predicate Valid()
      reads this
    {
      && 0 <= size_ <= |buffer|
      && (if |buffer| == 0 then begin_ == 0 else begin_ < |buffer|)
      && end_ == (if |buffer| == 0 then 0 else WrapOnce(begin_ + size_, |buffer|))
    }

    /** The sequence this buffer stands for. */
    ghost function Model(): (m: Bytes)
      requires Valid()
      reads this
      ensures |m| == size_
    {
      Contents(buffer, begin_, size_)
    }

    /** There is more than enough room, so writing only copies. */
    ghost predicate Roomy(dataSize: nat)
      reads this
    {
      begin_ < |buffer| && dataSize < |buffer| - size_ && 0 <= begin_ + size_ < 2 * |buffer| && dataSize <= |buffer|
    }

    constructor ()
      ensures Valid() && Model() == []
    {
      buffer, begin_, end_, size_ := [], 0, 0, 0;
    }

    method Clear()
      requires Valid()
      modifies this
      ensures Valid() && Model() == [] && buffer == old(buffer)
    {
      size_, end_, begin_ := 0, 0, 0;
    }

    /** `grow`: makes room and counts the bytes that are about to be written. */
    method Grow(dataSize: nat)
      requires Roomy(dataSize) || Valid()
      modifies this
      ensures size_ == old(size_) + dataSize && begin_ == old(begin_)
      ensures old(Roomy(dataSize)) || dataSize == 0 ==> buffer == old(buffer) && end_ == old(end_)
      ensures old(Valid()) ==> size_ <= |buffer| && (dataSize > 0 ==> begin_ < |buffer|)
      ensures old(Valid()) ==> Contents(buffer, begin_, old(size_)) == old(Model())
      decreases |buffer| - size_ <= dataSize, 2
    {
      hide Contents;
      if dataSize == 0 {
        return;
      }
      if |buffer| - size_ <= dataSize {
        Enlarge(dataSize);
      }
      size_ := size_ + dataSize;
    }

    /** The resizing branch of `grow`. */
    method Enlarge(dataSize: nat)
      requires Valid() && dataSize > 0 && |buffer| - size_ <= dataSize
      modifies this
      ensures size_ == old(size_) && begin_ == old(begin_) && |buffer| == old(|buffer|) + dataSize
      ensures Contents(buffer, begin_, size_) == old(Model())
      decreases true, 1
    {
      hide Contents, Place;
      var previousBufferSize := |buffer|;
      buffer := buffer + Zeros(dataSize);
      if end_ <= begin_ {
        var previousEnd := end_;
        end_ := previousBufferSize;
        if previousEnd > 0 {
          size_ := size_ - previousEnd;
          assert Roomy(previousEnd);
          assert buffer[..previousEnd] == old(buffer)[..previousEnd];
          Write(Some(buffer[..previousEnd]), previousEnd);
        }
        RegrowCorrect(old(buffer), buffer, begin_, old(size_), old(end_), dataSize);
      } else {
        GrowStraight(old(buffer), begin_, size_, dataSize);
      }
    }

    /** The copying half of `write`: one or two segments. */
    method CopyIn(from: nat, source: Bytes)
      requires if |buffer| == 0 then source == [] else |source| <= |buffer| && from < 2 * |buffer|
      modifies this`buffer, this`end_
      ensures buffer == Place(old(buffer), from, source)
      ensures end_ == if source == [] then old(end_) else WrapOnce(WrapOnce(from, |buffer|) + |source|, |buffer|)
    {
      hide Overlay;
      var (a, b) := Segments(|buffer|, from, |source|);
      assert source[..a.size] == source[a.from..a.from + a.size];
      assert source[a.size..] == source[b.from..b.from + b.size];
      OverlayNothing(buffer, a.to);
      if a.size > 0 {
        buffer := Overlay(buffer, a.to, source[a.from..a.from + a.size]);
        ModOnce(a.to + a.size, |buffer|);
        end_ := (a.to + a.size) % |buffer|;
      }
      OverlayNothing(buffer, b.to);
      if b.size > 0 {
        buffer := Overlay(buffer, b.to, source[b.from..b.from + b.size]);
        ModOnce(b.to + b.size, |buffer|);
        end_ := (b.to + b.size) % |buffer|;
      }
    }

    /** `write`; a missing source means zeros. Inside `Enlarge` only the first contract applies: that call
    has room to spare and never resizes again. */
    method Write(data: Option<Bytes>, dataSize: nat)
      requires data.Some? ==> |data.value| == dataSize
      requires Roomy(dataSize) || Valid()
      modifies this
      ensures old(Roomy(dataSize)) ==>
                && begin_ == old(begin_) && size_ == old(size_) + dataSize
                && buffer == Place(old(buffer), old(begin_ + size_), Source(data, dataSize))
      ensures old(Valid()) ==> Valid() && Model() == old(Model()) + Source(data, dataSize)
      decreases |buffer| - size_ <= dataSize, 3
    {
      hide Contents, Place;
      var size := size_;
      Grow(dataSize);
      ghost var grown := buffer;
      CopyIn(begin_ + size, Source(data, dataSize));
      if old(Valid()) {
        if dataSize == 0 {
          NothingPlaced(grown, begin_ + size, Source(data, dataSize));
          assert old(Model()) + Source(data, dataSize) == old(Model());
        } else {
          PlaceAppends(grown, begin_, size, Source(data, dataSize));
        }
      }
    }

    /** `peek`: copies the first bytes without removing them. */
    method Peek(dataSize: nat) returns (data: Bytes)
      requires Valid() && dataSize <= size_
      ensures data == Model()[..dataSize]
    {
      hide Segments, Contents;
      data := [];
      if dataSize == 0 {
        return;
      }
      var (a, b) := Segments(|buffer|, begin_, dataSize);
      if a.size > 0 {
        data := data + buffer[a.to..a.to + a.size];
      }
      if b.size > 0 {
        data := data + buffer[b.to..b.to + b.size];
      }
      FrontContents(buffer, begin_, size_, a.size, b.size);
      assert data == buffer[begin_..begin_ + a.size] + buffer[..b.size];
    }

    method Skip(dataSize: nat)
      requires Valid() && dataSize <= size_
      modifies this
      ensures Valid() && Model() == old(Model())[dataSize..]
    {
      if dataSize == 0 {
        return;
      }
      begin_ := begin_ + dataSize;
      ModOnce(begin_, |buffer|);
      begin_ := begin_ % |buffer|;
      size_ := size_ - dataSize;
      SkipContents(buffer, old(begin_), old(size_), dataSize);
    }

    method Read(dataSize: nat) returns (data: Bytes)
      requires Valid() && dataSize <= size_
      modifies this
      ensures Valid() && data + Model() == old(Model()) && |data| == dataSize
    {
      data := Peek(dataSize);
      Skip(dataSize);
    }
  }

  /** The front of the contents, in two parts where it wraps. */
  lemma FrontContents(buffer: Bytes, begin: nat, size: nat, first: nat, second: nat)
    requires begin < |buffer| && size <= |buffer| && first + second <= size && begin + first <= |buffer|
    requires second > 0 ==> begin + first == |buffer|
    ensures Contents(buffer, begin, size)[..first + second] == buffer[begin..begin + first] + buffer[..second]
  {
  }

  lemma OverlayNothing(buffer: Bytes, at: nat)
    requires at <= |buffer|
    ensures Overlay(buffer, at, []) == buffer
  {
  }

  lemma NothingPlaced(buffer: Bytes, from: nat, data: Bytes)
    requires data == [] && (|buffer| > 0 ==> from < 2 * |buffer|)
    ensures Place(buffer, from, data) == buffer
  {
  }

  lemma SkipContents(buffer: Bytes, begin: nat, size: nat, skipped: nat)
    requires begin < |buffer| && size <= |buffer| && skipped <= size
    ensures Contents(buffer, WrapOnce(begin + skipped, |buffer|), size - skipped) ==
        Contents(buffer, begin, size)[skipped..]
  {
    hide Contents;
    var at := WrapOnce(begin + skipped, |buffer|);
    forall i | 0 <= i < size - skipped
      ensures Contents(buffer, at, size - skipped)[i] == Contents(buffer, begin, size)[skipped..][i]
    {
      ContentsAt(buffer, at, size - skipped, i);
      ContentsAt(buffer, begin, size, skipped + i);
    }
  }

  function Source(data: Option<Bytes>, dataSize: nat): (s: Bytes)
    requires data.Some? ==> |data.value| == dataSize
    ensures |s| == dataSize
  {
    if data.Some? then data.value else Zeros(dataSize)
  }

  lemma RegrowCorrect(before: Bytes, after: Bytes, begin: nat, size: nat, end: nat, room: nat)
    requires size <= |before| && 0 < room && (if |before| == 0 then begin == 0 else begin < |before|)
    requires end == (if |before| == 0 then 0 else WrapOnce(begin + size, |before|)) <= begin
    requires after == if end > 0 then Place(before + Zeros(room), begin + size - end, before[..end])
        else before + Zeros(room)
    ensures |after| == |before| + room
    ensures Contents(after, begin, size) == Contents(before, begin, size)
  {
    if size == 0 {
    } else if end > 0 {
      GrowWrapped(before, begin, size, room);
    } else {
      GrowStraight(before, begin, size, room);
    }
  }

  // ---- any mix of operations ---------------------------------------------------------------------

  datatype Op = Append(data: Bytes) | AppendZeros(n: nat) | Take(n: nat) | Look(n: nat) | Drop(n: nat) | Reset

  /** What an operation does to a plain sequence, and what it returns. Asking for more than there is, which
  the buffer leaves to its callers, is passed over. */
  function OnSequence(s: Bytes, op: Op): (Bytes, Bytes) {
    match op
    case Append(data) => (s + data, [])
    case AppendZeros(n) => (s + Zeros(n), [])
    case Take(n) => if n <= |s| then (s[n..], s[..n]) else (s, [])
    case Look(n) => if n <= |s| then (s, s[..n]) else (s, [])
    case Drop(n) => if n <= |s| then (s[n..], []) else (s, [])
    case Reset => ([], [])
  }

  function Replay(s: Bytes, ops: seq<Op>): (Bytes, seq<Bytes>)
    decreases |ops|
  {
    if ops == [] then (s, [])
    else
      var (t, out) := OnSequence(s, ops[0]);
      var (u, outs) := Replay(t, ops[1..]);
      (u, [out] + outs)
  }

  method ApplyOp(ring: CircularBuffer, op: Op) returns (out: Bytes)
    requires ring.Valid()
    modifies ring
    ensures ring.Valid() && (ring.Model(), out) == OnSequence(old(ring.Model()), op)
  {
    out := [];
    match op {
      case Append(data) => ring.Write(Some(data), |data|);
      case AppendZeros(n) => ring.Write(None, n);
      case Take(n) => if n <= ring.size_ { out := ring.Read(n); }
      case Look(n) => if n <= ring.size_ { out := ring.Peek(n); }
      case Drop(n) => if n <= ring.size_ { ring.Skip(n); }
      case Reset => ring.Clear();
    }
  }

  /** A ring buffer that starts empty cannot be told from a sequence, whatever is done with it. */
  method ReplayOnRing(ops: seq<Op>) returns (rest: Bytes, outs: seq<Bytes>)
    ensures (rest, outs) == Replay([], ops)
  {
    var ring := new CircularBuffer();
    outs := [];
    var i := 0;
    assert ops[0..] == ops;
    while i < |ops|
      invariant 0 <= i <= |ops| && ring.Valid() && fresh(ring)
      invariant Replay([], ops).0 == Replay(ring.Model(), ops[i..]).0
      invariant Replay([], ops).1 == outs + Replay(ring.Model(), ops[i..]).1
    {
      assert ops[i..][1..] == ops[i + 1..];
      var out := ApplyOp(ring, ops[i]);
      ghost var later := Replay(ring.Model(), ops[i + 1..]).1;
      assert outs + ([out] + later) == outs + [out] + later;
      outs := outs + [out];
      i := i + 1;
    }
    rest := ring.Peek(ring.size_);
    assert ops[i..] == [] && rest == ring.Model() && outs + [] == outs;
  }
}

/** Bytes, little-endian integers and the frame layout of data packets (mrudp/Packet.h, mrudp/Packet.inl). */
module Wire {
  import opened Serial

  type Byte = x: int | 0 <= x < 256
  type Bytes = seq<Byte>

  datatype Option<+T> = None | Some(value: T)

  // ---- fixed-width integers ------------------------------------------------------------------

  function U16(n: int): (b: Bytes)
    ensures |b| == 2
  {
    [n % 256, n / 256 % 256]
  }

  function FromU16(b: Bytes): (n: Id)
    requires |b| >= 2
  {
    var lo: int, hi: int := b[0], b[1];
    lo + 256 * hi
  }

  /** `uint32_t` as it lies in memory; larger values are truncated, as the casts in the source do. */
  function U32(n: int): (b: Bytes)
    ensures |b| == 4
  {
    U16(n) + U16(n / 65536)
  }

  function FromU32(b: Bytes): (n: int)
    requires |b| >= 4
    ensures 0 <= n < 0x1_0000_0000
  {
    FromU16(b[..2]) + 65536 * FromU16(b[2..4])
  }

  lemma U16RoundTrip(n: int, tail: Bytes)
    ensures FromU16(U16(n) + tail) == n % 65536
  {
    var b := U16(n) + tail;
    assert b[0] == n % 256 && b[1] == n / 256 % 256;
    SplitU16(n);
  }

  lemma SplitU16(n: int)
    ensures n % 256 + 256 * (n / 256 % 256) == n % 65536
  {
    var q, r := n / 65536, n % 65536;
    assert n / 256 == 256 * q + r / 256;
  }

  lemma SplitU32(n: int)
    ensures n % 65536 + 65536 * (n / 65536 % 65536) == n % 0x1_0000_0000
  {
    var q := n / 0x1_0000_0000;
    var r := n % 0x1_0000_0000;
    assert n / 65536 == 65536 * q + r / 65536;
  }

  lemma FromU32Prefix(a: Bytes, b: Bytes)
    requires 4 <= |a| && a <= b
    ensures FromU32(a) == FromU32(b)
  {
    assert b == a + b[|a|..];
  }

  lemma U32RoundTrip(n: int, tail: Bytes)
    ensures FromU32(U32(n) + tail) == n % 0x1_0000_0000
  {
    hide U16, FromU16;
    var b := U32(n) + tail;
    U16RoundTrip(n, []);
    U16RoundTrip(n / 65536, []);
    assert b[..2] == U16(n) + [];
    assert b[2..4] == U16(n / 65536) + [];
    SplitU32(n);
  }

  lemma SubsetCard<T>(a: set<T>, b: set<T>)
    requires a <= b
    ensures |a| <= |b| && (|a| == |b| ==> a == b)
    decreases |a|
  {
    if a != {} {
      var x :| x in a;
      SubsetCard(a - {x}, b - {x});
      assert a == a - {x} + {x} && b == b - {x} + {x};
    }
  }

  lemma Assoc<T>(a: seq<T>, b: seq<T>, c: seq<T>)
    ensures a + b + c == a + (b + c)
  {
  }

  lemma Uncons<T>(s: seq<T>)
    requires s != []
    ensures s == [s[0]] + s[1..]
  {
  }

  // ---- frames --------------------------------------------------------------------------------

  const ACK_FRAME: Byte := 65         // 'A'
  const DATA: Byte := 84              // 'T'
  const CLOSE_WRITE: Byte := 87       // 'W'
  const DATA_COMPRESSED: Byte := 90   // 'Z'

  // packet types
  const DATA_RELIABLE: Byte := 82     // 'R'
  const DATA_UNRELIABLE: Byte := 85   // 'U'
  const PROBE: Byte := 80             // 'P'
  const CLOSE_READ: Byte := 73        // 'I'

  const MAX_PACKET_SIZE := 1500
  const FRAME_HEADER_SIZE := 5
  const MAX_PACKET_POST_FRAME_SIZE := 1436
  const MAX_PACKET_DATA_SIZE := 1431

  datatype Frame = Frame(id: Id, typ: Byte, data: Bytes)

  /** The size field of a frame header has sixteen bits. */
  ghost predicate ValidFrames(fs: seq<Frame>) {
    forall i :: 0 <= i < |fs| ==> |fs[i].data| < 65536
  }

  function EncodeHeader(id: Id, typ: Byte, size: int): (b: Bytes)
    ensures |b| == FRAME_HEADER_SIZE
  {
    U16(id) + [typ] + U16(size)
  }

  function EncodeFrame(f: Frame): (b: Bytes)
    ensures |b| == FRAME_HEADER_SIZE + |f.data|
  {
    EncodeHeader(f.id, f.typ, |f.data|) + f.data
  }

  function EncodeFrames(fs: seq<Frame>): Bytes {
    if fs == [] then [] else EncodeFrame(fs[0]) + EncodeFrames(fs[1..])
  }

  /** What the receive loop visits in a packet body: it stops at the first header that is cut off or
  whose payload would run past the end. */
  function Walk(b: Bytes): (fs: seq<Frame>) {
    if |b| < FRAME_HEADER_SIZE then []
    else
      var size, body := FromU16(b[3..]), b[5..];
      if |body| < size then []
      else [Frame(FromU16(b), b[2], body[..size])] + Walk(body[size..])
  }

  lemma EncodeCons(f: Frame, fs: seq<Frame>)
    ensures EncodeFrames([f] + fs) == EncodeFrame(f) + EncodeFrames(fs)
  {
    hide EncodeFrame;
    assert ([f] + fs)[1..] == fs;
  }

  lemma {:induction false} EncodeAppend(fs: seq<Frame>, gs: seq<Frame>)
    ensures EncodeFrames(fs + gs) == EncodeFrames(fs) + EncodeFrames(gs)
  {
    if fs == [] {
      assert fs + gs == gs;
    } else {
      hide EncodeFrames, EncodeFrame;
      var f, tail := fs[0], fs[1..];
      Uncons(fs);
      Assoc([f], tail, gs);
      EncodeCons(f, tail);
      EncodeCons(f, tail + gs);
      EncodeAppend(tail, gs);
      Assoc(EncodeFrame(f), EncodeFrames(tail), EncodeFrames(gs));
    }
  }

  lemma EncodeOne(f: Frame)
    ensures EncodeFrames([f]) == EncodeFrame(f)
  {
    assert [f][1..] == [];
    assert EncodeFrames([f][1..]) == [];
  }

  lemma HeaderFields(id: Id, typ: Byte, size: int, rest: Bytes)
    ensures var b := EncodeHeader(id, typ, size) + rest;
            FromU16(b) == id && b[2] == typ && FromU16(b[3..]) == size % 65536 && b[5..] == rest
  {
    hide U16, FromU16;
    var b := EncodeHeader(id, typ, size) + rest;
    U16RoundTrip(id, b[2..]);
    assert b == U16(id) + b[2..];
    U16RoundTrip(size, rest);
    assert b[3..] == U16(size) + rest;
  }

  lemma WalkUnfold(b: Bytes, data: Bytes, tail: Bytes)
    requires |b| >= FRAME_HEADER_SIZE && b[5..] == data + tail && FromU16(b[3..]) == |data|
    ensures Walk(b) == [Frame(FromU16(b), b[2], data)] + Walk(tail)
  {
    var body := b[5..];
    assert body[..|data|] == data;
    assert body[|data|..] == tail;
  }

  lemma WalkFrame(f: Frame, tail: Bytes)
    requires |f.data| < 65536
    ensures Walk(EncodeFrame(f) + tail) == [f] + Walk(tail)
  {
    hide EncodeHeader, FromU16, Walk;
    HeaderFields(f.id, f.typ, |f.data|, f.data + tail);
    assert EncodeFrame(f) + tail == EncodeHeader(f.id, f.typ, |f.data|) + (f.data + tail);
    WalkUnfold(EncodeFrame(f) + tail, f.data, tail);
  }

  /** The receive loop undoes the pushes of the send queue: same frames, same order, nothing else. */
  lemma {:induction false} WalkEncode(fs: seq<Frame>, tail: Bytes)
    requires ValidFrames(fs)
    ensures Walk(EncodeFrames(fs) + tail) == fs + Walk(tail)
  {
    if fs == [] {
      assert EncodeFrames(fs) + tail == tail;
    } else {
      hide EncodeFrames, EncodeFrame, Walk;
      var f, rest := fs[0], fs[1..];
      assert ValidFrames(rest);
      Uncons(fs);
      EncodeCons(f, rest);
      WalkEncode(rest, tail);
      Assoc(EncodeFrame(f), EncodeFrames(rest), tail);
      WalkFrame(f, EncodeFrames(rest) + tail);
      Assoc([f], rest, Walk(tail));
    }
  }

  lemma WalkRoundTrip(fs: seq<Frame>)
    requires ValidFrames(fs)
    ensures Walk(EncodeFrames(fs)) == fs
  {
    WalkEncode(fs, []);
    assert EncodeFrames(fs) + [] == EncodeFrames(fs);
  }

  lemma ReencodeHeader(b: Bytes)
    requires |b| >= FRAME_HEADER_SIZE
    ensures EncodeHeader(FromU16(b), b[2], FromU16(b[3..])) == b[..5]
  {
    assert U16(FromU16(b)) == b[..2];
    assert U16(FromU16(b[3..])) == b[3..5];
  }

  /** On arbitrary bytes the walk stays inside the packet: re-encoding the visited frames gives back a
  prefix of the input. */
  lemma {:induction false} WalkStaysInside(b: Bytes)
    ensures ValidFrames(Walk(b))
    ensures EncodeFrames(Walk(b)) <= b
    decreases |b|
  {
    hide EncodeHeader, EncodeFrame, EncodeFrames, FromU16, Walk;
    if |b| >= FRAME_HEADER_SIZE && |b| - 5 >= FromU16(b[3..]) {
      var size := FromU16(b[3..]);
      var payload, rest := b[5..5 + size], b[5 + size..];
      assert b[5..] == payload + rest;
      var f := Frame(FromU16(b), b[2], payload);
      WalkUnfold(b, payload, rest);
      WalkStaysInside(rest);
      ReencodeFrame(b, f);
      EncodeCons(f, Walk(rest));
      assert b == b[..5 + size] + rest;
    } else {
      WalkEnds(b);
    }
  }

  lemma ReencodeFrame(b: Bytes, f: Frame)
    requires |b| >= FRAME_HEADER_SIZE && |b| >= 5 + |f.data| && FromU16(b[3..]) == |f.data|
    requires f == Frame(FromU16(b), b[2], b[5..5 + |f.data|])
    ensures EncodeFrame(f) == b[..5 + |f.data|]
  {
    hide EncodeHeader, FromU16;
    ReencodeHeader(b);
  }

  lemma WalkEnds(b: Bytes)
    requires |b| < FRAME_HEADER_SIZE || |b| - 5 < FromU16(b[3..])
    ensures Walk(b) == [] && EncodeFrames(Walk(b)) == []
  {
    hide FromU16;
  }

  /** Total number of bytes a list of frames takes in a packet. */
  function FramesSize(fs: seq<Frame>): nat {
    |EncodeFrames(fs)|
  }

  // ---- sequences of byte strings --------------------------------------------------------------

  function Concat<T>(ss: seq<seq<T>>): seq<T> {
    if ss == [] then [] else ss[0] + Concat(ss[1..])
  }

  lemma ConcatCons<T>(s: seq<T>, ss: seq<seq<T>>)
    ensures Concat([s] + ss) == s + Concat(ss)
  {
    assert ([s] + ss)[1..] == ss;
  }

  lemma {:induction false} ConcatAppend<T>(a: seq<seq<T>>, b: seq<seq<T>>)
    ensures Concat(a + b) == Concat(a) + Concat(b)
  {
    if a == [] {
      assert a + b == b;
    } else {
      hide Concat;
      var s, tail := a[0], a[1..];
      Uncons(a);
      Assoc([s], tail, b);
      ConcatCons(s, tail);
      ConcatCons(s, tail + b);
      ConcatAppend(tail, b);
      Assoc(s, Concat(tail), Concat(b));
    }
  }

  lemma ConcatOne<T>(s: seq<T>)
    ensures Concat([s]) == s
  {
    assert [s][1..] == [];
    assert Concat([s][1..]) == [];
  }

  lemma ConcatSnoc<T>(a: seq<seq<T>>, s: seq<T>)
    ensures Concat(a + [s]) == Concat(a) + s
  {
    ConcatAppend(a, [s]);
    ConcatOne(s);
  }
}

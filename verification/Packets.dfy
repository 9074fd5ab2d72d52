/** The packet buffer used as a stack of bytes: pushes append at the tail, pops take from the tail
(mrudp/Packet.inl). */
module Packets {
  import opened Serial
  import opened Wire

  datatype Popped = Short | Popped(body: Bytes, value: Bytes)

  /** Taking `size` bytes off the tail of a packet body. */
  function PopTail(body: Bytes, size: nat): (p: Popped)
    ensures p.Short? <==> |body| < size
    ensures p.Popped? ==> p.body + p.value == body && |p.value| == size
  {
    if |body| < size then Short else Popped(body[..|body| - size], body[|body| - size..])
  }

  /** Pops undo pushes, last in first out. */
  lemma PopPush(body: Bytes, value: Bytes)
    ensures PopTail(body + value, |value|) == Popped(body, value)
  {
    assert (body + value)[..|body|] == body;
    assert (body + value)[|body|..] == value;
  }

  lemma NoneSized(body: Bytes)
    requires PopTail(body, 2).Short?
    ensures forall b: Bytes, v: Bytes :: body != b + v + U16(|v|)
  {
  }

  /** What a push leaves behind; a value that does not fit is dropped. */
  function PushTail(body: Bytes, value: Bytes): (r: Bytes)
    ensures |body| <= MAX_PACKET_SIZE ==> |r| <= MAX_PACKET_SIZE
  {
    if |body| + |value| <= MAX_PACKET_SIZE then body + value else body
  }

  class Packet {
    var typ: Byte
    var id: Id
    var connection: Id
    const data: array<Byte>
    var dataSize: nat

    ghost predicate Valid()
      reads this
    {
      data.Length == MAX_PACKET_SIZE && dataSize <= MAX_PACKET_SIZE
    }

    ghost function Body(): Bytes
      requires Valid()
      reads this, data
    {
      data[..dataSize]
    }

    constructor ()
      ensures Valid() && Body() == [] && fresh(data)
    {
      data := new Byte[MAX_PACKET_SIZE];
      dataSize := 0;
      typ, id, connection := 0, 0, 0;
    }

    /** `pushData` on raw bytes. The caller keeps `value` within 1500 bytes: the source's unsigned
    subtraction `MAX_PACKET_SIZE - size` is only meaningful then. */
    method PushData(value: Bytes) returns (ok: bool)
      requires Valid() && |value| <= MAX_PACKET_SIZE
      modifies this`dataSize, data
      ensures Valid()
      ensures Body() == PushTail(old(Body()), value)
      ensures ok <==> old(dataSize) + |value| <= MAX_PACKET_SIZE
      ensures Body() == if ok then old(Body()) + value else old(Body())
    {
      if dataSize > MAX_PACKET_SIZE - |value| {
        return false;
      }
      forall i | 0 <= i < |value| {
        data[dataSize + i] := value[i];
      }
      dataSize := dataSize + |value|;
      assert data[..dataSize] == old(data[..dataSize]) + value;
      return true;
    }

    /** The typed `pushData`: it reports success whether or not the bytes fitted. */
    method PushValue(value: Bytes) returns (ok: bool)
      requires Valid() && |value| <= MAX_PACKET_SIZE
      modifies this`dataSize, data
      ensures Valid() && ok
      ensures Body() == PushTail(old(Body()), value)
    {
      var _ := PushData(value);
      return true;
    }

    method PopData(size: nat) returns (value: Option<Bytes>)
      requires Valid()
      modifies this`dataSize
      ensures Valid()
      ensures match PopTail(old(Body()), size)
              case Short => value == None && Body() == old(Body())
              case Popped(body, v) => value == Some(v) && Body() == body
    {
      if dataSize < size {
        return None;
      }
      dataSize := dataSize - size;
      return Some(data[dataSize..dataSize + size]);
    }

    method PeekData(size: nat) returns (value: Option<Bytes>)
      requires Valid()
      ensures match PopTail(Body(), size)
              case Short => value == None
              case Popped(_, v) => value == Some(v)
    {
      if dataSize < size {
        return None;
      }
      return Some(data[dataSize - size..dataSize]);
    }

    /** `pushFrame`. When header and payload fit, exactly one encoded frame is appended. A header that does not fit
    is dropped without notice, and only the payload decides the answer. */
    method PushFrame(id: Id, typ: Byte, payload: Bytes) returns (ok: bool)
      requires Valid() && |payload| <= MAX_PACKET_SIZE
      modifies this`dataSize, data
      ensures Valid()
      ensures Body() == PushTail(PushTail(old(Body()), EncodeHeader(id, typ, |payload|)), payload)
      ensures ok <==> |PushTail(old(Body()), EncodeHeader(id, typ, |payload|))| + |payload| <= MAX_PACKET_SIZE
      ensures old(dataSize) + FRAME_HEADER_SIZE + |payload| <= MAX_PACKET_SIZE ==>
                ok && Body() == old(Body()) + EncodeFrame(Frame(id, typ, payload))
    {
      hide EncodeHeader;
      var pushed := PushValue(EncodeHeader(id, typ, |payload|));
      ok := PushData(payload);
      ok := pushed && ok;
      assert old(dataSize) + FRAME_HEADER_SIZE + |payload| <= MAX_PACKET_SIZE ==>
          Body() == old(Body()) + (EncodeHeader(id, typ, |payload|) + payload);
    }

    /** `pushSizedData`: payload first, then its sixteen-bit size on top. */
    method PushSized(value: Bytes) returns (ok: bool)
      requires Valid() && |value| <= MAX_PACKET_SIZE
      modifies this`dataSize, data
      ensures Valid()
      ensures ok <==> old(dataSize) + |value| <= MAX_PACKET_SIZE
      ensures Body() == if ok then PushTail(old(Body()) + value, U16(|value|)) else old(Body())
      ensures old(dataSize) + |value| + 2 <= MAX_PACKET_SIZE ==> Body() == old(Body()) + value + U16(|value|)
    {
      hide U16;
      ok := PushData(value);
      if ok {
        ok := PushValue(U16(|value|));
      }
    }

    /** `popSizedData`. When the size is there but not as many bytes, the size is gone all the same. */
    method PopSized() returns (value: Option<Bytes>)
      requires Valid()
      modifies this`dataSize
      ensures Valid()
      ensures match PopTail(old(Body()), 2)
              case Short => value == None && Body() == old(Body())
              case Popped(rest, size) =>
                (match PopTail(rest, FromU16(size))
                 case Short => value == None && Body() == rest
                 case Popped(body, v) => value == Some(v) && Body() == body)
      ensures forall body, v :: |v| < 65536 && old(Body()) == body + v + U16(|v|) ==> value == Some(v) && Body() == body
    {
      hide FromU16, U16, PopTail;
      ghost var was := Body();
      var size := PopData(2);
      if size == None {
        NoneSized(was);
        return None;
      }
      value := PopData(FromU16(size.value));
      forall body, v | |v| < 65536 && was == body + v + U16(|v|)
        ensures value == Some(v) && Body() == body
      {
        PopPush(body + v, U16(|v|));
        U16RoundTrip(|v|, []);
        assert U16(|v|) + [] == U16(|v|);
        PopPush(body, v);
      }
    }
  }
}

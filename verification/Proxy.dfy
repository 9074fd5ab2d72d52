/** The wire between two proxies: queued messages are batched, batches travel over a byte stream that may be
cut anywhere, and the far side dispatches them (mrudp/Proxy.cpp). */
module Proxies {
  import opened Wire
  import opened SendQueues

  const OPEN: Byte := 0
  const CLOSE: Byte := 1
  const RELIABLE: Byte := 2
  const UNRELIABLE: Byte := 3

  /** A call of `proxy_send_queue`. */
  datatype Message = Message(id: int, typ: Byte, data: Bytes)

  /** What `on_wire_packet` does with a message. */
  datatype Event = Opened(id: int, address: Bytes) | Closed(id: int) | Data(id: int, reliable: bool, data: Bytes)

  function Header(m: Message): (b: Bytes)
    ensures |b| == 7
  {
    U16(|m.data|) + U32(m.id) + [m.typ]
  }

  function Encode(m: Message): Bytes {
    Header(m) + m.data
  }

  function EncodeAll(ms: seq<Message>): Bytes {
    if ms == [] then [] else Encode(ms[0]) + EncodeAll(ms[1..])
  }

  const ADDRESS_SIZE := 7

  /** Messages as the proxies make them: an open message carries an address (marked '4'), a close message
  nothing; the size field has sixteen bits and the id thirty-two. */
  predicate WellFormed(m: Message) {
    && 0 <= m.id < 0x1_0000_0000 && |m.data| < 65536
    && match m.typ
       case 0 => |m.data| == ADDRESS_SIZE && m.data[0] == 52
       case 1 => m.data == []
       case _ => m.typ == RELIABLE || m.typ == UNRELIABLE
  }

  ghost predicate AllWellFormed(ms: seq<Message>) {
    forall i :: 0 <= i < |ms| ==> WellFormed(ms[i])
  }

  function EventOf(m: Message): Event {
    if m.typ == OPEN then Opened(m.id, if m.data == [] then [] else m.data[1..])
    else if m.typ == CLOSE then Closed(m.id)
    else Data(m.id, m.typ == RELIABLE, m.data)
  }

  function Events(ms: seq<Message>): (es: seq<Event>)
    ensures |es| == |ms|
  {
    if ms == [] then [] else [EventOf(ms[0])] + Events(ms[1..])
  }

  // ---- dispatching one batch -------------------------------------------------------------------

  /** One turn of the loop of `on_wire_packet`: the event, if any, and what is left to parse. */
  datatype Turn = Malformed | Turn(event: Option<Event>, rest: Bytes)

  function Next(b: Bytes): (t: Turn)
    ensures t.Turn? ==> |t.rest| < |b|
  {
    if |b| < 7 then Malformed
    else
      var size, id, typ, body := FromU16(b), FromU32(b[2..]), b[6], b[7..];
      if typ == OPEN then
        if |body| < ADDRESS_SIZE || body[0] != 52 then Malformed
        else Turn(Some(Opened(id, body[1..ADDRESS_SIZE])), body[ADDRESS_SIZE..])
      else if typ == CLOSE then Turn(Some(Closed(id)), body)
      else if typ == RELIABLE || typ == UNRELIABLE then
        if |body| < size then Malformed
        else Turn(Some(Data(id, typ == RELIABLE, body[..size])), body[size..])
      else Turn(None, body)
  }

  /** `on_wire_packet`: the events of a batch, up to the first malformed message. */
  function Dispatch(b: Bytes): seq<Event>
    decreases |b|
  {
    if b == [] then []
    else match Next(b)
      case Malformed => []
      case Turn(e, rest) => (if e.Some? then [e.value] else []) + Dispatch(rest)
  }

  lemma HeaderFields(m: Message, tail: Bytes)
    ensures var b := Header(m) + tail;
            FromU16(b) == |m.data| % 65536 && FromU32(b[2..]) == m.id % 0x1_0000_0000 && b[6] == m.typ && b[7..] == tail
  {
    hide U16, U32, FromU16, FromU32;
    var b := Header(m) + tail;
    U16RoundTrip(|m.data|, b[2..]);
    assert b == U16(|m.data|) + b[2..];
    U32RoundTrip(m.id, b[6..]);
    assert b[2..] == U32(m.id) + b[6..];
  }

  lemma NextEncode(m: Message, tail: Bytes)
    requires WellFormed(m)
    ensures Next(Encode(m) + tail) == Turn(Some(EventOf(m)), tail)
  {
    hide Header, FromU16, FromU32;
    HeaderFields(m, m.data + tail);
    assert Encode(m) + tail == Header(m) + (m.data + tail);
    var body := m.data + tail;
    assert body[..|m.data|] == m.data && body[|m.data|..] == tail;
    if m.typ == OPEN {
      assert body[1..ADDRESS_SIZE] == m.data[1..];
    }
  }

  /** A batch is dispatched as exactly the messages it was made of, in order. */
  lemma {:induction false} DispatchRoundTrip(ms: seq<Message>)
    requires AllWellFormed(ms)
    ensures Dispatch(EncodeAll(ms)) == Events(ms)
  {
    hide Encode, Next, EventOf;
    if ms != [] {
      DispatchRoundTrip(ms[1..]);
      NextEncode(ms[0], EncodeAll(ms[1..]));
      EncodeNonEmpty(ms[0]);
    } else {
      assert EncodeAll(ms) == [];
    }
  }

  /** The message a proxy queues so that the other one opens, closes or sends (`on_mode_packet`, `on_proxy_close`,
  `on_proxy_packet`). */
  function MessageFor(e: Event): Message {
    match e
    case Opened(id, address) => Message(id, OPEN, [52] + address)
    case Closed(id) => Message(id, CLOSE, [])
    case Data(id, reliable, data) => Message(id, if reliable then RELIABLE else UNRELIABLE, data)
  }

  function MessagesFor(es: seq<Event>): seq<Message> {
    if es == [] then [] else [MessageFor(es[0])] + MessagesFor(es[1..])
  }

  /** Four bytes of address and two of port, data that the size field can count, ids of thirty-two bits. */
  predicate Sayable(e: Event) {
    && 0 <= e.id < 0x1_0000_0000
    && (e.Opened? ==> |e.address| == 6) && (e.Data? ==> |e.data| < 65536)
  }

  lemma MessageForRoundTrip(e: Event)
    requires Sayable(e)
    ensures WellFormed(MessageFor(e)) && EventOf(MessageFor(e)) == e
  {
    if e.Opened? {
      assert ([52] + e.address)[1..] == e.address;
    }
  }

  /** What one proxy wants done is what the other one does: the same calls, with the same ids, addresses, data and
  reliability, in the same order. */
  lemma {:induction false} CallsAreRepeated(es: seq<Event>)
    requires forall i :: 0 <= i < |es| ==> Sayable(es[i])
    ensures AllWellFormed(MessagesFor(es)) && Events(MessagesFor(es)) == es
    ensures Dispatch(EncodeAll(MessagesFor(es))) == es
  {
    hide WellFormed, Sayable, MessageFor, EventOf, Dispatch, EncodeAll;
    if es != [] {
      MessageForRoundTrip(es[0]);
      CallsAreRepeated(es[1..]);
      assert MessagesFor(es)[1..] == MessagesFor(es[1..]);
    }
    DispatchRoundTrip(MessagesFor(es));
  }

  lemma EncodeNonEmpty(m: Message)
    ensures |Encode(m)| >= 7
  {
  }

  /** The sixteen-bit size field: a data message arrives whole exactly when it is shorter than 65536. */
  lemma DataSizeExact(m: Message)
    requires m.typ == RELIABLE || m.typ == UNRELIABLE
    requires 0 <= m.id < 0x1_0000_0000
    ensures Next(Encode(m)) == Turn(Some(EventOf(m)), []) <==> |m.data| < 65536
    ensures Next(Encode(m)).Turn? && |Next(Encode(m)).event.value.data| == |m.data| % 65536
  {
    hide Header, FromU16, FromU32;
    HeaderFields(m, m.data);
    var size := |m.data| % 65536;
    assert size <= |m.data|;
    if |m.data| < 65536 {
      assert m.data[..size] == m.data && m.data[size..] == [];
    }
  }

  /** A data message of any size: what its size field says is handed over, and the rest is parsed as messages. */
  lemma DataCut(m: Message)
    requires (m.typ == RELIABLE || m.typ == UNRELIABLE) && 0 <= m.id < 0x1_0000_0000
    ensures var size := |m.data| % 65536;
            Dispatch(Encode(m)) == [Data(m.id, m.typ == RELIABLE, m.data[..size])] + Dispatch(m.data[size..])
  {
    hide Header, FromU16, FromU32;
    HeaderFields(m, m.data);
    assert |m.data| % 65536 <= |m.data|;
    EncodeNonEmpty(m);
  }

  /** A message of 65536 bytes arrives empty, and its first bytes are taken for a close message of their own. */
  lemma DataSizeWitness() returns (m: Message)
    ensures |m.data| == 65536
    ensures |Dispatch(Encode(m))| >= 2 && Dispatch(Encode(m))[..2] == [Data(1, true, []), Closed(5)]
  {
    hide Dispatch, Encode, Next;
    var inner := Message(5, CLOSE, []);
    var filler: Bytes := seq(65529, _ => 0);
    m := Message(1, RELIABLE, Encode(inner) + filler);
    CloseTurn(inner, filler);
    DataCut(m);
    assert m.data[..0] == [] && m.data[0..] == m.data;
  }

  lemma CloseTurn(m: Message, tail: Bytes)
    requires m.typ == CLOSE && m.data == [] && 0 <= m.id < 0x1_0000_0000
    ensures |Encode(m) + tail| == 7 + |tail| && Dispatch(Encode(m) + tail) == [Closed(m.id)] + Dispatch(tail)
  {
    NextEncode(m, tail);
    hide Next;
  }

  // ---- batches on the wire -----------------------------------------------------------------------

  /** What `proxy_tick` makes of the queued bytes: a flag, and the bytes raw or compressed. */
  function Payload(out: Bytes, z: Zlib): (p: Bytes)
    ensures |p| >= 1
  {
    if z.level > 0 && z.deflate(out).Some? then [1] + U32(|out|) + z.deflate(out).value else [0] + out
  }

  function Packet(out: Bytes, z: Zlib): Bytes {
    U32(|Payload(out, z)|) + Payload(out, z)
  }

  function Unpack(p: Bytes, z: Zlib): Bytes
    requires |p| >= 1 && (p[0] != 0 ==> |p| >= 5)
  {
    if p[0] == 0 then p[1..] else z.inflate(p[5..])
  }

  /** The stream is made of packets as the far side expects them: none is empty, and a compressed one has
  room for its size. The source asserts this and relies on it. */
  predicate Sound(b: Bytes) {
    |b| <= 4 || (var size, body := FromU32(b), b[4..];
      |body| < size || (size >= 1 && (body[0] != 0 ==> size >= 5) && Sound(body[size..])))
  }

  datatype Parsed = Parsed(events: seq<Event>, rest: Bytes)

  /** The receiving loop of `proxy_tick`: every complete packet in the buffer is dispatched. */
  function Parse(b: Bytes, z: Zlib): Parsed
    requires Sound(b)
    decreases |b|
  {
    if |b| <= 4 then Parsed([], b)
    else
      var size, body := FromU32(b), b[4..];
      if |body| < size then Parsed([], b)
      else
        var p := Parse(body[size..], z);
        Parsed(Dispatch(Unpack(body[..size], z)) + p.events, p.rest)
  }

  lemma PayloadRoundTrip(out: Bytes, z: Zlib)
    requires Lawful(z)
    ensures var p := Payload(out, z);
            (p[0] != 0 ==> |p| >= 5) && Unpack(p, z) == out && |p| <= |out| + 5
    ensures Payload(out, z)[0] == if z.level > 0 && z.deflate(out).Some? then 1 else 0
  {
    hide U32;
    var p := Payload(out, z);
    if z.level > 0 && z.deflate(out).Some? {
      assert p[5..] == z.deflate(out).value;
    }
  }

  lemma PacketHead(payload: Bytes, tail: Bytes)
    requires |payload| < 0x1_0000_0000
    ensures var b := U32(|payload|) + payload + tail;
            FromU32(b) == |payload| && b[4..] == payload + tail
  {
    hide U32, FromU32;
    U32RoundTrip(|payload|, payload + tail);
    assert U32(|payload|) + payload + tail == U32(|payload|) + (payload + tail);
  }

  /** A whole packet at the front is taken off and dispatched as its messages. */
  lemma ParsePacket(ms: seq<Message>, tail: Bytes, z: Zlib)
    requires Lawful(z) && AllWellFormed(ms) && |EncodeAll(ms)| + 5 < 0x1_0000_0000 && Sound(tail)
    ensures var b := Packet(EncodeAll(ms), z) + tail;
            && Sound(b)
            && Parse(b, z) == Parsed(Events(ms) + Parse(tail, z).events, Parse(tail, z).rest)
  {
    hide U32, FromU32, Payload, Dispatch, Events, EncodeAll, Unpack;
    var out := EncodeAll(ms);
    var p := Payload(out, z);
    PayloadRoundTrip(out, z);
    PacketHead(p, tail);
    var b := Packet(out, z) + tail;
    assert b[4..][..|p|] == p && b[4..][|p|..] == tail;
    DispatchRoundTrip(ms);
  }

  /** Part of a packet is left in the buffer until the rest has come. */
  lemma ParsePart(out: Bytes, part: Bytes, z: Zlib)
    requires Lawful(z) && |out| + 5 < 0x1_0000_0000
    requires part <= Packet(out, z) && |part| < |Packet(out, z)|
    ensures Sound(part) && Parse(part, z) == Parsed([], part)
  {
    hide U32, FromU32, Payload;
    var p := Payload(out, z);
    PayloadRoundTrip(out, z);
    if |part| > 4 {
      PacketHead(p, []);
      assert U32(|p|) + p + [] == Packet(out, z);
      FromU32Prefix(part, Packet(out, z));
    }
  }

  // ---- both ends ---------------------------------------------------------------------------------

  /** The byte stream that carries the batches. */
  function Wires(bs: seq<seq<Message>>, z: Zlib): Bytes {
    if bs == [] then [] else Packet(EncodeAll(bs[0]), z) + Wires(bs[1..], z)
  }

  ghost predicate Fit(bs: seq<seq<Message>>) {
    forall i :: 0 <= i < |bs| ==> AllWellFormed(bs[i]) && |EncodeAll(bs[i])| + 5 < 0x1_0000_0000
  }

  lemma {:induction false} EventsAppend(a: seq<Message>, b: seq<Message>)
    ensures Events(a + b) == Events(a) + Events(b)
  {
    hide EventOf;
    if a == [] {
      assert a + b == b;
    } else {
      var e := EventOf(a[0]);
      EventsAppend(a[1..], b);
      assert a + b == [a[0]] + (a[1..] + b);
      assert (a + b)[1..] == a[1..] + b;
      assert [e] + (Events(a[1..]) + Events(b)) == [e] + Events(a[1..]) + Events(b);
    }
  }

  lemma {:induction false} EncodeAllSnoc(ms: seq<Message>, m: Message)
    ensures EncodeAll(ms + [m]) == EncodeAll(ms) + Encode(m)
  {
    hide Encode;
    if ms == [] {
      assert [] + [m] == [m] && [m][1..] == [];
      assert EncodeAll([m][1..]) == [];
    } else {
      EncodeAllSnoc(ms[1..], m);
      assert (ms + [m])[1..] == ms[1..] + [m];
    }
  }

  lemma {:induction false} WiresAppend(a: seq<seq<Message>>, b: seq<seq<Message>>, z: Zlib)
    ensures Wires(a + b, z) == Wires(a, z) + Wires(b, z)
  {
    hide Packet, EncodeAll;
    if a == [] {
      assert a + b == b;
    } else {
      WiresAppend(a[1..], b, z);
      assert (a + b)[1..] == a[1..] + b;
    }
  }

  lemma WiresOne(out: seq<Message>, z: Zlib)
    ensures Wires([out], z) == Packet(EncodeAll(out), z)
  {
    hide Packet, EncodeAll;
    assert [out][1..] == [];
    assert Wires([out][1..], z) == [];
  }

  /** Parsing any beginning of the stream dispatches whole batches, in order, and keeps the rest; parsing
  all of it leaves nothing. */
  lemma {:induction false} ParseWires(bs: seq<seq<Message>>, b: Bytes, z: Zlib) returns (k: nat)
    requires Lawful(z) && Fit(bs) && b <= Wires(bs, z)
    ensures Sound(b) && k <= |bs|
    ensures Parse(b, z).events == Events(Concat(bs[..k]))
    ensures Wires(bs[..k], z) + Parse(b, z).rest == b
    ensures b == Wires(bs, z) ==> k == |bs|
    decreases |bs|
  {
    hide Packet, EncodeAll, Parse, Sound, Events;
    if bs == [] {
      k := 0;
      ParseNothing(b, z);
    } else {
      var first := Packet(EncodeAll(bs[0]), z);
      if |b| < |first| {
        k := 0;
        assert b <= first;
        ParsePart(EncodeAll(bs[0]), b, z);
        ParseNothing([], z);
        assert bs[..0] == [];
      } else {
        var tail := b[|first|..];
        assert b == first + tail && tail <= Wires(bs[1..], z);
        assert Fit(bs[1..]);
        var j := ParseWires(bs[1..], tail, z);
        ParsePacket(bs[0], tail, z);
        k := j + 1;
        assert bs[..k] == [bs[0]] + bs[1..][..j];
        EventsAppend(bs[0], Concat(bs[1..][..j]));
        assert bs[..k][1..] == bs[1..][..j];
      }
    }
  }

  lemma ParseNothing(b: Bytes, z: Zlib)
    requires b == []
    ensures Sound(b) && Parse(b, z) == Parsed([], []) && Events(Concat([])) == []
  {
  }

  /** `waiting` are the messages behind the bytes in `out`, `batches` those behind the packets sent. */
  datatype Sys = Sys(waiting: seq<Message>, out: Bytes, batches: seq<seq<Message>>, wire: Bytes,
                     arrived: nat, received: Bytes, events: seq<Event>)

  const Init := Sys([], [], [], [], 0, [], [])

  datatype Step =
    | Submit(m: Message)
    | TickSend(ready: bool)
    | Arrive(n: nat)
    | TickReceive

  ghost predicate Allowed(s: Sys, step: Step) {
    match step
    case Submit(m) => WellFormed(m)
    case TickSend(_) => |s.out| + 5 < 0x1_0000_0000
    case Arrive(n) => s.arrived + n <= |s.wire|
    case TickReceive => true
  }

  /** `ready` tells that the wire is connected and few packets await acknowledgement. */
  ghost function Apply(s: Sys, step: Step, z: Zlib): Sys {
    match step
    case Submit(m) => s.(waiting := s.waiting + [m], out := s.out + Encode(m))
    case TickSend(ready) =>
      if ready && s.out != [] then
        s.(waiting := [], out := [], batches := s.batches + [s.waiting], wire := s.wire + Packet(s.out, z))
      else s
    case Arrive(n) =>
      if s.arrived + n <= |s.wire| then
        s.(arrived := s.arrived + n, received := s.received + s.wire[s.arrived..s.arrived + n])
      else s
    case TickReceive =>
      if Sound(s.received) then
        s.(received := Parse(s.received, z).rest, events := s.events + Parse(s.received, z).events)
      else s
  }

  ghost function Run(s: Sys, steps: seq<Step>, z: Zlib): Sys
    decreases |steps|
  {
    if steps == [] then s else Run(Apply(s, steps[0], z), steps[1..], z)
  }

  ghost predicate AllowedRun(s: Sys, steps: seq<Step>, z: Zlib)
    decreases |steps|
  {
    steps == [] || (Allowed(s, steps[0]) && AllowedRun(Apply(s, steps[0], z), steps[1..], z))
  }

  /** Every message ever queued, in order. */
  function Queued(s: Sys): seq<Message> {
    Concat(s.batches) + s.waiting
  }

  /** The first `k` batches have been dispatched; what arrived beyond them is in the buffer. */
  ghost predicate Inv(s: Sys, k: nat, z: Zlib) {
    && s.out == EncodeAll(s.waiting) && AllWellFormed(s.waiting)
    && Fit(s.batches) && s.wire == Wires(s.batches, z)
    && k <= |s.batches| && s.arrived <= |s.wire|
    && s.wire[..s.arrived] == Wires(s.batches[..k], z) + s.received
    && s.events == Events(Concat(s.batches[..k]))
  }

  lemma SubmitKeeps(s: Sys, k: nat, m: Message, z: Zlib)
    requires Inv(s, k, z) && WellFormed(m)
    ensures Inv(Apply(s, Submit(m), z), k, z)
  {
    hide Encode, Wires, Events;
    EncodeAllSnoc(s.waiting, m);
  }

  lemma TickSendKeeps(s: Sys, k: nat, ready: bool, z: Zlib)
    requires Inv(s, k, z) && |s.out| + 5 < 0x1_0000_0000
    ensures Inv(Apply(s, TickSend(ready), z), k, z)
  {
    hide Wires, Events, Packet, WellFormed;
    var t := Apply(s, TickSend(ready), z);
    if t != s {
      WiresAppend(s.batches, [s.waiting], z);
      WiresOne(s.waiting, z);
      assert t.batches[..k] == s.batches[..k];
      assert t.wire[..s.arrived] == s.wire[..s.arrived];
    }
  }

  lemma ArriveKeeps(s: Sys, k: nat, n: nat, z: Zlib)
    requires Inv(s, k, z)
    ensures Inv(Apply(s, Arrive(n), z), k, z)
  {
    hide Wires, Events, Fit, EncodeAll;
    if s.arrived + n <= |s.wire| {
      assert s.wire[..s.arrived + n] == s.wire[..s.arrived] + s.wire[s.arrived..s.arrived + n];
    }
  }

  lemma WiresSplit(bs: seq<seq<Message>>, k: nat, z: Zlib)
    requires k <= |bs|
    ensures Wires(bs, z) == Wires(bs[..k], z) + Wires(bs[k..], z)
    ensures Fit(bs) ==> Fit(bs[k..])
  {
    WiresAppend(bs[..k], bs[k..], z);
    assert bs == bs[..k] + bs[k..];
  }

  lemma PrefixCancel(a: Bytes, x: Bytes, y: Bytes)
    requires a + x <= a + y
    ensures x <= y
  {
    forall i | 0 <= i < |x|
      ensures x[i] == y[i]
    {
      assert (a + x)[|a| + i] == (a + y)[|a| + i];
    }
  }

  lemma TickReceiveKeeps(s: Sys, k: nat, z: Zlib) returns (k': nat)
    requires Inv(s, k, z) && Lawful(z)
    ensures Inv(Apply(s, TickReceive, z), k', z)
    ensures s.arrived == |s.wire| ==> k' == |s.batches|
  {
    hide Wires, Events, Fit, EncodeAll, Parse, Sound, AllWellFormed;
    var rest := s.batches[k..];
    WiresSplit(s.batches, k, z);
    PrefixCancel(Wires(s.batches[..k], z), s.received, Wires(rest, z));
    var j := ParseWires(rest, s.received, z);
    k' := k + j;
    assert s.batches[..k'] == s.batches[..k] + rest[..j];
    WiresAppend(s.batches[..k], rest[..j], z);
    ConcatAppend(s.batches[..k], rest[..j]);
    EventsAppend(Concat(s.batches[..k]), Concat(rest[..j]));
    if s.arrived == |s.wire| {
      assert s.wire[..s.arrived] == s.wire;
      assert s.received == Wires(rest, z);
    }
  }

  lemma {:induction false} RunKeeps(s: Sys, k: nat, steps: seq<Step>, z: Zlib) returns (k': nat)
    requires Inv(s, k, z) && Lawful(z) && AllowedRun(s, steps, z)
    ensures Inv(Run(s, steps, z), k', z)
    decreases |steps|
  {
    hide Inv, Apply;
    k' := k;
    if steps != [] {
      match steps[0] {
        case Submit(m) => SubmitKeeps(s, k, m, z);
        case TickSend(ready) => TickSendKeeps(s, k, ready, z);
        case Arrive(n) => ArriveKeeps(s, k, n, z);
        case TickReceive => k' := TickReceiveKeeps(s, k, z);
      }
      k' := RunKeeps(Apply(s, steps[0], z), k', steps[1..], z);
    }
  }

  lemma InitInv(z: Zlib)
    ensures Inv(Init, 0, z)
  {
    assert Init.batches[..0] == [];
  }

  lemma EventsPrefix(a: seq<Message>, b: seq<Message>)
    ensures Events(a) <= Events(a + b)
  {
    EventsAppend(a, b);
  }

  lemma DispatchedPrefix(s: Sys, k: nat, z: Zlib)
    requires Inv(s, k, z)
    ensures s.events <= Events(Queued(s))
  {
    hide Wires, Fit, EncodeAll, Events, AllWellFormed;
    var done, rest := Concat(s.batches[..k]), Concat(s.batches[k..]);
    assert s.batches == s.batches[..k] + s.batches[k..];
    ConcatAppend(s.batches[..k], s.batches[k..]);
    assert Queued(s) == done + (rest + s.waiting);
    EventsPrefix(done, rest + s.waiting);
  }

  lemma DispatchedAll(s: Sys, z: Zlib)
    requires Inv(s, |s.batches|, z) && s.out == []
    ensures s.events == Events(Queued(s))
  {
    hide Wires, Fit, EncodeAll, Events, AllWellFormed;
    NothingWaits(s.waiting);
    assert s.batches[..|s.batches|] == s.batches;
    assert Concat(s.batches) + [] == Concat(s.batches);
  }

  /** However messages are queued and batched and however the stream is cut into chunks, the far side
  dispatches a prefix of the queued messages, each whole and once; and once everything has been sent and
  has arrived, one more tick has dispatched all of them. */
  lemma FramingIsTransparent(steps: seq<Step>, z: Zlib)
    requires Lawful(z) && AllowedRun(Init, steps, z)
    ensures var s := Run(Init, steps, z);
            && s.events <= Events(Queued(s))
            && (s.out == [] && s.arrived == |s.wire| ==> Apply(s, TickReceive, z).events == Events(Queued(s)))
  {
    hide Run, AllowedRun, Inv, Events, Parse, Sound;
    InitInv(z);
    var k := RunKeeps(Init, 0, steps, z);
    var s := Run(Init, steps, z);
    DispatchedPrefix(s, k, z);
    var k' := TickReceiveKeeps(s, k, z);
    if s.out == [] && s.arrived == |s.wire| {
      DispatchedAll(Apply(s, TickReceive, z), z);
    }
  }

  /** A tick of the sender leaves nothing behind, and no message is lost between queue and batches. */
  lemma TickSendAll(s: Sys, k: nat, z: Zlib)
    requires Inv(s, k, z)
    ensures var a := Apply(s, TickSend(true), z);
            a.out == [] && Queued(a) == Queued(s) && a.arrived == s.arrived <= |a.wire| && a.events == s.events
  {
    hide Packet, Events, Fit, Wires, EncodeAll, AllWellFormed;
    if s.out != [] {
      ConcatSnoc(s.batches, s.waiting);
      assert Concat(s.batches + [s.waiting]) + [] == Concat(s.batches + [s.waiting]);
    }
  }

  /** From every reachable state a tick of the sender, the arrival of what is on the wire and a tick of the receiver
  dispatch all that was queued. */
  lemma TicksFinish(steps: seq<Step>, n: nat, z: Zlib)
    requires Lawful(z) && AllowedRun(Init, steps, z) && |Run(Init, steps, z).out| + 5 < 0x1_0000_0000
    requires var a := Apply(Run(Init, steps, z), TickSend(true), z); a.arrived + n == |a.wire|
    ensures var s := Run(Init, steps, z);
            var b := Apply(Apply(s, TickSend(true), z), Arrive(n), z);
            Apply(b, TickReceive, z).events == Events(Queued(s))
  {
    hide Run, AllowedRun, Inv, Events, Parse, Sound, Queued, Packet, Apply;
    InitInv(z);
    var k := RunKeeps(Init, 0, steps, z);
    var s := Run(Init, steps, z);
    var a := Apply(s, TickSend(true), z);
    TickSendKeeps(s, k, true, z);
    TickSendAll(s, k, z);
    ArriveKeeps(a, k, n, z);
    var b := Apply(a, Arrive(n), z);
    ArriveLeaves(a, n, z);
    var k' := TickReceiveKeeps(b, k, z);
    var u := Apply(b, TickReceive, z);
    ReceiveLeaves(b, z);
    DispatchedAll(u, z);
    SameQueued(a, b);
    SameQueued(b, u);
  }

  lemma ArriveLeaves(s: Sys, n: nat, z: Zlib)
    requires s.arrived + n == |s.wire|
    ensures var t := Apply(s, Arrive(n), z);
            t.arrived == |t.wire| && t.out == s.out && t.batches == s.batches && t.waiting == s.waiting
  {
  }

  lemma ReceiveLeaves(s: Sys, z: Zlib)
    ensures var t := Apply(s, TickReceive, z);
            t.out == s.out && t.batches == s.batches && t.waiting == s.waiting
  {
    hide Parse, Sound;
  }

  lemma SameQueued(s: Sys, t: Sys)
    requires t.batches == s.batches && t.waiting == s.waiting
    ensures Queued(t) == Queued(s)
  {
  }

  lemma NothingWaits(ms: seq<Message>)
    ensures EncodeAll(ms) == [] <==> ms == []
  {
    if ms != [] {
      EncodeNonEmpty(ms[0]);
    }
  }
}

/** The proxy's buffers and loops; `in` is the ring buffer. */
module ProxyObjects {
  import opened Wire
  import opened SendQueues
  import opened CircularBuffers
  import opened Spec = Proxies

  class Proxy {
    const zlib: Zlib
    var out: Bytes
    const input: CircularBuffer
    /** The calls of `mrudp_send` on the wire, and what the wire packets made the proxy do. */
    var sent: seq<Bytes>
    var dispatched: seq<Event>

    ghost predicate Valid()
      reads this, input
    {
      input.Valid()
    }

    constructor (zlib: Zlib)
      ensures Valid() && out == [] && sent == [] && dispatched == [] && input.Model() == [] && fresh(input)
      ensures this.zlib == zlib
    {
      this.zlib := zlib;
      out, sent, dispatched := [], [], [];
      input := new CircularBuffer();
    }

    method SendQueue(m: Message)
      modifies this`out
      ensures out == old(out) + Encode(m)
    {
      out := out + Header(m);
      out := out + m.data;
      assert out == old(out) + (Header(m) + m.data);
    }

    method ReceiveQueue(chunk: Bytes)
      requires Valid()
      modifies input
      ensures Valid() && input.Model() == old(input.Model()) + chunk
    {
      input.Write(Some(chunk), |chunk|);
    }

    /** The sending half of `proxy_tick`. */
    method TickSend(ready: bool)
      modifies this`out, this`sent
      ensures if ready && old(out) != [] then out == [] && sent == old(sent) + [Packet(old(out), zlib)]
              else out == old(out) && sent == old(sent)
    {
      if out != [] && ready {
        var payload := Spec.Payload(out, zlib);
        sent := sent + [U32(|payload|) + payload];
        out := [];
      }
    }

    /** `on_wire_packet`: each turn consumes at least a header, so the loop ends on any bytes. */
    method OnWirePacket(data: Bytes)
      modifies this`dispatched
      ensures dispatched == old(dispatched) + Dispatch(data)
    {
      hide Next;
      var rest := data;
      while rest != []
        invariant dispatched + Dispatch(rest) == old(dispatched) + Dispatch(data)
        decreases |rest|
      {
        var turn := Next(rest);
        if turn.Malformed? {
          return;
        }
        if turn.event.Some? {
          dispatched := dispatched + [turn.event.value];
        }
        rest := turn.rest;
      }
    }

    /** The receiving half of `proxy_tick`, on the ring buffer. */
    method TickReceive()
      requires Valid() && Sound(input.Model())
      modifies this`dispatched, input
      ensures Valid()
      ensures var p := Parse(old(input.Model()), zlib);
              dispatched == old(dispatched) + p.events && input.Model() == p.rest
    {
      hide FromU32, Dispatch, CircularBuffer.Model, Unpack, Parse, Sound;
      ghost var start := input.Model();
      while input.size_ > 4
        invariant Valid() && Sound(input.Model()) && |input.Model()| == input.size_
        invariant dispatched + Parse(input.Model(), zlib).events == old(dispatched) + Parse(start, zlib).events
        invariant Parse(input.Model(), zlib).rest == Parse(start, zlib).rest
        decreases input.size_
      {
        var head := input.Peek(4);
        var packetSize := FromU32(head);
        HeadSize(input.Model(), head);
        if input.size_ < packetSize + 4 {
          break;
        }
        ParseUnfold(input.Model(), zlib);
        var batch := TakePacket(packetSize);
        OnWirePacket(batch);
      }
      ParseStops(input.Model(), zlib);
    }

    /** Takes one complete packet off the buffer and returns its batch. */
    method TakePacket(packetSize: nat) returns (batch: Bytes)
      requires Valid() && 5 <= packetSize + 4 <= input.size_
      requires input.Model()[4] != 0 ==> packetSize >= 5
      modifies input
      ensures Valid()
      ensures input.Model() == old(input.Model())[4..][packetSize..]
      ensures batch == Unpack(old(input.Model())[4..][..packetSize], zlib)
    {
      hide CircularBuffer.Model;
      ghost var body := input.Model()[4..];
      input.Skip(4);
      var flag := input.Read(1);
      assert body == flag + input.Model();
      if flag[0] == 0 {
        batch := input.Read(packetSize - 1);
        assert body == (flag + batch) + input.Model();
        Split(body, flag + batch, input.Model());
      } else {
        ghost var size := input.Model()[..4];
        input.Skip(4);
        assert body == (flag + size) + input.Model();
        var compressed := input.Read(packetSize - 5);
        assert body == (flag + size + compressed) + input.Model();
        Split(body, flag + size + compressed, input.Model());
        assert body[..packetSize][5..] == compressed;
        batch := zlib.inflate(compressed);
      }
    }
  }

  lemma Split(b: Bytes, front: Bytes, rest: Bytes)
    requires b == front + rest
    ensures b[..|front|] == front && b[|front|..] == rest
  {
  }

  lemma ParseUnfold(b: Bytes, z: Zlib)
    requires Sound(b) && |b| > 4 && |b| >= FromU32(b) + 4
    ensures var size, body := FromU32(b), b[4..];
            && size >= 1 && (body[0] != 0 ==> size >= 5) && Sound(body[size..])
            && Parse(b, z).events == Dispatch(Unpack(body[..size], z)) + Parse(body[size..], z).events
            && Parse(b, z).rest == Parse(body[size..], z).rest
  {
    hide FromU32, Dispatch;
  }

  lemma ParseStops(b: Bytes, z: Zlib)
    requires Sound(b) && (|b| > 4 ==> |b| < FromU32(b) + 4)
    ensures Parse(b, z) == Parsed([], b)
  {
    hide FromU32;
  }

  lemma HeadSize(b: Bytes, head: Bytes)
    requires |b| >= 4 && head == b[..4]
    ensures FromU32(head) == FromU32(b)
  {
    FromU32Prefix(head, b);
  }
}

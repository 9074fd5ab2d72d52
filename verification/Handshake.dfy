/** The layers a handshake packet passes on its way out and in: each pushes its part on the tail of the
packet and pops it again (mrudp/Handshake.cpp, mrudp/Handshake_Options.cpp, mrudp/Connection.cpp,
mrudp/Socket.cpp). */
module Layers {
  import opened Serial
  import opened Wire
  import opened Packets

  const H0: Byte := 65
  const H1: Byte := 66
  const H2: Byte := 67
  const H3: Byte := 68
  const HANDSHAKE_COMPLETE: Byte := 69

  predicate IsHandshake(typ: Byte) {
    H0 <= typ < HANDSHAKE_COMPLETE
  }

  /** The packet types that acknowledge the reliable packet whose identifier they carry. */
  predicate IsAck(typ: Byte) {
    typ == 75 || typ == H1 || typ == H3 || typ == 87
  }

  const LONG_ID_SIZE := 16
  const OPTIONS_SIZE := 6

  /** The options a server tells its client: an unsigned 32-bit delay and a signed 16-bit limit. */
  datatype Options = Options(probeDelay: int, maximumRetries: int)

  predicate ValidOptions(o: Options) {
    0 <= o.probeDelay < 0x1_0000_0000 && -32768 <= o.maximumRetries < 32768
  }

  function EncodeOptions(o: Options): (b: Bytes)
    ensures |b| == OPTIONS_SIZE
  {
    U32(o.probeDelay) + U16(o.maximumRetries % 65536)
  }

  function DecodeOptions(b: Bytes): Options
    requires |b| == OPTIONS_SIZE
  {
    var limit := FromU16(b[4..]);
    Options(FromU32(b), if limit < 32768 then limit else limit - 65536)
  }

  /** A packet as it leaves the socket. */
  datatype Datagram = Datagram(typ: Byte, id: Id, connection: Id, data: Bytes)

  // ---- outwards ------------------------------------------------------------------------------

  /** `Handshake`: H2 and H3 tell the sender's own short id. */
  function HandshakeBody(typ: Byte, localID: Id): Bytes {
    if typ == H2 || typ == H3 then PushTail([], U16(localID)) else []
  }

  /** `Handshake_Options::onSend`. */
  function OptionsLayer(typ: Byte, body: Bytes, o: Options): Bytes {
    if typ == H3 then PushTail(body, EncodeOptions(o)) else body
  }

  /** What the packet of the sender holds once it has passed the layers of its first transmission. A retry does
  not pass them again: `resend` starts from this body. */
  function SentBody(typ: Byte, localID: Id, o: Options): Bytes {
    OptionsLayer(typ, HandshakeBody(typ, localID), o)
  }

  /** `Connection::send_`: addressed by the peer's short id once that is known, else by the long id, which
  is pushed on a copy; the packet kept for retries stays as it is. */
  function Address(typ: Byte, id: Id, body: Bytes, longID: Bytes, remoteID: Id): Datagram {
    Datagram(typ, id, remoteID, if remoteID == 0 then PushTail(body, longID) else body)
  }

  function Seal(typ: Byte, id: Id, localID: Id, o: Options, longID: Bytes, remoteID: Id): Datagram {
    Address(typ, id, SentBody(typ, localID, o), longID, remoteID)
  }

  // ---- inwards -------------------------------------------------------------------------------

  /** `Socket::getLookUp`: the long id is popped when no short id is given. */
  datatype LookUp = LookUp(shortID: Id, longID: Option<Bytes>, body: Bytes)

  function GetLookUp(d: Datagram): LookUp {
    if d.connection != 0 then LookUp(d.connection, None, d.data)
    else match PopTail(d.data, LONG_ID_SIZE)
      case Short => LookUp(0, None, d.data)
      case Popped(body, longID) => LookUp(0, Some(longID), body)
  }

  /** `Handshake_Options::onReceive`: an H3 without options is discarded. */
  datatype Opened = Discarded | Opened(options: Option<Options>, body: Bytes)

  function OpenOptions(typ: Byte, body: Bytes): Opened {
    if typ != H3 then Opened(None, body)
    else match PopTail(body, OPTIONS_SIZE)
      case Short => Discarded
      case Popped(rest, o) => Opened(Some(DecodeOptions(o)), rest)
  }

  /** `readRemoteID`: zero when the packet is too short. */
  function ReadRemoteID(body: Bytes): (Id, Bytes) {
    match PopTail(body, 2)
    case Short => (0, body)
    case Popped(rest, id) => (FromU16(id), rest)
  }

  // ---- round trip ----------------------------------------------------------------------------

  lemma OptionsRoundTrip(o: Options)
    requires ValidOptions(o)
    ensures DecodeOptions(EncodeOptions(o)) == o
  {
    hide U16, U32, FromU16, FromU32;
    var limit := o.maximumRetries % 65536;
    U32RoundTrip(o.probeDelay, U16(limit));
    U16RoundTrip(limit, []);
    assert EncodeOptions(o)[4..] == U16(limit) + [];
  }

  lemma BodyOpens(typ: Byte, localID: Id, o: Options)
    requires IsHandshake(typ) && ValidOptions(o)
    ensures OpenOptions(typ, SentBody(typ, localID, o)) ==
            Opened(if typ == H3 then Some(o) else None, HandshakeBody(typ, localID))
  {
    hide EncodeOptions, DecodeOptions, U16;
    if typ == H3 {
      OptionsRoundTrip(o);
      PopPush(HandshakeBody(typ, localID), EncodeOptions(o));
    }
  }

  lemma BodyReads(typ: Byte, localID: Id)
    requires typ == H2 || typ == H3
    ensures ReadRemoteID(HandshakeBody(typ, localID)) == (localID, [])
  {
    hide U16, FromU16;
    PopPush([], U16(localID));
    assert [] + U16(localID) == U16(localID) + [];
    U16RoundTrip(localID, []);
  }

  lemma BodySmall(typ: Byte, localID: Id, o: Options)
    ensures |SentBody(typ, localID, o)| <= 8
  {
    hide EncodeOptions, U16;
  }

  /** The layers of the receiver pop exactly what those of the sender pushed, in reverse order, and leave
  nothing. */
  ghost predicate ReadsAs(d: Datagram, typ: Byte, localID: Id, o: Options, longID: Bytes, remoteID: Id) {
    var l := GetLookUp(d);
    && d.typ == typ
    && l.shortID == remoteID && l.longID == (if remoteID == 0 then Some(longID) else None)
    && (var inner := OpenOptions(typ, l.body);
        && inner.Opened? && inner.options == (if typ == H3 then Some(o) else None)
        && (if typ == H2 || typ == H3 then ReadRemoteID(inner.body) == (localID, []) else inner.body == []))
  }

  /** Whatever the packet and whichever id addresses it, it reads as it was written. */
  lemma LayersRoundTrip(typ: Byte, id: Id, localID: Id, o: Options, longID: Bytes, remoteID: Id)
    requires IsHandshake(typ) && ValidOptions(o) && |longID| == LONG_ID_SIZE
    ensures ReadsAs(Seal(typ, id, localID, o, longID, remoteID), typ, localID, o, longID, remoteID)
  {
    hide SentBody, HandshakeBody, OpenOptions, ReadRemoteID;
    var body := SentBody(typ, localID, o);
    BodySmall(typ, localID, o);
    if remoteID == 0 {
      PopPush(body, longID);
    }
    BodyOpens(typ, localID, o);
    if typ == H2 || typ == H3 {
      BodyReads(typ, localID);
    } else {
      EmptyBody(typ, localID);
    }
  }

  lemma EmptyBody(typ: Byte, localID: Id)
    requires typ != H2 && typ != H3
    ensures HandshakeBody(typ, localID) == []
  {
  }
}

/** The four-packet handshake of two endpoints over a network that loses, duplicates and reorders
(mrudp/Handshake.cpp). */
module Handshakes {
  import opened Serial
  import opened Wire
  import opened Layers

  /** A packet kept for retries, as the layers of its first transmission left it. */
  datatype Kept = Kept(typ: Byte, body: Bytes)

  /** One end of a connection. `window` maps the identifiers of its unacknowledged reliable packets to the
  packets themselves, `next` counts the identifiers issued, `completions` the calls of `onHandshakeComplete`; after a
  failure the retrier is `closed` and keeps nothing. */
  datatype Side = Side(localID: Id, remoteID: Id, waiting: Byte, window: map<Id, Kept>, closed: bool, next: nat,
                       completions: nat, options: Options)

  /** A short id as the socket gives it. */
  type GivenId = x: Id | x != 0 witness 1

  /** The long id both ends share, the short id of the client, those the server's socket gives to the connections
  it makes for this long id, one after the other, and the options the server will announce. */
  datatype Config = Config(longID: Bytes, clientID: GivenId, serverIDs: nat -> GivenId, options: Options)

  ghost predicate ValidConfig(c: Config) {
    |c.longID| == LONG_ID_SIZE && ValidOptions(c.options)
  }

  datatype Outcome = Outcome(side: Side, sent: seq<Datagram>)

  function Send(c: Config, s: Side, typ: Byte, id: Id): Datagram {
    Seal(typ, id, s.localID, s.options, c.longID, s.remoteID)
  }

  /** `Connection::resend`: the kept packet is addressed anew and sent as it is. */
  function Resend(c: Config, s: Side, id: Id): Datagram
    requires id in s.window
  {
    Address(s.window[id].typ, id, s.window[id].body, c.longID, s.remoteID)
  }

  /** `sendReliably` of a handshake packet: kept, then sent; the layers work on the very packet that is kept. */
  function SendReliably(c: Config, s: Side, typ: Byte): Outcome {
    var id := Wrap(s.next);
    var window := if s.closed || id in s.window then s.window
        else s.window[id := Kept(typ, SentBody(typ, s.localID, s.options))];
    Outcome(s.(next := s.next + 1, window := window), [Send(c, s, typ, id)])
  }

  function Initiate(c: Config, s: Side): Outcome {
    var o := SendReliably(c, s, H0);
    o.(side := o.side.(waiting := H1))
  }

  function Complete(s: Side, remoteID: Id): Side {
    s.(waiting := HANDSHAKE_COMPLETE, remoteID := remoteID, completions := s.completions + 1)
  }

  /** `handlePacket`, the same code at both ends. An answer to H2 is sent before the peer's id is noted. */
  function HandlePacket(c: Config, s: Side, typ: Byte, id: Id, body: Bytes): Outcome {
    if typ == H0 then
      Outcome(if s.waiting == H0 then s.(waiting := H2) else s, [Send(c, s, H1, id)])
    else if typ == H1 then
      if s.waiting == H1 then SendReliably(c, s.(waiting := H3), H2) else Outcome(s, [])
    else if typ == H2 then
      Outcome(if s.waiting == H2 then Complete(s, ReadRemoteID(body).0) else s, [Send(c, s, H3, id)])
    else if typ == H3 then
      Outcome(if s.waiting == H3 then Complete(s, ReadRemoteID(body).0) else s, [])
    else Outcome(s, [])
  }

  /** `Connection::receive` below the socket: options layer, handshake, then acknowledgement. */
  function Receive(c: Config, s: Side, d: Datagram, body: Bytes): Outcome {
    match OpenOptions(d.typ, body)
    case Discarded => Outcome(s, [])
    case Opened(o, rest) =>
      var t := if o.Some? then s.(options := o.value) else s;
      var r := HandlePacket(c, t, d.typ, d.id, rest);
      if IsAck(d.typ) then r.(side := r.side.(window := r.side.window - {d.id})) else r
  }

  /** Both ends and everything ever sent between them. An H0 with an unknown long id makes a connection at the
  server; once that is erased, a late H0 makes another. `made` counts them, `completed` is history: the short ids of
  those that have completed. */
  datatype Sys = Sys(client: Side, server: Option<Side>, made: nat, completed: set<Id>,
                     toServer: set<Datagram>, toClient: set<Datagram>)

  /** A packet that answers another one (ACK, H1, H3 or the answer to a challenge) takes that one out of the window; a
  packet of any other type takes out nothing. */
  lemma AnswersClear(c: Config, s: Side, d: Datagram, body: Bytes)
    requires !OpenOptions(d.typ, body).Discarded?
    ensures var t := Receive(c, s, d, body).side;
            && (d.typ == 75 || d.typ == H1 || d.typ == H3 || d.typ == 87 ==> d.id !in t.window)
            && (!(d.typ == 75 || d.typ == H1 || d.typ == H3 || d.typ == 87) ==> t.window == s.window)
  {
    hide Send, SentBody, OpenOptions;
  }

  function NewSide(localID: Id, o: Options): Side {
    Side(localID, 0, H0, map[], false, 0, 0, o)
  }

  function Init(c: Config, o: Options): Sys {
    Sys(NewSide(c.clientID, o), None, 0, {}, {}, {})
  }

  datatype Step =
    | Start
    | Retry(id: Id)
    | ServerGets(d: Datagram)
    | ClientGets(d: Datagram)
    | ClientFails
    | ServerErased

  function Gathered(ds: seq<Datagram>): set<Datagram> {
    set d | d in ds
  }

  /** The socket finds the connection by either id. */
  function Addressed(c: Config, localID: Id, d: Datagram): Option<Bytes> {
    var l := GetLookUp(d);
    if l.longID == Some(c.longID) || (l.longID == None && l.shortID == localID) then Some(l.body) else None
  }

  /** The server's connection, or the one it would make. */
  function ServerSide(c: Config, s: Sys): Side {
    if s.server.Some? then s.server.value else NewSide(c.serverIDs(s.made), c.options)
  }

  /** The server's connection is `v` now. */
  function WithServer(s: Sys, v: Side, sent: set<Datagram>): Sys {
    s.(server := Some(v), made := if s.server.Some? then s.made else s.made + 1,
       completed := if v.waiting == HANDSHAKE_COMPLETE then s.completed + {v.localID} else s.completed,
       toClient := s.toClient + sent)
  }

  function ServerStep(c: Config, s: Sys, d: Datagram): Sys {
    match Addressed(c, ServerSide(c, s).localID, d)
    case None => s
    case Some(body) =>
      if s.server.None? && (d.typ != H0 || d.connection != 0) then s
      else
        var r := Receive(c, ServerSide(c, s), d, body);
        WithServer(s, r.side, Gathered(r.sent))
  }

  function ClientStep(c: Config, s: Sys, d: Datagram): Sys {
    match Addressed(c, c.clientID, d)
    case None => s
    case Some(body) =>
      var r := Receive(c, s.client, d, body);
      s.(client := r.side, toServer := s.toServer + Gathered(r.sent))
  }

  function StartStep(c: Config, s: Sys): Sys {
    if s.client.next == 0 then
      var r := Initiate(c, s.client);
      s.(client := r.side, toServer := s.toServer + Gathered(r.sent))
    else s
  }

  function Next(c: Config, s: Sys, step: Step): Sys {
    match step
    case Start => StartStep(c, s)
    case Retry(id) =>
      if id in s.client.window then s.(toServer := s.toServer + {Resend(c, s.client, id)}) else s
    case ServerGets(d) => if d in s.toServer then ServerStep(c, s, d) else s
    case ClientGets(d) => if d in s.toClient then ClientStep(c, s, d) else s
    case ClientFails => s.(client := s.client.(closed := true, window := map[]))
    case ServerErased => s.(server := None)
  }

  function Run(c: Config, s: Sys, steps: seq<Step>): Sys
    decreases |steps|
  {
    if steps == [] then s else Run(c, Next(c, s, steps[0]), steps[1..])
  }

  // ---- the invariant -------------------------------------------------------------------------

  predicate ClientDone(s: Sys) { s.client.waiting == HANDSHAKE_COMPLETE }

  /** The client has seen an H1. */
  predicate ClientAnswered(s: Sys) { s.client.waiting == H3 || ClientDone(s) }

  predicate ServerDone(s: Sys) { s.server.Some? && s.server.value.waiting == HANDSHAKE_COMPLETE }

  /** The client's two packets, always addressed by the long id. */
  function Packet0(c: Config): Datagram {
    Seal(H0, 0, c.clientID, c.options, c.longID, 0)
  }

  function Packet2(c: Config): Datagram {
    Seal(H2, 1, c.clientID, c.options, c.longID, 0)
  }

  /** An H1 answers the H0 and does not tell who sent it. */
  ghost predicate IsH1(c: Config, d: Datagram) {
    || d == Seal(H1, 0, 0, c.options, c.longID, 0)
    || d == Seal(H1, 0, 0, c.options, c.longID, c.clientID)
  }

  /** An H3 answers the H2 and tells the short id of the connection that sent it. */
  ghost predicate IsH3(c: Config, d: Datagram, v: Id) {
    || d == Seal(H3, 1, v, c.options, c.longID, 0)
    || d == Seal(H3, 1, v, c.options, c.longID, c.clientID)
  }

  /** An H1 is only sent to a client that has started, an H3 by a connection that has completed. */
  ghost predicate FromServer(c: Config, s: Sys, d: Datagram) {
    || (IsH1(c, d) && s.client.waiting != H0)
    || (ClientAnswered(s) && exists v :: v in s.completed && IsH3(c, d, v))
  }

  /** The client's reliable packets, as their first transmission left them. */
  function KeptByClient(c: Config, id: Id): Kept {
    var typ := if id == 0 then H0 else H2;
    Kept(typ, SentBody(typ, c.clientID, c.options))
  }

  ghost predicate ClientOk(c: Config, s: Sys) {
    var k := s.client;
    && k.localID == c.clientID && ValidOptions(k.options)
    && (k.waiting == H0 || k.waiting == H1 || k.waiting == H3 || k.waiting == HANDSHAKE_COMPLETE)
    && k.next == (if k.waiting == H0 then 0 else if k.waiting == H1 then 1 else 2)
    && (if ClientDone(s) then k.remoteID in s.completed && k.options == c.options else k.remoteID == 0)
    && k.completions == (if ClientDone(s) then 1 else 0)
    && (forall id :: id in k.window ==>
          && k.window[id] == KeptByClient(c, id)
          && ((id == 0 && k.waiting == H1) || (id == 1 && k.waiting == H3)))
  }

  ghost predicate ServerOk(c: Config, s: Sys) {
    && (s.server.Some? ==>
          var v := s.server.value;
          && s.made > 0 && v.localID == c.serverIDs(s.made - 1) && v.options == c.options
          && (v.waiting == H2 || v.waiting == HANDSHAKE_COMPLETE)
          && v.remoteID == (if ServerDone(s) then c.clientID else 0)
          && v.completions == (if ServerDone(s) then 1 else 0)
          && v.window == map[] && (ServerDone(s) ==> v.localID in s.completed))
    && (forall v :: v in s.completed ==> exists n: nat :: n < s.made && c.serverIDs(n) == v)
  }

  /** The client keeps the packet whose answer it is waiting for. */
  ghost predicate Awaits(s: Sys) {
    !s.client.closed ==>
      && (s.client.waiting == H1 ==> 0 in s.client.window)
      && (s.client.waiting == H3 ==> 1 in s.client.window)
  }

  /** Exactly what the client has ever sent. */
  function SentByClient(c: Config, k: Side): set<Datagram> {
    if k.waiting == H0 then {} else if k.waiting == H1 then {Packet0(c)} else {Packet0(c), Packet2(c)}
  }

  ghost predicate Inv(c: Config, s: Sys) {
    && ClientOk(c, s) && ServerOk(c, s) && Awaits(s)
    && s.toServer == SentByClient(c, s.client)
    && (forall d :: d in s.toClient ==> FromServer(c, s, d))
  }

  // ---- what is read is what was written ------------------------------------------------------------

  lemma SealFields(typ: Byte, id: Id, localID: Id, o: Options, longID: Bytes, remoteID: Id)
    ensures var d := Seal(typ, id, localID, o, longID, remoteID);
            d.typ == typ && d.id == id && d.connection == remoteID
  {
    hide SentBody;
  }

  /** Options travel only in H3 and the short id only in H2 and H3. */
  lemma SealSame(typ: Byte, id: Id, localID: Id, o: Options, p: Options, longID: Bytes, remoteID: Id)
    ensures typ != H3 ==> Seal(typ, id, localID, o, longID, remoteID) == Seal(typ, id, localID, p, longID, remoteID)
    ensures typ == H1 ==> Seal(typ, id, localID, o, longID, remoteID) == Seal(typ, id, 0, o, longID, remoteID)
  {
    hide U16, EncodeOptions;
  }

  /** What reaches the server is addressed to it by the long id and reads as it was written. */
  lemma ServerReads(c: Config, localID: Id, d: Datagram) returns (body: Bytes, rest: Bytes)
    requires ValidConfig(c) && (d == Packet0(c) || d == Packet2(c))
    ensures Addressed(c, localID, d) == Some(body) && OpenOptions(d.typ, body) == Opened(None, rest)
    ensures if d == Packet0(c) then d.typ == H0 && d.id == 0 else d.typ == H2 && d.id == 1
    ensures d.typ == H2 ==> ReadRemoteID(rest).0 == c.clientID
    ensures d.connection == 0
  {
    hide Seal, OpenOptions, ReadRemoteID, GetLookUp;
    var typ, id := if d == Packet0(c) then H0 else H2, if d == Packet0(c) then 0 else 1;
    LayersRoundTrip(typ, id, c.clientID, c.options, c.longID, 0);
    SealFields(typ, id, c.clientID, c.options, c.longID, 0);
    body := GetLookUp(d).body;
    rest := OpenOptions(d.typ, body).body;
  }

  /** What reaches the client likewise: an H1 says nothing, an H3 the options and the server's short id. */
  lemma ClientReads(c: Config, d: Datagram, v: Id) returns (body: Bytes, rest: Bytes)
    requires ValidConfig(c) && (IsH1(c, d) || IsH3(c, d, v))
    ensures Addressed(c, c.clientID, d) == Some(body)
    ensures if IsH1(c, d) then d.typ == H1 && d.id == 0 else d.typ == H3 && d.id == 1
    ensures OpenOptions(d.typ, body) == Opened(if d.typ == H3 then Some(c.options) else None, rest)
    ensures d.typ == H3 ==> ReadRemoteID(rest).0 == v
  {
    hide Seal, OpenOptions, ReadRemoteID, GetLookUp;
    var typ, id, local := if IsH1(c, d) then H1 else H3, if IsH1(c, d) then 0 else 1, if IsH1(c, d) then 0 else v;
    var remote := if d == Seal(typ, id, local, c.options, c.longID, 0) then 0 else c.clientID;
    LayersRoundTrip(typ, id, local, c.options, c.longID, remote);
    SealFields(typ, id, local, c.options, c.longID, remote);
    body := GetLookUp(d).body;
    rest := OpenOptions(d.typ, body).body;
  }

  lemma GatheredOne(d: Datagram)
    ensures Gathered([d]) == {d} && Gathered([]) == {}
  {
  }

  // ---- the client's own steps ----------------------------------------------------------------------

  lemma StartEffect(c: Config, s: Sys)
    requires s.client.localID == c.clientID && s.client.next == 0 && s.client.remoteID == 0
    ensures var k := s.client;
            var window := if k.closed || 0 in k.window then k.window else k.window[0 := KeptByClient(c, 0)];
            StartStep(c, s) ==
            s.(client := k.(next := 1, waiting := H1, window := window), toServer := s.toServer + {Packet0(c)})
  {
    SealSame(H0, 0, c.clientID, s.client.options, c.options, c.longID, 0);
    BodySame(H0, c.clientID, s.client.options, c.options);
    hide Seal, SentBody;
    GatheredOne(Packet0(c));
  }

  lemma BodySame(typ: Byte, localID: Id, o: Options, p: Options)
    requires typ != H3
    ensures SentBody(typ, localID, o) == SentBody(typ, localID, p)
  {
  }

  lemma StartKeeps(c: Config, s: Sys)
    requires ValidConfig(c) && Inv(c, s)
    ensures Inv(c, StartStep(c, s))
  {
    if s.client.next == 0 {
      StartEffect(c, s);
      hide StartStep, Seal, SentBody;
      ClientMoves(c, s, StartStep(c, s).client);
    }
  }

  /** A resent packet is the one that was sent first. */
  lemma ClientResends(c: Config, s: Sys, id: Id)
    requires ClientOk(c, s) && id in s.client.window
    ensures id == 0 || id == 1
    ensures Resend(c, s.client, id) == (if id == 0 then Packet0(c) else Packet2(c)) && Resend(c, s.client, id).id == id
  {
    hide SentBody;
  }

  lemma RetryKeeps(c: Config, s: Sys, id: Id)
    requires ValidConfig(c) && Inv(c, s)
    ensures Next(c, s, Retry(id)) == s
  {
    if id in s.client.window {
      ClientResends(c, s, id);
      hide Seal, Resend;
      assert s.toServer + {Resend(c, s.client, id)} == s.toServer;
    }
  }

  // ---- the server ----------------------------------------------------------------------------------

  /** The server after an H0 or an H2 of the client. */
  function ServerAfter(c: Config, v: Side, typ: Byte): Side {
    if typ == H0 then (if v.waiting == H0 then v.(waiting := H2) else v)
    else if v.waiting == H2 then Complete(v, c.clientID) else v
  }

  lemma ServerEffect(c: Config, s: Sys, d: Datagram)
    requires ValidConfig(c) && (d == Packet0(c) || d == Packet2(c))
    ensures var typ, id := if d == Packet0(c) then H0 else H2, if d == Packet0(c) then 0 else 1;
            ServerStep(c, s, d) ==
            if s.server.None? && typ == H2 then s
            else WithServer(s, ServerAfter(c, ServerSide(c, s), typ),
                            {Send(c, ServerSide(c, s), if typ == H0 then H1 else H3, id)})
  {
    hide Seal, Packet0, Packet2, OpenOptions, ReadRemoteID, Addressed, WithServer, Receive, ServerAfter, Send, Gathered;
    var v := ServerSide(c, s);
    var body, rest := ServerReads(c, v.localID, d);
    ServerReceives(c, v, d, body, rest);
    GatheredOne(Send(c, v, if d.typ == H0 then H1 else H3, d.id));
  }

  lemma ServerReceives(c: Config, v: Side, d: Datagram, body: Bytes, rest: Bytes)
    requires (d.typ == H0 || d.typ == H2) && OpenOptions(d.typ, body) == Opened(None, rest)
    requires d.typ == H2 ==> ReadRemoteID(rest).0 == c.clientID
    ensures Receive(c, v, d, body) ==
            Outcome(ServerAfter(c, v, d.typ), [Send(c, v, if d.typ == H0 then H1 else H3, d.id)])
  {
    hide Send, OpenOptions, ReadRemoteID;
  }

  /** Another connection of the server, or a later state of the same: nothing the client relies on is lost. */
  lemma ServerMoves(c: Config, s: Sys, v: Side, a: Datagram)
    requires ValidConfig(c) && Inv(c, s)
    requires ServerOk(c, WithServer(s, v, {a})) && FromServer(c, WithServer(s, v, {a}), a)
    ensures Inv(c, WithServer(s, v, {a}))
  {
    hide Seal, IsH1, IsH3;
    var t := WithServer(s, v, {a});
    forall d | d in t.toClient
      ensures FromServer(c, t, d)
    {
      if d != a {
        assert FromServer(c, s, d);
      }
    }
  }

  lemma ServerAfterOk(c: Config, s: Sys, typ: Byte, a: Datagram)
    requires ValidConfig(c) && ServerOk(c, s) && (typ == H0 || (typ == H2 && s.server.Some?))
    ensures ServerOk(c, WithServer(s, ServerAfter(c, ServerSide(c, s), typ), {a}))
  {
    var v := ServerAfter(c, ServerSide(c, s), typ);
    var t := WithServer(s, v, {a});
    assert v.localID == c.serverIDs(t.made - 1);
    forall w | w in t.completed
      ensures exists n: nat :: n < t.made && c.serverIDs(n) == w
    {
      if w in s.completed {
        var n: nat :| n < s.made && c.serverIDs(n) == w;
        assert n < t.made;
      }
    }
  }

  /** What the server answers. */
  lemma ServerAnswers(c: Config, v: Side)
    requires v.options == c.options && (v.remoteID == 0 || v.remoteID == c.clientID)
    ensures IsH1(c, Send(c, v, H1, 0)) && IsH3(c, Send(c, v, H3, 1), v.localID)
  {
    SealSame(H1, 0, v.localID, c.options, c.options, c.longID, v.remoteID);
    hide Seal;
  }

  lemma ServerSideOk(c: Config, s: Sys)
    requires ServerOk(c, s)
    ensures var v := ServerSide(c, s); v.options == c.options && (v.remoteID == 0 || v.remoteID == c.clientID)
  {
  }

  lemma ServerGetsKeeps(c: Config, s: Sys, d: Datagram)
    requires ValidConfig(c) && Inv(c, s) && d in s.toServer
    ensures Inv(c, ServerStep(c, s, d))
  {
    SentCases(c, s, d);
    ServerEffect(c, s, d);
    ServerSideOk(c, s);
    ServerAnswers(c, ServerSide(c, s));
    hide Seal, ServerStep, Send, IsH1, IsH3, ClientOk, Awaits, Packet0, Packet2;
    var typ := if d == Packet0(c) then H0 else H2;
    if s.server.Some? || typ == H0 {
      var v := ServerAfter(c, ServerSide(c, s), typ);
      var a := Send(c, ServerSide(c, s), if typ == H0 then H1 else H3, if typ == H0 then 0 else 1);
      ServerAfterOk(c, s, typ, a);
      if typ == H2 {
        AfterH2(c, s);
        assert v.localID in WithServer(s, v, {a}).completed;
      }
      ServerMoves(c, s, v, a);
    }
  }

  /** After an H2 the server has completed. */
  lemma AfterH2(c: Config, s: Sys)
    requires ServerOk(c, s) && s.server.Some?
    ensures var v := ServerSide(c, s);
            ServerAfter(c, v, H2).waiting == HANDSHAKE_COMPLETE && ServerAfter(c, v, H2).localID == v.localID
  {
  }

  lemma SentCases(c: Config, s: Sys, d: Datagram)
    requires ClientOk(c, s) && s.toServer == SentByClient(c, s.client) && d in s.toServer
    ensures s.client.waiting != H0 && (d == Packet0(c) || (d == Packet2(c) && d != Packet0(c) && ClientAnswered(s)))
  {
    SealFields(H0, 0, c.clientID, c.options, c.longID, 0);
    SealFields(H2, 1, c.clientID, c.options, c.longID, 0);
    hide Seal;
  }

  // ---- the client ----------------------------------------------------------------------------------

  /** The client after an H1, or after an H3 of the connection with short id `v`. */
  function ClientAfter(c: Config, k: Side, typ: Byte, v: Id): Side {
    if typ == H1 then
      var t := if k.waiting == H1 then SendReliably(c, k.(waiting := H3), H2).side else k;
      t.(window := t.window - {0})
    else
      var t := if k.waiting == H3 then Complete(k.(options := c.options), v) else k.(options := c.options);
      t.(window := t.window - {1})
  }

  lemma ClientReceives(c: Config, k: Side, d: Datagram, body: Bytes, rest: Bytes, v: Id)
    requires (d.typ == H1 && d.id == 0) || (d.typ == H3 && d.id == 1)
    requires OpenOptions(d.typ, body) == Opened(if d.typ == H3 then Some(c.options) else None, rest)
    requires d.typ == H3 ==> ReadRemoteID(rest).0 == v
    ensures Receive(c, k, d, body) ==
            Outcome(ClientAfter(c, k, d.typ, v),
                    if d.typ == H1 && k.waiting == H1 then [Send(c, k.(waiting := H3), H2, Wrap(k.next))] else [])
  {
    hide Send, OpenOptions, ReadRemoteID, SentBody;
  }

  lemma ClientEffect(c: Config, s: Sys, d: Datagram, v: Id)
    requires ValidConfig(c) && (IsH1(c, d) || IsH3(c, d, v))
    ensures d.typ == (if IsH1(c, d) then H1 else H3)
    ensures var k := s.client;
            ClientStep(c, s, d) ==
            s.(client := ClientAfter(c, k, d.typ, v),
               toServer := s.toServer +
                 if d.typ == H1 && k.waiting == H1 then {Send(c, k.(waiting := H3), H2, Wrap(k.next))} else {})
  {
    var body, rest := ClientReads(c, d, v);
    ClientReceives(c, s.client, d, body, rest, v);
    hide Seal, Send, Receive, ClientAfter, Addressed, Gathered, IsH1, IsH3;
    GatheredOne(Send(c, s.client.(waiting := H3), H2, Wrap(s.client.next)));
  }

  /** The client moves forward, has sent what goes with that, and the server is not touched. */
  lemma ClientMoves(c: Config, s: Sys, k: Side)
    requires ValidConfig(c) && Inv(c, s)
    requires ClientAnswered(s) ==> ClientAnswered(s.(client := k))
    requires s.client.waiting != H0 ==> k.waiting != H0
    requires ClientOk(c, s.(client := k)) && Awaits(s.(client := k))
    ensures Inv(c, s.(client := k, toServer := SentByClient(c, k)))
  {
    hide Seal, IsH1, IsH3;
    var t := s.(client := k, toServer := SentByClient(c, k));
    forall d | d in s.toClient
      ensures FromServer(c, t, d)
    {
      assert FromServer(c, s, d);
    }
  }

  lemma H1Moves(c: Config, s: Sys)
    requires ValidConfig(c) && ClientOk(c, s) && Awaits(s) && s.client.waiting != H0
    ensures var k := ClientAfter(c, s.client, H1, 0);
            && ClientOk(c, s.(client := k)) && Awaits(s.(client := k))
            && k.waiting == (if s.client.waiting == H1 then H3 else s.client.waiting)
  {
    BodySame(H2, c.clientID, s.client.options, c.options);
    hide Send, SentBody;
    assert Wrap(1) == 1;
  }

  lemma H3Moves(c: Config, s: Sys, v: Id)
    requires ValidConfig(c) && ClientOk(c, s) && Awaits(s) && ClientAnswered(s) && v in s.completed
    ensures var k := ClientAfter(c, s.client, H3, v);
            ClientOk(c, s.(client := k)) && Awaits(s.(client := k)) && k.waiting == HANDSHAKE_COMPLETE
  {
  }

  lemma AnswerSent(c: Config, s: Sys)
    requires ClientOk(c, s) && s.client.waiting == H1
    ensures Send(c, s.client.(waiting := H3), H2, Wrap(s.client.next)) == Packet2(c)
  {
    SealSame(H2, 1, c.clientID, s.client.options, c.options, c.longID, 0);
    hide Seal;
  }

  lemma GetsH1(c: Config, s: Sys, d: Datagram)
    requires ValidConfig(c) && Inv(c, s) && IsH1(c, d) && s.client.waiting != H0
    ensures Inv(c, ClientStep(c, s, d))
    ensures ClientStep(c, s, d).client == ClientAfter(c, s.client, H1, 0)
    ensures ClientStep(c, s, d).server == s.server
  {
    ClientEffect(c, s, d, 0);
    H1Moves(c, s);
    if s.client.waiting == H1 {
      AnswerSent(c, s);
    }
    WaitingValues(c, s);
    hide Seal, ClientStep, Send, ClientAfter, ClientOk, ServerOk, Awaits, FromServer, Packet0, Packet2, IsH1, IsH3;
    var k := ClientAfter(c, s.client, H1, 0);
    SentNext(c, s.client, k);
    hide SentByClient;
    ClientMoves(c, s, k);
  }

  lemma SentNext(c: Config, k: Side, n: Side)
    requires k.waiting == H1 || k.waiting == H3 || k.waiting == HANDSHAKE_COMPLETE
    requires n.waiting == if k.waiting == H1 then H3 else k.waiting
    ensures SentByClient(c, n) == SentByClient(c, k) + (if k.waiting == H1 then {Packet2(c)} else {})
  {
    hide Packet0, Packet2;
  }

  lemma WaitingValues(c: Config, s: Sys)
    requires ClientOk(c, s)
    ensures var w := s.client.waiting; w == H0 || w == H1 || w == H3 || w == HANDSHAKE_COMPLETE
  {
  }

  lemma GetsH3(c: Config, s: Sys, d: Datagram, v: Id)
    requires ValidConfig(c) && Inv(c, s) && !IsH1(c, d) && IsH3(c, d, v) && ClientAnswered(s) && v in s.completed
    ensures Inv(c, ClientStep(c, s, d))
    ensures ClientStep(c, s, d).client == ClientAfter(c, s.client, H3, v)
    ensures ClientStep(c, s, d).server == s.server
  {
    ClientEffect(c, s, d, v);
    H3Moves(c, s, v);
    hide Seal, ClientStep, Send, ClientAfter, ClientOk, ServerOk, Awaits, FromServer, Packet0, Packet2, IsH1, IsH3;
    var k := ClientAfter(c, s.client, H3, v);
    SentAll(c, s.client, k);
    hide SentByClient;
    ClientMoves(c, s, k);
  }

  /** A client that has seen an H1 has sent both its packets. */
  lemma SentAll(c: Config, k: Side, n: Side)
    requires (k.waiting == H3 || k.waiting == HANDSHAKE_COMPLETE) && n.waiting == HANDSHAKE_COMPLETE
    ensures SentByClient(c, n) == SentByClient(c, k) == SentByClient(c, k) + {}
  {
    hide Packet0, Packet2;
  }

  lemma ClientGetsKeeps(c: Config, s: Sys, d: Datagram)
    requires ValidConfig(c) && Inv(c, s) && d in s.toClient
    ensures Inv(c, ClientStep(c, s, d))
  {
    hide Seal, ClientStep, ClientOk, Awaits, ServerOk, IsH1, IsH3;
    assert FromServer(c, s, d);
    if IsH1(c, d) {
      H1Started(c, s, d);
      GetsH1(c, s, d);
    } else {
      var v :| v in s.completed && IsH3(c, d, v);
      GetsH3(c, s, d, v);
    }
  }

  /** Nothing reaches a client that has not started. */
  lemma H1Started(c: Config, s: Sys, d: Datagram)
    requires FromServer(c, s, d)
    ensures s.client.waiting != H0
  {
    hide Seal, IsH1, IsH3;
  }

  lemma EraseKeeps(c: Config, s: Sys)
    requires Inv(c, s)
    ensures Inv(c, s.(server := None))
  {
    hide Seal, IsH1, IsH3;
    var t := s.(server := None);
    assert forall d :: d in s.toClient && FromServer(c, s, d) ==> FromServer(c, t, d);
  }

  lemma FailKeeps(c: Config, s: Sys)
    requires Inv(c, s)
    ensures Inv(c, s.(client := s.client.(closed := true, window := map[])))
  {
    hide Seal, IsH1, IsH3;
    var t := s.(client := s.client.(closed := true, window := map[]));
    assert forall d :: d in s.toClient && FromServer(c, s, d) ==> FromServer(c, t, d);
  }

  lemma NextKeeps(c: Config, s: Sys, step: Step)
    requires ValidConfig(c) && Inv(c, s)
    ensures Inv(c, Next(c, s, step))
  {
    hide Inv, StartStep, ServerStep, ClientStep, Resend;
    match step {
      case Start => StartKeeps(c, s);
      case Retry(id) => RetryKeeps(c, s, id);
      case ServerGets(d) => if d in s.toServer { ServerGetsKeeps(c, s, d); }
      case ClientGets(d) => if d in s.toClient { ClientGetsKeeps(c, s, d); }
      case ClientFails => FailKeeps(c, s);
      case ServerErased => EraseKeeps(c, s);
    }
  }

  lemma InitInv(c: Config, o: Options)
    requires ValidConfig(c) && ValidOptions(o)
    ensures Inv(c, Init(c, o))
  {
  }

  lemma {:induction false} RunKeeps(c: Config, s: Sys, steps: seq<Step>)
    requires ValidConfig(c) && Inv(c, s)
    ensures Inv(c, Run(c, s, steps))
    decreases |steps|
  {
    hide Inv, Next;
    if steps != [] {
      NextKeeps(c, s, steps[0]);
      RunKeeps(c, Next(c, s, steps[0]), steps[1..]);
    }
  }

  // ---- theorems ------------------------------------------------------------------------------

  /** Both ends have completed with each other. */
  predicate Agreed(s: Sys) {
    && ClientDone(s) && ServerDone(s)
    && s.client.remoteID == s.server.value.localID && s.server.value.remoteID == s.client.localID
  }

  ghost predicate NoErase(steps: seq<Step>) {
    forall i :: 0 <= i < |steps| ==> !steps[i].ServerErased?
  }

  /** The server has made one connection for the long id, or none yet. */
  ghost predicate FirstLife(c: Config, s: Sys) {
    && s.made == (if s.server.Some? then 1 else 0)
    && s.completed == (if ServerDone(s) then {c.serverIDs(0)} else {})
  }

  lemma ServerFirstLife(c: Config, s: Sys, d: Datagram)
    requires ValidConfig(c) && Inv(c, s) && FirstLife(c, s) && d in s.toServer
    ensures FirstLife(c, ServerStep(c, s, d))
  {
    SentCases(c, s, d);
    ServerEffect(c, s, d);
    hide Seal, Packet0, Packet2, ServerStep, Send, ClientOk, Awaits, FromServer;
  }

  lemma ClientLeavesServer(c: Config, s: Sys, d: Datagram)
    ensures var t := ClientStep(c, s, d); t.server == s.server && t.made == s.made && t.completed == s.completed
  {
    hide Receive, Addressed;
  }

  lemma NextFirstLife(c: Config, s: Sys, step: Step)
    requires ValidConfig(c) && Inv(c, s) && FirstLife(c, s) && !step.ServerErased?
    ensures FirstLife(c, Next(c, s, step))
  {
    hide Inv, ServerStep, ClientStep, Initiate, Resend;
    match step {
      case ServerGets(d) => if d in s.toServer { ServerFirstLife(c, s, d); }
      case ClientGets(d) => ClientLeavesServer(c, s, d);
      case _ =>
    }
  }

  lemma {:induction false} RunFirstLife(c: Config, s: Sys, steps: seq<Step>)
    requires ValidConfig(c) && Inv(c, s) && FirstLife(c, s) && NoErase(steps)
    ensures FirstLife(c, Run(c, s, steps))
    decreases |steps|
  {
    hide Inv, FirstLife, Next;
    if steps != [] {
      NextFirstLife(c, s, steps[0]);
      NextKeeps(c, s, steps[0]);
      RunFirstLife(c, Next(c, s, steps[0]), steps[1..]);
    }
  }

  /** Agreement, in every reachable state, however often the server's connection is erased and made again: a client
  that has completed knows the short id of a connection of the server that has completed, a connection of the server
  that has completed knows the client's, and nobody completes twice. As long as the server has erased nothing, a
  client that has completed and the server agree. */
  lemma HandshakeAgreement(c: Config, o: Options, steps: seq<Step>)
    requires ValidConfig(c) && ValidOptions(o)
    ensures var s := Run(c, Init(c, o), steps);
            && (ClientDone(s) ==> s.client.remoteID in s.completed && s.client.options == c.options)
            && (forall v :: v in s.completed ==> exists n: nat :: n < s.made && c.serverIDs(n) == v)
            && (ServerDone(s) ==> s.server.value.remoteID == s.client.localID == c.clientID)
            && (ServerDone(s) ==> s.server.value.localID in s.completed)
            && s.client.completions <= 1 && (s.server.Some? ==> s.server.value.completions <= 1)
            && (ClientDone(s) <==> s.client.completions == 1)
            && (s.server.Some? ==> (ServerDone(s) <==> s.server.value.completions == 1))
            && (NoErase(steps) && ClientDone(s) ==> Agreed(s))
  {
    InitInv(c, o);
    RunKeeps(c, Init(c, o), steps);
    if NoErase(steps) {
      RunFirstLife(c, Init(c, o), steps);
    }
    hide Run, Seal, FromServer;
  }

  /** What no step but erasing changes: the short id of the server's connection, or of the one it would make, and
  the id a client that has completed has noted. */
  ghost predicate Fixed(c: Config, s: Sys, t: Sys) {
    && ServerSide(c, t).localID == ServerSide(c, s).localID
    && (ClientDone(s) ==> ClientDone(t) && t.client.remoteID == s.client.remoteID)
  }

  lemma ServerFixed(c: Config, s: Sys, d: Datagram)
    requires ValidConfig(c) && Inv(c, s) && d in s.toServer
    ensures Fixed(c, s, ServerStep(c, s, d))
  {
    SentCases(c, s, d);
    ServerEffect(c, s, d);
    hide Seal, Packet0, Packet2, ServerStep, Send, ClientOk, Awaits, FromServer;
  }

  lemma ClientFixed(c: Config, s: Sys, d: Datagram)
    requires ValidConfig(c) && Inv(c, s) && d in s.toClient
    ensures Fixed(c, s, ClientStep(c, s, d))
  {
    ClientLeavesServer(c, s, d);
    hide Seal, ClientStep, ClientOk, Awaits, ServerOk, IsH1, IsH3;
    assert FromServer(c, s, d);
    if IsH1(c, d) {
      H1Started(c, s, d);
      GetsH1(c, s, d);
    } else {
      var v :| v in s.completed && IsH3(c, d, v);
      GetsH3(c, s, d, v);
    }
  }

  lemma NextFixed(c: Config, s: Sys, step: Step)
    requires ValidConfig(c) && Inv(c, s) && !step.ServerErased?
    ensures Fixed(c, s, Next(c, s, step))
  {
    hide ServerStep, ClientStep, Resend, FromServer;
    match step {
      case Start => if s.client.next == 0 { StartEffect(c, s); hide Inv, StartStep; }
      case ServerGets(d) => hide Inv; if d in s.toServer { ServerFixed(c, s, d); }
      case ClientGets(d) => hide Inv; if d in s.toClient { ClientFixed(c, s, d); }
      case _ => hide Inv;
    }
  }

  lemma {:induction false} RunFixed(c: Config, s: Sys, steps: seq<Step>)
    requires ValidConfig(c) && Inv(c, s) && NoErase(steps)
    ensures Fixed(c, s, Run(c, s, steps))
    decreases |steps|
  {
    hide Inv, Next;
    if steps != [] {
      NextFixed(c, s, steps[0]);
      NextKeeps(c, s, steps[0]);
      RunFixed(c, Next(c, s, steps[0]), steps[1..]);
    }
  }

  /** After an erasure, exactly when agreement can come back without another one: when the connection the server has,
  or would make for a late H0, has the short id the client has noted. Late packets then complete it. */
  lemma RemadeExact(c: Config, o: Options, steps: seq<Step>)
    requires ValidConfig(c) && ValidOptions(o) && ClientDone(Run(c, Init(c, o), steps))
    ensures var s := Run(c, Init(c, o), steps);
            (exists more :: NoErase(more) && Agreed(Run(c, s, more))) <==>
            ServerSide(c, s).localID == s.client.remoteID
  {
    InitInv(c, o);
    RunKeeps(c, Init(c, o), steps);
    var s := Run(c, Init(c, o), steps);
    forall more | NoErase(more) && Agreed(Run(c, s, more))
      ensures ServerSide(c, s).localID == s.client.remoteID
    {
      RunFixed(c, s, more);
    }
    if ServerSide(c, s).localID == s.client.remoteID {
      var more := LatePackets(c, s);
      RunFixed(c, s, more);
      RunKeeps(c, s, more);
      DoneAgrees(c, Run(c, s, more));
    }
  }

  lemma DoneAgrees(c: Config, t: Sys)
    requires Inv(c, t) && ClientDone(t) && ServerDone(t) && ServerSide(c, t).localID == t.client.remoteID
    ensures Agreed(t)
  {
    hide Seal, FromServer;
  }

  /** An H0 makes the server's connection if there is none, an H2 completes it. */
  lemma ServerGetsBoth(c: Config, s: Sys)
    requires ValidConfig(c) && Inv(c, s) && ClientAnswered(s)
    ensures var t := Next(c, s, ServerGets(Packet0(c)));
            var u := Next(c, t, ServerGets(Packet2(c)));
            Inv(c, u) && u.client == s.client && ServerDone(u)
  {
    hide Seal, ServerStep, Send, ClientStep;
    var t := Next(c, s, ServerGets(Packet0(c)));
    NextKeeps(c, s, ServerGets(Packet0(c)));
    ServerEffect(c, s, Packet0(c));
    NextKeeps(c, t, ServerGets(Packet2(c)));
    ServerEffect(c, t, Packet2(c));
    PacketsDiffer(c);
    AfterH2(c, t);
  }

  lemma PacketsDiffer(c: Config)
    ensures Packet0(c) != Packet2(c)
  {
    SealFields(H0, 0, c.clientID, c.options, c.longID, 0);
    SealFields(H2, 1, c.clientID, c.options, c.longID, 0);
    hide Seal;
  }

  lemma LatePackets(c: Config, s: Sys) returns (more: seq<Step>)
    requires ValidConfig(c) && Inv(c, s) && ClientAnswered(s)
    ensures NoErase(more)
    ensures var t := Run(c, s, more); Inv(c, t) && t.client == s.client && ServerDone(t)
  {
    ServerGetsBoth(c, s);
    hide Inv, Next, Packet0, Packet2;
    more := [ServerGets(Packet0(c)), ServerGets(Packet2(c))];
    RunTwo(c, s, ServerGets(Packet0(c)), ServerGets(Packet2(c)));
  }

  /** Progress: until the client completes or fails, its retry window holds the packet whose answer it
  awaits. */
  lemma HandshakeKeepsAwaited(c: Config, o: Options, steps: seq<Step>)
    requires ValidConfig(c) && ValidOptions(o)
    ensures var s := Run(c, Init(c, o), steps);
            s.client.next > 0 && !s.client.closed && !ClientDone(s) ==>
              exists id :: id in s.client.window &&
                  s.client.window[id].typ == (if s.client.waiting == H1 then H0 else H2)
  {
    InitInv(c, o);
    RunKeeps(c, Init(c, o), steps);
    var s := Run(c, Init(c, o), steps);
    if s.client.waiting == H1 && !s.client.closed {
      assert 0 in s.client.window;
    } else if s.client.waiting == H3 && !s.client.closed {
      assert 1 in s.client.window;
    }
  }

  /** Before anything else happens, a resend repeats the first transmission byte for byte. */
  lemma FirstResend(c: Config, s: Side, typ: Byte)
    requires !s.closed && Wrap(s.next) !in s.window
    ensures var o := SendReliably(c, s, typ);
            Wrap(s.next) in o.side.window && [Resend(c, o.side, Wrap(s.next))] == o.sent
  {
    hide SentBody;
  }

  /** However often it has been resent and whatever has happened since, a packet that is resent reads as it did
  the first time. */
  lemma ResendsReadTheSame(c: Config, o: Options, steps: seq<Step>, id: Id)
    requires ValidConfig(c) && ValidOptions(o) && id in Run(c, Init(c, o), steps).client.window
    ensures var s := Run(c, Init(c, o), steps);
            var typ := if id == 0 then H0 else H2;
            && ReadsAs(Resend(c, s.client, id), typ, c.clientID, c.options, c.longID, s.client.remoteID)
            && Resend(c, s.client, id).id == id
  {
    InitInv(c, o);
    RunKeeps(c, Init(c, o), steps);
    var s := Run(c, Init(c, o), steps);
    ClientResends(c, s, id);
    LayersRoundTrip(KeptByClient(c, id).typ, id, c.clientID, c.options, c.longID, 0);
    hide Run, Seal, ReadsAs, FromServer;
    assert s.client.remoteID == 0;
  }

  // ---- completing is always possible -----------------------------------------------------------

  lemma {:induction false} RunAppend(c: Config, s: Sys, a: seq<Step>, b: seq<Step>)
    ensures Run(c, s, a + b) == Run(c, Run(c, s, a), b)
    decreases |a|
  {
    hide Next;
    if a == [] {
      assert a + b == b;
    } else {
      assert (a + b)[0] == a[0] && (a + b)[1..] == a[1..] + b;
      RunAppend(c, Next(c, s, a[0]), a[1..], b);
    }
  }

  lemma RunOne(c: Config, s: Sys, step: Step)
    ensures Run(c, s, [step]) == Next(c, s, step)
  {
    hide Next;
    assert [step][1..] == [];
    assert Run(c, Next(c, s, step), []) == Next(c, s, step);
  }

  lemma RunTwo(c: Config, s: Sys, x: Step, y: Step)
    ensures Run(c, s, [x, y]) == Next(c, Next(c, s, x), y)
  {
    hide Next, Run;
    assert [x, y] == [x] + [y];
    RunAppend(c, s, [x], [y]);
    RunOne(c, s, x);
    RunOne(c, Next(c, s, x), y);
  }

  /** The retried H0, answered: the client has seen an H1. */
  lemma FirstExchange(c: Config, s: Sys) returns (steps: seq<Step>)
    requires ValidConfig(c) && Inv(c, s) && s.client.waiting == H1
    ensures var t := Run(c, s, steps); Inv(c, t) && ClientAnswered(t)
  {
    hide Seal, Packet0, Send, IsH1, Next, ClientStep, ClientAfter, FromServer, ServerOk;
    var a := AnsweredH0(c, s);
    var t := Next(c, s, ServerGets(Packet0(c)));
    GetsH1(c, t, a);
    H1Moves(c, t);
    GetsIsStep(c, t, a);
    steps := [ServerGets(Packet0(c)), ClientGets(a)];
    RunTwo(c, s, ServerGets(Packet0(c)), ClientGets(a));
  }

  lemma AnsweredH0(c: Config, s: Sys) returns (a: Datagram)
    requires ValidConfig(c) && Inv(c, s) && s.client.waiting == H1
    ensures var t := Next(c, s, ServerGets(Packet0(c))); Inv(c, t) && t.client == s.client && a in t.toClient
    ensures IsH1(c, a)
  {
    ServerSideOk(c, s);
    ServerAnswers(c, ServerSide(c, s));
    ServerEffect(c, s, Packet0(c));
    a := Send(c, ServerSide(c, s), H1, 0);
    NextKeeps(c, s, ServerGets(Packet0(c)));
    hide Seal, ServerStep, Send, ClientStep, IsH1, StartStep, ClientOk, ServerOk, FromServer;
  }

  lemma GetsIsStep(c: Config, t: Sys, a: Datagram)
    requires a in t.toClient
    ensures Next(c, t, ClientGets(a)) == ClientStep(c, t, a)
  {
    hide ClientStep, ServerStep, StartStep, Resend;
  }

  /** The retried H2, answered by a server that has completed: so has the client. */
  lemma LastExchange(c: Config, s: Sys) returns (steps: seq<Step>)
    requires ValidConfig(c) && Inv(c, s) && ClientAnswered(s) && ServerDone(s)
    ensures var t := Run(c, s, steps); Inv(c, t) && ClientDone(t) && ServerDone(t)
  {
    hide Seal, Packet2, Send, IsH1, IsH3, Next, ClientStep, ClientAfter, FromServer, ServerOk;
    var a, v := AnsweredH2(c, s);
    var t := Next(c, s, ServerGets(Packet2(c)));
    GetsH3(c, t, a, v);
    H3Moves(c, t, v);
    GetsIsStep(c, t, a);
    steps := [ServerGets(Packet2(c)), ClientGets(a)];
    RunTwo(c, s, ServerGets(Packet2(c)), ClientGets(a));
  }

  lemma AnsweredH2(c: Config, s: Sys) returns (a: Datagram, v: Id)
    requires ValidConfig(c) && Inv(c, s) && ClientAnswered(s) && ServerDone(s)
    ensures var t := Next(c, s, ServerGets(Packet2(c)));
            Inv(c, t) && t.client == s.client && t.server == s.server && a in t.toClient && v in t.completed
    ensures IsH3(c, a, v) && !IsH1(c, a)
  {
    ServerSideOk(c, s);
    ServerAnswers(c, ServerSide(c, s));
    PacketsDiffer(c);
    ServerEffect(c, s, Packet2(c));
    v := ServerSide(c, s).localID;
    a := Send(c, ServerSide(c, s), H3, 1);
    AnswersDiffer(c, ServerSide(c, s));
    NextKeeps(c, s, ServerGets(Packet2(c)));
    hide Seal, ServerStep, Send, ClientStep, IsH1, IsH3, StartStep, ClientOk, FromServer;
  }

  lemma AnswersDiffer(c: Config, v: Side)
    ensures !IsH1(c, Send(c, v, H3, 1))
  {
    SealFields(H3, 1, v.localID, v.options, c.longID, v.remoteID);
    SealFields(H1, 0, 0, c.options, c.longID, 0);
    SealFields(H1, 0, 0, c.options, c.longID, c.clientID);
    hide Seal;
  }

  /** From every reachable state, whatever was lost so far, whether or not the server has erased its connection, and
  with no more than copies of packets the client has sent, both sides can still complete. */
  lemma HandshakeCanComplete(c: Config, o: Options, steps: seq<Step>) returns (more: seq<Step>)
    requires ValidConfig(c) && ValidOptions(o)
    ensures var t := Run(c, Run(c, Init(c, o), steps), more); ClientDone(t) && ServerDone(t)
  {
    InitInv(c, o);
    RunKeeps(c, Init(c, o), steps);
    var s := Run(c, Init(c, o), steps);
    hide Run, Next;
    more := [];
    RunNone(c, s);
    var t := s;
    if t.client.waiting == H0 {
      StartWaits(c, s);
      RunOne(c, s, Start);
      more := [Start];
      t := Next(c, s, Start);
    }
    if t.client.waiting == H1 {
      var x := FirstExchange(c, t);
      RunAppend(c, s, more, x);
      more := more + x;
      t := Run(c, t, x);
    }
    var y := LatePackets(c, t);
    RunAppend(c, s, more, y);
    var u := Run(c, t, y);
    var z := LastExchange(c, u);
    RunAppend(c, s, more + y, z);
    more := more + y + z;
  }

  lemma RunNone(c: Config, s: Sys)
    ensures Run(c, s, []) == s
  {
  }

  lemma StartWaits(c: Config, s: Sys)
    requires ValidConfig(c) && Inv(c, s) && s.client.waiting == H0
    ensures var t := Next(c, s, Start); Inv(c, t) && t.client.waiting == H1
  {
    NextKeeps(c, s, Start);
    StartEffect(c, s);
    hide StartStep, Seal, FromServer;
  }
}

/** One end of the handshake as an object, pushing to and popping from packet buffers. */
module HandshakeObjects {
  import opened Serial
  import opened Wire
  import opened Packets
  import opened Layers
  import opened Spec = Handshakes

  class Endpoint {
    const config: Config
    const localID: Id
    var remoteID: Id
    var waitingFor: Byte
    /** The packets kept for retries; the retrier and the layers share them. */
    var window: map<Id, Packet>
    ghost var kept: map<Id, Kept>
    var closed: bool
    var issued: nat
    var completions: nat
    var options: Options
    /** What has gone out through the socket, oldest first. */
    var wire: seq<Datagram>

    ghost predicate Holds(packet: Packet, k: Kept)
      reads packet, packet.data
    {
      packet.Valid() && packet.typ == k.typ && packet.Body() == k.body
    }

    ghost predicate Valid()
      reads this, window.Values, Buffers()
      ensures Valid() ==> |config.longID| == LONG_ID_SIZE
    {
      && |config.longID| == LONG_ID_SIZE
      && kept.Keys == window.Keys
      && forall id :: id in window ==> window[id].id == id && Holds(window[id], kept[id])
    }

    ghost function Buffers(): set<object>
      reads this
    {
      set p | p in window.Values :: p.data
    }

    ghost function Model(): Side
      reads this
    {
      Side(localID, remoteID, waitingFor, kept, closed, issued, completions, options)
    }

    ghost function KeptFor(id: Id): Packet
      requires id in window
      reads this
    {
      window[id]
    }

    /** The packet is not one of those kept. */
    ghost predicate Apart(packet: Packet)
      reads this
    {
      packet !in window.Values && packet.data !in Buffers()
    }

    constructor (config: Config, localID: Id, options: Options)
      requires |config.longID| == LONG_ID_SIZE
      ensures Valid() && Model() == NewSide(localID, options) && wire == [] && this.config == config
    {
      this.config, this.localID, this.options := config, localID, options;
      remoteID, waitingFor, window, closed, issued, completions, wire := 0, H0, map[], false, 0, 0, [];
      kept := map[];
    }

    /** `Connection::send_`: the long id goes on a copy, so a packet that is kept stays as it is. */
    method Transmit(packet: Packet)
      requires |config.longID| == LONG_ID_SIZE && packet.Valid()
      modifies this`wire, packet`connection
      ensures wire == old(wire) + [Address(packet.typ, packet.id, packet.Body(), config.longID, remoteID)]
    {
      packet.connection := remoteID;
      if remoteID == 0 {
        var copy := new Packet();
        var _ := copy.PushData(packet.data[..packet.dataSize]);
        assert copy.Body() == packet.Body();
        var _ := copy.PushValue(config.longID);
        wire := wire + [Datagram(packet.typ, packet.id, 0, copy.data[..copy.dataSize])];
      } else {
        wire := wire + [Datagram(packet.typ, packet.id, remoteID, packet.data[..packet.dataSize])];
      }
    }

    /** `Connection::send`: the options layer pushes on the packet itself. */
    method SendPacket(packet: Packet)
      requires |config.longID| == LONG_ID_SIZE && packet.Valid()
      modifies this`wire, packet`connection, packet`dataSize, packet.data
      ensures packet.Valid() && packet.Body() == OptionsLayer(packet.typ, old(packet.Body()), options)
      ensures wire == old(wire) + [Address(packet.typ, packet.id, packet.Body(), config.longID, remoteID)]
    {
      hide EncodeOptions;
      if packet.typ == H3 {
        var _ := packet.PushValue(EncodeOptions(options));
      }
      Transmit(packet);
    }

    /** `Connection::resend` of a kept packet, the layers left out: every kept packet keeps its body. */
    method ResendKept(id: Id)
      requires Valid() && id in window
      modifies this`wire, KeptFor(id)`connection
      ensures Valid() && Model() == old(Model())
      ensures wire == old(wire) + [Resend(config, Model(), id)]
    {
      Transmit(window[id]);
    }

    /** A handshake packet before it is sent. */
    method Build(typ: Byte, id: Id) returns (packet: Packet)
      ensures fresh(packet) && fresh(packet.data) && packet.Valid()
      ensures packet.typ == typ && packet.id == id && packet.Body() == HandshakeBody(typ, localID)
    {
      packet := new Packet();
      packet.typ, packet.id := typ, id;
      if typ == H2 || typ == H3 {
        var _ := packet.PushValue(U16(localID));
      }
    }

    method SendNew(typ: Byte, id: Id)
      requires Valid()
      modifies this`wire
      ensures Valid()
      ensures wire == old(wire) + [Send(config, Model(), typ, id)]
    {
      hide OptionsLayer, HandshakeBody, Address;
      var packet := Build(typ, id);
      SendPacket(packet);
    }

    /** Keeps a new packet and sends it: the layers work on the packet in the window. */
    method KeepAndSend(packet: Packet)
      requires Valid() && packet.Valid() && Apart(packet) && packet.id !in window
      modifies this`wire, this`window, this`kept, packet`connection, packet`dataSize, packet.data
      ensures Valid()
      ensures kept == old(kept)[packet.id := Kept(packet.typ, OptionsLayer(packet.typ, old(packet.Body()), options))]
      ensures wire == old(wire) + [Address(packet.typ, packet.id, kept[packet.id].body, config.longID, remoteID)]
    {
      hide OptionsLayer, Address;
      window := window[packet.id := packet];
      SendPacket(packet);
      kept := kept[packet.id := Kept(packet.typ, packet.data[..packet.dataSize])];
      assert Holds(packet, kept[packet.id]);
      hide Holds;
      forall i | i in window
        ensures window[i].id == i && Holds(window[i], kept[i])
      {
        if i != packet.id {
          assert old(Holds(window[i], kept[i])) && window[i] in old(window.Values) && window[i].data in old(Buffers());
        }
      }
    }

    /** `sendReliably`: the packet is kept first, then goes through the layers. */
    method SendReliably(typ: Byte)
      requires Valid()
      modifies this`wire, this`issued, this`window, this`kept
      ensures Valid()
      ensures var o := Spec.SendReliably(config, old(Model()), typ);
              Model() == o.side && wire == old(wire) + o.sent
    {
      hide OptionsLayer, HandshakeBody, Address, Holds;
      var id := Wrap(issued);
      issued := issued + 1;
      var packet := Build(typ, id);
      if !closed && id !in window {
        KeepAndSend(packet);
      } else {
        SendPacket(packet);
      }
    }

    method Initiate()
      requires Valid()
      modifies this
      ensures Valid()
      ensures var o := Spec.Initiate(config, old(Model()));
              Model() == o.side && wire == old(wire) + o.sent
    {
      SendReliably(H0);
      waitingFor := H1;
    }

    method ReadRemoteID(packet: Packet) returns (id: Id)
      requires packet.Valid()
      modifies packet`dataSize
      ensures packet.Valid() && (id, packet.Body()) == Layers.ReadRemoteID(old(packet.Body()))
    {
      var value := packet.PopData(2);
      id := if value.Some? then FromU16(value.value) else 0;
    }

    method OnHandshakeComplete(remote: Id)
      requires Valid()
      modifies this`waitingFor, this`remoteID, this`completions
      ensures Valid() && Model() == Complete(old(Model()), remote)
    {
      waitingFor := HANDSHAKE_COMPLETE;
      remoteID := remote;
      completions := completions + 1;
    }

    method HandlePacket(packet: Packet)
      requires Valid() && packet.Valid() && Apart(packet)
      modifies this, packet`dataSize
      ensures Valid()
      ensures var o := Spec.HandlePacket(config, old(Model()), packet.typ, packet.id, old(packet.Body()));
              Model() == o.side && wire == old(wire) + o.sent
    {
      hide Send, Layers.ReadRemoteID, Spec.SendReliably, Holds;
      var received := packet.typ;
      if received == H0 {
        SendNew(H1, packet.id);
        if waitingFor == H0 {
          waitingFor := H2;
        }
      } else if received == H1 {
        if waitingFor == H1 {
          waitingFor := H3;
          SendReliably(H2);
        }
      } else if received == H2 {
        var remote := ReadRemoteID(packet);
        SendNew(H3, packet.id);
        if waitingFor == H2 {
          OnHandshakeComplete(remote);
        }
      } else if received == H3 {
        var remote := ReadRemoteID(packet);
        if waitingFor == H3 {
          OnHandshakeComplete(remote);
        }
      }
    }
  }
}

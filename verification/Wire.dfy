/** The wire format (src/wire_frame.rs): what `encode` writes and what `decode` reads, on byte sequences. */
module Wire {
  import opened Types
  import opened Bytes
  import opened Coordinates
  import opened Announcements
  import opened Frames

  const MAGIC: seq<Byte> := [0x70, 0x69, 0x6e, 0x65]

  // ---- What is written ----

  function PutPorts(ports: Coords): (bs: seq<Byte>)
    ensures |bs| == 8 * |ports|
  {
    if ports == [] then [] else PutPorts(ports[..|ports| - 1]) + PutU64(ports[|ports| - 1])
  }

  /** A port list behind its length; the length is cut to 16 bits. */
  function PutCoords(c: Coords): (bs: seq<Byte>)
    ensures |bs| == 2 + 8 * |c|
  {
    PutU16(|c| % U16_BOUND) + PutPorts(c)
  }

  function PutLinks(sigs: seq<RootSignature>): (bs: seq<Byte>)
    ensures |bs| == 104 * |sigs|
  {
    if sigs == [] then [] else PutLinks(sigs[..|sigs| - 1]) + LinkBytes(sigs[|sigs| - 1])
  }

  function PutRoot(root: Root): (bs: seq<Byte>)
    ensures |bs| == 40
  {
    PutKey(root.publicKey) + PutU64(root.sequenceNumber)
  }

  function FrameType(f: Frame): Byte {
    match f
    case TreeAnnouncement(_) => 1
    case TreeRouted(_) => 2
    case SnekBootstrap(_) => 3
    case SnekBootstrapAck(_) => 4
    case SnekSetup(_) => 5
    case SnekSetupAck(_) => 6
    case SnekTeardown(_) => 7
    case SnekRouted(_) => 8
  }

  /** The length `encode` computes, before it is cut to 16 bits. For announcements it leaves the 64 bytes
      of each signature out. */
  function ComputedLength(f: Frame): nat {
    match f
    case TreeRouted(p) => 10 + 2 + |p.destination| * 8 + 2 + |p.source| * 8 + |p.payload|
    case SnekRouted(p) => 10 + 32 + 32 + |p.payload|
    case TreeAnnouncement(a) => 10 + 32 + 8 + 2 + |a.signatures| * (32 + 8)
    case SnekBootstrap(b) => 10 + 32 + 2 + |b.source| * 8 + 32 + 8 + 8
    case SnekBootstrapAck(a) => 10 + 2 + |a.destinationCoords| * 8 + 32 + 2 + |a.sourceCoords| * 8 + 32 + 32 + 8 + 8
    case SnekSetup(s) => 10 + 2 + |s.destination| * 8 + 32 + 32 + 32 + 8 + 8
    case SnekSetupAck(_) => 10 + 32 + 32 + 8 + 8
    case SnekTeardown(_) => 10 + 32 + 32 + 8 + 8
  }

  function Header(f: Frame): (bs: seq<Byte>)
    ensures |bs| == 10
  {
    MAGIC + [0, FrameType(f)] + PutU16(0) + PutU16(ComputedLength(f) % U16_BOUND)
  }

  function Body(f: Frame): seq<Byte> {
    match f
    case TreeRouted(p) => PutCoords(p.destination) + PutCoords(p.source) + p.payload
    case SnekRouted(p) => PutKey(p.destinationKey) + PutKey(p.sourceKey) + p.payload
    case TreeAnnouncement(a) => PutRoot(a.root) + PutU16(|a.signatures| % U16_BOUND) + PutLinks(a.signatures)
    case SnekBootstrap(b) => PutKey(b.destinationKey) + PutCoords(b.source) + PutRoot(b.root) + PutU64(b.pathId)
    case SnekBootstrapAck(a) =>
      PutCoords(a.destinationCoords) + PutKey(a.destinationKey) + PutCoords(a.sourceCoords) + PutKey(a.sourceKey)
      + PutRoot(a.root) + PutU64(a.pathId)
    case SnekSetup(s) =>
      PutCoords(s.destination) + PutKey(s.destinationKey) + PutKey(s.sourceKey) + PutRoot(s.root) + PutU64(s.pathId)
    case SnekSetupAck(a) => PutKey(a.destinationKey) + PutRoot(a.root) + PutU64(a.pathId)
    case SnekTeardown(t) => PutKey(t.destinationKey) + PutRoot(t.root) + PutU64(t.pathId)
  }

  function Encoding(f: Frame): (bs: seq<Byte>)
    ensures |bs| >= 10
  {
    Header(f) + Body(f)
  }

  // ---- What is read ----

  /** A read from the front of a buffer. Reading past its end, and 16-bit arithmetic below zero or above
      65535, panic as in a build with overflow checks. */
  datatype Read<+T> = Got(value: T, rest: seq<Byte>) | Panic {
    predicate IsFailure() { Panic? }
    function PropagateFailure<U>(): Read<U> { Panic }
    function Extract(): (T, seq<Byte>) requires Got? { (value, rest) }
  }

  function ReadNumber(n: nat, bs: seq<Byte>): (r: Read<nat>)
    ensures r.Got? <==> n <= |bs|
    ensures r.Got? ==> r.value < Pow256(n) && r.rest == bs[n..]
  {
    if |bs| < n then Panic else Got(Get(bs[..n]), bs[n..])
  }

  function ReadU16(bs: seq<Byte>): (r: Read<nat>)
    ensures r.Got? <==> 2 <= |bs|
    ensures r.Got? ==> r.value < U16_BOUND && r.rest == bs[2..]
  {
    WidthBounds();
    ReadNumber(2, bs)
  }

  function ReadU64(bs: seq<Byte>): (r: Read<U64>) {
    WidthBounds();
    var (v, rest) :- ReadNumber(8, bs);
    Got(v, rest)
  }

  function ReadKey(bs: seq<Byte>): Read<PublicKey> {
    WidthBounds();
    var (v, rest) :- ReadNumber(32, bs);
    Got(v, rest)
  }

  function ReadSignature(bs: seq<Byte>): Read<Signature> {
    WidthBounds();
    var (v, rest) :- ReadNumber(64, bs);
    Got(v, rest)
  }

  function ReadPorts(n: nat, bs: seq<Byte>): (r: Read<Coords>)
    ensures r.Got? ==> |r.value| == n
  {
    if n == 0 then Got([], bs)
    else
      var (init, rest) :- ReadPorts(n - 1, bs);
      var (last, rest) :- ReadU64(rest);
      Got(init + [last], rest)
  }

  function ReadLink(bs: seq<Byte>): Read<RootSignature> {
    var (key, rest) :- ReadKey(bs);
    var (port, rest) :- ReadU64(rest);
    var (signature, rest) :- ReadSignature(rest);
    Got(RootSignature(key, port, signature), rest)
  }

  function ReadLinks(n: nat, bs: seq<Byte>): (r: Read<seq<RootSignature>>)
    ensures r.Got? ==> |r.value| == n
  {
    if n == 0 then Got([], bs)
    else
      var (init, rest) :- ReadLinks(n - 1, bs);
      var (last, rest) :- ReadLink(rest);
      Got(init + [last], rest)
  }

  function ReadPayload(n: nat, bs: seq<Byte>): (r: Read<seq<Byte>>)
    ensures r.Got? ==> |r.value| == n
  {
    if |bs| < n then Panic else Got(bs[..n], bs[n..])
  }

  function ReadRoot(bs: seq<Byte>): Read<Root> {
    var (key, rest) :- ReadKey(bs);
    var (sequence, rest) :- ReadU64(rest);
    Got(Root(key, sequence), rest)
  }

  function ReadCoords(bs: seq<Byte>): Read<Coords> {
    var (n, rest) :- ReadU16(bs);
    ReadPorts(n, rest)
  }

  /** The payload length of a tree packet, in 16-bit arithmetic. */
  function TreePayloadLength(len: nat, destinations: nat, sources: nat): Option<nat> {
    if destinations * 8 < U16_BOUND && sources * 8 < U16_BOUND && 14 + destinations * 8 + sources * 8 <= len
    then Some(len - 10 - 4 - destinations * 8 - sources * 8) else None
  }

  /** The frame types in turn. A tree packet's source is read with the destination's count, as the program does. */
  function ReadTreePacket(len: nat, bs: seq<Byte>): Read<Frame> {
    var (n, rest) :- ReadU16(bs);
    var (destination, rest) :- ReadPorts(n, rest);
    var (m, rest) :- ReadU16(rest);
    var (source, rest) :- ReadPorts(n, rest);
    match TreePayloadLength(len, n, m)
    case None => Panic
    case Some(k) =>
      var (payload, rest) :- ReadPayload(k, rest);
      Got(TreeRouted(TreePacket(source, destination, payload)), rest)
  }

  function ReadSnekPacket(len: nat, bs: seq<Byte>): Read<Frame> {
    var (destination, rest) :- ReadKey(bs);
    var (source, rest) :- ReadKey(rest);
    if len < 10 + 64 then Panic
    else
      var (payload, rest) :- ReadPayload(len - 10 - 64, rest);
      Got(SnekRouted(SnekPacket(destination, source, payload)), rest)
  }

  function ReadAnnouncement(now: Time, bs: seq<Byte>): Read<Frame> {
    var (root, rest) :- ReadRoot(bs);
    var (n, rest) :- ReadU16(rest);
    var (sigs, rest) :- ReadLinks(n, rest);
    Got(TreeAnnouncement(Announcement(root, sigs, now, 0)), rest)
  }

  function ReadBootstrap(bs: seq<Byte>): Read<Frame> {
    var (destination, rest) :- ReadKey(bs);
    var (source, rest) :- ReadCoords(rest);
    var (root, rest) :- ReadRoot(rest);
    var (id, rest) :- ReadU64(rest);
    Got(SnekBootstrap(Bootstrap(root, destination, source, id)), rest)
  }

  function ReadBootstrapAck(bs: seq<Byte>): Read<Frame> {
    var (destinationCoords, rest) :- ReadCoords(bs);
    var (destination, rest) :- ReadKey(rest);
    var (sourceCoords, rest) :- ReadCoords(rest);
    var (source, rest) :- ReadKey(rest);
    var (root, rest) :- ReadRoot(rest);
    var (id, rest) :- ReadU64(rest);
    Got(SnekBootstrapAck(BootstrapAck(destinationCoords, destination, sourceCoords, source, root, id)), rest)
  }

  function ReadSetup(bs: seq<Byte>): Read<Frame> {
    var (destination, rest) :- ReadCoords(bs);
    var (destinationKey, rest) :- ReadKey(rest);
    var (sourceKey, rest) :- ReadKey(rest);
    var (root, rest) :- ReadRoot(rest);
    var (id, rest) :- ReadU64(rest);
    Got(SnekSetup(Setup(root, destination, destinationKey, sourceKey, id)), rest)
  }

  function ReadSetupAck(bs: seq<Byte>): Read<Frame> {
    var (destination, rest) :- ReadKey(bs);
    var (root, rest) :- ReadRoot(rest);
    var (id, rest) :- ReadU64(rest);
    Got(SnekSetupAck(SetupAck(root, destination, id)), rest)
  }

  function ReadTeardown(bs: seq<Byte>): Read<Frame> {
    var (destination, rest) :- ReadKey(bs);
    var (root, rest) :- ReadRoot(rest);
    var (id, rest) :- ReadU64(rest);
    Got(SnekTeardown(Teardown(root, destination, id)), rest)
  }

  datatype Error = NoMagic | WrongVersion | TooShort | UnknownType
  datatype Decoded = Complete(frame: Frame) | Incomplete | Failed(error: Error)

  function ReadBody(kind: nat, len: nat, now: Time, bs: seq<Byte>): Read<Decoded> {
    if kind == 0 || kind > 8 then Got(Failed(UnknownType), bs)
    else
      var (frame, rest) :-
        match kind
        case 1 => ReadAnnouncement(now, bs)
        case 2 => ReadTreePacket(len, bs)
        case 3 => ReadBootstrap(bs)
        case 4 => ReadBootstrapAck(bs)
        case 5 => ReadSetup(bs)
        case 6 => ReadSetupAck(bs)
        case 7 => ReadTeardown(bs)
        case _ => ReadSnekPacket(len, bs);
      Got(Complete(frame), rest)
  }

  /** All of `decode`: the outcome and what it leaves in the buffer. The header is consumed before the
      length is looked at. */
  function Decoding(now: Time, bs: seq<Byte>): Read<Decoded> {
    if |bs| < 4 then Got(Incomplete, bs)
    else if bs[..4] != MAGIC then Got(Failed(NoMagic), bs)
    else if |bs| < 10 then Got(Incomplete, bs)
    else if bs[4] != 0 then Got(Failed(WrongVersion), bs[5..])
    else
      var (len, body) :- ReadU16(bs[8..]);
      if len < 10 then Panic
      else if |body| < len - 10 then Got(Failed(TooShort), body)
      else ReadBody(bs[5], len, now, body)
  }
}

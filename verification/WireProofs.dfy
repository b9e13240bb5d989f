/** Decoding undoes encoding, exactly for the frames whose counts and length fit their fields. */
module WireProofs {
  import opened Types
  import opened Bytes
  import opened Coordinates
  import opened Announcements
  import opened Frames
  import opened Wire

  // ---- Fields ----

  lemma ReadBack(n: nat, v: nat, rest: seq<Byte>)
    requires v < Pow256(n)
    ensures ReadNumber(n, Put(n, v) + rest) == Got(v, rest)
  {
  }

  lemma ReadBackU16(v: nat, rest: seq<Byte>)
    requires v < U16_BOUND
    ensures ReadU16(PutU16(v) + rest) == Got(v, rest)
  {
    WidthBounds();
    ReadBack(2, v, rest);
  }

  lemma ReadBackU64(v: U64, rest: seq<Byte>)
    ensures ReadU64(PutU64(v) + rest) == Got(v, rest)
  {
    WidthBounds();
    ReadBack(8, v, rest);
  }

  lemma ReadBackKey(k: PublicKey, rest: seq<Byte>)
    ensures ReadKey(PutKey(k) + rest) == Got(k, rest)
  {
    WidthBounds();
    ReadBack(32, k, rest);
  }

  lemma ReadBackRoot(root: Root, rest: seq<Byte>)
    ensures ReadRoot(PutRoot(root) + rest) == Got(root, rest)
  {
    assert PutRoot(root) + rest == PutKey(root.publicKey) + (PutU64(root.sequenceNumber) + rest);
    ReadBackKey(root.publicKey, PutU64(root.sequenceNumber) + rest);
    ReadBackU64(root.sequenceNumber, rest);
  }

  lemma ReadBackLink(sig: RootSignature, rest: seq<Byte>)
    ensures ReadLink(LinkBytes(sig) + rest) == Got(sig, rest)
  {
    var key, port, signature := PutKey(sig.signingPublicKey), PutU64(sig.destinationPort), PutSignature(sig.signature);
    assert LinkBytes(sig) + rest == key + (port + (signature + rest));
    ReadBackKey(sig.signingPublicKey, port + (signature + rest));
    ReadBackU64(sig.destinationPort, signature + rest);
    WidthBounds();
    ReadBack(64, sig.signature, rest);
  }

  lemma {:induction false} ReadBackPorts(ports: Coords, rest: seq<Byte>)
    ensures ReadPorts(|ports|, PutPorts(ports) + rest) == Got(ports, rest)
  {
    hide Put, Get, Pow256, PutU64, ReadU64;
    if ports == [] {
      assert PutPorts(ports) + rest == rest;
    } else {
      var n := |ports| - 1;
      assert ports == ports[..n] + [ports[n]];
      assert PutPorts(ports) + rest == PutPorts(ports[..n]) + (PutU64(ports[n]) + rest);
      ReadBackPorts(ports[..n], PutU64(ports[n]) + rest);
      ReadBackU64(ports[n], rest);
    }
  }

  lemma {:induction false} ReadBackLinks(sigs: seq<RootSignature>, rest: seq<Byte>)
    ensures ReadLinks(|sigs|, PutLinks(sigs) + rest) == Got(sigs, rest)
  {
    hide LinkBytes, ReadLink;
    if sigs == [] {
      assert PutLinks(sigs) + rest == rest;
    } else {
      var n := |sigs| - 1;
      assert sigs == sigs[..n] + [sigs[n]];
      assert PutLinks(sigs) + rest == PutLinks(sigs[..n]) + (LinkBytes(sigs[n]) + rest);
      ReadBackLinks(sigs[..n], LinkBytes(sigs[n]) + rest);
      ReadBackLink(sigs[n], rest);
    }
  }

  /** A port list comes back whole when its count fits; otherwise what comes back, if anything, has another length. */
  lemma ReadBackCoords(c: Coords, rest: seq<Byte>)
    ensures |c| < U16_BOUND ==> ReadCoords(PutCoords(c) + rest) == Got(c, rest)
    ensures |c| >= U16_BOUND && ReadCoords(PutCoords(c) + rest).Got? ==> |ReadCoords(PutCoords(c) + rest).value| != |c|
  {
    hide Put, Get, Pow256, PutU16, ReadU16, PutU64, ReadU64;
    var n := |c| % U16_BOUND;
    assert PutCoords(c) + rest == PutU16(n) + (PutPorts(c) + rest);
    ReadBackU16(n, PutPorts(c) + rest);
    ReadBackPorts(c, rest);
  }

  // ---- Frames ----

  /** What a decoded frame looks like: an announcement's receive fields are set on arrival. */
  function Received(f: Frame, now: Time): Frame {
    match f
    case TreeAnnouncement(a) => TreeAnnouncement(a.(receiveTime := now, receiveOrder := 0))
    case _ => f
  }

  /** The 16-bit fields hold what the frame needs. A payload's length is recovered from the frame length, so
      that must fit; elsewhere the frame length only has to stay at least the header's after it is cut. */
  predicate Encodable(f: Frame) {
    match f
    case TreeRouted(p) => |p.destination| == |p.source| && ComputedLength(f) < U16_BOUND
    case SnekRouted(_) => ComputedLength(f) < U16_BOUND
    case TreeAnnouncement(a) => |a.signatures| < U16_BOUND && ComputedLength(f) % U16_BOUND >= 10
    case SnekBootstrap(b) => |b.source| < U16_BOUND && ComputedLength(f) % U16_BOUND >= 10
    case SnekBootstrapAck(a) =>
      |a.destinationCoords| < U16_BOUND && |a.sourceCoords| < U16_BOUND && ComputedLength(f) % U16_BOUND >= 10
    case SnekSetup(s) => |s.destination| < U16_BOUND && ComputedLength(f) % U16_BOUND >= 10
    case SnekSetupAck(_) => true
    case SnekTeardown(_) => true
  }

  function Len(f: Frame): nat { ComputedLength(f) % U16_BOUND }

  /** Reading the body of f back, given the cut length. */
  function BodyRead(f: Frame, now: Time, rest: seq<Byte>): Read<Frame> {
    match f
    case TreeRouted(_) => ReadTreePacket(Len(f), Body(f) + rest)
    case SnekRouted(_) => ReadSnekPacket(Len(f), Body(f) + rest)
    case TreeAnnouncement(_) => ReadAnnouncement(now, Body(f) + rest)
    case SnekBootstrap(_) => ReadBootstrap(Body(f) + rest)
    case SnekBootstrapAck(_) => ReadBootstrapAck(Body(f) + rest)
    case SnekSetup(_) => ReadSetup(Body(f) + rest)
    case SnekSetupAck(_) => ReadSetupAck(Body(f) + rest)
    case SnekTeardown(_) => ReadTeardown(Body(f) + rest)
  }

  lemma TreePacketBack(p: TreePacket, now: Time, rest: seq<Byte>)
    ensures var f := TreeRouted(p);
            Len(f) >= 10 ==> (BodyRead(f, now, rest) == Got(f, rest) <==> Encodable(f))
  {
    hide Put, Get, Pow256, PutKey, PutU64, PutU16, PutRoot, ReadKey, ReadU64, ReadU16, ReadRoot, PutPorts, ReadPorts,
      PutLinks, ReadLinks;
    var f := TreeRouted(p);
    var n, m := |p.destination| % U16_BOUND, |p.source| % U16_BOUND;
    var tail := PutU16(m) + (PutPorts(p.source) + (p.payload + rest));
    assert Body(f) + rest == PutU16(n) + (PutPorts(p.destination) + tail);
    ReadBackU16(n, PutPorts(p.destination) + tail);
    if |p.destination| == |p.source| && n == |p.destination| {
      ReadBackPorts(p.destination, tail);
      ReadBackU16(m, PutPorts(p.source) + (p.payload + rest));
      ReadBackPorts(p.source, p.payload + rest);
      assert (p.payload + rest)[..|p.payload|] == p.payload;
      assert (p.payload + rest)[|p.payload|..] == rest;
    }
  }

  lemma SnekPacketBack(p: SnekPacket, now: Time, rest: seq<Byte>)
    ensures var f := SnekRouted(p);
            Len(f) >= 10 ==> (BodyRead(f, now, rest) == Got(f, rest) <==> Encodable(f))
  {
    hide Put, Get, Pow256, PutKey, PutU64, PutU16, PutRoot, ReadKey, ReadU64, ReadU16, ReadRoot, PutPorts, ReadPorts,
      PutLinks, ReadLinks;
    var f := SnekRouted(p);
    assert Body(f) + rest == PutKey(p.destinationKey) + (PutKey(p.sourceKey) + (p.payload + rest));
    ReadBackKey(p.destinationKey, PutKey(p.sourceKey) + (p.payload + rest));
    ReadBackKey(p.sourceKey, p.payload + rest);
    assert (p.payload + rest)[..|p.payload|] == p.payload;
    assert (p.payload + rest)[|p.payload|..] == rest;
  }

  lemma AnnouncementBack(a: Announcement, now: Time, rest: seq<Byte>)
    ensures var f := TreeAnnouncement(a);
            Len(f) >= 10 ==> (BodyRead(f, now, rest) == Got(Received(f, now), rest) <==> Encodable(f))
  {
    hide Put, Get, Pow256, PutKey, PutU64, PutU16, PutRoot, ReadKey, ReadU64, ReadU16, ReadRoot, PutPorts, ReadPorts,
      PutLinks, ReadLinks;
    var f := TreeAnnouncement(a);
    var n := |a.signatures| % U16_BOUND;
    var tail := PutLinks(a.signatures) + rest;
    assert Body(f) + rest == PutRoot(a.root) + (PutU16(n) + tail);
    ReadBackRoot(a.root, PutU16(n) + tail);
    ReadBackU16(n, tail);
    ReadBackLinks(a.signatures, rest);
  }

  /** The root and the path id that close four of the frame types. */
  lemma ReadBackRootAndId(root: Root, id: PathId, rest: seq<Byte>)
    ensures ReadRoot(PutRoot(root) + (PutU64(id) + rest)) == Got(root, PutU64(id) + rest)
    ensures ReadU64(PutU64(id) + rest) == Got(id, rest)
  {
    ReadBackRoot(root, PutU64(id) + rest);
    ReadBackU64(id, rest);
  }

  lemma BootstrapBack(b: Bootstrap, now: Time, rest: seq<Byte>)
    ensures var f := SnekBootstrap(b);
            Len(f) >= 10 ==> (BodyRead(f, now, rest) == Got(f, rest) <==> Encodable(f))
  {
    hide Put, Get, Pow256, PutKey, PutU64, PutRoot, ReadKey, ReadU64, ReadRoot, PutCoords, ReadCoords;
    var f := SnekBootstrap(b);
    var tail := PutRoot(b.root) + (PutU64(b.pathId) + rest);
    assert Body(f) + rest == PutKey(b.destinationKey) + (PutCoords(b.source) + tail);
    ReadBackKey(b.destinationKey, PutCoords(b.source) + tail);
    ReadBackCoords(b.source, tail);
    ReadBackRootAndId(b.root, b.pathId, rest);
  }

  lemma BootstrapAckBack(a: BootstrapAck, now: Time, rest: seq<Byte>)
    ensures var f := SnekBootstrapAck(a);
            Len(f) >= 10 ==> (BodyRead(f, now, rest) == Got(f, rest) <==> Encodable(f))
  {
    hide Put, Get, Pow256, PutKey, PutU64, PutRoot, ReadKey, ReadU64, ReadRoot, PutCoords, ReadCoords;
    var f := SnekBootstrapAck(a);
    var end := PutRoot(a.root) + (PutU64(a.pathId) + rest);
    var middle := PutCoords(a.sourceCoords) + (PutKey(a.sourceKey) + end);
    assert Body(f) + rest == PutCoords(a.destinationCoords) + (PutKey(a.destinationKey) + middle);
    ReadBackCoords(a.destinationCoords, PutKey(a.destinationKey) + middle);
    ReadBackKey(a.destinationKey, middle);
    ReadBackCoords(a.sourceCoords, PutKey(a.sourceKey) + end);
    ReadBackKey(a.sourceKey, end);
    ReadBackRootAndId(a.root, a.pathId, rest);
  }

  lemma SetupBack(s: Setup, now: Time, rest: seq<Byte>)
    ensures var f := SnekSetup(s);
            Len(f) >= 10 ==> (BodyRead(f, now, rest) == Got(f, rest) <==> Encodable(f))
  {
    hide Put, Get, Pow256, PutKey, PutU64, PutRoot, ReadKey, ReadU64, ReadRoot, PutCoords, ReadCoords;
    var f := SnekSetup(s);
    var end := PutRoot(s.root) + (PutU64(s.pathId) + rest);
    assert Body(f) + rest == PutCoords(s.destination) + (PutKey(s.destinationKey) + (PutKey(s.sourceKey) + end));
    ReadBackCoords(s.destination, PutKey(s.destinationKey) + (PutKey(s.sourceKey) + end));
    ReadBackKey(s.destinationKey, PutKey(s.sourceKey) + end);
    ReadBackKey(s.sourceKey, end);
    ReadBackRootAndId(s.root, s.pathId, rest);
  }

  lemma SetupAckBack(a: SetupAck, now: Time, rest: seq<Byte>)
    ensures BodyRead(SnekSetupAck(a), now, rest) == Got(SnekSetupAck(a), rest)
  {
    hide Put, Get, Pow256, PutKey, PutU64, PutU16, PutRoot, ReadKey, ReadU64, ReadU16, ReadRoot, PutPorts, ReadPorts,
      PutLinks, ReadLinks;
    var end := PutRoot(a.root) + (PutU64(a.pathId) + rest);
    assert Body(SnekSetupAck(a)) + rest == PutKey(a.destinationKey) + end;
    ReadBackKey(a.destinationKey, end);
    ReadBackRootAndId(a.root, a.pathId, rest);
  }

  lemma TeardownBack(t: Teardown, now: Time, rest: seq<Byte>)
    ensures BodyRead(SnekTeardown(t), now, rest) == Got(SnekTeardown(t), rest)
  {
    hide Put, Get, Pow256, PutKey, PutU64, PutU16, PutRoot, ReadKey, ReadU64, ReadU16, ReadRoot, PutPorts, ReadPorts,
      PutLinks, ReadLinks;
    var end := PutRoot(t.root) + (PutU64(t.pathId) + rest);
    assert Body(SnekTeardown(t)) + rest == PutKey(t.destinationKey) + end;
    ReadBackKey(t.destinationKey, end);
    ReadBackRootAndId(t.root, t.pathId, rest);
  }

  lemma BodyBack(f: Frame, now: Time, rest: seq<Byte>)
    ensures Len(f) >= 10 ==> (BodyRead(f, now, rest) == Got(Received(f, now), rest) <==> Encodable(f))
  {
    match f
    case TreeRouted(p) => TreePacketBack(p, now, rest);
    case SnekRouted(p) => SnekPacketBack(p, now, rest);
    case TreeAnnouncement(a) => AnnouncementBack(a, now, rest);
    case SnekBootstrap(b) => BootstrapBack(b, now, rest);
    case SnekBootstrapAck(a) => BootstrapAckBack(a, now, rest);
    case SnekSetup(s) => SetupBack(s, now, rest);
    case SnekSetupAck(a) => SetupAckBack(a, now, rest);
    case SnekTeardown(t) => TeardownBack(t, now, rest);
  }

  /** The cut length never exceeds what is really in the buffer, and is at least a header for what round-trips. */
  lemma LengthFits(f: Frame)
    ensures Len(f) <= ComputedLength(f) <= 10 + |Body(f)|
    ensures Encodable(f) ==> Len(f) >= 10
  {
  }

  /** The header comes off an encoded frame. */
  lemma HeaderBack(f: Frame, now: Time, rest: seq<Byte>)
    ensures Decoding(now, Encoding(f) + rest)
         == if Len(f) < 10 then Panic else ReadBody(FrameType(f), Len(f), now, Body(f) + rest)
  {
    hide Body, ReadBody, Put, Get, Pow256, PutU16, ReadU16;
    var bs, body := Encoding(f) + rest, Body(f) + rest;
    assert bs == MAGIC + [0, FrameType(f)] + PutU16(0) + (PutU16(Len(f)) + body);
    assert bs[..4] == MAGIC;
    assert bs[8..] == PutU16(Len(f)) + body;
    ReadBackU16(Len(f), body);
    LengthFits(f);
  }

  /** The round trip, on every frame and whatever follows it in the buffer: decoding gives the frame back and
      leaves what followed, if and only if the frame's counts and length fit their 16-bit fields and, for a tree
      packet, both coordinate lists are equally long. */
  lemma RoundTripExactly(f: Frame, now: Time, rest: seq<Byte>)
    ensures Decoding(now, Encoding(f) + rest) == Got(Complete(Received(f, now)), rest) <==> Encodable(f)
  {
    hide Encodable, Body, Encoding, Decoding, ReadAnnouncement, ReadTreePacket, ReadBootstrap, ReadBootstrapAck,
      ReadSetup, ReadSetupAck, ReadTeardown, ReadSnekPacket;
    HeaderBack(f, now, rest);
    BodyBack(f, now, rest);
    LengthFits(f);
    if Len(f) >= 10 {
      var read := ReadBody(FrameType(f), Len(f), now, Body(f) + rest);
      assert read == match BodyRead(f, now, rest) { case Panic => Panic
        case Got(frame, left) => Got(Complete(frame), left) };
    }
  }

  /** No tree packet between nodes at different depths arrives as it was sent. */
  lemma UnequalCoordinatesFail(packet: TreePacket, now: Time, rest: seq<Byte>)
    requires |packet.source| != |packet.destination|
    ensures Decoding(now, Encoding(TreeRouted(packet)) + rest) != Got(Complete(TreeRouted(packet)), rest)
  {
    hide Decoding, Encoding;
    RoundTripExactly(TreeRouted(packet), now, rest);
  }

  // ---- Streams ----

  function Stream(fs: seq<Frame>): seq<Byte> {
    if fs == [] then [] else Encoding(fs[0]) + Stream(fs[1..])
  }

  /** Decoding a full buffer until it is empty, as the framed reader does. */
  function DecodeAll(now: Time, bs: seq<Byte>): Option<seq<Frame>>
    decreases |bs|
  {
    if bs == [] then Some([])
    else
      match Decoding(now, bs)
      case Got(Complete(f), rest) =>
        if |rest| >= |bs| then None
        else (match DecodeAll(now, rest) case Some(fs) => Some([f] + fs) case None => None)
      case _ => None
  }

  function ReceivedAll(fs: seq<Frame>, now: Time): (r: seq<Frame>)
    ensures |r| == |fs|
  {
    if fs == [] then [] else [Received(fs[0], now)] + ReceivedAll(fs[1..], now)
  }

  /** Frames written back to back are read back in order, none lost, split or merged. */
  lemma {:induction false} StreamRoundTrip(fs: seq<Frame>, now: Time)
    requires forall f :: f in fs ==> Encodable(f)
    ensures DecodeAll(now, Stream(fs)) == Some(ReceivedAll(fs, now))
  {
    hide Decoding, Encoding, Encodable;
    if fs != [] {
      RoundTripExactly(fs[0], now, Stream(fs[1..]));
      assert fs[0] in fs && forall f :: f in fs[1..] ==> f in fs;
      StreamRoundTrip(fs[1..], now);
    }
  }
}

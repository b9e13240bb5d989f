/** Where every field of a frame stands in its encoding (src/wire_frame.rs:32-162), by byte offset. */
module WireLayout {
  import opened Types
  import opened Bytes
  import opened Coordinates
  import opened Announcements
  import opened Frames
  import opened Wire

  /** The field's bytes stand in bs from at on. */
  predicate StandsAt(bs: seq<Byte>, at: nat, field: seq<Byte>) {
    at + |field| <= |bs| && bs[at..at + |field|] == field
  }

  lemma StandsInTurn(bs: seq<Byte>, at: nat, first: seq<Byte>, second: seq<Byte>)
    requires StandsAt(bs, at, first + second)
    ensures StandsAt(bs, at, first) && StandsAt(bs, at + |first|, second)
  {
    var both := bs[at..at + |first + second|];
    assert both[..|first|] == first && both[|first|..] == second;
  }

  lemma {:induction false} PortStandsAt(ports: Coords, i: nat)
    requires i < |ports|
    ensures StandsAt(PutPorts(ports), 8 * i, PutU64(ports[i]))
  {
    hide PutU64;
    var init := ports[..|ports| - 1];
    assert PutPorts(ports) == PutPorts(init) + PutU64(ports[|ports| - 1]);
    if i < |init| {
      PortStandsAt(init, i);
      assert PutPorts(ports)[8 * i..8 * i + 8] == PutPorts(init)[8 * i..8 * i + 8];
    }
  }

  /** A link takes 104 bytes: the signer's key, the port it hands out, its signature. */
  lemma {:induction false} SignatureStandsAt(sigs: seq<RootSignature>, i: nat)
    requires i < |sigs|
    ensures var bs, at := PutLinks(sigs), 104 * i;
            && StandsAt(bs, at, PutKey(sigs[i].signingPublicKey))
            && StandsAt(bs, at + 32, PutU64(sigs[i].destinationPort))
            && StandsAt(bs, at + 40, PutSignature(sigs[i].signature))
  {
    hide PutU64, PutKey, PutSignature;
    var init, last := sigs[..|sigs| - 1], sigs[|sigs| - 1];
    var bs, before := PutLinks(sigs), PutLinks(init);
    assert bs == before + LinkBytes(last);
    if i < |init| {
      SignatureStandsAt(init, i);
      assert forall j, k :: 0 <= j <= k <= |before| ==> bs[j..k] == before[j..k];
    } else {
      assert StandsAt(bs, 104 * i, LinkBytes(last));
      StandsInTurn(bs, 104 * i, PutKey(last.signingPublicKey) + PutU64(last.destinationPort),
        PutSignature(last.signature));
      StandsInTurn(bs, 104 * i, PutKey(last.signingPublicKey), PutU64(last.destinationPort));
    }
  }

  /** What the length field leaves out: the 64 bytes of each signature an announcement carries. */
  function LeftOut(f: Frame): nat {
    if f.TreeAnnouncement? then 64 * |f.announcement.signatures| else 0
  }

  /** The length computed before anything is written is that of everything written, less what is left out. */
  lemma ComputedLengthIsWritten(f: Frame)
    ensures |Encoding(f)| == ComputedLength(f) + LeftOut(f)
  {
    hide Header, PutKey, PutU64, PutCoords, PutRoot, PutPorts, PutLinks;
  }

  /** The header: the magic bytes, version 0, the frame type, two zero bytes, and the length in 16 bits. */
  lemma HeaderStandsInFront(f: Frame)
    ensures var bs := Encoding(f);
            && bs[..5] == [0x70, 0x69, 0x6e, 0x65, 0] && bs[6..8] == [0, 0]
            && bs[5] == (match f
                         case TreeAnnouncement(_) => 1
                         case TreeRouted(_) => 2
                         case SnekBootstrap(_) => 3
                         case SnekBootstrapAck(_) => 4
                         case SnekSetup(_) => 5
                         case SnekSetupAck(_) => 6
                         case SnekTeardown(_) => 7
                         case SnekRouted(_) => 8)
            && LeftOut(f) <= |bs| && bs[8] as nat * 256 + bs[9] == (|bs| - LeftOut(f)) % 0x1_0000
  {
    hide Body, ComputedLength, LeftOut, Put, Pow256;
    ComputedLengthIsWritten(f);
    WidthBounds();
    TwoBytes(0);
    TwoBytes(ComputedLength(f) % U16_BOUND);
  }

  lemma TwoBytes(v: nat)
    requires v < Pow256(2) && v < U16_BOUND
    ensures Put(2, v) == [v / 256, v % 256]
  {
    assert Put(1, v / 256) == Put(0, v / 256 / 256) + [v / 256 % 256] == [v / 256];
  }

  /** Every field at its place behind the ten bytes of the header, coordinates behind a 16-bit count. */
  predicate IsLaidOut(f: Frame, bs: seq<Byte>) {
    match f
    case TreeRouted(p) =>
      var n, m := 8 * |p.destination|, 8 * |p.source|;
      && |bs| == 14 + n + m + |p.payload|
      && StandsAt(bs, 10, PutU16(|p.destination| % 0x1_0000)) && StandsAt(bs, 12, PutPorts(p.destination))
      && StandsAt(bs, 12 + n, PutU16(|p.source| % 0x1_0000)) && StandsAt(bs, 14 + n, PutPorts(p.source))
      && StandsAt(bs, 14 + n + m, p.payload)
    case SnekRouted(p) =>
      && |bs| == 74 + |p.payload|
      && StandsAt(bs, 10, PutKey(p.destinationKey)) && StandsAt(bs, 42, PutKey(p.sourceKey))
        && StandsAt(bs, 74, p.payload)
    case TreeAnnouncement(a) =>
      && |bs| == 52 + 104 * |a.signatures|
      && StandsAt(bs, 10, PutKey(a.root.publicKey)) && StandsAt(bs, 42, PutU64(a.root.sequenceNumber))
      && StandsAt(bs, 50, PutU16(|a.signatures| % 0x1_0000)) && StandsAt(bs, 52, PutLinks(a.signatures))
    case SnekBootstrap(b) =>
      var n := 8 * |b.source|;
      && |bs| == 92 + n
      && StandsAt(bs, 10, PutKey(b.destinationKey)) && StandsAt(bs, 42, PutU16(|b.source| % 0x1_0000))
      && StandsAt(bs, 44, PutPorts(b.source)) && EndsWith(bs, b.root, b.pathId)
    case SnekBootstrapAck(a) =>
      var n, m := 8 * |a.destinationCoords|, 8 * |a.sourceCoords|;
      && |bs| == 126 + n + m
      && StandsAt(bs, 10, PutU16(|a.destinationCoords| % 0x1_0000)) && StandsAt(bs, 12, PutPorts(a.destinationCoords))
      && StandsAt(bs, 12 + n, PutKey(a.destinationKey)) && StandsAt(bs, 44 + n, PutU16(|a.sourceCoords| % 0x1_0000))
      && StandsAt(bs, 46 + n, PutPorts(a.sourceCoords)) && StandsAt(bs, 46 + n + m, PutKey(a.sourceKey))
      && EndsWith(bs, a.root, a.pathId)
    case SnekSetup(s) =>
      var n := 8 * |s.destination|;
      && |bs| == 124 + n
      && StandsAt(bs, 10, PutU16(|s.destination| % 0x1_0000)) && StandsAt(bs, 12, PutPorts(s.destination))
      && StandsAt(bs, 12 + n, PutKey(s.destinationKey)) && StandsAt(bs, 44 + n, PutKey(s.sourceKey))
      && EndsWith(bs, s.root, s.pathId)
    case SnekSetupAck(a) => |bs| == 90 && StandsAt(bs, 10, PutKey(a.destinationKey)) && EndsWith(bs, a.root, a.pathId)
    case SnekTeardown(t) => |bs| == 90 && StandsAt(bs, 10, PutKey(t.destinationKey)) && EndsWith(bs, t.root, t.pathId)
  }

  /** The last 48 bytes: the root's key and sequence number, and the path id. */
  predicate EndsWith(bs: seq<Byte>, root: Root, id: PathId) {
    && |bs| >= 48
    && StandsAt(bs, |bs| - 48, PutKey(root.publicKey)) && StandsAt(bs, |bs| - 16, PutU64(root.sequenceNumber))
    && StandsAt(bs, |bs| - 8, PutU64(id))
  }

  lemma RootAndIdStandLast(bs: seq<Byte>, at: nat, front: seq<Byte>, root: Root, id: PathId)
    requires StandsAt(bs, at, front + PutRoot(root) + PutU64(id)) && |bs| == at + |front| + 48
    ensures StandsAt(bs, at, front) && EndsWith(bs, root, id)
  {
    hide PutKey, PutU64, StandsAt;
    StandsInTurn(bs, at, front + PutRoot(root), PutU64(id));
    StandsInTurn(bs, at, front, PutRoot(root));
    RootStandsAt(bs, at + |front|, root);
  }

  lemma RootStandsAt(bs: seq<Byte>, at: nat, root: Root)
    requires StandsAt(bs, at, PutRoot(root))
    ensures StandsAt(bs, at, PutKey(root.publicKey)) && StandsAt(bs, at + 32, PutU64(root.sequenceNumber))
  {
    hide PutKey, PutU64, StandsAt;
    StandsInTurn(bs, at, PutKey(root.publicKey), PutU64(root.sequenceNumber));
  }

  lemma CoordsStandAt(bs: seq<Byte>, at: nat, c: Coords, count: nat)
    requires StandsAt(bs, at, PutCoords(c)) && count < U16_BOUND && PutCoords(c) == PutU16(count) + PutPorts(c)
    ensures StandsAt(bs, at, PutU16(count)) && StandsAt(bs, at + 2, PutPorts(c))
  {
    hide StandsAt, PutCoords;
    StandsInTurn(bs, at, PutU16(count), PutPorts(c));
  }

  lemma BodyStandsBehind(f: Frame)
    ensures StandsAt(Encoding(f), 10, Body(f)) && |Encoding(f)| == 10 + |Body(f)|
  {
    hide Header, Body;
  }

  lemma TreePacketLaidOut(p: TreePacket)
    ensures IsLaidOut(TreeRouted(p), Encoding(TreeRouted(p)))
  {
    hide Put, Get, Pow256, PutKey, PutU64, PutRoot, PutLinks, PutPorts, PutU16, Header, EndsWith;
    var bs := Encoding(TreeRouted(p));
    BodyStandsBehind(TreeRouted(p));
    hide StandsAt, Encoding, ComputedLength;
    StandsInTurn(bs, 10, PutCoords(p.destination) + PutCoords(p.source), p.payload);
    StandsInTurn(bs, 10, PutCoords(p.destination), PutCoords(p.source));
    CoordsStandAt(bs, 10, p.destination, |p.destination| % U16_BOUND);
    CoordsStandAt(bs, 12 + 8 * |p.destination|, p.source, |p.source| % U16_BOUND);
  }

  lemma SnekPacketLaidOut(p: SnekPacket)
    ensures IsLaidOut(SnekRouted(p), Encoding(SnekRouted(p)))
  {
    hide Put, Get, Pow256, PutKey, PutU64, PutRoot, PutLinks, PutPorts, PutU16, Header, EndsWith;
    var bs := Encoding(SnekRouted(p));
    BodyStandsBehind(SnekRouted(p));
    hide StandsAt, Encoding, ComputedLength;
    StandsInTurn(bs, 10, PutKey(p.destinationKey) + PutKey(p.sourceKey), p.payload);
    StandsInTurn(bs, 10, PutKey(p.destinationKey), PutKey(p.sourceKey));
  }

  lemma AnnouncementLaidOut(a: Announcement)
    ensures IsLaidOut(TreeAnnouncement(a), Encoding(TreeAnnouncement(a)))
  {
    hide Put, Get, Pow256, PutKey, PutU64, PutRoot, PutLinks, PutPorts, PutU16, Header, EndsWith;
    var bs := Encoding(TreeAnnouncement(a));
    BodyStandsBehind(TreeAnnouncement(a));
    hide StandsAt, Encoding, ComputedLength;
    var count := PutU16(|a.signatures| % U16_BOUND);
    StandsInTurn(bs, 10, PutRoot(a.root) + count, PutLinks(a.signatures));
    StandsInTurn(bs, 10, PutRoot(a.root), count);
    RootStandsAt(bs, 10, a.root);
  }

  lemma BootstrapLaidOut(b: Bootstrap)
    ensures IsLaidOut(SnekBootstrap(b), Encoding(SnekBootstrap(b)))
  {
    hide Put, Get, Pow256, PutKey, PutU64, PutRoot, PutLinks, PutPorts, PutU16, Header, EndsWith;
    var bs := Encoding(SnekBootstrap(b));
    BodyStandsBehind(SnekBootstrap(b));
    hide StandsAt, Encoding, ComputedLength;
    RootAndIdStandLast(bs, 10, PutKey(b.destinationKey) + PutCoords(b.source), b.root, b.pathId);
    StandsInTurn(bs, 10, PutKey(b.destinationKey), PutCoords(b.source));
    CoordsStandAt(bs, 42, b.source, |b.source| % U16_BOUND);
  }

  lemma BootstrapAckLaidOut(a: BootstrapAck)
    ensures IsLaidOut(SnekBootstrapAck(a), Encoding(SnekBootstrapAck(a)))
  {
    hide Put, Get, Pow256, PutKey, PutU64, PutRoot, PutLinks, PutPorts, PutU16, Header, EndsWith;
    var bs := Encoding(SnekBootstrapAck(a));
    BodyStandsBehind(SnekBootstrapAck(a));
    hide StandsAt, Encoding, ComputedLength;
    var n := 8 * |a.destinationCoords|;
    var front := PutCoords(a.destinationCoords) + PutKey(a.destinationKey) + PutCoords(a.sourceCoords);
    RootAndIdStandLast(bs, 10, front + PutKey(a.sourceKey), a.root, a.pathId);
    StandsInTurn(bs, 10, front, PutKey(a.sourceKey));
    StandsInTurn(bs, 10, PutCoords(a.destinationCoords) + PutKey(a.destinationKey), PutCoords(a.sourceCoords));
    StandsInTurn(bs, 10, PutCoords(a.destinationCoords), PutKey(a.destinationKey));
    CoordsStandAt(bs, 10, a.destinationCoords, |a.destinationCoords| % U16_BOUND);
    CoordsStandAt(bs, 44 + n, a.sourceCoords, |a.sourceCoords| % U16_BOUND);
  }

  lemma SetupLaidOut(s: Setup)
    ensures IsLaidOut(SnekSetup(s), Encoding(SnekSetup(s)))
  {
    hide Put, Get, Pow256, PutKey, PutU64, PutRoot, PutLinks, PutPorts, PutU16, Header, EndsWith;
    var bs := Encoding(SnekSetup(s));
    BodyStandsBehind(SnekSetup(s));
    hide StandsAt, Encoding, ComputedLength;
    var front := PutCoords(s.destination) + PutKey(s.destinationKey);
    RootAndIdStandLast(bs, 10, front + PutKey(s.sourceKey), s.root, s.pathId);
    StandsInTurn(bs, 10, front, PutKey(s.sourceKey));
    StandsInTurn(bs, 10, PutCoords(s.destination), PutKey(s.destinationKey));
    CoordsStandAt(bs, 10, s.destination, |s.destination| % U16_BOUND);
  }

  lemma SetupAckLaidOut(a: SetupAck)
    ensures IsLaidOut(SnekSetupAck(a), Encoding(SnekSetupAck(a)))
  {
    hide Put, Get, Pow256, PutKey, PutU64, PutRoot, PutLinks, PutPorts, PutU16, Header, EndsWith;
    var bs := Encoding(SnekSetupAck(a));
    BodyStandsBehind(SnekSetupAck(a));
    hide StandsAt, Encoding, ComputedLength;
    RootAndIdStandLast(bs, 10, PutKey(a.destinationKey), a.root, a.pathId);
  }

  lemma TeardownLaidOut(t: Teardown)
    ensures IsLaidOut(SnekTeardown(t), Encoding(SnekTeardown(t)))
  {
    hide Put, Get, Pow256, PutKey, PutU64, PutRoot, PutLinks, PutPorts, PutU16, Header, EndsWith;
    var bs := Encoding(SnekTeardown(t));
    BodyStandsBehind(SnekTeardown(t));
    hide StandsAt, Encoding, ComputedLength;
    RootAndIdStandLast(bs, 10, PutKey(t.destinationKey), t.root, t.pathId);
  }

  /** Every encoding is laid out so. */
  lemma EncodingIsLaidOut(f: Frame)
    ensures IsLaidOut(f, Encoding(f))
  {
    hide IsLaidOut;
    match f
    case TreeRouted(p) => TreePacketLaidOut(p);
    case SnekRouted(p) => SnekPacketLaidOut(p);
    case TreeAnnouncement(a) => AnnouncementLaidOut(a);
    case SnekBootstrap(b) => BootstrapLaidOut(b);
    case SnekBootstrapAck(a) => BootstrapAckLaidOut(a);
    case SnekSetup(s) => SetupLaidOut(s);
    case SnekSetupAck(a) => SetupAckLaidOut(a);
    case SnekTeardown(t) => TeardownLaidOut(t);
  }

  // ---- What a buffer must start with ----

  /** Ten bytes that start with the magic ones and say version 0. */
  predicate HasHeader(bs: seq<Byte>) {
    |bs| >= 10 && bs[..5] == [0x70, 0x69, 0x6e, 0x65, 0]
  }

  /** The length a header says. */
  function SaidLength(bs: seq<Byte>): nat
    requires |bs| >= 10
  {
    bs[8] as nat * 256 + bs[9]
  }

  lemma LengthIsRead(bs: seq<Byte>)
    requires |bs| >= 10
    ensures ReadU16(bs[8..]) == Got(SaidLength(bs), bs[10..])
  {
    var two := bs[8..][..2];
    assert two == [bs[8], bs[9]] && two[..1] == [bs[8]] && [bs[8]][..0] == [];
    assert Get(two) == 256 * Get(two[..1]) + bs[9];
  }

  /** When each error comes, and what it leaves in the buffer: everything while bytes are missing or the magic ones
      are wrong, and otherwise what is behind the version or the header. A length below ten panics. A whole frame is one
      of the type its header says. */
  lemma HeaderDecidesExactly(now: Time, bs: seq<Byte>)
    ensures var read, magic := Decoding(now, bs), [0x70, 0x69, 0x6e, 0x65];
            && (read.Got? && read.value == Incomplete <==> |bs| < 4 || (|bs| < 10 && bs[..4] == magic))
            && (read.Got? && read.value == Failed(NoMagic) <==> |bs| >= 4 && bs[..4] != magic)
            && (read.Got? && read.value == Failed(WrongVersion) <==> |bs| >= 10 && bs[..4] == magic && bs[4] != 0)
            && (read.Got? && read.value == Failed(TooShort)
              <==> HasHeader(bs) && 10 <= SaidLength(bs) && |bs| < SaidLength(bs))
            && (read.Got? && read.value == Failed(UnknownType) <==>
                  HasHeader(bs) && 10 <= SaidLength(bs) <= |bs| && (bs[5] == 0 || bs[5] > 8))
            && (HasHeader(bs) && SaidLength(bs) < 10 ==> read.Panic?)
            && (read.Got? && read.value.Complete? ==> HasHeader(bs) && FrameType(read.value.frame) == bs[5])
            && (read.Got? && !read.value.Complete? ==>
                  read.rest == if !(|bs| >= 10 && bs[..4] == magic) then bs else if bs[4] != 0 then bs[5..]
                    else bs[10..])
            && (read.Panic? ==> HasHeader(bs))
  {
    hide ReadU16, ReadAnnouncement, ReadTreePacket, ReadBootstrap, ReadBootstrapAck, ReadSetup, ReadSetupAck,
      ReadTeardown,
      ReadSnekPacket;
    if |bs| >= 10 {
      LengthIsRead(bs);
      assert bs[..5] == bs[..4] + [bs[4]];
      if bs[5] != 0 && bs[5] <= 8 { BodySaysType(bs[5], SaidLength(bs), now, bs[10..]); }
    }
  }

  lemma BodySaysType(kind: nat, len: nat, now: Time, bs: seq<Byte>)
    requires 1 <= kind <= 8
    ensures var read := ReadBody(kind, len, now, bs);
            read.Got? ==> read.value.Complete? && FrameType(read.value.frame) == kind
  {
    hide ReadU16, ReadKey, ReadU64, ReadRoot, ReadCoords, ReadPorts, ReadPayload, ReadLinks, TreePayloadLength;
  }
}

/** `PineconeCodec` (src/wire_frame.rs) as it runs: writing to and consuming a byte buffer in place. */
module Codec {
  import opened Types
  import opened Bytes
  import opened Coordinates
  import opened Announcements
  import opened Frames
  import opened Wire

  /** The result of a step that may panic. */
  datatype Fetched<+T> = Value(value: T) | Panicked {
    predicate IsFailure() { Panicked? }
    function PropagateFailure<U>(): Fetched<U> { Panicked }
    function Extract(): T requires Value? { value }
  }

  /** The step returned what spec reads and left what spec leaves; a panic leaves nothing to say about the buffer. */
  ghost predicate Reads<T>(r: Fetched<T>, left: seq<Byte>, spec: Read<T>) {
    match spec
    case Got(v, rest) => r == Value(v) && left == rest
    case Panic => r == Panicked
  }

  class BytesMut {
    var data: seq<Byte>

    constructor ()
      ensures data == []
    {
      data := [];
    }

    method PutSlice(bs: seq<Byte>)
      modifies this
      ensures data == old(data) + bs
    {
      data := data + bs;
    }

    method PutU8(v: Byte)
      modifies this
      ensures data == old(data) + [v]
    {
      data := data + [v];
    }

    method PutU16Field(v: nat)
      requires v < U16_BOUND
      modifies this
      ensures data == old(data) + PutU16(v)
    {
      data := data + PutU16(v);
    }

    method PutU64Field(v: U64)
      modifies this
      ensures data == old(data) + PutU64(v)
    {
      data := data + PutU64(v);
    }

    method GetU8() returns (r: Fetched<Byte>)
      modifies this
      ensures old(data) == [] ==> r == Panicked
      ensures old(data) != [] ==> r == Value(old(data)[0]) && data == old(data)[1..]
    {
      if data == [] { return Panicked; }
      r := Value(data[0]);
      data := data[1..];
    }

    method GetU16() returns (r: Fetched<nat>)
      modifies this
      ensures Reads(r, data, ReadU16(old(data)))
      ensures r.Value? ==> r.value < U16_BOUND
    {
      if |data| < 2 { return Panicked; }
      WidthBounds();
      r := Value(Get(data[..2]));
      data := data[2..];
    }

    method GetU64() returns (r: Fetched<U64>)
      modifies this
      ensures Reads(r, data, ReadU64(old(data)))
    {
      if |data| < 8 { return Panicked; }
      WidthBounds();
      r := Value(Get(data[..8]));
      data := data[8..];
    }

    /** The next n bytes, one `get_u8` at a time, as the key, signature and payload loops take them. */
    method GetBytes(n: nat) returns (r: Fetched<seq<Byte>>)
      modifies this
      ensures |old(data)| < n ==> r == Panicked
      ensures n <= |old(data)| ==> r == Value(old(data)[..n]) && data == old(data)[n..]
    {
      var bs: seq<Byte> := [];
      for i := 0 to n
        invariant i <= |old(data)| && bs == old(data)[..i] && data == old(data)[i..]
      {
        var b :- GetU8();
        bs := bs + [b];
      }
      return Value(bs);
    }
  }

  // ---- Encoding ----

  method PutCoordsField(dst: BytesMut, c: Coords)
    modifies dst
    ensures dst.data == old(dst.data) + PutCoords(c)
  {
    hide Put, Pow256, PutU16, PutU64;
    dst.PutU16Field(|c| % U16_BOUND);
    for i := 0 to |c|
      invariant dst.data == old(dst.data) + PutU16(|c| % U16_BOUND) + PutPorts(c[..i])
    {
      assert c[..i + 1][..i] == c[..i];
      dst.PutU64Field(c[i]);
    }
    assert c[..|c|] == c;
  }

  method PutLinksField(dst: BytesMut, sigs: seq<RootSignature>)
    modifies dst
    ensures dst.data == old(dst.data) + PutU16(|sigs| % U16_BOUND) + PutLinks(sigs)
  {
    hide Put, Pow256, PutU16, PutU64, PutKey, PutSignature;
    dst.PutU16Field(|sigs| % U16_BOUND);
    for i := 0 to |sigs|
      invariant dst.data == old(dst.data) + PutU16(|sigs| % U16_BOUND) + PutLinks(sigs[..i])
    {
      assert sigs[..i + 1][..i] == sigs[..i];
      dst.PutSlice(PutKey(sigs[i].signingPublicKey));
      dst.PutU64Field(sigs[i].destinationPort);
      dst.PutSlice(PutSignature(sigs[i].signature));
      assert PutLinks(sigs[..i + 1]) == PutLinks(sigs[..i]) + LinkBytes(sigs[i]);
    }
    assert sigs[..|sigs|] == sigs;
  }

  method PutRootField(dst: BytesMut, root: Root)
    modifies dst
    ensures dst.data == old(dst.data) + PutRoot(root)
  {
    hide Put, Pow256, PutU64, PutKey;
    dst.PutSlice(PutKey(root.publicKey));
    dst.PutU64Field(root.sequenceNumber);
  }

  method PutHeader(dst: BytesMut, f: Frame)
    modifies dst
    ensures dst.data == old(dst.data) + Header(f)
  {
    hide Put, Pow256, PutU16, ComputedLength;
    dst.PutSlice(MAGIC);
    dst.PutU8(0);
    dst.PutU8(FrameType(f));
    dst.PutU16Field(0);
    dst.PutU16Field(ComputedLength(f) % U16_BOUND);
  }

  method PutTreePacket(dst: BytesMut, p: TreePacket)
    modifies dst
    ensures dst.data == old(dst.data) + Body(TreeRouted(p))
  {
    hide Put, Pow256, PutU16, PutU64, PutKey, PutCoords, PutLinks, PutRoot;
    PutCoordsField(dst, p.destination);
    PutCoordsField(dst, p.source);
    dst.PutSlice(p.payload);
  }

  method PutSnekPacket(dst: BytesMut, p: SnekPacket)
    modifies dst
    ensures dst.data == old(dst.data) + Body(SnekRouted(p))
  {
    hide Put, Pow256, PutU16, PutU64, PutKey, PutCoords, PutLinks, PutRoot;
    dst.PutSlice(PutKey(p.destinationKey));
    dst.PutSlice(PutKey(p.sourceKey));
    dst.PutSlice(p.payload);
  }

  method PutAnnouncement(dst: BytesMut, a: Announcement)
    modifies dst
    ensures dst.data == old(dst.data) + Body(TreeAnnouncement(a))
  {
    hide Put, Pow256, PutU16, PutU64, PutKey, PutCoords, PutLinks, PutRoot;
    PutRootField(dst, a.root);
    PutLinksField(dst, a.signatures);
  }

  method PutBootstrap(dst: BytesMut, b: Bootstrap)
    modifies dst
    ensures dst.data == old(dst.data) + Body(SnekBootstrap(b))
  {
    hide Put, Pow256, PutU16, PutU64, PutKey, PutCoords, PutLinks, PutRoot;
    dst.PutSlice(PutKey(b.destinationKey));
    PutCoordsField(dst, b.source);
    PutRootField(dst, b.root);
    dst.PutU64Field(b.pathId);
  }

  method PutBootstrapAck(dst: BytesMut, a: BootstrapAck)
    modifies dst
    ensures dst.data == old(dst.data) + Body(SnekBootstrapAck(a))
  {
    hide Put, Pow256, PutU16, PutU64, PutKey, PutCoords, PutLinks, PutRoot;
    PutCoordsField(dst, a.destinationCoords);
    dst.PutSlice(PutKey(a.destinationKey));
    PutCoordsField(dst, a.sourceCoords);
    dst.PutSlice(PutKey(a.sourceKey));
    PutRootField(dst, a.root);
    dst.PutU64Field(a.pathId);
  }

  method PutSetup(dst: BytesMut, s: Setup)
    modifies dst
    ensures dst.data == old(dst.data) + Body(SnekSetup(s))
  {
    hide Put, Pow256, PutU16, PutU64, PutKey, PutCoords, PutLinks, PutRoot;
    PutCoordsField(dst, s.destination);
    dst.PutSlice(PutKey(s.destinationKey));
    dst.PutSlice(PutKey(s.sourceKey));
    PutRootField(dst, s.root);
    dst.PutU64Field(s.pathId);
  }

  method PutSetupAck(dst: BytesMut, a: SetupAck)
    modifies dst
    ensures dst.data == old(dst.data) + Body(SnekSetupAck(a))
  {
    hide Put, Pow256, PutU16, PutU64, PutKey, PutCoords, PutLinks, PutRoot;
    dst.PutSlice(PutKey(a.destinationKey));
    PutRootField(dst, a.root);
    dst.PutU64Field(a.pathId);
  }

  method PutTeardown(dst: BytesMut, t: Teardown)
    modifies dst
    ensures dst.data == old(dst.data) + Body(SnekTeardown(t))
  {
    hide Put, Pow256, PutU16, PutU64, PutKey, PutCoords, PutLinks, PutRoot;
    dst.PutSlice(PutKey(t.destinationKey));
    PutRootField(dst, t.root);
    dst.PutU64Field(t.pathId);
  }

  method PutBody(dst: BytesMut, f: Frame)
    modifies dst
    ensures dst.data == old(dst.data) + Body(f)
  {
    hide Body;
    match f
    case TreeRouted(p) => PutTreePacket(dst, p);
    case SnekRouted(p) => PutSnekPacket(dst, p);
    case TreeAnnouncement(a) => PutAnnouncement(dst, a);
    case SnekBootstrap(b) => PutBootstrap(dst, b);
    case SnekBootstrapAck(a) => PutBootstrapAck(dst, a);
    case SnekSetup(s) => PutSetup(dst, s);
    case SnekSetupAck(a) => PutSetupAck(dst, a);
    case SnekTeardown(t) => PutTeardown(dst, t);
  }

  /** `encode`: refuses a buffer that is not empty, and otherwise writes the frame. */
  method Encode(f: Frame, dst: BytesMut) returns (ok: bool)
    modifies dst
    ensures ok <==> old(dst.data) == []
    ensures dst.data == if ok then Encoding(f) else old(dst.data)
  {
    hide Header, Body;
    if dst.data != [] { return false; }
    PutHeader(dst, f);
    PutBody(dst, f);
    assert dst.data == [] + Header(f) + Body(f);
    return true;
  }

  // ---- Decoding ----

  /** `decode_key`. */
  method DecodeKey(src: BytesMut) returns (r: Fetched<PublicKey>)
    modifies src
    ensures Reads(r, src.data, ReadKey(old(src.data)))
  {
    WidthBounds();
    var bs :- src.GetBytes(32);
    return Value(Get(bs));
  }

  /** `decode_signature`. */
  method DecodeSignature(src: BytesMut) returns (r: Fetched<Signature>)
    modifies src
    ensures Reads(r, src.data, ReadSignature(old(src.data)))
  {
    WidthBounds();
    var bs :- src.GetBytes(64);
    return Value(Get(bs));
  }

  /** A read of n items splits anywhere. */
  lemma {:induction false} ReadPortsSplits(n: nat, m: nat, bs: seq<Byte>)
    requires m <= n
    ensures ReadPorts(m, bs).Panic? ==> ReadPorts(n, bs).Panic?
  {
    hide ReadU64;
    if m < n { ReadPortsSplits(n - 1, m, bs); }
  }

  method DecodePorts(src: BytesMut, n: nat) returns (r: Fetched<Coords>)
    modifies src
    ensures Reads(r, src.data, ReadPorts(n, old(src.data)))
  {
    hide ReadU64, Get, Pow256;
    var ports: Coords := [];
    for i := 0 to n
      invariant ReadPorts(i, old(src.data)) == Got(ports, src.data)
    {
      ReadPortsSplits(n, i + 1, old(src.data));
      var port :- src.GetU64();
      ports := ports + [port];
    }
    return Value(ports);
  }

  method DecodeCoords(src: BytesMut) returns (r: Fetched<Coords>)
    modifies src
    ensures Reads(r, src.data, ReadCoords(old(src.data)))
  {
    hide ReadU16, ReadPorts;
    var n :- src.GetU16();
    r := DecodePorts(src, n);
  }

  method DecodeRoot(src: BytesMut) returns (r: Fetched<Root>)
    modifies src
    ensures Reads(r, src.data, ReadRoot(old(src.data)))
  {
    hide ReadKey, ReadU64;
    var key :- DecodeKey(src);
    var sequence :- src.GetU64();
    return Value(Root(key, sequence));
  }

  lemma {:induction false} ReadLinksSplits(n: nat, m: nat, bs: seq<Byte>)
    requires m <= n
    ensures ReadLinks(m, bs).Panic? ==> ReadLinks(n, bs).Panic?
  {
    hide ReadLink;
    if m < n { ReadLinksSplits(n - 1, m, bs); }
  }

  method DecodeAnnouncement(src: BytesMut, now: Time) returns (r: Fetched<Frame>)
    modifies src
    ensures Reads(r, src.data, ReadAnnouncement(now, old(src.data)))
  {
    hide ReadRoot, ReadU16, ReadU64, ReadKey, ReadSignature;
    var root :- DecodeRoot(src);
    var n :- src.GetU16();
    var sigs: seq<RootSignature> := [];
    ghost var start := src.data;
    for i := 0 to n
      invariant ReadLinks(i, start) == Got(sigs, src.data)
    {
      ReadLinksSplits(n, i + 1, start);
      var key :- DecodeKey(src);
      var port :- src.GetU64();
      var signature :- DecodeSignature(src);
      sigs := sigs + [RootSignature(key, port, signature)];
    }
    return Value(TreeAnnouncement(Announcement(root, sigs, now, 0)));
  }

  method DecodePayload(src: BytesMut, n: nat) returns (r: Fetched<seq<Byte>>)
    modifies src
    ensures Reads(r, src.data, ReadPayload(n, old(src.data)))
  {
    r := src.GetBytes(n);
  }

  method DecodeTreePacket(src: BytesMut, len: nat) returns (r: Fetched<Frame>)
    modifies src
    ensures Reads(r, src.data, ReadTreePacket(len, old(src.data)))
  {
    hide ReadU16, ReadPorts, ReadPayload;
    var destinations :- src.GetU16();
    var destination :- DecodePorts(src, destinations);
    var sources :- src.GetU16();
    var source :- DecodePorts(src, destinations);
    var n := TreePayloadLength(len, destinations, sources);
    if n.None? { return Panicked; }
    var payload :- DecodePayload(src, n.value);
    return Value(TreeRouted(TreePacket(source, destination, payload)));
  }

  method DecodeSnekPacket(src: BytesMut, len: nat) returns (r: Fetched<Frame>)
    modifies src
    ensures Reads(r, src.data, ReadSnekPacket(len, old(src.data)))
  {
    hide ReadKey, ReadPayload;
    var destination :- DecodeKey(src);
    var source :- DecodeKey(src);
    if len < 10 + 64 { return Panicked; }
    var payload :- DecodePayload(src, len - 10 - 64);
    return Value(SnekRouted(SnekPacket(destination, source, payload)));
  }

  method DecodeBootstrap(src: BytesMut) returns (r: Fetched<Frame>)
    modifies src
    ensures Reads(r, src.data, ReadBootstrap(old(src.data)))
  {
    hide ReadKey, ReadCoords, ReadRoot, ReadU64;
    var destination :- DecodeKey(src);
    var source :- DecodeCoords(src);
    var root :- DecodeRoot(src);
    var id :- src.GetU64();
    return Value(SnekBootstrap(Bootstrap(root, destination, source, id)));
  }

  method DecodeBootstrapAck(src: BytesMut) returns (r: Fetched<Frame>)
    modifies src
    ensures Reads(r, src.data, ReadBootstrapAck(old(src.data)))
  {
    hide ReadKey, ReadCoords, ReadRoot, ReadU64;
    var destinationCoords :- DecodeCoords(src);
    var destination :- DecodeKey(src);
    var sourceCoords :- DecodeCoords(src);
    var source :- DecodeKey(src);
    var root :- DecodeRoot(src);
    var id :- src.GetU64();
    return Value(SnekBootstrapAck(BootstrapAck(destinationCoords, destination, sourceCoords, source, root, id)));
  }

  method DecodeSetup(src: BytesMut) returns (r: Fetched<Frame>)
    modifies src
    ensures Reads(r, src.data, ReadSetup(old(src.data)))
  {
    hide ReadKey, ReadCoords, ReadRoot, ReadU64;
    var destination :- DecodeCoords(src);
    var destinationKey :- DecodeKey(src);
    var sourceKey :- DecodeKey(src);
    var root :- DecodeRoot(src);
    var id :- src.GetU64();
    return Value(SnekSetup(Setup(root, destination, destinationKey, sourceKey, id)));
  }

  method DecodeSetupAck(src: BytesMut) returns (r: Fetched<Frame>)
    modifies src
    ensures Reads(r, src.data, ReadSetupAck(old(src.data)))
  {
    hide ReadKey, ReadRoot, ReadU64;
    var destination :- DecodeKey(src);
    var root :- DecodeRoot(src);
    var id :- src.GetU64();
    return Value(SnekSetupAck(SetupAck(root, destination, id)));
  }

  method DecodeTeardown(src: BytesMut) returns (r: Fetched<Frame>)
    modifies src
    ensures Reads(r, src.data, ReadTeardown(old(src.data)))
  {
    hide ReadKey, ReadRoot, ReadU64;
    var destination :- DecodeKey(src);
    var root :- DecodeRoot(src);
    var id :- src.GetU64();
    return Value(SnekTeardown(Teardown(root, destination, id)));
  }

  /** `decode`. */
  method Decode(src: BytesMut, now: Time) returns (r: Fetched<Decoded>)
    modifies src
    ensures Reads(r, src.data, Decoding(now, old(src.data)))
  {
    hide ReadU16, Get, ReadAnnouncement, ReadTreePacket, ReadSnekPacket, ReadBootstrap, ReadBootstrapAck, ReadSetup,
      ReadSetupAck, ReadTeardown;
    if |src.data| < 4 { return Value(Incomplete); }
    if src.data[..4] != MAGIC { return Value(Failed(NoMagic)); }
    if |src.data| < 10 { return Value(Incomplete); }
    ghost var bs := src.data;
    var _ :- src.GetBytes(4);
    var version :- src.GetU8();
    assert src.data == bs[5..];
    if version != 0 { return Value(Failed(WrongVersion)); }
    var kind :- src.GetU8();
    var _ :- src.GetU8();
    var _ :- src.GetU8();
    assert src.data == bs[8..];
    var len :- src.GetU16();
    if len < 10 { return Panicked; }
    if |src.data| < len - 10 { return Value(Failed(TooShort)); }
    var frame: Frame;
    match kind {
      case 1 => frame :- DecodeAnnouncement(src, now);
      case 2 => frame :- DecodeTreePacket(src, len);
      case 3 => frame :- DecodeBootstrap(src);
      case 4 => frame :- DecodeBootstrapAck(src);
      case 5 => frame :- DecodeSetup(src);
      case 6 => frame :- DecodeSetupAck(src);
      case 7 => frame :- DecodeTeardown(src);
      case 8 => frame :- DecodeSnekPacket(src, len);
      case _ => return Value(Failed(UnknownType));
    }
    return Value(Complete(frame));
  }
}

/** Root announcements and their signature chain (src/frames.rs, src/tree.rs, the announcement half of
    src/coordinates.rs). */
module Announcements {
  import opened Types
  import opened Bytes
  import opened Coordinates

  type Time = nat  // milliseconds on a clock that never goes back

  datatype Root = Root(publicKey: PublicKey, sequenceNumber: U64)

  datatype Ordering = Less | Equal | Greater

  /** `Root::partial_cmp`: by key, then by sequence number. */
  function CompareRoots(a: Root, b: Root): Ordering {
    if a.publicKey < b.publicKey then Less
    else if a.publicKey > b.publicKey then Greater
    else if a.sequenceNumber < b.sequenceNumber then Less
    else if a.sequenceNumber > b.sequenceNumber then Greater
    else Equal
  }

  predicate Below(a: Root, b: Root) {
    CompareRoots(a, b) == Less
  }

  datatype RootSignature = RootSignature(signingPublicKey: PublicKey, destinationPort: Port, signature: Signature)

  datatype Announcement = Announcement(
    root: Root, signatures: seq<RootSignature>, receiveTime: Time, receiveOrder: U64)

  /** An abstract signature scheme (Ed25519 in the program): which bytes parse as a key, what a key signs and what it
      verifies. */
  datatype Scheme = Scheme(
    publicKeyOf: SigningKey -> PublicKey,
    sign: (SigningKey, seq<Byte>) -> Signature,
    parses: PublicKey -> bool,
    verify: (PublicKey, Signature, seq<Byte>) -> bool)

  /** Honest signatures verify (section 5.1.7 of RFC 8032); nothing else is assumed of the scheme. */
  ghost predicate Sound(scheme: Scheme) {
    forall k: SigningKey, m: seq<Byte> ::
      scheme.parses(scheme.publicKeyOf(k)) && scheme.verify(scheme.publicKeyOf(k), scheme.sign(k, m), m)
  }

  // ---- Coordinates carried by an announcement ----

  function PortsOf(sigs: seq<RootSignature>): (c: Coords)
    ensures |c| == |sigs|
  {
    seq(|sigs|, i requires 0 <= i < |sigs| => sigs[i].destinationPort)
  }

  /** `coords`: the receiver's coordinates when the sender is its parent. */
  method CoordsOf(ann: Announcement) returns (c: Coords)
    ensures c == PortsOf(ann.signatures)
  {
    c := [];
    for i := 0 to |ann.signatures|
      invariant c == PortsOf(ann.signatures)[..i]
    {
      c := c + [ann.signatures[i].destinationPort];
    }
  }

  /** The sender's own coordinates. */
  function SenderCoords(ann: Announcement): (c: Coords)
    requires ann.signatures != []
    ensures |c| == |ann.signatures| - 1
  {
    PortsOf(ann.signatures[..|ann.signatures| - 1])
  }

  /** `peer_coords`; with no signature the program's loop bound underflows. */
  method PeerCoords(ann: Announcement) returns (c: Coords)
    requires ann.signatures != []
    ensures c == SenderCoords(ann)
  {
    c := [];
    for i := 0 to |ann.signatures| - 1
      invariant c == PortsOf(ann.signatures)[..i]
    {
      c := c + [ann.signatures[i].destinationPort];
    }
  }

  // ---- The signature chain ----

  /** What one hop adds to the chain, after its signature is known. */
  function LinkBytes(sig: RootSignature): seq<Byte> {
    PutKey(sig.signingPublicKey) + PutU64(sig.destinationPort) + PutSignature(sig.signature)
  }

  /** The bytes every later signer commits to. */
  function ChainBytes(root: Root, sigs: seq<RootSignature>): seq<Byte> {
    if sigs == [] then PutKey(root.publicKey) + PutU64(root.sequenceNumber)
    else ChainBytes(root, sigs[..|sigs| - 1]) + LinkBytes(sigs[|sigs| - 1])
  }

  /** The message a signer signs: the chain so far, its key and the port it hands out. */
  function SignedMessage(root: Root, earlier: seq<RootSignature>, key: PublicKey, port: Port): seq<Byte> {
    ChainBytes(root, earlier) + PutKey(key) + PutU64(port)
  }

  function Appended(scheme: Scheme, ann: Announcement, k: SigningKey, port: Port): Announcement {
    var key := scheme.publicKeyOf(k);
    var signature := scheme.sign(k, SignedMessage(ann.root, ann.signatures, key, port));
    ann.(signatures := ann.signatures + [RootSignature(key, port, signature)])
  }

  /** `append_signature`. */
  method AppendSignature(scheme: Scheme, ann: Announcement, k: SigningKey, port: Port) returns (ann': Announcement)
    ensures ann' == Appended(scheme, ann, k, port)
  {
    hide PutKey, PutU64, PutSignature;
    var key := scheme.publicKeyOf(k);
    var unsigned := PutKey(ann.root.publicKey) + PutU64(ann.root.sequenceNumber);
    for i := 0 to |ann.signatures|
      invariant unsigned == ChainBytes(ann.root, ann.signatures[..i])
    {
      var sig := ann.signatures[i];
      assert ann.signatures[..i + 1][..i] == ann.signatures[..i];
      unsigned := unsigned + PutKey(sig.signingPublicKey);
      unsigned := unsigned + PutU64(sig.destinationPort);
      unsigned := unsigned + PutSignature(sig.signature);
      assert unsigned == ChainBytes(ann.root, ann.signatures[..i]) + LinkBytes(sig);
    }
    assert ann.signatures[..|ann.signatures|] == ann.signatures;
    unsigned := unsigned + PutKey(key);
    unsigned := unsigned + PutU64(port);
    ann' := ann.(signatures := ann.signatures + [RootSignature(key, port, scheme.sign(k, unsigned))]);
  }

  /** Link i verifies against the chain before it. */
  predicate LinkVerified(scheme: Scheme, root: Root, sigs: seq<RootSignature>, i: nat)
    requires i < |sigs|
  {
    var s := sigs[i];
    && scheme.parses(s.signingPublicKey)
    && scheme.verify(s.signingPublicKey, s.signature,
      SignedMessage(root, sigs[..i], s.signingPublicKey, s.destinationPort))
  }

  ghost predicate ChainVerified(scheme: Scheme, root: Root, sigs: seq<RootSignature>) {
    forall i :: 0 <= i < |sigs| ==> LinkVerified(scheme, root, sigs, i)
  }

  ghost predicate PortsNonZero(sigs: seq<RootSignature>) {
    forall i :: 0 <= i < |sigs| ==> sigs[i].destinationPort != 0
  }

  /** No key signs twice. */
  ghost predicate SignersDistinct(sigs: seq<RootSignature>) {
    forall i, j :: 0 <= i < j < |sigs| ==> sigs[i].signingPublicKey != sigs[j].signingPublicKey
  }

  /** What `is_clean` accepts from peer. Its duplicate check stops one short of the last signer. */
  ghost predicate Clean(scheme: Scheme, ann: Announcement, peer: PublicKey) {
    var sigs := ann.signatures;
    && sigs != []
    && ann.root.publicKey == sigs[0].signingPublicKey
    && sigs[|sigs| - 1].signingPublicKey == peer
    && PortsNonZero(sigs)
    && SignersDistinct(sigs[..|sigs| - 1])
    && ChainVerified(scheme, ann.root, sigs)
  }

  datatype Verdict = Accepted | Rejected | Panics

  /** `is_clean`. The unwrap of the first signature panics on an announcement that has none. */
  method IsClean(scheme: Scheme, ann: Announcement, peer: PublicKey) returns (v: Verdict)
    ensures v == Panics <==> ann.signatures == []
    ensures v == Accepted <==> Clean(scheme, ann, peer)
  {
    hide PutKey, PutU64, PutSignature;
    var sigs := ann.signatures;
    if sigs == [] { return Panics; }
    if ann.root.publicKey != sigs[0].signingPublicKey { return Rejected; }
    if peer != sigs[|sigs| - 1].signingPublicKey { return Rejected; }
    for i := 0 to |sigs|
      invariant PortsNonZero(sigs[..i])
    {
      if sigs[i].destinationPort == 0 { return Rejected; }
    }
    var n := |sigs| - 1;
    for i := 0 to n
      invariant forall a, b ::
        0 <= a < i && 0 <= b < n && a != b ==> sigs[a].signingPublicKey != sigs[b].signingPublicKey
    {
      for j := 0 to n
        invariant forall b :: 0 <= b < j && b != i ==> sigs[i].signingPublicKey != sigs[b].signingPublicKey
      {
        if i == j { continue; }
        if sigs[i].signingPublicKey == sigs[j].signingPublicKey {
          assert sigs[..n][i] == sigs[i] && sigs[..n][j] == sigs[j];
          return Rejected;
        }
      }
    }
    assert SignersDistinct(sigs[..n]);
    var toVerify := PutKey(ann.root.publicKey) + PutU64(ann.root.sequenceNumber);
    for i := 0 to |sigs|
      // What the verifier has buffered is what signer i signed, less its own key and port.
      invariant toVerify == ChainBytes(ann.root, sigs[..i])
      invariant forall a :: 0 <= a < i ==> LinkVerified(scheme, ann.root, sigs, a)
    {
      var sig := sigs[i];
      assert sigs[..i + 1][..i] == sigs[..i];
      toVerify := toVerify + PutKey(sig.signingPublicKey);
      toVerify := toVerify + PutU64(sig.destinationPort);
      assert toVerify == SignedMessage(ann.root, sigs[..i], sig.signingPublicKey, sig.destinationPort);
      if !scheme.parses(sig.signingPublicKey) { assert !LinkVerified(scheme, ann.root, sigs, i); return Rejected; }
      if !scheme.verify(sig.signingPublicKey, sig.signature, toVerify) {
        assert !LinkVerified(scheme, ann.root, sigs, i);
        return Rejected;
      }
      toVerify := toVerify + PutSignature(sig.signature);
      assert toVerify == ChainBytes(ann.root, sigs[..i]) + LinkBytes(sig);
    }
    assert sigs[..|sigs|] == sigs;
    return Accepted;
  }

  /** An announcement passed along by honest signers. */
  datatype Hop = Hop(key: SigningKey, port: Port)

  function Relayed(scheme: Scheme, start: Announcement, hops: seq<Hop>): Announcement {
    if hops == [] then start
    else Appended(scheme, Relayed(scheme, start, hops[..|hops| - 1]), hops[|hops| - 1].key, hops[|hops| - 1].port)
  }

  ghost predicate HopSigned(scheme: Scheme, sig: RootSignature, hop: Hop) {
    sig.signingPublicKey == scheme.publicKeyOf(hop.key) && sig.destinationPort == hop.port
  }

  lemma {:induction false} RelayedChain(scheme: Scheme, start: Announcement, hops: seq<Hop>)
    requires start.signatures == [] && Sound(scheme)
    ensures var r := Relayed(scheme, start, hops);
            && r.root == start.root && |r.signatures| == |hops|
            && (forall i :: 0 <= i < |hops| ==> HopSigned(scheme, r.signatures[i], hops[i]))
            && ChainVerified(scheme, r.root, r.signatures)
  {
    if hops != [] {
      var n := |hops| - 1;
      RelayedChain(scheme, start, hops[..n]);
      AppendVerified(scheme, Relayed(scheme, start, hops[..n]), hops[n].key, hops[n].port);
    }
  }

  /** Appending an honest signature keeps a verified chain verified, and cannot repair a broken one. */
  lemma AppendVerified(scheme: Scheme, ann: Announcement, k: SigningKey, port: Port)
    requires Sound(scheme)
    ensures ChainVerified(scheme, ann.root, Appended(scheme, ann, k, port).signatures)
      <==> ChainVerified(scheme, ann.root, ann.signatures)
  {
    var sigs, sigs' := ann.signatures, Appended(scheme, ann, k, port).signatures;
    assert sigs'[..|sigs|] == sigs;
    forall i | 0 <= i < |sigs|
      ensures LinkVerified(scheme, ann.root, sigs', i) == LinkVerified(scheme, ann.root, sigs, i)
    {
      assert sigs'[..i] == sigs[..i];
    }
    assert LinkVerified(scheme, ann.root, sigs', |sigs|);
  }

  /** What an honestly relayed announcement must satisfy to be accepted from its last signer: exactly the
      checks a sender can make beforehand. The last signer may repeat an earlier one, as in the program. */
  lemma RelayedIsCleanExactly(scheme: Scheme, start: Announcement, hops: seq<Hop>, peer: PublicKey)
    requires start.signatures == [] && Sound(scheme) && hops != []
    ensures Clean(scheme, Relayed(scheme, start, hops), peer)
       <==> && scheme.publicKeyOf(hops[0].key) == start.root.publicKey
            && scheme.publicKeyOf(hops[|hops| - 1].key) == peer
            && (forall i :: 0 <= i < |hops| ==> hops[i].port != 0)
            && (forall i, j ::
              0 <= i < j < |hops| - 1 ==> scheme.publicKeyOf(hops[i].key) != scheme.publicKeyOf(hops[j].key))
  {
    hide LinkVerified, Relayed;
    RelayedChain(scheme, start, hops);
    var sigs := Relayed(scheme, start, hops).signatures;
    var n := |hops| - 1;
    assert forall i :: 0 <= i < n ==> sigs[..n][i] == sigs[i];
    assert forall i :: 0 <= i < |hops| ==> HopSigned(scheme, sigs[i], hops[i]);
    if forall i, j :: 0 <= i < j < n ==> scheme.publicKeyOf(hops[i].key) != scheme.publicKeyOf(hops[j].key) {
      assert SignersDistinct(sigs[..n]);
    } else {
      var i, j :| 0 <= i < j < n && scheme.publicKeyOf(hops[i].key) == scheme.publicKeyOf(hops[j].key);
      assert sigs[..n][i].signingPublicKey == sigs[..n][j].signingPublicKey;
    }
    if PortsNonZero(sigs) {
      assert forall i :: 0 <= i < |hops| ==> sigs[i].destinationPort != 0;
    }
  }

  /** Forwarding a stored announcement: the next receiver accepts it exactly when the port is assigned and
      the stored announcement's last signer is not an earlier one too, which `is_clean` never checked. */
  lemma ForwardedIsCleanExactly(scheme: Scheme, ann: Announcement, from: PublicKey, k: SigningKey, port: Port)
    requires Sound(scheme) && Clean(scheme, ann, from)
    ensures Clean(scheme, Appended(scheme, ann, k, port), scheme.publicKeyOf(k))
       <==> port != 0 && SignersDistinct(ann.signatures)
  {
    var sigs, sigs' := ann.signatures, Appended(scheme, ann, k, port).signatures;
    AppendVerified(scheme, ann, k, port);
    assert sigs'[..|sigs' | - 1] == sigs;
    assert sigs'[|sigs|].destinationPort == port;
    if port != 0 { assert PortsNonZero(sigs'); }
  }

  predicate SignedBy(sigs: seq<RootSignature>, key: PublicKey) {
    exists i :: 0 <= i < |sigs| && sigs[i].signingPublicKey == key
  }

  /** `is_loop_of_child`. */
  method IsLoopOfChild(ann: Announcement, key: PublicKey) returns (b: bool)
    ensures b == SignedBy(ann.signatures, key)
  {
    for i := 0 to |ann.signatures|
      invariant forall j :: 0 <= j < i ==> ann.signatures[j].signingPublicKey != key
    {
      if ann.signatures[i].signingPublicKey == key { return true; }
    }
    return false;
  }
}

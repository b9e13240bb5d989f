/** What a signature chain commits to (src/frames.rs:41-116): the bytes signed, and that they determine everything
    before them. */
module Chains {
  import opened Types
  import opened Bytes
  import opened Coordinates
  import opened Announcements

  // ---- The bytes ----

  lemma {:induction false} ChainLength(root: Root, sigs: seq<RootSignature>)
    ensures |ChainBytes(root, sigs)| == 40 + 104 * |sigs|
  {
    hide PutKey, PutU64, PutSignature;
    if sigs != [] { ChainLength(root, sigs[..|sigs| - 1]); }
  }

  /** The root comes first: its key, then its sequence number. */
  lemma {:induction false} RootComesFirst(root: Root, sigs: seq<RootSignature>)
    ensures |ChainBytes(root, sigs)| >= 40
    ensures ChainBytes(root, sigs)[..32] == PutKey(root.publicKey)
    ensures ChainBytes(root, sigs)[32..40] == PutU64(root.sequenceNumber)
  {
    hide PutKey, PutU64, PutSignature;
    ChainLength(root, sigs);
    if sigs != [] {
      var init := sigs[..|sigs| - 1];
      RootComesFirst(root, init);
      assert ChainBytes(root, sigs)[..40] == ChainBytes(root, init)[..40];
      assert ChainBytes(root, sigs)[..32] == ChainBytes(root, sigs)[..40][..32];
      assert ChainBytes(root, init)[..32] == ChainBytes(root, init)[..40][..32];
      assert ChainBytes(root, sigs)[32..40] == ChainBytes(root, sigs)[..40][32..];
      assert ChainBytes(root, init)[32..40] == ChainBytes(root, init)[..40][32..];
    }
  }

  /** Link i stands 104 bytes after the one before: its key, the port it hands out, its signature. */
  lemma {:induction false} LinkStandsAt(root: Root, sigs: seq<RootSignature>, i: nat)
    requires i < |sigs|
    ensures var at, bs := 40 + 104 * i, ChainBytes(root, sigs);
            && at + 104 <= |bs|
            && bs[at..at + 32] == PutKey(sigs[i].signingPublicKey)
            && bs[at + 32..at + 40] == PutU64(sigs[i].destinationPort)
            && bs[at + 40..at + 104] == PutSignature(sigs[i].signature)
  {
    hide PutKey, PutU64, PutSignature;
    var init, last, at := sigs[..|sigs| - 1], sigs[|sigs| - 1], 40 + 104 * i;
    ChainLength(root, sigs);
    ChainLength(root, init);
    var bs, before := ChainBytes(root, sigs), ChainBytes(root, init);
    assert bs == before + LinkBytes(last);
    if i < |init| {
      LinkStandsAt(root, init, i);
      assert bs[at..at + 32] == before[at..at + 32];
      assert bs[at + 32..at + 40] == before[at + 32..at + 40];
      assert bs[at + 40..at + 104] == before[at + 40..at + 104];
    } else {
      assert |before| == at;
      assert LinkBytes(last)[..32] == PutKey(last.signingPublicKey) == bs[at..at + 32];
      assert LinkBytes(last)[32..40] == PutU64(last.destinationPort) == bs[at + 32..at + 40];
      assert LinkBytes(last)[40..104] == PutSignature(last.signature) == bs[at + 40..at + 104];
    }
  }

  /** What signer n signs: the root, the n links before it, and then its own key and the port it hands out. */
  lemma SignedMessageLayout(root: Root, earlier: seq<RootSignature>, key: PublicKey, port: Port, i: nat)
    ensures var m, end := SignedMessage(root, earlier, key, port), 40 + 104 * |earlier|;
            && |m| == end + 40
            && m[..32] == PutKey(root.publicKey) && m[32..40] == PutU64(root.sequenceNumber)
            && m[end..end + 32] == PutKey(key) && m[end + 32..] == PutU64(port)
            && (i < |earlier| ==>
                  var at := 40 + 104 * i;
                  && m[at..at + 32] == PutKey(earlier[i].signingPublicKey)
                  && m[at + 32..at + 40] == PutU64(earlier[i].destinationPort)
                  && m[at + 40..at + 104] == PutSignature(earlier[i].signature))
  {
    hide PutKey, PutU64, PutSignature;
    var m, chain := SignedMessage(root, earlier, key, port), ChainBytes(root, earlier);
    ChainLength(root, earlier);
    RootComesFirst(root, earlier);
    assert m == chain + (PutKey(key) + PutU64(port));
    assert m[..32] == chain[..32] && m[32..40] == chain[32..40];
    assert m[|chain|..] == PutKey(key) + PutU64(port);
    if i < |earlier| {
      LinkStandsAt(root, earlier, i);
      var at := 40 + 104 * i;
      assert m[at..at + 32] == chain[at..at + 32];
      assert m[at + 32..at + 40] == chain[at + 32..at + 40];
      assert m[at + 40..at + 104] == chain[at + 40..at + 104];
    }
  }

  // ---- They determine what was signed ----

  lemma KeyBytesInjective(a: PublicKey, b: PublicKey)
    requires PutKey(a) == PutKey(b)
    ensures a == b
  {
    WidthBounds();
    GetPut(32, a);
    GetPut(32, b);
  }

  lemma NumberBytesInjective(a: U64, b: U64)
    requires PutU64(a) == PutU64(b)
    ensures a == b
  {
    WidthBounds();
    GetPut(8, a);
    GetPut(8, b);
  }

  lemma SignatureBytesInjective(a: Signature, b: Signature)
    requires PutSignature(a) == PutSignature(b)
    ensures a == b
  {
    WidthBounds();
    GetPut(64, a);
    GetPut(64, b);
  }

  /** The message signed determines the root, every link before the signer, the signer and its port. */
  lemma SignedMessageInjective(root: Root, earlier: seq<RootSignature>, key: PublicKey, port: Port,
      root': Root, earlier': seq<RootSignature>, key': PublicKey, port': Port)
    requires SignedMessage(root, earlier, key, port) == SignedMessage(root', earlier', key', port')
    ensures root == root' && earlier == earlier' && key == key' && port == port'
  {
    hide PutKey, PutU64, PutSignature, SignedMessage;
    SignedMessageLayout(root, earlier, key, port, 0);
    SignedMessageLayout(root', earlier', key', port', 0);
    KeyBytesInjective(root.publicKey, root'.publicKey);
    NumberBytesInjective(root.sequenceNumber, root'.sequenceNumber);
    KeyBytesInjective(key, key');
    NumberBytesInjective(port, port');
    forall i | 0 <= i < |earlier| ensures earlier[i] == earlier'[i] {
      SignedMessageLayout(root, earlier, key, port, i);
      SignedMessageLayout(root', earlier', key', port', i);
      KeyBytesInjective(earlier[i].signingPublicKey, earlier'[i].signingPublicKey);
      NumberBytesInjective(earlier[i].destinationPort, earlier'[i].destinationPort);
      SignatureBytesInjective(earlier[i].signature, earlier'[i].signature);
    }
  }

  // ---- Tampering ----

  /** Under this key the signature fits one message at most. */
  ghost predicate FitsOneMessage(scheme: Scheme, key: PublicKey, signature: Signature) {
    forall m: seq<Byte>, m': seq<Byte> ::
      scheme.verify(key, signature, m) && scheme.verify(key, signature, m') ==> m == m'
  }

  /** Each link of a clean announcement was verified, under its signer's key and over everything before it. */
  lemma EverySignatureIsVerified(scheme: Scheme, a: Announcement, peer: PublicKey, i: nat)
    requires Clean(scheme, a, peer) && i < |a.signatures|
    ensures var link := a.signatures[i];
            && scheme.parses(link.signingPublicKey)
            && scheme.verify(link.signingPublicKey, link.signature,
                 SignedMessage(a.root, a.signatures[..i], link.signingPublicKey, link.destinationPort))
  {
    hide SignedMessage;
    assert LinkVerified(scheme, a.root, a.signatures, i);
  }

  /** A clean announcement cannot be changed under any of its signatures: whatever else is clean, from whichever
      peer, and has that signature of that signer somewhere has the same root and sequence number, and the same signers,
      ports and signatures up to there. */
  lemma EachSignatureCommits(scheme: Scheme, a: Announcement, peer: PublicKey, i: nat, b: Announcement,
      peer': PublicKey, j: nat)
    requires Clean(scheme, a, peer) && Clean(scheme, b, peer') && i < |a.signatures| && j < |b.signatures|
    requires a.signatures[i].signingPublicKey == b.signatures[j].signingPublicKey
    requires a.signatures[i].signature == b.signatures[j].signature
    requires FitsOneMessage(scheme, a.signatures[i].signingPublicKey, a.signatures[i].signature)
    ensures a.root == b.root && a.signatures[..i + 1] == b.signatures[..j + 1]
  {
    hide SignedMessage, Clean;
    EverySignatureIsVerified(scheme, a, peer, i);
    EverySignatureIsVerified(scheme, b, peer', j);
    SignedMessageInjective(
      a.root, a.signatures[..i], a.signatures[i].signingPublicKey, a.signatures[i].destinationPort,
      b.root, b.signatures[..j], b.signatures[j].signingPublicKey, b.signatures[j].destinationPort);
    assert a.signatures[..i + 1] == a.signatures[..i] + [a.signatures[i]];
    assert b.signatures[..j + 1] == b.signatures[..j] + [b.signatures[j]];
  }

  /** So with another root, another sequence number, or another port, signer or signature anywhere before a
      signature it keeps, an announcement is refused. */
  lemma TamperingIsNoticed(scheme: Scheme, a: Announcement, peer: PublicKey, i: nat, b: Announcement,
      peer': PublicKey, j: nat)
    requires Clean(scheme, a, peer) && i < |a.signatures| && j < |b.signatures|
    requires a.signatures[i].signingPublicKey == b.signatures[j].signingPublicKey
    requires a.signatures[i].signature == b.signatures[j].signature
    requires FitsOneMessage(scheme, a.signatures[i].signingPublicKey, a.signatures[i].signature)
    requires b.root != a.root || b.signatures[..j + 1] != a.signatures[..i + 1]
    ensures !Clean(scheme, b, peer')
  {
    hide Clean, FitsOneMessage;
    if Clean(scheme, b, peer') { EachSignatureCommits(scheme, a, peer, i, b, peer', j); }
  }

  /** What a router appends is what it signed, byte for byte: 80 bytes for the root's own first link. */
  lemma FirstLinkSignsRoot(scheme: Scheme, root: Root, k: SigningKey, port: Port)
    ensures var sigs := Appended(scheme, Announcement(root, [], 0, 0), k, port).signatures;
            && |sigs| == 1 && sigs[0].signingPublicKey == scheme.publicKeyOf(k) && sigs[0].destinationPort == port
            && sigs[0].signature == scheme.sign(k,
                 PutKey(root.publicKey) + PutU64(root.sequenceNumber) + PutKey(scheme.publicKeyOf(k)) + PutU64(port))
  {
    hide PutKey, PutU64, PutSignature;
  }
}

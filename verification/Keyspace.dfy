/** Keyspace routing from hop to hop: a frame never drifts away from its destination. */
module Keyspace {
  import opened Types
  import opened Announcements
  import opened Tree
  import opened Snek
  import opened Network
  import opened PathSetup

  /** A node follows the root, which its key does not exceed, and is its own parent only if it has the root's key. */
  ghost predicate UnderRoot(r: RouterState, root: Root) {
    && CurrentRoot(r.tree) == root && r.tree.key <= root.publicKey
    && (r.tree.parent == r.tree.key ==> r.tree.key == root.publicKey)
  }

  /** key is a node's own or one it knows. */
  ghost predicate KnowsOrIs(r: RouterState, now: Time, bootstrap: bool, key: PublicKey) {
    r.tree.key == key || Known(r, now, bootstrap, key)
  }

  /** Where a frame for dest may be sent towards: bootstraps look past their destination, which is their origin. */
  predicate Past(bootstrap: bool, dest: PublicKey, key: PublicKey) {
    if bootstrap then dest < key else dest <= key
  }

  /** One hop does not drift. The next node knows the key the frame was sent towards, or is it. Then unless the frame
      is traffic for itself, it chooses a key past the destination and no higher than before. If that is its own, it
      knows none between the destination and its own, and sends the frame nowhere: it drops traffic and answers a
      bootstrap. */
  lemma HopDoesNotDrift(r: RouterState, root: Root, now: Time, bootstrap: bool, dest: PublicKey, towards: PublicKey,
      key: PublicKey, hop: Option<PublicKey>)
    requires UnderRoot(r, root) && KnowsOrIs(r, now, bootstrap, towards) && Past(bootstrap, dest, towards)
    requires towards <= root.publicKey
    requires (bootstrap || dest != r.tree.key) && !HasPeer(r.tree, r.tree.key) && r.tree.key !in r.tree.announcements
    requires IsSnekHop(r, now, dest, bootstrap, !bootstrap, key, hop)
    ensures Past(bootstrap, dest, key) && key <= towards
    ensures key == r.tree.key <==> hop == if bootstrap then Some(r.tree.key) else None
    ensures key == r.tree.key ==> forall k: PublicKey ::
      Known(r, now, bootstrap, k) && Past(bootstrap, dest, k) ==> key <= k
  {
  }

  // ---- In a converged network ----

  /** The next node towards a path's lower end holds that path too, usable, unless it is that end. */
  ghost predicate PathContinues(net: Routers, now: Time, bootstrap: bool, n: PublicKey, index: PathIndex)
    requires n in net && index in net[n].snek.paths
  {
    Usable(net[n].snek.paths[index], now, bootstrap) ==>
      var next := PeerOnPort(net[n].tree, net[n].snek.paths[index].source);
      && next.Some? && next.value in net
      && (next.value == index.publicKey
          || (index in net[next.value].snek.paths && Usable(net[next.value].snek.paths[index], now, bootstrap)))
  }

  ghost predicate PathsContinue(net: Routers, now: Time, bootstrap: bool) {
    forall n, index :: n in net && index in net[n].snek.paths ==> PathContinues(net, now, bootstrap, n, index)
  }

  /** No node outranks the root, which signs every announcement, and announcements are kept for peers only. */
  ghost predicate RootIsStrongest(t: TreeState, root: Root) {
    t.key <= root.publicKey && RootsSigned(t) && forall m :: m in t.announcements ==> HasPeer(t, m)
  }

  /** Tree, tables and announcements agree throughout the network. */
  ghost predicate Coherent(net: Routers, root: Root, now: Time, bootstrap: bool) {
    && Converged(Trees(net), root) && PathsContinue(net, now, bootstrap)
    && forall n :: n in net ==> RootIsStrongest(net[n].tree, root)
  }

  lemma AncestorsAreKnown(r: RouterState, now: Time, bootstrap: bool, key: PublicKey)
    requires SignedBy(CurrentSignatures(r.tree), key) && r.tree.key !in r.tree.announcements
    ensures Known(r, now, bootstrap, key)
  {
    hide Usable;
    assert KnownVia(r, now, bootstrap, key, r.tree.parent);
  }

  /** Whoever stored an announcement signed by key came by it from a peer that is key or knows it. */
  lemma SignersAreKnownUpstream(net: Routers, root: Root, now: Time, bootstrap: bool, n: PublicKey, m: PublicKey,
      key: PublicKey)
    requires Coherent(net, root, now, bootstrap) && n in net && HasPeer(net[n].tree, m)
    requires m in net[n].tree.announcements && SignedBy(net[n].tree.announcements[m].signatures, key)
    ensures m in net && KnowsOrIs(net[m], now, bootstrap, key)
  {
    hide Known, PathsContinue, HasPeer, Converged;
    StoredSignatures(Trees(net), root, n, m);
    var sigs := net[n].tree.announcements[m].signatures;
    var i :| 0 <= i < |sigs| && sigs[i].signingPublicKey == key;
    if i < |sigs| - 1 {
      assert CurrentSignatures(net[m].tree)[i] == sigs[..|sigs| - 1][i];
      AncestorsAreKnown(net[m], now, bootstrap, key);
    }
  }

  lemma NodesAreUnderRoot(net: Routers, root: Root, now: Time, bootstrap: bool, n: PublicKey)
    requires Coherent(net, root, now, bootstrap) && n in net
    ensures UnderRoot(net[n], root) && net[n].tree.key == n && !HasPeer(net[n].tree, n)
    ensures n !in net[n].tree.announcements
    ensures net[n].tree.parent != n ==>
      HasPeer(net[n].tree, net[n].tree.parent) && net[n].tree.parent in net[n].tree.announcements
      && CurrentSignatures(net[n].tree) == net[n].tree.announcements[net[n].tree.parent].signatures
      && SignedBy(CurrentSignatures(net[n].tree), root.publicKey)
  {
    var trees, t := Trees(net), net[n].tree;
    assert NodeConverged(trees, root, n);
    if t.parent == n {
      RootIsOnTop(trees, root, n);
    } else {
      assert UpToDate(trees, n, t.parent);
      var i :| 0 <= i < |t.announcements[t.parent].signatures|
        && t.announcements[t.parent].signatures[i].signingPublicKey == root.publicKey;
    }
  }

  /** The next hop for traffic knows the key the frame is sent towards, or is it. */
  lemma NextHopKnowsBetter(net: Routers, root: Root, now: Time, bootstrap: bool, n: PublicKey, dest: PublicKey,
      key: PublicKey, next: PublicKey)
    requires Coherent(net, root, now, bootstrap) && n in net && (bootstrap || dest != n)
    requires IsSnekHop(net[n], now, dest, bootstrap, !bootstrap, key, Some(next))
    ensures next in net && KnowsOrIs(net[next], now, bootstrap, key)
  {
    hide Coherent, Known, Usable;
    NodesAreUnderRoot(net, root, now, bootstrap, n);
    var r := net[n];
    if key == n && next == n {
    } else if HasPeer(r.tree, key) && next == key {
      PeersAreNodes(net, root, now, bootstrap, n, key);
    } else if key == StartKey(r.tree, dest, bootstrap) {
      PeersAreNodes(net, root, now, bootstrap, n, r.tree.parent);
      SignersAreKnownUpstream(net, root, now, bootstrap, n, r.tree.parent, key);
    } else if IsAncestor(r, key) && next == r.tree.parent {
      SignersAreKnownUpstream(net, root, now, bootstrap, n, next, key);
    } else if HeardVia(r, key, next) {
      StoredArePeers(net, root, now, bootstrap, n, next);
      SignersAreKnownUpstream(net, root, now, bootstrap, n, next, key);
    } else {
      var idx :| idx in r.snek.paths && idx.publicKey == key && Usable(r.snek.paths[idx], now, bootstrap)
        && PeerOnPort(r.tree, r.snek.paths[idx].source) == Some(next);
      PathLeadsOn(net, root, now, bootstrap, n, idx, next);
    }
  }

  lemma PeersAreNodes(net: Routers, root: Root, now: Time, bootstrap: bool, n: PublicKey, m: PublicKey)
    requires Coherent(net, root, now, bootstrap) && n in net && HasPeer(net[n].tree, m)
    ensures m in net && net[m].tree.key == m
  {
    LinksGoBothWays(Trees(net), root, n, m);
    KeyedByNode(Trees(net), root, m);
  }

  lemma StoredArePeers(net: Routers, root: Root, now: Time, bootstrap: bool, n: PublicKey, m: PublicKey)
    requires Coherent(net, root, now, bootstrap) && n in net && m in net[n].tree.announcements
    ensures HasPeer(net[n].tree, m)
  {
  }

  lemma PathLeadsOn(net: Routers, root: Root, now: Time, bootstrap: bool, n: PublicKey, index: PathIndex,
      next: PublicKey)
    requires Coherent(net, root, now, bootstrap) && n in net && index in net[n].snek.paths
    requires Usable(net[n].snek.paths[index], now, bootstrap)
    requires PeerOnPort(net[n].tree, net[n].snek.paths[index].source) == Some(next)
    ensures next in net && KnowsOrIs(net[next], now, bootstrap, index.publicKey)
  {
    hide Valid;
    assert PathContinues(net, now, bootstrap, n, index);
    KeyedByNode(Trees(net), root, next);
    if next != index.publicKey {
      assert PathContinues(net, now, bootstrap, next, index);
      var on := PeerOnPort(net[next].tree, net[next].snek.paths[index].source);
      assert KnownVia(net[next], now, bootstrap, index.publicKey, on.value);
    }
  }

  // ---- Whole journeys ----

  /** Traffic for dest, or its bootstrap, goes along w, sent from each node but the last towards the key beside it. */
  ghost predicate IsJourney(net: Routers, now: Time, bootstrap: bool, dest: PublicKey, w: seq<PublicKey>,
      keys: seq<PublicKey>) {
    && |w| == |keys| + 1 && (forall i :: 0 <= i < |w| ==> w[i] in net)
    && forall i :: 0 <= i < |keys| ==> (
         && (bootstrap || w[i] != dest) && w[i + 1] != w[i]
         && IsSnekHop(net[w[i]], now, dest, bootstrap, !bootstrap, keys[i], Some(w[i + 1])))
  }

  /** The key a node sends a frame towards lies between the destination and the root. */
  lemma ChosenIsInRange(net: Routers, root: Root, now: Time, bootstrap: bool, n: PublicKey, dest: PublicKey,
      key: PublicKey, next: PublicKey)
    requires Coherent(net, root, now, bootstrap) && n in net && (bootstrap || dest != n)
    requires Past(bootstrap, dest, root.publicKey)
    requires IsSnekHop(net[n], now, dest, bootstrap, !bootstrap, key, Some(next)) && next != n
    ensures Past(bootstrap, dest, key) && key <= root.publicKey
  {
    NodesAreUnderRoot(net, root, now, bootstrap, n);
    hide Coherent;
  }

  /** Over a whole journey through a coherent network the keys never rise and never fall behind the destination, and
      whatever the last node then does keeps to that: traffic has arrived, or it chooses a key no higher than the last
      one. If that is its own key it knows none between the destination and its own; there traffic is dropped and a
      bootstrap answered. */
  lemma {:induction false} JourneyDoesNotDrift(net: Routers, root: Root, now: Time, bootstrap: bool, dest: PublicKey,
      w: seq<PublicKey>, keys: seq<PublicKey>, i: nat, key: PublicKey, hop: Option<PublicKey>)
    requires Coherent(net, root, now, bootstrap) && Past(bootstrap, dest, root.publicKey)
    requires IsJourney(net, now, bootstrap, dest, w, keys) && i < |keys| && (bootstrap || w[|keys|] != dest)
    requires IsSnekHop(net[w[|keys|]], now, dest, bootstrap, !bootstrap, key, hop)
    ensures Past(bootstrap, dest, key) && key <= keys[i] <= root.publicKey
    ensures key == w[|keys|] <==> hop == if bootstrap then Some(w[|keys|]) else None
    ensures key == w[|keys|] ==> forall k: PublicKey ::
      Known(net[key], now, bootstrap, k) && Past(bootstrap, dest, k) ==> key <= k
    decreases |keys| - i
  {
    hide Coherent, Known, IsSnekHop, Converged, Past;
    ChosenIsInRange(net, root, now, bootstrap, w[i], dest, keys[i], w[i + 1]);
    NextHopKnowsBetter(net, root, now, bootstrap, w[i], dest, keys[i], w[i + 1]);
    NodesAreUnderRoot(net, root, now, bootstrap, w[i + 1]);
    if i + 1 < |keys| {
      HopDoesNotDrift(net[w[i + 1]], root, now, bootstrap, dest, keys[i], keys[i + 1], Some(w[i + 2]));
      JourneyDoesNotDrift(net, root, now, bootstrap, dest, w, keys, i + 1, key, hop);
    } else {
      HopDoesNotDrift(net[w[i + 1]], root, now, bootstrap, dest, keys[i], key, hop);
    }
  }

  /** A path that was set up leads back to its origin: every node of its walk continues it, and all but the origin
      know the origin's key through it. */
  lemma InstalledPathLeadsHome(net: Routers, root: Root, now: Time, bootstrap: bool, w: seq<PublicKey>,
      index: PathIndex, i: nat)
    requires Converged(Trees(net), root) && Installed(net, w, index) && index.publicKey == w[0] && i < |w|
    requires forall n :: n in net && index in net[n].snek.paths ==> Valid(net[n].snek.paths[index], now)
    ensures w[i] in net && index in net[w[i]].snek.paths && PathContinues(net, now, bootstrap, w[i], index)
    ensures i > 0 ==> KnownVia(net[w[i]], now, bootstrap, w[0], w[i - 1])
  {
    hide Converged, Valid;
    assert EntryAt(net, w, index, i, 0);
    KeyedByNode(Trees(net), root, w[i]);
    if i > 0 {
      assert EntryAt(net, w, index, i - 1, 0);
      KeyedByNode(Trees(net), root, w[i - 1]);
      assert PeerOnPort(net[w[i]].tree, net[w[i]].snek.paths[index].source) == Some(w[i - 1]);
      assert Usable(net[w[i]].snek.paths[index], now, bootstrap);
    }
  }
}

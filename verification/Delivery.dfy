/** Keyspace routing delivers: once every node has its path to the next higher key, traffic for any key arrives
    there, and a bootstrap arrives at the next higher key after its origin's. */
module Delivery {
  import opened Types
  import opened Announcements
  import opened Tree
  import opened Snek
  import opened Network
  import opened PathSetup
  import opened Keyspace

  /** The path of one node: its walk through the tree and its index. */
  datatype Way = Way(walk: seq<PublicKey>, index: PathIndex)

  type Ways = map<PublicKey, Way>

  /** m has the next higher key after n. */
  ghost predicate IsSuccessor(net: Routers, n: PublicKey, m: PublicKey) {
    m in net && n < m && forall x :: x in net && n < x ==> m <= x
  }

  /** n's path to its successor is installed. */
  ghost predicate Linked(net: Routers, n: PublicKey, way: Way) {
    && |way.walk| > 1 && way.walk[0] == n && way.index.publicKey == n
    && IsSuccessor(net, n, way.walk[|way.walk| - 1])
    && Installed(net, way.walk, way.index)
  }

  /** The path at index in n's table is one of the given ways, unexpired if n carries it at all. */
  ghost predicate OnItsWay(net: Routers, now: Time, bootstrap: bool, ways: Ways, n: PublicKey, index: PathIndex)
    requires n in net && index in net[n].snek.paths
  {
    && (Usable(net[n].snek.paths[index], now, bootstrap) ==>
          index.publicKey in ways && ways[index.publicKey].index == index && n in ways[index.publicKey].walk)
    && (index.publicKey in ways && ways[index.publicKey].index == index ==> Valid(net[n].snek.paths[index], now))
  }

  /** The snake: the tree has converged, every node but the root has a path to its successor, and there are no other
      paths in use. */
  ghost predicate Snaked(net: Routers, root: Root, now: Time, bootstrap: bool, ways: Ways) {
    && Converged(Trees(net), root)
    && (forall n {:trigger RootIsStrongest(net[n].tree, root)} :: n in net ==> RootIsStrongest(net[n].tree, root))
    && ways.Keys == net.Keys - {root.publicKey}
    && (forall n {:trigger Linked(net, n, ways[n])} :: n in ways ==> Linked(net, n, ways[n]))
    && forall n, index {:trigger OnItsWay(net, now, bootstrap, ways, n, index)} ::
         n in net && index in net[n].snek.paths ==> OnItsWay(net, now, bootstrap, ways, n, index)
  }

  lemma WayOf(net: Routers, root: Root, now: Time, bootstrap: bool, ways: Ways, n: PublicKey, i: nat)
    requires Snaked(net, root, now, bootstrap, ways) && n in ways && i < |ways[n].walk|
    ensures Linked(net, n, ways[n]) && EntryAt(net, ways[n].walk, ways[n].index, i, 0)
    ensures ways[n].walk[i] in net && Valid(net[ways[n].walk[i]].snek.paths[ways[n].index], now)
  {
    var w, index := ways[n].walk, ways[n].index;
    assert Linked(net, n, ways[n]);
    assert EntryAt(net, w, index, i, 0);
    assert OnItsWay(net, now, bootstrap, ways, w[i], index);
  }

  /** Every node of a way but its origin can route back along it, to the node before. */
  lemma WayLeadsBack(net: Routers, root: Root, now: Time, bootstrap: bool, ways: Ways, n: PublicKey, i: nat)
    requires Snaked(net, root, now, bootstrap, ways) && n in ways && 0 < i < |ways[n].walk|
    ensures var w, index := ways[n].walk, ways[n].index;
            && w[i] in net && w[i - 1] in net && index in net[w[i]].snek.paths
            && Usable(net[w[i]].snek.paths[index], now, bootstrap)
            && PeerOnPort(net[w[i]].tree, net[w[i]].snek.paths[index].source) == Some(w[i - 1])
            && KnownVia(net[w[i]], now, bootstrap, n, w[i - 1])
  {
    hide Converged, Valid, Linked, OnItsWay, RootIsStrongest;
    var w, index := ways[n].walk, ways[n].index;
    WayOf(net, root, now, bootstrap, ways, n, i);
    WayOf(net, root, now, bootstrap, ways, n, i - 1);
    KeyedByNode(Trees(net), root, w[i]);
    assert index.publicKey == n by { LinkedParts(net, n, ways[n]); }
    assert PathVia(net[w[i]], now, bootstrap, n, w[i - 1]);
  }

  lemma LinkedParts(net: Routers, n: PublicKey, way: Way)
    requires Linked(net, n, way)
    ensures |way.walk| > 1 && way.walk[0] == n && way.index.publicKey == n
    ensures IsSuccessor(net, n, way.walk[|way.walk| - 1])
  {
  }

  lemma SnakedIsCoherent(net: Routers, root: Root, now: Time, bootstrap: bool, ways: Ways)
    requires Snaked(net, root, now, bootstrap, ways)
    ensures Coherent(net, root, now, bootstrap)
  {
    hide Converged, Valid, Linked, RootIsStrongest;
    forall n, index | n in net && index in net[n].snek.paths
      ensures PathContinues(net, now, bootstrap, n, index)
    {
      if Usable(net[n].snek.paths[index], now, bootstrap) {
        assert OnItsWay(net, now, bootstrap, ways, n, index);
        var origin := index.publicKey;
        var w := ways[origin].walk;
        var i :| 0 <= i < |w| && w[i] == n;
        WayOf(net, root, now, bootstrap, ways, origin, i);
        LinkedParts(net, origin, ways[origin]);
        WayLeadsBack(net, root, now, bootstrap, ways, origin, i);
        if i > 1 { WayLeadsBack(net, root, now, bootstrap, ways, origin, i - 1); }
      }
    }
  }

  // ---- There always is a hop ----

  /** Between any key and a higher one there is that one's predecessor. */
  lemma {:induction false} PredecessorExists(net: Routers, root: Root, now: Time, bootstrap: bool, ways: Ways,
      low: PublicKey, n: PublicKey)
    returns (p: PublicKey)
    requires Snaked(net, root, now, bootstrap, ways) && low in net && n in net && low < n
    ensures p in ways && low <= p < n && |ways[p].walk| > 1 && ways[p].walk[|ways[p].walk| - 1] == n
    decreases n - low
  {
    hide Converged, OnItsWay, Linked, RootIsStrongest;
    assert RootIsStrongest(net[n].tree, root) && RootIsStrongest(net[low].tree, root);
    NoneAboveRoot(net, root, now, bootstrap, ways, n);
    assert low in ways;
    LinkedParts(net, low, ways[low]);
    var next := ways[low].walk[|ways[low].walk| - 1];
    if next == n { p := low; } else { p := PredecessorExists(net, root, now, bootstrap, ways, next, n); }
  }

  lemma NoneAboveRoot(net: Routers, root: Root, now: Time, bootstrap: bool, ways: Ways, n: PublicKey)
    requires Snaked(net, root, now, bootstrap, ways) && n in net
    ensures n <= root.publicKey && net[n].tree.key == n && root.publicKey in net
  {
    hide Snaked, Converged, RootIsStrongest, PathsContinue, CurrentSignatures;
    SnakedIsCoherent(net, root, now, bootstrap, ways);
    NodesAreUnderRoot(net, root, now, bootstrap, n);
    assert n in Trees(net);
    RootStays(Trees(net), root, 0);
  }

  /** Where a frame for dest ends: traffic at dest itself, its bootstrap at the next higher key. */
  ghost predicate IsTarget(net: Routers, bootstrap: bool, dest: PublicKey, t: PublicKey) {
    dest in net && t in net && if bootstrap then IsSuccessor(net, dest, t) else t == dest
  }

  /** Off the target, a better key than our own is known, and there is a hop elsewhere. */
  lemma BetterKeyIsKnown(net: Routers, root: Root, now: Time, bootstrap: bool, ways: Ways, n: PublicKey,
      dest: PublicKey, t: PublicKey,
      key: PublicKey, hop: Option<PublicKey>)
    requires Snaked(net, root, now, bootstrap, ways) && n in net && IsTarget(net, bootstrap, dest, t) && n != t
    requires IsSnekHop(net[n], now, dest, bootstrap, !bootstrap, key, hop)
    ensures key != n && hop.Some? && hop.value != n
  {
    hide Snaked, KnownVia, LeadsTo;
    TargetIsInRange(net, root, now, bootstrap, ways, dest, t);
    NoneAboveRoot(net, root, now, bootstrap, ways, n);
    SnakedIsCoherent(net, root, now, bootstrap, ways);
    NodesAreUnderRoot(net, root, now, bootstrap, n);
    if dest < n {
      var p := PredecessorExists(net, root, now, bootstrap, ways, dest, n);
      WayLeadsBack(net, root, now, bootstrap, ways, p, |ways[p].walk| - 1);
      WayOf(net, root, now, bootstrap, ways, p, 0);
      LinkedParts(net, p, ways[p]);
      assert Known(net[n], now, bootstrap, p);
    } else if dest == root.publicKey {
      HeardIsKnown(net[n], now, bootstrap, dest);
    }
    HopForBetterKey(net, root, now, bootstrap, n, dest, key, hop);
  }

  lemma TargetIsInRange(net: Routers, root: Root, now: Time, bootstrap: bool, ways: Ways, dest: PublicKey, t: PublicKey)
    requires Snaked(net, root, now, bootstrap, ways) && IsTarget(net, bootstrap, dest, t)
    ensures Past(bootstrap, dest, t) && t <= root.publicKey
  {
    hide Snaked;
    NoneAboveRoot(net, root, now, bootstrap, ways, t);
  }

  /** A hop towards another key than our own goes elsewhere. */
  lemma HopForBetterKey(net: Routers, root: Root, now: Time, bootstrap: bool, n: PublicKey, dest: PublicKey,
      key: PublicKey, hop: Option<PublicKey>)
    requires Coherent(net, root, now, bootstrap) && n in net && (bootstrap || n != dest)
    requires IsSnekHop(net[n], now, dest, bootstrap, !bootstrap, key, hop) && key != n
    ensures hop.Some? && hop.value != n
  {
    hide Coherent, IsChosen, HasPeer, Heard, Valid;
    NodesAreUnderRoot(net, root, now, bootstrap, n);
    if hop.Some? && PathVia(net[n], now, bootstrap, key, hop.value) {
      SourceIsPeer(net[n], now, bootstrap, key, hop.value);
    }
  }

  lemma SourceIsPeer(r: RouterState, now: Time, bootstrap: bool, key: PublicKey, peer: PublicKey)
    requires PathVia(r, now, bootstrap, key, peer)
    ensures HasPeer(r.tree, peer)
  {
  }

  /** At the target the frame stays: nothing better is known. */
  lemma TargetKeepsFrame(net: Routers, root: Root, now: Time, bootstrap: bool, ways: Ways, dest: PublicKey,
      t: PublicKey,
      key: PublicKey, hop: Option<PublicKey>)
    requires Snaked(net, root, now, bootstrap, ways) && IsTarget(net, bootstrap, dest, t)
    requires IsSnekHop(net[t], now, dest, bootstrap, !bootstrap, key, hop)
    ensures hop == Some(t)
  {
    hide Snaked, Coherent, Known;
    NoneAboveRoot(net, root, now, bootstrap, ways, t);
    SnakedIsCoherent(net, root, now, bootstrap, ways);
    NodesAreUnderRoot(net, root, now, bootstrap, t);
    if bootstrap && Known(net[t], now, bootstrap, key) { KnownAreNodes(net, root, now, bootstrap, ways, t, key); }
  }

  // ---- And it is nearer ----

  /** Where n first comes on a walk. */
  function Place(w: seq<PublicKey>, n: PublicKey): (i: nat)
    requires n in w
    ensures i < |w| && w[i] == n && forall j :: 0 <= j < i ==> w[j] != n
  {
    if w[0] == n then 0 else 1 + Place(w[1..], n)
  }

  /** L bounds depths and walks. */
  ghost predicate Bounded(net: Routers, ways: Ways, L: nat) {
    && (forall n :: n in net ==> |CoordsAt(Trees(net), n)| < L)
    && forall k :: k in ways ==> |ways[k].walk| <= L
  }

  lemma {:induction false} DepthsAreBounded(net: Net, nodes: set<PublicKey>) returns (L: nat)
    requires nodes <= net.Keys
    ensures forall n :: n in nodes ==> |CoordsAt(net, n)| < L
    decreases nodes
  {
    L := 0;
    if nodes != {} {
      var n :| n in nodes;
      var rest := DepthsAreBounded(net, nodes - {n});
      L := if |CoordsAt(net, n)| < rest then rest else |CoordsAt(net, n)| + 1;
    }
  }

  lemma {:induction false} WalksAreBounded(ways: Ways, keys: set<PublicKey>) returns (L: nat)
    requires keys <= ways.Keys
    ensures forall k :: k in keys ==> |ways[k].walk| <= L
    decreases keys
  {
    L := 0;
    if keys != {} {
      var k :| k in keys;
      var rest := WalksAreBounded(ways, keys - {k});
      L := if |ways[k].walk| <= rest then rest else |ways[k].walk|;
    }
  }

  /** There always is such a bound. */
  lemma BoundExists(net: Routers, ways: Ways) returns (L: nat)
    ensures Bounded(net, ways, L)
  {
    hide CoordsAt;
    var depth := DepthsAreBounded(Trees(net), net.Keys);
    var length := WalksAreBounded(ways, ways.Keys);
    L := if depth <= length then length else depth;
  }

  /** How far n is from a key: up the tree to an ancestor; or first to a peer that announced it; or first back along
      its path. */
  ghost function Rank(net: Routers, ways: Ways, L: nat, n: PublicKey, key: PublicKey): (rank: nat)
    requires n in net && Bounded(net, ways, L)
    ensures rank < 2 * L + 1
  {
    if IsAncestor(net[n], key) then |CoordsAt(Trees(net), n)|
    else if Heard(net[n], key) then L
    else if key in ways && n in ways[key].walk then L + 1 + Place(ways[key].walk, n)
    else 0
  }

  /** Whoever stored a chain that key signed has it from a peer that is key or has key for an ancestor. */
  lemma HeardFromBelow(net: Routers, root: Root, now: Time, bootstrap: bool, n: PublicKey, m: PublicKey, key: PublicKey)
    requires Coherent(net, root, now, bootstrap) && n in net && HasPeer(net[n].tree, m) && HeardVia(net[n], key, m)
    requires key != m
    ensures m in net && IsAncestor(net[m], key)
  {
    hide PathsContinue, HasPeer, Converged;
    StoredSignatures(Trees(net), root, n, m);
    var sigs := net[n].tree.announcements[m].signatures;
    var i :| 0 <= i < |sigs| && sigs[i].signingPublicKey == key;
    assert CurrentSignatures(net[m].tree)[i] == sigs[..|sigs| - 1][i];
  }

  /** A hop towards a key that is not its own end is nearer to it. */
  lemma HopLowersRank(net: Routers, root: Root, now: Time, bootstrap: bool, ways: Ways, L: nat, n: PublicKey,
      dest: PublicKey, t: PublicKey,
      key: PublicKey, next: PublicKey)
    requires Snaked(net, root, now, bootstrap, ways) && Bounded(net, ways, L) && n in net
    requires IsTarget(net, bootstrap, dest, t) && n != t
    requires IsSnekHop(net[n], now, dest, bootstrap, !bootstrap, key, Some(next)) && next != key
    ensures next in net && Rank(net, ways, L, next, key) < Rank(net, ways, L, n, key)
  {
    hide Snaked, Coherent, IsChosen, PathVia, HasPeer, CoordsAt;
    SnakedIsCoherent(net, root, now, bootstrap, ways);
    NodesAreUnderRoot(net, root, now, bootstrap, n);
    BetterKeyIsKnown(net, root, now, bootstrap, ways, n, dest, t, key, Some(next));
    var r := net[n];
    if key == StartKey(r.tree, dest, bootstrap) || IsAncestor(r, key) {
      assert IsAncestor(r, key) && next == r.tree.parent;
      HeardFromBelow(net, root, now, bootstrap, n, next, key);
      ParentIsNearer(net, root, now, bootstrap, n);
    } else if Heard(r, key) {
      assert HeardVia(r, key, next);
      StoredArePeers(net, root, now, bootstrap, n, next);
      HeardFromBelow(net, root, now, bootstrap, n, next, key);
    } else {
      WayBackLowersRank(net, root, now, bootstrap, ways, L, n, key, next);
    }
  }

  lemma ParentIsNearer(net: Routers, root: Root, now: Time, bootstrap: bool, n: PublicKey)
    requires Coherent(net, root, now, bootstrap) && n in net && net[n].tree.parent != n
    ensures net[n].tree.parent in net && |CoordsAt(Trees(net), net[n].tree.parent)| < |CoordsAt(Trees(net), n)|
  {
    ParentIsAbove(Trees(net), root, n);
  }

  lemma WayBackLowersRank(net: Routers, root: Root, now: Time, bootstrap: bool, ways: Ways, L: nat, n: PublicKey,
      key: PublicKey, next: PublicKey)
    requires Snaked(net, root, now, bootstrap, ways) && Bounded(net, ways, L) && n in net
    requires !Heard(net[n], key) && PathVia(net[n], now, bootstrap, key, next)
    ensures next in net && Rank(net, ways, L, next, key) < Rank(net, ways, L, n, key)
  {
    hide Converged, Linked, RootIsStrongest, Valid, Heard, IsAncestor, CoordsAt, EntryAt;
    var index :| index in net[n].snek.paths && index.publicKey == key
      && Usable(net[n].snek.paths[index], now, bootstrap)
      && PeerOnPort(net[n].tree, net[n].snek.paths[index].source) == Some(next);
    assert OnItsWay(net, now, bootstrap, ways, n, index);
    var w := ways[key].walk;
    var i := Place(w, n);
    SourceIsNotOrigin(net, root, now, bootstrap, ways, key, i);
    WayLeadsBack(net, root, now, bootstrap, ways, key, i);
    PlaceIsFirst(w, next, i - 1);
    assert !IsAncestor(net[n], key) by { NotHeard(net[n], key); }
  }

  lemma NotHeard(r: RouterState, key: PublicKey)
    requires !Heard(r, key)
    ensures !IsAncestor(r, key)
  {
  }

  lemma SourceIsNotOrigin(net: Routers, root: Root, now: Time, bootstrap: bool, ways: Ways, key: PublicKey, i: nat)
    requires Snaked(net, root, now, bootstrap, ways) && key in ways && i < |ways[key].walk|
    ensures var w, index := ways[key].walk, ways[key].index;
            w[i] in net && index in net[w[i]].snek.paths && (i == 0 <==> net[w[i]].snek.paths[index].source == 0)
  {
    hide Converged, Linked, OnItsWay, RootIsStrongest;
    WayOf(net, root, now, bootstrap, ways, key, i);
  }

  lemma PlaceIsFirst(w: seq<PublicKey>, n: PublicKey, i: nat)
    requires i < |w| && w[i] == n
    ensures n in w && Place(w, n) <= i
  {
  }

  // ---- Delivery ----

  /** The nodes between the destination and the key a frame is sent towards. */
  function Between(net: Routers, dest: PublicKey, key: PublicKey): set<PublicKey> {
    set x | x in net && dest <= x <= key
  }

  /** What every hop lowers: first the key, then the way to it. */
  ghost function Measure(net: Routers, ways: Ways, L: nat, dest: PublicKey, n: PublicKey, key: PublicKey): nat
    requires n in net && Bounded(net, ways, L)
  {
    |Between(net, dest, key)| * (2 * L + 1) + Rank(net, ways, L, n, key)
  }

  lemma LowerKeyFewerBetween(net: Routers, dest: PublicKey, lower: PublicKey, key: PublicKey)
    requires key in net && dest <= key && lower < key
    ensures |Between(net, dest, lower)| < |Between(net, dest, key)|
  {
    assert key in Between(net, dest, key) - Between(net, dest, lower);
    SubsetIsSmaller(Between(net, dest, lower), Between(net, dest, key) - {key});
  }

  lemma {:induction false} SubsetIsSmaller(a: set<PublicKey>, b: set<PublicKey>)
    requires a <= b
    ensures |a| <= |b|
  {
    assert b == a + (b - a);
  }

  /** Signers are nodes. */
  lemma {:induction false} AncestorsAreNodes(net: Net, root: Root, n: PublicKey, key: PublicKey)
    requires Converged(net, root) && n in net && SignedBy(CurrentSignatures(net[n]), key)
    ensures key in net
    decreases |CurrentSignatures(net[n])|
  {
    assert NodeConverged(net, root, n);
    var p := net[n].parent;
    assert HasPeer(net[n], p);
    assert UpToDate(net, n, p);
    var sigs := CurrentSignatures(net[n]);
    var i :| 0 <= i < |sigs| && sigs[i].signingPublicKey == key;
    if i < |sigs| - 1 {
      assert CurrentSignatures(net[p])[i] == sigs[..|sigs| - 1][i];
      AncestorsAreNodes(net, root, p, key);
    }
  }

  lemma KnownAreNodes(net: Routers, root: Root, now: Time, bootstrap: bool, ways: Ways, n: PublicKey, key: PublicKey)
    requires Snaked(net, root, now, bootstrap, ways) && n in net && Known(net[n], now, bootstrap, key)
    ensures key in net
  {
    hide Converged, Linked, Usable;
    var r := net[n];
    var peer :| KnownVia(r, now, bootstrap, key, peer);
    if IsAncestor(r, key) {
      AncestorsAreNodes(Trees(net), root, n, key);
    } else if HeardVia(r, key, peer) {
      SnakedIsCoherent(net, root, now, bootstrap, ways);
      StoredArePeers(net, root, now, bootstrap, n, peer);
      PeersAreNodes(net, root, now, bootstrap, n, peer);
      if key != peer {
        HeardFromBelow(net, root, now, bootstrap, n, peer, key);
        AncestorsAreNodes(Trees(net), root, peer, key);
      }
    } else {
      var index :| index in r.snek.paths && index.publicKey == key && Usable(r.snek.paths[index], now, bootstrap)
        && PeerOnPort(r.tree, r.snek.paths[index].source) == Some(peer);
      assert OnItsWay(net, now, bootstrap, ways, n, index);
    }
  }

  /** The key chosen off the target is some node's, between the destination and the root. */
  lemma ChosenIsNode(net: Routers, root: Root, now: Time, bootstrap: bool, ways: Ways, n: PublicKey, dest: PublicKey,
      t: PublicKey,
      key: PublicKey, next: PublicKey)
    requires Snaked(net, root, now, bootstrap, ways) && n in net && IsTarget(net, bootstrap, dest, t) && n != t
    requires IsSnekHop(net[n], now, dest, bootstrap, !bootstrap, key, Some(next))
    ensures key in net && Past(bootstrap, dest, key) && key <= root.publicKey && next in net
  {
    hide Snaked, Coherent, Known, LeadsTo;
    SnakedIsCoherent(net, root, now, bootstrap, ways);
    TargetIsInRange(net, root, now, bootstrap, ways, dest, t);
    NoneAboveRoot(net, root, now, bootstrap, ways, n);
    NodesAreUnderRoot(net, root, now, bootstrap, n);
    BetterKeyIsKnown(net, root, now, bootstrap, ways, n, dest, t, key, Some(next));
    ChosenIsInRange(net, root, now, bootstrap, n, dest, key, next);
    NextHopKnowsBetter(net, root, now, bootstrap, n, dest, key, next);
    if Known(net[n], now, bootstrap, key) { KnownAreNodes(net, root, now, bootstrap, ways, n, key); }
  }

  /** One hop that does not yet deliver lowers the measure. */
  lemma HopLowersMeasure(net: Routers, root: Root, now: Time, bootstrap: bool, ways: Ways, L: nat, dest: PublicKey,
      t: PublicKey,
      n: PublicKey, key: PublicKey, next: PublicKey, key': PublicKey, hop': Option<PublicKey>)
    requires Snaked(net, root, now, bootstrap, ways) && Bounded(net, ways, L) && n in net
    requires IsTarget(net, bootstrap, dest, t) && n != t
    requires IsSnekHop(net[n], now, dest, bootstrap, !bootstrap, key, Some(next))
    requires next in net && next != t && IsSnekHop(net[next], now, dest, bootstrap, !bootstrap, key', hop')
    ensures Measure(net, ways, L, dest, next, key') < Measure(net, ways, L, dest, n, key)
  {
    hide Snaked, Coherent, Known, IsSnekHop, Rank, Bounded, Between;
    SnakedIsCoherent(net, root, now, bootstrap, ways);
    ChosenIsNode(net, root, now, bootstrap, ways, n, dest, t, key, next);
    NextHopKnowsBetter(net, root, now, bootstrap, n, dest, key, next);
    NodesAreUnderRoot(net, root, now, bootstrap, next);
    HopDoesNotDrift(net[next], root, now, bootstrap, dest, key, key', hop');
    BetterKeyIsKnown(net, root, now, bootstrap, ways, next, dest, t, key', hop');
    if key' == key {
      HopLowersRank(net, root, now, bootstrap, ways, L, n, dest, t, key, next);
    } else {
      LowerKeyFewerBetween(net, dest, key', key);
      var fewer, more, unit := |Between(net, dest, key')|, |Between(net, dest, key)|, 2 * L + 1;
      assert fewer * unit + unit <= more * unit by { MoreIsMore(fewer + 1, more, unit); }
    }
  }

  /** A journey does not go on from its target. */
  lemma JourneyAvoidsTarget(net: Routers, root: Root, now: Time, bootstrap: bool, ways: Ways, dest: PublicKey,
      t: PublicKey,
      w: seq<PublicKey>, keys: seq<PublicKey>, i: nat)
    requires Snaked(net, root, now, bootstrap, ways) && IsTarget(net, bootstrap, dest, t)
    requires IsJourney(net, now, bootstrap, dest, w, keys) && i < |keys|
    ensures w[i] != t
  {
    hide Snaked, IsSnekHop;
    if w[i] == t { TargetKeepsFrame(net, root, now, bootstrap, ways, dest, t, keys[i], Some(w[i + 1])); }
  }

  lemma {:induction false} JourneyLowersMeasure(net: Routers, root: Root, now: Time, bootstrap: bool, ways: Ways,
      L: nat, dest: PublicKey,
      t: PublicKey, w: seq<PublicKey>, keys: seq<PublicKey>, i: nat)
    requires Snaked(net, root, now, bootstrap, ways) && Bounded(net, ways, L) && IsTarget(net, bootstrap, dest, t)
    requires IsJourney(net, now, bootstrap, dest, w, keys) && i < |keys|
    ensures Measure(net, ways, L, dest, w[i], keys[i]) + i <= Measure(net, ways, L, dest, w[0], keys[0])
  {
    hide Snaked, IsSnekHop, Measure, Bounded, IsTarget;
    if i > 0 {
      JourneyLowersMeasure(net, root, now, bootstrap, ways, L, dest, t, w, keys, i - 1);
      JourneyAvoidsTarget(net, root, now, bootstrap, ways, dest, t, w, keys, i - 1);
      JourneyAvoidsTarget(net, root, now, bootstrap, ways, dest, t, w, keys, i);
      HopLowersMeasure(net, root, now, bootstrap, ways, L, dest, t, w[i - 1], keys[i - 1], w[i], keys[i],
        Some(w[i + 1]));
    }
  }

  /** No journey is longer than this. */
  function Limit(net: Routers, L: nat): nat {
    |net| * (2 * L + 1)
  }

  lemma JourneyIsShort(net: Routers, root: Root, now: Time, bootstrap: bool, ways: Ways, L: nat, dest: PublicKey,
      t: PublicKey,
      w: seq<PublicKey>, keys: seq<PublicKey>)
    requires Snaked(net, root, now, bootstrap, ways) && Bounded(net, ways, L) && IsTarget(net, bootstrap, dest, t)
    requires IsJourney(net, now, bootstrap, dest, w, keys)
    ensures |keys| <= Limit(net, L)
  {
    hide Snaked, IsSnekHop, Bounded, Rank, IsTarget;
    if keys != [] {
      var last := |keys| - 1;
      JourneyLowersMeasure(net, root, now, bootstrap, ways, L, dest, t, w, keys, last);
      JourneyAvoidsTarget(net, root, now, bootstrap, ways, dest, t, w, keys, last);
      ChosenIsNode(net, root, now, bootstrap, ways, w[last], dest, t, keys[last], w[last + 1]);
      assert keys[last] in Between(net, dest, keys[last]);
      SubsetIsSmaller(Between(net, dest, keys[0]), net.Keys);
      SubsetIsSmaller({keys[last]}, Between(net, dest, keys[last]));
      MoreIsMore(|Between(net, dest, keys[0])|, |net|, 2 * L + 1);
      MoreIsMore(1, |Between(net, dest, keys[last])|, 2 * L + 1);
    }
  }

  lemma MoreIsMore(a: nat, b: nat, unit: nat)
    requires a <= b
    ensures a * unit <= b * unit
  {
  }

  /** Keyspace routing delivers. In a network with its snake, however the tables are visited, a journey of traffic
      for a node, or of a node's bootstrap, is no longer than the number of nodes times twice the greatest depth or
      path length. Wherever the frame is, it is either at its target, that node or its successor, and stays there, or
      there is a next hop and the journey goes on. */
  lemma SnekRoutingDelivers(net: Routers, root: Root, now: Time, bootstrap: bool, ways: Ways, L: nat, dest: PublicKey,
      t: PublicKey,
      w: seq<PublicKey>, keys: seq<PublicKey>, key: PublicKey, hop: Option<PublicKey>)
    requires Snaked(net, root, now, bootstrap, ways) && Bounded(net, ways, L) && IsTarget(net, bootstrap, dest, t)
    requires IsJourney(net, now, bootstrap, dest, w, keys)
    requires IsSnekHop(net[w[|keys|]], now, dest, bootstrap, !bootstrap, key, hop)
    ensures |keys| <= Limit(net, L)
    ensures hop.Some? && (hop.value == w[|keys|] <==> w[|keys|] == t)
    ensures w[|keys|] != t ==> IsJourney(net, now, bootstrap, dest, w + [hop.value], keys + [key])
  {
    hide Snaked, Bounded, Coherent, Limit, IsSnekHop;
    JourneyIsShort(net, root, now, bootstrap, ways, L, dest, t, w, keys);
    var last := w[|keys|];
    if last == t {
      TargetKeepsFrame(net, root, now, bootstrap, ways, dest, t, key, hop);
    } else {
      BetterKeyIsKnown(net, root, now, bootstrap, ways, last, dest, t, key, hop);
      ChosenIsNode(net, root, now, bootstrap, ways, last, dest, t, key, hop.value);
    }
  }

  // ---- Whole journeys exist ----

  /** The least known key in a range. */
  lemma {:induction false} LeastKnown(r: RouterState, now: Time, bootstrap: bool, dest: PublicKey, key: PublicKey)
    returns (least: PublicKey)
    requires Known(r, now, bootstrap, key) && dest < key
    ensures Known(r, now, bootstrap, least) && dest < least <= key
    ensures forall k: PublicKey :: Known(r, now, bootstrap, k) && dest < k ==> least <= k
    decreases key
  {
    hide Known;
    if k: PublicKey :| Known(r, now, bootstrap, k) && dest < k < key {
      least := LeastKnown(r, now, bootstrap, dest, k);
    } else {
      least := key;
    }
  }

  /** Whatever a router knows, keyspace routing chooses something. */
  lemma SnekHopExists(r: RouterState, now: Time, bootstrap: bool, dest: PublicKey)
    returns (key: PublicKey, hop: Option<PublicKey>)
    ensures IsSnekHop(r, now, dest, bootstrap, !bootstrap, key, hop)
  {
    if !bootstrap && r.tree.key == dest { return dest, Some(dest); }
    var start := StartKey(r.tree, dest, bootstrap);
    if !bootstrap && Known(r, now, bootstrap, dest) {
      key := dest;
    } else if k: PublicKey :| Known(r, now, bootstrap, k) && dest < k < start {
      key := LeastKnown(r, now, bootstrap, dest, k);
    } else {
      key := start;
    }
    assert IsChosen(r, now, dest, bootstrap, key);
    hide IsChosen;
    if HasPeer(r.tree, key) && (key == start || Heard(r, key)) {
      hop := Some(key);
    } else if key == start {
      hop := if TowardsRoot(r.tree, dest, bootstrap) then Some(r.tree.parent) else if bootstrap then Some(r.tree.key)
        else None;
    } else if IsAncestor(r, key) {
      hop := Some(r.tree.parent);
    } else {
      var peer :| KnownVia(r, now, bootstrap, key, peer);
      hop := Some(peer);
      if Heard(r, key) && !HeardVia(r, key, peer) {
        var p :| HeardVia(r, key, p);
        hop := Some(p);
      }
    }
  }

  /** From any node there is a complete journey to the target. */
  lemma {:induction false} CompleteJourney(net: Routers, root: Root, now: Time, bootstrap: bool, ways: Ways, L: nat,
      dest: PublicKey, t: PublicKey,
      w: seq<PublicKey>, keys: seq<PublicKey>)
    returns (w': seq<PublicKey>, keys': seq<PublicKey>)
    requires Snaked(net, root, now, bootstrap, ways) && Bounded(net, ways, L) && IsTarget(net, bootstrap, dest, t)
    requires IsJourney(net, now, bootstrap, dest, w, keys)
    ensures IsJourney(net, now, bootstrap, dest, w', keys') && w <= w' && w'[|keys'|] == t && |keys'| <= Limit(net, L)
    decreases Limit(net, L) + 1 - |keys|
  {
    hide Snaked, Bounded, IsSnekHop, Limit, IsTarget;
    var key, hop := SnekHopExists(net[w[|keys|]], now, bootstrap, dest);
    SnekRoutingDelivers(net, root, now, bootstrap, ways, L, dest, t, w, keys, key, hop);
    if w[|keys|] == t {
      w', keys' := w, keys;
    } else {
      w', keys' := CompleteJourney(net, root, now, bootstrap, ways, L, dest, t, w + [hop.value], keys + [key]);
    }
  }

  // ---- The hypotheses describe something ----

  /** The pair of nodes, joined by one path. */
  function JoinedPair(): Routers {
    var index := PathIndex(1, 4);
    var low, high := Path(index, 2, 2, 0, 7, 0, Root(2, 0), true), Path(index, 1, 2, 5, 0, 0, Root(2, 0), true);
    PairOf(
      SnekState(Some(low), None, map[index := low], None, multiset{}),
      SnekState(None, Some(high), map[index := high], None, multiset{}))
  }

  lemma SnakedNetworkExists(bootstrap: bool)
    ensures var ways := map[1 := Way([1, 2], PathIndex(1, 4))];
            Snaked(JoinedPair(), Root(2, 0), 0, bootstrap, ways) && Bounded(JoinedPair(), ways, 2)
  {
    hide JoinedPair, Pair, Converged, CoordsAt, Linked, OnItsWay, RootIsStrongest;
    ConvergedNetworkExists();
    PairIsJoined();
    PairIsLinked();
    PairIsOnItsWay(bootstrap);
  }

  lemma PairIsJoined()
    ensures var net := JoinedPair();
            && Trees(net) == Pair() && net.Keys == {1, 2}
            && RootIsStrongest(net[1].tree, Root(2, 0)) && RootIsStrongest(net[2].tree, Root(2, 0))
  {
    hide HasPeer, Converged;
    var net := JoinedPair();
    ConvergedNetworkExists();
    PairTrees(net[1].snek, net[2].snek);
    assert net[1].tree.announcements[2].signatures[0].signingPublicKey == 2;
    assert net[2].tree.announcements[1].signatures[0].signingPublicKey == 2;
  }

  lemma PairIsLinked()
    ensures Linked(JoinedPair(), 1, Way([1, 2], PathIndex(1, 4)))
  {
  }

  lemma PairIsOnItsWay(bootstrap: bool)
    ensures var net, ways := JoinedPair(), map[1 := Way([1, 2], PathIndex(1, 4))];
            forall n, index :: n in net && index in net[n].snek.paths ==> OnItsWay(net, 0, bootstrap, ways, n, index)
  {
  }
}

/** Greedy tree routing over a whole network: coordinates identify nodes, and every frame is delivered. */
module Network {
  import opened Types
  import opened Coordinates
  import opened Announcements
  import opened Tree

  type Net = map<PublicKey, TreeState>

  /** What n has stored from its peer m is m's current announcement with m's signature and the port m gave n. */
  ghost predicate UpToDate(net: Net, n: PublicKey, m: PublicKey)
    requires n in net && m in net
  {
    && m in net[n].announcements
    && var sigs := net[n].announcements[m].signatures;
    && |sigs| == |CurrentSignatures(net[m])| + 1
    && sigs[..|sigs| - 1] == CurrentSignatures(net[m])
    && sigs[|sigs| - 1].signingPublicKey == m
    && IsPortOf(net[m], n, sigs[|sigs| - 1].destinationPort)
    && net[n].announcements[m].root == CurrentRoot(net[m])
  }

  ghost predicate NodeConverged(net: Net, root: Root, n: PublicKey)
    requires n in net
  {
    && net[n].key == n && n !in net[n].announcements && !HasPeer(net[n], n) && Signed(net[n])
    && CurrentRoot(net[n]) == root
    && (net[n].parent == n || HasPeer(net[n], net[n].parent))
    && forall m :: HasPeer(net[n], m) ==> m in net && HasPeer(net[m], n) && UpToDate(net, n, m)
  }

  /** Links go both ways, all nodes follow one root, each through itself or a peer, and all announcements are
      current. */
  ghost predicate Converged(net: Net, root: Root) {
    forall n {:trigger NodeConverged(net, root, n)} :: n in net ==> NodeConverged(net, root, n)
  }

  function CoordsAt(net: Net, n: PublicKey): Coords
    requires n in net
  {
    OwnCoords(net[n])
  }

  /** A peer's stored announcement tells its coordinates. */
  lemma SenderCoordsAreItsOwn(net: Net, root: Root, n: PublicKey, m: PublicKey)
    requires Converged(net, root) && n in net && HasPeer(net[n], m)
    ensures m in net && m in net[n].announcements && net[n].announcements[m].signatures != []
    ensures SenderCoords(net[n].announcements[m]) == CoordsAt(net, m)
    ensures net[n].announcements[m].root == root
  {
    assert NodeConverged(net, root, n);
    assert UpToDate(net, n, m);
    assert NodeConverged(net, root, m);
  }

  /** The signatures n stored from m: those m follows, and m's own. */
  lemma StoredSignatures(net: Net, root: Root, n: PublicKey, m: PublicKey)
    requires Converged(net, root) && n in net && HasPeer(net[n], m)
    ensures m in net && net[m].key == m && m !in net[m].announcements && m in net[n].announcements
    ensures var sigs := net[n].announcements[m].signatures;
            sigs != [] && sigs[..|sigs| - 1] == CurrentSignatures(net[m]) && sigs[|sigs| - 1].signingPublicKey == m
  {
    assert NodeConverged(net, root, n);
    assert UpToDate(net, n, m);
    assert NodeConverged(net, root, m);
  }

  /** Below the root, a node's coordinates are its parent's and the port the parent gave it. */
  lemma ParentIsAbove(net: Net, root: Root, n: PublicKey)
    requires Converged(net, root) && n in net && net[n].parent != n
    ensures var p := net[n].parent; var c := CoordsAt(net, n);
            && p in net && HasPeer(net[n], p) && c != [] && c[..|c| - 1] == CoordsAt(net, p)
            && IsPortOf(net[p], n, c[|c| - 1])
  {
    var p := net[n].parent;
    assert NodeConverged(net, root, n);
    assert UpToDate(net, n, p);
  }

  /** A node that is its own parent has no coordinates and is the root. */
  lemma RootIsOnTop(net: Net, root: Root, n: PublicKey)
    requires Converged(net, root) && n in net && net[n].parent == n
    ensures CoordsAt(net, n) == [] && n == root.publicKey
  {
    assert NodeConverged(net, root, n);
  }

  lemma KeyedByNode(net: Net, root: Root, n: PublicKey)
    requires Converged(net, root) && n in net
    ensures net[n].key == n && !HasPeer(net[n], n)
  {
    assert NodeConverged(net, root, n);
  }

  /** Coordinates identify nodes. */
  lemma {:induction false} CoordsIdentify(net: Net, root: Root, a: PublicKey, b: PublicKey)
    requires Converged(net, root) && a in net && b in net && CoordsAt(net, a) == CoordsAt(net, b)
    ensures a == b
    decreases |CoordsAt(net, a)|
  {
    hide Converged, CoordsAt, CurrentSignatures;
    if net[a].parent == a { RootIsOnTop(net, root, a); } else { ParentIsAbove(net, root, a); }
    if net[b].parent == b { RootIsOnTop(net, root, b); } else { ParentIsAbove(net, root, b); }
    if net[a].parent != a && net[b].parent != b {
      var p := net[a].parent;
      CoordsIdentify(net, root, p, net[b].parent);
      // One port of the parent, one peer.
      KeyedByNode(net, root, p);
      KeyedByNode(net, root, a);
      KeyedByNode(net, root, b);
    }
  }

  /** Following parent pointers k times. */
  function Up(net: Net, n: PublicKey, k: nat): PublicKey
    decreases k
  {
    if k == 0 || n !in net then n else Up(net, net[n].parent, k - 1)
  }

  /** Each parent pointer takes one port off the end of the coordinates. */
  lemma {:induction false} UpDropsPorts(net: Net, root: Root, n: PublicKey, k: nat)
    requires Converged(net, root) && n in net && k <= |CoordsAt(net, n)|
    ensures Up(net, n, k) in net && CoordsAt(net, Up(net, n, k)) == CoordsAt(net, n)[..|CoordsAt(net, n)| - k]
    decreases k
  {
    hide Converged, CoordsAt;
    var c := CoordsAt(net, n);
    if k > 0 {
      if net[n].parent == n { RootIsOnTop(net, root, n); }
      ParentIsAbove(net, root, n);
      UpDropsPorts(net, root, net[n].parent, k - 1);
      assert c[..|c| - 1][..|c| - k] == c[..|c| - k];
    } else {
      assert c[..|c| - k] == c;
    }
  }

  /** Parent pointers lead from every node to the root in exactly as many steps as it has coordinates. */
  lemma DepthIsCoordinateLength(net: Net, root: Root, n: PublicKey, k: nat)
    requires Converged(net, root) && n in net && k <= |CoordsAt(net, n)|
    ensures Up(net, n, |CoordsAt(net, n)|) == root.publicKey
    ensures Up(net, n, k) == root.publicKey <==> k == |CoordsAt(net, n)|
  {
    hide Converged, CoordsAt;
    UpDropsPorts(net, root, n, |CoordsAt(net, n)|);
    UpDropsPorts(net, root, n, k);
    var top := Up(net, n, |CoordsAt(net, n)|);
    if net[top].parent != top { ParentIsAbove(net, root, top); }
    RootIsOnTop(net, root, top);
  }

  /** Parent pointers are acyclic: no node but the root, which is its own parent, is among its own ancestors. */
  lemma ParentsAreAcyclic(net: Net, root: Root, n: PublicKey, k: nat)
    requires Converged(net, root) && n in net && k > 0
    ensures Up(net, n, k) == n <==> n == root.publicKey
  {
    hide Converged, CoordsAt;
    var depth := |CoordsAt(net, n)|;
    RootStays(net, root, 0);
    if k <= depth {
      UpDropsPorts(net, root, n, k);
    } else {
      DepthIsCoordinateLength(net, root, n, depth);
      RootStays(net, root, k - depth);
      UpSplits(net, root, n, depth, k - depth);
    }
  }

  lemma {:induction false} RootStays(net: Net, root: Root, k: nat)
    requires Converged(net, root) && net != map[]
    ensures root.publicKey in net && net[root.publicKey].parent == root.publicKey && CoordsAt(net, root.publicKey) == []
    ensures Up(net, root.publicKey, k) == root.publicKey
  {
    hide Converged, CoordsAt;
    var n :| n in net;
    UpDropsPorts(net, root, n, |CoordsAt(net, n)|);
    DepthIsCoordinateLength(net, root, n, 0);
    var top := root.publicKey;
    if net[top].parent != top { ParentIsAbove(net, root, top); }
    if k > 0 { RootStays(net, root, k - 1); }
  }

  lemma {:induction false} UpSplits(net: Net, root: Root, n: PublicKey, j: nat, k: nat)
    requires Converged(net, root) && n in net
    ensures Up(net, n, j + k) == Up(net, Up(net, n, j), k)
    decreases j
  {
    hide Converged, CoordsAt;
    if j > 0 {
      if net[n].parent == n { RootIsOnTop(net, root, n); } else { ParentIsAbove(net, root, n); }
      UpSplits(net, root, net[n].parent, j - 1, k);
    }
  }

  /** Some neighbour is closer to any node that is not us: the child on the way down, or else our parent. */
  lemma SomePeerIsCloser(net: Net, root: Root, n: PublicKey, t: PublicKey) returns (m: PublicKey)
    requires Converged(net, root) && n in net && t in net && n != t
    ensures HasPeer(net[n], m) && m in net && m != n
    ensures Distance(CoordsAt(net, m), CoordsAt(net, t)) < Distance(CoordsAt(net, n), CoordsAt(net, t))
  {
    hide Converged, CoordsAt, Distance, CommonPrefix;
    var c, d := CoordsAt(net, n), CoordsAt(net, t);
    if |c| <= |d| && d[..|c|] == c {
      if |c| == |d| { assert c == d; CoordsIdentify(net, root, n, t); }
      UpDropsPorts(net, root, t, |d| - |c| - 1);
      m := Up(net, t, |d| - |c| - 1);
      if net[m].parent == m { RootIsOnTop(net, root, m); }
      ParentIsAbove(net, root, m);
      assert d[..|c| + 1][..|c|] == c;
      CoordsIdentify(net, root, net[m].parent, n);
      LinksGoBothWays(net, root, m, n);
      DownIsCloser(c, d);
    } else {
      if net[n].parent == n { RootIsOnTop(net, root, n); }
      ParentIsAbove(net, root, n);
      m := net[n].parent;
      UpIsCloser(c, d);
    }
    KeyedByNode(net, root, n);
  }

  lemma LinksGoBothWays(net: Net, root: Root, n: PublicKey, m: PublicKey)
    requires Converged(net, root) && n in net && HasPeer(net[n], m)
    ensures m in net && HasPeer(net[m], n)
  {
    assert NodeConverged(net, root, n);
  }

  // ---- Delivery ----

  /** The sender a node sees: the node before it on the walk, or itself at the start. */
  function Sender(w: seq<PublicKey>, i: nat): PublicKey
    requires i < |w|
  {
    if i == 0 then w[0] else w[i - 1]
  }

  /** A frame for coordinates dest travels along w, each node handing it to a hop `next_tree_hop` may return. */
  ghost predicate IsWalk(net: Net, dest: Coords, w: seq<PublicKey>) {
    && w != [] && (forall i :: 0 <= i < |w| ==> w[i] in net)
    && forall i :: 0 < i < |w| ==> w[i] != w[i - 1] && IsTreeHop(net[w[i - 1]], dest, Sender(w, i - 1), Some(w[i]))
  }

  /** A hop goes strictly closer, and not going back where the frame came from never costs the last hop. */
  lemma HopMakesProgress(net: Net, root: Root, n: PublicKey, t: PublicKey, from: PublicKey, hop: Option<PublicKey>)
    requires Converged(net, root) && n in net && t in net && n != t
    requires from == n || (from in net
      && Distance(CoordsAt(net, n), CoordsAt(net, t)) < Distance(CoordsAt(net, from), CoordsAt(net, t)))
    requires IsTreeHop(net[n], CoordsAt(net, t), from, hop)
    ensures hop.Some? && hop.value in net && HasPeer(net[n], hop.value) && hop.value != n
    ensures Distance(CoordsAt(net, hop.value), CoordsAt(net, t)) < Distance(CoordsAt(net, n), CoordsAt(net, t))
  {
    hide Converged, Distance;
    var d := CoordsAt(net, t);
    if CoordsAt(net, n) == d { CoordsIdentify(net, root, n, t); }
    var m := SomePeerIsCloser(net, root, n, t);
    SenderCoordsAreItsOwn(net, root, n, m);
    RootIsShared(net, root, n);
    DistanceIsMetric(d, CoordsAt(net, n), d);
    assert Closer(net[n], d, from, m);
    SenderCoordsAreItsOwn(net, root, n, hop.value);
    KeyedByNode(net, root, n);
  }

  lemma RootIsShared(net: Net, root: Root, n: PublicKey)
    requires Converged(net, root) && n in net
    ensures CurrentRoot(net[n]) == root && Signed(net[n])
  {
    assert NodeConverged(net, root, n);
  }

  /** Along a walk towards a node, every node but that one is strictly farther away than the next. */
  lemma {:induction false} WalkCloses(net: Net, root: Root, t: PublicKey, w: seq<PublicKey>, i: nat)
    requires Converged(net, root) && t in net && IsWalk(net, CoordsAt(net, t), w) && i < |w|
    ensures i > 0
      ==> w[i - 1] != t
          && Distance(CoordsAt(net, w[i]), CoordsAt(net, t)) < Distance(CoordsAt(net, w[i - 1]), CoordsAt(net, t))
    ensures Distance(CoordsAt(net, w[i]), CoordsAt(net, t)) + i <= Distance(CoordsAt(net, w[0]), CoordsAt(net, t))
  {
    hide Converged, Distance, CommonPrefix;
    if i > 0 {
      WalkCloses(net, root, t, w, i - 1);
      if w[i - 1] == t {
        KeyedByNode(net, root, t);
        assert false;
      }
      HopMakesProgress(net, root, w[i - 1], t, Sender(w, i - 1), Some(w[i]));
    }
  }

  /** Greedy routing delivers. However ties are broken, a frame for a node's coordinates has made at most distance
      many hops, none of them from that node; wherever it is, it is either there and delivered, or there is a next
      hop and the walk goes on. */
  lemma GreedyRoutingDelivers(net: Net, root: Root, t: PublicKey, w: seq<PublicKey>, hop: Option<PublicKey>)
    requires Converged(net, root) && t in net && IsWalk(net, CoordsAt(net, t), w)
    requires IsTreeHop(net[w[|w| - 1]], CoordsAt(net, t), Sender(w, |w| - 1), hop)
    ensures |w| - 1 <= Distance(CoordsAt(net, w[0]), CoordsAt(net, t))
    ensures hop.Some?
    ensures hop.value == w[|w| - 1] <==> w[|w| - 1] == t
    ensures w[|w| - 1] != t ==> IsWalk(net, CoordsAt(net, t), w + [hop.value])
  {
    hide Converged, Distance, CommonPrefix, IsTreeHop, OwnCoords;
    var last := w[|w| - 1];
    WalkCloses(net, root, t, w, |w| - 1);
    KeyedByNode(net, root, last);
    if last == t {
      HopAtHome(net[t], CoordsAt(net, t), Sender(w, |w| - 1), hop);
    } else {
      HopMakesProgress(net, root, last, t, Sender(w, |w| - 1), hop);
      var longer := w + [hop.value];
      forall i | 0 < i < |longer|
        ensures longer[i] != longer[i - 1]
        ensures IsTreeHop(net[longer[i - 1]], CoordsAt(net, t), Sender(longer, i - 1), Some(longer[i]))
      {
        assert Sender(longer, i - 1) == Sender(w, i - 1);
      }
    }
  }

  /** A walk visits no node twice. */
  lemma {:induction false} WalkVisitsOnce(net: Net, root: Root, t: PublicKey, w: seq<PublicKey>, i: nat, j: nat)
    requires Converged(net, root) && t in net && IsWalk(net, CoordsAt(net, t), w) && i < j < |w|
    ensures w[i] != w[j]
    ensures Distance(CoordsAt(net, w[j]), CoordsAt(net, t)) < Distance(CoordsAt(net, w[i]), CoordsAt(net, t))
  {
    hide Converged, Distance, CommonPrefix;
    WalkCloses(net, root, t, w, j);
    if i < j - 1 { WalkVisitsOnce(net, root, t, w, i, j - 1); }
  }

  /** From any node to any node there is a complete walk. */
  lemma {:induction false} CompleteWalk(net: Net, root: Root, t: PublicKey, start: seq<PublicKey>)
    returns (w: seq<PublicKey>)
    requires Converged(net, root) && t in net && IsWalk(net, CoordsAt(net, t), start)
    ensures IsWalk(net, CoordsAt(net, t), w) && start <= w && w[|w| - 1] == t
    ensures |w| - 1 <= Distance(CoordsAt(net, w[0]), CoordsAt(net, t))
    decreases Distance(CoordsAt(net, start[0]), CoordsAt(net, t)) + 1 - |start|
  {
    hide Converged, IsTreeHop, Distance, CommonPrefix;
    var last := start[|start| - 1];
    RootIsShared(net, root, last);
    var hop := TreeHop(net[last], CoordsAt(net, t), Sender(start, |start| - 1));
    GreedyRoutingDelivers(net, root, t, start, hop);
    if last == t {
      w := start;
    } else {
      var longer := start + [hop.value];
      assert longer[|start|] == hop.value;
      RootIsShared(net, root, hop.value);
      GreedyRoutingDelivers(net, root, t, longer,
        TreeHop(net[hop.value], CoordsAt(net, t), Sender(longer, |longer| - 1)));
      w := CompleteWalk(net, root, t, longer);
    }
  }

  /** A root with a child that hangs off its port 5. */
  function Pair(): Net {
    var root := Root(2, 0);
    var atRoot := Announcement(root, [RootSignature(2, 5, 0), RootSignature(1, 7, 0)], 0, 1);
    var atChild := Announcement(root, [RootSignature(2, 5, 0)], 0, 1);
    map[
      2 := TreeState(2, map[5 := Some(1)], 2, map[1 := atRoot], 0, 1, None),
      1 := TreeState(1, map[7 := Some(2)], 2, map[2 := atChild], 0, 1, None)]
  }

  /** The hypotheses describe something. */
  lemma ConvergedNetworkExists()
    ensures Converged(Pair(), Root(2, 0)) && Pair().Keys == {1, 2}
    ensures CoordsAt(Pair(), 1) == [5] && CoordsAt(Pair(), 2) == []
    ensures forall m :: (HasPeer(Pair()[1], m) <==> m == 2) && (HasPeer(Pair()[2], m) <==> m == 1)
  {
    var net, root := Pair(), Root(2, 0);
    var top, child := net[2], net[1];
    assert top.ports[5] == Some(1) && child.ports[7] == Some(2);
    assert HasPeer(top, 1) && HasPeer(child, 2);
    assert UpToDate(net, 2, 1) && UpToDate(net, 1, 2);
    assert NodeConverged(net, root, 2) && NodeConverged(net, root, 1);
  }
}

/** Bootstraps and their answers (src/router.rs:905-946 and 1065-1096): which are sent, who answers, and that the
    answer finds its way back and is taken. */
module Bootstraps {
  import opened Types
  import opened Coordinates
  import opened Announcements
  import opened Frames
  import opened Tree
  import opened Snek
  import opened SnekProtocol
  import opened Network
  import opened PathSetup
  import opened Keyspace
  import opened Delivery
  import opened Growth

  /** A router bootstraps exactly if it follows someone else, has no path set up under the root it follows and
      keyspace routing leads elsewhere; and the bootstrap it sends is under its own key and coordinates. */
  lemma BootstrapIsSentExactly(r: RouterState, now: Time, id: PathId, hop: Option<PublicKey>, out: seq<Envelope>)
    requires IsBootstrap(r, now, id, false, hop, out)
    ensures out != [] <==>
      && r.tree.parent != r.tree.key
      && !(r.snek.ascending.Some? && r.snek.ascending.value.root == CurrentRoot(r.tree))
      && hop != Some(r.tree.key)
    ensures out != [] ==>
      && hop.Some? && hop.value != r.tree.key
      && out == [Envelope(hop.value, SnekBootstrap(Bootstrap(CurrentRoot(r.tree), r.tree.key, OwnCoords(r.tree), id)))]
  {
    hide IsSnekHop, CurrentRoot, OwnCoords;
  }

  /** n's bootstrap with the given path id. */
  function OwnBootstrap(net: Routers, n: PublicKey, id: PathId): Bootstrap
    requires n in net
  {
    Bootstrap(CurrentRoot(net[n].tree), n, OwnCoords(net[n].tree), id)
  }

  /** The answer of m to it, field by field. */
  function Answer(net: Routers, root: Root, n: PublicKey, m: PublicKey, id: PathId): BootstrapAck
    requires n in net && m in net
  {
    BootstrapAck(CoordsAt(Trees(net), n), n, CoordsAt(Trees(net), m), m, root, id)
  }

  /** In a converged network any other node that handles the bootstrap answers it with one frame, which tree routing
      brings back to the bootstrap's origin, where it stays. */
  lemma AnswerComesBack(net: Routers, root: Root, n: PublicKey, m: PublicKey, id: PathId, hop: Option<PublicKey>,
      out: seq<Envelope>)
    returns (w: seq<PublicKey>)
    requires Converged(Trees(net), root) && n in net && m in net && n != m
    requires IsAnswer(net[m].tree, OwnBootstrap(net, n, id), hop, out)
    ensures hop.Some? && hop.value in net && out == [Envelope(hop.value, SnekBootstrapAck(Answer(net, root, n, m, id)))]
    ensures IsWalk(Trees(net), CoordsAt(Trees(net), n), w) && [m, hop.value] <= w && w[|w| - 1] == n
    ensures |w| - 1 <= Distance(CoordsAt(Trees(net), m), CoordsAt(Trees(net), n))
    ensures IsTreeHop(net[n].tree, CoordsAt(Trees(net), n), w[|w| - 2], Some(n))
  {
    hide Converged, IsTreeHop, OwnCoords, Distance;
    var trees := Trees(net);
    KeyedByNode(trees, root, n);
    KeyedByNode(trees, root, m);
    RootIsShared(trees, root, n);
    RootIsShared(trees, root, m);
    hide CurrentRoot;
    WalkStarts(trees, CoordsAt(trees, n), m);
    GreedyRoutingDelivers(trees, root, n, [m], hop);
    assert ([m] + [hop.value])[1] in trees;
    w := CompleteWalk(trees, root, n, [m] + [hop.value]);
    RootIsShared(trees, root, n);
    var stays := TreeHop(net[n].tree, CoordsAt(trees, n), w[|w| - 2]);
    HopAtHome(net[n].tree, CoordsAt(trees, n), w[|w| - 2], stays);
  }

  /** And the origin takes it if the answer comes from above and there is no ascending path, or an expired one, or
      one to a node farther above: the path set-up then goes through. */
  lemma AnswerIsTaken(net: Routers, root: Root, n: PublicKey, m: PublicKey, id: PathId, w: seq<PublicKey>, now: Time)
    requires Steady(net, root) && n in net && m in net && n < m
    requires IsWalk(Trees(net), CoordsAt(Trees(net), m), w) && |w| > 1 && w[0] == n && w[|w| - 1] == m
    requires net[n].snek.ascending.Some? ==>
      now - net[n].snek.ascending.value.lastSeen >= 3_600_000 || m < net[n].snek.ascending.value.origin
    requires forall k :: k in net ==> PathIndex(n, id) !in net[k].snek.paths
    ensures AckAccepted(net, root, Answer(net, root, n, m, id), w, now)
  {
    hide Converged, IsWalk, OwnCoords, OrdersDistinct, OnePortPerPeer;
    KeyedByNode(Trees(net), root, n);
    RootIsShared(Trees(net), root, n);
    hide CurrentRoot;
  }

  /** A successor's answer is a turn of the growing snake. */
  lemma SuccessorsAnswerIsTurn(net: Routers, root: Root, n: PublicKey, m: PublicKey, id: PathId, since: Time,
      w: seq<PublicKey>, clock: nat -> Time)
    requires Converged(Trees(net), root) && n in net && IsSuccessor(net, n, m) && forall i: nat :: clock(i) >= since
    requires IsWalk(Trees(net), CoordsAt(Trees(net), m), w) && |w| > 1 && w[0] == n && w[|w| - 1] == m
    ensures m in net && IsTurn(net, root, since, Turn(Answer(net, root, n, m, id), w, clock))
  {
    hide Converged, IsWalk, OwnCoords;
  }

  /** In a coherent network, a bootstrap that has travelled any way at all is answered only by a node above its
      origin that knows none between the two. */
  lemma AnswererIsAbove(net: Routers, root: Root, now: Time, n: PublicKey, w: seq<PublicKey>, keys: seq<PublicKey>,
      key: PublicKey)
    requires Coherent(net, root, now, true) && n < root.publicKey
    requires IsJourney(net, now, true, n, w, keys) && keys != []
    requires IsSnekHop(net[w[|keys|]], now, n, true, false, key, Some(w[|keys|]))
    ensures n < w[|keys|] && forall k: PublicKey :: Known(net[w[|keys|]], now, true, k) && n < k ==> w[|keys|] <= k
  {
    hide Coherent, Known, IsSnekHop;
    JourneyDoesNotDrift(net, root, now, true, n, w, keys, 0, key, Some(w[|keys|]));
  }

  /** The whole round. In a network with its snake, wherever a bootstrap of n is kept, that node is n's successor;
      its answer goes back to n and is a turn of the snake, along whichever way the setup then takes. */
  lemma BootstrapRoundTrip(net: Routers, root: Root, now: Time, ways: Ways, L: nat, n: PublicKey, id: PathId,
      journey: seq<PublicKey>, keys: seq<PublicKey>, key: PublicKey, hop: Option<PublicKey>, out: seq<Envelope>,
      way: seq<PublicKey>, clock: nat -> Time)
    returns (back: seq<PublicKey>)
    requires Snaked(net, root, now, true, ways) && Bounded(net, ways, L) && n in ways
    requires IsJourney(net, now, true, n, journey, keys) && journey[0] == n
    requires var m := journey[|keys|];
             && IsSnekHop(net[m], now, n, true, false, key, Some(m))
             && IsAnswer(net[m].tree, OwnBootstrap(net, n, id), hop, out)
             && IsWalk(Trees(net), CoordsAt(Trees(net), m), way) && |way| > 1 && way[0] == n && way[|way| - 1] == m
    requires forall i: nat :: clock(i) >= now
    ensures var m := journey[|keys|];
            && IsSuccessor(net, n, m)
            && hop.Some? && out == [Envelope(hop.value, SnekBootstrapAck(Answer(net, root, n, m, id)))]
            && IsWalk(Trees(net), CoordsAt(Trees(net), n), back) && [m, hop.value] <= back && back[|back| - 1] == n
            && IsTurn(net, root, now, Turn(Answer(net, root, n, m, id), way, clock))
  {
    hide Bounded, Converged, IsSnekHop, IsWalk, Linked, OnItsWay, RootIsStrongest, Limit;
    assert Linked(net, n, ways[n]);
    LinkedParts(net, n, ways[n]);
    var m, target := journey[|keys|], ways[n].walk[|ways[n].walk| - 1];
    assert IsTarget(net, true, n, target);
    SnekRoutingDelivers(net, root, now, true, ways, L, n, target, journey, keys, key, Some(m));
    back := AnswerComesBack(net, root, n, m, id, hop, out);
    SuccessorsAnswerIsTurn(net, root, n, m, id, now, way, clock);
  }
}

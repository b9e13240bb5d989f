/** Growing the snake: one path set-up per node, in any order of the nodes, makes keyspace routing deliver. */
module Growth {
  import opened Types
  import opened Coordinates
  import opened Announcements
  import opened Frames
  import opened Tree
  import opened Snek
  import opened SnekProtocol
  import opened Network
  import opened PathSetup
  import opened Keyspace
  import opened Delivery

  /** One node's turn: the bootstrap ACK it accepts, the walk to the ACK's sender, and the times of the deliveries. */
  datatype Turn = Turn(ack: BootstrapAck, walk: seq<PublicKey>, clock: nat -> Time)

  function IndexOf(turn: Turn): PathIndex
    requires turn.walk != []
  {
    PathIndex(turn.walk[0], turn.ack.pathId)
  }

  /** The network once the setup and its acknowledgement have been delivered. */
  ghost function AfterTurn(net: Routers, turn: Turn): Routers {
    if turn.walk == [] || turn.walk[0] !in net then net
    else
      var (started, msgs) := Started(net, turn.walk[0], turn.ack, turn.clock(0));
      Exchange(started, msgs, 2 * (|turn.walk| - 1), turn.clock, 1).0
  }

  ghost function AfterTurns(net: Routers, turns: seq<Turn>): Routers {
    if turns == [] then net else AfterTurn(AfterTurns(net, turns[..|turns| - 1]), turns[|turns| - 1])
  }

  /** The ACK comes from the successor, carries its coordinates, and the walk is a tree walk there; time does not go
      back before since. */
  ghost predicate IsTurn(net: Routers, root: Root, since: Time, turn: Turn) {
    && var w := turn.walk;
    && |w| > 1 && w[0] in net && IsSuccessor(net, w[0], w[|w| - 1])
    && turn.ack.sourceKey == w[|w| - 1] && turn.ack.sourceCoords == OwnCoords(net[w[|w| - 1]].tree)
      && turn.ack.root == root
    && IsWalk(Trees(net), turn.ack.sourceCoords, w)
    && forall i: nat :: turn.clock(i) >= since
  }

  /** The paths the turns set up. */
  function WaysOf(turns: seq<Turn>): Ways
    requires forall i :: 0 <= i < |turns| ==> turns[i].walk != []
  {
    if turns == [] then map[]
    else
      var turn := turns[|turns| - 1];
      WaysOf(turns[..|turns| - 1])[turn.walk[0] := Way(turn.walk, IndexOf(turn))]
  }

  // ---- What one turn adds ----

  /** The paths so far are installed, nothing else is in any table, and the nodes without a path cache none. */
  ghost predicate Grown(net: Routers, since: Time, ways: Ways) {
    && (forall n {:trigger Linked(net, n, ways[n])} :: n in ways ==> n in net && Linked(net, n, ways[n]))
    && (forall n {:trigger Unlinked(net, ways, n)} :: n in net ==> Unlinked(net, ways, n))
    && (forall n, index {:trigger OnWay(net, since, ways, n, index)} ::
      n in net && index in net[n].snek.paths ==> OnWay(net, since, ways, n, index))
  }

  ghost predicate Unlinked(net: Routers, ways: Ways, n: PublicKey)
    requires n in net
  {
    && net[n].snek.candidate.None?
    && (n !in ways ==> net[n].snek.ascending.None?)
    && forall m :: m in net && IsSuccessor(net, m, n) && m !in ways ==> net[n].snek.descending.None?
  }

  ghost predicate OnWay(net: Routers, since: Time, ways: Ways, n: PublicKey, index: PathIndex)
    requires n in net && index in net[n].snek.paths
  {
    && index.publicKey in ways && ways[index.publicKey].index == index && n in ways[index.publicKey].walk
    && net[n].snek.paths[index].lastSeen >= since
  }

  /** No two nodes have one successor. */
  lemma SuccessorsDiffer(net: Routers, a: PublicKey, b: PublicKey, m: PublicKey)
    requires a in net && b in net && IsSuccessor(net, a, m) && IsSuccessor(net, b, m)
    ensures a == b
  {
  }

  lemma SameNodesSameSuccessor(net: Routers, net': Routers, n: PublicKey, m: PublicKey)
    requires net'.Keys == net.Keys
    ensures IsSuccessor(net', n, m) <==> IsSuccessor(net, n, m)
  {
  }

  /** A node without a path takes its successor's ACK, and the successor its setup. */
  lemma TurnIsTaken(net: Routers, root: Root, since: Time, ways: Ways, turn: Turn)
    requires Steady(net, root) && Grown(net, since, ways) && IsTurn(net, root, since, turn) && turn.walk[0] !in ways
    ensures var w := turn.walk;
            && AckAccepted(net, root, turn.ack, w, turn.clock(0))
            && AcceptsSetup(net[w[|w| - 1]], SetupFor(net[w[0]], turn.ack), turn.clock(|w| - 1))
  {
    hide IsWalk, Linked, Converged, OwnCoords, IsSuccessor, Valid;
    var w := turn.walk;
    var origin, end := w[0], w[|w| - 1];
    assert end in net && origin < end by { SuccessorIsAbove(net, origin, end); }
    KeyedByNode(Trees(net), root, origin);
    KeyedByNode(Trees(net), root, end);
    RootIsShared(Trees(net), root, origin);
    RootIsShared(Trees(net), root, end);
    hide CurrentRoot, OnWay;
    assert Unlinked(net, ways, origin) && Unlinked(net, ways, end);
    IndexIsNew(net, since, ways, IndexOf(turn));
  }

  lemma IndexIsNew(net: Routers, since: Time, ways: Ways, index: PathIndex)
    requires Grown(net, since, ways) && index.publicKey !in ways
    ensures forall n :: n in net ==> index !in net[n].snek.paths
  {
    hide OnWay, Linked, Unlinked;
    forall n | n in net ensures index !in net[n].snek.paths {
      if index in net[n].snek.paths {
        assert OnWay(net, since, ways, n, index);
        OnWayHasOrigin(net, since, ways, n, index);
      }
    }
  }

  lemma OnWayHasOrigin(net: Routers, since: Time, ways: Ways, n: PublicKey, index: PathIndex)
    requires n in net && index in net[n].snek.paths && OnWay(net, since, ways, n, index)
    ensures index.publicKey in ways
  {
  }

  lemma SuccessorIsAbove(net: Routers, n: PublicKey, m: PublicKey)
    requires IsSuccessor(net, n, m)
    ensures m in net && n < m
  {
  }

  /** The frame conditions of one turn, and the path it installs. */
  ghost predicate Extends(net: Routers, net': Routers, w: seq<PublicKey>, index: PathIndex) {
    && |w| > 1 && w[0] in net && net'.Keys == net.Keys && Trees(net') == Trees(net)
    && Installed(net', w, index) && net'[w[0]].snek.candidate.None?
    && (forall n {:trigger KeptAt(net[n], net'[n], w, index, n)} :: n in net ==> KeptAt(net[n], net'[n], w, index, n))
  }

  lemma TurnExtends(net: Routers, root: Root, since: Time, ways: Ways, turn: Turn)
    requires Steady(net, root) && Grown(net, since, ways) && IsTurn(net, root, since, turn) && turn.walk[0] !in ways
    ensures Extends(net, AfterTurn(net, turn), turn.walk, IndexOf(turn))
  {
    TurnIsTaken(net, root, since, ways, turn);
    hide Grown, Steady, Exchange, Started, AcceptsSetup, AckAccepted, Installed, KeptAt, IsWalk, IsSuccessor, OwnCoords;
    PathSetupCompletes(net, root, turn.ack, turn.walk, turn.clock);
    assert AfterTurn(net, turn).Keys == Trees(AfterTurn(net, turn)).Keys == Trees(net).Keys == net.Keys;
  }

  /** An earlier path stays installed. */
  lemma LinkStays(net: Routers, net': Routers, w: seq<PublicKey>, index: PathIndex, n: PublicKey, way: Way)
    requires Extends(net, net', w, index) && n in net && Linked(net, n, way)
    requires net[n].snek.candidate.None? && n != w[0] && index.publicKey == w[0] && IsSuccessor(net, w[0], w[|w| - 1])
    ensures Linked(net', n, way)
  {
    hide Installed, KeptAt, EntryAt, IsPortOf;
    var v := way.walk;
    var last := v[|v| - 1];
    assert IsSuccessor(net, n, last) && way.index.publicKey == n;
    SameNodesSameSuccessor(net, net', n, last);
    if last == w[|w| - 1] { SuccessorsDiffer(net, n, w[0], last); }
    InstalledStays(net, net', w, index, v, way.index);
  }

  lemma InstalledStays(net: Routers, net': Routers, w: seq<PublicKey>, index: PathIndex, v: seq<PublicKey>,
      other: PathIndex)
    requires Extends(net, net', w, index) && Installed(net, v, other) && |v| > 1 && other != index
    requires v[0] != w[0] && v[|v| - 1] != w[|w| - 1] && v[0] in net && IdleFor(net[v[0]].snek, index)
    ensures Installed(net', v, other)
  {
    forall i | 0 <= i < |v| ensures EntryAt(net', v, other, i, 0) {
      assert EntryAt(net, v, other, i, 0);
      assert KeptAt(net[v[i]], net'[v[i]], w, index, v[i]);
      assert Trees(net')[v[i]] == Trees(net)[v[i]];
    }
    var last := |v| - 1;
    assert EntryAt(net, v, other, last, 0);
    assert KeptAt(net[v[0]], net'[v[0]], w, index, v[0]) && KeptAt(net[v[last]], net'[v[last]], w, index, v[last]);
  }

  /** Nobody else comes to cache a path. */
  lemma UnlinkedStays(net: Routers, net': Routers, since: Time, ways: Ways, ways': Ways, w: seq<PublicKey>,
      index: PathIndex, n: PublicKey)
    requires Extends(net, net', w, index) && n in net && Unlinked(net, ways, n)
    requires ways'.Keys == ways.Keys + {w[0]} && IsSuccessor(net, w[0], w[|w| - 1])
    ensures Unlinked(net', ways', n)
  {
    hide Installed, IsSuccessor;
    assert KeptAt(net[n], net'[n], w, index, n);
    forall m | m in net' && IsSuccessor(net', m, n) && m !in ways' ensures net'[n].snek.descending.None? {
      SameNodesSameSuccessor(net, net', m, n);
      if n == w[|w| - 1] { SuccessorsDiffer(net, m, w[0], n); }
    }
  }

  /** And the tables hold nothing else. */
  lemma TableStays(net: Routers, net': Routers, since: Time, ways: Ways, ways': Ways, w: seq<PublicKey>,
      index: PathIndex, n: PublicKey, other: PathIndex)
    requires Extends(net, net', w, index) && n in net && other in net'[n].snek.paths
    requires index !in net[n].snek.paths && (other in net[n].snek.paths ==> OnWay(net, since, ways, n, other))
    requires other == index ==> net'[n].snek.paths[index].lastSeen >= since
    requires index.publicKey == w[0] && w[0] !in ways && ways' == ways[w[0] := Way(w, index)]
    ensures OnWay(net', since, ways', n, other)
  {
    hide Installed;
    assert KeptAt(net[n], net'[n], w, index, n);
  }

  // ---- Times ----

  /** The path's entries were all seen at or after since. */
  ghost predicate SeenSince(net: Routers, index: PathIndex, since: Time) {
    forall n :: n in net && index in net[n].snek.paths ==> net[n].snek.paths[index].lastSeen >= since
  }

  lemma DeliveryIsSeen(net: Routers, msg: Message, now: Time, index: PathIndex, since: Time)
    requires SeenSince(net, index, since) && now >= since
    ensures SeenSince(Delivered(net, msg, now).0, index, since)
  {
    hide SentVia, Rejection, AcceptsSetup, CurrentRoot, TornDown;
    if msg.to in net && msg.frame.SnekTeardown? && HasPort(net[msg.to].tree, msg.from) {
      TearingOnlyRemoves(net[msg.to].snek, PortTo(net[msg.to].tree, msg.from),
        PathIndex(msg.frame.teardown.destinationKey, msg.frame.teardown.pathId));
    }
  }

  lemma TearingOnlyRemoves(s: SnekState, from: Port, index: PathIndex)
    ensures var s' := TornDown(s, from, index).0;
            forall i :: i in s'.paths ==> i in s.paths && s'.paths[i] == s.paths[i]
  {
  }

  lemma {:induction false} ExchangeIsSeen(net: Routers, msgs: seq<Message>, n: nat,
      clock: nat -> Time, tick: nat, index: PathIndex, since: Time)
    requires SeenSince(net, index, since) && forall i: nat :: clock(i) >= since
    ensures SeenSince(Exchange(net, msgs, n, clock, tick).0, index, since)
    decreases n
  {
    hide SeenSince, Delivered;
    if n > 0 && msgs != [] {
      DeliveryIsSeen(net, msgs[0], clock(tick), index, since);
      var (net', out) := Delivered(net, msgs[0], clock(tick));
      ExchangeIsSeen(net', msgs[1..] + out, n - 1, clock, tick + 1, index, since);
    }
  }

  lemma StartIsSeen(net: Routers, origin: PublicKey, ack: BootstrapAck, now: Time, index: PathIndex, since: Time)
    requires SeenSince(net, index, since) && now >= since && origin in net
    ensures SeenSince(Started(net, origin, ack, now).0, index, since)
  {
    hide AcceptsAck, SentTo, Replaced, IsTreeHop;
  }

  // ---- All turns ----

  lemma TurnGrows(net: Routers, root: Root, since: Time, ways: Ways, turn: Turn)
    requires Steady(net, root) && Grown(net, since, ways) && IsTurn(net, root, since, turn) && turn.walk[0] !in ways
    ensures var net' := AfterTurn(net, turn);
            && Trees(net') == Trees(net) && net'.Keys == net.Keys && Steady(net', root)
            && Grown(net', since, ways[turn.walk[0] := Way(turn.walk, IndexOf(turn))])
  {
    var w, index, net' := turn.walk, IndexOf(turn), AfterTurn(net, turn);
    TurnExtends(net, root, since, ways, turn);
    TurnIsSeen(net, root, since, ways, turn);
    hide Steady, AfterTurn, Grown, SeenSince;
    assert Trees(net') == Trees(net) && net'.Keys == net.Keys by { hide Installed, KeptAt; }
    SteadyByTrees(net, net', root);
    GrownKeepsGrowing(net, net', since, ways, w, index);
  }

  lemma GrownKeepsGrowing(net: Routers, net': Routers, since: Time, ways: Ways, w: seq<PublicKey>, index: PathIndex)
    requires Extends(net, net', w, index) && Grown(net, since, ways) && SeenSince(net', index, since)
    requires index.publicKey == w[0] && w[0] !in ways && IsSuccessor(net, w[0], w[|w| - 1])
    ensures Grown(net', since, ways[w[0] := Way(w, index)])
  {
    ExtendsParts(net, net', w, index);
    hide Extends, IsSuccessor, Grown, SeenSince, Linked, Unlinked, OnWay;
    var ways' := ways[w[0] := Way(w, index)];
    IndexIsNew(net, since, ways, index);
    forall n | n in ways' ensures n in net' && Linked(net', n, ways'[n]) {
      GrownAt(net, since, ways, n);
      LinksGrow(net, net', ways, w, index, n);
    }
    forall n | n in net' ensures Unlinked(net', ways', n) {
      GrownAt(net, since, ways, n);
      UnlinkedStays(net, net', since, ways, ways', w, index, n);
    }
    forall n, other | n in net' && other in net'[n].snek.paths ensures OnWay(net', since, ways', n, other) {
      if other in net[n].snek.paths { GrownIn(net, since, ways, n, other); }
      SeenAt(net', index, since, n);
      TableStays(net, net', since, ways, ways', w, index, n, other);
    }
    GrownByParts(net', since, ways');
  }

  lemma GrownByParts(net: Routers, since: Time, ways: Ways)
    requires forall n {:trigger Linked(net, n, ways[n])} :: n in ways ==> n in net && Linked(net, n, ways[n])
    requires forall n {:trigger Unlinked(net, ways, n)} :: n in net ==> Unlinked(net, ways, n)
    requires forall n, index {:trigger OnWay(net, since, ways, n, index)} ::
      n in net && index in net[n].snek.paths ==> OnWay(net, since, ways, n, index)
    ensures Grown(net, since, ways)
  {
    hide Linked, Unlinked, OnWay;
  }

  /** What being grown says of a node. */
  lemma GrownAt(net: Routers, since: Time, ways: Ways, n: PublicKey)
    requires Grown(net, since, ways)
    ensures n in ways ==> n in net && Linked(net, n, ways[n])
    ensures n in net ==> Unlinked(net, ways, n)
  {
    hide Linked, Unlinked, OnWay;
  }

  /** And of an entry. */
  lemma GrownIn(net: Routers, since: Time, ways: Ways, n: PublicKey, index: PathIndex)
    requires Grown(net, since, ways) && n in net && index in net[n].snek.paths
    ensures OnWay(net, since, ways, n, index)
  {
    hide Linked, Unlinked, OnWay;
  }

  lemma LinksGrow(net: Routers, net': Routers, ways: Ways, w: seq<PublicKey>, index: PathIndex, n: PublicKey)
    requires Extends(net, net', w, index) && index.publicKey == w[0] && IsSuccessor(net, w[0], w[|w| - 1])
    requires n == w[0] || (n in ways && n in net && Linked(net, n, ways[n]) && Unlinked(net, ways, n))
    ensures n in net' && Linked(net', n, ways[w[0] := Way(w, index)][n])
  {
    ExtendsParts(net, net', w, index);
    hide Extends, IsSuccessor, Linked, Unlinked;
    if n == w[0] {
      NewLink(net, net', w, index);
    } else {
      NoCandidate(net, ways, n);
      LinkStays(net, net', w, index, n, ways[n]);
    }
  }

  lemma SeenAt(net: Routers, index: PathIndex, since: Time, n: PublicKey)
    requires SeenSince(net, index, since) && n in net
    ensures index in net[n].snek.paths ==> net[n].snek.paths[index].lastSeen >= since
  {
  }

  lemma ExtendsParts(net: Routers, net': Routers, w: seq<PublicKey>, index: PathIndex)
    requires Extends(net, net', w, index)
    ensures |w| > 1 && w[0] in net && net'.Keys == net.Keys && Trees(net') == Trees(net)
  {
  }

  lemma NoCandidate(net: Routers, ways: Ways, n: PublicKey)
    requires n in net && Unlinked(net, ways, n)
    ensures net[n].snek.candidate.None?
  {
  }

  lemma TurnIsSeen(net: Routers, root: Root, since: Time, ways: Ways, turn: Turn)
    requires Grown(net, since, ways) && IsTurn(net, root, since, turn) && turn.walk[0] !in ways
    ensures SeenSince(AfterTurn(net, turn), IndexOf(turn), since)
  {
    var w, index := turn.walk, IndexOf(turn);
    hide Linked, Unlinked, IsWalk, IsSuccessor, OnWay, Started, Exchange;
    IndexIsNew(net, since, ways, index);
    assert SeenSince(net, index, since);
    hide SeenSince;
    StartIsSeen(net, w[0], turn.ack, turn.clock(0), index, since);
    var (started, msgs) := Started(net, w[0], turn.ack, turn.clock(0));
    ExchangeIsSeen(started, msgs, 2 * (|w| - 1), turn.clock, 1, index, since);
  }

  lemma SteadyByTrees(net: Routers, net': Routers, root: Root)
    requires Steady(net, root) && net'.Keys == net.Keys && Trees(net') == Trees(net)
    ensures Steady(net', root)
  {
    hide Converged, OrdersDistinct, OnePortPerPeer;
    forall n | n in net' ensures net'[n].tree == net[n].tree {
      assert Trees(net')[n] == Trees(net)[n];
    }
  }

  lemma NewLink(net: Routers, net': Routers, w: seq<PublicKey>, index: PathIndex)
    requires Extends(net, net', w, index) && index.publicKey == w[0] && IsSuccessor(net, w[0], w[|w| - 1])
    ensures Linked(net', w[0], Way(w, index))
  {
    hide Installed;
    SameNodesSameSuccessor(net, net', w[0], w[|w| - 1]);
  }

  /** No router has a path yet. */
  ghost predicate NoPaths(net: Routers) {
    forall n :: n in net ==>
      net[n].snek.ascending.None? && net[n].snek.descending.None? && net[n].snek.candidate.None?
        && net[n].snek.paths == map[]
  }

  /** Nodes take their turns in this order, each at most once. */
  ghost predicate AreTurns(net: Routers, root: Root, since: Time, turns: seq<Turn>) {
    && (forall i :: 0 <= i < |turns| ==> IsTurn(net, root, since, turns[i]))
    && forall i, j :: 0 <= i < j < |turns| ==> turns[i].walk[0] != turns[j].walk[0]
  }

  ghost predicate HasTurn(turns: seq<Turn>, n: PublicKey) {
    exists i :: 0 <= i < |turns| && turns[i].walk != [] && turns[i].walk[0] == n
  }

  lemma {:induction false} WaysAreOfOrigins(turns: seq<Turn>, n: PublicKey)
    requires forall i :: 0 <= i < |turns| ==> turns[i].walk != []
    ensures n in WaysOf(turns) <==> HasTurn(turns, n)
  {
    if turns != [] {
      var last := |turns| - 1;
      WaysAreOfOrigins(turns[..last], n);
      if i :| 0 <= i < |turns| && turns[i].walk[0] == n {
        assert i < last ==> turns[..last][i].walk[0] == n;
      }
    }
  }

  lemma TurnStays(net: Routers, net': Routers, root: Root, since: Time, turn: Turn)
    requires IsTurn(net, root, since, turn) && Trees(net') == Trees(net) && net'.Keys == net.Keys
    ensures IsTurn(net', root, since, turn)
  {
    hide IsWalk, OwnCoords;
    var w := turn.walk;
    SameNodesSameSuccessor(net, net', w[0], w[|w| - 1]);
    SuccessorIsAbove(net, w[0], w[|w| - 1]);
    hide IsSuccessor;
    assert Trees(net')[w[|w| - 1]] == Trees(net)[w[|w| - 1]];
  }

  /** Each turn adds its path and leaves the others as they are. */
  lemma {:induction false} TurnsGrow(start: Routers, root: Root, since: Time, turns: seq<Turn>)
    requires Steady(start, root) && NoPaths(start) && AreTurns(start, root, since, turns)
    ensures var net := AfterTurns(start, turns);
            && Trees(net) == Trees(start) && net.Keys == start.Keys && Steady(net, root)
            && Grown(net, since, WaysOf(turns))
  {
    hide Steady, IsTurn, IsSuccessor, AfterTurn;
    if turns == [] {
      assert Grown(start, since, map[]);
    } else {
      hide Grown, NoPaths;
      var last := |turns| - 1;
      var turn, earlier := turns[last], turns[..last];
      assert AreTurns(start, root, since, earlier);
      forall i | 0 <= i < |turns| ensures turns[i].walk != [] { TurnHasWalk(start, root, since, turns[i]); }
      TurnsGrow(start, root, since, earlier);
      var net := AfterTurns(start, earlier);
      TurnStays(start, net, root, since, turn);
      TurnHasWalk(net, root, since, turn);
      WaysAreOfOrigins(earlier, turn.walk[0]);
      TurnGrows(net, root, since, WaysOf(earlier), turn);
    }
  }

  lemma TurnHasWalk(net: Routers, root: Root, since: Time, turn: Turn)
    requires IsTurn(net, root, since, turn)
    ensures |turn.walk| > 1 && turn.walk[0] in net
  {
  }

  // ---- The snake is complete ----

  /** Every node but the root takes its turn. */
  ghost predicate AllTakeTurns(net: Routers, root: Root, turns: seq<Turn>) {
    && (forall i :: 0 <= i < |turns| ==> turns[i].walk != [])
    && forall n :: n in net && n != root.publicKey ==> HasTurn(turns, n)
  }

  ghost predicate RootLeads(net: Routers, root: Root) {
    forall n {:trigger RootIsStrongest(net[n].tree, root)} :: n in net ==> RootIsStrongest(net[n].tree, root)
  }

  /** A steady network without paths, whose nodes but the root set up their paths one after the other, in any order
      and within the hour for which paths are valid, has its snake: all traffic and all bootstraps arrive. */
  lemma SnakeIsGrown(start: Routers, root: Root, since: Time, turns: seq<Turn>, now: Time, bootstrap: bool)
    requires Steady(start, root) && RootLeads(start, root) && NoPaths(start)
    requires AreTurns(start, root, since, turns) && AllTakeTurns(start, root, turns)
    requires now - since < SNEK_EXPIRY_PERIOD
    ensures Snaked(AfterTurns(start, turns), root, now, bootstrap, WaysOf(turns))
  {
    var net, ways := AfterTurns(start, turns), WaysOf(turns);
    TurnsGrow(start, root, since, turns);
    RootLeadsByTrees(start, net, root);
    WaysAreOfAll(start, root, since, turns);
    assert Converged(Trees(net), root) by { hide Converged; }
    hide AfterTurns, NoPaths, Steady, RootLeads, Linked, IsTurn, IsSuccessor, Converged, RootIsStrongest, Grown,
      WaysOf, AreTurns, AllTakeTurns;
    RootLeadsAt(net, root);
    forall n | n in ways ensures Linked(net, n, ways[n]) {
      GrownAt(net, since, ways, n);
    }
    forall n, index | n in net && index in net[n].snek.paths ensures OnItsWay(net, now, bootstrap, ways, n, index) {
      GrownIn(net, since, ways, n, index);
    }
  }

  lemma RootLeadsAt(net: Routers, root: Root)
    requires RootLeads(net, root)
    ensures forall n {:trigger RootIsStrongest(net[n].tree, root)} :: n in net ==> RootIsStrongest(net[n].tree, root)
  {
  }

  lemma RootLeadsByTrees(net: Routers, net': Routers, root: Root)
    requires RootLeads(net, root) && net'.Keys == net.Keys && Trees(net') == Trees(net)
    ensures RootLeads(net', root)
  {
    hide RootIsStrongest;
    forall n | n in net' ensures RootIsStrongest(net'[n].tree, root) {
      assert Trees(net')[n] == Trees(net)[n];
      assert RootIsStrongest(net[n].tree, root);
    }
  }

  lemma WaysAreOfAll(net: Routers, root: Root, since: Time, turns: seq<Turn>)
    requires Steady(net, root) && RootLeads(net, root) && AreTurns(net, root, since, turns)
    requires AllTakeTurns(net, root, turns)
    ensures WaysOf(turns).Keys == net.Keys - {root.publicKey}
  {
    hide Steady, RootLeads, IsTurn, HasTurn;
    forall n ensures n in WaysOf(turns) <==> n in net && n != root.publicKey {
      WaysAreOfOrigins(turns, n);
      if n in WaysOf(turns) { OriginIsNotRoot(net, root, since, turns, n); }
    }
  }

  lemma OriginIsNotRoot(net: Routers, root: Root, since: Time, turns: seq<Turn>, n: PublicKey)
    requires Steady(net, root) && RootLeads(net, root) && AreTurns(net, root, since, turns) && HasTurn(turns, n)
    ensures n in net && n != root.publicKey
  {
    hide Converged, IsWalk, OrdersDistinct, OnePortPerPeer;
    var i :| 0 <= i < |turns| && turns[i].walk != [] && turns[i].walk[0] == n;
    assert IsTurn(net, root, since, turns[i]);
    var m := turns[i].walk[|turns[i].walk| - 1];
    KeyedByNode(Trees(net), root, m);
    assert RootIsStrongest(net[m].tree, root);
  }

  // ---- And turns there always are ----

  lemma {:induction false} LeastIn(s: set<PublicKey>) returns (m: PublicKey)
    requires s != {}
    ensures m in s && forall x :: x in s ==> m <= x
    decreases s
  {
    m :| m in s;
    if x :| x in s && x < m {
      var rest := s - {m};
      assert rest != {} by { assert x in rest; }
      var least := LeastIn(rest);
      assert forall y :: y in s ==> y == m || y in rest;
      m := least;
    }
  }

  lemma SuccessorExists(net: Routers, root: Root, n: PublicKey) returns (m: PublicKey)
    requires Steady(net, root) && RootLeads(net, root) && n in net && n != root.publicKey
    ensures IsSuccessor(net, n, m)
  {
    hide Converged, OrdersDistinct, OnePortPerPeer;
    KeyedByNode(Trees(net), root, n);
    assert RootIsStrongest(net[n].tree, root);
    assert Trees(net) != map[] by { assert n in Trees(net); }
    RootStays(Trees(net), root, 0);
    var above := set x | x in net && n < x;
    assert root.publicKey in above;
    m := LeastIn(above);
    assert forall x :: x in net && n < x ==> x in above;
  }

  lemma TurnExists(net: Routers, root: Root, since: Time, n: PublicKey) returns (turn: Turn)
    requires Steady(net, root) && RootLeads(net, root) && n in net && n != root.publicKey
    ensures IsTurn(net, root, since, turn) && turn.walk[0] == n
  {
    hide RootLeads, Converged, IsWalk, OrdersDistinct, OnePortPerPeer, OwnCoords;
    var m := SuccessorExists(net, root, n);
    SuccessorIsAbove(net, n, m);
    var dest := CoordsAt(Trees(net), m);
    WalkStarts(Trees(net), dest, n);
    var w := CompleteWalk(Trees(net), root, m, [n]);
    assert w[0] == [n][0];
    turn := Turn(BootstrapAck(dest, n, dest, m, root, 0), w, (i: nat) => since);
  }

  lemma WalkStarts(net: Net, dest: Coords, n: PublicKey)
    requires n in net
    ensures IsWalk(net, dest, [n])
  {
  }

  lemma {:induction false} TurnsExist(net: Routers, root: Root, since: Time, left: set<PublicKey>)
    returns (turns: seq<Turn>)
    requires Steady(net, root) && RootLeads(net, root) && left <= net.Keys - {root.publicKey}
    ensures AreTurns(net, root, since, turns)
    ensures forall i :: 0 <= i < |turns| ==> turns[i].walk != [] && turns[i].walk[0] in left
    ensures forall n :: n in left ==> HasTurn(turns, n)
    decreases left
  {
    hide Steady, RootLeads, IsTurn;
    if left == {} {
      turns := [];
    } else {
      var n :| n in left;
      var turn := TurnExists(net, root, since, n);
      TurnHasWalk(net, root, since, turn);
      var others := TurnsExist(net, root, since, left - {n});
      turns := others + [turn];
      assert turns[|others|] == turn;
      assert HasTurn(turns, n);
      forall k | k in left && k != n ensures HasTurn(turns, k) {
        assert HasTurn(others, k);
        MoreHaveTurns(others, turn, k);
      }
    }
  }

  lemma MoreHaveTurns(turns: seq<Turn>, turn: Turn, n: PublicKey)
    requires HasTurn(turns, n)
    ensures HasTurn(turns + [turn], n)
  {
    var i :| 0 <= i < |turns| && turns[i].walk != [] && turns[i].walk[0] == n;
    assert (turns + [turn])[i] == turns[i];
  }

  /** From every steady network without paths a series of set-ups leads to one that delivers all traffic and all
      bootstraps: `Delivery.SnekRoutingDelivers` applies to it. */
  lemma SnakeCanGrow(start: Routers, root: Root, now: Time) returns (turns: seq<Turn>, L: nat)
    requires Steady(start, root) && RootLeads(start, root) && NoPaths(start)
    ensures AreTurns(start, root, now, turns) && AllTakeTurns(start, root, turns)
    ensures forall bootstrap :: Snaked(AfterTurns(start, turns), root, now, bootstrap, WaysOf(turns))
    ensures Bounded(AfterTurns(start, turns), WaysOf(turns), L)
  {
    hide Steady, RootLeads, NoPaths, AreTurns, Bounded;
    turns := TurnsExist(start, root, now, start.Keys - {root.publicKey});
    forall bootstrap ensures Snaked(AfterTurns(start, turns), root, now, bootstrap, WaysOf(turns)) {
      SnakeIsGrown(start, root, now, turns, now, bootstrap);
    }
    L := BoundExists(AfterTurns(start, turns), WaysOf(turns));
  }

  /** The hypotheses describe something: the pair with empty tables. */
  lemma GrowthStartExists()
    ensures var empty := SnekState(None, None, map[], None, multiset{});
            var net, root := PairOf(empty, empty), Root(2, 0);
            Steady(net, root) && RootLeads(net, root) && NoPaths(net)
  {
    hide Steady, Pair, RootIsStrongest;
    var empty := SnekState(None, None, map[], None, multiset{});
    PairIsSteady(empty, empty);
    PairIsJoined();
  }
}

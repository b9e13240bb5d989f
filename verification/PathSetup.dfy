/** Setting up a path across a network: the setup's walk to the destination and the acknowledgement's way back
    (src/router.rs:529-538 and 1100-1428). */
module PathSetup {
  import opened Types
  import opened Coordinates
  import opened Announcements
  import opened Frames
  import opened Tree
  import opened Snek
  import opened SnekProtocol
  import opened Machine
  import opened Runs
  import opened Network

  type Routers = map<PublicKey, RouterState>

  function Trees(net: Routers): Net {
    map n | n in net :: net[n].tree
  }

  /** No two ports lead to one peer, so a peer's port can be told. */
  ghost predicate OnePortPerPeer(t: TreeState) {
    forall p, q :: p in t.ports && q in t.ports && t.ports[p].Some? && t.ports[p] == t.ports[q] ==> p == q
  }

  /** A converged network in which every lookup has one answer. */
  ghost predicate Steady(net: Routers, root: Root) {
    && Converged(Trees(net), root)
    && forall n :: n in net ==> OrdersDistinct(net[n].tree) && OnePortPerPeer(net[n].tree) && 0 !in net[n].tree.ports
  }

  ghost predicate HasPort(t: TreeState, peer: PublicKey) {
    exists p: Port :: IsPortOf(t, peer, p)
  }

  ghost function PortTo(t: TreeState, peer: PublicKey): (p: Port)
    requires HasPort(t, peer)
    ensures IsPortOf(t, peer, p)
  {
    var p: Port :| IsPortOf(t, peer, p);
    p
  }

  // ---- Frames in flight ----

  datatype Message = Message(from: PublicKey, to: PublicKey, frame: Frame)

  function Outbox(from: PublicKey, sent: seq<Envelope>): seq<Message> {
    seq(|sent|, i requires 0 <= i < |sent| => Message(from, sent[i].to, sent[i].frame))
  }

  /** `handle_frame` for the frames of the set-up exchange: the receiver's state changes and frames go out. A setup
      without a next hop, or a frame from someone who is no peer, panics in an unwrap and changes nothing. */
  ghost function Delivered(net: Routers, msg: Message, now: Time): (Routers, seq<Message>) {
    if msg.to !in net || !Signed(net[msg.to].tree) || !HasPort(net[msg.to].tree, msg.from) then (net, [])
    else
      var r := net[msg.to];
      var from := PortTo(r.tree, msg.from);
      match msg.frame
      case SnekSetup(rx) =>
        var hop := TreeHop(r.tree, rx.destination, msg.from);
        if hop.None? || !HasPort(r.tree, hop.value) then (net, [])
        else
          var e := OnSetup(r, from, rx, PortTo(r.tree, hop.value), now);
          (net[msg.to := e.state], Outbox(msg.to, e.sent))
      case SnekSetupAck(rx) =>
        var e := OnSetupAck(r, from, rx);
        (net[msg.to := e.state], Outbox(msg.to, e.sent))
      case SnekTeardown(rx) => (net[msg.to := OnTeardown(r, from, rx)], [])
      case _ => (net, [])
  }

  /** n deliveries, oldest frame first; the one numbered i happens at clock(i). */
  ghost function Exchange(net: Routers, msgs: seq<Message>, n: nat,
      clock: nat -> Time, tick: nat): (Routers, seq<Message>)
    decreases n
  {
    if n == 0 || msgs == [] then (net, msgs)
    else
      var (net', out) := Delivered(net, msgs[0], clock(tick));
      Exchange(net', msgs[1..] + out, n - 1, clock, tick + 1)
  }

  /** In a steady network whatever hop and ports the program finds for a setup are the ones named above. */
  lemma DeliveryIsDetermined(net: Routers, root: Root, from: PublicKey, to: PublicKey, rx: Setup, now: Time,
      port: Port, hop: PublicKey, next: Port)
    requires Steady(net, root) && to in net && from != to
    requires IsPortOf(net[to].tree, from, port) && IsPortOf(net[to].tree, hop, next)
    requires IsTreeHop(net[to].tree, rx.destination, from, Some(hop))
    ensures var e := OnSetup(net[to], port, rx, next, now);
            Delivered(net, Message(from, to, SnekSetup(rx)), now) == (net[to := e.state], Outbox(to, e.sent))
  {
    hide IsTreeHop, OnSetup, Converged;
    RootIsShared(Trees(net), root, to);
    KeyedByNode(Trees(net), root, to);
    var t := net[to].tree;
    TreeHopUnique(t, rx.destination, from, Some(hop), TreeHop(t, rx.destination, from));
    OnePort(net, root, to, from, port, PortTo(t, from));
    if hop != to { OnePort(net, root, to, hop, next, PortTo(t, hop)); }
  }

  // ---- The chain of entries ----

  /** The i-th node of w holds the path's entry, between the ports to the node before and the node after; it is
      active from activeFrom on. */
  ghost predicate EntryAt(net: Routers, w: seq<PublicKey>, index: PathIndex, i: nat, activeFrom: nat)
    requires i < |w|
  {
    && w[i] in net && index in net[w[i]].snek.paths
    && var e := net[w[i]].snek.paths[index];
    && e.index == index && (e.active <==> i >= activeFrom)
    && (if i == 0 then e.source == 0 else e.source != 0 && IsPortOf(net[w[i]].tree, w[i - 1], e.source))
    && (if i == |w| - 1 then e.destination == 0
      else e.destination != 0 && IsPortOf(net[w[i]].tree, w[i + 1], e.destination))
  }

  /** The caches of the two ends: the candidate until the origin's entry is active, then the ascending path; and the
      descending path once the setup has arrived. */
  ghost predicate EndsCached(net: Routers, w: seq<PublicKey>, index: PathIndex, upTo: nat, activeFrom: nat)
    requires upTo < |w| && EntryAt(net, w, index, 0, activeFrom) && EntryAt(net, w, index, upTo, activeFrom)
  {
    var first, last := net[w[0]].snek, net[w[upTo]].snek;
    && (if activeFrom == 0 then first.ascending == Some(first.paths[index]) && first.candidate.None?
        else first.candidate == Some(first.paths[index].(active := true)))
    && (upTo == |w| - 1 ==> last.descending == Some(last.paths[index]))
  }

  /** No spawned teardown waits for the path. */
  ghost predicate Unthreatened(s: SnekState, index: PathIndex) {
    forall p: Port :: Pending(p, index) !in s.pending
  }

  ghost predicate NotDescending(s: SnekState, index: PathIndex) {
    s.descending.Some? ==> s.descending.value.index != index
  }

  /** Nowhere does a teardown wait for the path, and the destination does not still cache a path under its index. */
  ghost predicate Quiet(net: Routers, w: seq<PublicKey>, index: PathIndex) {
    && (forall n :: n in net ==> Unthreatened(net[n].snek, index))
    && (w != [] && w[|w| - 1] in net ==> NotDescending(net[w[|w| - 1]].snek, index))
  }

  /** The tables hold the same but for the path at index. */
  ghost predicate SameOthers(s: SnekState, s': SnekState, index: PathIndex) {
    forall j :: j != index ==> (j in s.paths <==> j in s'.paths) && (j in s.paths ==> s'.paths[j] == s.paths[j])
  }

  ghost predicate IdleFor(s: SnekState, index: PathIndex) {
    s.candidate.Some? ==> s.candidate.value.index != index
  }

  /** What handling a frame of one path may change: its entry, our ascending path if it is the candidate's, and our
      descending path if we are its destination. */
  ghost predicate Touches(s: SnekState, s': SnekState, index: PathIndex, atEnd: bool) {
    && SameOthers(s, s', index)
    && (IdleFor(s, index) ==> s'.ascending == s.ascending && s'.candidate == s.candidate)
    && (!atEnd ==> s'.descending == s.descending)
  }

  /** What setting up a path along w leaves alone at n: other entries, the cached paths of all but its ends, and all
      nodes elsewhere. */
  ghost predicate KeptAt(r: RouterState, r': RouterState, w: seq<PublicKey>, index: PathIndex, n: PublicKey)
    requires w != []
  {
    && SameOthers(r.snek, r'.snek, index)
    && (n != w[0] && IdleFor(r.snek, index)
      ==> r'.snek.ascending == r.snek.ascending && r'.snek.candidate == r.snek.candidate)
    && (n != w[|w| - 1] ==> r'.snek.descending == r.snek.descending)
    && (n !in w ==> r' == r)
  }

  lemma KeptThenTouched(r: RouterState, r1: RouterState, r2: RouterState, w: seq<PublicKey>, index: PathIndex,
      n: PublicKey)
    requires w != [] && n in w && KeptAt(r, r1, w, index, n) && Touches(r1.snek, r2.snek, index, n == w[|w| - 1])
    ensures KeptAt(r, r2, w, index, n)
  {
  }

  lemma SetupTouches(r: RouterState, from: Port, rx: Setup, next: Port, now: Time)
    ensures Touches(r.snek, OnSetup(r, from, rx, next, now).state.snek, PathIndex(rx.sourceKey, rx.pathId),
      rx.destinationKey == r.tree.key)
  {
    hide AcceptsSetup, SentVia, Rejection, CurrentRoot;
  }

  lemma AckTouches(r: RouterState, from: Port, rx: SetupAck, atEnd: bool)
    requires var index := PathIndex(rx.destinationKey, rx.pathId);
      index in r.snek.paths && r.snek.paths[index].index == index
    ensures Touches(r.snek, OnSetupAck(r, from, rx).state.snek, PathIndex(rx.destinationKey, rx.pathId), atEnd)
  {
    hide SentVia;
  }

  /** Entries 0 to upTo are installed, and nothing ahead of them has changed. */
  ghost predicate Progress(before: Routers, net: Routers, w: seq<PublicKey>, index: PathIndex, upTo: nat,
      activeFrom: nat) {
    && upTo < |w| && net.Keys == before.Keys
    && (forall n :: n in net ==> net[n].tree == before[n].tree)
    && (forall i :: upTo < i < |w| && w[i] in net ==> net[w[i]] == before[w[i]])
    && (forall i :: 0 <= i <= upTo ==> EntryAt(net, w, index, i, activeFrom))
    && EndsCached(net, w, index, upTo, activeFrom)
    && (Quiet(before, w, index) ==> forall n :: n in net ==> Unthreatened(net[n].snek, index))
    && (forall n {:trigger KeptAt(before[n], net[n], w, index, n)} ::
      n in net ==> KeptAt(before[n], net[n], w, index, n))
  }

  /** The walk a setup takes through a steady network, to a node that holds no such path yet. */
  ghost predicate SetupWalk(net: Routers, root: Root, w: seq<PublicKey>, rx: Setup, index: PathIndex) {
    && Steady(net, root) && |w| > 1
    && rx.destinationKey == w[|w| - 1] && w[|w| - 1] in net && rx.destination == OwnCoords(net[w[|w| - 1]].tree)
    && IsWalk(Trees(net), rx.destination, w)
    && rx.root == root && index == PathIndex(rx.sourceKey, rx.pathId)
    && forall n :: n in net ==> index !in net[n].snek.paths
  }

  /** What a walk says about node i: its neighbours on the walk are peers, and the next one is the tree hop. */
  lemma WalkNeighbours(net: Routers, root: Root, w: seq<PublicKey>, rx: Setup, index: PathIndex, i: nat)
    requires SetupWalk(net, root, w, rx, index) && i < |w|
    ensures w[i] in net && var t := net[w[i]].tree; t.key == w[i] && Signed(t) && CurrentRoot(t) == root
    ensures i > 0 ==> w[i - 1] != w[i] && HasPeer(net[w[i]].tree, w[i - 1])
    ensures i < |w| - 1 ==> w[i + 1] != w[i] && HasPeer(net[w[i]].tree, w[i + 1]) && w[i] != rx.destinationKey
    ensures TreeHop(net[w[i]].tree, rx.destination, Sender(w, i)) == Some(if i < |w| - 1 then w[i + 1] else w[i])
  {
    hide Converged, IsTreeHop;
    var trees, t := Trees(net), net[w[i]].tree;
    KeyedByNode(trees, root, w[i]);
    RootIsShared(trees, root, w[i]);
    if i > 0 {
      KeyedByNode(trees, root, w[i - 1]);
      HopIsPeer(trees[w[i - 1]], rx.destination, Sender(w, i - 1), w[i]);
      LinksGoBothWays(trees, root, w[i - 1], w[i]);
    }
    if i < |w| - 1 {
      assert IsTreeHop(trees[w[i]], rx.destination, Sender(w, i), Some(w[i + 1]));
      HopIsPeer(t, rx.destination, Sender(w, i), w[i + 1]);
      TreeHopUnique(t, rx.destination, Sender(w, i), Some(w[i + 1]), TreeHop(t, rx.destination, Sender(w, i)));
      WalkVisitsOnce(trees, root, rx.destinationKey, w, i, |w| - 1);
    } else {
      HopAtHome(t, rx.destination, Sender(w, i), TreeHop(t, rx.destination, Sender(w, i)));
    }
  }

  lemma SamePending(s: SnekState, s': SnekState, index: PathIndex)
    requires s.pending == s'.pending
    ensures Unthreatened(s, index) <==> Unthreatened(s', index)
  {
  }

  /** The teardowns an accepted ACK spawns are for other paths than the new one. */
  lemma ReplacedSparesNew(s: SnekState, sourceKey: PublicKey, index: PathIndex)
    requires index !in s.paths && Unthreatened(s, index)
    ensures Unthreatened(Spawned(s, multiset(Replaced(s, sourceKey))), index)
  {
  }

  lemma PeerHasPort(t: TreeState, peer: PublicKey)
    requires HasPeer(t, peer) && peer != t.key && 0 !in t.ports
    ensures HasPort(t, peer) && PortTo(t, peer) != 0 && PeerOnPort(t, PortTo(t, peer)) == Some(peer)
  {
    var p :| p in t.ports && t.ports[p] == Some(peer);
    assert IsPortOf(t, peer, p);
  }

  /** Port, peer and the frame for it. */
  lemma SentToPeer(t: TreeState, from: PublicKey, port: Port, peer: PublicKey, frame: Frame)
    requires PeerOnPort(t, port) == Some(peer) && peer != t.key
    ensures Outbox(from, SentVia(t, port, frame)) == [Message(from, peer, frame)]
  {
  }

  /** Handling a setup on its walk: the ports it comes from and goes on to are those of the walk's neighbours. */
  lemma SetupIsHandled(before: Routers, net: Routers, root: Root, w: seq<PublicKey>, rx: Setup, index: PathIndex,
      i: nat, now: Time)
    returns (from: Port, next: Port)
    requires SetupWalk(before, root, w, rx, index) && 0 < i < |w|
    requires w[i] in net && w[i] in before && net[w[i]].tree == before[w[i]].tree
    ensures var t := net[w[i]].tree;
            && t.key == w[i] && CurrentRoot(t) == root && w[i - 1] != w[i]
            && from != 0 && IsPortOf(t, w[i - 1], from) && PeerOnPort(t, from) == Some(w[i - 1])
            && (i == |w| - 1 ==> next == 0)
            && (i < |w| - 1 ==>
                  && w[i] != rx.destinationKey && w[i + 1] != w[i]
                  && next != 0 && IsPortOf(t, w[i + 1], next) && PeerOnPort(t, next) == Some(w[i + 1]))
    ensures var e := OnSetup(net[w[i]], from, rx, next, now);
            Delivered(net, Message(w[i - 1], w[i], SnekSetup(rx)), now) == (net[w[i] := e.state], Outbox(w[i], e.sent))
  {
    hide Steady, IsWalk, Signed, CurrentRoot, IsTreeHop, OnSetup, HasPeer;
    WalkNeighbours(before, root, w, rx, index, i);
    NoPortZero(before, root, w[i]);
    var t := net[w[i]].tree;
    PeerHasPort(t, w[i - 1]);
    from := PortTo(t, w[i - 1]);
    if i < |w| - 1 {
      PeerHasPort(t, w[i + 1]);
      next := PortTo(t, w[i + 1]);
    } else {
      assert IsPortOf(t, w[i], 0);
      next := 0;
    }
  }

  /** Handling the acknowledgement on its way back: it comes from the port the entry leads on to. */
  lemma AckIsHandled(before: Routers, net: Routers, root: Root, w: seq<PublicKey>, rx: Setup, index: PathIndex,
      i: nat, now: Time)
    returns (from: Port)
    requires SetupWalk(before, root, w, rx, index) && i < |w| - 1
    requires w[i] in net && w[i] in before && net[w[i]].tree == before[w[i]].tree && EntryAt(net, w, index, i, i + 1)
    ensures net[w[i]].tree.key == w[i] && from == net[w[i]].snek.paths[index].destination
    ensures i > 0
      ==> w[i - 1] != w[i] && PeerOnPort(net[w[i]].tree, net[w[i]].snek.paths[index].source) == Some(w[i - 1])
    ensures var e := OnSetupAck(net[w[i]], from, AckFor(rx));
            Delivered(net, Message(w[i + 1], w[i], SnekSetupAck(AckFor(rx))), now)
              == (net[w[i] := e.state], Outbox(w[i], e.sent))
  {
    hide Steady, IsWalk, Signed, CurrentRoot, IsTreeHop, OnSetupAck, HasPeer;
    WalkNeighbours(before, root, w, rx, index, i);
    NoPortZero(before, root, w[i]);
    var t := net[w[i]].tree;
    PeerHasPort(t, w[i + 1]);
    from := PortTo(t, w[i + 1]);
    OnePort(before, root, w[i], w[i + 1], from, net[w[i]].snek.paths[index].destination);
  }

  /** A setup reaches a node between the ends: it installs an inactive entry and passes the setup on. */
  lemma SetupPasses(before: Routers, net: Routers, root: Root, w: seq<PublicKey>, rx: Setup, index: PathIndex, i: nat,
      now: Time)
    requires SetupWalk(before, root, w, rx, index) && 0 < i < |w| - 1
    requires Progress(before, net, w, index, i - 1, |w|)
    ensures var (net', out) := Delivered(net, Message(w[i - 1], w[i], SnekSetup(rx)), now);
            Progress(before, net', w, index, i, |w|) && out == [Message(w[i], w[i + 1], SnekSetup(rx))]
  {
    hide Steady, IsWalk, CurrentRoot, Delivered, OnSetupAtEnd, Rejection, Quiet, KeptAt, Touches;
    WalkStays(before, root, w, rx, index, i);
    var from, next := SetupIsHandled(before, net, root, w, rx, index, i, now);
    var r := net[w[i]];
    SentToPeer(r.tree, w[i], next, w[i + 1], SnekSetup(rx));
    var e := OnSetup(r, from, rx, next, now);
    assert e.sent == SentVia(r.tree, next, SnekSetup(rx));
    SetupTouches(r, from, rx, next, now);
    OthersStay(before, net, root, w, rx, index, i - 1, |w|, i, e.state);
    assert EntryAt(net[w[i] := e.state], w, index, i, |w|);
  }

  lemma WalkStays(net: Routers, root: Root, w: seq<PublicKey>, rx: Setup, index: PathIndex, i: nat)
    requires SetupWalk(net, root, w, rx, index) && i < |w|
    ensures w[i] in net
  {
    hide Steady;
  }

  lemma NoPortZero(net: Routers, root: Root, n: PublicKey)
    requires Steady(net, root) && n in net
    ensures 0 !in net[n].tree.ports && OnePortPerPeer(net[n].tree)
  {
  }

  /** Changing one node on the walk leaves the others, and the entries they hold, as they were. */
  lemma OthersStay(before: Routers, net: Routers, root: Root, w: seq<PublicKey>, rx: Setup, index: PathIndex,
      upTo: nat, activeFrom: nat, i: nat, state: RouterState)
    requires SetupWalk(before, root, w, rx, index) && i < |w|
    requires Progress(before, net, w, index, upTo, activeFrom)
    requires w[i] in net && state.tree == net[w[i]].tree && Touches(net[w[i]].snek, state.snek, index, i == |w| - 1)
    ensures var net' := net[w[i] := state];
            && net'.Keys == before.Keys && (forall n :: n in net' ==> net'[n].tree == before[n].tree)
            && (forall j :: upTo < j < |w| && j != i && w[j] in net' ==> net'[w[j]] == before[w[j]])
            && (forall j :: 0 <= j <= upTo && j != i ==> EntryAt(net', w, index, j, activeFrom))
            && (forall j :: 0 <= j < |w| && j != i && w[j] in net' ==> net'[w[j]] == net[w[j]])
            && (Quiet(before, w, index) && Unthreatened(state.snek, index) ==> forall n ::
              n in net' ==> Unthreatened(net'[n].snek, index))
            && (forall n {:trigger KeptAt(before[n], net'[n], w, index, n)} ::
              n in net' ==> KeptAt(before[n], net'[n], w, index, n))
  {
    hide Steady, IsWalk, IsPortOf, Unthreatened, KeptAt, Touches;
    var net' := net[w[i] := state];
    if i < |w| - 1 { AllDifferent(before, root, w, rx, index, i, |w| - 1); }
    assert KeptAt(before[w[i]], net[w[i]], w, index, w[i]);
    KeptThenTouched(before[w[i]], net[w[i]], state, w, index, w[i]);
    forall n | n in net' ensures KeptAt(before[n], net'[n], w, index, n) {
      if n != w[i] { assert KeptAt(before[n], net[n], w, index, n); }
    }
    forall j | 0 <= j < |w| && j != i
      ensures w[j] != w[i]
    {
      AllDifferent(before, root, w, rx, index, i, j);
    }
    forall j | 0 <= j <= upTo && j != i
      ensures EntryAt(net', w, index, j, activeFrom)
    {
      assert EntryAt(net, w, index, j, activeFrom);
    }
  }

  lemma AllDifferent(net: Routers, root: Root, w: seq<PublicKey>, rx: Setup, index: PathIndex, i: nat, j: nat)
    requires SetupWalk(net, root, w, rx, index) && i < |w| && j < |w| && i != j
    ensures w[i] != w[j]
  {
    hide Converged, IsWalk;
    if i < j { WalkVisitsOnce(Trees(net), root, rx.destinationKey, w, i, j); }
    else { WalkVisitsOnce(Trees(net), root, rx.destinationKey, w, j, i); }
  }

  function AckFor(rx: Setup): SetupAck {
    SetupAck(rx.root, rx.sourceKey, rx.pathId)
  }

  /** What taking a setup as its destination does. */
  lemma SetupIsTaken(r: RouterState, from: Port, rx: Setup, next: Port, now: Time)
    requires CurrentRoot(r.tree) == rx.root && rx.destinationKey == r.tree.key && AcceptsSetup(r, rx, now)
    requires PathIndex(rx.sourceKey, rx.pathId) !in r.snek.paths
    ensures var e, entry := OnSetup(r, from, rx, next, now), EndEntry(rx, from, now);
            && e.sent == SentVia(r.tree, from, SnekSetupAck(AckFor(rx)))
            && e.state.tree == r.tree && e.state.snek.ascending == r.snek.ascending
              && e.state.snek.candidate == r.snek.candidate
            && e.state.snek.paths == r.snek.paths[entry.index := entry] && e.state.snek.descending == Some(entry)
            && (Unthreatened(r.snek, entry.index) && NotDescending(r.snek, entry.index) ==>
                  Unthreatened(e.state.snek, entry.index))
  {
    hide AcceptsSetup, SentVia, Rejection, CurrentRoot;
  }

  /** The setup reaches its destination: the last entry is installed, active, as the descending path, and the
      acknowledgement starts back. */
  lemma SetupArrives(before: Routers, net: Routers, root: Root, w: seq<PublicKey>, rx: Setup, index: PathIndex,
      now: Time)
    requires SetupWalk(before, root, w, rx, index)
    requires Progress(before, net, w, index, |w| - 2, |w|)
    requires AcceptsSetup(before[w[|w| - 1]], rx, now)
    ensures var i := |w| - 1; var (net', out) := Delivered(net, Message(w[i - 1], w[i], SnekSetup(rx)), now);
            Progress(before, net', w, index, i, i) && out == [Message(w[i], w[i - 1], SnekSetupAck(AckFor(rx)))]
  {
    hide Steady, IsWalk, CurrentRoot, Delivered, AcceptsSetup, OnSetup, KeptAt, Touches, Unthreatened;
    var i := |w| - 1;
    WalkStays(before, root, w, rx, index, i);
    var from, next := SetupIsHandled(before, net, root, w, rx, index, i, now);
    var r := net[w[i]];
    assert r == before[w[i]];
    SentToPeer(r.tree, w[i], from, w[i - 1], SnekSetupAck(AckFor(rx)));
    var e := OnSetup(r, from, rx, 0, now);
    SetupIsTaken(r, from, rx, 0, now);
    SetupTouches(r, from, rx, 0, now);
    OthersStay(before, net, root, w, rx, index, i - 1, |w|, i, e.state);
    assert EntryAt(net[w[i] := e.state], w, index, i, i);
    var net' := net[w[i] := e.state];
    forall j | 0 <= j < i
      ensures EntryAt(net', w, index, j, i)
    {
      assert EntryAt(net', w, index, j, |w|);
    }
  }

  lemma OnePort(net: Routers, root: Root, n: PublicKey, peer: PublicKey, p: Port, q: Port)
    requires Steady(net, root) && n in net && net[n].tree.key == n && peer != n
    requires IsPortOf(net[n].tree, peer, p) && IsPortOf(net[n].tree, peer, q)
    ensures p == q
  {
  }

  /** The acknowledgement reaches a node that holds an entry from the node after it: the entry becomes active, and
      the acknowledgement goes on to the node before, or at the origin the candidate becomes the ascending path. */
  lemma AckPasses(before: Routers, net: Routers, root: Root, w: seq<PublicKey>, rx: Setup, index: PathIndex, i: nat,
      now: Time)
    requires SetupWalk(before, root, w, rx, index) && i < |w| - 1
    requires Progress(before, net, w, index, |w| - 1, i + 1)
    ensures var (net', out) := Delivered(net, Message(w[i + 1], w[i], SnekSetupAck(AckFor(rx))), now);
            && Progress(before, net', w, index, |w| - 1, i)
            && out == (if i == 0 then [] else [Message(w[i], w[i - 1], SnekSetupAck(AckFor(rx)))])
  {
    hide Steady, IsWalk, CurrentRoot, Delivered, Quiet, Unthreatened, KeptAt, Touches;
    WalkStays(before, root, w, rx, index, i);
    assert EntryAt(net, w, index, i, i + 1);
    var from := AckIsHandled(before, net, root, w, rx, index, i, now);
    var r := net[w[i]];
    if i > 0 { SentToPeer(r.tree, w[i], r.snek.paths[index].source, w[i - 1], SnekSetupAck(AckFor(rx))); }
    var e := OnSetupAck(r, from, AckFor(rx));
    SamePending(r.snek, e.state.snek, index);
    AckTouches(r, from, AckFor(rx), i == |w| - 1);
    OthersStay(before, net, root, w, rx, index, |w| - 1, i + 1, i, e.state);
    var net' := net[w[i] := e.state];
    assert EntryAt(net', w, index, i, i);
    forall j | 0 <= j <= |w| - 1
      ensures EntryAt(net', w, index, j, i)
    {
      if j != i { assert EntryAt(net', w, index, j, i + 1); }
    }
  }

  /** The acknowledgement's way back. */
  lemma {:induction false} AckPhase(before: Routers, net: Routers, root: Root, w: seq<PublicKey>, rx: Setup,
      index: PathIndex,
      i: nat, clock: nat -> Time, tick: nat)
    requires SetupWalk(before, root, w, rx, index) && i < |w| - 1
    requires Progress(before, net, w, index, |w| - 1, i + 1)
    ensures var (net', left) := Exchange(net, [Message(w[i + 1], w[i], SnekSetupAck(AckFor(rx)))], i + 1, clock, tick);
            Progress(before, net', w, index, |w| - 1, 0) && left == []
    decreases i
  {
    hide SetupWalk, Progress, Delivered;
    AckPasses(before, net, root, w, rx, index, i, clock(tick));
    var msg := Message(w[i + 1], w[i], SnekSetupAck(AckFor(rx)));
    var (net', out) := Delivered(net, msg, clock(tick));
    assert [msg][1..] + out == out;
    if i > 0 { AckPhase(before, net', root, w, rx, index, i - 1, clock, tick + 1); }
  }

  /** The setup's way out, and then the acknowledgement's back. */
  lemma {:induction false} SetupPhase(before: Routers, net: Routers, root: Root, w: seq<PublicKey>, rx: Setup,
      index: PathIndex,
      i: nat, clock: nat -> Time, tick: nat)
    requires SetupWalk(before, root, w, rx, index) && 0 < i < |w|
    requires Progress(before, net, w, index, i - 1, |w|)
    requires w[|w| - 1] in before && AcceptsSetup(before[w[|w| - 1]], rx, clock(tick + |w| - 1 - i))
    ensures var (net', left) := Exchange(net, [Message(w[i - 1], w[i], SnekSetup(rx))], 2 * |w| - 1 - i, clock, tick);
            Progress(before, net', w, index, |w| - 1, 0) && left == []
    decreases |w| - i
  {
    hide SetupWalk, Progress, Delivered, AcceptsSetup;
    var msg := Message(w[i - 1], w[i], SnekSetup(rx));
    var (net', out) := Delivered(net, msg, clock(tick));
    assert [msg][1..] + out == out;
    if i < |w| - 1 {
      SetupPasses(before, net, root, w, rx, index, i, clock(tick));
      SetupPhase(before, net', root, w, rx, index, i + 1, clock, tick + 1);
    } else {
      SetupArrives(before, net, root, w, rx, index, clock(tick));
      AckPhase(before, net', root, w, rx, index, i - 1, clock, tick + 1);
    }
  }

  /** The network once the origin has accepted a bootstrap ACK and sent its setup. */
  ghost function Started(net: Routers, origin: PublicKey, ack: BootstrapAck, now: Time): (Routers, seq<Message>)
    requires origin in net
  {
    var r := net[origin];
    if !Signed(r.tree) then (net, [])
    else
      var hop := TreeHop(r.tree, ack.sourceCoords, origin);
      var e := OnBootstrapAck(r, ack, now, hop, if hop.Some? && HasPort(r.tree, hop.value)
        then PortTo(r.tree, hop.value) else 0);
      (net[origin := e.state], Outbox(origin, e.sent))
  }

  /** The first node of w accepts a bootstrap ACK from the last, whose coordinates it carries and to which w is the
      tree walk; the path id is new to everyone. */
  ghost predicate AckAccepted(net: Routers, root: Root, ack: BootstrapAck, w: seq<PublicKey>, now: Time) {
    && Steady(net, root) && |w| > 1 && w[0] in net && w[|w| - 1] in net
    && ack.sourceKey == w[|w| - 1] && ack.sourceCoords == OwnCoords(net[w[|w| - 1]].tree)
    && IsWalk(Trees(net), ack.sourceCoords, w)
    && AcceptsAck(net[w[0]], ack, now)
    && forall n :: n in net ==> PathIndex(w[0], ack.pathId) !in net[n].snek.paths
  }

  /** Every node of w holds an active entry for the path between the ports of its neighbours on w, cached at both
      ends. */
  ghost predicate Installed(net: Routers, w: seq<PublicKey>, index: PathIndex) {
    && w != [] && (forall i :: 0 <= i < |w| ==> EntryAt(net, w, index, i, 0))
    && EntryAt(net, w, index, 0, 0) && EntryAt(net, w, index, |w| - 1, 0)
    && net[w[0]].snek.ascending == Some(net[w[0]].snek.paths[index])
    && net[w[|w| - 1]].snek.descending == Some(net[w[|w| - 1]].snek.paths[index])
  }

  lemma ProgressIsInstalled(before: Routers, net: Routers, w: seq<PublicKey>, index: PathIndex)
    requires |w| > 1 && Progress(before, net, w, index, |w| - 1, 0)
    ensures Installed(net, w, index) && net.Keys == before.Keys && Trees(net) == Trees(before)
    ensures net[w[0]].snek.candidate.None?
    ensures Quiet(before, w, index) ==> forall n :: n in net ==> Unthreatened(net[n].snek, index)
    ensures forall n {:trigger KeptAt(before[n], net[n], w, index, n)} ::
      n in net ==> KeptAt(before[n], net[n], w, index, n)
  {
  }

  /** Path set-up. In a steady network, when a node accepts a bootstrap ACK carrying a fresh path id, from a node that
      will accept the setup: the setup and its acknowledgement take one delivery per link of the walk each, then
      nothing is in flight, and the path is installed: its ascending end at the origin, its descending end at the
      destination, under one index. */
  lemma PathSetupCompletes(net: Routers, root: Root, ack: BootstrapAck, w: seq<PublicKey>, clock: nat -> Time)
    requires AckAccepted(net, root, ack, w, clock(0))
    requires AcceptsSetup(net[w[|w| - 1]], SetupFor(net[w[0]], ack), clock(|w| - 1))
    ensures var (started, msgs) := Started(net, w[0], ack, clock(0));
            var (net', left) := Exchange(started, msgs, 2 * (|w| - 1), clock, 1);
            && left == [] && Installed(net', w, PathIndex(w[0], ack.pathId)) && Trees(net') == Trees(net)
            && net'[w[0]].snek.candidate.None?
            && (Quiet(net, w, PathIndex(w[0], ack.pathId)) ==>
                  forall n :: n in net' ==> Unthreatened(net'[n].snek, PathIndex(w[0], ack.pathId)))
            && (forall n {:trigger KeptAt(net[n], net'[n], w, PathIndex(w[0], ack.pathId), n)} ::
                  n in net' ==> n in net && KeptAt(net[n], net'[n], w, PathIndex(w[0], ack.pathId), n))
  {
    hide KeptAt, Exchange, AcceptsSetup, Started, Progress, SetupWalk, Installed, Signed, Steady, IsWalk, AcceptsAck,
      OwnCoords, Trees;
    var index, rx := PathIndex(w[0], ack.pathId), SetupFor(net[w[0]], ack);
    OriginStarts(net, root, ack, w, clock(0));
    var (started, msgs) := Started(net, w[0], ack, clock(0));
    SetupPhase(net, started, root, w, rx, index, 1, clock, 1);
    ProgressIsInstalled(net, Exchange(started, msgs, 2 * (|w| - 1), clock, 1).0, w, index);
  }

  lemma KeptSame(r: RouterState, w: seq<PublicKey>, index: PathIndex, n: PublicKey)
    requires w != []
    ensures KeptAt(r, r, w, index, n)
  {
  }

  lemma AckKeeps(r: RouterState, ack: BootstrapAck, now: Time, hop: Option<PublicKey>, port: Port, w: seq<PublicKey>)
    requires w != [] && w[0] == r.tree.key
    ensures KeptAt(r, OnBootstrapAck(r, ack, now, hop, port).state, w, PathIndex(r.tree.key, ack.pathId), w[0])
  {
    hide AcceptsAck, Replaced, SentTo;
  }

  lemma OriginStarts(net: Routers, root: Root, ack: BootstrapAck, w: seq<PublicKey>, now: Time)
    requires AckAccepted(net, root, ack, w, now)
    ensures var rx, index := SetupFor(net[w[0]], ack), PathIndex(w[0], ack.pathId);
            var (started, msgs) := Started(net, w[0], ack, now);
            && SetupWalk(net, root, w, rx, index)
            && Progress(net, started, w, index, 0, |w|)
            && msgs == [Message(w[0], w[1], SnekSetup(rx))]
  {
    hide Converged, IsWalk, CurrentRoot, IsTreeHop, Replaced, HasPeer, Unthreatened, KeptAt;
    var rx, index, origin := SetupFor(net[w[0]], ack), PathIndex(w[0], ack.pathId), w[0];
    RootIsShared(Trees(net), root, origin);
    KeyedByNode(Trees(net), root, origin);
    WalkNeighbours(net, root, w, rx, index, 0);
    var r := net[origin];
    PeerHasPort(r.tree, w[1]);
    var (started, msgs) := Started(net, origin, ack, now);
    forall j | 0 < j < |w| ensures w[j] != w[0] { AllDifferent(net, root, w, rx, index, 0, j); }
    assert EntryAt(started, w, index, 0, |w|);
    forall n | n in started ensures KeptAt(net[n], started[n], w, index, n) {
      if n == origin {
        AckKeeps(r, ack, now, Some(w[1]), PortTo(r.tree, w[1]), w);
      } else {
        KeptSame(net[n], w, index, n);
      }
    }
    if Quiet(net, w, index) {
      ReplacedSparesNew(r.snek, ack.sourceKey, index);
      SamePending(started[origin].snek, Spawned(r.snek, multiset(Replaced(r.snek, ack.sourceKey))), index);
    }
  }

  // ---- The teardowns spawned meanwhile ----

  /** The network after some nodes have run some of their spawned teardowns, each in its own order. */
  function AfterTasks(net: Routers, plan: map<PublicKey, seq<Pending>>): Routers {
    map n | n in net :: if n in plan then net[n].(snek := Drained(net[n].snek, plan[n])) else net[n]
  }

  /** The entry at index and the cached paths under that index are the same. */
  predicate Spared(s: SnekState, s': SnekState, index: PathIndex) {
    && (index in s.paths ==> index in s'.paths && s'.paths[index] == s.paths[index])
    && (s.ascending.Some? && s.ascending.value.index == index ==> s'.ascending == s.ascending)
    && (s.descending.Some? && s.descending.value.index == index ==> s'.descending == s.descending)
  }

  lemma TaskSpares(s: SnekState, task: Pending, index: PathIndex)
    requires task.index != index
    ensures Spared(s, AfterTask(s, task), index)
  {
  }

  /** Teardowns of other paths leave an entry and the cached paths that are that entry alone. */
  lemma {:induction false} DrainSpares(s: SnekState, tasks: seq<Pending>, index: PathIndex)
    requires forall t :: t in tasks ==> t.index != index
    ensures Spared(s, Drained(s, tasks), index)
    decreases |tasks|
  {
    hide AfterTask;
    if tasks != [] {
      TaskSpares(s, tasks[0], index);
      DrainSpares(AfterTask(s, tasks[0]), tasks[1..], index);
    }
  }

  /** A set-up replaces paths and spawns teardowns for them at both ends. Whichever of these and of those already
      waiting then run, in any order, the new path stays, if none was waiting for it beforehand and the destination
      did not still cache another path under its index. */
  lemma InstalledPathSurvivesTasks(net: Routers, root: Root, ack: BootstrapAck, w: seq<PublicKey>, clock: nat -> Time,
      plan: map<PublicKey, seq<Pending>>)
    requires AckAccepted(net, root, ack, w, clock(0))
    requires AcceptsSetup(net[w[|w| - 1]], SetupFor(net[w[0]], ack), clock(|w| - 1))
    requires Quiet(net, w, PathIndex(w[0], ack.pathId))
    requires var (started, msgs) := Started(net, w[0], ack, clock(0));
             var net' := Exchange(started, msgs, 2 * (|w| - 1), clock, 1).0;
             forall n :: n in plan && n in net' ==> multiset(plan[n]) <= net'[n].snek.pending
    ensures var (started, msgs) := Started(net, w[0], ack, clock(0));
            Installed(AfterTasks(Exchange(started, msgs, 2 * (|w| - 1), clock, 1).0, plan), w,
              PathIndex(w[0], ack.pathId))
  {
    hide Exchange, Started, AcceptsSetup, Installed, Steady, IsWalk, AcceptsAck, Quiet, Drained, AfterTasks;
    var index := PathIndex(w[0], ack.pathId);
    var (started, msgs) := Started(net, w[0], ack, clock(0));
    var net' := Exchange(started, msgs, 2 * (|w| - 1), clock, 1).0;
    PathSetupCompletes(net, root, ack, w, clock);
    UnthreatenedPathSurvives(net', w, index, plan);
  }

  lemma UnthreatenedPathSurvives(net: Routers, w: seq<PublicKey>, index: PathIndex, plan: map<PublicKey, seq<Pending>>)
    requires Installed(net, w, index)
    requires forall n :: n in net ==> Unthreatened(net[n].snek, index)
    requires forall n :: n in plan && n in net ==> multiset(plan[n]) <= net[n].snek.pending
    ensures Installed(AfterTasks(net, plan), w, index)
  {
    hide Drained, IsPortOf, EntryAt;
    forall i | 0 <= i < |w| ensures SameHere(net, AfterTasks(net, plan), w[i], index) {
      assert EntryAt(net, w, index, i, 0);
      EntryIsHere(net, w, index, i);
      TasksSpareHere(net, plan, w[i], index);
    }
    forall i | 0 <= i < |w| ensures EntryAt(AfterTasks(net, plan), w, index, i, 0) {
      assert SameHere(net, AfterTasks(net, plan), w[i], index);
      SameEntry(net, AfterTasks(net, plan), w, index, i);
    }
    EntryIsHere(net, w, index, 0);
    EntryIsHere(net, w, index, |w| - 1);
  }

  /** The entry, the tree and the cached paths that are the entry are the same at n. */
  ghost predicate SameHere(net: Routers, net': Routers, n: PublicKey, index: PathIndex) {
    && n in net && n in net' && net'[n].tree == net[n].tree
    && index in net[n].snek.paths && index in net'[n].snek.paths
      && net'[n].snek.paths[index] == net[n].snek.paths[index]
    && (net[n].snek.ascending == Some(net[n].snek.paths[index]) ==> net'[n].snek.ascending == net[n].snek.ascending)
    && (net[n].snek.descending == Some(net[n].snek.paths[index]) ==> net'[n].snek.descending == net[n].snek.descending)
  }

  lemma EntryIsHere(net: Routers, w: seq<PublicKey>, index: PathIndex, i: nat)
    requires i < |w| && EntryAt(net, w, index, i, 0)
    ensures w[i] in net && index in net[w[i]].snek.paths && net[w[i]].snek.paths[index].index == index
  {
  }

  lemma SameEntry(net: Routers, net': Routers, w: seq<PublicKey>, index: PathIndex, i: nat)
    requires i < |w| && EntryAt(net, w, index, i, 0) && SameHere(net, net', w[i], index)
    ensures EntryAt(net', w, index, i, 0)
  {
  }

  lemma TasksSpareHere(net: Routers, plan: map<PublicKey, seq<Pending>>, n: PublicKey, index: PathIndex)
    requires n in net && index in net[n].snek.paths && net[n].snek.paths[index].index == index
    requires Unthreatened(net[n].snek, index) && (n in plan ==> multiset(plan[n]) <= net[n].snek.pending)
    ensures SameHere(net, AfterTasks(net, plan), n, index)
  {
    hide Drained;
    if n in plan {
      forall t | t in plan[n] ensures t.index != index {
        assert t in multiset(plan[n]);
        assert t == Pending(t.from, t.index);
      }
      DrainSpares(net[n].snek, plan[n], index);
    }
  }

  // ---- Tearing it down again ----

  /** What the origin's teardown task and the one frame it sends do to an installed path. */
  ghost predicate TornAtNearEnd(net: Routers, net': Routers, w: seq<PublicKey>, index: PathIndex) {
    && |w| > 1 && w[0] in net' && w[1] in net' && w[|w| - 1] in net && w[|w| - 1] in net'
    && index !in net'[w[0]].snek.paths && index !in net'[w[1]].snek.paths && net'[w[0]].snek.ascending == None
    && (forall i :: 2 <= i < |w| ==> EntryAt(net', w, index, i, 0))
    && net'[w[|w| - 1]].snek.descending == net[w[|w| - 1]].snek.descending
  }

  /** A teardown stops after one hop. The origin's task reaches its neighbour, which removes its entry and sends
      nothing on; every entry farther along stays, and the destination keeps its descending path. */
  lemma TeardownStopsAfterOneHop(net: Routers, root: Root, w: seq<PublicKey>, index: PathIndex, now: Time)
    requires Steady(net, root) && Installed(net, w, index) && |w| > 1
    requires forall i, j :: 0 <= i < j < |w| ==> w[i] != w[j]
    ensures var e := RunPending(net[w[0]], Pending(0, index));
            var frame := TeardownFrame(net[w[0]].tree, index);
            var (net', out) := Delivered(net[w[0] := e.state], Message(w[0], w[1], frame), now);
            Outbox(w[0], e.sent) == [Message(w[0], w[1], frame)] && out == [] && TornAtNearEnd(net, net', w, index)
  {
    hide Converged, IsWalk, CurrentRoot, Signed;
    assert EntryAt(net, w, index, 0, 0) && EntryAt(net, w, index, 1, 0);
    KeyedByNode(Trees(net), root, w[0]);
    KeyedByNode(Trees(net), root, w[1]);
    RootIsShared(Trees(net), root, w[1]);
    var r0, r1 := net[w[0]], net[w[1]];
    var frame := TeardownFrame(r0.tree, index);
    var task := Pending(0, index);
    var asc := r0.snek.ascending.value;
    assert PeerOnPort(r0.tree, asc.destination) == Some(w[1]);
    SentToPeer(r0.tree, w[0], asc.destination, w[1], frame);
    var e := RunPending(r0, task);
    assert e.sent == SentVia(r0.tree, asc.destination, frame) + SentViaAll(r0.tree, [asc.destination][1..], frame);
    var from := r1.snek.paths[index].source;
    OnePort(net, root, w[1], w[0], from, PortTo(r1.tree, w[0]));
    var net1 := net[w[0] := e.state];
    var net' := Delivered(net1, Message(w[0], w[1], frame), now).0;
    assert net' == net1[w[1] := OnTeardown(r1, from, Teardown(CurrentRoot(r0.tree), index.publicKey, index.pathId))];
    forall i | 2 <= i < |w| ensures EntryAt(net', w, index, i, 0) {
      assert EntryAt(net, w, index, i, 0);
    }
  }

  // ---- The hypotheses describe something ----

  /** The pair of nodes with the given tables. */
  function PairOf(low: SnekState, high: SnekState): Routers {
    map[1 := RouterState(Pair()[1], low), 2 := RouterState(Pair()[2], high)]
  }

  lemma PairTrees(low: SnekState, high: SnekState)
    ensures Trees(PairOf(low, high)) == Pair()
  {
  }

  /** In the pair with empty tables, the root's ACK is accepted, the setup will be, and nothing is in the way. */
  lemma SetupExchangeExists()
    ensures var empty := SnekState(None, None, map[], None, multiset{});
            var net, root, ack := PairOf(empty, empty), Root(2, 0), BootstrapAck([5], 1, [], 2, Root(2, 0), 4);
            && AckAccepted(net, root, ack, [1, 2], 0) && AcceptsSetup(net[2], SetupFor(net[1], ack), 0)
            && Quiet(net, [1, 2], PathIndex(1, 4))
  {
    hide Pair, Steady, IsTreeHop, CurrentRoot, OwnCoords;
    var empty := SnekState(None, None, map[], None, multiset{});
    PairTrees(empty, empty);
    PairIsSteady(empty, empty);
    PairHop();
    assert IsWalk(Pair(), [], [1, 2]);
  }

  lemma PairIsSteady(low: SnekState, high: SnekState)
    ensures Steady(PairOf(low, high), Root(2, 0))
    ensures Pair().Keys == {1, 2} && Pair()[1].key == 1 && Pair()[2].key == 2
    ensures CurrentRoot(Pair()[1]) == Root(2, 0) == CurrentRoot(Pair()[2])
    ensures OwnCoords(Pair()[1]) == [5] && OwnCoords(Pair()[2]) == []
  {
    hide HasPeer, Converged, OrdersDistinct, OnePortPerPeer, OwnCoords, CurrentRoot;
    ConvergedNetworkExists();
    PairTrees(low, high);
    LookupsAreUnique(Pair()[1], 7, 2);
    LookupsAreUnique(Pair()[2], 5, 1);
    PairAnnouncements();
  }

  /** One port and one announcement leave nothing to choose. */
  lemma LookupsAreUnique(t: TreeState, port: Port, peer: PublicKey)
    requires t.ports.Keys == {port} && t.announcements.Keys == {peer}
    ensures OrdersDistinct(t) && OnePortPerPeer(t)
  {
  }

  lemma PairAnnouncements()
    ensures CurrentRoot(Pair()[1]) == Root(2, 0) == CurrentRoot(Pair()[2])
    ensures OwnCoords(Pair()[1]) == [5] && OwnCoords(Pair()[2]) == []
  {
  }

  /** The child's tree hop to the root is the root. */
  lemma PairHop()
    ensures IsTreeHop(Pair()[1], [], 1, Some(2))
  {
    var t := Pair()[1];
    ConvergedNetworkExists();
    hide HasPeer;
    assert SenderCoords(t.announcements[2]) == [];
    assert CommonPrefix([], [5]) == 0;
    assert Closer(t, [], 1, 2);
  }
}

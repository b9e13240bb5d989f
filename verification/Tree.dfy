/** What a router knows about the spanning tree, and greedy routing over it (the tree half of src/router.rs). */
module Tree {
  import opened Types
  import opened Coordinates
  import opened Announcements

  const ANNOUNCEMENT_TIMEOUT: Time := 45 * 60 * 1000
  const REPARENT_WAIT_TIME: Time := 1000

  /** The fields of `Router` the tree protocol uses. A port maps to None while it is reserved for a connection. */
  datatype TreeState = TreeState(
    key: PublicKey,
    ports: map<Port, Option<PublicKey>>,
    parent: PublicKey,
    announcements: map<PublicKey, Announcement>,
    sequence: U64,
    ordering: U64,
    reparentTimer: Option<Time>)

  predicate HasPeer(s: TreeState, peer: PublicKey) {
    exists p :: p in s.ports && s.ports[p] == Some(peer)
  }

  /** `port`: 0 is the router itself. Which of several ports to one peer is found is left open. */
  predicate IsPortOf(s: TreeState, peer: PublicKey, port: Port) {
    if peer == s.key then port == 0 else port in s.ports && s.ports[port] == Some(peer)
  }

  /** `get_peer_on_port`. */
  function PeerOnPort(s: TreeState, port: Port): Option<PublicKey> {
    if port == 0 then Some(s.key) else if port in s.ports then s.ports[port] else None
  }

  /** Root and signatures of `current_announcement`: the parent's announcement, or an empty one of our own. */
  function CurrentRoot(s: TreeState): Root {
    if s.parent in s.announcements then s.announcements[s.parent].root else Root(s.key, s.sequence)
  }

  function CurrentSignatures(s: TreeState): seq<RootSignature> {
    if s.parent in s.announcements then s.announcements[s.parent].signatures else []
  }

  function OwnCoords(s: TreeState): Coords {
    PortsOf(CurrentSignatures(s))
  }

  /** Every stored announcement has a signature, so `peer_coords` never underflows. */
  ghost predicate Signed(s: TreeState) {
    forall k :: k in s.announcements ==> s.announcements[k].signatures != []
  }

  /** No two stored announcements arrived at the same place in the order. */
  ghost predicate OrdersDistinct(s: TreeState) {
    forall a, b :: a in s.announcements && b in s.announcements && a != b
      ==> s.announcements[a].receiveOrder != s.announcements[b].receiveOrder
  }

  // ---- next_tree_hop ----

  function DistanceVia(s: TreeState, peer: PublicKey, dest: Coords): nat
    requires peer in s.announcements && s.announcements[peer].signatures != []
  {
    Distance(SenderCoords(s.announcements[peer]), dest)
  }

  /** peer follows the same root, did not send the frame, and is strictly closer to dest than we are. */
  predicate Closer(s: TreeState, dest: Coords, from: PublicKey, peer: PublicKey) {
    && peer != from && peer in s.announcements && s.announcements[peer].signatures != []
    && s.announcements[peer].root == CurrentRoot(s)
    && DistanceVia(s, peer, dest) < Distance(dest, OwnCoords(s))
  }

  /** peer a is a better hop than b, or as good: closer, then heard from earlier. */
  predicate NoWorse(s: TreeState, dest: Coords, a: PublicKey, b: PublicKey)
    requires a in s.announcements && s.announcements[a].signatures != []
    requires b in s.announcements && s.announcements[b].signatures != []
  {
    DistanceVia(s, a, dest) < DistanceVia(s, b, dest)
    || (DistanceVia(s, a, dest) == DistanceVia(s, b, dest)
        && s.announcements[a].receiveOrder <= s.announcements[b].receiveOrder)
  }

  /** The hop for dest: ourselves if we are there; otherwise the least of the closer peers by (distance, order),
      and none exactly when no peer is closer. */
  ghost predicate IsTreeHop(s: TreeState, dest: Coords, from: PublicKey, hop: Option<PublicKey>) {
    if dest == OwnCoords(s) then hop == Some(s.key)
    else match hop
      case None => forall m :: HasPeer(s, m) ==> !Closer(s, dest, from, m)
      case Some(h) =>
        && HasPeer(s, h) && Closer(s, dest, from, h)
        && forall m :: HasPeer(s, m) && Closer(s, dest, from, m) ==> NoWorse(s, dest, h, m)
  }

  /** `is_better_next_tree_hop_candidate`. */
  predicate IsBetterCandidate(distance: nat, bestDistance: nat, order: U64, bestOrder: U64, candidateExists: bool) {
    distance < bestDistance || (distance == bestDistance && candidateExists && order < bestOrder)
  }

  /** `next_tree_hop`, visiting the ports in any order. */
  method NextTreeHop(s: TreeState, dest: Coords, from: PublicKey) returns (hop: Option<PublicKey>)
    requires Signed(s)
    ensures IsTreeHop(s, dest, from, hop)
  {
    if dest == OwnCoords(s) { return Some(s.key); }
    var ours := DistanceTo(dest, OwnCoords(s));
    if ours == 0 { DistanceIsMetric(dest, OwnCoords(s), dest); return Some(s.key); }
    hop := None;
    var bestDistance, bestOrder: U64 := ours, U64_MAX;
    var todo := s.ports.Keys;
    while todo != {}
      invariant todo <= s.ports.Keys
      invariant hop.None? ==> bestDistance == ours
      invariant hop.Some? ==> (
        && HasPeer(s, hop.value) && Closer(s, dest, from, hop.value)
        && bestDistance == DistanceVia(s, hop.value, dest)
        && bestOrder == s.announcements[hop.value].receiveOrder)
      invariant forall p :: (
        p in s.ports.Keys - todo && s.ports[p].Some? && Closer(s, dest, from, s.ports[p].value)
        ==> hop.Some? && NoWorse(s, dest, hop.value, s.ports[p].value))
      decreases todo
    {
      var p :| p in todo;
      todo := todo - {p};
      if s.ports[p] == None { continue; }
      var peer := s.ports[p].value;
      if peer == from { continue; }
      if peer !in s.announcements { continue; }
      var announcement := s.announcements[peer];
      if CurrentRoot(s) != announcement.root { continue; }
      var peerCoords := PeerCoords(announcement);
      var distance := DistanceTo(peerCoords, dest);
      if IsBetterCandidate(distance, bestDistance, announcement.receiveOrder, bestOrder, hop.Some?) {
        hop := Some(peer);
        bestDistance := distance;
        bestOrder := announcement.receiveOrder;
      }
    }
  }

  /** With distinct receive orders the hop does not depend on the order the peers were visited in. */
  lemma TreeHopUnique(s: TreeState, dest: Coords, from: PublicKey, a: Option<PublicKey>, b: Option<PublicKey>)
    requires OrdersDistinct(s) && IsTreeHop(s, dest, from, a) && IsTreeHop(s, dest, from, b)
    ensures a == b
  {
  }

  /** The hop on distances and receive orders alone: never the sender, a peer under our root and strictly closer
      than us, and of those the closest, the earliest heard from among equals. */
  lemma HopIsClosestEarliest(s: TreeState, dest: Coords, from: PublicKey, hop: PublicKey, other: PublicKey)
    requires IsTreeHop(s, dest, from, Some(hop)) && dest != OwnCoords(s)
    ensures hop != from && HasPeer(s, hop) && hop in s.announcements && s.announcements[hop].signatures != []
    ensures s.announcements[hop].root == CurrentRoot(s)
    ensures Distance(SenderCoords(s.announcements[hop]), dest) < Distance(dest, OwnCoords(s))
    ensures other != from && HasPeer(s, other) && other in s.announcements && s.announcements[other].signatures != []
        && s.announcements[other].root == CurrentRoot(s)
      ==> var a, b := s.announcements[hop], s.announcements[other];
          var d, d' := Distance(SenderCoords(a), dest), Distance(SenderCoords(b), dest);
          d < d' || (d == d' && a.receiveOrder <= b.receiveOrder)
  {
    hide Distance, SenderCoords;
  }

  lemma HopIsPeer(t: TreeState, dest: Coords, from: PublicKey, hop: PublicKey)
    requires IsTreeHop(t, dest, from, Some(hop)) && hop != t.key
    ensures HasPeer(t, hop)
  {
  }

  lemma HopAtHome(t: TreeState, dest: Coords, from: PublicKey, hop: Option<PublicKey>)
    requires IsTreeHop(t, dest, from, hop) && dest == OwnCoords(t)
    ensures hop == Some(t.key)
  {
  }

  /** The least of a set of peers by (distance, order). */
  lemma {:induction false} LeastOf(s: TreeState, dest: Coords, peers: set<PublicKey>) returns (h: PublicKey)
    requires Signed(s) && peers != {} && peers <= s.announcements.Keys
    ensures h in peers && forall m :: m in peers ==> NoWorse(s, dest, h, m)
    decreases peers
  {
    var x :| x in peers;
    var others := peers - {x};
    if others == {} {
      assert peers == {x};
      h := x;
    } else {
      var y := LeastOf(s, dest, others);
      h := if NoWorse(s, dest, x, y) then x else y;
      assert forall m :: m in peers ==> m == x || m in others;
    }
  }

  /** A hop as above always exists; this names one. */
  ghost function TreeHop(s: TreeState, dest: Coords, from: PublicKey): (hop: Option<PublicKey>)
    requires Signed(s)
    ensures IsTreeHop(s, dest, from, hop)
  {
    assert exists h :: IsTreeHop(s, dest, from, h) by {
      var closer := set m | m in s.announcements && HasPeer(s, m) && Closer(s, dest, from, m);
      if dest == OwnCoords(s) {
        assert IsTreeHop(s, dest, from, Some(s.key));
      } else if closer == {} {
        forall m | HasPeer(s, m) ensures !Closer(s, dest, from, m) {
          assert m !in closer;
        }
        assert IsTreeHop(s, dest, from, None);
      } else {
        var h := LeastOf(s, dest, closer);
        assert h in closer;
        assert IsTreeHop(s, dest, from, Some(h));
      }
    }
    var hop :| IsTreeHop(s, dest, from, hop);
    hop
  }

  // ---- parent_selection ----

  /** peer's announcement has not timed out and does not already list us. */
  ghost predicate Eligible(s: TreeState, now: Time, peer: PublicKey) {
    && HasPeer(s, peer) && peer in s.announcements
    && now - s.announcements[peer].receiveTime <= ANNOUNCEMENT_TIMEOUT
    && !SignedBy(s.announcements[peer].signatures, s.key)
  }

  /** eligible, and no weaker than the root we start from. */
  ghost predicate Contends(s: TreeState, now: Time, floor: Root, peer: PublicKey) {
    Eligible(s, now, peer) && !Below(s.announcements[peer].root, floor)
  }

  /** ann loses to, or ties with, a root heard of at the given place in the order. */
  predicate Yields(ann: Announcement, root: Root, order: U64) {
    Below(ann.root, root) || (ann.root == root && order <= ann.receiveOrder)
  }

  /** The peer with the greatest root, the earliest heard from among equals; none when nobody contends. */
  ghost predicate IsBestParent(s: TreeState, now: Time, floor: Root, best: Option<PublicKey>) {
    match best
    case None => forall m :: !Contends(s, now, floor, m)
    case Some(b) =>
      && Contends(s, now, floor, b)
      && forall m :: Contends(s, now, floor, m)
           ==> Yields(s.announcements[m], s.announcements[b].root, s.announcements[b].receiveOrder)
  }

  /** The scan does not look at the parent held. */
  lemma BestParentIgnoresOwn(s: TreeState, parent: PublicKey, now: Time, floor: Root, best: Option<PublicKey>)
    ensures IsBestParent(s.(parent := parent), now, floor, best) <==> IsBestParent(s, now, floor, best)
  {
    forall m: PublicKey ensures Contends(s.(parent := parent), now, floor, m) <==> Contends(s, now, floor, m) {
      assert HasPeer(s.(parent := parent), m) <==> HasPeer(s, m);
    }
  }

  function BecomeRoot(s: TreeState): TreeState {
    s.(parent := s.key)
  }

  /** The state `parent_selection` compares announcements from. */
  function SelectionStart(s: TreeState): TreeState {
    if s.key > CurrentRoot(s).publicKey then BecomeRoot(s) else s
  }

  function Selected(s: TreeState, best: Option<PublicKey>): TreeState {
    match best
    case Some(b) => SelectionStart(s).(parent := b)
    case None => BecomeRoot(s)
  }

  /** One run of `parent_selection`, ending with parent best, or with ourselves as root. */
  ghost predicate IsSelection(s: TreeState, now: Time, best: Option<PublicKey>) {
    IsBestParent(s, now, CurrentRoot(SelectionStart(s)), best)
  }

  ghost predicate OrdersBelowMax(s: TreeState) {
    forall k :: k in s.announcements ==> s.announcements[k].receiveOrder < U64_MAX
  }

  /** The scan of `parent_selection`, visiting the ports in any order. */
  method BestParent(s: TreeState, now: Time, floor: Root) returns (best: Option<PublicKey>)
    requires OrdersBelowMax(s)
    ensures IsBestParent(s, now, floor, best)
  {
    best := None;
    var bestRoot, bestOrder: U64 := floor, U64_MAX;
    var todo := s.ports.Keys;
    while todo != {}
      invariant todo <= s.ports.Keys
      invariant best.None? ==> bestRoot == floor && bestOrder == U64_MAX
      invariant best.Some? ==> (
        && Contends(s, now, floor, best.value)
        && bestRoot == s.announcements[best.value].root
        && bestOrder == s.announcements[best.value].receiveOrder)
      invariant forall p :: (
        p in s.ports.Keys - todo && s.ports[p].Some? && Contends(s, now, floor, s.ports[p].value)
        ==> best.Some? && Yields(s.announcements[s.ports[p].value], bestRoot, bestOrder))
      decreases todo
    {
      var p :| p in todo;
      todo := todo - {p};
      if s.ports[p] == None { continue; }
      var peer := s.ports[p].value;
      if peer !in s.announcements { continue; }
      var announcement := s.announcements[peer];
      if now - announcement.receiveTime > ANNOUNCEMENT_TIMEOUT { continue; }
      var looped := IsLoopOfChild(announcement, s.key);
      if looped { continue; }
      if Below(bestRoot, announcement.root) {
        best := Some(peer);
        bestRoot := announcement.root;
        bestOrder := announcement.receiveOrder;
      }
      if Below(announcement.root, bestRoot) { continue; }
      if announcement.receiveOrder < bestOrder {
        best := Some(peer);
        bestRoot := announcement.root;
        bestOrder := announcement.receiveOrder;
      }
    }
    forall m: PublicKey | Contends(s, now, floor, m)
      ensures best.Some?
    {
      var p :| p in s.ports && s.ports[p] == Some(m);
    }
  }

  lemma BestParentUnique(s: TreeState, now: Time, floor: Root, a: Option<PublicKey>, b: Option<PublicKey>)
    requires OrdersDistinct(s) && IsBestParent(s, now, floor, a) && IsBestParent(s, now, floor, b)
    ensures a == b
  {
  }

  /** a has a lower key than b, or the same key and a lower or, if ties count, the same sequence number. */
  predicate Precedes(a: Root, b: Root, ties: bool) {
    a.publicKey < b.publicKey
    || (a.publicKey == b.publicKey
        && (a.sequenceNumber < b.sequenceNumber || (ties && a.sequenceNumber == b.sequenceNumber)))
  }

  /** A peer parent selection considers: heard from in the last 45 minutes, in a chain we have not signed. */
  ghost predicate IsConsidered(s: TreeState, now: Time, peer: PublicKey) {
    && (exists p :: p in s.ports && s.ports[p] == Some(peer)) && peer in s.announcements
    && now - s.announcements[peer].receiveTime <= 2_700_000
    && var sigs := s.announcements[peer].signatures;
       forall i :: 0 <= i < |sigs| ==> sigs[i].signingPublicKey != s.key
  }

  /** The choice on keys and sequence numbers alone: the parent chosen is considered, its root is at least as great
      as every other considered peer's and as the one started from, and among equal roots it was heard from first. With
      nobody chosen, every considered root is lower than the one started from, and we are our own parent. */
  lemma ChosenRootIsGreatest(s: TreeState, now: Time, best: Option<PublicKey>)
    requires IsSelection(s, now, best)
    ensures best.Some? ==>
              var chosen := s.announcements[best.value];
              && IsConsidered(s, now, best.value) && Selected(s, best).parent == best.value
              && (forall m {:trigger IsConsidered(s, now, m)} :: IsConsidered(s, now, m) ==>
                    && Precedes(s.announcements[m].root, chosen.root, true)
                    && (s.announcements[m].root == chosen.root
                      ==> chosen.receiveOrder <= s.announcements[m].receiveOrder))
              && Precedes(CurrentRoot(SelectionStart(s)), chosen.root, true)
    ensures best.None? ==>
              && Selected(s, best).parent == s.key
              && forall m {:trigger IsConsidered(s, now, m)} :: IsConsidered(s, now, m) ==>
                   Precedes(s.announcements[m].root, CurrentRoot(SelectionStart(s)), false)
  {
    hide CurrentRoot;
    var floor := CurrentRoot(SelectionStart(s));
    if best.Some? { assert Contends(s, now, floor, best.value); }
    forall m | IsConsidered(s, now, m)
      ensures Contends(s, now, floor, m) || Precedes(s.announcements[m].root, floor, false)
    {
      assert Eligible(s, now, m);
    }
  }

  /** What selection starts from: our own root if our key is greater than the root's we follow, and otherwise that
      root. */
  lemma SelectionStartsFromGreater(s: TreeState)
    requires s.key !in s.announcements
    ensures CurrentRoot(SelectionStart(s))
      == if s.key > CurrentRoot(s).publicKey then Root(s.key, s.sequence) else CurrentRoot(s)
    ensures CurrentRoot(SelectionStart(s)).publicKey >= s.key
  {
  }

  /** Own root: what a router that is its own parent announces. */
  function OwnRoot(s: TreeState): Root {
    Root(s.key, s.sequence)
  }

  /** What parent selection settles on: the best parent at least as strong as our own root, or ourselves. */
  ghost predicate Settled(s: TreeState, now: Time) {
    exists best :: IsBestParent(s, now, OwnRoot(s), best)
      && s.parent == (match best case Some(b) => b case None => s.key)
  }

  /** What parent selection can rely on: no announcement of our own is filed, and an announced root is a signer. */
  ghost predicate RootsSigned(s: TreeState) {
    && s.key !in s.announcements
    && forall k :: k in s.announcements ==> SignedBy(s.announcements[k].signatures, s.announcements[k].root.publicKey)
  }

  /** Eligible announcements never name us as root. */
  lemma EligibleRootIsForeign(s: TreeState, now: Time, m: PublicKey)
    requires RootsSigned(s) && Eligible(s, now, m)
    ensures s.announcements[m].root.publicKey != s.key
  {
  }

  /** One run settles, unless nothing is as strong as the root we held: then we become root, and the next run
      settles. */
  lemma OneRunSettlesOrResets(s: TreeState, now: Time, best: Option<PublicKey>)
    requires RootsSigned(s) && IsSelection(s, now, best)
    ensures Settled(Selected(s, best), now) || Selected(s, best) == BecomeRoot(s)
  {
    var s', floor := Selected(s, best), CurrentRoot(SelectionStart(s));
    if best.Some? {
      forall m ensures Contends(s, now, floor, m) ==> Contends(s', now, OwnRoot(s'), m) {
        if Contends(s, now, floor, m) { EligibleRootIsForeign(s, now, m); }
      }
      forall m | Contends(s', now, OwnRoot(s'), m) && !Contends(s, now, floor, m)
        ensures Below(s.announcements[m].root, s.announcements[best.value].root)
      {
        assert Eligible(s, now, m);
      }
      assert IsBestParent(s', now, OwnRoot(s'), best);
    }
  }

  lemma RunFromRootSettles(s: TreeState, now: Time, best: Option<PublicKey>)
    requires RootsSigned(s) && s.parent == s.key && IsSelection(s, now, best)
    ensures Settled(Selected(s, best), now)
  {
    var s' := Selected(s, best);
    assert CurrentRoot(SelectionStart(s)) == OwnRoot(s);
    forall m ensures Contends(s, now, OwnRoot(s), m) <==> Contends(s', now, OwnRoot(s'), m) {
      assert Eligible(s, now, m) <==> Eligible(s', now, m);
    }
    assert IsBestParent(s', now, OwnRoot(s'), best);
  }

  /** With announcements and clock fixed, two runs of parent selection reach the settled choice from any state. */
  lemma TwoRunsSettle(s: TreeState, now: Time, first: Option<PublicKey>, second: Option<PublicKey>)
    requires RootsSigned(s) && OrdersDistinct(s)
    requires IsSelection(s, now, first) && IsSelection(Selected(s, first), now, second)
    ensures Settled(Selected(Selected(s, first), second), now)
  {
    OneRunSettlesOrResets(s, now, first);
    if Settled(Selected(s, first), now) {
      SettledStays(Selected(s, first), now, second);
    } else {
      RunFromRootSettles(Selected(s, first), now, second);
    }
  }

  /** A run that finds a parent finds it again. */
  lemma ChosenStays(s: TreeState, now: Time, best: Option<PublicKey>, again: Option<PublicKey>)
    requires OrdersDistinct(s) && best.Some?
    requires IsSelection(s, now, best) && IsSelection(Selected(s, best), now, again)
    ensures Selected(Selected(s, best), again) == Selected(s, best)
  {
    var s', floor := Selected(s, best), CurrentRoot(SelectionStart(s));
    var floor' := CurrentRoot(SelectionStart(s'));
    assert floor' == floor || floor' == s.announcements[best.value].root;
    forall m ensures Contends(s', now, floor', m) ==> Contends(s, now, floor, m) {
      assert Eligible(s, now, m) <==> Eligible(s', now, m);
    }
    assert Contends(s', now, floor', best.value);
    BestParentUnique(s', now, floor', best, again);
  }

  /** Whatever is filed, even an announcement of our own: with announcements and clock fixed, two runs reach a
      state that no further run changes. */
  lemma TwoRunsReachFixedPoint(s: TreeState, now: Time, first: Option<PublicKey>, second: Option<PublicKey>,
      third: Option<PublicKey>)
    requires OrdersDistinct(s)
    requires IsSelection(s, now, first) && IsSelection(Selected(s, first), now, second)
    requires IsSelection(Selected(Selected(s, first), second), now, third)
    ensures Selected(Selected(Selected(s, first), second), third) == Selected(Selected(s, first), second)
  {
    var s1 := Selected(s, first);
    if second.Some? {
      ChosenStays(s1, now, second, third);
    } else {
      assert Selected(s1, second) == BecomeRoot(s);
      if first.Some? { ChosenStays(s, now, first, second); }
    }
  }

  /** And once settled, no run changes anything. */
  lemma SettledStays(s: TreeState, now: Time, best: Option<PublicKey>)
    requires RootsSigned(s) && OrdersDistinct(s) && Settled(s, now) && IsSelection(s, now, best)
    ensures Selected(s, best) == s
  {
    var settled :| IsBestParent(s, now, OwnRoot(s), settled)
      && s.parent == (match settled case Some(b) => b case None => s.key);
    if settled.None? {
      assert SelectionStart(s) == s && CurrentRoot(s) == OwnRoot(s);
    } else {
      var b := settled.value;
      EligibleRootIsForeign(s, now, b);
      assert SelectionStart(s) == s && CurrentRoot(s) == s.announcements[b].root;
      assert Contends(s, now, CurrentRoot(s), b);
      forall m | Contends(s, now, CurrentRoot(s), m)
        ensures Contends(s, now, OwnRoot(s), m)
      {
        EligibleRootIsForeign(s, now, m);
      }
      assert IsBestParent(s, now, CurrentRoot(s), settled);
      BestParentUnique(s, now, CurrentRoot(s), best, settled);
    }
  }
}

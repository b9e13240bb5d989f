/** The virtual-snake routing table (src/snek.rs) and keyspace routing over it (`next_snek_hop`,
    src/router.rs:948-1061). */
module Snek {
  import opened Types
  import opened Coordinates
  import opened Announcements
  import opened Frames
  import opened Tree

  const SNEK_EXPIRY_PERIOD: Time := 60 * 60 * 1000

  datatype PathIndex = PathIndex(publicKey: PublicKey, pathId: PathId)

  datatype Path = Path(
    index: PathIndex, origin: PublicKey, target: PublicKey, source: Port, destination: Port,
    lastSeen: Time, root: Root, active: bool)

  /** `valid`; a time in the future would panic in the program and is excluded by the invariants of a run. */
  predicate Valid(p: Path, now: Time) {
    now - p.lastSeen < SNEK_EXPIRY_PERIOD
  }

  /** A teardown some spawned task will still run: as if it came from a port, for a path. */
  datatype Pending = Pending(from: Port, index: PathIndex)

  datatype SnekState = SnekState(
    ascending: Option<Path>,
    descending: Option<Path>,
    paths: map<PathIndex, Path>,
    candidate: Option<Path>,
    pending: multiset<Pending>)

  datatype RouterState = RouterState(tree: TreeState, snek: SnekState)

  // ---- next_snek_hop ----

  predicate DhtOrdered(a: PublicKey, b: PublicKey, c: PublicKey) {
    a < b < c
  }

  /** A path whose source side may carry frames. Bootstraps also use paths that are not active yet. */
  predicate Usable(p: Path, now: Time, bootstrap: bool) {
    Valid(p, now) && p.source != 0 && (bootstrap || p.active)
  }

  /** key is among the ancestors the parent announced. */
  predicate IsAncestor(r: RouterState, key: PublicKey) {
    r.tree.parent != r.tree.key && SignedBy(CurrentSignatures(r.tree), key)
  }

  /** peer announced a chain that key signed. */
  predicate HeardVia(r: RouterState, key: PublicKey, peer: PublicKey) {
    peer in r.tree.announcements && SignedBy(r.tree.announcements[peer].signatures, key)
  }

  ghost predicate Heard(r: RouterState, key: PublicKey) {
    IsAncestor(r, key) || exists peer :: HeardVia(r, key, peer)
  }

  /** A usable path from key comes in from peer. */
  ghost predicate PathVia(r: RouterState, now: Time, bootstrap: bool, key: PublicKey, peer: PublicKey) {
    exists idx :: idx in r.snek.paths && idx.publicKey == key && Usable(r.snek.paths[idx], now, bootstrap)
      && PeerOnPort(r.tree, r.snek.paths[idx].source) == Some(peer)
  }

  /** The keys a router can route towards, each with the peers that know them. */
  ghost predicate KnownVia(r: RouterState, now: Time, bootstrap: bool, key: PublicKey, peer: PublicKey) {
    || (IsAncestor(r, key) && peer == r.tree.parent)
    || HeardVia(r, key, peer)
    || PathVia(r, now, bootstrap, key, peer)
  }

  ghost predicate Known(r: RouterState, now: Time, bootstrap: bool, key: PublicKey) {
    exists peer :: KnownVia(r, now, bootstrap, key, peer)
  }

  /** The key keyspace routing has to improve on: the root's when the destination lies between us and it, or
      when it is our own bootstrap; otherwise our own. */
  predicate TowardsRoot(s: TreeState, dest: PublicKey, bootstrap: bool) {
    s.parent != s.key && ((bootstrap && s.key == dest) || DhtOrdered(s.key, dest, CurrentRoot(s).publicKey))
  }

  function StartKey(s: TreeState, dest: PublicKey, bootstrap: bool): PublicKey {
    if TowardsRoot(s, dest, bootstrap) then CurrentRoot(s).publicKey else s.key
  }

  /** The key the frame is sent towards: the destination itself if known (bootstraps look past it), and
      otherwise the least known key above it and below the start key, or the start key. */
  ghost predicate IsChosen(r: RouterState, now: Time, dest: PublicKey, bootstrap: bool, key: PublicKey) {
    var start := StartKey(r.tree, dest, bootstrap);
    if !bootstrap && Known(r, now, bootstrap, dest) then key == dest
    else
      && (key == start || (Known(r, now, bootstrap, key) && dest < key < start))
      && forall k: PublicKey :: Known(r, now, bootstrap, k) && dest < k < start ==> key <= k
  }

  /** The way to a key announcements tell of: for the start key the parent when that is the root's, and otherwise none
      for traffic and ourselves for protocol frames; for an ancestor the parent; else a peer that announced it. */
  ghost predicate AnnouncedWay(r: RouterState, dest: PublicKey, bootstrap: bool, traffic: bool, key: PublicKey,
      hop: Option<PublicKey>) {
    if key == StartKey(r.tree, dest, bootstrap) then
      hop == (if TowardsRoot(r.tree, dest, bootstrap) then Some(r.tree.parent) else if traffic then None
        else Some(r.tree.key))
    else if IsAncestor(r, key) then hop == Some(r.tree.parent)
    else hop.Some? && HeardVia(r, key, hop.value)
  }

  /** The hop towards the chosen key. What announcements tell of takes precedence, and then a direct peer is reached
      directly; a path is followed only to a key no announcement tells of. */
  ghost predicate LeadsTo(r: RouterState, now: Time, dest: PublicKey, bootstrap: bool, traffic: bool, key: PublicKey,
      hop: Option<PublicKey>) {
    if key == StartKey(r.tree, dest, bootstrap) || Heard(r, key) then
      if HasPeer(r.tree, key) then hop == Some(key) else AnnouncedWay(r, dest, bootstrap, traffic, key, hop)
    else hop.Some? && PathVia(r, now, bootstrap, key, hop.value)
  }

  ghost predicate IsSnekHop(r: RouterState, now: Time, dest: PublicKey, bootstrap: bool, traffic: bool,
      key: PublicKey, hop: Option<PublicKey>) {
    if !bootstrap && r.tree.key == dest then hop == Some(r.tree.key) && key == dest
    else IsChosen(r, now, dest, bootstrap, key) && LeadsTo(r, now, dest, bootstrap, traffic, key, hop)
  }

  /** The choice does not depend on the order anything was visited in. */
  lemma ChosenUnique(r: RouterState, now: Time, dest: PublicKey, bootstrap: bool, a: PublicKey, b: PublicKey)
    requires IsChosen(r, now, dest, bootstrap, a) && IsChosen(r, now, dest, bootstrap, b)
    ensures a == b
  {
  }

  /** Traffic for elsewhere gets a hop exactly when a better key than our own was chosen, or we are our own peer. */
  lemma HopExactlyWhenBetter(r: RouterState, now: Time, dest: PublicKey, key: PublicKey, hop: Option<PublicKey>)
    requires dest != r.tree.key && IsSnekHop(r, now, dest, false, true, key, hop)
    ensures hop.Some? <==> key != r.tree.key || HasPeer(r.tree, r.tree.key)
  {
  }

  /** Some chain in the announcement was signed by key. */
  ghost predicate Signs(a: Announcement, key: PublicKey) {
    exists i :: 0 <= i < |a.signatures| && a.signatures[i].signingPublicKey == key
  }

  /** The entry comes from key and was seen less than an hour ago, and the peer is on its source port, which is not
      home. Only bootstraps go by entries that are not active yet. */
  predicate LeadsBack(r: RouterState, now: Time, bootstrap: bool, index: PathIndex, key: PublicKey, peer: PublicKey) {
    && index in r.snek.paths && index.publicKey == key
    && var e := r.snek.paths[index];
       && now - e.lastSeen < 3_600_000 && (bootstrap || e.active)
       && e.source != 0 && e.source in r.tree.ports && r.tree.ports[e.source] == Some(peer)
  }

  /** Why a frame goes to a hop: it is the key sent towards, and a peer; or the parent, whose announcement names
      that key as root or signer; or a peer that announced the key; or it is on the source side of a live path from the
      key. A peer that anyone announced is reached directly. */
  lemma HopIsAccountedFor(r: RouterState, now: Time, dest: PublicKey, bootstrap: bool, traffic: bool, key: PublicKey,
      hop: PublicKey)
    requires IsSnekHop(r, now, dest, bootstrap, traffic, key, Some(hop)) && hop != r.tree.key
    ensures var t := r.tree;
            || (hop == key && HasPeer(t, key))
            || (hop == t.parent && key == CurrentRoot(t).publicKey)
            || (hop == t.parent && t.parent in t.announcements && Signs(t.announcements[t.parent], key))
            || (hop in t.announcements && Signs(t.announcements[hop], key))
            || exists index :: LeadsBack(r, now, bootstrap, index, key, hop)
    ensures HasPeer(r.tree, key) && key != r.tree.key
        && (exists m :: m in r.tree.announcements && Signs(r.tree.announcements[m], key))
      ==> hop == key
  {
    if PathVia(r, now, bootstrap, key, hop) {
      var index :| index in r.snek.paths && index.publicKey == key && Usable(r.snek.paths[index], now, bootstrap)
        && PeerOnPort(r.tree, r.snek.paths[index].source) == Some(hop);
      assert LeadsBack(r, now, bootstrap, index, key, hop);
    }
    if m :| m in r.tree.announcements && Signs(r.tree.announcements[m], key) {
      assert HeardVia(r, key, m);
    }
  }

  /** And what is not passed over: traffic goes towards its destination if anyone announced it or a live path comes
      from it; and otherwise the key chosen is no higher than any such key between the destination and the one started
      from. */
  lemma NothingBetterIsPassedOver(r: RouterState, now: Time, dest: PublicKey, bootstrap: bool, traffic: bool,
      key: PublicKey,
      hop: Option<PublicKey>, other: PublicKey, index: PathIndex, peer: PublicKey)
    requires IsSnekHop(r, now, dest, bootstrap, traffic, key, hop)
    requires LeadsBack(r, now, bootstrap, index, other, peer)
      || (peer in r.tree.announcements && Signs(r.tree.announcements[peer], other))
    ensures !bootstrap && other == dest ==> key == dest
    ensures dest < other < StartKey(r.tree, dest, bootstrap) && (bootstrap || key != dest) ==> key <= other
  {
    hide LeadsTo, StartKey;
    if LeadsBack(r, now, bootstrap, index, other, peer) {
      assert Usable(r.snek.paths[index], now, bootstrap);
      assert PathVia(r, now, bootstrap, other, peer);
    }
    assert KnownVia(r, now, bootstrap, other, peer);
    assert Known(r, now, bootstrap, other);
  }

  /** The step the scan takes for one key it comes across: whether key replaces best. */
  predicate Improves(dest: PublicKey, bootstrap: bool, key: PublicKey, best: PublicKey) {
    (!bootstrap && key == dest && best != dest) || DhtOrdered(dest, key, best)
  }

  /** best is right for the keys in seen. */
  ghost predicate BestOf(dest: PublicKey, bootstrap: bool, start: PublicKey, seen: set<PublicKey>, best: PublicKey) {
    if !bootstrap && dest in seen then best == dest
    else
      && (best == start || (best in seen && dest < best < start))
      && forall k: PublicKey :: k in seen && dest < k < start ==> best <= k
  }

  lemma BestOfStep(dest: PublicKey, bootstrap: bool, start: PublicKey, seen: set<PublicKey>, best: PublicKey,
      key: PublicKey)
    requires bootstrap || start != dest
    requires BestOf(dest, bootstrap, start, seen, best)
    ensures BestOf(dest, bootstrap, start, seen + {key}, if Improves(dest, bootstrap, key, best) then key else best)
  {
  }

  /** Only keys not seen before replace the best one. */
  lemma ImprovementIsNew(dest: PublicKey, bootstrap: bool, start: PublicKey, seen: set<PublicKey>, best: PublicKey,
      key: PublicKey)
    requires bootstrap || start != dest
    requires BestOf(dest, bootstrap, start, seen, best) && Improves(dest, bootstrap, key, best)
    ensures key !in seen && key != start
  {
  }

  /** Scanning one signature list, all of whose keys are reached through peer. */
  method ScanSigners(sigs: seq<RootSignature>, peer: PublicKey, dest: PublicKey, bootstrap: bool,
      ghost start: PublicKey,
      ghost seen: set<PublicKey>, best: PublicKey, hop: Option<PublicKey>)
    returns (best': PublicKey, hop': Option<PublicKey>, ghost seen': set<PublicKey>)
    requires bootstrap || start != dest
    requires BestOf(dest, bootstrap, start, seen, best)
    ensures seen' == seen + (set i | 0 <= i < |sigs| :: sigs[i].signingPublicKey)
    ensures BestOf(dest, bootstrap, start, seen', best')
    ensures (best' == best && hop' == hop)
      || (SignedBy(sigs, best') && hop' == Some(peer) && best' !in seen && best' != start)
  {
    best', hop', seen' := best, hop, seen;
    for i := 0 to |sigs|
      invariant seen' == seen + (set j | 0 <= j < i :: sigs[j].signingPublicKey)
      invariant BestOf(dest, bootstrap, start, seen', best')
      invariant (best' == best && hop' == hop)
        || (SignedBy(sigs, best') && hop' == Some(peer) && best' !in seen && best' != start)
    {
      var key := sigs[i].signingPublicKey;
      BestOfStep(dest, bootstrap, start, seen', best', key);
      if Improves(dest, bootstrap, key, best') { ImprovementIsNew(dest, bootstrap, start, seen', best', key); }
      seen' := seen' + {key};
      if !bootstrap && key == dest && best' != dest {
        best', hop' := key, Some(peer);
      }
      if DhtOrdered(dest, key, best') {
        best', hop' := key, Some(peer);
      }
    }
  }

  /** What the scan of announcements has established after coming across the keys in seen, ancestors first. */
  ghost predicate Scanned(r: RouterState, dest: PublicKey, bootstrap: bool, traffic: bool,
      seen: set<PublicKey>, best: PublicKey, hop: Option<PublicKey>)
  {
    && (bootstrap || r.tree.key != dest)
    && BestOf(dest, bootstrap, StartKey(r.tree, dest, bootstrap), seen, best)
    && AnnouncedWay(r, dest, bootstrap, traffic, best, hop)
    && (forall k :: k in seen ==> Heard(r, k))
    && forall k :: IsAncestor(r, k) ==> k in seen
  }

  method ScanAnnouncements(r: RouterState, dest: PublicKey, bootstrap: bool, traffic: bool,
      ghost seen: set<PublicKey>, best: PublicKey, hop: Option<PublicKey>)
    returns (best': PublicKey, hop': Option<PublicKey>, ghost seen': set<PublicKey>)
    requires Scanned(r, dest, bootstrap, traffic, seen, best, hop)
    ensures Scanned(r, dest, bootstrap, traffic, seen', best', hop')
    ensures forall k :: Heard(r, k) ==> k in seen'
  {
    best', hop', seen' := best, hop, seen;
    var todo := r.tree.announcements.Keys;
    while todo != {}
      invariant todo <= r.tree.announcements.Keys && seen <= seen'
      invariant Scanned(r, dest, bootstrap, traffic, seen', best', hop')
      invariant forall p, k :: p !in todo && HeardVia(r, k, p) ==> k in seen'
      decreases todo
    {
      var peer :| peer in todo;
      todo := todo - {peer};
      ghost var before := seen';
      best', hop', seen' := ScanSigners(r.tree.announcements[peer].signatures, peer, dest, bootstrap,
        StartKey(r.tree, dest, bootstrap), seen', best', hop');
      forall k | k in seen' ensures Heard(r, k) {
        if k !in before { assert HeardVia(r, k, peer); }
      }
    }
  }

  /** A direct peer is reached directly. */
  method PreferDirectPeer(s: TreeState, best: PublicKey, hop: Option<PublicKey>) returns (hop': Option<PublicKey>)
    ensures hop' == if HasPeer(s, best) then Some(best) else hop
  {
    hop' := hop;
    var todo := s.ports.Keys;
    while todo != {}
      invariant todo <= s.ports.Keys
      invariant hop' == if exists p :: p in s.ports.Keys - todo && s.ports[p] == Some(best) then Some(best) else hop
      decreases todo
    {
      var p :| p in todo;
      if s.ports[p] == Some(best) { hop' := Some(best); }
      todo := todo - {p};
    }
  }

  // ---- The scan of the table ----

  /** A usable path comes in from a port that has lost its peer. The program unwraps that peer when the path's key
      improves. */
  ghost predicate SourceLost(r: RouterState, now: Time, bootstrap: bool, index: PathIndex) {
    && index in r.snek.paths && Usable(r.snek.paths[index], now, bootstrap)
    && PeerOnPort(r.tree, r.snek.paths[index].source).None?
  }

  /** The scan coming across one path: the best key after it, or a panic. */
  function ScanStep(r: RouterState, now: Time, dest: PublicKey, bootstrap: bool, index: PathIndex,
      best: PublicKey): Option<PublicKey>
    requires index in r.snek.paths
  {
    if !Usable(r.snek.paths[index], now, bootstrap) || !Improves(dest, bootstrap, index.publicKey, best) then Some(best)
    else if PeerOnPort(r.tree, r.snek.paths[index].source).None? then None
    else Some(index.publicKey)
  }

  /** The scan visiting paths in a given order, from the best key found so far. */
  function TableScan(r: RouterState, now: Time, dest: PublicKey, bootstrap: bool, order: seq<PathIndex>,
      best: PublicKey): Option<PublicKey>
    requires forall i :: i in order ==> i in r.snek.paths
  {
    if order == [] then Some(best)
    else
      match TableScan(r, now, dest, bootstrap, order[..|order| - 1], best)
      case None => None
      case Some(b) => ScanStep(r, now, dest, bootstrap, order[|order| - 1], b)
  }

  /** One way to visit every path once. */
  ghost predicate IsVisit(r: RouterState, order: seq<PathIndex>) {
    && (forall i :: i in order <==> i in r.snek.paths)
    && forall i, j :: 0 <= i < j < |order| ==> order[i] != order[j]
  }

  /** What improves on a better key improves on a worse one. */
  lemma ImprovesOn(dest: PublicKey, bootstrap: bool, key: PublicKey, better: PublicKey, best: PublicKey)
    requires Improves(dest, bootstrap, key, better) && (better == best || Improves(dest, bootstrap, better, best))
    ensures Improves(dest, bootstrap, key, best)
  {
  }

  /** Without a lost source that improves on the best key, no order panics. */
  lemma {:induction false} ScanOfLivePathsSucceeds(r: RouterState, now: Time, dest: PublicKey, bootstrap: bool,
      order: seq<PathIndex>, best: PublicKey)
    requires forall i :: i in order ==> i in r.snek.paths
    requires forall i :: SourceLost(r, now, bootstrap, i) ==> !Improves(dest, bootstrap, i.publicKey, best)
    ensures var found := TableScan(r, now, dest, bootstrap, order, best);
            found.Some? && (found.value == best || Improves(dest, bootstrap, found.value, best))
  {
    hide Improves;
    if order != [] {
      var last := |order| - 1;
      ScanOfLivePathsSucceeds(r, now, dest, bootstrap, order[..last], best);
      var b := TableScan(r, now, dest, bootstrap, order[..last], best).value;
      if Improves(dest, bootstrap, order[last].publicKey, b) {
        ImprovesOn(dest, bootstrap, order[last].publicKey, b, best);
      }
    }
  }

  lemma {:induction false} ScanStaysPanicked(r: RouterState, now: Time, dest: PublicKey, bootstrap: bool,
      order: seq<PathIndex>, more: seq<PathIndex>, best: PublicKey)
    requires forall i :: i in order + more ==> i in r.snek.paths
    requires forall i :: i in order ==> i in r.snek.paths
    requires TableScan(r, now, dest, bootstrap, order, best).None?
    ensures TableScan(r, now, dest, bootstrap, order + more, best).None?
  {
    if more == [] {
      assert order + more == order;
    } else {
      var last := |more| - 1;
      assert (order + more)[..|order + more| - 1] == order + more[..last];
      ScanStaysPanicked(r, now, dest, bootstrap, order, more[..last], best);
    }
  }

  /** Any start of a visit can be completed. */
  lemma {:induction false} VisitCompletes(r: RouterState, order: seq<PathIndex>, left: set<PathIndex>)
    returns (more: seq<PathIndex>)
    requires forall i :: i in r.snek.paths <==> i in order || i in left
    requires forall i :: i in order ==> i !in left
    requires forall i, j :: 0 <= i < j < |order| ==> order[i] != order[j]
    ensures IsVisit(r, order + more)
    decreases left
  {
    if left == {} {
      more := [];
      assert order + more == order;
    } else {
      var i :| i in left;
      var rest := VisitCompletes(r, order + [i], left - {i});
      more := [i] + rest;
      assert order + more == order + [i] + rest;
    }
  }

  /** The best key announcements tell of, or the start key. */
  ghost predicate IsAnnouncedBest(r: RouterState, dest: PublicKey, bootstrap: bool, best: PublicKey) {
    var start := StartKey(r.tree, dest, bootstrap);
    if !bootstrap && Heard(r, dest) then best == dest
    else
      && (best == start || (Heard(r, best) && dest < best < start))
      && forall k: PublicKey :: Heard(r, k) && dest < k < start ==> best <= k
  }

  lemma AnnouncedBestUnique(r: RouterState, dest: PublicKey, bootstrap: bool, a: PublicKey, b: PublicKey)
    requires IsAnnouncedBest(r, dest, bootstrap, a) && IsAnnouncedBest(r, dest, bootstrap, b)
    ensures a == b
  {
  }

  /** Keyspace routing may panic: some path that has lost its source is better than anything announced. */
  ghost predicate MayPanic(r: RouterState, now: Time, dest: PublicKey, bootstrap: bool) {
    && (bootstrap || r.tree.key != dest)
    && exists best: PublicKey, index ::
         IsAnnouncedBest(r, dest, bootstrap, best) && SourceLost(r, now, bootstrap, index)
           && Improves(dest, bootstrap, index.publicKey, best)
  }

  /** Some order of the table panics if and only if a path that has lost its source is better than anything
      announced. */
  lemma SomeOrderPanicsExactly(r: RouterState, now: Time, dest: PublicKey, bootstrap: bool, best: PublicKey)
    requires (bootstrap || r.tree.key != dest) && IsAnnouncedBest(r, dest, bootstrap, best)
    ensures (exists order :: IsVisit(r, order) && TableScan(r, now, dest, bootstrap, order, best).None?)
      <==> MayPanic(r, now, dest, bootstrap)
  {
    hide Improves, Heard, TowardsRoot;
    if index :| SourceLost(r, now, bootstrap, index) && Improves(dest, bootstrap, index.publicKey, best) {
      var more := VisitCompletes(r, [index], r.snek.paths.Keys - {index});
      assert [index][..0] == [];
      assert TableScan(r, now, dest, bootstrap, [index], best).None?;
      assert forall i :: i in [index] + more ==> i in r.snek.paths;
      ScanStaysPanicked(r, now, dest, bootstrap, [index], more, best);
    } else {
      forall order | IsVisit(r, order) ensures TableScan(r, now, dest, bootstrap, order, best).Some? {
        ScanOfLivePathsSucceeds(r, now, dest, bootstrap, order, best);
      }
      if MayPanic(r, now, dest, bootstrap) {
        var other: PublicKey, index :| IsAnnouncedBest(r, dest, bootstrap, other)
          && SourceLost(r, now, bootstrap, index)
          && Improves(dest, bootstrap, index.publicKey, other);
        AnnouncedBestUnique(r, dest, bootstrap, other, best);
      }
    }
  }

  /** What the scan of the table has established: every key in seen can be routed to, and those announced are among
      them. */
  ghost predicate PathsScanned(r: RouterState, now: Time, dest: PublicKey, bootstrap: bool, traffic: bool,
      seen: set<PublicKey>, best: PublicKey, hop: Option<PublicKey>)
  {
    && (bootstrap || r.tree.key != dest)
    && BestOf(dest, bootstrap, StartKey(r.tree, dest, bootstrap), seen, best)
    && LeadsTo(r, now, dest, bootstrap, traffic, best, hop)
    && (forall k :: k in seen ==> Known(r, now, bootstrap, k))
    && forall k :: Heard(r, k) ==> k in seen
  }

  /** The scan so far: visited in this order, todo still to come. */
  ghost predicate Visited(r: RouterState, now: Time, dest: PublicKey, bootstrap: bool, order: seq<PathIndex>,
      todo: set<PathIndex>,
      best: PublicKey, best': PublicKey)
  {
    && (forall i :: i in r.snek.paths <==> i in order || i in todo)
    && (forall i :: i in order ==> i !in todo)
    && (forall i, j :: 0 <= i < j < |order| ==> order[i] != order[j])
    && TableScan(r, now, dest, bootstrap, order, best) == Some(best')
  }

  lemma ScanGrows(r: RouterState, now: Time, dest: PublicKey, bootstrap: bool, order: seq<PathIndex>,
      index: PathIndex, best: PublicKey)
    requires index in r.snek.paths && forall i :: i in order ==> i in r.snek.paths
    ensures TableScan(r, now, dest, bootstrap, order + [index], best)
      == match TableScan(r, now, dest, bootstrap, order, best)
         case None => None
         case Some(b) => ScanStep(r, now, dest, bootstrap, index, b)
  {
    assert (order + [index])[..|order + [index]| - 1] == order;
  }

  lemma VisitStep(r: RouterState, now: Time, dest: PublicKey, bootstrap: bool, order: seq<PathIndex>,
      todo: set<PathIndex>,
      best: PublicKey, best': PublicKey, index: PathIndex)
    requires Visited(r, now, dest, bootstrap, order, todo, best, best') && index in todo
    ensures index in r.snek.paths
    ensures match ScanStep(r, now, dest, bootstrap, index, best')
            case Some(b) => Visited(r, now, dest, bootstrap, order + [index], todo - {index}, best, b)
            case None => exists more :: IsVisit(r, more) && TableScan(r, now, dest, bootstrap, more, best).None?
  {
    hide ScanStep, TableScan;
    var longer := order + [index];
    ScanGrows(r, now, dest, bootstrap, order, index, best);
    if ScanStep(r, now, dest, bootstrap, index, best').None? {
      var more := VisitCompletes(r, longer, todo - {index});
      assert forall i :: i in longer + more ==> i in r.snek.paths;
      ScanStaysPanicked(r, now, dest, bootstrap, longer, more, best);
    }
  }

  method ScanPaths(r: RouterState, now: Time, dest: PublicKey, bootstrap: bool, traffic: bool,
      ghost seen: set<PublicKey>, best: PublicKey, hop: Option<PublicKey>)
    returns (panicked: bool, best': PublicKey, hop': Option<PublicKey>, ghost seen': set<PublicKey>)
    requires PathsScanned(r, now, dest, bootstrap, traffic, seen, best, hop)
    ensures exists order :: (
      && IsVisit(r, order)
      && TableScan(r, now, dest, bootstrap, order, best) == if panicked then None else Some(best'))
    ensures !panicked ==> PathsScanned(r, now, dest, bootstrap, traffic, seen', best', hop')
    ensures !panicked ==> forall i :: (
      i in r.snek.paths && Usable(r.snek.paths[i], now, bootstrap) && PeerOnPort(r.tree, r.snek.paths[i].source).Some?
      ==> i.publicKey in seen')
    ensures !panicked ==> forall i ::
      SourceLost(r, now, bootstrap, i) ==> !Improves(dest, bootstrap, i.publicKey, best')
  {
    hide LeadsTo, PathVia, Heard, Known, Visited, TableScan, IsVisit;
    best', hop', seen' := best, hop, seen;
    var todo := r.snek.paths.Keys;
    ghost var order := [];
    assert Visited(r, now, dest, bootstrap, order, todo, best, best') by { VisitStarts(r, now, dest, bootstrap, best); }
    while todo != {}
      invariant todo <= r.snek.paths.Keys && seen <= seen'
      invariant Visited(r, now, dest, bootstrap, order, todo, best, best')
      invariant PathsScanned(r, now, dest, bootstrap, traffic, seen', best', hop')
      invariant forall i :: i in r.snek.paths.Keys - todo && Usable(r.snek.paths[i], now, bootstrap) ==>
        i.publicKey in seen' || (SourceLost(r, now, bootstrap, i) && !Improves(dest, bootstrap, i.publicKey, best'))
      decreases todo
    {
      var index :| index in todo;
      VisitStep(r, now, dest, bootstrap, order, todo, best, best', index);
      todo, order := todo - {index}, order + [index];
      var entry := r.snek.paths[index];
      if !Valid(entry, now) || entry.source == 0 { continue; }
      if !bootstrap && !entry.active { continue; }
      var key, peer := index.publicKey, PeerOnPort(r.tree, entry.source);
      if peer.None? {
        if Improves(dest, bootstrap, key, best') { return true, best', hop', seen'; }
        continue;
      }
      KnownByPath(r, now, dest, bootstrap, traffic, index, peer.value);
      BestOfStep(dest, bootstrap, StartKey(r.tree, dest, bootstrap), seen', best', key);
      if Improves(dest, bootstrap, key, best') {
        ImprovementIsNew(dest, bootstrap, StartKey(r.tree, dest, bootstrap), seen', best', key);
      }
      seen' := seen' + {key};
      if !bootstrap && key == dest && best' != dest {
        best', hop' := key, peer;
      }
      if DhtOrdered(dest, key, best') {
        best', hop' := key, peer;
      }
    }
    VisitEnds(r, now, dest, bootstrap, order, best, best');
    panicked := false;
  }

  lemma VisitStarts(r: RouterState, now: Time, dest: PublicKey, bootstrap: bool, best: PublicKey)
    ensures Visited(r, now, dest, bootstrap, [], r.snek.paths.Keys, best, best)
  {
  }

  lemma VisitEnds(r: RouterState, now: Time, dest: PublicKey, bootstrap: bool, order: seq<PathIndex>, best: PublicKey,
      best': PublicKey)
    requires Visited(r, now, dest, bootstrap, order, {}, best, best')
    ensures IsVisit(r, order) && TableScan(r, now, dest, bootstrap, order, best) == Some(best')
  {
  }

  lemma KnownByPath(r: RouterState, now: Time, dest: PublicKey, bootstrap: bool, traffic: bool, index: PathIndex,
      peer: PublicKey)
    requires index in r.snek.paths && Usable(r.snek.paths[index], now, bootstrap)
    requires PeerOnPort(r.tree, r.snek.paths[index].source) == Some(peer)
    ensures Known(r, now, bootstrap, index.publicKey)
    ensures !Heard(r, index.publicKey) && index.publicKey != StartKey(r.tree, dest, bootstrap)
      ==> LeadsTo(r, now, dest, bootstrap, traffic, index.publicKey, Some(peer))
  {
    assert PathVia(r, now, bootstrap, index.publicKey, peer);
    assert KnownVia(r, now, bootstrap, index.publicKey, peer);
  }

  /** `next_snek_hop`, with its tables visited in any order. It panics only over a path that has lost its source and is
      better than anything announced; `SomeOrderPanicsExactly` says that then some order does panic. */
  method NextSnekHop(r: RouterState, now: Time, dest: PublicKey, bootstrap: bool, traffic: bool)
    returns (panicked: bool, hop: Option<PublicKey>)
    ensures !panicked ==> exists key: PublicKey :: (
      && IsSnekHop(r, now, dest, bootstrap, traffic, key, hop)
      && forall index :: SourceLost(r, now, bootstrap, index) ==> !Improves(dest, bootstrap, index.publicKey, key))
    ensures panicked ==> MayPanic(r, now, dest, bootstrap)
  {
    hide Valid;
    var s := r.tree;
    if !bootstrap && s.key == dest {
      assert IsSnekHop(r, now, dest, bootstrap, traffic, dest, Some(s.key));
      return false, Some(s.key);
    }
    hop := if traffic then None else Some(s.key);
    var best := s.key;
    ghost var seen: set<PublicKey> := {};
    if s.parent != s.key {
      if bootstrap && best == dest {
        best, hop := CurrentRoot(s).publicKey, Some(s.parent);
      }
      if DhtOrdered(best, dest, CurrentRoot(s).publicKey) {
        best, hop := CurrentRoot(s).publicKey, Some(s.parent);
      }
      best, hop, seen := ScanSigners(CurrentSignatures(s), s.parent, dest, bootstrap, StartKey(s, dest, bootstrap),
        seen, best, hop);
    }
    best, hop, seen := ScanAnnouncements(r, dest, bootstrap, traffic, seen, best, hop);
    ghost var announced := hop;
    hop := PreferDirectPeer(s, best, hop);
    PathsScanStarts(r, now, dest, bootstrap, traffic, seen, best, announced);
    AnnouncedIsScanned(r, dest, bootstrap, traffic, seen, best, announced);
    hide Scanned, PathsScanned, StartKey, TowardsRoot, IsAnnouncedBest, MayPanic, TableScan, IsVisit;
    ghost var announcedBest := best;
    panicked, best, hop, seen := ScanPaths(r, now, dest, bootstrap, traffic, seen, best, hop);
    if panicked { SomeOrderPanicsExactly(r, now, dest, bootstrap, announcedBest); }
    else { AllIsScanned(r, now, dest, bootstrap, traffic, seen, best, hop); }
  }

  lemma AnnouncedIsScanned(r: RouterState, dest: PublicKey, bootstrap: bool, traffic: bool,
      seen: set<PublicKey>, best: PublicKey, hop: Option<PublicKey>)
    requires Scanned(r, dest, bootstrap, traffic, seen, best, hop) && forall k :: Heard(r, k) ==> k in seen
    ensures IsAnnouncedBest(r, dest, bootstrap, best)
  {
    hide AnnouncedWay, Heard;
  }

  /** What the scan of announcements found, with a direct peer reached directly, is where the scan of paths starts. */
  lemma PathsScanStarts(r: RouterState, now: Time, dest: PublicKey, bootstrap: bool, traffic: bool,
      seen: set<PublicKey>, best: PublicKey, hop: Option<PublicKey>)
    requires Scanned(r, dest, bootstrap, traffic, seen, best, hop) && forall k :: Heard(r, k) ==> k in seen
    ensures PathsScanned(r, now, dest, bootstrap, traffic, seen, best, if HasPeer(r.tree, best) then Some(best)
      else hop)
  {
    hide AnnouncedWay, Known, Heard;
    forall k | k in seen ensures Known(r, now, bootstrap, k) {
      HeardIsKnown(r, now, bootstrap, k);
    }
  }

  /** A scan that has come across every known key has found the hop. */
  lemma AllIsScanned(r: RouterState, now: Time, dest: PublicKey, bootstrap: bool, traffic: bool,
      seen: set<PublicKey>, best: PublicKey, hop: Option<PublicKey>)
    requires PathsScanned(r, now, dest, bootstrap, traffic, seen, best, hop)
    requires forall i :: (
      i in r.snek.paths && Usable(r.snek.paths[i], now, bootstrap) && PeerOnPort(r.tree, r.snek.paths[i].source).Some?
      ==> i.publicKey in seen)
    ensures IsSnekHop(r, now, dest, bootstrap, traffic, best, hop)
  {
    hide LeadsTo, Valid;
    forall k: PublicKey | Known(r, now, bootstrap, k) ensures k in seen {
      var peer :| KnownVia(r, now, bootstrap, k, peer);
    }
  }

  lemma HeardIsKnown(r: RouterState, now: Time, bootstrap: bool, key: PublicKey)
    requires Heard(r, key)
    ensures Known(r, now, bootstrap, key)
  {
    if IsAncestor(r, key) {
      assert KnownVia(r, now, bootstrap, key, r.tree.parent);
    } else {
      var peer :| HeardVia(r, key, peer);
      assert KnownVia(r, now, bootstrap, key, peer);
    }
  }
}

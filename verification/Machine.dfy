/** The router as a state machine over its atomic steps, and what holds in every reachable state. */
module Machine {
  import opened Types
  import opened Coordinates
  import opened Announcements
  import opened Frames
  import opened Tree
  import opened TreeProtocol
  import opened Snek
  import opened SnekProtocol

  datatype Machine = Machine(router: RouterState, clock: Time)

  /** One atomic step. Frames come from peers: the local channel can only build `SnekRouted` frames, which change
      nothing. Any key can be a peer's, our own included. */
  datatype Event =
    | PortReserved(port: Port)
    | PeerAdded(port: Port, peer: PublicKey)
    | AnnouncementArrived(frame: Announcement, sender: PublicKey)
    | ParentSelected(best: Option<PublicKey>)
    | TimerStarted
    | SequenceAdvanced
    | BootstrapAckArrived(ackSender: PublicKey, ack: BootstrapAck, ackHop: Option<PublicKey>, hopPort: Port)
    | SetupArrived(from: Port, setup: Setup, hop: PublicKey, next: Port)
    | SetupAckArrived(from: Port, setupAck: SetupAck)
    | TeardownArrived(from: Port, teardown: Teardown)
    | TaskRan(task: Pending)
    | SnekMaintained
    | PeerLost(peer: PublicKey, lostPort: Option<Port>, best: Option<PublicKey>)

  predicate Connected(t: TreeState, port: Port) {
    port != 0 && PeerOnPort(t, port).Some?
  }

  /** from is what `port` tells of a peer some frame may come from: 0 if that peer goes by our own key. */
  predicate SendsFrom(t: TreeState, from: Port) {
    && PeerOnPort(t, from).Some?
    && IsPortOf(t, PeerOnPort(t, from).value, from) && HasPeer(t, PeerOnPort(t, from).value)
  }

  ghost predicate Enabled(r: RouterState, now: Time, e: Event) {
    match e
    case PortReserved(port) => port != 0 && port !in r.tree.ports
    case PeerAdded(port, peer) => port != 0
    case AnnouncementArrived(frame, sender) =>
      (sender == r.tree.key ==> HasPeer(r.tree, sender)) && r.tree.ordering < U64_MAX
    case ParentSelected(best) => IsSelection(r.tree, now, best)
    case TimerStarted => true
    case SequenceAdvanced => r.tree.sequence < U64_MAX
    case BootstrapAckArrived(sender, ack, hop, hopPort) =>
      && IsTreeHop(r.tree, ack.destinationCoords, sender, Some(r.tree.key))
      && (AcceptsAck(r, ack, now) ==>
            IsTreeHop(r.tree, ack.sourceCoords, r.tree.key, hop)
              && (hop.Some? ==> IsPortOf(r.tree, hop.value, hopPort)))
    case SetupArrived(from, setup, hop, next) =>
      && SendsFrom(r.tree, from)
      && IsTreeHop(r.tree, setup.destination, PeerOnPort(r.tree, from).value, Some(hop))
      && IsPortOf(r.tree, hop, next)
    case SetupAckArrived(from, setupAck) => SendsFrom(r.tree, from)
    case TeardownArrived(from, teardown) => SendsFrom(r.tree, from)
    case TaskRan(task) => task in r.snek.pending
    case SnekMaintained => true
    case PeerLost(peer, port, best) =>
      && (match port case Some(p) => IsPortOf(r.tree, peer, p)
        case None => peer != r.tree.key && !HasPeer(r.tree, peer))
      && (Reselects(r, peer, port) ==> IsSelection(Severed(r.tree, peer, port), now, best))
  }

  // ---- What runs may be asked to satisfy ----

  /** A bootstrap ACK that is accepted does not reuse our ascending path's id; ids are random 64-bit numbers. */
  predicate FreshAck(r: RouterState, ack: BootstrapAck, now: Time) {
    AcceptsAck(r, ack, now) && r.snek.ascending.Some? ==> ack.pathId != r.snek.ascending.value.index.pathId
  }

  /** Nor does one that is acted upon, the setup having somewhere to go. */
  predicate Fresh(r: RouterState, now: Time, e: Event) {
    e.BootstrapAckArrived? && e.ackHop.Some? && e.ackHop.value != r.tree.key ==> FreshAck(r, e.ack, now)
  }

  /** No connection is taken up under our own key. `connect` does not look for that. */
  predicate Guarded(key: PublicKey, e: Event) {
    e.PeerAdded? ==> e.peer != key
  }

  ghost function Next(scheme: Scheme, r: RouterState, now: Time, e: Event): RouterState
    requires Enabled(r, now, e)
  {
    var t := r.tree;
    match e
    case PortReserved(port) => r.(tree := t.(ports := t.ports[port := None]))
    case PeerAdded(port, peer) => r.(tree := t.(ports := t.ports[port := Some(peer)]))
    case AnnouncementArrived(frame, sender) => r.(tree := OnAnnouncement(scheme, t, frame, sender, now).0)
    case ParentSelected(best) => r.(tree := Selected(t, best))
    case TimerStarted => r.(tree := t.(reparentTimer := Some(now)))
    case SequenceAdvanced => r.(tree := t.(sequence := t.sequence + 1))
    case BootstrapAckArrived(sender, ack, hop, hopPort) => OnBootstrapAck(r, ack, now, hop, hopPort).state
    case SetupArrived(from, setup, hop, next) => OnSetup(r, from, setup, next, now).state
    case SetupAckArrived(from, setupAck) => OnSetupAck(r, from, setupAck).state
    case TeardownArrived(from, teardown) => OnTeardown(r, from, teardown)
    case TaskRan(task) => RunPending(r, task).state
    case SnekMaintained => OnMaintain(r, now)
    case PeerLost(peer, port, best) => OnDisconnect(r, peer, port, best)
  }

  /** `Router::new`. */
  function Initial(key: PublicKey): RouterState {
    RouterState(
      TreeState(key, map[], key, map[], 0, 0, None),
      SnekState(None, None, map[], None, multiset{}))
  }

  datatype Step = Step(now: Time, event: Event)

  /** Machines before and after each step, the clock never going back. */
  ghost predicate RunFrom(scheme: Scheme, start: Machine, trace: seq<Machine>, steps: seq<Step>) {
    && |trace| == |steps| + 1
    && trace[0] == start
    && forall i :: 0 <= i < |steps| ==> TakesStep(scheme, trace[i], steps[i], trace[i + 1])
  }

  /** A run of a new router. */
  ghost predicate IsRun(scheme: Scheme, key: PublicKey, trace: seq<Machine>, steps: seq<Step>) {
    && trace != [] && trace[0].router == Initial(key) && RunFrom(scheme, trace[0], trace, steps)
  }

  ghost predicate FreshRun(trace: seq<Machine>, steps: seq<Step>) {
    |trace| == |steps| + 1 && forall i :: 0 <= i < |steps| ==> Fresh(trace[i].router, steps[i].now, steps[i].event)
  }

  ghost predicate GuardedRun(key: PublicKey, steps: seq<Step>) {
    forall i :: 0 <= i < |steps| ==> Guarded(key, steps[i].event)
  }

  ghost predicate TakesStep(scheme: Scheme, before: Machine, step: Step, after: Machine) {
    && before.clock <= step.now
    && Enabled(before.router, step.now, step.event)
    && after == Machine(Next(scheme, before.router, step.now, step.event), step.now)
  }

  // ---- The invariants ----

  /** The cached ascending path is an active entry of the table, ours, to a higher key. */
  ghost predicate AscendingInTable(key: PublicKey, s: SnekState) {
    s.ascending.Some? ==>
      var a := s.ascending.value;
      && a.index in s.paths && s.paths[a.index] == a
      && a.active && a.source == 0 && a.index.publicKey == key && key < a.origin
  }

  /** The candidate is a path of ours to a higher key; the descending path is active, ends here and starts at a lower
      key. */
  ghost predicate KeyOrder(key: PublicKey, s: SnekState) {
    && (s.candidate.Some? ==>
          var c := s.candidate.value;
          c.active && c.source == 0 && c.index.publicKey == key && key < c.origin)
    && (s.descending.Some? ==>
          var d := s.descending.value;
          d.active && d.destination == 0 && d.index.publicKey < key)
  }

  ghost predicate FiledByIndex(s: SnekState) {
    forall i :: i in s.paths ==> s.paths[i].index == i
  }

  /** While the ascending path is unexpired, the candidate is no farther above us than it. */
  ghost predicate CandidateCloser(s: SnekState, now: Time) {
    (s.candidate.Some? && s.ascending.Some? && Valid(s.ascending.value, now))
    ==> s.candidate.value.origin <= s.ascending.value.origin
  }

  /** Nothing was seen in the future, so measuring elapsed time never fails. */
  ghost predicate SeenByNow(s: SnekState, now: Time) {
    && (forall i :: i in s.paths ==> s.paths[i].lastSeen <= now)
    && (s.ascending.Some? ==> s.ascending.value.lastSeen <= now)
    && (s.descending.Some? ==> s.descending.value.lastSeen <= now)
    && (s.candidate.Some? ==> s.candidate.value.lastSeen <= now)
  }

  predicate Doomed(s: SnekState, index: PathIndex) {
    Pending(0, index) in s.pending
  }

  /** Of the paths that start here, all but the candidate's, or without one the ascending path's, are being torn
      down. */
  ghost predicate OneLive(s: SnekState) {
    forall i :: i in s.paths && s.paths[i].source == 0 && !Doomed(s, i) ==>
      if s.candidate.Some? then s.paths[i].(active := true) == s.candidate.value else s.ascending == Some(s.paths[i])
  }

  /** Every path that starts here is ours, all but one of them are on the way out, and the descending path comes from
      a peer. */
  ghost predicate OwnPaths(key: PublicKey, s: SnekState) {
    && (forall i :: i in s.paths && s.paths[i].source == 0 ==> i.publicKey == key)
    && OneLive(s)
    && (s.descending.Some? ==> s.descending.value.source != 0)
  }

  /** Port p of an entry leads somewhere: home, to a peer, or its loss is about to be dealt with. */
  predicate Accounted(t: TreeState, s: SnekState, p: Port, index: PathIndex) {
    p == 0 || Connected(t, p) || Pending(p, index) in s.pending
  }

  ghost predicate NoDanglingPorts(t: TreeState, s: SnekState) {
    forall i :: i in s.paths ==> Accounted(t, s, s.paths[i].source, i) && Accounted(t, s, s.paths[i].destination, i)
  }

  ghost predicate TableInv(key: PublicKey, s: SnekState, now: Time) {
    && AscendingInTable(key, s)
    && KeyOrder(key, s)
    && FiledByIndex(s)
    && CandidateCloser(s, now)
    && SeenByNow(s, now)
  }

  /** What every run keeps in which no ACK reuses the path id of the ascending path. */
  ghost predicate Inv(scheme: Scheme, m: Machine) {
    && StoreInv(scheme, m.router.tree)
    && TableInv(m.router.tree.key, m.router.snek, m.clock)
    && NoDanglingPorts(m.router.tree, m.router.snek)
  }

  /** What it also keeps as long as no connection is taken up under our own key. */
  ghost predicate HomeInv(r: RouterState) {
    && !HasPeer(r.tree, r.tree.key)
    && r.tree.key !in r.tree.announcements
    && OwnPaths(r.tree.key, r.snek)
  }

  // ---- Every step keeps them ----

  /** s' is s without the entry at index, and without the cached paths that were that entry. */
  ghost predicate Without(s: SnekState, s': SnekState, index: PathIndex) {
    && s'.paths == s.paths - {index}
    && s'.ascending == (if s.ascending.Some? && s.ascending.value.index == index then None else s.ascending)
    && (s'.descending == s.descending || s'.descending.None?)
    && s'.candidate == s.candidate
  }

  /** A teardown removes one entry or does nothing; it never leaves the ascending path without its entry. */
  lemma TeardownIsRemoval(key: PublicKey, s: SnekState, from: Port, index: PathIndex)
    requires AscendingInTable(key, s) && KeyOrder(key, s)
    ensures var s' := TornDown(s, from, index).0;
            s'.pending == s.pending && (s' == s || Without(s, s', index))
  {
  }

  lemma RemovalKeepsTable(key: PublicKey, s: SnekState, s': SnekState, now: Time, index: PathIndex)
    requires TableInv(key, s, now) && Without(s, s', index)
    ensures TableInv(key, s', now)
  {
  }

  /** Removing an entry keeps our own paths in order, if what remains is doomed as before. */
  lemma RemovalKeepsOwnPaths(key: PublicKey, s: SnekState, s': SnekState, index: PathIndex)
    requires FiledByIndex(s) && OwnPaths(key, s) && Without(s, s', index)
    requires forall i :: i in s'.paths && Doomed(s, i) ==> Doomed(s', i)
    ensures OwnPaths(key, s')
  {
  }

  lemma TeardownKeepsTable(key: PublicKey, s: SnekState, now: Time, from: Port, index: PathIndex)
    requires TableInv(key, s, now)
    ensures TableInv(key, TornDown(s, from, index).0, now)
    ensures OwnPaths(key, s) ==> OwnPaths(key, TornDown(s, from, index).0)
  {
    hide TornDown, OwnPaths, TableInv;
    assert AscendingInTable(key, s) && KeyOrder(key, s) && FiledByIndex(s) by { TableParts(key, s, now); }
    TeardownIsRemoval(key, s, from, index);
    var s' := TornDown(s, from, index).0;
    if s' != s {
      RemovalKeepsTable(key, s, s', now, index);
      if OwnPaths(key, s) { RemovalKeepsOwnPaths(key, s, s', index); }
    }
  }

  lemma TableParts(key: PublicKey, s: SnekState, now: Time)
    requires TableInv(key, s, now)
    ensures AscendingInTable(key, s) && KeyOrder(key, s) && FiledByIndex(s)
  {
  }

  /** A teardown from home always removes the entry. */
  lemma TeardownFromHomeRemoves(s: SnekState, index: PathIndex)
    ensures TornDown(s, 0, index).0.paths == s.paths - {index}
  {
  }

  /** A teardown from one of an entry's ports removes it. */
  lemma TeardownFromPortRemoves(s: SnekState, from: Port, index: PathIndex)
    requires index in s.paths && from in {0, s.paths[index].source, s.paths[index].destination}
    ensures index !in TornDown(s, from, index).0.paths
  {
  }

  /** The state a spawned task leaves. */
  function AfterTask(s: SnekState, task: Pending): SnekState {
    TornDown(s.(pending := s.pending - multiset{task}), task.from, task.index).0
  }

  lemma TaskKeepsTable(key: PublicKey, s: SnekState, now: Time, task: Pending)
    requires TableInv(key, s, now)
    ensures TableInv(key, AfterTask(s, task), now)
    ensures OwnPaths(key, s) ==> OwnPaths(key, AfterTask(s, task))
  {
    hide TornDown, Valid;
    var waiting, s' := s.(pending := s.pending - multiset{task}), AfterTask(s, task);
    TeardownIsRemoval(key, waiting, task.from, task.index);
    if s' == waiting {
      TeardownFromHomeRemoves(waiting, task.index);
    } else {
      RemovalKeepsTable(key, s, s', now, task.index);
    }
    if OwnPaths(key, s) {
      assert forall i :: i in s'.paths && Doomed(s, i) ==> Doomed(s', i);
      if s' == waiting { assert OneLive(s'); } else { RemovalKeepsOwnPaths(key, s, s', task.index); }
    }
  }

  lemma SpawnKeepsTable(key: PublicKey, s: SnekState, now: Time, tasks: multiset<Pending>)
    requires TableInv(key, s, now)
    ensures TableInv(key, Spawned(s, tasks), now)
    ensures OwnPaths(key, s) ==> OwnPaths(key, Spawned(s, tasks))
  {
  }

  lemma BootstrapAckKeepsTable(r: RouterState, now: Time, ack: BootstrapAck, hop: Option<PublicKey>, port: Port)
    requires TableInv(r.tree.key, r.snek, now) && (hop.Some? && hop.value != r.tree.key ==> FreshAck(r, ack, now))
    ensures TableInv(r.tree.key, OnBootstrapAck(r, ack, now, hop, port).state.snek, now)
  {
  }

  lemma BootstrapAckKeepsOwnPaths(r: RouterState, now: Time, ack: BootstrapAck, hop: Option<PublicKey>, port: Port)
    requires OwnPaths(r.tree.key, r.snek)
    ensures OwnPaths(r.tree.key, OnBootstrapAck(r, ack, now, hop, port).state.snek)
  {
  }

  /** s' is s with a new entry of some setup, which may have become the descending path. */
  ghost predicate WithForeign(key: PublicKey, s: SnekState, s': SnekState, now: Time, entry: Path) {
    && entry.index !in s.paths && entry.lastSeen <= now
    && s'.paths == s.paths[entry.index := entry]
    && s'.ascending == s.ascending && s'.candidate == s.candidate && s.pending <= s'.pending
    && (s'.descending == s.descending
        || (s'.descending == Some(entry) && entry.active && entry.destination == 0 && entry.index.publicKey < key))
  }

  lemma ForeignKeepsTable(key: PublicKey, s: SnekState, s': SnekState, now: Time, entry: Path)
    requires TableInv(key, s, now) && WithForeign(key, s, s', now, entry)
    ensures TableInv(key, s', now)
    ensures OwnPaths(key, s) && entry.source != 0 ==> OwnPaths(key, s')
  {
  }

  lemma SetupKeepsTable(r: RouterState, now: Time, from: Port, rx: Setup, next: Port)
    requires TableInv(r.tree.key, r.snek, now)
    ensures TableInv(r.tree.key, OnSetup(r, from, rx, next, now).state.snek, now)
    ensures OwnPaths(r.tree.key, r.snek) && from != 0
      ==> OwnPaths(r.tree.key, OnSetup(r, from, rx, next, now).state.snek)
  {
    hide TableInv, OwnPaths, SentVia, Rejection, Valid, CurrentRoot;
    var s' := OnSetup(r, from, rx, next, now).state.snek;
    if PathIndex(rx.sourceKey, rx.pathId) in r.snek.paths {
      SpawnKeepsTable(r.tree.key, r.snek, now, multiset{Pending(0, PathIndex(rx.sourceKey, rx.pathId))});
    } else if s' != r.snek {
      var entry := if rx.destinationKey == r.tree.key then EndEntry(rx, from, now)
        else MiddleEntry(rx, from, next, now);
      ForeignKeepsTable(r.tree.key, r.snek, s', now, entry);
    }
  }

  lemma ActivationKeepsTable(key: PublicKey, s: SnekState, now: Time, index: PathIndex)
    requires TableInv(key, s, now) && index in s.paths && !s.paths[index].active
    ensures TableInv(key, Activated(s, index), now)
  {
  }

  lemma ActivationKeepsOwnPaths(key: PublicKey, s: SnekState, index: PathIndex)
    requires AscendingInTable(key, s) && FiledByIndex(s) && OwnPaths(key, s) && index in s.paths
    requires !s.paths[index].active
    ensures OwnPaths(key, Activated(s, index))
  {
  }

  lemma SetupAckKeepsTable(r: RouterState, now: Time, from: Port, rx: SetupAck)
    requires TableInv(r.tree.key, r.snek, now)
    ensures TableInv(r.tree.key, OnSetupAck(r, from, rx).state.snek, now)
    ensures OwnPaths(r.tree.key, r.snek) ==> OwnPaths(r.tree.key, OnSetupAck(r, from, rx).state.snek)
  {
    hide TableInv, OwnPaths, Activated;
    if Activates(r, from, rx) {
      var index := PathIndex(rx.destinationKey, rx.pathId);
      ActivationKeepsTable(r.tree.key, r.snek, now, index);
      TableParts(r.tree.key, r.snek, now);
      if OwnPaths(r.tree.key, r.snek) { ActivationKeepsOwnPaths(r.tree.key, r.snek, index); }
    }
  }

  lemma LostPortKeepsTable(key: PublicKey, s: SnekState, now: Time, port: Port)
    requires TableInv(key, s, now)
    ensures TableInv(key, LostPort(s, port).0, now)
    ensures OwnPaths(key, s) ==> OwnPaths(key, LostPort(s, port).0)
  {
    hide TableInv, OwnPaths, TornDown;
    SpawnKeepsTable(key, s, now, multiset(Through(s, port)));
    var s1 := Spawned(s, multiset(Through(s, port)));
    var s2 := s1;
    if s.ascending.Some? && s.ascending.value.destination == port {
      TeardownKeepsTable(key, s1, now, 0, s.ascending.value.index);
      s2 := TornDown(s1, 0, s.ascending.value.index).0;
    }
    if s2.descending.Some? { TeardownKeepsTable(key, s2, now, 0, s2.descending.value.index); }
  }

  /** Passing time only lets paths expire. */
  lemma TimeKeepsTable(key: PublicKey, s: SnekState, earlier: Time, later: Time)
    requires TableInv(key, s, earlier) && earlier <= later
    ensures TableInv(key, s, later)
  {
  }

  lemma StepKeepsTable(scheme: Scheme, r: RouterState, now: Time, e: Event)
    requires TableInv(r.tree.key, r.snek, now) && Enabled(r, now, e) && Fresh(r, now, e)
    ensures TableInv(r.tree.key, Next(scheme, r, now, e).snek, now)
  {
    hide TableInv, OwnPaths, OnBootstrapAck, OnSetup, OnSetupAck, LostPort, TornDown, Stale, IsTreeHop, FreshAck;
    match e
    case BootstrapAckArrived(sender, ack, hop, hopPort) => BootstrapAckKeepsTable(r, now, ack, hop, hopPort);
    case SetupArrived(from, setup, hop, next) => SetupKeepsTable(r, now, from, setup, next);
    case SetupAckArrived(from, setupAck) => SetupAckKeepsTable(r, now, from, setupAck);
    case TeardownArrived(from, teardown) =>
      TeardownKeepsTable(r.tree.key, r.snek, now, from, PathIndex(teardown.destinationKey, teardown.pathId));
    case TaskRan(task) => TaskKeepsTable(r.tree.key, r.snek, now, task);
    case SnekMaintained => SpawnKeepsTable(r.tree.key, r.snek, now, Stale(r.snek, now));
    case PeerLost(peer, port, best) =>
      if port.Some? { LostPortKeepsTable(r.tree.key, r.snek, now, port.value); }
    case _ =>
  }

  /** While we are not our own peer no frame seems to come from home, and our own paths stay in order. */
  lemma StepKeepsOwnPaths(scheme: Scheme, r: RouterState, now: Time, e: Event)
    requires TableInv(r.tree.key, r.snek, now) && HomeInv(r) && Enabled(r, now, e)
    ensures OwnPaths(r.tree.key, Next(scheme, r, now, e).snek)
  {
    hide TableInv, OwnPaths, OnBootstrapAck, OnSetup, OnSetupAck, LostPort, TornDown, Stale, IsTreeHop;
    match e
    case BootstrapAckArrived(sender, ack, hop, hopPort) => BootstrapAckKeepsOwnPaths(r, now, ack, hop, hopPort);
    case SetupArrived(from, setup, hop, next) => SetupKeepsTable(r, now, from, setup, next);
    case SetupAckArrived(from, setupAck) => SetupAckKeepsTable(r, now, from, setupAck);
    case TeardownArrived(from, teardown) =>
      TeardownKeepsTable(r.tree.key, r.snek, now, from, PathIndex(teardown.destinationKey, teardown.pathId));
    case TaskRan(task) => TaskKeepsTable(r.tree.key, r.snek, now, task);
    case SnekMaintained => SpawnKeepsTable(r.tree.key, r.snek, now, Stale(r.snek, now));
    case PeerLost(peer, port, best) =>
      if port.Some? { LostPortKeepsTable(r.tree.key, r.snek, now, port.value); }
    case _ =>
  }

  // ---- Ports ----

  /** Entries may go, ports may come, and every entry's tasks may only be run when the entry goes with them. */
  lemma FewerEntriesStayAccounted(t: TreeState, s: SnekState, s': SnekState)
    requires NoDanglingPorts(t, s)
    requires forall i :: i in s'.paths ==> (
      && i in s.paths && s'.paths[i].source == s.paths[i].source && s'.paths[i].destination == s.paths[i].destination
      && (forall p: Port ::
        p in {s.paths[i].source, s.paths[i].destination} && Pending(p, i) in s.pending ==> Pending(p, i) in s'.pending))
    ensures NoDanglingPorts(t, s')
  {
  }

  lemma TaskKeepsPorts(t: TreeState, s: SnekState, task: Pending)
    requires NoDanglingPorts(t, s)
    ensures NoDanglingPorts(t, AfterTask(s, task))
  {
    var waiting := s.(pending := s.pending - multiset{task});
    var s' := AfterTask(s, task);
    if task.index in s.paths && task.from in {s.paths[task.index].source, s.paths[task.index].destination} {
      TeardownFromPortRemoves(waiting, task.from, task.index);
    }
    FewerEntriesStayAccounted(t, s, s');
  }

  lemma TeardownKeepsPorts(t: TreeState, s: SnekState, from: Port, index: PathIndex)
    requires NoDanglingPorts(t, s)
    ensures NoDanglingPorts(t, TornDown(s, from, index).0)
  {
  }

  lemma BootstrapAckKeepsPorts(r: RouterState, now: Time, ack: BootstrapAck, hop: Option<PublicKey>, port: Port)
    requires NoDanglingPorts(r.tree, r.snek)
    requires AcceptsAck(r, ack, now) && hop.Some? ==> IsPortOf(r.tree, hop.value, port)
    ensures NoDanglingPorts(r.tree, OnBootstrapAck(r, ack, now, hop, port).state.snek)
  {
  }

  lemma SetupKeepsPorts(r: RouterState, now: Time, from: Port, rx: Setup, next: Port)
    requires NoDanglingPorts(r.tree, r.snek) && PeerOnPort(r.tree, from).Some? && PeerOnPort(r.tree, next).Some?
    ensures NoDanglingPorts(r.tree, OnSetup(r, from, rx, next, now).state.snek)
  {
    hide AcceptsSetup, SentVia, Rejection, CurrentRoot;
  }

  lemma SetupAckKeepsPorts(r: RouterState, from: Port, rx: SetupAck)
    requires NoDanglingPorts(r.tree, r.snek)
    ensures NoDanglingPorts(r.tree, OnSetupAck(r, from, rx).state.snek)
  {
  }

  /** Losing a port: every entry through it is doomed. */
  lemma LostPortKeepsPorts(t: TreeState, s: SnekState, peer: PublicKey, port: Port)
    requires NoDanglingPorts(t, s) && 0 !in t.ports
    ensures NoDanglingPorts(Severed(t, peer, Some(port)), LostPort(s, port).0)
  {
    var t' := Severed(t, peer, Some(port));
    var s1 := Spawned(s, multiset(Through(s, port)));
    forall i | i in s1.paths
      ensures Accounted(t', s1, s1.paths[i].source, i) && Accounted(t', s1, s1.paths[i].destination, i)
    {
      assert Accounted(t, s, s.paths[i].source, i) && Accounted(t, s, s.paths[i].destination, i);
      if port in {s.paths[i].source, s.paths[i].destination} { assert Pending(port, i) in Through(s, port); }
    }
    var s2 := s1;
    if s.ascending.Some? && s.ascending.value.destination == port {
      TeardownKeepsPorts(t', s1, 0, s.ascending.value.index);
      s2 := TornDown(s1, 0, s.ascending.value.index).0;
    }
    if s2.descending.Some? { TeardownKeepsPorts(t', s2, 0, s2.descending.value.index); }
  }

  lemma StepKeepsPorts(scheme: Scheme, r: RouterState, now: Time, e: Event)
    requires NoDanglingPorts(r.tree, r.snek) && 0 !in r.tree.ports && Enabled(r, now, e)
    ensures NoDanglingPorts(Next(scheme, r, now, e).tree, Next(scheme, r, now, e).snek)
  {
    hide NoDanglingPorts, OnAnnouncement, OnBootstrapAck, OnSetup, OnSetupAck, LostPort, TornDown, Stale, IsTreeHop;
    var r' := Next(scheme, r, now, e);
    match e
    case BootstrapAckArrived(sender, ack, hop, hopPort) => BootstrapAckKeepsPorts(r, now, ack, hop, hopPort);
    case SetupArrived(from, setup, hop, next) => SetupKeepsPorts(r, now, from, setup, next);
    case SetupAckArrived(from, setupAck) => SetupAckKeepsPorts(r, from, setupAck);
    case TeardownArrived(from, teardown) => TeardownKeepsPorts(r.tree, r.snek, from,
      PathIndex(teardown.destinationKey, teardown.pathId));
    case TaskRan(task) => TaskKeepsPorts(r.tree, r.snek, task);
    case SnekMaintained => MorePortsKeepPorts(r.tree, r.snek, r'.tree, r'.snek);
    case PeerLost(peer, port, best) =>
      var t := Severed(r.tree, peer, port);
      if port.Some? { LostPortKeepsPorts(r.tree, r.snek, peer, port.value); }
      else { MorePortsKeepPorts(r.tree, r.snek, t, r.snek); }
      MorePortsKeepPorts(t, r'.snek, r'.tree, r'.snek);
    case _ => MorePortsKeepPorts(r.tree, r.snek, r'.tree, r'.snek);
  }

  lemma MorePortsKeepPorts(t: TreeState, s: SnekState, t': TreeState, s': SnekState)
    requires NoDanglingPorts(t, s)
    requires forall p: Port :: Connected(t, p) ==> Connected(t', p)
    requires s'.paths == s.paths && s.pending <= s'.pending
    ensures NoDanglingPorts(t', s')
  {
  }

  // ---- The tree ----

  /** No announcement is new, and port 0 stays ours. */
  ghost predicate NoMoreStored(t: TreeState, t': TreeState) {
    && t'.key == t.key && t.ordering <= t'.ordering && 0 !in t'.ports
    && forall k :: k in t'.announcements ==> k in t.announcements && t'.announcements[k] == t.announcements[k]
  }

  lemma NoMoreStoredKeepsStore(scheme: Scheme, t: TreeState, t': TreeState)
    requires StoreInv(scheme, t) && NoMoreStored(t, t')
    ensures StoreInv(scheme, t')
  {
    hide Clean;
  }

  lemma StepKeepsTree(scheme: Scheme, r: RouterState, now: Time, e: Event)
    requires StoreInv(scheme, r.tree) && Enabled(r, now, e)
    ensures StoreInv(scheme, Next(scheme, r, now, e).tree) && Next(scheme, r, now, e).tree.key == r.tree.key
  {
    hide Clean, OnAnnouncement, OnBootstrapAck, OnSetup, OnSetupAck, LostPort, TornDown, Stale, IsTreeHop,
      IsSelection, CurrentRoot,
      AcceptsAck, HasPeer, Reselects, SendsFrom;
    assert 0 !in r.tree.ports;
    hide StoreInv;
    if e.AnnouncementArrived? {
      AnnouncementKeepsStore(scheme, r.tree, e.frame, e.sender, now);
    } else {
      assert NoMoreStored(r.tree, Next(scheme, r, now, e).tree);
      NoMoreStoredKeepsStore(scheme, r.tree, Next(scheme, r, now, e).tree);
    }
  }

  /** We stay strangers to ourselves exactly as long as no connection is taken up under our own key. */
  lemma StepKeepsApartExactly(scheme: Scheme, r: RouterState, now: Time, e: Event)
    requires HomeInv(r) && Enabled(r, now, e)
    ensures var t := Next(scheme, r, now, e).tree;
            && t.key == r.tree.key && t.key !in t.announcements
            && (!HasPeer(t, t.key) <==> Guarded(r.tree.key, e))
  {
    hide Clean, OnBootstrapAck, OnSetup, OnSetupAck, LostPort, TornDown, Stale, IsTreeHop, IsSelection, CurrentRoot;
    if e.AnnouncementArrived? {
      OwnAnnouncementIsFiledExactly(scheme, r.tree, e.frame, e.sender, now);
    }
    if e.PeerAdded? { assert e.port in r.tree.ports[e.port := Some(e.peer)]; }
  }
}

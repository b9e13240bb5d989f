/** What the handlers do, said of entries, ports, peers and times: whom a teardown task tells, what maintenance and
    a lost peer remove, which acknowledgements and setups are taken, and what becomes active. */
module Effects {
  import opened Types
  import opened Coordinates
  import opened Announcements
  import opened Frames
  import opened Tree
  import opened TreeProtocol
  import opened Snek
  import opened SnekProtocol
  import opened Machine
  import opened Runs
  import opened Network
  import opened PathSetup

  // ---- Whom a teardown task tells ----

  ghost predicate Uncached(s: SnekState, index: PathIndex) {
    && (s.ascending.Some? ==> s.ascending.value.index != index)
    && (s.descending.Some? ==> s.descending.value.index != index)
  }

  function TeardownOf(t: TreeState, index: PathIndex): Frame {
    SnekTeardown(Teardown(CurrentRoot(t), index.publicKey, index.pathId))
  }

  /** Running it sends the path's teardown to exactly these peers, in this order, without a panic. */
  ghost predicate Tells(r: RouterState, task: Pending, peers: seq<PublicKey>) {
    && !TaskPanics(r, task)
    && var sent := RunPending(r, task).sent;
       && |sent| == |peers|
       && forall i :: 0 <= i < |peers| ==> sent[i] == Envelope(peers[i], TeardownOf(r.tree, task.index))
  }

  /** A foreign peer is on the port. */
  predicate Leads(t: TreeState, port: Port, peer: PublicKey) {
    port != 0 && PeerOnPort(t, port) == Some(peer) && peer != t.key
  }

  lemma SentToOne(t: TreeState, port: Port, frame: Frame)
    requires PeerOnPort(t, port).Some?
    ensures SentViaAll(t, [port], frame) == SentVia(t, port, frame) && !SomePeerGone(t, [port])
  {
    assert [port][1..] == [];
  }

  lemma SentToTwo(t: TreeState, first: Port, second: Port, frame: Frame)
    requires PeerOnPort(t, first).Some? && PeerOnPort(t, second).Some?
    ensures SentViaAll(t, [first, second], frame) == SentVia(t, first, frame) + SentVia(t, second, frame)
    ensures !SomePeerGone(t, [first, second])
  {
    assert [first, second][1..] == [second];
    SentToOne(t, second, frame);
  }

  /** A task as from one side of a path tells the other side, whichever side it is. */
  lemma TaskTellsOtherSide(r: RouterState, port: Port, other: Port, index: PathIndex, peer: PublicKey)
    requires index in r.snek.paths && Uncached(r.snek, index)
    requires port != 0 && port != other && Leads(r.tree, other, peer)
    requires var e := r.snek.paths[index];
             (e.source == port && e.destination == other) || (e.destination == port && e.source == other)
    ensures Tells(r, Pending(port, index), [peer])
  {
    hide CurrentRoot, SomePeerGone, SentViaAll;
    SentToOne(r.tree, other, TeardownFrame(r.tree, index));
  }

  /** At an end of the path there is nobody else to tell. */
  lemma TaskAtEndTellsNobody(r: RouterState, port: Port, index: PathIndex)
    requires index in r.snek.paths && Uncached(r.snek, index) && port != 0
    requires var e := r.snek.paths[index];
             (e.source == port && e.destination == 0) || (e.destination == port && e.source == 0)
    ensures Tells(r, Pending(port, index), [])
  {
    hide CurrentRoot, SomePeerGone, SentViaAll;
    SentToOne(r.tree, 0, TeardownFrame(r.tree, index));
  }

  /** A task from home tells both neighbours, the one towards the destination first. */
  lemma TaskFromHomeTellsBoth(r: RouterState, index: PathIndex, below: PublicKey, above: PublicKey)
    requires index in r.snek.paths && Uncached(r.snek, index)
    requires Leads(r.tree, r.snek.paths[index].source, below) && Leads(r.tree, r.snek.paths[index].destination, above)
    ensures Tells(r, Pending(0, index), [above, below])
  {
    hide CurrentRoot, SomePeerGone, SentViaAll;
    SentToTwo(r.tree, r.snek.paths[index].destination, r.snek.paths[index].source, TeardownFrame(r.tree, index));
  }

  /** And of a path of our own, or one that ends here, the one neighbour there is. */
  lemma TaskFromHomeTellsNeighbour(r: RouterState, index: PathIndex, peer: PublicKey)
    requires index in r.snek.paths && Uncached(r.snek, index)
    requires var e := r.snek.paths[index];
             (e.source == 0 && Leads(r.tree, e.destination, peer))
               || (e.destination == 0 && Leads(r.tree, e.source, peer))
    ensures Tells(r, Pending(0, index), [peer])
  {
    hide CurrentRoot, SomePeerGone, SentViaAll;
    SentToTwo(r.tree, r.snek.paths[index].destination, r.snek.paths[index].source, TeardownFrame(r.tree, index));
  }

  /** From home, the ascending path's next node is told. */
  lemma AscendingTaskTellsNext(r: RouterState, peer: PublicKey)
    requires r.snek.ascending.Some? && Leads(r.tree, r.snek.ascending.value.destination, peer)
    ensures Tells(r, Pending(0, r.snek.ascending.value.index), [peer])
  {
    hide CurrentRoot, SomePeerGone, SentViaAll;
    SentToOne(r.tree, r.snek.ascending.value.destination, TeardownFrame(r.tree, r.snek.ascending.value.index));
  }

  /** The descending path's lower neighbour is not: while that path is cached, its teardown from home goes to its
      destination, which is home. */
  lemma DescendingTaskTellsNobody(scheme: Scheme, m: Machine)
    requires Inv(scheme, m) && m.router.snek.descending.Some?
    ensures Tells(m.router, Pending(0, m.router.snek.descending.value.index), [])
  {
    hide CurrentRoot, SomePeerGone, SentViaAll, StoreInv, NoDanglingPorts, CandidateCloser, SeenByNow;
    SentToOne(m.router.tree, 0, TeardownFrame(m.router.tree, m.router.snek.descending.value.index));
  }

  /** After a peer is lost, a task spawned for a path through its port tells the peer on the path's other side. */
  lemma LostPeerTellsOtherSide(scheme: Scheme, before: Machine, step: Step, after: Machine, index: PathIndex,
      other: Port, peer: PublicKey)
    requires TakesStep(scheme, before, step, after) && step.event.PeerLost? && step.event.lostPort.Some?
    requires var port, s := step.event.lostPort.value, before.router.snek;
             && port != 0 && port != other && index in s.paths && Uncached(s, index)
             && ((s.paths[index].source == port && s.paths[index].destination == other)
                 || (s.paths[index].destination == port && s.paths[index].source == other))
    requires Leads(after.router.tree, other, peer)
    ensures Pending(step.event.lostPort.value, index) in after.router.snek.pending
    ensures Tells(after.router, Pending(step.event.lostPort.value, index), [peer])
  {
    hide Tells, Leads, IsSelection, Selected, Severed;
    var port, s := step.event.lostPort.value, before.router.snek;
    LostPortKeepsEntry(s, port, index);
    TaskTellsOtherSide(after.router, port, other, index, peer);
  }

  lemma LostPortKeepsEntry(s: SnekState, port: Port, index: PathIndex)
    requires index in s.paths && Uncached(s, index)
    ensures var s' := LostPort(s, port).0;
            && index in s'.paths && s'.paths[index] == s.paths[index] && Uncached(s', index)
            && (port in {s.paths[index].source, s.paths[index].destination} ==> Pending(port, index) in s'.pending)
  {
    var s1 := Spawned(s, multiset(Through(s, port)));
    if port in {s.paths[index].source, s.paths[index].destination} { assert Pending(port, index) in Through(s, port); }
  }

  /** The peer that is told drops its entry of the path, whichever of the entry's ports we are on, and sends nothing. */
  lemma ToldPeerForgets(net: Routers, from: PublicKey, to: PublicKey, port: Port, root: Root, index: PathIndex,
      now: Time)
    requires to in net && Signed(net[to].tree) && OnePortPerPeer(net[to].tree) && from != net[to].tree.key
    requires IsPortOf(net[to].tree, from, port) && index in net[to].snek.paths
    requires port in {net[to].snek.paths[index].source, net[to].snek.paths[index].destination}
    ensures var (net', out) := Delivered(net,
      Message(from, to, SnekTeardown(Teardown(root, index.publicKey, index.pathId))), now);
            out == [] && net'.Keys == net.Keys && index !in net'[to].snek.paths && net'[to].tree == net[to].tree
  {
    hide Signed, TornDown;
    assert HasPort(net[to].tree, from);
    assert PortTo(net[to].tree, from) == port;
    TeardownFromPortRemoves(net[to].snek, port, index);
  }

  // ---- What maintenance removes ----

  /** No acknowledgement has activated the entry for more than five seconds. */
  predicate Overdue(e: Path, now: Time) {
    !e.active && now - e.lastSeen > 5_000
  }

  /** The cached path is filed under the index and was last seen an hour ago or longer. */
  predicate ExpiredUnder(cached: Option<Path>, index: PathIndex, now: Time) {
    cached.Some? && cached.value.index == index && now - cached.value.lastSeen >= 3_600_000
  }

  predicate Unexpired(cached: Option<Path>, now: Time) {
    cached.Some? && now - cached.value.lastSeen < 3_600_000
  }

  /** What maintenance has torn down under the index. */
  predicate IsStale(s: SnekState, index: PathIndex, now: Time) {
    || (index in s.paths && Overdue(s.paths[index], now))
    || ExpiredUnder(s.ascending, index, now) || ExpiredUnder(s.descending, index, now)
  }

  /** The tasks maintenance spawns are from home, one for each overdue entry and each expired cached path. */
  lemma StaleExactly(s: SnekState, now: Time, task: Pending)
    ensures task in Stale(s, now) <==> task.from == 0 && IsStale(s, task.index, now)
  {
    assert task in multiset(Unconfirmed(s, now)) <==> task in Unconfirmed(s, now);
  }

  /** With no task waiting before, a maintenance run and its teardowns, in any order, remove exactly the overdue
      entries and those of expired cached paths. Unexpired cached paths stay, the descending one if the table holds it.
      */
  lemma MaintenanceRemovesExactly(scheme: Scheme, before: Machine, now: Time, after: Machine, tasks: seq<Pending>)
    requires Inv(scheme, before) && TakesStep(scheme, before, Step(now, SnekMaintained), after)
    requires before.router.snek.pending == multiset{} && multiset(tasks) == after.router.snek.pending
    ensures var s, s' := before.router.snek, Drained(after.router.snek, tasks);
            && (forall i :: i in s'.paths ==> i in s.paths && s'.paths[i] == s.paths[i])
            && (forall i :: i in s.paths ==> (i !in s'.paths <==> IsStale(s, i, now)))
            && (s.ascending.Some? ==> s'.ascending == if Unexpired(s.ascending, now) then s.ascending else None)
            && (Unexpired(s.descending, now) && DescendingInTable(s) ==> s'.descending == s.descending)
            && (s.descending.Some? && !Unexpired(s.descending, now) ==> s'.descending == None)
  {
    hide Drained, Stale, Overdue, StoreInv, NoDanglingPorts, CandidateCloser, SeenByNow;
    var s, drained := before.router.snek, after.router.snek;
    assert drained == Spawned(s, Stale(s, now));
    assert drained.pending == Stale(s, now);
    ReachableIndicesDiffer(scheme, before);
    DrainIsSweep(drained, tasks);
    forall p: Port, i: PathIndex
      ensures Ordered(tasks, p, i) <==> p == 0 && IsStale(s, i, now)
    {
      StaleExactly(s, now, Pending(p, i));
      assert Pending(p, i) in multiset(tasks) <==> Pending(p, i) in tasks;
    }
    hide Ordered;
    CachedAreActive(scheme, before, now);
  }

  lemma CachedAreActive(scheme: Scheme, m: Machine, now: Time)
    requires Inv(scheme, m)
    ensures var s := m.router.snek;
            && (s.ascending.Some? ==> s.ascending.value.index in s.paths)
            && (s.ascending.Some? ==> !Overdue(s.paths[s.ascending.value.index], now))
            && (s.descending.Some? && DescendingInTable(s) ==> !Overdue(s.paths[s.descending.value.index], now))
  {
  }

  // ---- What a lost peer leaves ----

  /** With no task waiting before, losing a peer and then running its teardowns, in any order, remove exactly the paths
      through its port. */
  lemma LostPeerRemovesExactly(scheme: Scheme, before: Machine, step: Step, after: Machine, tasks: seq<Pending>)
    requires Inv(scheme, before) && TakesStep(scheme, before, step, after)
    requires step.event.PeerLost? && step.event.lostPort.Some? && step.event.lostPort.value != 0
    requires before.router.snek.pending == multiset{} && multiset(tasks) == after.router.snek.pending
    ensures var s, s', port := before.router.snek, Drained(after.router.snek, tasks), step.event.lostPort.value;
            && (forall i :: i in s'.paths ==> i in s.paths && s'.paths[i] == s.paths[i])
            && (forall i :: i in s.paths ==> (i !in s'.paths <==> port in {s.paths[i].source, s.paths[i].destination}))
  {
    hide Drained, StoreInv, NoDanglingPorts, CandidateCloser, SeenByNow, Valid;
    var s, lost, port := before.router.snek, after.router.snek, step.event.lostPort.value;
    LostPortState(before.router.tree.key, s, port);
    assert IndicesDiffer(lost) by { LostPortIndicesDiffer(before.router.tree.key, s, port); }
    DrainIsSweep(lost, tasks);
    forall p: Port, i: PathIndex
      ensures Ordered(tasks, p, i) <==> p == port && i in s.paths && port in {s.paths[i].source, s.paths[i].destination}
    {
      assert Pending(p, i) in multiset(tasks) <==> Pending(p, i) in tasks;
      assert Pending(p, i) in multiset(Through(s, port)) <==> Pending(p, i) in Through(s, port);
    }
    hide Ordered, LostPort, Through, TakesStep, KeyOrder;
  }

  /** The table half, before its tasks run: the ascending path is gone if it went that way, and nothing else. */
  lemma LostPortState(key: PublicKey, s: SnekState, port: Port)
    requires AscendingInTable(key, s) && KeyOrder(key, s) && port != 0
    ensures var s' := LostPort(s, port).0;
            var goes := s.ascending.Some? && s.ascending.value.destination == port;
            && s'.pending == s.pending + multiset(Through(s, port))
            && s'.descending == s.descending && s'.candidate == s.candidate
            && s'.ascending == (if goes then None else s.ascending)
            && s'.paths == (if goes then s.paths - {s.ascending.value.index} else s.paths)
            && (goes ==> s.paths[s.ascending.value.index].destination == port)
            && (s'.descending.Some? ==> s'.descending.value.destination == 0)
            && (s'.ascending.Some? ==> s'.ascending.value.destination != port)
  {
    hide Through;
  }

  lemma LostPortIndicesDiffer(key: PublicKey, s: SnekState, port: Port)
    requires AscendingInTable(key, s) && KeyOrder(key, s) && port != 0
    ensures IndicesDiffer(LostPort(s, port).0)
  {
    LostPortState(key, s, port);
    hide LostPort;
  }

  /** The lost peer's announcement is gone, everyone else's stays, and no tree hop leads to it any more. */
  lemma LostPeerIsNoHop(scheme: Scheme, before: Machine, step: Step, after: Machine)
    requires TakesStep(scheme, before, step, after) && step.event.PeerLost?
    ensures var t, t', peer := before.router.tree, after.router.tree, step.event.peer;
            && peer !in t'.announcements
            && (forall m :: m != peer ==> (m in t'.announcements <==> m in t.announcements))
            && (forall m :: m != peer && m in t.announcements ==> t'.announcements[m] == t.announcements[m])
            && (step.event.lostPort.Some? ==> step.event.lostPort.value !in t'.ports)
            && (forall dest, from {:trigger IsTreeHop(t', dest, from, Some(peer))} ::
                  peer != t.key ==> !IsTreeHop(t', dest, from, Some(peer)))
  {
    hide LostPort, IsSelection, OwnCoords;
  }

  /** A lost parent is replaced unless the ascending path was lost with it: then parent selection is skipped, and
      the router keeps a parent it no longer hears of. */
  lemma LostParentIsKeptExactly(scheme: Scheme, before: Machine, step: Step, after: Machine)
    requires TakesStep(scheme, before, step, after) && step.event.PeerLost?
    requires before.router.tree.parent == step.event.peer && step.event.peer != before.router.tree.key
    ensures after.router.tree.parent == step.event.peer <==>
      && step.event.lostPort.Some? && before.router.snek.ascending.Some?
      && before.router.snek.ascending.value.destination == step.event.lostPort.value
    ensures after.router.tree.parent == step.event.peer ==>
      CurrentRoot(after.router.tree) == Root(before.router.tree.key, before.router.tree.sequence)
  {
    hide TornDown, Through;
  }

  // ---- What an announcement tells ----

  /** A router that files what its peer sends is up to date with it: it stores the chain the peer follows, and the
      peer's own link with the port the peer gave it, and so knows the peer's coordinates and its own below the peer. */
  lemma AnnouncementBringsUpToDate(scheme: Scheme, net: Net, n: PublicKey, m: PublicKey, k: SigningKey, port: Port,
      now: Time)
    requires n in net && m in net && n != m && net[m].key == m == scheme.publicKeyOf(k) && IsPortOf(net[m], n, port)
    requires net[n].ordering < U64_MAX
    requires var frame := Outgoing(scheme, net[m], k, port);
             IsFiled(net[n], OnAnnouncement(scheme, net[n], frame, m, now).0, frame, m, now)
    ensures var t := OnAnnouncement(scheme, net[n], Outgoing(scheme, net[m], k, port), m, now).0;
            && UpToDate(net[n := t], n, m)
            && SenderCoords(t.announcements[m]) == OwnCoords(net[m])
            && (t.parent == m ==> OwnCoords(t) == OwnCoords(net[m]) + [port])
  {
    hide OnAnnouncement, CurrentRoot;
    var t, sigs := OnAnnouncement(scheme, net[n], Outgoing(scheme, net[m], k, port), m, now).0,
      CurrentSignatures(net[m]);
    var stored := t.announcements[m].signatures;
    assert stored[..|stored| - 1] == sigs && stored[|stored| - 1].destinationPort == port;
    assert PortsOf(stored) == PortsOf(sigs) + [port];
  }

  // ---- Which sequence numbers are followed ----

  /** A step does not replace a filed announcement by one of the same root and an earlier sequence number. */
  lemma FiledSequenceStepsUp(scheme: Scheme, before: Machine, step: Step, after: Machine, from: PublicKey)
    requires TakesStep(scheme, before, step, after) && StoreInv(scheme, before.router.tree)
    requires from in before.router.tree.announcements && from in after.router.tree.announcements
    requires var a, b := before.router.tree.announcements[from], after.router.tree.announcements[from];
             a.root.publicKey == b.root.publicKey
    ensures before.router.tree.announcements[from].root.sequenceNumber
      <= after.router.tree.announcements[from].root.sequenceNumber
  {
    hide OnAnnouncement, Clean, IsTreeHop, IsSelection, OnBootstrapAck, OnSetup, OnSetupAck, LostPort, TornDown, Stale;
    if step.event.AnnouncementArrived? {
      FiledExactly(scheme, before.router.tree, step.event.frame, step.event.sender, step.now);
    }
  }

  /** Over any stretch of a run in which what is filed under a sender keeps its root key, its sequence number never
      falls. */
  lemma {:induction false} FiledSequenceNeverFalls(scheme: Scheme, key: PublicKey, trace: seq<Machine>,
      steps: seq<Step>,
      from: PublicKey, root: PublicKey, i: nat, j: nat)
    requires IsRun(scheme, key, trace, steps) && i <= j < |trace|
    requires forall k :: i <= k <= j ==> from in trace[k].router.tree.announcements
    requires forall k :: i <= k <= j ==> trace[k].router.tree.announcements[from].root.publicKey == root
    ensures trace[i].router.tree.announcements[from].root.sequenceNumber
      <= trace[j].router.tree.announcements[from].root.sequenceNumber
    decreases j - i
  {
    hide TakesStep, StoreInv;
    if i < j {
      RunsKeepStore(scheme, key, trace, steps, j - 1);
      FiledSequenceStepsUp(scheme, trace[j - 1], steps[j - 1], trace[j], from);
      FiledSequenceNeverFalls(scheme, key, trace, steps, from, root, i, j - 1);
    }
  }

  /** The store needs nothing of the runs it is kept by. */
  lemma {:induction false} RunsKeepStore(scheme: Scheme, key: PublicKey, trace: seq<Machine>, steps: seq<Step>, i: nat)
    requires IsRun(scheme, key, trace, steps) && i < |trace|
    ensures StoreInv(scheme, trace[i].router.tree)
  {
    if i > 0 {
      hide StoreInv, Enabled, Next;
      RunsKeepStore(scheme, key, trace, steps, i - 1);
      assert TakesStep(scheme, trace[i - 1], steps[i - 1], trace[i - 1 + 1]);
      StepKeepsTree(scheme, trace[i - 1].router, steps[i - 1].now, steps[i - 1].event);
    }
  }

  // ---- Which acknowledgements and setups are taken ----

  /** A bootstrap ACK under our root from a higher key is taken if and only if we have no ascending path, or it has
      expired, or the ACK is its own node's with another path id, or from a node closer above us. */
  lemma AckIsTakenExactly(r: RouterState, ack: BootstrapAck, now: Time)
    requires AscendingInTable(r.tree.key, r.snek)
    ensures AcceptsAck(r, ack, now) <==>
      && ack.root == CurrentRoot(r.tree) && r.tree.key < ack.sourceKey
      && (r.snek.ascending.Some? ==>
            var a := r.snek.ascending.value;
            || now - a.lastSeen >= 3_600_000
            || (ack.sourceKey == a.origin && ack.pathId != a.index.pathId)
            || ack.sourceKey < a.origin)
  {
    hide CurrentRoot;
  }

  /** A setup that ends here is taken under our root from a lower key if and only if we have no descending path, or
      it has expired, or the setup is its own node's with another path id, or from a node closer below us. */
  lemma SetupIsTakenExactly(r: RouterState, rx: Setup, now: Time)
    requires KeyOrder(r.tree.key, r.snek)
    ensures AcceptsSetup(r, rx, now) <==>
      && rx.root == CurrentRoot(r.tree) && rx.sourceKey < r.tree.key
      && (r.snek.descending.Some? ==>
            var d := r.snek.descending.value;
            || now - d.lastSeen >= 3_600_000
            || (rx.sourceKey == d.index.publicKey && rx.pathId != d.index.pathId)
            || d.index.publicKey < rx.sourceKey)
  {
    hide CurrentRoot;
  }

  /** Taking an ACK and then running the tasks it spawned, in any order, remove exactly our own paths, but for the
      new one: no path of anyone else is touched, with none waiting before. */
  lemma AckRemovesExactly(scheme: Scheme, m: Machine, ack: BootstrapAck, now: Time, hop: PublicKey, port: Port,
      tasks: seq<Pending>)
    requires Inv(scheme, m) && HomeInv(m.router) && AcceptsAck(m.router, ack, now) && hop != m.router.tree.key
    requires FreshAck(m.router, ack, now) && m.router.snek.pending == multiset{}
    requires multiset(tasks) == OnBootstrapAck(m.router, ack, now, Some(hop), port).state.snek.pending
    requires PathIndex(m.router.tree.key, ack.pathId) !in m.router.snek.paths
    ensures var s, own := m.router.snek, PathIndex(m.router.tree.key, ack.pathId);
            var s' := Drained(OnBootstrapAck(m.router, ack, now, Some(hop), port).state.snek, tasks);
            && own in s'.paths
            && (forall i :: i in s.paths ==> (i !in s'.paths <==> s.paths[i].source == 0))
            && (forall i :: i in s.paths && i in s'.paths ==> s'.paths[i] == s.paths[i])
            && s'.descending == s.descending
  {
    hide Drained, StoreInv, NoDanglingPorts, CandidateCloser, SeenByNow, Valid, OneLive;
    var s, taken := m.router.snek, OnBootstrapAck(m.router, ack, now, Some(hop), port).state.snek;
    assert m.router.tree.key != ack.sourceKey;
    assert taken.pending == multiset(Replaced(s, ack.sourceKey));
    assert taken.descending == s.descending && taken.ascending == s.ascending;
    ReachableIndicesDiffer(scheme, m);
    DrainIsSweep(taken, tasks);
    forall p: Port, i: PathIndex ensures Ordered(tasks, p, i) <==> p == 0 && i in s.paths && s.paths[i].source == 0 {
      assert Pending(p, i) in multiset(tasks) <==> Pending(p, i) in tasks;
      assert Pending(p, i) in multiset(Replaced(s, ack.sourceKey)) <==> Pending(p, i) in Replaced(s, ack.sourceKey);
    }
    hide Ordered, OnBootstrapAck, AcceptsAck, Replaced;
  }

  /** An ACK that is taken and has somewhere to go sends the setup to its sender's coordinates, files an inactive
      path of ours that starts here, and makes it the candidate; any other changes and sends nothing. */
  lemma AckIsActedOnExactly(r: RouterState, ack: BootstrapAck, now: Time, hop: Option<PublicKey>, port: Port)
    ensures var e, own := OnBootstrapAck(r, ack, now, hop, port), PathIndex(r.tree.key, ack.pathId);
            var path := Path(own, ack.sourceKey, ack.sourceKey, 0, port, now, ack.root, false);
            if AcceptsAck(r, ack, now) && hop.Some? && hop.value != r.tree.key then
              && e.sent == [Envelope(hop.value,
                   SnekSetup(Setup(CurrentRoot(r.tree), ack.sourceCoords, ack.sourceKey, r.tree.key, ack.pathId)))]
              && e.state.snek.paths == r.snek.paths[own := path]
              && e.state.snek.candidate == Some(path.(active := true))
              && e.state.snek.ascending == r.snek.ascending && e.state.snek.descending == r.snek.descending
              && (forall p: Port, i: PathIndex :: Pending(p, i) in e.state.snek.pending <==>
                    || Pending(p, i) in r.snek.pending
                    || (p == 0 && i in r.snek.paths && r.snek.paths[i].source == 0 && i.publicKey != ack.sourceKey))
            else e == Effect(r, [])
  {
    hide AcceptsAck, CurrentRoot;
    forall p: Port, i: PathIndex
      ensures Pending(p, i) in multiset(Replaced(r.snek, ack.sourceKey))
         <==> p == 0 && i in r.snek.paths && r.snek.paths[i].source == 0 && i.publicKey != ack.sourceKey
    {
      assert Pending(p, i) in multiset(Replaced(r.snek, ack.sourceKey))
        <==> Pending(p, i) in Replaced(r.snek, ack.sourceKey);
    }
    hide Replaced;
  }

  // ---- How setups are answered ----

  /** A node between the ends that follows another root tells the sender that the path is torn down, and then
      installs and forwards the setup all the same. */
  lemma MismatchedSetupIsHandledAllTheSame(r: RouterState, from: Port, rx: Setup, next: Port, now: Time,
      below: PublicKey, above: PublicKey)
    requires rx.root != CurrentRoot(r.tree) && rx.destinationKey != r.tree.key
    requires PathIndex(rx.sourceKey, rx.pathId) !in r.snek.paths
    requires Leads(r.tree, from, below) && Leads(r.tree, next, above)
    ensures var e, index := OnSetup(r, from, rx, next, now), PathIndex(rx.sourceKey, rx.pathId);
            && e.sent == [Envelope(below, TeardownOf(r.tree, index)), Envelope(above, SnekSetup(rx))]
            && e.state.snek.paths == r.snek.paths[
                 index := Path(index, rx.sourceKey, rx.destinationKey, from, next, now, rx.root, false)]
            && e.state.snek == r.snek.(paths := e.state.snek.paths)
  {
    hide CurrentRoot;
  }

  /** Under our root it is only installed and forwarded. */
  lemma PassingSetupIsForwarded(r: RouterState, from: Port, rx: Setup, next: Port, now: Time, above: PublicKey)
    requires rx.root == CurrentRoot(r.tree) && rx.destinationKey != r.tree.key
    requires PathIndex(rx.sourceKey, rx.pathId) !in r.snek.paths && Leads(r.tree, next, above)
    ensures var e, index := OnSetup(r, from, rx, next, now), PathIndex(rx.sourceKey, rx.pathId);
            && e.sent == [Envelope(above, SnekSetup(rx))]
            && e.state.snek.paths == r.snek.paths[
                 index := Path(index, rx.sourceKey, rx.destinationKey, from, next, now, rx.root, false)]
            && e.state.snek == r.snek.(paths := e.state.snek.paths)
  {
    hide CurrentRoot;
  }

  /** A setup for a path already in the table is refused, and that path is torn down as well: the sender is told,
      once or for another root twice, and the entry awaits a task from home. */
  lemma DuplicateSetupTearsDown(r: RouterState, from: Port, rx: Setup, next: Port, now: Time, below: PublicKey)
    requires PathIndex(rx.sourceKey, rx.pathId) in r.snek.paths && Leads(r.tree, from, below)
    ensures var e, index := OnSetup(r, from, rx, next, now), PathIndex(rx.sourceKey, rx.pathId);
            var told := Envelope(below, TeardownOf(r.tree, index));
            && e.sent == (if rx.root == CurrentRoot(r.tree) then [told] else [told, told])
            && e.state.snek == r.snek.(pending := r.snek.pending + multiset{Pending(0, index)})
  {
    hide CurrentRoot;
  }

  /** A setup that cannot be taken or passed on changes nothing but tells the sender. */
  lemma RefusedSetupIsAnswered(r: RouterState, from: Port, rx: Setup, next: Port, now: Time, below: PublicKey)
    requires PathIndex(rx.sourceKey, rx.pathId) !in r.snek.paths && Leads(r.tree, from, below)
    requires if rx.destinationKey == r.tree.key then !AcceptsSetup(r, rx, now)
      else PeerOnPort(r.tree, next) == Some(r.tree.key)
    ensures var e := OnSetup(r, from, rx, next, now);
            var told := Envelope(below, TeardownOf(r.tree, PathIndex(rx.sourceKey, rx.pathId)));
            && e.state == r && e.sent == (if rx.root == CurrentRoot(r.tree) then [told] else [told, told])
  {
    hide CurrentRoot, AcceptsSetup;
  }

  /** A setup that is taken where it ends is acknowledged to its sender, files an active path that ends here and
      makes it the descending path; the one before awaits a task from home. */
  lemma TakenSetupIsAcknowledged(r: RouterState, from: Port, rx: Setup, next: Port, now: Time, below: PublicKey)
    requires AcceptsSetup(r, rx, now) && rx.destinationKey == r.tree.key && Leads(r.tree, from, below)
    requires PathIndex(rx.sourceKey, rx.pathId) !in r.snek.paths
    ensures var e, index := OnSetup(r, from, rx, next, now), PathIndex(rx.sourceKey, rx.pathId);
            var path := Path(index, rx.sourceKey, r.tree.key, from, 0, now, rx.root, true);
            var replaced := if r.snek.descending.Some? then multiset{Pending(0, r.snek.descending.value.index)}
              else multiset{};
            && e.sent == [Envelope(below, SnekSetupAck(SetupAck(rx.root, rx.sourceKey, rx.pathId)))]
            && e.state.snek == SnekState(r.snek.ascending, Some(path), r.snek.paths[index := path], r.snek.candidate,
                 r.snek.pending + replaced)
  {
    hide CurrentRoot;
  }

  // ---- What becomes active ----

  /** An inactive entry becomes active exactly through its own acknowledgement, coming from its destination port or
      from home, while its source is home or still has its peer. */
  lemma EntryBecomesActiveExactly(scheme: Scheme, before: Machine, step: Step, after: Machine, index: PathIndex)
    requires TakesStep(scheme, before, step, after) && FiledByIndex(before.router.snek)
    requires index in before.router.snek.paths && index in after.router.snek.paths
      && !before.router.snek.paths[index].active
    ensures var entry, e := before.router.snek.paths[index], step.event;
            after.router.snek.paths[index].active <==>
              && e.SetupAckArrived? && PathIndex(e.setupAck.destinationKey, e.setupAck.pathId) == index
              && (EventPort(e) == entry.destination || EventPort(e) == 0)
              && (entry.source == 0 || PeerOnPort(before.router.tree, entry.source).Some?)
  {
    hide OnAnnouncement, IsTreeHop, IsSelection, AcceptsAck, AcceptsSetup, SentVia, SentTo, Rejection, Stale,
      Through, Replaced,
      Valid, CurrentRoot;
  }

  /** The port a setup acknowledgement came from. */
  function EventPort(e: Event): Port {
    if e.SetupAckArrived? then e.from else 0
  }
}

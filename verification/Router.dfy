/** The `Router` object (src/router.rs): the handlers as they run, updating its fields in place. Each is proved
    against the function on states that specifies it, and to be a step of the state machine, which keeps its
    invariants. Hash maps are visited in any order. */
module Router {
  import opened Types
  import opened Coordinates
  import opened Announcements
  import opened Frames
  import opened Tree
  import opened TreeProtocol
  import opened Snek
  import opened SnekProtocol
  import opened Machine
  import opened Runs

  /** An envelope that holds the current announcement, signed for a port of the peer it goes to. */
  ghost predicate Announced(scheme: Scheme, t: TreeState, k: SigningKey, e: Envelope) {
    exists port: Port :: IsPortOf(t, e.to, port) && e.frame == TreeAnnouncement(Outgoing(scheme, t, k, port))
  }

  /** The current announcement goes to one peer, and to nobody if that is ourselves or no peer. */
  ghost predicate IsAnnouncementTo(scheme: Scheme, t: TreeState, k: SigningKey, to: PublicKey, out: seq<Envelope>) {
    if to == t.key || !HasPeer(t, to) then out == []
    else |out| == 1 && out[0].to == to && Announced(scheme, t, k, out[0])
  }

  /** Every peer but ourselves gets the current announcement, and nothing else is sent. */
  ghost predicate IsBroadcast(scheme: Scheme, t: TreeState, k: SigningKey, out: seq<Envelope>) {
    && (forall i :: 0 <= i < |out| ==> Announced(scheme, t, k, out[i]))
    && forall p :: p in t.ports && t.ports[p].Some? && t.ports[p].value != t.key
         ==> exists i :: 0 <= i < |out| && out[i].to == t.ports[p].value
  }

  /** What `parent_selection` reports: another parent than the one it compared from. */
  predicate ParentChanges(t: TreeState, best: Option<PublicKey>) {
    best.Some? && best.value != SelectionStart(t).parent
  }

  /** That is, unless we become root first, another parent than the one held. */
  lemma ChangeIsReportedExactly(t: TreeState, best: Option<PublicKey>)
    ensures ParentChanges(t, best)
      <==> best.Some? && best.value != if t.key > CurrentRoot(t).publicKey then t.key else t.parent
  {
  }

  lemma StoreOrders(scheme: Scheme, m: Machine)
    requires Inv(scheme, m)
    ensures Signed(m.router.tree) && (m.router.tree.ordering < U64_MAX ==> OrdersBelowMax(m.router.tree))
  {
  }

  class Router {
    const scheme: Scheme
    const privateKey: SigningKey
    const key: PublicKey
    var ports: map<Port, Option<PublicKey>>
    var parent: PublicKey
    var announcements: map<PublicKey, Announcement>
    var sequence: U64
    var ordering: U64
    var reparentTimer: Option<Time>
    var ascending: Option<Path>
    var descending: Option<Path>
    var paths: map<PathIndex, Path>
    var candidate: Option<Path>
    /** Spawned teardown tasks that have not run yet. */
    var pending: multiset<Pending>
    /** Everything handed to a peer's connection, oldest first. */
    var sent: seq<Envelope>
    /** Everything handed to the local client, oldest first. */
    var downloaded: seq<Frame>
    /** When the last step was taken. */
    ghost var clock: Time

    function TreeView(): TreeState
      reads this
    {
      TreeState(key, ports, parent, announcements, sequence, ordering, reparentTimer)
    }

    function SnekView(): SnekState
      reads this
    {
      SnekState(ascending, descending, paths, candidate, pending)
    }

    function View(): RouterState
      reads this
    {
      RouterState(TreeView(), SnekView())
    }

    /** The router as a state of the machine. */
    ghost function Now(): Machine
      reads this
    {
      Machine(View(), clock)
    }

    ghost predicate Valid()
      reads this
    {
      key == scheme.publicKeyOf(privateKey) && Inv(scheme, Now())
    }

    /** `Router::new`. */
    constructor (scheme: Scheme, privateKey: SigningKey)
      ensures Valid() && View() == Initial(scheme.publicKeyOf(privateKey)) && sent == [] && downloaded == []
    {
      this.scheme, this.privateKey, key := scheme, privateKey, scheme.publicKeyOf(privateKey);
      ports, parent, announcements, sequence, ordering, reparentTimer := map[], scheme.publicKeyOf(privateKey),
        map[], 0, 0, None;
      ascending, descending, paths, candidate, pending := None, None, map[], None, multiset{};
      sent, downloaded, clock := [], [], 0;
    }

    // ---- Ports and peers ----

    /** `get_new_port`: the least free port above 0. With all of them taken the program is unreachable. */
    method GetNewPort(now: Time) returns (port: Port)
      requires Valid() && clock <= now
      requires exists p: Port :: p != 0 && p !in ports
      modifies this`ports, this`clock
      ensures Valid() && TakesStep(scheme, old(Now()), Step(now, PortReserved(port)), Now())
      ensures port !in old(ports) && forall p :: 0 < p < port ==> p in old(ports)
    {
      hide Inv;
      port := 1;
      ghost var free: Port :| free != 0 && free !in ports;
      while port in ports
        invariant 1 <= port <= free
        invariant forall p :: 0 < p < port ==> p in ports
        decreases free - port
      {
        port := port + 1;
      }
      ports, clock := ports[port := None], now;
      StepKeepsInv(scheme, old(Now()), Step(now, PortReserved(port)), Now());
    }

    /** What `connect` and `add_peer` do to the ports: the port now leads to whoever the peer says it is. */
    method ConnectPort(port: Port, peer: PublicKey, now: Time)
      requires Valid() && clock <= now && port != 0
      modifies this`ports, this`clock
      ensures Valid() && TakesStep(scheme, old(Now()), Step(now, PeerAdded(port, peer)), Now())
    {
      hide Inv;
      ports, clock := ports[port := Some(peer)], now;
      StepKeepsInv(scheme, old(Now()), Step(now, PeerAdded(port, peer)), Now());
    }

    /** `port`. */
    method PortOf(peer: PublicKey) returns (port: Option<Port>)
      ensures port.Some? ==> IsPortOf(TreeView(), peer, port.value)
      ensures port.None? ==> peer != key && !HasPeer(TreeView(), peer)
    {
      if peer == key { return Some(0); }
      var todo := ports.Keys;
      while todo != {}
        invariant todo <= ports.Keys
        invariant forall p :: p in ports.Keys - todo ==> ports[p] != Some(peer)
        decreases todo
      {
        var p :| p in todo;
        if ports[p] == Some(peer) { return Some(p); }
        todo := todo - {p};
      }
      return None;
    }

    /** `send` of a protocol frame: frames to ourselves are dropped. */
    method Send(frame: Frame, to: PublicKey)
      modifies this`sent
      ensures sent == old(sent) + SentTo(TreeView(), to, frame)
    {
      if to != key { sent := sent + [Envelope(to, frame)]; }
    }

    method SendVia(frame: Frame, port: Port)
      modifies this`sent
      ensures sent == old(sent) + SentVia(TreeView(), port, frame)
    {
      var peer := PeerOnPort(TreeView(), port);
      if peer.Some? { Send(frame, peer.value); }
    }

    // ---- The tree ----

    /** `next_ordering`. */
    method NextOrdering() returns (order: U64)
      requires ordering < U64_MAX
      modifies this`ordering
      ensures order == ordering == old(ordering) + 1
    {
      ordering := ordering + 1;
      order := ordering;
    }

    /** `next_sequence`. */
    method NextSequence(now: Time) returns (next: U64)
      requires Valid() && clock <= now && sequence < U64_MAX
      modifies this`sequence, this`clock
      ensures Valid() && TakesStep(scheme, old(Now()), Step(now, SequenceAdvanced), Now())
      ensures next == sequence
    {
      hide Inv;
      sequence, clock := sequence + 1, now;
      next := sequence;
      StepKeepsInv(scheme, old(Now()), Step(now, SequenceAdvanced), Now());
    }

    /** `set_reparent_timer`. */
    method SetReparentTimer(now: Time)
      requires Valid() && clock <= now
      modifies this`reparentTimer, this`clock
      ensures Valid() && TakesStep(scheme, old(Now()), Step(now, TimerStarted), Now())
    {
      hide Inv;
      reparentTimer, clock := Some(now), now;
      StepKeepsInv(scheme, old(Now()), Step(now, TimerStarted), Now());
    }

    /** `handle_tree_announcement`: the sends its reaction stands for come last. A reparenting it spawns is a later
        step. */
    method HandleTreeAnnouncement(received: Announcement, from: PublicKey, now: Time)
      returns (panicked: bool, reaction: Reaction, ghost out: seq<Envelope>)
      requires Valid() && clock <= now && ordering < U64_MAX
      requires from == key ==> HasPeer(TreeView(), from)
      modifies this`ordering, this`announcements, this`parent, this`sent, this`clock
      ensures Valid() && TakesStep(scheme, old(Now()), Step(now, AnnouncementArrived(received, from)), Now())
      ensures (TreeView(), reaction) == OnAnnouncement(scheme, old(TreeView()), received, from, now)
      ensures panicked
        <==> reaction == Reaction.Panicked || (reaction == Informed && from != key && !HasPeer(TreeView(), from))
      ensures sent == old(sent) + out
      ensures if reaction in {Adopted, Forwarded} then IsBroadcast(scheme, TreeView(), privateKey, out)
              else if reaction == Informed then IsAnnouncementTo(scheme, TreeView(), privateKey, from, out)
              else out == []
    {
      hide Inv, OnAnnouncement, IsBroadcast, IsAnnouncementTo;
      reaction := TakeAnnouncement(received, from, now);
      panicked, clock := reaction == Reaction.Panicked, now;
      assert TakesStep(scheme, old(Now()), Step(now, AnnouncementArrived(received, from)), Now());
      StepKeepsInv(scheme, old(Now()), Step(now, AnnouncementArrived(received, from)), Now());
      if reaction == Adopted || reaction == Forwarded {
        out := SendTreeAnnouncementsToAll();
      } else if reaction == Informed {
        panicked, out := SendTreeAnnouncement(from);
      } else {
        out := [];
      }
    }

    /** `handle_tree_announcement`, up to its sends. */
    method TakeAnnouncement(received: Announcement, from: PublicKey, now: Time) returns (reaction: Reaction)
      requires ordering < U64_MAX
      modifies this`ordering, this`announcements, this`parent
      ensures (TreeView(), reaction) == OnAnnouncement(scheme, old(TreeView()), received, from, now)
    {
      hide LinkVerified;
      var order := NextOrdering();
      var frame := received.(receiveTime := now, receiveOrder := order);
      var verdict := IsClean(scheme, frame, from);
      assert Clean(scheme, frame, from) <==> Clean(scheme, received, from) by {
        SameChainSameVerdict(scheme, frame, received, from);
      }
      if verdict == Panics { return Panicked; }
      if verdict == Rejected { return Dropped; }
      if from in announcements {
        if frame.root.publicKey == announcements[from].root.publicKey {
          if frame.root.sequenceNumber < announcements[from].root.sequenceNumber { return Dropped; }
        }
      }
      announcements := announcements[from := frame];
      ghost var filed := TreeView();
      if !TimerExpired(TreeView(), now) { return Waiting; }
      var loop := IsLoopOfChild(frame, key);
      if from == parent {
        var current := CurrentRoot(TreeView());
        if loop || frame.root.publicKey < current.publicKey {
          parent := key;
          return Reset;
        }
        if frame.root.publicKey > current.publicKey || frame.root.sequenceNumber > current.sequenceNumber {
          return Forwarded;
        }
        parent := key;
        return Reset;
      } else {
        if loop { return Dropped; }
        if frame.root.publicKey > CurrentRoot(TreeView()).publicKey {
          parent := from;
          return Adopted;
        }
        if frame.root.publicKey < CurrentRoot(TreeView()).publicKey { return Informed; }
        return Reselecting;
      }
    }

    static lemma SameChainSameVerdict(scheme: Scheme, a: Announcement, b: Announcement, peer: PublicKey)
      requires a.root == b.root && a.signatures == b.signatures
      ensures Clean(scheme, a, peer) <==> Clean(scheme, b, peer)
    {
    }

    /** `parent_selection`, up to the announcements it sends when the parent changes. */
    method SelectParent(now: Time) returns (changed: bool, ghost best: Option<PublicKey>)
      requires OrdersBelowMax(TreeView())
      modifies this`parent
      ensures IsSelection(old(TreeView()), now, best)
      ensures TreeView() == Selected(old(TreeView()), best)
      ensures changed == ParentChanges(old(TreeView()), best)
    {
      if key > CurrentRoot(TreeView()).publicKey { parent := key; }
      assert TreeView() == SelectionStart(old(TreeView()));
      var found := BestParent(TreeView(), now, CurrentRoot(TreeView()));
      best := found;
      BestParentIgnoresOwn(old(TreeView()), parent, now, CurrentRoot(TreeView()), best);
      match found
      case Some(peer) =>
        if peer == parent { return false, best; }
        parent := peer;
        return true, best;
      case None =>
        parent := key;
        return false, best;
    }

    /** `parent_selection`. */
    method ParentSelection(now: Time) returns (changed: bool, ghost best: Option<PublicKey>, ghost out: seq<Envelope>)
      requires Valid() && clock <= now && ordering < U64_MAX
      modifies this`parent, this`sent, this`clock
      ensures Valid() && TakesStep(scheme, old(Now()), Step(now, ParentSelected(best)), Now())
      ensures changed == ParentChanges(old(TreeView()), best)
      ensures sent == old(sent) + out
      ensures if changed then IsBroadcast(scheme, TreeView(), privateKey, out) else out == []
    {
      hide Inv, IsSelection, IsBroadcast;
      assert OrdersBelowMax(TreeView()) by { StoreOrders(scheme, Now()); }
      changed, best := SelectParent(now);
      clock := now;
      StepKeepsInv(scheme, old(Now()), Step(now, ParentSelected(best)), Now());
      if changed { out := SendTreeAnnouncementsToAll(); } else { out := []; }
    }

    /** `send_tree_announcement`: the current announcement, signed for the port it goes out of. */
    method SendTreeAnnouncement(to: PublicKey) returns (panicked: bool, ghost out: seq<Envelope>)
      modifies this`sent
      ensures panicked <==> to != key && !HasPeer(TreeView(), to)
      ensures sent == old(sent) + out
      ensures IsAnnouncementTo(scheme, TreeView(), privateKey, to, out)
    {
      panicked, out := false, [];
      var p := PortOf(to);
      if p.None? { return true, out; }
      var current := Announcement(CurrentRoot(TreeView()), CurrentSignatures(TreeView()), 0, 0);
      var signed := AppendSignature(scheme, current, privateKey, p.value);
      Send(TreeAnnouncement(signed), to);
      if to != key {
        assert IsPortOf(TreeView(), to, p.value);
        out := [Envelope(to, TreeAnnouncement(signed))];
      }
    }

    /** `send_tree_announcements_to_all`. */
    method SendTreeAnnouncementsToAll() returns (ghost out: seq<Envelope>)
      modifies this`sent
      ensures sent == old(sent) + out
      ensures IsBroadcast(scheme, TreeView(), privateKey, out)
    {
      hide Outgoing, IsPortOf;
      out := [];
      var todo := ports.Keys;
      while todo != {}
        invariant todo <= ports.Keys && sent == old(sent) + out
        invariant forall i :: 0 <= i < |out| ==> Announced(scheme, TreeView(), privateKey, out[i])
        invariant forall p :: (
          p in ports.Keys - todo && ports[p].Some? && ports[p].value != key
          ==> exists i :: 0 <= i < |out| && out[i].to == ports[p].value)
        decreases todo
      {
        var p :| p in todo;
        todo := todo - {p};
        if ports[p].None? { continue; }
        var peer := ports[p].value;
        assert HasPeer(TreeView(), peer);
        var _, more := SendTreeAnnouncement(peer);
        ghost var longer := out + more;
        if peer != key { assert longer[|out|].to == peer; }
        assert forall i :: 0 <= i < |out| ==> longer[i] == out[i];
        out := longer;
      }
    }

    // ---- Teardowns ----

    /** `teardown_path`. */
    method TeardownPath(from: Port, index: PathIndex) returns (next: seq<Port>)
      modifies this`ascending, this`descending, this`paths
      ensures (SnekView(), next) == TornDown(old(SnekView()), from, index)
    {
      if ascending.Some? && ascending.value.index == index {
        if from == ascending.value.destination || from == 0 {
          next := [ascending.value.destination];
          paths := paths - {index};
          ascending := None;
          return;
        }
      }
      if descending.Some? && descending.value.index == index {
        if from == descending.value.destination || from == 0 {
          next := [descending.value.destination];
          paths := paths - {index};
          descending := None;
          return;
        }
      }
      var todo := paths.Keys;
      while todo != {}
        invariant todo <= paths.Keys && SnekView() == old(SnekView())
        invariant index in paths && index !in todo ==> from !in {0, paths[index].source, paths[index].destination}
        decreases todo
      {
        var i :| i in todo;
        todo := todo - {i};
        var entry := paths[i];
        if i == index {
          if from == 0 { paths := paths - {i}; return [entry.destination, entry.source]; }
          if from == entry.source { paths := paths - {i}; return [entry.destination]; }
          if from == entry.destination { paths := paths - {i}; return [entry.source]; }
        }
      }
      return [];
    }

    /** `handle_teardown`, whose result its caller ignores: nothing is sent. */
    method HandleTeardown(from: Port, rx: Teardown)
      modifies this`ascending, this`descending, this`paths
      ensures View() == OnTeardown(old(View()), from, rx)
    {
      var _ := TeardownPath(from, PathIndex(rx.destinationKey, rx.pathId));
    }

    /** `send_teardown_for_existing_path`: the teardown is left to a task. */
    method SpawnTeardown(from: Port, index: PathIndex)
      modifies this`pending
      ensures pending == old(pending) + multiset{Pending(from, index)}
    {
      pending := pending + multiset{Pending(from, index)};
    }

    /** A spawned teardown task runs. */
    method RunTask(task: Pending, now: Time) returns (panicked: bool)
      requires Valid() && clock <= now && task in pending
      modifies this`ascending, this`descending, this`paths, this`pending, this`sent, this`clock
      ensures Valid() && TakesStep(scheme, old(Now()), Step(now, TaskRan(task)), Now())
      ensures sent == old(sent) + RunPending(old(View()), task).sent
      ensures panicked <==> TaskPanics(old(View()), task)
    {
      hide Inv, TornDown, RunPending;
      var next := TearDown(task);
      clock := now;
      StepKeepsInv(scheme, old(Now()), Step(now, TaskRan(task)), Now());
      panicked := SendTeardowns(next, TeardownFrame(TreeView(), task.index));
    }

    /** What such a task does to the router, and where it goes on to. */
    method TearDown(task: Pending) returns (next: seq<Port>)
      requires task in pending
      modifies this`ascending, this`descending, this`paths, this`pending
      ensures View() == RunPending(old(View()), task).state
      ensures next == TornDown(old(SnekView()), task.from, task.index).1
      ensures RunPending(old(View()), task).sent == SentViaAll(TreeView(), next, TeardownFrame(TreeView(), task.index))
    {
      hide TornDown, SentViaAll, TeardownFrame;
      pending := pending - multiset{task};
      TearingReadsNoPending(old(SnekView()), SnekView(), task.from, task.index);
      next := TeardownPath(task.from, task.index);
    }

    static lemma TearingReadsNoPending(s: SnekState, s': SnekState, from: Port, index: PathIndex)
      requires s' == s.(pending := s'.pending)
      ensures TornDown(s', from, index).1 == TornDown(s, from, index).1
    {
    }

    /** The sends of such a task: they stop at the first port without a peer, whose unwrap panics. */
    method SendTeardowns(next: seq<Port>, frame: Frame) returns (panicked: bool)
      modifies this`sent
      ensures sent == old(sent) + SentViaAll(TreeView(), next, frame)
      ensures panicked <==> SomePeerGone(TreeView(), next)
    {
      hide SentVia;
      for i := 0 to |next|
        invariant forall j :: 0 <= j < i ==> PeerOnPort(TreeView(), next[j]).Some?
        invariant sent + SentViaAll(TreeView(), next[i..], frame) == old(sent) + SentViaAll(TreeView(), next, frame)
      {
        if PeerOnPort(TreeView(), next[i]).None? { return true; }
        SendVia(frame, next[i]);
        assert next[i..][1..] == next[i + 1..];
      }
      panicked := false;
    }

    // ---- Bootstrap acknowledgements ----

    /** The decision `handle_bootstrap_ack` opens with. */
    method ConsiderAck(ack: BootstrapAck, now: Time) returns (update: bool)
      ensures update == AcceptsAck(View(), ack, now)
    {
      update := false;
      if ack.sourceKey == key {
      } else if ack.root != CurrentRoot(TreeView()) {
      } else if ascending.Some? {
        var asc := ascending.value;
        if Snek.Valid(asc, now) {
          if asc.origin == ack.sourceKey && ack.pathId != asc.index.pathId {
            update := true;
          } else if DhtOrdered(key, ack.sourceKey, asc.origin) {
            update := true;
          }
        } else if key < ack.sourceKey {
          update := true;
        }
      } else if key < ack.sourceKey {
        update := true;
      }
    }

    /** `handle_bootstrap_ack`. */
    method HandleBootstrapAck(ack: BootstrapAck, now: Time) returns (ghost hop: Option<PublicKey>, ghost port: Port)
      requires Signed(TreeView())
      modifies this`paths, this`candidate, this`pending, this`sent
      ensures AcceptsAck(old(View()), ack, now) ==> IsTreeHop(old(TreeView()), ack.sourceCoords, key, hop)
      ensures AcceptsAck(old(View()), ack, now) && hop.Some? ==> IsPortOf(old(TreeView()), hop.value, port)
      ensures View() == OnBootstrapAck(old(View()), ack, now, hop, port).state
      ensures sent == old(sent) + OnBootstrapAck(old(View()), ack, now, hop, port).sent
    {
      hide IsTreeHop, AcceptsAck;
      hop, port := None, 0;
      var update := ConsiderAck(ack, now);
      if !update { return; }
      var next, p := FindHop(ack.sourceCoords);
      hop, port := next, p;
      if next.None? || next.value == key { return; }
      SendOwnSetup(ack, next.value, p, now);
    }

    /** The tree hop for a frame of ours, and the port to it. */
    method FindHop(dest: Coords) returns (hop: Option<PublicKey>, port: Port)
      requires Signed(TreeView())
      ensures IsTreeHop(TreeView(), dest, key, hop)
      ensures hop.Some? ==> IsPortOf(TreeView(), hop.value, port)
    {
      hide IsTreeHop;
      port := 0;
      hop := NextTreeHop(TreeView(), dest, key);
      if hop.None? { return; }
      if hop.value != key { HopIsPeer(TreeView(), dest, key, hop.value); }
      var p := PortOf(hop.value);
      port := p.value;
    }

    /** `handle_bootstrap_ack`, once the setup has somewhere to go. */
    method SendOwnSetup(ack: BootstrapAck, hop: PublicKey, port: Port, now: Time)
      requires AcceptsAck(View(), ack, now) && hop != key
      modifies this`paths, this`candidate, this`pending, this`sent
      ensures View() == OnBootstrapAck(old(View()), ack, now, Some(hop), port).state
      ensures sent == old(sent) + OnBootstrapAck(old(View()), ack, now, Some(hop), port).sent
    {
      hide AcceptsAck, Replaced;
      Send(SnekSetup(SetupFor(View(), ack)), hop);
      var entry := OwnEntry(View(), ack, port, now);
      SpawnReplaced(ack.sourceKey);
      paths := paths[entry.index := entry];
      candidate := Some(entry.(active := true));
    }

    /** The loop that spawns a teardown for every path of ours not filed under the new ascending key. */
    method SpawnReplaced(sourceKey: PublicKey)
      modifies this`pending
      ensures SnekView() == Spawned(old(SnekView()), multiset(Replaced(old(SnekView()), sourceKey)))
    {
      var todo := paths.Keys;
      ghost var tasks: set<Pending> := {};
      while todo != {}
        invariant todo <= paths.Keys
        invariant tasks == set i |
          i in paths.Keys - todo && paths[i].source == 0 && i.publicKey != sourceKey :: Pending(0, i)
        invariant pending == old(pending) + multiset(tasks)
        decreases todo
      {
        var i :| i in todo;
        todo := todo - {i};
        if paths[i].source == 0 && i.publicKey != sourceKey {
          assert Pending(0, i) !in tasks;
          tasks := tasks + {Pending(0, i)};
          SpawnTeardown(0, i);
        }
      }
      assert tasks == Replaced(old(SnekView()), sourceKey);
    }

    // ---- Setups ----

    /** The decision `handle_setup` takes at the destination. */
    method ConsiderSetup(rx: Setup, now: Time) returns (update: bool)
      ensures update == AcceptsSetup(View(), rx, now)
    {
      update := false;
      if CurrentRoot(TreeView()) != rx.root {
      } else if !(rx.sourceKey < key) {
      } else if descending.Some? {
        var desc := descending.value;
        if Snek.Valid(desc, now) {
          if desc.index.publicKey == rx.sourceKey && rx.pathId != desc.index.pathId {
            update := true;
          } else if DhtOrdered(desc.index.publicKey, rx.sourceKey, key) {
            update := true;
          }
        } else if rx.sourceKey < key {
          update := true;
        }
      } else if rx.sourceKey < key {
        update := true;
      }
    }

    /** `send_teardown_for_rejected_path`. */
    method Reject(from: Port, rx: Setup)
      modifies this`sent
      ensures sent == old(sent) + Rejection(View(), from, rx)
    {
      SendVia(TeardownFrame(TreeView(), PathIndex(rx.sourceKey, rx.pathId)), from);
    }

    /** `handle_setup` at the destination. */
    method HandleSetupAtEnd(from: Port, rx: Setup, now: Time)
      modifies this`descending, this`paths, this`pending, this`sent
      ensures View() == OnSetupAtEnd(old(View()), from, rx, now).state
      ensures sent == old(sent) + OnSetupAtEnd(old(View()), from, rx, now).sent
    {
      hide AcceptsSetup, SentVia, Rejection;
      var update := ConsiderSetup(rx, now);
      if !update {
        Reject(from, rx);
        return;
      }
      if descending.Some? { SpawnTeardown(0, descending.value.index); }
      var entry := EndEntry(rx, from, now);
      paths := paths[entry.index := entry];
      descending := Some(entry);
      SendVia(SnekSetupAck(SetupAck(rx.root, rx.sourceKey, rx.pathId)), entry.source);
    }

    /** `handle_setup`. */
    method HandleSetup(from: Port, rx: Setup, next: Port, now: Time)
      requires PeerOnPort(TreeView(), from).Some? && PeerOnPort(TreeView(), next).Some?
      modifies this`descending, this`paths, this`pending, this`sent
      ensures View() == OnSetup(old(View()), from, rx, next, now).state
      ensures sent == old(sent) + OnSetup(old(View()), from, rx, next, now).sent
    {
      hide OnSetupAtEnd, SentVia, TeardownFrame, CurrentRoot, PeerOnPort;
      if CurrentRoot(TreeView()) != rx.root { Reject(from, rx); }
      var index := PathIndex(rx.sourceKey, rx.pathId);
      if index in paths {
        SpawnTeardown(0, index);
        Reject(from, rx);
        assert View().tree == old(View()).tree;
        return;
      }
      if rx.destinationKey == key {
        HandleSetupAtEnd(from, rx, now);
        return;
      }
      if PeerOnPort(TreeView(), next) == Some(key) {
        Reject(from, rx);
        return;
      }
      SendVia(SnekSetup(rx), next);
      paths := paths[index := MiddleEntry(rx, from, next, now)];
    }

    /** `handle_setup_ack`. */
    method HandleSetupAck(from: Port, rx: SetupAck) returns (panicked: bool)
      modifies this`paths, this`ascending, this`candidate, this`sent
      ensures View() == OnSetupAck(old(View()), from, rx).state
      ensures sent == old(sent) + OnSetupAck(old(View()), from, rx).sent
      ensures panicked == AckPanics(old(View()), from, rx)
    {
      panicked := false;
      ghost var index := PathIndex(rx.destinationKey, rx.pathId);
      var todo := paths.Keys;
      while todo != {}
        invariant todo <= paths.Keys == old(paths.Keys)
        invariant index !in old(paths) || index in todo ==> View() == old(View()) && sent == old(sent)
        invariant index in old(paths) && index !in todo ==> (
          && !AckPanics(old(View()), from, rx) && View() == OnSetupAck(old(View()), from, rx).state
          && sent == old(sent) + OnSetupAck(old(View()), from, rx).sent)
        decreases todo
      {
        var i :| i in todo;
        todo := todo - {i};
        var entry := paths[i];
        if entry.active || i.publicKey != rx.destinationKey || i.pathId != rx.pathId { continue; }
        if from == entry.destination || from == 0 {
          if entry.source != 0 {
            if PeerOnPort(TreeView(), entry.source).None? { return true; }
            SendVia(SnekSetupAck(rx), entry.source);
          }
          entry := entry.(active := true);
          paths := paths[i := entry];
          if candidate == Some(entry) {
            ascending := Some(entry);
            candidate := None;
          }
        }
      }
    }

    // ---- Dispatch ----

    /** What `handle_frame` does with traffic for coordinates: it goes to the tree hop, or to the local client if
        that is us. */
    method ReceiveTreePacket(packet: TreePacket, sender: PublicKey) returns (ghost hop: Option<PublicKey>)
      requires Valid()
      modifies this`sent, this`downloaded
      ensures IsTreeHop(TreeView(), packet.destination, sender, hop)
      ensures downloaded == old(downloaded) + if hop == Some(key) then [TreeRouted(packet)] else []
      ensures sent
        == old(sent) + if hop.Some? && hop.value != key then [Envelope(hop.value, TreeRouted(packet))] else []
    {
      hide IsTreeHop;
      assert Signed(TreeView()) by { StoreOrders(scheme, Now()); }
      hide Inv;
      var next := NextTreeHop(TreeView(), packet.destination, sender);
      hop := next;
      if next == Some(key) {
        downloaded := downloaded + [TreeRouted(packet)];
      } else if next.Some? {
        Send(TreeRouted(packet), next.value);
      }
    }

    /** And with traffic for a key, by keyspace routing. */
    method ReceiveSnekPacket(packet: SnekPacket, now: Time) returns (panicked: bool, ghost hop: Option<PublicKey>)
      modifies this`sent, this`downloaded
      ensures panicked ==> hop.None? && MayPanic(View(), now, packet.destinationKey, false)
      ensures !panicked ==> exists next: PublicKey ::
        IsSnekHop(View(), now, packet.destinationKey, false, true, next, hop)
      ensures downloaded == old(downloaded) + if hop == Some(key) then [SnekRouted(packet)] else []
      ensures sent
        == old(sent) + if hop.Some? && hop.value != key then [Envelope(hop.value, SnekRouted(packet))] else []
    {
      hide SourceLost, Improves, IsSnekHop, MayPanic;
      ghost var r := View();
      hop := None;
      var failed, next := NextSnekHop(View(), now, packet.destinationKey, false, true);
      panicked := failed;
      if failed { return; }
      hop := next;
      ghost var found: PublicKey :| IsSnekHop(r, now, packet.destinationKey, false, true, found, hop);
      if next == Some(key) {
        downloaded := downloaded + [SnekRouted(packet)];
      } else if next.Some? {
        Send(SnekRouted(packet), next.value);
      }
      assert View() == r && IsSnekHop(View(), now, packet.destinationKey, false, true, found, hop);
    }

    /** What `handle_frame` does with a bootstrap ACK: it is for us if the tree hop towards its coordinates is us. */
    method ReceiveBootstrapAck(ack: BootstrapAck, sender: PublicKey, now: Time)
      returns (arrived: bool, ghost hop: Option<PublicKey>, ghost port: Port)
      requires Valid() && clock <= now
      modifies this`paths, this`candidate, this`pending, this`sent, this`clock
      ensures arrived ==> TakesStep(scheme, old(Now()), Step(now, BootstrapAckArrived(sender, ack, hop, port)), Now())
      ensures arrived ==> sent == old(sent) + OnBootstrapAck(old(View()), ack, now, hop, port).sent
      ensures !arrived ==> View() == old(View())
      ensures FreshAck(old(View()), ack, now) ==> Valid()
    {
      hide IsTreeHop, Inv, OnBootstrapAck, FreshAck;
      hop, port := None, 0;
      assert Signed(TreeView()) by { StoreOrders(scheme, Now()); }
      var next := NextTreeHop(TreeView(), ack.destinationCoords, sender);
      if next.None? { return false, hop, port; }
      if next.value != key {
        Send(SnekBootstrapAck(ack), next.value);
        return false, hop, port;
      }
      arrived, clock := true, now;
      hop, port := HandleBootstrapAck(ack, now);
      assert TakesStep(scheme, old(Now()), Step(now, BootstrapAckArrived(sender, ack, hop, port)), Now());
      if FreshAck(old(View()), ack, now) {
        StepKeepsInv(scheme, old(Now()), Step(now, BootstrapAckArrived(sender, ack, hop, port)), Now());
      }
    }

    /** What `handle_frame` does with a setup: look up the port it came from, the next hop and the port to that, and
        panic without one of them. */
    method ReceiveSetup(rx: Setup, peer: PublicKey, now: Time)
      returns (panicked: bool, ghost from: Port, ghost hop: Option<PublicKey>, ghost next: Port)
      requires Valid() && clock <= now && (peer == key ==> HasPeer(TreeView(), peer))
      modifies this`descending, this`paths, this`pending, this`sent, this`clock
      ensures Valid()
      ensures panicked <==> !HasPeer(old(TreeView()), peer) || hop.None?
      ensures HasPeer(old(TreeView()), peer) ==> IsTreeHop(old(TreeView()), rx.destination, peer, hop)
      ensures panicked ==> View() == old(View()) && sent == old(sent)
      ensures !panicked ==> IsPortOf(old(TreeView()), peer, from)
      ensures !panicked ==> TakesStep(scheme, old(Now()), Step(now, SetupArrived(from, rx, hop.value, next)), Now())
      ensures !panicked ==> sent == old(sent) + OnSetup(old(View()), from, rx, next, now).sent
    {
      hide IsTreeHop, OnSetup, Inv;
      from, next, hop := 0, 0, None;
      assert Signed(TreeView()) by { StoreOrders(scheme, Now()); }
      var fromPort := PortOf(peer);
      if fromPort.None? { return true, from, hop, next; }
      assert HasPeer(TreeView(), peer);
      var nextHop := NextTreeHop(TreeView(), rx.destination, peer);
      hop := nextHop;
      if nextHop.None? { return true, from, hop, next; }
      if nextHop.value != key { HopIsPeer(TreeView(), rx.destination, peer, nextHop.value); }
      var nextPort := PortOf(nextHop.value);
      from, next := fromPort.value, nextPort.value;
      clock := now;
      assert 0 !in ports by { PortsAreAboveZero(scheme, old(Now())); }
      HandleSetup(fromPort.value, rx, nextPort.value, now);
      panicked := false;
      assert TakesStep(scheme, old(Now()), Step(now, SetupArrived(from, rx, hop.value, next)), Now());
      StepKeepsInv(scheme, old(Now()), Step(now, SetupArrived(from, rx, hop.value, next)), Now());
    }

    static lemma PortsAreAboveZero(scheme: Scheme, m: Machine)
      requires Inv(scheme, m)
      ensures 0 !in m.router.tree.ports
    {
    }

    /** What `handle_frame` does with a setup ACK. */
    method ReceiveSetupAck(rx: SetupAck, peer: PublicKey, now: Time) returns (panicked: bool, ghost from: Port)
      requires Valid() && clock <= now && (peer == key ==> HasPeer(TreeView(), peer))
      modifies this`paths, this`ascending, this`candidate, this`sent, this`clock
      ensures Valid()
      ensures panicked <==> !HasPeer(old(TreeView()), peer) || AckPanics(old(View()), from, rx)
      ensures panicked ==> View() == old(View()) && sent == old(sent)
      ensures HasPeer(old(TreeView()), peer) ==> IsPortOf(old(TreeView()), peer, from)
      ensures HasPeer(old(TreeView()), peer)
        ==> TakesStep(scheme, old(Now()), Step(now, SetupAckArrived(from, rx)), Now())
      ensures !panicked ==> sent == old(sent) + OnSetupAck(old(View()), from, rx).sent
    {
      hide Activates, Activated, Inv;
      from := 0;
      var fromPort := PortOf(peer);
      if fromPort.None? { return true, from; }
      assert HasPeer(TreeView(), peer);
      assert 0 !in ports by { PortsAreAboveZero(scheme, Now()); }
      from, clock := fromPort.value, now;
      panicked := HandleSetupAck(fromPort.value, rx);
      assert TakesStep(scheme, old(Now()), Step(now, SetupAckArrived(from, rx)), Now());
      StepKeepsInv(scheme, old(Now()), Step(now, SetupAckArrived(from, rx)), Now());
    }

    /** What `handle_frame` does with a teardown. */
    method ReceiveTeardown(rx: Teardown, peer: PublicKey, now: Time) returns (panicked: bool, ghost from: Port)
      requires Valid() && clock <= now && (peer == key ==> HasPeer(TreeView(), peer))
      modifies this`ascending, this`descending, this`paths, this`clock
      ensures Valid()
      ensures panicked <==> !HasPeer(old(TreeView()), peer)
      ensures panicked ==> View() == old(View())
      ensures !panicked ==> IsPortOf(old(TreeView()), peer, from)
      ensures !panicked ==> TakesStep(scheme, old(Now()), Step(now, TeardownArrived(from, rx)), Now())
    {
      hide OnTeardown, Inv;
      from := 0;
      var fromPort := PortOf(peer);
      if fromPort.None? { return true, from; }
      assert HasPeer(TreeView(), peer);
      assert 0 !in ports by { PortsAreAboveZero(scheme, Now()); }
      from, clock := fromPort.value, now;
      HandleTeardown(fromPort.value, rx);
      panicked := false;
      assert TakesStep(scheme, old(Now()), Step(now, TeardownArrived(from, rx)), Now());
      StepKeepsInv(scheme, old(Now()), Step(now, TeardownArrived(from, rx)), Now());
    }

    /** `bootstrap_now`; the path id is random. */
    method BootstrapNow(now: Time, pathId: PathId)
      returns (panicked: bool, ghost hop: Option<PublicKey>, ghost out: seq<Envelope>)
      modifies this`sent
      ensures sent == old(sent) + out
      ensures IsBootstrap(View(), now, pathId, panicked, hop, out)
    {
      hide SourceLost, IsChosen, Heard, PathVia, AnnouncedWay;
      panicked, hop, out := false, None, [];
      if parent == key { return; }
      if ascending.Some? && ascending.value.root == CurrentRoot(TreeView()) { return; }
      var failed, next := NextSnekHop(View(), now, key, true, false);
      panicked, hop := failed, next;
      if failed { return; }
      assert next.Some? by { ProtocolHopExists(View(), now, key, next); }
      out := SentTo(TreeView(), next.value, BootstrapFrame(TreeView(), pathId));
      Send(BootstrapFrame(TreeView(), pathId), next.value);
    }

    /** `handle_bootstrap`. */
    method HandleBootstrap(b: Bootstrap) returns (ghost hop: Option<PublicKey>, ghost out: seq<Envelope>)
      requires Signed(TreeView())
      modifies this`sent
      ensures sent == old(sent) + out
      ensures IsAnswer(TreeView(), b, hop, out)
    {
      hide IsTreeHop;
      hop, out := None, [];
      if CurrentRoot(TreeView()) != b.root { return; }
      var ack := AnswerTo(TreeView(), b);
      var next := NextTreeHop(TreeView(), ack.destinationCoords, key);
      hop := next;
      if next.None? { return; }
      out := SentTo(TreeView(), next.value, SnekBootstrapAck(ack));
      Send(SnekBootstrapAck(ack), next.value);
    }

    /** What `handle_frame` does with a bootstrap: it is for us if keyspace routing keeps it here. */
    method ReceiveBootstrap(b: Bootstrap, now: Time)
      returns (panicked: bool, ghost hop: Option<PublicKey>, ghost back: Option<PublicKey>, ghost out: seq<Envelope>)
      requires Valid()
      modifies this`sent
      ensures sent == old(sent) + out
      ensures panicked ==> out == [] && MayPanic(View(), now, b.destinationKey, true)
      ensures !panicked ==>
        hop.Some? && exists next: PublicKey :: IsSnekHop(View(), now, b.destinationKey, true, false, next, hop)
      ensures !panicked && hop.value == key ==> IsAnswer(TreeView(), b, back, out)
      ensures !panicked && hop.value != key ==> out == [Envelope(hop.value, SnekBootstrap(b))]
    {
      hide SourceLost, IsChosen, Heard, PathVia, AnnouncedWay, IsAnswer;
      back, out := None, [];
      assert Signed(TreeView()) by { StoreOrders(scheme, Now()); }
      hide Inv;
      var failed, next := NextSnekHop(View(), now, b.destinationKey, true, false);
      panicked, hop := failed, next;
      if failed { return; }
      assert next.Some? by { ProtocolHopExists(View(), now, b.destinationKey, next); }
      ghost var found: PublicKey :| IsSnekHop(View(), now, b.destinationKey, true, false, found, hop);
      ghost var r := View();
      hide IsSnekHop;
      if next.value == key {
        back, out := HandleBootstrap(b);
      } else {
        Send(SnekBootstrap(b), next.value);
        out := [Envelope(next.value, SnekBootstrap(b))];
      }
      assert View() == r;
    }

    /** Protocol frames always get a hop. */
    static lemma ProtocolHopExists(r: RouterState, now: Time, dest: PublicKey, hop: Option<PublicKey>)
      requires exists key: PublicKey :: IsSnekHop(r, now, dest, true, false, key, hop)
      ensures hop.Some?
    {
    }

    // ---- Maintenance and disconnection ----

    /** The loop of `maintain_snek` over the paths no setup ACK has activated in time. */
    method SpawnUnconfirmed(now: Time)
      modifies this`pending
      ensures SnekView() == Spawned(old(SnekView()), multiset(Unconfirmed(old(SnekView()), now)))
    {
      var todo := paths.Keys;
      ghost var tasks: set<Pending> := {};
      while todo != {}
        invariant todo <= paths.Keys
        invariant tasks == set i |
          i in paths.Keys - todo && !paths[i].active && now - paths[i].lastSeen > SETUP_TIMEOUT :: Pending(0, i)
        invariant pending == old(pending) + multiset(tasks)
        decreases todo
      {
        var i :| i in todo;
        todo := todo - {i};
        if !paths[i].active && now - paths[i].lastSeen > SETUP_TIMEOUT {
          assert Pending(0, i) !in tasks;
          tasks := tasks + {Pending(0, i)};
          SpawnTeardown(0, i);
        }
      }
      assert tasks == Unconfirmed(old(SnekView()), now);
    }

    method SpawnIfExpired(cached: Option<Path>, now: Time)
      modifies this`pending
      ensures pending == old(pending) + Expired(cached, now)
    {
      if cached.Some? && !Snek.Valid(cached.value, now) { SpawnTeardown(0, cached.value.index); }
    }

    method SpawnStale(now: Time)
      modifies this`pending
      ensures View() == OnMaintain(old(View()), now)
    {
      hide Expired, Unconfirmed;
      SpawnIfExpired(ascending, now);
      SpawnIfExpired(descending, now);
      UnconfirmedReadsPaths(SnekView(), old(SnekView()), now);
      SpawnUnconfirmed(now);
      assert pending == old(pending) + Stale(old(SnekView()), now);
    }

    /** `maintain_snek`. It may decide to bootstrap over an expired ascending path, but as the teardown it spawned
        has not run, `bootstrap_now` still finds that path and sends nothing if its root is the current one. */
    method MaintainSnek(now: Time, pathId: PathId)
      returns (panicked: bool, ghost hop: Option<PublicKey>, ghost out: seq<Envelope>)
      requires Valid() && clock <= now
      modifies this`pending, this`sent, this`clock
      ensures Valid() && TakesStep(scheme, old(Now()), Step(now, SnekMaintained), Now())
      ensures sent == old(sent) + out
      ensures if old(MayBootstrap(View()) && CurrentRoot(TreeView()).publicKey != key)
        then IsBootstrap(View(), now, pathId, panicked, hop, out)
              else !panicked && out == []
    {
      hide Inv, OnMaintain, IsSnekHop, SourceLost;
      panicked, hop, out := false, None, [];
      var willBootstrap := WantsBootstrap(View(), now);
      SpawnStale(now);
      assert MaintainedOnly(old(View()), View()) by { MaintenanceSpawnsOnly(old(View()), now); }
      clock := now;
      StepKeepsInv(scheme, old(Now()), Step(now, SnekMaintained), Now());
      if willBootstrap {
        panicked, hop, out := BootstrapNow(now, pathId);
      }
    }

    static predicate MaintainedOnly(r: RouterState, r': RouterState) {
      r'.tree == r.tree && r'.snek == r.snek.(pending := r'.snek.pending)
    }

    static lemma MaintenanceSpawnsOnly(r: RouterState, now: Time)
      ensures MaintainedOnly(r, OnMaintain(r, now))
    {
    }

    static lemma UnconfirmedReadsPaths(s: SnekState, s': SnekState, now: Time)
      requires s.paths == s'.paths
      ensures Unconfirmed(s, now) == Unconfirmed(s', now)
    {
    }

    /** The loop of `disconnect_peer` over the paths through the dead port. */
    method SpawnThrough(port: Port)
      modifies this`pending
      ensures SnekView() == Spawned(old(SnekView()), multiset(Through(old(SnekView()), port)))
    {
      var todo := paths.Keys;
      ghost var tasks: set<Pending> := {};
      while todo != {}
        invariant todo <= paths.Keys
        invariant tasks == set i |
          i in paths.Keys - todo && (paths[i].destination == port || paths[i].source == port) :: Pending(port, i)
        invariant pending == old(pending) + multiset(tasks)
        decreases todo
      {
        var i :| i in todo;
        todo := todo - {i};
        if paths[i].destination == port || paths[i].source == port {
          assert Pending(port, i) !in tasks;
          tasks := tasks + {Pending(port, i)};
          SpawnTeardown(port, i);
        }
      }
      assert tasks == Through(old(SnekView()), port);
    }

    /** The table half of `disconnect_peer`. */
    method LosePort(port: Port) returns (bootstrap: bool)
      modifies this`pending, this`paths, this`ascending, this`descending
      ensures (SnekView(), bootstrap) == LostPort(old(SnekView()), port)
    {
      bootstrap := false;
      SpawnThrough(port);
      if ascending.Some? && ascending.value.destination == port {
        var _ := TeardownPath(0, ascending.value.index);
        bootstrap := true;
      }
      if descending.Some? && descending.value.destination == port {
        var _ := TeardownPath(0, descending.value.index);
      }
    }

    /** `disconnect_peer`, up to what it sends: whether the ascending path was lost, and whether a parent was
        selected. */
    method ForgetPeer(peer: PublicKey, now: Time)
      returns (lost: bool, selected: bool, ghost port: Option<Port>, ghost best: Option<PublicKey>)
      requires OrdersBelowMax(TreeView())
      modifies this`ports, this`parent, this`announcements, this`ascending, this`descending, this`paths, this`pending
      ensures match port case Some(p) => IsPortOf(old(TreeView()), peer, p)
        case None => peer != key && !HasPeer(old(TreeView()), peer)
      ensures Reselects(old(View()), peer, port) ==> IsSelection(Severed(old(TreeView()), peer, port), now, best)
      ensures View() == OnDisconnect(old(View()), peer, port, best)
      ensures lost <==> port.Some? && LostPort(old(SnekView()), port.value).1
      ensures selected
        <==> Reselects(old(View()), peer, port) && ParentChanges(Severed(old(TreeView()), peer, port), best)
    {
      hide IsSelection, LostPort, Selected, ParentChanges;
      best, lost, selected := None, false, false;
      var p := PortOf(peer);
      port := p;
      if p.Some? {
        lost := LosePort(p.value);
        ports := ports - {p.value};
      }
      announcements := announcements - {peer};
      assert TreeView() == Severed(old(TreeView()), peer, port);
      if parent == peer && !lost {
        selected, best := SelectParent(now);
      }
    }

    /** `disconnect_peer`: the announcements of a changed parent, and then a bootstrap if the ascending path or the
        parent was lost. */
    method DisconnectPeer(peer: PublicKey, now: Time, pathId: PathId)
      returns (panicked: bool, ghost port: Option<Port>, ghost best: Option<PublicKey>, ghost hop: Option<PublicKey>,
        ghost announced: seq<Envelope>, ghost bootstrapped: seq<Envelope>)
      requires Valid() && clock <= now && ordering < U64_MAX
      modifies this`ports, this`parent, this`announcements, this`ascending, this`descending, this`paths,
        this`pending, this`sent, this`clock
      ensures Valid() && TakesStep(scheme, old(Now()), Step(now, PeerLost(peer, port, best)), Now())
      ensures sent == old(sent) + announced + bootstrapped
      ensures var changed := Reselects(old(View()), peer, port)
        && ParentChanges(Severed(old(TreeView()), peer, port), best);
              && (if changed then IsBroadcast(scheme, TreeView(), privateKey, announced) else announced == [])
              && (if changed || (port.Some? && LostPort(old(SnekView()), port.value).1)
                  then IsBootstrap(View(), now, pathId, panicked, hop, bootstrapped)
                  else !panicked && bootstrapped == [])
    {
      hide Inv, IsSelection, LostPort, Reselects, OnDisconnect, Severed, ParentChanges, IsBroadcast, IsBootstrap;
      panicked, hop, announced, bootstrapped := false, None, [], [];
      assert OrdersBelowMax(TreeView()) by { StoreOrders(scheme, Now()); }
      var lost, selected, p, b := ForgetPeer(peer, now);
      port, best, clock := p, b, now;
      assert TakesStep(scheme, old(Now()), Step(now, PeerLost(peer, port, best)), Now());
      StepKeepsInv(scheme, old(Now()), Step(now, PeerLost(peer, port, best)), Now());
      if selected { announced := SendTreeAnnouncementsToAll(); }
      if lost || selected { panicked, hop, bootstrapped := BootstrapNow(now, pathId); }
    }
  }
}

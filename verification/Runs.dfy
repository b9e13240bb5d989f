/** What the invariants mean over whole runs. */
module Runs {
  import opened Types
  import opened Coordinates
  import opened Announcements
  import opened Frames
  import opened Tree
  import opened TreeProtocol
  import opened Snek
  import opened SnekProtocol
  import opened Machine

  lemma StepKeepsInv(scheme: Scheme, before: Machine, step: Step, after: Machine)
    requires Inv(scheme, before) && TakesStep(scheme, before, step, after) && Fresh(before.router, step.now, step.event)
    ensures Inv(scheme, after) && after.router.tree.key == before.router.tree.key
  {
    hide TableInv, StoreInv, NoDanglingPorts, Next, Enabled, Fresh;
    StepKeepsTree(scheme, before.router, step.now, step.event);
    TimeKeepsTable(before.router.tree.key, before.router.snek, before.clock, step.now);
    StepKeepsTable(scheme, before.router, step.now, step.event);
    assert 0 !in before.router.tree.ports by { StoreHasNoPortZero(scheme, before.router.tree); }
    StepKeepsPorts(scheme, before.router, step.now, step.event);
  }

  lemma StoreHasNoPortZero(scheme: Scheme, t: TreeState)
    requires StoreInv(scheme, t)
    ensures 0 !in t.ports
  {
  }

  lemma StepKeepsHome(scheme: Scheme, before: Machine, step: Step, after: Machine)
    requires Inv(scheme, before) && HomeInv(before.router) && TakesStep(scheme, before, step, after)
    requires Guarded(before.router.tree.key, step.event)
    ensures HomeInv(after.router)
  {
    hide TableInv, StoreInv, NoDanglingPorts, Next, Enabled, Guarded, OwnPaths;
    TimeKeepsTable(before.router.tree.key, before.router.snek, before.clock, step.now);
    StepKeepsApartExactly(scheme, before.router, step.now, step.event);
    StepKeepsOwnPaths(scheme, before.router, step.now, step.event);
  }

  /** From a state that satisfies the invariants on, every state of every run with fresh path ids does; and the same
      goes for what holds at home if no connection is taken up under our own key. */
  lemma {:induction false} ContinuedRunsKeepInv(scheme: Scheme, start: Machine, trace: seq<Machine>, steps: seq<Step>,
      i: nat)
    requires Inv(scheme, start) && RunFrom(scheme, start, trace, steps) && FreshRun(trace, steps) && i < |trace|
    ensures Inv(scheme, trace[i]) && trace[i].router.tree.key == start.router.tree.key
    ensures HomeInv(start.router) && GuardedRun(start.router.tree.key, steps) ==> HomeInv(trace[i].router)
  {
    hide Inv, HomeInv, TakesStep, Fresh, Guarded;
    if i > 0 {
      ContinuedRunsKeepInv(scheme, start, trace, steps, i - 1);
      StepKeepsInv(scheme, trace[i - 1], steps[i - 1], trace[i]);
      if HomeInv(start.router) && GuardedRun(start.router.tree.key, steps) {
        StepKeepsHome(scheme, trace[i - 1], steps[i - 1], trace[i]);
      }
    }
  }

  /** Every state of every run with fresh path ids satisfies the invariants, whoever the peers say they are. */
  lemma RunsKeepInv(scheme: Scheme, key: PublicKey, trace: seq<Machine>, steps: seq<Step>, i: nat)
    requires IsRun(scheme, key, trace, steps) && FreshRun(trace, steps) && i < |trace|
    ensures Inv(scheme, trace[i]) && trace[i].router.tree.key == key
  {
    hide TakesStep, FreshRun;
    assert Inv(scheme, trace[0]);
    ContinuedRunsKeepInv(scheme, trace[0], trace, steps, i);
  }

  /** And if no connection is taken up under our own key, we do not store announcements of our own, and of the paths
      that start here, all of them ours, all but one are on the way out. */
  lemma GuardedRunsKeepHome(scheme: Scheme, key: PublicKey, trace: seq<Machine>, steps: seq<Step>, i: nat)
    requires IsRun(scheme, key, trace, steps) && FreshRun(trace, steps) && GuardedRun(key, steps) && i < |trace|
    ensures HomeInv(trace[i].router)
  {
    hide TakesStep, FreshRun, GuardedRun;
    assert Inv(scheme, trace[0]) && HomeInv(trace[0].router);
    ContinuedRunsKeepInv(scheme, trace[0], trace, steps, i);
  }

  /** The consequences readers of the table and of the store rely on, in every reachable state. A path whose source has
      lost its peer, which keyspace routing may panic over, awaits its teardown. */
  lemma ReachableStatesAreSound(scheme: Scheme, key: PublicKey, trace: seq<Machine>, steps: seq<Step>, i: nat)
    requires IsRun(scheme, key, trace, steps) && FreshRun(trace, steps) && i < |trace|
    ensures var r := trace[i].router;
            && Signed(r.tree) && OrdersDistinct(r.tree)
            && AscendingInTable(r.tree.key, r.snek)
            && KeyOrder(r.tree.key, r.snek)
            && (forall index :: index in r.snek.paths && PeerOnPort(r.tree, r.snek.paths[index].source).None?
                  ==> Pending(r.snek.paths[index].source, index) in r.snek.pending)
            && (GuardedRun(key, steps) ==> RootsSigned(r.tree))
  {
    hide IsRun, FreshRun, GuardedRun;
    RunsKeepInv(scheme, key, trace, steps, i);
    if GuardedRun(key, steps) { GuardedRunsKeepHome(scheme, key, trace, steps, i); }
    var r := trace[i].router;
    StoreSupportsRouting(scheme, r.tree);
    forall index | index in r.snek.paths && PeerOnPort(r.tree, r.snek.paths[index].source).None?
      ensures Pending(r.snek.paths[index].source, index) in r.snek.pending
    {
      assert Accounted(r.tree, r.snek, r.snek.paths[index].source, index);
    }
  }

  // ---- Our own key as a peer's ----

  lemma RunsJoin(scheme: Scheme, start: Machine, trace: seq<Machine>, steps: seq<Step>, trace': seq<Machine>,
      steps': seq<Step>)
    requires RunFrom(scheme, start, trace, steps) && RunFrom(scheme, trace[|steps|], trace', steps')
    requires FreshRun(trace, steps) && FreshRun(trace', steps')
    ensures RunFrom(scheme, start, trace + trace'[1..], steps + steps') && FreshRun(trace + trace'[1..], steps + steps')
    ensures (trace + trace'[1..])[|steps + steps'|] == trace'[|steps'|]
    ensures forall key :: GuardedRun(key, steps) && GuardedRun(key, steps') ==> GuardedRun(key, steps + steps')
  {
  }

  lemma StepIsRun(scheme: Scheme, before: Machine, step: Step, after: Machine)
    requires TakesStep(scheme, before, step, after) && Fresh(before.router, step.now, step.event)
    ensures RunFrom(scheme, before, [before, after], [step]) && FreshRun([before, after], [step])
    ensures forall key :: Guarded(key, step.event) ==> GuardedRun(key, [step])
  {
  }

  /** Nothing of a path of someone else's is left: no entry, no teardown from home, no descending path. */
  ghost predicate Cleared(s: SnekState, index: PathIndex) {
    index !in s.paths && !Doomed(s, index) && (s.descending.Some? ==> s.descending.value.index != index)
  }

  /** A teardown that seems to come from home clears any path. */
  lemma {:induction false} PathCanBeCleared(scheme: Scheme, m: Machine, index: PathIndex)
    returns (trace: seq<Machine>, steps: seq<Step>)
    requires Inv(scheme, m) && HasPeer(m.router.tree, m.router.tree.key) && index.publicKey < m.router.tree.key
    ensures RunFrom(scheme, m, trace, steps) && FreshRun(trace, steps) && GuardedRun(m.router.tree.key, steps)
    ensures var m' := trace[|steps|];
      m'.router.tree == m.router.tree && m'.clock == m.clock && Cleared(m'.router.snek, index)
    decreases m.router.snek.pending[Pending(0, index)]
  {
    hide StoreInv, NoDanglingPorts, CandidateCloser, SeenByNow;
    var task := Pending(0, index);
    var e := if Doomed(m.router.snek, index) then TaskRan(task)
             else TeardownArrived(0, Teardown(CurrentRoot(m.router.tree), index.publicKey, index.pathId));
    var step, m1 := Step(m.clock, e), Machine(Next(scheme, m.router, m.clock, e), m.clock);
    assert TakesStep(scheme, m, step, m1);
    StepIsRun(scheme, m, step, m1);
    trace, steps := [m, m1], [step];
    TeardownIsRemovalOfPending(m.router.snek, 0, index);
    if Doomed(m.router.snek, index) {
      TeardownIsRemovalOfPending(m.router.snek.(pending := m.router.snek.pending - multiset{task}), 0, index);
      StepKeepsInv(scheme, m, step, m1);
      var trace', steps' := PathCanBeCleared(scheme, m1, index);
      RunsJoin(scheme, m, trace, steps, trace', steps');
      trace, steps := trace + trace'[1..], steps + steps';
    }
  }

  /** A path that starts here, is not ours and stays. */
  ghost predicate ForeignPathFromHere(key: PublicKey, s: SnekState, index: PathIndex) {
    index in s.paths && s.paths[index].source == 0 && index.publicKey < key && !Doomed(s, index)
  }

  /** From every state in which we are our own peer, whatever else it is like, setups from that peer can install a
      path that starts here, is not ours and stays. */
  lemma OwnKeyPeerInstallsForeignPath(scheme: Scheme, m: Machine) returns (trace: seq<Machine>, steps: seq<Step>)
    requires Inv(scheme, m) && HasPeer(m.router.tree, m.router.tree.key) && 0 < m.router.tree.key
    ensures RunFrom(scheme, m, trace, steps) && FreshRun(trace, steps) && GuardedRun(m.router.tree.key, steps)
    ensures trace[|steps|].router.tree == m.router.tree
    ensures ForeignPathFromHere(m.router.tree.key, trace[|steps|].router.snek, PathIndex(0, 0))
  {
    hide StoreInv, NoDanglingPorts, CandidateCloser, AscendingInTable;
    var t, index := m.router.tree, PathIndex(0, 0);
    trace, steps := PathCanBeCleared(scheme, m, index);
    ContinuedRunsKeepInv(scheme, m, trace, steps, |steps|);
    var m1 := trace[|steps|];
    var now := m1.clock + SNEK_EXPIRY_PERIOD;
    var setup := Setup(CurrentRoot(t), OwnCoords(t), t.key, 0, 0);
    var e := SetupArrived(0, setup, t.key, 0);
    assert AcceptsSetup(m1.router, setup, now);
    var step, m2 := Step(now, e), Machine(OnSetup(m1.router, 0, setup, 0, now).state, now);
    assert TakesStep(scheme, m1, step, m2);
    StepIsRun(scheme, m1, step, m2);
    RunsJoin(scheme, m, trace, steps, [m1, m2], [step]);
    trace, steps := trace + [m1, m2][1..], steps + [step];
  }

  /** The guard `connect` lacks is exactly what our own paths need: after a step, every continuation that does not
      take up a connection under our own key keeps them in order if and only if the step did not. Setups that end
      here need a lower key to come from, so our key is not the least there is. */
  lemma OwnKeyGuardIsExact(scheme: Scheme, before: Machine, step: Step, after: Machine)
    requires Inv(scheme, before) && HomeInv(before.router) && 0 < before.router.tree.key
    requires TakesStep(scheme, before, step, after) && Fresh(before.router, step.now, step.event)
    ensures var key := before.router.tree.key;
            (forall trace: seq<Machine>, steps: seq<Step> ::
              RunFrom(scheme, after, trace, steps) && FreshRun(trace, steps) && GuardedRun(key, steps)
              ==> OwnPaths(key, trace[|steps|].router.snek))
            <==> Guarded(key, step.event)
  {
    hide FreshRun, GuardedRun, TakesStep, Fresh, Inv, HomeInv, OwnPaths;
    var key := before.router.tree.key;
    StepKeepsInv(scheme, before, step, after);
    if Guarded(key, step.event) {
      StepKeepsHome(scheme, before, step, after);
      forall trace: seq<Machine>, steps: seq<Step> | RunFrom(scheme, after, trace, steps) && FreshRun(trace, steps)
        && GuardedRun(key, steps)
        ensures OwnPaths(key, trace[|steps|].router.snek)
      {
        ContinuedRunsKeepInv(scheme, after, trace, steps, |steps|);
        HomeParts(trace[|steps|].router);
      }
    } else {
      OwnKeyIsAdded(scheme, before, step, after);
      var trace, steps := OwnKeyPeerInstallsForeignPath(scheme, after);
      ForeignPathIsNotOurs(key, trace[|steps|].router.snek, PathIndex(0, 0));
    }
  }

  lemma HomeParts(r: RouterState)
    requires HomeInv(r)
    ensures OwnPaths(r.tree.key, r.snek)
  {
  }

  lemma OwnKeyIsAdded(scheme: Scheme, before: Machine, step: Step, after: Machine)
    requires HomeInv(before.router) && TakesStep(scheme, before, step, after)
    requires !Guarded(before.router.tree.key, step.event)
    ensures HasPeer(after.router.tree, after.router.tree.key)
  {
    hide OwnPaths;
    StepKeepsApartExactly(scheme, before.router, step.now, step.event);
  }

  lemma ForeignPathIsNotOurs(key: PublicKey, s: SnekState, index: PathIndex)
    requires ForeignPathFromHere(key, s, index)
    ensures !OwnPaths(key, s)
  {
  }

  /** It takes no more than a new router that is dialled at its own address: it takes its own first announcement for a
      peer's and files it, and then a setup from that connection installs a path that starts here and is not ours. */
  lemma DiallingItselfBreaksHome(scheme: Scheme, k: SigningKey) returns (trace: seq<Machine>, steps: seq<Step>)
    requires Sound(scheme) && 0 < scheme.publicKeyOf(k)
    ensures IsRun(scheme, scheme.publicKeyOf(k), trace, steps) && FreshRun(trace, steps)
    ensures scheme.publicKeyOf(k) in trace[|steps|].router.tree.announcements
    ensures ForeignPathFromHere(scheme.publicKeyOf(k), trace[|steps|].router.snek, PathIndex(0, 0))
  {
    hide Appended, LinkVerified, TableInv, NoDanglingPorts;
    var key := scheme.publicKeyOf(k);
    var r0 := Initial(key);
    var r1 := r0.(tree := r0.tree.(ports := map[1 := None]));
    var r2 := r1.(tree := r1.tree.(ports := map[1 := None, 2 := None]));
    var r3 := r2.(tree := r2.tree.(ports := map[1 := Some(key), 2 := None]));
    var frame := Outgoing(scheme, r2.tree, k, 2);
    assert StoreInv(scheme, r2.tree);
    OutgoingIsCleanExactly(scheme, r2.tree, k, 2);
    assert HasPeer(r3.tree, key) by { assert r3.tree.ports[1] == Some(key); }
    OwnAnnouncementIsFiledExactly(scheme, r3.tree, frame, key, 0);
    var m0, m1, m2, m3 := Machine(r0, 0), Machine(r1, 0), Machine(r2, 0), Machine(r3, 0);
    var r4 := r3.(tree := OnAnnouncement(scheme, r3.tree, frame, key, 0).0);
    var m4 := Machine(r4, 0);
    trace := [m0, m1, m2, m3, m4];
    steps := [Step(0, PortReserved(1)), Step(0, PortReserved(2)), Step(0, PeerAdded(1, key)),
      Step(0, AnnouncementArrived(frame, key))];
    assert TakesStep(scheme, m0, steps[0], m1) && TakesStep(scheme, m1, steps[1], m2);
    assert TakesStep(scheme, m2, steps[2], m3) && TakesStep(scheme, m3, steps[3], m4);
    assert RunFrom(scheme, m0, trace, steps) && FreshRun(trace, steps);
    RunsKeepInv(scheme, key, trace, steps, 4);
    assert HasPeer(r4.tree, key) by { assert r4.tree.ports[1] == Some(key); }
    var trace', steps' := OwnKeyPeerInstallsForeignPath(scheme, m4);
    RunsJoin(scheme, m0, trace, steps, trace', steps');
    trace, steps := trace + trace'[1..], steps + steps';
  }

  /** A step keeps the ascending path, drops it, or promotes the candidate. */
  lemma AscendingIsKeptDroppedOrPromoted(scheme: Scheme, r: RouterState, now: Time, e: Event)
    requires Enabled(r, now, e)
    ensures var a := Next(scheme, r, now, e).snek.ascending;
            a == r.snek.ascending || a == None || a == r.snek.candidate
  {
  }

  /** A step never replaces an unexpired ascending path by one to a key farther above us. */
  lemma AscendingOnlyGetsCloser(scheme: Scheme, before: Machine, step: Step, after: Machine)
    requires Inv(scheme, before) && TakesStep(scheme, before, step, after)
    requires before.router.snek.ascending.Some? && after.router.snek.ascending.Some?
    requires Valid(before.router.snek.ascending.value, step.now)
    ensures var a, a' := before.router.snek.ascending.value, after.router.snek.ascending.value;
            before.router.tree.key < a'.origin <= a.origin
  {
    hide Next, Enabled, StoreInv, NoDanglingPorts, SeenByNow, FiledByIndex;
    AscendingIsKeptDroppedOrPromoted(scheme, before.router, step.now, step.event);
    assert CandidateCloser(before.router.snek, before.clock);
  }

  /** Over any stretch of a run in which there always is an unexpired ascending path, its key only comes closer. */
  lemma {:induction false} AscendingNeverDriftsAway(scheme: Scheme, key: PublicKey, trace: seq<Machine>,
      steps: seq<Step>, i: nat, j: nat)
    requires IsRun(scheme, key, trace, steps) && FreshRun(trace, steps) && i <= j < |trace|
    requires forall k :: i <= k <= j ==> trace[k].router.snek.ascending.Some?
    requires forall k :: i <= k < j ==> Valid(trace[k].router.snek.ascending.value, steps[k].now)
    ensures trace[j].router.snek.ascending.value.origin <= trace[i].router.snek.ascending.value.origin
    decreases j - i
  {
    hide TakesStep, Inv, Valid, FreshRun;
    if i < j {
      RunsKeepInv(scheme, key, trace, steps, j - 1);
      AscendingOnlyGetsCloser(scheme, trace[j - 1], steps[j - 1], trace[j]);
      AscendingNeverDriftsAway(scheme, key, trace, steps, i, j - 1);
    }
  }

  /** A step keeps the descending path, drops it, or installs an accepted setup's. */
  lemma DescendingIsKeptDroppedOrAccepted(scheme: Scheme, r: RouterState, now: Time, e: Event)
    requires Enabled(r, now, e)
    ensures var d := Next(scheme, r, now, e).snek.descending;
            || d == r.snek.descending || d == None
            || (e.SetupArrived? && AcceptsSetup(r, e.setup, now) && d.Some?
              && d.value.index.publicKey == e.setup.sourceKey)
  {
  }

  /** Likewise a step never replaces an unexpired descending path by one from a key farther below us. */
  lemma DescendingOnlyGetsCloser(scheme: Scheme, before: Machine, step: Step, after: Machine)
    requires Inv(scheme, before) && TakesStep(scheme, before, step, after)
    requires before.router.snek.descending.Some? && after.router.snek.descending.Some?
    requires Valid(before.router.snek.descending.value, step.now)
    ensures var d, d' := before.router.snek.descending.value, after.router.snek.descending.value;
            d.index.publicKey <= d'.index.publicKey < before.router.tree.key
  {
    hide Next, Enabled, StoreInv, NoDanglingPorts, SeenByNow, FiledByIndex, CandidateCloser, AscendingInTable;
    DescendingIsKeptDroppedOrAccepted(scheme, before.router, step.now, step.event);
  }

  /** And over any stretch of a run in which there always is an unexpired descending path, its key only comes closer. */
  lemma {:induction false} DescendingNeverDriftsAway(scheme: Scheme, key: PublicKey, trace: seq<Machine>,
      steps: seq<Step>, i: nat, j: nat)
    requires IsRun(scheme, key, trace, steps) && FreshRun(trace, steps) && i <= j < |trace|
    requires forall k :: i <= k <= j ==> trace[k].router.snek.descending.Some?
    requires forall k :: i <= k < j ==> Valid(trace[k].router.snek.descending.value, steps[k].now)
    ensures var d, d' := trace[i].router.snek.descending.value, trace[j].router.snek.descending.value;
            d.index.publicKey <= d'.index.publicKey
    decreases j - i
  {
    hide TakesStep, Inv, Valid, FreshRun;
    if i < j {
      RunsKeepInv(scheme, key, trace, steps, j - 1);
      DescendingOnlyGetsCloser(scheme, trace[j - 1], steps[j - 1], trace[j]);
      DescendingNeverDriftsAway(scheme, key, trace, steps, i, j - 1);
    }
  }

  // ---- Fresh ids ----

  /** Acting on a bootstrap ACK keeps the ascending path in the table exactly when the ACK's path id is not the
      ascending path's own. */
  lemma AckKeepsAscendingExactly(r: RouterState, ack: BootstrapAck, now: Time, hop: Option<PublicKey>, port: Port)
    requires AscendingInTable(r.tree.key, r.snek) && r.snek.ascending.Some?
    requires AcceptsAck(r, ack, now) && hop.Some? && hop.value != r.tree.key
    ensures AscendingInTable(r.tree.key, OnBootstrapAck(r, ack, now, hop, port).state.snek)
       <==> ack.pathId != r.snek.ascending.value.index.pathId
  {
  }

  /** A step keeps the invariants exactly when it acts on no ACK that reuses the ascending path's id. */
  lemma FreshIdIsExact(scheme: Scheme, before: Machine, step: Step, after: Machine)
    requires Inv(scheme, before) && TakesStep(scheme, before, step, after)
    ensures Inv(scheme, after) <==> Fresh(before.router, step.now, step.event)
  {
    if Fresh(before.router, step.now, step.event) {
      hide Inv, TakesStep, Fresh;
      StepKeepsInv(scheme, before, step, after);
    } else {
      hide StoreInv, NoDanglingPorts, IsTreeHop;
      var e := step.event;
      assert AscendingInTable(before.router.tree.key, before.router.snek);
      AckKeepsAscendingExactly(before.router, e.ack, step.now, e.ackHop, e.hopPort);
    }
  }

  /** A router whose only peer is the root on port 7, which gave it port 3. */
  ghost function Joined(scheme: Scheme, own: PublicKey, top: SigningKey): TreeState {
    var root := Root(scheme.publicKeyOf(top), 0);
    var frame := Appended(scheme, Announcement(root, [], 0, 0), top, 3);
    TreeState(own, map[7 := Some(root.publicKey)], root.publicKey, map[root.publicKey := frame.(receiveOrder := 1)],
      0, 1, None)
  }

  /** Wherever its ports lead, for such coordinates the root is closer than it. */
  lemma RootIsCloser(scheme: Scheme, own: PublicKey, top: SigningKey, t: TreeState, dest: Coords, from: PublicKey)
    requires t == Joined(scheme, own, top).(ports := t.ports) && from != t.parent && (dest == [] || dest == [8])
    ensures OwnCoords(t) == [3] && Closer(t, dest, from, t.parent)
  {
    assert SenderCoords(t.announcements[t.parent]) == [];
    assert CommonPrefix([8], [3]) == 0 && CommonPrefix([], [3]) == 0 && CommonPrefix([], [8]) == 0;
  }

  /** A closer peer that is the only one to have announced anything is the hop. */
  lemma OnlyAnnouncerIsHop(t: TreeState, dest: Coords, from: PublicKey, peer: PublicKey)
    requires dest != OwnCoords(t) && HasPeer(t, peer) && Closer(t, dest, from, peer)
    requires forall m :: m in t.announcements ==> m == peer
    ensures IsTreeHop(t, dest, from, Some(peer))
  {
    hide HasPeer;
  }

  /** From such a router every frame for other coordinates that start with none of its own goes to the root. */
  lemma JoinedHop(scheme: Scheme, own: PublicKey, top: SigningKey, dest: Coords)
    requires own != scheme.publicKeyOf(top) && (dest == [] || dest == [8])
    ensures var t := Joined(scheme, own, top);
            IsTreeHop(t, dest, own, Some(t.parent)) && IsPortOf(t, t.parent, 7) && OwnCoords(t) == [3]
  {
    hide IsTreeHop, Closer, OwnCoords;
    var t := Joined(scheme, own, top);
    assert t.ports[7] == Some(t.parent);
    RootIsCloser(scheme, own, top, t, dest, own);
    OnlyAnnouncerIsHop(t, dest, own, t.parent);
  }

  /** It is what the root's announcement makes of a new router. */
  lemma JoinedByAnnouncement(scheme: Scheme, own: PublicKey, top: SigningKey)
    requires Sound(scheme) && own < scheme.publicKeyOf(top)
    ensures var root := scheme.publicKeyOf(top);
            var t := Initial(own).tree.(ports := map[7 := Some(root)]);
            var frame := Appended(scheme, Announcement(Root(root, 0), [], 0, 0), top, 3);
            OnAnnouncement(scheme, t, frame, root, 0) == (Joined(scheme, own, top), Adopted)
  {
    hide LinkVerified;
    var start := Announcement(Root(scheme.publicKeyOf(top), 0), [], 0, 0);
    assert Relayed(scheme, start, [Hop(top, 3)]) == Appended(scheme, start, top, 3) by {
      assert Relayed(scheme, start, [Hop(top, 3)][..0]) == start;
    }
    RelayedIsCleanExactly(scheme, start, [Hop(top, 3)], scheme.publicKeyOf(top));
  }

  lemma JoiningTheRoot(scheme: Scheme, own: PublicKey, top: SigningKey) returns (trace: seq<Machine>, steps: seq<Step>)
    requires Sound(scheme) && own < scheme.publicKeyOf(top)
    ensures IsRun(scheme, own, trace, steps) && FreshRun(trace, steps) && GuardedRun(own, steps)
    ensures trace[|steps|] == Machine(Initial(own).(tree := Joined(scheme, own, top)), 0)
  {
    hide Sound, OnAnnouncement, Joined, IsSelection;
    JoinedByAnnouncement(scheme, own, top);
    var root, r0 := scheme.publicKeyOf(top), Initial(own);
    var r1 := r0.(tree := r0.tree.(ports := map[7 := None]));
    var r2 := r0.(tree := r0.tree.(ports := map[7 := Some(root)]));
    var r3 := r0.(tree := Joined(scheme, own, top));
    var frame := Appended(scheme, Announcement(Root(root, 0), [], 0, 0), top, 3);
    var m0, m1, m2, m3 := Machine(r0, 0), Machine(r1, 0), Machine(r2, 0), Machine(r3, 0);
    trace := [m0, m1, m2, m3];
    steps := [Step(0, PortReserved(7)), Step(0, PeerAdded(7, root)), Step(0, AnnouncementArrived(frame, root))];
    assert TakesStep(scheme, m0, steps[0], m1) && TakesStep(scheme, m1, steps[1], m2);
    assert TakesStep(scheme, m2, steps[2], m3);
  }

  /** Then the root's ACK is accepted and the path it sets up confirmed. */
  ghost function Confirmed(scheme: Scheme, own: PublicKey, top: SigningKey, id: PathId): RouterState {
    var root, index := Root(scheme.publicKeyOf(top), 0), PathIndex(own, id);
    var path := Path(index, root.publicKey, root.publicKey, 0, 7, 0, root, true);
    RouterState(Joined(scheme, own, top), SnekState(Some(path), None, map[index := path], None, multiset{}))
  }

  lemma Confirming(scheme: Scheme, own: PublicKey, top: SigningKey, id: PathId)
    returns (trace: seq<Machine>, steps: seq<Step>)
    requires Sound(scheme) && own < scheme.publicKeyOf(top)
    ensures IsRun(scheme, own, trace, steps) && FreshRun(trace, steps) && GuardedRun(own, steps)
    ensures trace[|steps|] == Machine(Confirmed(scheme, own, top, id), 0)
  {
    hide FreshRun, GuardedRun, IsTreeHop, Joined, OwnCoords;
    trace, steps := JoiningTheRoot(scheme, own, top);
    var m0, root := trace[|steps|], Root(scheme.publicKeyOf(top), 0);
    var t := m0.router.tree;
    JoinedHop(scheme, own, top, []);
    JoinedState(scheme, own, top);
    HopHome(t, [3], t.parent);
    var ack := BootstrapAck([3], own, [], root.publicKey, root, id);
    var e1 := BootstrapAckArrived(t.parent, ack, Some(t.parent), 7);
    var m1 := Machine(OnBootstrapAck(m0.router, ack, 0, Some(t.parent), 7).state, 0);
    assert TakesStep(scheme, m0, Step(0, e1), m1);
    var e2 := SetupAckArrived(7, SetupAck(root, own, id));
    var m2 := Machine(OnSetupAck(m1.router, 7, SetupAck(root, own, id)).state, 0);
    assert TakesStep(scheme, m1, Step(0, e2), m2);
    StepIsRun(scheme, m0, Step(0, e1), m1);
    StepIsRun(scheme, m1, Step(0, e2), m2);
    trace, steps := RunGoesOn(scheme, trace, steps, Step(0, e1), m1);
    trace, steps := RunGoesOn(scheme, trace, steps, Step(0, e2), m2);
  }

  /** Fresh ids are needed. A new router joins a root, takes its ACK and is confirmed; then a closer node's ACK that
      reuses the path id is taken, and the ascending path is no longer what the table holds. Only that last ACK is
      not fresh. */
  lemma ReusedIdBreaksAscending(scheme: Scheme, own: PublicKey, closer: PublicKey, top: SigningKey, id: PathId)
    returns (trace: seq<Machine>, steps: seq<Step>, last: Step, after: Machine)
    requires Sound(scheme) && own < closer < scheme.publicKeyOf(top)
    ensures IsRun(scheme, own, trace, steps) && FreshRun(trace, steps) && GuardedRun(own, steps)
    ensures TakesStep(scheme, trace[|steps|], last, after) && Guarded(own, last.event)
    ensures last.event.BootstrapAckArrived?
    ensures AcceptsAck(trace[|steps|].router, last.event.ack, last.now)
    ensures Inv(scheme, trace[|steps|]) && !AscendingInTable(own, after.router.snek)
  {
    hide FreshRun, GuardedRun, IsTreeHop, Inv, Joined, OwnCoords;
    trace, steps := Confirming(scheme, own, top, id);
    RunsKeepInv(scheme, own, trace, steps, |steps|);
    var r, root := trace[|steps|].router, Root(scheme.publicKeyOf(top), 0);
    JoinedHop(scheme, own, top, [8]);
    JoinedState(scheme, own, top);
    HopHome(r.tree, [3], r.tree.parent);
    var ack := BootstrapAck([3], own, [8], closer, root, id);
    last := Step(0, BootstrapAckArrived(r.tree.parent, ack, Some(r.tree.parent), 7));
    after := Machine(OnBootstrapAck(r, ack, 0, Some(r.tree.parent), 7).state, 0);
    assert AcceptsAck(r, ack, 0);
    AckKeepsAscendingExactly(r, ack, 0, Some(r.tree.parent), 7);
  }

  // ---- Bootstrapping over an expired path ----

  /** Of the maintenance runs that want to bootstrap, `bootstrap_now` lets through exactly those whose ascending
      path, if any, was set up under another root. */
  lemma WantedBootstrapIsSentExactly(r: RouterState, now: Time)
    requires WantsBootstrap(r, now)
    ensures MayBootstrap(r) <==> r.snek.ascending.None? || r.snek.ascending.value.root != CurrentRoot(r.tree)
  {
  }

  /** A new router joins a root and sets up its path; once that has expired, maintenance wants to bootstrap and may
      not. */
  lemma ExpiredPathHoldsBootstrapBack(scheme: Scheme, own: PublicKey, top: SigningKey, id: PathId)
    returns (trace: seq<Machine>, steps: seq<Step>)
    requires Sound(scheme) && own < scheme.publicKeyOf(top)
    ensures IsRun(scheme, own, trace, steps) && FreshRun(trace, steps) && GuardedRun(own, steps)
    ensures forall now :: now >= SNEK_EXPIRY_PERIOD ==> WantsBootstrap(trace[|steps|].router, now)
    ensures !MayBootstrap(trace[|steps|].router)
  {
    hide FreshRun, GuardedRun, Joined;
    trace, steps := Confirming(scheme, own, top, id);
    JoinedState(scheme, own, top);
  }

  lemma JoinedState(scheme: Scheme, own: PublicKey, top: SigningKey)
    requires own != scheme.publicKeyOf(top)
    ensures var t := Joined(scheme, own, top);
            && t.key == own && t.parent == scheme.publicKeyOf(top) && CurrentRoot(t) == Root(t.parent, 0)
            && PeerOnPort(t, 7) == Some(t.parent) && SendsFrom(t, 7)
  {
  }

  lemma HopHome(t: TreeState, dest: Coords, from: PublicKey)
    requires dest == OwnCoords(t)
    ensures IsTreeHop(t, dest, from, Some(t.key))
  {
  }

  // ---- Draining the spawned teardowns ----

  function Drained(s: SnekState, tasks: seq<Pending>): SnekState
    decreases |tasks|
  {
    if tasks == [] then s else Drained(AfterTask(s, tasks[0]), tasks[1..])
  }

  lemma {:induction false} DrainKeepsInvariants(t: TreeState, key: PublicKey, s: SnekState, now: Time,
      tasks: seq<Pending>)
    requires TableInv(key, s, now) && NoDanglingPorts(t, s)
    ensures TableInv(key, Drained(s, tasks), now) && NoDanglingPorts(t, Drained(s, tasks))
    ensures OwnPaths(key, s) ==> OwnPaths(key, Drained(s, tasks))
    ensures Drained(s, tasks).pending == s.pending - multiset(tasks)
    decreases |tasks|
  {
    hide TableInv, OwnPaths, NoDanglingPorts, TornDown;
    if tasks == [] {
      assert multiset(tasks) == multiset{};
    } else {
      TaskKeepsTable(key, s, now, tasks[0]);
      TaskKeepsPorts(t, s, tasks[0]);
      TeardownIsRemovalOfPending(s.(pending := s.pending - multiset{tasks[0]}), tasks[0].from, tasks[0].index);
      DrainKeepsInvariants(t, key, AfterTask(s, tasks[0]), now, tasks[1..]);
      assert tasks == [tasks[0]] + tasks[1..];
    }
  }

  lemma TeardownIsRemovalOfPending(s: SnekState, from: Port, index: PathIndex)
    ensures TornDown(s, from, index).0.pending == s.pending
  {
  }

  /** Once the spawned teardowns have run, in whatever order, every port of every entry is home or a connected
      peer's. */
  lemma DrainedPortsAreLive(scheme: Scheme, m: Machine, tasks: seq<Pending>)
    requires Inv(scheme, m) && multiset(tasks) == m.router.snek.pending
    ensures var s := Drained(m.router.snek, tasks);
            forall i :: i in s.paths ==>
              forall p :: p in {s.paths[i].source, s.paths[i].destination} ==> p == 0 || Connected(m.router.tree, p)
  {
    DrainKeepsInvariants(m.router.tree, m.router.tree.key, m.router.snek, m.clock, tasks);
    var s := Drained(m.router.snek, tasks);
    assert s.pending == multiset{};
    forall i | i in s.paths
      ensures forall p :: p in {s.paths[i].source, s.paths[i].destination} ==> p == 0 || Connected(m.router.tree, p)
    {
      assert Accounted(m.router.tree, s, s.paths[i].source, i)
        && Accounted(m.router.tree, s, s.paths[i].destination, i);
    }
  }

  /** And unless we are our own peer at most one path starts at this node: the candidate's, or without one the
      ascending path. */
  lemma DrainedTableIsTidy(scheme: Scheme, m: Machine, tasks: seq<Pending>)
    requires Inv(scheme, m) && HomeInv(m.router) && multiset(tasks) == m.router.snek.pending
    ensures var s := Drained(m.router.snek, tasks);
            && (forall i, j ::
              i in s.paths && j in s.paths && s.paths[i].source == 0 && s.paths[j].source == 0 ==> i == j)
            && (forall i :: i in s.paths && s.paths[i].source == 0 ==>
                  && i.publicKey == m.router.tree.key
                  && if s.candidate.Some? then s.paths[i].(active := true) == s.candidate.value
                    else s.ascending == Some(s.paths[i]))
  {
    DrainKeepsInvariants(m.router.tree, m.router.tree.key, m.router.snek, m.clock, tasks);
    var s := Drained(m.router.snek, tasks);
    assert s.pending == multiset{};
    forall i, j | i in s.paths && j in s.paths && s.paths[i].source == 0 && s.paths[j].source == 0
      ensures i == j
    {
      assert !Doomed(s, i) && !Doomed(s, j);
      assert s.paths[i].index == i && s.paths[j].index == j;
    }
  }

  /** After a peer is lost and the teardowns this spawned have run, in whatever order, no path goes through its port. */
  lemma LostPortIsForgotten(scheme: Scheme, before: Machine, step: Step, after: Machine, tasks: seq<Pending>)
    requires Inv(scheme, before) && TakesStep(scheme, before, step, after)
    requires step.event.PeerLost? && step.event.lostPort.Some? && step.event.lostPort.value != 0
    requires multiset(tasks) == after.router.snek.pending
    ensures after.router.snek.ascending.Some?
      ==> after.router.snek.ascending.value.destination != step.event.lostPort.value
    ensures var s := Drained(after.router.snek, tasks);
            forall i :: i in s.paths ==> step.event.lostPort.value !in {s.paths[i].source, s.paths[i].destination}
  {
    StepKeepsInv(scheme, before, step, after);
    DrainedPortsAreLive(scheme, after, tasks);
    LostPortIsNotAscended(before.router.snek, step.event.lostPort.value);
    assert !Connected(after.router.tree, step.event.lostPort.value) by {
      hide LostPort, IsSelection, Inv;
    }
  }

  lemma LostPortIsNotAscended(s: SnekState, port: Port)
    ensures var a := LostPort(s, port).0.ascending; a.Some? ==> a.value.destination != port
  {
  }

  // ---- Order does not matter ----

  /** Some task tears index down as if from port p. */
  predicate Ordered(tasks: seq<Pending>, p: Port, index: PathIndex) {
    Pending(p, index) in tasks
  }

  /** The entry at index is removed by one of the teardowns: from home, from one of its own ports, or as the
      ascending path. */
  predicate Hit(s: SnekState, tasks: seq<Pending>, index: PathIndex)
    requires index in s.paths
  {
    || Ordered(tasks, 0, index)
    || Ordered(tasks, s.paths[index].source, index)
    || Ordered(tasks, s.paths[index].destination, index)
    || AscendingHit(s, tasks, index)
    || DescendingHit(s, tasks, index)
  }

  predicate AscendingHit(s: SnekState, tasks: seq<Pending>, index: PathIndex) {
    s.ascending.Some? && s.ascending.value.index == index
    && (Ordered(tasks, 0, index) || Ordered(tasks, s.ascending.value.destination, index))
  }

  predicate DescendingHit(s: SnekState, tasks: seq<Pending>, index: PathIndex) {
    s.descending.Some? && s.descending.value.index == index
    && (Ordered(tasks, 0, index) || Ordered(tasks, s.descending.value.destination, index))
  }

  /** What a batch of teardowns does, said without running it: each path is looked at once. */
  function Swept(s: SnekState, tasks: seq<Pending>): SnekState {
    s.(
      paths := map i | i in s.paths && !Hit(s, tasks, i) :: s.paths[i],
      ascending := if s.ascending.Some? && AscendingHit(s, tasks, s.ascending.value.index) then None else s.ascending,
      descending := if s.descending.Some? && DescendingHit(s, tasks, s.descending.value.index) then None
        else s.descending,
      pending := s.pending - multiset(tasks))
  }

  ghost predicate IndicesDiffer(s: SnekState) {
    s.ascending.Some? && s.descending.Some? ==> s.ascending.value.index != s.descending.value.index
  }

  /** Running the teardowns one by one is the sweep. */
  lemma {:induction false} DrainIsSweep(s: SnekState, tasks: seq<Pending>)
    requires IndicesDiffer(s)
    ensures Drained(s, tasks) == Swept(s, tasks)
    decreases |tasks|
  {
    if tasks == [] {
      assert Swept(s, tasks).paths == s.paths;
    } else {
      var s1 := AfterTask(s, tasks[0]);
      DrainIsSweep(s1, tasks[1..]);
      SweepStep(s, tasks);
    }
  }

  /** For one path, the first task and then the rest are the whole batch. */
  lemma HitStep(s: SnekState, tasks: seq<Pending>, index: PathIndex)
    requires IndicesDiffer(s) && tasks != []
    ensures var s1 := AfterTask(s, tasks[0]);
            && ((index in s.paths && !Hit(s, tasks, index)) <==> (index in s1.paths && !Hit(s1, tasks[1..], index)))
            && (index in s1.paths ==> index in s.paths && s1.paths[index] == s.paths[index])
  {
  }

  lemma CachedStep(s: SnekState, tasks: seq<Pending>)
    requires IndicesDiffer(s) && tasks != []
    ensures var left, right := Swept(AfterTask(s, tasks[0]), tasks[1..]), Swept(s, tasks);
            left.ascending == right.ascending && left.descending == right.descending
              && left.candidate == right.candidate
  {
  }

  lemma TableStep(s: SnekState, tasks: seq<Pending>)
    requires IndicesDiffer(s) && tasks != []
    ensures Swept(AfterTask(s, tasks[0]), tasks[1..]).paths == Swept(s, tasks).paths
  {
    hide AfterTask, Hit, AscendingHit, DescendingHit;
    forall i {
      HitStep(s, tasks, i);
    }
  }

  lemma SweepStep(s: SnekState, tasks: seq<Pending>)
    requires IndicesDiffer(s) && tasks != []
    ensures Swept(AfterTask(s, tasks[0]), tasks[1..]) == Swept(s, tasks)
  {
    hide TornDown, Hit, AscendingHit, DescendingHit;
    TableStep(s, tasks);
    CachedStep(s, tasks);
    assert tasks == [tasks[0]] + tasks[1..];
    TeardownIsRemovalOfPending(s.(pending := s.pending - multiset{tasks[0]}), tasks[0].from, tasks[0].index);
  }

  /** Spawned teardowns are confluent: any two orders of the same tasks leave the same table and cached paths. */
  lemma TeardownsAreConfluent(s: SnekState, one: seq<Pending>, other: seq<Pending>)
    requires IndicesDiffer(s) && multiset(one) == multiset(other)
    ensures Drained(s, one) == Drained(s, other)
  {
    hide Swept, Drained;
    DrainIsSweep(s, one);
    DrainIsSweep(s, other);
    SweepIgnoresOrder(s, one, other);
  }

  lemma SweepIgnoresOrder(s: SnekState, one: seq<Pending>, other: seq<Pending>)
    requires multiset(one) == multiset(other)
    ensures Swept(s, one) == Swept(s, other)
  {
    forall p: Port, i: PathIndex ensures Ordered(one, p, i) == Ordered(other, p, i) {
      assert Pending(p, i) in multiset(one) <==> Pending(p, i) in multiset(other);
    }
    hide Ordered;
    assert Swept(s, one).paths == Swept(s, other).paths;
  }

  /** In a reachable state the indices differ, by key order. */
  lemma ReachableIndicesDiffer(scheme: Scheme, m: Machine)
    requires Inv(scheme, m)
    ensures IndicesDiffer(m.router.snek)
  {
  }

  /** Were the indices equal, order would matter. */
  lemma EqualIndicesAreNotConfluent()
    ensures exists s: SnekState, one, other ::
      !IndicesDiffer(s) && multiset(one) == multiset(other) && Drained(s, one) != Drained(s, other)
  {
    var i := PathIndex(1, 1);
    var asc := Path(i, 2, 2, 0, 7, 0, Root(2, 0), true);
    var desc := Path(i, 1, 1, 8, 0, 0, Root(2, 0), true);
    var s := SnekState(Some(asc), Some(desc), map[], None, multiset{});
    var a, b := Pending(0, i), Pending(7, i);
    assert Drained(s, [a, b]).descending == Some(desc) by {
      var s1 := AfterTask(s, a);
      assert Drained(s, [a, b]) == Drained(s1, [b]) == Drained(AfterTask(s1, b), []);
    }
    assert Drained(s, [b, a]).descending == None by {
      var s1 := AfterTask(s, b);
      assert Drained(s, [b, a]) == Drained(s1, [a]) == Drained(AfterTask(s1, a), []);
    }
    assert multiset([a, b]) == multiset([b, a]);
  }

  // ---- Maintenance ----

  /** No cached path is expired, and every entry has been activated or may still be in time. */
  ghost predicate NothingStale(s: SnekState, now: Time) {
    && (s.ascending.Some? ==> Valid(s.ascending.value, now))
    && (s.descending.Some? ==> Valid(s.descending.value, now))
    && (forall i :: i in s.paths ==> s.paths[i].active || now - s.paths[i].lastSeen <= SETUP_TIMEOUT)
  }

  lemma SweepClearsStale(s: SnekState, now: Time, tasks: seq<Pending>)
    requires forall t :: t in Stale(s, now) ==> t in tasks
    ensures NothingStale(Swept(s, tasks), now)
  {
  }

  /** After a maintenance run and the teardowns it spawned, in whatever order, nothing is stale. */
  lemma MaintenanceClearsStalePaths(scheme: Scheme, before: Machine, now: Time, after: Machine, tasks: seq<Pending>)
    requires Inv(scheme, before) && TakesStep(scheme, before, Step(now, SnekMaintained), after)
    requires multiset(tasks) == after.router.snek.pending
    ensures NothingStale(Drained(after.router.snek, tasks), now)
  {
    hide Inv, NothingStale, Valid, Drained, Swept, Expired, Unconfirmed, TornDown;
    var s := after.router.snek;
    assert s == Spawned(before.router.snek, Stale(before.router.snek, now));
    StaleIgnoresPending(before.router.snek, s, now);
    forall t | t in Stale(s, now) ensures t in tasks { assert t in multiset(tasks); }
    SweepClearsStale(s, now, tasks);
    ReachableIndicesDiffer(scheme, before);
    DrainIsSweep(s, tasks);
  }

  lemma StaleIgnoresPending(s: SnekState, s': SnekState, now: Time)
    requires s' == s.(pending := s'.pending)
    ensures Stale(s, now) == Stale(s', now)
  {
  }

  // ---- The descending path ----

  /** The cached descending path is what the table holds. */
  ghost predicate DescendingInTable(s: SnekState) {
    s.descending.Some? ==>
      var d := s.descending.value;
      d.index in s.paths && s.paths[d.index] == d
  }

  /** The step tears the descending path down from its source side: a teardown frame from there, or the one a lost
      source left. Both are compared with the cached path's destination, which is home. */
  predicate TearsFromSource(s: SnekState, e: Event) {
    && s.descending.Some? && s.descending.value.source != 0
    && match e
       case TeardownArrived(from, teardown) =>
         from == s.descending.value.source
           && PathIndex(teardown.destinationKey, teardown.pathId) == s.descending.value.index
       case TaskRan(task) => task == Pending(s.descending.value.source, s.descending.value.index)
       case _ => false
  }

  lemma TeardownDanglesExactly(key: PublicKey, s: SnekState, from: Port, index: PathIndex)
    requires AscendingInTable(key, s) && KeyOrder(key, s) && DescendingInTable(s)
    ensures DescendingInTable(TornDown(s, from, index).0)
       <==> !(s.descending.Some? && s.descending.value.index == index && from == s.descending.value.source && from != 0)
  {
  }

  lemma LostPortKeepsDescending(key: PublicKey, s: SnekState, now: Time, port: Port)
    requires TableInv(key, s, now) && DescendingInTable(s)
    ensures DescendingInTable(LostPort(s, port).0)
  {
    hide TableInv, TornDown, DescendingInTable, Through;
    var s1 := Spawned(s, multiset(Through(s, port)));
    assert DescendingInTable(s1) by { SpawnKeepsDescending(s, multiset(Through(s, port))); }
    SpawnKeepsTable(key, s, now, multiset(Through(s, port)));
    var s2 := s1;
    if s.ascending.Some? && s.ascending.value.destination == port {
      TableParts(key, s1, now);
      TeardownDanglesExactly(key, s1, 0, s.ascending.value.index);
      TeardownKeepsTable(key, s1, now, 0, s.ascending.value.index);
      s2 := TornDown(s1, 0, s.ascending.value.index).0;
    }
    if s2.descending.Some? {
      TableParts(key, s2, now);
      TeardownDanglesExactly(key, s2, 0, s2.descending.value.index);
    }
  }

  lemma SpawnKeepsDescending(s: SnekState, tasks: multiset<Pending>)
    ensures DescendingInTable(Spawned(s, tasks)) <==> DescendingInTable(s)
  {
  }

  /** While the cached descending path is what the table holds, a step keeps it so if and only if it does not tear that
      path down from its source side. */
  lemma DescendingDanglesExactly(scheme: Scheme, before: Machine, step: Step, after: Machine)
    requires Inv(scheme, before) && TakesStep(scheme, before, step, after)
    requires DescendingInTable(before.router.snek)
    ensures DescendingInTable(after.router.snek) <==> !TearsFromSource(before.router.snek, step.event)
  {
    hide StoreInv, NoDanglingPorts, TornDown, LostPort, Valid, AcceptsSetup, AcceptsAck, OnAnnouncement, IsTreeHop,
      IsSelection,
      SentVia, SentTo, Rejection, Stale, CandidateCloser, SeenByNow, Replaced;
    var s, key := before.router.snek, before.router.tree.key;
    match step.event
    case TeardownArrived(from, teardown) =>
      TeardownDanglesExactly(key, s, from, PathIndex(teardown.destinationKey, teardown.pathId));
    case TaskRan(task) => TeardownDanglesExactly(key, s.(pending := s.pending - multiset{task}), task.from, task.index);
    case PeerLost(peer, port, best) => if port.Some? { LostPortKeepsDescending(key, s, before.clock, port.value); }
    case _ =>
  }

  // ---- A source that has lost its peer ----

  /** Keyspace routing does panic. A peer sets up a path to a new router and is lost; before the spawned teardown
      runs, traffic for the path's origin panics, whatever order the table is visited in. */
  lemma LostSourcePanics(scheme: Scheme, key: PublicKey, peer: PublicKey, low: PublicKey, port: Port, id: PathId)
    returns (trace: seq<Machine>, steps: seq<Step>)
    requires low < key && peer != key && port != 0
    ensures IsRun(scheme, key, trace, steps) && FreshRun(trace, steps) && GuardedRun(key, steps)
    ensures var m := trace[|steps|];
            && SourceLost(m.router, m.clock, false, PathIndex(low, id))
            && IsAnnouncedBest(m.router, low, false, key)
            && forall order :: IsVisit(m.router, order) ==> TableScan(m.router, m.clock, low, false, order, key).None?
  {
    hide IsSelection, OnSetup, OnDisconnect, TableScan;
    var r0 := Initial(key);
    var r1 := r0.(tree := r0.tree.(ports := map[port := None]));
    var r2 := r0.(tree := r0.tree.(ports := map[port := Some(peer)]));
    var r3, r4 := r2.(snek := Ended(key, low, port, id)), LostEnd(key, low, port, id);
    var m0, m1, m2, m3, m4 := Machine(r0, 0), Machine(r1, 0), Machine(r2, 0), Machine(r3, 0), Machine(r4, 0);
    EndIsLost(key, peer, low, port, id);
    trace := [m0, m1, m2, m3, m4];
    steps := [Step(0, PortReserved(port)), Step(0, PeerAdded(port, peer)),
              Step(0, SetupArrived(port, Setup(Root(key, 0), [], key, low, id), key, 0)),
                Step(0, PeerLost(peer, Some(port), None))];
    assert TakesStep(scheme, m0, steps[0], m1) && TakesStep(scheme, m1, steps[1], m2);
    assert r2.tree.ports[port] == Some(peer);
    assert TakesStep(scheme, m2, steps[2], m3) && TakesStep(scheme, m3, steps[3], m4);
    forall order | IsVisit(r4, order) ensures TableScan(r4, 0, low, false, order, key).None? {
      OnlyVisit(r4, order, PathIndex(low, id));
      ScanGrows(r4, 0, low, false, [], PathIndex(low, id), key);
      assert [] + [PathIndex(low, id)] == order;
      assert TableScan(r4, 0, low, false, [], key) == Some(key) by { NothingScanned(r4, low, key); }
    }
  }

  lemma NothingScanned(r: RouterState, dest: PublicKey, best: PublicKey)
    ensures TableScan(r, 0, dest, false, [], best) == Some(best)
  {
  }

  /** The table of a new router where a path from low has ended. */
  function Ended(key: PublicKey, low: PublicKey, port: Port, id: PathId): SnekState {
    var path := EndEntry(Setup(Root(key, 0), [], key, low, id), port, 0);
    SnekState(None, Some(path), map[path.index := path], None, multiset{})
  }

  /** That router once the path's source has lost its peer. */
  function LostEnd(key: PublicKey, low: PublicKey, port: Port, id: PathId): RouterState {
    Initial(key).(snek := Ended(key, low, port, id).(pending := multiset{Pending(port, PathIndex(low, id))}))
  }

  lemma EndIsLost(key: PublicKey, peer: PublicKey, low: PublicKey, port: Port, id: PathId)
    requires low < key && peer != key && port != 0
    ensures var r := Initial(key).(tree := Initial(key).tree.(ports := map[port := Some(peer)]));
            && OnSetup(r, port, Setup(Root(key, 0), [], key, low, id), 0, 0).state
              == r.(snek := Ended(key, low, port, id))
            && OnDisconnect(r.(snek := Ended(key, low, port, id)), peer, Some(port), None)
              == LostEnd(key, low, port, id)
    ensures var r := LostEnd(key, low, port, id);
            SourceLost(r, 0, false, PathIndex(low, id)) && IsAnnouncedBest(r, low, false, key)
  {
    assert Through(Ended(key, low, port, id), port) == {Pending(port, PathIndex(low, id))};
  }

  lemma OnlyVisit(r: RouterState, order: seq<PathIndex>, index: PathIndex)
    requires IsVisit(r, order) && r.snek.paths.Keys == {index}
    ensures order == [index]
  {
    assert forall i :: 0 <= i < |order| ==> order[i] in order;
    assert index in order;
    assert order[0] == index == order[|order| - 1];
  }

  /** A router on the way of a path that has not been confirmed, between the root on port 7 and a peer on port 8. */
  ghost function Between(scheme: Scheme, own: PublicKey, top: SigningKey, peer: PublicKey, low: PublicKey,
    id: PathId): RouterState {
    var t := Joined(scheme, own, top);
    var path := MiddleEntry(Setup(Root(t.parent, 0), [8], t.parent, low, id), 8, 7, 0);
    RouterState(
      t.(ports := map[7 := Some(t.parent), 8 := Some(peer)]),
      SnekState(None, None, map[path.index := path], None, multiset{}))
  }

  /** The setup that makes it so comes from the peer and goes on to the root. */
  lemma BetweenHop(scheme: Scheme, own: PublicKey, top: SigningKey, peer: PublicKey, low: PublicKey, id: PathId)
    requires own < scheme.publicKeyOf(top) && peer != own && peer != scheme.publicKeyOf(top)
    ensures var t, r := Joined(scheme, own, top), Between(scheme, own, top, peer, low, id);
            && SendsFrom(r.tree, 8) && IsTreeHop(r.tree, [8], peer, Some(t.parent)) && IsPortOf(r.tree, t.parent, 7)
            && SendsFrom(t, 7) && t.key == own && t.parent == scheme.publicKeyOf(top)
              && t.ports == map[7 := Some(t.parent)]
            && r.tree == t.(ports := map[7 := Some(t.parent), 8 := Some(peer)])
  {
    hide IsTreeHop, Closer, OwnCoords, Appended;
    var t, r := Joined(scheme, own, top), Between(scheme, own, top, peer, low, id);
    assert r.tree.ports[8] == Some(peer) && r.tree.ports[7] == Some(t.parent) && t.ports[7] == Some(t.parent);
    RootIsCloser(scheme, own, top, r.tree, [8], peer);
    OnlyAnnouncerIsHop(r.tree, [8], peer, t.parent);
  }

  lemma BetweenSetup(scheme: Scheme, own: PublicKey, top: SigningKey, peer: PublicKey, low: PublicKey, id: PathId)
    requires own < scheme.publicKeyOf(top) && peer != own && peer != scheme.publicKeyOf(top)
    ensures var t, r := Joined(scheme, own, top), Between(scheme, own, top, peer, low, id);
            OnSetup(Initial(own).(tree := r.tree), 8, Setup(Root(t.parent, 0), [8], t.parent, low, id), 7, 0).state == r
  {
    hide SentVia, OnSetupAtEnd, Appended;
  }

  /** Losing the peer leaves the path's source without one, and its confirmation will panic. */
  lemma BetweenIsLost(scheme: Scheme, own: PublicKey, top: SigningKey, peer: PublicKey, low: PublicKey, id: PathId)
    requires own < scheme.publicKeyOf(top) && peer != own && peer != scheme.publicKeyOf(top)
    ensures var t, r := Joined(scheme, own, top), Between(scheme, own, top, peer, low, id);
            var lost := RouterState(t, r.snek.(pending := multiset{Pending(8, PathIndex(low, id))}));
            && OnDisconnect(r, peer, Some(8), None) == lost
            && AckPanics(lost, 7, SetupAck(Root(t.parent, 0), low, id))
  {
    hide Appended;
    var t, r := Joined(scheme, own, top), Between(scheme, own, top, peer, low, id);
    assert Through(r.snek, 8) == {Pending(8, PathIndex(low, id))};
    assert map[7 := Some(t.parent), 8 := Some(peer)] - {8} == t.ports;
  }

  /** Confirming such a path panics in the same way. */
  lemma LostSourcePanicsAck(scheme: Scheme, own: PublicKey, top: SigningKey, peer: PublicKey, low: PublicKey,
    id: PathId)
    returns (trace: seq<Machine>, steps: seq<Step>, ack: SetupAck)
    requires Sound(scheme) && own < scheme.publicKeyOf(top) && peer != own && peer != scheme.publicKeyOf(top)
    ensures IsRun(scheme, own, trace, steps) && FreshRun(trace, steps) && GuardedRun(own, steps)
    ensures SendsFrom(trace[|steps|].router.tree, 7) && AckPanics(trace[|steps|].router, 7, ack)
  {
    hide FreshRun, GuardedRun, IsTreeHop, IsSelection, AckPanics, OnSetup, OnDisconnect, Joined, Between, SendsFrom;
    trace, steps := JoiningTheRoot(scheme, own, top);
    BetweenHop(scheme, own, top, peer, low, id);
    BetweenSetup(scheme, own, top, peer, low, id);
    BetweenIsLost(scheme, own, top, peer, low, id);
    var m0, t, r3 := trace[|steps|], Joined(scheme, own, top), Between(scheme, own, top, peer, low, id);
    var r1 := m0.router.(tree := t.(ports := map[7 := Some(t.parent), 8 := None]));
    var m1, m2 := Machine(r1, 0), Machine(m0.router.(tree := r3.tree), 0);
    var m3, m4 := Machine(r3, 0), Machine(OnDisconnect(r3, peer, Some(8), None), 0);
    var e3 := SetupArrived(8, Setup(Root(t.parent, 0), [8], t.parent, low, id), t.parent, 7);
    ack := SetupAck(Root(t.parent, 0), low, id);
    assert TakesStep(scheme, m0, Step(0, PortReserved(8)), m1)
      && TakesStep(scheme, m1, Step(0, PeerAdded(8, peer)), m2);
    assert TakesStep(scheme, m2, Step(0, e3), m3) && TakesStep(scheme, m3, Step(0, PeerLost(peer, Some(8), None)), m4);
    hide TakesStep;
    StepIsRun(scheme, m0, Step(0, PortReserved(8)), m1);
    StepIsRun(scheme, m1, Step(0, PeerAdded(8, peer)), m2);
    StepIsRun(scheme, m2, Step(0, e3), m3);
    StepIsRun(scheme, m3, Step(0, PeerLost(peer, Some(8), None)), m4);
    trace, steps := RunGoesOn(scheme, trace, steps, Step(0, PortReserved(8)), m1);
    trace, steps := RunGoesOn(scheme, trace, steps, Step(0, PeerAdded(8, peer)), m2);
    trace, steps := RunGoesOn(scheme, trace, steps, Step(0, e3), m3);
    trace, steps := RunGoesOn(scheme, trace, steps, Step(0, PeerLost(peer, Some(8), None)), m4);
  }

  /** One more step. */
  lemma RunGoesOn(scheme: Scheme, trace: seq<Machine>, steps: seq<Step>, step: Step, after: Machine)
    returns (trace': seq<Machine>, steps': seq<Step>)
    requires |trace| == |steps| + 1 && RunFrom(scheme, trace[0], trace, steps) && FreshRun(trace, steps)
    requires RunFrom(scheme, trace[|steps|], [trace[|steps|], after], [step])
    requires FreshRun([trace[|steps|], after], [step])
    ensures trace' == trace + [after] && steps' == steps + [step]
    ensures RunFrom(scheme, trace[0], trace', steps') && FreshRun(trace', steps')
    ensures forall key :: GuardedRun(key, steps) && GuardedRun(key, [step]) ==> GuardedRun(key, steps')
  {
    hide TakesStep, Fresh, Guarded;
    RunsJoin(scheme, trace[0], trace, steps, [trace[|steps|], after], [step]);
    trace', steps' := trace + [after], steps + [step];
    assert [trace[|steps|], after][1..] == [after];
  }
}

/** What each snek frame does to a router (src/router.rs:296-354, 832-902 and 1100-1522), as functions on its state.
    A choice the program leaves to hash-map order or to another routine is a parameter. */
module SnekProtocol {
  import opened Types
  import opened Coordinates
  import opened Announcements
  import opened Frames
  import opened Tree
  import opened Snek

  const SETUP_TIMEOUT: Time := 5 * 1000

  /** A frame handed to the connection of a peer. */
  datatype Envelope = Envelope(to: PublicKey, frame: Frame)

  datatype Effect = Effect(state: RouterState, sent: seq<Envelope>)

  // ---- Teardowns ----

  /** `teardown_path`: the table afterwards and the ports the teardown would go on to. */
  function TornDown(s: SnekState, from: Port, index: PathIndex): (SnekState, seq<Port>) {
    if s.ascending.Some? && s.ascending.value.index == index
      && (from == s.ascending.value.destination || from == 0) then
      (s.(paths := s.paths - {index}, ascending := None), [s.ascending.value.destination])
    else if s.descending.Some? && s.descending.value.index == index
      && (from == s.descending.value.destination || from == 0) then
      (s.(paths := s.paths - {index}, descending := None), [s.descending.value.destination])
    else if index in s.paths then
      var entry := s.paths[index];
      if from == 0 then (s.(paths := s.paths - {index}), [entry.destination, entry.source])
      else if from == entry.source then (s.(paths := s.paths - {index}), [entry.destination])
      else if from == entry.destination then (s.(paths := s.paths - {index}), [entry.source])
      else (s, [])
    else (s, [])
  }

  function TeardownFrame(t: TreeState, index: PathIndex): Frame {
    SnekTeardown(Teardown(CurrentRoot(t), index.publicKey, index.pathId))
  }

  /** A frame for the peer on a port. Protocol frames to ourselves are dropped. */
  function SentTo(t: TreeState, peer: PublicKey, frame: Frame): seq<Envelope> {
    if peer == t.key then [] else [Envelope(peer, frame)]
  }

  function SentVia(t: TreeState, port: Port, frame: Frame): seq<Envelope> {
    match PeerOnPort(t, port)
    case None => []
    case Some(peer) => SentTo(t, peer, frame)
  }

  /** Sending one frame to several ports in turn; it stops at the first port without a peer. */
  function SentViaAll(t: TreeState, ports: seq<Port>, frame: Frame): seq<Envelope> {
    if ports == [] || PeerOnPort(t, ports[0]).None? then []
    else SentVia(t, ports[0], frame) + SentViaAll(t, ports[1..], frame)
  }

  /** Some of the ports has lost its peer, which sending to it unwraps. */
  predicate SomePeerGone(t: TreeState, ports: seq<Port>) {
    exists i :: 0 <= i < |ports| && PeerOnPort(t, ports[i]).None?
  }

  function WithSnek(r: RouterState, s: SnekState): RouterState {
    r.(snek := s)
  }

  function Spawned(s: SnekState, tasks: multiset<Pending>): SnekState {
    s.(pending := s.pending + tasks)
  }

  /** `handle_teardown`; the ports it returns are discarded, so nothing is sent. */
  function OnTeardown(r: RouterState, from: Port, rx: Teardown): RouterState {
    WithSnek(r, TornDown(r.snek, from, PathIndex(rx.destinationKey, rx.pathId)).0)
  }

  /** One spawned teardown task running. */
  function RunPending(r: RouterState, task: Pending): Effect {
    var waiting := r.snek.(pending := r.snek.pending - multiset{task});
    var (s, next) := TornDown(waiting, task.from, task.index);
    Effect(WithSnek(r, s), SentViaAll(r.tree, next, TeardownFrame(r.tree, task.index)))
  }

  /** Whether a spawned teardown comes upon a port that has lost its peer. */
  ghost predicate TaskPanics(r: RouterState, task: Pending) {
    SomePeerGone(r.tree, TornDown(r.snek, task.from, task.index).1)
  }

  // ---- Bootstrap acknowledgements ----

  /** Whether the sender of a bootstrap ACK becomes our candidate. */
  predicate AcceptsAck(r: RouterState, ack: BootstrapAck, now: Time) {
    var own := r.tree.key;
    if ack.sourceKey == own || ack.root != CurrentRoot(r.tree) then false
    else match r.snek.ascending
      case Some(asc) =>
        if Valid(asc, now) then
          (asc.origin == ack.sourceKey && ack.pathId != asc.index.pathId) || DhtOrdered(own, ack.sourceKey, asc.origin)
        else own < ack.sourceKey
      case None => own < ack.sourceKey
  }

  function SetupFor(r: RouterState, ack: BootstrapAck): Setup {
    Setup(CurrentRoot(r.tree), ack.sourceCoords, ack.sourceKey, r.tree.key, ack.pathId)
  }

  /** The entries `handle_bootstrap_ack` sends to be torn down. */
  function Replaced(s: SnekState, sourceKey: PublicKey): set<Pending> {
    set index | index in s.paths && s.paths[index].source == 0 && index.publicKey != sourceKey :: Pending(0, index)
  }

  function OwnEntry(r: RouterState, ack: BootstrapAck, port: Port, now: Time): Path {
    Path(PathIndex(r.tree.key, ack.pathId), ack.sourceKey, ack.sourceKey, 0, port, now, ack.root, false)
  }

  /** `handle_bootstrap_ack`, given the tree hop for the setup and the port to it. */
  function OnBootstrapAck(r: RouterState, ack: BootstrapAck, now: Time, hop: Option<PublicKey>, port: Port): (e: Effect)
    ensures e.state.tree == r.tree
  {
    if !AcceptsAck(r, ack, now) || hop.None? || hop.value == r.tree.key then Effect(r, [])
    else
      var entry := OwnEntry(r, ack, port, now);
      var s := Spawned(r.snek, multiset(Replaced(r.snek, ack.sourceKey)));
      Effect(
        WithSnek(r, s.(paths := s.paths[entry.index := entry], candidate := Some(entry.(active := true)))),
        SentTo(r.tree, hop.value, SnekSetup(SetupFor(r, ack))))
  }

  // ---- Setups ----

  /** Whether a setup that has reached its destination becomes our descending path. */
  predicate AcceptsSetup(r: RouterState, rx: Setup, now: Time) {
    var own := r.tree.key;
    if CurrentRoot(r.tree) != rx.root || rx.sourceKey >= own then false
    else match r.snek.descending
      case Some(desc) =>
        !Valid(desc, now)
        || (desc.index.publicKey == rx.sourceKey && rx.pathId != desc.index.pathId)
        || DhtOrdered(desc.index.publicKey, rx.sourceKey, own)
      case None => true
  }

  function EndEntry(rx: Setup, from: Port, now: Time): Path {
    Path(PathIndex(rx.sourceKey, rx.pathId), rx.sourceKey, rx.destinationKey, from, 0, now, rx.root, true)
  }

  function MiddleEntry(rx: Setup, from: Port, next: Port, now: Time): Path {
    Path(PathIndex(rx.sourceKey, rx.pathId), rx.sourceKey, rx.destinationKey, from, next, now, rx.root, false)
  }

  /** The teardown that answers a setup we do not take. */
  function Rejection(r: RouterState, from: Port, rx: Setup): seq<Envelope> {
    SentVia(r.tree, from, TeardownFrame(r.tree, PathIndex(rx.sourceKey, rx.pathId)))
  }

  /** A setup that has reached its destination. */
  function OnSetupAtEnd(r: RouterState, from: Port, rx: Setup, now: Time): (e: Effect)
    ensures e.state.tree == r.tree
  {
    if !AcceptsSetup(r, rx, now) then Effect(r, Rejection(r, from, rx))
    else
      var entry, s := EndEntry(rx, from, now), r.snek;
      var s' := if s.descending.Some? then Spawned(s, multiset{Pending(0, s.descending.value.index)}) else s;
      Effect(
        WithSnek(r, s'.(paths := s'.paths[entry.index := entry], descending := Some(entry))),
        SentVia(r.tree, from, SnekSetupAck(SetupAck(rx.root, rx.sourceKey, rx.pathId))))
  }

  /** `handle_setup`, given the port the setup came from and the port it goes on to. A root that differs is
      answered with a teardown but the setup is processed all the same. */
  function OnSetup(r: RouterState, from: Port, rx: Setup, next: Port, now: Time): (e: Effect)
    ensures e.state.tree == r.tree
  {
    var index := PathIndex(rx.sourceKey, rx.pathId);
    var first := if CurrentRoot(r.tree) != rx.root then Rejection(r, from, rx) else [];
    var handled :=
      if index in r.snek.paths then
        Effect(WithSnek(r, Spawned(r.snek, multiset{Pending(0, index)})), Rejection(r, from, rx))
      else if rx.destinationKey == r.tree.key then OnSetupAtEnd(r, from, rx, now)
      else if PeerOnPort(r.tree, next) == Some(r.tree.key) then Effect(r, Rejection(r, from, rx))
      else
        Effect(
          WithSnek(r, r.snek.(paths := r.snek.paths[index := MiddleEntry(rx, from, next, now)])),
          SentVia(r.tree, next, SnekSetup(rx)));
    Effect(handled.state, first + handled.sent)
  }

  // ---- Setup acknowledgements ----

  /** The entry a setup ACK from a port activates. */
  predicate Activates(r: RouterState, from: Port, rx: SetupAck) {
    var index := PathIndex(rx.destinationKey, rx.pathId);
    && index in r.snek.paths && !r.snek.paths[index].active
    && (from == r.snek.paths[index].destination || from == 0)
  }

  /** The entry becomes active, and the ascending path if it is the candidate's. */
  function Activated(s: SnekState, index: PathIndex): SnekState
    requires index in s.paths
  {
    var entry := s.paths[index].(active := true);
    var s' := s.(paths := s.paths[index := entry]);
    if s.candidate == Some(entry) then s'.(ascending := Some(entry), candidate := None) else s'
  }

  /** Forwarding the ACK to a port that has lost its peer panics, before anything is activated. */
  predicate AckPanics(r: RouterState, from: Port, rx: SetupAck) {
    && Activates(r, from, rx)
    && var source := r.snek.paths[PathIndex(rx.destinationKey, rx.pathId)].source;
       source != 0 && PeerOnPort(r.tree, source).None?
  }

  /** `handle_setup_ack`. */
  function OnSetupAck(r: RouterState, from: Port, rx: SetupAck): (e: Effect)
    ensures e.state.tree == r.tree
  {
    var s, index := r.snek, PathIndex(rx.destinationKey, rx.pathId);
    if !Activates(r, from, rx) || AckPanics(r, from, rx) then Effect(r, [])
    else
      var source := s.paths[index].source;
      Effect(WithSnek(r, Activated(s, index)), if source != 0 then SentVia(r.tree, source, SnekSetupAck(rx)) else [])
  }

  // ---- Bootstrapping ----

  function BootstrapFrame(t: TreeState, pathId: PathId): Frame {
    SnekBootstrap(Bootstrap(CurrentRoot(t), t.key, OwnCoords(t), pathId))
  }

  /** What `bootstrap_now` checks: we are not root and have no path set up under the current root, expired or not. */
  predicate MayBootstrap(r: RouterState) {
    r.tree.parent != r.tree.key && (r.snek.ascending.Some? ==> r.snek.ascending.value.root != CurrentRoot(r.tree))
  }

  /** What `bootstrap_now` sends, given a path id and the hop found: our bootstrap, towards the root. */
  ghost predicate IsBootstrap(r: RouterState, now: Time, pathId: PathId, panicked: bool, hop: Option<PublicKey>,
      out: seq<Envelope>) {
    if !MayBootstrap(r) then !panicked && out == []
    else if panicked then out == [] && MayPanic(r, now, r.tree.key, true)
    else
      && hop.Some? && (exists key: PublicKey :: IsSnekHop(r, now, r.tree.key, true, false, key, hop))
      && out == SentTo(r.tree, hop.value, BootstrapFrame(r.tree, pathId))
  }

  /** The ACK that answers a bootstrap: to the coordinates the bootstrap carries, with ours and our root. */
  function AnswerTo(t: TreeState, b: Bootstrap): BootstrapAck {
    BootstrapAck(b.source, b.destinationKey, OwnCoords(t), t.key, CurrentRoot(t), b.pathId)
  }

  /** What `handle_bootstrap` sends, given the tree hop found: the answer if the bootstrap is under our root. */
  ghost predicate IsAnswer(t: TreeState, b: Bootstrap, hop: Option<PublicKey>, out: seq<Envelope>) {
    if CurrentRoot(t) != b.root then out == []
    else
      && IsTreeHop(t, b.source, t.key, hop)
      && out == if hop.Some? then SentTo(t, hop.value, SnekBootstrapAck(AnswerTo(t, b))) else []
  }

  /** What `maintain_snek` decides: to bootstrap if we can and have no unexpired path set up under the current root. */
  predicate WantsBootstrap(r: RouterState, now: Time) {
    && r.tree.parent != r.tree.key && CurrentRoot(r.tree).publicKey != r.tree.key
    && (r.snek.ascending.Some?
      ==> !Valid(r.snek.ascending.value, now) || r.snek.ascending.value.root != CurrentRoot(r.tree))
  }

  // ---- Maintenance and disconnection ----

  function Unconfirmed(s: SnekState, now: Time): set<Pending> {
    set index | index in s.paths && !s.paths[index].active && now - s.paths[index].lastSeen > SETUP_TIMEOUT ::
      Pending(0, index)
  }

  function Expired(cached: Option<Path>, now: Time): multiset<Pending> {
    if cached.Some? && !Valid(cached.value, now) then multiset{Pending(0, cached.value.index)} else multiset{}
  }

  /** The teardowns `maintain_snek` spawns: expired cached paths, and entries no ACK has activated in time. */
  function Stale(s: SnekState, now: Time): multiset<Pending> {
    Expired(s.ascending, now) + Expired(s.descending, now) + multiset(Unconfirmed(s, now))
  }

  function OnMaintain(r: RouterState, now: Time): RouterState {
    WithSnek(r, Spawned(r.snek, Stale(r.snek, now)))
  }

  /** The paths through a port. */
  function Through(s: SnekState, port: Port): set<Pending> {
    set index | index in s.paths && (s.paths[index].destination == port || s.paths[index].source == port) ::
      Pending(port, index)
  }

  /** The table half of `disconnect_peer`, and whether the ascending path was lost. */
  function LostPort(s: SnekState, port: Port): (SnekState, bool) {
    var s1 := Spawned(s, multiset(Through(s, port)));
    var lost := s.ascending.Some? && s.ascending.value.destination == port;
    var s2 := if lost then TornDown(s1, 0, s.ascending.value.index).0 else s1;
    var s3 :=
      if s2.descending.Some? && s2.descending.value.destination == port
        then TornDown(s2, 0, s2.descending.value.index).0 else s2;
    (s3, lost)
  }

  /** The tree state a disconnection leaves before any parent selection. */
  function Severed(t: TreeState, peer: PublicKey, port: Option<Port>): TreeState {
    var t' := t.(announcements := t.announcements - {peer});
    if port.Some? then t'.(ports := t'.ports - {port.value}) else t'
  }

  /** Whether `disconnect_peer` runs parent selection: the parent left, and the ascending path was not lost, which
      the program's `||` short-circuits on. */
  predicate Reselects(r: RouterState, peer: PublicKey, port: Option<Port>) {
    r.tree.parent == peer && !(port.Some? && LostPort(r.snek, port.value).1)
  }

  /** `disconnect_peer`, given the peer's port, if any, and the parent a parent selection finds. */
  function OnDisconnect(r: RouterState, peer: PublicKey, port: Option<Port>, best: Option<PublicKey>): RouterState {
    var t := Severed(r.tree, peer, port);
    RouterState(
      if Reselects(r, peer, port) then Selected(t, best) else t,
      if port.Some? then LostPort(r.snek, port.value).0 else r.snek)
  }
}

# Pinecone router: a verified model

Pinecone is an overlay network. Every router joins a spanning tree rooted at the node with the greatest key and,
beside it, a "snake" that links each node to the next higher key. This project models the router of `rust_pinecone` in
Dafny and proves what its protocols promise: that a frame sent by tree coordinates arrives, that a path set-up
installs one unbroken path, that set-ups in any order complete the snake, that keyspace routing does not drift away
from its destination and then arrives there, and bootstraps at the next higher key, that a router's cached ascending
path never disagrees with its table, and that frames survive the wire.

## How it is organised

| file | content |
|---|---|
| `Types`, `Bytes` | fixed widths, keys, big-endian numbers |
| `Coordinates`, `Announcements`, `Frames`, `Chains` | coordinates and their distance, announcements and their signature chain, frames, and what the chain commits to |
| `Wire`, `WireProofs`, `WireLayout`, `Codec` | the wire format on byte sequences, its round trips, every field's byte offset, and the codec that works on a buffer in place |
| `Tree`, `TreeProtocol` | the tree state, greedy hops, parent selection, handling announcements |
| `Snek`, `SnekProtocol` | the path table, keyspace hops, and what each snake frame does to a router, as functions on its state |
| `Router` | the `Router` object, whose methods update its fields; each is proved against those functions and to be a step of the machine, which keeps its invariants |
| `Machine`, `Runs` | the router as a state machine over its steps, its invariants, and what they mean over whole runs |
| `Effects` | what the handlers do, said of entries, ports, peers and times: whom a teardown tells, what maintenance and a lost peer remove, which frames are taken and how they are answered |
| `Network`, `PathSetup`, `Keyspace`, `Delivery`, `Growth`, `Bootstraps` | whole networks: greedy delivery, path set-up, keyspace journeys, where they end, how set-ups lead there, and how bootstraps bring the set-ups about |

A handler is one atomic step. Maps are visited in any order: loops pick keys freely, and contracts hold for every
choice. The clock is a parameter that never goes back. Teardowns the program leaves to spawned tasks are a multiset
`pending`, and running one is a step of its own. Ed25519 is an abstract `Scheme` of which only one thing is assumed,
that honest signatures verify (section 5.1.7 of RFC 8032); what `Chains` says of tampering also supposes that the
signature kept fits one message only. Keys are read as the 256-bit numbers their bytes spell;
`Bytes.KeyOrderIsByteOrder` proves that this keeps their order.

Protocol frames are taken to come from peers: from the local channel only `SnekRouted` frames can be built outside the
crate, and they change no state. Arithmetic that overflows or underflows, reads past a buffer's end and unwraps of
`None` panic, as in a build with overflow checks.

## Where the code does not do what it says

The model follows the code. Each of these is a lemma, with the exact condition where there is one.

- An announcement from the parent is filed before it is compared with the current announcement, so it is compared with
  itself; the branches that would forward it are never taken (`TreeProtocol.ParentUpdateIsNeverForwarded`).
- `connect` takes a peer's key from its first announcement without asking whether it is our own. Frames from such a
  peer seem to come from home, on port 0. What survives all the same, if no ACK reuses the ascending path's id, is
  `Machine.Inv`: the ascending path is in the table, key order holds, no port dangles, every stored announcement was
  accepted. What does not is `Machine.HomeInv`: announcements of our own get filed, and paths that start here need be
  neither ours nor the only one. A router dialled at its own address is enough (`Runs.DiallingItselfBreaksHome`), and
  the missing guard is exactly what is needed (`Runs.OwnKeyGuardIsExact`,
  `TreeProtocol.OwnAnnouncementIsFiledExactly`, `Machine.StepKeepsApartExactly`).
- `is_clean` does not look for a repetition of the last signer. A router can take such an announcement's sender as
  parent, and what it then passes on is refused (`TreeProtocol.RepeatedSignerIsAdoptedAndThenRefused`,
  `TreeProtocol.OutgoingIsCleanExactly`).
- `next_snek_hop` unwraps the peer on a path's source port, which after a disconnection is gone until the spawned
  teardown has run. Some order of the table panics if and only if such a path is better than anything announced
  (`Snek.SomeOrderPanicsExactly`), and a new router gets there (`Runs.LostSourcePanics`). `handle_setup_ack` unwraps
  the same peer (`Router.Router.ReceiveSetupAck`, `Runs.LostSourcePanicsAck`), and so do the spawned teardowns
  (`Router.Router.RunTask`). Every such path has a teardown waiting (`Runs.ReachableStatesAreSound`).
- `maintain_snek` decides to bootstrap when the ascending path has expired, but `bootstrap_now` still finds that path,
  its teardown being left to a task, and sends nothing unless the root has changed
  (`Runs.ExpiredPathHoldsBootstrapBack`, `Runs.WantedBootstrapIsSentExactly`).
- `decode` reads a tree packet's source coordinates with the destination's count (`WireProofs.RoundTripExactly`,
  `WireProofs.UnequalCoordinatesFail`).
- A teardown on the descending path's source port, whether a frame from the network or what `disconnect_peer` spawns
  when that port is lost, removes the entry but leaves the path cached (`Runs.DescendingDanglesExactly`). A received
  teardown is never forwarded (`PathSetup.TeardownStopsAfterOneHop`).
- A teardown of the cached descending path from home goes to the path's destination port, which is home, so the lower
  neighbour is never told, while for every other path the neighbours are (`Effects.DescendingTaskTellsNobody`,
  `Effects.TaskFromHomeTellsNeighbour`).
- `disconnect_peer` joins "the ascending path was lost" and "select a parent" with `||`. A router that loses its parent
  keeps it if and only if its ascending path went through the same port (`Effects.LostParentIsKeptExactly`).
- `handle_setup` answers a setup under another root with a teardown but does not return: the path is installed and the
  setup forwarded all the same (`Effects.MismatchedSetupIsHandledAllTheSame`).
- A bootstrap ACK that reuses the ascending path's id is accepted and breaks the ascending path
  (`Runs.ReusedIdBreaksAscending`). That is exactly what breaks the invariants (`Runs.FreshIdIsExact`). Ids are random
  64-bit numbers; run results that need it ask that no such ACK is acted upon (`Machine.FreshRun`).

## Model

| member | source | states |
|---|---|---|
| Coordinates.GetCommonPrefix | src/coordinates.rs:14-27 | the loop computes the length of the longest common prefix |
| Coordinates.DistanceTo | src/coordinates.rs:10-12 | the distance, without underflow |
| Coordinates.DistanceIsMetric | src/coordinates.rs:10-27 | the distance is zero exactly on equal coordinates, symmetric, and satisfies the triangle inequality |
| Coordinates.CommonPrefixUltrametric | src/coordinates.rs:14-27 | prefixes shared with a third are shared with each other |
| Bytes.KeyOrderIsByteOrder | src/router.rs:28 | comparing keys as numbers is comparing them as byte arrays |
| Announcements.CoordsOf | src/coordinates.rs:42-48 | the receiver's coordinates: the ports along the signatures |
| Announcements.PeerCoords | src/coordinates.rs:49-57 | the sender's coordinates: all those ports but the last |
| Announcements.AppendSignature | src/frames.rs:41-59 | the buffer signed is the whole chain so far, then the signer's key and port, and the link is added at the end |
| Announcements.IsClean | src/frames.rs:60-116 | accepts exactly announcements that begin at the root, end at the peer, have no zero port, no repeated signer before the last, and a verified chain; panics exactly on none |
| Announcements.IsLoopOfChild | src/frames.rs:117-124 | true exactly when the key is among the signers |
| Announcements.RelayedIsCleanExactly | src/frames.rs:41-116 | a chain built by honest signers is accepted from its last if and only if it starts at the root, no port is zero and no signer but the last repeats |
| Announcements.ForwardedIsCleanExactly | src/frames.rs:41-116 | an accepted announcement stays acceptable one hop on if and only if the port is assigned and its last signer is no earlier one |
| Chains.SignedMessageLayout | src/frames.rs:41-53 | the signed bytes: the root's key and sequence number, 104 bytes for each earlier link, then the signer's key and port |
| Chains.SignedMessageInjective | src/frames.rs:41-53 | and these bytes determine the root, the earlier links, the signer and the port |
| Chains.EverySignatureIsVerified | src/frames.rs:92-113 | every link of an accepted announcement, not just the last, was verified over everything before it |
| Chains.EachSignatureCommits | src/frames.rs:60-116 | if a signature fits one message only, two accepted announcements that share it share everything before it |
| Chains.TamperingIsNoticed | src/frames.rs:60-116 | so changing the root, its sequence number, or any port, signer or signature before a signature that is kept gets the announcement refused from everyone |
| Chains.FirstLinkSignsRoot | src/frames.rs:41-59 | the root's own link is signed over its key, sequence number, key again and port |
| WireProofs.RoundTripExactly | src/wire_frame.rs:32-355 | for every frame and whatever follows it, decoding the encoding gives the frame back and leaves what followed, if and only if counts and length fit 16 bits and a tree packet's coordinate lists are equally long |
| WireProofs.UnequalCoordinatesFail | src/wire_frame.rs:232-253 | no tree packet with unequal coordinate lists comes back as it was sent |
| WireProofs.StreamRoundTrip | src/wire_frame.rs:182-355 | frames written back to back are decoded to the same frames in the same order |
| WireLayout.ComputedLengthIsWritten | src/wire_frame.rs:38-67 | the length computed beforehand is the number of bytes written, less 64 per signature of an announcement |
| WireLayout.HeaderStandsInFront | src/wire_frame.rs:70-84 | magic bytes, version, type number, two zero bytes and that length, at their offsets, for every frame |
| WireLayout.EncodingIsLaidOut | src/wire_frame.rs:85-160 | every field of every frame type at its byte offset, and how long the whole is |
| WireLayout.PortStandsAt | src/wire_frame.rs:87-94 | coordinates one after the other, eight bytes each |
| WireLayout.SignatureStandsAt | src/wire_frame.rs:106-110 | signatures one after the other: key, port and signature in 104 bytes |
| WireLayout.HeaderDecidesExactly | src/wire_frame.rs:182-206 | for every buffer, when each decoding error comes and what it leaves, when more bytes are waited for, and which type a whole frame has |
| Codec.Encode | src/wire_frame.rs:32-162 | refuses a non-empty buffer; otherwise the buffer holds exactly the frame's encoding |
| Codec.Decode | src/wire_frame.rs:182-355 | outcome, error or panic, and what is left in the buffer, for every buffer |
| Codec.DecodeKey | src/wire_frame.rs:164-170 | reads 32 bytes as a key or panics |
| Codec.DecodeSignature | src/wire_frame.rs:171-177 | reads 64 bytes as a signature or panics |
| Codec.DecodeTreePacket | src/wire_frame.rs:232-253 | reads both coordinate lists with the destination's count, and the payload length in 16-bit arithmetic |
| Tree.NextTreeHop | src/router.rs:546-609 | in any visiting order, ourselves at the destination; else the least strictly closer same-root peer by distance and receive order, and none exactly when no peer is closer |
| Tree.TreeHopUnique | src/router.rs:546-609 | with distinct receive orders that hop does not depend on the visiting order |
| Tree.HopIsClosestEarliest | src/router.rs:546-609 | the hop on distances and receive orders alone: strictly closer than us under our root, no farther than any other such peer, and of equals the earliest heard from |
| Tree.BestParent | src/router.rs:753-778 | in any visiting order, the greatest root, then the least receive order, among unexpired announcements that do not list us and are no weaker than the starting root |
| Tree.BestParentUnique | src/router.rs:753-778 | with distinct receive orders the choice does not depend on the visiting order |
| Tree.ChosenRootIsGreatest | src/router.rs:747-797 | on keys and sequence numbers alone: every considered root is at most the chosen one's, equal ones were heard from later, and with nobody chosen every considered root is lower than the one started from |
| Tree.SelectionStartsFromGreater | src/router.rs:747-752 | selection starts from the greater of our own root and the one followed |
| Tree.TwoRunsSettle | src/router.rs:747-797 | with announcements and clock fixed and none of our own filed, two runs from any state reach the best parent, or ourselves if none beats us |
| Tree.TwoRunsReachFixedPoint | src/router.rs:747-797 | whatever is filed, after two runs no further run changes anything |
| Tree.SettledStays | src/router.rs:747-797 | and then no run changes anything |
| TreeProtocol.ParentUpdateIsNeverForwarded | src/router.rs:628-671 | an announcement from the parent ends in a drop, a wait or becoming root, and in the last exactly when it is clean, not replayed and the timer has run out |
| TreeProtocol.ForeignUpdateNeverWeakensRoot | src/router.rs:672-700 | an announcement from anyone else never weakens the root followed; stronger roots are adopted, weaker ones answered, and only loops are dropped once clean and not replayed |
| TreeProtocol.FiledExactly | src/router.rs:610-628 | a clean announcement is filed, with its root, chain, time and the next place in the order, if and only if nothing with the same root key and a greater sequence number is filed under its sender; nobody else's changes |
| TreeProtocol.ForeignReactionsExactly | src/router.rs:672-700 | once filed: waits exactly while the timer runs, dropped exactly if we signed it, and its sender is adopted, told of our root or compared with the others exactly by whether its root key is greater, lesser or equal |
| TreeProtocol.AnnouncementKeepsStore | src/router.rs:610-628 | every stored announcement stays accepted, filed under its sender, with its own place in the order, whoever sends |
| TreeProtocol.OwnAnnouncementIsFiledExactly | src/router.rs:610-628 | an announcement gets filed under our own key if and only if it comes from our own key and is clean |
| TreeProtocol.StoreSupportsRouting | src/router.rs:546-628 | so coordinates never underflow, and if none of our own is filed announced roots are signers |
| TreeProtocol.OutgoingIsCleanExactly | src/router.rs:727-735 | what a router sends on passes the receiver's check exactly when the announcement it follows repeats no signer |
| TreeProtocol.RepeatedSignerIsAdoptedAndThenRefused | src/frames.rs:81-94 | an announcement relayed by a, b and a again is accepted and its sender adopted by any router with a weaker root, and what that router sends on is not accepted |
| Snek.NextSnekHop | src/router.rs:948-1061 | in any visiting order: towards the destination if known, else the least known key above it and below the start key; the hop is that key itself if it is a peer and announced, else the parent for an ancestor, else a peer that announced it, else the source of its path; it panics only if a path that lost its source is better than anything announced |
| Snek.SomeOrderPanicsExactly | src/router.rs:1044-1059 | and then some order of the table does panic, and otherwise none |
| Snek.ScanSigners | src/router.rs:992-1026 | one signature list: the best key among those seen, reached through the list's peer if and only if it is new |
| Snek.ScanPaths | src/router.rs:1044-1059 | the table, in some order: expired, sourceless and, except for bootstraps, inactive entries are skipped; the result, or the panic, is that of the scan in that order |
| Snek.PreferDirectPeer | src/router.rs:1033-1038 | a best key that is a peer is reached directly |
| Snek.ChosenUnique | src/router.rs:948-1061 | the chosen key does not depend on any visiting order |
| Snek.HopExactlyWhenBetter | src/router.rs:948-1061 | traffic for elsewhere gets a hop exactly when the chosen key is not our own, or we are our own peer |
| Snek.HopIsAccountedFor | src/router.rs:982-1059 | why a frame goes to a hop: the key itself, the parent for the root or an ancestor, a peer that announced the key, or the source of an unexpired path of it, active unless for bootstraps; an announced peer is reached directly |
| Snek.NothingBetterIsPassedOver | src/router.rs:982-1059 | no key that anyone announced or a live path comes from lies between the destination and the key chosen; a known destination is chosen itself |
| Router.Router.constructor | src/router.rs:75-95 | a new router: no peers, itself as parent, no paths |
| Router.Router.GetNewPort | src/router.rs:286-295 | a step of the machine that reserves the least free port above zero |
| Router.Router.PortOf | src/router.rs:362-378 | a port of the peer, zero for ourselves, none exactly when there is none |
| Router.Router.NextOrdering | src/router.rs:423-429 | a receive order greater than all before |
| Router.Router.HandleTreeAnnouncement | src/router.rs:610-701 | a step of the machine: new state, reaction and the announcements sent to all, to the sender or to nobody; panics exactly on no signature or when the sender to be informed is no peer |
| Router.Router.ParentSelection | src/router.rs:747-797 | a step of the machine: adopts the best parent; reports a change and sends to all peers exactly when the parent differs |
| Router.ChangeIsReportedExactly | src/router.rs:747-797 | the change reported: a parent was found, other than the one held or, if our key is greater than the root's, than ourselves |
| Router.Router.SendTreeAnnouncement | src/router.rs:727-735 | sends a peer the current announcement signed for its port, sends nothing to ourselves, and panics exactly when there is no such peer |
| Router.Router.SendTreeAnnouncementsToAll | src/router.rs:720-726 | every peer but ourselves is sent the announcement signed for its port; nothing else is sent |
| Router.Router.TeardownPath | src/router.rs:1440-1492 | table, cached paths and next ports after a teardown from any port |
| Router.Router.HandleTeardown | src/router.rs:1432-1435 | a received teardown changes the table and sends nothing |
| Router.Router.RunTask | src/router.rs:1494-1510 | a step of the machine: the change, and the frames sent up to the first port without a peer, where it panics |
| Router.Router.HandleBootstrapAck | src/router.rs:1100-1230 | when an ACK is taken: candidate, new entry, teardowns spawned for our other paths, and the setup sent to the tree hop; otherwise nothing |
| Router.Router.HandleSetup | src/router.rs:1235-1387 | duplicate, accepted, rejected and forwarded setups: state and frames sent, including the mismatch that does not return |
| Router.Router.ReceiveSetup | src/router.rs:529-534 | a step of the machine, panicking exactly when the sender is no peer or there is no hop |
| Router.Router.ReceiveBootstrapAck | src/router.rs:514-528 | a step of the machine if the tree hop is ourselves; otherwise it is passed on |
| Router.Router.ReceiveSetupAck | src/router.rs:535-538 | a step of the machine, panicking exactly when the sender is no peer or the ACK activates an entry whose source has lost its peer |
| Router.Router.ReceiveTeardown | src/router.rs:539-542 | a step of the machine that sends nothing, panicking exactly when the sender is no peer |
| Router.Router.ReceiveTreePacket | src/router.rs:477-486 | traffic for coordinates goes to the tree hop and nowhere else, and to the local client exactly if that is us |
| Router.Router.ReceiveSnekPacket | src/router.rs:487-500 | traffic for a key likewise by keyspace routing, with the panic on a lost source |
| Router.Router.HandleBootstrap | src/router.rs:1065-1096 | a bootstrap under our root is answered with an ACK to its coordinates, sent to the tree hop; any other is dropped |
| Router.Router.ReceiveBootstrap | src/router.rs:505-513 | answered if keyspace routing keeps it here, passed on to the hop unchanged otherwise |
| Router.Router.BootstrapNow | src/router.rs:905-946 | unless we are root or have a path under the current root, our bootstrap goes to a hop of keyspace routing towards the root |
| Router.Router.HandleSetupAck | src/router.rs:1391-1428 | activates the one matching entry, forwards the ACK, and promotes the candidate; panics exactly when the entry's source has lost its peer |
| Router.Router.MaintainSnek | src/router.rs:832-902 | a step of the machine that spawns a teardown for each expired cached path and each entry not activated in time; a bootstrap is sent exactly when the root is someone else's and no cached path was set up under it |
| Router.Router.DisconnectPeer | src/router.rs:296-354 | a step of the machine, including the skipped parent selection; announcements go to all exactly when the parent changed, and a bootstrap when that or the ascending path was lost |
| Machine.StepKeepsTable | src/router.rs:1100-1510 | every step that does not reuse the ascending path's id keeps the ascending path in the table, the key order, the shape of the descending path, the closer candidate and past timestamps, whoever the peers say they are |
| Machine.StepKeepsOwnPaths | src/router.rs:1100-1510 | unless we are our own peer, every step keeps the paths that start here ours, all but one of them on the way out |
| Machine.StepKeepsPorts | src/router.rs:296-1510 | every step keeps every port of every entry home, connected, or awaiting its teardown |
| Machine.StepKeepsTree | src/router.rs:286-797 | every step keeps the stored announcements accepted and their orders distinct |
| Machine.StepKeepsApartExactly | src/router.rs:172-234 | a step makes us our own peer if and only if it takes up a connection under our own key |
| Machine.BootstrapAckKeepsTable | src/router.rs:1100-1230 | taking a bootstrap ACK keeps the table invariants unless it reuses the ascending path's id |
| Machine.TeardownIsRemoval | src/router.rs:1440-1492 | a teardown removes one entry or does nothing, and never leaves the ascending path without its entry |
| Runs.RunsKeepInv | src/router.rs:75-1510 | every state of every run of a new router in which no ACK reuses the ascending path's id satisfies these invariants, own keys among the peers' or not |
| Runs.FreshIdIsExact | src/router.rs:1100-1230 | a step keeps the invariants if and only if it acts on no ACK that reuses the ascending path's id |
| Runs.GuardedRunsKeepHome | src/router.rs:75-1510 | and if no connection is taken up under our own key, no announcement of our own is filed and all but one of the paths that start here are on the way out |
| Runs.OwnKeyGuardIsExact | src/router.rs:172-199 | after any step, all continuations keep our own paths in order if and only if the step did not take up a connection under our own key |
| Runs.OwnKeyPeerInstallsForeignPath | src/router.rs:1235-1387 | once we are our own peer, from every state a path that starts here, is not ours and stays can be installed |
| Runs.DiallingItselfBreaksHome | src/router.rs:172-199 | a new router dialled at its own address files its own announcement, and a setup then installs such a path |
| Runs.ReachableStatesAreSound | src/router.rs:546-1061 | in every reachable state the ascending path is in the table, key order holds, receive orders are distinct, and every entry whose source has lost its peer awaits its teardown |
| Runs.LostSourcePanics | src/router.rs:1051-1058 | a new router whose only peer sets up a path to it and is lost panics over traffic for the path's origin, in every order of the table |
| Runs.LostSourcePanicsAck | src/router.rs:1399-1404 | a new router between a root and a peer it loses panics over the acknowledgement of the peer's path |
| Runs.WantedBootstrapIsSentExactly | src/router.rs:832-926 | of the bootstraps maintenance wants, exactly those are sent whose router has no ascending path under the current root |
| Runs.ExpiredPathHoldsBootstrapBack | src/router.rs:846-926 | a run of a new router after which, an hour on, maintenance wants to bootstrap and may not |
| Runs.AscendingIsKeptDroppedOrPromoted | src/router.rs:1413-1418 | the ascending path changes only by being dropped or by promotion of the candidate |
| Runs.AscendingOnlyGetsCloser | src/router.rs:1115-1152 | no step replaces an unexpired ascending path by one to a key farther above us |
| Runs.AscendingNeverDriftsAway | src/router.rs:1115-1152 | over any stretch of a run with an unexpired ascending path its key only comes closer |
| Runs.DescendingOnlyGetsCloser | src/router.rs:1262-1299 | no step replaces an unexpired descending path by one from a key farther below us |
| Runs.DescendingNeverDriftsAway | src/router.rs:1262-1299 | over any stretch of a run with an unexpired descending path its key only comes closer |
| Runs.AckKeepsAscendingExactly | src/router.rs:1194-1227 | an accepted ACK keeps the ascending path in the table if and only if it does not reuse its path id |
| Runs.ReusedIdBreaksAscending | src/router.rs:1124-1131 | a run of a new router, under any sound signatures, in which an accepted ACK reuses the id and breaks the ascending path |
| Runs.DrainedTableIsTidy | src/router.rs:1208-1227 | after the spawned teardowns have run in any order, unless we are our own peer, at most one path starts here, ours, the candidate's or the ascending one |
| Runs.DrainedPortsAreLive | src/router.rs:1494-1510 | and no port of any entry dangles |
| Runs.LostPortIsForgotten | src/router.rs:296-354 | after a peer is lost the ascending path does not use its port, and after the teardowns no entry does |
| Runs.DrainIsSweep | src/router.rs:1440-1510 | running teardowns one by one is removing at once exactly the entries and cached paths they hit |
| Runs.TeardownsAreConfluent | src/router.rs:1494-1510 | any two orders of the same teardowns leave the same table and cached paths |
| Runs.EqualIndicesAreNotConfluent | src/router.rs:1449-1468 | were the ascending and descending index equal, the order would matter |
| Runs.MaintenanceClearsStalePaths | src/router.rs:842-895 | after maintenance and the teardowns it spawned, no cached path is expired and every entry is active or in time |
| Runs.DescendingDanglesExactly | src/router.rs:1459-1481 | while the cached descending path is what the table holds, a step keeps it so if and only if it is no teardown, frame or task, on that path's source port |
| Effects.LostPeerTellsOtherSide | src/router.rs:296-354 | for every uncached path through a lost peer's port a task is spawned that tells the peer on the path's other side, and does not panic |
| Effects.TaskTellsOtherSide | src/router.rs:1440-1510 | a task as from one side of a path sends one teardown, to the peer on the other side, whichever side that is |
| Effects.TaskAtEndTellsNobody | src/router.rs:1440-1510 | and at an end of the path none |
| Effects.TaskFromHomeTellsBoth | src/router.rs:1471-1476 | a task from home tells both neighbours |
| Effects.TaskFromHomeTellsNeighbour | src/router.rs:1471-1476 | or, of a path that starts or ends here, the one there is |
| Effects.AscendingTaskTellsNext | src/router.rs:1449-1457 | a task from home for the ascending path tells the next node |
| Effects.DescendingTaskTellsNobody | src/router.rs:1459-1468 | and for the cached descending path tells nobody, in every state of every fresh run |
| Effects.ToldPeerForgets | src/router.rs:1432-1492 | the peer that is told removes its entry, whichever of its ports we are on, and sends nothing on |
| Effects.StaleExactly | src/router.rs:842-895 | maintenance spawns a task from home for each entry unactivated for more than five seconds and each cached path an hour old, and no other |
| Effects.MaintenanceRemovesExactly | src/router.rs:832-895 | with none waiting before, maintenance and its teardowns in any order remove exactly those; unexpired cached paths stay |
| Effects.LostPeerRemovesExactly | src/router.rs:296-333 | with none waiting before, losing a peer and its teardowns in any order remove exactly the paths through its port |
| Effects.LostPeerIsNoHop | src/router.rs:336-340 | the lost peer's announcement is gone and nobody else's, its port too, and no tree hop leads to it |
| Effects.LostParentIsKeptExactly | src/router.rs:342-349 | a lost parent is kept if and only if the ascending path was lost through the same port |
| Effects.AnnouncementBringsUpToDate | src/router.rs:610-746 | filing what a peer sends makes a router up to date with it, in the sense the network results assume, and gives it coordinates one port below the peer |
| Effects.FiledSequenceStepsUp | src/router.rs:610-628 | no step replaces a filed announcement by one of the same root key with an earlier sequence number |
| Effects.FiledSequenceNeverFalls | src/router.rs:610-628 | over any stretch of a run in which a sender's filed root key stays the same, its sequence number never falls |
| Effects.AckIsTakenExactly | src/router.rs:1100-1152 | a bootstrap ACK is taken if and only if it is under our root from a higher key, and the ascending path is missing, expired, the same node's under another id, or to a node farther above |
| Effects.AckIsActedOnExactly | src/router.rs:1153-1227 | the setup sent, the entry filed and the candidate, field by field; and nothing at all when the ACK is not taken or the setup has nowhere to go |
| Effects.AckRemovesExactly | src/router.rs:1208-1227 | with none waiting before, an ACK and its teardowns in any order remove exactly our earlier paths: no other node's is touched |
| Effects.SetupIsTakenExactly | src/router.rs:1262-1299 | likewise for a setup at its destination |
| Effects.TakenSetupIsAcknowledged | src/router.rs:1301-1358 | the acknowledgement sent, the entry filed, the descending path, and a task for the one replaced |
| Effects.PassingSetupIsForwarded | src/router.rs:1360-1386 | a setup under our root for someone else is filed and forwarded, and nothing else happens |
| Effects.MismatchedSetupIsHandledAllTheSame | src/router.rs:1238-1242 | under another root the sender is told of a teardown, and the setup is filed and forwarded all the same |
| Effects.DuplicateSetupTearsDown | src/router.rs:1244-1260 | a setup for a path already filed has that path torn down and the sender told |
| Effects.RefusedSetupIsAnswered | src/router.rs:1302-1386 | a setup that is not taken, or leads back here, changes nothing and is answered with a teardown |
| Effects.EntryBecomesActiveExactly | src/router.rs:1391-1411 | an inactive entry becomes active if and only if its acknowledgement comes from its destination port or from home and its source has its peer |
| Network.CoordsIdentify | src/coordinates.rs:42-57 | in a converged network nodes with equal coordinates are one node |
| Network.UpDropsPorts | src/router.rs:702-719 | each parent pointer takes the last port off the coordinates |
| Network.DepthIsCoordinateLength | src/router.rs:702-719 | parent pointers reach the root in exactly as many steps as a node has coordinates |
| Network.ParentsAreAcyclic | src/router.rs:702-719 | no node but the root is among its own ancestors |
| Network.HopMakesProgress | src/router.rs:546-589 | off the destination there always is a hop, strictly closer, even though the sender is skipped |
| Network.GreedyRoutingDelivers | src/router.rs:475-589 | however ties break, a frame for a node's coordinates makes at most distance many hops, is delivered exactly there, and everywhere else goes on |
| Network.CompleteWalk | src/router.rs:546-589 | from every node to every node there is such a walk |
| Network.WalkVisitsOnce | src/router.rs:546-589 | no node is visited twice |
| Network.ConvergedNetworkExists | src/router.rs:702-735 | the description of a converged network is satisfiable |
| PathSetup.PathSetupCompletes | src/router.rs:1100-1428 | in a steady network an accepted ACK leads, after one delivery per link out and one back, to nothing in flight and an active entry at every node of the walk between its neighbours' ports, the origin's cached as ascending and the destination's as descending |
| PathSetup.InstalledPathSurvivesTasks | src/router.rs:1208-1224 | whichever spawned teardowns then run at any node, in any order, the path stays installed, if none waited for it before and its index was not still cached at the destination |
| PathSetup.SetupPasses | src/router.rs:1360-1386 | a node between the ends installs an inactive entry and passes the setup to the next node only |
| PathSetup.SetupArrives | src/router.rs:1262-1358 | the destination installs the last entry and starts the acknowledgement back |
| PathSetup.AckPasses | src/router.rs:1391-1428 | the acknowledgement activates a node's entry and goes to the node before, or ends at the origin |
| PathSetup.DeliveryIsDetermined | src/router.rs:529-534 | whatever hop and ports the program finds, the delivery is the one modelled |
| PathSetup.TeardownStopsAfterOneHop | src/router.rs:539-541 | the origin's teardown removes its own and its neighbour's entry and goes no further; the destination keeps its descending path |
| Keyspace.HopDoesNotDrift | src/router.rs:948-1061 | for traffic and bootstraps: the next choice lies between the destination and the previous key; if it is our own key we know none between, drop traffic and answer a bootstrap |
| Keyspace.NextHopKnowsBetter | src/router.rs:948-1061 | in a coherent network the next hop is the chosen key or knows it |
| Keyspace.JourneyDoesNotDrift | src/router.rs:948-1061 | over a whole journey of traffic or of a bootstrap the keys never rise and never fall behind the destination, and where it stays no key between is known |
| Keyspace.InstalledPathLeadsHome | src/router.rs:1044-1059 | a path that was set up leads traffic back to its origin from every node of its walk |
| Delivery.SnekRoutingDelivers | src/router.rs:948-1061 | in a network whose nodes all have their path to the next higher key, traffic for any node and any node's bootstrap make boundedly many hops; traffic ends exactly at that node, the bootstrap exactly at the next higher key, and elsewhere there always is a next hop |
| Delivery.CompleteJourney | src/router.rs:948-1061 | so every journey prefix extends to one that ends at the destination |
| Delivery.HopLowersRank | src/router.rs:982-1059 | a hop towards a key comes nearer to it: up the tree, to a peer that announced it, or back along its path |
| Delivery.BetterKeyIsKnown | src/router.rs:948-1061 | off the target every node of such a network knows a better key than its own, and hands the frame to someone else |
| Delivery.SnakedNetworkExists | src/router.rs:948-1061 | two nodes joined by one path meet the hypotheses |
| Growth.SnakeIsGrown | src/router.rs:1100-1428 | a steady network without paths whose nodes but the root each take their successor's ACK and set up their path, one after the other, in any order and within the hour, is such a network |
| Growth.TurnGrows | src/router.rs:1100-1428 | a node's turn is accepted at both ends, adds its path and leaves all others installed |
| Growth.SnakeCanGrow | src/router.rs:1100-1428 | every steady network without paths has such turns |
| Bootstraps.BootstrapIsSentExactly | src/router.rs:905-946 | a bootstrap goes out if and only if we follow someone else, have no path under that root and keyspace routing leads elsewhere; it carries our key, coordinates and root |
| Bootstraps.AnswerComesBack | src/router.rs:1065-1096 | any other node that handles it answers with one ACK, which tree routing brings back to the origin and leaves there |
| Bootstraps.AnswerIsTaken | src/router.rs:1100-1152 | an answer from above is taken by an origin without an unexpired path to a nearer node, and the set-up then goes through |
| Bootstraps.AnswererIsAbove | src/router.rs:948-1096 | in a coherent network whoever answers lies above the origin and knows nobody between |
| Bootstraps.SuccessorsAnswerIsTurn | src/router.rs:1065-1152 | the successor's answer is a turn of the growing snake |
| Bootstraps.BootstrapRoundTrip | src/router.rs:905-1096 | in a network with its snake a bootstrap is kept exactly by the successor, whose answer comes back and is such a turn |

## Left out

- Runs.RunsKeepInv: asks that no ACK reuses the ascending path's id; `Runs.FreshIdIsExact` says that this is exactly what is needed.
- Tree.TwoRunsSettle: for routers that have filed no announcement of their own; otherwise only `Tree.TwoRunsReachFixedPoint` holds.
- PathSetup.PathSetupCompletes: no other frame is delivered and no teardown runs before the acknowledgement is back, and peers are joined by one port; with other traffic the candidate may be replaced. `Growth.SnakeIsGrown` likewise takes the set-ups one after the other.
- Delivery.SnekRoutingDelivers: the tables and the time are those of one instant, and other paths than the snake's are not in use.
- Network.Converged: a hypothesis of the network results; that the tree protocol reaches it again after a change is not claimed, since parents' updates are not forwarded.
- Router.Router.MaintainSnek: each handler is one step; the program releases its locks before it bootstraps, so a spawned teardown may get in between.
- Announcements.AppendSignature: returns the longer announcement instead of changing it in place; announcements are copied before every change in the program, so nothing shares them.
- WireProofs.StreamRoundTrip: whole frames in the buffer only; `decode` consumes the header before it looks for the rest, so partial frames are lost.
- Effects.MaintenanceRemovesExactly: of a state in which no task waits; from any state `Runs.MaintenanceClearsStalePaths` and `Runs.DrainIsSweep` say what goes.
- Effects.AckRemovesExactly: likewise, with a path id the table does not hold yet; a replaced entry of ours under the same id would be overwritten first.
- The connection tables: sending to a peer whose connection is gone, and a second connection under a known key, which is dropped but keeps its port.
- Spawned reparent tasks: a parent selection or a timer start may happen at any step of a run.
- Locks, async polling, sockets, sessions, the client and the terminal interface.
- Overflow of the receive order and the sequence number after 2^64 steps: such steps are excluded.

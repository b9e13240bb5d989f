/** How announcements change the tree state (src/router.rs:610-746), and what every stored announcement satisfies. */
module TreeProtocol {
  import opened Types
  import opened Coordinates
  import opened Announcements
  import opened Tree

  /** What a received announcement makes the router do besides updating its state. */
  datatype Reaction =
    | Panicked       // no signature to look at
    | Dropped
    | Waiting        // stored, but the reparent timer is running
    | Reset          // became root, reparents after a wait
    | Forwarded      // sends the current announcement to all peers
    | Adopted        // takes the sender as parent and sends to all peers
    | Informed       // sends the current announcement back to the sender
    | Reselecting    // runs parent selection

  /** `reparent_timer_expired`. */
  predicate TimerExpired(s: TreeState, now: Time) {
    s.reparentTimer.None? || now - s.reparentTimer.value > REPARENT_WAIT_TIME
  }

  /** The frame repeats a root key with an older sequence number than the one filed under its sender. */
  predicate Replayed(s: TreeState, frame: Announcement, from: PublicKey) {
    && from in s.announcements
    && frame.root.publicKey == s.announcements[from].root.publicKey
    && frame.root.sequenceNumber < s.announcements[from].root.sequenceNumber
  }

  function Filed(s: TreeState, frame: Announcement, from: PublicKey, now: Time): TreeState
    requires s.ordering < U64_MAX
  {
    var order := s.ordering + 1;
    s.(ordering := order, announcements := s.announcements[from := frame.(receiveTime := now, receiveOrder := order)])
  }

  /** The reaction to a filed frame. The comparisons read the state after filing, as the program does. */
  ghost function React(s: TreeState, frame: Announcement, from: PublicKey): (TreeState, Reaction) {
    var current := CurrentRoot(s);
    if from == s.parent then
      if SignedBy(frame.signatures, s.key) || frame.root.publicKey < current.publicKey then (BecomeRoot(s), Reset)
      else if frame.root.publicKey > current.publicKey || frame.root.sequenceNumber > current.sequenceNumber
        then (s, Forwarded)
      else (BecomeRoot(s), Reset)
    else
      if SignedBy(frame.signatures, s.key) then (s, Dropped)
      else if frame.root.publicKey > current.publicKey then (s.(parent := from), Adopted)
      else if frame.root.publicKey < current.publicKey then (s, Informed)
      else (s, Reselecting)
  }

  /** `handle_tree_announcement`. */
  ghost function OnAnnouncement(scheme: Scheme, s: TreeState, frame: Announcement, from: PublicKey,
      now: Time): (result: (TreeState, Reaction))
    requires s.ordering < U64_MAX
    ensures result.0.key == s.key && result.0.ports == s.ports
  {
    var counted := s.(ordering := s.ordering + 1);
    if frame.signatures == [] then (counted, Panicked)
    else if !Clean(scheme, frame, from) || Replayed(s, frame, from) then (counted, Dropped)
    else
      var s' := Filed(s, frame, from, now);
      if !TimerExpired(s, now) then (s', Waiting) else React(s', frame, from)
  }

  /** An announcement from the parent is never forwarded, whatever it says: it is compared with itself, so a
      router that does not drop it or wait becomes its own root. */
  lemma ParentUpdateIsNeverForwarded(scheme: Scheme, s: TreeState, frame: Announcement, now: Time)
    requires s.ordering < U64_MAX
    ensures var (s', reaction) := OnAnnouncement(scheme, s, frame, s.parent, now);
            && reaction in {Panicked, Dropped, Waiting, Reset}
            && (reaction == Reset
              <==> Clean(scheme, frame, s.parent) && !Replayed(s, frame, s.parent) && TimerExpired(s, now))
            && (reaction == Reset ==> s'.parent == s.key)
            && (reaction != Reset ==> s'.parent == s.parent)
  {
  }

  /** An announcement from anyone else never weakens the root we follow. Once it is acted upon that root is at least
      as strong as the announced one: its sender is adopted exactly when it announces a stronger root, which we then
      follow, and is told of ours exactly when it announces a weaker one. */
  lemma ForeignUpdateNeverWeakensRoot(scheme: Scheme, s: TreeState, frame: Announcement, from: PublicKey, now: Time)
    requires s.ordering < U64_MAX && from != s.parent
    ensures var (s', reaction) := OnAnnouncement(scheme, s, frame, from, now);
            var ours, theirs := CurrentRoot(s).publicKey, frame.root.publicKey;
            && CurrentRoot(s').publicKey >= ours
            && (reaction == Adopted ==> theirs > ours && s'.parent == from && CurrentRoot(s') == frame.root)
            && (reaction == Informed ==> theirs < ours)
            && (reaction != Adopted ==> s'.parent == s.parent && CurrentRoot(s') == CurrentRoot(s))
            && (reaction in {Panicked, Dropped, Waiting} || CurrentRoot(s').publicKey >= theirs)
            && (reaction == Dropped && Clean(scheme, frame, from) && !Replayed(s, frame, from)
              ==> SignedBy(frame.signatures, s.key))
  {
  }

  /** The frame is filed under its sender: its root and chain, the time and the next place in the order. */
  ghost predicate IsFiled(s: TreeState, s': TreeState, frame: Announcement, from: PublicKey, now: Time) {
    && from in s'.announcements
    && s'.announcements[from] == Announcement(frame.root, frame.signatures, now, s'.ordering)
    && s'.ordering == s.ordering + 1
  }

  /** A clean announcement is filed if and only if nothing is filed under its sender, or the filed root has another
      key, or the filed sequence number is no greater. Otherwise what was filed stays, and other senders' announcements
      always do. */
  lemma FiledExactly(scheme: Scheme, s: TreeState, frame: Announcement, from: PublicKey, now: Time)
    requires s.ordering < U64_MAX && (from in s.announcements ==> s.announcements[from].receiveOrder <= s.ordering)
    ensures var s' := OnAnnouncement(scheme, s, frame, from, now).0;
            && s'.ordering == s.ordering + 1
            && (IsFiled(s, s', frame, from, now) <==>
                  && Clean(scheme, frame, from)
                  && (from in s.announcements && s.announcements[from].root.publicKey == frame.root.publicKey ==>
                        s.announcements[from].root.sequenceNumber <= frame.root.sequenceNumber))
            && (IsFiled(s, s', frame, from, now) || s'.announcements == s.announcements)
            && (forall m :: m != from ==> (m in s'.announcements <==> m in s.announcements))
            && (forall m :: m != from && m in s.announcements ==> s'.announcements[m] == s.announcements[m])
  {
    hide LinkVerified, SignersDistinct, PortsNonZero, ChainVerified;
  }

  /** Once filed, an announcement from anyone but the parent is only kept while the reparent timer has a second to
      run; it is dropped if we signed it; and otherwise its sender is adopted exactly for a greater root key, told of
      ours exactly for a lesser one, and compared with the other peers exactly for the same. */
  lemma ForeignReactionsExactly(scheme: Scheme, s: TreeState, frame: Announcement, from: PublicKey, now: Time)
    requires s.ordering < U64_MAX && from != s.parent
    requires IsFiled(s, OnAnnouncement(scheme, s, frame, from, now).0, frame, from, now)
    requires from in s.announcements ==> s.announcements[from].receiveOrder <= s.ordering
    ensures var (s', reaction) := OnAnnouncement(scheme, s, frame, from, now);
            var ours, theirs := CurrentRoot(s).publicKey, frame.root.publicKey;
            var waits := s.reparentTimer.Some? && now - s.reparentTimer.value <= 1000;
            var looped := exists i :: 0 <= i < |frame.signatures| && frame.signatures[i].signingPublicKey == s.key;
            && (reaction == Waiting <==> waits)
            && (reaction == Dropped <==> !waits && looped)
            && (reaction == Adopted <==> !waits && !looped && theirs > ours)
            && (reaction == Informed <==> !waits && !looped && theirs < ours)
            && (reaction == Reselecting <==> !waits && !looped && theirs == ours)
            && s'.parent == (if reaction == Adopted then from else s.parent)
  {
    hide Clean;
  }

  /** What holds of every stored announcement: accepted from the sender it is filed under, with its own place in the
      order. */
  ghost predicate StoreInv(scheme: Scheme, s: TreeState) {
    && 0 !in s.ports
    && OrdersDistinct(s)
    && forall k ::
      k in s.announcements ==> Clean(scheme, s.announcements[k], k) && s.announcements[k].receiveOrder <= s.ordering
  }

  /** What the routing code relies on follows. */
  lemma StoreSupportsRouting(scheme: Scheme, s: TreeState)
    requires StoreInv(scheme, s)
    ensures Signed(s)
    ensures s.key !in s.announcements ==> RootsSigned(s)
    ensures s.ordering < U64_MAX ==> OrdersBelowMax(s)
  {
  }

  lemma AnnouncementKeepsStore(scheme: Scheme, s: TreeState, frame: Announcement, from: PublicKey, now: Time)
    requires StoreInv(scheme, s) && s.ordering < U64_MAX
    ensures StoreInv(scheme, OnAnnouncement(scheme, s, frame, from, now).0)
  {
    var counted := s.(ordering := s.ordering + 1);
    assert StoreInv(scheme, counted);
    if Clean(scheme, frame, from) && !Replayed(s, frame, from) {
      var stored := frame.(receiveTime := now, receiveOrder := s.ordering + 1);
      assert Clean(scheme, stored, from) by {
        hide LinkVerified;
        assert forall i :: 0 <= i < |frame.signatures| ==> LinkVerified(scheme, frame.root, stored.signatures, i);
      }
      assert StoreInv(scheme, Filed(s, frame, from, now));
    }
  }

  /** An announcement comes to be filed under our own key exactly when it arrives from our own key and is clean. Nothing
      on the way looks for that; an own announcement that comes back to us is clean. */
  lemma OwnAnnouncementIsFiledExactly(scheme: Scheme, s: TreeState, frame: Announcement, from: PublicKey, now: Time)
    requires s.ordering < U64_MAX && s.key !in s.announcements
    ensures s.key in OnAnnouncement(scheme, s, frame, from, now).0.announcements
      <==> from == s.key && Clean(scheme, frame, s.key)
  {
  }

  /** What `send_tree_announcement` sends to a peer: the current announcement with our signature and the peer's port. */
  function Outgoing(scheme: Scheme, s: TreeState, k: SigningKey, port: Port): Announcement {
    Appended(scheme, Announcement(CurrentRoot(s), CurrentSignatures(s), 0, 0), k, port)
  }

  /** The receiver accepts what we send exactly when the announcement we follow repeats no signer. A parent that
      appears twice, as its own last signer, got past our `is_clean` but will not get past our children's. */
  lemma OutgoingIsCleanExactly(scheme: Scheme, s: TreeState, k: SigningKey, port: Port)
    requires Sound(scheme) && StoreInv(scheme, s) && scheme.publicKeyOf(k) == s.key && port != 0
    ensures Clean(scheme, Outgoing(scheme, s, k, port), s.key) <==> SignersDistinct(CurrentSignatures(s))
  {
    var current := Announcement(CurrentRoot(s), CurrentSignatures(s), 0, 0);
    if s.parent in s.announcements {
      var stored := s.announcements[s.parent];
      assert Clean(scheme, current, s.parent) by {
        hide LinkVerified;
        assert forall i :: 0 <= i < |stored.signatures| ==> LinkVerified(scheme, stored.root, current.signatures, i);
      }
      ForwardedIsCleanExactly(scheme, current, s.parent, k, port);
    } else {
      var hops := [Hop(k, port)];
      assert Relayed(scheme, current, hops[..0]) == current;
      assert Relayed(scheme, current, hops) == Outgoing(scheme, s, k, port);
      RelayedIsCleanExactly(scheme, current, hops, s.key);
    }
  }

  /** The announcement signer a gives out, passed along by b and then by a again. */
  function Returned(scheme: Scheme, sequence: U64, a: Hop, b: Hop, again: Port): Announcement {
    Relayed(scheme, Announcement(Root(scheme.publicKeyOf(a.key), sequence), [], 0, 0), [a, b, Hop(a.key, again)])
  }

  /** Such an announcement does get through: a router with a weaker root takes its last signer as parent, and what it
      then sends on is refused by everyone. */
  lemma RepeatedSignerIsAdoptedAndThenRefused(scheme: Scheme, s: TreeState, k: SigningKey, port: Port, sequence: U64,
      a: Hop, b: Hop, again: Port, now: Time)
    requires Sound(scheme) && StoreInv(scheme, s) && scheme.publicKeyOf(k) == s.key && s.ordering < U64_MAX
    requires TimerExpired(s, now)
    requires a.port != 0 && b.port != 0 && again != 0 && port != 0
    requires scheme.publicKeyOf(a.key) != scheme.publicKeyOf(b.key)
    requires s.key !in {scheme.publicKeyOf(a.key), scheme.publicKeyOf(b.key)}
    requires CurrentRoot(s).publicKey < scheme.publicKeyOf(a.key) && scheme.publicKeyOf(a.key) != s.parent
    requires !Replayed(s, Returned(scheme, sequence, a, b, again), scheme.publicKeyOf(a.key))
    ensures var from := scheme.publicKeyOf(a.key);
            var (s', reaction) := OnAnnouncement(scheme, s, Returned(scheme, sequence, a, b, again), from, now);
            && reaction == Adopted && s'.parent == from
            && !Clean(scheme, Outgoing(scheme, s', k, port), s.key)
  {
    hide Relayed, Appended, LinkVerified;
    var from, frame := scheme.publicKeyOf(a.key), Returned(scheme, sequence, a, b, again);
    var start := Announcement(Root(from, sequence), [], 0, 0);
    RelayedChain(scheme, start, [a, b, Hop(a.key, again)]);
    RelayedIsCleanExactly(scheme, start, [a, b, Hop(a.key, again)], from);
    assert forall i :: 0 <= i < 3 ==> HopSigned(scheme, frame.signatures[i], [a, b, Hop(a.key, again)][i]);
    AnnouncementKeepsStore(scheme, s, frame, from, now);
    var s' := OnAnnouncement(scheme, s, frame, from, now).0;
    assert CurrentSignatures(s') == frame.signatures;
    OutgoingIsCleanExactly(scheme, s', k, port);
  }
}

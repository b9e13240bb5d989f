/** The frames routers exchange (src/frames.rs). */
module Frames {
  import opened Types
  import opened Coordinates
  import opened Announcements

  type PathId = U64

  datatype TreePacket = TreePacket(source: Coords, destination: Coords, payload: seq<Byte>)
  datatype SnekPacket = SnekPacket(destinationKey: PublicKey, sourceKey: PublicKey, payload: seq<Byte>)
  datatype Bootstrap = Bootstrap(root: Root, destinationKey: PublicKey, source: Coords, pathId: PathId)
  datatype BootstrapAck = BootstrapAck(
    destinationCoords: Coords, destinationKey: PublicKey, sourceCoords: Coords, sourceKey: PublicKey,
    root: Root, pathId: PathId)
  datatype Setup = Setup(root: Root, destination: Coords, destinationKey: PublicKey, sourceKey: PublicKey,
    pathId: PathId)
  datatype SetupAck = SetupAck(root: Root, destinationKey: PublicKey, pathId: PathId)
  datatype Teardown = Teardown(root: Root, destinationKey: PublicKey, pathId: PathId)

  datatype Frame =
    | TreeRouted(tree: TreePacket)
    | SnekRouted(snek: SnekPacket)
    | TreeAnnouncement(announcement: Announcement)
    | SnekBootstrap(bootstrap: Bootstrap)
    | SnekBootstrapAck(bootstrapAck: BootstrapAck)
    | SnekSetup(setup: Setup)
    | SnekSetupAck(setupAck: SetupAck)
    | SnekTeardown(teardown: Teardown)
}

/** The parts of a Minecraft server the mod reads, as plain values. Positions and angles are
    floating point in the game; here they are opaque reals that are only stored and compared
    for equality. */
module World {
  import opened Uuids

  type PlayerId = Uuid

  datatype Vec3 = Vec3(x: real, y: real, z: real)

  /** A player as the mod sees it: name, dimension key, position and facing. */
  datatype Player = Player(name: string, dimension: string, position: Vec3, yaw: real, pitch: real)

  /** The chat colours the mod uses for its own messages. */
  datatype ChatColor = Green | Red

  datatype ChatMessage = ChatMessage(text: string, color: ChatColor)
}

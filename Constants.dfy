/** The global constants shared between client and server (shared/Constants.js). */
module Constants {
  /** Width and height of the game canvas, in pixels. */
  const CanvasWidth: int := 800
  const CanvasHeight: int := 600

  /** Player status codes stored in the lobby's player directory. */
  const StatusInLobby: int := 0
  const StatusInRoom: int := 1
  const StatusInGame: int := 2
}

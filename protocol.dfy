/**
 * The snapshot a room pushes to each connected player after every change,
 * and the per-player record inside it (`PlayerState` / `PlayerGameState`).
 * Card values are stake sizes in hundredths (150 stands for 1.5).
 */
module Protocol {
  import opened Common

  /** One player as a recipient sees them: their bet, if any, and display name. */
  datatype PlayerState = PlayerState(card: Option<nat>, name: string)

  /**
   * One recipient's view of the room: the other players (redacted while the
   * round is hidden), the card menu, the recipient's own record and the
   * visibility flag.
   */
  datatype PlayerGameState = PlayerGameState(
    players: seq<PlayerState>,
    cards: seq<nat>,
    selfState: PlayerState,
    hidden: bool)
}

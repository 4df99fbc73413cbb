/** Optional values and the error outcomes of the game engine. */
module Results {

  /** A value that may be absent (Python's `None`). */
  datatype Option<T> = None | Some(value: T)

  /** The ways an operation of the engine can fail when the game state is unusual. */
  datatype Error =
    | NoSections     // the deck split into zero parts (zero players)
    | EmptyHand      // a card chosen from an empty hand
    | EmptyTrick     // the winner of a trick in which nobody played

  datatype Result<T> = Ok(value: T) | Err(error: Error)
}

/** The optional value used for the game's nullable start time and for a
    storage slot that may hold no saved game. */
module Wrappers {
  datatype Option<+T> = None | Some(value: T)
}

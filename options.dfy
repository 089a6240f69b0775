/** The "no card" results of the game's queries (the waste's "Empty", an empty
    foundation pile's suit placeholder, the stock's "Empty") as a tagged value. */
module Options {

  datatype Option<+T> = None | Some(value: T)

}

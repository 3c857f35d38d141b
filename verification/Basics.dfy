/** What several modules share. */
module Basics {
  datatype Option<+T> = None | Some(value: T)

  ghost function Elems<T>(xs: seq<T>): set<T>
  {
    set x | x in xs
  }
}

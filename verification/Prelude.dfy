/** Shared by the other modules. */
module Prelude {

  datatype Option<+T> = None | Some(value: T) {
    function UnwrapOr(d: T): T {
      if Some? then value else d
    }
  }

  /** Some element of a non-empty set; always the same one for the same set. */
  ghost function Pick<T>(s: set<T>): (x: T)
    requires s != {}
    ensures x in s
  {
    var x :| x in s; x
  }
}

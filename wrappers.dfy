/** The optional-value datatype used for Python's `None`, and the dictionary
    entry that tells a missing key from a key holding `None`. */
module Wrappers {

  /** A dictionary entry: the key is missing, it holds `None`, or it holds a value. */
  datatype Field<+T> = Missing | Null | Present(value: T) {

    /** `d.get(key, default)`: `None` for a key holding `None`. */
    function Get(default: T): (r: Option<T>)
      ensures Missing? ==> r == Some(default)
      ensures Null? ==> r.None?
      ensures Present? ==> r == Some(value)
    {
      match this
      case Missing => Some(default)
      case Null => None
      case Present(v) => Some(v)
    }
  }

  datatype Option<+T> = None | Some(value: T) {

    /** The value, or `default` when there is none (Python's `d.get(k, default)`). */
    function GetOr(default: T): T
    {
      match this
      case Some(v) => v
      case None => default
    }
  }
}

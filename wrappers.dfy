/** The optional value used wherever the source works with a reference that may be null. */
module Wrappers {
  datatype Option<T> = None | Some(value: T)
  {
    function GetOr(default: T): (r: T)
      ensures this.Some? ==> r == this.value
      ensures this.None? ==> r == default
    {
      match this
      case None => default
      case Some(v) => v
    }
  }
}

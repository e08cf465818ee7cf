/** Option and Result values, and the error the catalog and the system loader report. */
module Errors {

  datatype Option<+T> = None | Some(value: T) {
    function GetOr(default: T): (r: T)
      ensures Some? ==> r == value
      ensures None? ==> r == default
    {
      match this
      case Some(v) => v
      case None => default
    }
  }

  /** The one failure the core can raise: an id that is not in the catalog.
      (File and YAML errors belong to the loader, which is not modelled.) */
  datatype Error = MissingItem(id: string)

  datatype Result<+T> = Ok(value: T) | Err(error: Error)
}

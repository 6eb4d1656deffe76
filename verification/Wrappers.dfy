/** Optional values. */
module Wrappers {

  datatype Option<+T> = None | Some(value: T) {
    function GetOr(default: T): T
    {
      if None? then default else value
    }
  }
}

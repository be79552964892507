/** Optional values and fallible results, as the tools use Rust's Option and Result. */
module Base {

  datatype Option<+T> = None | Some(value: T) {
    /** Rust's `unwrap_or`. */
    function GetOr(default: T): T {
      match this
      case Some(v) => v
      case None => default
    }
  }

  /** A tool either succeeds or fails with the message of its internal error. */
  datatype Result<+T> = Ok(value: T) | Err(message: string)

  /** Rust's `Option::first` on a vector: the first element, if any. */
  function First<T>(s: seq<T>): (r: Option<T>)
    ensures r.Some? <==> |s| > 0
    ensures r.Some? ==> r.value == s[0]
  {
    if |s| == 0 then None else Some(s[0])
  }

  function Min(a: nat, b: nat): nat {
    if a <= b then a else b
  }
}

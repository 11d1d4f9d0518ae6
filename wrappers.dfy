/** Option and Result, the two wrappers the model uses for Rust's `Option` and `Result`. */
module Wrappers {

  datatype Option<+T> = None | Some(value: T)

  datatype Result<+T, +E> = Ok(value: T) | Err(error: E)

  /** `Option::unwrap_or_default` for maps: an absent map reads as the empty map. */
  function MapOrEmpty<K, V>(m: Option<map<K, V>>): map<K, V>
  {
    match m
    case Some(x) => x
    case None => map[]
  }

  /** `Option::unwrap_or(vec![])` for sequences. */
  function SeqOrEmpty<T>(s: Option<seq<T>>): seq<T>
  {
    match s
    case Some(x) => x
    case None => []
  }
}

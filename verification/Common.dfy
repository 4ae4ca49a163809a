/** Vocabulary shared by the relay and the client models. */
module Common {

  /** A relay payload: the bytes an application handed to `send`. */
  type Payload = seq<bv8>

  datatype Option<+T> = None | Some(value: T)

  function Min(a: int, b: int): int {
    if a < b then a else b
  }
}

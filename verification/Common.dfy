/** Shared by several modules. */
module Common {

  datatype Option<T> = None | Some(value: T)

  function Min(a: int, b: int): (m: int)
    ensures m <= a && m <= b && (m == a || m == b)
  {
    if a <= b then a else b
  }

  /** How a remote call goes: it works, or it reports an error after or without its effect. */
  datatype Fault = Fine | FailsApplied | FailsLost
}

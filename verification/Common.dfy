/** Types shared by the models of the kernel's parts. */
module Common {
  datatype Option<T> = None | Some(value: T)

  /** A call that returns, or the panic it ends in. */
  datatype Outcome = Done | Panic
}

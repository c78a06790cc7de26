/** Names shared by the other modules. */
module Basics {

  datatype Option<+T> = None | Some(value: T)

  type ExecutionId = string

  /** One invocation of `ActiveExecutions.add`; numbered per process. */
  type CallId = nat

  function Min(a: int, b: int): int {
    if a <= b then a else b
  }

  function Max(a: int, b: int): int {
    if a <= b then b else a
  }

  function Pow2(n: nat): nat {
    if n == 0 then 1 else 2 * Pow2(n - 1)
  }
}

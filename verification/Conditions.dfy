/** `ark/io/completion_condition.hpp`: how many bytes the next syscall may move. */
module Conditions {
  import opened Buffers

  datatype Condition =
    | TransferAll
    | TransferAtLeast(n: nat)
    | TransferExactly(n: nat)

  function Ask(c: Condition, size: nat, done: nat): nat {
    match c
    case TransferAll => if done < size then size - done else 0
    case TransferAtLeast(n) => if done < Min(n, size) then size - done else 0
    case TransferExactly(n) => if done < Min(n, size) then Min(n, size) - done else 0
  }

  /** The number of bytes at which the condition is first satisfied. */
  function Goal(c: Condition, size: nat): nat {
    match c
    case TransferAll => size
    case TransferAtLeast(n) => Min(n, size)
    case TransferExactly(n) => Min(n, size)
  }

  /** The largest number of bytes a transfer under the condition can reach. */
  function Ceiling(c: Condition, size: nat): (r: nat)
    ensures Goal(c, size) <= r <= size
  {
    match c
    case TransferAll => size
    case TransferAtLeast(n) => if n == 0 then 0 else size
    case TransferExactly(n) => Min(n, size)
  }

  /** A condition asks for more exactly while its goal is not reached, and then for the
      whole way to its ceiling; so no reply can push a transfer past the ceiling. */
  lemma AskMeaning(c: Condition, size: nat, done: nat)
    ensures Ask(c, size, done) == if done < Goal(c, size) then Ceiling(c, size) - done else 0
    ensures Ask(c, size, done) > 0 <==> done < Goal(c, size)
  {
  }
}

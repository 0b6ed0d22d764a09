/** What the kernel returns, to a blocking call and in the completion of an SQE. */
module Syscalls {

  /** An error, or a number of bytes or events; `cqe_ref::to_result` tells them apart by the sign. */
  datatype Reply = Fail(error: int) | Count(n: nat)
}

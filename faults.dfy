/** The ways one execution step of the simulator can abort. Each constructor
    stands for one `panic!`/`unimplemented!` site of the Rust simulator (or,
    for IndexUnderflow, for the `usize` subtraction that cannot be done). */
module Faults {

  datatype Fault =
    | Unimplemented         // an operation other than mov/add/sub/cmp
    | NoLegalDestination    // mov or u16_ptr given an operand it cannot use
    | IllegalOperand        // add/sub/cmp source that is neither register nor immediate
    | IllegalOperationType  // an arithmetic helper called for a non-arithmetic op
    | IllegalAccess         // register index above 13
    | IndexUnderflow        // register index 0: `idx - 1` underflows

  /** The outcome of a step: a value, or the fault that aborted it. */
  datatype Result<T> = Ok(value: T) | Err(fault: Fault)
}

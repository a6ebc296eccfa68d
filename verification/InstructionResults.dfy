/** Outcomes of an EVM frame (interpreter/src/instruction_result.rs). */
module InstructionResults {
  datatype InstructionResult =
    | Continue | Stop | Return | SelfDestruct
    | Revert | CallTooDeep | OutOfFund
    | OutOfGas | MemoryOOG | MemoryLimitOOG | PrecompileOOG | InvalidOperandOOG
    | OpcodeNotFound | CallNotAllowedInsideStatic | StateChangeDuringStaticCall
    | InvalidFEOpcode | InvalidJump | NotActivated | StackUnderflow | StackOverflow
    | OutOfOffset | CreateCollision | OverflowPayment | PrecompileError | NonceOverflow
    | CreateContractSizeLimit | CreateContractStartingWithEF | CreateInitcodeSizeLimit
    | FatalExternalError
    | ImplicitBugHit | CrossContractControlLeak
  {
    /** The macro return_ok. */
    predicate IsOk() {
      Continue? || Stop? || Return? || SelfDestruct?
    }

    /** The macro return_revert. */
    predicate IsRevert() {
      Revert? || CallTooDeep? || OutOfFund?
    }

    /** Results that `transact` turns into a database error. */
    predicate IsFatal() {
      FatalExternalError? || ImplicitBugHit? || CrossContractControlLeak?
    }
  }
}

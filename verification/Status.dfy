// Outcome of a compilation step: luaX_syntaxerror leaves the compiler, so every step can fail.
module Status {
  datatype CompileError = ControlStructureTooLong | ExpressionTooComplex

  datatype Status = Done | Failed(error: CompileError) {
    predicate IsFailure() {
      Failed?
    }

    function PropagateFailure(): Status
      requires Failed?
    {
      this
    }
  }
}

/** Result codes of the loader (their numeric values are defined outside this
    model) and the validator's named constants. */
module TapConstants {

  /** Return codes of the loader's entry points. */
  datatype LoadCode =
    | TL_OK
    | TL_FILEERROR
    | TL_ORACLEERROR
    | TL_WRONGCODE
    | TL_AUDITFAULT
    | TL_NEWCOMPONENT
    | TL_MISSINGSTRUCT

  /** Validation outcomes, with the numeric values of the validator's header. */
  datatype ValidationResult = TapValid | FatalError | SevereError | ValidationImpossible | WrongAddressee | FileDuplication

  function ValidationCode(r: ValidationResult): (code: int)
    ensures code in {0, 1, 2, 3, 5, 6}
  {
    match r
    case TapValid => 0
    case FatalError => 1
    case SevereError => 2
    case ValidationImpossible => 3
    case WrongAddressee => 5
    case FileDuplication => 6
  }

  // Valid ranges
  const START_TAP_SEQUENCE_NUM := 1
  const END_TAP_SEQUENCE_NUM := 99999
  const TAP_DECIMAL_VALID_FROM := 0
  const TAP_DECIMAL_VALID_TO := 6
  const TAX_RATE_VALID_FROM := 0
  const TAX_RATE_VALID_TO := 9999999

  // Error codes of the transfer batch section
  const TF_BATCH_BATCH_CONTROL_INFO_MISSING := 30
  const TF_BATCH_ACCOUNTING_INFO_MISSING := 31
  const TF_BATCH_NETWORK_INFO_MISSING := 32
  const TF_BATCH_CALL_EVENTS_MISSING := 35
  const TF_BATCH_AUDIT_CONTROL_INFO_MISSING := 36
}

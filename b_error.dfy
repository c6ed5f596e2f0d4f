/**
 * The backup error value `BError`: a code from a fixed enumeration plus an
 * extra message. Only the numeric value crosses a process boundary.
 */
module BErrors {
  import opened Base

  /** The enumerators of `BError::Codes` that the modelled code uses. */
  datatype Code =
    | OK
    | UTILS_INVAL_JSON_ENTITY
    | SA_BROKEN_ROOT_DIR
    | SDK_INVAL_ARG
    | EXT_INVAL_ARG
    | EXT_BROKEN_FRAMEWORK
    | EXT_BROKEN_BACKUP_SA
    | EXT_BROKEN_IPC

  /**
   * The numeric value of each code. The enumeration's header is not part of
   * this model: the values below are placeholders grouped by module, and the
   * proofs rely only on OK being 0 and on the values being pairwise distinct
   * and distinct from the errno values in Base.
   */
  function Value(c: Code): ErrCode
  {
    match c
    case OK => 0
    case UTILS_INVAL_JSON_ENTITY => 0x1001
    case SA_BROKEN_ROOT_DIR => 0x2003
    case SDK_INVAL_ARG => 0x3001
    case EXT_INVAL_ARG => 0x4001
    case EXT_BROKEN_FRAMEWORK => 0x4002
    case EXT_BROKEN_BACKUP_SA => 0x4003
    case EXT_BROKEN_IPC => 0x4004
  }

  datatype BError = BError(code: Code, extraMsg: string)

  /** `BError()`: the default-constructed error. */
  function Default(): (e: BError)
    ensures !ToBool(e) && ToInt(e) == 0
  {
    BError(OK, "")
  }

  /** `GetRawCode`: the enumerator the error was built with. */
  function GetRawCode(e: BError): Code
  {
    e.code
  }

  /** `GetCode`: the numeric value reported across the process boundary. */
  function GetCode(e: BError): (r: ErrCode)
    ensures r == 0 <==> e.code == OK
    ensures r != EPERM && r != ENOENT && r != EINVAL && r != EPIPE
  {
    Value(e.code)
  }

  /** `explicit operator bool`: true exactly for an actual error. */
  function ToBool(e: BError): (r: bool)
    ensures r <==> GetCode(e) != 0
  {
    e.code != OK
  }

  /** `operator int`: the numeric code. */
  function ToInt(e: BError): ErrCode
  {
    GetCode(e)
  }

  /** `BError(c).GetCode()`, the shape every caller uses. */
  function CodeOf(c: Code): ErrCode
  {
    GetCode(BError(c, ""))
  }

  /** Two errors report the same number exactly when they carry the same code. */
  lemma CodeIdentity(a: BError, b: BError)
    ensures GetCode(a) == GetCode(b) <==> a.code == b.code
  {
  }

  /** `BError(OK).GetCode()` is 0, also with an empty extra message. */
  lemma OkCodeIsZero(msg: string)
    ensures GetCode(BError(OK, msg)) == 0 && CodeOf(OK) == 0
  {
  }

  /** `GetRawCode` returns the code the error was constructed with. */
  lemma RawCodeIsConstructionCode(c: Code, msg: string)
    ensures GetRawCode(BError(c, msg)) == c
  {
  }

  /** The extra message does not influence the reported number. */
  lemma MessageIrrelevant(c: Code, m1: string, m2: string)
    ensures GetCode(BError(c, m1)) == GetCode(BError(c, m2))
  {
  }
}

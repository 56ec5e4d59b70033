/** Return codes, statement states and error numbers shared by the result
    functions of the ODBC driver, and the driver's bounded string copy. */
module OdbcCodes {

  datatype Option<T> = None | Some(value: T)

  /** The ODBC return codes the result functions produce. */
  datatype RetCode = Success | SuccessWithInfo | NoDataFound | Error
  {
    /** The numeric value the ODBC headers give the code. */
    function Value(): (v: int)
      ensures v == 0 <==> this == Success
    {
      match this
      case Success => 0
      case SuccessWithInfo => 1
      case NoDataFound => 100
      case Error => -1
    }
  }

  /** Life-cycle state of a statement; the result functions only tell
      Executing, Finished and Premature apart from the rest. */
  datatype Status = Allocated | Ready | Premature | Finished | Executing

  /** The statement's error number. NoError is what clearing the error leaves. */
  datatype ErrNo =
    | NoError
    | ExecError
    | StatusError
    | SequenceError
    | InternalError
    | NotImplemented
    | InvalidColumnNumber
    | RestrictedDataType
    | InvalidCursorState
    | NoCursorName
    | InvalidCursorName
    | Truncated

  /** Length argument meaning "the string is NUL-terminated". */
  const SQL_NTS: int := -3
  /** Length argument meaning "NULL data". */
  const SQL_NULL_DATA: int := -1

  const FALSE: int := 0
  const TRUE: int := 1

  function Min(a: int, b: int): int { if a < b then a else b }

  /** strncpy_null(dst, src, len): copy `src` into a buffer of `len` bytes,
      keeping room for the terminator. SQL_NTS sizes the buffer to the whole
      string and SQL_NULL_DATA empties it. None: the buffer is left as it was. */
  function StrNCopyNull(src: string, len: int): (r: Option<string>)
    ensures r.Some? ==> r.value <= src
    ensures len == SQL_NTS ==> r == Some(src)
    ensures len == SQL_NULL_DATA ==> r == Some([])
    ensures len >= 1 ==> r.Some? && |r.value| <= len - 1 && (|src| <= len - 1 ==> r.value == src)
    ensures len >= 1 && |src| > len - 1 ==> |r.value| == len - 1
    ensures (len == 0 || len == -2 || len < SQL_NTS) <==> r.None?
  {
    if len == SQL_NULL_DATA then Some([])
    else if len == SQL_NTS then Some(src)
    else if len >= 1 then Some(src[..Min(|src|, len - 1)])
    else None
  }
}

/** The named-cursor registry: what SQLSetCursorName accepts and stores, and
    what SQLGetCursorName hands back. */
module CursorNames {
  import opened OdbcCodes

  /** The length SQLSetCursorName checks: strlen of the name for SQL_NTS,
      otherwise the caller's count. */
  function NameLength(text: string, cbCursor: int): (len: int)
    ensures cbCursor == SQL_NTS ==> len == |text|
    ensures cbCursor != SQL_NTS ==> len == cbCursor
  {
    if cbCursor == SQL_NTS then |text| else cbCursor
  }

  /** SQLSetCursorName's check against a name slot of `size` bytes. */
  predicate NameAccepted(text: string, cbCursor: int, size: nat) {
    var len := NameLength(text, cbCursor);
    0 < len && len <= size - 1
  }

  /** The name SQLSetCursorName stores: strncpy_null is handed cbCursor
      itself as the buffer size, so an explicit length keeps one character
      less than it counts. */
  function StoredName(text: string, cbCursor: int): (name: string)
    requires cbCursor == SQL_NTS || cbCursor >= 1
    ensures name <= text
    ensures cbCursor == SQL_NTS ==> name == text
    ensures cbCursor >= 1 ==> |name| == Min(|text|, cbCursor - 1)
  {
    StrNCopyNull(text, cbCursor).value
  }

  /** An accepted name can be stored, and what is stored fits the slot with
      its terminator. */
  lemma AcceptedNameFits(text: string, cbCursor: int, size: nat)
    requires NameAccepted(text, cbCursor, size)
    ensures cbCursor == SQL_NTS || cbCursor >= 1
    ensures |StoredName(text, cbCursor)| < size
  {
  }

  /** With an explicit length of a name's own size, its last character is
      not stored: ("abc", 3) stores "ab", and ("a", 1) stores the empty name. */
  lemma ExplicitLengthDropsLast(text: string, cbCursor: int)
    requires 1 <= cbCursor <= |text|
    ensures StoredName(text, cbCursor) == text[..cbCursor - 1]
    ensures cbCursor == 1 ==> StoredName(text, cbCursor) == []
  {
  }

  /** What SQLGetCursorName reports: its return code, the error number it
      records (None: left as it was), the text copied into the caller's
      buffer (None: buffer untouched) and the length written to pcbCursor. */
  datatype NameReply = NameReply(rc: RetCode, err: Option<ErrNo>, copied: Option<string>, length: Option<int>)

  /** SQLGetCursorName for a stored name and a buffer of cbCursorMax bytes. */
  function CursorNameReply(stored: string, cbCursorMax: int): (r: NameReply)
    ensures r.rc == Error <==> stored == []
    ensures r.rc != Error ==> r.rc == Success
    ensures stored == [] ==> r.err == Some(NoCursorName) && r.copied.None? && r.length.None?
    ensures stored != [] ==> r.err.None? && r.copied == StrNCopyNull(stored, cbCursorMax)
    ensures r.copied.Some? ==> r.length == Some(|r.copied.value|) && r.copied.value <= stored
  {
    if stored == [] then NameReply(Error, Some(NoCursorName), None, None)
    else
      var copied := StrNCopyNull(stored, cbCursorMax);
      NameReply(Success, None, copied, if copied.Some? then Some(|copied.value|) else None)
  }

  /** A name set with SQL_NTS is read back whole through a buffer large
      enough for it and its terminator. */
  lemma NameRoundTrip(text: string, size: nat, cbCursorMax: int)
    requires NameAccepted(text, SQL_NTS, size)
    requires cbCursorMax > |text|
    ensures CursorNameReply(StoredName(text, SQL_NTS), cbCursorMax) == NameReply(Success, None, Some(text), Some(|text|))
  {
  }
}

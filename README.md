# ODBC result cursor and fetch engine, in Dafny

This project models the result functions of the PostgreSQL ODBC driver,
`src/interfaces/odbc/results.c`. It covers the statement's row pointer
(`currTuple`), how SQLFetch and SQLExtendedFetch move it, and SQLGetData's
single-cell reads with their continuation flag. It also covers SQLRowCount's
reading of the command-completion tag, the metadata calls (SQLNumResultCols,
SQLDescribeCol, SQLColAttributes) and the cursor-name registry
(SQLSetCursorName, SQLGetCursorName). The three fixed stubs SQLMoreResults,
SQLSetPos and SQLSetScrollOptions are modelled as well.

Layout:

- `odbc_codes.dfy` (`OdbcCodes`): return codes, statement states, error
  numbers, and the bounded string copy `strncpy_null` as the driver uses it.
- `conversion.dfy` (`Conversion`): the conversion engine is an oracle. This
  module holds the two switches that turn its COPY_* report into a return code
  and an error number, and SQLFetch's loop over the bound columns.
- `row_count.dfy` (`RowCount`): trim, strrchr and atoi, and the tag rule.
- `metadata.dfy` (`Metadata`): the metadata guard, the SQLDescribeCol and
  SQLColAttributes fix-ups, and the type catalog as an oracle.
- `cursor_names.dfy` (`CursorNames`): what a cursor name must satisfy, what is
  stored, and what is read back.
- `fetch_engine.dfy` (`FetchEngine`): the cursor operations as functions over
  a snapshot (`Cursor`) of the statement fields they read and write.
- `fetch_properties.dfy` (`FetchProperties`): lemmas about those functions.
  They cover guard order, every SQLExtendedFetch direction, the pointer range,
  continuation of partial reads, and two worked scenarios.
- `results.dfy` (`Results`): the statement handle as a class, `Statement`,
  with one method per entry point. Each method updates the fields in place,
  exactly as the C code does. Its `ensures` ties the new state to the
  specification function of the same operation, through `View()`.

The oracles are:

- `next`: what QR_next_tuple reports on a declared cursor. Below 0 means no
  more rows, above 0 means a row, and 0 means an error.
- `convert`: what the conversion engine reports for each cell.
- `Catalog`: a record of uninterpreted functions standing for `pgtype_*`.

The model keeps these quirks of the code:

- A truncation ends SQLFetch's column loop, so later bound columns are not
  converted.
- SQLGetData's two status guards record an error but return SQL_SUCCESS.
- "CREATE TABLE" yields a row count of 0, not -1.
- The maxRows stop is an equality test, and it pins the pointer at numTuples.
- ABSOLUTE(n) with n < -numTuples succeeds at a negative row index. This is
  exposed as a lemma, `NegativeAbsolutePastStart`, not excluded by a
  precondition.
- SQLExtendedFetch moves the pointer before SQLFetch validates the statement.

Further behaviour of the code that the lemmas make explicit:

- SQLFetch does not reset the last-read column (`current_col`) when the
  pointer moves (results.c:611-643 never writes it), so a read of the same
  column on the next row is flagged as a continuation
  (`ContinuationSurvivesFetch`).
- LAST on an empty result sets the pointer to -1 (results.c:757), and the
  step then pins it at numTuples (results.c:613-619) (`LastOnEmptyResult`).
- A pointer already past row maxRows-1 keeps advancing, because the stop
  tests `currTuple == maxRows - 1` (results.c:614) (`MaxRowsIsEqualityTest`).
  With maxRows = numTuples-1, LAST reports no data (`LastMeetsMaxRows`).
- Under declare-fetch SQLExtendedFetch returns SQL_ERROR for every direction
  before writing anything (results.c:723-724).

## Model

| member | source | states |
|---|---|---|
| OdbcCodes.StrNCopyNull | src/interfaces/odbc/results.c:882 | the copy is a prefix of the source; SQL_NTS copies all of it; a buffer of len >= 1 receives at most len-1 characters, and all of them when they fit; SQL_NULL_DATA empties the buffer; 0, -2 and lengths below SQL_NTS leave it untouched |
| Conversion.GetDataReturn | src/interfaces/odbc/results.c:527-556 | SQLGetData's switch, one iff per outcome: OK gives SUCCESS; TRUNCATED gives SUCCESS_WITH_INFO with STMT_TRUNCATED; NO_DATA_FOUND gives NO_DATA; an unsupported type or conversion gives ERROR with RESTRICTED_DATA_TYPE; GENERAL_ERROR gives ERROR and keeps the error number; any other code gives ERROR with INTERNAL_ERROR |
| Conversion.FetchColumnReturn | src/interfaces/odbc/results.c:675-697 | SQLFetch's test of one bound column: only COPY_OK continues; TRUNCATED is the one non-error stop; unsupported type or conversion gives RESTRICTED_DATA_TYPE; everything else gives INTERNAL_ERROR |
| Conversion.FirstFailure | src/interfaces/odbc/results.c:647-699 | the first bound column, in ascending order, whose conversion is not COPY_OK; every bound column before it converts cleanly |
| Conversion.BoundColumnsOutcome | src/interfaces/odbc/results.c:645-701 | the loop returns SUCCESS iff every bound column converts to COPY_OK; a non-success outcome always records an error number |
| Conversion.ConvertBoundColumns | src/interfaces/odbc/results.c:645-701 | the column loop computes exactly the outcome of the first failing bound column, or SUCCESS |
| Conversion.LaterColumnsIgnored | src/interfaces/odbc/results.c:685-690 | columns after the first failing one, a truncation included, never influence the fetch's outcome |
| Conversion.GeneralErrorReadsDifferently | src/interfaces/odbc/results.c:692-696 | COPY_GENERAL_ERROR and COPY_NO_DATA_FOUND become INTERNAL_ERROR in SQLFetch, while SQLGetData reports them as ERROR without a new error number and as NO_DATA |
| Conversion.MappingsAgree | src/interfaces/odbc/results.c:527-556 | for every other non-OK code, the two switches give the same return code and error number |
| RowCount.TrimTrailing | src/interfaces/odbc/results.c:61 | trim yields a prefix of the tag that does not end in a blank; everything removed is blanks |
| RowCount.LastIndexOf | src/interfaces/odbc/results.c:62 | strrchr: absent iff the character does not occur; otherwise the index of an occurrence with none after it |
| RowCount.Atoi | src/interfaces/odbc/results.c:64 | atoi of an empty string, or of one that starts with neither a blank, a sign nor a digit, is 0 |
| RowCount.TagRowCount | src/interfaces/odbc/results.c:59-71 | a trimmed tag without any blank gives -1 |
| RowCount.AtoiOfDecimal | src/interfaces/odbc/results.c:64 | atoi reads back every non-negative count written in decimal |
| RowCount.FinalWord | src/interfaces/odbc/results.c:61-64 | for a tag that ends in a blank-free word after a blank, the count is atoi of that word |
| RowCount.CountOfCompletionTag | src/interfaces/odbc/results.c:59-66 | a tag "verb n" reports n, for any verb and any count n |
| RowCount.TrailingBlankIgnored | src/interfaces/odbc/results.c:61 | trailing blanks on a tag do not change the count |
| RowCount.CountOfTrimmedTag | src/interfaces/odbc/results.c:61 | trimming is idempotent, so the tag trimmed in place gives the same count again |
| RowCount.DeleteTag | src/interfaces/odbc/results.c:62-64 | "DELETE 12" gives 12 |
| RowCount.InsertTag | src/interfaces/odbc/results.c:62-64 | "INSERT 0 1" gives 1, the last word, not the oid |
| RowCount.CreateTableTag | src/interfaces/odbc/results.c:62-64 | "CREATE TABLE" gives 0, not -1 |
| RowCount.BeginTag | src/interfaces/odbc/results.c:67-68 | "BEGIN", a tag with no blank, gives -1 |
| Metadata.ColumnGuard | src/interfaces/odbc/results.c:161-173 | SEQUENCE_ERROR iff there is no result or the status is neither FINISHED nor PREMATURE; otherwise NOT_IMPLEMENTED iff icol is 0; the guards pass iff both hold |
| Metadata.DescribePrecision | src/interfaces/odbc/results.c:221-223 | a negative precision becomes 0; any other passes unchanged |
| Metadata.DescribeScale | src/interfaces/odbc/results.c:232-233 | a scale of -1 becomes 0; any other passes unchanged |
| Metadata.AutoIncrementAttr | src/interfaces/odbc/results.c:302-304 | -1 (non-numeric) becomes FALSE; any other passes unchanged |
| Metadata.UnsignedAttr | src/interfaces/odbc/results.c:404-406 | -1 (non-numeric) becomes TRUE; any other passes unchanged |
| Metadata.AttrPolicy | src/interfaces/odbc/results.c:295-297 | SQLColAttributes never uses UNKNOWNS_AS_DONTKNOW; other policies pass unchanged |
| Metadata.DescribeColumn | src/interfaces/odbc/results.c:177-242 | the name outputs are written iff cbColNameMax >= 1; a missing name gives length 0 and ""; otherwise the full length and the name copied by strncpy_null (whole when it fits, else its first cbColNameMax-1 characters); the SQL type and nullability come from the catalog; a negative precision is reported as 0 and any other unchanged; a scale of -1 is reported as 0 and any other unchanged |
| Metadata.ColumnAttribute | src/interfaces/odbc/results.c:299-424 | an unknown kind writes nothing; the six text kinds write text; AUTO_INCREMENT and UNSIGNED are the catalog's answer with -1 read as FALSE and TRUE, any other value unchanged; PRECISION, LENGTH and DISPLAY_SIZE are the catalog's answer under the adjusted unknown-size policy; TYPE, SCALE, NULLABLE, MONEY, SEARCHABLE and CASE_SENSITIVE are the catalog's answer unchanged; UPDATABLE is always SQL_ATTR_WRITE; COUNT is the column count; NAME, LABEL and TYPE_NAME give the bounded copy of the name and its full length; owner, qualifier and table names are strncpy_null of "" into the buffer (so "" for any usable buffer size) with length 0 |
| Metadata.DontKnowReadsAsMax | src/interfaces/odbc/results.c:295-297 | every attribute under "don't know" equals the attribute under "max" |
| Metadata.FixupsOnlyInDescribe | src/interfaces/odbc/results.c:373-376 | SQLColAttributes passes a scale of -1 and a negative precision through unchanged, where SQLDescribeCol reports 0 |
| CursorNames.StoredName | src/interfaces/odbc/results.c:855 | the stored name is a prefix of the given one: all of it for SQL_NTS, min(length, cbCursor-1) characters otherwise |
| CursorNames.AcceptedNameFits | src/interfaces/odbc/results.c:850-855 | an accepted name can be stored and fits the slot with its terminator |
| CursorNames.ExplicitLengthDropsLast | src/interfaces/odbc/results.c:855 | an explicit length within the name stores one character less than it counts, so length 1 stores "" |
| CursorNames.CursorNameReply | src/interfaces/odbc/results.c:876-887 | ERROR with NO_CURSOR_NAME iff the stored name is empty, with nothing written; otherwise SUCCESS, the bounded copy of the name, and the length of what was copied |
| CursorNames.NameRoundTrip | src/interfaces/odbc/results.c:855-887 | a name set with SQL_NTS is read back whole, with its length, through a buffer large enough for it |
| FetchEngine.ForwardStep | src/interfaces/odbc/results.c:611-643 | materialised: a stop iff on the last row or on row maxRows-1, which gives NO_DATA pinned at numTuples; otherwise +1. Declared: +1 iff the backend gives a row; no data leaves the pointer; 0 is EXEC_ERROR |
| FetchEngine.Fetch | src/interfaces/odbc/results.c:574-702 | only currTuple and the error number change; a failed guard gives ERROR and leaves the pointer; SUCCESS clears the error; a delivered row is exactly one step forward |
| FetchEngine.Preposition | src/interfaces/odbc/results.c:734-781 | the row each direction asks the forward step for: NEXT the next row, PRIOR the previous one (NO_DATA with nothing changed at or before row 0), FIRST row 0, LAST row numTuples-1 (row 0 when empty), ABSOLUTE(n>0) row n-1, ABSOLUTE(n<0) row numTuples+n; ABSOLUTE(0) positions before the first row with NO_DATA and no fetch; any other direction is ERROR with the pointer unchanged |
| FetchEngine.ExtendedFetch | src/interfaces/odbc/results.c:720-795 | declare-fetch gives ERROR with nothing written; otherwise pcrow is 1 and the row status ROW_SUCCESS iff the inner fetch returns SQL_SUCCESS, else 0 and ROW_NOROW; only currTuple and the error number change |
| FetchEngine.GetData | src/interfaces/odbc/results.c:450-557 | only the last-read column and the error number change; the engine is called iff the statement is finished, 1 <= icol <= numCols and on a valid row; the continuation flag is "same column as last time"; the last-read column becomes icol-1; when refused, an error is recorded and the code is SUCCESS iff the status was not FINISHED |
| FetchProperties.FetchGuardOrder | src/interfaces/odbc/results.c:579-606 | no result, then EXECUTING, then not FINISHED, then no bindings, with SEQUENCE, SEQUENCE, STATUS and SEQUENCE errors; none of them moves the pointer |
| FetchProperties.MaterialisedFetchStep | src/interfaces/odbc/results.c:611-701 | on a materialised result: NO_DATA pinned at numTuples, with no error, on the last row or row maxRows-1; otherwise exactly +1, with the return code and the error number (RESTRICTED_DATA_TYPE, TRUNCATED, INTERNAL_ERROR or none) of the column loop |
| FetchProperties.DeclaredCursorFetchStep | src/interfaces/odbc/results.c:626-701 | on a declared cursor: no more rows gives NO_DATA with the pointer unchanged and no error number; 0 gives EXEC_ERROR with the pointer unchanged; a row gives +1, with the return code and the error number of the column loop |
| FetchProperties.DeliveredRowIsReadable | src/interfaces/odbc/results.c:613-624 | after a materialised fetch that delivers a row from -1 or later, SQLGetData finds a valid row |
| FetchProperties.FetchKeepsPointerInRange | src/interfaces/odbc/results.c:613-624 | a materialised fetch keeps the pointer within -1..numTuples |
| FetchProperties.MaxRowsIsEqualityTest | src/interfaces/odbc/results.c:613-614 | a pointer already past row maxRows-1 keeps advancing |
| FetchProperties.MaxRowsStopPinsAtNumTuples | src/interfaces/odbc/results.c:613-620 | stopping at row maxRows-1 pins the pointer at numTuples, not at maxRows |
| FetchProperties.DeclareFetchRefusesEveryDirection | src/interfaces/odbc/results.c:723-724 | under declare-fetch every direction, LAST included, gives ERROR with no state change |
| FetchProperties.NextIsFetch | src/interfaces/odbc/results.c:735-737 | NEXT is exactly one SQLFetch step from the current row, and reports one row iff that step returns SQL_SUCCESS |
| FetchProperties.PriorAtStart | src/interfaces/odbc/results.c:743-744 | PRIOR at or before row 0 gives NO_DATA and changes nothing |
| FetchProperties.PriorStepsBack | src/interfaces/odbc/results.c:739-747 | PRIOR from row c, with 1 <= c <= numTuples and no maxRows, lands on row c-1 |
| FetchProperties.FirstLandsOnFirstRow | src/interfaces/odbc/results.c:749-753 | FIRST on a non-empty result lands on row 0 |
| FetchProperties.LastLandsOnLastRow | src/interfaces/odbc/results.c:755-758 | LAST on a non-empty result lands on row numTuples-1, unless maxRows is exactly numTuples-1 |
| FetchProperties.LastMeetsMaxRows | src/interfaces/odbc/results.c:755-758 | with maxRows = numTuples-1, LAST gives NO_DATA pinned at numTuples |
| FetchProperties.LastOnEmptyResult | src/interfaces/odbc/results.c:757 | LAST on an empty result gives NO_DATA and pins the pointer at numTuples |
| FetchProperties.AbsoluteZero | src/interfaces/odbc/results.c:764-767 | ABSOLUTE(0) gives NO_DATA at -1 without fetching, whatever the status |
| FetchProperties.AbsoluteWithinResult | src/interfaces/odbc/results.c:769-771 | ABSOLUTE(n), 1 <= n <= numTuples and no maxRows, lands on row n-1 |
| FetchProperties.AbsoluteBeyondEnd | src/interfaces/odbc/results.c:769-771 | ABSOLUTE(n), n > numTuples, gives NO_DATA at numTuples and a row count of 0 |
| FetchProperties.AbsoluteFromEnd | src/interfaces/odbc/results.c:773-775 | ABSOLUTE(-k), 1 <= k <= numTuples and no maxRows, lands on row numTuples-k |
| FetchProperties.NegativeAbsolutePastStart | src/interfaces/odbc/results.c:773-775 | ABSOLUTE(n), n < -numTuples, returns SUCCESS with one row at a negative index, where SQLGetData then reports INVALID_CURSOR_STATE |
| FetchProperties.UnknownDirection | src/interfaces/odbc/results.c:778-779 | any other direction gives ERROR with nothing changed |
| FetchProperties.PositionedBeforeValidation | src/interfaces/odbc/results.c:746-785 | on an unfinished statement, FIRST and ABSOLUTE(n>0) fail but leave the pointer at -1 and n-2 |
| FetchProperties.ExtendedFetchKeepsPointerInRange | src/interfaces/odbc/results.c:734-785 | on a statement whose fetch guards pass, with the pointer within -1..numTuples, every direction keeps it there, except ABSOLUTE(n) with n < -numTuples; a refused fetch can leave it outside (see PositionedBeforeValidation) |
| FetchProperties.GetDataGuardOrder | src/interfaces/odbc/results.c:455-512 | EXECUTING and not FINISHED return 0 (SQL_SUCCESS) with SEQUENCE and STATUS errors; then column 0, a column past numCols and no valid row give ERROR with NOT_IMPLEMENTED, INVALID_COLUMN_NUMBER and INVALID_CURSOR_STATE |
| FetchProperties.GetDataReportsConversion | src/interfaces/odbc/results.c:518-556 | past the guards, the code and error are the conversion switch's and the last-read column is icol-1, whatever the outcome |
| FetchProperties.SameColumnContinues | src/interfaces/odbc/results.c:519-525 | a second read of the same column is a continuation, whatever the first returned |
| FetchProperties.OtherColumnRestarts | src/interfaces/odbc/results.c:519-525 | a read of another valid column starts afresh |
| FetchProperties.ContinuationSurvivesFetch | src/interfaces/odbc/results.c:519-525 | after a successful fetch, reading the same column on the new row is still flagged as a continuation |
| FetchProperties.ThreeRowWalk | src/interfaces/odbc/results.c:749-792 | on three rows: FIRST, NEXT, NEXT land on rows 0, 1, 2; a further NEXT gives NO_DATA pinned at 3 |
| FetchProperties.MaxRowsWalk | src/interfaces/odbc/results.c:611-624 | on three rows with maxRows 2: rows 0 and 1, then NO_DATA pinned at 3 |
| Results.Statement.RowCount | src/interfaces/odbc/results.c:35-78 | SELECT: SUCCESS iff finished with a result, giving 0 under declare-fetch, else numTuples. Otherwise: SUCCESS iff a result exists, giving the tag's count, with the tag trimmed in place. ERROR otherwise, with no count |
| Results.Statement.NumResultCols | src/interfaces/odbc/results.c:85-118 | clears the error; the column count iff the result is usable, else SEQUENCE_ERROR |
| Results.Statement.DescribeCol | src/interfaces/odbc/results.c:125-245 | clears the error; the guards record their error; otherwise SUCCESS with the column's description |
| Results.Statement.ColAttributes | src/interfaces/odbc/results.c:249-427 | the guards record their error; otherwise SUCCESS with the attribute, and an earlier error number left in place |
| Results.Statement.GetData | src/interfaces/odbc/results.c:431-557 | the in-place updates of the last-read column and the error number give exactly the new state and outputs of FetchEngine.GetData |
| Results.Statement.Fetch | src/interfaces/odbc/results.c:562-702 | the guards, the step and the column loop give exactly the new state and code of FetchEngine.Fetch |
| Results.Statement.ExtendedFetch | src/interfaces/odbc/results.c:706-796 | the pointer rewrite and the call to Fetch give exactly the new state and outputs of FetchEngine.ExtendedFetch |
| Results.Statement.MoreResults | src/interfaces/odbc/results.c:803-807 | always NO_DATA: there is never a second result set |
| Results.Statement.SetPos | src/interfaces/odbc/results.c:811-818 | always ERROR |
| Results.Statement.SetScrollOptions | src/interfaces/odbc/results.c:822-829 | always ERROR |
| Results.Statement.SetCursorName | src/interfaces/odbc/results.c:834-857 | an accepted name (0 < length <= slot size - 1) is stored and the error is left alone; any other gives INVALID_CURSOR_NAME with the name unchanged; the stored name always fits the slot |
| Results.Statement.GetCursorName | src/interfaces/odbc/results.c:861-888 | replies as CursorNameReply does, and records NO_CURSOR_NAME exactly when it replies with an error |

## Left out

- Logging (`mylog`), the error message texts (`errormsg`), the SQL_INVALID_HANDLE check for a null handle, and null output pointers. Every output is taken to be present; SQLRowCount's error for a null `pcrow` is not modelled.
- `SC_pre_execute` in the three metadata calls is not part of this model. Those calls are modelled on the statement state it leaves behind.
- The tuple cache and the backend session (`QR_next_tuple`, `QR_get_value_*`, `QR_end_tuples`, `QR_get_num_tuples`). Their results appear as the `next` parameter and the `numTuples` and `endTuples` fields. The cell values themselves are not modelled, since the conversion engine is an oracle.
- The conversion engine (`copy_and_convert_field`, `copy_and_convert_field_bindinfo`) and the type catalog (`pgtype_*`) are oracles. What they write into caller buffers is not modelled.
- `strncpy_null` and `trim` live in `misc.c`, which is not part of this model. `OdbcCodes.StrNCopyNull` models it as follows:
  - a buffer of `len` bytes receives at most `len-1` characters and a terminator;
  - SQL_NTS copies the whole string;
  - SQL_NULL_DATA empties the buffer;
  - any other length leaves it untouched.
- Results.Statement.GetCursorName: when `strncpy_null` leaves the caller's buffer untouched, `strlen` of that buffer is unknown, so no length is reported.
- `Cursor.WellFormed` requires allocated bindings to cover every result column. The C code indexes `bindings[lf]` for every column without checking.
- FetchEngine.ExtendedFetch, Results.Statement.ExtendedFetch: without declare-fetch a result is required. The C code calls `QR_get_num_tuples` on it before any check (results.c:732).
- FetchEngine.GetData, Results.Statement.GetData: on COPY_GENERAL_ERROR the conversion engine fills in the statement's error itself (results.c:546). The oracle reports only the code, so the model leaves the error number as it was.
- FetchEngine.GetData, Results.Statement.GetData: when the statement is finished and icol != 0, a result is required. The C code calls `QR_NumResultCols` on it before any check.
- Results.Statement.DescribeCol, Results.Statement.ColAttributes: the column index is required to be at most the column count once the guards pass. The C code reads the field array without checking it.
- Metadata.ColumnAttribute: NAME and LABEL require a column name. The C code takes `strlen` of it without a null check.
- Integer widths (SWORD, SDWORD, UWORD) and their overflow are not modelled; integers are unbounded.
- `RowCount.Atoi` does not model overflow or locale-specific white space beyond the C locale.
- RowCount.TagRowCount, RowCount.Atoi: their own contracts state only the no-blank and no-digit cases. What a count reads as is stated by the lemmas about them, `CountOfCompletionTag`, `FinalWord` and the tag examples.

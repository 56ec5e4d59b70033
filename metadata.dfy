/** The result metadata calls (SQLNumResultCols, SQLDescribeCol,
    SQLColAttributes): their status guard, and the fix-ups they apply to what
    the type catalog answers. */
module Metadata {
  import opened OdbcCodes

  /** How the catalog reports sizes it cannot know (globals.unknown_sizes). */
  datatype UnknownSizes = UnknownsAsMax | UnknownsAsDontKnow | UnknownsAsLongest

  /** The type catalog (pgtype_*): its answers, keyed by the server type oid
      and, for the size queries, by the column and the unknown-size policy. */
  datatype Catalog = Catalog(
    toSqlType: int -> int,
    toName: int -> string,
    precision: (int, nat, UnknownSizes) -> int,
    displaySize: (int, nat, UnknownSizes) -> int,
    length: (int, nat, UnknownSizes) -> int,
    scale: int -> int,
    nullable: int -> int,
    autoIncrement: int -> int,
    caseSensitive: int -> int,
    money: int -> int,
    searchable: int -> int,
    unsignedness: int -> int)

  /** One result column as the result's column info holds it; the name may be absent. */
  datatype Field = Field(name: Option<string>, oid: int)

  /** The statement has a result whose metadata may be read. */
  predicate ResultUsable(hasResult: bool, status: Status) {
    hasResult && (status == Finished || status == Premature)
  }

  /** The guards of SQLDescribeCol and SQLColAttributes, in order: first the
      result and status, then the bookmark column. None: both pass. */
  function ColumnGuard(hasResult: bool, status: Status, icol: nat): (r: Option<ErrNo>)
    ensures r == Some(SequenceError) <==> !ResultUsable(hasResult, status)
    ensures r == Some(NotImplemented) <==> ResultUsable(hasResult, status) && icol == 0
    ensures r.None? <==> ResultUsable(hasResult, status) && icol >= 1
  {
    if !ResultUsable(hasResult, status) then Some(SequenceError)
    else if icol < 1 then Some(NotImplemented)
    else None
  }

  /** SQLDescribeCol's precision: a negative "cannot tell" becomes 0. */
  function DescribePrecision(p: int): (r: nat)
    ensures p >= 0 ==> r == p
    ensures p < 0 ==> r == 0
  {
    if p < 0 then 0 else p
  }

  /** SQLDescribeCol's scale: the catalog's -1 "not applicable" becomes 0. */
  function DescribeScale(s: int): (r: int)
    ensures r != -1
    ensures s == -1 ==> r == 0
    ensures s != -1 ==> r == s
  {
    if s == -1 then 0 else s
  }

  /** SQL_COLUMN_AUTO_INCREMENT: a non-numeric type (-1) reads as FALSE. */
  function AutoIncrementAttr(a: int): (r: int)
    ensures r != -1
    ensures a != -1 ==> r == a
    ensures a == -1 ==> r == FALSE
  {
    if a == -1 then FALSE else a
  }

  /** SQL_COLUMN_UNSIGNED: a non-numeric type (-1) reads as TRUE. */
  function UnsignedAttr(u: int): (r: int)
    ensures r != -1
    ensures u != -1 ==> r == u
    ensures u == -1 ==> r == TRUE
  {
    if u == -1 then TRUE else u
  }

  /** SQLColAttributes does not ask the catalog with "don't know" sizes:
      it asks for the maximum instead. */
  function AttrPolicy(u: UnknownSizes): (r: UnknownSizes)
    ensures r != UnknownsAsDontKnow
    ensures u != UnknownsAsDontKnow ==> r == u
  {
    if u == UnknownsAsDontKnow then UnknownsAsMax else u
  }

  /** What SQLDescribeCol writes. The name outputs are written only for a
      name buffer of at least one byte. */
  datatype ColumnDescription = ColumnDescription(
    nameLength: Option<int>,
    nameText: Option<string>,
    sqlType: int,
    precision: nat,
    scale: int,
    nullable: int)

  /** SQLDescribeCol for the 0-based column col, once its guards have passed. */
  function DescribeColumn(f: Field, col: nat, cbColNameMax: int, cat: Catalog, sizes: UnknownSizes): (d: ColumnDescription)
    ensures d.nameLength.Some? <==> cbColNameMax >= 1
    ensures d.nameText.Some? <==> cbColNameMax >= 1
    ensures cbColNameMax >= 1 && f.name.None? ==> d.nameLength == Some(0) && d.nameText == Some([])
    ensures cbColNameMax >= 1 && f.name.Some? ==>
              d.nameLength == Some(|f.name.value|) &&
              d.nameText.value <= f.name.value && |d.nameText.value| < cbColNameMax
    ensures cbColNameMax >= 1 && f.name.Some? ==> d.nameText == StrNCopyNull(f.name.value, cbColNameMax)
    ensures d.sqlType == cat.toSqlType(f.oid)
    ensures cat.precision(f.oid, col, sizes) >= 0 ==> d.precision == cat.precision(f.oid, col, sizes)
    ensures cat.precision(f.oid, col, sizes) < 0 ==> d.precision == 0
    ensures cat.scale(f.oid) == -1 ==> d.scale == 0
    ensures cat.scale(f.oid) != -1 ==> d.scale == cat.scale(f.oid)
    ensures d.nullable == cat.nullable(f.oid)
  {
    var nameLength := if cbColNameMax < 1 then None
                      else if f.name.None? then Some(0) else Some(|f.name.value|);
    var nameText := if cbColNameMax < 1 then None
                    else if f.name.None? then Some([]) else StrNCopyNull(f.name.value, cbColNameMax);
    ColumnDescription(nameLength, nameText,
                      cat.toSqlType(f.oid),
                      DescribePrecision(cat.precision(f.oid, col, sizes)),
                      DescribeScale(cat.scale(f.oid)),
                      cat.nullable(f.oid))
  }

  // The SQL_COLUMN_* attribute kinds of the ODBC headers.
  const SQL_COLUMN_COUNT: int := 0
  const SQL_COLUMN_NAME: int := 1
  const SQL_COLUMN_TYPE: int := 2
  const SQL_COLUMN_LENGTH: int := 3
  const SQL_COLUMN_PRECISION: int := 4
  const SQL_COLUMN_SCALE: int := 5
  const SQL_COLUMN_DISPLAY_SIZE: int := 6
  const SQL_COLUMN_NULLABLE: int := 7
  const SQL_COLUMN_UNSIGNED: int := 8
  const SQL_COLUMN_MONEY: int := 9
  const SQL_COLUMN_UPDATABLE: int := 10
  const SQL_COLUMN_AUTO_INCREMENT: int := 11
  const SQL_COLUMN_CASE_SENSITIVE: int := 12
  const SQL_COLUMN_SEARCHABLE: int := 13
  const SQL_COLUMN_TYPE_NAME: int := 14
  const SQL_COLUMN_TABLE_NAME: int := 15
  const SQL_COLUMN_OWNER_NAME: int := 16
  const SQL_COLUMN_QUALIFIER_NAME: int := 17
  const SQL_COLUMN_LABEL: int := 18

  const SQL_ATTR_WRITE: int := 1

  /** The attribute kinds SQLColAttributes has a case for. */
  predicate KnownAttribute(kind: int) {
    SQL_COLUMN_COUNT <= kind <= SQL_COLUMN_LABEL
  }

  /** The attributes that carry text: a name copied into the caller's buffer
      and the full length of that name. */
  predicate TextAttribute(kind: int) {
    kind == SQL_COLUMN_NAME || kind == SQL_COLUMN_LABEL || kind == SQL_COLUMN_TYPE_NAME ||
    kind == SQL_COLUMN_OWNER_NAME || kind == SQL_COLUMN_QUALIFIER_NAME || kind == SQL_COLUMN_TABLE_NAME
  }

  /** What SQLColAttributes writes: a number into pfDesc, a text into rgbDesc
      (None: the buffer is left as it was) with its length into pcbDesc, or
      nothing at all. */
  datatype AttrValue = Number(n: int) | Text(text: Option<string>, length: int) | Nothing

  /** SQLColAttributes for the 0-based column col, once its guards have passed. */
  function ColumnAttribute(kind: int, f: Field, col: nat, numCols: nat, cbDescMax: int,
                           cat: Catalog, configured: UnknownSizes): (r: AttrValue)
    requires kind == SQL_COLUMN_NAME || kind == SQL_COLUMN_LABEL ==> f.name.Some?
    ensures r.Nothing? <==> !KnownAttribute(kind)
    ensures r.Text? <==> TextAttribute(kind)
    ensures kind == SQL_COLUMN_UPDATABLE ==> r == Number(SQL_ATTR_WRITE)
    ensures kind == SQL_COLUMN_AUTO_INCREMENT || kind == SQL_COLUMN_UNSIGNED ==> r.Number? && r.n != -1
    // AUTO_INCREMENT and UNSIGNED: the catalog's answer with -1 read as FALSE and TRUE.
    ensures kind == SQL_COLUMN_AUTO_INCREMENT ==> r == Number(AutoIncrementAttr(cat.autoIncrement(f.oid)))
    ensures kind == SQL_COLUMN_UNSIGNED ==> r == Number(UnsignedAttr(cat.unsignedness(f.oid)))
    // The size kinds ask the catalog under the adjusted unknown-size policy.
    ensures kind == SQL_COLUMN_PRECISION ==> r == Number(cat.precision(f.oid, col, AttrPolicy(configured)))
    ensures kind == SQL_COLUMN_LENGTH ==> r == Number(cat.length(f.oid, col, AttrPolicy(configured)))
    ensures kind == SQL_COLUMN_DISPLAY_SIZE ==> r == Number(cat.displaySize(f.oid, col, AttrPolicy(configured)))
    // The other numeric kinds pass the catalog's answer through unchanged.
    ensures kind == SQL_COLUMN_TYPE ==> r == Number(cat.toSqlType(f.oid))
    ensures kind == SQL_COLUMN_SCALE ==> r == Number(cat.scale(f.oid))
    ensures kind == SQL_COLUMN_NULLABLE ==> r == Number(cat.nullable(f.oid))
    ensures kind == SQL_COLUMN_MONEY ==> r == Number(cat.money(f.oid))
    ensures kind == SQL_COLUMN_SEARCHABLE ==> r == Number(cat.searchable(f.oid))
    ensures kind == SQL_COLUMN_CASE_SENSITIVE ==> r == Number(cat.caseSensitive(f.oid))
    // TYPE_NAME copies the catalog's type name and reports its full length.
    ensures kind == SQL_COLUMN_TYPE_NAME ==>
              r == Text(StrNCopyNull(cat.toName(f.oid), cbDescMax), |cat.toName(f.oid)|)
    ensures kind == SQL_COLUMN_COUNT ==> r == Number(numCols)
    ensures kind == SQL_COLUMN_OWNER_NAME || kind == SQL_COLUMN_QUALIFIER_NAME || kind == SQL_COLUMN_TABLE_NAME ==>
              r == Text(StrNCopyNull([], cbDescMax), 0)
    ensures kind == SQL_COLUMN_NAME || kind == SQL_COLUMN_LABEL ==>
              r.length == |f.name.value| && (r.text.Some? ==> r.text.value <= f.name.value)
    ensures kind == SQL_COLUMN_NAME || kind == SQL_COLUMN_LABEL ==>
              r == Text(StrNCopyNull(f.name.value, cbDescMax), |f.name.value|)
  {
    var oid := f.oid;
    var sizes := AttrPolicy(configured);
    if kind == SQL_COLUMN_AUTO_INCREMENT then Number(AutoIncrementAttr(cat.autoIncrement(oid)))
    else if kind == SQL_COLUMN_CASE_SENSITIVE then Number(cat.caseSensitive(oid))
    else if kind == SQL_COLUMN_COUNT then Number(numCols)
    else if kind == SQL_COLUMN_DISPLAY_SIZE then Number(cat.displaySize(oid, col, sizes))
    else if kind == SQL_COLUMN_LABEL || kind == SQL_COLUMN_NAME then
      Text(StrNCopyNull(f.name.value, cbDescMax), |f.name.value|)
    else if kind == SQL_COLUMN_LENGTH then Number(cat.length(oid, col, sizes))
    else if kind == SQL_COLUMN_MONEY then Number(cat.money(oid))
    else if kind == SQL_COLUMN_NULLABLE then Number(cat.nullable(oid))
    else if kind == SQL_COLUMN_OWNER_NAME then Text(StrNCopyNull([], cbDescMax), 0)
    else if kind == SQL_COLUMN_PRECISION then Number(cat.precision(oid, col, sizes))
    else if kind == SQL_COLUMN_QUALIFIER_NAME then Text(StrNCopyNull([], cbDescMax), 0)
    else if kind == SQL_COLUMN_SCALE then Number(cat.scale(oid))
    else if kind == SQL_COLUMN_SEARCHABLE then Number(cat.searchable(oid))
    else if kind == SQL_COLUMN_TABLE_NAME then Text(StrNCopyNull([], cbDescMax), 0)
    else if kind == SQL_COLUMN_TYPE then Number(cat.toSqlType(oid))
    else if kind == SQL_COLUMN_TYPE_NAME then
      Text(StrNCopyNull(cat.toName(oid), cbDescMax), |cat.toName(oid)|)
    else if kind == SQL_COLUMN_UNSIGNED then Number(UnsignedAttr(cat.unsignedness(oid)))
    else if kind == SQL_COLUMN_UPDATABLE then Number(SQL_ATTR_WRITE)
    else Nothing
  }

  /** The size attributes read a "don't know" policy as "maximum": the answer
      is the same as under UNKNOWNS_AS_MAX. */
  lemma DontKnowReadsAsMax(kind: int, f: Field, col: nat, numCols: nat, cbDescMax: int, cat: Catalog)
    requires kind == SQL_COLUMN_NAME || kind == SQL_COLUMN_LABEL ==> f.name.Some?
    ensures ColumnAttribute(kind, f, col, numCols, cbDescMax, cat, UnknownsAsDontKnow)
         == ColumnAttribute(kind, f, col, numCols, cbDescMax, cat, UnknownsAsMax)
  {
  }

  /** The scale and precision fix-ups belong to SQLDescribeCol only: through
      SQLColAttributes the catalog's -1 scale and negative precision come back
      unchanged. */
  lemma FixupsOnlyInDescribe(f: Field, col: nat, numCols: nat, cbDescMax: int, cat: Catalog, sizes: UnknownSizes)
    requires cat.scale(f.oid) == -1
    requires cat.precision(f.oid, col, AttrPolicy(sizes)) < 0
    ensures ColumnAttribute(SQL_COLUMN_SCALE, f, col, numCols, cbDescMax, cat, sizes) == Number(-1)
    ensures DescribeColumn(f, col, 0, cat, sizes).scale == 0
    ensures ColumnAttribute(SQL_COLUMN_PRECISION, f, col, numCols, cbDescMax, cat, sizes).n < 0
    ensures DescribeColumn(f, col, 0, cat, AttrPolicy(sizes)).precision == 0
  {
  }
}

/** SQLRowCount's reading of a command-completion tag: the count is the
    number after the last blank of the tag, once trailing blanks are gone. */
module RowCount {
  import opened OdbcCodes

  /** trim(): the tag without its trailing blanks. */
  function TrimTrailing(s: string): (r: string)
    ensures r <= s
    ensures r == [] || r[|r| - 1] != ' '
    ensures forall i :: |r| <= i < |s| ==> s[i] == ' '
    decreases |s|
  {
    if s != [] && s[|s| - 1] == ' ' then TrimTrailing(s[..|s| - 1]) else s
  }

  /** strrchr(s, c): the position of the last occurrence of c, if any. */
  function LastIndexOf(s: string, c: char): (r: Option<nat>)
    ensures r.None? <==> c !in s
    ensures r.Some? ==> r.value < |s| && s[r.value] == c
    ensures r.Some? ==> forall j :: r.value < j < |s| ==> s[j] != c
    decreases |s|
  {
    if s == [] then None
    else if s[|s| - 1] == c then Some(|s| - 1)
    else
      assert s == s[..|s| - 1] + [s[|s| - 1]];
      LastIndexOf(s[..|s| - 1], c)
  }

  /** isspace in the C locale. */
  predicate IsSpace(ch: char) {
    ch == ' ' || 9 <= ch as int <= 13
  }

  predicate IsDigit(ch: char) {
    '0' as int <= ch as int <= '9' as int
  }

  predicate AllDigits(d: string) {
    forall i :: 0 <= i < |d| ==> IsDigit(d[i])
  }

  function DigitValue(ch: char): (v: nat)
    requires IsDigit(ch)
    ensures v < 10
  {
    ch as int - '0' as int
  }

  function Digit(v: nat): (ch: char)
    requires v < 10
    ensures IsDigit(ch) && DigitValue(ch) == v
  {
    ('0' as int + v) as char
  }

  /** The length of the leading run of decimal digits. */
  function DigitRun(s: string): (n: nat)
    ensures n <= |s|
    ensures AllDigits(s[..n])
    ensures n < |s| ==> !IsDigit(s[n])
  {
    if s != [] && IsDigit(s[0]) then
      var m := DigitRun(s[1..]);
      assert s[..m + 1] == [s[0]] + s[1..][..m];
      m + 1
    else 0
  }

  /** The value of a string of decimal digits, most significant first. */
  function DecimalValue(d: string): nat
    requires AllDigits(d)
  {
    if d == [] then 0 else 10 * DecimalValue(d[..|d| - 1]) + DigitValue(d[|d| - 1])
  }

  /** atoi: white space, then an optional sign, then the leading digits;
      0 when there are no digits. */
  function Atoi(s: string): (v: int)
    ensures s == [] ==> v == 0
    ensures s != [] && !IsSpace(s[0]) && !IsDigit(s[0]) && s[0] != '-' && s[0] != '+' ==> v == 0
  {
    if s != [] && IsSpace(s[0]) then Atoi(s[1..])
    else if s != [] && (s[0] == '-' || s[0] == '+') then
      var magnitude: int := DecimalValue(s[1..][..DigitRun(s[1..])]);
      if s[0] == '-' then -magnitude else magnitude
    else DecimalValue(s[..DigitRun(s)])
  }

  /** The row count SQLRowCount reports for a statement that is not a
      SELECT: atoi of the text after the last blank of the trimmed tag, or
      -1 when the trimmed tag has no blank at all. */
  function TagRowCount(tag: string): (count: int)
    ensures ' ' !in TrimTrailing(tag) ==> count == -1
  {
    var t := TrimTrailing(tag);
    match LastIndexOf(t, ' ')
    case None => -1
    case Some(i) => Atoi(t[i + 1..])
  }

  /** The decimal rendering of a count, as the server writes it in a tag. */
  function Decimal(n: nat): (d: string)
    ensures |d| >= 1 && AllDigits(d)
  {
    if n < 10 then [Digit(n)] else Decimal(n / 10) + [Digit(n % 10)]
  }

  lemma {:induction false} DecimalValueOfDecimal(n: nat)
    ensures DecimalValue(Decimal(n)) == n
  {
    if n >= 10 {
      var d := Decimal(n);
      assert d[..|d| - 1] == Decimal(n / 10);
      DecimalValueOfDecimal(n / 10);
    }
  }

  lemma {:induction false} DigitRunOfDigits(d: string)
    requires AllDigits(d)
    ensures DigitRun(d) == |d|
  {
    if d != [] {
      DigitRunOfDigits(d[1..]);
    }
  }

  /** atoi reads back every count the server writes. */
  lemma AtoiOfDecimal(n: nat)
    ensures Atoi(Decimal(n)) == n
  {
    var d := Decimal(n);
    DigitRunOfDigits(d);
    assert d[..|d|] == d;
    DecimalValueOfDecimal(n);
  }

  /** A tag with no trailing blank is its own trimmed form. */
  lemma TrimOfUnpadded(s: string)
    requires s != [] && s[|s| - 1] != ' '
    ensures TrimTrailing(s) == s
  {
  }

  /** When the tag ends in a blank-free word after a blank, the count is the
      atoi of that word. */
  lemma FinalWord(verb: string, word: string)
    requires word != [] && ' ' !in word
    ensures TagRowCount(verb + " " + word) == Atoi(word)
  {
    var s := verb + " " + word;
    assert s[|s| - 1] == word[|word| - 1];
    TrimOfUnpadded(s);
    var i := LastIndexOf(s, ' ');
    assert s[|verb|] == ' ';
    assert forall j :: |verb| < j < |s| ==> s[j] == word[j - |verb| - 1];
    assert i == Some(|verb|);
    assert s[|verb| + 1..] == word;
  }

  /** The count written after the verb is the count reported: "DELETE 12"
      gives 12, "INSERT 0 1" gives 1. */
  lemma {:induction false} CountOfCompletionTag(verb: string, n: nat)
    ensures TagRowCount(verb + " " + Decimal(n)) == n
  {
    var d := Decimal(n);
    assert ' ' !in d;
    FinalWord(verb, d);
    AtoiOfDecimal(n);
  }

  /** Trailing blanks do not change the count. */
  lemma TrailingBlankIgnored(tag: string)
    ensures TagRowCount(tag + " ") == TagRowCount(tag)
  {
    var s := tag + " ";
    assert s[..|s| - 1] == tag;
  }

  /** trim() is idempotent, so trimming the stored tag in place does not
      change what a later SQLRowCount reports. */
  lemma CountOfTrimmedTag(tag: string)
    ensures TrimTrailing(TrimTrailing(tag)) == TrimTrailing(tag)
    ensures TagRowCount(TrimTrailing(tag)) == TagRowCount(tag)
  {
  }

  /** A DELETE of twelve rows reports 12. */
  lemma DeleteTag()
    ensures TagRowCount("DELETE 12") == 12
  {
    assert Decimal(12) == "12";
    CountOfCompletionTag("DELETE", 12);
    assert "DELETE 12" == "DELETE" + " " + Decimal(12);
  }

  /** An INSERT tag carries an oid before the count; the count is the last word. */
  lemma InsertTag()
    ensures TagRowCount("INSERT 0 1") == 1
  {
    assert Decimal(1) == "1";
    CountOfCompletionTag("INSERT 0", 1);
    assert "INSERT 0 1" == "INSERT 0" + " " + Decimal(1);
  }

  /** A tag whose last word is not a number still has a blank, so its count
      is atoi of that word, 0, not -1. */
  lemma CreateTableTag()
    ensures TagRowCount("CREATE TABLE") == 0
  {
    FinalWord("CREATE", "TABLE");
    assert "CREATE TABLE" == "CREATE" + " " + "TABLE";
  }

  /** Only a tag without any blank reports -1. */
  lemma BeginTag()
    ensures TagRowCount("BEGIN") == -1
  {
    TrimOfUnpadded("BEGIN");
  }
}

/**
 Column names and cell names (backend/excelize/lib.go): bijective base 26, and
 the conversions between a name such as AK74 and the coordinates (37, 74).
 */
module CellName {
  import opened Wrappers

  const TOTAL_ROWS := 1048576
  const TOTAL_COLUMNS := 16384

  datatype Error = InvalidColumnName | InvalidColumnNumber | TooManyColumns | InvalidCellName | TooManyRows

  predicate IsUpper(c: char) {
    'A' <= c <= 'Z'
  }

  predicate IsAlpha(c: char) {
    'A' <= c <= 'Z' || 'a' <= c <= 'z'
  }

  ghost predicate AllAlpha(s: string) {
    forall c <- s :: IsAlpha(c)
  }

  /** The worth 1..26 of a letter in either case. */
  function Letter(c: char): (d: int)
    requires IsAlpha(c)
    ensures 1 <= d <= 26
  {
    if 'A' <= c <= 'Z' then c as int - 'A' as int + 1 else c as int - 'a' as int + 1
  }

  function Pow26(k: nat): (p: nat)
    ensures p > 0
  {
    if k == 0 then 1 else 26 * Pow26(k - 1)
  }

  /** The column a name of letters stands for. */
  ghost function Column(name: string): (n: nat)
    requires AllAlpha(name)
    ensures name != "" ==> n > 0
  {
    if name == "" then 0 else Letter(name[0]) * Pow26(|name| - 1) + Column(name[1..])
  }

  /** `ColumnNameToNumber`. */
  method ColumnNameToNumber(name: string) returns (r: Result<int, Error>)
    ensures r == if name == "" || !AllAlpha(name) then Failure(InvalidColumnName)
                 else if Column(name) > TOTAL_COLUMNS then Failure(TooManyColumns)
                 else Success(Column(name))
  {
    if |name| == 0 {
      return Failure(InvalidColumnName);
    }
    var col, multi := 0, 1;
    var i := |name| - 1;
    while i >= 0
      invariant -1 <= i < |name|
      invariant AllAlpha(name[i + 1..]) && col == Column(name[i + 1..]) && multi == Pow26(|name| - 1 - i)
    {
      var c := name[i];
      assert name[i..] == [c] + name[i + 1..];
      if 'A' <= c <= 'Z' {
        col := col + (c as int - 'A' as int + 1) * multi;
      } else if 'a' <= c <= 'z' {
        col := col + (c as int - 'a' as int + 1) * multi;
      } else {
        assert name[i] in name;
        return Failure(InvalidColumnName);
      }
      multi := multi * 26;
      i := i - 1;
    }
    assert name[0..] == name;
    if col > TOTAL_COLUMNS {
      return Failure(TooManyColumns);
    }
    return Success(col);
  }

  /** The name of a column. */
  function Name(n: nat): (s: string)
    ensures forall c <- s :: IsUpper(c)
    ensures s == "" <==> n == 0
  {
    if n == 0 then "" else Name((n - 1) / 26) + [((n - 1) % 26 + 65) as char]
  }

  /** `ColumnNumberToName`. */
  method ColumnNumberToName(num: int) returns (r: Result<string, Error>)
    ensures r == if num < 1 then Failure(InvalidColumnNumber)
                 else if num > TOTAL_COLUMNS then Failure(TooManyColumns)
                 else Success(Name(num))
  {
    if num < 1 {
      return Failure(InvalidColumnNumber);
    }
    if num > TOTAL_COLUMNS {
      return Failure(TooManyColumns);
    }
    var col, n := "", num;
    while n > 0
      invariant n >= 0 && Name(num) == Name(n) + col
      decreases n
    {
      col := [((n - 1) % 26 + 65) as char] + col;
      n := (n - 1) / 26;
    }
    assert Name(num) == col;
    return Success(col);
  }

  // ----- the two conversions are inverse, and shorter-then-alphabetical is numeric order -----

  lemma ScaleSum(d: int, p: int, x: int, l: int)
    ensures d * (26 * p) + (26 * x + l) == 26 * (d * p + x) + l
  {
  }

  lemma {:induction false} ColumnSnoc(s: string, c: char)
    requires AllAlpha(s) && IsAlpha(c)
    ensures AllAlpha(s + [c]) && Column(s + [c]) == 26 * Column(s) + Letter(c)
    decreases |s|
  {
    var t := s + [c];
    if s == "" {
      assert t == [c] && Column(t[1..]) == 0;
    } else {
      ColumnSnoc(s[1..], c);
      assert t[0] == s[0] && t[1..] == s[1..] + [c];
      ScaleSum(Letter(s[0]), Pow26(|s| - 1), Column(s[1..]), Letter(c));
    }
  }

  lemma {:induction false} ColumnOfName(n: nat)
    ensures AllAlpha(Name(n)) && Column(Name(n)) == n
  {
    if n > 0 {
      ColumnOfName((n - 1) / 26);
      ColumnSnoc(Name((n - 1) / 26), ((n - 1) % 26 + 65) as char);
    }
  }

  function Upper(c: char): char {
    if 'a' <= c <= 'z' then (c as int - 32) as char else c
  }

  /** Any spelling of a column name is turned into its upper-case form. */
  lemma {:induction false} NameOfColumn(s: string)
    requires AllAlpha(s)
    ensures Name(Column(s)) == seq(|s|, i requires 0 <= i < |s| => Upper(s[i]))
    decreases |s|
  {
    if s != "" {
      var n := |s| - 1;
      NameOfColumn(s[..n]);
      ColumnSnoc(s[..n], s[n]);
      assert s == s[..n] + [s[n]];
    }
  }

  /** Shorter names first, names of one length in alphabetical order. */
  ghost predicate Precedes(s: string, t: string)
    decreases |s|
  {
    |s| < |t| || (|s| == |t| > 0 && var n := |s| - 1;
                  Precedes(s[..n], t[..n]) || (s[..n] == t[..n] && s[n] < t[n]))
  }

  lemma {:induction false} NameOrder(m: nat, n: nat)
    ensures Precedes(Name(m), Name(n)) <==> m < n
    decreases m + n
  {
    if m > 0 && n > 0 {
      var a, b := (m - 1) / 26, (n - 1) / 26;
      NameOrder(a, b);
      NameOrder(b, a);
      assert Name(m)[..|Name(m)| - 1] == Name(a) && Name(n)[..|Name(n)| - 1] == Name(b);
      if Name(a) == Name(b) {
        ColumnOfName(a);
        ColumnOfName(b);
      }
    }
  }

  // ----- decimal numbers -----

  predicate IsDigit(c: char) {
    '0' <= c <= '9'
  }

  /** `strconv.Itoa` of a natural number. */
  function Itoa(n: nat): (s: string)
    ensures s != "" && forall c <- s :: IsDigit(c)
  {
    (if n < 10 then "" else Itoa(n / 10)) + [(n % 10 + 48) as char]
  }

  function Digits(s: string): Option<int> {
    if s == "" then Some(0)
    else
      var n, c := |s| - 1, s[|s| - 1];
      match Digits(s[..n])
      case Some(v) => if IsDigit(c) then Some(10 * v + (c as int - 48)) else None
      case None => None
  }

  /** `strconv.Atoi`: an optional sign and at least one digit. */
  function Atoi(s: string): Option<int> {
    if s == "" || s == "+" || s == "-" then None
    else if s[0] == '-' then
      match Digits(s[1..])
      case Some(v) => Some(0 - v)
      case None => None
    else Digits(if s[0] == '+' then s[1..] else s)
  }

  lemma {:induction false} DigitsOfItoa(n: nat)
    ensures Digits(Itoa(n)) == Some(n)
  {
    var s := Itoa(n);
    assert s[..|s| - 1] == if n < 10 then "" else Itoa(n / 10);
    if n >= 10 {
      DigitsOfItoa(n / 10);
    }
  }

  // ----- cell names -----

  /** `strings.LastIndexFunc` for letters. */
  function LastAlpha(s: string): (i: int)
    ensures -1 <= i < |s|
  {
    if s == "" then -1
    else if IsAlpha(s[|s| - 1]) then |s| - 1
    else LastAlpha(s[..|s| - 1])
  }

  function SplitCellName(cell: string): Result<(string, int), Error> {
    if cell != "" && IsAlpha(cell[0]) then
      var i := LastAlpha(cell);
      if 0 <= i < |cell| - 1 then
        match Atoi(cell[i + 1..])
        case Some(row) => if row > 0 then Success((cell[..i + 1], row)) else Failure(InvalidCellName)
        case None => Failure(InvalidCellName)
      else Failure(InvalidCellName)
    else Failure(InvalidCellName)
  }

  ghost function Coordinates(cell: string): Result<(int, int), Error> {
    var (name, row) :- SplitCellName(cell);
    if row > TOTAL_ROWS then Failure(TooManyRows)
    else if name == "" || !AllAlpha(name) then Failure(InvalidColumnName)
    else if Column(name) > TOTAL_COLUMNS then Failure(TooManyColumns)
    else Success((Column(name), row))
  }

  method CellNameToCoordinates(cell: string) returns (r: Result<(int, int), Error>)
    ensures r == Coordinates(cell)
  {
    var split := SplitCellName(cell);
    if split.Failure? {
      return Failure(split.error);
    }
    var (name, row) := split.value;
    if row > TOTAL_ROWS {
      return Failure(TooManyRows);
    }
    var col := ColumnNameToNumber(name);
    if col.Failure? {
      return Failure(col.error);
    }
    return Success((col.value, row));
  }

  method CoordinatesToCellName(col: int, row: int) returns (r: Result<string, Error>)
    ensures r == if col < 1 || row < 1 then Failure(InvalidCellName)
                 else if col > TOTAL_COLUMNS then Failure(TooManyColumns)
                 else Success(Name(col) + Itoa(row))
  {
    if col < 1 || row < 1 {
      return Failure(InvalidCellName);
    }
    var name := ColumnNumberToName(col);
    if name.Failure? {
      return Failure(name.error);
    }
    return Success(name.value + Itoa(row));
  }

  lemma {:induction false} LastAlphaBeforeDigits(a: string, b: string)
    requires a != "" && AllAlpha(a) && forall c <- b :: IsDigit(c)
    ensures LastAlpha(a + b) == |a| - 1
    decreases |b|
  {
    if b == "" {
      assert a + b == a && a[|a| - 1] in a;
    } else {
      LastAlphaBeforeDigits(a, b[..|b| - 1]);
      assert (a + b)[..|a + b| - 1] == a + b[..|b| - 1];
      assert b[|b| - 1] in b;
    }
  }

  lemma AtoiOfItoa(n: nat)
    ensures Atoi(Itoa(n)) == Some(n)
  {
    DigitsOfItoa(n);
    assert Itoa(n)[0] in Itoa(n);
  }

  lemma SplitJoined(a: string, row: int)
    requires a != "" && AllAlpha(a) && row > 0
    ensures SplitCellName(a + Itoa(row)) == Success((a, row))
  {
    var b := Itoa(row);
    LastAlphaBeforeDigits(a, b);
    AtoiOfItoa(row);
    assert (a + b)[..|a|] == a && (a + b)[|a|..] == b;
    assert a[0] in a;
  }

  /** The name of a cell leads back to its coordinates exactly when the row is within the limit. */
  lemma CoordinatesOfCellName(col: int, row: int)
    requires 1 <= col <= 16384 && 1 <= row
    ensures SplitCellName(Name(col) + Itoa(row)) == Success((Name(col), row))
    ensures Coordinates(Name(col) + Itoa(row)) ==
            if row <= 1048576 then Success((col, row)) else Failure(TooManyRows)
  {
    ColumnOfName(col);
    SplitJoined(Name(col), row);
  }
}

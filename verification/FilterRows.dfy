/**
 What a filter says of the rows of a table (backend/cmn/filter.go): each operator
 by its name in JSON, connectors and keywords letter by letter.
 */
module FilterRows {
  import opened Wrappers
  import opened FilterTree
  import opened Sql
  import opened FilterCompiler
  import opened FilterMeaning
  import opened FilterFacts
  import opened FilterValue
  import opened Dml

  // ----- words, in any case and between blanks -----

  /** `u` is a capital letter or no letter. */
  predicate SameLetter(c: char, u: char) {
    c == u || ('A' <= u <= 'Z' && c as int == u as int + 32)
  }

  predicate SameWord(s: string, w: string) {
    |s| == |w| && forall i | 0 <= i < |w| :: SameLetter(s[i], w[i])
  }

  predicate Blanks(s: string) {
    forall i | 0 <= i < |s| :: s[i] == ' '
  }

  /** `s` is the word with blanks around it. */
  predicate Says(s: string, w: string) {
    exists k | 0 <= k <= |s| - |w| :: WordAt(s, w, k)
  }

  predicate WordAt(s: string, w: string, k: nat)
    requires k <= |s| - |w|
  {
    Blanks(s[..k]) && SameWord(s[k..k + |w|], w) && Blanks(s[k + |w|..])
  }

  /** The letters of `s`, whatever blanks are between them, are those of the word. */
  predicate Spells(s: string, w: string) {
    if s == "" then w == ""
    else if s[0] == ' ' then Spells(s[1..], w)
    else w != "" && SameLetter(s[0], w[0]) && Spells(s[1..], w[1..])
  }

  /** A word of capitals. */
  predicate IsKeyword(w: string) {
    w != "" && w[0] != ' ' && w[|w| - 1] != ' ' && forall i | 0 <= i < |w| :: !('a' <= w[i] <= 'z')
  }

  lemma UpperWord(s: string, w: string)
    requires forall i | 0 <= i < |w| :: !('a' <= w[i] <= 'z')
    ensures Upper(s) == w <==> SameWord(s, w)
  {
    if SameWord(s, w) {
      assert forall i | 0 <= i < |w| :: Upper(s)[i] == w[i];
    }
    if Upper(s) == w {
      assert forall i | 0 <= i < |w| :: w[i] == UpperChar(s[i]);
    }
  }

  lemma {:induction false} LeftBlanks(s: string) returns (k: nat)
    ensures k <= |s| && Blanks(s[..k]) && TrimLeft(s) == s[k..] && (k < |s| ==> s[k] != ' ')
    decreases |s|
  {
    if s != "" && s[0] == ' ' {
      k := LeftBlanks(s[1..]);
      assert s[..k + 1] == [s[0]] + s[1..][..k];
      assert s[1..][k..] == s[k + 1..];
      k := k + 1;
    } else {
      k := 0;
    }
  }

  lemma {:induction false} RightBlanks(s: string) returns (m: nat)
    ensures m <= |s| && Blanks(s[m..]) && TrimRight(s) == s[..m] && (m > 0 ==> s[m - 1] != ' ')
    decreases |s|
  {
    if s != "" && s[|s| - 1] == ' ' {
      var n := |s| - 1;
      m := RightBlanks(s[..n]);
      assert s[m..] == s[..n][m..] + [s[n]];
      assert s[..n][..m] == s[..m];
    } else {
      m := |s|;
      assert s[..m] == s;
    }
  }

  /** What trimming leaves is the text between the blanks at both ends. */
  lemma Trimmed(s: string) returns (k: nat, m: nat)
    ensures k <= m <= |s| && Blanks(s[..k]) && Blanks(s[m..]) && Trim(s) == s[k..m]
    ensures k < m ==> s[k] != ' ' && s[m - 1] != ' '
  {
    k := LeftBlanks(s);
    var n := RightBlanks(s[k..]);
    m := k + n;
    assert s[k..][n..] == s[m..] && s[k..][..n] == s[k..m];
  }

  lemma TrimSays(s: string, w: string)
    requires IsKeyword(w)
    ensures Trim(Upper(s)) == w <==> Says(s, w)
  {
    var u := Upper(s);
    var k, m := Trimmed(u);
    assert forall i | 0 <= i < |s| :: u[i] == UpperChar(s[i]) && (u[i] == ' ' <==> s[i] == ' ');
    if k < m {
      assert u[k..m] == Upper(s[k..m]);
      UpperWord(s[k..m], w);
    }
    if u[k..m] == w {
      assert s[k..k + |w|] == s[k..m] && s[k + |w|..] == s[m..];
      assert forall i | 0 <= i < k :: u[i] == u[..k][i];
      assert forall i | m <= i < |s| :: u[i] == u[m..][i - m];
      assert WordAt(s, w, k);
    }
    if Says(s, w) {
      var j :| 0 <= j <= |s| - |w| && WordAt(s, w, j);
      SaysAt(s, u, w, j, k, m);
    }
  }

  lemma SaysAt(s: string, u: string, w: string, j: nat, k: nat, m: nat)
    requires IsKeyword(w) && u == Upper(s) && j <= |s| - |w| && WordAt(s, w, j)
    requires k <= m <= |u| && Blanks(u[..k]) && Blanks(u[m..]) && (k < m ==> u[k] != ' ' && u[m - 1] != ' ')
    ensures u[k..m] == w
  {
    var n := j + |w|;
    UpperWord(s[j..n], w);
    assert u[j..n] == Upper(s[j..n]);
    assert u[j..n][0] == u[j] && u[j..n][|w| - 1] == u[n - 1];
    assert forall i | 0 <= i < |u| :: u[i] == UpperChar(s[i]);
    assert forall i | 0 <= i < j :: s[..j][i] == s[i];
    assert forall i | n <= i < |s| :: s[n..][i - n] == s[i];
    assert forall i | 0 <= i < k :: u[..k][i] == u[i];
    assert forall i | m <= i < |u| :: u[m..][i - m] == u[i];
    assert k <= j && n <= m;
    assert k == j && m == n;
  }

  lemma {:induction false} SqueezeSpells(s: string, w: string)
    requires forall i | 0 <= i < |w| :: !('a' <= w[i] <= 'z') && w[i] != ' '
    ensures Squeeze(Upper(s)) == w <==> Spells(s, w)
    decreases |s|
  {
    if s != "" {
      assert Upper(s)[1..] == Upper(s[1..]);
      if s[0] == ' ' {
        SqueezeSpells(s[1..], w);
      } else if w != "" {
        SqueezeSpells(s[1..], w[1..]);
        var q := Squeeze(Upper(s[1..]));
        assert Squeeze(Upper(s)) == [UpperChar(s[0])] + q;
        assert w == [w[0]] + w[1..];
        assert ([UpperChar(s[0])] + q)[1..] == q;
      }
    }
  }

  lemma BlankText(s: string)
    ensures IsBlank(Upper(s)) <==> Blanks(s)
  {
    var u := Upper(s);
    var k, m := Trimmed(u);
    assert forall i | 0 <= i < |s| :: u[i] == UpperChar(s[i]) && (u[i] == ' ' <==> s[i] == ' ');
    if k == m {
      assert forall i | 0 <= i < |s| :: if i < k then u[i] == u[..k][i] else u[i] == u[m..][i - m];
    }
  }

  // ----- a database -----

  /**
   The row at hand, and how the database compares values, matches patterns and looks into JSON.  The JSON functions are
   `@>`, `?`, `?|`, `?&`, `@?`, `@@` and, by name, those that take a path.
   */
  datatype Database = Database(
    cell: string -> Option<Json>,
    below: (Json, Json) -> bool, same: (Json, Json) -> bool,
    like: (Json, Json) -> bool, alike: (Json, Json) -> bool, matches: (Json, Json) -> bool,
    contains: (Json, Json) -> bool, hasKey: (Json, Json) -> bool, hasSome: (Json, Json) -> bool,
    hasAll: (Json, Json) -> bool, finds: (Json, Json) -> bool, holds: (Json, Json) -> bool,
    path: (string, Option<Json>, Json, Option<Json>, Option<Json>) -> Truth)

  function Known(b: bool): Truth {
    if b then True else False
  }

  /** A test of a cell: nothing is known of an empty one, or of an empty operand. */
  function Tested(x: Option<Json>, v: Json, p: (Json, Json) -> bool): Truth {
    if x.None? || v.Null? then Unknown else Known(p(x.value, v))
  }

  function Equals(db: Database, x: Option<Json>, v: Json): Truth {
    Tested(x, v, db.same)
  }

  function IsBelow(db: Database, x: Option<Json>, v: Json): Truth {
    Tested(x, v, db.below)
  }

  function IsAbove(db: Database, x: Option<Json>, v: Json): Truth {
    if x.None? || v.Null? then Unknown else Known(db.below(v, x.value))
  }

  function IsWithin(db: Database, x: Option<Json>, lo: Json, hi: Json): Truth {
    And3(Not3(IsBelow(db, x, lo)), Not3(IsAbove(db, x, hi)))
  }

  function IsAmong(db: Database, x: Option<Json>, vs: seq<Json>): Truth {
    if vs == [] then False else Or3(Equals(db, x, vs[0]), IsAmong(db, x, vs[1..]))
  }

  function Contained(db: Database, x: Option<Json>, v: Json): Truth {
    if x.None? || v.Null? then Unknown else Known(db.contains(v, x.value))
  }

  // ----- SQL: what the database makes of a test, by its text -----

  function Compared(db: Database, x: Option<Json>, op: string, v: Json): Truth {
    if op == "=" then Equals(db, x, v)
    else if op == "!=" then Not3(Equals(db, x, v))
    else if op == "<" then IsBelow(db, x, v)
    else if op == ">" then IsAbove(db, x, v)
    else if op == "<=" then Not3(IsAbove(db, x, v))
    else if op == ">=" then Not3(IsBelow(db, x, v))
    else if op == "LIKE" then Tested(x, v, db.like)
    else if op == "ILIKE" then Tested(x, v, db.alike)
    else if op == "@>" then Tested(x, v, db.contains)
    else if op == "<@" then Contained(db, x, v)
    else if op == "?" then Tested(x, v, db.hasKey)
    else if op == "?|" then Tested(x, v, db.hasSome)
    else if op == "?&" then Tested(x, v, db.hasAll)
    else if op == "@?" then Tested(x, v, db.finds)
    else if op == "@@" then Tested(x, v, db.holds)
    else Unknown
  }

  function Ranged(db: Database, x: Option<Json>, op: string, lo: Json, hi: Json): Truth {
    if op == "BETWEEN" then IsWithin(db, x, lo, hi)
    else if op == "NOT BETWEEN" then Not3(IsWithin(db, x, lo, hi))
    else if op == "BETWEEN SYMMETRIC" then Or3(IsWithin(db, x, lo, hi), IsWithin(db, x, hi, lo))
    else if op == "NOT BETWEEN SYMMETRIC" then Not3(Or3(IsWithin(db, x, lo, hi), IsWithin(db, x, hi, lo)))
    else Unknown
  }

  function CellIs(x: Option<Json>, what: string): bool {
    if what == "NULL" || what == "UNKNOWN" then x.None?
    else if what == "NOT NULL" || what == "NOT UNKNOWN" then x.Some?
    else if what == "TRUE" then x == Some(Bool(true))
    else if what == "NOT TRUE" then x != Some(Bool(true))
    else if what == "FALSE" then x == Some(Bool(false))
    else x != Some(Bool(false))
  }

  function Matched(db: Database, x: Option<Json>, v: Json): Truth {
    Known(x.Some? && !v.Null? && db.matches(x.value, v))
  }

  function Decide(db: Database, f: Fact): Truth {
    match f
    case CompareFact(c, op, v) => Compared(db, db.cell(c), op, v)
    case IsFact(c, what) => Known(CellIs(db.cell(c), what))
    case RegexpFact(c, v) => Matched(db, db.cell(c), v)
    case InFact(c, vs) => IsAmong(db, db.cell(c), vs)
    case BetweenFact(c, op, lo, hi) => Ranged(db, db.cell(c), op, lo, hi)
    case JsonPathFact(fn, c, path, vars, silent) => db.path(fn, db.cell(c), path, vars, silent)
  }

  function RowOf(db: Database): Row {
    f => Decide(db, f)
  }

  // ----- JSON: what an operator asks of a cell, by its name -----

  /** An operand of IS and EXPR_IS, for a test that is `yes` where `TRUE` holds, `no` where `FALSE`, `none` where `NULL`. */
  function Named(v: Json, yes: bool, no: bool, none: bool): Truth {
    if !v.Str? then Unknown
    else if Says(v.s, "NULL") || Says(v.s, "UNKNOWN") then Known(none)
    else if Says(v.s, "NOT NULL") || Says(v.s, "NOT UNKNOWN") then Known(!none)
    else if Says(v.s, "TRUE") then Known(yes)
    else if Says(v.s, "NOT TRUE") then Known(!yes)
    else if Says(v.s, "FALSE") then Known(no)
    else if Says(v.s, "NOT FALSE") then Known(!no)
    else Unknown
  }

  function Pair(v: Json): (Json, Json) {
    if v.Arr? && |v.items| == 2 then (v.items[0], v.items[1]) else (Null, Null)
  }

  function AsksComparison(db: Database, x: Option<Json>, name: string, v: Json): Truth {
    match name
    case "EQ" => Equals(db, x, v)
    case "NEQ" => Not3(Equals(db, x, v))
    case "LT" => IsBelow(db, x, v)
    case "GT" => IsAbove(db, x, v)
    case "LTE" => Not3(IsAbove(db, x, v))
    case "GTE" => Not3(IsBelow(db, x, v))
    case "LIKE" => Tested(x, v, db.like)
    case _ => Tested(x, v, db.alike)
  }

  function AsksRange(db: Database, x: Option<Json>, name: string, v: Json): Truth {
    var (lo, hi) := Pair(v);
    match name
    case "BETWEEN" => IsWithin(db, x, lo, hi)
    case "NOT_BETWEEN" => Not3(IsWithin(db, x, lo, hi))
    case "BETWEEN_SYMMETRIC" => Or3(IsWithin(db, x, lo, hi), IsWithin(db, x, hi, lo))
    case _ => Not3(Or3(IsWithin(db, x, lo, hi), IsWithin(db, x, hi, lo)))
  }

  function AsksJson(db: Database, x: Option<Json>, name: string, v: Json): Truth {
    match name
    case "@>" => Tested(x, v, db.contains)
    case "<@" => Contained(db, x, v)
    case "?" => Tested(x, v, db.hasKey)
    case "?|" => Tested(x, v, db.hasSome)
    case "?&" => Tested(x, v, db.hasAll)
    case "@?" => Tested(x, v, db.finds)
    case _ => Tested(x, v, db.holds)
  }

  const COMPARISONS := {"EQ", "NEQ", "LT", "GT", "LTE", "GTE", "LIKE", "ILIKE"}
  const RANGES := {"BETWEEN", "NOT_BETWEEN", "BETWEEN_SYMMETRIC", "NOT_BETWEEN_SYMMETRIC"}
  const JSON_TESTS := {"@>", "<@", "?", "?|", "?&", "@?", "@@"}
  const PATH_TESTS := {"jsonb_path_exists", "jsonb_path_exists_tz", "jsonb_path_match", "jsonb_path_match_tz"}

  /** What operator `name` with operand `v`, among the operators `o`, asks of the cell. */
  function Asks(db: Database, x: Option<Json>, o: seq<Field>, name: string, v: Json): Truth {
    if name in COMPARISONS then AsksComparison(db, x, name, v)
    else if name == "IS" then Named(v, x == Some(Bool(true)), x == Some(Bool(false)), x.None?)
    else if name == "RE" then Matched(db, x, v)
    else if name == "IN" then if v.Arr? then IsAmong(db, x, v.items) else Unknown
    else if name in RANGES then AsksRange(db, x, name, v)
    else if name in JSON_TESTS then AsksJson(db, x, name, v)
    else if name in PATH_TESTS then db.path(name, x, v, Lookup(o, "vars"), Lookup(o, "silent"))
    else Unknown
  }

  /** Operators that only modify those beside them. */
  predicate Modifies(name: string) {
    name == "vars" || name == "silent" || name == "EXPR_IS"
  }

  /** Operator `i`, under the EXPR_IS beside it. */
  function Tells(db: Database, x: Option<Json>, o: seq<Field>, i: nat): Truth
    requires i < |o|
  {
    if Modifies(o[i].key) then True
    else
      var t := Asks(db, x, o, o[i].key, o[i].value);
      match Lookup(o, "EXPR_IS")
      case None => t
      case Some(v) => Named(v, t == True, t == False, t == Unknown)
  }

  function OperatorsTell(db: Database, x: Option<Json>, o: seq<Field>, i: nat): Truth
    requires i <= |o|
    decreases |o| - i
  {
    if i == |o| then True else And3(Tells(db, x, o, i), OperatorsTell(db, x, o, i + 1))
  }

  /** A member is looked up by its name: the first of that name. */
  lemma {:induction false} LookupIs(o: seq<Field>, name: string, i: nat)
    requires if i < |o| then o[i].key == name else i == |o|
    requires forall k | 0 <= k < i :: o[k].key != name
    ensures Lookup(o, name) == if i < |o| then Some(o[i].value) else None
    decreases |o|
  {
    if o != [] && i > 0 {
      LookupIs(o[1..], name, i - 1);
    }
  }

  // ----- an operator is read as the test it asks for -----

  lemma ComparisonRead(db: Database, col: string, o: seq<Field>, name: string, v: Json)
    requires name in COMPARISONS && ReadCond(o, name, v).Success?
    ensures var c := ReadCond(o, name, v).value;
            c.Some? && Decide(db, FactOf(col, c.value)) == AsksComparison(db, db.cell(col), name, v)
  {
  }

  lemma RangeRead(db: Database, col: string, o: seq<Field>, name: string, v: Json)
    requires name in RANGES && ReadCond(o, name, v).Success?
    ensures var c := ReadCond(o, name, v).value;
            c.Some? && Decide(db, FactOf(col, c.value)) == AsksRange(db, db.cell(col), name, v)
  {
  }

  lemma JsonRead(db: Database, col: string, o: seq<Field>, name: string, v: Json)
    requires name in JSON_TESTS && ReadCond(o, name, v).Success?
    ensures var c := ReadCond(o, name, v).value;
            c.Some? && Decide(db, FactOf(col, c.value)) == AsksJson(db, db.cell(col), name, v)
  {
    JsonCond(o, name, v);
  }

  lemma JsonCond(o: seq<Field>, name: string, v: Json)
    requires name in JSON_TESTS && ReadCond(o, name, v).Success?
    ensures ReadCond(o, name, v) == Success(Some(Compare(name, v)))
  {
    assert name in KEY_LISTS || name in JSON_OPERATORS;
  }

  lemma Keywords(what: string)
    requires what in {"NULL", "TRUE", "FALSE", "UNKNOWN", "NOT NULL", "NOT TRUE", "NOT UNKNOWN", "NOT FALSE"}
    ensures IsKeyword(what)
  {
  }

  /** `mapIsOperand` knows the eight keywords in any case, and no other text. */
  lemma OperandNamed(v: Json, what: string)
    requires what in {"NULL", "TRUE", "FALSE", "UNKNOWN", "NOT NULL", "NOT TRUE", "NOT UNKNOWN", "NOT FALSE"}
    ensures MapIsOperand(v) == Success(what) <==> v.Str? && Says(v.s, what)
  {
    Keywords(what);
    if v.Str? {
      TrimSays(v.s, what);
      TrimUpper(v.s);
    }
  }

  lemma TrimUpper(s: string)
    ensures Upper(Trim(s)) == Trim(Upper(s))
  {
    var u := Upper(s);
    var k, m := Trimmed(s);
    var i, j := Trimmed(u);
    assert forall n | 0 <= n < |s| :: u[n] == UpperChar(s[n]) && (u[n] == ' ' <==> s[n] == ' ');
    assert forall n | 0 <= n < k :: s[..k][n] == s[n];
    assert forall n | m <= n < |s| :: s[m..][n - m] == s[n];
    assert forall n | 0 <= n < i :: u[..i][n] == u[n];
    assert forall n | j <= n < |u| :: u[j..][n - j] == u[n];
    if k < m {
      assert i <= k && m <= j && i == k && j == m;
      assert Upper(s[k..m]) == u[k..m];
    } else {
      assert i == j;
    }
  }

  /** The keyword tests the cell or the qualified value as it says. */
  lemma NamedIs(v: Json, what: string, yes: bool, no: bool, none: bool)
    requires MapIsOperand(v) == Success(what)
    ensures Named(v, yes, no, none) ==
            Known(if what == "NULL" || what == "UNKNOWN" then none else if what == "NOT NULL" || what == "NOT UNKNOWN" then !none
                  else if what == "TRUE" then yes else if what == "NOT TRUE" then !yes else if what == "FALSE" then no else !no)
  {
    OperandNamed(v, "NULL");
    OperandNamed(v, "UNKNOWN");
    OperandNamed(v, "NOT NULL");
    OperandNamed(v, "NOT UNKNOWN");
    OperandNamed(v, "TRUE");
    OperandNamed(v, "NOT TRUE");
    OperandNamed(v, "FALSE");
    OperandNamed(v, "NOT FALSE");
  }

  lemma NotNamed(v: Json, yes: bool, no: bool, none: bool)
    requires MapIsOperand(v).Failure?
    ensures Named(v, yes, no, none) == Unknown
  {
    OperandNamed(v, "NULL");
    OperandNamed(v, "UNKNOWN");
    OperandNamed(v, "NOT NULL");
    OperandNamed(v, "NOT UNKNOWN");
    OperandNamed(v, "TRUE");
    OperandNamed(v, "NOT TRUE");
    OperandNamed(v, "FALSE");
    OperandNamed(v, "NOT FALSE");
  }

  /** Every operator that is read is a modifier or makes the test it asks for. */
  lemma OperatorRead(db: Database, col: string, o: seq<Field>, name: string, v: Json)
    requires ReadCond(o, name, v).Success?
    ensures var c := ReadCond(o, name, v).value;
            if Modifies(name) then c.None?
            else c.Some? && Decide(db, FactOf(col, c.value)) == Asks(db, db.cell(col), o, name, v)
  {
    var x := db.cell(col);
    if name in COMPARISONS {
      ComparisonRead(db, col, o, name, v);
    } else if name in RANGES {
      RangeRead(db, col, o, name, v);
    } else if name in JSON_TESTS {
      JsonRead(db, col, o, name, v);
    } else if name == "IS" {
      var what := MapIsOperand(v).value;
      NamedIs(v, what, x == Some(Bool(true)), x == Some(Bool(false)), x.None?);
    } else {
      OtherRead(db, col, o, name, v);
    }
  }

  lemma OtherRead(db: Database, col: string, o: seq<Field>, name: string, v: Json)
    requires name !in COMPARISONS && name !in RANGES && name !in JSON_TESTS && name != "IS"
    requires ReadCond(o, name, v).Success?
    ensures var c := ReadCond(o, name, v).value;
            if Modifies(name) then c.None?
            else c.Some? && Decide(db, FactOf(col, c.value)) == Asks(db, db.cell(col), o, name, v)
  {
  }

  /** And so under its qualifier. */
  lemma ClauseTells(db: Database, col: string, o: seq<Field>, i: nat)
    requires i < |o| && ReadCond(o, o[i].key, o[i].value).Success?
    ensures AllHold(WrittenOperator(col, o, i), RowOf(db)) == Tells(db, db.cell(col), o, i)
  {
    OperatorRead(db, col, o, o[i].key, o[i].value);
    if !Modifies(o[i].key) {
      var c := Clause(FactOf(col, ReadCond(o, o[i].key, o[i].value).value.value), ExprIs(o));
      assert WrittenOperator(col, o, i) == [c];
      assert [c][1..] == [];
      assert AllHold([c], RowOf(db)) == ClauseValue(c, RowOf(db));
      QualifierTells(c, o, db);
    }
  }

  lemma QualifierTells(c: Clause, o: seq<Field>, db: Database)
    requires c.exprIs == ExprIs(o)
    ensures ClauseValue(c, RowOf(db)) ==
            match Lookup(o, "EXPR_IS")
            case None => Decide(db, c.fact)
            case Some(v) => var t := Decide(db, c.fact); Named(v, t == True, t == False, t == Unknown)
  {
    var t := Decide(db, c.fact);
    match Lookup(o, "EXPR_IS")
    case None =>
    case Some(v) =>
      match MapIsOperand(v)
      case Success(what) => NamedIs(v, what, t == True, t == False, t == Unknown);
      case Failure(_) => NotNamed(v, t == True, t == False, t == Unknown);
  }

  lemma {:induction false} HoldBoth(a: seq<Clause>, b: seq<Clause>, row: Row)
    ensures AllHold(a + b, row) == And3(AllHold(a, row), AllHold(b, row))
    decreases |a|
  {
    if a == [] {
      assert a + b == b;
    } else {
      HoldBoth(a[1..], b, row);
      assert (a + b)[0] == a[0] && (a + b)[1..] == a[1..] + b;
    }
  }

  lemma {:induction false} OperatorsHold(db: Database, col: string, o: seq<Field>, i: nat, cur: Option<Tree>)
    requires i <= |o| && ReadOperators(col, o, i, cur).Success?
    ensures AllHold(WrittenOperators(col, o, i), RowOf(db)) == OperatorsTell(db, db.cell(col), o, i)
    decreases |o| - i
  {
    if i < |o| {
      OperatorStep(col, o, i, cur);
      ClauseTells(db, col, o, i);
      OperatorsHold(db, col, o, i + 1, ReadOperator(col, o, i, cur).value);
      HoldBoth(WrittenOperator(col, o, i), WrittenOperators(col, o, i + 1), RowOf(db));
    }
  }

  // ----- objects -----

  predicate NamesConnector(key: string) {
    SameWord(key, "CONNECTBY")
  }

  /** All conditions of an object are to hold. */
  function ObjectTells(schema: Schema, fs: seq<Field>, i: nat, db: Database): Truth
    requires i <= |fs|
    decreases |fs| - i
  {
    if i == |fs| then True
    else
      var rest := ObjectTells(schema, fs, i + 1, db);
      if NamesConnector(fs[i].key) || !fs[i].value.Obj? || schema(fs[i].key).None? then rest
      else And3(OperatorsTell(db, db.cell(schema(fs[i].key).value), fs[i].value.fields, 0), rest)
  }

  lemma {:induction false} ObjectHolds(schema: Schema, fs: seq<Field>, i: nat, conn: string, cur: Option<Tree>, db: Database)
    requires i <= |fs| && ReadFields(schema, fs, i, conn, cur).Success?
    ensures AllHold(WrittenFields(schema, fs, i), RowOf(db)) == ObjectTells(schema, fs, i, db)
    decreases |fs| - i
  {
    if i < |fs| {
      UpperWord(fs[i].key, "CONNECTBY");
      if IsConnectBy(fs[i].key) {
        ConnectorStep(schema, fs, i, conn, cur);
        ObjectHolds(schema, fs, i + 1, Upper(fs[i].value.s), cur, db);
      } else {
        MemberStep(schema, fs, i, conn, cur);
        var col, o := schema(fs[i].key).value, fs[i].value.fields;
        var mid := ReadOperators(col, o, 0, cur).value;
        OperatorsHold(db, col, o, 0, cur);
        ObjectHolds(schema, fs, i + 1, conn, mid, db);
        HoldBoth(WrittenOperators(col, o, 0), WrittenFields(schema, fs, i + 1), RowOf(db));
      }
    }
  }

  // ----- connectors -----

  /** The text of the last connector of an object. */
  function ObjectLink(fs: seq<Field>, i: nat, link: string): string
    requires i <= |fs|
    decreases |fs| - i
  {
    if i == |fs| then link
    else ObjectLink(fs, i + 1, if NamesConnector(fs[i].key) && fs[i].value.Str? then fs[i].value.s else link)
  }

  predicate HasCondition(j: Json) {
    match j
    case Arr(items) => items != []
    case Obj(fs) => exists k | 0 <= k < |fs| :: !NamesConnector(fs[k].key) && fs[k].value.Obj? && HasTest(fs[k].value.fields)
    case _ => false
  }

  predicate HasTest(o: seq<Field>) {
    exists i | 0 <= i < |o| :: !Modifies(o[i].key)
  }

  /** An element without conditions whose connector spells AND or OR gives the list around it that connector. */
  predicate Lends(j: Json)
    decreases j, 1
  {
    !HasCondition(j) && (Spells(Link(j), "AND") || Spells(Link(j), "OR"))
  }

  function ListLink(js: seq<Json>, i: nat, link: string): string
    requires i <= |js|
    decreases js, |js| - i
  {
    if i == |js| then link else ListLink(js, i + 1, if Lends(js[i]) then Link(js[i]) else link)
  }

  /** The text that connects a filter to what stands before it. */
  function Link(j: Json): string
    decreases j, 0
  {
    match j
    case Arr(items) => ListLink(items, 0, "")
    case Obj(fs) => ObjectLink(fs, 0, "")
    case _ => ""
  }

  lemma {:induction false} ObjectLinkIs(fs: seq<Field>, i: nat, link: string)
    requires i <= |fs|
    ensures LastConnector(fs, i, Upper(link)) == Upper(ObjectLink(fs, i, link))
    decreases |fs| - i
  {
    if i < |fs| {
      UpperWord(fs[i].key, "CONNECTBY");
      ObjectLinkIs(fs, i + 1, if NamesConnector(fs[i].key) && fs[i].value.Str? then fs[i].value.s else link);
    }
  }

  lemma {:induction false} TestKeys(o: seq<Field>, i: nat)
    requires i <= |o|
    ensures OperatorKeys(o, i) == [] <==> forall k | i <= k < |o| :: Modifies(o[k].key)
    decreases |o| - i
  {
    if i < |o| {
      TestKeys(o, i + 1);
    }
  }

  lemma {:induction false} ObjectTests(fs: seq<Field>, i: nat)
    requires i <= |fs|
    ensures ConditionKeys(fs, i) == [] <==>
            forall k | i <= k < |fs| :: NamesConnector(fs[k].key) || !fs[k].value.Obj? || !HasTest(fs[k].value.fields)
    decreases |fs| - i
  {
    if i < |fs| {
      UpperWord(fs[i].key, "CONNECTBY");
      ObjectTests(fs, i + 1);
      if fs[i].value.Obj? {
        TestKeys(fs[i].value.fields, 0);
      }
    }
  }

  lemma ConditionIs(j: Json)
    ensures NoCondition(j) <==> !HasCondition(j)
  {
    if j.Obj? {
      ObjectTests(j.fields, 0);
    }
  }

  lemma {:induction false} ListLinkIs(js: seq<Json>, i: nat, link: string)
    requires i <= |js|
    ensures ListConnector(js, i, Upper(link)) == Upper(ListLink(js, i, link))
    decreases js, |js| - i
  {
    if i < |js| {
      LendsIs(js[i]);
      LinkIs(js[i]);
      ListLinkIs(js, i + 1, if Lends(js[i]) then Link(js[i]) else link);
    }
  }

  lemma {:induction false} LendsIs(j: Json)
    ensures Lends(j) <==> NoCondition(j) && NamesLink(Connector(j))
    decreases j, 1
  {
    ConditionIs(j);
    LinkIs(j);
    SqueezeSpells(Link(j), "AND");
    SqueezeSpells(Link(j), "OR");
  }

  lemma {:induction false} LinkIs(j: Json)
    ensures Connector(j) == Upper(Link(j))
    decreases j, 0
  {
    assert Upper("") == "";
    match j
    case Arr(items) => ListLinkIs(items, 0, "");
    case Obj(fs) => ObjectLinkIs(fs, 0, "");
    case _ =>
  }

  // ----- whole filters -----

  /** An element that is passed over: without conditions, and with nothing but AND or OR for a connector, if any. */
  predicate PassedOver(j: Json) {
    Lends(j) || (!HasCondition(j) && Blanks(Link(j)))
  }

  lemma PassedIs(j: Json)
    ensures PassedOver(j) <==> Passed(j)
  {
    LendsIs(j);
    ConditionIs(j);
    LinkIs(j);
    BlankText(Link(j));
  }

  /** One more element: AND goes on with the current alternative, anything else begins the next one. */
  function NextSum(s: Option<Sum>, link: string, v: Truth): Option<Sum> {
    match s
    case None => Some(Sum(False, v))
    case Some(Sum(done, current)) =>
      if Says(link, "AND") then Some(Sum(done, And3(current, v))) else Some(Sum(Or3(done, current), v))
  }

  function ListTells(schema: Schema, js: seq<Json>, i: nat, s: Option<Sum>, db: Database): Truth
    requires i <= |js|
    decreases js, |js| - i
  {
    if i == |js| then Total(s)
    else
      var v := FilterTells(schema, js[i], db);
      ListTells(schema, js, i + 1, if PassedOver(js[i]) then s else NextSum(s, Link(js[i]), v), db)
  }

  /** What a filter says of the row. */
  function FilterTells(schema: Schema, j: Json, db: Database): Truth
    decreases j
  {
    match j
    case Arr(items) => ListTells(schema, items, 0, None, db)
    case Obj(fs) => ObjectTells(schema, fs, 0, db)
    case _ => True
  }

  lemma {:induction false} ListHolds(schema: Schema, js: seq<Json>, i: nat, conn: string, ps: seq<Part>, s: Option<Sum>, db: Database)
    requires i <= |js| && ReadItems(schema, js, i, conn, ps).Success?
    ensures ListValue(schema, js, i, s, RowOf(db)) == ListTells(schema, js, i, s, db)
    decreases js, |js| - i
  {
    if i < |js| {
      ItemStep(schema, js, i, conn, ps);
      FilterHolds(schema, js[i], db);
      PassedIs(js[i]);
      LinkIs(js[i]);
      Keyword("AND");
      TrimSays(Link(js[i]), "AND");
      var p := Read(schema, js[i]).value;
      var v := Value(schema, js[i], RowOf(db));
      var next := if Passed(js[i]) then s else Added(s, Connector(js[i]), v);
      if IsSkipped(p) {
        ListHolds(schema, js, i + 1, if IsBare(p) then p.conn else conn, ps, next, db);
      } else {
        ListHolds(schema, js, i + 1, conn, ps + [p], next, db);
      }
    }
  }

  lemma Keyword(w: string)
    requires w in {"AND", "OR"}
    ensures IsKeyword(w)
  {
  }

  /** The value of every filter that is read is what it says of the row. */
  lemma {:induction false} FilterHolds(schema: Schema, j: Json, db: Database)
    requires Read(schema, j).Success?
    ensures Value(schema, j, RowOf(db)) == FilterTells(schema, j, db)
    decreases j
  {
    match j
    case Arr(items) =>
      if items != [] {
        ListHolds(schema, items, 0, "", [], None, db);
      }
    case Obj(fs) =>
      if fs != [] {
        ObjectHolds(schema, fs, 0, "", None, db);
      }
    case _ =>
  }

  /**
   The SQL of a statement is true of a row exactly when both filters are, each operator by its name and each connector by
   its letters: for connected filters (or none, where that is allowed) of which no object holds two conditions, no
   operator map IS beside EXPR_IS, and no JSON path condition `silent` alone.
   */
  lemma StatementTells(schema: Schema, select: bool, sets: seq<Json>, data: Json, auth: Json, db: Database)
    requires ReadBoth(schema, data, auth).Success? && Faithful(data) && Faithful(auth)
    requires var (p, q) := ReadBoth(schema, data, auth).value;
             DataOk(select, p) && AuthOk(q) && BodyOk(p.body) && BodyOk(q.body)
    ensures var s, (p, q) := Prepared(sets), ReadBoth(schema, data, auth).value;
            var e := Parse(Condition(select, RootText(p, s.Count()), RootText(q, AuthCount(s, p))));
            e.Some? && Eval(e.value, AllValues(s, p, q), RowOf(db)) == And3(FilterTells(schema, data, db), FilterTells(schema, auth, db))
  {
    FilterValue.StatementValue(schema, select, sets, data, auth, RowOf(db));
    FilterHolds(schema, data, db);
    FilterHolds(schema, auth, db);
  }

  // ----- comparisons with whole numbers -----

  /** A row of whole numbers. */
  function WholeNumbers(m: string -> int): Database {
    var no := (a: Json, b: Json) => false;
    Database(c => Some(Num(m(c))), (a: Json, b: Json) => a.Num? && b.Num? && a.n < b.n, (a: Json, b: Json) => a == b,
             no, no, no, no, no, no, no, no, no, (fn, x, path, vars, silent) => Unknown)
  }

  function Compares(name: string, x: int, n: int): bool {
    match name
    case "EQ" => x == n
    case "NEQ" => x != n
    case "LT" => x < n
    case "GT" => x > n
    case "LTE" => x <= n
    case _ => x >= n
  }

  function OneTest(key: string, name: string, v: Json): Json {
    Obj([Field(key, Obj([Field(name, v)]))])
  }

  lemma OneTestRead(schema: Schema, key: string, name: string, n: int)
    requires schema(key).Some? && !NamesConnector(key) && name in {"EQ", "NEQ", "LT", "GT", "LTE", "GTE"}
    ensures var c := ReadCond([Field(name, Num(n))], name, Num(n));
            && c.Success? && c.value.Some? && c.value.value.Compare?
            && Read(schema, OneTest(key, name, Num(n))) == Success(Part("", Some(Leaf([], schema(key).value, c.value.value, None))))
    ensures var p := Read(schema, OneTest(key, name, Num(n))).value; RootOk(p) && BodyOk(p.body)
  {
    var o := [Field(name, Num(n))];
    var fs, col := [Field(key, Obj(o))], schema(key).value;
    UpperWord(key, "CONNECTBY");
    assert Lookup(o, "EXPR_IS") == None by {
      assert o[1..] == [];
    }
    var t := Leaf([], col, ReadCond(o, name, Num(n)).value.value, None);
    assert ReadOperators(col, o, 1, Some(t)) == Success(Some(t));
    assert ReadOperators(col, o, 0, None) == Success(Some(t));
    assert ReadFields(schema, fs, 1, "", Some(t)) == Success(Part("", Some(t)));
    assert ReadFields(schema, fs, 0, "", None) == Success(Part("", Some(t)));
  }

  lemma OneTestFaithful(key: string, name: string, n: int)
    requires name in {"EQ", "NEQ", "LT", "GT", "LTE", "GTE"}
    ensures Faithful(OneTest(key, name, Num(n)))
  {
    var o := [Field(name, Num(n))];
    var fs := [Field(key, Obj(o))];
    assert Lookup(o, "IS") == None by {
      assert o[1..] == [];
    }
    assert OperatorKeys(o, 1) == [] && ConditionKeys(fs, 1) == [];
  }

  lemma OneTestTells(schema: Schema, key: string, name: string, n: int, m: string -> int)
    requires schema(key).Some? && !NamesConnector(key) && name in {"EQ", "NEQ", "LT", "GT", "LTE", "GTE"}
    ensures FilterTells(schema, OneTest(key, name, Num(n)), WholeNumbers(m)) ==
            Known(Compares(name, m(schema(key).value), n))
  {
    var o := [Field(name, Num(n))];
    var fs, db, col := [Field(key, Obj(o))], WholeNumbers(m), schema(key).value;
    assert Lookup(o, "EXPR_IS") == None by {
      assert o[1..] == [];
    }
    assert ObjectTells(schema, fs, 1, db) == True && OperatorsTell(db, db.cell(col), o, 1) == True;
    assert Tells(db, db.cell(col), o, 0) == AsksComparison(db, db.cell(col), name, Num(n));
  }

  /** A statement that compares one column with a number is true of a row of whole numbers exactly when the column
      compares so. */
  lemma ComparisonTold(schema: Schema, select: bool, sets: seq<Json>, key: string, name: string, n: int, m: string -> int)
    requires schema(key).Some? && !NamesConnector(key) && name in {"EQ", "NEQ", "LT", "GT", "LTE", "GTE"}
    ensures ReadBoth(schema, OneTest(key, name, Num(n)), Null).Success?
    ensures var s, (p, q) := Prepared(sets), ReadBoth(schema, OneTest(key, name, Num(n)), Null).value;
            var e := Parse(Condition(select, RootText(p, s.Count()), RootText(q, AuthCount(s, p))));
            && e.Some?
            && Eval(e.value, AllValues(s, p, q), RowOf(WholeNumbers(m))) == Known(Compares(name, m(schema(key).value), n))
  {
    OneTestRead(schema, key, name, n);
    OneTestFaithful(key, name, n);
    OneTestTells(schema, key, name, n, m);
    StatementTells(schema, select, sets, OneTest(key, name, Num(n)), Null, WholeNumbers(m));
  }

  // ----- which filters are accepted -----

  /** What the compiler takes for a connector at the beginning of a text: any word with these letters in front. */
  lemma LooksConnectedIs(s: string)
    ensures LooksConnected(s) <==> (|s| >= 2 && s[0] == 'O' && s[1] == 'R') || (|s| >= 3 && s[0] == 'A' && s[1] == 'N' && s[2] == 'D')
  {
  }

  predicate NamesTest(v: Json) {
    v.Str? &&
    (Says(v.s, "NULL") || Says(v.s, "TRUE") || Says(v.s, "FALSE") || Says(v.s, "UNKNOWN") ||
     Says(v.s, "NOT NULL") || Says(v.s, "NOT TRUE") || Says(v.s, "NOT FALSE") || Says(v.s, "NOT UNKNOWN"))
  }

  /** The operands each operator takes. */
  predicate OperandFine(name: string, v: Json) {
    if name in COMPARISONS then v.Bool? || v.Num? || (v.Str? && v.s != "")
    else if name == "IS" then NamesTest(v)
    else if name == "IN" then v.Arr? && v.items != []
    else if name in RANGES then v.Arr? && |v.items| == 2
    else if name == "?|" || name == "?&" then v.Arr? && forall i | 0 <= i < |v.items| :: v.items[i].Str?
    else name == "RE" || name in JSON_TESTS || name in PATH_TESTS || Modifies(name)
  }

  /** Beside IS the qualifier is not looked at. */
  predicate OperatorFine(o: seq<Field>, i: nat)
    requires i < |o|
  {
    && OperandFine(o[i].key, o[i].value)
    && (Modifies(o[i].key) || o[i].key == "IS" || Lookup(o, "EXPR_IS").None? || NamesTest(Lookup(o, "EXPR_IS").value))
  }

  predicate MemberFine(schema: Schema, f: Field) {
    if NamesConnector(f.key) then f.value.Str?
    else schema(f.key).Some? && f.value.Obj? && forall i | 0 <= i < |f.value.fields| :: OperatorFine(f.value.fields, i)
  }

  /** Does the element need a connector of its own, its text being no less than six characters long and not beginning
      with OR or AND? */
  ghost predicate Unconnected(schema: Schema, j: Json) {
    !PassedOver(j) && Read(schema, j).Success? && Width(Read(schema, j).value) >= 6 && !StartsConnected(Read(schema, j).value)
  }

  ghost predicate ItemFine(schema: Schema, js: seq<Json>, i: nat, first: bool, k: nat)
    requires i <= k < |js|
  {
    Unconnected(schema, js[k]) ==> first && forall m | i <= m < k :: PassedOver(js[m])
  }

  ghost predicate Accepted(schema: Schema, j: Json)
    decreases j
  {
    match j
    case Null => true
    case Str(s) => s == ""
    case Arr(items) =>
      && (forall i | 0 <= i < |items| :: Accepted(schema, items[i]))
      && (forall k | 0 <= k < |items| :: ItemFine(schema, items, 0, true, k))
    case Obj(fs) => forall i | 0 <= i < |fs| :: MemberFine(schema, fs[i])
    case _ => false
  }

  lemma NamesTestIs(v: Json)
    ensures MapIsOperand(v).Success? <==> NamesTest(v)
  {
    OperandNamed(v, "NULL");
    OperandNamed(v, "UNKNOWN");
    OperandNamed(v, "NOT NULL");
    OperandNamed(v, "NOT UNKNOWN");
    OperandNamed(v, "TRUE");
    OperandNamed(v, "NOT TRUE");
    OperandNamed(v, "FALSE");
    OperandNamed(v, "NOT FALSE");
  }

  lemma OperandRead(o: seq<Field>, name: string, v: Json)
    ensures ReadCond(o, name, v).Success? <==> OperandFine(name, v)
  {
    NamesTestIs(v);
    if name in JSON_TESTS {
      JsonTaken(o, name, v);
    } else if name in RANGES || name == "IN" {
      ListTaken(o, name, v);
    }
  }

  lemma JsonTaken(o: seq<Field>, name: string, v: Json)
    requires name in JSON_TESTS
    ensures ReadCond(o, name, v).Success? <==> OperandFine(name, v)
  {
    if v.Arr? {
      assert AllStrings(v.items) <==> forall i | 0 <= i < |v.items| :: v.items[i].Str?;
    }
  }

  lemma ListTaken(o: seq<Field>, name: string, v: Json)
    requires name in RANGES || name == "IN"
    ensures ReadCond(o, name, v).Success? <==> OperandFine(name, v)
  {
  }

  lemma OperatorAccepted(col: string, o: seq<Field>, i: nat, cur: Option<Tree>)
    requires i < |o|
    ensures ReadOperator(col, o, i, cur).Success? <==> OperatorFine(o, i)
  {
    OperandRead(o, o[i].key, o[i].value);
    if Lookup(o, "EXPR_IS").Some? {
      NamesTestIs(Lookup(o, "EXPR_IS").value);
    }
  }

  lemma AllFine(o: seq<Field>, i: nat)
    requires i < |o|
    ensures (forall k | i <= k < |o| :: OperatorFine(o, k)) <==>
            OperatorFine(o, i) && forall k | i + 1 <= k < |o| :: OperatorFine(o, k)
  {
  }

  lemma OperatorsTurn(col: string, o: seq<Field>, i: nat, cur: Option<Tree>)
    requires i < |o|
    ensures ReadOperators(col, o, i, cur).Success? <==>
            ReadOperator(col, o, i, cur).Success? && ReadOperators(col, o, i + 1, ReadOperator(col, o, i, cur).value).Success?
  {
  }

  lemma {:induction false} OperatorsAccepted(col: string, o: seq<Field>, i: nat, cur: Option<Tree>)
    requires i <= |o|
    ensures ReadOperators(col, o, i, cur).Success? <==> forall k | i <= k < |o| :: OperatorFine(o, k)
    decreases |o| - i
  {
    if i < |o| {
      OperatorAccepted(col, o, i, cur);
      OperatorsTurn(col, o, i, cur);
      AllFine(o, i);
      if OperatorFine(o, i) {
        OperatorsAccepted(col, o, i + 1, ReadOperator(col, o, i, cur).value);
      }
    }
  }

  lemma {:induction false} MembersAccepted(schema: Schema, fs: seq<Field>, i: nat, conn: string, cur: Option<Tree>)
    requires i <= |fs|
    ensures ReadFields(schema, fs, i, conn, cur).Success? <==> forall k | i <= k < |fs| :: MemberFine(schema, fs[k])
    decreases |fs| - i
  {
    if i < |fs| {
      UpperWord(fs[i].key, "CONNECTBY");
      if IsConnectBy(fs[i].key) {
        if fs[i].value.Str? {
          MembersAccepted(schema, fs, i + 1, Upper(fs[i].value.s), cur);
        }
      } else if schema(fs[i].key).Some? && fs[i].value.Obj? {
        var col, o := schema(fs[i].key).value, fs[i].value.fields;
        OperatorsAccepted(col, o, 0, cur);
        if ReadOperators(col, o, 0, cur).Success? {
          MembersAccepted(schema, fs, i + 1, conn, ReadOperators(col, o, 0, cur).value);
        }
      }
    }
  }

  ghost predicate ItemsFine(schema: Schema, js: seq<Json>, i: nat, first: bool)
    requires i <= |js|
  {
    && (forall k | i <= k < |js| :: Accepted(schema, js[k]))
    && (forall k | i <= k < |js| :: ItemFine(schema, js, i, first, k))
  }

  lemma ItemsFineStep(schema: Schema, js: seq<Json>, i: nat, first: bool)
    requires i < |js| && (Read(schema, js[i]).Success? <==> Accepted(schema, js[i]))
    ensures ItemsFine(schema, js, i, first) <==>
            && Accepted(schema, js[i]) && (Unconnected(schema, js[i]) ==> first)
            && ItemsFine(schema, js, i + 1, first && PassedOver(js[i]))
  {
    var rest := first && PassedOver(js[i]);
    assert ItemFine(schema, js, i, first, i) <==> (Unconnected(schema, js[i]) ==> first);
    forall k | i < k < |js| ensures ItemFine(schema, js, i, first, k) <==> ItemFine(schema, js, i + 1, rest, k) {
    }
    if ItemsFine(schema, js, i, first) {
      forall k | i + 1 <= k < |js| ensures Accepted(schema, js[k]) && ItemFine(schema, js, i + 1, rest, k) {
        assert ItemFine(schema, js, i, first, k);
      }
      assert Accepted(schema, js[i]) && ItemFine(schema, js, i, first, i);
    }
    if Accepted(schema, js[i]) && (Unconnected(schema, js[i]) ==> first) && ItemsFine(schema, js, i + 1, rest) {
      forall k | i <= k < |js| ensures Accepted(schema, js[k]) && ItemFine(schema, js, i, first, k) {
        if k > i {
          assert ItemFine(schema, js, i + 1, rest, k);
        }
      }
    }
  }

  lemma {:induction false} ItemsAccepted(schema: Schema, js: seq<Json>, i: nat, conn: string, ps: seq<Part>)
    requires i <= |js|
    ensures ReadItems(schema, js, i, conn, ps).Success? <==> ItemsFine(schema, js, i, ps == [])
    decreases js, |js| - i
  {
    if i < |js| {
      FilterAccepted(schema, js[i]);
      ItemsFineStep(schema, js, i, ps == []);
      if Read(schema, js[i]).Success? {
        ReadConnector(schema, js[i]);
        PassedIs(js[i]);
        var p := Read(schema, js[i]).value;
        if IsSkipped(p) {
          ItemsAccepted(schema, js, i + 1, if IsBare(p) then p.conn else conn, ps);
        } else {
          ItemsAccepted(schema, js, i + 1, conn, ps + [p]);
        }
      }
    }
  }

  /** Exactly which filters are accepted. */
  lemma {:induction false} FilterAccepted(schema: Schema, j: Json)
    ensures Read(schema, j).Success? <==> Accepted(schema, j)
    decreases j
  {
    match j
    case Arr(items) =>
      if items != [] {
        ItemsAccepted(schema, items, 0, "", []);
        assert ItemsFine(schema, items, 0, true) <==> Accepted(schema, j);
      }
    case Obj(fs) =>
      if fs != [] {
        MembersAccepted(schema, fs, 0, "", None);
      }
    case _ =>
  }
}

/**
 Reading a JSON filter (backend/cmn/filter.go): which conditions it holds, how
 they are connected, and every way in which it is refused.
 */
module FilterTree {
  import opened Wrappers

  datatype Json = Null | Bool(b: bool) | Num(n: int) | Str(s: string) | Arr(items: seq<Json>) | Obj(fields: seq<Field>)

  /** The members of an object come in iteration order. */
  datatype Field = Field(key: string, value: Json)

  datatype Error =
    | InvalidNode | InvalidConnector | InvalidKey | InvalidValue | InvalidOperator | UnsupportedOperator
    | EmptyValue | UnsupportedType | NotAList | EmptyList | NotTwoValues | NotStrings | InvalidIsOperand
    | NilOperand | MissingConnector

  /** The column text for a JSON key, if the table has such a column. */
  type Schema = string -> Option<string>

  // ----- strings -----

  function UpperChar(c: char): char {
    if 'a' <= c <= 'z' then (c as int - 32) as char else c
  }

  function Upper(s: string): (u: string)
    ensures |u| == |s|
  {
    seq(|s|, i requires 0 <= i < |s| => UpperChar(s[i]))
  }

  function TrimLeft(s: string): string {
    if s != "" && s[0] == ' ' then TrimLeft(s[1..]) else s
  }

  function TrimRight(s: string): string {
    if s != "" && s[|s| - 1] == ' ' then TrimRight(s[..|s| - 1]) else s
  }

  function Trim(s: string): string {
    TrimRight(TrimLeft(s))
  }

  function Squeeze(s: string): string {
    if s == "" then "" else (if s[0] == ' ' then "" else [s[0]]) + Squeeze(s[1..])
  }

  // ----- conditions and trees -----

  datatype Cond =
    | Compare(op: string, v: Json)
    | IsTest(what: string)
    | Regexp(v: Json)
    | In(vs: seq<Json>)
    | Between(op: string, lo: Json, hi: Json)
    | JsonPath(fn: string, path: Json, vars: Option<Json>, silent: Option<Json>)

  /** `lost` are the operands of earlier conditions of the same object, which `cond` overwrote. */
  datatype Tree =
    | Leaf(lost: seq<Json>, col: string, cond: Cond, exprIs: Option<string>)
    | Group(parts: seq<Part>)

  /** What one filter node comes to: a connector text and an expression, each possibly empty. */
  datatype Part = Part(conn: string, body: Option<Tree>)

  function Optional(v: Option<Json>): seq<Json> {
    match v
    case Some(x) => [x]
    case None => []
  }

  function Operands(c: Cond): seq<Json> {
    match c
    case Compare(_, v) => [v]
    case IsTest(_) => []
    case Regexp(v) => [v]
    case In(vs) => vs
    case Between(_, lo, hi) => [lo, hi]
    case JsonPath(_, path, vars, silent) => [path] + Optional(vars) + Optional(silent)
  }

  // ----- operators -----

  function CompareSymbol(opr: string): Option<string> {
    if opr == "EQ" then Some("=")
    else if opr == "LT" then Some("<")
    else if opr == "GT" then Some(">")
    else if opr == "LTE" then Some("<=")
    else if opr == "GTE" then Some(">=")
    else if opr == "NEQ" then Some("!=")
    else if opr == "LIKE" then Some("LIKE")
    else if opr == "ILIKE" then Some("ILIKE")
    else None
  }

  function BetweenSymbol(opr: string): Option<string> {
    if opr == "BETWEEN" then Some("BETWEEN")
    else if opr == "NOT_BETWEEN" then Some("NOT BETWEEN")
    else if opr == "BETWEEN_SYMMETRIC" then Some("BETWEEN SYMMETRIC")
    else if opr == "NOT_BETWEEN_SYMMETRIC" then Some("NOT BETWEEN SYMMETRIC")
    else None
  }

  const KEY_LISTS := {"?|", "?&"}
  const JSON_OPERATORS := {"@>", "<@", "?", "@?", "@@"}
  const JSON_PATHS := {"jsonb_path_exists", "jsonb_path_exists_tz", "jsonb_path_match", "jsonb_path_match_tz"}
  const MODIFIERS := {"vars", "silent", "EXPR_IS"}
  const UNHANDLED := {"EQU", "IS_DISTINCT_FROM", "IS_NOT_DISTINCT_FROM"}
  const IS_OPERANDS := {"NULL", "TRUE", "FALSE", "UNKNOWN", "NOT NULL", "NOT TRUE", "NOT UNKNOWN", "NOT FALSE"}

  function Lookup(x: seq<Field>, key: string): Option<Json> {
    if x == [] then None else if x[0].key == key then Some(x[0].value) else Lookup(x[1..], key)
  }

  /** `mapIsOperand`. */
  function MapIsOperand(v: Json): Result<string, Error> {
    if v.Str? && Upper(Trim(v.s)) in IS_OPERANDS then Success(Upper(Trim(v.s))) else Failure(InvalidIsOperand)
  }

  function ExprIs(x: seq<Field>): Result<Option<string>, Error> {
    match Lookup(x, "EXPR_IS")
    case None => Success(None)
    case Some(v) =>
      var w :- MapIsOperand(v);
      Success(Some(w))
  }

  function AllStrings(vs: seq<Json>): bool {
    forall v <- vs :: v.Str?
  }

  /** The operators that take a list. */
  function ReadList(opr: string, operand: Json): Result<Cond, Error> {
    if operand.Null? then Failure(NilOperand)
    else if !operand.Arr? then Failure(NotAList)
    else if operand.items == [] then Failure(EmptyList)
    else if opr == "IN" then Success(In(operand.items))
    else if |operand.items| != 2 then Failure(NotTwoValues)
    else Success(Between(BetweenSymbol(opr).GetOr(""), operand.items[0], operand.items[1]))
  }

  /** One operator of the operator map `x`; the modifiers yield nothing by themselves. */
  function ReadCond(x: seq<Field>, opr: string, operand: Json): Result<Option<Cond>, Error> {
    if CompareSymbol(opr).Some? then
      match operand
      case Null => Failure(NilOperand)
      case Str(s) => if s == "" then Failure(EmptyValue) else Success(Some(Compare(CompareSymbol(opr).value, operand)))
      case Arr(_) => Failure(UnsupportedType)
      case Obj(_) => Failure(UnsupportedType)
      case _ => Success(Some(Compare(CompareSymbol(opr).value, operand)))
    else if opr == "IS" then
      var w :- MapIsOperand(operand);
      Success(Some(IsTest(w)))
    else if opr == "RE" then Success(Some(Regexp(operand)))
    else if opr == "IN" || BetweenSymbol(opr).Some? then
      var c :- ReadList(opr, operand);
      Success(Some(c))
    else if opr in KEY_LISTS then
      if operand.Arr? && AllStrings(operand.items) then Success(Some(Compare(opr, operand))) else Failure(NotStrings)
    else if opr in JSON_OPERATORS then Success(Some(Compare(opr, operand)))
    else if opr in MODIFIERS then Success(None)
    else if opr in JSON_PATHS then
      Success(Some(JsonPath(opr, operand, Lookup(x, "vars"), Lookup(x, "silent"))))
    else if opr in UNHANDLED then Failure(UnsupportedOperator)
    else Failure(InvalidOperator)
  }

  /** The values a tree hands over so far. */
  function Handed(cur: Option<Tree>): seq<Json> {
    if cur.Some? && cur.value.Leaf? then cur.value.lost + Operands(cur.value.cond) else []
  }

  /** The tree after one more operator: `c` is the condition it makes, `e` the EXPR_IS modifier beside it. */
  function NextTree(col: string, c: Result<Option<Cond>, Error>, e: Result<Option<string>, Error>, cur: Option<Tree>)
    : Result<Option<Tree>, Error>
  {
    var c :- c;
    match c
    case None => Success(cur)
    case Some(cond) =>
      if cond.IsTest? then Success(Some(Leaf(Handed(cur), col, cond, None)))
      else
        var w :- e;
        Success(Some(Leaf(Handed(cur), col, cond, w)))
  }

  /** Operator `i` of `x`, after `cur`. */
  function ReadOperator(col: string, x: seq<Field>, i: nat, cur: Option<Tree>): Result<Option<Tree>, Error>
    requires i < |x|
  {
    NextTree(col, ReadCond(x, x[i].key, x[i].value), ExprIs(x), cur)
  }

  /** The operators of `x` from index `i` on, after `cur`. */
  ghost function ReadOperators(col: string, x: seq<Field>, i: nat, cur: Option<Tree>): Result<Option<Tree>, Error>
    requires i <= |x|
    decreases |x| - i
  {
    if i == |x| then Success(cur) else
    var next :- ReadOperator(col, x, i, cur);
    ReadOperators(col, x, i + 1, next)
  }

  predicate IsConnectBy(key: string) {
    Upper(key) == "CONNECTBY"
  }

  /** The members of a filter object from index `i` on. */
  ghost function ReadFields(schema: Schema, fs: seq<Field>, i: nat, conn: string, cur: Option<Tree>): Result<Part, Error>
    requires i <= |fs|
    decreases |fs| - i
  {
    if i == |fs| then Success(Part(conn, cur)) else
    var f := fs[i];
    if IsConnectBy(f.key) then
      if f.value.Str? then ReadFields(schema, fs, i + 1, Upper(f.value.s), cur) else Failure(InvalidConnector)
    else
      match schema(f.key)
      case None => Failure(InvalidKey)
      case Some(col) =>
        if !f.value.Obj? then Failure(InvalidValue)
        else
          var next :- ReadOperators(col, f.value.fields, 0, cur);
          ReadFields(schema, fs, i + 1, conn, next)
  }

  // ----- lists -----

  /** An object with nothing but a connector AND or OR names the connector of the list around it. */
  predicate IsBare(p: Part) {
    p.body.None? && (Squeeze(p.conn) == "AND" || Squeeze(p.conn) == "OR")
  }

  predicate IsBlank(s: string) {
    Trim(s) == ""
  }

  /** The length of the rendered text, a condition counting as the six characters it has at least. */
  function Width(p: Part): nat {
    var c := |TrimLeft(p.conn)|;
    match p.body
    case None => |Trim(p.conn)|
    case Some(t) => (if c == 0 then 0 else c + 1) + TreeWidth(t)
  }

  function TreeWidth(t: Tree): nat {
    if t.Leaf? then 6 else 2 + PartsWidth(t.parts)
  }

  function PartsWidth(ps: seq<Part>): nat {
    if ps == [] then 0 else 1 + Width(ps[0]) + PartsWidth(ps[1..])
  }

  predicate LooksConnected(s: string) {
    "OR" <= s || "AND" <= s
  }

  /** Does the rendered text begin with OR or AND?  A column whose name begins so does as well. */
  predicate StartsConnected(p: Part) {
    if !IsBlank(p.conn) then LooksConnected(TrimLeft(p.conn))
    else p.body.Some? && p.body.value.Leaf? && p.body.value.exprIs.None? &&
         !p.body.value.cond.Regexp? && !p.body.value.cond.JsonPath? && LooksConnected(p.body.value.col)
  }

  /** The elements of a list from index `i` on. */
  ghost function ReadItems(schema: Schema, js: seq<Json>, i: nat, conn: string, ps: seq<Part>): Result<Part, Error>
    requires i <= |js|
    decreases js, |js| - i
  {
    if i == |js| then Success(Part(conn, Some(Group(ps)))) else
    var p :- Read(schema, js[i]);
    if IsBare(p) then ReadItems(schema, js, i + 1, p.conn, ps)
    else if p.body.None? && IsBlank(p.conn) then ReadItems(schema, js, i + 1, conn, ps)
    else if ps != [] && Width(p) >= 6 && !StartsConnected(p) then Failure(MissingConnector)
    else ReadItems(schema, js, i + 1, conn, ps + [p])
  }

  /** A whole filter. */
  ghost function Read(schema: Schema, j: Json): Result<Part, Error>
    decreases j
  {
    match j
    case Null => Success(Part("", None))
    case Str(s) => if s == "" then Success(Part("", None)) else Failure(InvalidNode)
    case Arr(items) => if items == [] then Success(Part("", None)) else ReadItems(schema, items, 0, "", [])
    case Obj(fields) => if fields == [] then Success(Part("", None)) else ReadFields(schema, fields, 0, "", None)
    case _ => Failure(InvalidNode)
  }
}

/**
 The text of a whole formula, with functions, arrays, strings and white space, and
 the tokens it is read as (backend/excelize/efp.go).
 */
module Forms {
  import opened Wrappers
  import opened Tokenizer
  import opened Formula
  import Literals

  // ----- formulas -----

  datatype Op =
    | Plus | Minus | Times | Over | Power | Equal | Below | Above | AtMost | AtLeast | Unequal | Join | Unite

  /** `Piece` is a number, a truth value or a reference, `Quoted` a text between quotes, `Common` the intersection of two
      ranges, and `Spaced` has blanks around it. */
  datatype Form =
    | Piece(v: string) | Quoted(v: string)
    | Positive(e: Form) | Negative(e: Form) | Percent(e: Form)
    | Binary(l: Form, op: Op, r: Form) | Common(l: Form, blanks: nat, r: Form) | Spaced(before: nat, e: Form, after: nat)
    | Group(e: Form) | Call(name: string, args: Forms) | Table(rows: Rows)

  /** Arguments, each of which may be missing. */
  datatype Forms = One(a: Option<Form>) | More(a: Option<Form>, rest: Forms)

  datatype Rows = LastRow(cells: Forms) | NextRow(cells: Forms, rest: Rows)

  // ----- their text -----

  function Symbol(op: Op): (s: string)
    ensures 1 <= |s| <= 2
  {
    match op
    case Plus => "+"
    case Minus => "-"
    case Times => "*"
    case Over => "/"
    case Power => "^"
    case Equal => "="
    case Below => "<"
    case Above => ">"
    case AtMost => "<="
    case AtLeast => ">="
    case Unequal => "<>"
    case Join => "&"
    case Unite => ","
  }

  function Spaces(n: nat): (s: string)
    ensures |s| == n && forall i | 0 <= i < n :: s[i] == ' '
  {
    if n == 0 then "" else " " + Spaces(n - 1)
  }

  function FormText(e: Form): string {
    match e
    case Piece(v) => v
    case Quoted(v) => Literals.Literal(v)
    case Positive(x) => "+" + FormText(x)
    case Negative(x) => "-" + FormText(x)
    case Percent(x) => FormText(x) + "%"
    case Binary(l, op, r) => FormText(l) + (Symbol(op) + FormText(r))
    case Common(l, n, r) => FormText(l) + (Spaces(n) + FormText(r))
    case Spaced(m, x, n) => Spaces(m) + (FormText(x) + Spaces(n))
    case Group(x) => "(" + (FormText(x) + ")")
    case Call(name, args) => name + ("(" + (ArgsText(args) + ")"))
    case Table(rows) => "{" + (RowsText(rows) + "}")
  }

  function ArgText(a: Option<Form>): string {
    match a
    case None => ""
    case Some(e) => FormText(e)
  }

  function ArgsText(args: Forms): string {
    match args
    case One(a) => ArgText(a)
    case More(a, rest) => ArgText(a) + ("," + ArgsText(rest))
  }

  function RowsText(rows: Rows): string {
    match rows
    case LastRow(cells) => ArgsText(cells)
    case NextRow(cells, rest) => ArgsText(cells) + (";" + RowsText(rest))
  }

  // ----- their tokens -----

  function Kind(op: Op): SubType {
    match op
    case Plus => Math
    case Minus => Math
    case Times => Math
    case Over => Math
    case Power => Math
    case Join => Concatenation
    case Unite => Union
    case _ => Logical
  }

  /** What a piece is: a number, a truth value, or else a reference. */
  function PieceKind(isNumber: string -> bool, v: string): SubType {
    if isNumber(v) then Number else if v == "TRUE" || v == "FALSE" then Logical else Range
  }

  /** A function's name, without an `@` before it. */
  function FunctionName(name: string): string {
    if name != "" && name[0] == '@' then name[1..] else name
  }

  const COMMA := Token(",", Argument, Nothing)
  const END := Token("", Function, Stop)

  /** The tokens of a formula: a call is the start of its function, the arguments with a separator between each two, and
      its stop; an array is a function of rows, and a row a function of cells.  (For quotes inside a text see
      `Literals.ReadLiteral`.) */
  function TokensOf(isNumber: string -> bool, e: Form): seq<Token> {
    match e
    case Piece(v) => [Token(v, Operand, PieceKind(isNumber, v))]
    case Quoted(v) => Literals.Pieces("", v)
    case Positive(x) => TokensOf(isNumber, x)
    case Negative(x) => [Token("-", OperatorPrefix, Nothing)] + TokensOf(isNumber, x)
    case Percent(x) => TokensOf(isNumber, x) + [Token("%", OperatorPostfix, Nothing)]
    case Binary(l, op, r) => TokensOf(isNumber, l) + ([Token(Symbol(op), OperatorInfix, Kind(op))] + TokensOf(isNumber, r))
    case Common(l, _, r) => TokensOf(isNumber, l) + ([Token("", OperatorInfix, Intersection)] + TokensOf(isNumber, r))
    case Spaced(_, x, _) => TokensOf(isNumber, x)
    case Group(x) => [Token("", Subexpression, Start)] + (TokensOf(isNumber, x) + [Token("", Subexpression, Stop)])
    case Call(name, args) => [Token(FunctionName(name), Function, Start)] + (ArgsTokens(isNumber, args) + [END])
    case Table(rows) =>
      [Token("ARRAY", Function, Start)] + ([Token("ARRAYROW", Function, Start)] + (RowsTokens(isNumber, rows) + [END, END]))
  }

  function ArgTokens(isNumber: string -> bool, a: Option<Form>): seq<Token> {
    match a
    case None => []
    case Some(e) => TokensOf(isNumber, e)
  }

  function ArgsTokens(isNumber: string -> bool, args: Forms): seq<Token> {
    match args
    case One(a) => ArgTokens(isNumber, a)
    case More(a, rest) => ArgTokens(isNumber, a) + ([COMMA] + ArgsTokens(isNumber, rest))
  }

  function RowsTokens(isNumber: string -> bool, rows: Rows): seq<Token> {
    match rows
    case LastRow(cells) => ArgsTokens(isNumber, cells)
    case NextRow(cells, rest) =>
      ArgsTokens(isNumber, cells) + ([END, COMMA, Token("ARRAYROW", Function, Start)] + RowsTokens(isNumber, rest))
  }

  // ----- which formulas are well written -----

  predicate IsText(v: string) {
    v != "" && forall i | 0 <= i < |v| :: Gathered(v[i])
  }

  /** A value ends with the text: no postfix operator and no blank does. */
  predicate EndsPlain(e: Form) {
    match e
    case Positive(x) => EndsPlain(x)
    case Negative(x) => EndsPlain(x)
    case Binary(_, _, r) => EndsPlain(r)
    case Common(_, _, r) => EndsPlain(r)
    case Percent(_) => false
    case Spaced(_, _, _) => false
    case _ => true
  }

  /** A value begins with it: no sign and no blank does. */
  predicate StartsPlain(e: Form) {
    match e
    case Percent(x) => StartsPlain(x)
    case Binary(l, _, _) => StartsPlain(l)
    case Common(l, _, _) => StartsPlain(l)
    case Positive(_) => false
    case Negative(_) => false
    case Spaced(_, _, _) => false
    case _ => true
  }

  predicate BeginsBlank(s: string) {
    s != "" && s[0] == ' '
  }

  predicate EndsBlank(s: string) {
    s != "" && s[|s| - 1] == ' '
  }

  /** Directly inside a function a comma separates arguments, elsewhere it unites ranges. */
  predicate Formed(e: Form, inFunction: bool) {
    match e
    case Piece(v) => IsText(v)
    case Quoted(v) => true
    case Positive(x) => Formed(x, inFunction)
    case Negative(x) => Formed(x, inFunction)
    case Percent(x) => Formed(x, inFunction)
    case Binary(l, op, r) => Formed(l, inFunction) && Formed(r, inFunction) && (op == Unite ==> !inFunction)
    case Common(l, n, r) => Formed(l, inFunction) && Formed(r, inFunction) && n > 0 && EndsPlain(l) && StartsPlain(r)
    case Spaced(_, x, _) => Formed(x, inFunction) && !BeginsBlank(FormText(x)) && !EndsBlank(FormText(x))
    case Group(x) => Formed(x, false)
    case Call(name, args) => IsText(name) && ArgsFormed(args)
    case Table(rows) => RowsFormed(rows)
  }

  predicate ArgFormed(a: Option<Form>) {
    match a
    case None => true
    case Some(e) => Formed(e, true)
  }

  predicate ArgsFormed(args: Forms) {
    match args
    case One(a) => ArgFormed(a)
    case More(a, rest) => ArgFormed(a) && ArgsFormed(rest)
  }

  predicate RowsFormed(rows: Rows) {
    match rows
    case LastRow(cells) => ArgsFormed(cells)
    case NextRow(cells, rest) => ArgsFormed(cells) && RowsFormed(rest)
  }

  // ----- a token on its way through the passes -----

  /** `raw` is what the first pass adds, `tight` what the second leaves of it, `settled` the last. */
  datatype Item = Item(raw: Token, tight: seq<Token>, settled: seq<Token>)

  function Kept(t: Token): Item {
    Item(t, [t], [t])
  }

  function AllKept(ts: seq<Token>): seq<Item> {
    seq(|ts|, i requires 0 <= i < |ts| => Kept(ts[i]))
  }

  const BLANK := Token("", Whitespace, Nothing)

  function BlankItems(n: nat): seq<Item> {
    if n == 0 then [] else [Item(BLANK, [], [])]
  }

  function OpItem(op: Op): Item {
    var raw := Token(Symbol(op), OperatorInfix,
                     if op in {AtMost, AtLeast, Unequal} then Logical else if op == Unite then Union else Nothing);
    Item(raw, [raw], [Token(Symbol(op), OperatorInfix, Kind(op))])
  }

  function SignItem(sign: string, settled: seq<Token>): Item {
    var raw := Token(sign, OperatorInfix, Nothing);
    Item(raw, [raw], settled)
  }

  function StartItem(name: string): Item {
    var raw := Token(name, Function, Start);
    Item(raw, [raw], [Token(FunctionName(name), Function, Start)])
  }

  function CommonItem(): Item {
    var t := Token("", OperatorInfix, Intersection);
    Item(BLANK, [t], [t])
  }

  function Items(isNumber: string -> bool, e: Form): seq<Item> {
    match e
    case Piece(v) =>
      var raw := Token(v, Operand, Nothing);
      [Item(raw, [raw], [Token(v, Operand, PieceKind(isNumber, v))])]
    case Quoted(v) => AllKept(Literals.Pieces("", v))
    case Positive(x) => [SignItem("+", [])] + Items(isNumber, x)
    case Negative(x) => [SignItem("-", [Token("-", OperatorPrefix, Nothing)])] + Items(isNumber, x)
    case Percent(x) => Items(isNumber, x) + [Kept(Token("%", OperatorPostfix, Nothing))]
    case Binary(l, op, r) => Items(isNumber, l) + ([OpItem(op)] + Items(isNumber, r))
    case Common(l, _, r) => Items(isNumber, l) + ([CommonItem()] + Items(isNumber, r))
    case Spaced(m, x, n) => BlankItems(m) + (Items(isNumber, x) + BlankItems(n))
    case Group(x) => [Kept(OPEN)] + (Items(isNumber, x) + [Kept(CLOSE)])
    case Call(name, args) => [StartItem(name)] + (ArgsItems(isNumber, args) + [Kept(END)])
    case Table(rows) => [StartItem("ARRAY")] + ([StartItem("ARRAYROW")] + (RowsItems(isNumber, rows) + [Kept(END), Kept(END)]))
  }

  function ArgItems(isNumber: string -> bool, a: Option<Form>): seq<Item> {
    match a
    case None => []
    case Some(e) => Items(isNumber, e)
  }

  function ArgsItems(isNumber: string -> bool, args: Forms): seq<Item> {
    match args
    case One(a) => ArgItems(isNumber, a)
    case More(a, rest) => ArgItems(isNumber, a) + ([Kept(COMMA)] + ArgsItems(isNumber, rest))
  }

  function RowsItems(isNumber: string -> bool, rows: Rows): seq<Item> {
    match rows
    case LastRow(cells) => ArgsItems(isNumber, cells)
    case NextRow(cells, rest) =>
      ArgsItems(isNumber, cells) + ([Kept(END), Kept(COMMA), StartItem("ARRAYROW")] + RowsItems(isNumber, rest))
  }

  function RawTokens(its: seq<Item>): seq<Token> {
    seq(|its|, i requires 0 <= i < |its| => its[i].raw)
  }

  function TightItems(its: seq<Item>): seq<Token> {
    if its == [] then [] else its[0].tight + TightItems(its[1..])
  }

  function LastTokens(its: seq<Item>): seq<Token> {
    if its == [] then [] else its[0].settled + LastTokens(its[1..])
  }

  lemma RawSplit(a: seq<Item>, b: seq<Item>)
    ensures RawTokens(a + b) == RawTokens(a) + RawTokens(b)
  {
  }

  lemma {:induction false} LastSplit(a: seq<Item>, b: seq<Item>)
    ensures LastTokens(a + b) == LastTokens(a) + LastTokens(b)
    decreases |a|
  {
    if a == [] {
      assert a + b == b;
    } else {
      LastSplit(a[1..], b);
      assert (a + b)[0] == a[0] && (a + b)[1..] == a[1..] + b;
    }
  }

  lemma LastOne(t: Item)
    ensures LastTokens([t]) == t.settled && RawTokens([t]) == [t.raw]
  {
    assert [t][1..] == [];
  }
}

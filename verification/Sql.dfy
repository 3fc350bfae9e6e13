/**
 The SQL conditions the filter compiler writes: tokens, a parser in which NOT
 binds tighter than AND and AND tighter than OR, and their value in three-valued
 logic.
 */
module Sql {
  import opened Wrappers
  import opened FilterTree

  /** `Conn` is a connecting word as written, `Is` the words after IS, `Param(n)` the placeholder $n. */
  datatype Token =
    | Col(name: string) | Sym(text: string) | Is(what: string) | Conn(word: string)
    | Param(n: nat) | LPar | RPar | Comma

  predicate IsAnd(t: Token) {
    t.Conn? && Trim(t.word) == "AND"
  }

  predicate IsOr(t: Token) {
    t.Conn? && Trim(t.word) == "OR"
  }

  predicate IsNot(t: Token) {
    t.Conn? && Trim(t.word) == "NOT"
  }

  // ----- connecting texts of several words -----

  function WordEnd(s: string): (k: nat)
    ensures k <= |s| && (s != "" && s[0] != ' ' ==> k > 0)
  {
    if s == "" || s[0] == ' ' then 0 else 1 + WordEnd(s[1..])
  }

  /** The words of a text, separated by blanks. */
  function Words(s: string): seq<string>
    decreases |s|
  {
    if s == "" then []
    else if s[0] == ' ' then Words(s[1..])
    else [s[..WordEnd(s)]] + Words(s[WordEnd(s)..])
  }

  function WordToken(w: string): Token {
    if w == "1=1" then Sym("1=1") else Conn(w)
  }

  const KEYWORDS := {"AND", "OR", "NOT", "IS", "NULL", "TRUE", "FALSE", "UNKNOWN"}
  const TRUTHS := {"NULL", "TRUE", "FALSE", "UNKNOWN"}

  predicate IsNameChar(c: char) {
    'A' <= c <= 'Z' || '0' <= c <= '9' || c == '_'
  }

  /** A column name, as it stands in a text that has been put in upper case. */
  predicate IsName(w: string) {
    w != "" && !('0' <= w[0] <= '9') && (forall i | 0 <= i < |w| :: IsNameChar(w[i])) && w !in KEYWORDS
  }

  /** The words behind IS at the beginning of `ws`, and how many they are. */
  function IsWords(ws: seq<string>): (r: Option<(string, nat)>)
    ensures r.Some? ==> 1 <= r.value.1 <= |ws|
  {
    if |ws| >= 1 && ws[0] in TRUTHS then Some((ws[0], 1))
    else if |ws| >= 2 && ws[0] == "NOT" && ws[1] in TRUTHS then Some(("NOT " + ws[1], 2))
    else None
  }

  /** How many words at the beginning of `ws` are a test of a column with IS. */
  function TestWords(ws: seq<string>): (k: nat)
    ensures k <= |ws| && (k > 0 ==> k > 2 && IsWords(ws[2..]).Some?)
  {
    if |ws| > 2 && IsName(ws[0]) && ws[1] == "IS" && IsWords(ws[2..]).Some? then 2 + IsWords(ws[2..]).value.1 else 0
  }

  function WordTokens(ws: seq<string>): seq<Token>
    decreases |ws|
  {
    if ws == [] then []
    else
      var k := TestWords(ws);
      if k > 0 then [Col(ws[0]), Is(IsWords(ws[2..]).value.0)] + WordTokens(ws[k..])
      else [WordToken(ws[0])] + WordTokens(ws[1..])
  }

  /** Words of which the grammar decides whether they are SQL: AND, OR, NOT, `1=1` and tests of a column with IS. */
  predicate KnownWords(ws: seq<string>)
    decreases |ws|
  {
    if ws == [] then true
    else
      var k := TestWords(ws);
      if k > 0 then KnownWords(ws[k..]) else ws[0] in {"AND", "OR", "NOT", "1=1"} && KnownWords(ws[1..])
  }

  /** A connecting text other than AND and OR is so many words. */
  function Lex(t: Token): seq<Token> {
    if t.Conn? && !IsAnd(t) && !IsOr(t) then WordTokens(Words(t.word)) else [t]
  }

  /** The tokens the database sees. */
  function Spread(ts: seq<Token>): seq<Token> {
    if ts == [] then [] else Lex(ts[0]) + Spread(ts[1..])
  }

  // ----- syntax -----

  datatype Atom =
    | CompareAtom(col: string, op: string, p: nat)
    | IsAtom(col: string, what: string)
    | RegexpAtom(col: string, p: nat)
    | InAtom(col: string, ps: seq<nat>)
    | BetweenAtom(col: string, op: string, lo: nat, hi: nat)
    | JsonPathAtom(fn: string, col: string, ps: seq<nat>)

  datatype Expr =
    | Always | Test(a: Atom) | IsExpr(e: Expr, what: string) | Not(e: Expr) | And(l: Expr, r: Expr) | Or(l: Expr, r: Expr)

  const BETWEENS := {"BETWEEN", "NOT BETWEEN", "BETWEEN SYMMETRIC", "NOT BETWEEN SYMMETRIC"}

  /** Placeholders separated by commas, up to the closing bracket. */
  ghost function ParseParams(ts: seq<Token>): (r: Option<(seq<nat>, seq<Token>)>)
    ensures r.Some? ==> |r.value.1| < |ts|
  {
    if |ts| < 2 || !ts[0].Param? then None
    else if ts[1].RPar? then Some(([ts[0].n], ts[2..]))
    else if !ts[1].Comma? then None
    else
      match ParseParams(ts[2..])
      case None => None
      case Some((ps, rest)) => Some(([ts[0].n] + ps, rest))
  }

  ghost function ParseAtom(ts: seq<Token>): (r: Option<(Expr, seq<Token>)>)
    ensures r.Some? ==> |r.value.1| < |ts|
  {
    if |ts| >= 2 && ts[0].Col? then
      var c := ts[0].name;
      if ts[1].Is? then Some((Test(IsAtom(c, ts[1].what)), ts[2..]))
      else if !ts[1].Sym? then None
      else if ts[1].text == "IN" then
        if |ts| >= 3 && ts[2].LPar? then
          match ParseParams(ts[3..])
          case None => None
          case Some((ps, rest)) => Some((Test(InAtom(c, ps)), rest))
        else None
      else if ts[1].text == "1=1" then None
      else if ts[1].text in BETWEENS then
        if |ts| >= 5 && ts[2].Param? && IsAnd(ts[3]) && ts[4].Param?
        then Some((Test(BetweenAtom(c, ts[1].text, ts[2].n, ts[4].n)), ts[5..])) else None
      else if |ts| >= 3 && ts[2].Param? then Some((Test(CompareAtom(c, ts[1].text, ts[2].n)), ts[3..]))
      else None
    else if |ts| >= 1 && ts[0] == Sym("1=1") then Some((Always, ts[1..]))
    else if |ts| >= 4 && ts[0].Sym? && ts[1].LPar? && ts[2].Col? && ts[3].Comma? then
      match ParseParams(ts[4..])
      case None => None
      case Some((ps, rest)) =>
        if ts[0].text == "regexp_match" then
          if |ps| == 1 && rest != [] && rest[0] == Is("NOT NULL")
          then Some((Test(RegexpAtom(ts[2].name, ps[0])), rest[1..])) else None
        else Some((Test(JsonPathAtom(ts[0].text, ts[2].name, ps)), rest))
    else None
  }

  ghost function ParsePrimary(ts: seq<Token>): (r: Option<(Expr, seq<Token>)>)
    ensures r.Some? ==> |r.value.1| < |ts|
    decreases |ts|, 0
  {
    if ts != [] && ts[0].LPar? then
      match ParseOr(ts[1..])
      case None => None
      case Some((e, rest)) =>
        if rest == [] || !rest[0].RPar? then None
        else if |rest| >= 2 && rest[1].Is? then Some((IsExpr(e, rest[1].what), rest[2..]))
        else Some((e, rest[1..]))
    else if ts != [] && IsNot(ts[0]) then
      match ParsePrimary(ts[1..])
      case None => None
      case Some((e, rest)) => Some((Not(e), rest))
    else ParseAtom(ts)
  }

  ghost function ParseAnd(ts: seq<Token>): (r: Option<(Expr, seq<Token>)>)
    ensures r.Some? ==> |r.value.1| < |ts|
    decreases |ts|, 1
  {
    match ParsePrimary(ts)
    case None => None
    case Some((l, rest)) =>
      if rest == [] || !IsAnd(rest[0]) then Some((l, rest))
      else
        match ParseAnd(rest[1..])
        case None => None
        case Some((r, rest')) => Some((And(l, r), rest'))
  }

  ghost function ParseOr(ts: seq<Token>): (r: Option<(Expr, seq<Token>)>)
    ensures r.Some? ==> |r.value.1| < |ts|
    decreases |ts|, 2
  {
    match ParseAnd(ts)
    case None => None
    case Some((l, rest)) =>
      if rest == [] || !IsOr(rest[0]) then Some((l, rest))
      else
        match ParseOr(rest[1..])
        case None => None
        case Some((r, rest')) => Some((Or(l, r), rest'))
  }

  /** An expression with nothing behind it. */
  ghost function ParseWhole(ts: seq<Token>): Option<Expr> {
    match ParseOr(ts)
    case None => None
    case Some((e, rest)) => if rest == [] then Some(e) else None
  }

  /** What the database makes of a condition. */
  ghost function Parse(ts: seq<Token>): Option<Expr> {
    ParseWhole(Spread(ts))
  }

  // ----- values -----

  datatype Truth = True | False | Unknown

  function And3(a: Truth, b: Truth): Truth {
    if a == False || b == False then False else if a == True && b == True then True else Unknown
  }

  function Or3(a: Truth, b: Truth): Truth {
    if a == True || b == True then True else if a == False && b == False then False else Unknown
  }

  function Not3(a: Truth): Truth {
    match a
    case True => False
    case False => True
    case Unknown => Unknown
  }

  function Degree(a: Truth): nat {
    match a
    case False => 0
    case Unknown => 1
    case True => 2
  }

  /** AND is the lesser of two values, OR the greater, and NOT turns the order round. */
  lemma ThreeValued(a: Truth, b: Truth)
    ensures Degree(And3(a, b)) == (if Degree(a) < Degree(b) then Degree(a) else Degree(b))
    ensures Degree(Or3(a, b)) == (if Degree(a) < Degree(b) then Degree(b) else Degree(a))
    ensures Degree(Not3(a)) == 2 - Degree(a)
  {
  }

  /** `a IS what`; a boolean that is NULL is UNKNOWN. */
  function Is3(a: Truth, what: string): Truth {
    var yes :=
      if what == "TRUE" then a == True
      else if what == "NOT TRUE" then a != True
      else if what == "FALSE" then a == False
      else if what == "NOT FALSE" then a != False
      else if what == "NULL" || what == "UNKNOWN" then a == Unknown
      else a != Unknown;
    if yes then True else False
  }

  /** An elementary condition on a row, operands filled in. */
  datatype Fact =
    | CompareFact(col: string, op: string, v: Json)
    | IsFact(col: string, what: string)
    | RegexpFact(col: string, v: Json)
    | InFact(col: string, vs: seq<Json>)
    | BetweenFact(col: string, op: string, lo: Json, hi: Json)
    | JsonPathFact(fn: string, col: string, path: Json, vars: Option<Json>, silent: Option<Json>)

  /** A row decides every elementary condition. */
  type Row = Fact -> Truth

  function ValueOf(vals: seq<Json>, p: nat): Json {
    if 1 <= p <= |vals| then vals[p - 1] else Json.Null
  }

  /** The arguments of a JSON path function are positional: target, path, vars, silent. */
  function AtomFact(a: Atom, vals: seq<Json>): Fact {
    match a
    case CompareAtom(c, op, p) => CompareFact(c, op, ValueOf(vals, p))
    case IsAtom(c, w) => IsFact(c, w)
    case RegexpAtom(c, p) => RegexpFact(c, ValueOf(vals, p))
    case InAtom(c, ps) => InFact(c, seq(|ps|, i requires 0 <= i < |ps| => ValueOf(vals, ps[i])))
    case BetweenAtom(c, op, lo, hi) => BetweenFact(c, op, ValueOf(vals, lo), ValueOf(vals, hi))
    case JsonPathAtom(fn, c, ps) =>
      JsonPathFact(fn, c, if |ps| > 0 then ValueOf(vals, ps[0]) else Json.Null,
                   if |ps| > 1 then Some(ValueOf(vals, ps[1])) else None,
                   if |ps| > 2 then Some(ValueOf(vals, ps[2])) else None)
  }

  ghost function Eval(e: Expr, vals: seq<Json>, row: Row): Truth {
    match e
    case Always => True
    case Test(a) => row(AtomFact(a, vals))
    case IsExpr(x, w) => Is3(Eval(x, vals, row), w)
    case Not(x) => Not3(Eval(x, vals, row))
    case And(l, r) => And3(Eval(l, vals, row), Eval(r, vals, row))
    case Or(l, r) => Or3(Eval(l, vals, row), Eval(r, vals, row))
  }
}

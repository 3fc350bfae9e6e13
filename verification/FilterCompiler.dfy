/**
 The filter compiler (backend/cmn/filter.go): text, placeholders and value lists,
 updated in place, equal to a functional reading of the filter.
 */
module FilterCompiler {
  import opened Wrappers
  import opened FilterTree
  import opened Sql

  // ----- the text of a tree; `n` placeholders are already in use -----

  ghost function ParamList(n: nat, k: nat): seq<Token>
    decreases k
  {
    if k == 0 then []
    else if k == 1 then [Param(n + 1)]
    else [Param(n + 1), Comma] + ParamList(n + 1, k - 1)
  }

  ghost function PlainTokens(col: string, c: Cond, n: nat): seq<Token> {
    match c
    case Compare(op, _) => [Col(col), Sym(op), Param(n + 1)]
    case IsTest(w) => [Col(col), Is(w)]
    case Regexp(_) => [Sym("regexp_match"), LPar, Col(col), Comma, Param(n + 1), RPar, Is("NOT NULL")]
    case In(vs) => [Col(col), Sym("IN"), LPar] + ParamList(n, |vs|) + [RPar]
    case Between(op, _, _) => [Col(col), Sym(op), Param(n + 1), Conn("AND"), Param(n + 2)]
    case JsonPath(fn, _, _, _) => [Sym(fn), LPar, Col(col), Comma] + ParamList(n, |Operands(c)|) + [RPar]
  }

  ghost function CondTokens(col: string, c: Cond, exprIs: Option<string>, n: nat): seq<Token> {
    match exprIs
    case None => PlainTokens(col, c, n)
    case Some(w) => [LPar] + PlainTokens(col, c, n) + [RPar, Is(w)]
  }

  function ConnTokens(conn: string): seq<Token> {
    if IsBlank(conn) then [] else [Conn(conn)]
  }

  ghost function TreeTokens(t: Tree, n: nat): seq<Token> {
    match t
    case Leaf(lost, col, c, w) => CondTokens(col, c, w, n + |lost|)
    case Group(ps) => [LPar] + PartsTokens(ps, n) + [RPar]
  }

  ghost function BodyTokens(b: Option<Tree>, n: nat): seq<Token> {
    match b
    case None => []
    case Some(t) => TreeTokens(t, n)
  }

  ghost function PartTokens(p: Part, n: nat): seq<Token> {
    ConnTokens(p.conn) + BodyTokens(p.body, n)
  }

  ghost function PartsTokens(ps: seq<Part>, n: nat): seq<Token> {
    if ps == [] then [] else PartTokens(ps[0], n) + PartsTokens(ps[1..], n + |PartValues(ps[0])|)
  }

  ghost function TreeValues(t: Tree): seq<Json> {
    match t
    case Leaf(lost, _, c, _) => lost + Operands(c)
    case Group(ps) => PartsValues(ps)
  }

  ghost function PartValues(p: Part): seq<Json> {
    match p.body
    case None => []
    case Some(t) => TreeValues(t)
  }

  ghost function PartsValues(ps: seq<Part>): seq<Json> {
    if ps == [] then [] else PartValues(ps[0]) + PartsValues(ps[1..])
  }

  lemma {:induction false} ValuesSnoc(ps: seq<Part>, p: Part)
    ensures PartsValues(ps + [p]) == PartsValues(ps) + PartValues(p)
    ensures PartsWidth(ps + [p]) == PartsWidth(ps) + 1 + Width(p)
    decreases |ps|
  {
    if ps == [] {
      assert [] + [p] == [p] && [p][1..] == [];
    } else {
      ValuesSnoc(ps[1..], p);
      assert (ps + [p])[1..] == ps[1..] + [p];
    }
  }

  lemma Joined<T>(a: seq<T>, b: seq<T>, c: seq<T>)
    ensures a + (b + c) == a + b + c && [] + a == a && a + [] == a
  {
  }

  lemma PartsCons(p: Part, ps: seq<Part>, n: nat)
    ensures PartsTokens([p] + ps, n) == PartTokens(p, n) + PartsTokens(ps, n + |PartValues(p)|)
    ensures PartsValues([p] + ps) == PartValues(p) + PartsValues(ps)
  {
    assert ([p] + ps)[1..] == ps;
  }

  lemma {:induction false} TokensSnoc(ps: seq<Part>, p: Part, n: nat)
    ensures PartsTokens(ps + [p], n) == PartsTokens(ps, n) + PartTokens(p, n + |PartsValues(ps)|)
    decreases |ps|
  {
    if ps == [] {
      PartsCons(p, [], n);
      assert [] + [p] == [p] + [];
      Joined(PartTokens(p, n), [], []);
    } else {
      var h, t := ps[0], ps[1..];
      var m := n + |PartValues(h)|;
      TokensSnoc(t, p, m);
      PartsCons(h, t, n);
      PartsCons(h, t + [p], n);
      assert ps == [h] + t && ps + [p] == [h] + (t + [p]);
      Joined(PartTokens(h, n), PartsTokens(t, m), PartTokens(p, m + |PartsValues(t)|));
    }
  }

  /** Rendered text: its tokens, and its length with every condition counted as six characters. */
  datatype Text = Text(toks: seq<Token>, width: nat)

  ghost function PartText(p: Part, n: nat): Text {
    Text(PartTokens(p, n), Width(p))
  }

  // ----- tests on the text, as the source makes them -----

  predicate TextIsBare(q: seq<Token>) {
    |q| == 1 && q[0].Conn? && (Squeeze(q[0].word) == "AND" || Squeeze(q[0].word) == "OR")
  }

  predicate TextStartsConnected(q: seq<Token>) {
    q != [] && ((q[0].Conn? && LooksConnected(TrimLeft(q[0].word))) || (q[0].Col? && LooksConnected(q[0].name)))
  }

  lemma {:induction false} SqueezeBlank(s: string)
    requires TrimLeft(s) == ""
    ensures Squeeze(s) == ""
    decreases |s|
  {
    if s != "" {
      SqueezeBlank(s[1..]);
    }
  }

  lemma {:induction false} TrimRightNonSpace(s: string)
    requires s != "" && s[0] != ' '
    ensures TrimRight(s) != ""
    decreases |s|
  {
    if s[|s| - 1] == ' ' {
      TrimRightNonSpace(s[..|s| - 1]);
    }
  }

  lemma {:induction false} TrimLeftStarts(s: string)
    ensures TrimLeft(s) == "" || TrimLeft(s)[0] != ' '
    decreases |s|
  {
    if s != "" && s[0] == ' ' {
      TrimLeftStarts(s[1..]);
    }
  }

  lemma BlankSqueezed(s: string)
    requires IsBlank(s)
    ensures TrimLeft(s) == "" && Squeeze(s) == ""
  {
    TrimLeftStarts(s);
    if TrimLeft(s) != "" {
      TrimRightNonSpace(TrimLeft(s));
    }
    SqueezeBlank(s);
  }

  lemma TreeTokensLong(t: Tree, n: nat)
    ensures |TreeTokens(t, n)| >= 2 && !TreeTokens(t, n)[0].Conn?
  {
  }

  lemma TextTests(p: Part, n: nat)
    ensures var q := PartTokens(p, n);
            && (TextIsBare(q) <==> IsBare(p))
            && (q == [] <==> p.body.None? && IsBlank(p.conn))
            && (q != [] ==> (TextStartsConnected(q) <==> StartsConnected(p)))
            && (IsBare(p) ==> q == [Conn(p.conn)])
            && (IsBare(p) || q == [] ==> PartValues(p) == [])
  {
    if IsBlank(p.conn) {
      BlankSqueezed(p.conn);
    }
    if p.body.Some? {
      TreeTokensLong(p.body.value, n);
    }
  }

  // ----- the compiler, with its parameter lists updated in place -----

  /** The two value lists: conditions on data go to the first, authorisation to the second. */
  datatype Store = Store(vals: seq<Json>, authVals: seq<Json>, begin: nat, auth: bool) {

    /** How many placeholders are in use. */
    function Count(): nat {
      if auth then begin + |authVals| else |vals|
    }

    function Append(vs: seq<Json>): Store {
      if auth then this.(authVals := authVals + vs) else this.(vals := vals + vs)
    }

    /** Authorisation values are numbered behind the values there are. */
    function Authorising(): Store {
      Store(vals, authVals, |vals|, true)
    }

    ghost predicate Extends(s: Store) {
      auth == s.auth && begin == s.begin && s.vals <= vals && s.authVals <= authVals
    }
  }

  lemma AppendAppend(s: Store, a: seq<Json>, b: seq<Json>)
    ensures s.Append(a).Append(b) == s.Append(a + b)
    ensures s.Append([]) == s && s.Append(a).Extends(s) && s.Append(a).Count() == s.Count() + |a|
  {
    assert s.vals + a + b == s.vals + (a + b) && s.authVals + a + b == s.authVals + (a + b);
  }

  /** The brackets around a whole text are taken off. */
  function Strip(ts: seq<Token>): seq<Token> {
    if |ts| > 2 && ts[0].LPar? && ts[|ts| - 1].RPar? then ts[1..|ts| - 1] else ts
  }

  class Filter {
    const schema: Schema
    var Columns: seq<string>
    var Values: seq<Json>
    var AuthWhereValues: seq<Json>
    var AuthWhereBeginPos: nat
    var AuthProc: bool
    var Expr: seq<Token>
    var AuthExpr: seq<Token>

    constructor (schema: Schema)
      ensures this.schema == schema && Columns == [] && S() == Store([], [], 0, false)
    {
      this.schema := schema;
      Columns, Expr, AuthExpr := [], [], [];
      Values, AuthWhereValues, AuthWhereBeginPos, AuthProc := [], [], 0, false;
    }

    ghost function S(): Store
      reads this
    {
      Store(Values, AuthWhereValues, AuthWhereBeginPos, AuthProc)
    }

    /** Appends an operand to the list in use; the result is its placeholder. */
    method Bind(v: Json) returns (k: nat)
      modifies this`Values, this`AuthWhereValues
      ensures k == old(S()).Count() + 1 && S() == old(S()).Append([v])
    {
      if AuthProc {
        k := AuthWhereBeginPos + |AuthWhereValues| + 1;
        AuthWhereValues := AuthWhereValues + [v];
      } else {
        k := |Values| + 1;
        Values := Values + [v];
      }
    }

    /** Binds a list of operands to placeholders separated by commas. */
    method BindAll(vs: seq<Json>) returns (ts: seq<Token>)
      modifies this`Values, this`AuthWhereValues
      ensures ts == ParamList(old(S()).Count(), |vs|) && S() == old(S()).Append(vs)
    {
      ghost var s := S();
      ts := [];
      for j := 0 to |vs|
        invariant S() == s.Append(vs[..j])
        invariant ts == Terminated(s.Count(), j)
      {
        var k := Bind(vs[j]);
        AppendAppend(s, vs[..j], [vs[j]]);
        assert vs[..j] + [vs[j]] == vs[..j + 1];
        TerminatedSnoc(s.Count(), j);
        ts := ts + [Param(k), Comma];
      }
      assert vs[..|vs|] == vs;
      TerminatedList(s.Count(), |vs|);
      if |ts| > 0 {
        ts := ts[..|ts| - 1];
      }
    }

    /** A comparison with one operand. */
    method MakeComparison(col: string, op: string, v: Json) returns (ts: seq<Token>)
      modifies this`Values, this`AuthWhereValues
      ensures ts == PlainTokens(col, Compare(op, v), old(S()).Count()) && S() == old(S()).Append([v])
    {
      var k := Bind(v);
      ts := [Col(col), Sym(op), Param(k)];
    }

    /** The operators that take a list. */
    method MakeList(col: string, opr: string, operand: Json) returns (r: Result<seq<Token>, Error>)
      requires opr == "IN" || BetweenSymbol(opr).Some?
      modifies this`Values, this`AuthWhereValues
      ensures PlainResult(r, col, ReadList(opr, operand), old(S()).Count())
      ensures r.Success? ==> S() == old(S()).Append(Operands(ReadList(opr, operand).value))
      ensures S().Extends(old(S()))
    {
      ghost var s := S();
      if operand.Null? {
        return Failure(NilOperand);
      }
      if !operand.Arr? {
        return Failure(NotAList);
      }
      if |operand.items| == 0 {
        return Failure(EmptyList);
      }
      var list := BindAll(operand.items);
      AppendAppend(s, operand.items, []);
      if opr == "IN" {
        return Success([Col(col), Sym("IN"), LPar] + list + [RPar]);
      }
      if |operand.items| != 2 {
        return Failure(NotTwoValues);
      }
      assert list == [Param(s.Count() + 1), Comma, Param(s.Count() + 2)];
      assert operand.items == [operand.items[0], operand.items[1]];
      return Success([Col(col), Sym(BetweenSymbol(opr).value), list[0], Conn("AND"), list[2]]);
    }

    /** The switch over operators, without `EXPR_IS`; `None` for a modifier. */
    method MakePlain(col: string, x: seq<Field>, opr: string, operand: Json)
      returns (r: Result<Option<seq<Token>>, Error>)
      modifies this`Values, this`AuthWhereValues
      ensures r == PlainOutcome(col, ReadCond(x, opr, operand), old(S()).Count())
      ensures r.Success? ==> S() == old(S()).Append(CondValues(ReadCond(x, opr, operand)))
      ensures S().Extends(old(S()))
    {
      ghost var s := S();
      AppendAppend(s, [], []);
      if CompareSymbol(opr).Some? {
        if operand.Null? {
          return Failure(NilOperand);
        }
        if operand.Arr? || operand.Obj? {
          return Failure(UnsupportedType);
        }
        if operand == Str("") {
          return Failure(EmptyValue);
        }
        AppendAppend(s, [operand], []);
        var ts := MakeComparison(col, CompareSymbol(opr).value, operand);
        return Success(Some(ts));
      } else if opr == "IS" {
        var w := MapIsOperand(operand);
        if w.Failure? {
          return Failure(w.error);
        }
        return Success(Some([Col(col), Is(w.value)]));
      } else if opr == "RE" {
        AppendAppend(s, [operand], []);
        var k := Bind(operand);
        return Success(Some([Sym("regexp_match"), LPar, Col(col), Comma, Param(k), RPar, Is("NOT NULL")]));
      } else if opr == "IN" || BetweenSymbol(opr).Some? {
        var l := MakeList(col, opr, operand);
        if l.Failure? {
          return Failure(l.error);
        }
        return Success(Some(l.value));
      } else if opr in KEY_LISTS || opr in JSON_OPERATORS {
        if opr in KEY_LISTS && !(operand.Arr? && AllStrings(operand.items)) {
          return Failure(NotStrings);
        }
        AppendAppend(s, [operand], []);
        var ts := MakeComparison(col, opr, operand);
        return Success(Some(ts));
      } else if opr in MODIFIERS {
        return Success(None);
      } else if opr in JSON_PATHS {
        var vars, silent := Lookup(x, "vars"), Lookup(x, "silent");
        AppendAppend(s, Operands(JsonPath(opr, operand, vars, silent)), []);
        var ts := JsonPathCall(col, opr, operand, vars, silent);
        return Success(Some(ts));
      } else if opr in UNHANDLED {
        return Failure(UnsupportedOperator);
      }
      return Failure(InvalidOperator);
    }

    /** One operator of an operator map, wrapped for `EXPR_IS` unless it is IS itself. */
    method MakeCondition(col: string, x: seq<Field>, opr: string, operand: Json)
      returns (r: Result<Option<seq<Token>>, Error>)
      modifies this`Values, this`AuthWhereValues
      ensures r == CondOutcome(col, ReadCond(x, opr, operand), ExprIs(x), old(S()).Count())
      ensures r.Success? ==> S() == old(S()).Append(CondValues(ReadCond(x, opr, operand)))
      ensures S().Extends(old(S()))
    {
      r := MakePlain(col, x, opr, operand);
      IsTestOnly(x, opr, operand);
      if r.Failure? || r.value.None? || opr == "IS" {
        return;
      }
      var e := ExprIs(x);
      if e.Failure? {
        return Failure(e.error);
      }
      if e.value.Some? {
        r := Success(Some([LPar] + r.value.value + [RPar, Is(e.value.value)]));
      }
    }

    /** A JSON path function with its optional arguments. */
    method JsonPathCall(col: string, fn: string, path: Json, vars: Option<Json>, silent: Option<Json>)
      returns (ts: seq<Token>)
      modifies this`Values, this`AuthWhereValues
      ensures ts == PlainTokens(col, JsonPath(fn, path, vars, silent), old(S()).Count())
      ensures S() == old(S()).Append(Operands(JsonPath(fn, path, vars, silent)))
    {
      ghost var s := S();
      ghost var n := s.Count();
      AppendAppend(s, [path], Optional(vars));
      AppendAppend(s, [path] + Optional(vars), Optional(silent));
      var k := Bind(path);
      var args := [Param(k)];
      if vars.Some? {
        k := Bind(vars.value);
        args := args + [Comma, Param(k)];
      }
      ghost var given := [path] + Optional(vars);
      assert S() == s.Append(given) && args == ParamList(n, |given|) by {
        ParamLists(n);
      }
      if silent.Some? {
        k := Bind(silent.value);
        args := args + [Comma, Param(k)];
      }
      ParamLists(n);
      assert args == ParamList(n, |given + Optional(silent)|);
      ts := [Sym(fn), LPar, Col(col), Comma] + args + [RPar];
    }

    /** One turn of the loop over an operator map: a condition overwrites the text of the one before. */
    method MakeOperator(col: string, x: seq<Field>, i: nat, expr: seq<Token>, ghost s: Store, ghost cur: Option<Tree>)
      returns (r: Result<seq<Token>, Error>)
      requires i < |x| && Written(expr, cur, s, S())
      modifies this`Values, this`AuthWhereValues
      ensures S().Extends(old(S()))
      ensures match ReadOperator(col, x, i, cur)
              case Failure(e) => r == Failure(e)
              case Success(t) => r.Success? && Written(r.value, t, s, S())
    {
      ghost var before := S();
      var t := MakeCondition(col, x, x[i].key, x[i].value);
      OperatorWritten(col, ReadCond(x, x[i].key, x[i].value), ExprIs(x), expr, s, cur, before, t, S());
      if t.Failure? {
        return Failure(t.error);
      }
      r := Success(if t.value.Some? then t.value.value else expr);
    }

    /** The loop over an operator map. */
    method MakeOperators(col: string, x: seq<Field>, expr: seq<Token>, ghost s: Store, ghost cur: Option<Tree>)
      returns (r: Result<seq<Token>, Error>, ghost next: Option<Tree>)
      requires Written(expr, cur, s, S())
      modifies this`Values, this`AuthWhereValues
      ensures S().Extends(old(S()))
      ensures match ReadOperators(col, x, 0, cur)
              case Failure(e) => r == Failure(e)
              case Success(t) => next == t && r.Success? && Written(r.value, t, s, S())
    {
      var toks := expr;
      next := cur;
      for i := 0 to |x|
        invariant Written(toks, next, s, S()) && S().Extends(old(S()))
        invariant ReadOperators(col, x, 0, cur) == ReadOperators(col, x, i, next)
      {
        var t := MakeOperator(col, x, i, toks, s, next);
        if t.Failure? {
          return Failure(t.error), next;
        }
        next := ReadOperator(col, x, i, next).value;
        toks := t.value;
      }
      r := Success(toks);
    }

    /** A filter object. */
    method MakeObject(fs: seq<Field>) returns (r: Result<Text, Error>)
      modifies this`Values, this`AuthWhereValues
      ensures Made(r, ReadFields(schema, fs, 0, "", None), old(S()), S())
    {
      ghost var s := S();
      AppendAppend(s, [], []);
      var connector, expr := "", [];
      ghost var cur: Option<Tree> := None;
      for i := 0 to |fs|
        invariant Written(expr, cur, s, S()) && S().Extends(s)
        invariant ReadFields(schema, fs, 0, "", None) == ReadFields(schema, fs, i, connector, cur)
      {
        var f := fs[i];
        if IsConnectBy(f.key) {
          if !f.value.Str? {
            return Failure(InvalidConnector);
          }
          connector := Upper(f.value.s);
          continue;
        }
        var col := schema(f.key);
        if col.None? {
          return Failure(InvalidKey);
        }
        if !f.value.Obj? {
          return Failure(InvalidValue);
        }
        var next;
        ghost var t;
        next, t := MakeOperators(col.value, f.value.fields, expr, s, cur);
        if next.Failure? {
          return Failure(next.error);
        }
        expr, cur := next.value, t;
      }
      WrittenText(expr, connector, cur, s, S());
      r := Success(Text(ConnTokens(connector) + expr, TextWidth(connector, if expr == [] then 0 else 6)));
    }

    /** `MakeFilter`. */
    method MakeFilter(j: Json) returns (r: Result<Text, Error>)
      modifies this`Values, this`AuthWhereValues
      ensures Made(r, Read(schema, j), old(S()), S())
      decreases j
    {
      ghost var s := S();
      AppendAppend(s, [], []);
      EmptyText(s.Count());
      if j.Null? || j == Str("") || j == Arr([]) || j == Obj([]) {
        return Success(Text([], 0));
      }
      if j.Obj? {
        r := MakeObject(j.fields);
      } else if j.Arr? {
        r := MakeItems(j.items);
      } else {
        r := Failure(InvalidNode);
      }
    }

    /** A filter list. */
    method MakeItems(js: seq<Json>) returns (r: Result<Text, Error>)
      modifies this`Values, this`AuthWhereValues
      ensures Made(r, ReadItems(schema, js, 0, "", []), old(S()), S())
      decreases js
    {
      ghost var s, whole := S(), ReadItems(schema, js, 0, "", []);
      AppendAppend(s, [], []);
      var connector, expr, width: nat := "", [], 0;
      ghost var ps := [];
      for i := 0 to |js|
        invariant ListedTo(schema, js, i, connector, expr, width, ps, s, S(), whole)
      {
        var q := MakeFilter(js[i]);
        ghost var now := S();
        if q.Failure? {
          ItemFails(schema, js, i, connector, expr, width, ps, s, whole, q, now);
          return Failure(q.error);
        }
        var t := q.value;
        if TextIsBare(t.toks) {
          ItemSkipped(schema, js, i, connector, expr, width, ps, s, whole, q, now);
          connector := t.toks[0].word;
          continue;
        }
        if t.toks == [] {
          ItemSkipped(schema, js, i, connector, expr, width, ps, s, whole, q, now);
          continue;
        }
        if expr != [] && t.width >= 6 && !TextStartsConnected(t.toks) {
          ItemFails(schema, js, i, connector, expr, width, ps, s, whole, q, now);
          return Failure(MissingConnector);
        }
        ItemAdded(schema, js, i, connector, expr, width, ps, s, whole, t, now);
        ps := ps + [Read(schema, js[i]).value];
        expr := expr + t.toks;
        width := width + 1 + t.width;
      }
      r := Success(Text(ConnTokens(connector) + [LPar] + expr + [RPar], TextWidth(connector, 2 + width)));
      ListEnd(schema, js, connector, expr, width, ps, s, S(), whole);
    }

    /** `CreateFilter`: the condition on data, then the authorisation condition behind it. */
    method CreateFilter(data: Json, auth: Json) returns (r: Result<seq<Token>, Error>)
      modifies this`Values, this`AuthWhereValues, this`AuthWhereBeginPos, this`AuthProc, this`Expr, this`AuthExpr
      ensures match ReadBoth(schema, data, auth)
              case Failure(e) => r == Failure(e)
              case Success((p, q)) =>
                && r == Success(Expr) && Expr == RootText(p, old(S()).Count())
                && AuthExpr == RootText(q, AuthCount(old(S()), p)) && S() == Filled(old(S()), p, q)
    {
      var d := MakeFilter(data);
      if d.Failure? {
        return Failure(d.error);
      }
      Expr := Strip(d.value.toks);
      AuthProc := true;
      AuthWhereBeginPos := |Values|;
      var a := MakeFilter(auth);
      if a.Failure? {
        return Failure(a.error);
      }
      AuthExpr := Strip(a.value.toks);
      r := Success(Expr);
    }
  }

  /** The data filter and the authorisation filter. */
  ghost function ReadBoth(schema: Schema, data: Json, auth: Json): Result<(Part, Part), Error> {
    var p :- Read(schema, data);
    var q :- Read(schema, auth);
    Success((p, q))
  }

  /** A whole condition. */
  ghost function RootText(p: Part, n: nat): seq<Token> {
    Strip(PartTokens(p, n))
  }

  /** How many placeholders precede the authorisation condition when a filter in state `s` has taken `p`. */
  ghost function AuthCount(s: Store, p: Part): nat {
    s.Append(PartValues(p)).Authorising().Count()
  }

  /** The lists of values when it has taken `p` and `q`. */
  ghost function Filled(s: Store, p: Part, q: Part): Store {
    s.Append(PartValues(p)).Authorising().Append(PartValues(q))
  }

  /** The loop over a list has come to element `i`; `whole` is what the whole list reads as. */
  ghost predicate ListedTo(schema: Schema, js: seq<Json>, i: nat, conn: string, expr: seq<Token>, width: nat,
                           ps: seq<Part>, s: Store, now: Store, whole: Result<Part, Error>)
    requires i <= |js|
  {
    Listed(expr, width, ps, s, now) && whole == ReadItems(schema, js, i, conn, ps)
  }

  /** Element `i` of a list came out as `q`; the store is `now`. */
  ghost predicate ItemMade(schema: Schema, js: seq<Json>, i: nat, ps: seq<Part>, s: Store, q: Result<Text, Error>,
                           now: Store)
    requires i < |js|
  {
    Made(q, Read(schema, js[i]), s.Append(PartsValues(ps)), now)
  }

  lemma ItemFails(schema: Schema, js: seq<Json>, i: nat, conn: string, expr: seq<Token>, width: nat, ps: seq<Part>,
                  s: Store, whole: Result<Part, Error>, q: Result<Text, Error>, now: Store)
    requires i < |js| && ListedTo(schema, js, i, conn, expr, width, ps, s, s.Append(PartsValues(ps)), whole)
    requires ItemMade(schema, js, i, ps, s, q, now)
    requires q.Success? ==> expr != [] && q.value.width >= 6 && q.value.toks != [] &&
                            !TextIsBare(q.value.toks) && !TextStartsConnected(q.value.toks)
    ensures now.Extends(s) && whole == Failure(if q.Failure? then q.error else MissingConnector)
  {
    AppendAppend(s, PartsValues(ps), []);
    if q.Success? {
      var p := Read(schema, js[i]).value;
      AppendAppend(s, PartsValues(ps), PartValues(p));
      AppendAppend(s, PartsValues(ps) + PartValues(p), []);
      TextTests(p, s.Count() + |PartsValues(ps)|);
    }
  }

  lemma ItemSkipped(schema: Schema, js: seq<Json>, i: nat, conn: string, expr: seq<Token>, width: nat, ps: seq<Part>,
                    s: Store, whole: Result<Part, Error>, q: Result<Text, Error>, now: Store)
    requires i < |js| && ListedTo(schema, js, i, conn, expr, width, ps, s, s.Append(PartsValues(ps)), whole)
    requires ItemMade(schema, js, i, ps, s, q, now)
    requires q.Success? && (TextIsBare(q.value.toks) || q.value.toks == [])
    ensures ListedTo(schema, js, i + 1, if q.value.toks == [] then conn else q.value.toks[0].word,
                     expr, width, ps, s, now, whole)
  {
    var p := Read(schema, js[i]).value;
    AppendAppend(s, PartsValues(ps), []);
    AppendAppend(s.Append(PartsValues(ps)), [], []);
    TextTests(p, s.Count() + |PartsValues(ps)|);
  }

  lemma ReadAdded(schema: Schema, js: seq<Json>, i: nat, conn: string, ps: seq<Part>, p: Part)
    requires i < |js| && Read(schema, js[i]) == Success(p) && !IsBare(p) && !(p.body.None? && IsBlank(p.conn))
    requires ps == [] || Width(p) < 6 || StartsConnected(p)
    ensures ReadItems(schema, js, i, conn, ps) == ReadItems(schema, js, i + 1, conn, ps + [p])
  {
  }

  lemma ItemAdded(schema: Schema, js: seq<Json>, i: nat, conn: string, expr: seq<Token>, width: nat, ps: seq<Part>,
                  s: Store, whole: Result<Part, Error>, q: Text, now: Store)
    requires i < |js| && ListedTo(schema, js, i, conn, expr, width, ps, s, s.Append(PartsValues(ps)), whole)
    requires ItemMade(schema, js, i, ps, s, Success(q), now)
    requires !TextIsBare(q.toks) && q.toks != []
    requires expr == [] || q.width < 6 || TextStartsConnected(q.toks)
    ensures Read(schema, js[i]).Success?
    ensures ListedTo(schema, js, i + 1, conn, expr + q.toks, width + 1 + q.width,
                     ps + [Read(schema, js[i]).value], s, now, whole)
  {
    PartAdded(schema, js, i, conn, expr, width, ps, s, whole, Read(schema, js[i]).value, q);
    StoreSnoc(ps, s, Read(schema, js[i]).value);
  }

  lemma PartAdded(schema: Schema, js: seq<Json>, i: nat, conn: string, expr: seq<Token>, width: nat, ps: seq<Part>,
                  s: Store, whole: Result<Part, Error>, p: Part, q: Text)
    requires i < |js| && Read(schema, js[i]) == Success(p) && whole == ReadItems(schema, js, i, conn, ps)
    requires Listed(expr, width, ps, s, s.Append(PartsValues(ps)))
    requires q == PartText(p, s.Append(PartsValues(ps)).Count()) && !TextIsBare(q.toks) && q.toks != []
    requires expr == [] || q.width < 6 || TextStartsConnected(q.toks)
    ensures whole == ReadItems(schema, js, i + 1, conn, ps + [p])
    ensures Listed(expr + q.toks, width + 1 + q.width, ps + [p], s, s.Append(PartsValues(ps + [p])))
  {
    StoreSnoc(ps, s, p);
    TextTests(p, s.Count() + |PartsValues(ps)|);
    ReadAdded(schema, js, i, conn, ps, p);
    ListedSnoc(expr, width, ps, s, p, q);
  }

  lemma ListEnd(schema: Schema, js: seq<Json>, conn: string, expr: seq<Token>, width: nat, ps: seq<Part>,
                s: Store, now: Store, whole: Result<Part, Error>)
    requires ListedTo(schema, js, |js|, conn, expr, width, ps, s, now, whole)
    ensures Made(Success(Text(ConnTokens(conn) + [LPar] + expr + [RPar], TextWidth(conn, 2 + width))), whole, s, now)
  {
    GroupText(conn, ps, s.Count());
  }

  /** The length of a text behind a connector. */
  function TextWidth(conn: string, body: nat): nat {
    if body == 0 then |Trim(conn)|
    else (if |TrimLeft(conn)| == 0 then 0 else |TrimLeft(conn)| + 1) + body
  }

  /** `expr` is the text of the condition `cur`, whose values have been appended to `s`. */
  ghost predicate Written(expr: seq<Token>, cur: Option<Tree>, s: Store, now: Store) {
    && (cur.Some? ==> cur.value.Leaf?)
    && expr == BodyTokens(cur, s.Count())
    && now == s.Append(Handed(cur))
  }

  /** A condition that overwrites `cur`. */
  lemma ConditionWritten(col: string, cond: Cond, w: Option<string>, expr: seq<Token>, s: Store, cur: Option<Tree>,
                         before: Store)
    requires Written(expr, cur, s, before)
    ensures Written(CondTokens(col, cond, w, before.Count()), Some(Leaf(Handed(cur), col, cond, w)), s,
                    before.Append(Operands(cond)))
  {
    AppendAppend(s, Handed(cur), Operands(cond));
  }

  lemma OperatorWritten(col: string, c: Result<Option<Cond>, Error>, e: Result<Option<string>, Error>,
                        expr: seq<Token>, s: Store, cur: Option<Tree>, before: Store,
                        t: Result<Option<seq<Token>>, Error>, now: Store)
    requires Written(expr, cur, s, before)
    requires t == CondOutcome(col, c, e, before.Count())
    requires t.Success? ==> now == before.Append(CondValues(c))
    ensures match NextTree(col, c, e, cur)
            case Failure(e) => t == Failure(e)
            case Success(next) => t.Success? && Written(if t.value.Some? then t.value.value else expr, next, s, now)
  {
    match c
    case Failure(_) =>
    case Success(None) => AppendAppend(before, [], []);
    case Success(Some(cond)) =>
      if cond.IsTest? {
        ConditionWritten(col, cond, None, expr, s, cur, before);
      } else if e.Success? {
        ConditionWritten(col, cond, e.value, expr, s, cur, before);
      }
  }

  /** The outcome of compiling: text and values of the part read, or its error. */
  ghost predicate Made(r: Result<Text, Error>, p: Result<Part, Error>, s: Store, now: Store) {
    match p
    case Failure(e) => r == Failure(e) && now.Extends(s)
    case Success(part) => r == Success(PartText(part, s.Count())) && now == s.Append(PartValues(part))
  }

  lemma WrittenText(expr: seq<Token>, conn: string, cur: Option<Tree>, s: Store, now: Store)
    requires Written(expr, cur, s, now)
    ensures Text(ConnTokens(conn) + expr, TextWidth(conn, if expr == [] then 0 else 6)) == PartText(Part(conn, cur), s.Count())
    ensures now == s.Append(PartValues(Part(conn, cur)))
  {
    var p := Part(conn, cur);
    if cur.Some? {
      TreeTokensLong(cur.value, s.Count());
      assert Width(p) == TextWidth(conn, TreeWidth(cur.value));
    } else {
      assert Width(p) == TextWidth(conn, 0);
    }
    assert PartTokens(p, s.Count()) == ConnTokens(conn) + expr;
  }

  lemma EmptyText(n: nat)
    ensures PartText(Part("", None), n) == Text([], 0)
  {
    assert Trim("") == "" by {
      assert TrimLeft("") == "" && TrimRight("") == "";
    }
    assert Width(Part("", None)) == |Trim("")|;
    assert PartTokens(Part("", None), n) == ConnTokens("") + BodyTokens(None, n);
  }

  /** `expr` is the text of the elements `ps` of a list, whose values have been appended to `s`. */
  ghost predicate Listed(expr: seq<Token>, width: nat, ps: seq<Part>, s: Store, now: Store) {
    && now == s.Append(PartsValues(ps))
    && expr == PartsTokens(ps, s.Count()) && width == PartsWidth(ps)
    && (ps != [] ==> expr != [])
  }

  lemma StoreSnoc(ps: seq<Part>, s: Store, p: Part)
    ensures s.Append(PartsValues(ps)).Append(PartValues(p)) == s.Append(PartsValues(ps + [p]))
    ensures s.Append(PartsValues(ps)).Count() == s.Count() + |PartsValues(ps)|
  {
    AppendAppend(s, PartsValues(ps), PartValues(p));
    ValuesSnoc(ps, p);
  }

  lemma ListedSnoc(expr: seq<Token>, width: nat, ps: seq<Part>, s: Store, p: Part, q: Text)
    requires Listed(expr, width, ps, s, s.Append(PartsValues(ps)))
    requires q == PartText(p, s.Count() + |PartsValues(ps)|) && q.toks != []
    ensures Listed(expr + q.toks, width + 1 + q.width, ps + [p], s, s.Append(PartsValues(ps + [p])))
  {
    ValuesSnoc(ps, p);
    TokensSnoc(ps, p, s.Count());
  }

  lemma GroupText(conn: string, ps: seq<Part>, n: nat)
    ensures PartText(Part(conn, Some(Group(ps))), n) ==
            Text(ConnTokens(conn) + [LPar] + PartsTokens(ps, n) + [RPar], TextWidth(conn, 2 + PartsWidth(ps)))
  {
    var p := Part(conn, Some(Group(ps)));
    assert Width(p) == TextWidth(conn, TreeWidth(Group(ps)));
    assert BodyTokens(Some(Group(ps)), n) == TreeTokens(Group(ps), n);
    assert TreeTokens(Group(ps), n) == [LPar] + PartsTokens(ps, n) + [RPar];
    assert PartTokens(p, n) == ConnTokens(conn) + [LPar] + PartsTokens(ps, n) + [RPar];
  }

  lemma ParamLists(n: nat)
    ensures ParamList(n, 1) == [Param(n + 1)]
    ensures ParamList(n, 2) == [Param(n + 1)] + [Comma, Param(n + 2)]
    ensures ParamList(n, 3) == [Param(n + 1)] + [Comma, Param(n + 2)] + [Comma, Param(n + 3)]
  {
    assert ParamList(n + 1, 2) == [Param(n + 2), Comma, Param(n + 3)];
  }

  ghost predicate PlainResult(r: Result<seq<Token>, Error>, col: string, c: Result<Cond, Error>, n: nat) {
    match c
    case Failure(e) => r == Failure(e)
    case Success(cond) => r == Success(PlainTokens(col, cond, n))
  }

  /** What the switch over operators comes to. */
  ghost function PlainOutcome(col: string, c: Result<Option<Cond>, Error>, n: nat): Result<Option<seq<Token>>, Error> {
    match c
    case Failure(e) => Failure(e)
    case Success(None) => Success(None)
    case Success(Some(cond)) => Success(Some(PlainTokens(col, cond, n)))
  }

  lemma IsTestOnly(x: seq<Field>, opr: string, operand: Json)
    ensures var c := ReadCond(x, opr, operand);
            c.Success? && c.value.Some? ==> (c.value.value.IsTest? <==> opr == "IS")
  {
  }

  /** What compiling one operator comes to. */
  ghost function CondOutcome(col: string, c: Result<Option<Cond>, Error>, e: Result<Option<string>, Error>, n: nat)
    : Result<Option<seq<Token>>, Error>
  {
    match c
    case Failure(e) => Failure(e)
    case Success(None) => Success(None)
    case Success(Some(cond)) =>
      if cond.IsTest? then Success(Some(PlainTokens(col, cond, n)))
      else
        var w :- e;
        Success(Some(CondTokens(col, cond, w, n)))
  }

  ghost function CondValues(c: Result<Option<Cond>, Error>): seq<Json> {
    match c
    case Success(Some(cond)) => Operands(cond)
    case _ => []
  }

  /** Placeholders, each followed by a comma. */
  ghost function Terminated(n: nat, k: nat): seq<Token>
    decreases k
  {
    if k == 0 then [] else [Param(n + 1), Comma] + Terminated(n + 1, k - 1)
  }

  lemma {:induction false} TerminatedSnoc(n: nat, k: nat)
    ensures Terminated(n, k + 1) == Terminated(n, k) + [Param(n + k + 1), Comma]
    decreases k
  {
    if k > 0 {
      TerminatedSnoc(n + 1, k - 1);
    }
  }

  lemma {:induction false} TerminatedList(n: nat, k: nat)
    ensures Terminated(n, k) == if k == 0 then [] else ParamList(n, k) + [Comma]
    decreases k
  {
    if k == 1 {
      assert Terminated(n + 1, 0) == [];
    } else if k > 1 {
      TerminatedList(n + 1, k - 1);
    }
  }
}

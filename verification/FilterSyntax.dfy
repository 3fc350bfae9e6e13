/**
 Compiled filters as SQL (backend/cmn/filter.go): which of them parse, to what,
 and which connectors they need for that.
 */
module FilterSyntax {
  import opened Wrappers
  import opened FilterTree
  import opened Sql
  import opened FilterCompiler

  // ----- what reading can produce -----

  predicate PlainCond(c: Cond) {
    match c
    case Compare(op, _) => op != "IN" && op != "1=1" && op !in BETWEENS
    case In(vs) => vs != []
    case Between(op, _, _) => op in BETWEENS
    case JsonPath(fn, _, _, _) => fn in JSON_PATHS
    case _ => true
  }

  predicate Plain(t: Tree) {
    match t
    case Leaf(_, _, c, w) => PlainCond(c) && (c.IsTest? ==> w.None?)
    case Group(ps) => PlainParts(ps)
  }

  /** An element of a list has an expression, or some connector text that is neither blank nor AND nor OR. */
  predicate PlainPart(p: Part) {
    match p.body
    case None => !IsBlank(p.conn) && !IsBare(p)
    case Some(t) => Plain(t)
  }

  predicate PlainParts(ps: seq<Part>) {
    ps == [] || (PlainPart(ps[0]) && PlainParts(ps[1..]))
  }

  predicate PlainBody(b: Option<Tree>) {
    b.Some? ==> Plain(b.value)
  }

  lemma {:induction false} PlainSnoc(ps: seq<Part>, p: Part)
    requires PlainParts(ps) && PlainPart(p)
    ensures PlainParts(ps + [p])
    decreases |ps|
  {
    if ps == [] {
      assert ps + [p] == [p] && [p][1..] == [];
    } else {
      PlainSnoc(ps[1..], p);
      assert (ps + [p])[1..] == ps[1..] + [p];
    }
  }

  lemma CompareSymbols(opr: string)
    requires CompareSymbol(opr).Some?
    ensures CompareSymbol(opr).value != "IN" && CompareSymbol(opr).value != "1=1" && CompareSymbol(opr).value !in BETWEENS
  {
  }

  lemma JsonSymbols(opr: string)
    requires opr in KEY_LISTS || opr in JSON_OPERATORS
    ensures opr != "IN" && opr != "1=1" && opr !in BETWEENS
  {
  }

  lemma ReadListPlain(opr: string, operand: Json)
    requires opr == "IN" || BetweenSymbol(opr).Some?
    ensures ReadList(opr, operand).Success? ==> PlainCond(ReadList(opr, operand).value)
  {
  }

  lemma ReadCondPlain(x: seq<Field>, opr: string, operand: Json)
    ensures var c := ReadCond(x, opr, operand); c.Success? && c.value.Some? ==> PlainCond(c.value.value)
  {
    var c := ReadCond(x, opr, operand);
    if CompareSymbol(opr).Some? {
      CompareSymbols(opr);
    } else if opr == "IS" || opr == "RE" {
    } else if opr == "IN" || BetweenSymbol(opr).Some? {
      ReadListPlain(opr, operand);
    } else if opr in KEY_LISTS || opr in JSON_OPERATORS {
      JsonSymbols(opr);
    }
  }

  lemma {:induction false} ReadOperatorsPlain(col: string, x: seq<Field>, i: nat, cur: Option<Tree>)
    requires i <= |x| && PlainBody(cur)
    ensures var r := ReadOperators(col, x, i, cur); r.Success? ==> PlainBody(r.value)
    decreases |x| - i
  {
    if i < |x| {
      ReadCondPlain(x, x[i].key, x[i].value);
      var next := ReadOperator(col, x, i, cur);
      if next.Success? {
        ReadOperatorsPlain(col, x, i + 1, next.value);
      }
    }
  }

  lemma {:induction false} ReadFieldsPlain(schema: Schema, fs: seq<Field>, i: nat, conn: string, cur: Option<Tree>)
    requires i <= |fs| && PlainBody(cur)
    ensures var r := ReadFields(schema, fs, i, conn, cur); r.Success? ==> PlainBody(r.value.body)
    decreases |fs| - i
  {
    if i < |fs| {
      var f := fs[i];
      if IsConnectBy(f.key) {
        if f.value.Str? {
          ReadFieldsPlain(schema, fs, i + 1, Upper(f.value.s), cur);
        }
      } else if schema(f.key).Some? && f.value.Obj? {
        ReadOperatorsPlain(schema(f.key).value, f.value.fields, 0, cur);
        var next := ReadOperators(schema(f.key).value, f.value.fields, 0, cur);
        if next.Success? {
          ReadFieldsPlain(schema, fs, i + 1, conn, next.value);
        }
      }
    }
  }

  lemma {:induction false} ReadItemsPlain(schema: Schema, js: seq<Json>, i: nat, conn: string, ps: seq<Part>)
    requires i <= |js| && PlainParts(ps)
    ensures var r := ReadItems(schema, js, i, conn, ps); r.Success? ==> PlainBody(r.value.body)
    decreases js, |js| - i
  {
    if i < |js| {
      ReadPlain(schema, js[i]);
      var p := Read(schema, js[i]);
      if p.Success? {
        if IsBare(p.value) {
          ReadItemsPlain(schema, js, i + 1, p.value.conn, ps);
        } else if p.value.body.None? && IsBlank(p.value.conn) {
          ReadItemsPlain(schema, js, i + 1, conn, ps);
        } else {
          PlainSnoc(ps, p.value);
          ReadItemsPlain(schema, js, i + 1, conn, ps + [p.value]);
        }
      }
    }
  }

  lemma {:induction false} ReadPlain(schema: Schema, j: Json)
    ensures var r := Read(schema, j); r.Success? ==> PlainBody(r.value.body)
    decreases j
  {
    if j.Arr? {
      ReadItemsPlain(schema, j.items, 0, "", []);
    } else if j.Obj? {
      ReadFieldsPlain(schema, j.fields, 0, "", None);
    }
  }

  // ----- properly connected trees -----

  predicate IsLink(conn: string) {
    Trim(conn) == "AND" || Trim(conn) == "OR"
  }

  /** Every list has an element; the first has no connector, each later one AND or OR. */
  predicate Connected(t: Tree) {
    match t
    case Leaf(_, _, _, _) => true
    case Group(ps) => ps != [] && IsBlank(ps[0].conn) && ConnectedBody(ps[0].body) && Linked(ps[1..])
  }

  predicate ConnectedBody(b: Option<Tree>) {
    match b
    case None => false
    case Some(t) => Connected(t)
  }

  predicate Linked(ps: seq<Part>) {
    ps == [] || (IsLink(ps[0].conn) && ConnectedBody(ps[0].body) && Linked(ps[1..]))
  }

  predicate PlainConn(conn: string) {
    IsBlank(conn) || IsLink(conn)
  }

  /** Every connector of a tree is blank, AND or OR. */
  predicate PlainLinks(t: Tree) {
    match t
    case Leaf(_, _, _, _) => true
    case Group(ps) => PartsLinks(ps)
  }

  predicate BodyLinks(b: Option<Tree>) {
    match b
    case None => true
    case Some(t) => PlainLinks(t)
  }

  predicate PartLinks(p: Part) {
    PlainConn(p.conn) && BodyLinks(p.body)
  }

  predicate PartsLinks(ps: seq<Part>) {
    ps == [] || (PartLinks(ps[0]) && PartsLinks(ps[1..]))
  }

  lemma {:induction false} ConnectedLinks(t: Tree)
    requires Connected(t)
    ensures PlainLinks(t)
    decreases t, 1
  {
    if t.Group? {
      ConnectedLinks(t.parts[0].body.value);
      LinkedLinks(t.parts[1..]);
      assert PartLinks(t.parts[0]);
    }
  }

  lemma {:induction false} LinkedLinks(ps: seq<Part>)
    requires Linked(ps)
    ensures PartsLinks(ps)
    decreases ps, 0
  {
    if ps != [] {
      ConnectedLinks(ps[0].body.value);
      LinkedLinks(ps[1..]);
    }
  }

  // ----- filters whose connectors are plain -----

  /** Every connector text of a filter is blank, AND or OR in any case. */
  predicate PlainConnectors(j: Json) {
    match j
    case Arr(items) => forall i | 0 <= i < |items| :: PlainConnectors(items[i])
    case Obj(fields) => forall i | 0 <= i < |fields| :: PlainField(fields[i])
    case _ => true
  }

  predicate PlainField(f: Field) {
    IsConnectBy(f.key) && f.value.Str? ==> PlainConn(Upper(f.value.s))
  }

  predicate LeafBody(b: Option<Tree>) {
    b.Some? ==> b.value.Leaf?
  }

  lemma {:induction false} OperatorsLeaf(col: string, x: seq<Field>, i: nat, cur: Option<Tree>)
    requires i <= |x| && LeafBody(cur)
    ensures var r := ReadOperators(col, x, i, cur); r.Success? ==> LeafBody(r.value)
    decreases |x| - i
  {
    if i < |x| {
      var next := ReadOperator(col, x, i, cur);
      if next.Success? {
        OperatorsLeaf(col, x, i + 1, next.value);
      }
    }
  }

  lemma {:induction false} FieldsLinks(schema: Schema, fs: seq<Field>, i: nat, conn: string, cur: Option<Tree>)
    requires i <= |fs| && PlainConn(conn) && LeafBody(cur) && forall k | i <= k < |fs| :: PlainField(fs[k])
    ensures var r := ReadFields(schema, fs, i, conn, cur); r.Success? ==> PartLinks(r.value)
    decreases |fs| - i
  {
    if i < |fs| {
      var f := fs[i];
      if IsConnectBy(f.key) {
        if f.value.Str? {
          FieldsLinks(schema, fs, i + 1, Upper(f.value.s), cur);
        }
      } else if schema(f.key).Some? && f.value.Obj? {
        OperatorsLeaf(schema(f.key).value, f.value.fields, 0, cur);
        var next := ReadOperators(schema(f.key).value, f.value.fields, 0, cur);
        if next.Success? {
          FieldsLinks(schema, fs, i + 1, conn, next.value);
        }
      }
    }
  }

  lemma {:induction false} LinksSnoc(ps: seq<Part>, p: Part)
    requires PartsLinks(ps) && PartLinks(p)
    ensures PartsLinks(ps + [p])
    decreases |ps|
  {
    if ps == [] {
      assert ps + [p] == [p] && [p][1..] == [];
    } else {
      LinksSnoc(ps[1..], p);
      assert (ps + [p])[1..] == ps[1..] + [p];
    }
  }

  lemma {:induction false} ItemsLinks(schema: Schema, js: seq<Json>, i: nat, conn: string, ps: seq<Part>)
    requires i <= |js| && PlainConn(conn) && PartsLinks(ps) && forall k | i <= k < |js| :: PlainConnectors(js[k])
    ensures var r := ReadItems(schema, js, i, conn, ps); r.Success? ==> PartLinks(r.value)
    decreases js, |js| - i
  {
    if i < |js| {
      ReadLinks(schema, js[i]);
      var p := Read(schema, js[i]);
      if p.Success? {
        if IsBare(p.value) {
          ItemsLinks(schema, js, i + 1, p.value.conn, ps);
        } else if p.value.body.None? && IsBlank(p.value.conn) {
          ItemsLinks(schema, js, i + 1, conn, ps);
        } else {
          LinksSnoc(ps, p.value);
          ItemsLinks(schema, js, i + 1, conn, ps + [p.value]);
        }
      }
    }
  }

  /** A filter with plain connectors reads as a tree with plain connectors. */
  lemma {:induction false} ReadLinks(schema: Schema, j: Json)
    requires PlainConnectors(j)
    ensures var r := Read(schema, j); r.Success? ==> PartLinks(r.value)
    decreases j
  {
    assert IsBlank("") by {
      assert TrimLeft("") == "" && TrimRight("") == "";
    }
    if j.Arr? {
      ItemsLinks(schema, j.items, 0, "", []);
    } else if j.Obj? {
      FieldsLinks(schema, j.fields, 0, "", None);
    }
  }

  // ----- the syntax trees -----

  ghost function Numbers(n: nat, k: nat): (r: seq<nat>)
    ensures |r| == k && forall i :: 0 <= i < k ==> r[i] == n + 1 + i
    decreases k
  {
    if k == 0 then [] else [n + 1] + Numbers(n + 1, k - 1)
  }

  ghost function AtomOf(col: string, c: Cond, n: nat): Atom {
    match c
    case Compare(op, _) => CompareAtom(col, op, n + 1)
    case IsTest(w) => IsAtom(col, w)
    case Regexp(_) => RegexpAtom(col, n + 1)
    case In(vs) => InAtom(col, Numbers(n, |vs|))
    case Between(op, _, _) => BetweenAtom(col, op, n + 1, n + 2)
    case JsonPath(fn, _, _, _) => JsonPathAtom(fn, col, Numbers(n, |Operands(c)|))
  }

  ghost function LeafExpr(col: string, c: Cond, w: Option<string>, n: nat): Expr {
    match w
    case None => Test(AtomOf(col, c, n))
    case Some(what) => IsExpr(Test(AtomOf(col, c, n)), what)
  }

  ghost function TreeExpr(t: Tree, n: nat): Expr {
    match t
    case Leaf(lost, col, c, w) => LeafExpr(col, c, w, n + |lost|)
    case Group(ps) => PartsExpr(ps, n)
  }

  ghost function BodyExpr(b: Option<Tree>, n: nat): Expr {
    match b
    case None => Always
    case Some(t) => TreeExpr(t, n)
  }

  predicate Joins(ps: seq<Part>) {
    |ps| >= 2 && Trim(ps[1].conn) == "AND"
  }

  /** The elements joined to the first one by AND. */
  ghost function RunExpr(ps: seq<Part>, n: nat): Expr
    decreases ps, 0
  {
    if ps == [] then Always
    else if Joins(ps) then And(BodyExpr(ps[0].body, n), RunExpr(ps[1..], n + |PartValues(ps[0])|))
    else BodyExpr(ps[0].body, n)
  }

  /** What follows that run, and the number of placeholders used before it. */
  ghost function AfterRun(ps: seq<Part>, n: nat): (r: (seq<Part>, nat))
    requires ps != []
    ensures |r.0| < |ps| && r.0 == ps[|ps| - |r.0|..]
    decreases ps
  {
    var m := n + |PartValues(ps[0])|;
    if Joins(ps) then AfterRun(ps[1..], m) else (ps[1..], m)
  }

  ghost function PartsExpr(ps: seq<Part>, n: nat): Expr
    decreases ps, 1
  {
    if ps == [] then Always
    else
      var (q, m) := AfterRun(ps, n);
      if q == [] then RunExpr(ps, n) else Or(RunExpr(ps, n), PartsExpr(q, m))
  }

  // ----- parsing conditions -----

  lemma {:induction false} ParseList(n: nat, k: nat, rest: seq<Token>)
    requires k > 0
    ensures ParseParams(ParamList(n, k) + [RPar] + rest) == Some((Numbers(n, k), rest))
    decreases k
  {
    var ts := ParamList(n, k) + [RPar] + rest;
    if k == 1 {
      assert ts[2..] == rest;
      assert Numbers(n, 1) == [n + 1];
    } else {
      ParseList(n + 1, k - 1, rest);
      assert ts[2..] == ParamList(n + 1, k - 1) + [RPar] + rest;
    }
  }

  lemma ParseCompare(col: string, op: string, v: Json, n: nat, rest: seq<Token>)
    requires op != "IN" && op != "1=1" && op !in BETWEENS
    ensures ParseAtom(PlainTokens(col, Compare(op, v), n) + rest) == Some((Test(CompareAtom(col, op, n + 1)), rest))
  {
    var ts := PlainTokens(col, Compare(op, v), n) + rest;
    assert ts[3..] == rest;
  }

  lemma ParseIs(col: string, w: string, n: nat, rest: seq<Token>)
    ensures ParseAtom(PlainTokens(col, IsTest(w), n) + rest) == Some((Test(IsAtom(col, w)), rest))
  {
    var ts := PlainTokens(col, IsTest(w), n) + rest;
    assert ts[2..] == rest;
  }

  lemma ParseRegexp(col: string, v: Json, n: nat, rest: seq<Token>)
    ensures ParseAtom(PlainTokens(col, Regexp(v), n) + rest) == Some((Test(RegexpAtom(col, n + 1)), rest))
  {
    var ts := PlainTokens(col, Regexp(v), n) + rest;
    ParseList(n, 1, [Is("NOT NULL")] + rest);
    assert ParamList(n, 1) == [Param(n + 1)];
    assert ts[4..] == ParamList(n, 1) + [RPar] + ([Is("NOT NULL")] + rest);
    assert ([Is("NOT NULL")] + rest)[1..] == rest;
    assert Numbers(n, 1)[0] == n + 1;
  }

  lemma ParseInList(col: string, tail: seq<Token>, ps: seq<nat>, rest: seq<Token>)
    requires ParseParams(tail) == Some((ps, rest))
    ensures ParseAtom([Col(col), Sym("IN"), LPar] + tail) == Some((Test(InAtom(col, ps)), rest))
  {
    assert ([Col(col), Sym("IN"), LPar] + tail)[3..] == tail;
  }

  lemma ParseIn(col: string, vs: seq<Json>, n: nat, rest: seq<Token>)
    requires vs != []
    ensures ParseAtom(PlainTokens(col, In(vs), n) + rest) == Some((Test(InAtom(col, Numbers(n, |vs|))), rest))
  {
    var tail := ParamList(n, |vs|) + [RPar] + rest;
    ParseList(n, |vs|, rest);
    ParseInList(col, tail, Numbers(n, |vs|), rest);
    assert PlainTokens(col, In(vs), n) + rest == [Col(col), Sym("IN"), LPar] + tail;
  }

  lemma AndWord()
    ensures Trim("AND") == "AND"
  {
    assert TrimLeft("AND") == "AND" && TrimRight("AND") == "AND";
  }

  lemma ParseBetween(col: string, op: string, lo: Json, hi: Json, n: nat, rest: seq<Token>)
    requires op in BETWEENS
    ensures ParseAtom(PlainTokens(col, Between(op, lo, hi), n) + rest) ==
            Some((Test(BetweenAtom(col, op, n + 1, n + 2)), rest))
  {
    var ts := PlainTokens(col, Between(op, lo, hi), n) + rest;
    AndWord();
    assert ts[5..] == rest;
  }

  lemma ParseCall(fn: string, col: string, tail: seq<Token>, ps: seq<nat>, rest: seq<Token>)
    requires fn in JSON_PATHS && ParseParams(tail) == Some((ps, rest))
    ensures ParseAtom([Sym(fn), LPar, Col(col), Comma] + tail) == Some((Test(JsonPathAtom(fn, col, ps)), rest))
  {
    assert ([Sym(fn), LPar, Col(col), Comma] + tail)[4..] == tail;
  }

  lemma CallTokens(col: string, c: Cond, n: nat, rest: seq<Token>)
    requires c.JsonPath?
    ensures PlainTokens(col, c, n) + rest ==
            [Sym(c.fn), LPar, Col(col), Comma] + (ParamList(n, |Operands(c)|) + [RPar] + rest)
  {
  }

  lemma ParseJsonPath(col: string, c: Cond, n: nat, rest: seq<Token>)
    requires c.JsonPath? && c.fn in JSON_PATHS
    ensures ParseAtom(PlainTokens(col, c, n) + rest) ==
            Some((Test(JsonPathAtom(c.fn, col, Numbers(n, |Operands(c)|))), rest))
  {
    var k := |Operands(c)|;
    ParseList(n, k, rest);
    ParseCall(c.fn, col, ParamList(n, k) + [RPar] + rest, Numbers(n, k), rest);
    CallTokens(col, c, n, rest);
  }

  lemma ParseCond(col: string, c: Cond, n: nat, rest: seq<Token>)
    requires PlainCond(c)
    ensures ParseAtom(PlainTokens(col, c, n) + rest) == Some((Test(AtomOf(col, c, n)), rest))
  {
    match c
    case Compare(op, v) => ParseCompare(col, op, v, n, rest);
    case IsTest(w) => ParseIs(col, w, n, rest);
    case Regexp(v) => ParseRegexp(col, v, n, rest);
    case In(vs) => ParseIn(col, vs, n, rest);
    case Between(op, lo, hi) => ParseBetween(col, op, lo, hi, n, rest);
    case JsonPath(_, _, _, _) => ParseJsonPath(col, c, n, rest);
  }

  /** The first token of a condition is neither a bracket nor a connector nor IS. */
  lemma CondStarts(col: string, c: Cond, n: nat)
    ensures |PlainTokens(col, c, n)| >= 2 && (PlainTokens(col, c, n)[0].Col? || PlainTokens(col, c, n)[0].Sym?)
  {
  }

  /** Where an element of a condition list may end: nothing of IS can follow. */
  predicate Ends(rest: seq<Token>) {
    rest == [] || !rest[0].Is?
  }

  // ----- parsing, one step at a time -----

  lemma ParseUnbracketed(ts: seq<Token>)
    requires ts == [] || (!ts[0].LPar? && !IsNot(ts[0]))
    ensures ParsePrimary(ts) == ParseAtom(ts)
  {
  }

  lemma ParseBracketed(ts: seq<Token>, r: Option<(Expr, seq<Token>)>)
    requires ParseOr(ts) == r
    ensures ParsePrimary([LPar] + ts) ==
            match r
            case None => None
            case Some((e, rest)) =>
              if rest == [] || !rest[0].RPar? then None
              else if |rest| >= 2 && rest[1].Is? then Some((IsExpr(e, rest[1].what), rest[2..]))
              else Some((e, rest[1..]))
  {
    assert ([LPar] + ts)[1..] == ts;
  }

  /** The result for `l AND ...` and for `l OR ...` from that of the rest. */
  ghost function WithAnd(l: Expr, r: Option<(Expr, seq<Token>)>): Option<(Expr, seq<Token>)> {
    match r
    case None => None
    case Some((e, rest)) => Some((And(l, e), rest))
  }

  ghost function WithOr(l: Expr, r: Option<(Expr, seq<Token>)>): Option<(Expr, seq<Token>)> {
    match r
    case None => None
    case Some((e, rest)) => Some((Or(l, e), rest))
  }

  lemma ParseLast(ts: seq<Token>, l: Expr, rest: seq<Token>)
    requires ParsePrimary(ts) == Some((l, rest)) && (rest == [] || !IsAnd(rest[0]))
    ensures ParseAnd(ts) == Some((l, rest))
  {
  }

  lemma ParseConjunct(ts: seq<Token>, l: Expr, rest: seq<Token>, r: Option<(Expr, seq<Token>)>)
    requires ParsePrimary(ts) == Some((l, rest)) && rest != [] && IsAnd(rest[0]) && r == ParseAnd(rest[1..])
    ensures ParseAnd(ts) == WithAnd(l, r)
  {
  }

  lemma ParseAlternative(ts: seq<Token>, l: Expr, rest: seq<Token>)
    requires ParseAnd(ts) == Some((l, rest)) && (rest == [] || !IsOr(rest[0]))
    ensures ParseOr(ts) == Some((l, rest))
  {
  }

  lemma ParseDisjunct(ts: seq<Token>, l: Expr, rest: seq<Token>, r: Option<(Expr, seq<Token>)>)
    requires ParseAnd(ts) == Some((l, rest)) && rest != [] && IsOr(rest[0]) && r == ParseOr(rest[1..])
    ensures ParseOr(ts) == WithOr(l, r)
  {
  }

  lemma ParseFails(ts: seq<Token>)
    requires ParsePrimary(ts).None?
    ensures ParseAnd(ts) == None && ParseOr(ts) == None
  {
  }

  /** A parsed condition between brackets, with IS behind them. */
  lemma ParseWrapped(cs: seq<Token>, e: Expr, w: string, rest: seq<Token>)
    requires cs != [] && !cs[0].LPar? && !cs[0].Conn?
    requires ParseAtom(cs + ([RPar, Is(w)] + rest)) == Some((e, [RPar, Is(w)] + rest))
    ensures ParsePrimary([LPar] + (cs + ([RPar, Is(w)] + rest))) == Some((IsExpr(e, w), rest))
  {
    var tail := [RPar, Is(w)] + rest;
    var ts := cs + tail;
    ParseUnbracketed(ts);
    ParseLast(ts, e, tail);
    ParseAlternative(ts, e, tail);
    ParseBracketed(ts, Some((e, tail)));
    assert tail[2..] == rest;
  }

  lemma ParseBare(col: string, c: Cond, n: nat, rest: seq<Token>)
    requires PlainCond(c) && Ends(rest)
    ensures ParsePrimary(PlainTokens(col, c, n) + rest) == Some((Test(AtomOf(col, c, n)), rest))
  {
    CondStarts(col, c, n);
    ParseCond(col, c, n, rest);
    ParseUnbracketed(PlainTokens(col, c, n) + rest);
  }

  lemma ParseLeaf(col: string, c: Cond, w: Option<string>, n: nat, rest: seq<Token>)
    requires PlainCond(c) && Ends(rest)
    ensures ParsePrimary(CondTokens(col, c, w, n) + rest) == Some((LeafExpr(col, c, w, n), rest))
  {
    match w
    case None =>
      ParseBare(col, c, n, rest);
    case Some(what) =>
      var cs, tail := PlainTokens(col, c, n), [RPar, Is(what)] + rest;
      CondStarts(col, c, n);
      ParseCond(col, c, n, tail);
      ParseWrapped(cs, Test(AtomOf(col, c, n)), what, rest);
      WrappedTokens(cs, what, rest);
  }

  lemma WrappedTokens(cs: seq<Token>, w: string, rest: seq<Token>)
    ensures [LPar] + cs + [RPar, Is(w)] + rest == [LPar] + (cs + ([RPar, Is(w)] + rest))
  {
  }

  // ----- parsing trees -----

  /** Is this the way a tree's text begins? */
  predicate Opens(t: Token) {
    t.Col? || t.Sym? || t.LPar?
  }

  lemma TreeStarts(t: Tree, n: nat)
    ensures |TreeTokens(t, n)| >= 2 && Opens(TreeTokens(t, n)[0])
  {
    if t.Leaf? {
      CondStarts(t.col, t.cond, n + |t.lost|);
    }
  }

  /** What stands behind the first element of a list: a connector, the next expression, or what ends the list. */
  lemma PartStarts(p: Part, n: nat)
    requires PlainPart(p)
    ensures var ts := PartTokens(p, n);
            && ts != []
            && (if IsBlank(p.conn) then Opens(ts[0]) else ts[0] == Conn(p.conn))
            && ts[if IsBlank(p.conn) then 0 else 1..] == BodyTokens(p.body, n)
  {
    if p.body.Some? {
      TreeStarts(p.body.value, n);
    }
  }

  lemma TrimmedSqueeze(s: string)
    ensures Trim(s) == "AND" ==> Squeeze(s) == "AND"
    ensures Trim(s) == "OR" ==> Squeeze(s) == "OR"
  {
    SqueezeTrimLeft(s);
    SqueezeTrimRight(TrimLeft(s));
    assert Squeeze("AND") == "AND" && Squeeze("OR") == "OR";
  }

  lemma {:induction false} SqueezeTrimLeft(s: string)
    ensures Squeeze(TrimLeft(s)) == Squeeze(s)
    decreases |s|
  {
    if s != "" && s[0] == ' ' {
      SqueezeTrimLeft(s[1..]);
    }
  }

  lemma {:induction false} SqueezeSnoc(s: string, c: char)
    ensures Squeeze(s + [c]) == Squeeze(s) + if c == ' ' then "" else [c]
    decreases |s|
  {
    var t := s + [c];
    if s == "" {
      assert t[1..] == "";
    } else {
      SqueezeSnoc(s[1..], c);
      assert t[1..] == s[1..] + [c];
    }
  }

  lemma {:induction false} SqueezeTrimRight(s: string)
    ensures Squeeze(TrimRight(s)) == Squeeze(s)
    decreases |s|
  {
    if s != "" && s[|s| - 1] == ' ' {
      SqueezeTrimRight(s[..|s| - 1]);
      SqueezeSnoc(s[..|s| - 1], ' ');
      assert s == s[..|s| - 1] + [' '];
    }
  }

  /** A linked element of a plain list has an expression. */
  lemma LinkedBody(p: Part)
    requires PlainPart(p) && IsLink(p.conn)
    ensures p.body.Some? && !IsBlank(p.conn)
  {
    TrimmedSqueeze(p.conn);
  }

  /** Behind the first element: the other elements, then what ends the list. */
  ghost function Remaining(ps: seq<Part>, n: nat, rest: seq<Token>): seq<Token> {
    PartsTokens(ps, n) + rest
  }

  /** A list of conditions ends with the text or with a closing bracket. */
  predicate Closes(rest: seq<Token>) {
    rest == [] || rest[0].RPar?
  }

  lemma RemainingHead(ps: seq<Part>, n: nat, rest: seq<Token>)
    requires ps != [] && PlainParts(ps)
    ensures var ts := Remaining(ps, n, rest);
            ts != [] && (if IsBlank(ps[0].conn) then Opens(ts[0]) else ts[0] == Conn(ps[0].conn))
  {
    PartStarts(ps[0], n);
    var a, b := PartTokens(ps[0], n), PartsTokens(ps[1..], n + |PartValues(ps[0])|);
    assert Remaining(ps, n, rest) == a + (b + rest);
  }

  lemma RemainingTail(ps: seq<Part>, n: nat, rest: seq<Token>)
    requires ps != [] && PlainParts(ps) && !IsBlank(ps[0].conn)
    ensures var ts := Remaining(ps, n, rest);
            ts != [] &&
            ts[1..] == BodyTokens(ps[0].body, n) + Remaining(ps[1..], n + |PartValues(ps[0])|, rest)
  {
    var a, b, c := ConnTokens(ps[0].conn), BodyTokens(ps[0].body, n), PartsTokens(ps[1..], n + |PartValues(ps[0])|);
    assert PartsTokens(ps, n) == PartTokens(ps[0], n) + c && PartTokens(ps[0], n) == a + b;
    assert Remaining(ps, n, rest) == (a + b) + c + rest;
    assert a == [Conn(ps[0].conn)] && ((a + b) + c + rest)[1..] == b + (c + rest);
  }

  lemma RemainingStarts(ps: seq<Part>, n: nat, rest: seq<Token>)
    requires PlainParts(ps) && Closes(rest)
    ensures var ts := Remaining(ps, n, rest);
            && Ends(ts)
            && (ps == [] ==> ts == rest)
            && (ps != [] ==>
                  && ts != [] && !ts[0].RPar?
                  && (if IsBlank(ps[0].conn) then !ts[0].Conn? else ts[0] == Conn(ps[0].conn)))
            && (ps != [] && !IsBlank(ps[0].conn) ==>
                  ts[1..] == BodyTokens(ps[0].body, n) + Remaining(ps[1..], n + |PartValues(ps[0])|, rest))
  {
    if ps != [] {
      RemainingHead(ps, n, rest);
      if !IsBlank(ps[0].conn) {
        RemainingTail(ps, n, rest);
      }
    }
  }

  /** A tree with plain connectors parses exactly when it is connected. */
  lemma {:induction false} ParseLinked(t: Tree, n: nat, rest: seq<Token>)
    requires Plain(t) && PlainLinks(t) && Ends(rest)
    ensures ParsePrimary(TreeTokens(t, n) + rest) == if Connected(t) then Some((TreeExpr(t, n), rest)) else None
    decreases t, 2
  {
    match t
    case Leaf(lost, col, c, w) => ParseLeaf(col, c, w, n + |lost|, rest);
    case Group(ps) => ParseGroup(ps, n, rest);
  }

  lemma {:induction false} ParseBody(b: Option<Tree>, n: nat, rest: seq<Token>)
    requires b.Some? && Plain(b.value) && BodyLinks(b) && Ends(rest)
    ensures ParsePrimary(BodyTokens(b, n) + rest) == if ConnectedBody(b) then Some((BodyExpr(b, n), rest)) else None
    decreases b, 3
  {
    ParseLinked(b.value, n, rest);
  }

  /** The bodies of the first AND-run are connected. */
  predicate RunConnected(ps: seq<Part>) {
    ps == [] || (ConnectedBody(ps[0].body) && (Joins(ps) ==> RunConnected(ps[1..])))
  }

  /** What parsing a conjunction should come to. */
  ghost function RunResult(ps: seq<Part>, n: nat, rest: seq<Token>): Option<(Expr, seq<Token>)>
    requires ps != []
  {
    if RunConnected(ps) then Some((RunExpr(ps, n), Remaining(AfterRun(ps, n).0, AfterRun(ps, n).1, rest))) else None
  }

  lemma RunFails(ps: seq<Part>, n: nat, rest: seq<Token>)
    requires ps != [] && !ConnectedBody(ps[0].body)
    ensures RunResult(ps, n, rest) == None
  {
  }

  lemma RunLast(ps: seq<Part>, n: nat, rest: seq<Token>)
    requires ps != [] && ConnectedBody(ps[0].body) && !Joins(ps)
    ensures RunResult(ps, n, rest) ==
            Some((BodyExpr(ps[0].body, n), Remaining(ps[1..], n + |PartValues(ps[0])|, rest)))
  {
  }

  lemma RunStep(ps: seq<Part>, n: nat, rest: seq<Token>, r: Option<(Expr, seq<Token>)>)
    requires ps != [] && ConnectedBody(ps[0].body) && Joins(ps)
    requires r == RunResult(ps[1..], n + |PartValues(ps[0])|, rest)
    ensures RunResult(ps, n, rest) == WithAnd(BodyExpr(ps[0].body, n), r)
  {
  }

  /** Behind the first element: is it joined by AND? */
  lemma RunBorder(ps: seq<Part>, n: nat, rest: seq<Token>)
    requires ps != [] && PlainParts(ps) && Closes(rest)
    ensures var ts := Remaining(ps[1..], n, rest);
            && (!Joins(ps) ==> ts == [] || !IsAnd(ts[0]))
            && (Joins(ps) ==>
                  && ps[1].body.Some? && ts != [] && IsAnd(ts[0])
                  && ts[1..] == BodyTokens(ps[1].body, n) + Remaining(ps[2..], n + |PartValues(ps[1])|, rest))
  {
    RemainingStarts(ps[1..], n, rest);
    if |ps| >= 2 {
      assert ps[1..][0] == ps[1] && ps[1..][1..] == ps[2..];
    }
    if Joins(ps) {
      AndNotBlank(ps[1].conn);
      LinkedBody(ps[1]);
    }
  }

  /** Parsing a conjunction takes the elements joined by AND and stops before the others. */
  lemma {:induction false} ParseRun(ps: seq<Part>, n: nat, rest: seq<Token>)
    requires ps != [] && PlainParts(ps) && PartsLinks(ps) && ps[0].body.Some? && Closes(rest)
    ensures ParseAnd(BodyTokens(ps[0].body, n) + Remaining(ps[1..], n + |PartValues(ps[0])|, rest)) ==
            RunResult(ps, n, rest)
    decreases ps, 1
  {
    var m := n + |PartValues(ps[0])|;
    var tail := Remaining(ps[1..], m, rest);
    var ts := BodyTokens(ps[0].body, n) + tail;
    RemainingStarts(ps[1..], m, rest);
    assert PartLinks(ps[0]);
    ParseBody(ps[0].body, n, tail);
    if !ConnectedBody(ps[0].body) {
      ParseFails(ts);
      RunFails(ps, n, rest);
    } else if !Joins(ps) {
      RunBorder(ps, m, rest);
      ParseLast(ts, BodyExpr(ps[0].body, n), tail);
      RunLast(ps, n, rest);
    } else {
      var r := ParseJoined(ps, m, rest);
      ParseConjunct(ts, BodyExpr(ps[0].body, n), tail, r);
      RunStep(ps, n, rest, r);
    }
  }

  lemma ParseJoined(ps: seq<Part>, n: nat, rest: seq<Token>) returns (r: Option<(Expr, seq<Token>)>)
    requires PlainParts(ps) && PartsLinks(ps) && Joins(ps) && Closes(rest)
    ensures var ts := Remaining(ps[1..], n, rest);
            ts != [] && IsAnd(ts[0]) && r == ParseAnd(ts[1..]) && r == RunResult(ps[1..], n, rest)
    decreases ps, 0
  {
    RunBorder(ps, n, rest);
    var q := ps[1..];
    assert q[0] == ps[1] && q[1..] == ps[2..];
    r := RunResult(q, n, rest);
    ParseRun(q, n, rest);
    assert Remaining(q, n, rest)[1..] == BodyTokens(q[0].body, n) + Remaining(q[1..], n + |PartValues(q[0])|, rest);
  }

  lemma AndNotBlank(conn: string)
    ensures Trim(conn) == "AND" ==> !IsBlank(conn) && IsAnd(Conn(conn))
  {
  }

  /** The first element has a connected expression and the others are linked to it. */
  predicate ConnectedList(ps: seq<Part>) {
    ps != [] && ConnectedBody(ps[0].body) && Linked(ps[1..])
  }

  /** `q` follows the first run of `ps`. */
  predicate RunRest(ps: seq<Part>, q: seq<Part>) {
    && PlainParts(q) && (PartsLinks(ps) ==> PartsLinks(q))
    && (q != [] ==> Trim(q[0].conn) != "AND")
    && (ConnectedList(ps) <==> RunConnected(ps) && Linked(q))
  }

  lemma {:induction false} RunThenRest(ps: seq<Part>, n: nat)
    requires ps != [] && PlainParts(ps)
    ensures RunRest(ps, AfterRun(ps, n).0)
    decreases |ps|
  {
    if Joins(ps) {
      RunThenRest(ps[1..], n + |PartValues(ps[0])|);
      RestJoined(ps, AfterRun(ps, n).0);
    } else {
      RestFirst(ps);
    }
  }

  lemma RestJoined(ps: seq<Part>, q: seq<Part>)
    requires Joins(ps) && RunRest(ps[1..], q)
    ensures RunRest(ps, q)
  {
    assert ps[1..][0] == ps[1];
  }

  lemma RestFirst(ps: seq<Part>)
    requires ps != [] && PlainParts(ps) && !Joins(ps)
    ensures RunRest(ps, ps[1..])
  {
  }

  /** Has parsing a list come to what ends it, or did it stop before? */
  ghost predicate ListResult(r: Option<(Expr, seq<Token>)>, ps: seq<Part>, n: nat, rest: seq<Token>) {
    if ConnectedList(ps) then r == Some((PartsExpr(ps, n), rest))
    else r.None? || (r.value.1 != [] && !r.value.1[0].RPar?)
  }

  /** `q` is what follows the first run of `ps`. */
  ghost predicate RunSplit(ps: seq<Part>, n: nat, q: seq<Part>, m: nat) {
    && ps != [] && RunConnected(ps) && AfterRun(ps, n) == (q, m)
    && (ConnectedList(ps) ==> Linked(q)) && (Linked(q) ==> ConnectedList(ps))
  }

  /** Parsing stops behind the run. */
  lemma ListEnds(ts: seq<Token>, ps: seq<Part>, n: nat, rest: seq<Token>, q: seq<Part>, m: nat, tail: seq<Token>)
    requires RunSplit(ps, n, q, m) && Closes(rest)
    requires if q == [] then tail == rest else !IsLink(q[0].conn) && tail != [] && !tail[0].RPar?
    requires ParseAnd(ts) == Some((RunExpr(ps, n), tail)) && (tail == [] || !IsOr(tail[0]))
    ensures ListResult(ParseOr(ts), ps, n, rest)
  {
    ParseAlternative(ts, RunExpr(ps, n), tail);
  }

  lemma ListGoesOn(ps: seq<Part>, n: nat, rest: seq<Token>, q: seq<Part>, m: nat, r: Option<(Expr, seq<Token>)>)
    requires RunSplit(ps, n, q, m) && q != [] && IsLink(q[0].conn) && ListResult(r, q, m, rest)
    ensures ListResult(WithOr(RunExpr(ps, n), r), ps, n, rest)
  {
    if ConnectedList(ps) {
      assert PartsExpr(ps, n) == Or(RunExpr(ps, n), PartsExpr(q, m));
    }
  }

  /** Parsing a list reaches its end exactly when the list is connected. */
  lemma {:induction false} ParseParts(ps: seq<Part>, n: nat, rest: seq<Token>)
    requires ps != [] && PlainParts(ps) && PartsLinks(ps) && ps[0].body.Some? && Closes(rest)
    ensures ListResult(ParseOr(BodyTokens(ps[0].body, n) + Remaining(ps[1..], n + |PartValues(ps[0])|, rest)),
                       ps, n, rest)
    decreases ps, 2
  {
    var ts := BodyTokens(ps[0].body, n) + Remaining(ps[1..], n + |PartValues(ps[0])|, rest);
    ParseRun(ps, n, rest);
    RunThenRest(ps, n);
    if !RunConnected(ps) {
      assert ParseOr(ts) == None;
    } else {
      var (q, m) := AfterRun(ps, n);
      var tail := Remaining(q, m, rest);
      RemainingStarts(q, m, rest);
      if q != [] && Trim(q[0].conn) == "OR" {
        var r := ParseOthers(ps, q, m, rest);
        ParseDisjunct(ts, RunExpr(ps, n), tail, r);
        ListGoesOn(ps, n, rest, q, m, r);
      } else {
        ListEnds(ts, ps, n, rest, q, m, tail);
      }
    }
  }

  lemma ParseOthers(ps: seq<Part>, q: seq<Part>, n: nat, rest: seq<Token>) returns (r: Option<(Expr, seq<Token>)>)
    requires |q| < |ps| && q == ps[|ps| - |q|..]
    requires q != [] && PlainParts(q) && PartsLinks(q) && Trim(q[0].conn) == "OR" && Closes(rest)
    ensures var ts := Remaining(q, n, rest);
            ts != [] && IsOr(ts[0]) && r == ParseOr(ts[1..]) && ListResult(r, q, n, rest)
    decreases ps, 1
  {
    RemainingStarts(q, n, rest);
    OrNotBlank(q[0].conn);
    LinkedBody(q[0]);
    r := ParseOr(Remaining(q, n, rest)[1..]);
    ParseParts(q, n, rest);
  }

  lemma OrNotBlank(conn: string)
    ensures Trim(conn) == "OR" ==> !IsBlank(conn) && IsOr(Conn(conn))
  {
  }

  lemma GroupOpened(ps: seq<Part>, n: nat, rest: seq<Token>)
    requires ps != []
    ensures var ts := TreeTokens(Group(ps), n) + rest;
            && ts != [] && ts[0] == LPar
            && ts[1..] == PartTokens(ps[0], n) + Remaining(ps[1..], n + |PartValues(ps[0])|, [RPar] + rest)
  {
  }

  lemma ParseGroup(ps: seq<Part>, n: nat, rest: seq<Token>)
    requires PlainParts(ps) && PartsLinks(ps) && Ends(rest)
    ensures ParsePrimary(TreeTokens(Group(ps), n) + rest) ==
            if Connected(Group(ps)) then Some((PartsExpr(ps, n), rest)) else None
    decreases ps, 3
  {
    var ts, tail := TreeTokens(Group(ps), n) + rest, [RPar] + rest;
    assert tail[1..] == rest;
    if ps == [] {
      assert PartsTokens(ps, n) == [] && ts == [LPar] + tail;
      Stuck(tail);
    } else {
      GroupOpened(ps, n, rest);
      PartStarts(ps[0], n);
      if IsBlank(ps[0].conn) {
        assert PartTokens(ps[0], n) == BodyTokens(ps[0].body, n);
        ParseParts(ps, n, tail);
      } else {
        Stuck(ts[1..]);
      }
    }
  }

  /** No expression begins with a closing bracket or with AND or OR. */
  lemma Stuck(ts: seq<Token>)
    requires ts != [] && (ts[0].RPar? || IsAnd(ts[0]) || IsOr(ts[0]))
    ensures ParseOr(ts) == None
  {
    ParseUnbracketed(ts);
    ParseFails(ts);
  }

  /** Every connected tree parses to its expression; with plain connectors no other tree parses. */
  lemma ParseTree(t: Tree, n: nat, rest: seq<Token>)
    requires Plain(t) && Ends(rest)
    ensures Connected(t) ==> ParsePrimary(TreeTokens(t, n) + rest) == Some((TreeExpr(t, n), rest))
    ensures PlainLinks(t) && !Connected(t) ==> ParsePrimary(TreeTokens(t, n) + rest) == None
  {
    if Connected(t) {
      ConnectedLinks(t);
    }
    if PlainLinks(t) {
      ParseLinked(t, n, rest);
    }
  }

  // ----- texts with plain connectors are the tokens the database sees -----

  predicate Linking(ts: seq<Token>) {
    forall i | 0 <= i < |ts| :: ts[i].Conn? ==> IsAnd(ts[i]) || IsOr(ts[i])
  }

  lemma {:induction false} SpreadLinking(ts: seq<Token>)
    requires Linking(ts)
    ensures Spread(ts) == ts
    decreases |ts|
  {
    if ts != [] {
      SpreadLinking(ts[1..]);
    }
  }

  lemma {:induction false} ListLinking(n: nat, k: nat)
    ensures Linking(ParamList(n, k))
    decreases k
  {
    if k > 1 {
      ListLinking(n + 1, k - 1);
    }
  }

  lemma ListedLinking(head: seq<Token>, n: nat, k: nat)
    requires Linking(head)
    ensures Linking(head + ParamList(n, k) + [RPar])
  {
    ListLinking(n, k);
  }

  lemma PlainLinking(col: string, c: Cond, n: nat)
    ensures Linking(PlainTokens(col, c, n))
  {
    match c
    case In(vs) => ListedLinking([Col(col), Sym("IN"), LPar], n, |vs|);
    case JsonPath(fn, _, _, _) => ListedLinking([Sym(fn), LPar, Col(col), Comma], n, |Operands(c)|);
    case Between(_, _, _) => AndWord();
    case _ =>
  }

  lemma CondLinking(col: string, c: Cond, w: Option<string>, n: nat)
    ensures Linking(CondTokens(col, c, w, n))
  {
    PlainLinking(col, c, n);
  }

  lemma BothLinking(a: seq<Token>, b: seq<Token>)
    requires Linking(a) && Linking(b)
    ensures Linking(a + b)
  {
  }

  lemma LeafLinking(t: Tree, n: nat)
    requires t.Leaf?
    ensures Linking(TreeTokens(t, n))
  {
    CondLinking(t.col, t.cond, t.exprIs, n + |t.lost|);
    assert TreeTokens(t, n) == CondTokens(t.col, t.cond, t.exprIs, n + |t.lost|);
  }

  lemma GroupLinking(ps: seq<Part>, n: nat)
    requires Linking(PartsTokens(ps, n))
    ensures Linking(TreeTokens(Group(ps), n))
  {
    BothLinking([LPar], PartsTokens(ps, n));
    BothLinking([LPar] + PartsTokens(ps, n), [RPar]);
  }

  lemma {:induction false} TreeLinking(t: Tree, n: nat)
    requires PlainLinks(t)
    ensures Linking(TreeTokens(t, n))
    decreases t
  {
    match t
    case Leaf(_, _, _, _) => LeafLinking(t, n);
    case Group(ps) =>
      PartsLinking(ps, n);
      GroupLinking(ps, n);
  }

  lemma {:induction false} PartLinking(p: Part, n: nat)
    requires PartLinks(p)
    ensures Linking(PartTokens(p, n))
    decreases p
  {
    if p.body.Some? {
      TreeLinking(p.body.value, n);
    }
    BothLinking(ConnTokens(p.conn), BodyTokens(p.body, n));
  }

  lemma {:induction false} PartsLinking(ps: seq<Part>, n: nat)
    requires PartsLinks(ps)
    ensures Linking(PartsTokens(ps, n))
    decreases ps
  {
    if ps != [] {
      PartLinking(ps[0], n);
      PartsLinking(ps[1..], n + |PartValues(ps[0])|);
      BothLinking(PartTokens(ps[0], n), PartsTokens(ps[1..], n + |PartValues(ps[0])|));
    }
  }
}

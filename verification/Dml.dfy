/** Statements built from a filter. */
module Dml {
  import opened Wrappers
  import opened FilterTree
  import opened Sql
  import opened FilterCompiler
  import opened FilterSyntax
  import opened FilterMeaning

  // The SET list, the condition on data and the authorisation condition share
  // one list of values (backend/cmn/dml.go).

  // ----- columns and values -----

  /** A field of the data record with its column; `None` when it is empty. */
  datatype DataField = DataField(column: string, value: Option<Json>)

  function LowerChar(c: char): char {
    if 'A' <= c <= 'Z' then (c as int + 32) as char else c
  }

  predicate IsId(s: string) {
    |s| == 2 && LowerChar(s[0]) == 'i' && LowerChar(s[1]) == 'd'
  }

  /** The fields that are written: those with a value, and in an update not the key. */
  predicate IsWritten(update: bool, d: DataField) {
    d.value.Some? && !(update && IsId(d.column))
  }

  function ColumnsOf(update: bool, ds: seq<DataField>): seq<string> {
    if ds == [] then []
    else
      var d := ds[|ds| - 1];
      ColumnsOf(update, ds[..|ds| - 1]) + if IsWritten(update, d) then [d.column] else []
  }

  function ValuesOf(update: bool, ds: seq<DataField>): (vs: seq<Json>)
    ensures |vs| == |ColumnsOf(update, ds)|
  {
    if ds == [] then []
    else
      var d := ds[|ds| - 1];
      ValuesOf(update, ds[..|ds| - 1]) + if IsWritten(update, d) then [d.value.value] else []
  }

  /** `ks` are, in order, the fields that are written: those with a value whose column, in an update, is not `id` in
      whatever case. */
  predicate Selects(ks: seq<nat>, update: bool, ds: seq<DataField>) {
    && (forall i, j | 0 <= i < j < |ks| :: ks[i] < ks[j])
    && (forall i | 0 <= i < |ks| :: ks[i] < |ds|)
    && (forall k: nat | k < |ds| :: k in ks <==> ds[k].value.Some? && !(update && ds[k].column in {"id", "Id", "iD", "ID"}))
  }

  lemma KeyNames(s: string)
    ensures IsId(s) <==> s in {"id", "Id", "iD", "ID"}
  {
    if IsId(s) {
      assert s == [s[0], s[1]];
    }
  }

  /** Each field that is written is there with its column and its value, in order, and no other field is. */
  lemma {:induction false} FieldsSent(update: bool, ds: seq<DataField>) returns (ks: seq<nat>)
    ensures Selects(ks, update, ds) && |ks| == |ColumnsOf(update, ds)| == |ValuesOf(update, ds)|
    ensures forall j | 0 <= j < |ks| ::
              ds[ks[j]] == DataField(ColumnsOf(update, ds)[j], Some(ValuesOf(update, ds)[j]))
    decreases |ds|
  {
    if ds == [] {
      ks := [];
    } else {
      var n := |ds| - 1;
      var before := FieldsSent(update, ds[..n]);
      KeyNames(ds[n].column);
      ks := if IsWritten(update, ds[n]) then before + [n] else before;
      OneMore(before, update, ds);
      OneMoreSent(before, update, ds);
    }
  }

  lemma OneMoreSent(ks: seq<nat>, update: bool, ds: seq<DataField>)
    requires ds != [] && Selects(ks, update, ds[..|ds| - 1]) && |ks| == |ColumnsOf(update, ds[..|ds| - 1])|
    requires forall j | 0 <= j < |ks| ::
               ds[ks[j]] == DataField(ColumnsOf(update, ds[..|ds| - 1])[j], Some(ValuesOf(update, ds[..|ds| - 1])[j]))
    ensures var more := if IsWritten(update, ds[|ds| - 1]) then ks + [|ds| - 1] else ks;
            && |more| == |ColumnsOf(update, ds)|
            && forall j | 0 <= j < |more| ::
                 more[j] < |ds| && ds[more[j]] == DataField(ColumnsOf(update, ds)[j], Some(ValuesOf(update, ds)[j]))
  {
  }

  lemma OneMore(ks: seq<nat>, update: bool, ds: seq<DataField>)
    requires ds != [] && Selects(ks, update, ds[..|ds| - 1])
    ensures Selects(if IsWritten(update, ds[|ds| - 1]) then ks + [|ds| - 1] else ks, update, ds)
  {
    var n := |ds| - 1;
    var more := if IsWritten(update, ds[n]) then ks + [n] else ks;
    KeyNames(ds[n].column);
    assert forall k: nat :: k in more <==> k in ks || (k == n && IsWritten(update, ds[n]));
  }

  lemma OneField(update: bool, ds: seq<DataField>, i: nat)
    requires i < |ds|
    ensures ColumnsOf(update, ds[..i + 1]) == ColumnsOf(update, ds[..i]) + if IsWritten(update, ds[i]) then [ds[i].column] else []
    ensures ValuesOf(update, ds[..i + 1]) == ValuesOf(update, ds[..i]) + if IsWritten(update, ds[i]) then [ds[i].value.value] else []
  {
    assert ds[..i + 1][..i] == ds[..i];
  }

  /** Collects columns and their values side by side. */
  method Prepare(f: Filter, update: bool, ds: seq<DataField>)
    modifies f`Columns, f`Values
    ensures f.Columns == old(f.Columns) + ColumnsOf(update, ds)
    ensures f.Values == old(f.Values) + ValuesOf(update, ds)
  {
    for i := 0 to |ds|
      invariant f.Columns == old(f.Columns) + ColumnsOf(update, ds[..i])
      invariant f.Values == old(f.Values) + ValuesOf(update, ds[..i])
    {
      OneField(update, ds, i);
      if ds[i].value.None? {
        continue;
      }
      if update && IsId(ds[i].column) {
        continue;
      }
      f.Columns := f.Columns + [ds[i].column];
      f.Values := f.Values + [ds[i].value.value];
    }
    assert ds[..|ds|] == ds;
  }

  // ----- statements -----

  datatype Statement = Statement(sets: seq<Token>, cond: seq<Token>)

  /** Column `i` gets the value of placeholder `i + 1`; each assignment is followed by a comma. */
  ghost function Assignments(cols: seq<string>): seq<Token> {
    if cols == [] then []
    else Assignments(cols[..|cols| - 1]) + [Col(cols[|cols| - 1]), Sym("="), Param(|cols|), Comma]
  }

  ghost function SetList(cols: seq<string>): seq<Token> {
    var ts := Assignments(cols);
    if ts == [] then [] else ts[..|ts| - 1]
  }

  /** The condition behind WHERE. */
  function Condition(select: bool, data: seq<Token>, auth: seq<Token>): seq<Token> {
    var d := if select && data == [] then [Sym("1=1")] else data;
    if auth == [] then d else [LPar] + d + [RPar, Conn("AND"), LPar] + auth + [RPar]
  }

  /** The values handed to the database with a filter in state `s`. */
  ghost function AllValues(s: Store, p: Part, q: Part): seq<Json> {
    var t := Filled(s, p, q);
    if RootText(q, AuthCount(s, p)) == [] then t.vals else t.vals + t.authVals
  }

  /** Appends the authorisation values, if there is an authorisation condition. */
  method AppendAuthValues(f: Filter)
    modifies f`Values
    ensures f.Values == old(f.Values) + if f.AuthExpr == [] then [] else f.AuthWhereValues
  {
    if f.AuthExpr != [] {
      for i := 0 to |f.AuthWhereValues|
        invariant f.Values == old(f.Values) + f.AuthWhereValues[..i]
      {
        assert f.AuthWhereValues[..i + 1] == f.AuthWhereValues[..i] + [f.AuthWhereValues[i]];
        f.Values := f.Values + [f.AuthWhereValues[i]];
      }
    }
  }

  method MakeSets(cols: seq<string>) returns (sets: seq<Token>)
    requires cols != []
    ensures sets == SetList(cols)
  {
    sets := [];
    for i := 0 to |cols|
      invariant sets == Assignments(cols[..i])
    {
      assert cols[..i + 1][..i] == cols[..i];
      sets := sets + [Col(cols[i]), Sym("="), Param(i + 1), Comma];
    }
    assert cols[..|cols|] == cols;
    sets := sets[..|sets| - 1];
  }

  /** UPDATE; nothing is done when there is no column to set. */
  method Update(f: Filter, ds: seq<DataField>, data: Json, auth: Json) returns (r: Result<Option<Statement>, Error>)
    modifies f
    ensures f.Columns == old(f.Columns) + ColumnsOf(true, ds)
    ensures var s := old(f.S()).(vals := old(f.Values) + ValuesOf(true, ds));
            if f.Columns == [] then r == Success(None) && f.S() == s
            else match ReadBoth(f.schema, data, auth)
                 case Failure(e) => r == Failure(e)
                 case Success((p, q)) =>
                   && f.Values == AllValues(s, p, q)
                   && r == Success(Some(Statement(SetList(f.Columns), Condition(false, RootText(p, s.Count()), RootText(q, AuthCount(s, p))))))
  {
    Prepare(f, true, ds);
    if |f.Columns| == 0 {
      return Success(None);
    }
    var c := f.CreateFilter(data, auth);
    if c.Failure? {
      return Failure(c.error);
    }
    var sets := MakeSets(f.Columns);
    var cond := Condition(false, c.value, f.AuthExpr);
    AppendAuthValues(f);
    r := Success(Some(Statement(sets, cond)));
  }

  /** DELETE and SELECT; only SELECT fills in a condition when there is none. */
  method Filtering(f: Filter, select: bool, data: Json, auth: Json) returns (r: Result<Statement, Error>)
    modifies f
    ensures f.Columns == old(f.Columns)
    ensures match ReadBoth(f.schema, data, auth)
            case Failure(e) => r == Failure(e)
            case Success((p, q)) =>
              var s := old(f.S());
              && f.Values == AllValues(s, p, q)
              && r == Success(Statement([], Condition(select, RootText(p, s.Count()), RootText(q, AuthCount(s, p)))))
  {
    var c := f.CreateFilter(data, auth);
    if c.Failure? {
      return Failure(c.error);
    }
    var cond := Condition(select, c.value, f.AuthExpr);
    AppendAuthValues(f);
    r := Success(Statement([], cond));
  }

  // ----- which conditions are SQL, and what they mean -----

  predicate IsEmpty(p: Part) {
    p.body.None? && IsBlank(p.conn)
  }

  predicate RootOk(p: Part) {
    IsBlank(p.conn) && ConnectedBody(p.body)
  }

  /** Has parsing come to what stands behind the text, or did it stop before? */
  ghost predicate Outcome(r: Option<(Expr, seq<Token>)>, ok: bool, e: Expr, rest: seq<Token>) {
    if ok then r == Some((e, rest)) else r.None? || (r.value.1 != [] && !r.value.1[0].RPar?)
  }

  lemma BlankConn(p: Part, n: nat)
    requires IsBlank(p.conn)
    ensures PartTokens(p, n) == BodyTokens(p.body, n)
  {
    assert PartTokens(p, n) == [] + BodyTokens(p.body, n);
  }

  lemma EmptyRoot(p: Part, n: nat)
    ensures RootText(p, n) == [] <==> IsEmpty(p)
    ensures IsEmpty(p) ==> PartValues(p) == []
  {
    var ts := PartTokens(p, n);
    assert ts == ConnTokens(p.conn) + BodyTokens(p.body, n);
    if p.body.Some? {
      TreeStarts(p.body.value, n);
      assert ts != [] && RootText(p, n) != [];
    } else if !IsBlank(p.conn) {
      assert ts == [Conn(p.conn)];
    }
  }

  lemma StripLeaf(t: Tree, n: nat)
    requires t.Leaf?
    ensures Strip(TreeTokens(t, n)) == TreeTokens(t, n)
  {
    CondStarts(t.col, t.cond, n + |t.lost|);
  }

  lemma StripGroup(ps: seq<Part>, n: nat)
    requires ps != [] && PlainParts(ps)
    ensures Strip(TreeTokens(Group(ps), n)) == PartsTokens(ps, n)
  {
    PartStarts(ps[0], n);
    var ts := [LPar] + PartsTokens(ps, n) + [RPar];
    assert PartsTokens(ps, n) != [];
    assert ts[1..|ts| - 1] == PartsTokens(ps, n);
  }

  lemma RootLeaf(t: Tree, n: nat, rest: seq<Token>)
    requires t.Leaf? && Plain(t) && Closes(rest)
    ensures ParseOr(TreeTokens(t, n) + rest) == Some((TreeExpr(t, n), rest))
  {
    var ts := TreeTokens(t, n) + rest;
    ParseLeaf(t.col, t.cond, t.exprIs, n + |t.lost|, rest);
    ParseLast(ts, TreeExpr(t, n), rest);
    ParseAlternative(ts, TreeExpr(t, n), rest);
  }

  lemma ListTail(ps: seq<Part>, n: nat, rest: seq<Token>)
    requires ps != [] && IsBlank(ps[0].conn)
    ensures PartsTokens(ps, n) + rest ==
            BodyTokens(ps[0].body, n) + Remaining(ps[1..], n + |PartValues(ps[0])|, rest)
  {
    BlankConn(ps[0], n);
    Joined(PartTokens(ps[0], n), PartsTokens(ps[1..], n + |PartValues(ps[0])|), rest);
  }

  lemma RootGroup(ps: seq<Part>, n: nat, rest: seq<Token>)
    requires ps != [] && PlainParts(ps) && PartsLinks(ps) && Closes(rest)
    ensures Outcome(ParseOr(PartsTokens(ps, n) + rest), Connected(Group(ps)), PartsExpr(ps, n), rest)
  {
    PartStarts(ps[0], n);
    if IsBlank(ps[0].conn) {
      ListTail(ps, n, rest);
      ParseParts(ps, n, rest);
      ListOutcome(ParseOr(PartsTokens(ps, n) + rest), ps, n, rest);
    } else {
      assert PartLinks(ps[0]);
      Stuck(PartsTokens(ps, n) + rest);
      assert !Connected(Group(ps));
    }
  }

  lemma ListOutcome(r: Option<(Expr, seq<Token>)>, ps: seq<Part>, n: nat, rest: seq<Token>)
    requires ps != [] && IsBlank(ps[0].conn) && ListResult(r, ps, n, rest)
    ensures Outcome(r, Connected(Group(ps)), PartsExpr(ps, n), rest)
  {
  }

  lemma RootBrackets(n: nat, rest: seq<Token>)
    ensures ParseOr(Strip(TreeTokens(Group([]), n)) + rest) == None
  {
    var ts := [RPar] + rest;
    assert TreeTokens(Group([]), n) == [LPar] + [] + [RPar];
    assert Strip(TreeTokens(Group([]), n)) + rest == [LPar] + ts;
    Stuck(ts);
    ParseBracketed(ts, None);
    ParseFails([LPar] + ts);
  }

  /** The text of a tree on its own, its brackets taken off. */
  lemma ParseStripped(t: Tree, n: nat, rest: seq<Token>)
    requires Plain(t) && PlainLinks(t) && Closes(rest)
    ensures Outcome(ParseOr(Strip(TreeTokens(t, n)) + rest), Connected(t), TreeExpr(t, n), rest)
  {
    match t
    case Leaf(_, _, _, _) =>
      StripLeaf(t, n);
      RootLeaf(t, n, rest);
    case Group(ps) =>
      if ps == [] {
        RootBrackets(n, rest);
      } else {
        StripGroup(ps, n);
        RootGroup(ps, n, rest);
      }
  }

  /** A whole condition with plain connectors, data or authorisation: it parses exactly when its tree is connected. */
  lemma ParseRoot(p: Part, n: nat, rest: seq<Token>)
    requires PlainBody(p.body) && PartLinks(p) && Closes(rest)
    ensures Outcome(ParseOr(RootText(p, n) + rest), RootOk(p), BodyExpr(p.body, n), rest)
  {
    var ts := PartTokens(p, n);
    if !IsBlank(p.conn) {
      assert ts[0] == Conn(p.conn);
      Stuck(Strip(ts) + rest);
    } else {
      BlankConn(p, n);
      if p.body.None? {
        assert Strip(ts) + rest == rest;
        NothingThere(rest);
      } else {
        ParseStripped(p.body.value, n, rest);
      }
    }
  }

  lemma NothingThere(rest: seq<Token>)
    requires Closes(rest)
    ensures ParseOr(rest) == None
  {
    if rest == [] {
      ParseUnbracketed(rest);
      ParseFails(rest);
    } else {
      Stuck(rest);
    }
  }

  // ----- the condition of a statement -----

  lemma WholeOutcome(ts: seq<Token>, ok: bool, e: Expr)
    requires Outcome(ParseOr(ts), ok, e, [])
    ensures ParseWhole(ts) == if ok then Some(e) else None
  {
  }

  lemma PairTokens(d: seq<Token>, a: seq<Token>, tail: seq<Token>, second: seq<Token>)
    requires tail == [RPar, Conn("AND"), LPar] + a + [RPar] && second == [LPar] + (a + [RPar])
    ensures [LPar] + d + [RPar, Conn("AND"), LPar] + a + [RPar] == [LPar] + (d + tail)
    ensures tail[0] == RPar && tail[1..] == [Conn("AND")] + second
  {
  }

  /** `(d) AND (a)` parses exactly when both parts do. */
  lemma ParsePair(d: seq<Token>, a: seq<Token>, okD: bool, okA: bool, x: Expr, y: Expr)
    requires Outcome(ParseOr(d + ([RPar, Conn("AND"), LPar] + a + [RPar])), okD, x, [RPar, Conn("AND"), LPar] + a + [RPar])
    requires Outcome(ParseOr(a + [RPar]), okA, y, [RPar])
    ensures ParseWhole([LPar] + d + [RPar, Conn("AND"), LPar] + a + [RPar]) == if okD && okA then Some(And(x, y)) else None
  {
    var tail, second := [RPar, Conn("AND"), LPar] + a + [RPar], [LPar] + (a + [RPar]);
    PairTokens(d, a, tail, second);
    var r := ParseBehind(a, okA, y);
    ParseBoth(d + tail, tail, second, okD, x, r);
  }

  lemma ParseBoth(ts: seq<Token>, tail: seq<Token>, second: seq<Token>, ok: bool, x: Expr, r: Option<(Expr, seq<Token>)>)
    requires tail != [] && tail[0].RPar? && tail[1..] == [Conn("AND")] + second
    requires Outcome(ParseOr(ts), ok, x, tail) && r == ParseAnd(second) && (r.Some? ==> r.value.1 == [])
    ensures ParseWhole([LPar] + ts) == if ok && r.Some? then Some(And(x, r.value.0)) else None
  {
    ParseBracket(ts, tail, ok, x);
    if ok {
      ParseFirst([LPar] + ts, x, second, r);
    } else {
      ParseFails([LPar] + ts);
    }
  }

  lemma ParseBehind(a: seq<Token>, ok: bool, e: Expr) returns (r: Option<(Expr, seq<Token>)>)
    requires Outcome(ParseOr(a + [RPar]), ok, e, [RPar])
    ensures r == ParseAnd([LPar] + (a + [RPar])) && r == if ok then Some((e, [])) else None
  {
    ParseBracket(a + [RPar], [RPar], ok, e);
    assert [RPar][1..] == [];
    ParseSecond([LPar] + (a + [RPar]), ok, e);
    r := if ok then Some((e, [])) else None;
  }

  lemma ParseBracket(ts: seq<Token>, tail: seq<Token>, ok: bool, e: Expr)
    requires Outcome(ParseOr(ts), ok, e, tail) && tail != [] && tail[0].RPar? && Ends(tail[1..])
    ensures ParsePrimary([LPar] + ts) == if ok then Some((e, tail[1..])) else None
  {
    ParseBracketed(ts, ParseOr(ts));
  }

  lemma ParseFirst(ts: seq<Token>, x: Expr, second: seq<Token>, r: Option<(Expr, seq<Token>)>)
    requires ParsePrimary(ts) == Some((x, [Conn("AND")] + second)) && r == ParseAnd(second)
    requires r.Some? ==> r.value.1 == []
    ensures ParseWhole(ts) == if r.Some? then Some(And(x, r.value.0)) else None
  {
    var rest := [Conn("AND")] + second;
    AndWord();
    assert rest[1..] == second;
    ParseConjunct(ts, x, rest, r);
    if r.Some? {
      ParseAlternative(ts, And(x, r.value.0), []);
    }
  }

  lemma ParseSecond(ts: seq<Token>, ok: bool, e: Expr)
    requires ParsePrimary(ts) == if ok then Some((e, [])) else None
    ensures ParseAnd(ts) == if ok then Some((e, [])) else None
  {
    if ok {
      ParseLast(ts, e, []);
    } else {
      ParseFails(ts);
    }
  }

  /** A data condition is needed, except that SELECT puts `1=1` for none. */
  predicate DataOk(select: bool, p: Part) {
    RootOk(p) || (select && IsEmpty(p))
  }

  predicate AuthOk(q: Part) {
    IsEmpty(q) || RootOk(q)
  }

  lemma DataOutcome(select: bool, p: Part, n: nat, rest: seq<Token>)
    requires PlainBody(p.body) && PartLinks(p) && Closes(rest)
    ensures var d := Condition(select, RootText(p, n), []);
            Outcome(ParseOr(d + rest), DataOk(select, p), BodyExpr(p.body, n), rest)
  {
    ParseRoot(p, n, rest);
    EmptyRoot(p, n);
    if select && IsEmpty(p) {
      var ts := [Sym("1=1")] + rest;
      assert ts[1..] == rest;
      ParseUnbracketed(ts);
      ParseLast(ts, Always, rest);
      ParseAlternative(ts, Always, rest);
    }
  }

  ghost function ConditionExpr(p: Part, q: Part, n: nat, m: nat): Expr {
    if IsEmpty(q) then BodyExpr(p.body, n) else And(BodyExpr(p.body, n), BodyExpr(q.body, m))
  }

  lemma OkLinks(select: bool, p: Part, q: Part)
    requires DataOk(select, p) && AuthOk(q)
    ensures PartLinks(p) && PartLinks(q)
  {
    if p.body.Some? {
      ConnectedLinks(p.body.value);
    }
    if q.body.Some? {
      ConnectedLinks(q.body.value);
    }
  }

  lemma StripLinking(ts: seq<Token>)
    requires Linking(ts)
    ensures Linking(Strip(ts))
  {
  }

  lemma ConditionLinking(select: bool, d: seq<Token>, a: seq<Token>)
    requires Linking(d) && Linking(a)
    ensures Linking(Condition(select, d, a))
  {
    AndWord();
  }

  /** With plain connectors the database sees the tokens as they are written. */
  lemma SpreadCondition(select: bool, p: Part, q: Part, n: nat, m: nat)
    requires PartLinks(p) && PartLinks(q)
    ensures var ts := Condition(select, RootText(p, n), RootText(q, m)); Spread(ts) == ts
  {
    PartLinking(p, n);
    PartLinking(q, m);
    StripLinking(PartTokens(p, n));
    StripLinking(PartTokens(q, m));
    ConditionLinking(select, RootText(p, n), RootText(q, m));
    SpreadLinking(Condition(select, RootText(p, n), RootText(q, m)));
  }

  lemma LinkedCondition(select: bool, p: Part, q: Part, n: nat, m: nat)
    requires PlainBody(p.body) && PlainBody(q.body) && PartLinks(p) && PartLinks(q)
    ensures ParseWhole(Condition(select, RootText(p, n), RootText(q, m))) ==
            if DataOk(select, p) && AuthOk(q) then Some(ConditionExpr(p, q, n, m)) else None
  {
    var data, a := RootText(p, n), RootText(q, m);
    var d := Condition(select, data, []);
    EmptyRoot(q, m);
    if IsEmpty(q) {
      DataOutcome(select, p, n, []);
      Joined(d, [], []);
      WholeOutcome(d, DataOk(select, p), BodyExpr(p.body, n));
    } else {
      DataOutcome(select, p, n, [RPar, Conn("AND"), LPar] + a + [RPar]);
      ParseRoot(q, m, [RPar]);
      ParsePair(d, a, DataOk(select, p), RootOk(q), BodyExpr(p.body, n), BodyExpr(q.body, m));
    }
  }

  /** Which conditions are SQL, and to what they parse. */
  lemma ConditionParses(select: bool, p: Part, q: Part, n: nat, m: nat)
    requires PlainBody(p.body) && PlainBody(q.body)
    ensures var e, ok := Parse(Condition(select, RootText(p, n), RootText(q, m))), DataOk(select, p) && AuthOk(q);
            && (ok ==> e == Some(ConditionExpr(p, q, n, m)))
            && (PartLinks(p) && PartLinks(q) && !ok ==> e == None)
  {
    if DataOk(select, p) && AuthOk(q) {
      OkLinks(select, p, q);
    }
    if PartLinks(p) && PartLinks(q) {
      SpreadCondition(select, p, q, n, m);
      LinkedCondition(select, p, q, n, m);
    }
  }

  lemma RootMeaning(p: Part, n: nat, vals: seq<Json>, row: Row, vs: seq<Json>)
    requires (IsEmpty(p) || RootOk(p)) && BodyOk(p.body) && vs == PartValues(p) && Bound(vals, n, vs)
    ensures Eval(BodyExpr(p.body, n), vals, row) == BodyMeaning(p.body, row)
  {
    if p.body.Some? {
      Joined(vs, [], []);
      PartAgrees(p, n, vals, row, []);
    }
  }

  lemma ConditionMeaning(p: Part, q: Part, n: nat, vals: seq<Json>, row: Row, vs: seq<Json>, ws: seq<Json>)
    requires (IsEmpty(p) || RootOk(p)) && AuthOk(q) && BodyOk(p.body) && BodyOk(q.body)
    requires vs == PartValues(p) && ws == PartValues(q) && Bound(vals, n, vs + ws)
    ensures Eval(ConditionExpr(p, q, n, n + |vs|), vals, row) ==
            And3(BodyMeaning(p.body, row), BodyMeaning(q.body, row))
  {
    BoundSplit(vals, n, vs, ws);
    RootMeaning(p, n, vals, row, vs);
    RootMeaning(q, n + |vs|, vals, row, ws);
  }

  // ----- the statements a new filter makes -----

  /** A filter whose `Values` hold what the SET list needs. */
  function Prepared(sets: seq<Json>): Store {
    Store(sets, [], 0, false)
  }

  lemma NewCounts(sets: seq<Json>, p: Part, vs: seq<Json>)
    requires vs == PartValues(p)
    ensures Prepared(sets).Count() == |sets| && AuthCount(Prepared(sets), p) == |sets| + |vs|
  {
    NewStore(sets, vs, []);
  }

  lemma NewStore(sets: seq<Json>, vs: seq<Json>, ws: seq<Json>)
    ensures Prepared(sets).Count() == |sets|
    ensures Prepared(sets).Append(vs).Authorising().Count() == |sets| + |vs|
    ensures Prepared(sets).Append(vs).Authorising().Append(ws) == Store(sets + vs, ws, |sets| + |vs|, true)
  {
    assert [] + ws == ws;
  }

  lemma AllOf(auth: seq<Token>, t: Store, vs: seq<Json>, ws: seq<Json>)
    requires auth == [] ==> ws == []
    requires t.vals == vs && t.authVals == ws
    ensures (if auth == [] then t.vals else t.vals + t.authVals) == vs + ws
  {
  }

  lemma NewValues(sets: seq<Json>, p: Part, q: Part, vs: seq<Json>, ws: seq<Json>)
    requires vs == PartValues(p) && ws == PartValues(q)
    ensures AllValues(Prepared(sets), p, q) == sets + vs + ws
  {
    var s := Prepared(sets);
    NewCounts(sets, p, vs);
    EmptyRoot(q, |sets| + |vs|);
    NewStore(sets, vs, ws);
    AllOf(RootText(q, |sets| + |vs|), Filled(s, p, q), sets + vs, ws);
  }

  lemma BoundBehind(sets: seq<Json>, vs: seq<Json>, ws: seq<Json>)
    ensures Bound(sets + vs + ws, |sets|, vs + ws)
  {
    assert sets + vs + ws == sets + (vs + ws);
  }

  /**
   The condition of a statement: it means both filters when they are connected
   (or absent where that is allowed), and when their connectors are plain the
   database accepts no other.
   */
  lemma StatementMeaning(schema: Schema, select: bool, sets: seq<Json>, data: Json, auth: Json, row: Row)
    requires ReadBoth(schema, data, auth).Success?
    ensures var s, (p, q) := Prepared(sets), ReadBoth(schema, data, auth).value;
            var e := Parse(Condition(select, RootText(p, s.Count()), RootText(q, AuthCount(s, p))));
            && (DataOk(select, p) && AuthOk(q) ==> e.Some?)
            && (PlainConnectors(data) && PlainConnectors(auth) && e.Some? ==> DataOk(select, p) && AuthOk(q))
            && (DataOk(select, p) && AuthOk(q) && BodyOk(p.body) && BodyOk(q.body) ==>
                  Eval(e.value, AllValues(s, p, q), row) == And3(BodyMeaning(p.body, row), BodyMeaning(q.body, row)))
  {
    var (p, q) := ReadBoth(schema, data, auth).value;
    ReadPlain(schema, data);
    ReadPlain(schema, auth);
    if PlainConnectors(data) && PlainConnectors(auth) {
      ReadLinks(schema, data);
      ReadLinks(schema, auth);
    }
    PlainStatement(select, sets, p, q, row, PartValues(p), PartValues(q));
  }

  lemma PlainStatement(select: bool, sets: seq<Json>, p: Part, q: Part, row: Row, vs: seq<Json>, ws: seq<Json>)
    requires PlainBody(p.body) && PlainBody(q.body) && vs == PartValues(p) && ws == PartValues(q)
    ensures var s := Prepared(sets);
            var e := Parse(Condition(select, RootText(p, s.Count()), RootText(q, AuthCount(s, p))));
            && (DataOk(select, p) && AuthOk(q) ==> e.Some?)
            && (PartLinks(p) && PartLinks(q) && e.Some? ==> DataOk(select, p) && AuthOk(q))
            && (DataOk(select, p) && AuthOk(q) && BodyOk(p.body) && BodyOk(q.body) ==>
                  Eval(e.value, AllValues(s, p, q), row) == And3(BodyMeaning(p.body, row), BodyMeaning(q.body, row)))
  {
    NewCounts(sets, p, vs);
    ConditionParses(select, p, q, |sets|, |sets| + |vs|);
    if DataOk(select, p) && AuthOk(q) && BodyOk(p.body) && BodyOk(q.body) {
      StatementValue(sets, p, q, row, vs, ws);
    }
  }

  lemma StatementValue(sets: seq<Json>, p: Part, q: Part, row: Row, vs: seq<Json>, ws: seq<Json>)
    requires (IsEmpty(p) || RootOk(p)) && AuthOk(q) && BodyOk(p.body) && BodyOk(q.body)
    requires vs == PartValues(p) && ws == PartValues(q)
    ensures Eval(ConditionExpr(p, q, |sets|, |sets| + |vs|), AllValues(Prepared(sets), p, q), row) ==
            And3(BodyMeaning(p.body, row), BodyMeaning(q.body, row))
  {
    NewValues(sets, p, q, vs, ws);
    BoundBehind(sets, vs, ws);
    ConditionMeaning(p, q, |sets|, sets + vs + ws, row, vs, ws);
  }

  lemma StripPlaces(ts: seq<Token>)
    ensures Places(Strip(ts)) == Places(ts)
  {
    if |ts| > 2 && ts[0].LPar? && ts[|ts| - 1].RPar? {
      WrappedPlaces(ts[1..|ts| - 1]);
      assert ts == [LPar] + ts[1..|ts| - 1] + [RPar];
    }
  }

  lemma {:induction false} AssignmentPlaces(cols: seq<string>)
    ensures Places(Assignments(cols)) == Numbers(0, |cols|)
    decreases |cols|
  {
    if cols == [] {
      assert Numbers(0, 0) == [];
    } else {
      var k := |cols| - 1;
      AssignmentPlaces(cols[..k]);
      ComparePlaces(cols[k], "=", k);
      Ended([Col(cols[k]), Sym("="), Param(k + 1)], Comma);
      assert [Col(cols[k]), Sym("="), Param(k + 1)] + [Comma] == [Col(cols[k]), Sym("="), Param(|cols|), Comma];
      PlacesSplit(Assignments(cols[..k]), [Col(cols[k]), Sym("="), Param(|cols|), Comma]);
      NumbersSplit(0, k, 1);
    }
  }

  lemma SetPlaces(cols: seq<string>)
    ensures Places(SetList(cols)) == Numbers(0, |cols|)
  {
    AssignmentPlaces(cols);
    var ts := Assignments(cols);
    if cols != [] {
      assert ts == SetList(cols) + [Comma];
      Ended(SetList(cols), Comma);
    } else {
      assert Places(SetList(cols)) == [];
    }
  }

  lemma DataPlaces(select: bool, data: seq<Token>)
    ensures Places(Condition(select, data, [])) == Places(data)
  {
    Skip(Sym("1=1"), []);
    assert [Sym("1=1")] + [] == [Sym("1=1")];
  }

  lemma PairShape(d: seq<Token>, a: seq<Token>)
    ensures [LPar] + d + [RPar, Conn("AND"), LPar] + a + [RPar] ==
            ([LPar] + d + [RPar]) + [Conn("AND")] + ([LPar] + a + [RPar])
  {
  }

  lemma PairPlaces(d: seq<Token>, a: seq<Token>)
    ensures Places([LPar] + d + [RPar, Conn("AND"), LPar] + a + [RPar]) == Places(d) + Places(a)
  {
    var l, r := [LPar] + d + [RPar], [LPar] + a + [RPar];
    PairShape(d, a);
    WrappedPlaces(d);
    WrappedPlaces(a);
    Ended(l, Conn("AND"));
    PlacesSplit(l + [Conn("AND")], r);
  }

  lemma ConditionPlaces(select: bool, data: seq<Token>, auth: seq<Token>)
    ensures Places(Condition(select, data, auth)) == Places(data) + Places(auth)
  {
    DataPlaces(select, data);
    if auth == [] {
      Joined(Places(data), [], []);
    } else {
      PairPlaces(Condition(select, data, []), auth);
    }
  }

  /** Placeholders `a` and `b` behind the first `k` number `x` and `y` values, `u` and `v` of them unused. */
  lemma NumberedAll(k: nat, a: seq<nat>, b: seq<nat>, x: nat, y: nat, u: nat, v: nat)
    requires |a| + u == x && |b| + v == y
    requires u == 0 ==> a == Numbers(k, x)
    requires v == 0 ==> b == Numbers(k + x, y)
    ensures Numbers(0, k) + (a + b) == Numbers(0, k + x + y) <==> u + v == 0
  {
    if u + v == 0 {
      NumbersSplit(0, k, x);
      NumbersSplit(0, k + x, y);
      Joined(Numbers(0, k), a, b);
    } else {
      assert |Numbers(0, k) + (a + b)| < k + x + y;
    }
  }

  /** The placeholders of `ts` are 1, 2, ... `count`, each once and in order, exactly when no operand is unused. */
  ghost predicate Numbered(ts: seq<Token>, count: nat, unused: nat) {
    Places(ts) == Numbers(0, count) <==> unused == 0
  }

  lemma NumberedTexts(cols: seq<string>, select: bool, d: seq<Token>, a: seq<Token>, m: nat, vs: seq<Json>, ws: seq<Json>,
                      u: nat, v: nat)
    requires m == |cols| + |vs| && Placed(d, |cols|, vs, u) && Placed(a, m, ws, v)
    ensures Numbered(SetList(cols) + Condition(select, d, a), m + |ws|, u + v)
  {
    SetPlaces(cols);
    ConditionPlaces(select, d, a);
    PlacesSplit(SetList(cols), Condition(select, d, a));
    NumberedAll(|cols|, Places(d), Places(a), |vs|, |ws|, u, v);
  }

  /** A whole statement with `AllValues` for its values. */
  lemma TreeNumbering(cols: seq<string>, sets: seq<Json>, select: bool, p: Part, q: Part)
    requires |cols| == |sets|
    ensures var s := Prepared(sets);
            Numbered(SetList(cols) + Condition(select, RootText(p, s.Count()), RootText(q, AuthCount(s, p))),
                     |AllValues(s, p, q)|, PartUnused(p) + PartUnused(q))
  {
    var s, vs, ws := Prepared(sets), PartValues(p), PartValues(q);
    var n, m := s.Count(), AuthCount(s, p);
    NewCounts(sets, p, vs);
    NewValues(sets, p, q, vs, ws);
    RootPlaces(p, n, vs);
    RootPlaces(q, m, ws);
    NumberedTexts(cols, select, RootText(p, n), RootText(q, m), m, vs, ws, PartUnused(p), PartUnused(q));
    assert |AllValues(s, p, q)| == m + |ws|;
  }

  lemma RootPlaces(p: Part, n: nat, vs: seq<Json>)
    requires vs == PartValues(p)
    ensures Placed(RootText(p, n), n, vs, PartUnused(p))
  {
    PartPlaces(p, n);
    StripPlaces(PartTokens(p, n));
  }

  /** In the SET list column `i` is bound to value `i`. */
  lemma SetListAt(cols: seq<string>, i: nat)
    requires i < |cols|
    ensures |SetList(cols)| == 4 * |cols| - 1
    ensures SetList(cols)[4 * i..4 * i + 3] == [Col(cols[i]), Sym("="), Param(i + 1)]
  {
    AssignmentsAt(cols, i);
    var ts := Assignments(cols);
    assert SetList(cols)[4 * i..4 * i + 3] == ts[4 * i..4 * i + 4][..3];
  }

  lemma {:induction false} AssignmentsAt(cols: seq<string>, i: nat)
    requires i < |cols|
    ensures |Assignments(cols)| == 4 * |cols|
    ensures Assignments(cols)[4 * i..4 * i + 4] == [Col(cols[i]), Sym("="), Param(i + 1), Comma]
    decreases |cols|
  {
    var k := |cols| - 1;
    if k > 0 {
      AssignmentsAt(cols[..k], if i < k then i else 0);
    } else {
      assert Assignments(cols[..k]) == [];
    }
    var a, b := Assignments(cols[..k]), [Col(cols[k]), Sym("="), Param(k + 1), Comma];
    if i < k {
      assert (a + b)[4 * i..4 * i + 4] == a[4 * i..4 * i + 4];
    } else {
      assert (a + b)[4 * k..4 * k + 4] == b;
    }
  }
}

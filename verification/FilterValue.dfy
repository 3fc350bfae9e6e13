/** The value of a filter. */
module FilterValue {
  import opened Wrappers
  import opened FilterTree
  import opened Sql
  import opened FilterCompiler
  import opened FilterSyntax
  import opened FilterMeaning
  import opened FilterFacts
  import opened Dml

  // As it is written in JSON, without trees (backend/cmn/filter.go); and when a
  // statement has it.

  /** The value of a condition under its qualifier; one that is not valid decides nothing. */
  function ClauseValue(c: Clause, row: Row): Truth {
    match c.exprIs
    case Success(w) => Qualified(row(c.fact), w)
    case Failure(_) => Unknown
  }

  /** All conditions of an object are to hold. */
  ghost function AllHold(cs: seq<Clause>, row: Row): Truth {
    if cs == [] then True else And3(ClauseValue(cs[0], row), AllHold(cs[1..], row))
  }

  /** The last connector of an object from member `i` on, after `conn`. */
  function LastConnector(fs: seq<Field>, i: nat, conn: string): string
    requires i <= |fs|
    decreases |fs| - i
  {
    if i == |fs| then conn
    else
      LastConnector(fs, i + 1, if IsConnectBy(fs[i].key) && fs[i].value.Str? then Upper(fs[i].value.s) else conn)
  }

  /** Null, an empty text, and an object or list without a condition. */
  predicate NoCondition(j: Json) {
    match j
    case Arr(items) => items == []
    case Obj(fields) => ConditionKeys(fields, 0) == []
    case _ => true
  }

  predicate NamesLink(conn: string) {
    Squeeze(conn) == "AND" || Squeeze(conn) == "OR"
  }

  /** An element with nothing but AND or OR names the connector of the list, and one with nothing at all is passed over. */
  predicate Passed(j: Json) {
    NoCondition(j) && (NamesLink(Connector(j)) || IsBlank(Connector(j)))
  }

  /** The connector of a list from element `i` on, after `conn`. */
  function ListConnector(js: seq<Json>, i: nat, conn: string): string
    requires i <= |js|
    decreases js, |js| - i
  {
    if i == |js| then conn
    else
      var own := Connector(js[i]);
      ListConnector(js, i + 1, if NoCondition(js[i]) && NamesLink(own) then own else conn)
  }

  function Connector(j: Json): string
    decreases j
  {
    match j
    case Arr(items) => ListConnector(items, 0, "")
    case Obj(fields) => LastConnector(fields, 0, "")
    case _ => ""
  }

  /** `done` is the value of the finished alternatives of a list, `current` that of the one being read. */
  datatype Sum = Sum(done: Truth, current: Truth)

  function Added(s: Option<Sum>, conn: string, v: Truth): Option<Sum> {
    match s
    case None => Some(Sum(False, v))
    case Some(Sum(done, current)) =>
      if Trim(conn) == "AND" then Some(Sum(done, And3(current, v))) else Some(Sum(Or3(done, current), v))
  }

  function Total(s: Option<Sum>): Truth {
    match s
    case None => True
    case Some(Sum(done, current)) => Or3(done, current)
  }

  ghost function ListValue(schema: Schema, js: seq<Json>, i: nat, s: Option<Sum>, row: Row): Truth
    requires i <= |js|
    decreases js, |js| - i
  {
    if i == |js| then Total(s)
    else
      var v := Value(schema, js[i], row);
      ListValue(schema, js, i + 1, if Passed(js[i]) then s else Added(s, Connector(js[i]), v), row)
  }

  /** An object holds when all its conditions do; a list is read from left to right, where AND goes on with the current
      alternative and OR begins the next one. */
  ghost function Value(schema: Schema, j: Json, row: Row): Truth
    decreases j
  {
    match j
    case Arr(items) => ListValue(schema, items, 0, None, row)
    case Obj(fields) => AllHold(WrittenFields(schema, fields, 0), row)
    case _ => True
  }

  // ----- connectors and empty parts -----

  lemma {:induction false} ObjectConnector(schema: Schema, fs: seq<Field>, i: nat, conn: string, cur: Option<Tree>)
    requires i <= |fs| && ReadFields(schema, fs, i, conn, cur).Success?
    ensures ReadFields(schema, fs, i, conn, cur).value.conn == LastConnector(fs, i, conn)
    decreases |fs| - i
  {
    if i < |fs| {
      if IsConnectBy(fs[i].key) {
        ConnectorStep(schema, fs, i, conn, cur);
        ObjectConnector(schema, fs, i + 1, Upper(fs[i].value.s), cur);
      } else {
        MemberStep(schema, fs, i, conn, cur);
        var mid := ReadOperators(schema(fs[i].key).value, fs[i].value.fields, 0, cur).value;
        ObjectConnector(schema, fs, i + 1, conn, mid);
      }
    }
  }

  lemma {:induction false} ItemsConnector(schema: Schema, js: seq<Json>, i: nat, conn: string, ps: seq<Part>)
    requires i <= |js| && ReadItems(schema, js, i, conn, ps).Success?
    ensures ReadItems(schema, js, i, conn, ps).value.conn == ListConnector(js, i, conn)
    ensures ReadItems(schema, js, i, conn, ps).value.body.Some?
    decreases js, |js| - i
  {
    if i < |js| {
      ItemStep(schema, js, i, conn, ps);
      ReadConnector(schema, js[i]);
      var p := Read(schema, js[i]).value;
      if IsSkipped(p) {
        ItemsConnector(schema, js, i + 1, if IsBare(p) then p.conn else conn, ps);
      } else {
        ItemsConnector(schema, js, i + 1, conn, ps + [p]);
      }
    }
  }

  /** What is read has the connector of the filter, and nothing else exactly when the filter has no condition. */
  lemma {:induction false} ReadConnector(schema: Schema, j: Json)
    requires Read(schema, j).Success?
    ensures var p := Read(schema, j).value;
            p.conn == Connector(j) && (p.body.None? <==> NoCondition(j)) && (IsSkipped(p) <==> Passed(j))
    decreases j
  {
    match j
    case Arr(items) =>
      if items != [] {
        ItemsConnector(schema, items, 0, "", []);
      }
    case Obj(fields) =>
      if fields != [] {
        ObjectConnector(schema, fields, 0, "", None);
        FieldsLast(schema, fields, 0, "", None);
      }
    case _ =>
  }

  // ----- lists -----

  /** The elements of `ps` added to `s`. */
  ghost function Fold(s: Option<Sum>, ps: seq<Part>, row: Row): Option<Sum>
    decreases |ps|
  {
    if ps == [] then s else Fold(Added(s, ps[0].conn, BodyMeaning(ps[0].body, row)), ps[1..], row)
  }

  lemma {:induction false} FoldSnoc(s: Option<Sum>, ps: seq<Part>, p: Part, row: Row)
    ensures Fold(s, ps + [p], row) == Added(Fold(s, ps, row), p.conn, BodyMeaning(p.body, row))
    decreases |ps|
  {
    if ps == [] {
      assert [] + [p] == [p] && [p][1..] == [];
    } else {
      FoldSnoc(Added(s, ps[0].conn, BodyMeaning(ps[0].body, row)), ps[1..], p, row);
      assert (ps + [p])[1..] == ps[1..] + [p];
    }
  }

  lemma {:induction false} FoldAlternatives(done: Truth, current: Truth, ps: seq<Part>, row: Row)
    ensures Alternatives(ps, done, current, row) == Total(Fold(Some(Sum(done, current)), ps, row))
    decreases |ps|
  {
    if ps != [] {
      var v := BodyMeaning(ps[0].body, row);
      if Trim(ps[0].conn) == "AND" {
        FoldAlternatives(done, And3(current, v), ps[1..], row);
      } else {
        FoldAlternatives(Or3(done, current), v, ps[1..], row);
      }
    }
  }

  lemma GroupMeaning(ps: seq<Part>, row: Row)
    ensures Meaning(Group(ps), row) == Total(Fold(None, ps, row))
  {
    if ps != [] {
      FoldAlternatives(False, BodyMeaning(ps[0].body, row), ps[1..], row);
    }
  }

  // ----- whole filters -----

  /** No object of the filter holds two conditions, and no operator map IS beside EXPR_IS. */
  predicate Faithful(j: Json) {
    OneEach(j) && IsAlone(j)
  }

  predicate FaithfulFrom(js: seq<Json>, i: nat) {
    forall k | i <= k < |js| :: Faithful(js[k])
  }

  lemma ObjectMeaning(schema: Schema, fs: seq<Field>, row: Row)
    requires ReadFields(schema, fs, 0, "", None).Success? && Faithful(Obj(fs))
    ensures BodyMeaning(ReadFields(schema, fs, 0, "", None).value.body, row) == AllHold(WrittenFields(schema, fs, 0), row)
  {
    var b, ws := ReadFields(schema, fs, 0, "", None).value.body, WrittenFields(schema, fs, 0);
    FieldsLast(schema, fs, 0, "", None);
    FieldsFollow(schema, fs, 0, "", None);
    FieldsPlain(schema, fs, 0, "", None);
    if ws != [] {
      OneHolds(b.value, ws[0], row);
      assert ws == [ws[0]];
    }
  }

  lemma OneHolds(t: Tree, c: Clause, row: Row)
    requires t.Leaf? && TreeClauses(t) == [c]
    ensures Meaning(t, row) == AllHold([c], row)
  {
    assert [c][0] == c && [c][1..] == [];
  }

  lemma {:induction false} ItemsMeaning(schema: Schema, js: seq<Json>, i: nat, conn: string, ps: seq<Part>, row: Row)
    requires i <= |js| && ReadItems(schema, js, i, conn, ps).Success? && FaithfulFrom(js, i)
    ensures BodyMeaning(ReadItems(schema, js, i, conn, ps).value.body, row) ==
            ListValue(schema, js, i, Fold(None, ps, row), row)
    decreases js, |js| - i
  {
    if i == |js| {
      GroupMeaning(ps, row);
    } else {
      ItemStep(schema, js, i, conn, ps);
      ReadConnector(schema, js[i]);
      var p := Read(schema, js[i]).value;
      if IsSkipped(p) {
        ItemsMeaning(schema, js, i + 1, if IsBare(p) then p.conn else conn, ps, row);
      } else {
        assert Faithful(js[i]);
        ReadMeaning(schema, js[i], row);
        FoldSnoc(None, ps, p, row);
        ItemsMeaning(schema, js, i + 1, conn, ps + [p], row);
      }
    }
  }

  /** What is read of a faithful filter means what the filter says. */
  lemma {:induction false} ReadMeaning(schema: Schema, j: Json, row: Row)
    requires Read(schema, j).Success? && Faithful(j)
    ensures BodyMeaning(Read(schema, j).value.body, row) == Value(schema, j, row)
    decreases j
  {
    match j
    case Arr(items) =>
      if items != [] {
        ItemsMeaning(schema, items, 0, "", [], row);
      }
    case Obj(fields) =>
      if fields != [] {
        ObjectMeaning(schema, fields, row);
      }
    case _ =>
  }

  /**
   The condition of a statement has, on every row, the value of both filters as written, when they are connected (or
   absent where that is allowed), no object holds two conditions, no operator map IS beside EXPR_IS, and no JSON path
   condition `silent` alone.  (For the conditions that are tested this is exact, see `StatementFacts`.)
   */
  lemma StatementValue(schema: Schema, select: bool, sets: seq<Json>, data: Json, auth: Json, row: Row)
    requires ReadBoth(schema, data, auth).Success? && Faithful(data) && Faithful(auth)
    requires var (p, q) := ReadBoth(schema, data, auth).value;
             DataOk(select, p) && AuthOk(q) && BodyOk(p.body) && BodyOk(q.body)
    ensures var s, (p, q) := Prepared(sets), ReadBoth(schema, data, auth).value;
            var e := Parse(Condition(select, RootText(p, s.Count()), RootText(q, AuthCount(s, p))));
            e.Some? && Eval(e.value, AllValues(s, p, q), row) == And3(Value(schema, data, row), Value(schema, auth, row))
  {
    ReadMeaning(schema, data, row);
    ReadMeaning(schema, auth, row);
    StatementMeaning(schema, select, sets, data, auth, row);
  }

  /** EXPR_IS beside IS is dropped: a filter that is false of a row of which its condition is true. */
  lemma QualifierDropped(schema: Schema)
    requires schema("a") == Some("a")
    ensures var x := [Field("IS", Str("NULL")), Field("EXPR_IS", Str("NOT TRUE"))];
            var j, t := Obj([Field("a", Obj(x))]), Leaf([], "a", IsTest("NULL"), None);
            var row := (f: Fact) => if f == IsFact("a", "NULL") then True else False;
            && Read(schema, j) == Success(Part("", Some(t)))
            && OneEach(j) && OperandsLast(j) && Connected(t) && PathsOk(t) && !IsAlone(j)
            && FilterFacts.Written(schema, j) == [Clause(IsFact("a", "NULL"), Success(Some("NOT TRUE")))]
            && Eval(TreeExpr(t, 0), [], row) == True && Value(schema, j, row) == False
  {
    var x := [Field("IS", Str("NULL")), Field("EXPR_IS", Str("NOT TRUE"))];
    var t, fs := Leaf([], "a", IsTest("NULL"), None), [Field("a", Obj(x))];
    ReadIsQualified(x, t);
    assert |Upper("a")| == 1;
    assert ReadFields(schema, fs, 1, "", Some(t)) == Success(Part("", Some(t)));
    assert WrittenFields(schema, fs, 1) == [] && ConditionKeys(fs, 1) == [];
    assert fs[0].value.fields == x;
    WrittenPlain(schema, Obj(fs));
    assert !PlainIs(FilterFacts.Written(schema, Obj(fs))[0]);
    assert FilterFacts.Written(schema, Obj(fs))[1..] == [];
  }
}

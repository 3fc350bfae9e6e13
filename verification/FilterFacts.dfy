/** The conditions written in a filter. */
module FilterFacts {
  import opened Wrappers
  import opened FilterTree
  import opened Sql
  import opened FilterCompiler
  import opened FilterSyntax
  import opened FilterMeaning
  import opened Dml

  // Exactly when all of them are tested (backend/cmn/filter.go).

  // ----- what is written -----

  /** The conditions of an operator map from operator `i` on, each qualified by the EXPR_IS beside it. */
  ghost function WrittenOperators(col: string, x: seq<Field>, i: nat): seq<Clause>
    requires i <= |x|
    decreases |x| - i
  {
    if i == |x| then [] else WrittenOperator(col, x, i) + WrittenOperators(col, x, i + 1)
  }

  ghost function WrittenOperator(col: string, x: seq<Field>, i: nat): seq<Clause>
    requires i < |x|
  {
    ClauseOf(col, ReadCond(x, x[i].key, x[i].value), ExprIs(x))
  }

  function ClauseOf(col: string, c: Result<Option<Cond>, Error>, e: Result<Option<string>, Error>): seq<Clause> {
    match c
    case Success(Some(c)) => [Clause(FactOf(col, c), e)]
    case _ => []
  }

  /** The conditions of the members of a filter object from member `i` on. */
  ghost function WrittenFields(schema: Schema, fs: seq<Field>, i: nat): seq<Clause>
    requires i <= |fs|
    decreases |fs| - i
  {
    if i == |fs| then [] else WrittenField(schema, fs[i]) + WrittenFields(schema, fs, i + 1)
  }

  ghost function WrittenField(schema: Schema, f: Field): seq<Clause> {
    if IsConnectBy(f.key) || !f.value.Obj? || schema(f.key).None? then []
    else WrittenOperators(schema(f.key).value, f.value.fields, 0)
  }

  ghost function WrittenItems(schema: Schema, js: seq<Json>, i: nat): seq<Clause>
    requires i <= |js|
    decreases js, |js| - i
  {
    if i == |js| then [] else Written(schema, js[i]) + WrittenItems(schema, js, i + 1)
  }

  /** Every condition a filter states, in order. */
  ghost function Written(schema: Schema, j: Json): seq<Clause>
    decreases j
  {
    match j
    case Arr(items) => WrittenItems(schema, items, 0)
    case Obj(fields) => WrittenFields(schema, fields, 0)
    case _ => []
  }

  // ----- the condition operators of an object -----

  function OperatorKeys(x: seq<Field>, i: nat): seq<string>
    requires i <= |x|
    decreases |x| - i
  {
    if i == |x| then [] else (if x[i].key in MODIFIERS then [] else [x[i].key]) + OperatorKeys(x, i + 1)
  }

  function ConditionKeys(fs: seq<Field>, i: nat): seq<string>
    requires i <= |fs|
    decreases |fs| - i
  {
    if i == |fs| then [] else FieldKeys(fs[i]) + ConditionKeys(fs, i + 1)
  }

  function FieldKeys(f: Field): seq<string> {
    if IsConnectBy(f.key) || !f.value.Obj? then [] else OperatorKeys(f.value.fields, 0)
  }

  /** No object of the filter holds two condition operators. */
  predicate OneEach(j: Json) {
    match j
    case Arr(items) => forall i | 0 <= i < |items| :: OneEach(items[i])
    case Obj(fields) => |ConditionKeys(fields, 0)| <= 1
    case _ => true
  }

  /** All operators but the last are IS, the only one without an operand. */
  predicate LastHasOperands(keys: seq<string>) {
    forall i | 0 <= i < |keys| - 1 :: keys[i] == "IS"
  }

  /** No object of the filter holds a condition operator with an operand before its last one. */
  predicate OperandsLast(j: Json) {
    match j
    case Arr(items) => forall i | 0 <= i < |items| :: OperandsLast(items[i])
    case Obj(fields) => LastHasOperands(ConditionKeys(fields, 0))
    case _ => true
  }

  /** No operator map holds IS beside EXPR_IS. */
  predicate IsAlone(j: Json) {
    match j
    case Arr(items) => forall i | 0 <= i < |items| :: IsAlone(items[i])
    case Obj(fields) => IsAloneFrom(fields, 0)
    case _ => true
  }

  predicate IsAloneFrom(fs: seq<Field>, i: nat) {
    forall k | i <= k < |fs| :: IsAloneIn(fs[k])
  }

  predicate IsAloneIn(f: Field) {
    !IsConnectBy(f.key) && f.value.Obj? && Lookup(f.value.fields, "IS").Some? ==> Lookup(f.value.fields, "EXPR_IS").None?
  }

  // ----- reading, step by step -----

  lemma ConnectorStep(schema: Schema, fs: seq<Field>, i: nat, conn: string, cur: Option<Tree>)
    requires i < |fs| && IsConnectBy(fs[i].key) && ReadFields(schema, fs, i, conn, cur).Success?
    ensures fs[i].value.Str?
    ensures ReadFields(schema, fs, i, conn, cur) == ReadFields(schema, fs, i + 1, Upper(fs[i].value.s), cur)
    ensures WrittenFields(schema, fs, i) == WrittenFields(schema, fs, i + 1)
    ensures ConditionKeys(fs, i) == ConditionKeys(fs, i + 1)
  {
  }

  lemma MemberStep(schema: Schema, fs: seq<Field>, i: nat, conn: string, cur: Option<Tree>)
    requires i < |fs| && !IsConnectBy(fs[i].key) && ReadFields(schema, fs, i, conn, cur).Success?
    ensures schema(fs[i].key).Some? && fs[i].value.Obj?
    ensures var col, x := schema(fs[i].key).value, fs[i].value.fields;
            var mid := ReadOperators(col, x, 0, cur);
            && mid.Success? && ReadFields(schema, fs, i, conn, cur) == ReadFields(schema, fs, i + 1, conn, mid.value)
            && WrittenFields(schema, fs, i) == WrittenOperators(col, x, 0) + WrittenFields(schema, fs, i + 1)
            && ConditionKeys(fs, i) == OperatorKeys(x, 0) + ConditionKeys(fs, i + 1)
  {
  }

  lemma OperatorStep(col: string, x: seq<Field>, i: nat, cur: Option<Tree>)
    requires i < |x| && ReadOperators(col, x, i, cur).Success?
    ensures ReadCond(x, x[i].key, x[i].value).Success?
    ensures ReadOperator(col, x, i, cur).Success?
    ensures ReadOperators(col, x, i, cur) == ReadOperators(col, x, i + 1, ReadOperator(col, x, i, cur).value)
  {
  }

  predicate IsSkipped(p: Part) {
    IsBare(p) || (p.body.None? && IsBlank(p.conn))
  }

  lemma ItemStep(schema: Schema, js: seq<Json>, i: nat, conn: string, ps: seq<Part>)
    requires i < |js| && ReadItems(schema, js, i, conn, ps).Success?
    ensures Read(schema, js[i]).Success?
    ensures var p := Read(schema, js[i]).value;
            ReadItems(schema, js, i, conn, ps) ==
            if IsSkipped(p) then ReadItems(schema, js, i + 1, if IsBare(p) then p.conn else conn, ps)
            else ReadItems(schema, js, i + 1, conn, ps + [p])
  {
  }

  // ----- reading keeps the last condition of an object -----

  /** What reading makes of a condition: with IS the qualifier is dropped. */
  function Taken(c: Clause): Clause {
    if c.fact.IsFact? then Clause(c.fact, Success(None)) else c
  }

  function AllTaken(cs: seq<Clause>): seq<Clause> {
    seq(|cs|, i requires 0 <= i < |cs| => Taken(cs[i]))
  }

  lemma TakenSame(cs: seq<Clause>)
    ensures AllTaken(cs) == cs <==> AllPlainIs(cs)
    ensures AllPlainIs(AllTaken(cs))
  {
    forall i | 0 <= i < |cs| ensures AllTaken(cs)[i] == cs[i] <==> PlainIs(cs[i]) {
    }
  }

  lemma TakenBoth(a: seq<Clause>, b: seq<Clause>)
    ensures AllTaken(a + b) == AllTaken(a) + AllTaken(b)
  {
  }

  /** `ws` are the conditions read after `cur`, and `next` is what is left of them. */
  ghost predicate LastOf(ws: seq<Clause>, cur: Option<Tree>, next: Option<Tree>) {
    if ws == [] then next == cur else next.Some? && TreeClauses(next.value) == [Taken(ws[|ws| - 1])]
  }

  lemma LastOfBoth(v: seq<Clause>, ws: seq<Clause>, cur: Option<Tree>, mid: Option<Tree>, next: Option<Tree>)
    requires LastOf(v, cur, mid) && LastOf(ws, mid, next)
    ensures LastOf(v + ws, cur, next)
  {
  }

  lemma OperatorLast(col: string, x: seq<Field>, i: nat, cur: Option<Tree>)
    requires i < |x| && ReadOperator(col, x, i, cur).Success?
    ensures LastOf(WrittenOperator(col, x, i), cur, ReadOperator(col, x, i, cur).value)
    ensures |WrittenOperator(col, x, i)| == if x[i].key in MODIFIERS then 0 else 1
  {
  }

  lemma {:induction false} OperatorsLast(col: string, x: seq<Field>, i: nat, cur: Option<Tree>)
    requires i <= |x| && ReadOperators(col, x, i, cur).Success?
    ensures LastOf(WrittenOperators(col, x, i), cur, ReadOperators(col, x, i, cur).value)
    ensures |WrittenOperators(col, x, i)| == |OperatorKeys(x, i)|
    decreases |x| - i
  {
    if i < |x| {
      OperatorStep(col, x, i, cur);
      OperatorLast(col, x, i, cur);
      var mid := ReadOperator(col, x, i, cur).value;
      OperatorsLast(col, x, i + 1, mid);
      LastOfBoth(WrittenOperator(col, x, i), WrittenOperators(col, x, i + 1), cur, mid,
                 ReadOperators(col, x, i + 1, mid).value);
    }
  }

  lemma {:induction false} FieldsLast(schema: Schema, fs: seq<Field>, i: nat, conn: string, cur: Option<Tree>)
    requires i <= |fs| && ReadFields(schema, fs, i, conn, cur).Success?
    ensures LastOf(WrittenFields(schema, fs, i), cur, ReadFields(schema, fs, i, conn, cur).value.body)
    ensures |WrittenFields(schema, fs, i)| == |ConditionKeys(fs, i)|
    decreases |fs| - i
  {
    if i < |fs| {
      if IsConnectBy(fs[i].key) {
        ConnectorStep(schema, fs, i, conn, cur);
        FieldsLast(schema, fs, i + 1, Upper(fs[i].value.s), cur);
      } else {
        MemberStep(schema, fs, i, conn, cur);
        var col, x := schema(fs[i].key).value, fs[i].value.fields;
        OperatorsLast(col, x, 0, cur);
        var mid := ReadOperators(col, x, 0, cur).value;
        FieldsLast(schema, fs, i + 1, conn, mid);
        LastOfBoth(WrittenOperators(col, x, 0), WrittenFields(schema, fs, i + 1), cur, mid,
                   ReadFields(schema, fs, i + 1, conn, mid).value.body);
      }
    }
  }

  // ----- whole filters -----

  /** `fs` is what is taken of all the written conditions `ws` if `all`, and less otherwise. */
  ghost predicate Keeps(fs: seq<Clause>, ws: seq<Clause>, all: bool) {
    if all then fs == AllTaken(ws) else |fs| < |ws|
  }

  lemma KeepsBoth(a: seq<Clause>, v: seq<Clause>, first: bool, b: seq<Clause>, w: seq<Clause>, rest: bool)
    requires Keeps(a, v, first) && Keeps(b, w, rest)
    ensures Keeps(a + b, v + w, first && rest)
  {
    TakenBoth(v, w);
  }

  lemma {:induction false} FactsSnoc(ps: seq<Part>, p: Part)
    ensures PartsClauses(ps + [p]) == PartsClauses(ps) + BodyClauses(p.body)
    decreases |ps|
  {
    if ps == [] {
      assert [] + [p] == [p] && [p][1..] == [];
    } else {
      FactsSnoc(ps[1..], p);
      assert (ps + [p])[1..] == ps[1..] + [p];
    }
  }

  predicate OneEachFrom(js: seq<Json>, i: nat) {
    forall k | i <= k < |js| :: OneEach(js[k])
  }

  lemma {:induction false} PlainClauses(t: Tree)
    requires Plain(t)
    ensures AllPlainIs(TreeClauses(t))
    decreases t
  {
    if t.Group? {
      PlainPartsClauses(t.parts);
    }
  }

  lemma {:induction false} PlainPartsClauses(ps: seq<Part>)
    requires PlainParts(ps)
    ensures AllPlainIs(PartsClauses(ps))
    decreases ps
  {
    if ps != [] {
      if ps[0].body.Some? {
        PlainClauses(ps[0].body.value);
      }
      PlainPartsClauses(ps[1..]);
      PlainIsBoth(BodyClauses(ps[0].body), PartsClauses(ps[1..]));
    }
  }

  lemma ReadPlainIs(schema: Schema, j: Json)
    requires Read(schema, j).Success?
    ensures AllPlainIs(BodyClauses(Read(schema, j).value.body))
  {
    ReadPlain(schema, j);
    var b := Read(schema, j).value.body;
    if b.Some? {
      PlainClauses(b.value);
    }
  }

  /** The elements of a list add conditions to those of `ps`. */
  lemma {:induction false} ItemsKeep(schema: Schema, js: seq<Json>, i: nat, conn: string, ps: seq<Part>)
    requires i <= |js| && ReadItems(schema, js, i, conn, ps).Success? && AllPlainIs(PartsClauses(ps))
    ensures var b := ReadItems(schema, js, i, conn, ps).value.body;
            && b.Some?
            && Keeps(BodyClauses(b), PartsClauses(ps) + WrittenItems(schema, js, i), OneEachFrom(js, i))
    decreases js, |js| - i
  {
    if i == |js| {
      TakenSame(PartsClauses(ps));
      Joined(PartsClauses(ps), [], []);
    } else {
      ItemStep(schema, js, i, conn, ps);
      var p := Read(schema, js[i]).value;
      ReadKeeps(schema, js[i]);
      WrittenStep(schema, js, i);
      if IsSkipped(p) {
        ItemsKeep(schema, js, i + 1, if IsBare(p) then p.conn else conn, ps);
        assert WrittenItems(schema, js, i) == WrittenItems(schema, js, i + 1);
      } else {
        FactsSnoc(ps, p);
        PlainIsBoth(PartsClauses(ps), BodyClauses(p.body));
        ItemsKeep(schema, js, i + 1, conn, ps + [p]);
        NextKeep(PartsClauses(ps), BodyClauses(p.body), Written(schema, js[i]), OneEach(js[i]),
                 BodyClauses(ReadItems(schema, js, i, conn, ps).value.body), WrittenItems(schema, js, i + 1),
                 OneEachFrom(js, i + 1));
      }
    }
  }

  lemma WrittenStep(schema: Schema, js: seq<Json>, i: nat)
    requires i < |js|
    ensures WrittenItems(schema, js, i) == Written(schema, js[i]) + WrittenItems(schema, js, i + 1)
    ensures OneEachFrom(js, i) <==> OneEach(js[i]) && OneEachFrom(js, i + 1)
  {
  }

  lemma NextKeep(before: seq<Clause>, b: seq<Clause>, w: seq<Clause>, first: bool, fs: seq<Clause>, ws: seq<Clause>, rest: bool)
    requires Keeps(b, w, first) && Keeps(fs, before + b + ws, rest) && AllPlainIs(b)
    ensures Keeps(fs, before + (w + ws), first && rest)
  {
    TakenSame(b);
    TakenBoth(before + b, ws);
    TakenBoth(before, b);
    TakenBoth(before, w + ws);
    TakenBoth(w, ws);
    Joined(AllTaken(before), b, AllTaken(ws));
  }

  /** A filter that is read keeps the conditions written in it, but for the qualifiers of IS, exactly when no object holds
      two. */
  lemma {:induction false} ReadKeeps(schema: Schema, j: Json)
    requires Read(schema, j).Success?
    ensures var b := Read(schema, j).value.body;
            && Keeps(BodyClauses(b), Written(schema, j), OneEach(j)) && AllPlainIs(BodyClauses(b))
            && (b.None? ==> OneEach(j) && Written(schema, j) == [])
    decreases j
  {
    ReadPlainIs(schema, j);
    match j
    case Arr(items) =>
      if items != [] {
        ItemsKeep(schema, items, 0, "", []);
        Joined([], WrittenItems(schema, items, 0), []);
      }
    case Obj(fields) =>
      if fields != [] {
        ObjectKeeps(schema, fields);
      }
    case _ =>
  }

  lemma ObjectKeeps(schema: Schema, fs: seq<Field>)
    requires ReadFields(schema, fs, 0, "", None).Success?
    ensures var b, ws := ReadFields(schema, fs, 0, "", None).value.body, WrittenFields(schema, fs, 0);
            Keeps(BodyClauses(b), ws, |ConditionKeys(fs, 0)| <= 1) && (b.None? ==> ws == [] && |ConditionKeys(fs, 0)| <= 1)
  {
    FieldsLast(schema, fs, 0, "", None);
  }

  // ----- the qualifiers of IS -----

  lemma {:induction false} LookupNone(x: seq<Field>, key: string)
    ensures Lookup(x, key).None? <==> forall i | 0 <= i < |x| :: x[i].key != key
    decreases |x|
  {
    if x != [] {
      LookupNone(x[1..], key);
      assert x == [x[0]] + x[1..];
    }
  }

  /** IS and nothing else makes a condition with IS. */
  lemma IsOf(x: seq<Field>, opr: string, operand: Json)
    requires ReadCond(x, opr, operand).Success?
    ensures var c := ReadCond(x, opr, operand).value; c.Some? && c.value.IsTest? <==> opr == "IS"
  {
  }

  lemma ClausePlain(col: string, c: Option<Cond>, e: Result<Option<string>, Error>)
    ensures AllPlainIs(ClauseOf(col, Success(c), e)) <==> (c.Some? && c.value.IsTest? ==> e == Success(None))
  {
    if c.Some? {
      assert ClauseOf(col, Success(c), e)[0] == Clause(FactOf(col, c.value), e);
    }
  }

  lemma OperatorPlain(col: string, x: seq<Field>, i: nat)
    requires i < |x| && ReadCond(x, x[i].key, x[i].value).Success?
    ensures AllPlainIs(WrittenOperator(col, x, i)) <==> (x[i].key == "IS" ==> ExprIs(x) == Success(None))
  {
    IsOf(x, x[i].key, x[i].value);
    ClausePlain(col, ReadCond(x, x[i].key, x[i].value).value, ExprIs(x));
  }

  /** None of the operators from `i` on is IS, or there is no EXPR_IS. */
  predicate NoIsBeside(x: seq<Field>, i: nat) {
    (forall k | i <= k < |x| :: x[k].key != "IS") || ExprIs(x) == Success(None)
  }

  lemma NoIsStep(x: seq<Field>, i: nat)
    requires i < |x|
    ensures NoIsBeside(x, i) <==> (x[i].key == "IS" ==> ExprIs(x) == Success(None)) && NoIsBeside(x, i + 1)
  {
  }

  lemma WrittenNext(col: string, x: seq<Field>, i: nat)
    requires i < |x|
    ensures AllPlainIs(WrittenOperators(col, x, i)) <==>
            AllPlainIs(WrittenOperator(col, x, i)) && AllPlainIs(WrittenOperators(col, x, i + 1))
  {
    PlainIsBoth(WrittenOperator(col, x, i), WrittenOperators(col, x, i + 1));
  }

  lemma {:induction false} OperatorsPlain(col: string, x: seq<Field>, i: nat, cur: Option<Tree>)
    requires i <= |x| && ReadOperators(col, x, i, cur).Success?
    ensures AllPlainIs(WrittenOperators(col, x, i)) <==> NoIsBeside(x, i)
    decreases |x| - i
  {
    if i < |x| {
      OperatorStep(col, x, i, cur);
      OperatorPlain(col, x, i);
      OperatorsPlain(col, x, i + 1, ReadOperator(col, x, i, cur).value);
      WrittenNext(col, x, i);
      NoIsStep(x, i);
    } else {
      assert WrittenOperators(col, x, i) == [];
    }
  }

  lemma {:induction false} FieldsPlain(schema: Schema, fs: seq<Field>, i: nat, conn: string, cur: Option<Tree>)
    requires i <= |fs| && ReadFields(schema, fs, i, conn, cur).Success?
    ensures AllPlainIs(WrittenFields(schema, fs, i)) <==> IsAloneFrom(fs, i)
    decreases |fs| - i
  {
    if i < |fs| {
      if IsConnectBy(fs[i].key) {
        ConnectorStep(schema, fs, i, conn, cur);
        FieldsPlain(schema, fs, i + 1, Upper(fs[i].value.s), cur);
      } else {
        MemberStep(schema, fs, i, conn, cur);
        var col, x := schema(fs[i].key).value, fs[i].value.fields;
        OperatorsPlain(col, x, 0, cur);
        LookupNone(x, "IS");
        FieldsPlain(schema, fs, i + 1, conn, ReadOperators(col, x, 0, cur).value);
        PlainIsBoth(WrittenOperators(col, x, 0), WrittenFields(schema, fs, i + 1));
      }
    }
  }

  predicate IsAloneBehind(js: seq<Json>, i: nat) {
    forall k | i <= k < |js| :: IsAlone(js[k])
  }

  lemma {:induction false} ItemsPlain(schema: Schema, js: seq<Json>, i: nat, conn: string, ps: seq<Part>)
    requires i <= |js| && ReadItems(schema, js, i, conn, ps).Success?
    ensures AllPlainIs(WrittenItems(schema, js, i)) <==> IsAloneBehind(js, i)
    decreases js, |js| - i
  {
    if i < |js| {
      ItemStep(schema, js, i, conn, ps);
      var p := Read(schema, js[i]).value;
      WrittenPlain(schema, js[i]);
      if IsSkipped(p) {
        ItemsPlain(schema, js, i + 1, if IsBare(p) then p.conn else conn, ps);
      } else {
        ItemsPlain(schema, js, i + 1, conn, ps + [p]);
      }
      PlainIsBoth(Written(schema, js[i]), WrittenItems(schema, js, i + 1));
    }
  }

  /** No written condition with IS is qualified exactly when no operator map holds IS beside EXPR_IS. */
  lemma {:induction false} WrittenPlain(schema: Schema, j: Json)
    requires Read(schema, j).Success?
    ensures AllPlainIs(Written(schema, j)) <==> IsAlone(j)
    decreases j
  {
    match j
    case Arr(items) =>
      if items != [] {
        ItemsPlain(schema, items, 0, "", []);
      }
    case Obj(fields) =>
      if fields != [] {
        FieldsPlain(schema, fields, 0, "", None);
      }
    case _ =>
  }

  /** Every accepted filter keeps its conditions, in order and under their qualifiers, exactly when no object holds two and
      no operator map holds IS beside EXPR_IS. */
  lemma AllWritten(schema: Schema, j: Json)
    requires Read(schema, j).Success?
    ensures BodyClauses(Read(schema, j).value.body) == Written(schema, j) <==> OneEach(j) && IsAlone(j)
  {
    ReadKeeps(schema, j);
    WrittenPlain(schema, j);
    TakenSame(Written(schema, j));
  }

  // ----- reading leaves operands unused -----

  /** The operands a condition has left unused, and whether it has operands itself. */
  predicate NoneLost(cur: Option<Tree>) {
    cur.Some? && cur.value.Leaf? ==> cur.value.lost == []
  }

  predicate NoneHeld(cur: Option<Tree>) {
    cur.Some? && cur.value.Leaf? ==> Operands(cur.value.cond) == []
  }

  /** Operators with `keys` have been read behind `cur`, to `next`. */
  predicate Follows(keys: seq<string>, cur: Option<Tree>, next: Option<Tree>) {
    if keys == [] then next == cur
    else
      && next.Some? && next.value.Leaf?
      && (NoneLost(next) <==> NoneLost(cur) && NoneHeld(cur) && LastHasOperands(keys))
      && (NoneHeld(next) <==> keys[|keys| - 1] == "IS")
  }

  lemma FollowsBoth(a: seq<string>, b: seq<string>, cur: Option<Tree>, mid: Option<Tree>, next: Option<Tree>)
    requires Follows(a, cur, mid) && Follows(b, mid, next)
    ensures Follows(a + b, cur, next)
  {
    if a == [] {
      assert a + b == b;
    } else if b == [] {
      assert a + b == a;
    } else {
      LastBoth(a, b);
    }
  }

  lemma LastBoth(a: seq<string>, b: seq<string>)
    requires a != [] && b != []
    ensures LastHasOperands(a + b) <==> LastHasOperands(a) && a[|a| - 1] == "IS" && LastHasOperands(b)
    ensures (a + b)[|a + b| - 1] == b[|b| - 1]
  {
    var keys := a + b;
    assert forall i | 0 <= i < |a| :: keys[i] == a[i];
    assert forall i | 0 <= i < |b| :: b[i] == keys[|a| + i];
  }

  lemma OperandsOf(x: seq<Field>, opr: string, operand: Json)
    requires var c := ReadCond(x, opr, operand); c.Success? && c.value.Some?
    ensures Operands(ReadCond(x, opr, operand).value.value) == [] <==> opr == "IS"
    ensures opr !in MODIFIERS
  {
  }

  lemma OperatorFollows(col: string, x: seq<Field>, i: nat, cur: Option<Tree>)
    requires i < |x| && ReadOperator(col, x, i, cur).Success? && LeafBody(cur)
    ensures Follows(if x[i].key in MODIFIERS then [] else [x[i].key], cur, ReadOperator(col, x, i, cur).value)
    ensures LeafBody(ReadOperator(col, x, i, cur).value)
  {
    var c := ReadCond(x, x[i].key, x[i].value);
    if c.Success? && c.value.Some? {
      OperandsOf(x, x[i].key, x[i].value);
      HandedNone(cur);
    }
  }

  lemma HandedNone(cur: Option<Tree>)
    ensures Handed(cur) == [] <==> NoneLost(cur) && NoneHeld(cur)
  {
  }

  lemma {:induction false} OperatorsFollow(col: string, x: seq<Field>, i: nat, cur: Option<Tree>)
    requires i <= |x| && ReadOperators(col, x, i, cur).Success? && LeafBody(cur)
    ensures Follows(OperatorKeys(x, i), cur, ReadOperators(col, x, i, cur).value)
    ensures LeafBody(ReadOperators(col, x, i, cur).value)
    decreases |x| - i
  {
    if i < |x| {
      OperatorFollows(col, x, i, cur);
      var mid := ReadOperator(col, x, i, cur).value;
      OperatorsFollow(col, x, i + 1, mid);
      FollowsBoth(if x[i].key in MODIFIERS then [] else [x[i].key], OperatorKeys(x, i + 1), cur, mid,
                  ReadOperators(col, x, i + 1, mid).value);
    }
  }

  lemma {:induction false} FieldsFollow(schema: Schema, fs: seq<Field>, i: nat, conn: string, cur: Option<Tree>)
    requires i <= |fs| && ReadFields(schema, fs, i, conn, cur).Success? && LeafBody(cur)
    ensures Follows(ConditionKeys(fs, i), cur, ReadFields(schema, fs, i, conn, cur).value.body)
    ensures LeafBody(ReadFields(schema, fs, i, conn, cur).value.body)
    decreases |fs| - i
  {
    if i < |fs| {
      if IsConnectBy(fs[i].key) {
        ConnectorStep(schema, fs, i, conn, cur);
        FieldsFollow(schema, fs, i + 1, Upper(fs[i].value.s), cur);
      } else {
        MemberStep(schema, fs, i, conn, cur);
        var col, x := schema(fs[i].key).value, fs[i].value.fields;
        OperatorsFollow(col, x, 0, cur);
        var mid := ReadOperators(col, x, 0, cur).value;
        FieldsFollow(schema, fs, i + 1, conn, mid);
        FollowsBoth(OperatorKeys(x, 0), ConditionKeys(fs, i + 1), cur, mid, ReadFields(schema, fs, i + 1, conn, mid).value.body);
      }
    }
  }

  lemma {:induction false} UnusedSnoc(ps: seq<Part>, p: Part)
    ensures PartsUnused(ps + [p]) == PartsUnused(ps) + PartUnused(p)
    decreases |ps|
  {
    if ps == [] {
      assert [] + [p] == [p] && [p][1..] == [];
    } else {
      UnusedSnoc(ps[1..], p);
      assert (ps + [p])[1..] == ps[1..] + [p];
    }
  }

  predicate OperandsLastFrom(js: seq<Json>, i: nat) {
    forall k | i <= k < |js| :: OperandsLast(js[k])
  }

  lemma {:induction false} ItemsUnused(schema: Schema, js: seq<Json>, i: nat, conn: string, ps: seq<Part>)
    requires i <= |js| && ReadItems(schema, js, i, conn, ps).Success?
    ensures PartUnused(ReadItems(schema, js, i, conn, ps).value) == 0 <==> PartsUnused(ps) == 0 && OperandsLastFrom(js, i)
    decreases js, |js| - i
  {
    if i < |js| {
      ItemStep(schema, js, i, conn, ps);
      var p := Read(schema, js[i]).value;
      ReadUnused(schema, js[i]);
      if IsSkipped(p) {
        ItemsUnused(schema, js, i + 1, if IsBare(p) then p.conn else conn, ps);
      } else {
        ItemsUnused(schema, js, i + 1, conn, ps + [p]);
        UnusedSnoc(ps, p);
      }
    }
  }

  /** Reading uses all operands exactly when no object holds a condition operator with an operand before its last one. */
  lemma {:induction false} ReadUnused(schema: Schema, j: Json)
    requires Read(schema, j).Success?
    ensures PartUnused(Read(schema, j).value) == 0 <==> OperandsLast(j)
    decreases j
  {
    match j
    case Arr(items) =>
      if items != [] {
        ItemsUnused(schema, items, 0, "", []);
      }
    case Obj(fields) =>
      if fields != [] {
        FieldsFollow(schema, fields, 0, "", None);
      }
    case _ =>
  }

  lemma {:induction false} OneEachLast(j: Json)
    requires OneEach(j)
    ensures OperandsLast(j)
    decreases j
  {
    if j.Arr? {
      forall i | 0 <= i < |j.items| ensures OperandsLast(j.items[i]) {
        OneEachLast(j.items[i]);
      }
    }
  }

  // ----- whole statements -----

  lemma RootFacts(p: Part, n: nat, vals: seq<Json>, vs: seq<Json>)
    requires (IsEmpty(p) || RootOk(p)) && vs == PartValues(p) && Bound(vals, n, vs)
    ensures |Clauses(BodyExpr(p.body, n), vals)| == |BodyClauses(p.body)|
    ensures Clauses(BodyExpr(p.body, n), vals) == BodyClauses(p.body) <==> BodyOk(p.body)
    ensures AllPlainIs(BodyClauses(p.body)) ==> AllPlainIs(Clauses(BodyExpr(p.body, n), vals))
  {
    if p.body.Some? {
      FactsKept(p.body.value, n, vals);
      if AllPlainIs(BodyClauses(p.body)) {
        PlainIsKept(p.body.value, n, vals);
      }
    }
  }

  lemma ConditionFacts(p: Part, q: Part, n: nat, m: nat, vals: seq<Json>)
    ensures AuthOk(q) ==>
              Clauses(ConditionExpr(p, q, n, m), vals) == Clauses(BodyExpr(p.body, n), vals) + Clauses(BodyExpr(q.body, m), vals)
  {
    if IsEmpty(q) {
      Joined(Clauses(BodyExpr(p.body, n), vals), [], []);
    }
  }

  /** `a` is tested for the conditions `c` that were read of `v`. */
  lemma Tested(a: seq<Clause>, c: seq<Clause>, v: seq<Clause>, ok: bool)
    requires |a| == |c| && (AllPlainIs(c) ==> AllPlainIs(a)) && c == AllTaken(v)
    requires a == c <==> ok
    ensures a == v <==> AllPlainIs(v) && ok
  {
    TakenSame(v);
  }

  /** `a` and `b` are tested for the conditions `c` and `d` that were read of `v` and `w` that were written. */
  lemma AllTested(a: seq<Clause>, b: seq<Clause>, c: seq<Clause>, d: seq<Clause>, v: seq<Clause>, w: seq<Clause>,
                  okC: bool, okD: bool, allV: bool, allW: bool)
    requires |a| == |c| && |b| == |d| && Keeps(c, v, allV) && Keeps(d, w, allW)
    requires (AllPlainIs(c) ==> AllPlainIs(a)) && (AllPlainIs(d) ==> AllPlainIs(b))
    requires a == c <==> okC
    requires b == d <==> okD
    ensures a + b == v + w <==> allV && allW && AllPlainIs(v) && AllPlainIs(w) && okC && okD
  {
    if allV && allW {
      Tested(a, c, v, okC);
      Tested(b, d, w, okD);
      SameSplit(a, b, v, w);
    }
  }

  /**
   The database tests exactly the conditions written in both filters, in order and each under the EXPR_IS beside it, if
   and only if no object holds two of them, none holds IS beside EXPR_IS, and no JSON path condition gives `silent`
   alone.
   */
  lemma StatementFacts(schema: Schema, select: bool, sets: seq<Json>, data: Json, auth: Json)
    requires ReadBoth(schema, data, auth).Success?
    requires var (p, q) := ReadBoth(schema, data, auth).value; DataOk(select, p) && AuthOk(q)
    ensures var s, (p, q) := Prepared(sets), ReadBoth(schema, data, auth).value;
            var e := Parse(Condition(select, RootText(p, s.Count()), RootText(q, AuthCount(s, p))));
            && e.Some?
            && (Clauses(e.value, AllValues(s, p, q)) == Written(schema, data) + Written(schema, auth) <==>
                  && OneEach(data) && OneEach(auth) && IsAlone(data) && IsAlone(auth)
                  && BodyOk(p.body) && BodyOk(q.body))
  {
    var (p, q) := ReadBoth(schema, data, auth).value;
    ReadPlain(schema, data);
    ReadPlain(schema, auth);
    ReadKeeps(schema, data);
    ReadKeeps(schema, auth);
    WrittenPlain(schema, data);
    WrittenPlain(schema, auth);
    PlainFacts(select, sets, p, q, PartValues(p), PartValues(q), Written(schema, data), Written(schema, auth),
               OneEach(data), OneEach(auth));
  }

  lemma PlainFacts(select: bool, sets: seq<Json>, p: Part, q: Part, vs: seq<Json>, ws: seq<Json>,
                   v: seq<Clause>, w: seq<Clause>, allV: bool, allW: bool)
    requires PlainBody(p.body) && PlainBody(q.body) && vs == PartValues(p) && ws == PartValues(q)
    requires DataOk(select, p) && AuthOk(q) && Keeps(BodyClauses(p.body), v, allV) && Keeps(BodyClauses(q.body), w, allW)
    ensures var s := Prepared(sets);
            var e := Parse(Condition(select, RootText(p, s.Count()), RootText(q, AuthCount(s, p))));
            && e.Some?
            && (Clauses(e.value, AllValues(s, p, q)) == v + w
            <==> allV && allW && AllPlainIs(v) && AllPlainIs(w) && BodyOk(p.body) && BodyOk(q.body))
  {
    NewCounts(sets, p, vs);
    NewValues(sets, p, q, vs, ws);
    ConditionParses(select, p, q, |sets|, |sets| + |vs|);
    BoundBehind(sets, vs, ws);
    PairFacts(p, q, |sets|, sets + vs + ws, vs, ws, v, w, allV, allW);
  }

  lemma PairFacts(p: Part, q: Part, n: nat, vals: seq<Json>, vs: seq<Json>, ws: seq<Json>,
                  v: seq<Clause>, w: seq<Clause>, allV: bool, allW: bool)
    requires (IsEmpty(p) || RootOk(p)) && AuthOk(q) && vs == PartValues(p) && ws == PartValues(q)
    requires Bound(vals, n, vs + ws) && Keeps(BodyClauses(p.body), v, allV) && Keeps(BodyClauses(q.body), w, allW)
    ensures Clauses(ConditionExpr(p, q, n, n + |vs|), vals) == v + w
            <==> allV && allW && AllPlainIs(v) && AllPlainIs(w) && BodyOk(p.body) && BodyOk(q.body)
  {
    BoundSplit(vals, n, vs, ws);
    RootFacts(p, n, vals, vs);
    RootFacts(q, n + |vs|, vals, ws);
    ConditionFacts(p, q, n, n + |vs|, vals);
    AllTested(Clauses(BodyExpr(p.body, n), vals), Clauses(BodyExpr(q.body, n + |vs|), vals),
              BodyClauses(p.body), BodyClauses(q.body), v, w, BodyOk(p.body), BodyOk(q.body), allV, allW);
  }

  /**
   Across SET list and condition the placeholders are 1 to the number of values, each once and in order, if and only if
   no object of either filter holds a condition operator with an operand before its last one.
   */
  lemma StatementNumbering(schema: Schema, cols: seq<string>, sets: seq<Json>, select: bool, data: Json, auth: Json)
    requires |cols| == |sets| && ReadBoth(schema, data, auth).Success?
    ensures var s, (p, q) := Prepared(sets), ReadBoth(schema, data, auth).value;
            var ts := SetList(cols) + Condition(select, RootText(p, s.Count()), RootText(q, AuthCount(s, p)));
            Places(ts) == Numbers(0, |AllValues(s, p, q)|) <==> OperandsLast(data) && OperandsLast(auth)
  {
    var (p, q) := ReadBoth(schema, data, auth).value;
    ReadUnused(schema, data);
    ReadUnused(schema, auth);
    TreeNumbering(cols, sets, select, p, q);
  }

  lemma OneOperator(col: string, x: seq<Field>, cur: Option<Tree>)
    requires |x| == 1
    ensures ReadOperators(col, x, 0, cur) == ReadOperator(col, x, 0, cur)
    ensures WrittenOperators(col, x, 0) == WrittenOperator(col, x, 0)
  {
    var next := ReadOperator(col, x, 0, cur);
    if next.Success? {
      assert ReadOperators(col, x, 1, next.value) == next;
    }
    assert WrittenOperators(col, x, 1) == [];
  }

  /** An object with one condition in each of two members. */
  lemma TwoMembers(schema: Schema, f: Field, g: Field, first: Tree, second: Tree)
    requires !IsConnectBy(f.key) && f.value.Obj? && |f.value.fields| == 1 && schema(f.key).Some?
    requires !IsConnectBy(g.key) && g.value.Obj? && |g.value.fields| == 1 && schema(g.key).Some?
    requires ReadOperator(schema(f.key).value, f.value.fields, 0, None) == Success(Some(first))
    requires ReadOperator(schema(g.key).value, g.value.fields, 0, Some(first)) == Success(Some(second))
    ensures Read(schema, Obj([f, g])) == Success(Part("", Some(second)))
    ensures Written(schema, Obj([f, g])) ==
            WrittenOperator(schema(f.key).value, f.value.fields, 0) + WrittenOperator(schema(g.key).value, g.value.fields, 0)
  {
    OneOperator(schema(f.key).value, f.value.fields, None);
    OneOperator(schema(g.key).value, g.value.fields, Some(first));
    var fs := [f, g];
    assert ReadFields(schema, fs, 2, "", Some(second)) == Success(Part("", Some(second)));
    assert ReadFields(schema, fs, 1, "", Some(first)) == Success(Part("", Some(second)));
    assert WrittenFields(schema, fs, 2) == [];
    assert WrittenFields(schema, fs, 1) == WrittenField(schema, g);
  }

  lemma ReadNull(col: string, cur: Option<Tree>)
    ensures var x := [Field("IS", Str("NULL"))];
            && ReadOperator(col, x, 0, cur) == Success(Some(Leaf(Handed(cur), col, IsTest("NULL"), None)))
            && WrittenOperator(col, x, 0) == [Clause(IsFact(col, "NULL"), Success(None))]
  {
    assert TrimLeft("NULL") == "NULL" && TrimRight("NULL") == "NULL";
    assert Upper("NULL") == "NULL";
    assert MapIsOperand(Str("NULL")) == Success("NULL");
    assert [Field("IS", Str("NULL"))][1..] == [];
    assert Lookup([Field("IS", Str("NULL"))], "EXPR_IS") == Lookup([], "EXPR_IS") == None;
  }

  lemma ReadEqual(col: string, v: int, cur: Option<Tree>)
    ensures var x := [Field("EQ", Num(v))];
            && ReadOperator(col, x, 0, cur) == Success(Some(Leaf(Handed(cur), col, Compare("=", Num(v)), None)))
            && WrittenOperator(col, x, 0) == [Clause(CompareFact(col, "=", Num(v)), Success(None))]
  {
    var x := [Field("EQ", Num(v))];
    assert x[1..] == [];
    assert Lookup(x, "EXPR_IS") == Lookup([], "EXPR_IS") == None;
  }

  /** Two conditions without an operand to lose: the first is gone all the same. */
  lemma FirstOverwritten(schema: Schema)
    requires schema("a") == Some("a") && schema("b") == Some("b")
    ensures var j := Obj([Field("a", Obj([Field("IS", Str("NULL"))])), Field("b", Obj([Field("EQ", Num(1))]))]);
            var t := Leaf([], "b", Compare("=", Num(1)), None);
            && Read(schema, j) == Success(Part("", Some(t)))
            && Connected(t) && PathsOk(t) && Unused(t) == 0
            && Written(schema, j) ==
               [Clause(IsFact("a", "NULL"), Success(None)), Clause(CompareFact("b", "=", Num(1)), Success(None))]
            && TreeClauses(t) == [Clause(CompareFact("b", "=", Num(1)), Success(None))]
  {
    var f, g := Field("a", Obj([Field("IS", Str("NULL"))])), Field("b", Obj([Field("EQ", Num(1))]));
    var t := Leaf([], "a", IsTest("NULL"), None);
    assert Handed(None) == [];
    ReadNull("a", None);
    assert Handed(Some(t)) == [] + [];
    ReadEqual("b", 1, Some(t));
    assert |Upper("a")| == |Upper("b")| == 1;
    TwoMembers(schema, f, g, t, Leaf([], "b", Compare("=", Num(1)), None));
  }

  /** The operand of an overwritten condition is handed over all the same. */
  lemma OperandLost(schema: Schema)
    requires schema("a") == Some("a") && schema("b") == Some("b")
    ensures var j := Obj([Field("a", Obj([Field("EQ", Num(1))])), Field("b", Obj([Field("EQ", Num(2))]))]);
            var t := Leaf([Num(1)], "b", Compare("=", Num(2)), None);
            Read(schema, j) == Success(Part("", Some(t))) && Unused(t) == 1 && !OperandsLast(j)
  {
    var f, g := Field("a", Obj([Field("EQ", Num(1))])), Field("b", Obj([Field("EQ", Num(2))]));
    var first, second := Leaf([], "a", Compare("=", Num(1)), None), Leaf([Num(1)], "b", Compare("=", Num(2)), None);
    assert Handed(None) == [];
    ReadEqual("a", 1, None);
    assert Handed(Some(first)) == [] + [Num(1)] == [Num(1)];
    ReadEqual("b", 2, Some(first));
    assert |Upper("a")| == |Upper("b")| == 1;
    TwoMembers(schema, f, g, first, second);
    ReadUnused(schema, Obj([f, g]));
  }

  /** `silent` without `vars` is taken for `vars`: a filter and a row on which the condition fails. */
  lemma SilentAlone(schema: Schema)
    requires schema("doc") == Some("doc")
    ensures var x := [Field("jsonb_path_exists", Str("p")), Field("silent", Json.Bool(true))];
            var c := JsonPath("jsonb_path_exists", Str("p"), None, Some(Json.Bool(true)));
            var t := Leaf([], "doc", c, None);
            var row := (f: Fact) => if f == FactOf("doc", c) then True else False;
            && Read(schema, Obj([Field("doc", Obj(x))])) == Success(Part("", Some(t)))
            && Connected(t) && Meaning(t, row) == True && Eval(TreeExpr(t, 0), TreeValues(t), row) == False
  {
    var x := [Field("jsonb_path_exists", Str("p")), Field("silent", Json.Bool(true))];
    var c := JsonPath("jsonb_path_exists", Str("p"), None, Some(Json.Bool(true)));
    var t, fs := Leaf([], "doc", c, None), [Field("doc", Obj(x))];
    ReadSilent(x, t);
    assert ReadFields(schema, fs, 1, "", Some(t)) == Success(Part("", Some(t)));
    assert |Upper("doc")| == 3;
    assert [] + Operands(c) == Operands(c);
    PathFacts("doc", c, 0, Operands(c));
  }

  lemma NotTrueText()
    ensures MapIsOperand(Str("NOT TRUE")) == Success("NOT TRUE")
  {
    assert TrimLeft("NOT TRUE") == "NOT TRUE" && TrimRight("NOT TRUE") == "NOT TRUE";
    assert Upper("NOT TRUE") == "NOT TRUE";
  }

  lemma ReadIsQualified(x: seq<Field>, t: Tree)
    requires x == [Field("IS", Str("NULL")), Field("EXPR_IS", Str("NOT TRUE"))] && t == Leaf([], "a", IsTest("NULL"), None)
    ensures ReadOperators("a", x, 0, None) == Success(Some(t)) && OperatorKeys(x, 0) == ["IS"]
    ensures WrittenOperators("a", x, 0) == [Clause(IsFact("a", "NULL"), Success(Some("NOT TRUE")))]
    ensures Lookup(x, "IS").Some? && Lookup(x, "EXPR_IS").Some?
  {
    NotTrueText();
    ReadNull("a", None);
    assert x[1..][0] == x[1];
    assert Lookup(x[1..], "EXPR_IS") == Some(Str("NOT TRUE"));
    assert ExprIs(x) == Success(Some("NOT TRUE"));
    assert ReadOperator("a", x, 0, None) == Success(Some(t)) && ReadOperator("a", x, 1, Some(t)) == Success(Some(t));
    assert ReadOperators("a", x, 2, Some(t)) == Success(Some(t));
    assert ReadOperators("a", x, 1, Some(t)) == Success(Some(t));
    assert WrittenOperators("a", x, 2) == [] && OperatorKeys(x, 2) == [];
    assert WrittenOperator("a", x, 1) == [] && WrittenOperators("a", x, 1) == [] && OperatorKeys(x, 1) == [];
  }

  lemma ReadSilent(x: seq<Field>, t: Tree)
    requires x == [Field("jsonb_path_exists", Str("p")), Field("silent", Json.Bool(true))]
    requires t == Leaf([], "doc", JsonPath("jsonb_path_exists", Str("p"), None, Some(Json.Bool(true))), None)
    ensures ReadOperators("doc", x, 0, None) == Success(Some(t))
  {
    assert x[1..] == [x[1]] && x[1..][1..] == [];
    assert Lookup(x[1..][1..], "vars") == None && Lookup(x[1..][1..], "EXPR_IS") == None;
    assert Lookup(x, "vars") == None && Lookup(x, "silent") == Some(Json.Bool(true)) && Lookup(x, "EXPR_IS") == None;
    assert ReadOperator("doc", x, 0, None) == Success(Some(t));
    assert ReadOperator("doc", x, 1, Some(t)) == Success(Some(t));
    assert ReadOperators("doc", x, 2, Some(t)) == Success(Some(t));
    assert ReadOperators("doc", x, 1, Some(t)) == Success(Some(t));
  }
}

/** What a filter means. */
module FilterMeaning {
  import opened Wrappers
  import opened FilterTree
  import opened Sql
  import opened FilterCompiler
  import opened FilterSyntax

  // And that the SQL it compiles to means the same (backend/cmn/filter.go).

  // ----- the meaning of a tree -----

  function FactOf(col: string, c: Cond): Fact {
    match c
    case Compare(op, v) => CompareFact(col, op, v)
    case IsTest(w) => IsFact(col, w)
    case Regexp(v) => RegexpFact(col, v)
    case In(vs) => InFact(col, vs)
    case Between(op, lo, hi) => BetweenFact(col, op, lo, hi)
    case JsonPath(fn, path, vars, silent) => JsonPathFact(fn, col, path, vars, silent)
  }

  function Qualified(v: Truth, w: Option<string>): Truth {
    match w
    case None => v
    case Some(what) => Is3(v, what)
  }

  /** A list is read from left to right: AND goes on with the current alternative, OR begins the next one. */
  ghost function Meaning(t: Tree, row: Row): Truth {
    match t
    case Leaf(_, col, c, w) => Qualified(row(FactOf(col, c)), w)
    case Group(ps) => if ps == [] then True else Alternatives(ps[1..], False, BodyMeaning(ps[0].body, row), row)
  }

  ghost function BodyMeaning(b: Option<Tree>, row: Row): Truth {
    match b
    case None => True
    case Some(t) => Meaning(t, row)
  }

  /** `done` is the value of the finished alternatives, `current` that of the one being read. */
  ghost function Alternatives(ps: seq<Part>, done: Truth, current: Truth, row: Row): Truth {
    if ps == [] then Or3(done, current)
    else if Trim(ps[0].conn) == "AND" then
      Alternatives(ps[1..], done, And3(current, BodyMeaning(ps[0].body, row)), row)
    else Alternatives(ps[1..], Or3(done, current), BodyMeaning(ps[0].body, row), row)
  }

  // ----- values behind their placeholders -----

  /** The placeholders behind the first `n` stand for `vs`. */
  ghost predicate Bound(vals: seq<Json>, n: nat, vs: seq<Json>) {
    n + |vs| <= |vals| && vals[n..n + |vs|] == vs
  }

  lemma BoundSplit(vals: seq<Json>, n: nat, a: seq<Json>, b: seq<Json>)
    requires Bound(vals, n, a + b)
    ensures Bound(vals, n, a) && Bound(vals, n + |a|, b)
  {
    assert a == (a + b)[..|a|] && b == (a + b)[|a|..];
    assert vals[n..n + |a + b|][..|a|] == vals[n..n + |a|];
    assert vals[n..n + |a + b|][|a|..] == vals[n + |a|..n + |a| + |b|];
  }

  lemma BoundAt(vals: seq<Json>, n: nat, vs: seq<Json>, i: nat)
    requires Bound(vals, n, vs) && i < |vs|
    ensures ValueOf(vals, n + 1 + i) == vs[i]
  {
    assert vals[n..n + |vs|][i] == vs[i];
  }

  // ----- elementary conditions -----

  /** An argument `silent` needs an argument `vars` before it. */
  predicate PathOk(c: Cond) {
    c.JsonPath? && c.silent.Some? ==> c.vars.Some?
  }

  lemma InFacts(col: string, vs: seq<Json>, n: nat, vals: seq<Json>)
    requires Bound(vals, n, vs)
    ensures AtomFact(InAtom(col, Numbers(n, |vs|)), vals) == InFact(col, vs)
  {
    var ps := Numbers(n, |vs|);
    forall i | 0 <= i < |vs| ensures ValueOf(vals, ps[i]) == vs[i] {
      BoundAt(vals, n, vs, i);
    }
    assert seq(|ps|, i requires 0 <= i < |ps| => ValueOf(vals, ps[i])) == vs;
  }

  lemma PathFacts(col: string, c: Cond, n: nat, vals: seq<Json>)
    requires c.JsonPath? && Bound(vals, n, Operands(c))
    ensures AtomFact(AtomOf(col, c, n), vals) ==
            if PathOk(c) then FactOf(col, c) else JsonPathFact(c.fn, col, c.path, c.silent, None)
  {
    var vs := Operands(c);
    forall i | 0 <= i < |vs| ensures ValueOf(vals, Numbers(n, |vs|)[i]) == vs[i] {
      BoundAt(vals, n, vs, i);
    }
  }

  /** A condition keeps its meaning exactly when it does not give `silent` alone to a JSON path function. */
  lemma CondFact(col: string, c: Cond, n: nat, vals: seq<Json>)
    requires Bound(vals, n, Operands(c))
    ensures AtomFact(AtomOf(col, c, n), vals) == FactOf(col, c) <==> PathOk(c)
  {
    match c
    case Compare(_, v) => BoundAt(vals, n, [v], 0);
    case IsTest(_) =>
    case Regexp(v) => BoundAt(vals, n, [v], 0);
    case In(vs) => InFacts(col, vs, n, vals);
    case Between(_, lo, hi) =>
      BoundAt(vals, n, [lo, hi], 0);
      BoundAt(vals, n, [lo, hi], 1);
    case JsonPath(_, _, _, _) => PathFacts(col, c, n, vals);
  }

  predicate PathsOk(t: Tree) {
    match t
    case Leaf(_, _, c, _) => PathOk(c)
    case Group(ps) => PartsOk(ps)
  }

  predicate BodyOk(b: Option<Tree>) {
    match b
    case None => true
    case Some(t) => PathsOk(t)
  }

  predicate PartsOk(ps: seq<Part>) {
    ps == [] || (BodyOk(ps[0].body) && PartsOk(ps[1..]))
  }

  // ----- the compiled condition means what the tree means -----

  lemma LeafMeaning(lost: seq<Json>, col: string, c: Cond, w: Option<string>, n: nat, vals: seq<Json>, row: Row)
    requires PathOk(c) && Bound(vals, n, lost + Operands(c))
    ensures Eval(LeafExpr(col, c, w, n + |lost|), vals, row) == Qualified(row(FactOf(col, c)), w)
  {
    BoundSplit(vals, n, lost, Operands(c));
    CondFact(col, c, n + |lost|, vals);
    assert Eval(Test(AtomOf(col, c, n + |lost|)), vals, row) == row(FactOf(col, c));
  }

  // ----- lists -----

  /** Each element's expression is worth what the element means. */
  ghost predicate Agree(ps: seq<Part>, n: nat, vals: seq<Json>, row: Row) {
    ps == [] ||
    (Eval(BodyExpr(ps[0].body, n), vals, row) == BodyMeaning(ps[0].body, row) &&
     Agree(ps[1..], n + |PartValues(ps[0])|, vals, row))
  }

  lemma Kleene(a: Truth, b: Truth, c: Truth)
    ensures And3(And3(a, b), c) == And3(a, And3(b, c)) && And3(True, a) == a
    ensures Or3(Or3(a, b), c) == Or3(a, Or3(b, c)) && Or3(False, a) == a
  {
  }

  /** Reading on with `ps`, the alternative so far being worth `x`. */
  ghost function ReadOn(ps: seq<Part>, done: Truth, x: Truth, row: Row): Truth
    requires ps != []
  {
    Alternatives(ps[1..], done, And3(x, BodyMeaning(ps[0].body, row)), row)
  }

  lemma ReadOnJoined(ps: seq<Part>, done: Truth, x: Truth, row: Row)
    requires Joins(ps)
    ensures ReadOn(ps, done, x, row) == ReadOn(ps[1..], done, And3(x, BodyMeaning(ps[0].body, row)), row)
  {
    assert ps[1..][0] == ps[1];
  }

  lemma NextAlternative(ps: seq<Part>, done: Truth, x: Truth, row: Row)
    requires ps != [] && Trim(ps[0].conn) != "AND"
    ensures Alternatives(ps, done, x, row) == ReadOn(ps, Or3(done, x), True, row)
  {
    Kleene(BodyMeaning(ps[0].body, row), True, True);
  }

  lemma JoinedRun(ps: seq<Part>, n: nat)
    requires Joins(ps)
    ensures var m := n + |PartValues(ps[0])|;
            && RunExpr(ps, n) == And(BodyExpr(ps[0].body, n), RunExpr(ps[1..], m))
            && AfterRun(ps, n) == AfterRun(ps[1..], m)
  {
  }

  lemma SingleRun(ps: seq<Part>, n: nat)
    requires ps != [] && !Joins(ps)
    ensures RunExpr(ps, n) == BodyExpr(ps[0].body, n) && AfterRun(ps, n) == (ps[1..], n + |PartValues(ps[0])|)
  {
  }

  /** What the AND-run at the head of a list is worth, and how reading goes on behind it. */
  lemma {:induction false} RunMeaning(ps: seq<Part>, n: nat, vals: seq<Json>, row: Row, done: Truth, x: Truth)
    returns (q: seq<Part>, m: nat, y: Truth)
    requires ps != [] && Agree(ps, n, vals, row)
    ensures AfterRun(ps, n) == (q, m) && Eval(RunExpr(ps, n), vals, row) == y
    ensures Agree(q, m, vals, row) && (q != [] ==> Trim(q[0].conn) != "AND")
    ensures ReadOn(ps, done, x, row) == Alternatives(q, done, And3(x, y), row)
    decreases |ps|
  {
    var b, k := BodyMeaning(ps[0].body, row), n + |PartValues(ps[0])|;
    if Joins(ps) {
      q, m, y := RunMeaning(ps[1..], k, vals, row, done, And3(x, b));
      ReadOnJoined(ps, done, x, row);
      Kleene(x, b, y);
      JoinedRun(ps, n);
      y := And3(b, y);
    } else {
      SingleRun(ps, n);
      q, m, y := ps[1..], k, b;
    }
  }

  lemma LastRun(ps: seq<Part>, n: nat)
    requires ps != [] && AfterRun(ps, n).0 == []
    ensures PartsExpr(ps, n) == RunExpr(ps, n)
  {
  }

  lemma RunOrOthers(ps: seq<Part>, n: nat, q: seq<Part>, m: nat)
    requires ps != [] && AfterRun(ps, n) == (q, m) && q != []
    ensures PartsExpr(ps, n) == Or(RunExpr(ps, n), PartsExpr(q, m))
  {
  }

  lemma {:induction false} PartsMeaning(ps: seq<Part>, n: nat, vals: seq<Json>, row: Row, done: Truth)
    requires ps != [] && Agree(ps, n, vals, row)
    ensures ReadOn(ps, done, True, row) == Or3(done, Eval(PartsExpr(ps, n), vals, row))
    decreases |ps|
  {
    var q, m, y := RunMeaning(ps, n, vals, row, done, True);
    Kleene(y, True, True);
    if q == [] {
      LastRun(ps, n);
    } else {
      NextAlternative(q, done, y, row);
      PartsMeaning(q, m, vals, row, Or3(done, y));
      Kleene(done, y, Eval(PartsExpr(q, m), vals, row));
      RunOrOthers(ps, n, q, m);
    }
  }

  // ----- trees -----

  /** Every connected tree that gives no JSON path function `silent` alone is worth what it means. */
  lemma {:induction false} TreeMeaning(t: Tree, n: nat, vals: seq<Json>, row: Row)
    requires Connected(t) && PathsOk(t) && Bound(vals, n, TreeValues(t))
    ensures Eval(TreeExpr(t, n), vals, row) == Meaning(t, row)
    decreases t, 2
  {
    match t
    case Leaf(lost, col, c, w) => LeafMeaning(lost, col, c, w, n, vals, row);
    case Group(ps) =>
      assert TreeValues(t) == PartValues(ps[0]) + PartsValues(ps[1..]);
      PartAgrees(ps[0], n, vals, row, PartsValues(ps[1..]));
      LinkedAgree(ps[1..], n + |PartValues(ps[0])|, vals, row);
      PartsMeaning(ps, n, vals, row, False);
      Kleene(BodyMeaning(ps[0].body, row), True, True);
      Kleene(Eval(PartsExpr(ps, n), vals, row), True, True);
  }

  lemma PartAgrees(p: Part, n: nat, vals: seq<Json>, row: Row, others: seq<Json>)
    requires ConnectedBody(p.body) && BodyOk(p.body) && Bound(vals, n, PartValues(p) + others)
    ensures Eval(BodyExpr(p.body, n), vals, row) == BodyMeaning(p.body, row)
    ensures Bound(vals, n + |PartValues(p)|, others)
    decreases p, 3
  {
    BoundSplit(vals, n, PartValues(p), others);
    TreeMeaning(p.body.value, n, vals, row);
  }

  lemma {:induction false} LinkedAgree(ps: seq<Part>, n: nat, vals: seq<Json>, row: Row)
    requires Linked(ps) && PartsOk(ps) && Bound(vals, n, PartsValues(ps))
    ensures Agree(ps, n, vals, row)
    decreases ps, 1
  {
    if ps != [] {
      PartAgrees(ps[0], n, vals, row, PartsValues(ps[1..]));
      LinkedAgree(ps[1..], n + |PartValues(ps[0])|, vals, row);
    }
  }

  // ----- exactly which trees keep their elementary conditions -----

  /** An elementary condition and the operand of the EXPR_IS that qualifies it. */
  datatype Clause = Clause(fact: Fact, exprIs: Result<Option<string>, Error>)

  /** The elementary conditions of an expression, in order, with the values filled in. */
  ghost function Clauses(e: Expr, vals: seq<Json>): seq<Clause> {
    match e
    case Always => []
    case Test(a) => [Clause(AtomFact(a, vals), Success(None))]
    case IsExpr(x, w) => if x.Test? then [Clause(AtomFact(x.a, vals), Success(Some(w)))] else Clauses(x, vals)
    case Not(x) => Clauses(x, vals)
    case And(l, r) => Clauses(l, vals) + Clauses(r, vals)
    case Or(l, r) => Clauses(l, vals) + Clauses(r, vals)
  }

  ghost function TreeClauses(t: Tree): seq<Clause> {
    match t
    case Leaf(_, col, c, w) => [Clause(FactOf(col, c), Success(w))]
    case Group(ps) => PartsClauses(ps)
  }

  ghost function BodyClauses(b: Option<Tree>): seq<Clause> {
    match b
    case None => []
    case Some(t) => TreeClauses(t)
  }

  ghost function PartsClauses(ps: seq<Part>): seq<Clause> {
    if ps == [] then [] else BodyClauses(ps[0].body) + PartsClauses(ps[1..])
  }

  /** The same for the compiled elements of a list. */
  ghost function CompiledClauses(ps: seq<Part>, n: nat, vals: seq<Json>): seq<Clause> {
    if ps == [] then []
    else Clauses(BodyExpr(ps[0].body, n), vals) + CompiledClauses(ps[1..], n + |PartValues(ps[0])|, vals)
  }

  /** `fs` are the conditions of the run at the head of `ps`; `q` follows it. */
  ghost predicate RunHas(ps: seq<Part>, n: nat, vals: seq<Json>, q: seq<Part>, m: nat, fs: seq<Clause>)
    requires ps != []
  {
    RunIs(ps, n, vals, q, m, fs) && RunSplits(ps, n, vals, q, m, fs)
  }

  ghost predicate RunIs(ps: seq<Part>, n: nat, vals: seq<Json>, q: seq<Part>, m: nat, fs: seq<Clause>)
    requires ps != []
  {
    AfterRun(ps, n) == (q, m) && Clauses(RunExpr(ps, n), vals) == fs
  }

  ghost predicate RunSplits(ps: seq<Part>, n: nat, vals: seq<Json>, q: seq<Part>, m: nat, fs: seq<Clause>) {
    CompiledClauses(ps, n, vals) == fs + CompiledClauses(q, m, vals)
  }

  lemma {:induction false} RunFacts(ps: seq<Part>, n: nat, vals: seq<Json>)
    returns (q: seq<Part>, m: nat, fs: seq<Clause>)
    requires ps != []
    ensures RunHas(ps, n, vals, q, m, fs)
    decreases |ps|
  {
    var first, k := Clauses(BodyExpr(ps[0].body, n), vals), n + |PartValues(ps[0])|;
    if Joins(ps) {
      q, m, fs := RunFacts(ps[1..], k, vals);
      JoinedFacts(ps, n, vals, q, m, first, fs);
      fs := first + fs;
    } else {
      SingleRun(ps, n);
      q, m, fs := ps[1..], k, first;
    }
  }

  lemma AndFacts(l: Expr, r: Expr, vals: seq<Json>)
    ensures Clauses(And(l, r), vals) == Clauses(l, vals) + Clauses(r, vals)
  {
  }

  lemma JoinedFacts(ps: seq<Part>, n: nat, vals: seq<Json>, q: seq<Part>, m: nat, first: seq<Clause>, fs: seq<Clause>)
    requires Joins(ps) && first == Clauses(BodyExpr(ps[0].body, n), vals)
    requires RunHas(ps[1..], n + |PartValues(ps[0])|, vals, q, m, fs)
    ensures RunHas(ps, n, vals, q, m, first + fs)
  {
    var k := n + |PartValues(ps[0])|;
    JoinedIs(ps, n, k, vals, q, m, first, fs);
    JoinedSplits(ps, n, k, vals, q, m, first, fs);
  }

  lemma JoinedIs(ps: seq<Part>, n: nat, k: nat, vals: seq<Json>, q: seq<Part>, m: nat, first: seq<Clause>, fs: seq<Clause>)
    requires Joins(ps) && k == n + |PartValues(ps[0])| && first == Clauses(BodyExpr(ps[0].body, n), vals)
    requires RunIs(ps[1..], k, vals, q, m, fs)
    ensures RunIs(ps, n, vals, q, m, first + fs)
  {
    JoinedRun(ps, n);
    AndFacts(BodyExpr(ps[0].body, n), RunExpr(ps[1..], k), vals);
  }

  lemma JoinedSplits(ps: seq<Part>, n: nat, k: nat, vals: seq<Json>, q: seq<Part>, m: nat, first: seq<Clause>, fs: seq<Clause>)
    requires ps != [] && k == n + |PartValues(ps[0])| && first == Clauses(BodyExpr(ps[0].body, n), vals)
    requires RunSplits(ps[1..], k, vals, q, m, fs)
    ensures RunSplits(ps, n, vals, q, m, first + fs)
  {
    assert CompiledClauses(ps, n, vals) == first + CompiledClauses(ps[1..], k, vals);
    Joined(first, fs, CompiledClauses(q, m, vals));
  }

  lemma {:induction false} ListFacts(ps: seq<Part>, n: nat, vals: seq<Json>)
    requires ps != []
    ensures Clauses(PartsExpr(ps, n), vals) == CompiledClauses(ps, n, vals)
    decreases |ps|
  {
    var q, m, fs := RunFacts(ps, n, vals);
    if q == [] {
      LastRun(ps, n);
      Joined(fs, [], []);
    } else {
      RunOrOthers(ps, n, q, m);
      ListFacts(q, m, vals);
    }
  }

  lemma SameSplit<T>(a: seq<T>, b: seq<T>, c: seq<T>, d: seq<T>)
    requires |a| == |c|
    ensures a + b == c + d <==> a == c && b == d
  {
    if a + b == c + d {
      assert a == (a + b)[..|a|] && b == (a + b)[|a|..];
      assert c == (c + d)[..|c|] && d == (c + d)[|c|..];
    }
  }

  lemma SameBoth<T>(a: seq<T>, b: seq<T>, c: seq<T>, d: seq<T>, first: bool, rest: bool)
    requires |a| == |c| && |b| == |d|
    requires a == c <==> first
    requires b == d <==> rest
    ensures |a + b| == |c + d| && (a + b == c + d <==> first && rest)
  {
    SameSplit(a, b, c, d);
  }

  /** The compiler never qualifies a condition with IS. */
  predicate PlainIs(c: Clause) {
    c.fact.IsFact? ==> c.exprIs == Success(None)
  }

  ghost predicate AllPlainIs(cs: seq<Clause>) {
    forall i | 0 <= i < |cs| :: PlainIs(cs[i])
  }

  lemma PlainIsBoth(a: seq<Clause>, b: seq<Clause>)
    ensures AllPlainIs(a + b) <==> AllPlainIs(a) && AllPlainIs(b)
  {
    assert forall i | 0 <= i < |a| :: (a + b)[i] == a[i];
    assert forall i | 0 <= i < |b| :: (a + b)[|a| + i] == b[i];
  }

  /** The conditions that are decided are plain like those of the tree. */
  lemma {:induction false} PlainIsKept(t: Tree, n: nat, vals: seq<Json>)
    requires Connected(t) && AllPlainIs(TreeClauses(t))
    ensures AllPlainIs(Clauses(TreeExpr(t, n), vals))
    decreases t, 2
  {
    match t
    case Leaf(lost, col, c, w) =>
      assert PlainIs(TreeClauses(t)[0]);
    case Group(ps) =>
      ListFacts(ps, n, vals);
      PlainIsParts(ps, n, vals);
  }

  lemma {:induction false} PlainIsParts(ps: seq<Part>, n: nat, vals: seq<Json>)
    requires ps != [] && ConnectedBody(ps[0].body) && Linked(ps[1..]) && AllPlainIs(PartsClauses(ps))
    ensures AllPlainIs(CompiledClauses(ps, n, vals))
    decreases ps, 1
  {
    var q, m := ps[1..], n + |PartValues(ps[0])|;
    PlainIsBoth(BodyClauses(ps[0].body), PartsClauses(q));
    PlainIsKept(ps[0].body.value, n, vals);
    if q != [] {
      PlainIsParts(q, m, vals);
    }
    PlainIsBoth(Clauses(BodyExpr(ps[0].body, n), vals), CompiledClauses(q, m, vals));
  }

  /** The database decides the elementary conditions of the tree, in order and under their qualifiers, exactly when all
      JSON paths are right. */
  lemma {:induction false} FactsKept(t: Tree, n: nat, vals: seq<Json>)
    requires Connected(t) && Bound(vals, n, TreeValues(t))
    ensures |Clauses(TreeExpr(t, n), vals)| == |TreeClauses(t)|
    ensures Clauses(TreeExpr(t, n), vals) == TreeClauses(t) <==> PathsOk(t)
    decreases t, 2
  {
    match t
    case Leaf(lost, col, c, w) =>
      BoundSplit(vals, n, lost, Operands(c));
      CondFact(col, c, n + |lost|, vals);
    case Group(ps) =>
      ListFacts(ps, n, vals);
      assert TreeValues(t) == PartValues(ps[0]) + PartsValues(ps[1..]);
      FirstFacts(ps, n, vals);
  }

  lemma FirstFacts(ps: seq<Part>, n: nat, vals: seq<Json>)
    requires ps != [] && ConnectedBody(ps[0].body) && Linked(ps[1..])
    requires Bound(vals, n, PartValues(ps[0]) + PartsValues(ps[1..]))
    ensures |CompiledClauses(ps, n, vals)| == |PartsClauses(ps)|
    ensures CompiledClauses(ps, n, vals) == PartsClauses(ps) <==> PartsOk(ps)
    decreases ps, 1
  {
    var p, q, m := ps[0], ps[1..], n + |PartValues(ps[0])|;
    BoundSplit(vals, n, PartValues(p), PartsValues(q));
    FactsKept(p.body.value, n, vals);
    LinkedFacts(q, m, vals);
    var a, b, c, d := Clauses(BodyExpr(p.body, n), vals), CompiledClauses(q, m, vals), BodyClauses(p.body), PartsClauses(q);
    FactsCons(ps, n, vals, a, b, c, d);
    SameBoth(a, b, c, d, BodyOk(p.body), PartsOk(q));
  }

  lemma FactsCons(ps: seq<Part>, n: nat, vals: seq<Json>, a: seq<Clause>, b: seq<Clause>, c: seq<Clause>, d: seq<Clause>)
    requires ps != []
    requires a == Clauses(BodyExpr(ps[0].body, n), vals) && c == BodyClauses(ps[0].body)
    requires b == CompiledClauses(ps[1..], n + |PartValues(ps[0])|, vals) && d == PartsClauses(ps[1..])
    ensures CompiledClauses(ps, n, vals) == a + b && PartsClauses(ps) == c + d
    ensures PartsOk(ps) <==> BodyOk(ps[0].body) && PartsOk(ps[1..])
  {
  }

  lemma {:induction false} LinkedFacts(ps: seq<Part>, n: nat, vals: seq<Json>)
    requires Linked(ps) && Bound(vals, n, PartsValues(ps))
    ensures |CompiledClauses(ps, n, vals)| == |PartsClauses(ps)|
    ensures CompiledClauses(ps, n, vals) == PartsClauses(ps) <==> PartsOk(ps)
    decreases ps, 2
  {
    if ps != [] {
      FirstFacts(ps, n, vals);
    }
  }

  // ----- placeholder numbers -----

  /** The placeholders of a text, in order. */
  ghost function Places(ts: seq<Token>): seq<nat> {
    if ts == [] then [] else Place(ts[0]) + Places(ts[1..])
  }

  ghost function Place(t: Token): seq<nat> {
    if t.Param? then [t.n] else []
  }

  lemma Skip(t: Token, ts: seq<Token>)
    ensures Places([t] + ts) == Place(t) + Places(ts)
  {
    assert ([t] + ts)[1..] == ts;
  }

  lemma {:induction false} PlacesSplit(a: seq<Token>, b: seq<Token>)
    ensures Places(a + b) == Places(a) + Places(b)
    decreases |a|
  {
    if a == [] {
      assert a + b == b;
    } else {
      var t, r := a[0], a[1..];
      PlacesSplit(r, b);
      Skip(t, r);
      Skip(t, r + b);
      assert a == [t] + r && [t] + r + b == [t] + (r + b);
      Joined(Place(t), Places(r), Places(b));
    }
  }

  /** How many operands a tree hands over that no condition of it uses. */
  ghost function Unused(t: Tree): nat {
    match t
    case Leaf(lost, _, _, _) => |lost|
    case Group(ps) => PartsUnused(ps)
  }

  ghost function PartUnused(p: Part): nat {
    match p.body
    case None => 0
    case Some(t) => Unused(t)
  }

  ghost function PartsUnused(ps: seq<Part>): nat {
    if ps == [] then 0 else PartUnused(ps[0]) + PartsUnused(ps[1..])
  }

  lemma {:induction false} NumbersSplit(n: nat, j: nat, k: nat)
    ensures Numbers(n, j) + Numbers(n + j, k) == Numbers(n, j + k)
    decreases j
  {
    if j > 0 {
      NumbersSplit(n + 1, j - 1, k);
    }
  }

  lemma {:induction false} ListPlaces(n: nat, k: nat)
    ensures Places(ParamList(n, k)) == Numbers(n, k)
    decreases k
  {
    if k == 1 {
      assert ParamList(n, 1) == [Param(n + 1)];
      assert Numbers(n + 1, 0) == [];
    } else if k > 1 {
      ListPlaces(n + 1, k - 1);
      Skip(Param(n + 1), [Comma] + ParamList(n + 1, k - 1));
      Skip(Comma, ParamList(n + 1, k - 1));
      assert ParamList(n, k) == [Param(n + 1)] + ([Comma] + ParamList(n + 1, k - 1));
    }
  }

  lemma Ended(ts: seq<Token>, t: Token)
    requires !t.Param?
    ensures Places(ts + [t]) == Places(ts)
  {
    PlacesSplit(ts, [t]);
    assert [t][1..] == [];
    Joined(Places(ts), [], []);
  }

  lemma OpenedList(head: seq<Token>, n: nat, k: nat)
    requires Places(head) == []
    ensures Places(head + ParamList(n, k) + [RPar]) == Numbers(n, k)
  {
    ListPlaces(n, k);
    PlacesSplit(head, ParamList(n, k));
    Ended(head + ParamList(n, k), RPar);
  }

  lemma PlainPlaces(col: string, c: Cond, n: nat)
    ensures Places(PlainTokens(col, c, n)) == Numbers(n, |Operands(c)|)
  {
    match c
    case Compare(op, _) => ComparePlaces(col, op, n);
    case IsTest(w) => IsPlaces(col, w);
    case Regexp(_) => RegexpPlaces(col, n);
    case In(vs) => InPlaces(col, n, |vs|);
    case Between(op, _, _) => BetweenPlaces(col, op, n);
    case JsonPath(fn, _, _, _) =>
      CallPlaces(fn, col);
      OpenedList([Sym(fn), LPar, Col(col), Comma], n, |Operands(c)|);
  }

  lemma ComparePlaces(col: string, op: string, n: nat)
    ensures Places([Col(col), Sym(op), Param(n + 1)]) == Numbers(n, 1)
  {
    ListPlaces(n, 1);
    Skip(Sym(op), ParamList(n, 1));
    Skip(Col(col), [Sym(op)] + ParamList(n, 1));
    assert [Col(col), Sym(op), Param(n + 1)] == [Col(col)] + ([Sym(op)] + ParamList(n, 1));
  }

  lemma IsPlaces(col: string, w: string)
    ensures Places([Col(col), Is(w)]) == []
  {
    Skip(Is(w), []);
    Skip(Col(col), [Is(w)] + []);
    assert [Col(col), Is(w)] == [Col(col)] + ([Is(w)] + []);
  }

  lemma RegexpPlaces(col: string, n: nat)
    ensures Places([Sym("regexp_match"), LPar, Col(col), Comma, Param(n + 1), RPar, Is("NOT NULL")]) == Numbers(n, 1)
  {
    var head := [Sym("regexp_match"), LPar, Col(col), Comma];
    CallPlaces("regexp_match", col);
    OpenedList(head, n, 1);
    Ended(head + ParamList(n, 1) + [RPar], Is("NOT NULL"));
    assert head + ParamList(n, 1) + [RPar] + [Is("NOT NULL")] ==
           [Sym("regexp_match"), LPar, Col(col), Comma, Param(n + 1), RPar, Is("NOT NULL")];
  }

  lemma InPlaces(col: string, n: nat, k: nat)
    ensures Places([Col(col), Sym("IN"), LPar] + ParamList(n, k) + [RPar]) == Numbers(n, k)
  {
    Skip(LPar, []);
    Skip(Sym("IN"), [LPar] + []);
    Skip(Col(col), [Sym("IN")] + ([LPar] + []));
    assert [Col(col), Sym("IN"), LPar] == [Col(col)] + ([Sym("IN")] + ([LPar] + []));
    OpenedList([Col(col), Sym("IN"), LPar], n, k);
  }

  lemma BetweenPlaces(col: string, op: string, n: nat)
    ensures Places([Col(col), Sym(op), Param(n + 1), Conn("AND"), Param(n + 2)]) == Numbers(n, 2)
  {
    var last := [Param(n + 2)];
    Skip(Param(n + 2), []);
    assert last == [Param(n + 2)] + [];
    Skip(Conn("AND"), last);
    ComparePlaces(col, op, n);
    PlacesSplit([Col(col), Sym(op), Param(n + 1)], [Conn("AND")] + last);
    assert [Col(col), Sym(op), Param(n + 1)] + ([Conn("AND")] + last) ==
           [Col(col), Sym(op), Param(n + 1), Conn("AND"), Param(n + 2)];
    assert Numbers(n, 1) == [n + 1] && Numbers(n, 2) == [n + 1, n + 2];
  }

  lemma CallPlaces(fn: string, col: string)
    ensures Places([Sym(fn), LPar, Col(col), Comma]) == []
  {
    Skip(Comma, []);
    Skip(Col(col), [Comma] + []);
    Skip(LPar, [Col(col)] + ([Comma] + []));
    Skip(Sym(fn), [LPar] + ([Col(col)] + ([Comma] + [])));
    assert [Sym(fn), LPar, Col(col), Comma] == [Sym(fn)] + ([LPar] + ([Col(col)] + ([Comma] + [])));
  }

  lemma WrappedPlaces(ts: seq<Token>)
    ensures Places([LPar] + ts + [RPar]) == Places(ts)
  {
    Ended(ts, RPar);
    Skip(LPar, ts + [RPar]);
    assert [LPar] + ts + [RPar] == [LPar] + (ts + [RPar]);
  }

  lemma CondPlaces(col: string, c: Cond, w: Option<string>, n: nat)
    ensures Places(CondTokens(col, c, w, n)) == Numbers(n, |Operands(c)|)
  {
    PlainPlaces(col, c, n);
    if w.Some? {
      var ts := PlainTokens(col, c, n);
      WrappedPlaces(ts);
      Ended([LPar] + ts + [RPar], Is(w.value));
      assert CondTokens(col, c, w, n) == [LPar] + ts + [RPar] + [Is(w.value)];
    }
  }

  /** The placeholders of a tree are all different and numbered in order, without a gap unless an operand is unused. */
  lemma {:induction false} TreePlaces(t: Tree, n: nat)
    ensures Placed(TreeTokens(t, n), n, TreeValues(t), Unused(t))
    decreases t
  {
    match t
    case Leaf(lost, col, c, w) =>
      CondPlaces(col, c, w, n + |lost|);
    case Group(ps) =>
      PartsPlaces(ps, n);
      WrappedPlaces(PartsTokens(ps, n));
  }

  lemma {:induction false} PartPlaces(p: Part, n: nat)
    ensures Placed(PartTokens(p, n), n, PartValues(p), PartUnused(p))
    decreases p
  {
    PlacesSplit(ConnTokens(p.conn), BodyTokens(p.body, n));
    Ended([], Conn(p.conn));
    assert Places(ConnTokens(p.conn)) == [];
    if p.body.Some? {
      TreePlaces(p.body.value, n);
    }
  }

  /** `ts` holds the placeholders behind the first `n` for `vs`, of which `unused` have none. */
  ghost predicate Placed(ts: seq<Token>, n: nat, vs: seq<Json>, unused: nat) {
    && |Places(ts)| + unused == |vs|
    && (unused == 0 ==> Places(ts) == Numbers(n, |vs|))
  }

  lemma PlacedBoth(a: seq<Token>, b: seq<Token>, n: nat, vs: seq<Json>, ws: seq<Json>, j: nat, k: nat)
    requires Placed(a, n, vs, j) && Placed(b, n + |vs|, ws, k)
    ensures Placed(a + b, n, vs + ws, j + k)
  {
    PlacesSplit(a, b);
    NumbersSplit(n, |vs|, |ws|);
  }

  lemma {:induction false} PartsPlaces(ps: seq<Part>, n: nat)
    ensures Placed(PartsTokens(ps, n), n, PartsValues(ps), PartsUnused(ps))
    decreases ps
  {
    if ps == [] {
      assert Numbers(n, 0) == [];
    } else {
      PartPlaces(ps[0], n);
      PartsPlaces(ps[1..], n + |PartValues(ps[0])|);
      PlacedCons(ps[0], ps[1..], n);
      assert ps == [ps[0]] + ps[1..];
    }
  }

  lemma PlacedCons(p: Part, ps: seq<Part>, n: nat)
    requires Placed(PartTokens(p, n), n, PartValues(p), PartUnused(p))
    requires var m := n + |PartValues(p)|; Placed(PartsTokens(ps, m), m, PartsValues(ps), PartsUnused(ps))
    ensures Placed(PartsTokens([p] + ps, n), n, PartsValues([p] + ps), PartsUnused([p] + ps))
  {
    var m := n + |PartValues(p)|;
    PartsCons(p, ps, n);
    assert ([p] + ps)[1..] == ps;
    PlacedBoth(PartTokens(p, n), PartsTokens(ps, m), n, PartValues(p), PartsValues(ps), PartUnused(p), PartsUnused(ps));
  }
}

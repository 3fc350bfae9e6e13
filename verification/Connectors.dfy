/** The text of connectBy. */
module Connectors {
  import opened Wrappers
  import opened FilterTree
  import opened Sql
  import opened FilterCompiler
  import opened FilterSyntax
  import opened FilterMeaning
  import opened Dml
  import opened FilterFacts

  // A connector text is spliced into the condition as it is
  // (backend/cmn/filter.go): what other words than AND and OR do there, and
  // exactly which filters add nothing of their own to the condition.

  // ----- words -----

  lemma {:induction false} WordEndBlank(s: string)
    ensures WordEnd(s + " ") == WordEnd(s)
    decreases |s|
  {
    if s != "" && s[0] != ' ' {
      WordEndBlank(s[1..]);
      assert (s + " ")[1..] == s[1..] + " ";
    }
  }

  lemma {:induction false} WordsBlank(s: string)
    ensures Words(s + " ") == Words(s)
    decreases |s|
  {
    var t := s + " ";
    if s == "" {
      assert t[1..] == "";
    } else if s[0] == ' ' {
      WordsBlank(s[1..]);
      assert t[1..] == s[1..] + " ";
    } else {
      var k := WordEnd(s);
      WordEndBlank(s);
      WordsBlank(s[k..]);
      assert t[..k] == s[..k] && t[k..] == s[k..] + " ";
    }
  }

  lemma {:induction false} WordsTrimLeft(s: string)
    ensures Words(TrimLeft(s)) == Words(s)
    decreases |s|
  {
    if s != "" && s[0] == ' ' {
      WordsTrimLeft(s[1..]);
    }
  }

  lemma {:induction false} WordsTrimRight(s: string)
    ensures Words(TrimRight(s)) == Words(s)
    decreases |s|
  {
    if s != "" && s[|s| - 1] == ' ' {
      var t := s[..|s| - 1];
      WordsTrimRight(t);
      WordsBlank(t);
      assert s == t + " ";
    }
  }

  lemma WordsTrim(s: string)
    ensures Words(Trim(s)) == Words(s)
  {
    WordsTrimLeft(s);
    WordsTrimRight(TrimLeft(s));
  }

  predicate Trimmed(s: string) {
    s != "" ==> s[0] != ' ' && s[|s| - 1] != ' '
  }

  lemma {:induction false} TrimRightEnds(s: string)
    requires s == "" || s[0] != ' '
    ensures Trimmed(TrimRight(s))
    decreases |s|
  {
    if s != "" && s[|s| - 1] == ' ' {
      TrimRightEnds(s[..|s| - 1]);
    }
  }

  lemma TrimTwice(s: string)
    ensures Trimmed(Trim(s)) && Trim(Trim(s)) == Trim(s)
  {
    TrimLeftStarts(s);
    TrimRightEnds(TrimLeft(s));
  }

  /** Text without a word is blank. */
  lemma {:induction false} NoWords(s: string)
    requires Words(s) == [] && s != ""
    ensures s[|s| - 1] == ' '
    decreases |s|
  {
    if s[1..] != "" {
      NoWords(s[1..]);
    }
  }

  lemma SingleHead<T>(a: T, r: seq<T>, w: T)
    requires [a] + r == [w]
    ensures a == w && r == []
  {
    assert ([a] + r)[0] == a && |[a] + r| == 1 + |r|;
  }

  /** A text of one word is that word between blanks. */
  lemma OneWord(s: string, w: string)
    requires Words(s) == [w]
    ensures Trim(s) == w
  {
    WordsTrim(s);
    TrimTwice(s);
    var t := Trim(s);
    var k := WordEnd(t);
    SingleHead(t[..k], Words(t[k..]), w);
    if t[k..] != "" {
      NoWords(t[k..]);
    } else {
      assert t[..k] == t;
    }
  }

  lemma SpreadCons(t: Token, ts: seq<Token>)
    ensures Spread([t] + ts) == Lex(t) + Spread(ts)
  {
    assert ([t] + ts)[1..] == ts;
  }

  lemma {:induction false} SpreadSplit(a: seq<Token>, b: seq<Token>)
    ensures Spread(a + b) == Spread(a) + Spread(b)
    decreases |a|
  {
    if a == [] {
      Joined(b, [], []);
    } else {
      var t, r := a[0], a[1..];
      SpreadSplit(r, b);
      assert a == [t] + r;
      Joined([t], r, b);
      SpreadCons(t, r);
      SpreadCons(t, r + b);
      Joined(Lex(t), Spread(r), Spread(b));
    }
  }

  /** A word in front of others. */
  lemma WordThen(w: string, rest: string)
    requires w != "" && forall i | 0 <= i < |w| :: w[i] != ' '
    ensures Words(w + (" " + rest)) == [w] + Words(rest) && Words(w) == [w]
  {
    var s := w + (" " + rest);
    WordEndIs(w, " " + rest);
    WordEndIs(w, "");
    assert w + "" == w && s[..|w|] == w && s[|w|..] == " " + rest && (" " + rest)[1..] == rest;
    assert w[..|w|] == w && w[|w|..] == "";
  }

  lemma {:induction false} WordEndIs(w: string, rest: string)
    requires (forall i | 0 <= i < |w| :: w[i] != ' ') && (rest == "" || rest[0] == ' ')
    ensures WordEnd(w + rest) == |w|
    decreases |w|
  {
    if w == "" {
      assert w + rest == rest;
    } else {
      WordEndIs(w[1..], rest);
      assert (w + rest)[1..] == w[1..] + rest;
    }
  }

  // ----- NOT -----

  /** The connector of the whole filter is NOT. */
  predicate Negated(p: Part) {
    Words(p.conn) == ["NOT"] && ConnectedBody(p.body)
  }

  ghost function SignedExpr(p: Part, n: nat): Expr {
    if Negated(p) then Not(BodyExpr(p.body, n)) else BodyExpr(p.body, n)
  }

  ghost function SignedMeaning(p: Part, row: Row): Truth {
    if Negated(p) then Not3(BodyMeaning(p.body, row)) else BodyMeaning(p.body, row)
  }

  lemma NotLex(conn: string)
    requires Words(conn) == ["NOT"]
    ensures !IsBlank(conn) && Lex(Conn(conn)) == [Conn("NOT")]
  {
    OneWord(conn, "NOT");
    assert WordTokens(["NOT"]) == [Conn("NOT")] + WordTokens([]);
  }

  /** A text that begins with a connector keeps its brackets. */
  lemma ConnectorRoot(p: Part, n: nat)
    requires !IsBlank(p.conn)
    ensures RootText(p, n) == [Conn(p.conn)] + BodyTokens(p.body, n)
  {
    assert PartTokens(p, n) == [Conn(p.conn)] + BodyTokens(p.body, n);
    assert PartTokens(p, n)[0] == Conn(p.conn);
  }

  lemma NotWord()
    ensures Trim("NOT") == "NOT"
  {
    assert TrimLeft("NOT") == "NOT" && TrimRight("NOT") == "NOT";
  }

  lemma SpreadText(t: Tree, n: nat)
    requires Connected(t)
    ensures Spread(TreeTokens(t, n)) == TreeTokens(t, n)
  {
    ConnectedLinks(t);
    TreeLinking(t, n);
    SpreadLinking(TreeTokens(t, n));
  }

  lemma NegatedText(p: Part, n: nat)
    requires Negated(p)
    ensures Spread(RootText(p, n)) == [Conn("NOT")] + TreeTokens(p.body.value, n)
  {
    var ts := TreeTokens(p.body.value, n);
    NotLex(p.conn);
    SpreadText(p.body.value, n);
    SpreadCons(Conn(p.conn), ts);
    ConnectorRoot(p, n);
  }

  lemma ParseNegated(t: Tree, n: nat, rest: seq<Token>)
    requires Plain(t) && Connected(t) && Closes(rest)
    ensures ParseOr([Conn("NOT")] + TreeTokens(t, n) + rest) == Some((Not(TreeExpr(t, n)), rest))
  {
    var ts, e := TreeTokens(t, n) + rest, TreeExpr(t, n);
    var all := [Conn("NOT")] + ts;
    assert [Conn("NOT")] + TreeTokens(t, n) + rest == all && all[1..] == ts;
    ParseTree(t, n, rest);
    NotWord();
    assert ParsePrimary(all) == Some((Not(e), rest));
    ParseLast(all, Not(e), rest);
    ParseAlternative(all, Not(e), rest);
  }

  /** A whole filter, connected or negated, in front of what ends it. */
  lemma ParseSigned(p: Part, n: nat, rest: seq<Token>)
    requires PlainBody(p.body) && (RootOk(p) || Negated(p)) && Closes(rest)
    ensures ParseOr(Spread(RootText(p, n)) + rest) == Some((SignedExpr(p, n), rest))
  {
    if Negated(p) {
      NegatedText(p, n);
      ParseNegated(p.body.value, n, rest);
    } else {
      ConnectedLinks(p.body.value);
      PartLinking(p, n);
      StripLinking(PartTokens(p, n));
      SpreadLinking(RootText(p, n));
      ParseRoot(p, n, rest);
    }
  }

  lemma ParseDefault(rest: seq<Token>)
    requires Closes(rest)
    ensures ParseOr([Sym("1=1")] + rest) == Some((Always, rest))
  {
    var ts := [Sym("1=1")] + rest;
    assert ts[1..] == rest;
    ParseUnbracketed(ts);
    ParseLast(ts, Always, rest);
    ParseAlternative(ts, Always, rest);
  }

  predicate SignedData(select: bool, p: Part) {
    DataOk(select, p) || Negated(p)
  }

  predicate SignedAuth(q: Part) {
    AuthOk(q) || Negated(q)
  }

  lemma NotBlank(p: Part)
    requires Negated(p)
    ensures !IsBlank(p.conn) && !IsEmpty(p)
  {
    NotLex(p.conn);
  }

  /** The data condition, `1=1` if there is none. */
  lemma SignedOutcome(select: bool, p: Part, n: nat, rest: seq<Token>)
    requires PlainBody(p.body) && SignedData(select, p) && Closes(rest)
    ensures var d := Condition(select, RootText(p, n), []); ParseOr(Spread(d) + rest) == Some((SignedExpr(p, n), rest))
  {
    EmptyRoot(p, n);
    if Negated(p) {
      NotBlank(p);
      ParseSigned(p, n, rest);
    } else if IsEmpty(p) {
      SpreadCons(Sym("1=1"), []);
      Joined([Sym("1=1")], [], []);
      ParseDefault(rest);
    } else {
      ParseSigned(p, n, rest);
    }
  }

  lemma SpreadPair(d: seq<Token>, a: seq<Token>)
    ensures Spread([LPar] + d + [RPar, Conn("AND"), LPar] + a + [RPar]) ==
            [LPar] + Spread(d) + [RPar, Conn("AND"), LPar] + Spread(a) + [RPar]
  {
    var mid := [RPar, Conn("AND"), LPar];
    AndWord();
    assert Linking(mid) && Linking([LPar]) && Linking([RPar]);
    SpreadLinking(mid);
    SpreadLinking([LPar]);
    SpreadLinking([RPar]);
    SpreadSplit([LPar] + d + mid + a, [RPar]);
    SpreadSplit([LPar] + d + mid, a);
    SpreadSplit([LPar] + d, mid);
    SpreadSplit([LPar], d);
  }

  ghost function SignedCondition(p: Part, q: Part, n: nat, m: nat): Expr {
    if IsEmpty(q) then SignedExpr(p, n) else And(SignedExpr(p, n), SignedExpr(q, m))
  }

  lemma SignedParses(select: bool, p: Part, q: Part, n: nat, m: nat)
    requires PlainBody(p.body) && PlainBody(q.body) && SignedData(select, p) && SignedAuth(q)
    ensures Parse(Condition(select, RootText(p, n), RootText(q, m))) == Some(SignedCondition(p, q, n, m))
  {
    var a := RootText(q, m);
    var d := Condition(select, RootText(p, n), []);
    EmptyRoot(q, m);
    if IsEmpty(q) {
      SignedOutcome(select, p, n, []);
      Joined(Spread(d), [], []);
    } else {
      SignedOutcome(select, p, n, [RPar, Conn("AND"), LPar] + Spread(a) + [RPar]);
      ParseSigned(q, m, [RPar]);
      SpreadPair(d, a);
      ParsePair(Spread(d), Spread(a), true, true, SignedExpr(p, n), SignedExpr(q, m));
    }
  }

  lemma SignedRoot(p: Part, n: nat, vals: seq<Json>, row: Row, vs: seq<Json>)
    requires (IsEmpty(p) || RootOk(p) || Negated(p)) && BodyOk(p.body) && vs == PartValues(p) && Bound(vals, n, vs)
    ensures Eval(SignedExpr(p, n), vals, row) == SignedMeaning(p, row)
  {
    if Negated(p) {
      Joined(vs, [], []);
      PartAgrees(p, n, vals, row, []);
    } else {
      RootMeaning(p, n, vals, row, vs);
    }
  }

  /**
   All statements in which the connector of a whole filter may also be NOT: the condition is SQL, and where the
   connector is NOT it tests the opposite of the filter.
   */
  lemma NegatedStatement(schema: Schema, select: bool, sets: seq<Json>, data: Json, auth: Json, row: Row)
    requires ReadBoth(schema, data, auth).Success?
    requires var (p, q) := ReadBoth(schema, data, auth).value;
             SignedData(select, p) && SignedAuth(q) && BodyOk(p.body) && BodyOk(q.body)
    ensures var s, (p, q) := Prepared(sets), ReadBoth(schema, data, auth).value;
            var e := Parse(Condition(select, RootText(p, s.Count()), RootText(q, AuthCount(s, p))));
            e.Some? && Eval(e.value, AllValues(s, p, q), row) == And3(SignedMeaning(p, row), SignedMeaning(q, row))
  {
    var (p, q) := ReadBoth(schema, data, auth).value;
    ReadPlain(schema, data);
    ReadPlain(schema, auth);
    SignedStatement(select, sets, p, q, row, PartValues(p), PartValues(q));
  }

  lemma SignedStatement(select: bool, sets: seq<Json>, p: Part, q: Part, row: Row, vs: seq<Json>, ws: seq<Json>)
    requires PlainBody(p.body) && PlainBody(q.body) && vs == PartValues(p) && ws == PartValues(q)
    requires SignedData(select, p) && SignedAuth(q) && BodyOk(p.body) && BodyOk(q.body)
    ensures var s := Prepared(sets);
            var e := Parse(Condition(select, RootText(p, s.Count()), RootText(q, AuthCount(s, p))));
            e.Some? && Eval(e.value, AllValues(s, p, q), row) == And3(SignedMeaning(p, row), SignedMeaning(q, row))
  {
    NewCounts(sets, p, vs);
    NewValues(sets, p, q, vs, ws);
    SignedParses(select, p, q, |sets|, |sets| + |vs|);
    BoundBehind(sets, vs, ws);
    SignedValue(p, q, |sets|, sets + vs + ws, row, vs, ws);
  }

  lemma SignedValue(p: Part, q: Part, n: nat, vals: seq<Json>, row: Row, vs: seq<Json>, ws: seq<Json>)
    requires (IsEmpty(p) || RootOk(p) || Negated(p)) && SignedAuth(q) && BodyOk(p.body) && BodyOk(q.body)
    requires vs == PartValues(p) && ws == PartValues(q) && Bound(vals, n, vs + ws)
    ensures Eval(SignedCondition(p, q, n, n + |vs|), vals, row) == And3(SignedMeaning(p, row), SignedMeaning(q, row))
  {
    BoundSplit(vals, n, vs, ws);
    SignedRoot(p, n, vals, row, vs);
    SignedRoot(q, n + |vs|, vals, row, ws);
    if IsEmpty(q) && Negated(q) {
      NotBlank(q);
    }
  }

  // ----- OR, a test, OR -----

  lemma OrWord()
    ensures Trim("OR") == "OR"
  {
    assert TrimLeft("OR") == "OR" && TrimRight("OR") == "OR";
  }

  lemma ParseElement(t: Tree, n: nat, rest: seq<Token>)
    requires Plain(t) && Connected(t) && Ends(rest) && (rest == [] || !IsAnd(rest[0]))
    ensures ParseAnd(TreeTokens(t, n) + rest) == Some((TreeExpr(t, n), rest))
  {
    ParseTree(t, n, rest);
    ParseLast(TreeTokens(t, n) + rest, TreeExpr(t, n), rest);
  }

  /** In front of OR the tokens `mid` are the expression `x`. */
  ghost predicate TestOf(mid: seq<Token>, x: Expr) {
    mid != [] && !mid[0].Is? && forall last :: ParsePrimary(mid + BehindOr(last)) == Some((x, BehindOr(last)))
  }

  function BehindOr(last: seq<Token>): seq<Token> {
    [Conn("OR")] + last
  }

  /** `t OR x OR u`. */
  lemma ParseBetweenOrs(t: Tree, mid: seq<Token>, x: Expr, u: Tree, n: nat, m: nat)
    requires Plain(t) && Connected(t) && Plain(u) && Connected(u) && TestOf(mid, x)
    ensures ParseWhole(TreeTokens(t, n) + ([Conn("OR")] + (mid + ([Conn("OR")] + TreeTokens(u, m))))) ==
            Some(Or(TreeExpr(t, n), Or(x, TreeExpr(u, m))))
  {
    var last := TreeTokens(u, m);
    var tail := BehindOr(last);
    OrWord();
    ParseElement(u, m, []);
    Joined(last, [], []);
    ParseAlternative(last, TreeExpr(u, m), []);
    assert tail[1..] == last;
    ParseLast(mid + tail, x, tail);
    ParseDisjunct(mid + tail, x, tail, Some((TreeExpr(u, m), [])));
    var all := [Conn("OR")] + (mid + tail);
    assert all[1..] == mid + tail;
    ParseElement(t, n, all);
    ParseDisjunct(TreeTokens(t, n) + all, TreeExpr(t, n), all, Some((Or(x, TreeExpr(u, m)), [])));
  }

  /** The connector texts OR `mid` OR. */
  lemma SpliceParses(p: Part, q: Part, n: nat, mid: seq<Token>, x: Expr)
    requires PlainPart(p) && IsBlank(p.conn) && ConnectedBody(p.body)
    requires PlainPart(q) && !IsBlank(q.conn) && ConnectedBody(q.body)
    requires Lex(Conn(q.conn)) == [Conn("OR")] + (mid + [Conn("OR")]) && TestOf(mid, x)
    ensures Parse(RootText(Part("", Some(Group([p, q]))), n)) ==
            Some(Or(BodyExpr(p.body, n), Or(x, BodyExpr(q.body, n + |PartValues(p)|))))
  {
    SpliceText(p, q, n, mid);
    ParseBetweenOrs(p.body.value, mid, x, q.body.value, n, n + |PartValues(p)|);
  }

  lemma SpliceText(p: Part, q: Part, n: nat, mid: seq<Token>)
    requires PlainPart(p) && IsBlank(p.conn) && ConnectedBody(p.body)
    requires PlainPart(q) && !IsBlank(q.conn) && ConnectedBody(q.body)
    requires Lex(Conn(q.conn)) == [Conn("OR")] + (mid + [Conn("OR")])
    ensures Spread(RootText(Part("", Some(Group([p, q]))), n)) ==
            TreeTokens(p.body.value, n) +
            ([Conn("OR")] + (mid + ([Conn("OR")] + TreeTokens(q.body.value, n + |PartValues(p)|))))
  {
    TwoElements(p, q, n);
    SpliceTokens(p.body.value, q.conn, mid, q.body.value, n, n + |PartValues(p)|);
  }

  lemma SpliceTokens(t: Tree, conn: string, mid: seq<Token>, u: Tree, n: nat, m: nat)
    requires Connected(t) && Connected(u) && Lex(Conn(conn)) == [Conn("OR")] + (mid + [Conn("OR")])
    ensures Spread(TreeTokens(t, n) + ([Conn(conn)] + TreeTokens(u, m))) ==
            TreeTokens(t, n) + ([Conn("OR")] + (mid + ([Conn("OR")] + TreeTokens(u, m))))
  {
    var a, b := TreeTokens(t, n), TreeTokens(u, m);
    SpreadText(t, n);
    SpreadText(u, m);
    SpreadSplit(a, [Conn(conn)] + b);
    SpreadCons(Conn(conn), b);
    Regrouped([Conn("OR")], mid, b);
  }

  lemma Regrouped<T>(a: seq<T>, mid: seq<T>, b: seq<T>)
    ensures a + (mid + a) + b == a + (mid + (a + b))
  {
  }

  /** With `OR 1=1 OR` before its second element a list is true of every row, whatever its conditions. */
  lemma AlwaysTrue(p: Part, q: Part, n: nat, vals: seq<Json>, row: Row)
    requires PlainPart(p) && IsBlank(p.conn) && ConnectedBody(p.body)
    requires PlainPart(q) && Words(q.conn) == ["OR", "1=1", "OR"] && ConnectedBody(q.body)
    ensures var e := Parse(RootText(Part("", Some(Group([p, q]))), n)); e.Some? && Eval(e.value, vals, row) == True
  {
    LiteralLex(q.conn);
    LiteralTest();
    SpliceParses(p, q, n, [Sym("1=1")], Always);
    AlwaysEval(BodyExpr(p.body, n), BodyExpr(q.body, n + |PartValues(p)|), vals, row);
  }

  lemma LiteralTest()
    ensures TestOf([Sym("1=1")], Always)
  {
    forall last ensures ParsePrimary([Sym("1=1")] + BehindOr(last)) == Some((Always, BehindOr(last))) {
      assert ([Sym("1=1")] + BehindOr(last))[1..] == BehindOr(last);
    }
  }

  lemma AlwaysEval(x: Expr, y: Expr, vals: seq<Json>, row: Row)
    ensures Eval(Or(x, Or(Always, y)), vals, row) == True
  {
    assert Eval(Or(Always, y), vals, row) == True;
  }

  lemma LiteralLex(conn: string)
    requires Words(conn) == ["OR", "1=1", "OR"]
    ensures !IsBlank(conn) && Lex(Conn(conn)) == [Conn("OR")] + ([Sym("1=1")] + [Conn("OR")])
  {
    NotOneWord(conn);
    assert ["OR", "1=1", "OR"][1..] == ["1=1", "OR"] && ["1=1", "OR"][1..] == ["OR"] && ["OR"][1..] == [];
    assert WordTokens(["OR"]) == [Conn("OR")] + WordTokens([]);
    assert WordTokens(["1=1", "OR"]) == [Sym("1=1")] + WordTokens(["OR"]);
  }

  /** Text of several words is neither blank nor AND nor OR. */
  lemma NotOneWord(conn: string)
    requires |Words(conn)| > 1
    ensures !PlainConn(conn)
  {
    WordsTrim(conn);
    AndOrWords();
  }

  lemma AndOrWords()
    ensures Words("") == [] && Words("AND") == ["AND"] && Words("OR") == ["OR"]
  {
    WordThen("AND", "");
    WordThen("OR", "");
  }

  /** With `OR c IS NULL OR` the condition is also true of the rows without a value in column `c`. */
  lemma ColumnSpliced(p: Part, q: Part, c: string, n: nat, vals: seq<Json>, row: Row)
    requires PlainPart(p) && IsBlank(p.conn) && ConnectedBody(p.body)
    requires PlainPart(q) && Words(q.conn) == ["OR", c, "IS", "NULL", "OR"] && IsName(c) && ConnectedBody(q.body)
    requires row(IsFact(c, "NULL")) == True
    ensures var e, m := Parse(RootText(Part("", Some(Group([p, q]))), n)), n + |PartValues(p)|;
            && e == Some(Or(BodyExpr(p.body, n), Or(Test(IsAtom(c, "NULL")), BodyExpr(q.body, m))))
            && Eval(e.value, vals, row) == True
  {
    ColumnLex(q.conn, c);
    ColumnTest(c);
    SpliceParses(p, q, n, [Col(c), Is("NULL")], Test(IsAtom(c, "NULL")));
    NullEval(BodyExpr(p.body, n), c, BodyExpr(q.body, n + |PartValues(p)|), vals, row);
  }

  lemma ColumnTest(c: string)
    ensures TestOf([Col(c), Is("NULL")], Test(IsAtom(c, "NULL")))
  {
    forall last ensures ParsePrimary([Col(c), Is("NULL")] + BehindOr(last)) == Some((Test(IsAtom(c, "NULL")), BehindOr(last))) {
      assert ([Col(c), Is("NULL")] + BehindOr(last))[2..] == BehindOr(last);
    }
  }

  lemma NullEval(x: Expr, c: string, y: Expr, vals: seq<Json>, row: Row)
    requires row(IsFact(c, "NULL")) == True
    ensures Eval(Or(x, Or(Test(IsAtom(c, "NULL")), y)), vals, row) == True
  {
    assert Eval(Test(IsAtom(c, "NULL")), vals, row) == row(IsFact(c, "NULL"));
    assert Eval(Or(Test(IsAtom(c, "NULL")), y), vals, row) == True;
  }

  lemma ColumnLex(conn: string, c: string)
    requires Words(conn) == ["OR", c, "IS", "NULL", "OR"] && IsName(c)
    ensures !IsBlank(conn) && Lex(Conn(conn)) == [Conn("OR")] + ([Col(c), Is("NULL")] + [Conn("OR")])
  {
    NotOneWord(conn);
    var ws := ["OR", c, "IS", "NULL", "OR"];
    var vs := [c, "IS", "NULL", "OR"];
    assert ws[1..] == vs && vs[2..] == ["NULL", "OR"] && vs[3..] == ["OR"] && ["OR"][1..] == [];
    assert IsWords(["NULL", "OR"]) == Some(("NULL", 1));
    assert TestWords(ws) == 0 && TestWords(vs) == 3;
    assert WordTokens(["OR"]) == [Conn("OR")] + WordTokens([]);
    assert WordTokens(vs) == [Col(c), Is("NULL")] + WordTokens(["OR"]);
  }

  lemma TwoElements(p: Part, q: Part, n: nat)
    requires PlainPart(p) && PlainPart(q) && IsBlank(p.conn) && !IsBlank(q.conn) && p.body.Some? && q.body.Some?
    ensures RootText(Part("", Some(Group([p, q]))), n) ==
            TreeTokens(p.body.value, n) + ([Conn(q.conn)] + TreeTokens(q.body.value, n + |PartValues(p)|))
  {
    PairTexts(p, q, n);
    PlainSnoc([], p);
    PlainSnoc([p], q);
    GroupRoot([p, q], n);
    BlankConn(p, n);
  }

  lemma GroupRoot(ps: seq<Part>, n: nat)
    requires ps != [] && PlainParts(ps)
    ensures RootText(Part("", Some(Group(ps))), n) == PartsTokens(ps, n)
  {
    BlankText();
    BlankConn(Part("", Some(Group(ps))), n);
    StripGroup(ps, n);
  }

  lemma PairTexts(p: Part, q: Part, n: nat)
    ensures [] + [p] == [p] && [p] + [q] == [p, q]
    ensures PartsTokens([p, q], n) == PartTokens(p, n) + PartTokens(q, n + |PartValues(p)|)
  {
    PartsCons(p, [q], n);
    PartsCons(q, [], n + |PartValues(p)|);
    assert [q] + [] == [q] && [p] + [q] == [p, q];
    Joined(PartTokens(q, n + |PartValues(p)|), [], []);
  }

  lemma BlankText()
    ensures IsBlank("")
  {
    assert TrimLeft("") == "" && TrimRight("") == "";
  }

  // ----- all of them are accepted -----

  /** `{key: {"EQ": v}, "connectBy": conn}`. */
  function Equal(key: string, v: int, conn: string): Json {
    Obj([Field(key, Obj([Field("EQ", Num(v))])), Field("connectBy", Str(conn))])
  }

  function EqualPart(col: string, v: int, conn: string): Part {
    Part(Upper(conn), Some(Leaf([], col, Compare("=", Num(v)), None)))
  }

  lemma ReadEqualPart(schema: Schema, key: string, v: int, conn: string)
    requires !IsConnectBy(key) && schema(key).Some?
    ensures Read(schema, Equal(key, v, conn)) == Success(EqualPart(schema(key).value, v, conn))
  {
    var col, fs := schema(key).value, Equal(key, v, conn).fields;
    var t := Leaf([], col, Compare("=", Num(v)), None);
    OneOperator(col, fs[0].value.fields, None);
    ReadEqual(col, v, None);
    assert Upper("connectBy") == "CONNECTBY";
    assert ReadFields(schema, fs, 2, Upper(conn), Some(t)) == Success(Part(Upper(conn), Some(t)));
    assert ReadFields(schema, fs, 1, "", Some(t)) == Success(Part(Upper(conn), Some(t)));
  }

  lemma Upped(s: string, u: string)
    requires |s| == |u| && forall i | 0 <= i < |s| :: UpperChar(s[i]) == u[i]
    ensures Upper(s) == u
  {
  }

  /** `{"a": {"EQ": 1}, "connectBy": "NOT"}` is accepted, and tests that `a` is not 1. */
  lemma NotFilter(schema: Schema, select: bool, sets: seq<Json>, row: Row)
    requires schema("a") == Some("a")
    ensures ReadBoth(schema, Equal("a", 1, "NOT"), Json.Null) == Success((EqualPart("a", 1, "NOT"), Part("", None)))
    ensures var s, p, q := Prepared(sets), EqualPart("a", 1, "NOT"), Part("", None);
            var e := Parse(Condition(select, RootText(p, s.Count()), RootText(q, AuthCount(s, p))));
            !RootOk(p) && e.Some? && Eval(e.value, AllValues(s, p, q), row) == Not3(row(CompareFact("a", "=", Num(1))))
  {
    var p, q := EqualPart("a", 1, "NOT"), Part("", None);
    assert |Upper("a")| == 1;
    ReadEqualPart(schema, "a", 1, "NOT");
    NotPart(p);
    BlankText();
    assert SignedMeaning(q, row) == True by {
      AndOrWords();
    }
    NegatedStatement(schema, select, sets, Equal("a", 1, "NOT"), Json.Null, row);
  }

  lemma NotPart(p: Part)
    requires p.conn == Upper("NOT") && ConnectedBody(p.body)
    ensures Negated(p) && !RootOk(p)
  {
    Upped("NOT", "NOT");
    WordThen("NOT", "");
    NotLex("NOT");
  }

  /** Words with blanks between them. */
  function Sentence(ws: seq<string>): string {
    if ws == [] then "" else if |ws| == 1 then ws[0] else ws[0] + (" " + Sentence(ws[1..]))
  }

  predicate IsWord(w: string) {
    w != "" && forall i | 0 <= i < |w| :: w[i] != ' ' && UpperChar(w[i]) == w[i]
  }

  lemma {:induction false} SentenceWords(ws: seq<string>)
    requires forall i | 0 <= i < |ws| :: IsWord(ws[i])
    ensures Words(Sentence(ws)) == ws && (forall i | 0 <= i < |Sentence(ws)| :: UpperChar(Sentence(ws)[i]) == Sentence(ws)[i])
    ensures ws != [] ==> ws[0] <= Sentence(ws)
    decreases |ws|
  {
    if ws != [] {
      assert IsWord(ws[0]);
      SentenceWords(ws[1..]);
      WordThen(ws[0], Sentence(ws[1..]));
      assert ws == [ws[0]] + ws[1..];
    }
  }

  const ALWAYS_WORDS := ["OR", "1=1", "OR"]

  function NullWords(c: string): seq<string> {
    ["OR", c, "IS", "NULL", "OR"]
  }

  ghost function SpliceRoot(ws: seq<string>): Part {
    Part("", Some(Group([EqualPart("a", 1, ""), EqualPart("b", 2, Sentence(ws))])))
  }

  function SpliceFilter(ws: seq<string>): Json {
    Arr([Equal("a", 1, ""), Equal("b", 2, Sentence(ws))])
  }

  /** A list `[{"a": {"EQ": 1}}, {"b": {"EQ": 2}, "connectBy": conn}]` with any words behind an OR is accepted. */
  lemma SpliceAccepted(schema: Schema, ws: seq<string>) returns (p: Part, q: Part)
    requires schema("a") == Some("a") && schema("b") == Some("b")
    requires |ws| > 1 && ws[0] == "OR" && forall i | 0 <= i < |ws| :: IsWord(ws[i])
    ensures Read(schema, SpliceFilter(ws)) == Success(SpliceRoot(ws)) && !RootOk(SpliceRoot(ws))
    ensures SpliceRoot(ws) == Part("", Some(Group([p, q])))
    ensures PlainPart(p) && IsBlank(p.conn) && ConnectedBody(p.body)
    ensures PlainPart(q) && Words(q.conn) == ws && ConnectedBody(q.body)
  {
    var conn := Sentence(ws);
    p, q := EqualPart("a", 1, ""), EqualPart("b", 2, conn);
    assert |Upper("a")| == |Upper("b")| == 1;
    ReadEqualPart(schema, "a", 1, "");
    ReadEqualPart(schema, "b", 2, conn);
    SentenceWords(ws);
    Upped(conn, conn);
    NotOneWord(conn);
    assert conn[0] == ws[0][0] && TrimLeft(conn) == conn;
    ReadPair(schema, Equal("a", 1, ""), Equal("b", 2, conn), p, q);
    NotConnected(p, q);
    Blanks();
    EqualPlain("a", 1, "");
    EqualPlain("b", 2, conn);
  }

  /** With `OR 1=1 OR` it is true of every row. */
  lemma SplicedFilter(schema: Schema, vals: seq<Json>, row: Row)
    requires schema("a") == Some("a") && schema("b") == Some("b")
    ensures var root := SpliceRoot(ALWAYS_WORDS);
            && Read(schema, SpliceFilter(ALWAYS_WORDS)) == Success(root) && !RootOk(root)
            && Parse(RootText(root, 0)).Some? && Eval(Parse(RootText(root, 0)).value, vals, row) == True
  {
    var p, q := SpliceAccepted(schema, ALWAYS_WORDS);
    AlwaysTrue(p, q, 0, vals, row);
  }

  /** With `OR c IS NULL OR`, for a column `c`, it is also true of the rows without a value there. */
  lemma ColumnFilter(schema: Schema, c: string, vals: seq<Json>, row: Row)
    requires schema("a") == Some("a") && schema("b") == Some("b") && IsName(c) && row(IsFact(c, "NULL")) == True
    ensures var root := SpliceRoot(NullWords(c));
            && Read(schema, SpliceFilter(NullWords(c))) == Success(root) && !RootOk(root)
            && Parse(RootText(root, 0)).Some? && Eval(Parse(RootText(root, 0)).value, vals, row) == True
  {
    NullWordsAre(c);
    var p, q := SpliceAccepted(schema, NullWords(c));
    ColumnSpliced(p, q, c, 0, vals, row);
  }

  lemma NullWordsAre(c: string)
    requires IsName(c)
    ensures forall i | 0 <= i < |NullWords(c)| :: IsWord(NullWords(c)[i])
  {
    forall i | 0 <= i < |c| ensures c[i] != ' ' && UpperChar(c[i]) == c[i] {
      assert IsNameChar(c[i]);
    }
  }

  lemma Blanks()
    ensures IsBlank(Upper(""))
  {
    Upped("", "");
    BlankText();
  }

  lemma NotConnected(p: Part, q: Part)
    requires !IsLink(q.conn)
    ensures !RootOk(Part("", Some(Group([p, q]))))
  {
    var ps := [p, q];
    assert ps[1..] == [q] && !Linked([q]);
    assert !Connected(Group(ps));
  }

  lemma EqualPlain(col: string, v: int, conn: string)
    ensures PlainPart(EqualPart(col, v, conn)) && ConnectedBody(EqualPart(col, v, conn).body)
  {
  }

  /** A list of two elements of which the second begins with OR or AND. */
  lemma ReadPair(schema: Schema, x: Json, y: Json, p: Part, q: Part)
    requires Read(schema, x) == Success(p) && Read(schema, y) == Success(q)
    requires p.body.Some? && q.body.Some? && StartsConnected(q)
    ensures Read(schema, Arr([x, y])) == Success(Part("", Some(Group([p, q]))))
  {
    var js := [x, y];
    ReadAdded(schema, js, 0, "", [], p);
    ReadAdded(schema, js, 1, "", [p], q);
    assert [] + [p] == [p] && [p] + [q] == [p, q];
    assert ReadItems(schema, js, 2, "", [p, q]) == Success(Part("", Some(Group([p, q]))));
  }
}

/** Nothing but what was written. */
module ConnectorsExact {
  import opened Wrappers
  import opened FilterTree
  import opened Sql
  import opened FilterCompiler
  import opened FilterSyntax
  import opened FilterMeaning
  import opened Dml
  import opened FilterFacts
  import opened Connectors

  // Exactly which filters make a condition with the tests written in them and
  // nothing else, whatever their connectors say (backend/cmn/filter.go).

  // ----- counting -----

  /** The tests, literals and NOTs of an expression. */
  function Size(e: Expr): nat {
    match e
    case Always => 1
    case Test(_) => 1
    case IsExpr(x, _) => Size(x)
    case Not(x) => 1 + Size(x)
    case And(l, r) => Size(l) + Size(r)
    case Or(l, r) => Size(l) + Size(r)
  }

  /** Each of them has one of these tokens in the text. */
  predicate IsMark(t: Token) {
    IsNot(t) || t == Sym("1=1") || t.Col?
  }

  function Marks(ts: seq<Token>): nat {
    if ts == [] then 0 else (if IsMark(ts[0]) then 1 else 0) + Marks(ts[1..])
  }

  lemma {:induction false} MarksSplit(a: seq<Token>, b: seq<Token>)
    ensures Marks(a + b) == Marks(a) + Marks(b)
    decreases |a|
  {
    if a == [] {
      assert a + b == b;
    } else {
      MarksSplit(a[1..], b);
      assert (a + b)[1..] == a[1..] + b;
    }
  }

  /** A connecting word is NOT, or AND or OR behind something else. */
  predicate Fits(ts: seq<Token>, i: nat)
    requires i < |ts|
  {
    ts[i].Conn? ==> IsNot(ts[i]) || ((IsAnd(ts[i]) || IsOr(ts[i])) && i > 0 && !ts[i - 1].Conn?)
  }

  /** Tokens an expression can consist of. */
  predicate Regular(ts: seq<Token>) {
    ts != [] && !ts[|ts| - 1].Conn? && forall i | 0 <= i < |ts| :: Fits(ts, i)
  }

  /** `e` was read from `ts` up to `rest`: from the tokens `pre`, none of them passed over. */
  ghost predicate Taken(ts: seq<Token>, e: Expr, rest: seq<Token>, pre: seq<Token>) {
    ts == pre + rest && Regular(pre) && Marks(pre) == Size(e)
  }

  ghost predicate Scanned(ts: seq<Token>, r: Option<(Expr, seq<Token>)>, pre: seq<Token>) {
    r.Some? ==> Taken(ts, r.value.0, r.value.1, pre)
  }

  lemma {:induction false} Unmarked(ts: seq<Token>)
    requires forall i | 0 <= i < |ts| :: !IsMark(ts[i])
    ensures Marks(ts) == 0
    decreases |ts|
  {
    if ts != [] {
      Unmarked(ts[1..]);
    }
  }

  /** No word, and no mark but perhaps token `i`. */
  predicate Quiet(ts: seq<Token>, i: nat) {
    forall j | 0 <= j < |ts| :: !ts[j].Conn? && (j != i ==> !IsMark(ts[j]))
  }

  lemma QuietTaken(pre: seq<Token>, i: nat, e: Expr, rest: seq<Token>)
    requires i < |pre| && Quiet(pre, i) && IsMark(pre[i]) && Size(e) == 1
    ensures Taken(pre + rest, e, rest, pre)
  {
    Unmarked(pre[..i]);
    Unmarked(pre[i + 1..]);
    MarksSplit(pre[..i], pre[i..]);
    assert pre == pre[..i] + pre[i..] && pre[i..][1..] == pre[i + 1..];
  }

  /** Placeholders up to a closing bracket: no word and no mark. */
  lemma {:induction false} ParamsScanned(ts: seq<Token>) returns (pre: seq<Token>)
    ensures ParseParams(ts).Some? ==>
              ts == pre + ParseParams(ts).value.1 && forall i | 0 <= i < |pre| :: !pre[i].Conn? && !pre[i].Sym? && !pre[i].Col?
    decreases |ts|
  {
    pre := [];
    if |ts| >= 2 && ts[0].Param? {
      if ts[1].RPar? {
        pre := ts[..2];
      } else if ts[1].Comma? {
        var q := ParamsScanned(ts[2..]);
        pre := ts[..2] + q;
      }
    }
  }

  lemma ColumnScanned(ts: seq<Token>) returns (pre: seq<Token>)
    requires |ts| >= 2 && ts[0].Col?
    ensures Scanned(ts, ParseAtom(ts), pre)
  {
    var r := ParseAtom(ts);
    pre := [];
    if r.Some? {
      var e := r.value.0;
      if ts[1].Is? {
        pre := ts[..2];
        QuietTaken(pre, 0, e, ts[2..]);
      } else if ts[1].text == "IN" {
        var q := ParamsScanned(ts[3..]);
        pre := ts[..3] + q;
        QuietTaken(pre, 0, e, r.value.1);
      } else if ts[1].text in BETWEENS {
        pre := ts[..5];
        BetweenTaken(pre, e, ts[5..]);
      } else {
        pre := ts[..3];
        QuietTaken(pre, 0, e, ts[3..]);
      }
    }
  }

  lemma BetweenTaken(pre: seq<Token>, e: Expr, rest: seq<Token>)
    requires |pre| == 5 && pre[0].Col? && pre[1].Sym? && pre[1].text in BETWEENS && pre[2].Param? && IsAnd(pre[3]) && pre[4].Param?
    requires Size(e) == 1
    ensures Taken(pre + rest, e, rest, pre)
  {
    Unmarked(pre[1..]);
  }

  lemma CallScanned(ts: seq<Token>) returns (pre: seq<Token>)
    requires |ts| >= 4 && ts[0].Sym? && ts[0].text != "1=1" && ts[1].LPar? && ts[2].Col? && ts[3].Comma?
    ensures Scanned(ts, ParseAtom(ts), pre)
  {
    var r := ParseAtom(ts);
    pre := [];
    if r.Some? {
      var q := ParamsScanned(ts[4..]);
      pre := ts[..4] + q;
      if ts[0].text == "regexp_match" {
        var rest := ParseParams(ts[4..]).value.1;
        assert rest == [rest[0]] + rest[1..];
        pre := pre + [rest[0]];
        assert ts == pre + r.value.1;
      }
      QuietTaken(pre, 2, r.value.0, r.value.1);
    }
  }

  lemma AtomScanned(ts: seq<Token>) returns (pre: seq<Token>)
    ensures Scanned(ts, ParseAtom(ts), pre)
  {
    pre := [];
    if |ts| >= 2 && ts[0].Col? {
      pre := ColumnScanned(ts);
    } else if ts != [] && ts[0] == Sym("1=1") {
      pre := ts[..1];
      QuietTaken(pre, 0, Always, ts[1..]);
    } else if ParseAtom(ts).Some? {
      pre := CallScanned(ts);
    }
  }

  lemma FitsBehind(a: seq<Token>, b: seq<Token>, i: nat)
    requires i < |b| && Fits(b, i)
    ensures Fits(a + b, |a| + i)
  {
    if i > 0 {
      assert (a + b)[|a| + i - 1] == b[i - 1];
    }
  }

  /** Two expressions with AND or OR between them. */
  lemma RegularBoth(a: seq<Token>, t: Token, b: seq<Token>)
    requires Regular(a) && Regular(b) && (IsAnd(t) || IsOr(t))
    ensures Regular(a + ([t] + b)) && Marks(a + ([t] + b)) == Marks(a) + Marks(b)
  {
    var ts := a + ([t] + b);
    MarksSplit(a, [t] + b);
    assert ([t] + b)[1..] == b;
    forall i | 0 <= i < |ts| ensures Fits(ts, i) {
      if i < |a| {
        assert Fits(a, i);
      } else if i > |a| {
        FitsBehind(a + [t], b, i - |a| - 1);
        assert a + [t] + b == ts;
      }
    }
  }

  /** A bracket or NOT before an expression, and brackets and IS behind it. */
  lemma RegularInside(t: Token, a: seq<Token>, tail: seq<Token>)
    requires Regular(a) && (t.LPar? || IsNot(t)) && forall i | 0 <= i < |tail| :: tail[i].RPar? || tail[i].Is?
    ensures Regular([t] + (a + tail)) && Marks([t] + (a + tail)) == (if IsMark(t) then 1 else 0) + Marks(a)
  {
    var ts := [t] + (a + tail);
    assert ts[1..] == a + tail;
    MarksSplit(a, tail);
    Unmarked(tail);
    forall i | 0 <= i < |ts| ensures Fits(ts, i) {
      if 0 < i <= |a| {
        FitsBehind([t], a, i - 1);
        assert ts[i] == a[i - 1];
        assert i > 1 ==> ts[i - 1] == a[i - 2];
      }
    }
  }

  lemma TakenBoth(ts: seq<Token>, l: Expr, mid: seq<Token>, a: seq<Token>, r: Expr, rest: seq<Token>, b: seq<Token>, e: Expr)
    returns (pre: seq<Token>)
    requires Taken(ts, l, mid, a) && mid != [] && (IsAnd(mid[0]) || IsOr(mid[0])) && Taken(mid[1..], r, rest, b)
    requires Size(e) == Size(l) + Size(r)
    ensures Taken(ts, e, rest, pre)
  {
    pre := a + ([mid[0]] + b);
    RegularBoth(a, mid[0], b);
    assert mid == [mid[0]] + (b + rest);
    assert a + ([mid[0]] + (b + rest)) == pre + rest;
  }

  lemma TakenInside(ts: seq<Token>, x: Expr, mid: seq<Token>, a: seq<Token>, more: nat, e: Expr) returns (pre: seq<Token>)
    requires ts != [] && (ts[0].LPar? || IsNot(ts[0])) && Taken(ts[1..], x, mid, a)
    requires more <= |mid| && forall i | 0 <= i < more :: mid[i].RPar? || mid[i].Is?
    requires Size(e) == Size(x) + if IsMark(ts[0]) then 1 else 0
    ensures Taken(ts, e, mid[more..], pre)
  {
    pre := [ts[0]] + (a + mid[..more]);
    RegularInside(ts[0], a, mid[..more]);
    assert mid == mid[..more] + mid[more..];
    assert ts == [ts[0]] + (a + mid);
    assert [ts[0]] + (a + (mid[..more] + mid[more..])) == pre + mid[more..];
  }

  lemma {:induction false} PrimaryScanned(ts: seq<Token>) returns (pre: seq<Token>)
    ensures Scanned(ts, ParsePrimary(ts), pre)
    decreases |ts|, 0
  {
    var r := ParsePrimary(ts);
    pre := [];
    if ts != [] && ts[0].LPar? {
      var a := OrScanned(ts[1..]);
      if r.Some? {
        var (x, mid) := ParseOr(ts[1..]).value;
        pre := TakenInside(ts, x, mid, a, |mid| - |r.value.1|, r.value.0);
      }
    } else if ts != [] && IsNot(ts[0]) {
      var a := PrimaryScanned(ts[1..]);
      if r.Some? {
        var (x, mid) := ParsePrimary(ts[1..]).value;
        pre := TakenInside(ts, x, mid, a, 0, r.value.0);
      }
    } else {
      pre := AtomScanned(ts);
    }
  }

  lemma {:induction false} AndScanned(ts: seq<Token>) returns (pre: seq<Token>)
    ensures Scanned(ts, ParseAnd(ts), pre)
    decreases |ts|, 1
  {
    pre := PrimaryScanned(ts);
    var l := ParsePrimary(ts);
    if l.Some? && l.value.1 != [] && IsAnd(l.value.1[0]) {
      var b := AndScanned(l.value.1[1..]);
      var r := ParseAnd(l.value.1[1..]);
      if r.Some? {
        pre := TakenBoth(ts, l.value.0, l.value.1, pre, r.value.0, r.value.1, b, And(l.value.0, r.value.0));
      }
    }
  }

  lemma {:induction false} OrScanned(ts: seq<Token>) returns (pre: seq<Token>)
    ensures Scanned(ts, ParseOr(ts), pre)
    decreases |ts|, 2
  {
    pre := AndScanned(ts);
    var l := ParseAnd(ts);
    if l.Some? && l.value.1 != [] && IsOr(l.value.1[0]) {
      var b := OrScanned(l.value.1[1..]);
      var r := ParseOr(l.value.1[1..]);
      if r.Some? {
        pre := TakenBoth(ts, l.value.0, l.value.1, pre, r.value.0, r.value.1, b, Or(l.value.0, r.value.0));
      }
    }
  }

  /** The same inside a larger text: AND and OR follow no connecting word. */
  predicate Neat(ts: seq<Token>, i: nat)
    requires i < |ts|
  {
    ts[i].Conn? ==> IsNot(ts[i]) || ((IsAnd(ts[i]) || IsOr(ts[i])) && (i > 0 ==> !ts[i - 1].Conn?))
  }

  predicate Tidy(ts: seq<Token>) {
    forall i | 0 <= i < |ts| :: Neat(ts, i)
  }

  lemma WholeScanned(ts: seq<Token>)
    requires ParseWhole(ts).Some?
    ensures Tidy(ts) && Marks(ts) == Size(ParseWhole(ts).value)
  {
    var pre := OrScanned(ts);
    assert pre == ts;
    forall i | 0 <= i < |ts| ensures Neat(ts, i) {
      assert Fits(ts, i);
    }
  }

  lemma TidySplit(a: seq<Token>, b: seq<Token>)
    requires Tidy(a + b)
    ensures Tidy(a) && Tidy(b)
  {
    var ts := a + b;
    forall i | 0 <= i < |a| ensures Neat(a, i) {
      assert Neat(ts, i) && a[i] == ts[i];
    }
    forall i | 0 <= i < |b| ensures Neat(b, i) {
      assert Neat(ts, |a| + i) && b[i] == ts[|a| + i];
      assert i > 0 ==> b[i - 1] == ts[|a| + i - 1];
    }
  }

  // ----- the marks of a text are those of its conditions and of its connectors -----

  lemma PlainMarks(col: string, c: Cond, n: nat)
    requires PlainCond(c)
    ensures Marks(PlainTokens(col, c, n)) == 1
  {
    var ts := PlainTokens(col, c, n);
    match c
    case In(vs) => ListMarks([Col(col), Sym("IN"), LPar], n, |vs|, 0);
    case JsonPath(fn, _, _, _) => ListMarks([Sym(fn), LPar, Col(col), Comma], n, |Operands(c)|, 2);
    case Regexp(_) => QuietMarks(ts, 2);
    case Between(op, _, _) =>
      AndWord();
      Unmarked(ts[1..]);
    case _ => QuietMarks(ts, 0);
  }

  lemma QuietMarks(ts: seq<Token>, i: nat)
    requires i < |ts| && Quiet(ts, i) && IsMark(ts[i])
    ensures Marks(ts) == 1
  {
    QuietTaken(ts, i, Always, []);
  }

  lemma ListMarks(head: seq<Token>, n: nat, k: nat, i: nat)
    requires i < |head| && Quiet(head, i) && IsMark(head[i])
    ensures Marks(head + ParamList(n, k) + [RPar]) == 1
  {
    var ts := head + ParamList(n, k) + [RPar];
    ListQuiet(n, k);
    assert ts[i] == head[i];
    QuietMarks(ts, i);
  }

  lemma {:induction false} ListQuiet(n: nat, k: nat)
    ensures forall j | 0 <= j < |ParamList(n, k)| :: ParamList(n, k)[j].Param? || ParamList(n, k)[j].Comma?
    decreases k
  {
    if k > 1 {
      ListQuiet(n + 1, k - 1);
    }
  }

  lemma CondMarks(col: string, c: Cond, w: Option<string>, n: nat)
    requires PlainCond(c)
    ensures Marks(Spread(CondTokens(col, c, w, n))) == 1
  {
    PlainMarks(col, c, n);
    CondLinking(col, c, w, n);
    SpreadLinking(CondTokens(col, c, w, n));
    if w.Some? {
      var ts := PlainTokens(col, c, n);
      WrappedMarks(ts, [RPar, Is(w.value)]);
      assert CondTokens(col, c, w, n) == [LPar] + ts + [RPar, Is(w.value)];
    }
  }

  /** Brackets and IS around a text have no marks. */
  lemma WrappedMarks(ts: seq<Token>, tail: seq<Token>)
    requires forall i | 0 <= i < |tail| :: tail[i].RPar? || tail[i].Is?
    ensures Marks([LPar] + ts + tail) == Marks(ts)
  {
    MarksSplit([LPar] + ts, tail);
    MarksSplit([LPar], ts);
    Unmarked(tail);
    Unmarked([LPar]);
  }

  /** The marks of the connector texts. */
  ghost function LinkMarks(t: Tree): nat {
    match t
    case Leaf(_, _, _, _) => 0
    case Group(ps) => PartsLinkMarks(ps)
  }

  ghost function ConnMarks(conn: string): nat {
    Marks(Spread(ConnTokens(conn)))
  }

  ghost function PartLinkMarks(p: Part): nat {
    ConnMarks(p.conn) + match p.body case None => 0 case Some(t) => LinkMarks(t)
  }

  ghost function PartsLinkMarks(ps: seq<Part>): nat {
    if ps == [] then 0 else PartLinkMarks(ps[0]) + PartsLinkMarks(ps[1..])
  }

  lemma SpreadWrapped(ts: seq<Token>)
    ensures Spread([LPar] + ts + [RPar]) == [LPar] + Spread(ts) + [RPar]
  {
    SpreadSplit([LPar] + ts, [RPar]);
    SpreadCons(LPar, ts);
    SpreadCons(RPar, []);
    Joined([RPar], [], []);
  }

  lemma {:induction false} TreeMarks(t: Tree, n: nat)
    requires Plain(t)
    ensures Marks(Spread(TreeTokens(t, n))) == |TreeClauses(t)| + LinkMarks(t)
    decreases t
  {
    match t
    case Leaf(lost, col, c, w) => LeafMarks(t, n);
    case Group(ps) =>
      PartsMarks(ps, n);
      SpreadWrapped(PartsTokens(ps, n));
      WrappedMarks(Spread(PartsTokens(ps, n)), [RPar]);
  }

  lemma LeafText(t: Tree, n: nat)
    requires t.Leaf?
    ensures TreeTokens(t, n) == CondTokens(t.col, t.cond, t.exprIs, n + |t.lost|)
    ensures |TreeClauses(t)| == 1 && LinkMarks(t) == 0
  {
  }

  lemma LeafMarks(t: Tree, n: nat)
    requires t.Leaf? && Plain(t)
    ensures Marks(Spread(TreeTokens(t, n))) == |TreeClauses(t)| + LinkMarks(t)
  {
    CondMarks(t.col, t.cond, t.exprIs, n + |t.lost|);
    LeafText(t, n);
  }

  lemma {:induction false} PartMarks(p: Part, n: nat)
    requires PlainBody(p.body)
    ensures Marks(Spread(PartTokens(p, n))) == |BodyClauses(p.body)| + PartLinkMarks(p)
    decreases p
  {
    AddedMarks(PartTokens(p, n), ConnTokens(p.conn), BodyTokens(p.body, n));
    if p.body.Some? {
      TreeMarks(p.body.value, n);
    }
  }

  lemma {:induction false} PartsMarks(ps: seq<Part>, n: nat)
    requires PlainParts(ps)
    ensures Marks(Spread(PartsTokens(ps, n))) == |PartsClauses(ps)| + PartsLinkMarks(ps)
    decreases ps
  {
    if ps != [] {
      var m := n + |PartValues(ps[0])|;
      PartMarks(ps[0], n);
      PartsMarks(ps[1..], m);
      AddedMarks(PartsTokens(ps, n), PartTokens(ps[0], n), PartsTokens(ps[1..], m));
      AddedFacts(ps);
    }
  }

  lemma AddedMarks(ts: seq<Token>, a: seq<Token>, b: seq<Token>)
    requires ts == a + b
    ensures Marks(Spread(ts)) == Marks(Spread(a)) + Marks(Spread(b))
  {
    SpreadSplit(a, b);
    MarksSplit(Spread(a), Spread(b));
  }

  lemma AddedFacts(ps: seq<Part>)
    requires ps != []
    ensures |PartsClauses(ps)| == |BodyClauses(ps[0].body)| + |PartsClauses(ps[1..])|
    ensures PartsLinkMarks(ps) == PartLinkMarks(ps[0]) + PartsLinkMarks(ps[1..])
  {
  }

  // ----- a tidy text whose connectors have no marks has plain connectors -----

  lemma {:induction false} NoMark(ts: seq<Token>, i: nat)
    requires Marks(ts) == 0 && i < |ts|
    ensures !IsMark(ts[i])
    decreases i
  {
    if i > 0 {
      NoMark(ts[1..], i - 1);
    }
  }

  /** Is this the way the tokens of words begin? */
  predicate WordStart(t: Token) {
    t.Conn? || IsMark(t)
  }

  lemma WordShape(ws: seq<string>) returns (t: Token, rest: seq<Token>)
    requires ws != []
    ensures WordTokens(ws) == [t] + rest && WordStart(t)
    ensures t.Conn? ==> t.word == ws[0] && (rest == [] ==> |ws| == 1) && (rest != [] ==> WordStart(rest[0]))
  {
    t, rest := WordTokens(ws)[0], WordTokens(ws)[1..];
    if |ws| > 1 {
      FirstWord(ws[1..]);
    }
  }

  lemma FirstWord(ws: seq<string>)
    requires ws != []
    ensures WordTokens(ws) != [] && WordStart(WordTokens(ws)[0])
  {
  }

  lemma TidyTokens(t: Token, rest: seq<Token>)
    requires Tidy([t] + rest) && Marks([t] + rest) == 0 && WordStart(t)
    requires t.Conn? && rest != [] ==> WordStart(rest[0])
    ensures rest == [] && (IsAnd(t) || IsOr(t))
  {
    var ts := [t] + rest;
    NoMark(ts, 0);
    assert Neat(ts, 0);
    if |ts| >= 2 {
      SecondWord(ts);
    }
  }

  /** Words without a mark are a single AND or OR. */
  lemma TidyWords(ws: seq<string>, ts: seq<Token>)
    requires ws != [] && ts == WordTokens(ws) && Tidy(ts) && Marks(ts) == 0
    ensures |ws| == 1 && (Trim(ws[0]) == "AND" || Trim(ws[0]) == "OR")
  {
    var t, rest := WordShape(ws);
    TidyTokens(t, rest);
  }

  lemma SecondWord(ts: seq<Token>)
    requires Tidy(ts) && Marks(ts) == 0 && |ts| >= 2 && ts[0].Conn?
    ensures !ts[1].Conn? && !IsMark(ts[1])
  {
    NoMark(ts, 1);
    assert Neat(ts, 1);
  }

  lemma TidyConn(conn: string)
    requires Tidy(Spread(ConnTokens(conn))) && ConnMarks(conn) == 0
    ensures PlainConn(conn)
  {
    if !PlainConn(conn) {
      SpreadCons(Conn(conn), []);
      Joined([Conn(conn)], [], []);
      Joined(Lex(Conn(conn)), [], []);
      WordsTrim(conn);
      TrimTwice(conn);
      var ws := Words(conn);
      if ws == [] {
        NoWords(Trim(conn));
      } else {
        TidyWords(ws, WordTokens(ws));
        assert ws == [ws[0]];
        OneWord(conn, ws[0]);
      }
    }
  }

  lemma {:induction false} TidyTree(t: Tree, n: nat)
    requires Tidy(Spread(TreeTokens(t, n))) && LinkMarks(t) == 0
    ensures PlainLinks(t)
    decreases t
  {
    if t.Group? {
      var ts := Spread(PartsTokens(t.parts, n));
      SpreadWrapped(PartsTokens(t.parts, n));
      TidySplit([LPar] + ts, [RPar]);
      TidySplit([LPar], ts);
      TidyParts(t.parts, n);
    }
  }

  lemma {:induction false} TidyPart(p: Part, n: nat)
    requires Tidy(Spread(PartTokens(p, n))) && PartLinkMarks(p) == 0
    ensures PartLinks(p)
    decreases p
  {
    AddedTidy(PartTokens(p, n), ConnTokens(p.conn), BodyTokens(p.body, n));
    TidyConn(p.conn);
    if p.body.Some? {
      TidyTree(p.body.value, n);
    }
  }

  lemma {:induction false} TidyParts(ps: seq<Part>, n: nat)
    requires Tidy(Spread(PartsTokens(ps, n))) && PartsLinkMarks(ps) == 0
    ensures PartsLinks(ps)
    decreases ps
  {
    if ps != [] {
      var m := n + |PartValues(ps[0])|;
      AddedTidy(PartsTokens(ps, n), PartTokens(ps[0], n), PartsTokens(ps[1..], m));
      AddedFacts(ps);
      TidyPart(ps[0], n);
      TidyParts(ps[1..], m);
    }
  }

  lemma AddedTidy(ts: seq<Token>, a: seq<Token>, b: seq<Token>)
    requires ts == a + b && Tidy(Spread(ts))
    ensures Tidy(Spread(a)) && Tidy(Spread(b))
  {
    SpreadSplit(a, b);
    TidySplit(Spread(a), Spread(b));
  }

  /** A whole condition: its brackets count nothing. */
  lemma RootMarks(p: Part, n: nat)
    requires PlainBody(p.body)
    ensures Marks(Spread(RootText(p, n))) == |BodyClauses(p.body)| + PartLinkMarks(p)
    ensures Tidy(Spread(RootText(p, n))) && PartLinkMarks(p) == 0 ==> PartLinks(p)
  {
    var ts := PartTokens(p, n);
    PartMarks(p, n);
    if |ts| > 2 && ts[0].LPar? && ts[|ts| - 1].RPar? {
      var m := Strip(ts);
      assert ts == [LPar] + m + [RPar];
      SpreadWrapped(m);
      WrappedMarks(Spread(m), [RPar]);
      if Tidy(Spread(m)) {
        TidyWrapped(Spread(m));
      }
    }
    if Tidy(Spread(ts)) && PartLinkMarks(p) == 0 {
      TidyPart(p, n);
    }
  }

  lemma TidyWrapped(ts: seq<Token>)
    requires Tidy(ts)
    ensures Tidy([LPar] + ts + [RPar])
  {
    var all := [LPar] + ts + [RPar];
    forall i | 0 <= i < |all| ensures Neat(all, i) {
      if 0 < i < |all| - 1 {
        assert Neat(ts, i - 1) && all[i] == ts[i - 1];
        assert i > 1 ==> all[i - 1] == ts[i - 2];
      }
    }
  }

  // ----- the size of the expression of a connected filter -----

  /** The literals and NOTs of an expression; its tests are counted by its facts. */
  function Extras(e: Expr): nat {
    match e
    case Always => 1
    case Test(_) => 0
    case IsExpr(x, _) => Extras(x)
    case Not(x) => 1 + Extras(x)
    case And(l, r) => Extras(l) + Extras(r)
    case Or(l, r) => Extras(l) + Extras(r)
  }

  lemma {:induction false} SizeIs(e: Expr, vals: seq<Json>)
    ensures Size(e) == |Clauses(e, vals)| + Extras(e)
    decreases e
  {
    match e
    case Always =>
    case Test(_) =>
    case IsExpr(x, _) => SizeIs(x, vals);
    case Not(x) => SizeIs(x, vals);
    case And(l, r) =>
      SizeIs(l, vals);
      SizeIs(r, vals);
    case Or(l, r) =>
      SizeIs(l, vals);
      SizeIs(r, vals);
  }

  lemma {:induction false} TreeExtras(t: Tree, n: nat)
    requires Plain(t) && Connected(t)
    ensures Extras(TreeExpr(t, n)) == 0
    decreases t, 2
  {
    if t.Group? {
      PartsExtras(t.parts, n);
    }
  }

  /** Every element's expression has no NOT and no literal. */
  ghost predicate NoExtras(ps: seq<Part>, n: nat) {
    ps == [] || (Extras(BodyExpr(ps[0].body, n)) == 0 && NoExtras(ps[1..], n + |PartValues(ps[0])|))
  }

  lemma {:induction false} LinkedExtras(ps: seq<Part>, n: nat)
    requires PlainParts(ps) && Linked(ps)
    ensures NoExtras(ps, n)
    decreases ps, 0
  {
    if ps != [] {
      TreeExtras(ps[0].body.value, n);
      LinkedExtras(ps[1..], n + |PartValues(ps[0])|);
    }
  }

  lemma {:induction false} RunExtras(ps: seq<Part>, n: nat)
    requires ps != [] && NoExtras(ps, n)
    ensures Extras(RunExpr(ps, n)) == 0 && NoExtras(AfterRun(ps, n).0, AfterRun(ps, n).1)
    decreases |ps|
  {
    if Joins(ps) {
      RunExtras(ps[1..], n + |PartValues(ps[0])|);
      JoinedRun(ps, n);
    } else {
      SingleRun(ps, n);
    }
  }

  lemma {:induction false} ListExtras(ps: seq<Part>, n: nat)
    requires ps != [] && NoExtras(ps, n)
    ensures Extras(PartsExpr(ps, n)) == 0
    decreases |ps|
  {
    var (q, m) := AfterRun(ps, n);
    RunExtras(ps, n);
    if q == [] {
      LastRun(ps, n);
    } else {
      ListExtras(q, m);
      RunOrOthers(ps, n, q, m);
    }
  }

  lemma PartsExtras(ps: seq<Part>, n: nat)
    requires PlainParts(ps) && Connected(Group(ps))
    ensures Extras(PartsExpr(ps, n)) == 0
    decreases ps, 1
  {
    TreeExtras(ps[0].body.value, n);
    LinkedExtras(ps[1..], n + |PartValues(ps[0])|);
    ListExtras(ps, n);
  }

  /** The literal a condition may have: `1=1` for a SELECT without a data filter. */
  function DefaultLiteral(select: bool, p: Part): nat {
    if select && IsEmpty(p) then 1 else 0
  }

  /** As many tests as both filters have conditions, and nothing else. */
  ghost predicate Exactly(e: Option<Expr>, select: bool, p: Part, q: Part) {
    e.Some? && Size(e.value) == |BodyClauses(p.body)| + |BodyClauses(q.body)| + DefaultLiteral(select, p)
  }

  lemma OkExtras(select: bool, p: Part, q: Part, n: nat, m: nat)
    requires PlainBody(p.body) && PlainBody(q.body) && DataOk(select, p) && AuthOk(q)
    ensures Extras(ConditionExpr(p, q, n, m)) == DefaultLiteral(select, p)
  {
    if p.body.Some? {
      TreeExtras(p.body.value, n);
    }
    if q.body.Some? {
      TreeExtras(q.body.value, m);
    }
  }

  lemma OkSize(select: bool, p: Part, q: Part, n: nat, vs: seq<Json>, ws: seq<Json>)
    requires PlainBody(p.body) && PlainBody(q.body) && DataOk(select, p) && AuthOk(q)
    requires vs == PartValues(p) && ws == PartValues(q)
    ensures Exactly(Some(ConditionExpr(p, q, n, n + |vs|)), select, p, q)
  {
    var before := seq(n, _ => Json.Null);
    var vals := before + vs + ws;
    BoundBehind(before, vs, ws);
    BoundSplit(vals, n, vs, ws);
    RootFacts(p, n, vals, vs);
    RootFacts(q, n + |vs|, vals, ws);
    ConditionFacts(p, q, n, n + |vs|, vals);
    OkExtras(select, p, q, n, n + |vs|);
    SizeIs(ConditionExpr(p, q, n, n + |vs|), vals);
  }

  // ----- whole statements -----

  /** The two texts of a condition: tidy, and their marks add up. */
  lemma BothMarks(d: seq<Token>, a: seq<Token>)
    requires Tidy(Spread(Condition(false, d, a)))
    ensures Tidy(Spread(d)) && Tidy(Spread(a))
    ensures Marks(Spread(Condition(false, d, a))) == Marks(Spread(d)) + Marks(Spread(a))
  {
    if a != [] {
      var mid := [RPar, Conn("AND"), LPar];
      AndWord();
      assert Condition(false, d, a) == [LPar] + (d + (mid + (a + [RPar])));
      SpreadFour(d, mid, a);
      var x, y := Spread(d), Spread(a);
      assert Spread(mid) == mid;
      FourMarks(x, mid, y);
      TidySplit([LPar], x + (mid + (y + [RPar])));
      TidySplit(x, mid + (y + [RPar]));
      TidySplit(mid, y + [RPar]);
      TidySplit(y, [RPar]);
    }
  }

  lemma SpreadFour(d: seq<Token>, mid: seq<Token>, a: seq<Token>)
    ensures Spread([LPar] + (d + (mid + (a + [RPar])))) == [LPar] + (Spread(d) + (Spread(mid) + (Spread(a) + [RPar])))
  {
    SpreadCons(LPar, d + (mid + (a + [RPar])));
    SpreadSplit(d, mid + (a + [RPar]));
    SpreadSplit(mid, a + [RPar]);
    SpreadSplit(a, [RPar]);
    SpreadCons(RPar, []);
    Joined([RPar], [], []);
  }

  lemma FourMarks(x: seq<Token>, mid: seq<Token>, y: seq<Token>)
    requires Marks(mid) == 0
    ensures Marks([LPar] + (x + (mid + (y + [RPar])))) == Marks(x) + Marks(y)
  {
    MarksSplit([LPar], x + (mid + (y + [RPar])));
    MarksSplit(x, mid + (y + [RPar]));
    MarksSplit(mid, y + [RPar]);
    MarksSplit(y, [RPar]);
    assert [LPar][1..] == [] && [RPar][1..] == [];
  }

  /** A condition that is SQL with nothing of its own has plain connectors. */
  lemma ExactLinks(select: bool, p: Part, q: Part, n: nat, m: nat)
    requires PlainBody(p.body) && PlainBody(q.body)
    requires Exactly(Parse(Condition(select, RootText(p, n), RootText(q, m))), select, p, q)
    ensures PartLinks(p) && PartLinks(q)
  {
    var d, a := RootText(p, n), RootText(q, m);
    EmptyRoot(p, n);
    WholeScanned(Spread(Condition(select, d, a)));
    RootMarks(p, n);
    RootMarks(q, m);
    if select && d == [] {
      BothMarks([Sym("1=1")], a);
      SpreadCons(Sym("1=1"), []);
      Joined([Sym("1=1")], [], []);
      assert Marks([Sym("1=1")]) == 1;
    } else {
      BothMarks(d, a);
    }
  }

  lemma ExactCondition(select: bool, p: Part, q: Part, n: nat, m: nat)
    requires PlainBody(p.body) && PlainBody(q.body) && m == n + |PartValues(p)|
    ensures Exactly(Parse(Condition(select, RootText(p, n), RootText(q, m))), select, p, q)
            <==> DataOk(select, p) && AuthOk(q)
  {
    if DataOk(select, p) && AuthOk(q) {
      ConnectedExact(select, p, q, n, m);
    } else if Exactly(Parse(Condition(select, RootText(p, n), RootText(q, m))), select, p, q) {
      ExactConnected(select, p, q, n, m);
    }
  }

  lemma ConnectedExact(select: bool, p: Part, q: Part, n: nat, m: nat)
    requires PlainBody(p.body) && PlainBody(q.body) && m == n + |PartValues(p)| && DataOk(select, p) && AuthOk(q)
    ensures Exactly(Parse(Condition(select, RootText(p, n), RootText(q, m))), select, p, q)
  {
    ConditionParses(select, p, q, n, m);
    OkSize(select, p, q, n, PartValues(p), PartValues(q));
  }

  lemma ExactConnected(select: bool, p: Part, q: Part, n: nat, m: nat)
    requires PlainBody(p.body) && PlainBody(q.body) && m == n + |PartValues(p)|
    requires Exactly(Parse(Condition(select, RootText(p, n), RootText(q, m))), select, p, q)
    ensures DataOk(select, p) && AuthOk(q)
  {
    ExactLinks(select, p, q, n, m);
    ConditionParses(select, p, q, n, m);
  }

  // ----- connector texts the grammar knows -----

  /** Every connector text of a filter consists of AND, OR, NOT, `1=1` and tests of a column with IS, in any case. */
  predicate KnownConnectors(j: Json) {
    match j
    case Arr(items) => forall i | 0 <= i < |items| :: KnownConnectors(items[i])
    case Obj(fields) => forall i | 0 <= i < |fields| :: KnownField(fields[i])
    case _ => true
  }

  predicate KnownField(f: Field) {
    IsConnectBy(f.key) && f.value.Str? ==> KnownWords(Words(Upper(f.value.s)))
  }

  /**
   For all filters with such connector texts: the condition is SQL with as many tests as the filters have conditions,
   and no NOT and no literal, if and only if both filters are connected, or absent where that is allowed.  (Of other
   words the grammar does not know what the database makes of them.)
   */
  lemma StatementExact(schema: Schema, select: bool, sets: seq<Json>, data: Json, auth: Json)
    requires KnownConnectors(data) && KnownConnectors(auth) && ReadBoth(schema, data, auth).Success?
    ensures var s, (p, q) := Prepared(sets), ReadBoth(schema, data, auth).value;
            Exactly(Parse(Condition(select, RootText(p, s.Count()), RootText(q, AuthCount(s, p)))), select, p, q)
            <==> DataOk(select, p) && AuthOk(q)
  {
    var (p, q) := ReadBoth(schema, data, auth).value;
    ReadPlain(schema, data);
    ReadPlain(schema, auth);
    ExactStatement(select, sets, p, q, PartValues(p));
  }

  lemma ExactStatement(select: bool, sets: seq<Json>, p: Part, q: Part, vs: seq<Json>)
    requires PlainBody(p.body) && PlainBody(q.body) && vs == PartValues(p)
    ensures var s := Prepared(sets);
            Exactly(Parse(Condition(select, RootText(p, s.Count()), RootText(q, AuthCount(s, p)))), select, p, q)
            <==> DataOk(select, p) && AuthOk(q)
  {
    NewCounts(sets, p, vs);
    ExactCondition(select, p, q, |sets|, |sets| + |vs|);
  }
}

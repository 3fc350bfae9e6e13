/** Formulas, from text to value. */
module Formula {
  import opened Wrappers
  import opened Tokenizer
  import Calc

  // The tokenizer (backend/excelize/efp.go) and the evaluator
  // (backend/excelize/calc.go) composed on the arithmetic part of the language.

  // ----- the text of an expression -----

  function OpText(op: Calc.Op): (s: string)
    ensures 1 <= |s| <= 2
  {
    match op
    case Pow => "^"
    case Mul => "*"
    case Div => "/"
    case Add => "+"
    case Sub => "-"
    case Eq => "="
    case Lt => "<"
    case Le => "<="
    case Gt => ">"
    case Ge => ">="
    case Cat => "&"
  }

  /** A character the tokenizer only gathers. */
  predicate Gathered(c: char) {
    c !in BEGINNERS && c !in BRACES && c !in BRACKETS && c !in INFIXES && c != '%' && !IsSpace(c)
  }

  ghost predicate NumberText(isNumber: string -> bool, v: string) {
    v != "" && isNumber(v) && forall i | 0 <= i < |v| :: Gathered(v[i])
  }

  /** All literals of the expression are numbers. */
  ghost predicate Numeric(isNumber: string -> bool, e: Calc.Expr<string>) {
    match e
    case Lit(v) => NumberText(isNumber, v)
    case Neg(x) => Numeric(isNumber, x)
    case Bin(_, l, r) => Numeric(isNumber, l) && Numeric(isNumber, r)
    case Paren(x) => Numeric(isNumber, x)
  }

  ghost function TextOf(e: Calc.Expr<string>): string {
    match e
    case Lit(v) => v
    case Neg(x) => "-" + TextOf(x)
    case Bin(op, l, r) => TextOf(l) + (OpText(op) + TextOf(r))
    case Paren(x) => "(" + (TextOf(x) + ")")
  }

  // ----- the tokens of the first pass -----

  const MINUS := Token("-", OperatorInfix, Nothing)
  const OPEN := Token("", Subexpression, Start)
  const CLOSE := Token("", Subexpression, Stop)

  function RawOp(op: Calc.Op): Token {
    Token(OpText(op), OperatorInfix, if op.Le? || op.Ge? then Logical else Nothing)
  }

  ghost function RawOf(e: Calc.Expr<string>): seq<Token> {
    match e
    case Lit(v) => [Token(v, Operand, Nothing)]
    case Neg(x) => [MINUS] + RawOf(x)
    case Bin(op, l, r) => RawOf(l) + ([RawOp(op)] + RawOf(r))
    case Paren(x) => [OPEN] + (RawOf(x) + [CLOSE])
  }

  predicate Idle(s: State) {
    s.token == "" && !s.inString && !s.inPath && !s.inError
  }

  ghost predicate EndsIn(f: string, s: State, u: State) {
    s.offset <= |f| && Run(f, s) == u
  }

  /** From `s` and from `t` the machine comes to the same end. */
  ghost predicate Same(f: string, s: State, t: State) {
    s.offset <= |f| && t.offset <= |f| && forall u: State :: EndsIn(f, s, u) <==> EndsIn(f, t, u)
  }

  lemma SameRun(f: string, s: State, t: State)
    requires s.offset <= |f| && t.offset <= |f|
    ensures Same(f, s, t) <==> Run(f, s) == Run(f, t)
  {
    assert EndsIn(f, s, Run(f, s));
  }

  lemma SameTrans(f: string, s: State, t: State, u: State)
    requires Same(f, s, t) && Same(f, t, u)
    ensures Same(f, s, u)
  {
    forall v ensures EndsIn(f, s, v) <==> EndsIn(f, u, v) {
      assert EndsIn(f, s, v) <==> EndsIn(f, t, v);
    }
  }

  lemma RunStep(f: string, s: State)
    requires s.offset < |f|
    ensures Step(f, s).offset <= |f| && Same(f, s, Step(f, s))
  {
    StepMoves(f, s);
    SameRun(f, s, Step(f, s));
  }

  /** Characters are gathered one by one. */
  lemma {:induction false} Gather(f: string, s: State, v: string) returns (t: State)
    requires !s.inString && !s.inPath && !s.inError && s.offset + |v| <= |f| && f[s.offset..s.offset + |v|] == v
    requires forall i | 0 <= i < |v| :: Gathered(v[i])
    ensures t == s.(token := s.token + v, offset := s.offset + |v|) && Same(f, s, t)
    decreases |v|
  {
    if v == "" {
      t := s;
    } else {
      var c := v[0];
      assert f[s.offset] == c;
      GatherStep(f, s);
      RunStep(f, s);
      assert f[s.offset + 1..s.offset + |v|] == v[1..];
      t := Gather(f, Step(f, s), v[1..]);
      SameTrans(f, s, Step(f, s), t);
      assert s.token + [c] + v[1..] == s.token + v;
    }
  }

  lemma GatherStep(f: string, s: State)
    requires !s.inString && !s.inPath && !s.inError && s.offset < |f| && Gathered(f[s.offset])
    ensures Step(f, s) == s.(token := s.token + [f[s.offset]], offset := s.offset + 1)
  {
    assert DoubleChar(f, s.offset) !in COMPARATORS by {
      assert |DoubleChar(f, s.offset)| == 2 ==> DoubleChar(f, s.offset)[0] == f[s.offset];
      assert f[s.offset] !in INFIXES;
    }
  }

  lemma InfixStep(f: string, t: State, c: char)
    requires !t.inString && !t.inPath && !t.inError && t.offset < |f| && c == f[t.offset]
    requires c in INFIXES && DoubleChar(f, t.offset) !in COMPARATORS
    ensures Step(f, t) == Forward(Add(Flush(t, Operand), Token([c], OperatorInfix, Nothing)), 1)
  {
    assert c !in BEGINNERS && c !in BRACES && c !in BRACKETS && c != ' ';
  }

  /** An operator of one character, not followed by one that makes it a comparator. */
  lemma SignStep(f: string, t: State)
    requires !t.inString && !t.inPath && !t.inError && t.offset + 1 < |f|
    requires f[t.offset] in INFIXES && f[t.offset + 1] !in {'=', '>'}
    ensures Step(f, t) == Forward(Add(Flush(t, Operand), Token([f[t.offset]], OperatorInfix, Nothing)), 1)
  {
    assert DoubleChar(f, t.offset) !in COMPARATORS by {
      assert DoubleChar(f, t.offset)[1] == f[t.offset + 1];
    }
    InfixStep(f, t, f[t.offset]);
  }

  lemma ComparatorStep(f: string, t: State)
    requires !t.inString && !t.inPath && !t.inError && t.offset + 1 < |f|
    requires f[t.offset] in {'<', '>'} && f[t.offset + 1] == '='
    ensures Step(f, t) == Forward(Add(Flush(t, Operand), Token([f[t.offset], '='], OperatorInfix, Logical)), 2)
  {
    assert DoubleChar(f, t.offset) == [f[t.offset], '='];
  }

  lemma OpStep(f: string, t: State, op: Calc.Op)
    requires !t.inString && !t.inPath && !t.inError
    requires t.offset + |OpText(op)| < |f| && f[t.offset..t.offset + |OpText(op)|] == OpText(op)
    requires f[t.offset + |OpText(op)|] !in {'=', '>'}
    ensures Step(f, t) == Forward(Add(Flush(t, Operand), RawOp(op)), |OpText(op)|)
  {
    assert f[t.offset] == OpText(op)[0];
    if op.Le? || op.Ge? {
      assert f[t.offset + 1] == OpText(op)[1];
      ComparatorStep(f, t);
    } else {
      SignStep(f, t);
    }
  }

  /** The first character of an expression does not turn an operator before it into a comparator, and the last is no
      white space. */
  lemma {:induction false} Edges(isNumber: string -> bool, e: Calc.Expr<string>)
    requires Numeric(isNumber, e)
    ensures TextOf(e) != "" && TextOf(e)[0] !in {'=', '>'} && !IsSpace(TextOf(e)[0])
    ensures !IsSpace(TextOf(e)[|TextOf(e)| - 1])
    decreases e
  {
    match e
    case Lit(v) =>
      assert Gathered(v[0]) && Gathered(v[|v| - 1]);
    case Neg(x) => Edges(isNumber, x);
    case Bin(op, l, r) =>
      Edges(isNumber, l);
      Edges(isNumber, r);
    case Paren(x) => Edges(isNumber, x);
  }

  /** `a` stands in `f` at `i`. */
  ghost predicate At(f: string, i: nat, a: string) {
    i + |a| <= |f| && f[i..i + |a|] == a
  }

  lemma AtSplit(f: string, i: nat, a: string, b: string)
    requires At(f, i, a + b)
    ensures At(f, i, a) && At(f, i + |a|, b)
  {
    assert a == (a + b)[..|a|] && b == (a + b)[|a|..];
    assert f[i..i + |a + b|][..|a|] == f[i..i + |a|];
    assert f[i..i + |a + b|][|a|..] == f[i + |a|..i + |a| + |b|];
  }

  lemma AtFirst(f: string, i: nat, a: string)
    requires At(f, i, a) && a != ""
    ensures i < |f| && f[i] == a[0]
  {
    assert f[i..i + |a|][0] == f[i];
  }

  /** `s` with `ts` added and moved on by `n`. */
  function Moved(s: State, ts: seq<Token>, n: nat): State {
    s.(items := s.items + ts, offset := s.offset + n)
  }

  lemma MovedMoved(s: State, a: seq<Token>, b: seq<Token>, m: nat, n: nat)
    ensures Moved(Moved(s, a, m), b, n) == Moved(s, a + b, m + n)
  {
    assert s.items + a + b == s.items + (a + b);
  }

  /** The machine reads expression `e` from `s` on and gets to `t`. */
  ghost predicate Reads(f: string, s: State, t: State, n: nat, ts: seq<Token>) {
    s.offset <= t.offset <= |f| && Same(f, s, t) && Flush(t, Operand) == Moved(s, ts, n)
  }

  lemma ReadsOn(f: string, s: State, u: State, t: State, m: nat, a: seq<Token>, n: nat, b: seq<Token>)
    requires u == Moved(s, a, m) && u.offset <= |f| && Same(f, s, u) && Reads(f, u, t, n, b)
    ensures Reads(f, s, t, m + n, a + b)
  {
    SameTrans(f, s, u, t);
    MovedMoved(s, a, b, m, n);
  }

  lemma ReadLit(f: string, s: State, v: string) returns (t: State)
    requires Idle(s) && At(f, s.offset, v) && v != "" && forall i | 0 <= i < |v| :: Gathered(v[i])
    ensures Reads(f, s, t, |v|, [Token(v, Operand, Nothing)])
  {
    t := Gather(f, s, v);
    assert "" + v == v;
  }

  lemma ReadMinus(f: string, s: State) returns (u: State)
    requires Idle(s) && s.offset + 1 < |f| && f[s.offset] == '-' && f[s.offset + 1] !in {'=', '>'}
    ensures u == Moved(s, [MINUS], 1) && Idle(u) && Same(f, s, u)
  {
    SignStep(f, s);
    u := Step(f, s);
    RunStep(f, s);
    assert [f[s.offset]] == "-";
  }

  lemma ReadOp(f: string, s: State, t: State, n: nat, ts: seq<Token>, op: Calc.Op) returns (u: State)
    requires Idle(s) && Reads(f, s, t, n, ts)
    requires At(f, t.offset, OpText(op)) && t.offset + |OpText(op)| < |f| && f[t.offset + |OpText(op)|] !in {'=', '>'}
    ensures u == Moved(s, ts + [RawOp(op)], n + |OpText(op)|) && Idle(u) && Same(f, s, u)
  {
    OpStep(f, t, op);
    u := Step(f, t);
    RunStep(f, t);
    SameTrans(f, s, t, u);
    MovedMoved(s, ts, [RawOp(op)], n, |OpText(op)|);
  }

  lemma ReadOpen(f: string, s: State) returns (u: State)
    requires Idle(s) && s.offset < |f| && f[s.offset] == '('
    ensures u == Moved(s, [OPEN], 1).(stack := s.stack + [OPEN]) && Idle(u) && Same(f, s, u)
  {
    u := Step(f, s);
    RunStep(f, s);
  }

  lemma ReadClose(f: string, s: State, u: State, t: State, n: nat, ts: seq<Token>) returns (v: State)
    requires Idle(s) && u == Moved(s, [OPEN], 1).(stack := s.stack + [OPEN]) && u.offset <= |f| && Same(f, s, u)
    requires Reads(f, u, t, n, ts) && t.offset < |f| && f[t.offset] == ')'
    ensures Reads(f, s, v, 2 + n, [OPEN] + (ts + [CLOSE]))
  {
    v := Step(f, t);
    RunStep(f, t);
    SameTrans(f, s, u, t);
    SameTrans(f, s, t, v);
    ClosedState(s, u, Flush(t, Operand), n, ts);
    assert v == Forward(Close(Flush(t, Operand)), 1);
    IdleReads(f, s, v, 2 + n, [OPEN] + (ts + [CLOSE]));
  }

  lemma ClosedState(s: State, u: State, t: State, n: nat, ts: seq<Token>)
    requires u == Moved(s, [OPEN], 1).(stack := s.stack + [OPEN]) && t == Moved(u, ts, n)
    ensures Forward(Close(t), 1) == Moved(s, [OPEN] + (ts + [CLOSE]), 2 + n)
  {
    assert t.stack[..|t.stack| - 1] == s.stack;
    assert s.items + [OPEN] + ts + [CLOSE] == s.items + ([OPEN] + (ts + [CLOSE]));
  }

  lemma IdleReads(f: string, s: State, v: State, n: nat, ts: seq<Token>)
    requires s.offset <= v.offset <= |f| && Idle(v) && v == Moved(s, ts, n) && Same(f, s, v)
    ensures Reads(f, s, v, n, ts)
  {
  }

  /** The first pass reads the text of every expression as its tokens. */
  lemma {:induction false} ReadExpr(isNumber: string -> bool, f: string, s: State, e: Calc.Expr<string>) returns (t: State)
    requires Numeric(isNumber, e) && Idle(s) && At(f, s.offset, TextOf(e))
    ensures Reads(f, s, t, |TextOf(e)|, RawOf(e)) && t.offset == s.offset + |TextOf(e)|
    decreases e, 1
  {
    match e
    case Lit(v) => t := ReadLit(f, s, v);
    case Neg(_) => t := ReadNeg(isNumber, f, s, e);
    case Bin(_, _, _) => t := ReadBin(isNumber, f, s, e);
    case Paren(_) => t := ReadParen(isNumber, f, s, e);
    ReadsTo(f, s, t, |TextOf(e)|, RawOf(e));
  }

  lemma ReadNeg(isNumber: string -> bool, f: string, s: State, e: Calc.Expr<string>) returns (t: State)
    requires e.Neg? && Numeric(isNumber, e.e) && Idle(s) && At(f, s.offset, "-" + TextOf(e.e))
    ensures Reads(f, s, t, 1 + |TextOf(e.e)|, [MINUS] + RawOf(e.e))
    decreases e, 0
  {
    var x := e.e;
    Edges(isNumber, x);
    AtSplit(f, s.offset, "-", TextOf(x));
    AtFirst(f, s.offset, "-");
    AtFirst(f, s.offset + 1, TextOf(x));
    var u := ReadMinus(f, s);
    t := ReadExpr(isNumber, f, u, x);
    ReadsOn(f, s, u, t, 1, [MINUS], |TextOf(x)|, RawOf(x));
  }

  lemma ParenText(f: string, i: nat, x: string)
    requires At(f, i, "(" + (x + ")"))
    ensures At(f, i + 1, x) && i + 1 + |x| < |f| && f[i] == '(' && f[i + 1 + |x|] == ')'
  {
    AtSplit(f, i, "(", x + ")");
    AtSplit(f, i + 1, x, ")");
    AtFirst(f, i, "(");
    AtFirst(f, i + 1 + |x|, ")");
  }

  lemma ReadParen(isNumber: string -> bool, f: string, s: State, e: Calc.Expr<string>) returns (t: State)
    requires e.Paren? && Numeric(isNumber, e.e) && Idle(s) && At(f, s.offset, "(" + (TextOf(e.e) + ")"))
    ensures Reads(f, s, t, 2 + |TextOf(e.e)|, [OPEN] + (RawOf(e.e) + [CLOSE]))
    decreases e, 0
  {
    var x := TextOf(e.e);
    ParenText(f, s.offset, x);
    var u := ReadOpen(f, s);
    var w := ReadExpr(isNumber, f, u, e.e);
    t := ReadClose(f, s, u, w, |x|, RawOf(e.e));
  }

  lemma BinText(f: string, i: nat, a: string, o: string, b: string)
    requires At(f, i, a + (o + b)) && b != ""
    ensures At(f, i, a) && At(f, i + |a|, o) && At(f, i + |a| + |o|, b)
    ensures i + |a| + |o| < |f| && f[i + |a| + |o|] == b[0]
  {
    AtSplit(f, i, a, o + b);
    AtSplit(f, i + |a|, o, b);
    AtFirst(f, i + |a| + |o|, b);
  }

  lemma BinMoved(s: State, u: State, t: State, m: nat, n: nat, k: nat, l: seq<Token>, op: Token, r: seq<Token>)
    requires u == Moved(s, l + [op], m) && t == Moved(u, r, n) && k == m + n
    ensures t == Moved(s, l + ([op] + r), k)
  {
    MovedMoved(s, l + [op], r, m, n);
    assert l + [op] + r == l + ([op] + r);
  }

  lemma ReadsTo(f: string, s: State, t: State, n: nat, ts: seq<Token>)
    requires Reads(f, s, t, n, ts)
    ensures t.offset == s.offset + n
  {
  }

  /** The left operand and the operator. */
  lemma ReadLeft(isNumber: string -> bool, f: string, s: State, l: Calc.Expr<string>, op: Calc.Op, r: Calc.Expr<string>)
    returns (u: State)
    requires Numeric(isNumber, l) && Numeric(isNumber, r) && Idle(s)
    requires At(f, s.offset, TextOf(l) + (OpText(op) + TextOf(r)))
    ensures u == Moved(s, RawOf(l) + [RawOp(op)], |TextOf(l)| + |OpText(op)|) && Idle(u) && Same(f, s, u)
    ensures At(f, u.offset, TextOf(r))
    decreases l, 2
  {
    var n, m, b := |TextOf(l)|, |OpText(op)|, TextOf(r);
    Edges(isNumber, r);
    BinText(f, s.offset, TextOf(l), OpText(op), b);
    var w := ReadExpr(isNumber, f, s, l);
    u := ReadOp(f, s, w, n, RawOf(l), op);
    assert u.offset == s.offset + n + m;
  }

  lemma ReadBin(isNumber: string -> bool, f: string, s: State, e: Calc.Expr<string>) returns (t: State)
    requires e.Bin? && Numeric(isNumber, e.l) && Numeric(isNumber, e.r) && Idle(s)
    requires At(f, s.offset, TextOf(e.l) + (OpText(e.op) + TextOf(e.r)))
    ensures Reads(f, s, t, |TextOf(e.l) + (OpText(e.op) + TextOf(e.r))|, RawOf(e.l) + ([RawOp(e.op)] + RawOf(e.r)))
    decreases e, 0
  {
    var u := ReadLeft(isNumber, f, s, e.l, e.op, e.r);
    t := ReadExpr(isNumber, f, u, e.r);
    BinReads(f, s, u, t, TextOf(e.l), OpText(e.op), TextOf(e.r), RawOf(e.l), RawOp(e.op), RawOf(e.r));
  }

  lemma BinReads(f: string, s: State, u: State, t: State, a: string, o: string, b: string,
                 l: seq<Token>, op: Token, r: seq<Token>)
    requires u == Moved(s, l + [op], |a| + |o|) && Same(f, s, u) && Reads(f, u, t, |b|, r)
    ensures Reads(f, s, t, |a + (o + b)|, l + ([op] + r))
  {
    SameTrans(f, s, u, t);
    BinMoved(s, u, Flush(t, Operand), |a| + |o|, |b|, |a + (o + b)|, l, op, r);
  }

  // ----- the clean-up -----

  function LeftAt(left: bool, ts: seq<Token>, i: nat): bool
    requires i <= |ts|
  {
    if i == 0 then left else LeftOf(ts[i - 1])
  }

  /** Each token settled by `settle`, told whether a value ends before it. */
  function SettleWith(settle: (bool, Token) -> Token, left: bool, ts: seq<Token>): (out: seq<Token>)
    ensures |out| == |ts|
  {
    seq(|ts|, i requires 0 <= i < |ts| => settle(LeftAt(left, ts, i), ts[i]))
  }

  function SettleBehind(isNumber: string -> bool, left: bool, ts: seq<Token>): (out: seq<Token>)
    ensures |out| == |ts|
  {
    SettleWith((l, t) => SettledBehind(isNumber, l, t), left, ts)
  }

  lemma SettleIs(isNumber: string -> bool, items: seq<Token>)
    ensures SettleBehind(isNumber, false, items) == SettleAll(isNumber, items)
  {
    forall i | 0 <= i < |items| ensures SettleBehind(isNumber, false, items)[i] == SettleAll(isNumber, items)[i] {
      SettleAt(isNumber, false, items, i);
      assert LeftAt(false, items, i) == HasLeftOperand(items, i);
    }
  }

  lemma SettleAt(isNumber: string -> bool, left: bool, ts: seq<Token>, i: nat)
    requires i < |ts|
    ensures SettleBehind(isNumber, left, ts)[i] == SettledBehind(isNumber, LeftAt(left, ts, i), ts[i])
  {
  }

  lemma SplitWith(settle: (bool, Token) -> Token, left: bool, a: seq<Token>, b: seq<Token>)
    ensures SettleWith(settle, left, a + b) ==
            SettleWith(settle, left, a) + SettleWith(settle, LeftAt(left, a, |a|), b)
  {
    var ts := a + b;
    forall i | 0 <= i < |ts|
      ensures LeftAt(left, ts, i) == if i < |a| then LeftAt(left, a, i) else LeftAt(LeftAt(left, a, |a|), b, i - |a|)
    {
    }
  }

  lemma SettleSplit(isNumber: string -> bool, left: bool, a: seq<Token>, b: seq<Token>)
    ensures SettleBehind(isNumber, left, a + b) ==
            SettleBehind(isNumber, left, a) + SettleBehind(isNumber, LeftAt(left, a, |a|), b)
  {
    SplitWith((l, t) => SettledBehind(isNumber, l, t), left, a, b);
  }

  lemma SettleCons(isNumber: string -> bool, left: bool, t: Token, ts: seq<Token>)
    ensures SettleBehind(isNumber, left, [t] + ts) ==
            [SettledBehind(isNumber, left, t)] + SettleBehind(isNumber, LeftOf(t), ts)
  {
    SettleSplit(isNumber, left, [t], ts);
    SettleAt(isNumber, left, [t], 0);
  }

  // ----- the tokens the evaluator sees -----

  /** A settled token as the evaluator reads it. */
  function AsCalc(t: Token): Calc.Token<string> {
    if t.tp == Operand then Calc.Num(t.value)
    else if t.tp == OperatorPrefix then Calc.Minus
    else if t.sub == Start then Calc.Open
    else if t.sub == Stop then Calc.Close
    else Calc.Infix(
      if t.value == "^" then Calc.Pow else if t.value == "*" then Calc.Mul else if t.value == "/" then Calc.Div
      else if t.value == "+" then Calc.Add else if t.value == "-" then Calc.Sub else if t.value == "=" then Calc.Eq
      else if t.value == "<" then Calc.Lt else if t.value == "<=" then Calc.Le else if t.value == ">" then Calc.Gt
      else if t.value == ">=" then Calc.Ge else Calc.Cat)
  }

  function AllAsCalc(ts: seq<Token>): seq<Calc.Token<string>> {
    seq(|ts|, i requires 0 <= i < |ts| => AsCalc(ts[i]))
  }

  lemma AsCalcSplit(a: seq<Token>, b: seq<Token>)
    ensures AllAsCalc(a + b) == AllAsCalc(a) + AllAsCalc(b)
  {
  }

  lemma SettledOp(isNumber: string -> bool, op: Calc.Op)
    ensures var t := SettledBehind(isNumber, true, RawOp(op)); AsCalc(t) == Calc.Infix(op) && t.tp != Noop
    ensures !LeftOf(RawOp(op))
  {
  }

  ghost predicate NoNoops(ts: seq<Token>) {
    forall i | 0 <= i < |ts| :: ts[i].tp != Noop
  }

  /** Where no value ends, the tokens of an expression are settled to those the evaluator expects. */
  lemma {:induction false} SettleExpr(isNumber: string -> bool, e: Calc.Expr<string>)
    requires Numeric(isNumber, e)
    ensures RawOf(e) != [] && LeftOf(RawOf(e)[|RawOf(e)| - 1])
    ensures var ts := SettleBehind(isNumber, false, RawOf(e)); AllAsCalc(ts) == Calc.Tokens(e) && NoNoops(ts)
    decreases e
  {
    match e
    case Lit(v) =>
      assert SettleBehind(isNumber, false, RawOf(e)) == [Token(v, Operand, Number)];
    case Neg(x) =>
      SettleExpr(isNumber, x);
      SettleNeg(isNumber, RawOf(x));
    case Bin(op, l, r) =>
      SettleExpr(isNumber, l);
      SettleExpr(isNumber, r);
      SettleBin(isNumber, op, RawOf(l), RawOf(r));
    case Paren(x) =>
      SettleExpr(isNumber, x);
      SettleParen(isNumber, RawOf(x));
  }

  lemma SettleNeg(isNumber: string -> bool, x: seq<Token>)
    requires NoNoops(SettleBehind(isNumber, false, x))
    ensures var ts := SettleBehind(isNumber, false, [MINUS] + x);
            AllAsCalc(ts) == [Calc.Minus] + AllAsCalc(SettleBehind(isNumber, false, x)) && NoNoops(ts)
  {
    SettleCons(isNumber, false, MINUS, x);
    AsCalcSplit([MINUS.(tp := OperatorPrefix)], SettleBehind(isNumber, false, x));
  }

  lemma SettleBin(isNumber: string -> bool, op: Calc.Op, l: seq<Token>, r: seq<Token>)
    requires l != [] && LeftOf(l[|l| - 1])
    requires NoNoops(SettleBehind(isNumber, false, l)) && NoNoops(SettleBehind(isNumber, false, r))
    ensures var ts := SettleBehind(isNumber, false, l + ([RawOp(op)] + r));
            && AllAsCalc(ts) == AllAsCalc(SettleBehind(isNumber, false, l)) + [Calc.Infix(op)] +
                                AllAsCalc(SettleBehind(isNumber, false, r))
            && NoNoops(ts)
  {
    var t := SettledBehind(isNumber, true, RawOp(op));
    var a, b := SettleBehind(isNumber, false, l), SettleBehind(isNumber, false, r);
    SettledOp(isNumber, op);
    SettleSplit(isNumber, false, l, [RawOp(op)] + r);
    SettleCons(isNumber, true, RawOp(op), r);
    JoinOp(a, t, b, op);
  }

  lemma JoinOp(a: seq<Token>, t: Token, b: seq<Token>, op: Calc.Op)
    requires NoNoops(a) && NoNoops(b) && t.tp != Noop && AsCalc(t) == Calc.Infix(op)
    ensures AllAsCalc(a + ([t] + b)) == AllAsCalc(a) + [Calc.Infix(op)] + AllAsCalc(b) && NoNoops(a + ([t] + b))
  {
    AsCalcSplit(a, [t] + b);
    AsCalcSplit([t], b);
  }

  lemma SettleParen(isNumber: string -> bool, x: seq<Token>)
    requires NoNoops(SettleBehind(isNumber, false, x))
    ensures var ts := SettleBehind(isNumber, false, [OPEN] + (x + [CLOSE]));
            AllAsCalc(ts) == [Calc.Open] + AllAsCalc(SettleBehind(isNumber, false, x)) + [Calc.Close] && NoNoops(ts)
  {
    var a := SettleBehind(isNumber, false, x);
    SettleCons(isNumber, false, OPEN, x + [CLOSE]);
    SettleSplit(isNumber, false, x, [CLOSE]);
    assert SettleBehind(isNumber, LeftAt(false, x, |x|), [CLOSE]) == [CLOSE];
    JoinParen(a);
  }

  lemma JoinParen(a: seq<Token>)
    requires NoNoops(a)
    ensures AllAsCalc([OPEN] + (a + [CLOSE])) == [Calc.Open] + AllAsCalc(a) + [Calc.Close] && NoNoops([OPEN] + (a + [CLOSE]))
  {
    AsCalcSplit([OPEN], a + [CLOSE]);
    AsCalcSplit(a, [CLOSE]);
  }

  // ----- the whole way -----

  lemma {:induction false} TightenPlain(items: seq<Token>, k: nat)
    requires 1 <= k <= |items| && forall i | 0 <= i < |items| :: items[i].tp != Whitespace
    ensures TightenTo(items, k) == items[1..k]
    decreases k
  {
    if k > 1 {
      TightenPlain(items, k - 1);
    }
  }

  lemma {:induction false} RawNoSpaces(e: Calc.Expr<string>)
    ensures forall i | 0 <= i < |RawOf(e)| :: RawOf(e)[i].tp != Whitespace
    decreases e
  {
    match e
    case Lit(_) =>
    case Neg(x) => RawNoSpaces(x);
    case Bin(_, l, r) =>
      RawNoSpaces(l);
      RawNoSpaces(r);
    case Paren(x) => RawNoSpaces(x);
  }

  lemma {:induction false} KeepAll(items: seq<Token>, k: nat)
    requires k <= |items| && NoNoops(items)
    ensures WithoutNoops(items, k) == items[..k]
    decreases k
  {
    if k > 0 {
      KeepAll(items, k - 1);
    }
  }

  lemma Unspaced(s: string)
    requires s != "" && !IsSpace(s[0]) && !IsSpace(s[|s| - 1])
    ensures TrimEnd(TrimStart(s)) == s
  {
  }

  const EQUALS := Token("=", OperatorInfix, Nothing)

  lemma NormalText(isNumber: string -> bool, e: Calc.Expr<string>)
    requires Numeric(isNumber, e)
    ensures Normalised(TextOf(e)) == "=" + TextOf(e)
  {
    Edges(isNumber, e);
    Unspaced(TextOf(e));
  }

  lemma ReadEquals(f: string) returns (s: State)
    requires |f| > 1 && f[0] == '=' && f[1] !in {'=', '>'}
    ensures s == Moved(INITIAL, [EQUALS], 1) && Same(f, INITIAL, s)
  {
    SignStep(f, INITIAL);
    s := Step(f, INITIAL);
    RunStep(f, INITIAL);
    assert [f[0]] == "=";
  }

  /** The first pass over a formula. */
  lemma RawFormula(isNumber: string -> bool, e: Calc.Expr<string>)
    requires Numeric(isNumber, e)
    ensures Raw("=" + TextOf(e)) == [EQUALS] + RawOf(e)
  {
    var f := "=" + TextOf(e);
    Edges(isNumber, e);
    assert f[0] == '=' && f[1] == TextOf(e)[0] && f[1..1 + |TextOf(e)|] == TextOf(e);
    var s := ReadEquals(f);
    var t := ReadExpr(isNumber, f, s, e);
    RawIs(f, s, t, TextOf(e), RawOf(e));
  }

  lemma RawIs(f: string, s: State, t: State, text: string, ts: seq<Token>)
    requires f == "=" + text && s == Moved(INITIAL, [EQUALS], 1) && Same(f, INITIAL, s)
    requires Reads(f, s, t, |text|, ts)
    ensures Raw(f) == [EQUALS] + ts
  {
    SameTrans(f, INITIAL, s, t);
    SameRun(f, INITIAL, t);
    RunEnds(f, t);
  }

  lemma RunEnds(f: string, t: State)
    requires t.offset == |f|
    ensures Run(f, t) == t
  {
  }

  /** The tokens of an expression's text are the tokens of the expression. */
  lemma TokensOfText(isNumber: string -> bool, e: Calc.Expr<string>)
    requires Numeric(isNumber, e)
    ensures AllAsCalc(Tokenised(isNumber, TextOf(e))) == Calc.Tokens(e)
  {
    NormalText(isNumber, e);
    RawFormula(isNumber, e);
    TightText(e);
    CleanText(isNumber, e);
  }

  lemma TightText(e: Calc.Expr<string>)
    ensures var raw := [EQUALS] + RawOf(e); TightenTo(raw, |raw|) == RawOf(e)
  {
    RawNoSpaces(e);
    TightTokens(RawOf(e));
  }

  lemma TightTokens(ts: seq<Token>)
    requires forall i | 0 <= i < |ts| :: ts[i].tp != Whitespace
    ensures TightenTo([EQUALS] + ts, |[EQUALS] + ts|) == ts
  {
    var raw := [EQUALS] + ts;
    TightenPlain(raw, |raw|);
    assert raw[1..|raw|] == ts;
  }

  lemma CleanText(isNumber: string -> bool, e: Calc.Expr<string>)
    requires Numeric(isNumber, e)
    ensures var settled := SettleAll(isNumber, RawOf(e)); AllAsCalc(WithoutNoops(settled, |settled|)) == Calc.Tokens(e)
  {
    var settled := SettleAll(isNumber, RawOf(e));
    SettleIs(isNumber, RawOf(e));
    SettleExpr(isNumber, e);
    KeepAll(settled, |settled|);
    assert settled[..|settled|] == settled;
  }

  /** For the text of every expression: what comes of tokenising and evaluating it. */
  lemma FormulaActual<E>(isNumber: string -> bool, alg: Calc.Algebra<string, E>, e: Calc.Expr<string>)
    requires Numeric(isNumber, e) && Calc.Formed(e)
    ensures Calc.Eval(alg, AllAsCalc(Tokenised(isNumber, TextOf(e)))) ==
            if Calc.Actual(e).0 > 0 then Failure(Calc.NotValid) else Calc.Value(alg, Calc.Actual(e).1)
  {
    TokensOfText(isNumber, e);
    Calc.EvalActual(alg, e);
  }

  /** Tokenising the text of an expression and evaluating the tokens yields the value of the expression: priorities,
      left association, prefix minus and the first error included. */
  lemma FormulaValue<E>(isNumber: string -> bool, alg: Calc.Algebra<string, E>, e: Calc.Expr<string>)
    requires Numeric(isNumber, e) && Calc.Formed(e) && Calc.NoDoubleMinus(e)
    ensures Calc.Eval(alg, AllAsCalc(Tokenised(isNumber, TextOf(e)))) == Calc.Value(alg, e)
  {
    TokensOfText(isNumber, e);
    Calc.EvalTree(alg, e);
  }
}

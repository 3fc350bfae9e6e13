/** How the first pass reads the text of a formula (backend/excelize/efp.go). */
module FormReading {
  import opened Wrappers
  import opened Tokenizer
  import opened Formula
  import opened Forms
  import Literals

  // ----- the ends of a text -----

  /** The text does not turn an operator before it into a comparator, and begins with white space only if with a blank. */
  predicate FirstOk(s: string) {
    s != "" && s[0] !in {'=', '>'} && (IsSpace(s[0]) ==> s[0] == ' ')
  }

  predicate LastOk(s: string) {
    s != "" && (IsSpace(s[|s| - 1]) ==> s[|s| - 1] == ' ')
  }

  lemma FirstJoined(a: string, b: string)
    requires FirstOk(a)
    ensures FirstOk(a + b) && (BeginsBlank(a + b) <==> BeginsBlank(a))
  {
  }

  lemma LastJoined(a: string, b: string)
    requires LastOk(b)
    ensures LastOk(a + b) && (EndsBlank(a + b) <==> EndsBlank(b))
  {
  }

  lemma {:induction false} TextFirst(e: Form, inFunction: bool)
    requires Formed(e, inFunction)
    ensures FirstOk(FormText(e)) && (StartsPlain(e) ==> !BeginsBlank(FormText(e)))
    decreases e
  {
    match e
    case Piece(v) => assert Gathered(v[0]);
    case Quoted(_) =>
    case Positive(_) =>
    case Negative(_) =>
    case Percent(x) =>
      TextFirst(x, inFunction);
      FirstJoined(FormText(x), "%");
    case Binary(l, op, r) =>
      TextFirst(l, inFunction);
      FirstJoined(FormText(l), Symbol(op) + FormText(r));
    case Common(l, n, r) =>
      TextFirst(l, inFunction);
      FirstJoined(FormText(l), Spaces(n) + FormText(r));
    case Spaced(m, x, n) =>
      TextFirst(x, inFunction);
      FirstJoined(FormText(x), Spaces(n));
      if m > 0 {
        FirstJoined(Spaces(m), FormText(x) + Spaces(n));
      } else {
        assert Spaces(m) + (FormText(x) + Spaces(n)) == FormText(x) + Spaces(n);
      }
    case Group(_) =>
    case Call(name, args) =>
      assert Gathered(name[0]);
      FirstJoined(name, "(" + (ArgsText(args) + ")"));
    case Table(_) =>
  }

  lemma {:induction false} TextLast(e: Form, inFunction: bool)
    requires Formed(e, inFunction)
    ensures LastOk(FormText(e)) && (EndsPlain(e) ==> !EndsBlank(FormText(e)))
    decreases e
  {
    match e
    case Piece(v) => assert Gathered(v[|v| - 1]);
    case Quoted(_) =>
    case Positive(x) =>
      TextLast(x, inFunction);
      LastJoined("+", FormText(x));
    case Negative(x) =>
      TextLast(x, inFunction);
      LastJoined("-", FormText(x));
    case Percent(x) => LastJoined(FormText(x), "%");
    case Binary(l, op, r) =>
      TextLast(r, inFunction);
      LastJoined(Symbol(op), FormText(r));
      LastJoined(FormText(l), Symbol(op) + FormText(r));
    case Common(l, n, r) =>
      TextLast(r, inFunction);
      LastJoined(Spaces(n), FormText(r));
      LastJoined(FormText(l), Spaces(n) + FormText(r));
    case Spaced(m, x, n) =>
      TextLast(x, inFunction);
      if n > 0 {
        LastJoined(FormText(x), Spaces(n));
      } else {
        assert FormText(x) + Spaces(n) == FormText(x);
      }
      LastJoined(Spaces(m), FormText(x) + Spaces(n));
    case Group(x) =>
      LastJoined(FormText(x), ")");
      LastJoined("(", FormText(x) + ")");
    case Call(name, args) =>
      LastJoined(ArgsText(args), ")");
      LastJoined("(", ArgsText(args) + ")");
      LastJoined(name, "(" + (ArgsText(args) + ")"));
    case Table(rows) =>
      LastJoined(RowsText(rows), "}");
      LastJoined("{", RowsText(rows) + "}");
  }

  /** No blank stands behind a text that ends with a blank. */
  predicate Clear(f: string, i: nat, text: string) {
    i < |f| && f[i] == ' ' ==> !EndsBlank(text)
  }

  // ----- single steps -----

  /** A step that ends the operand before it and adds one token. */
  lemma StepAdds(f: string, s: State, t: State, n: nat, ts: seq<Token>, x: Token, m: nat) returns (u: State)
    requires Idle(s) && Reads(f, s, t, n, ts) && t.offset < |f|
    requires Step(f, t) == Add(Flush(t, Operand), x).(offset := t.offset + m)
    ensures u == Moved(s, ts + [x], n + m) && Idle(u) && u.offset <= |f| && Same(f, s, u)
  {
    u := Step(f, t);
    RunStep(f, t);
    SameTrans(f, s, t, u);
    MovedMoved(s, ts, [x], n, m);
  }

  lemma NothingRead(f: string, s: State)
    requires Idle(s) && s.offset <= |f|
    ensures Reads(f, s, s, 0, [])
  {
    SameRun(f, s, s);
    assert s.items + [] == s.items;
  }

  lemma {:induction false} SpacesEnd(f: string, i: nat, k: nat)
    requires i + k <= |f| && (forall j | i <= j < i + k :: f[j] == ' ') && (i + k < |f| ==> f[i + k] != ' ')
    ensures SkipSpaces(f, i) == i + k
    decreases k
  {
    if k > 0 {
      SpacesEnd(f, i + 1, k - 1);
    }
  }

  /** A run of blanks. */
  lemma ReadBlanks(f: string, s: State, t: State, n: nat, ts: seq<Token>, k: nat) returns (u: State)
    requires Idle(s) && Reads(f, s, t, n, ts) && k > 0 && At(f, t.offset, Spaces(k))
    requires t.offset + k < |f| ==> f[t.offset + k] != ' '
    ensures u == Moved(s, ts + [BLANK], n + k) && Idle(u) && u.offset <= |f| && Same(f, s, u)
  {
    forall j | t.offset <= j < t.offset + k ensures f[j] == ' ' {
      assert f[t.offset..t.offset + k][j - t.offset] == Spaces(k)[j - t.offset];
    }
    SpacesEnd(f, t.offset + 1, k - 1);
    u := StepAdds(f, s, t, n, ts, BLANK, k);
  }

  lemma SignAdds(f: string, s: State, c: char) returns (u: State)
    requires Idle(s) && s.offset + 1 < |f| && f[s.offset] == c && c in {'+', '-'} && f[s.offset + 1] !in {'=', '>'}
    ensures u == Moved(s, [Token([c], OperatorInfix, Nothing)], 1) && Idle(u) && u.offset <= |f| && Same(f, s, u)
  {
    SignStep(f, s);
    u := Step(f, s);
    RunStep(f, s);
  }

  /** An operator between two operands. */
  lemma OpAdds(f: string, t: State, op: Op)
    requires !t.inString && !t.inPath && !t.inError
    requires At(f, t.offset, Symbol(op)) && t.offset + |Symbol(op)| < |f| && f[t.offset + |Symbol(op)|] !in {'=', '>'}
    requires op == Unite ==> t.stack == [] || t.stack[|t.stack| - 1].tp != Function
    ensures Step(f, t) == Add(Flush(t, Operand), OpItem(op).raw).(offset := t.offset + |Symbol(op)|)
  {
    AtFirst(f, t.offset, Symbol(op));
    if op in {AtMost, AtLeast, Unequal} {
      assert DoubleChar(f, t.offset) == Symbol(op);
    } else if op != Unite {
      SignStep(f, t);
      assert [f[t.offset]] == Symbol(op);
    }
  }

  lemma PercentAdds(f: string, t: State)
    requires !t.inString && !t.inPath && !t.inError && t.offset < |f| && f[t.offset] == '%'
    ensures Step(f, t) == Add(Flush(t, Operand), Token("%", OperatorPostfix, Nothing)).(offset := t.offset + 1)
  {
    assert |DoubleChar(f, t.offset)| == 2 ==> DoubleChar(f, t.offset)[0] == '%';
    assert DoubleChar(f, t.offset) !in COMPARATORS;
  }

  /** Is the innermost open bracket that of a function? */
  predicate InFunction(s: State) {
    s.stack != [] && s.stack[|s.stack| - 1].tp == Function
  }

  lemma CommaAdds(f: string, t: State)
    requires !t.inString && !t.inPath && !t.inError && t.offset < |f| && f[t.offset] == ',' && InFunction(t)
    ensures Step(f, t) == Add(Flush(t, Operand), COMMA).(offset := t.offset + 1)
  {
  }

  /** The state inside a bracket that the token `start` opens. */
  predicate Entered(s: State, u: State, start: Token, k: nat) {
    u == Moved(s, [start], k).(stack := s.stack + [start])
  }

  lemma ReadName(f: string, s: State, name: string) returns (u: State)
    requires Idle(s) && IsText(name) && At(f, s.offset, name) && s.offset + |name| < |f| && f[s.offset + |name|] == '('
    ensures Entered(s, u, Token(name, Function, Start), |name| + 1) && Idle(u) && u.offset <= |f| && Same(f, s, u)
  {
    var t := Gather(f, s, name);
    assert "" + name == name;
    u := Step(f, t);
    RunStep(f, t);
    SameTrans(f, s, t, u);
  }

  /** The bracket that closes it. */
  lemma ReadEnd(f: string, s: State, start: Token, k: nat, u: State, t: State, n: nat, ts: seq<Token>) returns (v: State)
    requires Idle(s) && Entered(s, u, start, k) && u.offset <= |f| && Same(f, s, u)
    requires Reads(f, u, t, n, ts) && t.offset < |f| && f[t.offset] == ')'
    ensures Reads(f, s, v, k + n + 1, [start] + (ts + [Token("", start.tp, Stop)]))
  {
    v := Step(f, t);
    RunStep(f, t);
    SameTrans(f, s, u, t);
    SameTrans(f, s, t, v);
    EndState(s, start, k, u, Flush(t, Operand), n, ts);
    assert v == Forward(Close(Flush(t, Operand)), 1);
    IdleReads(f, s, v, k + n + 1, [start] + (ts + [Token("", start.tp, Stop)]));
  }

  lemma EndState(s: State, start: Token, k: nat, u: State, t: State, n: nat, ts: seq<Token>)
    requires Entered(s, u, start, k) && t == Moved(u, ts, n)
    ensures Forward(Close(t), 1) == Moved(s, [start] + (ts + [Token("", start.tp, Stop)]), k + n + 1)
  {
    assert t.stack[..|t.stack| - 1] == s.stack;
    assert s.items + [start] + ts + [Token("", start.tp, Stop)] == s.items + ([start] + (ts + [Token("", start.tp, Stop)]));
  }

  // ----- arrays -----

  const ARRAY := Token("ARRAY", Function, Start)
  const ROW := Token("ARRAYROW", Function, Start)

  lemma ReadTable(f: string, s: State) returns (u: State)
    requires Idle(s) && s.offset < |f| && f[s.offset] == '{'
    ensures u == Moved(s, [ARRAY, ROW], 1).(stack := s.stack + [ARRAY, ROW]) && Idle(u) && u.offset <= |f| && Same(f, s, u)
  {
    u := Step(f, s);
    RunStep(f, s);
    assert s.items + [ARRAY] + [ROW] == s.items + [ARRAY, ROW] && s.stack + [ARRAY] + [ROW] == s.stack + [ARRAY, ROW];
  }

  /** Is a row of an array the innermost bracket? */
  predicate InRow(s: State) {
    s.stack != [] && s.stack[|s.stack| - 1] == ROW
  }

  lemma RowAdds(f: string, t: State)
    requires !t.inString && !t.inPath && !t.inError && t.offset < |f| && f[t.offset] == ';' && InRow(t)
    ensures Step(f, t) == Flush(t, Operand).(items := Flush(t, Operand).items + [END, COMMA, ROW], offset := t.offset + 1)
  {
    var u := Flush(t, Operand);
    assert u.stack[..|u.stack| - 1] + [ROW] == u.stack;
    assert u.items + [END] + [COMMA] + [ROW] == u.items + [END, COMMA, ROW];
  }

  lemma ReadRowEnd(f: string, s: State, t: State, n: nat, ts: seq<Token>) returns (u: State)
    requires Idle(s) && InRow(s) && Reads(f, s, t, n, ts) && t.offset < |f| && f[t.offset] == ';'
    ensures u == Moved(s, ts + [END, COMMA, ROW], n + 1) && Idle(u) && u.offset <= |f| && Same(f, s, u)
  {
    RowAdds(f, t);
    u := Step(f, t);
    RunStep(f, t);
    SameTrans(f, s, t, u);
    MovedMoved(s, ts, [END, COMMA, ROW], n, 1);
  }

  lemma ReadTableEnd(f: string, s: State, u: State, t: State, n: nat, ts: seq<Token>) returns (v: State)
    requires Idle(s) && u == Moved(s, [ARRAY, ROW], 1).(stack := s.stack + [ARRAY, ROW]) && u.offset <= |f| && Same(f, s, u)
    requires Reads(f, u, t, n, ts) && t.offset < |f| && f[t.offset] == '}'
    ensures Reads(f, s, v, n + 2, [ARRAY] + ([ROW] + (ts + [END, END])))
  {
    v := Step(f, t);
    RunStep(f, t);
    SameTrans(f, s, u, t);
    SameTrans(f, s, t, v);
    TableState(s, u, Flush(t, Operand), n, ts);
    assert v == Forward(Close(Close(Flush(t, Operand))), 1);
    IdleReads(f, s, v, n + 2, [ARRAY] + ([ROW] + (ts + [END, END])));
  }

  lemma TableState(s: State, u: State, t: State, n: nat, ts: seq<Token>)
    requires u == Moved(s, [ARRAY, ROW], 1).(stack := s.stack + [ARRAY, ROW]) && t == Moved(u, ts, n)
    ensures Forward(Close(Close(t)), 1) == Moved(s, [ARRAY] + ([ROW] + (ts + [END, END])), n + 2)
  {
    assert t.stack[..|t.stack| - 1] == s.stack + [ARRAY] && (s.stack + [ARRAY])[..|s.stack|] == s.stack;
    assert s.items + [ARRAY, ROW] + ts + [END] + [END] == s.items + ([ARRAY] + ([ROW] + (ts + [END, END])));
  }

  // ----- strings -----

  lemma KeptTokens(ts: seq<Token>)
    ensures RawTokens(AllKept(ts)) == ts
  {
  }

  lemma ReadQuoted(f: string, s: State, v: string) returns (t: State)
    requires Idle(s) && At(f, s.offset, Literals.Literal(v))
    ensures Reads(f, s, t, |Literals.Literal(v)|, Literals.Pieces("", v))
  {
    t := Literals.ReadLiteral(f, s, v);
    IdleReads(f, s, t, |Literals.Literal(v)|, Literals.Pieces("", v));
  }

  // ----- whole formulas -----

  /** The machine is about to read a formula with this text, and gets through it. */
  ghost predicate Ready(f: string, s: State, e: Form, inFunction: bool) {
    && Formed(e, inFunction) && inFunction == InFunction(s) && Idle(s)
    && At(f, s.offset, FormText(e)) && Clear(f, s.offset + |FormText(e)|, FormText(e))
  }

  ghost predicate Done(isNumber: string -> bool, f: string, s: State, e: Form, t: State) {
    Reads(f, s, t, |FormText(e)|, RawTokens(Items(isNumber, e))) && t.offset == s.offset + |FormText(e)|
  }

  lemma DoneIs(isNumber: string -> bool, f: string, s: State, e: Form, t: State, n: nat, its: seq<Item>)
    requires Reads(f, s, t, n, RawTokens(its)) && n == |FormText(e)| && its == Items(isNumber, e)
    ensures Done(isNumber, f, s, e, t)
  {
    ReadsTo(f, s, t, n, RawTokens(its));
  }

  /** The first pass adds the raw tokens of a formula whose text it reads. */
  lemma {:induction false} ReadForm(isNumber: string -> bool, f: string, s: State, e: Form, inFunction: bool) returns (t: State)
    requires Ready(f, s, e, inFunction)
    ensures Done(isNumber, f, s, e, t)
    decreases e, 1
  {
    match e
    case Piece(_) => t := ReadLeaf(isNumber, f, s, e, inFunction);
    case Quoted(_) => t := ReadLeaf(isNumber, f, s, e, inFunction);
    case Positive(x) => t := ReadSigned(isNumber, f, s, e, '+', x, inFunction);
    case Negative(x) => t := ReadSigned(isNumber, f, s, e, '-', x, inFunction);
    case Percent(_) => t := ReadPercent(isNumber, f, s, e, inFunction);
    case Binary(_, _, _) => t := ReadBinary(isNumber, f, s, e, inFunction);
    case Common(_, _, _) => t := ReadCommon(isNumber, f, s, e, inFunction);
    case Spaced(_, _, _) => t := ReadSpaced(isNumber, f, s, e, inFunction);
    case Group(_) => t := ReadGroup(isNumber, f, s, e, inFunction);
    case Call(_, _) => t := ReadCall(isNumber, f, s, e, inFunction);
    case Table(_) => t := ReadArray(isNumber, f, s, e, inFunction);
  }

  lemma ReadLeaf(isNumber: string -> bool, f: string, s: State, e: Form, inFunction: bool) returns (t: State)
    requires Ready(f, s, e, inFunction) && (e.Piece? || e.Quoted?)
    ensures Done(isNumber, f, s, e, t)
  {
    if e.Piece? {
      t := ReadLit(f, s, e.v);
      assert RawTokens(Items(isNumber, e)) == [Token(e.v, Operand, Nothing)];
    } else {
      t := ReadQuoted(f, s, e.v);
      KeptTokens(Literals.Pieces("", e.v));
    }
    DoneIs(isNumber, f, s, e, t, |FormText(e)|, Items(isNumber, e));
  }

  lemma SignedReady(f: string, s: State, e: Form, c: char, x: Form, inFunction: bool)
    requires Ready(f, s, e, inFunction)
    requires (e == Positive(x) && c == '+') || (e == Negative(x) && c == '-')
    ensures FormText(e) == [c] + FormText(x) && Formed(x, inFunction)
    ensures s.offset + 1 < |f| && f[s.offset] == c && f[s.offset + 1] !in {'=', '>'}
    ensures At(f, s.offset + 1, FormText(x)) && Clear(f, s.offset + 1 + |FormText(x)|, FormText(x))
  {
    var a := FormText(x);
    assert FormText(e) == [c] + a && Formed(x, inFunction);
    TextEnds(x, inFunction);
    SignAt(f, s.offset, c, a, FormText(e));
  }

  lemma SignAt(f: string, i: nat, c: char, a: string, text: string)
    requires text == [c] + a && At(f, i, text) && Clear(f, i + |text|, text) && FirstOk(a) && LastOk(a)
    ensures i + 1 < |f| && f[i] == c && f[i + 1] !in {'=', '>'} && At(f, i + 1, a) && Clear(f, i + 1 + |a|, a)
  {
    LastJoined([c], a);
    AtSplit(f, i, [c], a);
    AtFirst(f, i, [c]);
    AtFirst(f, i + 1, a);
  }

  function SignOf(c: char): Item {
    SignItem([c], if c == '+' then [] else [Token("-", OperatorPrefix, Nothing)])
  }

  lemma SignRaw(c: char, its: seq<Item>)
    ensures RawTokens([SignOf(c)] + its) == [Token([c], OperatorInfix, Nothing)] + RawTokens(its)
  {
    RawSplit([SignOf(c)], its);
    LastOne(SignOf(c));
  }

  /** From `s` to `u` the first pass has added `ts`. */
  ghost predicate Goes(f: string, s: State, u: State, ts: seq<Token>, n: nat) {
    u == Moved(s, ts, n) && u.offset <= |f| && Same(f, s, u)
  }

  lemma SignedStart(f: string, s: State, e: Form, c: char, x: Form, inFunction: bool) returns (u: State)
    requires Ready(f, s, e, inFunction)
    requires (e == Positive(x) && c == '+') || (e == Negative(x) && c == '-')
    ensures Goes(f, s, u, [Token([c], OperatorInfix, Nothing)], 1) && Ready(f, u, x, inFunction)
  {
    SignedReady(f, s, e, c, x, inFunction);
    u := SignAdds(f, s, c);
  }

  lemma SignedDone(isNumber: string -> bool, f: string, s: State, u: State, t: State, e: Form, c: char, x: Form)
    requires (e == Positive(x) && c == '+') || (e == Negative(x) && c == '-')
    requires Goes(f, s, u, [Token([c], OperatorInfix, Nothing)], 1) && Done(isNumber, f, u, x, t)
    ensures Done(isNumber, f, s, e, t)
  {
    ReadsOn(f, s, u, t, 1, [Token([c], OperatorInfix, Nothing)], |FormText(x)|, RawTokens(Items(isNumber, x)));
    SignRaw(c, Items(isNumber, x));
    DoneIs(isNumber, f, s, e, t, 1 + |FormText(x)|, [SignOf(c)] + Items(isNumber, x));
  }

  lemma ReadSigned(isNumber: string -> bool, f: string, s: State, e: Form, c: char, x: Form, inFunction: bool) returns (t: State)
    requires Ready(f, s, e, inFunction)
    requires (e == Positive(x) && c == '+') || (e == Negative(x) && c == '-')
    ensures Done(isNumber, f, s, e, t)
    decreases e, 0
  {
    var u := SignedStart(f, s, e, c, x, inFunction);
    t := ReadForm(isNumber, f, u, x, inFunction);
    SignedDone(isNumber, f, s, u, t, e, c, x);
  }

  lemma PercentReady(f: string, s: State, e: Form, inFunction: bool)
    requires Ready(f, s, e, inFunction) && e.Percent?
    ensures Ready(f, s, e.e, inFunction) && |FormText(e)| == |FormText(e.e)| + 1
    ensures s.offset + |FormText(e.e)| < |f| && f[s.offset + |FormText(e.e)|] == '%'
  {
    AtSplit(f, s.offset, FormText(e.e), "%");
    AtFirst(f, s.offset + |FormText(e.e)|, "%");
  }

  lemma ReadPercent(isNumber: string -> bool, f: string, s: State, e: Form, inFunction: bool) returns (t: State)
    requires Ready(f, s, e, inFunction) && e.Percent?
    ensures Done(isNumber, f, s, e, t)
    decreases e, 0
  {
    var x := e.e;
    PercentReady(f, s, e, inFunction);
    var w := ReadForm(isNumber, f, s, x, inFunction);
    PercentAdds(f, w);
    var last := Token("%", OperatorPostfix, Nothing);
    t := StepAdds(f, s, w, |FormText(x)|, RawTokens(Items(isNumber, x)), last, 1);
    RawSplit(Items(isNumber, x), [Kept(last)]);
    LastOne(Kept(last));
    IdleReads(f, s, t, |FormText(x)| + 1, RawTokens(Items(isNumber, x)) + [last]);
    DoneIs(isNumber, f, s, e, t, |FormText(x)| + 1, Items(isNumber, x) + [Kept(last)]);
  }

  /** Three texts one after the other. */
  ghost predicate PairText(f: string, i: nat, a: string, o: string, b: string) {
    && At(f, i, a + (o + b)) && Clear(f, i + |a + (o + b)|, a + (o + b))
    && o != "" && (o[0] == ' ' ==> !EndsBlank(a))
  }

  lemma PairAt(f: string, i: nat, a: string, o: string, b: string)
    requires PairText(f, i, a, o, b) && FirstOk(b) && LastOk(b)
    ensures At(f, i, a) && Clear(f, i + |a|, a) && At(f, i + |a|, o)
    ensures i + |a| + |o| < |f| && f[i + |a| + |o|] == b[0]
    ensures At(f, i + |a| + |o|, b) && Clear(f, i + |a| + |o| + |b|, b)
  {
    LastJoined(o, b);
    LastJoined(a, o + b);
    BinText(f, i, a, o, b);
    AtFirst(f, i + |a|, o);
  }

  /** Two operands with the text `o` between them. */
  ghost predicate PairReady(f: string, s: State, l: Form, o: string, r: Form, inFunction: bool) {
    && Formed(l, inFunction) && Formed(r, inFunction) && inFunction == InFunction(s) && Idle(s)
    && PairText(f, s.offset, FormText(l), o, FormText(r))
  }

  lemma TextEnds(e: Form, inFunction: bool)
    requires Formed(e, inFunction)
    ensures FirstOk(FormText(e)) && LastOk(FormText(e))
  {
    TextFirst(e, inFunction);
    TextLast(e, inFunction);
  }

  lemma FirstOperand(f: string, s: State, l: Form, o: string, r: Form, inFunction: bool)
    requires PairReady(f, s, l, o, r, inFunction)
    ensures Ready(f, s, l, inFunction) && FirstOk(FormText(r))
    ensures var i := s.offset + |FormText(l)|; At(f, i, o) && i + |o| < |f| && f[i + |o|] == FormText(r)[0]
  {
    TextEnds(r, inFunction);
    PairAt(f, s.offset, FormText(l), o, FormText(r));
  }

  lemma SecondOperand(f: string, s: State, l: Form, o: string, r: Form, inFunction: bool, u: State)
    requires PairReady(f, s, l, o, r, inFunction)
    requires u.offset == s.offset + |FormText(l)| + |o| && Idle(u) && u.stack == s.stack
    ensures Ready(f, u, r, inFunction)
  {
    TextEnds(r, inFunction);
    PairAt(f, s.offset, FormText(l), o, FormText(r));
  }

  lemma ReadBinary(isNumber: string -> bool, f: string, s: State, e: Form, inFunction: bool) returns (t: State)
    requires Ready(f, s, e, inFunction) && e.Binary?
    ensures Done(isNumber, f, s, e, t)
    decreases e, 0
  {
    var l, op, r := e.l, e.op, e.r;
    assert PairReady(f, s, l, Symbol(op), r, inFunction);
    var u := ReadLeftOp(isNumber, f, s, l, op, r, inFunction);
    t := ReadForm(isNumber, f, u, r, inFunction);
    JoinReads(isNumber, f, s, u, t, l, OpItem(op), |Symbol(op)|, r);
    DoneIs(isNumber, f, s, e, t, |FormText(l)| + (|Symbol(op)| + |FormText(r)|), Items(isNumber, l) + ([OpItem(op)] + Items(isNumber, r)));
  }

  /** The left operand, and what stands behind it. */
  lemma ReadLeft(isNumber: string -> bool, f: string, s: State, l: Form, o: string, r: Form, inFunction: bool) returns (w: State)
    requires PairReady(f, s, l, o, r, inFunction)
    ensures Reads(f, s, w, |FormText(l)|, RawTokens(Items(isNumber, l))) && w.offset == s.offset + |FormText(l)|
    ensures At(f, w.offset, o) && w.offset + |o| < |f| && f[w.offset + |o|] !in {'=', '>'}
    ensures f[w.offset + |o|] == ' ' ==> BeginsBlank(FormText(r))
    ensures Idle(s) && inFunction == InFunction(s)
    decreases l, 2
  {
    FirstOperand(f, s, l, o, r, inFunction);
    w := ReadForm(isNumber, f, s, l, inFunction);
  }

  /** The left operand and the operator. */
  lemma ReadLeftOp(isNumber: string -> bool, f: string, s: State, l: Form, op: Op, r: Form, inFunction: bool) returns (u: State)
    requires PairReady(f, s, l, Symbol(op), r, inFunction) && (op == Unite ==> !inFunction)
    ensures u == Moved(s, RawTokens(Items(isNumber, l)) + [OpItem(op).raw], |FormText(l)| + |Symbol(op)|)
    ensures u.offset <= |f| && Same(f, s, u) && Ready(f, u, r, inFunction)
    decreases l, 3
  {
    var w := ReadLeft(isNumber, f, s, l, Symbol(op), r, inFunction);
    u := ReadSymbol(f, s, w, |FormText(l)|, RawTokens(Items(isNumber, l)), op);
    SecondOperand(f, s, l, Symbol(op), r, inFunction, u);
  }

  lemma ReadSymbol(f: string, s: State, t: State, n: nat, ts: seq<Token>, op: Op) returns (u: State)
    requires Idle(s) && Reads(f, s, t, n, ts) && (op == Unite ==> !InFunction(s))
    requires At(f, t.offset, Symbol(op)) && t.offset + |Symbol(op)| < |f| && f[t.offset + |Symbol(op)|] !in {'=', '>'}
    ensures u == Moved(s, ts + [OpItem(op).raw], n + |Symbol(op)|) && Idle(u) && u.offset <= |f| && Same(f, s, u)
  {
    OpAdds(f, t, op);
    u := StepAdds(f, s, t, n, ts, OpItem(op).raw, |Symbol(op)|);
  }

  /** Two operands and what stands between them. */
  lemma JoinReads(isNumber: string -> bool, f: string, s: State, u: State, t: State, l: Form, mid: Item, m: nat, r: Form)
    requires u == Moved(s, RawTokens(Items(isNumber, l)) + [mid.raw], |FormText(l)| + m) && u.offset <= |f| && Same(f, s, u)
    requires Reads(f, u, t, |FormText(r)|, RawTokens(Items(isNumber, r)))
    ensures Reads(f, s, t, |FormText(l)| + (m + |FormText(r)|), RawTokens(Items(isNumber, l) + ([mid] + Items(isNumber, r))))
  {
    var a, b := Items(isNumber, l), Items(isNumber, r);
    ReadsOn(f, s, u, t, |FormText(l)| + m, RawTokens(a) + [mid.raw], |FormText(r)|, RawTokens(b));
    JoinedRaw(a, [mid], b);
    LastOne(mid);
  }

  lemma ReadCommon(isNumber: string -> bool, f: string, s: State, e: Form, inFunction: bool) returns (t: State)
    requires Ready(f, s, e, inFunction) && e.Common?
    ensures Done(isNumber, f, s, e, t)
    decreases e, 0
  {
    var l, n, r := e.l, e.blanks, e.r;
    CommonReady(f, s, e, inFunction);
    var u := ReadLeftBlanks(isNumber, f, s, l, n, r, inFunction);
    t := ReadForm(isNumber, f, u, r, inFunction);
    JoinReads(isNumber, f, s, u, t, l, CommonItem(), n, r);
    DoneIs(isNumber, f, s, e, t, |FormText(l)| + (n + |FormText(r)|), Items(isNumber, l) + ([CommonItem()] + Items(isNumber, r)));
  }

  lemma CommonReady(f: string, s: State, e: Form, inFunction: bool)
    requires Ready(f, s, e, inFunction) && e.Common?
    ensures PairReady(f, s, e.l, Spaces(e.blanks), e.r, inFunction) && e.blanks > 0 && !BeginsBlank(FormText(e.r))
  {
    TextLast(e.l, inFunction);
    TextFirst(e.r, inFunction);
  }

  /** The left operand and the blanks. */
  lemma ReadLeftBlanks(isNumber: string -> bool, f: string, s: State, l: Form, n: nat, r: Form, inFunction: bool)
    returns (u: State)
    requires PairReady(f, s, l, Spaces(n), r, inFunction) && n > 0 && !BeginsBlank(FormText(r))
    ensures u == Moved(s, RawTokens(Items(isNumber, l)) + [CommonItem().raw], |FormText(l)| + n)
    ensures u.offset <= |f| && Same(f, s, u) && Ready(f, u, r, inFunction)
    decreases l, 3
  {
    var w := ReadLeft(isNumber, f, s, l, Spaces(n), r, inFunction);
    u := ReadBlanks(f, s, w, |FormText(l)|, RawTokens(Items(isNumber, l)), n);
    SecondOperand(f, s, l, Spaces(n), r, inFunction, u);
  }

  lemma SpacedReady(f: string, s: State, e: Form, inFunction: bool)
    requires Ready(f, s, e, inFunction) && e.Spaced?
    ensures var i, x := s.offset + e.before, FormText(e.e);
            && Formed(e.e, inFunction) && At(f, s.offset, Spaces(e.before)) && i < |f| && f[i] != ' '
            && At(f, i, x) && Clear(f, i + |x|, x) && At(f, i + |x|, Spaces(e.after))
            && (e.after > 0 && i + |x| + e.after < |f| ==> f[i + |x| + e.after] != ' ')
  {
    TextFirst(e.e, inFunction);
    SpacedAt(f, s.offset, e.before, FormText(e.e), e.after);
  }

  /** A text between blanks. */
  lemma SpacedAt(f: string, i: nat, m: nat, x: string, n: nat)
    requires At(f, i, Spaces(m) + (x + Spaces(n))) && Clear(f, i + |Spaces(m) + (x + Spaces(n))|, Spaces(m) + (x + Spaces(n)))
    requires x != "" && x[0] != ' ' && !EndsBlank(x)
    ensures At(f, i, Spaces(m)) && i + m < |f| && f[i + m] != ' '
    ensures At(f, i + m, x) && Clear(f, i + m + |x|, x) && At(f, i + m + |x|, Spaces(n))
    ensures n > 0 && i + m + |x| + n < |f| ==> f[i + m + |x| + n] != ' '
  {
    var tail := x + Spaces(n);
    SpacedEnds(f, i, m, x, n);
    AtSplit(f, i, Spaces(m), tail);
    TailAt(f, i + m, x, Spaces(n));
  }

  lemma TailAt(f: string, i: nat, x: string, y: string)
    requires At(f, i, x + y) && x != ""
    ensures i < |f| && f[i] == x[0] && At(f, i, x) && At(f, i + |x|, y)
  {
    AtSplit(f, i, x, y);
    AtFirst(f, i, x);
  }

  lemma SpacedStart(f: string, s: State, e: Form, inFunction: bool) returns (u: State)
    requires Ready(f, s, e, inFunction) && e.Spaced?
    ensures Idle(s) && Goes(f, s, u, RawTokens(BlankItems(e.before)), e.before) && Ready(f, u, e.e, inFunction)
    ensures var i := s.offset + e.before + |FormText(e.e)|;
            At(f, i, Spaces(e.after)) && (e.after > 0 && i + e.after < |f| ==> f[i + e.after] != ' ')
  {
    SpacedReady(f, s, e, inFunction);
    u := ReadLeading(f, s, e.before);
  }

  lemma ReadSpaced(isNumber: string -> bool, f: string, s: State, e: Form, inFunction: bool) returns (t: State)
    requires Ready(f, s, e, inFunction) && e.Spaced?
    ensures Done(isNumber, f, s, e, t)
    decreases e, 0
  {
    var m, x, n := e.before, e.e, e.after;
    var u := SpacedStart(f, s, e, inFunction);
    var w := ReadForm(isNumber, f, u, x, inFunction);
    var a, b, c := BlankItems(m), Items(isNumber, x), BlankItems(n);
    ReadsOn(f, s, u, w, m, RawTokens(a), |FormText(x)|, RawTokens(b));
    t := ReadTrailing(f, s, w, m + |FormText(x)|, RawTokens(a) + RawTokens(b), n);
    JoinedRaw(a, b, c);
    DoneIs(isNumber, f, s, e, t, m + |FormText(x)| + n, a + (b + c));
  }

  /** What stands behind the inner text and behind the whole. */
  lemma SpacedEnds(f: string, i: nat, m: nat, x: string, n: nat)
    requires x != "" && !EndsBlank(x) && Clear(f, i + |Spaces(m) + (x + Spaces(n))|, Spaces(m) + (x + Spaces(n)))
    ensures Clear(f, i + m + |x|, x) && (n > 0 && i + m + |x| + n < |f| ==> f[i + m + |x| + n] != ' ')
  {
    var s := Spaces(m) + (x + Spaces(n));
    if n > 0 {
      assert s[|s| - 1] == Spaces(n)[n - 1];
    }
  }

  lemma ReadLeading(f: string, s: State, m: nat) returns (u: State)
    requires Idle(s) && At(f, s.offset, Spaces(m)) && (s.offset + m < |f| ==> f[s.offset + m] != ' ')
    ensures u == Moved(s, RawTokens(BlankItems(m)), m) && Idle(u) && u.offset <= |f| && Same(f, s, u)
  {
    NothingRead(f, s);
    if m == 0 {
      u := s;
      assert s.items + RawTokens(BlankItems(0)) == s.items;
    } else {
      u := ReadBlanks(f, s, s, 0, [], m);
      LastOne(Item(BLANK, [], []));
      assert [] + [BLANK] == [BLANK];
    }
  }

  lemma ReadTrailing(f: string, s: State, t: State, k: nat, ts: seq<Token>, n: nat) returns (u: State)
    requires Idle(s) && Reads(f, s, t, k, ts) && At(f, t.offset, Spaces(n))
    requires n > 0 && t.offset + n < |f| ==> f[t.offset + n] != ' '
    ensures Reads(f, s, u, k + n, ts + RawTokens(BlankItems(n)))
  {
    if n == 0 {
      u := t;
      assert ts + RawTokens(BlankItems(0)) == ts;
    } else {
      u := ReadBlanks(f, s, t, k, ts, n);
      LastOne(Item(BLANK, [], []));
      IdleReads(f, s, u, k + n, ts + [BLANK]);
    }
  }

  lemma GroupReady(f: string, s: State, e: Form, inFunction: bool)
    requires Ready(f, s, e, inFunction) && e.Group?
    ensures var i, x := s.offset, FormText(e.e);
            && Formed(e.e, false) && |FormText(e)| == 2 + |x|
            && i + 1 + |x| < |f| && f[i] == '(' && f[i + 1 + |x|] == ')' && At(f, i + 1, x) && Clear(f, i + 1 + |x|, x)
  {
    ParenText(f, s.offset, FormText(e.e));
  }

  lemma ReadGroup(isNumber: string -> bool, f: string, s: State, e: Form, inFunction: bool) returns (t: State)
    requires Ready(f, s, e, inFunction) && e.Group?
    ensures Done(isNumber, f, s, e, t)
    decreases e, 0
  {
    var x := e.e;
    GroupReady(f, s, e, inFunction);
    var u := ReadOpen(f, s);
    var w := ReadForm(isNumber, f, u, x, false);
    t := ReadClose(f, s, u, w, |FormText(x)|, RawTokens(Items(isNumber, x)));
    FramedRaw(Kept(OPEN), Items(isNumber, x), [Kept(CLOSE)]);
    LastOne(Kept(CLOSE));
    DoneIs(isNumber, f, s, e, t, 2 + |FormText(x)|, [Kept(OPEN)] + (Items(isNumber, x) + [Kept(CLOSE)]));
  }

  lemma FramedRaw(first: Item, its: seq<Item>, last: seq<Item>)
    ensures RawTokens([first] + (its + last)) == [first.raw] + (RawTokens(its) + RawTokens(last))
  {
    RawSplit([first], its + last);
    RawSplit(its, last);
    LastOne(first);
  }

  lemma ReadCall(isNumber: string -> bool, f: string, s: State, e: Form, inFunction: bool) returns (t: State)
    requires Ready(f, s, e, inFunction) && e.Call?
    ensures Done(isNumber, f, s, e, t)
    decreases e, 0
  {
    var name, args := e.name, e.args;
    var x := ArgsText(args);
    AtSplit(f, s.offset, name, "(" + (x + ")"));
    ParenText(f, s.offset + |name|, x);
    var start := Token(name, Function, Start);
    var u := ReadName(f, s, name);
    var w := ReadArgs(isNumber, f, u, args);
    t := ReadEnd(f, s, start, |name| + 1, u, w, |x|, RawTokens(ArgsItems(isNumber, args)));
    FramedRaw(StartItem(name), ArgsItems(isNumber, args), [Kept(END)]);
    LastOne(Kept(END));
    DoneIs(isNumber, f, s, e, t, |name| + 1 + |x| + 1, [StartItem(name)] + (ArgsItems(isNumber, args) + [Kept(END)]));
  }

  /** The end of an argument: a character that is no blank. */
  lemma ReadArg(isNumber: string -> bool, f: string, s: State, a: Option<Form>) returns (t: State)
    requires ArgFormed(a) && InFunction(s) && Idle(s) && At(f, s.offset, ArgText(a))
    requires s.offset + |ArgText(a)| < |f| && f[s.offset + |ArgText(a)|] != ' '
    ensures Reads(f, s, t, |ArgText(a)|, RawTokens(ArgItems(isNumber, a))) && t.offset == s.offset + |ArgText(a)|
    decreases a, 2
  {
    match a
    case None =>
      NothingRead(f, s);
      t := s;
    case Some(e) =>
      assert Ready(f, s, e, true);
      t := ReadForm(isNumber, f, s, e, true);
  }

  /** An argument and the comma behind it. */
  lemma ReadArgComma(isNumber: string -> bool, f: string, s: State, a: Option<Form>, y: string) returns (u: State)
    requires ArgFormed(a) && InFunction(s) && Idle(s) && At(f, s.offset, ArgText(a) + ("," + y))
    ensures u == Moved(s, RawTokens(ArgItems(isNumber, a)) + [COMMA], |ArgText(a)| + 1)
    ensures Idle(u) && u.offset <= |f| && Same(f, s, u) && At(f, u.offset, y)
    decreases a, 3
  {
    var x := ArgText(a);
    AtSplit(f, s.offset, x, "," + y);
    AtSplit(f, s.offset + |x|, ",", y);
    AtFirst(f, s.offset + |x|, ",");
    var w := ReadArg(isNumber, f, s, a);
    CommaAdds(f, w);
    u := StepAdds(f, s, w, |x|, RawTokens(ArgItems(isNumber, a)), COMMA, 1);
  }

  lemma {:induction false} ReadArgs(isNumber: string -> bool, f: string, s: State, args: Forms) returns (t: State)
    requires ArgsFormed(args) && InFunction(s) && Idle(s) && At(f, s.offset, ArgsText(args))
    requires s.offset + |ArgsText(args)| < |f| && f[s.offset + |ArgsText(args)|] != ' '
    ensures Reads(f, s, t, |ArgsText(args)|, RawTokens(ArgsItems(isNumber, args)))
    ensures t.offset == s.offset + |ArgsText(args)|
    decreases args, 3
  {
    match args
    case One(a) => t := ReadArg(isNumber, f, s, a);
    case More(a, rest) =>
      var x, y := ArgText(a), ArgsText(rest);
      var u := ReadArgComma(isNumber, f, s, a, y);
      t := ReadArgs(isNumber, f, u, rest);
      ReadsOn(f, s, u, t, |x| + 1, RawTokens(ArgItems(isNumber, a)) + [COMMA], |y|, RawTokens(ArgsItems(isNumber, rest)));
      JoinedRaw(ArgItems(isNumber, a), [Kept(COMMA)], ArgsItems(isNumber, rest));
      LastOne(Kept(COMMA));
      ReadsTo(f, s, t, |ArgsText(args)|, RawTokens(ArgsItems(isNumber, args)));
  }

  lemma JoinedRaw(a: seq<Item>, mid: seq<Item>, b: seq<Item>)
    ensures RawTokens(a + (mid + b)) == RawTokens(a) + RawTokens(mid) + RawTokens(b)
  {
    RawSplit(a, mid + b);
    RawSplit(mid, b);
  }

  /** A row of an array and the semicolon behind it. */
  lemma ReadRow(isNumber: string -> bool, f: string, s: State, cells: Forms, y: string) returns (u: State)
    requires ArgsFormed(cells) && InRow(s) && Idle(s) && At(f, s.offset, ArgsText(cells) + (";" + y))
    ensures u == Moved(s, RawTokens(ArgsItems(isNumber, cells)) + [END, COMMA, ROW], |ArgsText(cells)| + 1)
    ensures Idle(u) && u.offset <= |f| && Same(f, s, u) && At(f, u.offset, y)
    decreases cells, 4
  {
    var x := ArgsText(cells);
    AtSplit(f, s.offset, x, ";" + y);
    AtSplit(f, s.offset + |x|, ";", y);
    AtFirst(f, s.offset + |x|, ";");
    var w := ReadArgs(isNumber, f, s, cells);
    u := ReadRowEnd(f, s, w, |x|, RawTokens(ArgsItems(isNumber, cells)));
  }

  lemma {:induction false} ReadRows(isNumber: string -> bool, f: string, s: State, rows: Rows) returns (t: State)
    requires RowsFormed(rows) && InRow(s) && Idle(s) && At(f, s.offset, RowsText(rows))
    requires s.offset + |RowsText(rows)| < |f| && f[s.offset + |RowsText(rows)|] != ' '
    ensures Reads(f, s, t, |RowsText(rows)|, RawTokens(RowsItems(isNumber, rows)))
    ensures t.offset == s.offset + |RowsText(rows)|
    decreases rows, 4
  {
    match rows
    case LastRow(cells) => t := ReadArgs(isNumber, f, s, cells);
    case NextRow(cells, rest) =>
      var x, y, a := ArgsText(cells), RowsText(rest), ArgsItems(isNumber, cells);
      var u := ReadRow(isNumber, f, s, cells, y);
      t := ReadRows(isNumber, f, u, rest);
      ReadsOn(f, s, u, t, |x| + 1, RawTokens(a) + [END, COMMA, ROW], |y|, RawTokens(RowsItems(isNumber, rest)));
      JoinedRaw(a, [Kept(END), Kept(COMMA), StartItem("ARRAYROW")], RowsItems(isNumber, rest));
      RowMark();
      ReadsTo(f, s, t, |RowsText(rows)|, RawTokens(RowsItems(isNumber, rows)));
  }

  lemma RowMark()
    ensures RawTokens([Kept(END), Kept(COMMA), StartItem("ARRAYROW")]) == [END, COMMA, ROW]
    ensures RawTokens([Kept(END), Kept(END)]) == [END, END]
  {
  }

  lemma ReadArray(isNumber: string -> bool, f: string, s: State, e: Form, inFunction: bool) returns (t: State)
    requires Ready(f, s, e, inFunction) && e.Table?
    ensures Done(isNumber, f, s, e, t)
    decreases e, 0
  {
    var x, its := RowsText(e.rows), RowsItems(isNumber, e.rows);
    AtSplit(f, s.offset, "{", x + "}");
    AtSplit(f, s.offset + 1, x, "}");
    AtFirst(f, s.offset, "{");
    AtFirst(f, s.offset + 1 + |x|, "}");
    var u := ReadTable(f, s);
    var w := ReadRows(isNumber, f, u, e.rows);
    t := ReadTableEnd(f, s, u, w, |x|, RawTokens(its));
    RowMark();
    FramedRaw(StartItem("ARRAYROW"), its, [Kept(END), Kept(END)]);
    RawSplit([StartItem("ARRAY")], [StartItem("ARRAYROW")] + (its + [Kept(END), Kept(END)]));
    LastOne(StartItem("ARRAY"));
    DoneIs(isNumber, f, s, e, t, |x| + 2, [StartItem("ARRAY")] + ([StartItem("ARRAYROW")] + (its + [Kept(END), Kept(END)])));
  }
}

/** String literals and error values in formulas. */
module Literals {
  import opened Tokenizer
  import TokenStream
  import opened Formula

  // As the tokenizer reads them (backend/excelize/efp.go).

  // ----- strings -----

  /** The way a quote is written between quotes: twice. */
  function Doubled(q: char, x: string): string {
    if x == "" then "" else (if x[0] == q then [q, q] else [x[0]]) + Doubled(q, x[1..])
  }

  function Quoted(q: char, x: string): string {
    [q] + (Doubled(q, x) + [q])
  }

  function Literal(x: string): string {
    Quoted('\"', x)
  }

  function TextToken(v: string): Token {
    Token(v, Operand, Text)
  }

  /** The tokens that come out: a new one after every quote; `v` has been gathered before `x`. */
  function Pieces(v: string, x: string): (ts: seq<Token>)
    decreases |x|
  {
    if x == "" then [TextToken(v)]
    else if x[0] == '\"' then [TextToken(v)] + Pieces("", x[1..])
    else Pieces(v + [x[0]], x[1..])
  }

  lemma PiecesCons(v: string, c: char, x: string)
    ensures Pieces(v, [c] + x) == if c == '\"' then [TextToken(v)] + Pieces("", x) else Pieces(v + [c], x)
  {
    assert ([c] + x)[1..] == x;
  }

  /** They are one token, of the whole text, exactly when there is no quote. */
  lemma {:induction false} PiecesExact(v: string, x: string)
    ensures |Pieces(v, x)| >= 1
    ensures '\"' !in x ==> Pieces(v, x) == [TextToken(v + x)]
    ensures '\"' in x ==> |Pieces(v, x)| > 1
    decreases |x|
  {
    if x == "" {
      assert v + x == v;
    } else {
      PiecesExact(if x[0] == '\"' then "" else v + [x[0]], x[1..]);
      assert x == [x[0]] + x[1..];
      assert v + [x[0]] + x[1..] == v + x;
    }
  }

  lemma {:induction false} PiecesText(v: string, x: string)
    ensures AllTexts(Pieces(v, x))
    decreases |x|
  {
    if x != "" {
      PiecesText(if x[0] == '\"' then "" else v + [x[0]], x[1..]);
    }
  }

  /** Inside a string, `v` gathered. */
  predicate InText(s: State, v: string) {
    s.inString && s.token == v && !s.inPath && !s.inError
  }

  /** `s` behind the string, with the tokens `ts`. */
  function Ended(s: State, ts: seq<Token>, n: nat): State {
    s.(items := s.items + ts, offset := s.offset + n, inString := false, token := "")
  }

  lemma TextStep(f: string, s: State, v: string)
    requires InText(s, v) && s.offset < |f|
    ensures f[s.offset] == '\"' ==> Step(f, s) == Ended(s, [TextToken(v)], 1)
    ensures f[s.offset] != '\"' ==> Step(f, s) == s.(token := v + [f[s.offset]], offset := s.offset + 1)
  {
  }

  lemma QuoteStep(f: string, s: State)
    requires Idle(s) && s.offset < |f| && f[s.offset] == '\"'
    ensures Step(f, s) == s.(inString := true, offset := s.offset + 1)
  {
  }

  lemma DoubledCons(q: char, c: char, x: string)
    ensures Doubled(q, [c] + x) == (if c == q then [q, q] else [c]) + Doubled(q, x)
  {
    assert ([c] + x)[1..] == x;
  }

  /** The rest of a string literal. */
  lemma {:induction false} ReadText(f: string, s: State, v: string, x: string) returns (t: State)
    requires InText(s, v) && At(f, s.offset, Doubled('\"', x) + ['\"'])
    ensures t == Ended(s, Pieces(v, x), |Doubled('\"', x)| + 1) && t.offset <= |f| && Same(f, s, t)
    decreases |x|
  {
    if x == "" {
      assert Doubled('\"', x) + ['\"'] == ['\"'];
      t := ReadEnd(f, s, v);
    } else {
      var c, y := x[0], x[1..];
      assert x == [c] + y;
      DoubledCons('\"', c, y);
      PiecesCons(v, c, y);
      if c == '\"' {
        t := ReadQuotes(f, s, v, y);
      } else {
        t := ReadPlain(f, s, v, c, y);
      }
    }
  }

  lemma ReadEnd(f: string, s: State, v: string) returns (t: State)
    requires InText(s, v) && At(f, s.offset, ['\"'])
    ensures t == Ended(s, [TextToken(v)], 1) && t.offset <= |f| && Same(f, s, t)
  {
    AtFirst(f, s.offset, ['\"']);
    TextStep(f, s, v);
    RunStep(f, s);
    t := Step(f, s);
  }

  lemma PlainAt(f: string, i: nat, q: char, c: char, y: string)
    requires At(f, i, [c] + Doubled(q, y) + [q])
    ensures i < |f| && f[i] == c && At(f, i + 1, Doubled(q, y) + [q])
  {
    assert [c] + Doubled(q, y) + [q] == [c] + (Doubled(q, y) + [q]);
    AtSplit(f, i, [c], Doubled(q, y) + [q]);
    AtFirst(f, i, [c]);
  }

  lemma ReadPlain(f: string, s: State, v: string, c: char, y: string) returns (t: State)
    requires InText(s, v) && c != '\"' && At(f, s.offset, [c] + Doubled('\"', y) + ['\"'])
    ensures t == Ended(s, Pieces(v + [c], y), |Doubled('\"', y)| + 2) && t.offset <= |f| && Same(f, s, t)
    decreases |y| + 1, 0
  {
    PlainAt(f, s.offset, '\"', c, y);
    TextStep(f, s, v);
    RunStep(f, s);
    t := ReadText(f, Step(f, s), v + [c], y);
    SameTrans(f, s, Step(f, s), t);
  }

  lemma QuotesAt(f: string, i: nat, q: char, y: string)
    requires At(f, i, [q, q] + Doubled(q, y) + [q])
    ensures i + 1 < |f| && f[i] == q && f[i + 1] == q && At(f, i + 2, Doubled(q, y) + [q])
  {
    assert [q, q] + Doubled(q, y) + [q] == [q, q] + (Doubled(q, y) + [q]);
    AtSplit(f, i, [q, q], Doubled(q, y) + [q]);
    assert f[i..i + 2] == [q, q];
    assert f[i] == f[i..i + 2][0] && f[i + 1] == f[i..i + 2][1];
  }

  /** Two quotes end the string and begin another. */
  lemma TwoQuotes(f: string, s: State, v: string) returns (u: State)
    requires InText(s, v) && s.offset + 1 < |f| && f[s.offset] == '\"' && f[s.offset + 1] == '\"'
    ensures u == s.(items := s.items + [TextToken(v)], offset := s.offset + 2, token := "") && Same(f, s, u)
  {
    TextStep(f, s, v);
    RunStep(f, s);
    var t := Step(f, s);
    QuoteStep(f, t);
    RunStep(f, t);
    u := Step(f, t);
    SameTrans(f, s, t, u);
  }

  lemma EndedBehind(s: State, u: State, t: Token, ts: seq<Token>, n: nat)
    requires u == s.(items := s.items + [t], offset := s.offset + 2, token := "")
    ensures Ended(u, ts, n) == Ended(s, [t] + ts, n + 2)
  {
    assert s.items + [t] + ts == s.items + ([t] + ts);
  }

  lemma ReadQuotes(f: string, s: State, v: string, y: string) returns (t: State)
    requires InText(s, v) && At(f, s.offset, ['\"', '\"'] + Doubled('\"', y) + ['\"'])
    ensures t == Ended(s, [TextToken(v)] + Pieces("", y), |Doubled('\"', y)| + 3) && t.offset <= |f| && Same(f, s, t)
    decreases |y| + 1, 0
  {
    QuotesAt(f, s.offset, '\"', y);
    var u := TwoQuotes(f, s, v);
    t := ReadText(f, u, "", y);
    SameTrans(f, s, u, t);
    EndedBehind(s, u, TextToken(v), Pieces("", y), |Doubled('\"', y)| + 1);
  }

  /** A string literal in the text of a formula: from any idle state the first pass adds its pieces. */
  lemma ReadLiteral(f: string, s: State, x: string) returns (t: State)
    requires Idle(s) && At(f, s.offset, Literal(x))
    ensures t == Moved(s, Pieces("", x), |Literal(x)|) && t.offset <= |f| && Same(f, s, t)
    ensures Pieces("", x) == [TextToken(x)] <==> '\"' !in x
  {
    AtSplit(f, s.offset, ['\"'], Doubled('\"', x) + ['\"']);
    AtFirst(f, s.offset, ['\"']);
    QuoteStep(f, s);
    RunStep(f, s);
    t := ReadText(f, Step(f, s), "", x);
    SameTrans(f, s, Step(f, s), t);
    PiecesExact("", x);
    assert "" + x == x;
  }

  // ----- a formula that is a string literal -----

  lemma LiteralRaw(x: string)
    ensures Raw("=" + Literal(x)) == [EQUALS] + Pieces("", x)
  {
    var f := "=" + Literal(x);
    var s := ReadEquals(f);
    assert f[1..1 + |Literal(x)|] == Literal(x);
    var t := ReadLiteral(f, s, x);
    SameTrans(f, INITIAL, s, t);
    SameRun(f, INITIAL, t);
    RunEnds(f, t);
  }

  lemma TextSettled(isNumber: string -> bool, left: bool, t: Token)
    requires t.tp == Operand && t.sub == Text
    ensures SettledBehind(isNumber, left, t) == t
  {
  }

  ghost predicate AllTexts(ts: seq<Token>) {
    forall i | 0 <= i < |ts| :: ts[i].tp == Operand && ts[i].sub == Text
  }

  lemma SettledTexts(isNumber: string -> bool, ts: seq<Token>)
    requires AllTexts(ts)
    ensures SettleAll(isNumber, ts) == ts
  {
    var out := SettleAll(isNumber, ts);
    forall i | 0 <= i < |ts| ensures out[i] == ts[i] {
      TextSettled(isNumber, HasLeftOperand(ts, i), ts[i]);
    }
  }

  lemma CleanTexts(isNumber: string -> bool, ts: seq<Token>)
    requires AllTexts(ts)
    ensures WithoutNoops(SettleAll(isNumber, ts), |ts|) == ts
  {
    SettledTexts(isNumber, ts);
    KeepAll(ts, |ts|);
    assert ts[..|ts|] == ts;
  }

  /** The formula is one text token, with the text the literal stands for, exactly when the text has no quote. */
  lemma StringFormula(isNumber: string -> bool, x: string)
    ensures Tokenised(isNumber, Literal(x)) == Pieces("", x)
    ensures Tokenised(isNumber, Literal(x)) == [TextToken(x)] <==> '\"' !in x
  {
    Unspaced(Literal(x));
    assert Literal(x)[|Literal(x)| - 1] == '\"';
    LiteralRaw(x);
    PiecesText("", x);
    TightTokens(Pieces("", x));
    CleanTexts(isNumber, Pieces("", x));
    PiecesExact("", x);
    assert "" + x == x;
  }

  lemma QuotePieces()
    ensures Pieces("", "a\"b") == [TextToken("a"), TextToken("b")]
  {
    assert "a\"b" == ['a'] + "\"b" && "\"b" == ['\"'] + "b" && "b" == ['b'] + "";
    PiecesCons("", 'a', "\"b");
    PiecesCons("a", '\"', "b");
    PiecesCons("", 'b', "");
    assert "" + ['b'] == "b" && "" + ['a'] == "a";
  }

  lemma QuoteText()
    ensures Literal("a\"b") == "\"a\"\"b\""
  {
    assert "a\"b" == ['a'] + "\"b" && "\"b" == ['\"'] + "b" && "b" == ['b'] + "";
    DoubledCons('\"', 'a', "\"b");
    DoubledCons('\"', '\"', "b");
    DoubledCons('\"', 'b', "");
    assert Doubled('\"', "b") == "b";
    assert Doubled('\"', "\"b") == "\"\"b";
    assert Doubled('\"', "a\"b") == "a\"\"b";
  }

  /** `"a""b"`, which stands for `a"b`, comes out as `a` and `b`. */
  lemma QuoteExample(isNumber: string -> bool)
    ensures Tokenised(isNumber, "\"a\"\"b\"") == [TextToken("a"), TextToken("b")]
  {
    QuoteText();
    QuotePieces();
    StringFormula(isNumber, "a\"b");
  }

  // ----- quoted paths -----

  function Path(x: string): string {
    Quoted('\'', x)
  }

  function Piece(v: string): seq<Token> {
    if v == "" then [] else [Token(v, Unknown, Nothing)]
  }

  /** The tokens a path leaves behind: one at every apostrophe; `v` has been gathered before `x`. */
  function PathTokens(v: string, x: string): (ts: seq<Token>)
    decreases |x|
  {
    if x == "" then []
    else if x[0] == '\'' then Piece(v) + PathTokens("", x[1..])
    else PathTokens(v + [x[0]], x[1..])
  }

  /** The text that is still gathered at its end. */
  function PathRest(v: string, x: string): string
    decreases |x|
  {
    if x == "" then v
    else if x[0] == '\'' then PathRest("", x[1..])
    else PathRest(v + [x[0]], x[1..])
  }

  lemma PathCons(v: string, c: char, x: string)
    ensures PathTokens(v, [c] + x) == if c == '\'' then Piece(v) + PathTokens("", x) else PathTokens(v + [c], x)
    ensures PathRest(v, [c] + x) == if c == '\'' then PathRest("", x) else PathRest(v + [c], x)
  {
    assert ([c] + x)[1..] == x;
  }

  /** Nothing is left behind, and the whole text is there, exactly when there is no apostrophe. */
  lemma {:induction false} PathExact(v: string, x: string)
    requires '\'' !in v
    ensures '\'' !in PathRest(v, x)
    ensures '\'' !in x ==> PathTokens(v, x) == [] && PathRest(v, x) == v + x
    decreases |x|
  {
    if x == "" {
      assert v + x == v;
    } else {
      PathExact(if x[0] == '\'' then "" else v + [x[0]], x[1..]);
      assert x == [x[0]] + x[1..];
      assert v + [x[0]] + x[1..] == v + x;
    }
  }

  predicate InPathText(s: State, v: string) {
    s.inPath && s.token == v && !s.inString && !s.inError
  }

  /** `s` behind the path: the rest `v` is not yet a token. */
  function Left(s: State, ts: seq<Token>, v: string, n: nat): State {
    s.(items := s.items + ts, offset := s.offset + n, inPath := false, token := v)
  }

  lemma PathStep(f: string, s: State, v: string)
    requires InPathText(s, v) && s.offset < |f|
    ensures f[s.offset] == '\'' ==> Step(f, s) == Left(s, [], v, 1)
    ensures f[s.offset] != '\'' ==> Step(f, s) == s.(token := v + [f[s.offset]], offset := s.offset + 1)
  {
  }

  lemma ApostropheStep(f: string, s: State)
    requires !s.inString && !s.inPath && !s.inError && s.offset < |f| && f[s.offset] == '\''
    ensures Step(f, s) == s.(items := s.items + Piece(s.token), token := "", inPath := true, offset := s.offset + 1)
  {
  }

  /** The rest of a path. */
  lemma {:induction false} ReadInside(f: string, s: State, v: string, x: string) returns (t: State)
    requires InPathText(s, v) && At(f, s.offset, Doubled('\'', x) + ['\''])
    ensures t == Left(s, PathTokens(v, x), PathRest(v, x), |Doubled('\'', x)| + 1) && t.offset <= |f| && Same(f, s, t)
    decreases |x|, 1
  {
    if x == "" {
      assert Doubled('\'', x) + ['\''] == ['\''];
      AtFirst(f, s.offset, ['\'']);
      PathStep(f, s, v);
      RunStep(f, s);
      t := Step(f, s);
    } else {
      var c, y := x[0], x[1..];
      assert x == [c] + y;
      DoubledCons('\'', c, y);
      PathCons(v, c, y);
      if c == '\'' {
        t := ReadApostrophes(f, s, v, y);
      } else {
        t := ReadOther(f, s, v, c, y);
      }
    }
  }

  lemma ReadOther(f: string, s: State, v: string, c: char, y: string) returns (t: State)
    requires InPathText(s, v) && c != '\'' && At(f, s.offset, [c] + Doubled('\'', y) + ['\''])
    ensures t == Left(s, PathTokens(v + [c], y), PathRest(v + [c], y), |Doubled('\'', y)| + 2)
    ensures t.offset <= |f| && Same(f, s, t)
    decreases |y| + 1, 0
  {
    PlainAt(f, s.offset, '\'', c, y);
    PathStep(f, s, v);
    RunStep(f, s);
    t := ReadInside(f, Step(f, s), v + [c], y);
    SameTrans(f, s, Step(f, s), t);
  }

  /** Two apostrophes end the path and begin another. */
  lemma TwoApostrophes(f: string, s: State, v: string) returns (u: State)
    requires InPathText(s, v) && s.offset + 1 < |f| && f[s.offset] == '\'' && f[s.offset + 1] == '\''
    ensures u == s.(items := s.items + Piece(v), offset := s.offset + 2, token := "") && Same(f, s, u)
  {
    PathStep(f, s, v);
    RunStep(f, s);
    var t := Step(f, s);
    ApostropheStep(f, t);
    RunStep(f, t);
    u := Step(f, t);
    SameTrans(f, s, t, u);
  }

  lemma LeftBehind(s: State, u: State, ts: seq<Token>, more: seq<Token>, v: string, n: nat)
    requires u == s.(items := s.items + ts, offset := s.offset + 2, token := "")
    ensures Left(u, more, v, n) == Left(s, ts + more, v, n + 2)
  {
    assert s.items + ts + more == s.items + (ts + more);
  }

  lemma ReadApostrophes(f: string, s: State, v: string, y: string) returns (t: State)
    requires InPathText(s, v) && At(f, s.offset, ['\'', '\''] + Doubled('\'', y) + ['\''])
    ensures t == Left(s, Piece(v) + PathTokens("", y), PathRest("", y), |Doubled('\'', y)| + 3)
    ensures t.offset <= |f| && Same(f, s, t)
    decreases |y| + 1, 0
  {
    QuotesAt(f, s.offset, '\'', y);
    var u := TwoApostrophes(f, s, v);
    t := ReadInside(f, u, "", y);
    SameTrans(f, s, u, t);
    LeftBehind(s, u, Piece(v), PathTokens("", y), PathRest("", y), |Doubled('\'', y)| + 1);
  }

  /** A quoted path in the text of a formula: from any idle state it leaves the tokens of its pieces and the last piece
      to go on with; this is the whole path, and no token, exactly when the path has no apostrophe. */
  lemma ReadPath(f: string, s: State, x: string) returns (t: State)
    requires Idle(s) && At(f, s.offset, Path(x))
    ensures t == Left(s, PathTokens("", x), PathRest("", x), |Path(x)|) && t.offset <= |f| && Same(f, s, t)
    ensures t.items == s.items && t.token == x <==> '\'' !in x
  {
    AtSplit(f, s.offset, ['\''], Doubled('\'', x) + ['\'']);
    AtFirst(f, s.offset, ['\'']);
    ApostropheStep(f, s);
    RunStep(f, s);
    t := ReadInside(f, Step(f, s), "", x);
    SameTrans(f, s, Step(f, s), t);
    PathExact("", x);
    assert "" + x == x && s.items + [] == s.items;
  }

  // ----- a formula that is a reference behind a path -----

  /** The rest of a reference: characters that are only gathered. */
  predicate IsName(r: string) {
    r != "" && forall i | 0 <= i < |r| :: Gathered(r[i])
  }

  function NameToken(isNumber: string -> bool, v: string): Token {
    SettledBehind(isNumber, false, Token(v, Operand, Nothing))
  }

  lemma ReadReference(f: string, s: State, x: string, r: string) returns (u: State)
    requires Idle(s) && IsName(r) && At(f, s.offset, Path(x) + r)
    ensures u == Left(s, PathTokens("", x), PathRest("", x) + r, |Path(x)| + |r|)
    ensures u.offset <= |f| && Same(f, s, u)
  {
    AtSplit(f, s.offset, Path(x), r);
    var t := ReadPath(f, s, x);
    u := Gather(f, t, r);
    SameTrans(f, s, t, u);
  }

  lemma PathRaw(x: string, r: string)
    requires IsName(r)
    ensures Raw("=" + (Path(x) + r)) == [EQUALS] + (PathTokens("", x) + [Token(PathRest("", x) + r, Operand, Nothing)])
  {
    var f := "=" + (Path(x) + r);
    var s := ReadEquals(f);
    assert f[1..1 + |Path(x) + r|] == Path(x) + r;
    var u := ReadReference(f, s, x, r);
    SameTrans(f, INITIAL, s, u);
    PathEnds(f, u, PathTokens("", x), PathRest("", x) + r);
  }

  /** The end of the text, with `v` still gathered. */
  lemma PathEnds(f: string, u: State, ts: seq<Token>, v: string)
    requires Same(f, INITIAL, u) && u.offset == |f| && u.items == [EQUALS] + ts && u.token == v != ""
    ensures Raw(f) == [EQUALS] + (ts + [Token(v, Operand, Nothing)])
  {
    SameRun(f, INITIAL, u);
    RunEnds(f, u);
    assert [EQUALS] + ts + [Token(v, Operand, Nothing)] == [EQUALS] + (ts + [Token(v, Operand, Nothing)]);
  }

  /** Pieces of a path. */
  ghost predicate AllUnknown(ts: seq<Token>) {
    forall i | 0 <= i < |ts| :: ts[i].tp == Unknown && ts[i].sub == Nothing
  }

  lemma {:induction false} PathUnknown(v: string, x: string)
    ensures AllUnknown(PathTokens(v, x))
    decreases |x|
  {
    if x != "" {
      PathUnknown(if x[0] == '\'' then "" else v + [x[0]], x[1..]);
    }
  }

  lemma CleanPath(isNumber: string -> bool, ts: seq<Token>, v: string)
    requires AllUnknown(ts)
    ensures var items := ts + [Token(v, Operand, Nothing)];
            WithoutNoops(SettleAll(isNumber, items), |items|) == ts + [NameToken(isNumber, v)]
  {
    var items := ts + [Token(v, Operand, Nothing)];
    var out := SettleAll(isNumber, items);
    assert out == ts + [NameToken(isNumber, v)];
    KeepAll(out, |out|);
    assert out[..|out|] == out;
  }

  /** The formula is one operand, the reference with its path, exactly when the path has no apostrophe. */
  lemma PathFormula(isNumber: string -> bool, x: string, r: string)
    requires IsName(r)
    ensures Tokenised(isNumber, Path(x) + r) == PathTokens("", x) + [NameToken(isNumber, PathRest("", x) + r)]
    ensures Tokenised(isNumber, Path(x) + r) == [NameToken(isNumber, x + r)] <==> '\'' !in x
  {
    var f, ts, v := Path(x) + r, PathTokens("", x), PathRest("", x) + r;
    assert f[|f| - 1] == r[|r| - 1] && Gathered(r[|r| - 1]);
    Unspaced(f);
    PathRaw(x, r);
    PathUnknown("", x);
    TightTokens(ts + [Token(v, Operand, Nothing)]);
    CleanPath(isNumber, ts, v);
    PathOnly(isNumber, x, r);
  }

  lemma PathOnly(isNumber: string -> bool, x: string, r: string)
    ensures PathTokens("", x) + [NameToken(isNumber, PathRest("", x) + r)] == [NameToken(isNumber, x + r)] <==> '\'' !in x
  {
    PathExact("", x);
    var out := PathTokens("", x) + [NameToken(isNumber, PathRest("", x) + r)];
    if out == [NameToken(isNumber, x + r)] {
      assert out[|out| - 1] == NameToken(isNumber, PathRest("", x) + r);
      assert (PathRest("", x) + r)[..|PathRest("", x)|] == PathRest("", x) && (x + r)[..|x|] == x;
      assert |PathRest("", x) + r| == |PathRest("", x)| + |r|;
      assert PathRest("", x) == x;
    } else {
      assert "" + x == x;
    }
  }

  /** `'It''s'!A1`, a cell of the sheet It's, comes out as a token of unknown type and the reference `s!A1`. */
  lemma PathExample(isNumber: string -> bool)
    ensures Tokenised(isNumber, "'It''s'!A1") == [Token("It", Unknown, Nothing), NameToken(isNumber, "s!A1")]
  {
    ItsText();
    ItsPieces();
    ItsName();
    PathCase(isNumber, "It's", "!A1", "'It''s'!A1", [Token("It", Unknown, Nothing)], "s!A1");
  }

  lemma PathCase(isNumber: string -> bool, x: string, r: string, text: string, ts: seq<Token>, v: string)
    requires IsName(r) && text == Path(x) + r && ts == PathTokens("", x) && v == PathRest("", x) + r
    ensures Tokenised(isNumber, text) == ts + [NameToken(isNumber, v)]
  {
    PathFormula(isNumber, x, r);
  }

  lemma ItsName()
    ensures IsName("!A1") && "'It''s'" + "!A1" == "'It''s'!A1" && "s" + "!A1" == "s!A1"
  {
    assert Gathered('!') && Gathered('A') && Gathered('1');
  }

  lemma ItsText()
    ensures Path("It's") == "'It''s'"
  {
    var q := '\'';
    assert "It's" == ['I'] + "t's" && "t's" == ['t'] + "'s" && "'s" == [q] + "s" && "s" == ['s'] + "";
    DoubledCons(q, 'I', "t's");
    DoubledCons(q, 't', "'s");
    DoubledCons(q, q, "s");
    DoubledCons(q, 's', "");
    assert Doubled(q, "s") == "s";
    assert Doubled(q, "'s") == "''s";
    assert Doubled(q, "t's") == "t''s";
    assert Doubled(q, "It's") == "It''s";
  }

  lemma ItsPieces()
    ensures PathTokens("", "It's") == [Token("It", Unknown, Nothing)] && PathRest("", "It's") == "s"
  {
    var q := '\'';
    assert "It's" == ['I'] + "t's" && "t's" == ['t'] + "'s" && "'s" == [q] + "s" && "s" == ['s'] + "";
    PathCons("", 'I', "t's");
    PathCons("I", 't', "'s");
    PathCons("It", q, "s");
    PathCons("", 's', "");
    assert "" + ['I'] == "I" && "I" + ['t'] == "It" && "" + ['s'] == "s";
  }

  // ----- error values -----

  datatype Mode = Outside | InString | InPath

  /** Where the text stands before index `i`: outside, in a string or in a quoted path. */
  function ModeAt(f: string, i: nat): Mode
    requires i <= |f|
  {
    if i == 0 then Outside
    else
      match ModeAt(f, i - 1)
      case Outside => if f[i - 1] == '\"' then InString else if f[i - 1] == '\'' then InPath else Outside
      case InString => if f[i - 1] == '\"' then Outside else InString
      case InPath => if f[i - 1] == '\'' then Outside else InPath
  }

  predicate IsError(f: string, i: nat)
    requires i < |f|
  {
    f[i] == '#' && ModeAt(f, i) == Outside
  }

  /** The first `#` outside strings and paths is at `i`. */
  predicate FirstError(f: string, i: nat) {
    i < |f| && IsError(f, i) && forall j | 0 <= j < i :: !IsError(f, j)
  }

  predicate InMode(s: State, m: Mode) {
    !s.inError && s.inString == (m == InString) && s.inPath == (m == InPath)
  }

  lemma {:induction false} SpacesOutside(f: string, i: nat, j: nat)
    requires i <= |f| && ModeAt(f, i) == Outside && i <= j <= SkipSpaces(f, i)
    ensures ModeAt(f, j) == Outside && forall k | i <= k < j :: f[k] == ' '
    decreases j - i
  {
    if i < j {
      assert ModeAt(f, i + 1) == Outside;
      SpacesOutside(f, i + 1, j);
    }
  }

  /** Before the first error value a turn keeps the mode and does not pass the error. */
  lemma StepMode(f: string, s: State, i: nat)
    requires FirstError(f, i) && s.offset < i && InMode(s, ModeAt(f, s.offset))
    ensures var t := Step(f, s); s.offset < t.offset <= i && InMode(t, ModeAt(f, t.offset))
  {
    StepMoves(f, s);
    if ModeAt(f, s.offset) == Outside {
      assert !IsError(f, s.offset);
      if f[s.offset] == ' ' {
        SpacesMode(f, s, i);
      } else if DoubleChar(f, s.offset) in COMPARATORS {
        ComparatorMode(f, s, i);
      } else {
        OutsideStep(f, s);
      }
    } else {
      InsideStep(f, s);
    }
  }

  lemma InsideStep(f: string, s: State)
    requires s.offset < |f| && InMode(s, ModeAt(f, s.offset)) && ModeAt(f, s.offset) != Outside
    ensures var t := Step(f, s); t.offset == s.offset + 1 && InMode(t, ModeAt(f, s.offset + 1))
  {
  }

  lemma ComparatorMode(f: string, s: State, i: nat)
    requires FirstError(f, i) && s.offset < i && InMode(s, Outside) && ModeAt(f, s.offset) == Outside
    requires f[s.offset] != ' ' && DoubleChar(f, s.offset) in COMPARATORS
    ensures var t := Step(f, s); t.offset == s.offset + 2 <= i && InMode(t, Outside) && ModeAt(f, t.offset) == Outside
  {
    var o := s.offset;
    assert f[o] == DoubleChar(f, o)[0] && f[o + 1] == DoubleChar(f, o)[1];
    assert f[o] in {'<', '>'} && f[o + 1] in {'=', '>'};
    assert ModeAt(f, o + 1) == Outside && ModeAt(f, o + 2) == Outside;
    assert i != o + 1;
  }

  lemma SpacesMode(f: string, s: State, i: nat)
    requires FirstError(f, i) && s.offset < i && InMode(s, Outside) && ModeAt(f, s.offset) == Outside && f[s.offset] == ' '
    ensures var t := Step(f, s); t.offset <= i && InMode(t, Outside) && ModeAt(f, t.offset) == Outside
  {
    var o := s.offset;
    var j := SkipSpaces(f, o + 1);
    assert ModeAt(f, o + 1) == Outside;
    SpacesOutside(f, o + 1, j);
  }

  predicate SameMode(s: State, t: State) {
    t.inString == s.inString && t.inPath == s.inPath && t.inError == s.inError
  }

  lemma FlushMode(s: State, tp: TokenType)
    ensures SameMode(s, Flush(s, tp))
  {
  }

  lemma OpenMode(s: State, value: string, tp: TokenType)
    ensures SameMode(s, Open(s, value, tp))
  {
  }

  lemma CloseMode(s: State)
    ensures SameMode(s, Close(s))
  {
  }

  lemma BraceMode(s: State, c: char)
    ensures SameMode(s, Brace(s, c))
  {
    if c == '{' {
      var t := Flush(s, Unknown);
      FlushMode(s, Unknown);
      OpenMode(t, "ARRAY", Function);
      OpenMode(Open(t, "ARRAY", Function), "ARRAYROW", Function);
    } else {
      var t := Flush(s, Operand);
      FlushMode(s, Operand);
      CloseMode(t);
      CloseMode(Close(t));
      OpenMode(Add(Close(t), Token(",", Argument, Nothing)), "ARRAYROW", Function);
    }
  }

  lemma BracketMode(s: State, c: char)
    ensures SameMode(s, Bracket(s, c))
  {
    FlushMode(s, Operand);
    if c == '(' {
      OpenMode(s, s.token, Function);
      OpenMode(s, "", Subexpression);
    } else if c == ')' {
      CloseMode(Flush(s, Operand));
    }
  }

  lemma SignMode(s: State, t: Token, n: nat)
    ensures SameMode(s, Add(Flush(s, Operand), t).(offset := n))
  {
    FlushMode(s, Operand);
  }

  lemma OutsideStep(f: string, s: State)
    requires s.offset < |f| && InMode(s, Outside) && ModeAt(f, s.offset) == Outside
    requires f[s.offset] != ' ' && f[s.offset] != '#' && DoubleChar(f, s.offset) !in COMPARATORS
    ensures var t := Step(f, s); t.offset == s.offset + 1 && InMode(t, ModeAt(f, s.offset + 1))
  {
    var c := f[s.offset];
    OutsideNext(f, s.offset);
    if c in BEGINNERS {
      BeginMode(s, c);
    } else if c in BRACES {
      BraceMode(s, c);
    } else if c in BRACKETS {
      BracketMode(s, c);
    } else if c in INFIXES {
      SignMode(s, Token([c], OperatorInfix, Nothing), s.offset + 1);
    } else if c == '%' {
      SignMode(s, Token([c], OperatorPostfix, Nothing), s.offset + 1);
    }
  }

  lemma OutsideNext(f: string, i: nat)
    requires i < |f| && ModeAt(f, i) == Outside
    ensures ModeAt(f, i + 1) == if f[i] == '\"' then InString else if f[i] == '\'' then InPath else Outside
  {
  }

  lemma BeginMode(s: State, c: char)
    requires InMode(s, Outside) && c in BEGINNERS && c != '#'
    ensures InMode(Begin(s, c), if c == '\"' then InString else if c == '\'' then InPath else Outside)
  {
  }

  /** The machine reaches the first error value. */
  lemma {:induction false} ReachError(f: string, s: State, i: nat) returns (t: State)
    requires FirstError(f, i) && s.offset <= i && InMode(s, ModeAt(f, s.offset))
    ensures t.offset == i && InMode(t, Outside) && Same(f, s, t) && s.items <= t.items
    decreases i - s.offset
  {
    if s.offset == i {
      t := s;
    } else {
      StepMode(f, s, i);
      StepMoves(f, s);
      RunStep(f, s);
      t := ReachError(f, Step(f, s), i);
      SameTrans(f, s, Step(f, s), t);
    }
  }

  /** From the first error value on the rest of the formula is one token of the first pass. */
  lemma ErrorRaw(f: string, i: nat)
    requires FirstError(f, i) && f[0] == '='
    ensures |Raw(f)| >= 2 && Raw(f)[|Raw(f)| - 1] == Token(f[i..], Operand, Nothing)
  {
    assert i > 0;
    StepMode(f, INITIAL, i);
    RunStep(f, INITIAL);
    var first := Step(f, INITIAL);
    FirstToken(f);
    var t := ReachError(f, first, i);
    RunStep(f, t);
    var u := Step(f, t);
    ErrorStep(f, t);
    SameTrans(f, INITIAL, first, t);
    SameTrans(f, INITIAL, t, u);
    SameRun(f, INITIAL, u);
    TokenStream.ErrorSwallows(f, u);
    assert "#" + f[i + 1..] == f[i..];
  }

  lemma FirstToken(f: string)
    requires f != "" && f[0] == '='
    ensures Step(f, INITIAL).items != []
  {
  }

  lemma ErrorStep(f: string, s: State)
    requires s.offset < |f| && InMode(s, Outside) && f[s.offset] == '#'
    ensures var t := Step(f, s);
            && t.inError && !t.inString && !t.inPath && t.token == "#" && t.offset == s.offset + 1 && s.items <= t.items
  {
  }

  /** An error value swallows what follows it: the last token of the formula is everything from the first `#` outside
      strings and paths on. */
  lemma ErrorTail(isNumber: string -> bool, formula: string, i: nat)
    requires FirstError(Normalised(formula), i)
    ensures var ts, v := Tokenised(isNumber, formula), Normalised(formula)[i..];
            ts != [] && ts[|ts| - 1] == Token(v, Operand, if isNumber(v) then Number else Range)
  {
    var f := Normalised(formula);
    var raw := Raw(f);
    ErrorRaw(f, i);
    LastSettled(isNumber, raw, Token(f[i..], Operand, Nothing));
  }

  lemma LastSettled(isNumber: string -> bool, raw: seq<Token>, t: Token)
    requires |raw| >= 2 && raw[|raw| - 1] == t && t.tp == Operand && t.sub == Nothing && t.value != "" && t.value[0] == '#'
    ensures var settled := SettleAll(isNumber, TightenTo(raw, |raw|));
            var ts := WithoutNoops(settled, |settled|);
            ts != [] && ts[|ts| - 1] == t.(sub := if isNumber(t.value) then Number else Range)
  {
    var tight := TightenTo(raw, |raw|);
    assert tight == TightenTo(raw, |raw| - 1) + [t];
    assert tight[|tight| - 1] == t;
    var settled := SettleAll(isNumber, tight);
    assert settled[|settled| - 1] == t.(sub := if isNumber(t.value) then Number else Range);
  }

  lemma ErrorText(v: string)
    requires v != "" && v[0] == '#' && !IsSpace(v[|v| - 1])
    ensures Normalised(v) == "=" + v && FirstError("=" + v, 1)
  {
    Unspaced(v);
    var f := "=" + v;
    assert ModeAt(f, 0) == Outside && ModeAt(f, 1) == Outside;
    assert !IsError(f, 0) && IsError(f, 1);
  }

  /** In `#N/A+1` the sum is part of the error value. */
  lemma ErrorExample(isNumber: string -> bool)
    ensures var ts := Tokenised(isNumber, "#N/A+1");
            ts != [] && ts[|ts| - 1] == Token("#N/A+1", Operand, if isNumber("#N/A+1") then Number else Range)
  {
    var v := "#N/A+1";
    ErrorText(v);
    ErrorTail(isNumber, v, 1);
    assert ("=" + v)[1..] == v;
  }
}

/** Which commas separate arguments, in any text at all (backend/excelize/efp.go). */
module Commas {
  import opened Tokenizer
  import opened TokenStream
  import opened Formula

  /** Is the innermost bracket open before token `i` that of a function? */
  ghost predicate InCall(ts: seq<Token>, i: nat)
    requires i <= |ts|
  {
    var open := Opened(ts, i);
    open != [] && open[|open| - 1] == Function
  }

  /** A comma stands between arguments in a function and unites ranges elsewhere; `rows` tells of the semicolons, which
      are read as separators wherever they are. */
  ghost predicate CommaRight(ts: seq<Token>, i: nat, rows: bool)
    requires i < |ts|
  {
    && (ts[i].tp == Argument ==> ts[i] == Token(",", Argument, Nothing) && (rows || InCall(ts, i)))
    && (ts[i].sub == Union ==> ts[i] == Token(",", OperatorInfix, Union) && !InCall(ts, i))
  }

  ghost predicate CommasRight(ts: seq<Token>, rows: bool) {
    forall i | 0 <= i < |ts| :: CommaRight(ts, i, rows)
  }

  predicate NoComma(t: Token) {
    t.tp != Argument && t.sub != Union
  }

  lemma CommasAdd(ts: seq<Token>, t: Token, rows: bool)
    requires CommasRight(ts, rows) && CommaRight(ts + [t], |ts|, rows)
    ensures CommasRight(ts + [t], rows)
  {
    forall i | 0 <= i < |ts + [t]| ensures CommaRight(ts + [t], i, rows) {
      if i < |ts| {
        assert CommaRight(ts, i, rows);
        Prefix(ts, [t], i);
      }
    }
  }

  lemma OtherAdd(ts: seq<Token>, t: Token, rows: bool)
    requires CommasRight(ts, rows) && NoComma(t)
    ensures CommasRight(ts + [t], rows)
  {
    CommasAdd(ts, t, rows);
  }

  // ----- the machine -----

  lemma FlushCommas(s: State, tp: TokenType, rows: bool)
    requires CommasRight(s.items, rows) && tp in {Operand, Unknown}
    ensures CommasRight(Flush(s, tp).items, rows)
  {
    OtherAdd(s.items, Token(s.token, tp, Nothing), rows);
  }

  lemma OpenCommas(s: State, value: string, tp: TokenType, rows: bool)
    requires CommasRight(s.items, rows) && tp in {Function, Subexpression}
    ensures CommasRight(Open(s, value, tp).items, rows)
  {
    OtherAdd(s.items, Token(value, tp, Start), rows);
  }

  lemma CloseCommas(s: State, rows: bool)
    requires Good(s) && CommasRight(s.items, rows)
    ensures CommasRight(Close(s).items, rows)
  {
    OtherAdd(s.items, StopToken(s.stack), rows);
  }

  /** The comma that the machine reads: the stack tells which bracket is open. */
  lemma CommaAdded(s: State, t: Token, rows: bool)
    requires Good(s) && CommasRight(s.items, rows)
    requires t == if s.stack != [] && s.stack[|s.stack| - 1].tp == Function then Token(",", Argument, Nothing)
                  else Token(",", OperatorInfix, Union)
    ensures CommasRight(s.items + [t], rows)
  {
    Prefix(s.items, [t], |s.items|);
    assert Opened(s.items, |s.items|) == TypesOf(s.stack);
    CommasAdd(s.items, t, rows);
  }

  lemma BracketCommas(s: State, c: char, rows: bool)
    requires Good(s) && CommasRight(s.items, rows)
    ensures CommasRight(Bracket(s, c).items, rows)
  {
    if c == '(' {
      OpenCommas(s, s.token, Function, rows);
      OpenCommas(s, "", Subexpression, rows);
    } else {
      FlushCommas(s, Operand, rows);
      GoodFlush(s, Operand);
      if c == ',' {
        var u := Flush(s, Operand);
        CommaAdded(u, if u.stack != [] && u.stack[|u.stack| - 1].tp == Function then Token(",", Argument, Nothing)
                      else Token(",", OperatorInfix, Union), rows);
      } else {
        CloseCommas(Flush(s, Operand), rows);
      }
    }
  }

  lemma BraceCommas(s: State, c: char, rows: bool)
    requires Good(s) && CommasRight(s.items, rows) && c in BRACES && (c == ';' ==> rows)
    ensures CommasRight(Brace(s, c).items, rows)
  {
    if c == '{' {
      FlushCommas(s, Unknown, rows);
      OpenCommas(Flush(s, Unknown), "ARRAY", Function, rows);
      OpenCommas(Open(Flush(s, Unknown), "ARRAY", Function), "ARRAYROW", Function, rows);
    } else {
      var u := Flush(s, Operand);
      FlushCommas(s, Operand, rows);
      GoodFlush(s, Operand);
      CloseCommas(u, rows);
      GoodClose(u);
      if c == ';' {
        var comma := Token(",", Argument, Nothing);
        CommasAdd(Close(u).items, comma, rows);
        OpenCommas(Add(Close(u), comma), "ARRAYROW", Function, rows);
      } else {
        CloseCommas(Close(u), rows);
      }
    }
  }

  lemma StepCommas(f: string, s: State, rows: bool)
    requires s.offset < |f| && Good(s) && CommasRight(s.items, rows) && (';' in f ==> rows)
    ensures CommasRight(Step(f, s).items, rows)
  {
    var c := f[s.offset];
    FlushCommas(s, Operand, rows);
    FlushCommas(s, Unknown, rows);
    var u := Flush(s, Operand);
    if s.inString || s.inPath || s.inError {
      OtherAdd(s.items, Token(s.token, Operand, Text), rows);
    } else if c in BEGINNERS {
    } else if c in BRACES {
      BraceCommas(s, c, rows);
    } else if c in BRACKETS {
      BracketCommas(s, c, rows);
    } else if c == ' ' {
      OtherAdd(u.items, Token("", Whitespace, Nothing), rows);
    } else if DoubleChar(f, s.offset) in COMPARATORS {
      OtherAdd(u.items, Token(DoubleChar(f, s.offset), OperatorInfix, Logical), rows);
    } else if c in INFIXES {
      OtherAdd(u.items, Token([c], OperatorInfix, Nothing), rows);
    } else if c == '%' {
      OtherAdd(u.items, Token([c], OperatorPostfix, Nothing), rows);
    }
  }

  lemma {:induction false} RunCommas(f: string, s: State, rows: bool)
    requires s.offset <= |f| && Good(s) && CommasRight(s.items, rows) && (';' in f ==> rows)
    ensures CommasRight(Run(f, s).items, rows)
    decreases |f| - s.offset
  {
    if s.offset < |f| {
      StepMoves(f, s);
      GoodStep(f, s);
      StepCommas(f, s, rows);
      RunCommas(f, Step(f, s), rows);
    }
  }

  // ----- the clean-up passes -----

  lemma KeptComma(before: seq<Token>, items: seq<Token>, k: nat, t: Token, u: Token, rows: bool)
    requires k < |items| && CommaRight(items, k, rows) && t == items[k] && CommasRight(before, rows)
    requires Opened(before, |before|) == Opened(items, k) && (if NoComma(t) then NoComma(u) else u == t)
    ensures CommasRight(before + [u], rows)
  {
    Prefix(before, [u], |before|);
    CommasAdd(before, u, rows);
  }

  lemma {:induction false} TightCommas(items: seq<Token>, k: nat, rows: bool)
    requires 1 <= k <= |items| && AllNeat(items) && Matched(items, |items|) && Neutral(items[0]) && CommasRight(items, rows)
    ensures CommasRight(TightenTo(items, k), rows)
    decreases k
  {
    if k > 1 {
      var before, t := TightenTo(items, k - 1), items[k - 1];
      TightCommas(items, k - 1, rows);
      TightenBalanced(items, k - 1);
      if t.tp != Whitespace {
        KeptComma(before, items, k - 1, t, t, rows);
      } else if Tightened(items, k - 1) == [] {
        assert before + [] == before;
      } else {
        OtherAdd(before, Token(t.value, OperatorInfix, Intersection), rows);
      }
    }
  }

  lemma SettledComma(isNumber: string -> bool, left: bool, t: Token)
    requires t.sub == Union ==> t.value == ","
    ensures var u := SettledBehind(isNumber, left, t); if NoComma(t) then NoComma(u) else u == t
  {
  }

  lemma SettleCommas(isNumber: string -> bool, items: seq<Token>, rows: bool)
    requires AllNeat(items) && Matched(items, |items|) && CommasRight(items, rows)
    ensures CommasRight(SettleAll(isNumber, items), rows)
  {
    var out := SettleAll(isNumber, items);
    forall i | 0 <= i < |out| ensures CommaRight(out, i, rows) {
      assert CommaRight(items, i, rows);
      MatchedTo(items, |items|, i);
      SettledSame(isNumber, items, i);
      SettledComma(isNumber, HasLeftOperand(items, i), items[i]);
    }
  }

  lemma {:induction false} NoopCommas(items: seq<Token>, k: nat, rows: bool)
    requires k <= |items| && AllNeat(items) && Matched(items, |items|) && CommasRight(items, rows)
    ensures CommasRight(WithoutNoops(items, k), rows)
    decreases k
  {
    if k > 0 {
      var before, t := WithoutNoops(items, k - 1), items[k - 1];
      NoopCommas(items, k - 1, rows);
      NoopsBalanced(items, k - 1);
      if t.tp == Noop {
        assert before + [] == before;
      } else {
        KeptComma(before, items, k - 1, t, t, rows);
      }
    }
  }

  /** In the tokens of every text: what unites ranges never stands directly in a function, and what separates arguments
      always does, unless the text has a semicolon. */
  lemma CommaKinds(isNumber: string -> bool, formula: string)
    ensures CommasRight(Tokenised(isNumber, formula), ';' in Normalised(formula))
  {
    var f := Normalised(formula);
    var rows := ';' in f;
    var raw := Raw(f);
    var tight := TightenTo(raw, |raw|);
    RunCommas(f, INITIAL, rows);
    FlushCommas(Run(f, INITIAL), Operand, rows);
    RawBalanced(f);
    if f == "" {
      assert Run(f, INITIAL) == INITIAL;
    } else {
      RawFirst(f);
      TightCommas(raw, |raw|, rows);
      TightenBalanced(raw, |raw|);
      CleanCommas(isNumber, tight, rows);
    }
  }

  lemma CleanCommas(isNumber: string -> bool, tight: seq<Token>, rows: bool)
    requires AllNeat(tight) && Matched(tight, |tight|) && CommasRight(tight, rows)
    ensures var settled := SettleAll(isNumber, tight); CommasRight(WithoutNoops(settled, |settled|), rows)
  {
    var settled := SettleAll(isNumber, tight);
    SettleCommas(isNumber, tight, rows);
    SettledSame(isNumber, tight, |tight|);
    forall i | 0 <= i < |settled| ensures Neat(settled[i]) {
      SettledAt(isNumber, tight, i);
    }
    NoopCommas(settled, |settled|, rows);
  }

  const ARGUMENT := Token(",", Argument, Nothing)
  const STOP := Token("", Function, Stop)
  const ROW := Token("ARRAYROW", Function, Start)

  lemma LoneStep(f: string, s: State)
    requires s.offset < |f| && f[s.offset] == ';' && s.token == "" && s.stack == [] && !s.inString && !s.inPath && !s.inError
    ensures Step(f, s) == s.(items := s.items + [STOP, ARGUMENT, ROW], stack := [ROW], offset := s.offset + 1)
  {
    assert s.items + [STOP] + [ARGUMENT] + [ROW] == s.items + [STOP, ARGUMENT, ROW];
    assert [] + [ROW] == [ROW];
  }

  lemma SemicolonRaw()
    ensures Raw("=;") == [EQUALS, STOP, ARGUMENT, ROW]
  {
    var f := "=;";
    var s := ReadEquals(f);
    LoneStep(f, s);
    var t := Step(f, s);
    RunStep(f, s);
    SameTrans(f, INITIAL, s, t);
    SameRun(f, INITIAL, t);
    RunEnds(f, t);
  }

  lemma SemicolonTight(items: seq<Token>)
    requires items == [EQUALS, STOP, ARGUMENT, ROW]
    ensures TightenTo(items, 4) == [STOP, ARGUMENT, ROW]
  {
    assert TightenTo(items, 2) == [STOP];
    assert TightenTo(items, 3) == [STOP, ARGUMENT];
  }

  lemma SemicolonClean(isNumber: string -> bool, tight: seq<Token>)
    requires tight == [STOP, ARGUMENT, ROW]
    ensures WithoutNoops(SettleAll(isNumber, tight), 3) == tight && Opened(tight, 1) == []
  {
    assert SettleAll(isNumber, tight) == tight;
    assert WithoutNoops(tight, 1) == [STOP];
    assert WithoutNoops(tight, 2) == [STOP, ARGUMENT];
    assert Opened(tight, 0) == [];
  }

  /** A semicolon outside arrays separates arguments where there is no function. */
  lemma LoneSemicolon(isNumber: string -> bool)
    ensures var ts := Tokenised(isNumber, "=;");
            |ts| == 3 && ts[1] == Token(",", Argument, Nothing) && !InCall(ts, 1)
  {
    var f := "=;";
    SemicolonRaw();
    assert TrimStart(f) == f && TrimEnd(f) == f;
    SemicolonTight(Raw(f));
    SemicolonClean(isNumber, [STOP, ARGUMENT, ROW]);
  }
}

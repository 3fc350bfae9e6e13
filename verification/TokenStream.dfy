/**
 What holds of every token stream the formula tokenizer yields
 (backend/excelize/efp.go).
 */
module TokenStream {
  import opened Tokenizer

  // ----- brackets -----

  /** The types of the brackets open behind the first `k` tokens; a stop token closes the innermost. */
  ghost function Opened(ts: seq<Token>, k: nat): seq<TokenType>
    requires k <= |ts|
  {
    if k == 0 then []
    else After(Opened(ts, k - 1), ts[k - 1])
  }

  function After(open: seq<TokenType>, t: Token): seq<TokenType> {
    if t.sub == Start then open + [t.tp]
    else if t.sub == Stop then (if open == [] then [] else open[..|open| - 1])
    else open
  }

  /** The type a stop token takes: that of the innermost open bracket, and of a function when there is none. */
  function Innermost(open: seq<TokenType>): TokenType {
    if open == [] then Function else open[|open| - 1]
  }

  /** Each stop token among the first `k` has the type of the start token it closes. */
  ghost predicate Matched(ts: seq<Token>, k: nat)
    requires k <= |ts|
  {
    k == 0 || (Matched(ts, k - 1) && (ts[k - 1].sub == Stop ==> ts[k - 1].tp == Innermost(Opened(ts, k - 1))))
  }

  /** Start and stop tokens are those of functions and subexpressions. */
  predicate Neat(t: Token) {
    (t.sub == Start || t.sub == Stop) <==> (t.tp == Function || t.tp == Subexpression)
  }

  ghost predicate AllNeat(ts: seq<Token>) {
    forall i | 0 <= i < |ts| :: Neat(ts[i])
  }

  predicate Neutral(t: Token) {
    t.sub != Start && t.sub != Stop
  }

  lemma {:induction false} Prefix(ts: seq<Token>, us: seq<Token>, k: nat)
    requires k <= |ts|
    ensures Opened(ts + us, k) == Opened(ts, k) && (Matched(ts + us, k) <==> Matched(ts, k))
    decreases k
  {
    if k > 0 {
      Prefix(ts, us, k - 1);
      assert (ts + us)[k - 1] == ts[k - 1];
    }
  }

  /** A list with its open brackets `open`, all stop tokens matched. */
  ghost predicate Balanced(ts: seq<Token>, open: seq<TokenType>) {
    AllNeat(ts) && Matched(ts, |ts|) && Opened(ts, |ts|) == open
  }

  lemma BalancedAdd(ts: seq<Token>, open: seq<TokenType>, t: Token)
    requires Balanced(ts, open) && Neat(t) && (t.sub == Stop ==> t.tp == Innermost(open))
    ensures Balanced(ts + [t], After(open, t))
  {
    Prefix(ts, [t], |ts|);
    assert (ts + [t])[|ts|] == t;
  }

  // ----- the machine -----

  function TypesOf(stack: seq<Token>): seq<TokenType> {
    seq(|stack|, i requires 0 <= i < |stack| => stack[i].tp)
  }

  /** The machine itself makes no prefix operators and no tokens to be dropped. */
  predicate Plain(t: Token) {
    t.tp != OperatorPrefix && t.tp != Noop
  }

  ghost predicate AllPlain(ts: seq<Token>) {
    forall i | 0 <= i < |ts| :: Plain(ts[i])
  }

  ghost predicate Good(s: State) {
    && Balanced(s.items, TypesOf(s.stack)) && AllPlain(s.items)
    && forall i | 0 <= i < |s.stack| :: s.stack[i].tp in {Function, Subexpression}
  }

  lemma GoodSame(s: State, t: State)
    requires Good(s) && t.items == s.items && t.stack == s.stack
    ensures Good(t)
  {
  }

  lemma GoodAdd(s: State, t: Token)
    requires Good(s) && Neat(t) && Neutral(t) && Plain(t)
    ensures Good(Add(s, t))
  {
    BalancedAdd(s.items, TypesOf(s.stack), t);
  }

  lemma GoodFlush(s: State, tp: TokenType)
    requires Good(s) && tp in {Operand, Unknown}
    ensures Good(Flush(s, tp))
  {
    GoodAdd(s, Token(s.token, tp, Nothing));
  }

  lemma GoodOpen(s: State, value: string, tp: TokenType)
    requires Good(s) && tp in {Function, Subexpression}
    ensures Good(Open(s, value, tp))
  {
    var t := Token(value, tp, Start);
    BalancedAdd(s.items, TypesOf(s.stack), t);
    assert TypesOf(s.stack + [t]) == TypesOf(s.stack) + [tp];
  }

  lemma GoodClose(s: State)
    requires Good(s)
    ensures Good(Close(s))
  {
    BalancedAdd(s.items, TypesOf(s.stack), StopToken(s.stack));
    if s.stack != [] {
      assert TypesOf(s.stack[..|s.stack| - 1]) == TypesOf(s.stack)[..|s.stack| - 1];
    }
  }

  lemma GoodBrace(s: State, c: char)
    requires Good(s)
    ensures Good(Brace(s, c))
  {
    GoodFlush(s, Unknown);
    GoodFlush(s, Operand);
    if c == '{' {
      GoodOpen(Flush(s, Unknown), "ARRAY", Function);
      GoodOpen(Open(Flush(s, Unknown), "ARRAY", Function), "ARRAYROW", Function);
    } else {
      var closed := Close(Flush(s, Operand));
      GoodClose(Flush(s, Operand));
      if c == ';' {
        GoodAdd(closed, Token(",", Argument, Nothing));
        GoodOpen(Add(closed, Token(",", Argument, Nothing)), "ARRAYROW", Function);
      } else {
        GoodClose(closed);
      }
    }
  }

  lemma GoodBracket(s: State, c: char)
    requires Good(s)
    ensures Good(Bracket(s, c))
  {
    if c == '(' {
      GoodOpen(s, s.token, Function);
      GoodOpen(s, "", Subexpression);
    } else {
      GoodFlush(s, Operand);
      if c == ',' {
        GoodAdd(Flush(s, Operand), Token(",", Argument, Nothing));
        GoodAdd(Flush(s, Operand), Token(",", OperatorInfix, Union));
      } else {
        GoodClose(Flush(s, Operand));
      }
    }
  }

  lemma GoodInside(s: State, c: char)
    requires Good(s)
    ensures Good(Inside(s, c))
  {
    if s.inString {
      GoodAdd(s, Token(s.token, Operand, Text));
    }
  }

  lemma GoodBegin(s: State, c: char)
    requires Good(s)
    ensures Good(Begin(s, c))
  {
    if c == '[' {
      GoodSame(s, Begin(s, c));
    } else {
      GoodFlush(s, Unknown);
      GoodSame(Flush(s, Unknown), Begin(s, c));
    }
  }

  /** A flushed operand and one more token that is no bracket. */
  lemma GoodBoth(s: State, t: Token)
    requires Good(s) && Neat(t) && Neutral(t) && Plain(t)
    ensures Good(Add(Flush(s, Operand), t))
  {
    GoodFlush(s, Operand);
    GoodAdd(Flush(s, Operand), t);
  }

  lemma GoodStep(f: string, s: State)
    requires Good(s) && s.offset < |f|
    ensures Good(Step(f, s))
  {
    var c := f[s.offset];
    if s.inString || s.inPath || s.inError {
      GoodInside(s, c);
    } else if c in BEGINNERS {
      GoodBegin(s, c);
    } else if c in BRACES {
      GoodBrace(s, c);
    } else if c in BRACKETS {
      GoodBracket(s, c);
    } else if c == ' ' {
      GoodBoth(s, Token("", Whitespace, Nothing));
    } else if DoubleChar(f, s.offset) in COMPARATORS {
      GoodBoth(s, Token(DoubleChar(f, s.offset), OperatorInfix, Logical));
    } else if c in INFIXES {
      GoodBoth(s, Token([c], OperatorInfix, Nothing));
    } else if c == '%' {
      GoodBoth(s, Token([c], OperatorPostfix, Nothing));
    }
  }

  lemma {:induction false} GoodRun(f: string, s: State)
    requires Good(s) && s.offset <= |f|
    ensures Good(Run(f, s))
    decreases |f| - s.offset
  {
    if s.offset < |f| {
      StepMoves(f, s);
      GoodStep(f, s);
      GoodRun(f, Step(f, s));
    }
  }

  lemma {:induction false} RunExtends(f: string, s: State)
    requires s.offset <= |f|
    ensures s.items <= Run(f, s).items
    decreases |f| - s.offset
  {
    if s.offset < |f| {
      StepMoves(f, s);
      RunExtends(f, Step(f, s));
    }
  }

  /** The first token of a formula is `=`, the one the first clean-up pass skips. */
  lemma RawFirst(f: string)
    requires f != "" && f[0] == '='
    ensures Raw(f) != [] && Raw(f)[0] == Token("=", OperatorInfix, Nothing)
  {
    var t := Token("=", OperatorInfix, Nothing);
    var s := Step(f, INITIAL);
    assert DoubleChar(f, 0) !in COMPARATORS by {
      assert |DoubleChar(f, 0)| == 2 ==> DoubleChar(f, 0)[0] == '=';
    }
    assert [f[0]] == "=" && s.items == [t];
    StepMoves(f, INITIAL);
    RunExtends(f, s);
    assert [t] <= Run(f, INITIAL).items <= Raw(f);
  }

  lemma RawBalanced(f: string)
    ensures AllPlain(Raw(f)) && exists open :: Balanced(Raw(f), open)
  {
    GoodRun(f, INITIAL);
    GoodFlush(Run(f, INITIAL), Operand);
    assert Balanced(Raw(f), TypesOf(Run(f, INITIAL).stack));
  }

  // ----- the clean-up passes -----

  lemma {:induction false} OpenedFrom(items: seq<Token>, k: nat)
    requires k < |items|
    ensures Opened(items, k + 1) == After(Opened(items, k), items[k])
  {
  }

  lemma NeutralAdd(ts: seq<Token>, open: seq<TokenType>, us: seq<Token>, t: Token)
    requires Balanced(ts, open) && Neat(t)
    requires us == [] || (|us| == 1 && Neat(us[0]) && Neutral(us[0]))
    requires Neutral(t)
    ensures Balanced(ts + us, After(open, t))
  {
    if us == [] {
      assert ts + us == ts;
    } else {
      BalancedAdd(ts, open, us[0]);
      assert us == [us[0]];
    }
  }

  lemma {:induction false} TightenBalanced(items: seq<Token>, k: nat)
    requires 1 <= k <= |items| && AllNeat(items) && Matched(items, |items|) && Neutral(items[0])
    ensures Balanced(TightenTo(items, k), Opened(items, k))
    decreases k
  {
    MatchedTo(items, |items|, k);
    if k == 1 {
      assert Opened(items, 0) == [] && Opened(items, 1) == [];
      assert TightenTo(items, 1) == [];
    } else {
      var t, open, before := items[k - 1], Opened(items, k - 1), TightenTo(items, k - 1);
      TightenBalanced(items, k - 1);
      OpenedFrom(items, k - 1);
      if t.tp != Whitespace {
        BalancedAdd(before, open, t);
      } else {
        NeutralAdd(before, open, Tightened(items, k - 1), t);
      }
    }
  }

  lemma {:induction false} MatchedTo(ts: seq<Token>, n: nat, k: nat)
    requires k <= n <= |ts| && Matched(ts, n)
    ensures Matched(ts, k)
    decreases n
  {
    if k < n {
      MatchedTo(ts, n - 1, k);
    }
  }

  lemma {:induction false} SettledSame(isNumber: string -> bool, items: seq<Token>, k: nat)
    requires k <= |items| && AllNeat(items) && Matched(items, k)
    ensures Opened(SettleAll(isNumber, items), k) == Opened(items, k) && Matched(SettleAll(isNumber, items), k)
    decreases k
  {
    if k > 0 {
      SettledSame(isNumber, items, k - 1);
      SettledAt(isNumber, items, k - 1);
    }
  }

  lemma SettledAt(isNumber: string -> bool, items: seq<Token>, i: nat)
    requires i < |items| && Neat(items[i])
    ensures var t := Settled(isNumber, items, i);
            Neat(t) && (Neutral(t) <==> Neutral(items[i])) && (!Neutral(t) ==> t.tp == items[i].tp && t.sub == items[i].sub)
  {
  }

  lemma {:induction false} NoopsBalanced(items: seq<Token>, k: nat)
    requires k <= |items| && AllNeat(items) && Matched(items, |items|)
    ensures Balanced(WithoutNoops(items, k), Opened(items, k))
    decreases k
  {
    if k > 0 {
      NoopsBalanced(items, k - 1);
      MatchedTo(items, |items|, k);
      var t, before := items[k - 1], WithoutNoops(items, k - 1);
      if t.tp == Noop {
        assert before + [] == before;
      } else {
        BalancedAdd(before, Opened(items, k - 1), t);
      }
    }
  }

  /** In every token stream each stop token has the type of the start token it closes. */
  lemma StopsMatch(isNumber: string -> bool, formula: string)
    ensures var ts := Tokenised(isNumber, formula); AllNeat(ts) && Matched(ts, |ts|)
  {
    var f := Normalised(formula);
    var raw := Raw(f);
    var tight := TightenTo(raw, |raw|);
    var settled := SettleAll(isNumber, tight);
    RawBalanced(f);
    if f == "" {
      assert Run(f, INITIAL) == INITIAL;
    } else {
      RawFirst(f);
      TightenBalanced(raw, |raw|);
      SettledSame(isNumber, tight, |tight|);
      forall i | 0 <= i < |settled| ensures Neat(settled[i]) {
        SettledAt(isNumber, tight, i);
      }
      NoopsBalanced(settled, |settled|);
    }
  }

  // ----- white space and signs -----

  lemma {:induction false} TightenKinds(items: seq<Token>, k: nat)
    requires k <= |items| && AllPlain(items)
    ensures var ts := TightenTo(items, k); AllPlain(ts) && NoSpaces(ts)
    decreases k
  {
    if k > 1 {
      TightenKinds(items, k - 1);
    }
  }

  ghost predicate NoSpaces(ts: seq<Token>) {
    forall i | 0 <= i < |ts| :: ts[i].tp != Whitespace
  }

  ghost predicate NoIdle(ts: seq<Token>) {
    forall i | 0 <= i < |ts| :: ts[i].tp != Whitespace && ts[i].tp != Noop
  }

  lemma NoIdleAdd(ts: seq<Token>, t: Token)
    requires NoIdle(ts) && t.tp != Whitespace && t.tp != Noop
    ensures NoIdle(ts + [t])
  {
  }

  lemma SettledSpaces(isNumber: string -> bool, items: seq<Token>)
    requires NoSpaces(items)
    ensures NoSpaces(SettleAll(isNumber, items))
  {
  }

  lemma {:induction false} NoopsGone(items: seq<Token>, k: nat)
    requires k <= |items| && NoSpaces(items)
    ensures NoIdle(WithoutNoops(items, k))
    decreases k
  {
    if k > 0 {
      var before, t := WithoutNoops(items, k - 1), items[k - 1];
      NoopsGone(items, k - 1);
      if t.tp == Noop {
        assert before + [] == before;
      } else {
        NoIdleAdd(before, t);
      }
    }
  }

  /** No white space and no token to be dropped is left. */
  lemma NothingIdle(isNumber: string -> bool, formula: string)
    ensures NoIdle(Tokenised(isNumber, formula))
  {
    var raw := Raw(Normalised(formula));
    RawBalanced(Normalised(formula));
    TightenKinds(raw, |raw|);
    CleanIdle(isNumber, TightenTo(raw, |raw|));
  }

  lemma CleanIdle(isNumber: string -> bool, tight: seq<Token>)
    requires NoSpaces(tight)
    ensures NoIdle(WithoutNoops(SettleAll(isNumber, tight), |tight|))
  {
    SettledSpaces(isNumber, tight);
    NoopsGone(SettleAll(isNumber, tight), |tight|);
  }

  predicate IsSign(t: Token) {
    t.value in {"+", "-"} && t.tp == OperatorInfix
  }

  /** An infix sign follows a value, a prefix minus does not. */
  ghost predicate SignsRight(ts: seq<Token>) {
    forall i | 0 <= i < |ts| ::
      (IsSign(ts[i]) ==> HasLeftOperand(ts, i)) && (ts[i].tp == OperatorPrefix ==> !HasLeftOperand(ts, i))
  }

  lemma SettledSign(isNumber: string -> bool, items: seq<Token>, i: nat)
    requires i < |items| && Plain(items[i])
    ensures var t := Settled(isNumber, items, i);
            && (IsSign(t) ==> HasLeftOperand(items, i))
            && (t.tp == OperatorPrefix || t.tp == Noop ==> !HasLeftOperand(items, i))
            && LeftOf(t) == LeftOf(items[i]) && (t.tp == Noop ==> !LeftOf(t))
  {
  }

  lemma SignsAdd(ts: seq<Token>, t: Token)
    requires SignsRight(ts)
    requires (IsSign(t) ==> HasLeftOperand(ts, |ts|)) && (t.tp == OperatorPrefix ==> !HasLeftOperand(ts, |ts|))
    ensures SignsRight(ts + [t]) && HasLeftOperand(ts + [t], |ts| + 1) == LeftOf(t)
  {
    var out := ts + [t];
    forall i | 0 <= i < |out|
      ensures (IsSign(out[i]) ==> HasLeftOperand(out, i)) && (out[i].tp == OperatorPrefix ==> !HasLeftOperand(out, i))
    {
      assert i > 0 ==> out[i - 1] == ts[i - 1];
    }
  }

  /** Dropping tokens does not change what a sign follows. */
  lemma {:induction false} NoopsSigns(isNumber: string -> bool, items: seq<Token>, k: nat)
    requires k <= |items| && AllPlain(items)
    ensures var out := WithoutNoops(SettleAll(isNumber, items), k);
            SignsRight(out) && HasLeftOperand(out, |out|) == HasLeftOperand(items, k)
    decreases k
  {
    if k > 0 {
      var settled := SettleAll(isNumber, items);
      var before, t := WithoutNoops(settled, k - 1), settled[k - 1];
      NoopsSigns(isNumber, items, k - 1);
      SettledSign(isNumber, items, k - 1);
      if t.tp == Noop {
        assert before + [] == before;
      } else {
        SignsAdd(before, t);
      }
    }
  }

  /** In every token stream an infix plus or minus directly follows a value, and a prefix minus does not. */
  lemma SignsFollow(isNumber: string -> bool, formula: string)
    ensures SignsRight(Tokenised(isNumber, formula))
  {
    var raw := Raw(Normalised(formula));
    var tight := TightenTo(raw, |raw|);
    RawBalanced(Normalised(formula));
    TightenKinds(raw, |raw|);
    NoopsSigns(isNumber, tight, |tight|);
  }

  // ----- error values -----

  /** An error value never ends: from `#` on the whole rest of the formula becomes one token. */
  lemma {:induction false} ErrorSwallows(f: string, s: State)
    requires s.inError && !s.inString && !s.inPath && s.offset <= |f|
    ensures var t := Run(f, s); t.items == s.items && t.token == s.token + f[s.offset..]
    decreases |f| - s.offset
  {
    if s.offset < |f| {
      StepMoves(f, s);
      ErrorSwallows(f, Step(f, s));
      assert f[s.offset..] == [f[s.offset]] + f[s.offset + 1..];
      assert s.token + [f[s.offset]] + f[s.offset + 1..] == s.token + ([f[s.offset]] + f[s.offset + 1..]);
    } else {
      assert s.token + [] == s.token;
    }
  }
}

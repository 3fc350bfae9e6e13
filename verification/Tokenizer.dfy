/**
 The formula tokenizer (backend/excelize/efp.go): a state machine over the
 characters with a stack of open brackets, and the passes that clean up.
 */
module Tokenizer {
  datatype TokenType =
    | Noop | Operand | Function | Subexpression | Argument | OperatorPrefix | OperatorInfix | OperatorPostfix
    | Whitespace | Unknown

  datatype SubType =
    | Nothing | Start | Stop | Text | Number | Logical | Range | Math | Concatenation | Intersection | Union

  datatype Token = Token(value: string, tp: TokenType, sub: SubType)

  // ----- the characters -----

  /** White space as `strings.TrimSpace` knows it. */
  predicate IsSpace(c: char) {
    c in {' ', '\t', '\n', '\U{0B}', '\U{0C}', '\r', '\U{85}', '\U{A0}', '\U{1680}', '\U{2028}', '\U{2029}', '\U{202F}',
          '\U{205F}', '\U{3000}'} || '\U{2000}' <= c <= '\U{200A}'
  }

  function TrimStart(s: string): string {
    if s != "" && IsSpace(s[0]) then TrimStart(s[1..]) else s
  }

  function TrimEnd(s: string): (t: string)
    ensures t == "" || !IsSpace(t[|t| - 1])
  {
    if s != "" && IsSpace(s[|s| - 1]) then TrimEnd(s[..|s| - 1]) else s
  }

  /** The text that is read: without white space around it, and beginning with `=`. */
  function Normalised(formula: string): (f: string)
    ensures f == "" || (f[0] == '=' && (|f| == 1 || !IsSpace(f[|f| - 1])))
  {
    var f := TrimEnd(TrimStart(formula));
    if f != "" && f[0] != '=' then "=" + f else f
  }

  // ----- the machine -----

  /** `token` is the text gathered so far; `stack` holds the tokens whose brackets are open. */
  datatype State = State(items: seq<Token>, stack: seq<Token>, offset: nat, token: string,
                         inString: bool, inPath: bool, inRange: bool, inError: bool)

  const INITIAL := State([], [], 0, "", false, false, false, false)

  function Add(s: State, t: Token): (r: State)
    ensures r.offset == s.offset && s.items <= r.items
  {
    s.(items := s.items + [t])
  }

  /** Ends the text gathered so far as a token. */
  function Flush(s: State, tp: TokenType): (r: State)
    ensures r.offset == s.offset && s.items <= r.items
  {
    if |s.token| > 0 then Add(s, Token(s.token, tp, Nothing)).(token := "") else s
  }

  function Open(s: State, value: string, tp: TokenType): (r: State)
    ensures r.offset == s.offset && s.items <= r.items
  {
    var t := Token(value, tp, Start);
    Add(s, t).(stack := s.stack + [t])
  }

  /** The stop token for the innermost open bracket; without one it is that of a function. */
  function StopToken(stack: seq<Token>): Token {
    Token("", if stack == [] then Function else stack[|stack| - 1].tp, Stop)
  }

  function Close(s: State): (r: State)
    ensures r.offset == s.offset && s.items <= r.items
  {
    Add(s, StopToken(s.stack)).(stack := if s.stack == [] then [] else s.stack[..|s.stack| - 1])
  }

  function Forward(s: State, n: nat): State {
    s.(offset := s.offset + n)
  }

  function SkipSpaces(f: string, i: nat): (j: nat)
    requires i <= |f|
    ensures i <= j <= |f|
    decreases |f| - i
  {
    if i < |f| && f[i] == ' ' then SkipSpaces(f, i + 1) else i
  }

  function DoubleChar(f: string, i: nat): string {
    if i + 2 <= |f| then f[i..i + 2] else ""
  }

  /** A character inside a string, a path or an error value.  A doubled quote is not recognised, since the character
      behind the current one reads as nothing; and an error value never ends. */
  function Inside(s: State, c: char): (r: State)
    ensures r.offset == s.offset + 1 && s.items <= r.items
  {
    if s.inString then
      if c == '\"' then Forward(Add(s, Token(s.token, Operand, Text)).(inString := false, token := ""), 1)
      else Forward(s.(token := s.token + [c]), 1)
    else if s.inPath then
      if c == '\'' then Forward(s.(inPath := false), 1) else Forward(s.(token := s.token + [c]), 1)
    else Forward(s.(token := s.token + [c], inRange := s.inRange && c != ']'), 1)
  }

  /** A character that begins a string, a path, a range or an error value. */
  function Begin(s: State, c: char): (r: State)
    ensures r.offset == s.offset + 1 && s.items <= r.items
  {
    if c == '\"' then Forward(Flush(s, Unknown).(inString := true), 1)
    else if c == '\'' then Forward(Flush(s, Unknown).(inPath := true), 1)
    else if c == '[' then Forward(s.(inRange := true, token := s.token + [c]), 1)
    else Forward(Flush(s, Unknown).(inError := true, token := [c]), 1)
  }

  /** Array braces and row separators. */
  function Brace(s: State, c: char): (r: State)
    ensures r.offset == s.offset + 1 && s.items <= r.items
  {
    if c == '{' then Forward(Open(Open(Flush(s, Unknown), "ARRAY", Function), "ARRAYROW", Function), 1)
    else if c == ';' then
      Forward(Open(Add(Close(Flush(s, Operand)), Token(",", Argument, Nothing)), "ARRAYROW", Function), 1)
    else Forward(Close(Close(Flush(s, Operand))), 1)
  }

  /** Brackets and commas. */
  function Bracket(s: State, c: char): (r: State)
    ensures r.offset == s.offset + 1 && s.items <= r.items
  {
    if c == '(' then
      Forward(if |s.token| > 0 then Open(s, s.token, Function).(token := "") else Open(s, "", Subexpression), 1)
    else if c == ',' then
      var inFunction := s.stack != [] && s.stack[|s.stack| - 1].tp == Function;
      var t := if inFunction then Token(",", Argument, Nothing) else Token(",", OperatorInfix, Union);
      Forward(Add(Flush(s, Operand), t), 1)
    else Forward(Close(Flush(s, Operand)), 1)
  }

  const BEGINNERS := {'\"', '\'', '[', '#'}
  const BRACES := {'{', ';', '}'}
  const BRACKETS := {'(', ',', ')'}
  const COMPARATORS := {">=", "<=", "<>"}
  const INFIXES := {'+', '-', '*', '/', '^', '&', '=', '>', '<'}

  /** One turn of the loop. */
  function Step(f: string, s: State): State
    requires s.offset < |f|
  {
    var c := f[s.offset];
    if s.inString || s.inPath || s.inError then Inside(s, c)
    else if c in BEGINNERS then Begin(s, c)
    else if c in BRACES then Brace(s, c)
    else if c in BRACKETS then Bracket(s, c)
    else if c == ' ' then
      Add(Flush(s, Operand), Token("", Whitespace, Nothing)).(offset := SkipSpaces(f, s.offset + 1))
    else if DoubleChar(f, s.offset) in COMPARATORS then
      Forward(Add(Flush(s, Operand), Token(DoubleChar(f, s.offset), OperatorInfix, Logical)), 2)
    else if c in INFIXES then Forward(Add(Flush(s, Operand), Token([c], OperatorInfix, Nothing)), 1)
    else if c == '%' then Forward(Add(Flush(s, Operand), Token([c], OperatorPostfix, Nothing)), 1)
    else Forward(s.(token := s.token + [c]), 1)
  }

  lemma StepMoves(f: string, s: State)
    requires s.offset < |f|
    ensures s.offset < Step(f, s).offset <= |f| && s.items <= Step(f, s).items
  {
  }

  ghost function Run(f: string, s: State): State
    requires s.offset <= |f|
    decreases |f| - s.offset
  {
    if s.offset == |f| then s else
    StepMoves(f, s);
    Run(f, Step(f, s))
  }

  /** The tokens of the first pass. */
  ghost function Raw(f: string): seq<Token> {
    Flush(Run(f, INITIAL), Operand).items
  }

  // ----- operators have text -----

  /** An infix operator without a subtype has a text. */
  predicate HasSign(t: Token) {
    t.tp == OperatorInfix && t.sub == Nothing ==> t.value != ""
  }

  predicate AllSigns(ts: seq<Token>) {
    forall i | 0 <= i < |ts| :: HasSign(ts[i])
  }

  /** The tokens of a state. */
  predicate Signs(s: State) {
    AllSigns(s.items)
  }

  lemma AddSigns(s: State, t: Token)
    requires Signs(s) && HasSign(t)
    ensures Signs(Add(s, t))
  {
  }

  lemma FlushSigns(s: State, tp: TokenType)
    requires Signs(s)
    ensures Signs(Flush(s, tp))
  {
  }

  lemma OpenSigns(s: State, value: string, tp: TokenType)
    requires Signs(s)
    ensures Signs(Open(s, value, tp))
  {
    AddSigns(s, Token(value, tp, Start));
  }

  lemma CloseSigns(s: State)
    requires Signs(s)
    ensures Signs(Close(s))
  {
    AddSigns(s, StopToken(s.stack));
  }

  lemma BraceSigns(s: State, c: char)
    requires Signs(s)
    ensures Signs(Brace(s, c))
  {
    if c == '{' {
      var t := Flush(s, Unknown);
      FlushSigns(s, Unknown);
      OpenSigns(t, "ARRAY", Function);
      OpenSigns(Open(t, "ARRAY", Function), "ARRAYROW", Function);
    } else {
      var t := Flush(s, Operand);
      FlushSigns(s, Operand);
      CloseSigns(t);
      CloseSigns(Close(t));
      var comma := Token(",", Argument, Nothing);
      AddSigns(Close(t), comma);
      OpenSigns(Add(Close(t), comma), "ARRAYROW", Function);
    }
  }

  lemma BracketSigns(s: State, c: char)
    requires Signs(s)
    ensures Signs(Bracket(s, c))
  {
    FlushSigns(s, Operand);
    if c == '(' {
      OpenSigns(s, s.token, Function);
      OpenSigns(s, "", Subexpression);
    } else if c == ',' {
      AddSigns(Flush(s, Operand), Token(",", Argument, Nothing));
      AddSigns(Flush(s, Operand), Token(",", OperatorInfix, Union));
    } else {
      CloseSigns(Flush(s, Operand));
    }
  }

  lemma SignSigns(s: State, t: Token, n: nat)
    requires Signs(s) && HasSign(t)
    ensures Signs(Add(Flush(s, Operand), t).(offset := n))
  {
    FlushSigns(s, Operand);
    AddSigns(Flush(s, Operand), t);
  }

  lemma StepSigns(f: string, s: State)
    requires s.offset < |f| && Signs(s)
    ensures Signs(Step(f, s))
  {
    var c := f[s.offset];
    if s.inString || s.inPath || s.inError {
      AddSigns(s, Token(s.token, Operand, Text));
    } else if c in BEGINNERS {
      FlushSigns(s, Unknown);
    } else if c in BRACES {
      BraceSigns(s, c);
    } else if c in BRACKETS {
      BracketSigns(s, c);
    } else if c == ' ' {
      SignSigns(s, Token("", Whitespace, Nothing), SkipSpaces(f, s.offset + 1));
    } else if DoubleChar(f, s.offset) in COMPARATORS {
      SignSigns(s, Token(DoubleChar(f, s.offset), OperatorInfix, Logical), s.offset + 2);
    } else if c in INFIXES {
      SignSigns(s, Token([c], OperatorInfix, Nothing), s.offset + 1);
    } else if c == '%' {
      SignSigns(s, Token([c], OperatorPostfix, Nothing), s.offset + 1);
    }
  }

  lemma {:induction false} RunSigns(f: string, s: State)
    requires s.offset <= |f| && Signs(s)
    ensures Signs(Run(f, s))
    decreases |f| - s.offset
  {
    if s.offset < |f| {
      StepMoves(f, s);
      StepSigns(f, s);
      RunSigns(f, Step(f, s));
    }
  }

  lemma {:induction false} TightSigns(items: seq<Token>, k: nat)
    requires k <= |items| && AllSigns(items)
    ensures AllSigns(TightenTo(items, k))
    decreases k
  {
    if k > 1 {
      TightSigns(items, k - 1);
    }
  }

  /** After the first two passes every infix operator without a subtype has a first character. */
  lemma SignsThere(f: string)
    ensures AllSigns(TightenTo(Raw(f), |Raw(f)|))
  {
    RunSigns(f, INITIAL);
    FlushSigns(Run(f, INITIAL), Operand);
    TightSigns(Raw(f), |Raw(f)|);
  }

  // ----- the clean-up passes -----

  /** After such a token an operator has a left operand. */
  predicate EndsValue(t: Token) {
    (t.tp in {Function, Subexpression} && t.sub == Stop) || t.tp == Operand
  }

  predicate StartsValue(t: Token) {
    (t.tp in {Function, Subexpression} && t.sub == Start) || t.tp == Operand
  }

  /** White space at index `i`: an intersection between two values, otherwise nothing. */
  function Tightened(items: seq<Token>, i: nat): seq<Token>
    requires i < |items|
  {
    if items[i].tp != Whitespace then [items[i]]
    else if i == 0 || i == |items| - 1 || !EndsValue(items[i - 1]) || !StartsValue(items[i + 1]) then []
    else [Token(items[i].value, OperatorInfix, Intersection)]
  }

  /** The first clean-up pass up to index `k`; it begins with the second token, behind `=`. */
  ghost function TightenTo(items: seq<Token>, k: nat): seq<Token>
    requires k <= |items|
  {
    if k <= 1 then [] else TightenTo(items, k - 1) + Tightened(items, k - 1)
  }

  /** Does the token end a value, a postfix operator included? */
  predicate LeftOf(t: Token) {
    EndsValue(t) || t.tp == OperatorPostfix
  }

  predicate HasLeftOperand(items: seq<Token>, i: nat)
    requires i <= |items|
  {
    i > 0 && LeftOf(items[i - 1])
  }

  /** A token with its type and subtype settled, given whether a value ends before it; `isNumber` tells what parses
      as a number.  (An infix operator always has text by then, see `SignsThere`.) */
  function SettledBehind(isNumber: string -> bool, left: bool, t: Token): Token {
    if t.tp == OperatorInfix && t.value == "-" then
      if left then t.(sub := Math) else t.(tp := OperatorPrefix)
    else if t.tp == OperatorInfix && t.value == "+" then
      if left then t.(sub := Math) else t.(tp := Noop)
    else if t.tp == OperatorInfix && t.sub == Nothing then
      t.(sub := if t.value != "" && t.value[0] in {'<', '>', '='} then Logical
                else if t.value == "&" then Concatenation else Math)
    else if t.tp == Operand && t.sub == Nothing then
      t.(sub := if isNumber(t.value) then Number
                else if t.value == "TRUE" || t.value == "FALSE" then Logical else Range)
    else if t.tp == Function && |t.value| > 0 && t.value[0] == '@' then t.(value := t.value[1..])
    else t
  }

  function Settled(isNumber: string -> bool, items: seq<Token>, i: nat): Token
    requires i < |items|
  {
    SettledBehind(isNumber, HasLeftOperand(items, i), items[i])
  }

  function SettleAll(isNumber: string -> bool, items: seq<Token>): (out: seq<Token>)
    ensures |out| == |items|
  {
    seq(|items|, i requires 0 <= i < |items| => Settled(isNumber, items, i))
  }

  ghost function WithoutNoops(items: seq<Token>, k: nat): seq<Token>
    requires k <= |items|
  {
    if k == 0 then [] else WithoutNoops(items, k - 1) + if items[k - 1].tp == Noop then [] else [items[k - 1]]
  }

  ghost function Tokenised(isNumber: string -> bool, formula: string): seq<Token> {
    var raw := Raw(Normalised(formula));
    var settled := SettleAll(isNumber, TightenTo(raw, |raw|));
    WithoutNoops(settled, |settled|)
  }

  // ----- the parser as written -----

  class Parser {
    const isNumber: string -> bool
    var formula: string
    var tokens: seq<Token>
    var tokenStack: seq<Token>
    var offset: nat
    var token: string
    var inString: bool
    var inPath: bool
    var inRange: bool
    var inError: bool

    constructor (isNumber: string -> bool)
      ensures this.isNumber == isNumber && S() == INITIAL
    {
      this.isNumber := isNumber;
      formula, tokens, tokenStack, offset, token := "", [], [], 0, "";
      inString, inPath, inRange, inError := false, false, false, false;
    }

    ghost function S(): State
      reads this
    {
      State(tokens, tokenStack, offset, token, inString, inPath, inRange, inError)
    }

    method AddToken(t: Token)
      modifies this`tokens
      ensures S() == Add(old(S()), t)
    {
      tokens := tokens + [t];
    }

    method FlushToken(tp: TokenType)
      modifies this`tokens, this`token
      ensures S() == Flush(old(S()), tp)
    {
      if |token| > 0 {
        AddToken(Token(token, tp, Nothing));
        token := "";
      }
    }

    method Push(value: string, tp: TokenType)
      modifies this`tokens, this`tokenStack
      ensures S() == Open(old(S()), value, tp)
    {
      AddToken(Token(value, tp, Start));
      tokenStack := tokenStack + [Token(value, tp, Start)];
    }

    method Pop()
      modifies this`tokens, this`tokenStack
      ensures S() == Close(old(S()))
    {
      if |tokenStack| == 0 {
        AddToken(Token("", Function, Stop));
        return;
      }
      var t := tokenStack[|tokenStack| - 1];
      tokenStack := tokenStack[..|tokenStack| - 1];
      AddToken(Token("", t.tp, Stop));
    }

    /** Inside a string, a path or an error value. */
    method ReadInside()
      requires offset < |formula| && (inString || inPath || inError)
      modifies this`tokens, this`token, this`offset, this`inString, this`inPath, this`inRange
      ensures S() == Inside(old(S()), formula[old(offset)])
    {
      var c := formula[offset];
      if inString {
        if c == '\"' {
          inString := false;
          AddToken(Token(token, Operand, Text));
          token := "";
        } else {
          token := token + [c];
        }
        offset := offset + 1;
        return;
      }
      if inPath {
        if c == '\'' {
          inPath := false;
        } else {
          token := token + [c];
        }
        offset := offset + 1;
        return;
      }
      if c == ']' {
        inRange := false;
      }
      token := token + [c];
      offset := offset + 1;
    }

    method ReadBegin(c: char)
      requires c in BEGINNERS
      modifies this`tokens, this`token, this`offset, this`inString, this`inPath, this`inRange, this`inError
      ensures S() == Begin(old(S()), c)
    {
      if c == '\"' {
        FlushToken(Unknown);
        inString := true;
      } else if c == '\'' {
        FlushToken(Unknown);
        inPath := true;
      } else if c == '[' {
        inRange := true;
        token := token + [c];
      } else {
        FlushToken(Unknown);
        inError := true;
        token := token + [c];
      }
      offset := offset + 1;
    }

    method ReadBrace(c: char)
      requires c in BRACES
      modifies this`tokens, this`token, this`offset, this`tokenStack
      ensures S() == Brace(old(S()), c)
    {
      if c == '{' {
        FlushToken(Unknown);
        Push("ARRAY", Function);
        Push("ARRAYROW", Function);
      } else if c == ';' {
        FlushToken(Operand);
        Pop();
        AddToken(Token(",", Argument, Nothing));
        Push("ARRAYROW", Function);
      } else {
        FlushToken(Operand);
        Pop();
        Pop();
      }
      offset := offset + 1;
    }

    method ReadBracket(c: char)
      requires c in BRACKETS
      modifies this`tokens, this`token, this`offset, this`tokenStack
      ensures S() == Bracket(old(S()), c)
    {
      if c == '(' {
        if |token| > 0 {
          Push(token, Function);
          token := "";
        } else {
          Push("", Subexpression);
        }
      } else if c == ',' {
        FlushToken(Operand);
        if |tokenStack| > 0 && tokenStack[|tokenStack| - 1].tp == Function {
          AddToken(Token([c], Argument, Nothing));
        } else {
          AddToken(Token([c], OperatorInfix, Union));
        }
      } else {
        FlushToken(Operand);
        Pop();
      }
      offset := offset + 1;
    }

    /** The loop over a run of spaces; it reads the next character before it looks for the end, and is safe because the
        text does not end with a space. */
    method ReadSpaces()
      requires offset < |formula| && formula[offset] == ' ' && formula[|formula| - 1] != ' '
      modifies this`tokens, this`token, this`offset
      ensures S() == Add(Flush(old(S()), Operand), Token("", Whitespace, Nothing)).(offset := SkipSpaces(formula, old(offset) + 1))
    {
      FlushToken(Operand);
      AddToken(Token("", Whitespace, Nothing));
      ghost var s := S();
      offset := offset + 1;
      while formula[offset] == ' ' && offset < |formula|
        invariant old(offset) < offset < |formula| && S() == s.(offset := offset)
        invariant SkipSpaces(formula, old(offset) + 1) == SkipSpaces(formula, offset)
        decreases |formula| - offset
      {
        offset := offset + 1;
      }
    }

    /** One turn of the loop. */
    method ReadChar()
      requires offset < |formula| && formula[|formula| - 1] != ' '
      modifies this`tokens, this`token, this`offset, this`tokenStack, this`inString, this`inPath, this`inRange, this`inError
      ensures S() == Step(formula, old(S()))
    {
      if inString || inPath || inError {
        ReadInside();
        return;
      }
      var c := formula[offset];
      if c in BEGINNERS {
        ReadBegin(c);
      } else if c in BRACES {
        ReadBrace(c);
      } else if c in BRACKETS {
        ReadBracket(c);
      } else if c == ' ' {
        ReadSpaces();
      } else if DoubleChar(formula, offset) in COMPARATORS {
        FlushToken(Operand);
        AddToken(Token(DoubleChar(formula, offset), OperatorInfix, Logical));
        offset := offset + 2;
      } else if c in INFIXES {
        FlushToken(Operand);
        AddToken(Token([c], OperatorInfix, Nothing));
        offset := offset + 1;
      } else if c == '%' {
        FlushToken(Operand);
        AddToken(Token([c], OperatorPostfix, Nothing));
        offset := offset + 1;
      } else {
        token := token + [c];
        offset := offset + 1;
      }
    }

    /** The state-dependent evaluation of all characters. */
    method ReadAll()
      requires S() == INITIAL && (formula == "" || formula[|formula| - 1] != ' ')
      modifies this`tokens, this`token, this`offset, this`tokenStack, this`inString, this`inPath, this`inRange, this`inError
      ensures tokens == Raw(formula)
    {
      while offset < |formula|
        invariant offset <= |formula| && Run(formula, INITIAL) == Run(formula, S())
        decreases |formula| - offset
      {
        StepMoves(formula, S());
        ReadChar();
      }
      FlushToken(Operand);
    }

    /** `Parse`, for a new parser. */
    method Parse(text: string) returns (out: seq<Token>)
      requires S() == INITIAL
      modifies this
      ensures out == Tokenised(isNumber, text)
    {
      formula := Normalised(text);
      ReadAll();
      out := Tighten(tokens);
      SignsThere(formula);
      out := Settle(isNumber, out);
      out := DropNoops(out);
    }
  }

  /** A list of tokens with a cursor. */
  class Tokens {
    var index: int
    var items: seq<Token>

    constructor (items: seq<Token>, index: int)
      ensures this.items == items && this.index == index
    {
      this.items, this.index := items, index;
    }

    predicate Bof()
      reads this
    {
      index <= 0
    }

    predicate Eof()
      reads this
    {
      index >= |items| - 1
    }

    method MoveNext() returns (moved: bool)
      modifies this`index
      ensures moved == !old(Eof()) && index == old(index) + if moved then 1 else 0
    {
      if Eof() {
        return false;
      }
      index := index + 1;
      return true;
    }

    /** The current token and its neighbours, which must be there. */
    function Current(): Token
      requires 0 <= index < |items|
      reads this
    {
      items[index]
    }

    function Previous(): Token
      requires 1 <= index <= |items|
      reads this
    {
      items[index - 1]
    }

    function Next(): Token
      requires -1 <= index && !Eof()
      reads this
    {
      items[index + 1]
    }
  }

  /** The first clean-up pass; the cursor of a new parser stands at index 0, so that the first token is passed over. */
  method Tighten(items: seq<Token>) returns (out: seq<Token>)
    ensures out == TightenTo(items, |items|)
  {
    var tk := new Tokens(items, 0);
    out := [];
    var more := tk.MoveNext();
    while more
      invariant tk.items == items && 0 <= tk.index
      invariant if more then 1 <= tk.index < |items| && out == TightenTo(items, tk.index)
                else out == TightenTo(items, |items|)
      decreases more, |items| - tk.index
    {
      var token := tk.Current();
      assert out + [] == out;
      if token.tp == Whitespace {
        if tk.Bof() || tk.Eof() {
        } else if !EndsValue(tk.Previous()) {
        } else if !StartsValue(tk.Next()) {
        } else {
          out := out + [Token(token.value, OperatorInfix, Intersection)];
        }
      } else {
        out := out + [token];
      }
      more := tk.MoveNext();
    }
  }

  /** The pass that settles types and subtypes in place; it takes the first character of an infix operator's text
      without asking whether there is one. */
  method Settle(isNumber: string -> bool, items: seq<Token>) returns (out: seq<Token>)
    requires AllSigns(items)
    ensures out == SettleAll(isNumber, items)
  {
    out := items;
    for i := 0 to |items|
      invariant |out| == |items|
      invariant forall j | 0 <= j < |items| :: out[j] == if j < i then Settled(isNumber, items, j) else items[j]
    {
      var t := out[i];
      var left := i > 0 && LeftOf(out[i - 1]);
      if i > 0 {
        SettledEndsValue(isNumber, items, i - 1);
      }
      if t.tp == OperatorInfix && t.value == "-" {
        out := out[i := if left then t.(sub := Math) else t.(tp := OperatorPrefix)];
      } else if t.tp == OperatorInfix && t.value == "+" {
        out := out[i := if left then t.(sub := Math) else t.(tp := Noop)];
      } else if t.tp == OperatorInfix && t.sub == Nothing {
        assert HasSign(items[i]);
        var logical := t.value[0] in {'<', '>', '='};
        out := out[i := t.(sub := if logical then Logical else if t.value == "&" then Concatenation else Math)];
      } else if t.tp == Operand && t.sub == Nothing {
        var logical := t.value == "TRUE" || t.value == "FALSE";
        out := out[i := t.(sub := if isNumber(t.value) then Number else if logical then Logical else Range)];
      } else if t.tp == Function && |t.value| > 0 && t.value[0] == '@' {
        out := out[i := t.(value := t.value[1..])];
      }
    }
  }

  lemma SettledEndsValue(isNumber: string -> bool, items: seq<Token>, i: nat)
    requires i < |items|
    ensures LeftOf(Settled(isNumber, items, i)) == LeftOf(items[i])
  {
  }

  method DropNoops(items: seq<Token>) returns (out: seq<Token>)
    ensures out == WithoutNoops(items, |items|)
  {
    out := [];
    for i := 0 to |items|
      invariant out == WithoutNoops(items, i)
    {
      if items[i].tp != Noop {
        out := out + [items[i]];
      }
    }
  }
}

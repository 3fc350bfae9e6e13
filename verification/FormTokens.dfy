/** The tokens of a formula's text (backend/excelize/efp.go). */
module FormTokens {
  import opened Wrappers
  import opened Tokenizer
  import opened Formula
  import opened Forms
  import opened FormReading
  import Literals
  import TokenStream

  // ----- what each clean-up pass makes of a token among its neighbours -----

  function TightOf(prev: Token, t: Token, next: Token): seq<Token> {
    if t.tp != Whitespace then [t]
    else if EndsValue(prev) && StartsValue(next) then [Token(t.value, OperatorInfix, Intersection)] else []
  }

  /** Settled, and dropped if it does nothing. */
  function SettledOf(isNumber: string -> bool, left: bool, t: Token): seq<Token> {
    var u := SettledBehind(isNumber, left, t);
    if u.tp == Noop then [] else [u]
  }

  function AllSettled(isNumber: string -> bool, left: bool, ts: seq<Token>): seq<Token>
    decreases |ts|
  {
    if ts == [] then [] else SettledOf(isNumber, left, ts[0]) + AllSettled(isNumber, LeftOf(ts[0]), ts[1..])
  }

  function LeftNext(left: bool, ts: seq<Token>): bool {
    if ts == [] then left else LeftOf(ts[|ts| - 1])
  }

  function FirstRaw(its: seq<Item>, next: Token): Token {
    if its == [] then next else its[0].raw
  }

  function LastRaw(prev: Token, its: seq<Item>): Token {
    if its == [] then prev else its[|its| - 1].raw
  }

  function LeftAfter(left: bool, its: seq<Item>): bool
    decreases |its|
  {
    if its == [] then left else LeftAfter(LeftNext(left, its[0].tight), its[1..])
  }

  /** The item is what the passes make of its raw token there. */
  predicate ItemRight(isNumber: string -> bool, prev: Token, left: bool, t: Item, next: Token) {
    t.tight == TightOf(prev, t.raw, next) && t.settled == AllSettled(isNumber, left, t.tight)
  }

  /** And so for each of `its`, with `prev` before them and `next` behind; `left` tells whether a value ends before. */
  predicate Right(isNumber: string -> bool, prev: Token, left: bool, its: seq<Item>, next: Token)
    decreases |its|
  {
    its == [] ||
    (ItemRight(isNumber, prev, left, its[0], FirstRaw(its[1..], next)) &&
     Right(isNumber, its[0].raw, LeftNext(left, its[0].tight), its[1..], next))
  }

  lemma RightOne(isNumber: string -> bool, prev: Token, left: bool, t: Item, next: Token)
    requires ItemRight(isNumber, prev, left, t, next)
    ensures Right(isNumber, prev, left, [t], next) && LeftAfter(left, [t]) == LeftNext(left, t.tight)
  {
    assert [t][1..] == [];
  }

  lemma {:induction false} RightSplit(isNumber: string -> bool, prev: Token, left: bool, a: seq<Item>, b: seq<Item>, next: Token)
    requires Right(isNumber, prev, left, a, FirstRaw(b, next))
    requires Right(isNumber, LastRaw(prev, a), LeftAfter(left, a), b, next)
    ensures Right(isNumber, prev, left, a + b, next) && LeftAfter(left, a + b) == LeftAfter(LeftAfter(left, a), b)
    decreases |a|
  {
    if a == [] {
      assert a + b == b;
    } else {
      EndsSplit(prev, a, b, next);
      RightSplit(isNumber, a[0].raw, LeftNext(left, a[0].tight), a[1..], b, next);
    }
  }

  lemma EndsSplit(prev: Token, a: seq<Item>, b: seq<Item>, next: Token)
    requires a != []
    ensures (a + b)[0] == a[0] && (a + b)[1..] == a[1..] + b
    ensures FirstRaw(a[1..] + b, next) == FirstRaw(a[1..], FirstRaw(b, next)) && LastRaw(prev, a) == LastRaw(a[0].raw, a[1..])
  {
    if |a| > 1 {
      assert (a[1..] + b)[0] == a[1] && a[1..][|a| - 2] == a[|a| - 1];
    } else {
      assert a[1..] + b == b;
    }
  }

  /** Items on which a value ends, in a place where none ends before and none begins behind. */
  ghost predicate IsOperand(isNumber: string -> bool, prev: Token, its: seq<Item>, next: Token) {
    its != [] && Right(isNumber, prev, false, its, next) && LeftAfter(false, its)
  }

  /** One more item before, that ends no value. */
  lemma Before(isNumber: string -> bool, prev: Token, t: Item, its: seq<Item>, next: Token)
    requires ItemRight(isNumber, prev, false, t, FirstRaw(its, next)) && !LeftNext(false, t.tight)
    requires Right(isNumber, t.raw, false, its, next)
    ensures Right(isNumber, prev, false, [t] + its, next) && LeftAfter(false, [t] + its) == LeftAfter(false, its)
  {
    RightOne(isNumber, prev, false, t, FirstRaw(its, next));
    RightSplit(isNumber, prev, false, [t], its, next);
  }

  /** And one more behind. */
  lemma Behind(isNumber: string -> bool, prev: Token, its: seq<Item>, t: Item, next: Token)
    requires Right(isNumber, prev, false, its, t.raw)
    requires ItemRight(isNumber, LastRaw(prev, its), LeftAfter(false, its), t, next)
    ensures Right(isNumber, prev, false, its + [t], next)
    ensures LeftAfter(false, its + [t]) == LeftNext(LeftAfter(false, its), t.tight)
  {
    RightOne(isNumber, LastRaw(prev, its), LeftAfter(false, its), t, next);
    RightSplit(isNumber, prev, false, its, [t], next);
  }

  /** Two operands with an item between them that ends no value. */
  lemma Joined(isNumber: string -> bool, prev: Token, a: seq<Item>, mid: Item, b: seq<Item>, next: Token)
    requires b != [] && Right(isNumber, prev, false, a, mid.raw) && Right(isNumber, mid.raw, false, b, next)
    requires ItemRight(isNumber, LastRaw(prev, a), LeftAfter(false, a), mid, b[0].raw)
    requires !LeftNext(LeftAfter(false, a), mid.tight)
    ensures Right(isNumber, prev, false, a + ([mid] + b), next) && LeftAfter(false, a + ([mid] + b)) == LeftAfter(false, b)
  {
    var left := LeftAfter(false, a);
    RightOne(isNumber, LastRaw(prev, a), left, mid, b[0].raw);
    RightSplit(isNumber, LastRaw(prev, a), left, [mid], b, next);
    RightSplit(isNumber, prev, false, a, [mid] + b, next);
  }

  // ----- the items of a formula -----

  predicate NoValue(prev: Token, next: Token) {
    !EndsValue(prev) && !StartsValue(next)
  }

  lemma OneSettled(isNumber: string -> bool, left: bool, t: Token)
    ensures AllSettled(isNumber, left, [t]) == SettledOf(isNumber, left, t) && AllSettled(isNumber, left, []) == []
  {
    assert [t][1..] == [];
  }

  lemma OpRight(isNumber: string -> bool, prev: Token, op: Op, next: Token)
    ensures ItemRight(isNumber, prev, true, OpItem(op), next) && !LeftNext(true, OpItem(op).tight)
    ensures !StartsValue(OpItem(op).raw) && !EndsValue(OpItem(op).raw)
  {
    OneSettled(isNumber, true, OpItem(op).raw);
  }

  lemma SignRight(isNumber: string -> bool, prev: Token, c: char, next: Token)
    requires c in {'+', '-'}
    ensures ItemRight(isNumber, prev, false, SignOf(c), next) && !LeftNext(false, SignOf(c).tight) && !EndsValue(SignOf(c).raw)
  {
    OneSettled(isNumber, false, SignOf(c).raw);
  }

  lemma StartRight(isNumber: string -> bool, prev: Token, left: bool, name: string, next: Token)
    requires name != ""
    ensures ItemRight(isNumber, prev, left, StartItem(name), next) && !LeftNext(left, StartItem(name).tight)
    ensures !EndsValue(StartItem(name).raw)
  {
    OneSettled(isNumber, left, StartItem(name).raw);
  }

  /** A token that all passes leave as it is. */
  predicate Steady(t: Token) {
    t.tp != Whitespace && t.tp != OperatorInfix && t.tp != Noop && (t.tp == Operand ==> t.sub != Nothing) &&
    (t.tp == Function ==> t.value == "")
  }

  lemma SteadyRight(isNumber: string -> bool, prev: Token, left: bool, t: Token, next: Token)
    requires Steady(t)
    ensures ItemRight(isNumber, prev, left, Kept(t), next) && LeftNext(left, Kept(t).tight) == LeftOf(t)
  {
    OneSettled(isNumber, left, t);
  }

  lemma {:induction false} TextsRight(isNumber: string -> bool, prev: Token, left: bool, ts: seq<Token>, next: Token)
    requires Literals.AllTexts(ts)
    ensures Right(isNumber, prev, left, AllKept(ts), next) && (ts != [] ==> LeftAfter(left, AllKept(ts)))
    decreases |ts|
  {
    var its := AllKept(ts);
    if ts != [] {
      assert its[1..] == AllKept(ts[1..]);
      SteadyRight(isNumber, prev, left, ts[0], FirstRaw(its[1..], next));
      TextsRight(isNumber, ts[0], true, ts[1..], next);
    }
  }

  lemma {:induction false} FormRight(isNumber: string -> bool, e: Form, inFunction: bool, prev: Token, next: Token)
    requires Formed(e, inFunction) && NoValue(prev, next)
    ensures IsOperand(isNumber, prev, Items(isNumber, e), next)
    ensures EndsPlain(e) ==> EndsValue(LastRaw(prev, Items(isNumber, e)))
    ensures StartsPlain(e) ==> StartsValue(FirstRaw(Items(isNumber, e), next))
    decreases e, 1
  {
    match e
    case Piece(_) => LeafRight(isNumber, e, prev, next);
    case Quoted(_) => LeafRight(isNumber, e, prev, next);
    case Positive(x) => SignedRight(isNumber, e, '+', x, inFunction, prev, next);
    case Negative(x) => SignedRight(isNumber, e, '-', x, inFunction, prev, next);
    case Percent(_) => PercentRight(isNumber, e, inFunction, prev, next);
    case Binary(_, _, _) => BinaryRight(isNumber, e, inFunction, prev, next);
    case Common(_, _, _) => CommonRight(isNumber, e, inFunction, prev, next);
    case Spaced(_, _, _) => SpacedRight(isNumber, e, inFunction, prev, next);
    case Group(_) => GroupRight(isNumber, e, inFunction, prev, next);
    case Call(_, _) => CallRight(isNumber, e, inFunction, prev, next);
    case Table(_) => TableRight(isNumber, e, inFunction, prev, next);
  }

  lemma LeafRight(isNumber: string -> bool, e: Form, prev: Token, next: Token)
    requires (e.Piece? || e.Quoted?) && NoValue(prev, next)
    ensures IsOperand(isNumber, prev, Items(isNumber, e), next)
    ensures EndsValue(LastRaw(prev, Items(isNumber, e))) && StartsValue(FirstRaw(Items(isNumber, e), next))
  {
    if e.Piece? {
      var raw := Token(e.v, Operand, Nothing);
      var t := Items(isNumber, e)[0];
      OneSettled(isNumber, false, raw);
      RightOne(isNumber, prev, false, t, next);
      assert Items(isNumber, e) == [t];
    } else {
      var ts := Literals.Pieces("", e.v);
      Literals.PiecesExact("", e.v);
      Literals.PiecesText("", e.v);
      TextsRight(isNumber, prev, false, ts, next);
    }
  }

  lemma SignedRight(isNumber: string -> bool, e: Form, c: char, x: Form, inFunction: bool, prev: Token, next: Token)
    requires Formed(e, inFunction) && NoValue(prev, next)
    requires (e == Positive(x) && c == '+') || (e == Negative(x) && c == '-')
    ensures IsOperand(isNumber, prev, Items(isNumber, e), next)
    ensures EndsPlain(e) ==> EndsValue(LastRaw(prev, Items(isNumber, e)))
    decreases e, 0
  {
    var its := Items(isNumber, x);
    SignRight(isNumber, prev, c, FirstRaw(its, next));
    FormRight(isNumber, x, inFunction, SignOf(c).raw, next);
    Before(isNumber, prev, SignOf(c), its, next);
    assert Items(isNumber, e) == [SignOf(c)] + its;
  }

  lemma PercentRight(isNumber: string -> bool, e: Form, inFunction: bool, prev: Token, next: Token)
    requires Formed(e, inFunction) && e.Percent? && NoValue(prev, next)
    ensures IsOperand(isNumber, prev, Items(isNumber, e), next)
    ensures StartsPlain(e) ==> StartsValue(FirstRaw(Items(isNumber, e), next))
    decreases e, 0
  {
    var its, t := Items(isNumber, e.e), Token("%", OperatorPostfix, Nothing);
    FormRight(isNumber, e.e, inFunction, prev, t);
    SteadyRight(isNumber, LastRaw(prev, its), true, t, next);
    Behind(isNumber, prev, its, Kept(t), next);
  }

  /** Two operands and an operator `mid` between them. */
  lemma PairRight(isNumber: string -> bool, e: Form, mid: Item, inFunction: bool, prev: Token, next: Token)
    requires e.Binary? && Formed(e.l, inFunction) && Formed(e.r, inFunction) && NoValue(prev, next)
    requires !StartsValue(mid.raw) && !EndsValue(mid.raw) && !LeftNext(true, mid.tight)
    requires ItemRight(isNumber, LastRaw(prev, Items(isNumber, e.l)), true, mid, FirstRaw(Items(isNumber, e.r), next))
    ensures var its := Items(isNumber, e.l) + ([mid] + Items(isNumber, e.r));
            && IsOperand(isNumber, prev, its, next)
            && (EndsPlain(e.r) ==> EndsValue(LastRaw(prev, its))) && (StartsPlain(e.l) ==> StartsValue(FirstRaw(its, next)))
    decreases e, 0, 0
  {
    var a, b := Items(isNumber, e.l), Items(isNumber, e.r);
    FormRight(isNumber, e.l, inFunction, prev, mid.raw);
    FormRight(isNumber, e.r, inFunction, mid.raw, next);
    Joined(isNumber, prev, a, mid, b, next);
  }

  lemma BinaryRight(isNumber: string -> bool, e: Form, inFunction: bool, prev: Token, next: Token)
    requires Formed(e, inFunction) && e.Binary? && NoValue(prev, next)
    ensures IsOperand(isNumber, prev, Items(isNumber, e), next)
    ensures EndsPlain(e) ==> EndsValue(LastRaw(prev, Items(isNumber, e)))
    ensures StartsPlain(e) ==> StartsValue(FirstRaw(Items(isNumber, e), next))
    decreases e, 0, 1
  {
    OpRight(isNumber, LastRaw(prev, Items(isNumber, e.l)), e.op, FirstRaw(Items(isNumber, e.r), next));
    PairRight(isNumber, e, OpItem(e.op), inFunction, prev, next);
    assert Items(isNumber, e) == Items(isNumber, e.l) + ([OpItem(e.op)] + Items(isNumber, e.r));
  }

  lemma CommonItems(isNumber: string -> bool, prev: Token, a: seq<Item>, b: seq<Item>, next: Token)
    requires IsOperand(isNumber, prev, a, BLANK) && EndsValue(LastRaw(prev, a))
    requires IsOperand(isNumber, BLANK, b, next) && StartsValue(b[0].raw)
    ensures IsOperand(isNumber, prev, a + ([CommonItem()] + b), next)
  {
    OneSettled(isNumber, true, Token("", OperatorInfix, Intersection));
    Joined(isNumber, prev, a, CommonItem(), b, next);
  }

  lemma CommonEnds(prev: Token, a: seq<Item>, mid: Item, b: seq<Item>, next: Token)
    requires a != [] && b != []
    ensures FirstRaw(a + ([mid] + b), next) == FirstRaw(a, next) && LastRaw(prev, a + ([mid] + b)) == LastRaw(prev, b)
    ensures FirstRaw(a, mid.raw) == FirstRaw(a, next) && LastRaw(mid.raw, b) == LastRaw(prev, b)
  {
  }

  lemma CommonRight(isNumber: string -> bool, e: Form, inFunction: bool, prev: Token, next: Token)
    requires Formed(e, inFunction) && e.Common? && NoValue(prev, next)
    ensures IsOperand(isNumber, prev, Items(isNumber, e), next)
    ensures EndsPlain(e) ==> EndsValue(LastRaw(prev, Items(isNumber, e)))
    ensures StartsPlain(e) ==> StartsValue(FirstRaw(Items(isNumber, e), next))
    decreases e, 0
  {
    var a, b := Items(isNumber, e.l), Items(isNumber, e.r);
    FormRight(isNumber, e.l, inFunction, prev, BLANK);
    FormRight(isNumber, e.r, inFunction, BLANK, next);
    CommonItems(isNumber, prev, a, b, next);
    CommonEnds(prev, a, CommonItem(), b, next);
    assert Items(isNumber, e) == a + ([CommonItem()] + b);
  }

  /** Blanks before or behind an operand. */
  lemma BlankRight(isNumber: string -> bool, prev: Token, left: bool, n: nat, next: Token)
    requires !EndsValue(prev) || !StartsValue(next)
    ensures Right(isNumber, prev, left, BlankItems(n), next) && LeftAfter(left, BlankItems(n)) == left
  {
    if n > 0 {
      OneSettled(isNumber, left, BLANK);
      RightOne(isNumber, prev, left, Item(BLANK, [], []), next);
    }
  }

  lemma SpacedRight(isNumber: string -> bool, e: Form, inFunction: bool, prev: Token, next: Token)
    requires Formed(e, inFunction) && e.Spaced? && NoValue(prev, next)
    ensures IsOperand(isNumber, prev, Items(isNumber, e), next)
    decreases e, 0
  {
    var a, its, c := BlankItems(e.before), Items(isNumber, e.e), BlankItems(e.after);
    FormRight(isNumber, e.e, inFunction, LastRaw(prev, a), FirstRaw(c, next));
    BlankRight(isNumber, LastRaw(LastRaw(prev, a), its), true, e.after, next);
    RightSplit(isNumber, LastRaw(prev, a), false, its, c, next);
    BlankRight(isNumber, prev, false, e.before, FirstRaw(its + c, next));
    RightSplit(isNumber, prev, false, a, its + c, next);
  }

  /** Items between a bracket that opens and one that closes. */
  lemma Framed(isNumber: string -> bool, prev: Token, first: Item, its: seq<Item>, last: Token, next: Token)
    requires ItemRight(isNumber, prev, false, first, FirstRaw(its, last)) && !LeftNext(false, first.tight)
    requires Right(isNumber, first.raw, false, its, last) && Steady(last) && EndsValue(last)
    ensures IsOperand(isNumber, prev, [first] + (its + [Kept(last)]), next)
  {
    SteadyRight(isNumber, LastRaw(first.raw, its), LeftAfter(false, its), last, next);
    Behind(isNumber, first.raw, its, Kept(last), next);
    Before(isNumber, prev, first, its + [Kept(last)], next);
  }

  lemma GroupRight(isNumber: string -> bool, e: Form, inFunction: bool, prev: Token, next: Token)
    requires Formed(e, inFunction) && e.Group? && NoValue(prev, next)
    ensures IsOperand(isNumber, prev, Items(isNumber, e), next)
    ensures EndsValue(LastRaw(prev, Items(isNumber, e))) && StartsValue(FirstRaw(Items(isNumber, e), next))
    decreases e, 0
  {
    var its := Items(isNumber, e.e);
    SteadyRight(isNumber, prev, false, OPEN, FirstRaw(its, CLOSE));
    FormRight(isNumber, e.e, false, OPEN, CLOSE);
    Framed(isNumber, prev, Kept(OPEN), its, CLOSE, next);
    LastOfAll([Kept(OPEN)], its, CLOSE);
  }

  lemma LastOfAll(a: seq<Item>, its: seq<Item>, last: Token)
    ensures forall prev :: LastRaw(prev, a + (its + [Kept(last)])) == last
  {
  }

  lemma CallRight(isNumber: string -> bool, e: Form, inFunction: bool, prev: Token, next: Token)
    requires Formed(e, inFunction) && e.Call? && NoValue(prev, next)
    ensures IsOperand(isNumber, prev, Items(isNumber, e), next)
    ensures EndsValue(LastRaw(prev, Items(isNumber, e))) && StartsValue(FirstRaw(Items(isNumber, e), next))
    decreases e, 0
  {
    var its, first := ArgsItems(isNumber, e.args), StartItem(e.name);
    StartRight(isNumber, prev, false, e.name, FirstRaw(its, END));
    ArgsRight(isNumber, e.args, first.raw, END);
    Framed(isNumber, prev, first, its, END, next);
    LastOfAll([first], its, END);
  }

  lemma {:induction false} ArgsRight(isNumber: string -> bool, args: Forms, prev: Token, next: Token)
    requires ArgsFormed(args) && NoValue(prev, next)
    ensures Right(isNumber, prev, false, ArgsItems(isNumber, args), next)
    decreases args, 2
  {
    match args
    case One(a) => ArgRight(isNumber, a, prev, next);
    case More(a, rest) =>
      var its, others := ArgItems(isNumber, a), ArgsItems(isNumber, rest);
      ArgRight(isNumber, a, prev, COMMA);
      ArgsRight(isNumber, rest, COMMA, next);
      var left := LeftAfter(false, its);
      SteadyRight(isNumber, LastRaw(prev, its), left, COMMA, FirstRaw(others, next));
      RightOne(isNumber, LastRaw(prev, its), left, Kept(COMMA), FirstRaw(others, next));
      RightSplit(isNumber, LastRaw(prev, its), left, [Kept(COMMA)], others, next);
      RightSplit(isNumber, prev, false, its, [Kept(COMMA)] + others, next);
  }

  lemma ArgRight(isNumber: string -> bool, a: Option<Form>, prev: Token, next: Token)
    requires ArgFormed(a) && NoValue(prev, next)
    ensures Right(isNumber, prev, false, ArgItems(isNumber, a), next)
    decreases a, 2
  {
    if a.Some? {
      FormRight(isNumber, a.value, true, prev, next);
    }
  }

  lemma {:induction false} RowsRight(isNumber: string -> bool, rows: Rows, prev: Token, next: Token)
    requires RowsFormed(rows) && NoValue(prev, next)
    ensures Right(isNumber, prev, false, RowsItems(isNumber, rows), next)
    decreases rows, 3
  {
    match rows
    case LastRow(cells) => ArgsRight(isNumber, cells, prev, next);
    case NextRow(cells, rest) =>
      var its, others := ArgsItems(isNumber, cells), RowsItems(isNumber, rest);
      var mark := [Kept(END), Kept(COMMA), StartItem("ARRAYROW")];
      ArgsRight(isNumber, cells, prev, END);
      RowsRight(isNumber, rest, ROW, next);
      MarkRight(isNumber, LastRaw(prev, its), LeftAfter(false, its), FirstRaw(others, next));
      RightSplit(isNumber, LastRaw(prev, its), LeftAfter(false, its), mark, others, next);
      RightSplit(isNumber, prev, false, its, mark + others, next);
  }

  /** The end of one row and the beginning of the next. */
  lemma MarkRight(isNumber: string -> bool, prev: Token, left: bool, next: Token)
    ensures var mark := [Kept(END), Kept(COMMA), StartItem("ARRAYROW")];
            Right(isNumber, prev, left, mark, next) && !LeftAfter(left, mark)
  {
    var a, b, c := Kept(END), Kept(COMMA), StartItem("ARRAYROW");
    SteadyRight(isNumber, prev, left, END, COMMA);
    SteadyRight(isNumber, END, true, COMMA, ROW);
    StartRight(isNumber, COMMA, false, "ARRAYROW", next);
    RightOne(isNumber, COMMA, false, c, next);
    RightOne(isNumber, END, true, b, ROW);
    RightSplit(isNumber, END, true, [b], [c], next);
    RightOne(isNumber, prev, left, a, COMMA);
    RightSplit(isNumber, prev, left, [a], [b] + [c], next);
    assert [a] + ([b] + [c]) == [a, b, c];
  }

  lemma TableRight(isNumber: string -> bool, e: Form, inFunction: bool, prev: Token, next: Token)
    requires Formed(e, inFunction) && e.Table? && NoValue(prev, next)
    ensures IsOperand(isNumber, prev, Items(isNumber, e), next)
    ensures EndsValue(LastRaw(prev, Items(isNumber, e))) && StartsValue(FirstRaw(Items(isNumber, e), next))
    decreases e, 0
  {
    var its, row, outer := RowsItems(isNumber, e.rows), StartItem("ARRAYROW"), StartItem("ARRAY");
    RowsRight(isNumber, e.rows, ROW, END);
    StartRight(isNumber, ARRAY, false, "ARRAYROW", FirstRaw(its, END));
    StartRight(isNumber, prev, false, "ARRAY", ROW);
    Framed(isNumber, ARRAY, row, its, END, END);
    var inner := [row] + (its + [Kept(END)]);
    SteadyRight(isNumber, LastRaw(ARRAY, inner), true, END, next);
    Behind(isNumber, ARRAY, inner, Kept(END), next);
    Before(isNumber, prev, outer, inner + [Kept(END)], next);
    LastOfAll([outer], inner, END);
    assert [outer] + (inner + [Kept(END)]) == [outer] + ([row] + (its + [Kept(END), Kept(END)]));
  }

  // ----- the passes on all items -----

  lemma RawTail(its: seq<Item>, items: seq<Token>, k: nat)
    requires its != [] && k < |items| && RawTokens(its) == items[k..]
    ensures its[0].raw == items[k] && RawTokens(its[1..]) == items[k + 1..]
  {
    assert its == [its[0]] + its[1..];
    RawSplit([its[0]], its[1..]);
    LastOne(its[0]);
    assert items[k..][0] == items[k] && items[k..][1..] == items[k + 1..];
    assert ([its[0].raw] + RawTokens(its[1..]))[1..] == RawTokens(its[1..]);
  }

  lemma TightHead(isNumber: string -> bool, items: seq<Token>, t: Item, its: seq<Item>, k: nat, left: bool)
    requires 1 <= k < |items| && t.raw == items[k] && RawTokens(its) == items[k + 1..]
    requires ItemRight(isNumber, items[k - 1], left, t, FirstRaw(its, END))
    ensures Tightened(items, k) == t.tight
  {
    if k + 1 < |items| {
      assert items[k + 1..][0] == items[k + 1];
      assert RawTokens(its)[0] == its[0].raw;
    } else {
      assert RawTokens(its) == [];
      assert its == [];
    }
  }

  lemma {:induction false} TightAll(isNumber: string -> bool, items: seq<Token>, its: seq<Item>, k: nat, left: bool)
    requires 1 <= k <= |items| && RawTokens(its) == items[k..]
    requires Right(isNumber, items[k - 1], left, its, END)
    ensures TightenTo(items, |items|) == TightenTo(items, k) + TightItems(its)
    decreases |its|
  {
    assert |RawTokens(its)| == |items[k..]|;
    if its == [] {
      assert TightenTo(items, k) + [] == TightenTo(items, k);
    } else {
      RawTail(its, items, k);
      TightHead(isNumber, items, its[0], its[1..], k, left);
      assert TightenTo(items, k + 1) == TightenTo(items, k) + its[0].tight;
      TightAll(isNumber, items, its[1..], k + 1, LeftNext(left, its[0].tight));
      ThreeParts(TightenTo(items, k), its[0].tight, TightItems(its[1..]));
    }
  }

  lemma ThreeParts(a: seq<Token>, b: seq<Token>, c: seq<Token>)
    ensures a + b + c == a + (b + c)
  {
  }

  lemma {:induction false} SettledAll(isNumber: string -> bool, left: bool, a: seq<Token>, b: seq<Token>)
    ensures AllSettled(isNumber, left, a + b) == AllSettled(isNumber, left, a) + AllSettled(isNumber, LeftNext(left, a), b)
    decreases |a|
  {
    if a == [] {
      assert a + b == b;
    } else {
      assert (a + b)[0] == a[0] && (a + b)[1..] == a[1..] + b;
      SettledAll(isNumber, LeftOf(a[0]), a[1..], b);
    }
  }

  lemma {:induction false} ItemsSettled(isNumber: string -> bool, prev: Token, left: bool, its: seq<Item>, next: Token)
    requires Right(isNumber, prev, left, its, next)
    ensures AllSettled(isNumber, left, TightItems(its)) == LastTokens(its)
    decreases |its|
  {
    if its != [] {
      SettledAll(isNumber, left, its[0].tight, TightItems(its[1..]));
      ItemsSettled(isNumber, its[0].raw, LeftNext(left, its[0].tight), its[1..], next);
    }
  }

  /** Settling all tokens and then dropping those that do nothing is settling them one after the other. */
  lemma {:induction false} SettledIs(isNumber: string -> bool, ts: seq<Token>, k: nat)
    requires k <= |ts|
    ensures WithoutNoops(SettleAll(isNumber, ts), k) == AllSettled(isNumber, false, ts[..k])
    decreases k
  {
    if k > 0 {
      SettledIs(isNumber, ts, k - 1);
      assert ts[..k] == ts[..k - 1] + [ts[k - 1]];
      SettledAll(isNumber, false, ts[..k - 1], [ts[k - 1]]);
      OneSettled(isNumber, LeftNext(false, ts[..k - 1]), ts[k - 1]);
      assert HasLeftOperand(ts, k - 1) == LeftNext(false, ts[..k - 1]);
    }
  }

  // ----- the last tokens are those of the formula -----

  lemma {:induction false} LastOf(isNumber: string -> bool, e: Form)
    ensures LastTokens(Items(isNumber, e)) == TokensOf(isNumber, e)
    decreases e
  {
    match e
    case Piece(_) => LastOne(Items(isNumber, e)[0]);
    case Quoted(v) => LastKept(Literals.Pieces("", v));
    case Positive(x) =>
      LastOf(isNumber, x);
      LastSplit([SignOf('+')], Items(isNumber, x));
      LastOne(SignOf('+'));
    case Negative(x) =>
      LastOf(isNumber, x);
      LastSplit([SignOf('-')], Items(isNumber, x));
      LastOne(SignOf('-'));
    case Percent(x) =>
      LastOf(isNumber, x);
      LastSplit(Items(isNumber, x), [Kept(Token("%", OperatorPostfix, Nothing))]);
      LastOne(Kept(Token("%", OperatorPostfix, Nothing)));
    case Binary(l, op, r) =>
      LastOf(isNumber, l);
      LastOf(isNumber, r);
      LastMiddle(Items(isNumber, l), [OpItem(op)], Items(isNumber, r));
      LastOne(OpItem(op));
    case Common(l, _, r) =>
      LastOf(isNumber, l);
      LastOf(isNumber, r);
      LastMiddle(Items(isNumber, l), [CommonItem()], Items(isNumber, r));
      LastOne(CommonItem());
    case Spaced(m, x, n) =>
      LastOf(isNumber, x);
      LastMiddle(BlankItems(m), Items(isNumber, x), BlankItems(n));
      LastBlank(m);
      LastBlank(n);
      assert [] + TokensOf(isNumber, x) + [] == TokensOf(isNumber, x);
    case Group(x) =>
      LastOf(isNumber, x);
      LastMiddle([Kept(OPEN)], Items(isNumber, x), [Kept(CLOSE)]);
      LastOne(Kept(OPEN));
      LastOne(Kept(CLOSE));
    case Call(name, args) =>
      LastArgs(isNumber, args);
      LastMiddle([StartItem(name)], ArgsItems(isNumber, args), [Kept(END)]);
      LastOne(StartItem(name));
      LastOne(Kept(END));
    case Table(rows) => LastTable(isNumber, rows);
  }

  lemma LastTable(isNumber: string -> bool, rows: Rows)
    ensures LastTokens(Items(isNumber, Table(rows))) == TokensOf(isNumber, Table(rows))
    decreases rows, 1
  {
    var its, ends := RowsItems(isNumber, rows), [Kept(END), Kept(END)];
    LastRows(isNumber, rows);
    LastMiddle([StartItem("ARRAYROW")], its, ends);
    LastSplit([StartItem("ARRAY")], [StartItem("ARRAYROW")] + (its + ends));
    LastOne(StartItem("ARRAY"));
    LastOne(StartItem("ARRAYROW"));
    LastEnds();
  }

  lemma LastEnds()
    ensures LastTokens([Kept(END), Kept(END)]) == [END, END]
    ensures LastTokens([Kept(END), Kept(COMMA), StartItem("ARRAYROW")]) == [END, COMMA, ROW]
  {
    LastSplit([Kept(END)], [Kept(END)]);
    LastOne(Kept(END));
    LastOne(Kept(COMMA));
    LastOne(StartItem("ARRAYROW"));
    LastSplit([Kept(COMMA)], [StartItem("ARRAYROW")]);
    LastSplit([Kept(END)], [Kept(COMMA)] + [StartItem("ARRAYROW")]);
    assert [Kept(END)] + [Kept(END)] == [Kept(END), Kept(END)];
    assert [Kept(END)] + ([Kept(COMMA)] + [StartItem("ARRAYROW")]) == [Kept(END), Kept(COMMA), StartItem("ARRAYROW")];
  }

  lemma LastMiddle(a: seq<Item>, b: seq<Item>, c: seq<Item>)
    ensures LastTokens(a + (b + c)) == LastTokens(a) + (LastTokens(b) + LastTokens(c))
    ensures LastTokens(a + (b + c)) == LastTokens(a) + LastTokens(b) + LastTokens(c)
  {
    LastSplit(a, b + c);
    LastSplit(b, c);
    assert LastTokens(a) + (LastTokens(b) + LastTokens(c)) == LastTokens(a) + LastTokens(b) + LastTokens(c);
  }

  lemma LastBlank(n: nat)
    ensures LastTokens(BlankItems(n)) == []
  {
    LastOne(Item(BLANK, [], []));
  }

  lemma {:induction false} LastKept(ts: seq<Token>)
    ensures LastTokens(AllKept(ts)) == ts
    decreases |ts|
  {
    if ts != [] {
      LastKept(ts[1..]);
      assert AllKept(ts)[1..] == AllKept(ts[1..]);
      assert [ts[0]] + ts[1..] == ts;
    }
  }

  lemma LastArg(isNumber: string -> bool, a: Option<Form>)
    ensures LastTokens(ArgItems(isNumber, a)) == ArgTokens(isNumber, a)
    decreases a, 1
  {
    if a.Some? {
      LastOf(isNumber, a.value);
    }
  }

  lemma {:induction false} LastArgs(isNumber: string -> bool, args: Forms)
    ensures LastTokens(ArgsItems(isNumber, args)) == ArgsTokens(isNumber, args)
    decreases args
  {
    match args
    case One(a) => LastArg(isNumber, a);
    case More(a, rest) =>
      LastArg(isNumber, a);
      LastArgs(isNumber, rest);
      LastMiddle(ArgItems(isNumber, a), [Kept(COMMA)], ArgsItems(isNumber, rest));
      LastOne(Kept(COMMA));
  }

  lemma {:induction false} LastRows(isNumber: string -> bool, rows: Rows)
    ensures LastTokens(RowsItems(isNumber, rows)) == RowsTokens(isNumber, rows)
    decreases rows, 0
  {
    match rows
    case LastRow(cells) => LastArgs(isNumber, cells);
    case NextRow(cells, rest) =>
      LastArgs(isNumber, cells);
      LastRows(isNumber, rest);
      LastMiddle(ArgsItems(isNumber, cells), [Kept(END), Kept(COMMA), StartItem("ARRAYROW")], RowsItems(isNumber, rest));
      LastEnds();
  }

  // ----- main result -----

  lemma RawText(isNumber: string -> bool, e: Form)
    requires Formed(e, false)
    ensures Raw("=" + FormText(e)) == [EQUALS] + RawTokens(Items(isNumber, e))
  {
    var x := FormText(e);
    var f := "=" + x;
    TextFirst(e, false);
    assert f[0] == '=' && f[1] == x[0] && f[1..1 + |x|] == x;
    var s := ReadEquals(f);
    var t := ReadForm(isNumber, f, s, e, false);
    RawIs(f, s, t, x, RawTokens(Items(isNumber, e)));
  }

  /** What the passes leave of a formula's items. */
  lemma CleanItems(isNumber: string -> bool, its: seq<Item>)
    requires Right(isNumber, EQUALS, false, its, END)
    ensures var raw := [EQUALS] + RawTokens(its);
            var settled := SettleAll(isNumber, TightenTo(raw, |raw|));
            WithoutNoops(settled, |settled|) == LastTokens(its)
  {
    var raw, tight := [EQUALS] + RawTokens(its), TightItems(its);
    assert raw[1..] == RawTokens(its);
    TightAll(isNumber, raw, its, 1, false);
    assert TightenTo(raw, |raw|) == tight;
    SettledIs(isNumber, tight, |tight|);
    assert tight[..|tight|] == tight;
    ItemsSettled(isNumber, EQUALS, false, its, END);
  }

  /** Every formula, written with or without `=` before it, is read as its tokens: calls and arrays with their arguments,
      texts, signs and operators of all kinds, intersections and unions, and no token for any other blank. */
  lemma FormulaTokens(isNumber: string -> bool, e: Form)
    requires Formed(e, false) && !BeginsBlank(FormText(e)) && !EndsBlank(FormText(e))
    ensures Tokenised(isNumber, FormText(e)) == TokensOf(isNumber, e)
    ensures Tokenised(isNumber, "=" + FormText(e)) == TokensOf(isNumber, e)
  {
    var x, its := FormText(e), Items(isNumber, e);
    TextFirst(e, false);
    TextLast(e, false);
    Unspaced(x);
    Unspaced("=" + x);
    assert Normalised(x) == "=" + x && Normalised("=" + x) == "=" + x;
    RawText(isNumber, e);
    FormRight(isNumber, e, false, EQUALS, END);
    CleanItems(isNumber, its);
    LastOf(isNumber, e);
  }

  // ----- names with brackets, and text that is not expected -----

  /** An opening bracket is gathered like a letter. */
  predicate IsName(v: string) {
    v != "" && forall i | 0 <= i < |v| :: Gathered(v[i]) || v[i] == '['
  }

  lemma {:induction false} GatherName(f: string, s: State, v: string) returns (t: State)
    requires !s.inString && !s.inPath && !s.inError && At(f, s.offset, v)
    requires forall i | 0 <= i < |v| :: Gathered(v[i]) || v[i] == '['
    ensures t.(inRange := s.inRange) == s.(token := s.token + v, offset := s.offset + |v|) && Same(f, s, t)
    decreases |v|
  {
    if v == "" {
      t := s;
      SameRun(f, s, s);
      assert s.token + v == s.token;
    } else {
      AtFirst(f, s.offset, v);
      if v[0] != '[' {
        GatherStep(f, s);
      }
      var u := Step(f, s);
      RunStep(f, s);
      assert f[s.offset + 1..s.offset + |v|] == v[1..];
      t := GatherName(f, u, v[1..]);
      SameTrans(f, s, u, t);
      assert s.token + [v[0]] + v[1..] == s.token + v;
    }
  }

  lemma NameRaw(v: string)
    requires IsName(v)
    ensures v[0] !in {'=', '>'} && !IsSpace(v[0]) && !IsSpace(v[|v| - 1])
    ensures Raw("=" + v) == [EQUALS] + [Token(v, Operand, Nothing)]
  {
    var f := "=" + v;
    assert v[0] !in {'=', '>'} && !IsSpace(v[0]) && !IsSpace(v[|v| - 1]);
    assert f[1..1 + |v|] == v && f[1] == v[0];
    var s := ReadEquals(f);
    var t := GatherName(f, s, v);
    SameTrans(f, INITIAL, s, t);
    SameRun(f, INITIAL, t);
    RunEnds(f, t);
    assert t.token == v && t.items == [EQUALS] by {
      assert "" + v == v && [] + [EQUALS] == [EQUALS];
    }
  }

  /** A name with brackets in it is one operand. */
  lemma BracketedName(isNumber: string -> bool, v: string)
    requires IsName(v)
    ensures Tokenised(isNumber, v) == [Token(v, Operand, PieceKind(isNumber, v))]
  {
    NameRaw(v);
    Unspaced(v);
    var raw := Token(v, Operand, Nothing);
    var its := [Item(raw, [raw], [Token(v, Operand, PieceKind(isNumber, v))])];
    assert its == Items(isNumber, Piece(v));
    LastOne(its[0]);
    LeafRight(isNumber, Piece(v), EQUALS, END);
    CleanItems(isNumber, its);
  }

  /** Text directly before a quote, an apostrophe, an error value or an array is not expected: it becomes an unknown
      token. */
  lemma UnexpectedText(isNumber: string -> bool, v: string, c: char, rest: string)
    requires IsText(v) && c in {'\"', '\'', '#', '{'}
    ensures var ts := Tokenised(isNumber, v + [c] + rest); ts != [] && ts[0] == Token(v, Unknown, Nothing)
  {
    var f := Normalised(v + [c] + rest);
    KeptStart(v + [c], rest);
    assert f[..1 + |v + [c]|] == "=" + (v + [c]);
    assert f[1..1 + |v|] == v && f[1 + |v|] == c && f[0] == '=' && f[1] == v[0];
    UnexpectedRaw(f, v, c);
    StaysFirst(isNumber, Raw(f), Token(v, Unknown, Nothing));
  }

  lemma UnexpectedRaw(f: string, v: string, c: char)
    requires IsText(v) && c in {'\"', '\'', '#', '{'}
    requires |f| > 1 + |v| && f[0] == '=' && f[1..1 + |v|] == v && f[1 + |v|] == c && f[1] == v[0]
    ensures [EQUALS, Token(v, Unknown, Nothing)] <= Raw(f)
  {
    var s := ReadEquals(f);
    var t := Gather(f, s, v);
    assert "" + v == v;
    UnexpectedStep(f, t, v);
    var u := Step(f, t);
    RunStep(f, t);
    SameTrans(f, INITIAL, s, t);
    SameTrans(f, INITIAL, t, u);
    SameRun(f, INITIAL, u);
    TokenStream.RunExtends(f, u);
  }

  /** The character cuts the token off as an unknown one. */
  lemma UnexpectedStep(f: string, t: State, v: string)
    requires t.offset < |f| && f[t.offset] in {'\"', '\'', '#', '{'}
    requires v != "" && t.token == v && t.items == [EQUALS]
    requires !t.inString && !t.inPath && !t.inError && !t.inRange
    ensures [EQUALS, Token(v, Unknown, Nothing)] <= Step(f, t).items
  {
  }

  lemma {:induction false} TrimmedStart(a: string, b: string)
    requires a != "" && !IsSpace(a[|a| - 1])
    ensures a <= TrimEnd(a + b)
    decreases |b|
  {
    var s := a + b;
    if b == "" {
      assert s == a;
    } else if IsSpace(s[|s| - 1]) {
      assert s[..|s| - 1] == a + b[..|b| - 1];
      TrimmedStart(a, b[..|b| - 1]);
    }
  }

  lemma KeptStart(x: string, rest: string)
    requires x != "" && !IsSpace(x[0]) && x[0] != '=' && !IsSpace(x[|x| - 1])
    ensures "=" + x <= Normalised(x + rest)
  {
    assert TrimStart(x + rest) == x + rest;
    TrimmedStart(x, rest);
  }

  /** An unknown token behind `=` passes through all passes. */
  lemma StaysFirst(isNumber: string -> bool, raw: seq<Token>, t: Token)
    requires [EQUALS, t] <= raw && t.tp == Unknown
    ensures var settled := SettleAll(isNumber, TightenTo(raw, |raw|));
            [t] <= WithoutNoops(settled, |settled|)
  {
    TightFirst(raw, t, |raw|);
    var tight := TightenTo(raw, |raw|);
    var settled := SettleAll(isNumber, tight);
    assert settled[0] == t;
    NoopFirst(settled, t, |settled|);
  }

  lemma {:induction false} TightFirst(raw: seq<Token>, t: Token, k: nat)
    requires [EQUALS, t] <= raw && t.tp == Unknown && 2 <= k <= |raw|
    ensures [t] <= TightenTo(raw, k)
    decreases k
  {
    if k == 2 {
      assert TightenTo(raw, 1) == [];
      assert TightenTo(raw, 2) == [] + [t];
    } else {
      TightFirst(raw, t, k - 1);
    }
  }

  lemma {:induction false} NoopFirst(items: seq<Token>, t: Token, k: nat)
    requires 1 <= k <= |items| && items[0] == t && t.tp != Noop
    ensures [t] <= WithoutNoops(items, k)
    decreases k
  {
    if k == 1 {
      assert WithoutNoops(items, 0) == [];
    } else {
      NoopFirst(items, t, k - 1);
    }
  }
}

/** The grammar of arithmetic formulas, one class of operators at a time. */
module Grammar {
  import opened Wrappers
  import Calc
  import Formula
  import Tokenizer

  // An unambiguous grammar with a sort of phrase for each class of operators of
  // the evaluator (backend/excelize/calc.go), the tokens, text and value of each
  // phrase written out; and that the evaluator computes these values.

  /** `&` joins comparisons, these compare sums, sums are of products, products of powers, powers of signed operands;
      operators of one class associate to the left. */
  datatype Joined<V> = OneRelation(r: Relation<V>) | Join(l: Joined<V>, r: Relation<V>)
  datatype Relation<V> = OneSum(s: Sum<V>) | Compare(l: Relation<V>, how: Comparator, s: Sum<V>)
  datatype Sum<V> = OneProduct(p: Product<V>) | Plus(l: Sum<V>, p: Product<V>) | Less(l: Sum<V>, p: Product<V>)
  datatype Product<V> = OnePower(p: Power<V>) | Times(l: Product<V>, p: Power<V>) | Over(l: Product<V>, p: Power<V>)
  datatype Power<V> = OneSigned(s: Signed<V>) | Raise(l: Power<V>, s: Signed<V>)
  datatype Signed<V> = Unsigned(p: Primary<V>) | Negative(p: Primary<V>)
  datatype Primary<V> = Number(v: V) | Bracketed(e: Joined<V>)
  datatype Comparator = Equal | Below | AtMost | Above | AtLeast

  function Comparing(how: Comparator): Calc.Op {
    match how
    case Equal => Calc.Eq
    case Below => Calc.Lt
    case AtMost => Calc.Le
    case Above => Calc.Gt
    case AtLeast => Calc.Ge
  }

  // ----- tokens -----

  function JoinedTokens<V>(e: Joined<V>): seq<Calc.Token<V>> {
    match e
    case OneRelation(r) => RelationTokens(r)
    case Join(l, r) => JoinedTokens(l) + [Calc.Infix(Calc.Cat)] + RelationTokens(r)
  }

  function RelationTokens<V>(e: Relation<V>): seq<Calc.Token<V>> {
    match e
    case OneSum(s) => SumTokens(s)
    case Compare(l, how, s) => RelationTokens(l) + [Calc.Infix(Comparing(how))] + SumTokens(s)
  }

  function SumTokens<V>(e: Sum<V>): seq<Calc.Token<V>> {
    match e
    case OneProduct(p) => ProductTokens(p)
    case Plus(l, p) => SumTokens(l) + [Calc.Infix(Calc.Add)] + ProductTokens(p)
    case Less(l, p) => SumTokens(l) + [Calc.Infix(Calc.Sub)] + ProductTokens(p)
  }

  function ProductTokens<V>(e: Product<V>): seq<Calc.Token<V>> {
    match e
    case OnePower(p) => PowerTokens(p)
    case Times(l, p) => ProductTokens(l) + [Calc.Infix(Calc.Mul)] + PowerTokens(p)
    case Over(l, p) => ProductTokens(l) + [Calc.Infix(Calc.Div)] + PowerTokens(p)
  }

  function PowerTokens<V>(e: Power<V>): seq<Calc.Token<V>> {
    match e
    case OneSigned(s) => SignedTokens(s)
    case Raise(l, s) => PowerTokens(l) + [Calc.Infix(Calc.Pow)] + SignedTokens(s)
  }

  function SignedTokens<V>(e: Signed<V>): seq<Calc.Token<V>> {
    match e
    case Unsigned(p) => PrimaryTokens(p)
    case Negative(p) => [Calc.Minus] + PrimaryTokens(p)
  }

  function PrimaryTokens<V>(e: Primary<V>): seq<Calc.Token<V>> {
    match e
    case Number(v) => [Calc.Num(v)]
    case Bracketed(x) => [Calc.Open] + JoinedTokens(x) + [Calc.Close]
  }

  // ----- text -----

  function JoinedText(e: Joined<string>): string {
    match e
    case OneRelation(r) => RelationText(r)
    case Join(l, r) => JoinedText(l) + ("&" + RelationText(r))
  }

  function RelationText(e: Relation<string>): string {
    match e
    case OneSum(s) => SumText(s)
    case Compare(l, Equal, s) => RelationText(l) + ("=" + SumText(s))
    case Compare(l, Below, s) => RelationText(l) + ("<" + SumText(s))
    case Compare(l, AtMost, s) => RelationText(l) + ("<=" + SumText(s))
    case Compare(l, Above, s) => RelationText(l) + (">" + SumText(s))
    case Compare(l, AtLeast, s) => RelationText(l) + (">=" + SumText(s))
  }

  function SumText(e: Sum<string>): string {
    match e
    case OneProduct(p) => ProductText(p)
    case Plus(l, p) => SumText(l) + ("+" + ProductText(p))
    case Less(l, p) => SumText(l) + ("-" + ProductText(p))
  }

  function ProductText(e: Product<string>): string {
    match e
    case OnePower(p) => PowerText(p)
    case Times(l, p) => ProductText(l) + ("*" + PowerText(p))
    case Over(l, p) => ProductText(l) + ("/" + PowerText(p))
  }

  function PowerText(e: Power<string>): string {
    match e
    case OneSigned(s) => SignedText(s)
    case Raise(l, s) => PowerText(l) + ("^" + SignedText(s))
  }

  function SignedText(e: Signed<string>): string {
    match e
    case Unsigned(p) => PrimaryText(p)
    case Negative(p) => "-" + PrimaryText(p)
  }

  function PrimaryText(e: Primary<string>): string {
    match e
    case Number(v) => v
    case Bracketed(x) => "(" + (JoinedText(x) + ")")
  }

  // ----- values -----

  type Outcome<V, E> = Result<V, Calc.Error<E>>

  /** Two operands, the left one first, and an operator. */
  function Applied<V, E>(alg: Calc.Algebra<V, E>, op: Calc.Op, l: Outcome<V, E>, r: Outcome<V, E>): Outcome<V, E> {
    var v :- l;
    var w :- r;
    Calc.Lift(alg.bin(op, v, w))
  }

  function JoinedValue<V, E>(alg: Calc.Algebra<V, E>, e: Joined<V>): Outcome<V, E> {
    match e
    case OneRelation(r) => RelationValue(alg, r)
    case Join(l, r) => Applied(alg, Calc.Cat, JoinedValue(alg, l), RelationValue(alg, r))
  }

  function RelationValue<V, E>(alg: Calc.Algebra<V, E>, e: Relation<V>): Outcome<V, E> {
    match e
    case OneSum(s) => SumValue(alg, s)
    case Compare(l, how, s) => Applied(alg, Comparing(how), RelationValue(alg, l), SumValue(alg, s))
  }

  function SumValue<V, E>(alg: Calc.Algebra<V, E>, e: Sum<V>): Outcome<V, E> {
    match e
    case OneProduct(p) => ProductValue(alg, p)
    case Plus(l, p) => Applied(alg, Calc.Add, SumValue(alg, l), ProductValue(alg, p))
    case Less(l, p) => Applied(alg, Calc.Sub, SumValue(alg, l), ProductValue(alg, p))
  }

  function ProductValue<V, E>(alg: Calc.Algebra<V, E>, e: Product<V>): Outcome<V, E> {
    match e
    case OnePower(p) => PowerValue(alg, p)
    case Times(l, p) => Applied(alg, Calc.Mul, ProductValue(alg, l), PowerValue(alg, p))
    case Over(l, p) => Applied(alg, Calc.Div, ProductValue(alg, l), PowerValue(alg, p))
  }

  function PowerValue<V, E>(alg: Calc.Algebra<V, E>, e: Power<V>): Outcome<V, E> {
    match e
    case OneSigned(s) => SignedValue(alg, s)
    case Raise(l, s) => Applied(alg, Calc.Pow, PowerValue(alg, l), SignedValue(alg, s))
  }

  function SignedValue<V, E>(alg: Calc.Algebra<V, E>, e: Signed<V>): Outcome<V, E> {
    match e
    case Unsigned(p) => PrimaryValue(alg, p)
    case Negative(p) =>
      var v :- PrimaryValue(alg, p);
      Calc.Lift(alg.neg(v))
  }

  function PrimaryValue<V, E>(alg: Calc.Algebra<V, E>, e: Primary<V>): Outcome<V, E> {
    match e
    case Number(v) => Success(v)
    case Bracketed(x) => JoinedValue(alg, x)
  }

  // ----- trees -----

  function JoinedTree<V>(e: Joined<V>): Calc.Expr<V> {
    match e
    case OneRelation(r) => RelationTree(r)
    case Join(l, r) => Calc.Bin(Calc.Cat, JoinedTree(l), RelationTree(r))
  }

  function RelationTree<V>(e: Relation<V>): Calc.Expr<V> {
    match e
    case OneSum(s) => SumTree(s)
    case Compare(l, how, s) => Calc.Bin(Comparing(how), RelationTree(l), SumTree(s))
  }

  function SumTree<V>(e: Sum<V>): Calc.Expr<V> {
    match e
    case OneProduct(p) => ProductTree(p)
    case Plus(l, p) => Calc.Bin(Calc.Add, SumTree(l), ProductTree(p))
    case Less(l, p) => Calc.Bin(Calc.Sub, SumTree(l), ProductTree(p))
  }

  function ProductTree<V>(e: Product<V>): Calc.Expr<V> {
    match e
    case OnePower(p) => PowerTree(p)
    case Times(l, p) => Calc.Bin(Calc.Mul, ProductTree(l), PowerTree(p))
    case Over(l, p) => Calc.Bin(Calc.Div, ProductTree(l), PowerTree(p))
  }

  function PowerTree<V>(e: Power<V>): Calc.Expr<V> {
    match e
    case OneSigned(s) => SignedTree(s)
    case Raise(l, s) => Calc.Bin(Calc.Pow, PowerTree(l), SignedTree(s))
  }

  function SignedTree<V>(e: Signed<V>): Calc.Expr<V> {
    match e
    case Unsigned(p) => PrimaryTree(p)
    case Negative(p) => Calc.Neg(PrimaryTree(p))
  }

  function PrimaryTree<V>(e: Primary<V>): Calc.Expr<V> {
    match e
    case Number(v) => Calc.Lit(v)
    case Bracketed(x) => Calc.Paren(JoinedTree(x))
  }

  /** Tree `t` has these tokens and this value, needs no further brackets, and binds at least as tightly as class `p`. */
  ghost predicate Fits<V, E>(alg: Calc.Algebra<V, E>, t: Calc.Expr<V>, ts: seq<Calc.Token<V>>, v: Outcome<V, E>, p: nat) {
    && Calc.Formed(t) && Calc.NoDoubleMinus(t) && Calc.Rank(t) >= p
    && Calc.Tokens(t) == ts && Calc.Value(alg, t) == v
  }

  /** The evaluator's table has the operator in class `p`: its left operand is of the class or tighter, its right one
      tighter. */
  lemma FitsBin<V, E>(alg: Calc.Algebra<V, E>, op: Calc.Op, p: nat, l: Calc.Expr<V>, ls: seq<Calc.Token<V>>, v: Outcome<V, E>,
                      r: Calc.Expr<V>, rs: seq<Calc.Token<V>>, w: Outcome<V, E>)
    requires Calc.OpPriority(op) == p && Fits(alg, l, ls, v, p) && Fits(alg, r, rs, w, p + 1)
    ensures Fits(alg, Calc.Bin(op, l, r), ls + [Calc.Infix(op)] + rs, Applied(alg, op, v, w), p)
  {
  }

  lemma {:induction false} JoinedFits<V, E>(alg: Calc.Algebra<V, E>, e: Joined<V>)
    ensures Fits(alg, JoinedTree(e), JoinedTokens(e), JoinedValue(alg, e), 1)
    decreases e
  {
    match e
    case OneRelation(r) => RelationFits(alg, r);
    case Join(l, r) =>
      JoinedFits(alg, l);
      RelationFits(alg, r);
      FitsBin(alg, Calc.Cat, 1, JoinedTree(l), JoinedTokens(l), JoinedValue(alg, l), RelationTree(r), RelationTokens(r), RelationValue(alg, r));
  }

  lemma {:induction false} RelationFits<V, E>(alg: Calc.Algebra<V, E>, e: Relation<V>)
    ensures Fits(alg, RelationTree(e), RelationTokens(e), RelationValue(alg, e), 2)
    decreases e
  {
    match e
    case OneSum(s) => SumFits(alg, s);
    case Compare(l, how, s) =>
      RelationFits(alg, l);
      SumFits(alg, s);
      FitsBin(alg, Comparing(how), 2, RelationTree(l), RelationTokens(l), RelationValue(alg, l), SumTree(s), SumTokens(s), SumValue(alg, s));
  }

  lemma {:induction false} SumFits<V, E>(alg: Calc.Algebra<V, E>, e: Sum<V>)
    ensures Fits(alg, SumTree(e), SumTokens(e), SumValue(alg, e), 3)
    decreases e
  {
    match e
    case OneProduct(p) => ProductFits(alg, p);
    case Plus(l, p) =>
      SumFits(alg, l);
      ProductFits(alg, p);
      FitsBin(alg, Calc.Add, 3, SumTree(l), SumTokens(l), SumValue(alg, l), ProductTree(p), ProductTokens(p), ProductValue(alg, p));
    case Less(l, p) =>
      SumFits(alg, l);
      ProductFits(alg, p);
      FitsBin(alg, Calc.Sub, 3, SumTree(l), SumTokens(l), SumValue(alg, l), ProductTree(p), ProductTokens(p), ProductValue(alg, p));
  }

  lemma {:induction false} ProductFits<V, E>(alg: Calc.Algebra<V, E>, e: Product<V>)
    ensures Fits(alg, ProductTree(e), ProductTokens(e), ProductValue(alg, e), 4)
    decreases e
  {
    match e
    case OnePower(p) => PowerFits(alg, p);
    case Times(l, p) =>
      ProductFits(alg, l);
      PowerFits(alg, p);
      FitsBin(alg, Calc.Mul, 4, ProductTree(l), ProductTokens(l), ProductValue(alg, l), PowerTree(p), PowerTokens(p), PowerValue(alg, p));
    case Over(l, p) =>
      ProductFits(alg, l);
      PowerFits(alg, p);
      FitsBin(alg, Calc.Div, 4, ProductTree(l), ProductTokens(l), ProductValue(alg, l), PowerTree(p), PowerTokens(p), PowerValue(alg, p));
  }

  lemma {:induction false} PowerFits<V, E>(alg: Calc.Algebra<V, E>, e: Power<V>)
    ensures Fits(alg, PowerTree(e), PowerTokens(e), PowerValue(alg, e), 5)
    decreases e
  {
    match e
    case OneSigned(s) => SignedFits(alg, s);
    case Raise(l, s) =>
      PowerFits(alg, l);
      SignedFits(alg, s);
      FitsBin(alg, Calc.Pow, 5, PowerTree(l), PowerTokens(l), PowerValue(alg, l), SignedTree(s), SignedTokens(s), SignedValue(alg, s));
  }

  lemma {:induction false} SignedFits<V, E>(alg: Calc.Algebra<V, E>, e: Signed<V>)
    ensures Fits(alg, SignedTree(e), SignedTokens(e), SignedValue(alg, e), 6)
    decreases e
  {
    match e
    case Unsigned(p) => PrimaryFits(alg, p);
    case Negative(p) => PrimaryFits(alg, p);
  }

  lemma {:induction false} PrimaryFits<V, E>(alg: Calc.Algebra<V, E>, e: Primary<V>)
    ensures Fits(alg, PrimaryTree(e), PrimaryTokens(e), PrimaryValue(alg, e), 7)
    decreases e
  {
    match e
    case Number(_) =>
    case Bracketed(x) => JoinedFits(alg, x);
  }

  // ----- every tree the evaluator gets right is a phrase -----

  lemma {:induction false} AsJoined<V>(t: Calc.Expr<V>) returns (e: Joined<V>)
    requires Calc.Formed(t) && Calc.NoDoubleMinus(t)
    ensures JoinedTree(e) == t
    decreases t, 6
  {
    if t.Bin? && t.op.Cat? {
      var l := AsJoined(t.l);
      var r := AsRelation(t.r);
      e := Join(l, r);
    } else {
      var r := AsRelation(t);
      e := OneRelation(r);
    }
  }

  lemma {:induction false} AsRelation<V>(t: Calc.Expr<V>) returns (e: Relation<V>)
    requires Calc.Formed(t) && Calc.NoDoubleMinus(t) && Calc.Rank(t) >= 2
    ensures RelationTree(e) == t
    decreases t, 5
  {
    if t.Bin? && (t.op.Eq? || t.op.Lt? || t.op.Le? || t.op.Gt? || t.op.Ge?) {
      var l := AsRelation(t.l);
      var s := AsSum(t.r);
      var how := match t.op case Eq => Equal case Lt => Below case Le => AtMost case Gt => Above case _ => AtLeast;
      e := Compare(l, how, s);
    } else {
      var s := AsSum(t);
      e := OneSum(s);
    }
  }

  lemma {:induction false} AsSum<V>(t: Calc.Expr<V>) returns (e: Sum<V>)
    requires Calc.Formed(t) && Calc.NoDoubleMinus(t) && Calc.Rank(t) >= 3
    ensures SumTree(e) == t
    decreases t, 4
  {
    if t.Bin? && (t.op.Add? || t.op.Sub?) {
      var l := AsSum(t.l);
      var p := AsProduct(t.r);
      e := if t.op.Add? then Plus(l, p) else Less(l, p);
    } else {
      var p := AsProduct(t);
      e := OneProduct(p);
    }
  }

  lemma {:induction false} AsProduct<V>(t: Calc.Expr<V>) returns (e: Product<V>)
    requires Calc.Formed(t) && Calc.NoDoubleMinus(t) && Calc.Rank(t) >= 4
    ensures ProductTree(e) == t
    decreases t, 3
  {
    if t.Bin? && (t.op.Mul? || t.op.Div?) {
      var l := AsProduct(t.l);
      var p := AsPower(t.r);
      e := if t.op.Mul? then Times(l, p) else Over(l, p);
    } else {
      var p := AsPower(t);
      e := OnePower(p);
    }
  }

  lemma {:induction false} AsPower<V>(t: Calc.Expr<V>) returns (e: Power<V>)
    requires Calc.Formed(t) && Calc.NoDoubleMinus(t) && Calc.Rank(t) >= 5
    ensures PowerTree(e) == t
    decreases t, 2
  {
    if t.Bin? {
      var l := AsPower(t.l);
      var s := AsSigned(t.r);
      e := Raise(l, s);
    } else {
      var s := AsSigned(t);
      e := OneSigned(s);
    }
  }

  lemma {:induction false} AsSigned<V>(t: Calc.Expr<V>) returns (e: Signed<V>)
    requires Calc.Formed(t) && Calc.NoDoubleMinus(t) && Calc.Rank(t) >= 6
    ensures SignedTree(e) == t
    decreases t, 1
  {
    if t.Neg? {
      var p := AsPrimary(t.e);
      e := Negative(p);
    } else {
      var p := AsPrimary(t);
      e := Unsigned(p);
    }
  }

  lemma {:induction false} AsPrimary<V>(t: Calc.Expr<V>) returns (e: Primary<V>)
    requires Calc.Formed(t) && Calc.NoDoubleMinus(t) && Calc.Rank(t) == 7
    ensures PrimaryTree(e) == t
    decreases t, 0
  {
    match t
    case Lit(v) => e := Number(v);
    case Paren(x) =>
      var y := AsJoined(x);
      e := Bracketed(y);
  }

  // ----- main results -----

  /** The two stacks compute the value of every phrase: `^` before `*` and `/`, these before `+` and `-`, these before
      comparisons, these before `&`, a prefix minus before all of them, and each class from the left. */
  lemma EvalPhrase<V, E>(alg: Calc.Algebra<V, E>, e: Joined<V>)
    ensures Calc.Eval(alg, JoinedTokens(e)) == JoinedValue(alg, e)
  {
    JoinedFits(alg, e);
    Calc.EvalTree(alg, JoinedTree(e));
  }

  /** The phrases are exactly the trees that are written without superfluous or missing brackets and without a doubled
      minus. */
  lemma PhrasesExact<V(!new)>(t: Calc.Expr<V>)
    ensures Calc.Formed(t) && Calc.NoDoubleMinus(t) <==> exists e: Joined<V> :: JoinedTree(e) == t
  {
    if Calc.Formed(t) && Calc.NoDoubleMinus(t) {
      var e := AsJoined(t);
    }
    var alg: Calc.Algebra<V, ()> := Calc.Algebra(v => Success(v), (op, v, w) => Success(v));
    forall e: Joined<V> | JoinedTree(e) == t ensures Calc.Formed(t) && Calc.NoDoubleMinus(t) {
      JoinedFits(alg, e);
    }
  }

  // ----- from the text -----

  ghost predicate JoinedNumeric(isNumber: string -> bool, e: Joined<string>) {
    match e
    case OneRelation(r) => RelationNumeric(isNumber, r)
    case Join(l, r) => JoinedNumeric(isNumber, l) && RelationNumeric(isNumber, r)
  }

  ghost predicate RelationNumeric(isNumber: string -> bool, e: Relation<string>) {
    match e
    case OneSum(s) => SumNumeric(isNumber, s)
    case Compare(l, _, s) => RelationNumeric(isNumber, l) && SumNumeric(isNumber, s)
  }

  ghost predicate SumNumeric(isNumber: string -> bool, e: Sum<string>) {
    match e
    case OneProduct(p) => ProductNumeric(isNumber, p)
    case Plus(l, p) => SumNumeric(isNumber, l) && ProductNumeric(isNumber, p)
    case Less(l, p) => SumNumeric(isNumber, l) && ProductNumeric(isNumber, p)
  }

  ghost predicate ProductNumeric(isNumber: string -> bool, e: Product<string>) {
    match e
    case OnePower(p) => PowerNumeric(isNumber, p)
    case Times(l, p) => ProductNumeric(isNumber, l) && PowerNumeric(isNumber, p)
    case Over(l, p) => ProductNumeric(isNumber, l) && PowerNumeric(isNumber, p)
  }

  ghost predicate PowerNumeric(isNumber: string -> bool, e: Power<string>) {
    match e
    case OneSigned(s) => PrimaryNumeric(isNumber, s.p)
    case Raise(l, s) => PowerNumeric(isNumber, l) && PrimaryNumeric(isNumber, s.p)
  }

  ghost predicate PrimaryNumeric(isNumber: string -> bool, e: Primary<string>) {
    match e
    case Number(v) => Formula.NumberText(isNumber, v)
    case Bracketed(x) => JoinedNumeric(isNumber, x)
  }

  ghost predicate Written(isNumber: string -> bool, t: Calc.Expr<string>, text: string) {
    Formula.TextOf(t) == text && Formula.Numeric(isNumber, t)
  }

  lemma {:induction false} JoinedWritten(isNumber: string -> bool, e: Joined<string>)
    requires JoinedNumeric(isNumber, e)
    ensures Written(isNumber, JoinedTree(e), JoinedText(e))
    decreases e
  {
    match e
    case OneRelation(r) => RelationWritten(isNumber, r);
    case Join(l, r) =>
      JoinedWritten(isNumber, l);
      RelationWritten(isNumber, r);
  }

  lemma {:induction false} RelationWritten(isNumber: string -> bool, e: Relation<string>)
    requires RelationNumeric(isNumber, e)
    ensures Written(isNumber, RelationTree(e), RelationText(e))
    decreases e
  {
    match e
    case OneSum(s) => SumWritten(isNumber, s);
    case Compare(l, _, s) =>
      RelationWritten(isNumber, l);
      SumWritten(isNumber, s);
  }

  lemma {:induction false} SumWritten(isNumber: string -> bool, e: Sum<string>)
    requires SumNumeric(isNumber, e)
    ensures Written(isNumber, SumTree(e), SumText(e))
    decreases e
  {
    match e
    case OneProduct(p) => ProductWritten(isNumber, p);
    case Plus(l, p) =>
      SumWritten(isNumber, l);
      ProductWritten(isNumber, p);
    case Less(l, p) =>
      SumWritten(isNumber, l);
      ProductWritten(isNumber, p);
  }

  lemma {:induction false} ProductWritten(isNumber: string -> bool, e: Product<string>)
    requires ProductNumeric(isNumber, e)
    ensures Written(isNumber, ProductTree(e), ProductText(e))
    decreases e
  {
    match e
    case OnePower(p) => PowerWritten(isNumber, p);
    case Times(l, p) =>
      ProductWritten(isNumber, l);
      PowerWritten(isNumber, p);
    case Over(l, p) =>
      ProductWritten(isNumber, l);
      PowerWritten(isNumber, p);
  }

  lemma {:induction false} PowerWritten(isNumber: string -> bool, e: Power<string>)
    requires PowerNumeric(isNumber, e)
    ensures Written(isNumber, PowerTree(e), PowerText(e))
    decreases e
  {
    match e
    case OneSigned(s) => PrimaryWritten(isNumber, s.p);
    case Raise(l, s) =>
      PowerWritten(isNumber, l);
      PrimaryWritten(isNumber, s.p);
  }

  lemma {:induction false} PrimaryWritten(isNumber: string -> bool, e: Primary<string>)
    requires PrimaryNumeric(isNumber, e)
    ensures Written(isNumber, PrimaryTree(e), PrimaryText(e))
    decreases e
  {
    match e
    case Number(_) =>
    case Bracketed(x) => JoinedWritten(isNumber, x);
  }

  /** So the text of every phrase over numbers, tokenised and evaluated, has the value of the phrase. */
  lemma PhraseText<E>(isNumber: string -> bool, alg: Calc.Algebra<string, E>, e: Joined<string>)
    requires JoinedNumeric(isNumber, e)
    ensures Calc.Eval(alg, Formula.AllAsCalc(Tokenizer.Tokenised(isNumber, JoinedText(e)))) == JoinedValue(alg, e)
  {
    JoinedWritten(isNumber, e);
    JoinedFits(alg, e);
    Formula.FormulaValue(isNumber, alg, JoinedTree(e));
  }
}

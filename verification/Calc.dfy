/** The two-stack formula evaluator (backend/excelize/calc.go). */
module Calc {
  import opened Wrappers

  // Evaluation of function-free formulas by operator precedence, for any
  // interpretation of the operators. EvalActual says what the evaluator computes
  // on every balanced token stream; the tree value is the special case in which
  // no prefix minus directly follows a prefix minus (EvalTree), and that case is
  // shown to be exact (EvalTreeExact).

  /** The operators of the priority table. */
  datatype Op = Pow | Mul | Div | Add | Sub | Eq | Lt | Le | Gt | Ge | Cat

  /** Operands carry their value; `Minus` is the prefix operator. */
  datatype Token<V> = Num(v: V) | Infix(op: Op) | Minus | Open | Close

  /** `NilOperator` is the type assertion on an empty operator stack, `Operator` an operator's own error. */
  datatype Error<E> = NotValid | NilOperator | Operator(e: E)

  /** An interpretation of the operators; each may fail (parse error, division by zero). */
  datatype Algebra<!V, !E> = Algebra(neg: V -> Result<V, E>, bin: (Op, V, V) -> Result<V, E>)

  function OpPriority(op: Op): (p: nat)
    ensures 1 <= p <= 5
  {
    match op
    case Pow => 5
    case Mul => 4
    case Div => 4
    case Add => 3
    case Sub => 3
    case Cat => 1
    case _ => 2
  }

  function Priority<V>(t: Token<V>): nat {
    match t
    case Infix(op) => OpPriority(op)
    case Minus => 6
    case _ => 0
  }

  predicate IsOperator<V>(t: Token<V>) {
    t.Infix? || t.Minus?
  }

  // ----- the machine -----

  datatype State<V> = State(opd: seq<V>, opt: seq<Token<V>>)

  function Lift<V, E>(r: Result<V, E>): Result<V, Error<E>> {
    match r
    case Success(v) => Success(v)
    case Failure(e) => Failure(Operator(e))
  }

  /** Applies operator `t` to the top of the operand stack; a bracket does nothing. */
  function Calculate<V, E>(alg: Algebra<V, E>, opd: seq<V>, t: Token<V>): Result<seq<V>, Error<E>> {
    match t
    case Minus =>
      if |opd| < 1 then Failure(NotValid) else
      var v :- Lift(alg.neg(opd[|opd| - 1]));
      Success(opd[..|opd| - 1] + [v])
    case Infix(op) =>
      if |opd| < 2 then Failure(NotValid) else
      var v :- Lift(alg.bin(op, opd[|opd| - 2], opd[|opd| - 1]));
      Success(opd[..|opd| - 2] + [v])
    case _ => Success(opd)
  }

  ghost predicate Below<V>(opt: seq<Token<V>>, p: int) {
    opt == [] || Priority(opt[|opt| - 1]) < p
  }

  /** Pops and applies operators until the top one binds less tightly than `p`. */
  ghost function Flush<V, E>(alg: Algebra<V, E>, s: State<V>, p: int): Result<State<V>, Error<E>>
    decreases |s.opt|
  {
    if Below(s.opt, p) then Success(s) else
    var n := |s.opt| - 1;
    var opd :- Calculate(alg, s.opd, s.opt[n]);
    Flush(alg, State(opd, s.opt[..n]), p)
  }

  /** Pops and applies operators down to the innermost open bracket, and pops that too. */
  ghost function PopBracket<V, E>(alg: Algebra<V, E>, s: State<V>): Result<State<V>, Error<E>>
    decreases |s.opt|
  {
    var n := |s.opt| - 1;
    if s.opt == [] then Failure(NilOperator)
    else if s.opt[n].Open? then Success(State(s.opd, s.opt[..n]))
    else
      var opd :- Calculate(alg, s.opd, s.opt[n]);
      PopBracket(alg, State(opd, s.opt[..n]))
  }

  ghost function Step<V, E>(alg: Algebra<V, E>, s: State<V>, t: Token<V>): Result<State<V>, Error<E>> {
    match t
    case Num(v) => Success(State(s.opd + [v], s.opt))
    case Open => Success(State(s.opd, s.opt + [t]))
    case Close => PopBracket(alg, s)
    case _ =>
      var s' :- Flush(alg, s, Priority(t));
      Success(State(s'.opd, s'.opt + [t]))
  }

  ghost function Run<V, E>(alg: Algebra<V, E>, s: State<V>, ts: seq<Token<V>>): Result<State<V>, Error<E>>
    decreases |ts|
  {
    if ts == [] then Success(s) else
    var s' :- Step(alg, s, ts[0]);
    Run(alg, s', ts[1..])
  }

  ghost function Eval<V, E>(alg: Algebra<V, E>, ts: seq<Token<V>>): Result<V, Error<E>> {
    var s :- Run(alg, State([], []), ts);
    var s' :- Flush(alg, s, 0);
    if s'.opd == [] then Failure(NotValid) else Success(s'.opd[|s'.opd| - 1])
  }

  // ----- the evaluator as written: two stacks updated in place -----

  class Stacks<V, E> {
    const alg: Algebra<V, E>
    var opd: seq<V>
    var opt: seq<Token<V>>

    constructor (alg: Algebra<V, E>)
      ensures this.alg == alg && opd == [] && opt == []
    {
      this.alg := alg;
      opd, opt := [], [];
    }

    ghost function St(): State<V>
      reads this
    {
      State(opd, opt)
    }

    /** `calculate` on the operand stack. */
    method Apply(t: Token<V>) returns (r: Result<(), Error<E>>)
      modifies this`opd
      ensures Calculate(alg, old(opd), t) ==
              if r.Success? then Success(opd) else Failure(r.error)
    {
      var n := |opd|;
      match t {
        case Minus =>
          if n < 1 {
            return Failure(NotValid);
          }
          var v := alg.neg(opd[n - 1]);
          opd := opd[..n - 1];
          if v.Failure? {
            return Failure(Operator(v.error));
          }
          opd := opd + [v.value];
        case Infix(op) =>
          if n < 2 {
            return Failure(NotValid);
          }
          var v := alg.bin(op, opd[n - 2], opd[n - 1]);
          opd := opd[..n - 2];
          if v.Failure? {
            return Failure(Operator(v.error));
          }
          opd := opd + [v.value];
        case _ =>
      }
      return Success(());
    }

    /** `parseOperatorPrefixToken`. */
    method ParseOperator(t: Token<V>) returns (r: Result<(), Error<E>>)
      requires IsOperator(t)
      modifies this
      ensures Step(alg, old(St()), t) ==
              if r.Success? then Success(St()) else Failure(r.error)
    {
      if |opt| == 0 {
        opt := opt + [t];
      } else {
        var top := opt[|opt| - 1];
        if Priority(t) > Priority(top) {
          opt := opt + [t];
        } else {
          while Priority(t) <= Priority(top)
            invariant opt != [] && top == opt[|opt| - 1]
            invariant Flush(alg, old(St()), Priority(t)) == Flush(alg, St(), Priority(t))
            decreases |opt|
          {
            opt := opt[..|opt| - 1];
            var c := Apply(top);
            if c.Failure? {
              return c;
            }
            if |opt| > 0 {
              top := opt[|opt| - 1];
              continue;
            }
            break;
          }
          opt := opt + [t];
        }
      }
      return Success(());
    }

    /** `parseToken` without references. */
    method ParseToken(t: Token<V>) returns (r: Result<(), Error<E>>)
      modifies this
      ensures Step(alg, old(St()), t) ==
              if r.Success? then Success(St()) else Failure(r.error)
    {
      if IsOperator(t) {
        r := ParseOperator(t);
        return;
      }
      if t.Open? {
        opt := opt + [t];
      }
      if t.Close? {
        while true
          invariant PopBracket(alg, old(St())) == PopBracket(alg, St())
          decreases |opt|
        {
          if opt == [] {
            return Failure(NilOperator);
          }
          var top := opt[|opt| - 1];
          if top.Open? {
            break;
          }
          var c := Apply(top);
          if c.Failure? {
            return c;
          }
          opt := opt[..|opt| - 1];
        }
        opt := opt[..|opt| - 1];
      }
      if t.Num? {
        opd := opd + [t.v];
      }
      return Success(());
    }
  }

  /** `evalInfixExp` on a stream without functions. */
  method EvalInfixExp<V, E>(alg: Algebra<V, E>, tokens: seq<Token<V>>) returns (r: Result<V, Error<E>>)
    ensures r == Eval(alg, tokens)
  {
    var m := new Stacks<V, E>(alg);
    ghost var start := m.St();
    for i := 0 to |tokens|
      invariant fresh(m) && m.alg == alg
      invariant Run(alg, start, tokens) == Run(alg, m.St(), tokens[i..])
    {
      var c := m.ParseToken(tokens[i]);
      assert tokens[i..][1..] == tokens[i + 1..];
      if c.Failure? {
        return Failure(c.error);
      }
    }
    ghost var last := m.St();
    while |m.opt| != 0
      invariant fresh(m) && m.alg == alg
      invariant Flush(alg, last, 0) == Flush(alg, m.St(), 0)
      decreases |m.opt|
    {
      var top := m.opt[|m.opt| - 1];
      var c := m.Apply(top);
      if c.Failure? {
        return Failure(c.error);
      }
      m.opt := m.opt[..|m.opt| - 1];
    }
    if |m.opd| == 0 {
      return Failure(NotValid);
    }
    return Success(m.opd[|m.opd| - 1]);
  }

  // ----- expressions -----

  datatype Expr<V> = Lit(v: V) | Neg(e: Expr<V>) | Bin(op: Op, l: Expr<V>, r: Expr<V>) | Paren(e: Expr<V>)

  function Rank<V>(e: Expr<V>): (p: nat)
    ensures 1 <= p <= 7
  {
    match e
    case Bin(op, _, _) => OpPriority(op)
    case Neg(_) => 6
    case _ => 7
  }

  /** Trees written with no more brackets than the priorities and left association ask for. */
  ghost predicate Formed<V>(e: Expr<V>) {
    match e
    case Lit(_) => true
    case Neg(x) => Formed(x) && Rank(x) >= 6
    case Bin(op, l, r) => Formed(l) && Formed(r) && Rank(l) >= OpPriority(op) && Rank(r) > OpPriority(op)
    case Paren(x) => Formed(x)
  }

  ghost predicate NoDoubleMinus<V>(e: Expr<V>) {
    match e
    case Lit(_) => true
    case Neg(x) => !x.Neg? && NoDoubleMinus(x)
    case Bin(_, l, r) => NoDoubleMinus(l) && NoDoubleMinus(r)
    case Paren(x) => NoDoubleMinus(x)
  }

  ghost function Tokens<V>(e: Expr<V>): seq<Token<V>> {
    match e
    case Lit(v) => [Num(v)]
    case Neg(x) => [Minus] + Tokens(x)
    case Bin(op, l, r) => Tokens(l) + [Infix(op)] + Tokens(r)
    case Paren(x) => [Open] + Tokens(x) + [Close]
  }

  /** The value of the tree, operands evaluated left to right; the first error wins. */
  ghost function Value<V, E>(alg: Algebra<V, E>, e: Expr<V>): Result<V, Error<E>> {
    match e
    case Lit(v) => Success(v)
    case Neg(x) =>
      var v :- Value(alg, x);
      Lift(alg.neg(v))
    case Bin(op, l, r) =>
      var v :- Value(alg, l);
      var w :- Value(alg, r);
      Lift(alg.bin(op, v, w))
    case Paren(x) => Value(alg, x)
  }

  /**
   What the evaluator makes of a tree: of a run of prefix minuses only the last
   stays on its operand, the others are applied to whatever operand precedes the
   run.  The first component counts the minuses that escape to the left of `e`.
   */
  ghost function Actual<V>(e: Expr<V>): (nat, Expr<V>) {
    match e
    case Lit(_) => (0, e)
    case Neg(x) =>
      var (k, t) := Actual(x);
      if x.Neg? then (k + 1, t) else (k, Neg(t))
    case Bin(op, l, r) =>
      var (kl, tl) := Actual(l);
      var (kr, tr) := Actual(r);
      (kl, Bin(op, NegTimes(kr, tl), tr))
    case Paren(x) =>
      var (k, t) := Actual(x);
      (k, Paren(t))
  }

  ghost function NegTimes<V>(k: nat, e: Expr<V>): Expr<V> {
    if k == 0 then e else NegTimes(k - 1, Neg(e))
  }

  /** `k` prefix minuses applied to the top of the operand stack. */
  ghost function NegTop<V, E>(alg: Algebra<V, E>, opd: seq<V>, k: nat): Result<seq<V>, Error<E>>
    decreases k
  {
    if k == 0 then Success(opd) else
    var opd' :- Calculate(alg, opd, Minus);
    NegTop(alg, opd', k - 1)
  }

  // ----- lemmas about the machine -----

  ghost function RunFlush<V, E>(alg: Algebra<V, E>, s: State<V>, ts: seq<Token<V>>, p: int): Result<State<V>, Error<E>> {
    var s' :- Run(alg, s, ts);
    Flush(alg, s', p)
  }

  lemma {:induction false} RunAppend<V, E>(alg: Algebra<V, E>, s: State<V>, a: seq<Token<V>>, b: seq<Token<V>>)
    ensures Run(alg, s, a + b) ==
            (var s' :- Run(alg, s, a); Run(alg, s', b))
    decreases |a|
  {
    if a == [] {
      assert a + b == b;
    } else {
      assert (a + b)[0] == a[0] && (a + b)[1..] == a[1..] + b;
      var s1 := Step(alg, s, a[0]);
      if s1.Success? {
        RunAppend(alg, s1.value, a[1..], b);
      }
    }
  }

  lemma {:induction false} FlushFlush<V, E>(alg: Algebra<V, E>, s: State<V>, p: int, q: int)
    requires p <= q
    ensures Flush(alg, s, p) == (var s' :- Flush(alg, s, q); Flush(alg, s', p))
    decreases |s.opt|
  {
    if !Below(s.opt, q) {
      var n := |s.opt| - 1;
      var opd := Calculate(alg, s.opd, s.opt[n]);
      if opd.Success? {
        FlushFlush(alg, State(opd.value, s.opt[..n]), p, q);
      }
    }
  }

  /** Operators bind at least 1 and brackets 0, so flushing at 1 is the first part of popping to a bracket. */
  lemma {:induction false} PopBracketFlush<V, E>(alg: Algebra<V, E>, s: State<V>)
    ensures PopBracket(alg, s) == (var s' :- Flush(alg, s, 1); PopBracket(alg, s'))
    decreases |s.opt|
  {
    if !Below(s.opt, 1) {
      var n := |s.opt| - 1;
      var opd := Calculate(alg, s.opd, s.opt[n]);
      if opd.Success? {
        PopBracketFlush(alg, State(opd.value, s.opt[..n]));
      }
    }
  }

  lemma {:induction false} NegTimesFails<V, E>(alg: Algebra<V, E>, k: nat, t: Expr<V>)
    requires Value(alg, t).Failure?
    ensures Value(alg, NegTimes(k, t)) == Value(alg, t)
  {
    if k > 0 {
      NegTimesFails(alg, k - 1, Neg(t));
    }
  }

  lemma {:induction false} NegTopValue<V, E>(alg: Algebra<V, E>, opd: seq<V>, k: nat, t: Expr<V>, v: V)
    requires Value(alg, t) == Success(v)
    ensures NegTop(alg, opd + [v], k) == (var w :- Value(alg, NegTimes(k, t)); Success(opd + [w]))
    decreases k
  {
    if k > 0 {
      assert (opd + [v])[..|opd|] == opd;
      match alg.neg(v) {
        case Success(w) => NegTopValue(alg, opd, k - 1, Neg(t), w);
        case Failure(_) => NegTimesFails(alg, k - 1, Neg(t));
      }
    }
  }

  // ----- the evaluator computes the actual tree -----

  ghost function Pushed<V, E>(alg: Algebra<V, E>, s: State<V>, k: nat, t: Expr<V>): Result<State<V>, Error<E>> {
    var opd :- NegTop(alg, s.opd, k);
    var v :- Value(alg, t);
    Success(State(opd + [v], s.opt))
  }

  /**
   Running the tokens of `e` and then flushing at any level between the pending
   operator and `e`'s own rank leaves the operators as they were and adds one
   operand: the value of the actual tree, after the escaped minuses.
   */
  lemma {:induction false} RunExpr<V, E>(alg: Algebra<V, E>, e: Expr<V>, s: State<V>, q: int)
    requires Formed(e) && Below(s.opt, q) && 1 <= q <= Rank(e)
    ensures RunFlush(alg, s, Tokens(e), q) == Pushed(alg, s, Actual(e).0, Actual(e).1)
    decreases e, 1
  {
    match e
    case Lit(v) =>
      assert Run(alg, s, [Num(v)]) == Success(State(s.opd + [v], s.opt)) by {
        assert [Num(v)][1..] == [];
      }
    case Neg(x) =>
      if x.Neg? {
        RunDoubleMinus(alg, x, s);
        match Calculate(alg, s.opd, Minus)
        case Success(opd) => RunExpr(alg, x, State(opd, s.opt), q);
        case Failure(_) =>
      } else {
        RunNeg(alg, x, s, q);
      }
    case Bin(op, l, r) =>
      RunBin(alg, op, l, r, s, q);
    case Paren(x) =>
      RunParen(alg, x, s, q);
  }

  lemma RunDoubleMinus<V, E>(alg: Algebra<V, E>, x: Expr<V>, s: State<V>)
    requires x.Neg? && Below(s.opt, 6)
    ensures Run(alg, s, [Minus] + Tokens(x)) ==
            (var opd :- Calculate(alg, s.opd, Minus); Run(alg, State(opd, s.opt), Tokens(x)))
  {
    var ts := [Minus] + Tokens(x);
    assert ts[0] == Minus && ts[1..] == Tokens(x);
    var s1 := State(s.opd, s.opt + [Minus]);
    assert Step(alg, s, Minus) == Success(s1);
    assert s1.opt[..|s.opt|] == s.opt;
  }

  lemma FlushMinus<V, E>(alg: Algebra<V, E>, opd: seq<V>, opt: seq<Token<V>>, v: V, q: int)
    requires Below(opt, q) && q <= 6
    ensures Flush(alg, State(opd + [v], opt + [Minus]), q) ==
            (var x :- Lift(alg.neg(v)); Success(State(opd + [x], opt)))
  {
    assert (opt + [Minus])[..|opt|] == opt;
    assert (opd + [v])[..|opd|] == opd;
  }

  lemma {:induction false} RunNeg<V, E>(alg: Algebra<V, E>, x: Expr<V>, s: State<V>, q: int)
    requires Formed(x) && Rank(x) == 7 && Below(s.opt, q) && 1 <= q <= 6
    ensures RunFlush(alg, s, [Minus] + Tokens(x), q) == Pushed(alg, s, Actual(x).0, Neg(Actual(x).1))
    decreases x, 2
  {
    var ts := [Minus] + Tokens(x);
    assert ts[0] == Minus && ts[1..] == Tokens(x);
    var s1 := State(s.opd, s.opt + [Minus]);
    assert Step(alg, s, Minus) == Success(s1);
    RunExpr(alg, x, s1, 7);
    var s2 := Run(alg, s1, Tokens(x));
    if s2.Success? {
      FlushFlush(alg, s2.value, q, 7);
      var opd, v := NegTop(alg, s.opd, Actual(x).0), Value(alg, Actual(x).1);
      if opd.Success? && v.Success? {
        FlushMinus(alg, opd.value, s.opt, v.value, q);
      }
    }
  }

  lemma {:induction false} RunParen<V, E>(alg: Algebra<V, E>, x: Expr<V>, s: State<V>, q: int)
    requires Formed(x) && Below(s.opt, q) && 1 <= q
    ensures RunFlush(alg, s, [Open] + Tokens(x) + [Close], q) == Pushed(alg, s, Actual(x).0, Paren(Actual(x).1))
    decreases x, 2
  {
    var ts := [Open] + Tokens(x) + [Close];
    assert ts[0] == Open && ts[1..] == Tokens(x) + [Close];
    var s1 := State(s.opd, s.opt + [Open]);
    assert s1.opt[..|s.opt|] == s.opt;
    RunExpr(alg, x, s1, 1);
    RunAppend(alg, s1, Tokens(x), [Close]);
    var s2 := Run(alg, s1, Tokens(x));
    if s2.Success? {
      PopBracketFlush(alg, s2.value);
      var close: Token<V> := Close;
      assert [close][1..] == [];
    }
  }

  lemma FlushInfix<V, E>(alg: Algebra<V, E>, opd: seq<V>, opt: seq<Token<V>>, op: Op, v: V, w: V, q: int)
    requires Below(opt, q) && q <= OpPriority(op)
    ensures Flush(alg, State(opd + [v] + [w], opt + [Infix(op)]), q) ==
            (var x :- Lift(alg.bin(op, v, w)); Success(State(opd + [x], opt)))
  {
    assert (opt + [Infix(op)])[..|opt|] == opt;
    assert (opd + [v] + [w])[..|opd|] == opd;
  }

  /** The right operand and the operator itself, once the left operand `v` (the value of `tl`) is on the stack. */
  lemma {:induction false} RunRight<V, E>(alg: Algebra<V, E>, op: Op, tl: Expr<V>, v: V, r: Expr<V>,
                                          opd: seq<V>, opt: seq<Token<V>>, q: int)
    requires Formed(r) && Rank(r) > OpPriority(op) && Value(alg, tl) == Success(v)
    requires Below(opt, q) && 1 <= q <= OpPriority(op)
    ensures RunFlush(alg, State(opd + [v], opt + [Infix(op)]), Tokens(r), q) ==
            (var w :- Value(alg, Bin(op, NegTimes(Actual(r).0, tl), Actual(r).1)); Success(State(opd + [w], opt)))
    decreases r, 2
  {
    var s1 := State(opd + [v], opt + [Infix(op)]);
    var (kr, tr) := Actual(r);
    var p := OpPriority(op) + 1;
    RunExpr(alg, r, s1, p);
    NegTopValue(alg, opd, kr, tl, v);
    var lv, rv := Value(alg, NegTimes(kr, tl)), Value(alg, tr);
    var s2 := Run(alg, s1, Tokens(r));
    if s2.Success? {
      FlushFlush(alg, s2.value, q, p);
      if lv.Success? && rv.Success? {
        FlushInfix(alg, opd, opt, op, lv.value, rv.value, q);
      }
    }
  }

  lemma {:induction false} RunBin<V, E>(alg: Algebra<V, E>, op: Op, l: Expr<V>, r: Expr<V>, s: State<V>, q: int)
    requires Formed(Bin(op, l, r)) && Below(s.opt, q) && 1 <= q <= OpPriority(op)
    ensures RunFlush(alg, s, Tokens(l) + [Infix(op)] + Tokens(r), q) ==
            Pushed(alg, s, Actual(l).0, Bin(op, NegTimes(Actual(r).0, Actual(l).1), Actual(r).1))
    decreases Bin(op, l, r), 0
  {
    var ts := [Infix(op)] + Tokens(r);
    RunExpr(alg, l, s, OpPriority(op));
    assert Tokens(l) + [Infix(op)] + Tokens(r) == Tokens(l) + ts;
    RunAppend(alg, s, Tokens(l), ts);
    assert ts[0] == Infix(op) && ts[1..] == Tokens(r);
    var (kl, tl) := Actual(l);
    var opd, v := NegTop(alg, s.opd, kl), Value(alg, tl);
    if v.Failure? {
      NegTimesFails(alg, Actual(r).0, tl);
    } else if opd.Success? {
      RunRight(alg, op, tl, v.value, r, opd.value, s.opt, q);
    }
  }

  // ----- main results -----

  /** On the tokens of any tree the evaluator ends with one operand and no operators, or with the tree's first error. */
  lemma {:induction false} EvalActual<V, E>(alg: Algebra<V, E>, e: Expr<V>)
    requires Formed(e)
    ensures RunFlush(alg, State([], []), Tokens(e), 0) ==
            if Actual(e).0 > 0 then Failure(NotValid)
            else (var v :- Value(alg, Actual(e).1); Success(State([v], [])))
    ensures Eval(alg, Tokens(e)) == if Actual(e).0 > 0 then Failure(NotValid) else Value(alg, Actual(e).1)
  {
    var s: State<V> := State([], []);
    RunExpr(alg, e, s, 1);
    var k := Actual(e).0;
    assert NegTop(alg, s.opd, k) == if k > 0 then Failure(NotValid) else Success([]);
    var s1 := Run(alg, s, Tokens(e));
    if s1.Success? {
      FlushFlush(alg, s1.value, 0, 1);
      var v := Value(alg, Actual(e).1);
      if k == 0 && v.Success? {
        assert Flush(alg, s1.value, 1) == Success(State([v.value], [])) by {
          assert s.opd + [v.value] == [v.value];
        }
      }
    }
  }

  lemma {:induction false} ActualIsTree<V>(e: Expr<V>)
    requires NoDoubleMinus(e)
    ensures Actual(e) == (0, e)
  {
    match e
    case Lit(_) =>
    case Neg(x) => ActualIsTree(x);
    case Bin(_, l, r) =>
      ActualIsTree(l);
      ActualIsTree(r);
    case Paren(x) => ActualIsTree(x);
  }

  /** Priorities, left association, tight prefix minus and the order of errors, all at once. */
  lemma EvalTree<V, E>(alg: Algebra<V, E>, e: Expr<V>)
    requires Formed(e) && NoDoubleMinus(e)
    ensures Eval(alg, Tokens(e)) == Value(alg, e)
    ensures RunFlush(alg, State([], []), Tokens(e), 0) == (var v :- Value(alg, e); Success(State([v], [])))
  {
    EvalActual(alg, e);
    ActualIsTree(e);
  }

  /** Terms: the interpretation under which different computations have different results. */
  datatype Term = Atom(id: int) | TNeg(t: Term) | TBin(op: Op, l: Term, r: Term)

  function Free(): Algebra<Term, ()> {
    Algebra(t => Success(TNeg(t)), (op, l, r) => Success(TBin(op, l, r)))
  }

  ghost function Build(e: Expr<Term>): Term {
    match e
    case Lit(t) => t
    case Neg(x) => TNeg(Build(x))
    case Bin(op, l, r) => TBin(op, Build(l), Build(r))
    case Paren(x) => Build(x)
  }

  ghost function Minuses(t: Term): nat {
    match t
    case Atom(_) => 0
    case TNeg(x) => 1 + Minuses(x)
    case TBin(_, l, r) => Minuses(l) + Minuses(r)
  }

  lemma {:induction false} BuildIsValue(e: Expr<Term>)
    ensures Value(Free(), e) == Success(Build(e))
  {
    match e
    case Lit(_) =>
    case Neg(x) => BuildIsValue(x);
    case Bin(_, l, r) =>
      BuildIsValue(l);
      BuildIsValue(r);
    case Paren(x) => BuildIsValue(x);
  }

  lemma {:induction false} MinusesNegTimes(k: nat, e: Expr<Term>)
    ensures Minuses(Build(NegTimes(k, e))) == k + Minuses(Build(e))
  {
    if k > 0 {
      MinusesNegTimes(k - 1, Neg(e));
    }
  }

  /** No minus is lost: what escapes to the left plus what stays is what was written. */
  lemma {:induction false} MinusesConserved(e: Expr<Term>)
    ensures Actual(e).0 + Minuses(Build(Actual(e).1)) == Minuses(Build(e))
  {
    match e
    case Lit(_) =>
    case Neg(x) => MinusesConserved(x);
    case Bin(_, l, r) =>
      MinusesConserved(l);
      MinusesConserved(r);
      MinusesNegTimes(Actual(r).0, Actual(l).1);
    case Paren(x) => MinusesConserved(x);
  }

  lemma {:induction false} ActualDiffers(e: Expr<Term>)
    requires Actual(e).0 == 0 && Build(Actual(e).1) == Build(e)
    ensures NoDoubleMinus(e)
  {
    match e
    case Lit(_) =>
    case Neg(x) => ActualDiffers(x);
    case Bin(_, l, r) =>
      MinusesConserved(l);
      MinusesNegTimes(Actual(r).0, Actual(l).1);
      ActualDiffers(l);
      ActualDiffers(r);
    case Paren(x) => ActualDiffers(x);
  }

  /** The condition is exact: with a doubled prefix minus the evaluator computes some other term, or fails. */
  lemma EvalTreeExact(e: Expr<Term>)
    requires Formed(e)
    ensures Eval(Free(), Tokens(e)) == Value(Free(), e) <==> NoDoubleMinus(e)
  {
    EvalActual(Free(), e);
    BuildIsValue(e);
    BuildIsValue(Actual(e).1);
    if NoDoubleMinus(e) {
      ActualIsTree(e);
    } else if Eval(Free(), Tokens(e)) == Value(Free(), e) {
      ActualDiffers(e);
    }
  }

  function Integers(): Algebra<int, ()> {
    Algebra(x => Success(-x), (op: Op, x: int, y: int) => match op
      case Add => Success(x + y)
      case Sub => Success(x - y)
      case Mul => Success(x * y)
      case _ => Failure(()))
  }

  /** `2---3` is 2 - (-(-3)) = -1; the evaluator computes (-2) - (-3) = 1. */
  lemma DoubleMinusExample()
    ensures var e := Bin(Sub, Lit(2), Neg(Neg(Lit(3))));
            Formed(e) && Value(Integers(), e) == Success(-1) && Eval(Integers(), Tokens(e)) == Success(1)
  {
    var e := Bin(Sub, Lit(2), Neg(Neg(Lit(3))));
    EvalActual(Integers(), e);
    assert Actual(e) == (0, Bin(Sub, Neg(Lit(2)), Neg(Lit(3))));
  }
}

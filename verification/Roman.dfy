/**
 Roman numerals (backend/excelize/calc.go): the encoder over its five tables of
 symbols, and the decoder.
 */
module Roman {
  import opened Wrappers

  /** A symbol table, largest value first. */
  datatype Table = End | Row(n: nat, s: string, rest: Table)

  // The symbols up to one hundred of the forms 0, 1 and 2 to 4.

  const LOW0: Table :=
    Row(100, "C", Row(90, "XC", Row(50, "L", Row(40, "XL", Row(10, "X", Row(9, "IX", Row(5, "V", Row(4, "IV",
    Row(1, "I", End)))))))))

  const LOW1: Table :=
    Row(100, "C", Row(95, "VC", Row(90, "XC", Row(50, "L", Row(45, "VL", Row(40, "XL", Row(10, "X",
    Row(9, "IX", Row(5, "V", Row(4, "IV", Row(1, "I", End)))))))))))

  const LOW2: Table :=
    Row(100, "C", Row(99, "IC", Row(90, "XC", Row(50, "L", Row(45, "VL", Row(40, "XL", Row(10, "X",
    Row(9, "IX", Row(5, "V", Row(4, "IV", Row(1, "I", End)))))))))))

  // The five tables.

  const FORM0: Table :=
    Row(1000, "M", Row(900, "CM", Row(500, "D", Row(400, "CD", LOW0))))

  const FORM1: Table :=
    Row(1000, "M", Row(950, "LM", Row(900, "CM", Row(500, "D", Row(450, "LD", Row(400, "CD", LOW1))))))

  const FORM2: Table :=
    Row(1000, "M", Row(990, "XM", Row(950, "LM", Row(900, "CM", Row(500, "D", Row(490, "XD", Row(450, "LD",
    Row(400, "CD", LOW2))))))))

  const FORM3: Table :=
    Row(1000, "M", Row(995, "VM", Row(990, "XM", Row(950, "LM", Row(900, "CM", Row(500, "D", Row(495, "VD",
    Row(490, "XD", Row(450, "LD", Row(400, "CD", LOW2))))))))))

  const FORM4: Table :=
    Row(1000, "M", Row(999, "IM", Row(995, "VM", Row(990, "XM", Row(950, "LM", Row(900, "CM", Row(500, "D",
    Row(499, "ID", Row(495, "VD", Row(490, "XD", Row(450, "LD", Row(400, "CD", LOW2))))))))))))

  /** The form argument is clamped to 0..4. */
  function FormTable(form: int): Table {
    if form <= 0 then FORM0
    else if form == 1 then FORM1
    else if form == 2 then FORM2
    else if form == 3 then FORM3
    else FORM4
  }

  // ----- encoding -----

  ghost predicate Positive(t: Table) {
    t.Row? ==> t.n > 0 && Positive(t.rest)
  }

  ghost function Greedy(t: Table, v: int): string
    requires Positive(t)
    decreases t, v
  {
    if t.End? then ""
    else if v >= t.n then t.s + Greedy(t, v - t.n)
    else Greedy(t.rest, v)
  }

  /** The loops of `ROMAN` over a table. */
  method Encode(table: Table, number: int) returns (r: string)
    requires Positive(table)
    ensures r == Greedy(table, number)
  {
    var t, val := table, number;
    r := "";
    while t.Row?
      invariant Positive(t)
      invariant Greedy(table, number) == r + Greedy(t, val)
      decreases t
    {
      while val >= t.n
        invariant Greedy(table, number) == r + Greedy(t, val)
        decreases val
      {
        r := r + t.s;
        val := val - t.n;
      }
      t := t.rest;
    }
  }

  // ----- decoding -----

  function Digit(c: char): nat {
    match c
    case 'I' => 1
    case 'V' => 5
    case 'X' => 10
    case 'L' => 50
    case 'C' => 100
    case 'D' => 500
    case 'M' => 1000
    case _ => 0
  }

  predicate IsFive(d: nat) {
    d == 5 || d == 50 || d == 500
  }

  datatype Reader = Reader(val: int, last: nat, prefix: int)

  /** One letter of `ARABIC`; a failure is the #VALUE! result. */
  ghost function Read(st: Reader, c: char): Result<Reader, ()> {
    if c == '-' then Success(st.(prefix := -1)) else
    var d := Digit(c);
    if (st.last == d && IsFive(st.last)) || 2 * st.last == d then Failure(())
    else Success(st.(val := st.val + d - (if st.last < d then 2 * st.last else 0), last := d))
  }

  ghost function ReadAll(st: Reader, s: string): Result<Reader, ()>
    decreases |s|
  {
    if s == "" then Success(st) else
    var st' :- Read(st, s[0]);
    ReadAll(st', s[1..])
  }

  const START := Reader(0, 0, 1)

  ghost function Arabic(s: string): Result<int, ()> {
    var st :- ReadAll(START, s);
    Success(st.prefix * st.val)
  }

  /** `ARABIC` on a text argument. */
  method ToArabic(text: string) returns (r: Result<int, ()>)
    ensures r == Arabic(text)
  {
    var val: int, last: nat, prefix: int := 0, 0, 1;
    for i := 0 to |text|
      invariant ReadAll(START, text) == ReadAll(Reader(val, last, prefix), text[i..])
    {
      var c := text[i];
      assert text[i..][1..] == text[i + 1..];
      if c == '-' {
        prefix := -1;
        continue;
      }
      var digit := Digit(c);
      val := val + digit;
      if last == digit && (last == 5 || last == 50 || last == 500) {
        return Failure(());
      } else if 2 * last == digit {
        return Failure(());
      }
      if last < digit {
        val := val - 2 * last;
      }
      last := digit;
    }
    return Success(prefix * val);
  }

  // ----- what makes a table decodable -----

  /** A letter worth its value, or a smaller letter subtracted from a larger one that the decoder accepts after it. */
  predicate Symbol(n: nat, s: string) {
    || (|s| == 1 && Digit(s[0]) == n > 0)
    || (|s| == 2 && 0 < Digit(s[0]) < Digit(s[1]) && 2 * Digit(s[0]) != Digit(s[1]) && n == Digit(s[1]) - Digit(s[0]))
  }

  /** Symbol `s` may be read after a letter worth `last`. */
  predicate Follows(last: nat, s: string) {
    s != "" && Digit(s[0]) <= last && (IsFive(Digit(s[0])) ==> Digit(s[0]) < last)
  }

  /**
   `t` can be written after symbols ending in a letter worth `last`, once the
   number left is less than `bound`: first letters never exceed the letter
   before, and a V, L or D is reached with less than twice its value left.
   */
  predicate Decodable(t: Table, last: nat, bound: nat) {
    if t.End? then bound <= 1 else
      && Symbol(t.n, t.s)
      && Follows(last, t.s)
      && (|t.s| == 1 && IsFive(t.n) ==> bound <= 2 * t.n)
      && Digit(t.s[|t.s| - 1]) <= last
      && Decodable(t.rest, Digit(t.s[|t.s| - 1]), t.n)
  }

  lemma LowDecodable()
    ensures Decodable(LOW0, 500, 400) && Decodable(LOW1, 500, 400) && Decodable(LOW2, 500, 400)
  {
  }

  lemma FormDecodable(form: int)
    ensures var t := FormTable(form); t.Row? && t.n == 1000 && t.s == "M" && Decodable(t.rest, 1000, 1000)
  {
    LowDecodable();
  }

  lemma FormPositive(form: int)
    ensures Positive(FormTable(form))
  {
    assert Positive(LOW0) && Positive(LOW1) && Positive(LOW2);
  }

  /** `ROMAN` on an integer number. */
  method ToRoman(number: int, form: int) returns (r: string)
    ensures Positive(FormTable(form)) && r == Greedy(FormTable(form), number)
    ensures Arabic(r) == Success(if number >= 0 then number else 0)
    ensures form <= 0 && number >= 0 ==> r == Classical(number)
  {
    FormPositive(form);
    r := Encode(FormTable(form), number);
    ArabicRoman(number, form);
    if form <= 0 && number >= 0 {
      ClassicalForm(number, form);
    }
  }

  // ----- decoding undoes encoding -----

  lemma {:induction false} ReadAppend(st: Reader, a: string, b: string)
    ensures ReadAll(st, a + b) == (var st' :- ReadAll(st, a); ReadAll(st', b))
    decreases |a|
  {
    if a == "" {
      assert a + b == b;
    } else {
      assert (a + b)[0] == a[0] && (a + b)[1..] == a[1..] + b;
      var st1 := Read(st, a[0]);
      if st1.Success? {
        ReadAppend(st1.value, a[1..], b);
      }
    }
  }

  lemma ReadSymbol(st: Reader, n: nat, s: string)
    requires Symbol(n, s) && (st.last == 0 || Follows(st.last, s))
    ensures ReadAll(st, s) == Success(st.(val := st.val + n, last := Digit(s[|s| - 1])))
  {
    var st1 := Read(st, s[0]).value;
    if |s| == 1 {
      assert s[1..] == "";
    } else {
      assert s[1..][0] == s[1] && s[1..][1..] == "";
      assert ReadAll(st1, s[1..]) == Read(st1, s[1]);
    }
  }

  /** Below the first row: `st.last` comes from a row above `t`, or from `t` itself. */
  lemma {:induction false} ReadGreedy(t: Table, last: nat, bound: nat, v: nat, st: Reader)
    requires Positive(t) && Decodable(t, last, bound) && v < bound
    requires
      || st.last == 0
      || last <= st.last
      || (t.Row? && st.last == Digit(t.s[|t.s| - 1]) && (|t.s| == 1 && IsFive(t.n) ==> v < t.n))
    ensures var r := ReadAll(st, Greedy(t, v));
            r.Success? && r.value.val == st.val + v && r.value.prefix == st.prefix
    decreases t, v
  {
    if t.End? {
    } else if v >= t.n {
      ReadSymbol(st, t.n, t.s);
      ReadAppend(st, t.s, Greedy(t, v - t.n));
      ReadGreedy(t, last, bound, v - t.n, ReadAll(st, t.s).value);
    } else {
      ReadGreedy(t.rest, Digit(t.s[|t.s| - 1]), t.n, v, st);
    }
  }

  lemma {:induction false} ReadThousands(t: Table, v: nat, st: Reader)
    requires Positive(t) && t.Row? && t.n == 1000 && t.s == "M" && Decodable(t.rest, 1000, 1000)
    requires st.last == 0 || st.last == 1000
    ensures var r := ReadAll(st, Greedy(t, v));
            r.Success? && r.value.val == st.val + v && r.value.prefix == st.prefix
    decreases v
  {
    if v >= 1000 {
      ReadSymbol(st, 1000, "M");
      ReadAppend(st, t.s, Greedy(t, v - 1000));
      ReadThousands(t, v - 1000, ReadAll(st, t.s).value);
    } else {
      ReadGreedy(t.rest, 1000, 1000, v, st);
    }
  }

  /** Nothing is written for a negative number. */
  lemma {:induction false} GreedyNegative(t: Table, v: int)
    requires Positive(t) && v < 0
    ensures Greedy(t, v) == ""
    decreases t
  {
    if t.Row? {
      GreedyNegative(t.rest, v);
    }
  }

  /** In all five forms, for every integer. */
  lemma ArabicRoman(n: int, form: int)
    ensures Positive(FormTable(form))
    ensures Arabic(Greedy(FormTable(form), n)) == Success(if n >= 0 then n else 0)
  {
    FormPositive(form);
    var t := FormTable(form);
    if n >= 0 {
      FormDecodable(form);
      ReadThousands(t, n, START);
    } else {
      GreedyNegative(t, n);
    }
  }

  // ----- the classical numerals -----

  function Repeated(s: string, k: nat): string {
    if k == 0 then "" else s + Repeated(s, k - 1)
  }

  /** A decimal digit in the letters for one, five and ten. */
  function Figure(d: nat, one: char, five: char, ten: char): string
    requires d < 10
  {
    match d
    case 0 => []
    case 1 => [one]
    case 2 => [one, one]
    case 3 => [one, one, one]
    case 4 => [one, five]
    case 5 => [five]
    case 6 => [five, one]
    case 7 => [five, one, one]
    case 8 => [five, one, one, one]
    case _ => [one, ten]
  }

  /** Thousands in M, then the digits for hundreds, tens and ones. */
  function Classical(n: nat): string {
    Repeated("M", n / 1000) + (Figure(n / 100 % 10, 'C', 'D', 'M') +
      (Figure(n / 10 % 10, 'X', 'L', 'C') + Figure(n % 10, 'I', 'V', 'X')))
  }

  /** The rows for one decimal place. */
  function Place(u: nat, one: char, five: char, ten: char, rest: Table): Table {
    Row(9 * u, [one, ten], Row(5 * u, [five], Row(4 * u, [one, five], Row(u, [one], rest))))
  }

  lemma TakeRow(n: nat, s: string, rest: Table, v: int)
    requires Positive(Row(n, s, rest)) && v >= n
    ensures Greedy(Row(n, s, rest), v) == s + Greedy(Row(n, s, rest), v - n)
  {
  }

  lemma SkipRow(n: nat, s: string, rest: Table, v: int)
    requires Positive(Row(n, s, rest)) && v < n
    ensures Greedy(Row(n, s, rest), v) == Greedy(rest, v)
  {
  }

  lemma {:induction false} GreedyUnits(u: nat, one: char, rest: Table, k: nat, v: nat)
    requires Positive(Row(u, [one], rest)) && k * u <= v < k * u + u
    ensures Greedy(Row(u, [one], rest), v) == Repeated([one], k) + Greedy(rest, v - k * u)
    decreases k
  {
    if k == 0 {
      SkipRow(u, [one], rest, v);
      assert "" + Greedy(rest, v) == Greedy(rest, v);
    } else {
      assert (k - 1) * u == k * u - u && (k - 1) * u >= 0;
      TakeRow(u, [one], rest, v);
      GreedyUnits(u, one, rest, k - 1, v - u);
      assert [one] + (Repeated([one], k - 1) + Greedy(rest, v - k * u)) == [one] + Repeated([one], k - 1) + Greedy(rest, v - k * u);
    }
  }

  /** At most three units, behind the row for four. */
  lemma GreedyFew(u: nat, one: char, five: char, rest: Table, k: nat, v: nat)
    requires u > 0 && Positive(rest) && k < 4 && k * u <= v < k * u + u
    ensures Positive(Row(4 * u, [one, five], Row(u, [one], rest)))
    ensures Greedy(Row(4 * u, [one, five], Row(u, [one], rest)), v) == Repeated([one], k) + Greedy(rest, v - k * u)
  {
    SkipRow(4 * u, [one, five], Row(u, [one], rest), v);
    GreedyUnits(u, one, rest, k, v);
  }

  lemma RepeatedFew(c: char)
    ensures Repeated([c], 0) == [] && Repeated([c], 1) == [c] && Repeated([c], 2) == [c, c] && Repeated([c], 3) == [c, c, c]
  {
    assert Repeated([c], 1) == [c] + Repeated([c], 0);
    assert Repeated([c], 2) == [c] + Repeated([c], 1);
    assert Repeated([c], 3) == [c] + Repeated([c], 2);
  }

  lemma PlacePositive(u: nat, one: char, five: char, ten: char, rest: Table)
    requires u > 0 && Positive(rest)
    ensures Positive(Place(u, one, five, ten, rest))
  {
    assert Positive(Row(u, [one], rest));
    assert Positive(Row(4 * u, [one, five], Row(u, [one], rest)));
  }

  /** A digit from five to eight. */
  lemma GreedyFive(u: nat, one: char, five: char, rest: Table, k: nat, v: nat)
    requires u > 0 && Positive(rest) && k < 4 && k * u <= v - 5 * u < k * u + u
    ensures Positive(Row(5 * u, [five], Row(4 * u, [one, five], Row(u, [one], rest))))
    ensures Greedy(Row(5 * u, [five], Row(4 * u, [one, five], Row(u, [one], rest))), v) ==
            [five] + (Repeated([one], k) + Greedy(rest, v - 5 * u - k * u))
  {
    var fours := Row(4 * u, [one, five], Row(u, [one], rest));
    GreedyFew(u, one, five, rest, k, v - 5 * u);
    assert Positive(Row(5 * u, [five], fours));
    TakeRow(5 * u, [five], fours, v);
    SkipRow(5 * u, [five], fours, v - 5 * u);
  }

  /** A four. */
  lemma GreedyFour(u: nat, one: char, five: char, rest: Table, v: nat)
    requires u > 0 && Positive(rest) && 4 * u <= v < 5 * u
    ensures Positive(Row(4 * u, [one, five], Row(u, [one], rest)))
    ensures Greedy(Row(4 * u, [one, five], Row(u, [one], rest)), v) == [one, five] + Greedy(rest, v - 4 * u)
  {
    GreedyFew(u, one, five, rest, 0, v - 4 * u);
    TakeRow(4 * u, [one, five], Row(u, [one], rest), v);
    RepeatedFew(one);
    assert "" + Greedy(rest, v - 4 * u) == Greedy(rest, v - 4 * u);
  }

  lemma FigureUnits(d: nat, one: char, five: char, ten: char)
    requires d < 9 && d != 4
    ensures Figure(d, one, five, ten) == if d >= 5 then [five] + Repeated([one], d - 5) else Repeated([one], d)
  {
    RepeatedFew(one);
  }

  lemma GreedyOverFour(u: nat, one: char, five: char, ten: char, rest: Table, d: nat, v: nat)
    requires u > 0 && Positive(rest) && 5 <= d < 9 && d * u <= v < d * u + u
    ensures Positive(Row(5 * u, [five], Row(4 * u, [one, five], Row(u, [one], rest))))
    ensures Greedy(Row(5 * u, [five], Row(4 * u, [one, five], Row(u, [one], rest))), v) ==
            Figure(d, one, five, ten) + Greedy(rest, v - d * u)
  {
    var k := d - 5;
    assert k * u == d * u - 5 * u;
    GreedyFive(u, one, five, rest, k, v);
    FigureUnits(d, one, five, ten);
    assert v - 5 * u - k * u == v - d * u;
    Together([five], Repeated([one], k), Greedy(rest, v - d * u));
  }

  lemma Together(a: string, b: string, c: string)
    ensures a + (b + c) == a + b + c
  {
  }

  lemma GreedyUnderFive(u: nat, one: char, five: char, ten: char, rest: Table, d: nat, v: nat)
    requires u > 0 && Positive(rest) && d < 5 && d * u <= v < d * u + u
    ensures Positive(Row(5 * u, [five], Row(4 * u, [one, five], Row(u, [one], rest))))
    ensures Greedy(Row(5 * u, [five], Row(4 * u, [one, five], Row(u, [one], rest))), v) ==
            Figure(d, one, five, ten) + Greedy(rest, v - d * u)
  {
    var fours := Row(4 * u, [one, five], Row(u, [one], rest));
    if d == 4 {
      GreedyFour(u, one, five, rest, v);
    } else {
      GreedyFew(u, one, five, rest, d, v);
      FigureUnits(d, one, five, ten);
    }
    assert Positive(Row(5 * u, [five], fours));
    SkipRow(5 * u, [five], fours, v);
  }

  /** Behind the row for nine. */
  lemma GreedyBelow(u: nat, one: char, five: char, ten: char, rest: Table, d: nat, v: nat)
    requires u > 0 && Positive(rest) && d < 9 && d * u <= v < d * u + u
    ensures Positive(Row(5 * u, [five], Row(4 * u, [one, five], Row(u, [one], rest))))
    ensures Greedy(Row(5 * u, [five], Row(4 * u, [one, five], Row(u, [one], rest))), v) ==
            Figure(d, one, five, ten) + Greedy(rest, v - d * u)
  {
    if d >= 5 {
      GreedyOverFour(u, one, five, ten, rest, d, v);
    } else {
      GreedyUnderFive(u, one, five, ten, rest, d, v);
    }
  }

  /** A place of the table writes its digit. */
  lemma GreedyPlace(u: nat, one: char, five: char, ten: char, rest: Table, d: nat, v: nat)
    requires u > 0 && Positive(rest) && d < 10 && d * u <= v < d * u + u
    ensures Positive(Place(u, one, five, ten, rest))
    ensures Greedy(Place(u, one, five, ten, rest), v) == Figure(d, one, five, ten) + Greedy(rest, v - d * u)
  {
    var fives := Row(5 * u, [five], Row(4 * u, [one, five], Row(u, [one], rest)));
    PlacePositive(u, one, five, ten, rest);
    assert Positive(fives);
    assert Place(u, one, five, ten, rest) == Row(9 * u, [one, ten], fives);
    if d == 9 {
      TakeRow(9 * u, [one, ten], fives, v);
      SkipRow(9 * u, [one, ten], fives, v - 9 * u);
      GreedyBelow(u, one, five, ten, rest, 0, v - 9 * u);
      assert "" + Greedy(rest, v - 9 * u) == Greedy(rest, v - 9 * u);
    } else {
      SkipRow(9 * u, [one, ten], fives, v);
      GreedyBelow(u, one, five, ten, rest, d, v);
    }
  }

  lemma FormPlaces()
    ensures FORM0 == Row(1000, "M", Place(100, 'C', 'D', 'M', Place(10, 'X', 'L', 'C', Place(1, 'I', 'V', 'X', End))))
  {
  }

  /** The three places below the thousands. */
  lemma GreedyPlaces(b: nat, c: nat, d: nat)
    requires b < 10 && c < 10 && d < 10
    ensures var t := Place(100, 'C', 'D', 'M', Place(10, 'X', 'L', 'C', Place(1, 'I', 'V', 'X', End)));
            Positive(t) && Greedy(t, 100 * b + 10 * c + d) ==
            Figure(b, 'C', 'D', 'M') + (Figure(c, 'X', 'L', 'C') + Figure(d, 'I', 'V', 'X'))
  {
    GreedyPlace(1, 'I', 'V', 'X', End, d, d);
    assert Figure(d, 'I', 'V', 'X') + "" == Figure(d, 'I', 'V', 'X');
    GreedyPlace(10, 'X', 'L', 'C', Place(1, 'I', 'V', 'X', End), c, 10 * c + d);
    GreedyPlace(100, 'C', 'D', 'M', Place(10, 'X', 'L', 'C', Place(1, 'I', 'V', 'X', End)), b, 100 * b + 10 * c + d);
  }

  /** Form 0 writes every number in the classical way. */
  lemma ClassicalForm(n: nat, form: int)
    requires form <= 0
    ensures Positive(FormTable(form)) && Greedy(FormTable(form), n) == Classical(n)
  {
    var a, b, c, d := n / 1000, n / 100 % 10, n / 10 % 10, n % 10;
    Digits(n, a, b, c, d);
    GreedyPlaces(b, c, d);
    FormPositive(form);
    FormPlaces();
    GreedyUnits(1000, 'M', FORM0.rest, a, n);
  }

  lemma Digits(n: nat, a: nat, b: nat, c: nat, d: nat)
    requires a == n / 1000 && b == n / 100 % 10 && c == n / 10 % 10 && d == n % 10
    ensures n == a * 1000 + 100 * b + 10 * c + d && b < 10 && c < 10 && d < 10
  {
    assert n / 100 / 10 == n / 1000 && n / 10 / 10 == n / 100;
  }
}

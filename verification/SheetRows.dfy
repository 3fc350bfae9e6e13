/** Rows and their normal form. */
module SheetRows {
  import opened Wrappers
  import CellName

  // `checkSheet` in backend/excelize/excelize.go and `checkRow` in
  // backend/excelize/rows.go.

  /** The name of a cell as its coordinates. */
  datatype Ref = Ref(col: int, row: int)

  datatype Data = Blank | Full(content: string)

  /** A cell element; the name may be missing. */
  datatype XCell = XCell(ref: Option<Ref>, data: Data)

  /** A row element; `num` is 0 when the number is missing, `attrs` is everything else it carries. */
  datatype Row = Row(num: int, attrs: string, cells: seq<XCell>)

  const EMPTY_ROW := Row(0, "", [])

  // ----- checkSheet -----

  /** Row numbers that do not make `checkSheet` panic. */
  predicate Numbered(rows: seq<Row>) {
    (forall i | 0 <= i < |rows| :: rows[i].num >= 0) && (rows != [] ==> rows[0].num > 0)
  }

  function NextCount(row: nat, num: int): nat
    requires num >= 0
  {
    if num > row then num else if num != row then row + 1 else row
  }

  /** The first pass: the number of rows, after `k` of them. */
  ghost function CountTo(rows: seq<Row>, k: nat): nat
    requires Numbered(rows) && k <= |rows|
  {
    if k == 0 then 0 else NextCount(CountTo(rows, k - 1), rows[k - 1].num)
  }

  lemma {:induction false} CountGrows(rows: seq<Row>, j: nat, k: nat)
    requires Numbered(rows) && j <= k <= |rows|
    ensures CountTo(rows, j) <= CountTo(rows, k)
    decreases k
  {
    if j < k {
      CountGrows(rows, j, k - 1);
    }
  }

  /** The rows filled in so far and the number of the last one. */
  datatype Filling = Filling(rows: seq<Row>, row: nat)

  /** One turn of the second pass: cells of a repeated row number are appended, a row without a number comes next. */
  function Fill(f: Filling, r: Row): Filling
    requires r.num == f.row ==> 1 <= r.num <= |f.rows|
    requires r.num != f.row && r.num != 0 ==> 1 <= r.num <= |f.rows|
    requires r.num != f.row && r.num == 0 ==> f.row < |f.rows|
  {
    if r.num == f.row then
      var there := f.rows[r.num - 1];
      f.(rows := f.rows[r.num - 1 := there.(cells := there.cells + r.cells)])
    else if r.num != 0 then Filling(f.rows[r.num - 1 := r], r.num)
    else Filling(f.rows[f.row := r.(num := f.row + 1)], f.row + 1)
  }

  ghost function FillTo(rows: seq<Row>, k: nat): (f: Filling)
    requires Numbered(rows) && k <= |rows|
    ensures |f.rows| == CountTo(rows, |rows|) && f.row <= CountTo(rows, k) && (k > 0 ==> f.row > 0)
  {
    CountGrows(rows, k, |rows|);
    if k == 0 then Filling(seq(CountTo(rows, |rows|), _ => EMPTY_ROW), 0)
    else
      var f := FillTo(rows, k - 1);
      CountGrows(rows, k - 1, |rows|);
      Fill(f, rows[k - 1])
  }

  /** The last pass numbers the rows. */
  function NumberRows(f: Filling): seq<Row>
    requires f.row <= |f.rows|
  {
    seq(|f.rows|, i requires 0 <= i < |f.rows| => if i < f.row then f.rows[i].(num := i + 1) else f.rows[i])
  }

  ghost function CheckedSheet(rows: seq<Row>): seq<Row>
    requires Numbered(rows)
  {
    NumberRows(FillTo(rows, |rows|))
  }

  method CheckSheet(rows: seq<Row>) returns (sheet: seq<Row>)
    requires Numbered(rows)
    ensures sheet == CheckedSheet(rows)
  {
    var row: nat := 0;
    for k := 0 to |rows|
      invariant row == CountTo(rows, k)
    {
      if rows[k].num != 0 && rows[k].num > row {
        row := rows[k].num;
        continue;
      }
      if rows[k].num != row {
        row := row + 1;
      }
    }
    var f := Filling(seq(row, _ => EMPTY_ROW), 0);
    for k := 0 to |rows|
      invariant f == FillTo(rows, k)
    {
      CountGrows(rows, k + 1, |rows|);
      f := Fill(f, rows[k]);
    }
    sheet := f.rows;
    for i := 0 to f.row
      invariant |sheet| == |f.rows|
      invariant forall j | 0 <= j < |sheet| :: sheet[j] == if j < i then f.rows[j].(num := j + 1) else f.rows[j]
    {
      sheet := sheet[i := sheet[i].(num := i + 1)];
    }
  }

  // ----- the number under which a row is entered -----

  /** A row without a number comes behind the one before it. */
  function Entry(rows: seq<Row>, k: nat): int
    requires k < |rows|
  {
    if rows[k].num != 0 then rows[k].num else 1 + if k == 0 then 0 else Entry(rows, k - 1)
  }

  lemma {:induction false} EntryIs(rows: seq<Row>, k: nat)
    requires Numbered(rows) && k < |rows|
    ensures FillTo(rows, k + 1).row == Entry(rows, k) && 1 <= Entry(rows, k) <= CountTo(rows, |rows|)
    decreases k
  {
    CountGrows(rows, k + 1, |rows|);
    if k > 0 {
      EntryIs(rows, k - 1);
    }
  }

  // ----- exactly which lists keep all their cells -----

  /** The cells of the first `n` rows. */
  ghost function Bag(rows: seq<Row>, n: nat): multiset<XCell>
    requires n <= |rows|
  {
    if n == 0 then multiset{} else Bag(rows, n - 1) + multiset(rows[n - 1].cells)
  }

  lemma AddedBoth<T>(x: multiset<T>, a: multiset<T>, y: multiset<T>, b: multiset<T>, c: multiset<T>)
    requires x + a == y + b
    ensures (x + c) + a == (y + c) + b
  {
    assert (x + c) + a == (x + a) + c && (y + c) + b == (y + b) + c;
  }

  lemma Cancelled<T>(x: multiset<T>, y: multiset<T>, a: multiset<T>, b: multiset<T>)
    requires x + a == y + (a + b)
    ensures x + multiset{} == y + b
  {
    assert x + multiset{} == (x + a) - a && (y + (a + b)) - a == y + b;
  }

  lemma {:induction false} BagKept(rows: seq<Row>, i: nat, r: Row, n: nat)
    requires n <= i < |rows|
    ensures Bag(rows[i := r], n) == Bag(rows, n)
    decreases n
  {
    if n > 0 {
      BagKept(rows, i, r, n - 1);
    }
  }

  lemma {:induction false} BagUpdate(rows: seq<Row>, i: nat, r: Row, n: nat)
    requires i < n <= |rows|
    ensures Bag(rows[i := r], n) + multiset(rows[i].cells) == Bag(rows, n) + multiset(r.cells)
    decreases n
  {
    var a, b, c := Bag(rows[i := r], n - 1), Bag(rows, n - 1), multiset(rows[n - 1].cells);
    if i < n - 1 {
      BagUpdate(rows, i, r, n - 1);
      AddedBoth(a, multiset(rows[i].cells), b, multiset(r.cells), c);
    } else {
      BagKept(rows, i, r, n - 1);
      assert (a + multiset(r.cells)) + c == (a + c) + multiset(r.cells);
    }
  }

  /** One turn of the second pass takes row `r` into slot `e`, behind the cells there or in their place. */
  predicate Turned(f: Filling, g: Filling, r: Row, e: int) {
    && 1 <= e <= |f.rows| && g.row == e
    && g.rows == f.rows[e - 1 := if f.row == e then f.rows[e - 1].(cells := f.rows[e - 1].cells + r.cells) else r.(num := e)]
  }

  /** The cells that get lost in it. */
  ghost function LostIn(f: Filling, e: int): multiset<XCell>
    requires 1 <= e <= |f.rows|
  {
    if f.row == e then multiset{} else multiset(f.rows[e - 1].cells)
  }

  lemma BagTurn(f: Filling, g: Filling, r: Row, e: int)
    requires Turned(f, g, r, e)
    ensures Bag(g.rows, |g.rows|) + LostIn(f, e) == Bag(f.rows, |f.rows|) + multiset(r.cells)
  {
    if f.row == e {
      var there := f.rows[e - 1].cells;
      BagUpdate(f.rows, e - 1, f.rows[e - 1].(cells := there + r.cells), |f.rows|);
      assert multiset(there + r.cells) == multiset(there) + multiset(r.cells);
      Cancelled(Bag(g.rows, |g.rows|), Bag(f.rows, |f.rows|), multiset(there), multiset(r.cells));
    } else {
      BagUpdate(f.rows, e - 1, r.(num := e), |f.rows|);
    }
  }

  lemma Turn(rows: seq<Row>, k: nat)
    requires Numbered(rows) && k < |rows|
    ensures Turned(FillTo(rows, k), FillTo(rows, k + 1), rows[k], Entry(rows, k))
  {
    EntryIs(rows, k);
    if k > 0 {
      EntryIs(rows, k - 1);
    }
  }

  /** The cells that the second pass overwrites with the first `k` rows. */
  ghost function Lost(rows: seq<Row>, k: nat): multiset<XCell>
    requires Numbered(rows) && k <= |rows|
  {
    if k == 0 then multiset{}
    else
      Turn(rows, k - 1);
      Lost(rows, k - 1) + LostIn(FillTo(rows, k - 1), Entry(rows, k - 1))
  }

  ghost predicate NothingLost(rows: seq<Row>, k: nat)
    requires Numbered(rows) && k <= |rows|
  {
    Lost(rows, k) == multiset{}
  }

  /** The turn that row `k - 1` makes. */
  lemma LastTurn(rows: seq<Row>, k: nat) returns (f: Filling, g: Filling, e: int)
    requires Numbered(rows) && 0 < k <= |rows|
    ensures f == FillTo(rows, k - 1) && g == FillTo(rows, k) && e == Entry(rows, k - 1) && Turned(f, g, rows[k - 1], e)
    ensures Lost(rows, k) == Lost(rows, k - 1) + LostIn(f, e)
    ensures NothingLost(rows, k) <==> NothingLost(rows, k - 1) && LostIn(f, e) == multiset{}
  {
    Turn(rows, k - 1);
    f, g, e := FillTo(rows, k - 1), FillTo(rows, k), Entry(rows, k - 1);
    SumEmpty(Lost(rows, k - 1), LostIn(f, e));
  }

  lemma SumEmpty<T>(a: multiset<T>, b: multiset<T>)
    ensures a + b == multiset{} <==> a == multiset{} && b == multiset{}
  {
    if a + b == multiset{} {
      assert |a| + |b| == |a + b|;
    }
  }

  lemma {:induction false} EmptyBag(rows: seq<Row>, n: nat)
    requires n <= |rows| && forall i | 0 <= i < n :: rows[i].cells == []
    ensures Bag(rows, n) == multiset{}
    decreases n
  {
    if n > 0 {
      EmptyBag(rows, n - 1);
    }
  }

  /** The cells in the slots, and those overwritten, are those of the first `k` rows. */
  ghost predicate Balanced(f: Filling, lost: multiset<XCell>, bag: multiset<XCell>) {
    Bag(f.rows, |f.rows|) + lost == bag
  }

  lemma BalancedFirst(f: Filling)
    requires forall i | 0 <= i < |f.rows| :: f.rows[i].cells == []
    ensures Balanced(f, multiset{}, multiset{})
  {
    EmptyBag(f.rows, |f.rows|);
  }

  lemma BalancedNext(f: Filling, g: Filling, r: Row, e: int, lost: multiset<XCell>, bag: multiset<XCell>)
    requires Turned(f, g, r, e) && Balanced(f, lost, bag)
    ensures Balanced(g, lost + LostIn(f, e), bag + multiset(r.cells))
  {
    BagTurn(f, g, r, e);
    Rearranged(Bag(f.rows, |f.rows|), lost, Bag(g.rows, |g.rows|), LostIn(f, e), multiset(r.cells));
  }

  lemma Rearranged<T>(x: multiset<T>, lost: multiset<T>, y: multiset<T>, more: multiset<T>, c: multiset<T>)
    requires y + more == x + c
    ensures y + (lost + more) == (x + lost) + c
  {
    assert y + (lost + more) == (y + more) + lost && (x + lost) + c == (x + c) + lost;
  }

  /** Every cell is either in the sheet or overwritten. */
  lemma {:induction false} Conserved(rows: seq<Row>, k: nat)
    requires Numbered(rows) && k <= |rows|
    ensures Balanced(FillTo(rows, k), Lost(rows, k), Bag(rows, k))
    decreases k
  {
    if k == 0 {
      BalancedFirst(FillTo(rows, 0));
    } else {
      Conserved(rows, k - 1);
      var f, g, e := LastTurn(rows, k);
      BalancedNext(f, g, rows[k - 1], e, Lost(rows, k - 1), Bag(rows, k - 1));
    }
  }

  /** Row `j` starts its number anew although row `i` has entered cells under it. */
  predicate Overwrites(rows: seq<Row>, i: nat, j: nat)
    requires i < j < |rows|
  {
    Entry(rows, i) == Entry(rows, j) && Entry(rows, j - 1) != Entry(rows, j) && rows[i].cells != []
  }

  /** Row `k` overwrites no cells. */
  predicate Fresh(rows: seq<Row>, k: nat)
    requires k < |rows|
  {
    forall i | 0 <= i < k :: !Overwrites(rows, i, k)
  }

  lemma TogetherNext(rows: seq<Row>, k: nat)
    requires 0 < k <= |rows|
    ensures Together(rows, k) <==> Together(rows, k - 1) && Fresh(rows, k - 1)
  {
  }

  /** No row among the first `k` overwrites cells. */
  predicate Together(rows: seq<Row>, k: nat)
    requires k <= |rows|
  {
    forall i, j | 0 <= i < j < k :: !Overwrites(rows, i, j)
  }

  /** A slot that holds cells has them from a row that was entered under its number. */
  lemma {:induction false} SlotSource(rows: seq<Row>, k: nat, n: nat, f: Filling) returns (i: nat)
    requires Numbered(rows) && k <= |rows| && f == FillTo(rows, k) && n < |f.rows| && f.rows[n].cells != []
    ensures i < k && Entry(rows, i) == n + 1 && rows[i].cells != []
    decreases k
  {
    Turn(rows, k - 1);
    var before := FillTo(rows, k - 1);
    if Entry(rows, k - 1) == n + 1 && rows[k - 1].cells != [] {
      i := k - 1;
    } else {
      SlotBefore(before, f, rows[k - 1], Entry(rows, k - 1), n);
      i := SlotSource(rows, k - 1, n, before);
    }
  }

  lemma SlotBefore(f: Filling, g: Filling, r: Row, e: int, n: nat)
    requires Turned(f, g, r, e) && n < |g.rows| && g.rows[n].cells != [] && (e == n + 1 ==> r.cells == [])
    ensures n < |f.rows| && f.rows[n].cells != []
  {
    if e == n + 1 && f.row == e {
      assert f.rows[n].cells + [] == f.rows[n].cells;
    }
  }

  /** The slot of number `e` holds cells. */
  predicate Holds(f: Filling, e: int) {
    1 <= e <= |f.rows| && f.rows[e - 1].cells != []
  }

  lemma HoldsNext(f: Filling, g: Filling, r: Row, e: int, n: int)
    requires Turned(f, g, r, e) && LostIn(f, e) == multiset{}
    requires Holds(f, n) || (n == e && r.cells != [])
    ensures Holds(g, n)
  {
    if Holds(f, e) && f.row != e {
      NotEmpty(f.rows[e - 1].cells);
      assert false;
    }
  }

  lemma NotEmpty<T>(s: seq<T>)
    requires s != []
    ensures multiset(s) != multiset{}
  {
    assert s[0] in multiset(s);
  }

  /** While nothing is lost, the cells of every row are still in the slot of its number. */
  lemma {:induction false} SlotKeeps(rows: seq<Row>, k: nat, i: nat)
    requires Numbered(rows) && i < k <= |rows| && NothingLost(rows, k) && rows[i].cells != []
    ensures Holds(FillTo(rows, k), Entry(rows, i))
    decreases k
  {
    var f, g, e := LastTurn(rows, k);
    if i < k - 1 {
      SlotKeeps(rows, k - 1, i);
    }
    HoldsNext(f, g, rows[k - 1], e, Entry(rows, i));
  }

  lemma LostHeld(f: Filling, e: int)
    requires Holds(f, e) && f.row != e
    ensures LostIn(f, e) != multiset{}
  {
    NotEmpty(f.rows[e - 1].cells);
  }

  lemma RowIs(rows: seq<Row>, k: nat, f: Filling)
    requires Numbered(rows) && 0 < k <= |rows| && f == FillTo(rows, k)
    ensures f.row == Entry(rows, k - 1)
  {
    EntryIs(rows, k - 1);
  }

  /** Row `k` loses cells if it overwrites those of row `i`. */
  lemma LostBy(rows: seq<Row>, k: nat, i: nat, f: Filling, e: int)
    requires Numbered(rows) && i < k < |rows| && NothingLost(rows, k) && f == FillTo(rows, k) && f.row != e
    requires Entry(rows, i) == e && rows[i].cells != []
    ensures 1 <= e <= |f.rows| && LostIn(f, e) != multiset{}
  {
    SlotKeeps(rows, k, i);
    LostHeld(f, e);
  }

  lemma LostNext(rows: seq<Row>, k: nat)
    requires Numbered(rows) && 0 < k <= |rows|
    ensures NothingLost(rows, k) <==> NothingLost(rows, k - 1) && Fresh(rows, k - 1)
  {
    var f, g, e := LastTurn(rows, k);
    if NothingLost(rows, k - 1) {
      FreshExact(rows, k - 1, f, e);
    }
  }

  lemma FreshExact(rows: seq<Row>, k: nat, f: Filling, e: int)
    requires Numbered(rows) && k < |rows| && NothingLost(rows, k) && f == FillTo(rows, k) && e == Entry(rows, k)
    requires 1 <= e <= |f.rows|
    ensures LostIn(f, e) == multiset{} <==> Fresh(rows, k)
  {
    if k > 0 {
      RowIs(rows, k, f);
    }
    forall i | 0 <= i < k && Overwrites(rows, i, k) ensures LostIn(f, e) != multiset{} {
      LostBy(rows, k, i, f, e);
    }
    if LostIn(f, e) != multiset{} {
      var i := SlotSource(rows, k, e - 1, f);
      assert Overwrites(rows, i, k);
    }
  }

  lemma {:induction false} LostExact(rows: seq<Row>, k: nat)
    requires Numbered(rows) && k <= |rows|
    ensures NothingLost(rows, k) <==> Together(rows, k)
    decreases k
  {
    if k > 0 {
      LostExact(rows, k - 1);
      LostNext(rows, k);
      TogetherNext(rows, k);
    }
  }

  /** The checked sheet has the cells of the list, each as often, exactly when no row overwrites another's. */
  lemma CellsKeptExact(rows: seq<Row>)
    requires Numbered(rows)
    ensures var out := CheckedSheet(rows);
            multiset(AllCells(out, |out|)) == multiset(AllCells(rows, |rows|)) <==> Together(rows, |rows|)
  {
    var f, out := FillTo(rows, |rows|), CheckedSheet(rows);
    Conserved(rows, |rows|);
    LostExact(rows, |rows|);
    SameBags(f.rows, out, |out|);
    BagIs(out, |out|);
    BagIs(rows, |rows|);
  }

  lemma {:induction false} SameBags(a: seq<Row>, b: seq<Row>, n: nat)
    requires n <= |a| == |b| && forall i | 0 <= i < |a| :: a[i].cells == b[i].cells
    ensures Bag(a, n) == Bag(b, n)
    decreases n
  {
    if n > 0 {
      SameBags(a, b, n - 1);
    }
  }

  lemma {:induction false} BagIs(rows: seq<Row>, n: nat)
    requires n <= |rows|
    ensures Bag(rows, n) == multiset(AllCells(rows, n))
    decreases n
  {
    if n > 0 {
      BagIs(rows, n - 1);
    }
  }

  // ----- rows in order come out complete -----

  predicate InOrder(rows: seq<Row>) {
    && (forall i | 0 <= i < |rows| :: rows[i].num > 0)
    && (forall i, j | 0 <= i < j < |rows| :: rows[i].num <= rows[j].num)
  }

  /** The cells of all rows with number `n` among the first `k`. */
  ghost function CellsAt(rows: seq<Row>, k: nat, n: int): seq<XCell>
    requires k <= |rows|
  {
    if k == 0 then []
    else CellsAt(rows, k - 1, n) + if rows[k - 1].num == n then rows[k - 1].cells else []
  }

  /** The attributes of the first of them. */
  ghost function AttrsAt(rows: seq<Row>, k: nat, n: int): Option<string>
    requires k <= |rows|
  {
    if k == 0 then None
    else if AttrsAt(rows, k - 1, n).Some? then AttrsAt(rows, k - 1, n)
    else if rows[k - 1].num == n then Some(rows[k - 1].attrs) else None
  }

  function LastNumber(rows: seq<Row>, k: nat): int
    requires k <= |rows|
  {
    if k == 0 then 0 else rows[k - 1].num
  }

  lemma {:induction false} InOrderCount(rows: seq<Row>, k: nat)
    requires InOrder(rows) && k <= |rows|
    ensures CountTo(rows, k) == LastNumber(rows, k)
    decreases k
  {
    if k > 0 {
      InOrderCount(rows, k - 1);
    }
  }

  lemma {:induction false} NothingBehind(rows: seq<Row>, k: nat, n: int)
    requires InOrder(rows) && k <= |rows| && n > LastNumber(rows, k)
    ensures CellsAt(rows, k, n) == [] && AttrsAt(rows, k, n) == None
    decreases k
  {
    if k > 0 {
      NothingBehind(rows, k - 1, n);
    }
  }

  lemma {:induction false} LastPresent(rows: seq<Row>, k: nat)
    requires 0 < k <= |rows|
    ensures AttrsAt(rows, k, rows[k - 1].num).Some?
  {
  }

  /** Each slot holds what the rows with its number add up to. */
  lemma {:induction false} InOrderFilled(rows: seq<Row>, k: nat, i: nat)
    requires InOrder(rows) && k <= |rows| && i < CountTo(rows, |rows|)
    ensures FillTo(rows, k).row == LastNumber(rows, k)
    ensures var r := FillTo(rows, k).rows[i];
            && r.attrs == AttrsAt(rows, k, i + 1).GetOr("") && r.cells == CellsAt(rows, k, i + 1)
    decreases k
  {
    if k > 0 {
      InOrderFilled(rows, k - 1, i);
      var f, n := FillTo(rows, k - 1), rows[k - 1].num;
      CountGrows(rows, k, |rows|);
      InOrderCount(rows, k);
      if n == f.row {
        LastPresent(rows, k - 1);
      } else if i + 1 == n {
        NothingBehind(rows, k - 1, n);
        assert [] + rows[k - 1].cells == rows[k - 1].cells;
      }
      if i + 1 != n {
        assert CellsAt(rows, k - 1, i + 1) + [] == CellsAt(rows, k - 1, i + 1);
      }
    }
  }

  /** From rows in order: row `i + 1` is at index `i` and has exactly the cells of all rows with its number, in order,
      and the attributes of the first of them. */
  lemma CheckedInOrder(rows: seq<Row>)
    requires InOrder(rows)
    ensures var out := CheckedSheet(rows);
            && |out| == LastNumber(rows, |rows|)
            && forall i | 0 <= i < |out| ::
                 out[i] == Row(i + 1, AttrsAt(rows, |rows|, i + 1).GetOr(""), CellsAt(rows, |rows|, i + 1))
  {
    InOrderCount(rows, |rows|);
    forall i | 0 <= i < CountTo(rows, |rows|)
      ensures CheckedSheet(rows)[i] == Row(i + 1, AttrsAt(rows, |rows|, i + 1).GetOr(""), CellsAt(rows, |rows|, i + 1))
    {
      InOrderFilled(rows, |rows|, i);
    }
    if rows == [] {
      assert CheckedSheet(rows) == [];
    }
  }

  // ----- no cell is lost -----

  ghost function AllCells(rows: seq<Row>, k: nat): seq<XCell>
    requires k <= |rows|
  {
    if k == 0 then [] else AllCells(rows, k - 1) + rows[k - 1].cells
  }

  /** The cells of the first `k` rows whose number is at most `n`, by number. */
  ghost function CellsUpTo(rows: seq<Row>, k: nat, n: nat): seq<XCell>
    requires k <= |rows|
  {
    if n == 0 then [] else CellsUpTo(rows, k, n - 1) + CellsAt(rows, k, n)
  }

  lemma {:induction false} CellsUpToNext(rows: seq<Row>, k: nat, n: nat)
    requires InOrder(rows) && k < |rows|
    ensures CellsUpTo(rows, k + 1, n) == CellsUpTo(rows, k, n) + if rows[k].num <= n then rows[k].cells else []
    decreases n
  {
    if n > 0 {
      CellsUpToNext(rows, k, n - 1);
      if rows[k].num < n {
        NothingBehind(rows, k + 1, n);
        NothingBehind(rows, k, n);
      }
    }
  }

  /** All cells of the first `k` rows are those up to number `n`. */
  ghost predicate AllUpTo(rows: seq<Row>, k: nat, n: nat)
    requires k <= |rows|
  {
    CellsUpTo(rows, k, n) == AllCells(rows, k)
  }

  lemma AllUpToNext(rows: seq<Row>, k: nat, n: nat)
    requires k < |rows| && AllUpTo(rows, k, n)
    requires CellsUpTo(rows, k + 1, n) == CellsUpTo(rows, k, n) + rows[k].cells
    ensures AllUpTo(rows, k + 1, n)
  {
  }

  lemma {:induction false} CellsUpToLast(rows: seq<Row>, k: nat, n: nat)
    requires InOrder(rows) && k <= |rows| && LastNumber(rows, k) <= n
    ensures AllUpTo(rows, k, n)
    decreases k
  {
    if k == 0 {
      NoRows(rows, n);
    } else {
      CellsUpToLast(rows, k - 1, n);
      CellsUpToNext(rows, k - 1, n);
      AllUpToNext(rows, k - 1, n);
    }
  }

  lemma {:induction false} NoRows(rows: seq<Row>, n: nat)
    ensures CellsUpTo(rows, 0, n) == []
    decreases n
  {
    if n > 0 {
      NoRows(rows, n - 1);
    }
  }

  lemma {:induction false} ByNumber(rows: seq<Row>, out: seq<Row>, n: nat)
    requires n <= |out| && forall i | 0 <= i < |out| :: out[i].cells == CellsAt(rows, |rows|, i + 1)
    ensures AllCells(out, n) == CellsUpTo(rows, |rows|, n)
    decreases n
  {
    if n > 0 {
      ByNumber(rows, out, n - 1);
      assert out[n - 1].cells == CellsAt(rows, |rows|, n);
    }
  }

  /** From rows in order the checked sheet has the same cells in the same order. */
  lemma CheckedKeepsCells(rows: seq<Row>)
    requires InOrder(rows)
    ensures var out := CheckedSheet(rows); AllCells(out, |out|) == AllCells(rows, |rows|)
  {
    var out := CheckedSheet(rows);
    CheckedInOrder(rows);
    ByNumber(rows, out, |out|);
    CellsUpToLast(rows, |rows|, |out|);
  }

  // ----- rows without a number -----

  /** The rows with the numbers under which they are entered. */
  function Effective(rows: seq<Row>): seq<Row> {
    seq(|rows|, i requires 0 <= i < |rows| => rows[i].(num := Entry(rows, i)))
  }

  /** Each row is entered at or behind the row before it. */
  predicate Ordered(rows: seq<Row>) {
    Numbered(rows) && InOrder(Effective(rows))
  }

  lemma {:induction false} EffectiveCount(rows: seq<Row>, k: nat)
    requires Ordered(rows) && k <= |rows|
    ensures CountTo(rows, k) == LastNumber(Effective(rows), k)
    decreases k
  {
    if k > 0 {
      EffectiveCount(rows, k - 1);
      var es := Effective(rows);
      assert es[k - 1].num == Entry(rows, k - 1) > 0;
      if k > 1 {
        assert es[k - 2].num <= es[k - 1].num;
      }
    }
  }

  /** The second pass does the same with both. */
  lemma {:induction false} EffectiveFill(rows: seq<Row>, k: nat)
    requires Ordered(rows) && k <= |rows|
    ensures FillTo(Effective(rows), k) == FillTo(rows, k)
    decreases k
  {
    var es := Effective(rows);
    EffectiveCount(rows, |rows|);
    InOrderCount(es, |rows|);
    if k > 0 {
      EffectiveFill(rows, k - 1);
      EntryIs(rows, k - 1);
      if k > 1 {
        EntryIs(rows, k - 2);
      }
      SameFill(FillTo(rows, k - 1), rows[k - 1], Entry(rows, k - 1));
    }
  }

  lemma SameFill(f: Filling, r: Row, e: int)
    requires r.num >= 0 && (f.row == 0 ==> r.num > 0) && e == (if r.num != 0 then r.num else f.row + 1) && 1 <= e <= |f.rows|
    ensures Fill(f, r.(num := e)) == Fill(f, r)
  {
  }

  /** Rows in order, some perhaps without a number, come out like the rows with the numbers they are entered under,
      and no cell is lost or moved before another. */
  lemma CheckedEffective(rows: seq<Row>)
    requires Ordered(rows)
    ensures var out := CheckedSheet(rows);
            out == CheckedSheet(Effective(rows)) && AllCells(out, |out|) == AllCells(rows, |rows|)
  {
    EffectiveFill(rows, |rows|);
    CheckedKeepsCells(Effective(rows));
    SameCells(Effective(rows), rows, |rows|);
  }

  lemma {:induction false} SameCells(a: seq<Row>, b: seq<Row>, n: nat)
    requires n <= |a| == |b| && forall i | 0 <= i < |a| :: a[i].cells == b[i].cells
    ensures AllCells(a, n) == AllCells(b, n)
    decreases n
  {
    if n > 0 {
      SameCells(a, b, n - 1);
    }
  }

  /** Out of order a row is overwritten and its cells are lost. */
  lemma OutOfOrder(a: XCell, b: XCell)
    requires a != b
    ensures var rows := [Row(1, "", [a]), Row(2, "", []), Row(1, "", [b])];
            var out := CheckedSheet(rows);
            |out| == 3 && AllCells(out, 3) == [b] && AllCells(rows, 3) == [a, b]
  {
    var rows := [Row(1, "", [a]), Row(2, "", []), Row(1, "", [b])];
    assert CountTo(rows, 0) == 0 && CountTo(rows, 1) == 1 && CountTo(rows, 2) == 2 && CountTo(rows, 3) == 3;
    var e := EMPTY_ROW;
    assert FillTo(rows, 0) == Filling([e, e, e], 0);
    assert FillTo(rows, 1) == Filling([rows[0], e, e], 1);
    assert FillTo(rows, 2) == Filling([rows[0], rows[1], e], 2);
    assert FillTo(rows, 3) == Filling([rows[2], rows[1], e], 1);
    var out := CheckedSheet(rows);
    assert out[0].cells == [b] && out[1].cells == [] && out[2].cells == [];
    assert AllCells(out, 0) == [] && AllCells(out, 1) == [b] && AllCells(out, 2) == [b] && AllCells(out, 3) == [b];
    assert AllCells(rows, 0) == [] && AllCells(rows, 1) == [a] && AllCells(rows, 2) == [a] && AllCells(rows, 3) == [a, b];
  }

  // ----- checkRow -----

  /** The column counter after `k` cells: a name that lies further right moves it there. */
  function ColumnTo(cells: seq<XCell>, k: nat): nat
    requires k <= |cells|
  {
    if k == 0 then 0
    else
      var next := ColumnTo(cells, k - 1) + 1;
      var ref := cells[k - 1].ref;
      if ref.Some? && ref.value.col > next then ref.value.col else next
  }

  /** A cell without a name gets the column of the counter. */
  function Named(cells: seq<XCell>, row: int): (named: seq<XCell>)
    ensures |named| == |cells| && forall i | 0 <= i < |named| :: named[i].ref.Some?
  {
    seq(|cells|, i requires 0 <= i < |cells| =>
      if cells[i].ref.Some? then cells[i] else XCell(Some(Ref(ColumnTo(cells, i + 1), row)), cells[i].data))
  }

  function Column(c: XCell): int
    requires c.ref.Some?
  {
    c.ref.value.col
  }

  /** Blank cells for the columns 1 to `n`. */
  function BlankCells(n: nat, row: int): seq<XCell> {
    seq(n, j => XCell(Some(Ref(j + 1, row)), Blank))
  }

  /** The first `k` named cells put into their columns. */
  function Spread(named: seq<XCell>, row: int, n: nat, k: nat): (out: seq<XCell>)
    requires k <= |named| && forall i | 0 <= i < |named| :: named[i].ref.Some? && 1 <= Column(named[i]) <= n
    ensures |out| == n
  {
    if k == 0 then BlankCells(n, row)
    else Spread(named, row, n, k - 1)[Column(named[k - 1]) - 1 := named[k - 1]]
  }

  /** Does every cell find its column in the list that is made for them?  Otherwise `checkRow` panics. */
  predicate Fits(cells: seq<XCell>) {
    var named := Named(cells, 0);
    cells != [] && |cells| < Column(named[|cells| - 1]) ==>
      forall i | 0 <= i < |cells| :: 1 <= Column(named[i]) <= Column(named[|cells| - 1])
  }

  function CheckedCells(cells: seq<XCell>, row: int): seq<XCell>
    requires Fits(cells)
  {
    if cells == [] then []
    else
      var named := Named(cells, row);
      var last := Column(named[|cells| - 1]);
      SameColumns(cells, 0, row);
      if |cells| < last then Spread(named, row, last, |cells|) else named
  }

  lemma SameColumns(cells: seq<XCell>, row: int, other: int)
    ensures forall i | 0 <= i < |cells| :: Column(Named(cells, row)[i]) == Column(Named(cells, other)[i])
  {
  }

  /** Can the name be read?  The row must be within the limit. */
  predicate CanRead(ref: Ref) {
    ref.row <= CellName.TOTAL_ROWS
  }

  /** How the check of a row or a sheet ends: complete, stopped by an error, or with a panic. */
  datatype Checking<T> = Checked(value: T) | Stopped(value: T) | OutOfRange

  /** The first cell from `i` on whose name cannot be read, or the end. */
  function UnreadFrom(cells: seq<XCell>, i: nat): (u: nat)
    requires i <= |cells|
    ensures i <= u <= |cells|
    decreases |cells| - i
  {
    if i == |cells| || (cells[i].ref.Some? && !CanRead(cells[i].ref.value)) then i else UnreadFrom(cells, i + 1)
  }

  /** The first `k` cells have got names. */
  function NamedTo(cells: seq<XCell>, row: int, k: nat): seq<XCell>
    requires k <= |cells|
  {
    Named(cells, row)[..k] + cells[k..]
  }

  /** The named cells from `k` on are put into their columns. */
  function Placed(named: seq<XCell>, out: seq<XCell>, k: nat): Checking<seq<XCell>>
    requires k <= |named| && forall i | 0 <= i < |named| :: named[i].ref.Some?
    decreases |named| - k
  {
    if k == |named| then Checked(out)
    else if !CanRead(named[k].ref.value) then Stopped(out)
    else if !(1 <= Column(named[k]) <= |out|) then OutOfRange
    else Placed(named, out[Column(named[k]) - 1 := named[k]], k + 1)
  }

  /** What checking the cells of a row comes to. */
  function RowChecked(cells: seq<XCell>, row: int): Checking<seq<XCell>> {
    var u, named := UnreadFrom(cells, 0), Named(cells, row);
    if u < |cells| then Stopped(NamedTo(cells, row, u))
    else if cells == [] then Checked(cells)
    else if !CanRead(named[|cells| - 1].ref.value) then Stopped(named)
    else if |cells| >= Column(named[|cells| - 1]) then Checked(named)
    else Placed(named, BlankCells(Column(named[|cells| - 1]), row), 0)
  }

  method CheckCells(cells: seq<XCell>, row: int) returns (r: Checking<seq<XCell>>)
    ensures r == RowChecked(cells, row)
  {
    if |cells| == 0 {
      return Checked(cells);
    }
    r := NameCells(cells, row);
    if r.Stopped? {
      return;
    }
    var named := r.value;
    if !CanRead(named[|cells| - 1].ref.value) {
      return Stopped(named);
    }
    var last := Column(named[|cells| - 1]);
    if |cells| < last {
      r := PlaceCells(named, BlankCells(last, row));
    }
  }

  /** The loop that gives names to the cells without one. */
  method NameCells(cells: seq<XCell>, row: int) returns (r: Checking<seq<XCell>>)
    ensures var u := UnreadFrom(cells, 0);
            r == if u < |cells| then Stopped(NamedTo(cells, row, u)) else Checked(Named(cells, row))
  {
    var named := cells;
    var count: nat := 0;
    for i := 0 to |cells|
      invariant Naming(cells, row, i, named, count)
    {
      NamingNext(cells, row, i, named, count);
      count := count + 1;
      if named[i].ref.Some? {
        if !CanRead(named[i].ref.value) {
          return Stopped(named);
        }
        if named[i].ref.value.col > count {
          count := named[i].ref.value.col;
        }
        continue;
      }
      named := named[i := named[i].(ref := Some(Ref(count, row)))];
    }
    assert named == Named(cells, row);
    r := Checked(named);
  }

  /** The loop has come to cell `i`, with `count` in its counter. */
  predicate Naming(cells: seq<XCell>, row: int, i: nat, named: seq<XCell>, count: int) {
    && i <= |cells| && count == ColumnTo(cells, i) && named == NamedTo(cells, row, i)
    && UnreadFrom(cells, 0) == UnreadFrom(cells, i)
  }

  lemma NamingNext(cells: seq<XCell>, row: int, i: nat, named: seq<XCell>, count: int)
    requires i < |cells| && Naming(cells, row, i, named, count)
    ensures |named| == |cells| && named[i] == cells[i]
    ensures cells[i].ref.None? ==>
              Naming(cells, row, i + 1, named[i := named[i].(ref := Some(Ref(count + 1, row)))], count + 1)
    ensures cells[i].ref.Some? && CanRead(cells[i].ref.value) ==>
              Naming(cells, row, i + 1, named,
                     if cells[i].ref.value.col > count + 1 then cells[i].ref.value.col else count + 1)
    ensures cells[i].ref.Some? && !CanRead(cells[i].ref.value) ==> UnreadFrom(cells, 0) == i
  {
    NamedNext(cells, row, i);
  }

  lemma NamedNext(cells: seq<XCell>, row: int, i: nat)
    requires i < |cells|
    ensures var now := NamedTo(cells, row, i);
            && |now| == |cells| && now[i] == cells[i]
            && NamedTo(cells, row, i + 1) == now[i := Named(cells, row)[i]]
            && (cells[i].ref.Some? ==> NamedTo(cells, row, i + 1) == now)
  {
  }

  /** The loop that puts cells into their columns. */
  method PlaceCells(named: seq<XCell>, blank: seq<XCell>) returns (r: Checking<seq<XCell>>)
    requires forall i | 0 <= i < |named| :: named[i].ref.Some?
    ensures r == Placed(named, blank, 0)
  {
    var out := blank;
    for k := 0 to |named|
      invariant Placed(named, blank, 0) == Placed(named, out, k)
    {
      if !CanRead(named[k].ref.value) {
        return Stopped(out);
      }
      if !(1 <= Column(named[k]) <= |out|) {
        return OutOfRange;
      }
      out := out[Column(named[k]) - 1 := named[k]];
    }
    r := Checked(out);
  }

  /** The rows from `i` on are checked one by one. */
  function RowsChecked(rows: seq<Row>, i: nat): Checking<seq<Row>>
    requires i <= |rows|
    decreases |rows| - i
  {
    if i == |rows| then Checked(rows)
    else
      match RowChecked(rows[i].cells, i + 1)
      case OutOfRange => OutOfRange
      case Stopped(cells) => Stopped(rows[i := rows[i].(cells := cells)])
      case Checked(cells) => RowsChecked(rows[i := rows[i].(cells := cells)], i + 1)
  }

  /** `checkRow`, row by row. */
  method CheckRow(rows: seq<Row>) returns (r: Checking<seq<Row>>)
    ensures r == RowsChecked(rows, 0)
  {
    var sheet := rows;
    for i := 0 to |rows|
      invariant |sheet| == |rows| && RowsChecked(rows, 0) == RowsChecked(sheet, i)
    {
      var cells := CheckCells(sheet[i].cells, i + 1);
      match cells {
        case OutOfRange => return OutOfRange;
        case Stopped(cs) => return Stopped(sheet[i := sheet[i].(cells := cs)]);
        case Checked(cs) => sheet := sheet[i := sheet[i].(cells := cs)];
      }
    }
    r := Checked(sheet);
  }

  // ----- names within the limit -----

  /** All names can be read, those of row `row` included if the row has a cell without a name. */
  predicate Legible(cells: seq<XCell>, row: int) {
    forall i | 0 <= i < |cells| :: CanRead(Named(cells, row)[i].ref.value)
  }

  lemma {:induction false} LegibleRead(cells: seq<XCell>, row: int, i: nat)
    requires Legible(cells, row) && i <= |cells|
    ensures UnreadFrom(cells, i) == |cells|
    decreases |cells| - i
  {
    if i < |cells| {
      assert CanRead(Named(cells, row)[i].ref.value);
      LegibleRead(cells, row, i + 1);
    }
  }

  lemma {:induction false} PlacedSpread(named: seq<XCell>, row: int, n: nat, k: nat)
    requires k <= |named| && forall i | 0 <= i < |named| :: named[i].ref.Some? && 1 <= Column(named[i]) <= n
    requires forall i | 0 <= i < |named| :: CanRead(named[i].ref.value)
    ensures Placed(named, Spread(named, row, n, k), k) == Checked(Spread(named, row, n, |named|))
    decreases |named| - k
  {
    if k < |named| {
      PlacedSpread(named, row, n, k + 1);
    }
  }

  /** Without an unreadable name and with a place for every cell the check completes. */
  lemma RowCompletes(cells: seq<XCell>, row: int)
    requires Fits(cells) && Legible(cells, row)
    ensures RowChecked(cells, row) == Checked(CheckedCells(cells, row))
  {
    LegibleRead(cells, row, 0);
    if cells != [] {
      var named := Named(cells, row);
      SameColumns(cells, 0, row);
      assert CanRead(named[|cells| - 1].ref.value);
      if |cells| < Column(named[|cells| - 1]) {
        PlacedSpread(named, row, Column(named[|cells| - 1]), 0);
      }
    }
  }

  /** Does the name of cell `i` lie to the right of the cell before? */
  predicate RightOf(cells: seq<XCell>, i: nat)
    requires i < |cells|
  {
    cells[i].ref.Some? ==> cells[i].ref.value.col > ColumnTo(cells, i)
  }

  predicate LeftToRight(cells: seq<XCell>) {
    forall i | 0 <= i < |cells| :: RightOf(cells, i)
  }

  /** Named cells in ascending columns up to `n`. */
  predicate Ascending(named: seq<XCell>, n: int) {
    && (forall i | 0 <= i < |named| :: named[i].ref.Some? && 1 <= Column(named[i]) <= n)
    && (forall i, j | 0 <= i < j < |named| :: Column(named[i]) < Column(named[j]))
  }

  lemma {:induction false} ColumnsGrow(cells: seq<XCell>, i: nat, j: nat)
    requires i <= j <= |cells|
    ensures ColumnTo(cells, i) + (j - i) <= ColumnTo(cells, j)
    decreases j
  {
    if i < j {
      ColumnsGrow(cells, i, j - 1);
    }
  }

  lemma ColumnIs(cells: seq<XCell>, row: int, i: nat)
    requires LeftToRight(cells) && i < |cells|
    ensures Column(Named(cells, row)[i]) == ColumnTo(cells, i + 1)
  {
    assert RightOf(cells, i);
  }

  lemma ColumnIn(cells: seq<XCell>, row: int, i: nat)
    requires LeftToRight(cells) && i < |cells|
    ensures 1 <= Column(Named(cells, row)[i]) <= ColumnTo(cells, |cells|)
  {
    ColumnIs(cells, row, i);
    ColumnsGrow(cells, 0, i + 1);
    ColumnsGrow(cells, i + 1, |cells|);
  }

  lemma ColumnLess(cells: seq<XCell>, row: int, i: nat, j: nat)
    requires LeftToRight(cells) && i < j < |cells|
    ensures Column(Named(cells, row)[i]) < Column(Named(cells, row)[j])
  {
    ColumnIs(cells, row, i);
    ColumnIs(cells, row, j);
    ColumnsGrow(cells, i + 1, j + 1);
  }

  lemma NamedAscending(cells: seq<XCell>, row: int)
    requires LeftToRight(cells)
    ensures Ascending(Named(cells, row), ColumnTo(cells, |cells|))
  {
    var named := Named(cells, row);
    forall i | 0 <= i < |named| ensures 1 <= Column(named[i]) <= ColumnTo(cells, |cells|) {
      ColumnIn(cells, row, i);
    }
    forall i, j | 0 <= i < j < |named| ensures Column(named[i]) < Column(named[j]) {
      ColumnLess(cells, row, i, j);
    }
  }

  lemma {:induction false} AscendingAt(named: seq<XCell>, n: int, i: nat)
    requires Ascending(named, n) && i < |named|
    ensures i + 1 <= Column(named[i]) && Column(named[i]) + (|named| - 1 - i) <= n
    decreases |named| - i
  {
    AscendingFrom(named, n, i);
    if i + 1 < |named| {
      AscendingAt(named, n, i + 1);
    }
  }

  lemma {:induction false} AscendingFrom(named: seq<XCell>, n: int, i: nat)
    requires Ascending(named, n) && i < |named|
    ensures i + 1 <= Column(named[i])
    decreases i
  {
    if i > 0 {
      AscendingFrom(named, n, i - 1);
    }
  }

  /** `cell` is what belongs at index `j`: the named cell of that column, or a blank one. */
  ghost predicate Belongs(named: seq<XCell>, k: nat, row: int, j: int, cell: XCell)
    requires k <= |named| && forall i | 0 <= i < |named| :: named[i].ref.Some?
  {
    && (forall i | 0 <= i < k && Column(named[i]) == j + 1 :: cell == named[i])
    && ((forall i | 0 <= i < k :: Column(named[i]) != j + 1) ==> cell == XCell(Some(Ref(j + 1, row)), Blank))
  }

  lemma {:induction false} SpreadAt(named: seq<XCell>, row: int, n: nat, k: nat, j: nat)
    requires Ascending(named, n) && k <= |named| && j < n
    ensures Belongs(named, k, row, j, Spread(named, row, n, k)[j])
    decreases k
  {
    if k > 0 {
      SpreadAt(named, row, n, k - 1, j);
      SpreadNext(named, row, n, k - 1, j, Spread(named, row, n, k - 1)[j]);
    }
  }

  lemma SpreadNext(named: seq<XCell>, row: int, n: nat, k: nat, j: nat, cell: XCell)
    requires k < |named| && Ascending(named, n) && Belongs(named, k, row, j, cell)
    ensures Belongs(named, k + 1, row, j, if Column(named[k]) == j + 1 then named[k] else cell)
  {
  }

  /** From cells ordered from left to right: each cell ends up in its own column, and every other column up to the last
      gets a blank cell. */
  lemma CheckedLeftToRight(cells: seq<XCell>, row: int)
    requires LeftToRight(cells)
    ensures Fits(cells)
    ensures var out, named := CheckedCells(cells, row), Named(cells, row);
            && |out| == ColumnTo(cells, |cells|) && Ascending(named, |out|)
            && forall j | 0 <= j < |out| :: Belongs(named, |named|, row, j, out[j])
  {
    var n, named := ColumnTo(cells, |cells|), Named(cells, row);
    NamedAscending(cells, row);
    NamedAscending(cells, 0);
    if cells != [] {
      ColumnIs(cells, row, |cells| - 1);
      ColumnIs(cells, 0, |cells| - 1);
      AscendingAt(named, n, 0);
      LeftToRightCells(cells, row, n, named);
    }
  }

  lemma LeftToRightCells(cells: seq<XCell>, row: int, n: nat, named: seq<XCell>)
    requires cells != [] && Fits(cells) && named == Named(cells, row) && n == Column(named[|cells| - 1])
    requires Ascending(named, n) && |named| <= n
    ensures var out := CheckedCells(cells, row);
            |out| == n && forall j | 0 <= j < |out| :: Belongs(named, |named|, row, j, out[j])
  {
    SameColumns(cells, 0, row);
    var out := CheckedCells(cells, row);
    forall j | 0 <= j < n ensures Belongs(named, |named|, row, j, out[j]) {
      if |cells| < n {
        SpreadAt(named, row, n, |named|, j);
      } else {
        AscendingAt(named, n, j);
      }
    }
  }

  // ----- which cells of a row are kept -----

  /** Is the list of cells replaced by one with a cell for every column? */
  predicate IsSpread(cells: seq<XCell>) {
    cells != [] && |cells| < Column(Named(cells, 0)[|cells| - 1])
  }

  predicate OwnColumns(named: seq<XCell>)
    requires forall i | 0 <= i < |named| :: named[i].ref.Some?
  {
    forall i, j | 0 <= i < j < |named| :: Column(named[i]) != Column(named[j])
  }

  /** No two cells, cells without a name included, get the same column. */
  predicate Unshared(cells: seq<XCell>) {
    OwnColumns(Named(cells, 0))
  }

  /** At index j stands a cell of column j + 1. */
  predicate ByColumn(out: seq<XCell>) {
    forall j | 0 <= j < |out| :: out[j].ref.Some? && Column(out[j]) == j + 1
  }

  /** Placing completes only if every cell can be placed. */
  lemma {:induction false} PlacedInside(named: seq<XCell>, out: seq<XCell>, k: nat)
    requires k <= |named| && forall i | 0 <= i < |named| :: named[i].ref.Some?
    requires Placed(named, out, k).Checked?
    ensures forall i | k <= i < |named| :: CanRead(named[i].ref.value) && 1 <= Column(named[i]) <= |out|
    decreases |named| - k
  {
    if k < |named| {
      PlacedInside(named, out[Column(named[k]) - 1 := named[k]], k + 1);
    }
  }

  lemma {:induction false} SpreadByColumn(named: seq<XCell>, row: int, n: nat, k: nat)
    requires k <= |named| && forall i | 0 <= i < |named| :: named[i].ref.Some? && 1 <= Column(named[i]) <= n
    ensures ByColumn(Spread(named, row, n, k))
    decreases k
  {
    if k > 0 {
      SpreadByColumn(named, row, n, k - 1);
    }
  }

  lemma Occurs<T>(s: seq<T>, i: nat)
    requires i < |s|
    ensures multiset(s) == multiset(s[..i] + s[i + 1..]) + multiset{s[i]}
  {
    assert s == s[..i] + ([s[i]] + s[i + 1..]);
    assert multiset(s) == multiset(s[..i]) + (multiset{s[i]} + multiset(s[i + 1..]));
  }

  /** Twice in one list, once in the other. */
  lemma TwiceOnce<T>(s: seq<T>, i: nat, j: nat, t: seq<T>, p: nat)
    requires i < j < |s| && s[i] == s[j] && p < |t|
    requires forall q | 0 <= q < |t| && q != p :: t[q] != t[p]
    requires s[i] == t[p]
    ensures !(multiset(s) <= multiset(t))
  {
    var x, rest := s[i], t[..p] + t[p + 1..];
    Occurs(s, i);
    Occurs(t, p);
    var others := s[..i] + s[i + 1..];
    assert others[j - 1] == x;
    assert x in multiset(others);
    assert x !in rest;
    assert multiset(s)[x] > multiset(t)[x];
  }

  lemma SharedLost(named: seq<XCell>, out: seq<XCell>)
    requires (forall i | 0 <= i < |named| :: named[i].ref.Some?) && !OwnColumns(named) && ByColumn(out)
    ensures !(multiset(named) <= multiset(out))
  {
    var i, j :| 0 <= i < j < |named| && Column(named[i]) == Column(named[j]);
    if multiset(named) <= multiset(out) {
      assert named[i] in multiset(named) && named[j] in multiset(named);
      assert named[i] in multiset(out) && named[j] in multiset(out);
      var p :| 0 <= p < |out| && out[p] == named[i];
      var q :| 0 <= q < |out| && out[q] == named[j];
      assert p == q;
      TwiceOnce(named, i, j, out, p);
    }
  }

  lemma {:induction false} UnsharedKept(named: seq<XCell>, row: int, n: nat, k: nat)
    requires k <= |named| && forall i | 0 <= i < |named| :: named[i].ref.Some? && 1 <= Column(named[i]) <= n
    requires OwnColumns(named)
    ensures multiset(named[..k]) <= multiset(Spread(named, row, n, k))
    decreases k
  {
    if k > 0 {
      UnsharedKept(named, row, n, k - 1);
      SpreadByColumn(named, row, n, k - 1);
      PlaceNext(named, Spread(named, row, n, k - 1), k - 1);
    } else {
      assert named[..0] == [];
    }
  }

  lemma PlaceNext(named: seq<XCell>, out: seq<XCell>, k: nat)
    requires (forall i | 0 <= i < |named| :: named[i].ref.Some?) && OwnColumns(named)
    requires k < |named| && 1 <= Column(named[k]) <= |out|
    requires ByColumn(out) && multiset(named[..k]) <= multiset(out)
    ensures multiset(named[..k + 1]) <= multiset(out[Column(named[k]) - 1 := named[k]])
  {
    PlaceKeeps(named[..k], out, named[k]);
    assert named[..k + 1] == named[..k] + [named[k]];
  }

  lemma PlaceKeeps(placed: seq<XCell>, out: seq<XCell>, cell: XCell)
    requires ByColumn(out) && multiset(placed) <= multiset(out)
    requires cell.ref.Some? && 1 <= Column(cell) <= |out|
    requires forall i | 0 <= i < |placed| :: placed[i].ref.Some? && Column(placed[i]) != Column(cell)
    ensures multiset(placed + [cell]) <= multiset(out[Column(cell) - 1 := cell])
  {
    var j := Column(cell) - 1;
    var now := out[j := cell];
    Occurs(out, j);
    Occurs(now, j);
    assert out[..j] + out[j + 1..] == now[..j] + now[j + 1..];
    assert out[j] !in placed;
    assert multiset(placed) <= multiset(out[..j] + out[j + 1..]);
  }

  /** For every row on which the check completes: it keeps all cells, each as often, if and only if it leaves the list
      as it is or no two cells get the same column. */
  lemma RowKeepsExact(cells: seq<XCell>, row: int)
    requires RowChecked(cells, row).Checked?
    ensures multiset(Named(cells, row)) <= multiset(RowChecked(cells, row).value) <==> !IsSpread(cells) || Unshared(cells)
  {
    var named := Named(cells, row);
    SameColumns(cells, 0, row);
    if IsSpread(cells) {
      var n := Column(named[|cells| - 1]);
      PlacedInside(named, BlankCells(n, row), 0);
      PlacedSpread(named, row, n, 0);
      SpreadByColumn(named, row, n, |named|);
      if Unshared(cells) {
        UnsharedKept(named, row, n, |named|);
        assert named[..|named|] == named;
      } else {
        SharedLost(named, Spread(named, row, n, |named|));
      }
    }
  }

  lemma {:induction false} RowsCheckedAt(rows: seq<Row>, i: nat, j: nat)
    requires i <= |rows| && j < |rows| && RowsChecked(rows, i).Checked?
    ensures |RowsChecked(rows, i).value| == |rows|
    ensures var out := RowsChecked(rows, i).value;
            if j < i then out[j] == rows[j]
            else RowChecked(rows[j].cells, j + 1) == Checked(out[j].cells)
    decreases |rows| - i
  {
    if i < |rows| {
      RowsCheckedAt(rows[i := rows[i].(cells := RowChecked(rows[i].cells, i + 1).value)], i + 1, j);
    }
  }

  /** The check of a whole list keeps all cells of row `j` under the same condition. */
  lemma RowsKeepExact(rows: seq<Row>, j: nat)
    requires RowsChecked(rows, 0).Checked? && j < |rows|
    ensures |RowsChecked(rows, 0).value| == |rows|
    ensures var cells, out := rows[j].cells, RowsChecked(rows, 0).value[j].cells;
            multiset(Named(cells, j + 1)) <= multiset(out) <==> !IsSpread(cells) || Unshared(cells)
  {
    RowsCheckedAt(rows, 0, j);
    RowKeepsExact(rows[j].cells, j + 1);
  }

  /** Two cells named A1 and one named D1: the list is spread, and the first cell is gone. */
  lemma SharedColumn(a: XCell, b: XCell, d: XCell)
    requires a.ref == b.ref == Some(Ref(1, 1)) && d.ref == Some(Ref(4, 1))
    ensures RowChecked([a, b, d], 1) ==
            Checked([b, XCell(Some(Ref(2, 1)), Blank), XCell(Some(Ref(3, 1)), Blank), d])
  {
    var cells := [a, b, d];
    var named := Named(cells, 1);
    assert named == cells;
    assert UnreadFrom(cells, 2) == 3 && UnreadFrom(cells, 1) == 3 && UnreadFrom(cells, 0) == 3;
    var o0 := BlankCells(4, 1);
    var o1 := o0[0 := a];
    var o2 := o1[0 := b];
    var o3 := o2[3 := d];
    assert Placed(named, o3, 3) == Checked(o3);
    assert Placed(named, o2, 2) == Checked(o3) && Placed(named, o1, 1) == Checked(o3) && Placed(named, o0, 0) == Checked(o3);
    assert o3 == [b, XCell(Some(Ref(2, 1)), Blank), XCell(Some(Ref(3, 1)), Blank), d];
  }

  function CheckedRows(rows: seq<Row>): seq<Row>
    requires forall i | 0 <= i < |rows| :: Fits(rows[i].cells)
  {
    seq(|rows|, i requires 0 <= i < |rows| => rows[i].(cells := CheckedCells(rows[i].cells, i + 1)))
  }

  /** Whole sheets: every row completes. */
  lemma {:induction false} RowsComplete(rows: seq<Row>, sheet: seq<Row>, i: nat)
    requires (forall j | 0 <= j < |rows| :: Fits(rows[j].cells) && Legible(rows[j].cells, j + 1)) && i <= |rows|
    requires |sheet| == |rows| && forall j | 0 <= j < |rows| :: sheet[j] == if j < i then CheckedRows(rows)[j] else rows[j]
    ensures RowsChecked(sheet, i) == Checked(CheckedRows(rows))
    decreases |rows| - i
  {
    if i < |rows| {
      RowCompletes(rows[i].cells, i + 1);
      RowsComplete(rows, sheet[i := rows[i].(cells := CheckedCells(rows[i].cells, i + 1))], i + 1);
    } else {
      assert sheet == CheckedRows(rows);
    }
  }
}

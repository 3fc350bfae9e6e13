/** Inserting and removing rows. */
module SheetEdit {
  import opened Wrappers
  import opened SheetRows
  import Merge

  // On a worksheet with its links, regions and calculation chain
  // (backend/excelize/rows.go, backend/excelize/adjust.go).

  datatype Link = Link(ref: Ref, rid: string)

  // ----- rows -----

  function Renamed(cells: seq<XCell>, num: int): seq<XCell> {
    seq(|cells|, i requires 0 <= i < |cells| =>
      cells[i].(ref := if cells[i].ref.Some? then Some(Ref(cells[i].ref.value.col, num)) else None))
  }

  function Renumbered(r: Row, num: int): Row {
    Row(num, r.attrs, Renamed(r.cells, num))
  }

  function ShiftedRow(r: Row, k: int, offset: int): Row {
    if r.num >= k && r.num + offset > 0 then Renumbered(r, r.num + offset) else r
  }

  function ShiftedRows(rows: seq<Row>, k: int, offset: int): seq<Row> {
    seq(|rows|, i requires 0 <= i < |rows| => ShiftedRow(rows[i], k, offset))
  }

  /** The rows among the first `n` that do not have number `k`. */
  ghost function Without(rows: seq<Row>, k: int, n: nat): (kept: seq<Row>)
    requires n <= |rows|
    ensures |kept| <= n
  {
    if n == 0 then [] else Without(rows, k, n - 1) + if rows[n - 1].num == k then [] else [rows[n - 1]]
  }

  /** The normal form: row `i + 1` at index `i`, and its cells in columns 1, 2, ... */
  ghost predicate NormalRow(r: Row, num: int) {
    r.num == num && forall j | 0 <= j < |r.cells| :: r.cells[j].ref == Some(Ref(j + 1, num))
  }

  ghost predicate Normal(rows: seq<Row>) {
    forall i | 0 <= i < |rows| :: NormalRow(rows[i], i + 1)
  }

  // ----- rows in normal form stay as they are -----

  lemma {:induction false} AllUnnamed(cells: seq<XCell>, num: int, i: nat)
    requires i <= |cells| && num <= CellName.TOTAL_ROWS
    requires forall j | 0 <= j < |cells| :: cells[j].ref == Some(Ref(j + 1, num))
    ensures UnreadFrom(cells, i) == |cells|
    decreases |cells| - i
  {
    if i < |cells| {
      AllUnnamed(cells, num, i + 1);
    }
  }

  lemma NormalCells(cells: seq<XCell>, num: int)
    requires forall j | 0 <= j < |cells| :: cells[j].ref == Some(Ref(j + 1, num))
    ensures !RowChecked(cells, num).OutOfRange? && RowChecked(cells, num).value == cells
  {
    assert Named(cells, num) == cells && NamedTo(cells, num, 0) == cells;
    if num <= CellName.TOTAL_ROWS {
      AllUnnamed(cells, num, 0);
    }
  }

  /** Checking rows in normal form changes nothing, whether it completes or stops below the row limit. */
  lemma {:induction false} NormalRows(rows: seq<Row>, i: nat)
    requires Normal(rows) && i <= |rows|
    ensures !RowsChecked(rows, i).OutOfRange? && RowsChecked(rows, i).value == rows
    decreases |rows| - i
  {
    if i < |rows| {
      assert NormalRow(rows[i], i + 1);
      NormalCells(rows[i].cells, i + 1);
      assert rows[i := rows[i].(cells := rows[i].cells)] == rows;
      NormalRows(rows, i + 1);
    }
  }

  // ----- the normal form is what checking makes -----

  /** The names in a row are names of that row. */
  predicate OwnNames(cells: seq<XCell>, num: int) {
    forall j | 0 <= j < |cells| && cells[j].ref.Some? :: cells[j].ref.value.row == num
  }

  lemma CheckedNormal(r: Row, num: int)
    requires r.num == num && LeftToRight(r.cells) && OwnNames(r.cells, num)
    ensures Fits(r.cells) && NormalRow(r.(cells := CheckedCells(r.cells, num)), num)
  {
    CheckedLeftToRight(r.cells, num);
    var out, named := CheckedCells(r.cells, num), Named(r.cells, num);
    forall j | 0 <= j < |out| ensures out[j].ref == Some(Ref(j + 1, num)) {
      assert Belongs(named, |named|, num, j, out[j]);
    }
  }

  /**
   Checking a list of rows in order (with or without numbers) whose cells go from left to right and are named for
   their row, all within the row limit, makes the normal form.
   */
  lemma NormalRestored(rows: seq<Row>)
    requires Ordered(rows) && |CheckedSheet(rows)| <= CellName.TOTAL_ROWS
    requires var out := CheckedSheet(rows);
             forall i | 0 <= i < |out| :: LeftToRight(out[i].cells) && OwnNames(out[i].cells, i + 1)
    ensures var r := RowsChecked(CheckedSheet(rows), 0); r.Checked? && Normal(r.value)
  {
    var out := CheckedSheet(rows);
    assert forall i | 0 <= i < |out| :: out[i].num == i + 1 by {
      CheckedEffective(rows);
      CheckedInOrder(Effective(rows));
    }
    forall i | 0 <= i < |out|
      ensures Fits(out[i].cells) && Legible(out[i].cells, i + 1)
      ensures NormalRow(out[i].(cells := CheckedCells(out[i].cells, i + 1)), i + 1)
    {
      CheckedNormal(out[i], i + 1);
    }
    RowsComplete(out, out, 0);
  }

  // ----- rows with different numbers -----

  /** Row numbers ascend from 1. */
  predicate Strict(rows: seq<Row>) {
    && (forall i | 0 <= i < |rows| :: rows[i].num > 0)
    && (forall i, j | 0 <= i < j < |rows| :: rows[i].num < rows[j].num)
  }

  lemma {:induction false} AloneAt(rows: seq<Row>, k: nat, i: nat)
    requires Strict(rows) && i < k <= |rows|
    ensures CellsAt(rows, k, rows[i].num) == rows[i].cells && AttrsAt(rows, k, rows[i].num) == Some(rows[i].attrs)
    decreases k
  {
    if i < k - 1 {
      AloneAt(rows, k - 1, i);
      assert rows[i].cells + [] == rows[i].cells;
    } else {
      NothingBehind(rows, k - 1, rows[i].num);
      assert [] + rows[i].cells == rows[i].cells;
    }
  }

  lemma {:induction false} NoneAt(rows: seq<Row>, k: nat, n: int)
    requires k <= |rows| && forall i | 0 <= i < k :: rows[i].num != n
    ensures CellsAt(rows, k, n) == [] && AttrsAt(rows, k, n) == None
    decreases k
  {
    if k > 0 {
      NoneAt(rows, k - 1, n);
    }
  }

  lemma StrictOrder(rows: seq<Row>)
    requires Strict(rows)
    ensures Numbered(rows) && InOrder(rows) && |CheckedSheet(rows)| == LastNumber(rows, |rows|)
  {
    CheckedInOrder(rows);
  }

  /** Checking rows with ascending numbers puts row `i` at its place and blank rows into the gaps. */
  lemma CheckedAt(rows: seq<Row>, out: seq<Row>, i: nat)
    requires Strict(rows) && InOrder(rows) && out == CheckedSheet(rows) && i < |rows|
    ensures 0 < rows[i].num <= |out| && out[rows[i].num - 1] == rows[i]
  {
    CheckedInOrder(rows);
    AloneAt(rows, |rows|, i);
  }

  lemma CheckedGap(rows: seq<Row>, out: seq<Row>, j: nat)
    requires Strict(rows) && InOrder(rows) && out == CheckedSheet(rows) && j < |out|
    requires forall i | 0 <= i < |rows| :: rows[i].num != j + 1
    ensures out[j] == Row(j + 1, "", [])
  {
    CheckedInOrder(rows);
    NoneAt(rows, |rows|, j + 1);
  }

  // ----- the rows after an insertion and after a removal -----

  function Inserted(rows: seq<Row>, k: int): seq<Row>
    requires k >= 1
  {
    if k > |rows| then rows
    else
      seq(|rows| + 1, i requires 0 <= i < |rows| + 1 =>
        if i < k - 1 then rows[i] else if i == k - 1 then Row(k, "", []) else Renumbered(rows[i - 1], i + 1))
  }

  function Removed(rows: seq<Row>, k: int): seq<Row>
    requires k >= 1
  {
    if k > |rows| then rows
    else
      seq(|rows| - 1, i requires 0 <= i < |rows| - 1 => if i < k - 1 then rows[i] else Renumbered(rows[i + 1], i + 1))
  }

  lemma NormalAt(rows: seq<Row>, i: nat)
    requires Normal(rows) && i < |rows|
    ensures rows[i].num == i + 1 && Renumbered(rows[i], i + 1) == rows[i]
  {
    assert NormalRow(rows[i], i + 1);
  }

  lemma RenumberedNormal(r: Row, num: int, other: int)
    requires NormalRow(r, num)
    ensures NormalRow(Renumbered(r, other), other)
    ensures Renumbered(Renumbered(r, other), num) == r
  {
  }

  lemma InsertShifts(rows: seq<Row>, k: int)
    requires Normal(rows) && k >= 1
    ensures var shifted := ShiftedRows(rows, k, 1);
            && Strict(shifted)
            && forall i | 0 <= i < |rows| :: shifted[i].num == if i + 1 < k then i + 1 else i + 2
  {
    forall i | 0 <= i < |rows| ensures ShiftedRows(rows, k, 1)[i].num == if i + 1 < k then i + 1 else i + 2 {
      NormalAt(rows, i);
    }
  }

  lemma InsertedChecked(rows: seq<Row>, k: int)
    requires Normal(rows) && k >= 1
    ensures Numbered(ShiftedRows(rows, k, 1)) && CheckedSheet(ShiftedRows(rows, k, 1)) == Inserted(rows, k)
    ensures Normal(Inserted(rows, k))
  {
    var shifted := ShiftedRows(rows, k, 1);
    InsertShifts(rows, k);
    StrictOrder(shifted);
    var out := CheckedSheet(shifted);
    forall j | 0 <= j < |out| ensures out[j] == Inserted(rows, k)[j] && NormalRow(out[j], j + 1) {
      InsertedAt(rows, k, out, j);
    }
  }

  lemma InsertedAt(rows: seq<Row>, k: int, out: seq<Row>, j: nat)
    requires Normal(rows) && k >= 1
    requires var shifted := ShiftedRows(rows, k, 1);
             && Strict(shifted) && InOrder(shifted) && out == CheckedSheet(shifted) && j < |out|
             && forall i | 0 <= i < |rows| :: shifted[i].num == if i + 1 < k then i + 1 else i + 2
    requires |out| == |Inserted(rows, k)|
    ensures out[j] == Inserted(rows, k)[j] && NormalRow(out[j], j + 1)
  {
    var shifted := ShiftedRows(rows, k, 1);
    if j < k - 1 {
      InsertedBefore(rows, k, out, j);
    } else if j == k - 1 {
      CheckedGap(shifted, out, j);
    } else {
      InsertedBehind(rows, k, out, j);
    }
  }

  lemma InsertedBefore(rows: seq<Row>, k: int, out: seq<Row>, j: nat)
    requires Normal(rows) && j < k - 1 && j < |rows| && j < |out|
    requires var shifted := ShiftedRows(rows, k, 1);
             Strict(shifted) && InOrder(shifted) && out == CheckedSheet(shifted) && shifted[j].num == j + 1
    ensures out[j] == rows[j] && NormalRow(out[j], j + 1)
  {
    NormalAt(rows, j);
    CheckedAt(ShiftedRows(rows, k, 1), out, j);
    assert NormalRow(rows[j], j + 1);
  }

  lemma InsertedBehind(rows: seq<Row>, k: int, out: seq<Row>, j: nat)
    requires Normal(rows) && 1 <= k <= j <= |rows| && j < |out|
    requires var shifted := ShiftedRows(rows, k, 1);
             Strict(shifted) && InOrder(shifted) && out == CheckedSheet(shifted) && shifted[j - 1].num == j + 1
    ensures out[j] == Renumbered(rows[j - 1], j + 1) && NormalRow(out[j], j + 1)
  {
    NormalAt(rows, j - 1);
    CheckedAt(ShiftedRows(rows, k, 1), out, j - 1);
    RenumberedNormal(rows[j - 1], j, j + 1);
  }

  lemma {:induction false} WithoutIs(rows: seq<Row>, k: int, n: nat)
    requires Normal(rows) && k >= 1 && n <= |rows|
    ensures var kept := Without(rows, k, n);
            && |kept| == (if n < k then n else n - 1)
            && forall i | 0 <= i < |kept| :: kept[i] == rows[if i + 1 < k then i else i + 1]
    decreases n
  {
    if n > 0 {
      WithoutIs(rows, k, n - 1);
      NormalAt(rows, n - 1);
    }
  }

  lemma RemovedChecked(rows: seq<Row>, k: int)
    requires Normal(rows) && k >= 1
    ensures var shifted := ShiftedRows(Without(rows, k, |rows|), k, -1);
            Numbered(shifted) && CheckedSheet(shifted) == Removed(rows, k)
    ensures Normal(Removed(rows, k))
  {
    var kept := Without(rows, k, |rows|);
    var shifted := ShiftedRows(kept, k, -1);
    WithoutIs(rows, k, |rows|);
    forall i | 0 <= i < |shifted| ensures shifted[i] == Removed(rows, k)[i] && NormalRow(shifted[i], i + 1) {
      var from := if i + 1 < k then i else i + 1;
      NormalAt(rows, from);
      assert NormalRow(rows[from], from + 1);
      RenumberedNormal(rows[from], from + 1, i + 1);
    }
    NormalChecked(shifted);
    assert shifted == Removed(rows, k);
  }

  /** Rows in normal form stay as they are. */
  lemma NormalChecked(rows: seq<Row>)
    requires Normal(rows)
    ensures Numbered(rows) && CheckedSheet(rows) == rows
  {
    forall i | 0 <= i < |rows| ensures rows[i].num == i + 1 {
      NormalAt(rows, i);
    }
    assert Strict(rows);
    StrictOrder(rows);
    var out := CheckedSheet(rows);
    forall i | 0 <= i < |out| ensures out[i] == rows[i] {
      CheckedAt(rows, out, i);
    }
  }

  /** Both checks turn the shifted rows into the rows after an insertion, and after a removal. */
  lemma InsertNormalised(rows: seq<Row>, k: int)
    requires Normal(rows) && k >= 1
    ensures Normalised(ShiftedRows(rows, k, 1)) == Some(Inserted(rows, k))
  {
    InsertedChecked(rows, k);
    NormalRows(Inserted(rows, k), 0);
  }

  lemma RemoveNormalised(rows: seq<Row>, k: int)
    requires Normal(rows) && k >= 1
    ensures var kept := if k > |rows| then rows else Without(rows, k, |rows|);
            Normalised(ShiftedRows(kept, k, -1)) == Some(Removed(rows, k))
  {
    WithoutIs(rows, k, |rows|);
    assert k > |rows| ==> Without(rows, k, |rows|) == rows;
    RemovedChecked(rows, k);
    NormalRows(Removed(rows, k), 0);
  }

  /** Removing an inserted row restores all rows with their cells and names. */
  lemma InsertedRemoved(rows: seq<Row>, k: int)
    requires Normal(rows) && k >= 1
    ensures Removed(Inserted(rows, k), k) == rows
  {
    var out := Removed(Inserted(rows, k), k);
    forall i | 0 <= i < |rows| ensures out[i] == rows[i] {
      NormalAt(rows, i);
      assert NormalRow(rows[i], i + 1);
      RenumberedNormal(rows[i], i + 1, i + 2);
    }
  }

  // ----- the map from coordinates to cells -----

  /** The content of a cell of a sheet in normal form. */
  function Content(rows: seq<Row>, col: int, row: int): Data {
    if 1 <= row <= |rows| && 1 <= col <= |rows[row - 1].cells| then rows[row - 1].cells[col - 1].data else Blank
  }

  /** Insertion and removal shift the map: rows before `k` stay, row `k` is empty or gone, later rows move by one. */
  lemma InsertedContent(rows: seq<Row>, k: int, col: int, row: int)
    requires Normal(rows) && k >= 1
    ensures Content(Inserted(rows, k), col, row) ==
            if row < k then Content(rows, col, row) else if row == k then Blank else Content(rows, col, row - 1)
  {
  }

  lemma RemovedContent(rows: seq<Row>, k: int, col: int, row: int)
    requires Normal(rows) && k >= 1
    ensures Content(Removed(rows, k), col, row) == Content(rows, col, if row < k then row else row + 1)
  {
  }

  // ----- hyperlinks -----

  /** The row of a cell name as it is read back; a name too far down cannot be read. */
  function ReadRow(row: int): int {
    if row <= CellName.TOTAL_ROWS then row else -1
  }

  function ShiftedRef(r: Ref, k: int, offset: int): Ref {
    if ReadRow(r.row) >= k then Ref(r.col, r.row + offset) else r
  }

  function ShiftedLinks(links: seq<Link>, k: int, offset: int): seq<Link> {
    seq(|links|, i requires 0 <= i < |links| => links[i].(ref := ShiftedRef(links[i].ref, k, offset)))
  }

  /** The links from index `i` on that are not in row `k`. */
  ghost function LinksFrom(links: seq<Link>, k: int, i: nat): seq<Link>
    requires i <= |links|
    decreases |links| - i
  {
    if i == |links| then []
    else (if ReadRow(links[i].ref.row) == k then [] else [links[i]]) + LinksFrom(links, k, i + 1)
  }

  ghost function AdjustedLinks(links: seq<Link>, k: int, offset: int): seq<Link> {
    ShiftedLinks(if offset < 0 then LinksFrom(links, k, 0) else links, k, offset)
  }

  // ----- merged regions -----

  /** Can the name of the region be read? */
  predicate Readable(r: Merge.Rect) {
    r.y1 <= CellName.TOTAL_ROWS && r.y2 <= CellName.TOTAL_ROWS
  }

  /** `adjustMergeCellsHelper`. */
  function AdjustPivot(pivot: int, k: int, offset: int): int {
    if pivot >= k then (if pivot + offset < 1 then 1 else pivot + offset) else pivot
  }

  function ShiftedRect(r: Merge.Rect, k: int, offset: int): Merge.Rect {
    Merge.Rect(r.x1, AdjustPivot(r.y1, k, offset), r.x2, AdjustPivot(r.y2, k, offset))
  }

  predicate InRow(r: Merge.Rect, k: int) {
    r.y1 == k && r.y2 == k
  }

  predicate Single(r: Merge.Rect) {
    r.x1 == r.x2 && r.y1 == r.y2
  }

  datatype Outcome = Done(rects: seq<Merge.Rect>) | Unreadable(rects: seq<Merge.Rect>) | Panic

  /** `adjustMergeCells`, having come past `before`: a single cell in a removed row is deleted twice, the second time
      it is the region before it that goes. */
  ghost function AdjustRects(before: seq<Merge.Rect>, rects: seq<Merge.Rect>, k: int, offset: int): Outcome
    decreases |rects|
  {
    if rects == [] then Done(before)
    else
      var r := rects[0];
      var now := ShiftedRect(r, k, offset);
      if !Readable(r) then Unreadable(before + rects)
      else if InRow(r, k) && offset < 0 then
        if !Single(now) then AdjustRects(before, rects[1..], k, offset)
        else if before == [] then Panic
        else AdjustRects(before[..|before| - 1], rects[1..], k, offset)
      else if Single(now) then AdjustRects(before, rects[1..], k, offset)
      else AdjustRects(before + [now], rects[1..], k, offset)
  }

  // ----- the calculation chain -----

  /** The chain with its first `n` entries adjusted. */
  function ShiftedChain(chain: seq<Ref>, k: int, offset: int, n: nat): seq<Ref>
    requires n <= |chain|
  {
    seq(|chain|, i requires 0 <= i < |chain| =>
      if i < n && k <= chain[i].row && chain[i].row + offset > 0 then Ref(chain[i].col, chain[i].row + offset) else chain[i])
  }

  /** The number of entries before the first that cannot be read. */
  ghost function ReadableTo(chain: seq<Ref>, n: nat): (m: nat)
    requires n <= |chain|
    ensures n <= m <= |chain|
    decreases |chain| - n
  {
    if n == |chain| || chain[n].row > CellName.TOTAL_ROWS then n else ReadableTo(chain, n + 1)
  }

  // ----- worksheets -----

  datatype Sheet = Sheet(rows: seq<Row>, links: seq<Link>, merges: seq<Merge.Rect>, chain: seq<Ref>)

  datatype Result = Edited(sheet: Sheet) | Failed(sheet: Sheet) | Panicked

  /** The rows after both checks; `None` if one of them panics.  An error of the second is not reported. */
  ghost function Normalised(rows: seq<Row>): Option<seq<Row>> {
    if !Numbered(rows) then None
    else
      match RowsChecked(CheckedSheet(rows), 0)
      case OutOfRange => None
      case Checked(out) => Some(out)
      case Stopped(out) => Some(out)
  }

  /** `adjustHelper` on the rows `rows`. */
  ghost function Adjusted(s: Sheet, rows: seq<Row>, k: int, offset: int): Result {
    var links := AdjustedLinks(s.links, k, offset);
    var m := ReadableTo(s.chain, 0);
    var shifted := ShiftedRows(rows, k, offset);
    match AdjustRects([], s.merges, k, offset)
    case Panic => Panicked
    case Unreadable(rects) => Failed(Sheet(shifted, links, rects, s.chain))
    case Done(rects) =>
      var chain := ShiftedChain(s.chain, k, offset, m);
      if m < |s.chain| then Failed(Sheet(shifted, links, rects, chain))
      else
        match Normalised(shifted)
        case None => Panicked
        case Some(after) => Edited(Sheet(after, links, rects, chain))
  }

  /** What inserting row `k` comes to, and removing it. */
  ghost function InsertStep(s: Sheet, k: int): Result {
    Adjusted(s, s.rows, k, 1)
  }

  ghost function RemoveStep(s: Sheet, k: int): Result {
    Adjusted(s, if k > |s.rows| then s.rows else Without(s.rows, k, |s.rows|), k, -1)
  }

  class Worksheet {
    var rows: seq<Row>
    var links: seq<Link>
    var merges: seq<Merge.Rect>
    var chain: seq<Ref>

    constructor (s: Sheet)
      ensures State() == s
    {
      rows, links, merges, chain := s.rows, s.links, s.merges, s.chain;
    }

    ghost function State(): Sheet
      reads this
    {
      Sheet(rows, links, merges, chain)
    }

    method AdjustRowDimensions(k: int, offset: int)
      modifies this`rows
      ensures rows == ShiftedRows(old(rows), k, offset)
    {
      for i := 0 to |rows|
        invariant |rows| == |old(rows)|
        invariant forall j | 0 <= j < |rows| ::
                    rows[j] == if j < i then ShiftedRow(old(rows)[j], k, offset) else old(rows)[j]
      {
        if rows[i].num >= k && rows[i].num + offset > 0 {
          rows := rows[i := Renumbered(rows[i], rows[i].num + offset)];
        }
      }
    }

    method AdjustHyperlinks(k: int, offset: int)
      modifies this`links
      ensures links == AdjustedLinks(old(links), k, offset)
    {
      if offset < 0 {
        var i := |links| - 1;
        while i >= 0
          invariant -1 <= i < |old(links)|
          invariant links == old(links)[..i + 1] + LinksFrom(old(links), k, i + 1)
        {
          ghost var rest := LinksFrom(old(links), k, i + 1);
          assert old(links)[..i + 1] == old(links)[..i] + [old(links)[i]];
          assert links[i] == old(links)[i] && links[i + 1..] == rest && links[..i] == old(links)[..i];
          if k == ReadRow(links[i].ref.row) {
            links := links[..i] + links[i + 1..];
          } else {
            assert links == old(links)[..i] + ([old(links)[i]] + rest);
          }
          i := i - 1;
        }
        assert old(links)[..0] == [];
      }
      ghost var kept := links;
      for i := 0 to |links|
        invariant |links| == |kept|
        invariant forall j | 0 <= j < |links| :: links[j] == if j < i then ShiftedLinks(kept, k, offset)[j] else kept[j]
      {
        if ReadRow(links[i].ref.row) >= k {
          links := links[i := links[i].(ref := Ref(links[i].ref.col, links[i].ref.row + offset))];
        }
      }
    }

    method AdjustMergeCells(k: int, offset: int) returns (st: Status)
      modifies this`merges
      ensures Adjusting(st, AdjustRects([], old(merges), k, offset), merges)
    {
      ghost var all, before, todo := merges, [], merges;
      var i := 0;
      while i < |merges|
        invariant i == |before| && merges == before + todo
        invariant AdjustRects([], all, k, offset) == AdjustRects(before, todo, k, offset)
        decreases |todo|
      {
        RectAt(before, todo, i);
        var r := merges[i];
        var now := ShiftedRect(r, k, offset);
        AdjustTurn(before, todo, k, offset);
        if !Readable(r) {
          return Error;
        }
        todo := todo[1..];
        if InRow(r, k) && offset < 0 {
          merges := merges[..i] + merges[i + 1..];
          i := i - 1;
          if Single(now) {
            if i < 0 {
              return Panicking;
            }
            merges := merges[..i] + merges[i + 1..];
            before := before[..i];
            i := i - 1;
          }
        } else if Single(now) {
          merges := merges[..i] + merges[i + 1..];
          i := i - 1;
        } else {
          merges := merges[i := now];
          before := before + [now];
        }
        i := i + 1;
      }
      assert todo == [] && merges == before;
      st := Fine;
    }

    method AdjustCalcChain(k: int, offset: int) returns (ok: bool)
      modifies this`chain
      ensures var m := ReadableTo(old(chain), 0);
              ok == (m == |old(chain)|) && chain == ShiftedChain(old(chain), k, offset, m)
    {
      for i := 0 to |chain|
        invariant chain == ShiftedChain(old(chain), k, offset, i)
        invariant ReadableTo(old(chain), 0) == ReadableTo(old(chain), i)
      {
        if chain[i].row > CellName.TOTAL_ROWS {
          return false;
        }
        if k <= chain[i].row && chain[i].row + offset > 0 {
          chain := chain[i := Ref(chain[i].col, chain[i].row + offset)];
        }
      }
      ok := true;
    }

    /** `adjustHelper`, for rows. */
    method AdjustHelper(k: int, offset: int, ghost s: Sheet) returns (st: Status)
      requires s == State().(rows := s.rows)
      modifies this
      ensures Editing(st, Adjusted(s, old(rows), k, offset), State())
    {
      AdjustRowDimensions(k, offset);
      AdjustHyperlinks(k, offset);
      st := AdjustMergeCells(k, offset);
      if st != Fine {
        return;
      }
      var ok := AdjustCalcChain(k, offset);
      if !ok {
        return Error;
      }
      st := Normalise();
    }

    /** Both checks; the first panics on row numbers that are no index. */
    method Normalise() returns (st: Status)
      modifies this`rows
      ensures match Normalised(old(rows))
              case None => st == Panicking
              case Some(after) => st == Fine && rows == after
    {
      if !Numbered(rows) {
        return Panicking;
      }
      rows := CheckSheet(rows);
      var r := CheckRow(rows);
      if r.OutOfRange? {
        return Panicking;
      }
      rows := r.value;
      st := Fine;
    }

    method InsertRow(k: int) returns (st: Status)
      modifies this
      ensures k < 1 ==> st == Error && State() == old(State())
      ensures k >= 1 ==> Editing(st, InsertStep(old(State()), k), State())
    {
      if k < 1 {
        return Error;
      }
      st := AdjustHelper(k, 1, State());
    }

    method RemoveRow(k: int) returns (st: Status)
      modifies this
      ensures k < 1 ==> st == Error && State() == old(State())
      ensures k >= 1 ==> Editing(st, RemoveStep(old(State()), k), State())
    {
      if k < 1 {
        return Error;
      }
      ghost var s := State();
      if k <= |rows| {
        DropRow(k);
      }
      st := AdjustHelper(k, -1, s);
    }

    /** The rows that stay move to the front of the list. */
    method DropRow(k: int)
      modifies this`rows
      ensures rows == Without(old(rows), k, |old(rows)|)
    {
      ghost var all := rows;
      var list := rows;
      var keep: nat, i: nat := 0, 0;
      while i < |list|
        invariant Compacted(all, list, k, i, keep) && |list| == |all|
        decreases |all| - i
      {
        CompactedAt(all, list, k, i, keep);
        var v := list[i];
        if v.num == k {
          CompactSkips(all, list, k, i, keep);
        } else {
          CompactMoves(all, list, k, i, keep);
          list := list[keep := v];
          keep := keep + 1;
        }
        i := i + 1;
      }
      CompactEnds(all, list, k, i, keep);
      rows := list[..keep];
    }
  }

  /** The `keep` rows that stay among the first `i` are at the front, behind them the list is as it was. */
  ghost predicate Compacted(all: seq<Row>, rows: seq<Row>, k: int, i: nat, keep: nat) {
    i <= |all| && keep == |Without(all, k, i)| && rows == Without(all, k, i) + all[keep..]
  }

  lemma CompactedAt(all: seq<Row>, rows: seq<Row>, k: int, i: nat, keep: nat)
    requires Compacted(all, rows, k, i, keep) && i < |all|
    ensures keep <= i < |rows| && rows[i] == all[i]
  {
  }

  lemma CompactMoves(all: seq<Row>, rows: seq<Row>, k: int, i: nat, keep: nat)
    requires Compacted(all, rows, k, i, keep) && i < |all| && all[i].num != k
    ensures keep < |rows| && Compacted(all, rows[keep := all[i]], k, i + 1, keep + 1)
  {
    var kept := Without(all, k, i);
    assert rows[keep := all[i]] == kept + [all[i]] + all[keep + 1..];
  }

  lemma CompactSkips(all: seq<Row>, rows: seq<Row>, k: int, i: nat, keep: nat)
    requires Compacted(all, rows, k, i, keep) && i < |all| && all[i].num == k
    ensures Compacted(all, rows, k, i + 1, keep)
  {
    assert Without(all, k, i) + [] == Without(all, k, i);
  }

  lemma CompactEnds(all: seq<Row>, rows: seq<Row>, k: int, i: nat, keep: nat)
    requires Compacted(all, rows, k, i, keep) && i == |all|
    ensures keep <= |rows| && rows[..keep] == Without(all, k, |all|)
  {
  }

  datatype Status = Fine | Error | Panicking

  /** How `adjustMergeCells` ends. */
  ghost predicate Adjusting(st: Status, o: Outcome, rects: seq<Merge.Rect>) {
    match o
    case Done(rs) => st == Fine && rects == rs
    case Unreadable(rs) => st == Error && rects == rs
    case Panic => st == Panicking
  }

  /** How an edit ends. */
  ghost predicate Editing(st: Status, r: Result, s: Sheet) {
    match r
    case Edited(t) => st == Fine && s == t
    case Failed(t) => st == Error && s == t
    case Panicked => st == Panicking
  }

  lemma RectAt(before: seq<Merge.Rect>, todo: seq<Merge.Rect>, i: int)
    requires i == |before| < |before + todo|
    ensures todo != [] && (before + todo)[i] == todo[0]
    ensures (before + todo)[..i] + (before + todo)[i + 1..] == before + todo[1..]
    ensures i > 0 ==> (before + todo[1..])[..i - 1] + (before + todo[1..])[i..] == before[..i - 1] + todo[1..]
    ensures forall now :: (before + todo)[i := now] == before + [now] + todo[1..]
  {
  }

  /** One turn of the loop over the merged regions. */
  lemma AdjustTurn(before: seq<Merge.Rect>, rects: seq<Merge.Rect>, k: int, offset: int)
    requires rects != []
    ensures var r, now := rects[0], ShiftedRect(rects[0], k, offset);
            AdjustRects(before, rects, k, offset) ==
            if !Readable(r) then Unreadable(before + rects)
            else if InRow(r, k) && offset < 0 then
              if !Single(now) then AdjustRects(before, rects[1..], k, offset)
              else if before == [] then Panic
              else AdjustRects(before[..|before| - 1], rects[1..], k, offset)
            else if Single(now) then AdjustRects(before, rects[1..], k, offset)
            else AdjustRects(before + [now], rects[1..], k, offset)
  {
  }

  // ----- inserting and removing -----

  /** The name in row `y` moves below the row limit when row `k` is inserted: nothing reads it back. */
  predicate FallsOff(y: int, k: int) {
    y == CellName.TOTAL_ROWS && y >= k
  }

  ghost predicate LinksStay(links: seq<Link>, k: int) {
    forall i | 0 <= i < |links| :: !FallsOff(links[i].ref.row, k)
  }

  ghost predicate AllReadable(rects: seq<Merge.Rect>) {
    forall i | 0 <= i < |rects| :: Readable(rects[i])
  }

  predicate RectStays(r: Merge.Rect, k: int) {
    Readable(r) && !FallsOff(r.y1, k) && !FallsOff(r.y2, k)
  }

  ghost predicate RectsStay(rects: seq<Merge.Rect>, k: int) {
    forall i | 0 <= i < |rects| :: RectStays(rects[i], k)
  }

  ghost predicate NoSingles(rects: seq<Merge.Rect>) {
    forall i | 0 <= i < |rects| :: !Single(rects[i])
  }

  ghost predicate ChainReads(chain: seq<Ref>) {
    forall i | 0 <= i < |chain| :: chain[i].row <= CellName.TOTAL_ROWS
  }

  ghost predicate ChainStays(chain: seq<Ref>, k: int) {
    forall i | 0 <= i < |chain| :: chain[i].row <= CellName.TOTAL_ROWS && !FallsOff(chain[i].row, k)
  }

  /** The regions that have more than one cell, and those moved. */
  ghost function Many(rects: seq<Merge.Rect>): seq<Merge.Rect> {
    if rects == [] then [] else (if Single(rects[0]) then [] else [rects[0]]) + Many(rects[1..])
  }

  ghost function Moved(rects: seq<Merge.Rect>, k: int, offset: int): seq<Merge.Rect> {
    if rects == [] then [] else [ShiftedRect(rects[0], k, offset)] + Moved(rects[1..], k, offset)
  }

  lemma MovedCons(r: Merge.Rect, rects: seq<Merge.Rect>, k: int, offset: int)
    ensures Moved([r] + rects, k, offset) == [ShiftedRect(r, k, offset)] + Moved(rects, k, offset)
    ensures Many([r] + rects) == (if Single(r) then [] else [r]) + Many(rects)
  {
    assert ([r] + rects)[1..] == rects;
  }

  lemma Joined<T>(a: seq<T>, b: seq<T>, c: seq<T>)
    ensures a + b + c == a + (b + c) && [] + a == a && a + [] == a
  {
  }

  /** An insertion moves the regions, except those with a single cell, which it drops, if all can be read. */
  lemma {:induction false} InsertRects(before: seq<Merge.Rect>, rects: seq<Merge.Rect>, k: int)
    requires k >= 1
    ensures AllReadable(rects) ==> AdjustRects(before, rects, k, 1) == Done(before + Moved(Many(rects), k, 1))
    ensures !AllReadable(rects) ==> AdjustRects(before, rects, k, 1).Unreadable?
    decreases |rects|
  {
    AdjustCases(before, rects, k, 1);
    if rects == [] {
      Joined(before, [], []);
    } else {
      var r, rest, now := rects[0], rects[1..], ShiftedRect(rects[0], k, 1);
      assert Single(now) == Single(r);
      InsertRects(if Single(r) then before else before + [now], rest, k);
      MovedCons(r, Many(rest), k, 1);
      Joined(before, [now], Moved(Many(rest), k, 1));
      Joined(Many(rest), [], []);
    }
  }

  lemma AdjustCases(before: seq<Merge.Rect>, rects: seq<Merge.Rect>, k: int, offset: int)
    ensures rects == [] ==> AdjustRects(before, rects, k, offset) == Done(before) && AllReadable(rects)
    ensures rects != [] ==> (AllReadable(rects) <==> Readable(rects[0]) && AllReadable(rects[1..]))
  {
    if rects != [] {
      assert rects == [rects[0]] + rects[1..];
      assert AllReadable(rects) ==> forall i | 0 <= i < |rects| - 1 :: rects[1..][i] == rects[i + 1];
    }
  }

  /** A region into which row `k` is inserted has the cells it had, those from row `k` on moved down, and with them the
      cells of the new row exactly when it has cells above and below. */
  lemma MovedCells(r: Merge.Rect, k: int, x: int, y: int)
    requires k >= 1 && Merge.Proper(r)
    ensures Merge.CellInRef(Merge.Cell(x, y), ShiftedRect(r, k, 1)) <==>
            if y == k then r.x1 <= x <= r.x2 && r.y1 < k <= r.y2
            else Merge.CellInRef(Merge.Cell(x, if y > k then y - 1 else y), r)
  {
  }

  ghost predicate TwoCells(r: Merge.Rect) {
    exists c, d :: Merge.CellInRef(c, r) && Merge.CellInRef(d, r) && c != d
  }

  ghost predicate AllProper(rects: seq<Merge.Rect>) {
    forall i | 0 <= i < |rects| :: Merge.Proper(rects[i])
  }

  /** The regions with two different cells, in order. */
  ghost function Several(rects: seq<Merge.Rect>): seq<Merge.Rect> {
    if rects == [] then [] else (if TwoCells(rects[0]) then [rects[0]] else []) + Several(rects[1..])
  }

  lemma OneCell(r: Merge.Rect)
    requires Merge.Proper(r)
    ensures Single(r) <==> !TwoCells(r)
  {
    var c, d := Merge.Cell(r.x1, r.y1), Merge.Cell(r.x2, r.y2);
    assert Merge.CellInRef(c, r) && Merge.CellInRef(d, r);
  }

  lemma {:induction false} ManySeveral(rects: seq<Merge.Rect>)
    requires AllProper(rects)
    ensures Many(rects) == Several(rects)
  {
    if rects != [] {
      OneCell(rects[0]);
      ManySeveral(rects[1..]);
    }
  }

  /** An insertion keeps the regions with two different cells, in order, each with its cells moved; no other is left. */
  lemma InsertedRegions(rects: seq<Merge.Rect>, k: int)
    requires k >= 1 && AllReadable(rects) && AllProper(rects)
    ensures AdjustRects([], rects, k, 1) == Done(Moved(Several(rects), k, 1))
  {
    InsertRects([], rects, k);
    ManySeveral(rects);
    Joined([], Moved(Several(rects), k, 1), []);
  }

  /** The region `r`, moved down: where it is, that it can be read, and that moving it up brings it back. */
  lemma MovedBack(r: Merge.Rect, k: int)
    requires k >= 1 && Readable(r)
    ensures var now := ShiftedRect(r, k, 1);
            && (Readable(now) <==> RectStays(r, k))
            && !InRow(now, k) && ShiftedRect(now, k, -1) == r
  {
  }

  /** Removing the inserted row brings the moved regions back if they can all still be read. */
  lemma {:induction false} RemoveMoved(before: seq<Merge.Rect>, rects: seq<Merge.Rect>, k: int)
    requires k >= 1 && AllReadable(rects) && NoSingles(rects)
    ensures RectsStay(rects, k) ==> AdjustRects(before, Moved(rects, k, 1), k, -1) == Done(before + rects)
    ensures !RectsStay(rects, k) ==> AdjustRects(before, Moved(rects, k, 1), k, -1).Unreadable?
    decreases |rects|
  {
    if rects == [] {
      Joined(before, [], []);
    } else {
      var r, rest := rects[0], rects[1..];
      var now, moved := ShiftedRect(r, k, 1), Moved(rest, k, 1);
      MovedBack(r, k);
      StayCases(rects, k);
      RemoveMoved(before + [r], rest, k);
      assert ([now] + moved)[1..] == moved && ([now] + moved)[0] == now;
      AdjustTurn(before, [now] + moved, k, -1);
      Joined(before, [r], rest);
    }
  }

  lemma StayCases(rects: seq<Merge.Rect>, k: int)
    requires rects != []
    ensures rects == [rects[0]] + rects[1..]
    ensures RectsStay(rects, k) <==> RectStays(rects[0], k) && RectsStay(rects[1..], k)
    ensures AllReadable(rects) ==> Readable(rects[0]) && AllReadable(rects[1..])
    ensures NoSingles(rects) ==> !Single(rects[0]) && NoSingles(rects[1..])
  {
    assert forall i | 0 <= i < |rects| - 1 :: rects[1..][i] == rects[i + 1];
    assert forall i | 1 <= i < |rects| :: rects[i] == rects[1..][i - 1];
  }

  lemma {:induction false} ManyAll(rects: seq<Merge.Rect>)
    ensures |Many(rects)| <= |rects| && NoSingles(Many(rects))
    ensures AllReadable(rects) ==> AllReadable(Many(rects))
    ensures Many(rects) == rects <==> NoSingles(rects)
    decreases |rects|
  {
    if rects != [] {
      ManyAll(rects[1..]);
      assert rects == [rects[0]] + rects[1..];
      assert forall i | 0 <= i < |rects| - 1 :: rects[1..][i] == rects[i + 1];
      assert forall i | 1 <= i < |rects| :: rects[i] == rects[1..][i - 1];
    }
  }

  lemma {:induction false} ChainReadable(chain: seq<Ref>, n: nat)
    requires n <= |chain|
    ensures ReadableTo(chain, n) == |chain| <==> forall i | n <= i < |chain| :: chain[i].row <= CellName.TOTAL_ROWS
    decreases |chain| - n
  {
    if n < |chain| {
      ChainReadable(chain, n + 1);
    }
  }

  /** The chain, moved down: all of it can still be read, and moves back, exactly when no entry falls off. */
  lemma ChainBack(chain: seq<Ref>, k: int)
    requires k >= 1 && ChainReads(chain)
    ensures var now := ShiftedChain(chain, k, 1, |chain|);
            && (ChainReads(now) <==> ChainStays(chain, k))
            && ShiftedChain(now, k, -1, |chain|) == chain
  {
    var now := ShiftedChain(chain, k, 1, |chain|);
    forall i | 0 <= i < |chain| ensures now[i].row <= CellName.TOTAL_ROWS <==> !FallsOff(chain[i].row, k) {
    }
    assert ShiftedChain(now, k, -1, |chain|) == chain;
  }

  lemma {:induction false} LinksKept(links: seq<Link>, k: int, i: nat)
    requires i <= |links| && forall j | 0 <= j < |links| :: ReadRow(links[j].ref.row) != k
    ensures LinksFrom(links, k, i) == links[i..]
    decreases |links| - i
  {
    if i < |links| {
      LinksKept(links, k, i + 1);
    }
  }

  lemma LinksBack(links: seq<Link>, k: int)
    requires k >= 1
    ensures AdjustedLinks(ShiftedLinks(links, k, 1), k, -1) == links <==> LinksStay(links, k)
  {
    var now := ShiftedLinks(links, k, 1);
    LinksKept(now, k, 0);
    var back := ShiftedLinks(now, k, -1);
    assert now[0..] == now && AdjustedLinks(now, k, -1) == back;
    forall i | 0 <= i < |links| ensures back[i] == links[i] <==> !FallsOff(links[i].ref.row, k) {
    }
  }

  /** What insertion and removal do to everything but the rows. */
  ghost predicate Restorable(s: Sheet, k: int) {
    LinksStay(s.links, k) && RectsStay(s.merges, k) && NoSingles(s.merges) && ChainStays(s.chain, k)
  }

  /** The sheet with row `k` inserted. */
  ghost function WithRow(s: Sheet, k: int): Sheet
    requires k >= 1
  {
    Sheet(Inserted(s.rows, k), ShiftedLinks(s.links, k, 1), Moved(Many(s.merges), k, 1), ShiftedChain(s.chain, k, 1, |s.chain|))
  }

  lemma InsertEdits(s: Sheet, k: int)
    requires Normal(s.rows) && k >= 1
    ensures InsertStep(s, k) == Edited(WithRow(s, k)) <==> AllReadable(s.merges) && ChainReads(s.chain)
    ensures InsertStep(s, k).Edited? ==> InsertStep(s, k) == Edited(WithRow(s, k))
  {
    InsertRects([], s.merges, k);
    Joined(Moved(Many(s.merges), k, 1), [], []);
    ChainReadable(s.chain, 0);
    InsertNormalised(s.rows, k);
  }

  /** Removing the row again: rows and chain come back, links and regions perhaps not. */
  lemma RemoveOutcome(s: Sheet, k: int)
    requires Normal(s.rows) && k >= 1 && AllReadable(s.merges) && ChainReads(s.chain)
    ensures var one, many := WithRow(s, k), Many(s.merges);
            RemoveStep(one, k) == Edited(Sheet(s.rows, AdjustedLinks(one.links, k, -1), many, s.chain))
            <==> RectsStay(many, k) && ChainStays(s.chain, k)
    ensures RemoveStep(WithRow(s, k), k).Edited? ==> RectsStay(Many(s.merges), k) && ChainStays(s.chain, k)
  {
    var one, many := WithRow(s, k), Many(s.merges);
    ManyAll(s.merges);
    RemoveMoved([], many, k);
    Joined(many, [], []);
    ChainBack(s.chain, k);
    ChainReadable(one.chain, 0);
    RowsBack(s.rows, k);
  }

  lemma RowsBack(rows: seq<Row>, k: int)
    requires Normal(rows) && k >= 1
    ensures var one := Inserted(rows, k);
            Normalised(ShiftedRows(if k > |one| then one else Without(one, k, |one|), k, -1)) == Some(rows)
  {
    InsertedChecked(rows, k);
    RemoveNormalised(Inserted(rows, k), k);
    InsertedRemoved(rows, k);
  }

  lemma RemoveEdits(s: Sheet, k: int)
    requires Normal(s.rows) && k >= 1 && AllReadable(s.merges) && ChainReads(s.chain)
    ensures RemoveStep(WithRow(s, k), k) == Edited(s) <==> Restorable(s, k)
  {
    RemoveOutcome(s, k);
    LinksBack(s.links, k);
    ManyAll(s.merges);
  }

  /**
   Inserting row `k` and removing it again restores the sheet (rows, cell names, hyperlinks, merged regions, calculation
   chain) exactly when no merged region has a single cell, all regions and chain entries can be read, and no link,
   region or entry at or below `k` is in the last row there can be.
   */
  lemma InsertRemove(s: Sheet, k: int)
    requires Normal(s.rows) && k >= 1
    ensures InsertStep(s, k).Edited? && RemoveStep(InsertStep(s, k).sheet, k) == Edited(s) <==> Restorable(s, k)
  {
    InsertEdits(s, k);
    if AllReadable(s.merges) && ChainReads(s.chain) {
      RemoveEdits(s, k);
    }
  }
}

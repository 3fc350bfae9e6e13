/** Merged regions of a worksheet. */
module Merge {
  import opened Wrappers

  // Merging, unmerging and looking up (backend/excelize/merge.go,
  // backend/excelize/cell.go).

  datatype Cell = Cell(col: int, row: int)

  /** The top left and the bottom right corner. */
  datatype Rect = Rect(x1: int, y1: int, x2: int, y2: int)

  /** The text of a region: an area, text without two sides, or text with a side that is no cell name. */
  datatype Entry = Area(rect: Rect) | NoArea | BadArea

  function SortCoordinates(a: Cell, b: Cell): Rect {
    Rect(if b.col < a.col then b.col else a.col, if b.row < a.row then b.row else a.row,
         if b.col < a.col then a.col else b.col, if b.row < a.row then a.row else b.row)
  }

  predicate CellInRef(c: Cell, r: Rect) {
    r.x1 <= c.col <= r.x2 && r.y1 <= c.row <= r.y2
  }

  /** Is a corner of one rectangle inside the other? */
  predicate IsOverlap(a: Rect, b: Rect) {
    || CellInRef(Cell(a.x1, a.y1), b) || CellInRef(Cell(a.x2, a.y1), b)
    || CellInRef(Cell(a.x1, a.y2), b) || CellInRef(Cell(a.x2, a.y2), b)
    || CellInRef(Cell(b.x1, b.y1), a) || CellInRef(Cell(b.x2, b.y1), a)
    || CellInRef(Cell(b.x1, b.y2), a) || CellInRef(Cell(b.x2, b.y2), a)
  }

  // ----- what the corner test means -----

  ghost predicate Intersects(a: Rect, b: Rect) {
    exists c: Cell :: CellInRef(c, a) && CellInRef(c, b)
  }

  /** `a` sticks out of `b` on the left and on the right, and `b` out of `a` above and below. */
  predicate Crosses(a: Rect, b: Rect) {
    a.x1 < b.x1 && b.x2 < a.x2 && b.y1 < a.y1 && a.y2 < b.y2
  }

  predicate Proper(r: Rect) {
    r.x1 <= r.x2 && r.y1 <= r.y2
  }

  function Max(a: int, b: int): int {
    if a < b then b else a
  }

  function Min(a: int, b: int): int {
    if a < b then a else b
  }

  /** The corner test finds exactly the intersecting rectangles that do not form a cross. */
  lemma OverlapExact(a: Rect, b: Rect)
    requires Proper(a) && Proper(b)
    ensures IsOverlap(a, b) <==> Intersects(a, b) && !Crosses(a, b) && !Crosses(b, a)
  {
    if IsOverlap(a, b) {
      var c := Cell(Max(a.x1, b.x1), Max(a.y1, b.y1));
      assert CellInRef(c, a) && CellInRef(c, b);
    }
  }

  // ----- merging -----

  function Box(a: Rect, b: Rect): Rect {
    Rect(Min(a.x1, b.x1), Min(a.y1, b.y1), Max(a.x2, b.x2), Max(a.y2, b.y2))
  }

  /** The outcome of going through the regions: `ok` unless one of them could not be read. */
  datatype Pass = Pass(ok: bool, kept: seq<Entry>, removed: seq<Rect>, rect: Rect)

  /** A region overlapping the request is taken into it; the grown request is compared with the regions behind. */
  ghost function Absorb(es: seq<Entry>, r: Rect): Pass {
    if es == [] then Pass(true, [], [], r)
    else if !es[0].Area? then Pass(false, es, [], r)
    else if IsOverlap(r, es[0].rect) then
      var p := Absorb(es[1..], Box(r, es[0].rect));
      p.(removed := [es[0].rect] + p.removed)
    else
      var p := Absorb(es[1..], r);
      p.(kept := [es[0]] + p.kept)
  }

  /** The list after merging. */
  ghost predicate Merged(ok: bool, all: seq<Entry>, request: Rect, cells: seq<Entry>) {
    var p := Absorb(all, request);
    ok == p.ok && cells == p.kept + if ok then [Area(p.rect)] else []
  }

  /** The loop of `MergeCell`, with the list deleted from as it goes. */
  method AbsorbOverlaps(all: seq<Entry>, request: Rect) returns (ok: bool, list: seq<Entry>, rect: Rect)
    ensures Merged(ok, all, request, if ok then list + [Area(rect)] else list)
  {
    list, rect := all, request;
    ghost var k: nat, gone: seq<Rect> := 0, [];
    var i: nat := 0;
    GoingStarts(all, request);
    while i < |list|
      invariant Going(all, request, list, i, gone, k, rect)
      decreases |all| - k
    {
      var e := list[i];
      GoingAt(all, request, list, i, gone, k, rect);
      if !e.Area? {
        GoingFails(all, request, list, i, gone, k, rect);
        return false, list, rect;
      }
      if IsOverlap(rect, e.rect) {
        GoingRemoves(all, request, list, i, gone, k, rect, e.rect);
        list := list[..i] + list[i + 1..];
        gone := gone + [e.rect];
        rect := Box(rect, e.rect);
      } else {
        GoingKeeps(all, request, list, i, gone, k, rect);
        i := i + 1;
      }
      k := k + 1;
    }
    GoingAt(all, request, list, i, gone, k, rect);
    GoingEnds(all, request, list, i, gone, k, rect);
    ok := true;
  }

  class MergeCells {
    var cells: seq<Entry>
    var count: int

    constructor (cells: seq<Entry>)
      ensures this.cells == cells && count == |cells|
    {
      this.cells, count := cells, |cells|;
    }

    /** `MergeCell`, for the corners of the area in any order. */
    method MergeCell(a: Cell, b: Cell) returns (ok: bool)
      modifies this
      ensures Merged(ok, old(cells), SortCoordinates(a, b), cells)
      ensures count == if ok then |cells| else old(count)
    {
      var list, rect;
      ok, list, rect := AbsorbOverlaps(cells, SortCoordinates(a, b));
      if !ok {
        cells := list;
        return;
      }
      cells := list + [Area(rect)];
      count := |cells|;
    }

    /** `mergeCellsParser`: goes from a cell to the top left cell of the region it is in. */
    method MergeCellsParser(cell: Cell) returns (axis: Cell, ok: bool)
      ensures ok ==> Some(axis) == Anchor(cells, cell)
      ensures !ok ==> Anchor(cells, cell) == None
    {
      axis := cell;
      for i := 0 to |cells|
        invariant Anchor(cells, cell) == Anchor(cells[i..], axis)
      {
        assert cells[i..][0] == cells[i] && cells[i..][1..] == cells[i + 1..];
        if cells[i].BadArea? {
          return axis, false;
        }
        if cells[i].Area? && CellInRef(axis, cells[i].rect) {
          axis := TopLeft(cells[i].rect);
        }
      }
      return axis, true;
    }

    /** `UnmergeCell`: the regions that stay move to the front of the list. */
    method UnmergeCell(a: Cell, b: Cell) returns (ok: bool)
      modifies this
      ensures Unmerged(ok, old(cells), SortCoordinates(a, b), cells)
      ensures count == if ok then |cells| else old(count)
    {
      var r := SortCoordinates(a, b);
      ghost var all := cells;
      var i: nat, k: nat := 0, 0;
      while k < |cells|
        invariant Moved(all, r, cells, i, k) && |cells| == |all| && count == old(count)
        decreases |all| - k
      {
        var e := cells[k];
        MovedAt(all, r, cells, i, k);
        if !e.Area? {
          MovedFails(all, r, cells, i, k);
          return false;
        }
        if IsOverlap(r, e.rect) {
          MovedSkips(all, r, cells, i, k);
          k := k + 1;
          continue;
        }
        MovedMoves(all, r, cells, i, k);
        cells := cells[i := e];
        i := i + 1;
        k := k + 1;
      }
      MovedAll(all, r, cells, i, k);
      cells := cells[..i];
      count := |cells|;
      return true;
    }
  }

  /** A pass with `kept` and `gone` decided before. */
  ghost function Behind(kept: seq<Entry>, gone: seq<Rect>, p: Pass): Pass {
    Pass(p.ok, kept + p.kept, gone + p.removed, p.rect)
  }

  /** The loop of `MergeCell` has looked at `k` of the regions `all` and is at index `i` of the list `cells`. */
  ghost predicate Going(all: seq<Entry>, request: Rect, cells: seq<Entry>, i: nat, gone: seq<Rect>, k: nat, rect: Rect) {
    && i <= |cells| && k <= |all| && cells[i..] == all[k..]
    && Absorb(all, request) == Behind(cells[..i], gone, Absorb(all[k..], rect))
  }

  lemma GoingStarts(all: seq<Entry>, request: Rect)
    ensures Going(all, request, all, 0, [], 0, request)
  {
    var p := Absorb(all, request);
    assert all[0..] == all && [] + p.kept == p.kept && [] + p.removed == p.removed;
  }

  lemma GoingAt(all: seq<Entry>, request: Rect, cells: seq<Entry>, i: nat, gone: seq<Rect>, k: nat, rect: Rect)
    requires Going(all, request, cells, i, gone, k, rect)
    ensures i <= |cells| && (i < |cells| ==> k < |all|)
  {
    assert |cells[i..]| == |all[k..]|;
  }

  lemma GoingFails(all: seq<Entry>, request: Rect, cells: seq<Entry>, i: nat, gone: seq<Rect>, k: nat, rect: Rect)
    requires Going(all, request, cells, i, gone, k, rect) && i < |cells| && !cells[i].Area?
    ensures Merged(false, all, request, cells)
  {
    assert all[k..][0] == cells[i];
    assert cells == cells[..i] + cells[i..];
    Units(cells, []);
  }

  lemma GoingEnds(all: seq<Entry>, request: Rect, cells: seq<Entry>, i: nat, gone: seq<Rect>, k: nat, rect: Rect)
    requires Going(all, request, cells, i, gone, k, rect) && i == |cells|
    ensures Merged(true, all, request, cells + [Area(rect)])
  {
    assert all[k..] == [] && cells[..i] == cells;
    Units(cells, gone);
  }

  lemma Units(a: seq<Entry>, b: seq<Rect>)
    ensures a + [] == a && b + [] == b
  {
  }

  lemma Next<T>(a: seq<T>, i: nat, b: seq<T>, k: nat)
    requires i < |a| && k <= |b| && a[i..] == b[k..]
    ensures k < |b| && b[k] == a[i] && b[k..][0] == a[i] && b[k..][1..] == b[k + 1..] && a[i + 1..] == b[k + 1..]
    ensures (a[..i] + a[i + 1..])[..i] == a[..i] && (a[..i] + a[i + 1..])[i..] == a[i + 1..]
    ensures a[..i + 1] == a[..i] + [a[i]]
  {
    assert a[i..][0] == a[i] && a[i..][1..] == a[i + 1..];
  }

  lemma GoingRemoves(all: seq<Entry>, request: Rect, cells: seq<Entry>, i: nat, gone: seq<Rect>, k: nat, rect: Rect,
                     q: Rect)
    requires Going(all, request, cells, i, gone, k, rect) && i < |cells| && cells[i] == Area(q) && IsOverlap(rect, q)
    ensures Going(all, request, cells[..i] + cells[i + 1..], i, gone + [q], k + 1, Box(rect, q))
  {
    Next(cells, i, all, k);
    BehindRemoved(cells[..i], gone, Absorb(all[k + 1..], Box(rect, q)), q);
  }

  lemma GoingKeeps(all: seq<Entry>, request: Rect, cells: seq<Entry>, i: nat, gone: seq<Rect>, k: nat, rect: Rect)
    requires Going(all, request, cells, i, gone, k, rect) && i < |cells| && cells[i].Area?
    requires !IsOverlap(rect, cells[i].rect)
    ensures Going(all, request, cells, i + 1, gone, k + 1, rect)
  {
    Next(cells, i, all, k);
    BehindKept(cells[..i], gone, Absorb(all[k + 1..], rect), cells[i]);
  }

  lemma BehindRemoved(kept: seq<Entry>, gone: seq<Rect>, p: Pass, q: Rect)
    ensures Behind(kept, gone, p.(removed := [q] + p.removed)) == Behind(kept, gone + [q], p)
  {
    assert gone + ([q] + p.removed) == gone + [q] + p.removed;
  }

  lemma BehindKept(kept: seq<Entry>, gone: seq<Rect>, p: Pass, e: Entry)
    ensures Behind(kept, gone, p.(kept := [e] + p.kept)) == Behind(kept + [e], gone, p)
  {
    assert kept + ([e] + p.kept) == kept + [e] + p.kept;
  }

  /** The regions among the first `k` that do not overlap `r`. */
  ghost function Apart(es: seq<Entry>, r: Rect, k: nat): (kept: seq<Entry>)
    requires k <= |es|
    ensures |kept| <= k
  {
    if k == 0 then [] else
    var e := es[k - 1];
    if e.Area? && IsOverlap(r, e.rect) then Apart(es, r, k - 1) else Apart(es, r, k - 1) + [e]
  }

  ghost predicate Readable(es: seq<Entry>, k: nat)
    requires k <= |es|
  {
    forall j | 0 <= j < k :: es[j].Area?
  }

  /** The `i` regions that stay among the first `k` are at the front, behind them the list is as it was. */
  ghost predicate Moved(all: seq<Entry>, r: Rect, cells: seq<Entry>, i: nat, k: nat) {
    && k <= |all| && Readable(all, k) && i == |Apart(all, r, k)|
    && cells == Apart(all, r, k) + all[i..]
  }

  /** What `UnmergeCell` leaves behind; when it fails, the regions that stay have been moved over the ones before. */
  ghost predicate Unmerged(ok: bool, all: seq<Entry>, r: Rect, cells: seq<Entry>) {
    if ok then Readable(all, |all|) && cells == Apart(all, r, |all|)
    else exists i, k | 0 <= i <= k < |all| :: !all[k].Area? && Moved(all, r, cells, i, k)
  }

  lemma MovedAt(all: seq<Entry>, r: Rect, cells: seq<Entry>, i: nat, k: nat)
    requires Moved(all, r, cells, i, k)
    ensures i <= k && |cells| == |all| && (k < |all| ==> cells[k] == all[k])
  {
  }

  lemma MovedFails(all: seq<Entry>, r: Rect, cells: seq<Entry>, i: nat, k: nat)
    requires Moved(all, r, cells, i, k) && k < |all| && !all[k].Area?
    ensures Unmerged(false, all, r, cells)
  {
  }

  lemma MovedSkips(all: seq<Entry>, r: Rect, cells: seq<Entry>, i: nat, k: nat)
    requires Moved(all, r, cells, i, k) && k < |all| && all[k].Area? && IsOverlap(r, all[k].rect)
    ensures Moved(all, r, cells, i, k + 1)
  {
  }

  lemma MovedMoves(all: seq<Entry>, r: Rect, cells: seq<Entry>, i: nat, k: nat)
    requires Moved(all, r, cells, i, k) && k < |all| && all[k].Area? && !IsOverlap(r, all[k].rect)
    ensures i < |cells| && Moved(all, r, cells[i := all[k]], i + 1, k + 1)
  {
    var kept := Apart(all, r, k);
    assert (kept + all[|kept|..])[|kept| := all[k]] == kept + [all[k]] + all[|kept| + 1..];
  }

  lemma MovedAll(all: seq<Entry>, r: Rect, cells: seq<Entry>, i: nat, k: nat)
    requires Moved(all, r, cells, i, k) && k == |all|
    ensures i <= |cells| && Unmerged(true, all, r, cells[..i])
  {
  }

  // ----- from a cell to its region -----

  function TopLeft(r: Rect): Cell {
    Cell(r.x1, r.y1)
  }

  /** Each region that contains the cell at hand passes on its top left cell. */
  ghost function Anchor(es: seq<Entry>, c: Cell): Option<Cell> {
    if es == [] then Some(c)
    else if es[0].BadArea? then None
    else Anchor(es[1..], if es[0].Area? && CellInRef(c, es[0].rect) then TopLeft(es[0].rect) else c)
  }

  ghost predicate Disjoint(es: seq<Entry>) {
    forall i, j, c: Cell | 0 <= i < j < |es| && es[i].Area? && es[j].Area? ::
      !(CellInRef(c, es[i].rect) && CellInRef(c, es[j].rect))
  }

  lemma {:induction false} AnchorOutside(es: seq<Entry>, c: Cell)
    requires (forall i | 0 <= i < |es| :: !es[i].BadArea?) && !Covers(es, c)
    ensures Anchor(es, c) == Some(c)
    decreases |es|
  {
    if es != [] {
      Uncovered(es, c);
      AnchorOutside(es[1..], c);
    }
  }

  lemma Uncovered(es: seq<Entry>, c: Cell)
    requires es != [] && !Covers(es, c)
    ensures !Covers(es[1..], c) && !(es[0].Area? && CellInRef(c, es[0].rect))
  {
    forall j | 0 <= j < |es[1..]| && es[1..][j].Area? ensures !CellInRef(c, es[1..][j].rect) {
      assert es[1..][j] == es[j + 1];
    }
  }

  /** In disjoint regions a cell is taken to the top left cell of the one region it is in. */
  lemma {:induction false} AnchorIs(es: seq<Entry>, c: Cell, k: nat)
    requires (forall i | 0 <= i < |es| :: !es[i].BadArea?) && Disjoint(es)
    requires k < |es| && es[k].Area? && CellInRef(c, es[k].rect)
    ensures Anchor(es, c) == Some(TopLeft(es[k].rect))
    decreases |es|
  {
    if k == 0 {
      var t := TopLeft(es[0].rect);
      assert CellInRef(t, es[0].rect);
      forall j | 0 <= j < |es[1..]| && es[1..][j].Area? ensures !CellInRef(t, es[1..][j].rect) {
        assert es[1..][j] == es[j + 1];
      }
      AnchorOutside(es[1..], t);
    } else {
      assert es[0].Area? ==> !CellInRef(c, es[0].rect);
      forall i, j, d: Cell | 0 <= i < j < |es[1..]| && es[1..][i].Area? && es[1..][j].Area?
        ensures !(CellInRef(d, es[1..][i].rect) && CellInRef(d, es[1..][j].rect))
      {
        assert es[1..][i] == es[i + 1] && es[1..][j] == es[j + 1];
      }
      AnchorIs(es[1..], c, k - 1);
    }
  }

  // ----- what unmerging does -----

  /** Exactly the regions that overlap the area go, and they leave the others in order. */
  lemma {:induction false} ApartParts(es: seq<Entry>, r: Rect, k: nat, e: Entry)
    requires k <= |es|
    ensures e in Apart(es, r, k) <==> e in es[..k] && !(e.Area? && IsOverlap(r, e.rect))
    decreases k
  {
    if k > 0 {
      ApartParts(es, r, k - 1, e);
      assert es[..k] == es[..k - 1] + [es[k - 1]];
    }
  }

  predicate Overlaps(e: Entry, r: Rect) {
    e.Area? && IsOverlap(r, e.rect)
  }

  /** Among the first `k` regions all that overlap the area come behind those that do not. */
  predicate OverlapsLast(es: seq<Entry>, r: Rect, k: nat)
    requires k <= |es|
  {
    forall j, m | 0 <= j < m < k :: Overlaps(es[j], r) ==> Overlaps(es[m], r)
  }

  lemma {:induction false} ApartLong(es: seq<Entry>, r: Rect, n: nat, k: nat)
    requires n <= k <= |es| && forall j | 0 <= j < n :: !Overlaps(es[j], r)
    ensures |Apart(es, r, k)| >= n && Apart(es, r, n) == es[..n]
    decreases k
  {
    if k > 0 {
      ApartLong(es, r, if n == k then n - 1 else n, k - 1);
    }
  }

  lemma ApartClear(es: seq<Entry>, r: Rect, k: nat, j: nat)
    requires k <= |es| && j < |Apart(es, r, k)|
    ensures !Overlaps(Apart(es, r, k)[j], r)
  {
    ApartParts(es, r, k, Apart(es, r, k)[j]);
  }

  /** The regions that stay are already at the front exactly then. */
  lemma {:induction false} ApartFront(es: seq<Entry>, r: Rect, k: nat)
    requires k <= |es|
    ensures |Apart(es, r, k)| <= k && (Apart(es, r, k) == es[..|Apart(es, r, k)|] <==> OverlapsLast(es, r, k))
    decreases k
  {
    if k > 0 {
      ApartFront(es, r, k - 1);
      if !Overlaps(es[k - 1], r) {
        FrontNext(es, r, k - 1);
      }
    }
  }

  lemma FrontNext(es: seq<Entry>, r: Rect, k: nat)
    requires k < |es| && !Overlaps(es[k], r) && |Apart(es, r, k)| <= k
    ensures Apart(es, r, k + 1) == es[..|Apart(es, r, k)| + 1] <==> OverlapsLast(es, r, k + 1)
  {
    var i := |Apart(es, r, k)|;
    if forall j | 0 <= j < k :: !Overlaps(es[j], r) {
      ApartLong(es, r, k, k);
      ApartLong(es, r, k + 1, k + 1);
    } else if Apart(es, r, k + 1) == es[..i + 1] {
      forall j | 0 <= j <= i ensures !Overlaps(es[j], r) {
        ApartClear(es, r, k + 1, j);
        assert es[..i + 1][j] == es[j];
      }
      ApartLong(es, r, if i < k then i + 1 else k, k);
    }
  }

  /** The first region that cannot be read. */
  function FirstUnreadable(es: seq<Entry>, k: nat): (n: nat)
    requires k <= |es|
    ensures k <= n <= |es|
    decreases |es| - k
  {
    if k == |es| || !es[k].Area? then k else FirstUnreadable(es, k + 1)
  }

  lemma {:induction false} FirstIs(es: seq<Entry>, k: nat, n: nat)
    requires k <= n < |es| && !es[n].Area? && forall j | k <= j < n :: es[j].Area?
    ensures FirstUnreadable(es, k) == n
    decreases n - k
  {
    if k < n {
      FirstIs(es, k + 1, n);
    }
  }

  /** An unmerge that fails leaves the list as it was exactly when, before the first unreadable region, all that overlap
      the area come behind those that do not. */
  lemma FailedUnmerge(all: seq<Entry>, r: Rect, cells: seq<Entry>)
    requires Unmerged(false, all, r, cells)
    ensures FirstUnreadable(all, 0) < |all|
    ensures cells == all <==> OverlapsLast(all, r, FirstUnreadable(all, 0))
  {
    var i, k :| 0 <= i <= k < |all| && !all[k].Area? && Moved(all, r, cells, i, k);
    FirstIs(all, 0, k);
    ApartFront(all, r, k);
    assert all == all[..i] + all[i..];
    if cells == all {
      assert cells[..i] == Apart(all, r, k);
    }
  }

  /** A failure that changes nothing although a region overlaps, and one that overwrites it by the region behind it. */
  lemma UnmergeFailures(cells: seq<Entry>, others: seq<Entry>)
    requires Unmerged(false, [Area(Rect(1, 1, 2, 2)), BadArea], Rect(2, 2, 3, 3), cells)
    requires Unmerged(false, [Area(Rect(1, 1, 2, 2)), Area(Rect(7, 7, 8, 8)), BadArea], Rect(2, 2, 3, 3), others)
    ensures cells == [Area(Rect(1, 1, 2, 2)), BadArea]
    ensures others == [Area(Rect(7, 7, 8, 8)), Area(Rect(7, 7, 8, 8)), BadArea]
  {
    var x, y, r := Area(Rect(1, 1, 2, 2)), Area(Rect(7, 7, 8, 8)), Rect(2, 2, 3, 3);
    var es, fs := [x, BadArea], [x, y, BadArea];
    FirstIs(es, 0, 1);
    FailedUnmerge(es, r, cells);
    var i, k :| 0 <= i <= k < |fs| && !fs[k].Area? && Moved(fs, r, others, i, k);
    assert k == 2;
    assert Apart(fs, r, 0) == [] && Apart(fs, r, 1) == [] && Apart(fs, r, 2) == [y];
    assert others == [y] + fs[1..];
  }

  /** A region that still has a cell of the area in it forms a cross with the area. */
  lemma UnmergedCross(es: seq<Entry>, r: Rect, e: Entry)
    requires e.Area? && e in Apart(es, r, |es|) && Proper(r) && Proper(e.rect)
    ensures Intersects(r, e.rect) <==> Crosses(r, e.rect) || Crosses(e.rect, r)
  {
    ApartParts(es, r, |es|, e);
    OverlapExact(r, e.rect);
    var c := Cell(Max(r.x1, e.rect.x1), Max(r.y1, e.rect.y1));
    assert Crosses(r, e.rect) || Crosses(e.rect, r) ==> CellInRef(c, r) && CellInRef(c, e.rect);
  }

  // ----- what merging does -----

  predicate Covers(es: seq<Entry>, c: Cell) {
    exists i | 0 <= i < |es| :: es[i].Area? && CellInRef(c, es[i].rect)
  }

  /** `es` is made of `kept` and the areas `removed`, each in order. */
  ghost predicate Interleaves(es: seq<Entry>, kept: seq<Entry>, removed: seq<Rect>) {
    if es == [] then kept == [] && removed == []
    else
      || (kept != [] && es[0] == kept[0] && Interleaves(es[1..], kept[1..], removed))
      || (removed != [] && es[0] == Area(removed[0]) && Interleaves(es[1..], kept, removed[1..]))
  }

  predicate Inside(a: Rect, b: Rect) {
    b.x1 <= a.x1 && b.y1 <= a.y1 && a.x2 <= b.x2 && a.y2 <= b.y2
  }

  /** The least rectangle around the request and the removed areas. */
  ghost predicate LeastAround(box: Rect, request: Rect, removed: seq<Rect>) {
    && Inside(request, box) && (forall i | 0 <= i < |removed| :: Inside(removed[i], box))
    && (forall b: Rect :: Inside(request, b) && (forall i | 0 <= i < |removed| :: Inside(removed[i], b)) ==> Inside(box, b))
  }

  /** Which regions go, in which order the others stay, and what the new region is. */
  lemma {:induction false} AbsorbParts(es: seq<Entry>, r: Rect)
    ensures var p := Absorb(es, r);
            Interleaves(es, p.kept, p.removed) && LeastAround(p.rect, r, p.removed)
    decreases |es|
  {
    if es != [] && es[0].Area? {
      var q := es[0].rect;
      if IsOverlap(r, q) {
        var p := Absorb(es[1..], Box(r, q));
        AbsorbParts(es[1..], Box(r, q));
        LeastMore(p.rect, r, q, p.removed);
        assert ([q] + p.removed)[1..] == p.removed;
      } else {
        var p := Absorb(es[1..], r);
        AbsorbParts(es[1..], r);
        assert ([es[0]] + p.kept)[1..] == p.kept;
      }
    } else {
      AllKept(es);
    }
  }

  lemma {:induction false} AllKept(es: seq<Entry>)
    ensures Interleaves(es, es, [])
    decreases |es|
  {
    if es != [] {
      AllKept(es[1..]);
    }
  }

  lemma LeastMore(box: Rect, r: Rect, q: Rect, removed: seq<Rect>)
    requires LeastAround(box, Box(r, q), removed)
    ensures LeastAround(box, r, [q] + removed)
  {
    var all := [q] + removed;
    forall b: Rect | Inside(r, b) && (forall i | 0 <= i < |all| :: Inside(all[i], b))
      ensures Inside(box, b)
    {
      assert Inside(all[0], b);
      forall i | 0 <= i < |removed| ensures Inside(removed[i], b) {
        assert Inside(all[i + 1], b);
      }
    }
  }

  lemma {:induction false} InterleavedCover(es: seq<Entry>, kept: seq<Entry>, removed: seq<Rect>, c: Cell)
    requires Interleaves(es, kept, removed) && Covers(es, c)
    ensures Covers(kept, c) || exists i | 0 <= i < |removed| :: CellInRef(c, removed[i])
    decreases |es|
  {
    var k :| 0 <= k < |es| && es[k].Area? && CellInRef(c, es[k].rect);
    if kept != [] && es[0] == kept[0] && Interleaves(es[1..], kept[1..], removed) {
      if k > 0 {
        assert es[1..][k - 1] == es[k];
        InterleavedCover(es[1..], kept[1..], removed, c);
        if Covers(kept[1..], c) {
          var j :| 0 <= j < |kept[1..]| && kept[1..][j].Area? && CellInRef(c, kept[1..][j].rect);
          assert kept[j + 1] == kept[1..][j];
        }
      }
    } else if k == 0 {
      assert removed[0] == es[0].rect;
    } else {
      assert es[1..][k - 1] == es[k];
      InterleavedCover(es[1..], kept, removed[1..], c);
      if !Covers(kept, c) {
        var j :| 0 <= j < |removed[1..]| && CellInRef(c, removed[1..][j]);
        assert removed[j + 1] == removed[1..][j];
      }
    }
  }

  /** After a merge every cell of the request and every cell that was covered before is covered. */
  lemma MergeCovers(es: seq<Entry>, r: Rect, c: Cell)
    requires Absorb(es, r).ok && (Covers(es, c) || CellInRef(c, r))
    ensures var p := Absorb(es, r); Covers(p.kept + [Area(p.rect)], c)
  {
    var p := Absorb(es, r);
    var all := p.kept + [Area(p.rect)];
    AbsorbParts(es, r);
    assert all[|p.kept|] == Area(p.rect);
    if Covers(es, c) {
      InterleavedCover(es, p.kept, p.removed, c);
      if Covers(p.kept, c) {
        var j :| 0 <= j < |p.kept| && p.kept[j].Area? && CellInRef(c, p.kept[j].rect);
        assert all[j] == p.kept[j];
      }
    }
  }

  /** No region before the first unreadable one overlaps the request. */
  predicate Clear(es: seq<Entry>, r: Rect) {
    es == [] || !es[0].Area? || (!IsOverlap(r, es[0].rect) && Clear(es[1..], r))
  }

  lemma {:induction false} ClearExact(es: seq<Entry>, r: Rect)
    ensures Absorb(es, r).removed == [] <==> Clear(es, r)
    decreases |es|
  {
    if es != [] && es[0].Area? && !IsOverlap(r, es[0].rect) {
      ClearExact(es[1..], r);
    }
  }

  predicate AllAreas(es: seq<Entry>) {
    forall i | 0 <= i < |es| :: es[i].Area?
  }

  /** A merge fails exactly when the list has an unreadable region.  The list then is as it was exactly when no region
      before the first unreadable one overlaps the request. */
  lemma {:induction false} FailedMerge(es: seq<Entry>, r: Rect)
    ensures Absorb(es, r).ok <==> AllAreas(es)
    ensures !Absorb(es, r).ok ==> (Absorb(es, r).kept == es <==> Clear(es, r))
    decreases |es|
  {
    ClearExact(es, r);
    KeptShorter(es, r);
    if es != [] && es[0].Area? {
      FailedMerge(es[1..], if IsOverlap(r, es[0].rect) then Box(r, es[0].rect) else r);
      assert es == [es[0]] + es[1..];
    }
  }

  /** A region is gone although the merge fails. */
  lemma LostInFailure()
    ensures var es, r := [Area(Rect(1, 1, 2, 2)), BadArea], Rect(2, 2, 3, 3);
            !Absorb(es, r).ok && Absorb(es, r).kept == [BadArea]
  {
    var es, r := [Area(Rect(1, 1, 2, 2)), BadArea], Rect(2, 2, 3, 3);
    assert es[1..] == [BadArea];
    assert Absorb([BadArea], Box(r, es[0].rect)) == Pass(false, [BadArea], [], Box(r, es[0].rect));
  }

  lemma {:induction false} KeptShorter(es: seq<Entry>, r: Rect)
    ensures |Absorb(es, r).kept| + |Absorb(es, r).removed| == |es|
    decreases |es|
  {
    if es != [] && es[0].Area? {
      KeptShorter(es[1..], if IsOverlap(r, es[0].rect) then Box(r, es[0].rect) else r);
    }
  }

  // ----- regions that stay apart -----

  lemma {:induction false} KeptWere(es: seq<Entry>, r: Rect, i: nat) returns (j: nat)
    requires i < |Absorb(es, r).kept|
    ensures j < |es| && es[j] == Absorb(es, r).kept[i]
    decreases |es|
  {
    if !es[0].Area? {
      j := i;
    } else if IsOverlap(r, es[0].rect) {
      j := KeptWere(es[1..], Box(r, es[0].rect), i);
      j := j + 1;
    } else if i == 0 {
      j := 0;
    } else {
      j := KeptWere(es[1..], r, i - 1);
      j := j + 1;
    }
  }

  lemma DisjointRest(es: seq<Entry>)
    requires es != [] && Disjoint(es)
    ensures Disjoint(es[1..])
  {
    var rest := es[1..];
    assert forall i | 0 <= i < |rest| :: rest[i] == es[i + 1];
  }

  lemma DisjointCons(e: Entry, es: seq<Entry>)
    requires e.Area? && Disjoint(es)
    requires forall i, c: Cell | 0 <= i < |es| && es[i].Area? :: !(CellInRef(c, e.rect) && CellInRef(c, es[i].rect))
    ensures Disjoint([e] + es)
  {
    var all := [e] + es;
    forall i, j, c: Cell | 0 <= i < j < |all| && all[i].Area? && all[j].Area?
      ensures !(CellInRef(c, all[i].rect) && CellInRef(c, all[j].rect))
    {
      assert all[j] == es[j - 1];
      if i > 0 {
        assert all[i] == es[i - 1];
      }
    }
  }

  lemma {:induction false} KeptDisjoint(es: seq<Entry>, r: Rect)
    requires Disjoint(es)
    ensures Disjoint(Absorb(es, r).kept)
    decreases |es|
  {
    if es != [] && es[0].Area? {
      DisjointRest(es);
      if IsOverlap(r, es[0].rect) {
        KeptDisjoint(es[1..], Box(r, es[0].rect));
      } else {
        var kept := Absorb(es[1..], r).kept;
        KeptDisjoint(es[1..], r);
        forall i, c: Cell | 0 <= i < |kept| && kept[i].Area?
          ensures !(CellInRef(c, es[0].rect) && CellInRef(c, kept[i].rect))
        {
          var j := KeptWere(es[1..], r, i);
          assert es[1..][j] == es[j + 1];
        }
        DisjointCons(es[0], kept);
      }
    }
  }

  /** A merge of disjoint regions leaves them disjoint exactly when the new region meets none of those kept. */
  lemma MergedDisjoint(es: seq<Entry>, r: Rect)
    requires Disjoint(es)
    ensures var p := Absorb(es, r);
            Disjoint(p.kept + [Area(p.rect)]) <==>
            forall i | 0 <= i < |p.kept| && p.kept[i].Area? :: !Intersects(p.kept[i].rect, p.rect)
  {
    var p := Absorb(es, r);
    var all := p.kept + [Area(p.rect)];
    KeptDisjoint(es, r);
    assert forall i | 0 <= i < |p.kept| :: all[i] == p.kept[i];
    assert all[|p.kept|] == Area(p.rect);
    if Disjoint(all) {
      forall i | 0 <= i < |p.kept| && p.kept[i].Area? ensures !Intersects(p.kept[i].rect, p.rect) {
        assert all[i] == p.kept[i];
      }
    }
    if forall i | 0 <= i < |p.kept| && p.kept[i].Area? :: !Intersects(p.kept[i].rect, p.rect) {
      forall i, j, c: Cell | 0 <= i < j < |all| && all[i].Area? && all[j].Area?
        ensures !(CellInRef(c, all[i].rect) && CellInRef(c, all[j].rect))
      {
        assert all[i] == p.kept[i];
        if j < |p.kept| {
          assert all[j] == p.kept[j];
        }
      }
    }
  }

  /** It meets a region that it crosses, and one that was passed before the request had grown. */
  lemma RegionsMeet()
    ensures var cross, r := Rect(1, 2, 3, 2), Rect(2, 1, 2, 3);
            Absorb([Area(cross)], r) == Pass(true, [Area(cross)], [], r) && Intersects(cross, r)
    ensures var passed, taken, r := Rect(5, 1, 6, 1), Rect(2, 2, 6, 2), Rect(1, 1, 2, 2);
            && Absorb([Area(passed), Area(taken)], r) == Pass(true, [Area(passed)], [taken], Rect(1, 1, 6, 2))
            && !Intersects(passed, taken) && Intersects(passed, Rect(1, 1, 6, 2))
  {
    var cross := Rect(1, 2, 3, 2);
    assert [Area(cross)][1..] == [];
    assert CellInRef(Cell(2, 2), cross) && CellInRef(Cell(2, 2), Rect(2, 1, 2, 3));
    var passed, taken := Rect(5, 1, 6, 1), Rect(2, 2, 6, 2);
    assert [Area(passed), Area(taken)][1..] == [Area(taken)] && [Area(taken)][1..] == [];
    assert CellInRef(Cell(5, 1), passed) && CellInRef(Cell(5, 1), Rect(1, 1, 6, 2));
    assert Absorb([Area(taken)], Rect(1, 1, 2, 2)) == Pass(true, [], [taken], Rect(1, 1, 6, 2));
  }

  // ----- the corners that merging and unmerging are given -----

  predicate Between(x: int, a: int, b: int) {
    a <= x <= b || b <= x <= a
  }

  /** Is the cell in the area with the corners `a` and `b`, in whatever order they are given? */
  predicate InArea(c: Cell, a: Cell, b: Cell) {
    Between(c.col, a.col, b.col) && Between(c.row, a.row, b.row)
  }

  predicate Holds(r: Rect, c: Cell) {
    r.x1 <= c.col && c.col <= r.x2 && r.y1 <= c.row && c.row <= r.y2
  }

  /** The request holds exactly the cells between its corners. */
  lemma SortedHolds(a: Cell, b: Cell, c: Cell)
    ensures CellInRef(c, SortCoordinates(a, b)) <==> InArea(c, a, b)
    ensures Proper(SortCoordinates(a, b)) && SortCoordinates(a, b) == SortCoordinates(b, a)
  {
  }

  /** Is a corner of the region in the area, or one of the area's four corners in the region? */
  predicate Touches(q: Rect, a: Cell, b: Cell) {
    || InArea(Cell(q.x1, q.y1), a, b) || InArea(Cell(q.x2, q.y1), a, b)
    || InArea(Cell(q.x1, q.y2), a, b) || InArea(Cell(q.x2, q.y2), a, b)
    || Holds(q, a) || Holds(q, b) || Holds(q, Cell(a.col, b.row)) || Holds(q, Cell(b.col, a.row))
  }

  lemma TouchesOverlap(q: Rect, a: Cell, b: Cell)
    ensures IsOverlap(SortCoordinates(a, b), q) <==> Touches(q, a, b)
  {
  }

  ghost predicate Covered(es: seq<Entry>, c: Cell) {
    exists i | 0 <= i < |es| :: es[i].Area? && Holds(es[i].rect, c)
  }

  /** The least rectangle with both corners and the removed regions in it. */
  ghost predicate LeastWith(box: Rect, a: Cell, b: Cell, removed: seq<Rect>) {
    && Holds(box, a) && Holds(box, b) && (forall i | 0 <= i < |removed| :: Inside(removed[i], box))
    && (forall q: Rect :: Holds(q, a) && Holds(q, b) && (forall i | 0 <= i < |removed| :: Inside(removed[i], q)) ==> Inside(box, q))
  }

  /** A merge from corner to corner: the new region comes last and is the least rectangle around both corners and the
      regions removed, and the others stay in order. */
  lemma MergedCorners(es: seq<Entry>, a: Cell, b: Cell, cells: seq<Entry>) returns (kept: seq<Entry>, removed: seq<Rect>, box: Rect)
    requires Merged(true, es, SortCoordinates(a, b), cells)
    ensures cells == kept + [Area(box)] && Interleaves(es, kept, removed) && LeastWith(box, a, b, removed)
  {
    var r := SortCoordinates(a, b);
    var p := Absorb(es, r);
    kept, removed, box := p.kept, p.removed, p.rect;
    AbsorbParts(es, r);
    assert forall q: Rect :: Inside(r, q) <==> Holds(q, a) && Holds(q, b);
  }

  /** After a merge from corner to corner every cell between the corners is covered, and every cell that was. */
  lemma MergedCovers(es: seq<Entry>, a: Cell, b: Cell, cells: seq<Entry>, c: Cell)
    requires Merged(true, es, SortCoordinates(a, b), cells) && (Covered(es, c) || InArea(c, a, b))
    ensures Covered(cells, c)
  {
    SortedHolds(a, b, c);
    if Covered(es, c) {
      var i :| 0 <= i < |es| && es[i].Area? && Holds(es[i].rect, c);
      assert CellInRef(c, es[i].rect);
    }
    MergeCovers(es, SortCoordinates(a, b), c);
    var j :| 0 <= j < |cells| && cells[j].Area? && CellInRef(c, cells[j].rect);
    assert Holds(cells[j].rect, c);
  }

  /** An unmerge from corner to corner: exactly the regions with a corner in the area, or a corner of it in them, go. */
  lemma UnmergedCorners(es: seq<Entry>, a: Cell, b: Cell, cells: seq<Entry>, e: Entry)
    requires Unmerged(true, es, SortCoordinates(a, b), cells)
    ensures e in cells <==> e in es && !(e.Area? && Touches(e.rect, a, b))
  {
    ApartParts(es, SortCoordinates(a, b), |es|, e);
    assert es[..|es|] == es;
    if e.Area? {
      TouchesOverlap(e.rect, a, b);
    }
  }

  /** In disjoint regions a cell is taken to the first corner of the one region it is in, and a cell in none stays. */
  lemma AnchorCorner(es: seq<Entry>, c: Cell, k: nat)
    requires (forall i | 0 <= i < |es| :: !es[i].BadArea?)
    requires forall i, j, d: Cell | 0 <= i < j < |es| && es[i].Area? && es[j].Area? :: !(Holds(es[i].rect, d) && Holds(es[j].rect, d))
    ensures k < |es| && es[k].Area? && Holds(es[k].rect, c) ==> Anchor(es, c) == Some(Cell(es[k].rect.x1, es[k].rect.y1))
    ensures !Covered(es, c) ==> Anchor(es, c) == Some(c)
  {
    forall i, j, d: Cell | 0 <= i < j < |es| && es[i].Area? && es[j].Area?
      ensures !(CellInRef(d, es[i].rect) && CellInRef(d, es[j].rect))
    {
      assert !(Holds(es[i].rect, d) && Holds(es[j].rect, d));
    }
    if k < |es| && es[k].Area? && Holds(es[k].rect, c) {
      AnchorIs(es, c, k);
    }
    if !Covered(es, c) {
      assert forall i | 0 <= i < |es| :: es[i].Area? && CellInRef(c, es[i].rect) ==> Holds(es[i].rect, c);
      AnchorOutside(es, c);
    }
  }
}

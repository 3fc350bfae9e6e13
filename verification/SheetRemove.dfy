/** What is left when a row is removed. */
module SheetRemove {
  import opened SheetRows
  import opened SheetEdit
  import CellName
  import Merge

  // What should be left of regions, links and calculation chain, and when it is
  // (backend/excelize/adjust.go).

  // ----- what should be left of a region -----

  /** The row that row `y` becomes when row `k` above it goes. */
  function Above(y: int, k: int): int {
    if y > k then y - 1 else y
  }

  /** The last row up to `y` that is left, as it is numbered then. */
  function Upper(y: int, k: int): int {
    if y >= k then y - 1 else y
  }

  /** The region without row `k`; its corners may stand in any order. */
  function Left(r: Merge.Rect, k: int): Merge.Rect {
    if r.y1 <= r.y2 then Merge.Rect(r.x1, Above(r.y1, k), r.x2, Upper(r.y2, k))
    else Merge.Rect(r.x1, Upper(r.y1, k), r.x2, Above(r.y2, k))
  }

  /** It has exactly the cells of the region that are not in row `k`, those below the row moved up. */
  lemma LeftCells(r: Merge.Rect, k: int, x: int, y: int)
    requires Merge.Proper(r)
    ensures Merge.CellInRef(Merge.Cell(x, y), Left(r, k)) <==>
            exists z | z != k :: Merge.CellInRef(Merge.Cell(x, z), r) && y == Above(z, k)
  {
    var z := if y >= k then y + 1 else y;
    if Merge.CellInRef(Merge.Cell(x, y), Left(r, k)) {
      assert z != k && Merge.CellInRef(Merge.Cell(x, z), r) && y == Above(z, k);
    }
  }

  /** The regions that should be left: those that do not lie in the row, without those that have a single cell then. */
  ghost function Right(rects: seq<Merge.Rect>, k: int): seq<Merge.Rect> {
    if rects == [] then []
    else
      var left := Left(rects[0], k);
      (if InRow(rects[0], k) || Single(left) then [] else [left]) + Right(rects[1..], k)
  }

  ghost predicate TwoCellsOutside(r: Merge.Rect, k: int) {
    exists c: Merge.Cell, d: Merge.Cell :: Merge.CellInRef(c, r) && Merge.CellInRef(d, r) && c != d && c.row != k && d.row != k
  }

  /** The regions with two different cells outside row `k`, without the row, in order. */
  ghost function LeftSeveral(rects: seq<Merge.Rect>, k: int): seq<Merge.Rect> {
    if rects == [] then []
    else (if TwoCellsOutside(rects[0], k) then [Left(rects[0], k)] else []) + LeftSeveral(rects[1..], k)
  }

  lemma TwoLeft(r: Merge.Rect, k: int)
    requires Merge.Proper(r)
    ensures InRow(r, k) || Single(Left(r, k)) <==> !TwoCellsOutside(r, k)
  {
    var y1 := if r.y1 == k then k + 1 else r.y1;
    var y2 := if r.y2 == k then k - 1 else r.y2;
    if !InRow(r, k) {
      var c, d := Merge.Cell(r.x1, y1), Merge.Cell(r.x2, y2);
      assert Merge.CellInRef(c, r) && Merge.CellInRef(d, r);
    }
  }

  /** What should be left are the regions with two different cells outside the row. */
  lemma {:induction false} RightRegions(rects: seq<Merge.Rect>, k: int)
    requires AllProper(rects)
    ensures Right(rects, k) == LeftSeveral(rects, k)
  {
    if rects != [] {
      TwoLeft(rects[0], k);
      RightRegions(rects[1..], k);
    }
  }

  // ----- what is left of a region -----

  /** The regions that the loop keeps, as it moves them, while it deletes no other in place of a single cell. */
  ghost function Kept(rects: seq<Merge.Rect>, k: int): seq<Merge.Rect> {
    if rects == [] then []
    else
      var now := ShiftedRect(rects[0], k, -1);
      (if InRow(rects[0], k) || Single(now) then [] else [now]) + Kept(rects[1..], k)
  }

  predicate Offends(r: Merge.Rect, k: int) {
    InRow(r, k) && Single(r)
  }

  /** No region is a single cell of row `k`. */
  ghost predicate NoOffence(rects: seq<Merge.Rect>, k: int) {
    forall i | 0 <= i < |rects| :: !Offends(rects[i], k)
  }

  /** The region begins in row `k` and goes on below: its upper edge moves up into the row above. */
  predicate Grows(r: Merge.Rect, k: int) {
    k > 1 && Merge.Min(r.y1, r.y2) == k < Merge.Max(r.y1, r.y2)
  }

  ghost predicate NoGrowth(rects: seq<Merge.Rect>, k: int) {
    forall i | 0 <= i < |rects| :: !Grows(rects[i], k)
  }

  /** Names have rows from 1 on. */
  predicate HasRows(r: Merge.Rect) {
    r.y1 >= 1 && r.y2 >= 1
  }

  ghost predicate AllHaveRows(rects: seq<Merge.Rect>) {
    forall i | 0 <= i < |rects| :: HasRows(rects[i])
  }

  /** A region is moved as it should be exactly when it does not grow. */
  lemma LeftMoved(r: Merge.Rect, k: int)
    requires k >= 1 && HasRows(r) && !InRow(r, k)
    ensures ShiftedRect(r, k, -1) == Left(r, k) <==> !Grows(r, k)
    ensures Single(ShiftedRect(r, k, -1)) ==> Single(Left(r, k)) && !Grows(r, k)
  {
  }

  lemma HeadCases(rects: seq<Merge.Rect>, k: int)
    requires rects != []
    ensures NoOffence(rects, k) <==> !Offends(rects[0], k) && NoOffence(rects[1..], k)
    ensures NoGrowth(rects, k) <==> !Grows(rects[0], k) && NoGrowth(rects[1..], k)
    ensures AllHaveRows(rects) <==> HasRows(rects[0]) && AllHaveRows(rects[1..])
  {
    assert rects == [rects[0]] + rects[1..];
  }

  lemma {:induction false} KeptRight(rects: seq<Merge.Rect>, k: int)
    requires k >= 1 && AllHaveRows(rects)
    ensures Kept(rects, k) == Right(rects, k) <==> NoGrowth(rects, k)
    ensures |Kept(rects, k)| >= |Right(rects, k)|
    decreases |rects|
  {
    if rects != [] {
      HeadCases(rects, k);
      KeptRight(rects[1..], k);
      Joined(Kept(rects[1..], k), [], []);
      Joined(Right(rects[1..], k), [], []);
      if !InRow(rects[0], k) {
        LeftMoved(rects[0], k);
        HeadMoved(ShiftedRect(rects[0], k, -1), Left(rects[0], k), Kept(rects[1..], k), Right(rects[1..], k));
      }
    }
  }

  lemma HeadMoved(now: Merge.Rect, left: Merge.Rect, kept: seq<Merge.Rect>, right: seq<Merge.Rect>)
    requires |kept| >= |right|
    requires Single(now) ==> Single(left)
    ensures var a := if Single(now) then [] else [now];
            var b := if Single(left) then [] else [left];
            && |a + kept| >= |b + right|
            && (a + kept == b + right <==> (Single(left) ==> Single(now)) && (!Single(left) ==> now == left) && kept == right)
  {
    var a := if Single(now) then [] else [now];
    var b := if Single(left) then [] else [left];
    assert (a + kept)[|a|..] == kept && (b + right)[|b|..] == right;
    if a != [] && b != [] {
      assert (a + kept)[0] == now && (b + right)[0] == left;
    }
  }

  // ----- the loop -----

  /** With a single-cell region in row `k` the list becomes shorter, or there is a panic. */
  lemma {:induction false} RemoveRects(before: seq<Merge.Rect>, rects: seq<Merge.Rect>, k: int)
    requires k >= 1 && AllReadable(rects)
    ensures NoOffence(rects, k) ==> AdjustRects(before, rects, k, -1) == Done(before + Kept(rects, k))
    ensures !NoOffence(rects, k) ==>
              match AdjustRects(before, rects, k, -1)
              case Done(out) => |out| < |before| + |Kept(rects, k)|
              case Unreadable(_) => false
              case Panic => true
    decreases |rects|
  {
    AdjustCases(before, rects, k, -1);
    if rects == [] {
      Joined(before, [], []);
    } else {
      var r, rest, now := rects[0], rects[1..], ShiftedRect(rects[0], k, -1);
      HeadCases(rects, k);
      AdjustTurn(before, rects, k, -1);
      Joined(Kept(rest, k), [], []);
      Joined(before, [now], Kept(rest, k));
      if Offends(r, k) {
        if before != [] {
          RemoveRects(before[..|before| - 1], rest, k);
        }
      } else {
        RemoveRects(if InRow(r, k) || Single(now) then before else before + [now], rest, k);
      }
    }
  }

  /**
   Removing row `k` leaves the regions it should exactly when no region is a single cell of that row and none begins in
   it and goes on below, unless there are regions of both kinds.  (Those can make up for each other, see `FaultsCancel`
   and `RemovedApart`.)
   */
  lemma RemovedRects(rects: seq<Merge.Rect>, k: int)
    requires k >= 1 && AllReadable(rects) && AllHaveRows(rects)
    ensures NoOffence(rects, k) || NoGrowth(rects, k) ==>
              (AdjustRects([], rects, k, -1) == Done(Right(rects, k)) <==> NoOffence(rects, k) && NoGrowth(rects, k))
  {
    RemoveRects([], rects, k);
    KeptRight(rects, k);
    Joined(Kept(rects, k), [], []);
  }

  /** A region that begins in the removed row: A2:B5, without row 2, takes in cell A1. */
  lemma RegionGrows()
    ensures var r, now := Merge.Rect(1, 2, 2, 5), Merge.Rect(1, 1, 2, 4);
            && AdjustRects([], [r], 2, -1) == Done([now]) && Right([r], 2) == [Merge.Rect(1, 2, 2, 4)]
            && Merge.CellInRef(Merge.Cell(1, 1), now) && !Merge.CellInRef(Merge.Cell(1, 1), r)
  {
    var r, now := Merge.Rect(1, 2, 2, 5), Merge.Rect(1, 1, 2, 4);
    assert [r][1..] == [];
    assert AdjustRects([], [r], 2, -1) == AdjustRects([now], [], 2, -1);
  }

  /** Removing the row of a single-cell region removes the region before it in the list as well, and panics when there
      is none. */
  lemma SingleRemoved()
    ensures var other, single := Merge.Rect(1, 5, 2, 6), Merge.Rect(3, 2, 3, 2);
            && AdjustRects([], [other, single], 2, -1) == Done([])
            && AdjustRects([], [single, other], 2, -1) == Panic
  {
    var other, single := Merge.Rect(1, 5, 2, 6), Merge.Rect(3, 2, 3, 2);
    var now := ShiftedRect(other, 2, -1);
    assert [other, single][1..] == [single] && [single][1..] == [];
    assert AdjustRects([], [other, single], 2, -1) == AdjustRects([now], [single], 2, -1);
    assert [now][..0] == [];
  }

  /** One fault makes up for the other: A2:A3, of which one cell is left, grows and is then deleted in place of C2. */
  lemma FaultsCancel()
    ensures var tall, single := Merge.Rect(1, 2, 1, 3), Merge.Rect(3, 2, 3, 2);
            && Grows(tall, 2) && Offends(single, 2)
            && AdjustRects([], [tall, single], 2, -1) == Done([]) && Right([tall, single], 2) == []
  {
    var tall, single := Merge.Rect(1, 2, 1, 3), Merge.Rect(3, 2, 3, 2);
    var now := ShiftedRect(tall, 2, -1);
    assert [tall, single][1..] == [single] && [single][1..] == [];
    assert AdjustRects([], [tall, single], 2, -1) == AdjustRects([now], [single], 2, -1);
    assert [now][..0] == [];
    assert Right([single], 2) == [];
  }

  // ----- regions apart from each other -----

  /**
   Each single cell of the row comes directly behind two cells in a column of which it leaves one (regions that go with
   the row or have a single cell elsewhere may stand between them), each of those before one such cell, and no other
   region begins in the row; `open` of the columns are behind us.
   */
  ghost predicate Balanced(rects: seq<Merge.Rect>, k: int, open: nat)
    decreases |rects|
  {
    if rects == [] then open == 0
    else
      var r, rest := rects[0], rects[1..];
      if Offends(r, k) then open > 0 && Balanced(rest, k, open - 1)
      else if InRow(r, k) then Balanced(rest, k, open)
      else if Grows(r, k) then Single(Left(r, k)) && Balanced(rest, k, open + 1)
      else if Single(Left(r, k)) then Balanced(rest, k, open)
      else open == 0 && Balanced(rest, k, 0)
  }

  /** `e` is where the loop moves one of the regions. */
  ghost predicate Comes(e: Merge.Rect, rects: seq<Merge.Rect>, k: int) {
    exists i :: 0 <= i < |rects| && !InRow(rects[i], k) && e == ShiftedRect(rects[i], k, -1)
  }

  /** `e` is what should be left of one of them. */
  ghost predicate Belongs(e: Merge.Rect, rects: seq<Merge.Rect>, k: int) {
    exists i :: 0 <= i < |rects| && !InRow(rects[i], k) && e == Left(rects[i], k)
  }

  lemma ComesHead(e: Merge.Rect, rects: seq<Merge.Rect>, k: int)
    requires rects != []
    ensures Comes(e, rects, k) <==> (!InRow(rects[0], k) && e == ShiftedRect(rects[0], k, -1)) || Comes(e, rects[1..], k)
    ensures Belongs(e, rects, k) <==> (!InRow(rects[0], k) && e == Left(rects[0], k)) || Belongs(e, rects[1..], k)
  {
    assert rects == [rects[0]] + rects[1..];
    assert forall i | 0 <= i < |rects| - 1 :: rects[1..][i] == rects[i + 1];
  }

  lemma {:induction false} RightBelongs(e: Merge.Rect, rects: seq<Merge.Rect>, k: int)
    requires e in Right(rects, k)
    ensures Belongs(e, rects, k)
    decreases |rects|
  {
    ComesHead(e, rects, k);
    if e in Right(rects[1..], k) {
      RightBelongs(e, rects[1..], k);
    }
  }

  /** The loop keeps some of the regions it has come past, those at the front, and adds others. */
  lemma {:induction false} KeepsFront(before: seq<Merge.Rect>, rects: seq<Merge.Rect>, k: int) returns (m: nat)
    requires AllReadable(rects) && AdjustRects(before, rects, k, -1).Done?
    ensures var out := AdjustRects(before, rects, k, -1).rects;
            && m <= |before| && m <= |out| && out[..m] == before[..m]
            && forall i | m <= i < |out| :: Comes(out[i], rects, k)
    decreases |rects|
  {
    AdjustCases(before, rects, k, -1);
    if rects == [] {
      m := |before|;
    } else {
      var r, rest, now := rects[0], rects[1..], ShiftedRect(rects[0], k, -1);
      AdjustTurn(before, rects, k, -1);
      var next := if InRow(r, k) then (if Single(now) then before[..|before| - 1] else before)
                  else if Single(now) then before else before + [now];
      m := KeepsFront(next, rest, k);
      var out := AdjustRects(before, rects, k, -1).rects;
      m := FrontTurn(before, next, rects, k, out, m);
    }
  }

  lemma FrontTurn(before: seq<Merge.Rect>, next: seq<Merge.Rect>, rects: seq<Merge.Rect>, k: int, out: seq<Merge.Rect>, j: nat)
    returns (m: nat)
    requires rects != [] && j <= |next| && j <= |out| && out[..j] == next[..j]
    requires forall i | j <= i < |out| :: Comes(out[i], rects[1..], k)
    requires next <= before || (!InRow(rects[0], k) && next == before + [ShiftedRect(rects[0], k, -1)])
    ensures m <= |before| && m <= |out| && out[..m] == before[..m]
    ensures forall i | m <= i < |out| :: Comes(out[i], rects, k)
  {
    m := if j <= |before| then j else |before|;
    assert out[..m] == out[..j][..m] == next[..j][..m] == before[..m];
    forall i | m <= i < |out| ensures Comes(out[i], rects, k) {
      ComesHead(out[i], rects, k);
      if i < j {
        assert out[i] == out[..j][i] == next[i];
      }
    }
  }

  /** What is not there and does not come is not in the result. */
  lemma StaysOut(before: seq<Merge.Rect>, rects: seq<Merge.Rect>, k: int, e: Merge.Rect)
    requires AllReadable(rects) && AdjustRects(before, rects, k, -1).Done?
    requires e !in before && !Comes(e, rects, k)
    ensures e !in AdjustRects(before, rects, k, -1).rects
  {
    var m := KeepsFront(before, rects, k);
    var out := AdjustRects(before, rects, k, -1).rects;
    forall i | 0 <= i < |out| ensures out[i] != e {
      if i < m {
        assert out[i] == out[..m][i] == before[..m][i] == before[i];
      }
    }
  }

  ghost predicate AllDifferent(es: seq<Merge.Rect>) {
    forall i, j | 0 <= i < j < |es| :: es[i] != es[j]
  }

  /** No region is moved to where another should be left. */
  ghost predicate Distinct(rects: seq<Merge.Rect>, k: int) {
    forall i, j | 0 <= i < |rects| && 0 <= j < |rects| && i != j ::
      !InRow(rects[i], k) && !InRow(rects[j], k) ==> ShiftedRect(rects[i], k, -1) != Left(rects[j], k)
  }

  /** Behind `base`, regions that are as they should be, and `opens`, regions that should be gone. */
  ghost predicate Separate(base: seq<Merge.Rect>, opens: seq<Merge.Rect>, rects: seq<Merge.Rect>, k: int) {
    && AllDifferent(base) && Distinct(rects, k)
    && (forall e | e in base :: e !in opens && !Comes(e, rects, k) && !Belongs(e, rects, k))
    && (forall e | e in opens :: !Belongs(e, rects, k))
  }

  lemma DistinctRest(rects: seq<Merge.Rect>, k: int)
    requires rects != [] && Distinct(rects, k)
    ensures Distinct(rects[1..], k)
    ensures !InRow(rects[0], k) ==>
              !Belongs(ShiftedRect(rects[0], k, -1), rects[1..], k) && !Comes(Left(rects[0], k), rects[1..], k)
  {
    var rest := rects[1..];
    assert forall i | 0 <= i < |rest| :: rest[i] == rects[i + 1];
  }

  lemma SeparateRest(base: seq<Merge.Rect>, opens: seq<Merge.Rect>, rects: seq<Merge.Rect>, k: int)
    requires rects != [] && Separate(base, opens, rects, k)
    ensures Separate(base, opens, rects[1..], k)
  {
    DistinctRest(rects, k);
    forall e | e in base ensures !Comes(e, rects[1..], k) && !Belongs(e, rects[1..], k) {
      ComesHead(e, rects, k);
    }
    forall e | e in opens ensures !Belongs(e, rects[1..], k) {
      ComesHead(e, rects, k);
    }
  }

  lemma SeparateOpen(base: seq<Merge.Rect>, opens: seq<Merge.Rect>, rects: seq<Merge.Rect>, k: int)
    requires rects != [] && Separate(base, opens, rects, k) && !InRow(rects[0], k)
    ensures Separate(base, opens + [ShiftedRect(rects[0], k, -1)], rects[1..], k)
  {
    var now := ShiftedRect(rects[0], k, -1);
    SeparateRest(base, opens, rects, k);
    DistinctRest(rects, k);
    ComesHead(now, rects, k);
    forall e | e in base ensures e !in opens + [now] {
      ComesHead(e, rects, k);
    }
  }

  lemma SeparateNext(base: seq<Merge.Rect>, rects: seq<Merge.Rect>, k: int)
    requires rects != [] && Separate(base, [], rects, k) && !InRow(rects[0], k)
    requires ShiftedRect(rects[0], k, -1) == Left(rects[0], k)
    ensures Separate(base + [Left(rects[0], k)], [], rects[1..], k)
  {
    var now := Left(rects[0], k);
    SeparateRest(base, [], rects, k);
    DistinctRest(rects, k);
    assert now !in base by {
      if now in base {
        ComesHead(now, rects, k);
      }
    }
  }

  /** A region that is as it should be has gone, and nothing brings it back. */
  lemma BaseLost(base: seq<Merge.Rect>, rects: seq<Merge.Rect>, k: int)
    requires rects != [] && base != [] && AllReadable(rects[1..]) && Separate(base, [], rects, k)
    ensures AdjustRects(base[..|base| - 1], rects[1..], k, -1) != Done(base + Right(rects[1..], k))
  {
    var g, less := base[|base| - 1], base[..|base| - 1];
    SeparateRest(base, [], rects, k);
    if AdjustRects(less, rects[1..], k, -1).Done? {
      StaysOut(less, rects[1..], k, g);
      assert (base + Right(rects[1..], k))[|base| - 1] == g;
    }
  }

  /** A region that grows is not left as it should be. */
  lemma GrownLost(base: seq<Merge.Rect>, opens: seq<Merge.Rect>, rects: seq<Merge.Rect>, k: int)
    requires k >= 1 && rects != [] && HasRows(rects[0]) && !InRow(rects[0], k) && Grows(rects[0], k)
    requires AllReadable(rects) && Separate(base, opens, rects, k) && !Single(Left(rects[0], k))
    ensures AdjustRects(base + opens, rects, k, -1) != Done(base + Right(rects, k))
  {
    var left := Left(rects[0], k);
    LeftMoved(rects[0], k);
    DistinctRest(rects, k);
    ComesHead(left, rects, k);
    if AdjustRects(base + opens, rects, k, -1).Done? {
      StaysOut(base + opens, rects, k, left);
      assert (base + Right(rects, k))[|base|] == left;
    }
  }

  /** Of a region behind one that should be gone, either both stay or both go. */
  lemma OpenBelow(base: seq<Merge.Rect>, opens: seq<Merge.Rect>, rects: seq<Merge.Rect>, k: int)
    requires rects != [] && opens != [] && AllReadable(rects[1..]) && Separate(base, opens, rects, k)
    requires !InRow(rects[0], k) && !Single(Left(rects[0], k))
    ensures AdjustRects(base + opens + [Left(rects[0], k)], rects[1..], k, -1) != Done(base + Right(rects, k))
  {
    var g, rest, before := Left(rects[0], k), rects[1..], base + opens + [Left(rects[0], k)];
    var want := base + Right(rects, k);
    DistinctRest(rects, k);
    ComesHead(g, rects, k);
    assert want[|base|] == g && opens[0] in opens && opens[0] != g;
    if AdjustRects(before, rest, k, -1).Done? {
      var m := KeepsFront(before, rest, k);
      var out := AdjustRects(before, rest, k, -1).rects;
      if |base| < m {
        assert out[|base|] == out[..m][|base|] == before[..m][|base|] == opens[0];
      }
    }
  }

  /** Exactly what the loop comes to behind `base` and `opens`. */
  lemma {:induction false} RemoveExact(base: seq<Merge.Rect>, opens: seq<Merge.Rect>, rects: seq<Merge.Rect>, k: int)
    requires k >= 1 && AllReadable(rects) && AllHaveRows(rects) && Separate(base, opens, rects, k)
    ensures AdjustRects(base + opens, rects, k, -1) == Done(base + Right(rects, k)) <==> Balanced(rects, k, |opens|)
    decreases |rects|, 1
  {
    AdjustCases(base + opens, rects, k, -1);
    if rects == [] {
      assert base + opens == base + [] <==> opens == [] by {
        assert |base + opens| == |base| + |opens|;
      }
    } else {
      HeadCases(rects, k);
      if InRow(rects[0], k) {
        RowExact(base, opens, rects, k);
      } else {
        OtherExact(base, opens, rects, k);
      }
    }
  }

  lemma {:induction false} RowExact(base: seq<Merge.Rect>, opens: seq<Merge.Rect>, rects: seq<Merge.Rect>, k: int)
    requires k >= 1 && rects != [] && AllReadable(rects) && AllHaveRows(rects[1..]) && Separate(base, opens, rects, k)
    requires InRow(rects[0], k)
    ensures AdjustRects(base + opens, rects, k, -1) == Done(base + Right(rects, k)) <==> Balanced(rects, k, |opens|)
    decreases |rects|, 0
  {
    var rest := rects[1..];
    AdjustCases(base + opens, rects, k, -1);
    AdjustTurn(base + opens, rects, k, -1);
    Joined(Right(rest, k), [], []);
    SeparateRest(base, opens, rects, k);
    if !Offends(rects[0], k) {
      RemoveExact(base, opens, rest, k);
    } else if opens != [] {
      var fewer := opens[..|opens| - 1];
      assert (base + opens)[..|base + opens| - 1] == base + fewer;
      RemoveExact(base, fewer, rest, k);
    } else {
      Joined(base, [], []);
      if base != [] {
        BaseLost(base, rects, k);
      }
    }
  }

  lemma {:induction false} OtherExact(base: seq<Merge.Rect>, opens: seq<Merge.Rect>, rects: seq<Merge.Rect>, k: int)
    requires k >= 1 && rects != [] && AllReadable(rects) && AllHaveRows(rects) && Separate(base, opens, rects, k)
    requires !InRow(rects[0], k)
    ensures AdjustRects(base + opens, rects, k, -1) == Done(base + Right(rects, k)) <==> Balanced(rects, k, |opens|)
    decreases |rects|, 0
  {
    var rest, now, left := rects[1..], ShiftedRect(rects[0], k, -1), Left(rects[0], k);
    AdjustCases(base + opens, rects, k, -1);
    AdjustTurn(base + opens, rects, k, -1);
    HeadCases(rects, k);
    LeftMoved(rects[0], k);
    Joined(Right(rest, k), [], []);
    if Grows(rects[0], k) {
      if Single(left) {
        SeparateOpen(base, opens, rects, k);
        Joined(base, opens, [now]);
        RemoveExact(base, opens + [now], rest, k);
      } else {
        GrownLost(base, opens, rects, k);
      }
    } else if Single(left) {
      SeparateRest(base, opens, rects, k);
      RemoveExact(base, opens, rest, k);
    } else if opens == [] {
      SeparateNext(base, rects, k);
      Joined(base, [left], Right(rest, k));
      Joined(base, [], [now]);
      Joined(base + [left], [], []);
      RemoveExact(base + [left], [], rest, k);
    } else {
      OpenBelow(base, opens, rects, k);
    }
  }

  /** No two regions have a cell in common. */
  ghost predicate Apart(rects: seq<Merge.Rect>) {
    forall i, j | 0 <= i < |rects| && 0 <= j < |rects| && i != j :: !Merge.Intersects(rects[i], rects[j])
  }

  ghost predicate AllProper(rects: seq<Merge.Rect>) {
    forall i | 0 <= i < |rects| :: Merge.Proper(rects[i]) && HasRows(rects[i])
  }

  lemma MovedOnto(a: Merge.Rect, b: Merge.Rect, k: int)
    requires k >= 1 && Merge.Proper(a) && HasRows(a) && Merge.Proper(b) && HasRows(b) && !InRow(a, k) && !InRow(b, k)
    requires ShiftedRect(a, k, -1) == Left(b, k)
    ensures Merge.Intersects(a, b)
  {
    var c := Merge.Cell(a.x1, if a.y1 == k == 1 then 2 else a.y1);
    assert Merge.CellInRef(c, a) && Merge.CellInRef(c, b);
  }

  /** Of regions apart from each other: removing row `k` leaves those it should exactly when single cells of the row and
      columns that begin in it make up for each other, and no other region begins in it and goes on below. */
  lemma RemovedApart(rects: seq<Merge.Rect>, k: int)
    requires k >= 1 && AllReadable(rects) && AllProper(rects) && Apart(rects)
    ensures AdjustRects([], rects, k, -1) == Done(Right(rects, k)) <==> Balanced(rects, k, 0)
  {
    forall i, j | 0 <= i < |rects| && 0 <= j < |rects| && i != j && !InRow(rects[i], k) && !InRow(rects[j], k)
      ensures ShiftedRect(rects[i], k, -1) != Left(rects[j], k)
    {
      if ShiftedRect(rects[i], k, -1) == Left(rects[j], k) {
        MovedOnto(rects[i], rects[j], k);
      }
    }
    RemoveExact([], [], rects, k);
    Joined(Right(rects, k), [], []);
  }

  // ----- links, calculation chain, and the whole sheet -----

  /** The links that should be left: those of the row go, those below it move up. */
  ghost function LinksLeft(links: seq<Link>, k: int): seq<Link> {
    if links == [] then []
    else
      var l := links[0];
      (if l.ref.row == k then [] else [l.(ref := Ref(l.ref.col, Above(l.ref.row, k)))]) + LinksLeft(links[1..], k)
  }

  /** The chain entries that should be left. */
  ghost function ChainLeft(chain: seq<Ref>, k: int): seq<Ref> {
    if chain == [] then []
    else (if chain[0].row == k then [] else [Ref(chain[0].col, Above(chain[0].row, k))]) + ChainLeft(chain[1..], k)
  }

  /** All links at or below row `k` can be read. */
  ghost predicate LinksRead(links: seq<Link>, k: int) {
    forall i | 0 <= i < |links| :: links[i].ref.row >= k ==> links[i].ref.row <= CellName.TOTAL_ROWS
  }

  /** No entry of the chain is in row `k`. */
  ghost predicate NoEntry(chain: seq<Ref>, k: int) {
    forall i | 0 <= i < |chain| :: chain[i].row != k
  }

  lemma {:induction false} LinksMoved(links: seq<Link>, k: int, i: nat)
    requires k >= 1 && i <= |links|
    ensures ShiftedLinks(LinksFrom(links, k, i), k, -1) == LinksLeft(links[i..], k) <==> LinksRead(links[i..], k)
    ensures |LinksFrom(links, k, i)| >= |LinksLeft(links[i..], k)|
    decreases |links| - i
  {
    if i < |links| {
      var l, rest := links[i], LinksFrom(links, k, i + 1);
      LinksMoved(links, k, i + 1);
      assert links[i..][1..] == links[i + 1..] && links[i..] == [l] + links[i + 1..];
      LinkMoved(l, rest, LinksLeft(links[i + 1..], k), k);
      assert LinksRead(links[i..], k) <==>
             (l.ref.row >= k ==> l.ref.row <= CellName.TOTAL_ROWS) && LinksRead(links[i + 1..], k);
    }
  }

  lemma LinkMoved(l: Link, rest: seq<Link>, left: seq<Link>, k: int)
    requires k >= 1 && |rest| >= |left|
    ensures var a := (if ReadRow(l.ref.row) == k then [] else [l]) + rest;
            var b := (if l.ref.row == k then [] else [l.(ref := Ref(l.ref.col, Above(l.ref.row, k)))]) + left;
            && |a| >= |b|
            && (ShiftedLinks(a, k, -1) == b <==>
                (l.ref.row >= k ==> l.ref.row <= CellName.TOTAL_ROWS) && ShiftedLinks(rest, k, -1) == left)
  {
    var a := if ReadRow(l.ref.row) == k then [] else [l];
    var b := if l.ref.row == k then [] else [l.(ref := Ref(l.ref.col, Above(l.ref.row, k)))];
    var now := ShiftedLinks(a + rest, k, -1);
    assert now[|a|..] == ShiftedLinks(rest, k, -1) && (b + left)[|b|..] == left;
    if a != [] {
      assert now[0] == l.(ref := ShiftedRef(l.ref, k, -1));
    }
    if a != [] && b != [] {
      assert now == [now[0]] + now[1..] && b + left == [b[0]] + left;
    } else if a == [] {
      assert a + rest == rest && b + left == left;
    }
  }

  lemma {:induction false} ChainShorter(chain: seq<Ref>, k: int)
    ensures |ChainLeft(chain, k)| <= |chain| && (|ChainLeft(chain, k)| == |chain| <==> NoEntry(chain, k))
    decreases |chain|
  {
    if chain != [] {
      ChainShorter(chain[1..], k);
      assert chain == [chain[0]] + chain[1..];
    }
  }

  lemma {:induction false} ChainMoved(chain: seq<Ref>, k: int)
    requires k >= 1 && NoEntry(chain, k)
    ensures ChainLeft(chain, k) == ShiftedChain(chain, k, -1, |chain|)
    decreases |chain|
  {
    if chain != [] {
      assert chain == [chain[0]] + chain[1..];
      ChainMoved(chain[1..], k);
    }
  }

  /** Entries of the removed row stay in the chain, as entries of the row above. */
  lemma ChainExact(chain: seq<Ref>, k: int)
    requires k >= 1
    ensures ShiftedChain(chain, k, -1, |chain|) == ChainLeft(chain, k) <==> NoEntry(chain, k)
  {
    ChainShorter(chain, k);
    if NoEntry(chain, k) {
      ChainMoved(chain, k);
    }
  }

  /** The sheet that should be left. */
  ghost function SheetLeft(s: Sheet, k: int): Sheet
    requires k >= 1
  {
    Sheet(Removed(s.rows, k), LinksLeft(s.links, k), Right(s.merges, k), ChainLeft(s.chain, k))
  }

  /** What removal leaves of the sheet but for its regions. */
  lemma RemovedRest(s: Sheet, k: int)
    requires Normal(s.rows) && k >= 1 && AllReadable(s.merges) && ChainReads(s.chain)
    ensures RemoveStep(s, k) == Edited(SheetLeft(s, k)) <==>
            AdjustRects([], s.merges, k, -1) == Done(Right(s.merges, k)) && LinksRead(s.links, k) && NoEntry(s.chain, k)
  {
    RemoveRects([], s.merges, k);
    ChainReadable(s.chain, 0);
    RemoveNormalised(s.rows, k);
    LinksMoved(s.links, k, 0);
    assert s.links[0..] == s.links;
    ChainExact(s.chain, k);
  }

  /**
   Removing row `k` leaves the sheet it should exactly when no region is a single cell of the row, none begins in it and
   goes on below, no entry of the calculation chain is in it, and all links from it on can be read, unless there are
   regions of both kinds.
   */
  lemma RemovedSheet(s: Sheet, k: int)
    requires Normal(s.rows) && k >= 1 && AllReadable(s.merges) && AllHaveRows(s.merges) && ChainReads(s.chain)
    ensures NoOffence(s.merges, k) || NoGrowth(s.merges, k) ==>
              (RemoveStep(s, k) == Edited(SheetLeft(s, k)) <==>
               NoOffence(s.merges, k) && NoGrowth(s.merges, k) && LinksRead(s.links, k) && NoEntry(s.chain, k))
  {
    RemovedRest(s, k);
    RemovedRects(s.merges, k);
  }

  /** Of a sheet whose regions are apart from each other. */
  lemma RemovedSheetApart(s: Sheet, k: int)
    requires Normal(s.rows) && k >= 1 && AllReadable(s.merges) && ChainReads(s.chain)
    requires AllProper(s.merges) && Apart(s.merges)
    ensures RemoveStep(s, k) == Edited(SheetLeft(s, k)) <==>
            Balanced(s.merges, k, 0) && LinksRead(s.links, k) && NoEntry(s.chain, k)
  {
    RemovedRest(s, k);
    RemovedApart(s.merges, k);
  }
}

/**
 Column attributes of a worksheet (backend/excelize/col.go): ranges of columns,
 their flattening, and the getters that read them.
 */
module Cols {
  import opened Wrappers

  datatype Attrs = Attrs(bestFit: bool, collapsed: bool, customWidth: bool, hidden: bool, outlineLevel: nat,
                         phonetic: bool, style: int, width: real)

  /** A range of columns with the same attributes. */
  datatype Col = Col(min: int, max: int, attrs: Attrs)

  /** Which attribute is being set: its replacer takes the others over from the column that was there. */
  datatype Setter = SetVisible | SetOutlineLevel | SetStyle | SetWidth

  function Replace(s: Setter, fc: Attrs, c: Attrs): Attrs {
    match s
    case SetVisible => c.(hidden := fc.hidden)
    case SetOutlineLevel => c.(outlineLevel := fc.outlineLevel)
    case SetStyle => c.(style := fc.style)
    case SetWidth => c.(customWidth := fc.customWidth, width := fc.width)
  }

  predicate Covers(c: Col, i: int) {
    c.min <= i <= c.max
  }

  // ----- getters -----

  /** The attributes of the last of the first `k` ranges that covers column `i`. */
  function Last(cols: seq<Col>, k: nat, i: int): Option<Attrs>
    requires k <= |cols|
  {
    if k == 0 then None else if Covers(cols[k - 1], i) then Some(cols[k - 1].attrs) else Last(cols, k - 1, i)
  }

  /** The attributes of the first of them. */
  ghost function First(cols: seq<Col>, k: nat, i: int): Option<Attrs>
    requires k <= |cols|
  {
    if k == 0 then None
    else if First(cols, k - 1, i).Some? then First(cols, k - 1, i)
    else if Covers(cols[k - 1], i) then Some(cols[k - 1].attrs) else None
  }

  method GetColVisible(cols: seq<Col>, i: int) returns (visible: bool)
    ensures visible == match Last(cols, |cols|, i) case None => true case Some(a) => !a.hidden
  {
    visible := true;
    for k := 0 to |cols|
      invariant visible == match Last(cols, k, i) case None => true case Some(a) => !a.hidden
    {
      if cols[k].min <= i && i <= cols[k].max {
        visible := !cols[k].attrs.hidden;
      }
    }
  }

  method GetColOutlineLevel(cols: seq<Col>, i: int) returns (level: nat)
    ensures level == match Last(cols, |cols|, i) case None => 0 case Some(a) => a.outlineLevel
  {
    level := 0;
    for k := 0 to |cols|
      invariant level == match Last(cols, k, i) case None => 0 case Some(a) => a.outlineLevel
    {
      if cols[k].min <= i && i <= cols[k].max {
        level := cols[k].attrs.outlineLevel;
      }
    }
  }

  // ----- flattening -----

  /** What column `i` comes to when the first `k` old ranges have been taken over. */
  ghost function Expected(s: Setter, col: Col, cols: seq<Col>, k: nat, i: int): Option<Attrs>
    requires k <= |cols|
  {
    if k == 0 then if Covers(col, i) then Some(col.attrs) else None
    else TakeOver(s, Expected(s, col, cols, k - 1, i), cols[k - 1], i)
  }

  function TakeOver(s: Setter, a: Option<Attrs>, c: Col, i: int): Option<Attrs> {
    if !Covers(c, i) then a else Some(if a.Some? then Replace(s, a.value, c.attrs) else c.attrs)
  }

  /** The list has one entry for each column that `f` gives attributes to, and no other. */
  ghost predicate Represents(fc: seq<Col>, f: int -> Option<Attrs>) {
    && (forall a | 0 <= a < |fc| :: fc[a].min == fc[a].max && f(fc[a].min) == Some(fc[a].attrs))
    && (forall a, b | 0 <= a < b < |fc| :: fc[a].min != fc[b].min)
    && (forall i: int :: f(i).Some? ==> HasEntry(fc, i))
  }

  ghost predicate HasEntry(fc: seq<Col>, i: int) {
    exists a | 0 <= a < |fc| :: fc[a].min == i
  }

  method InFlat(i: int, fc: seq<Col>) returns (idx: int, ok: bool)
    requires forall a | 0 <= a < |fc| :: fc[a].min == fc[a].max
    ensures ok ==> 0 <= idx < |fc| && fc[idx].min == i
    ensures !ok ==> !HasEntry(fc, i)
  {
    for a := 0 to |fc|
      invariant forall b | 0 <= b < a :: fc[b].min != i
    {
      if fc[a].max == i && fc[a].min == i {
        return a, true;
      }
    }
    return -1, false;
  }

  lemma Appended(fc: seq<Col>, f: int -> Option<Attrs>, g: int -> Option<Attrs>, i: int, a: Attrs)
    requires Represents(fc, f) && !HasEntry(fc, i)
    requires g(i) == Some(a) && forall j: int :: j != i ==> g(j) == f(j)
    ensures Represents(fc + [Col(i, i, a)], g)
  {
    var out := fc + [Col(i, i, a)];
    forall j: int | g(j).Some? ensures HasEntry(out, j) {
      if j == i {
        assert out[|fc|].min == i;
      } else {
        assert HasEntry(fc, j);
        var b :| 0 <= b < |fc| && fc[b].min == j;
        assert out[b].min == j;
      }
    }
  }

  lemma Overwritten(fc: seq<Col>, f: int -> Option<Attrs>, g: int -> Option<Attrs>, idx: nat, a: Attrs)
    requires Represents(fc, f) && idx < |fc|
    requires g(fc[idx].min) == Some(a) && forall j: int :: j != fc[idx].min ==> g(j) == f(j)
    ensures Represents(fc[idx := fc[idx].(attrs := a)], g)
  {
    var out := fc[idx := fc[idx].(attrs := a)];
    forall j: int | g(j).Some? ensures HasEntry(out, j) {
      if j == fc[idx].min {
        assert out[idx].min == j;
      } else {
        assert HasEntry(fc, j);
        var b :| 0 <= b < |fc| && fc[b].min == j;
        assert out[b].min == j;
      }
    }
  }

  lemma SameFunction(fc: seq<Col>, f: int -> Option<Attrs>, g: int -> Option<Attrs>)
    requires Represents(fc, f) && forall j: int :: g(j) == f(j)
    ensures Represents(fc, g)
  {
  }

  /** The new range up to column `i`. */
  ghost function NewTo(col: Col, i: int): int -> Option<Attrs> {
    j => if col.min <= j < i then Some(col.attrs) else None
  }

  /** All ranges before `k`, and range `k` up to column `i`. */
  ghost function During(s: Setter, col: Col, cols: seq<Col>, k: nat, i: int): int -> Option<Attrs>
    requires k < |cols|
  {
    j => if j < i then TakeOver(s, Expected(s, col, cols, k, j), cols[k], j) else Expected(s, col, cols, k, j)
  }

  ghost function After(s: Setter, col: Col, cols: seq<Col>, k: nat): int -> Option<Attrs>
    requires k <= |cols|
  {
    j => Expected(s, col, cols, k, j)
  }

  /** `flatCols`. */
  method FlatCols(s: Setter, col: Col, cols: seq<Col>) returns (fc: seq<Col>)
    ensures Represents(fc, After(s, col, cols, |cols|))
  {
    fc := [];
    var i := col.min;
    while i <= col.max
      invariant Represents(fc, NewTo(col, i)) && (col.min <= i <= col.max + 1 || i == col.min)
    {
      Appended(fc, NewTo(col, i), NewTo(col, i + 1), i, col.attrs) by {
        assert HasEntry(fc, i) ==> NewTo(col, i)(i).Some?;
      }
      fc := fc + [Col(i, i, col.attrs)];
      i := i + 1;
    }
    SameFunction(fc, NewTo(col, i), After(s, col, cols, 0));
    for k := 0 to |cols|
      invariant Represents(fc, After(s, col, cols, k))
    {
      fc := TakeOverRange(s, col, cols, k, fc);
    }
  }

  /** The columns of one old range. */
  method TakeOverRange(s: Setter, ghost col: Col, cols: seq<Col>, k: nat, flat: seq<Col>) returns (fc: seq<Col>)
    requires k < |cols| && Represents(flat, After(s, col, cols, k))
    ensures Represents(fc, After(s, col, cols, k + 1))
  {
    fc := flat;
    var column := cols[k];
    var i := column.min;
    SameFunction(fc, After(s, col, cols, k), During(s, col, cols, k, i));
    while i <= column.max
      invariant Represents(fc, During(s, col, cols, k, i)) && (column.min <= i <= column.max + 1 || i == column.min)
    {
      ghost var f, g := During(s, col, cols, k, i), During(s, col, cols, k, i + 1);
      var idx, ok := InFlat(i, fc);
      if ok {
        var a := Replace(s, fc[idx].attrs, column.attrs);
        Overwritten(fc, f, g, idx, a);
        fc := fc[idx := fc[idx].(attrs := a)];
      } else {
        Appended(fc, f, g, i, column.attrs);
        fc := fc + [Col(i, i, column.attrs)];
      }
      i := i + 1;
    }
    SameFunction(fc, During(s, col, cols, k, i), After(s, col, cols, k + 1));
  }

  // ----- what a setter changes -----

  lemma ReplaceTwice(s: Setter, a: Attrs, b: Attrs, c: Attrs)
    ensures Replace(s, Replace(s, a, b), c) == Replace(s, a, c) && Replace(s, a, a) == a
  {
  }

  lemma {:induction false} FirstAndLast(cols: seq<Col>, k: nat, i: int)
    requires k <= |cols|
    ensures First(cols, k, i).Some? <==> Last(cols, k, i).Some?
    decreases k
  {
    if k > 0 {
      FirstAndLast(cols, k - 1, i);
    }
  }

  /** In the new range a column takes over all but the attribute being set from the last old range that covers it;
      outside, the first old range that covers it supplies that attribute. */
  lemma {:induction false} ExpectedIs(s: Setter, col: Col, cols: seq<Col>, k: nat, i: int)
    requires k <= |cols|
    ensures var first, last := if Covers(col, i) then Some(col.attrs) else First(cols, k, i), Last(cols, k, i);
            Expected(s, col, cols, k, i) ==
            if first.None? then None else if last.None? then first else Some(Replace(s, first.value, last.value))
    decreases k
  {
    if k > 0 {
      ExpectedIs(s, col, cols, k - 1, i);
      FirstAndLast(cols, k - 1, i);
      if Covers(cols[k - 1], i) {
        var first := if Covers(col, i) then Some(col.attrs) else First(cols, k - 1, i);
        if first.Some? && Last(cols, k - 1, i).Some? {
          ReplaceTwice(s, first.value, Last(cols, k - 1, i).value, cols[k - 1].attrs);
        }
        ReplaceTwice(s, cols[k - 1].attrs, cols[k - 1].attrs, cols[k - 1].attrs);
      }
    }
  }

  lemma {:induction false} LastIs(fc: seq<Col>, f: int -> Option<Attrs>, k: nat, i: int)
    requires Represents(fc, f) && k <= |fc|
    ensures Last(fc, k, i) == if HasEntry(fc[..k], i) then f(i) else None
    decreases k
  {
    if k > 0 {
      LastIs(fc, f, k - 1, i);
      assert forall b | 0 <= b < k - 1 :: fc[..k][b] == fc[..k - 1][b];
      if fc[k - 1].min == i {
        assert fc[..k][k - 1].min == i;
      } else if HasEntry(fc[..k - 1], i) {
        var b :| 0 <= b < k - 1 && fc[..k - 1][b].min == i;
        assert fc[..k][b].min == i;
      }
    }
  }

  /** Reading a flattened list. */
  lemma FlatRead(s: Setter, col: Col, cols: seq<Col>, fc: seq<Col>, i: int)
    requires Represents(fc, After(s, col, cols, |cols|))
    ensures Last(fc, |fc|, i) == Expected(s, col, cols, |cols|, i)
  {
    LastIs(fc, After(s, col, cols, |cols|), |fc|, i);
    assert fc[..|fc|] == fc;
    assert After(s, col, cols, |cols|)(i).Some? ==> HasEntry(fc, i);
    if HasEntry(fc, i) {
      var a :| 0 <= a < |fc| && fc[a].min == i;
    }
  }

  /** A column outside the new range reads as before exactly when the first and the last old range that cover it agree
      in the attribute being set, as they do when the old ranges do not overlap. */
  lemma OutsideKept(s: Setter, col: Col, cols: seq<Col>, fc: seq<Col>, i: int)
    requires Represents(fc, After(s, col, cols, |cols|)) && !Covers(col, i)
    ensures var first, last := First(cols, |cols|, i), Last(cols, |cols|, i);
            Last(fc, |fc|, i) == last <==> (last.Some? && first.Some? ==> Replace(s, first.value, last.value) == last.value)
  {
    FlatRead(s, col, cols, fc, i);
    ExpectedIs(s, col, cols, |cols|, i);
    FirstAndLast(cols, |cols|, i);
  }

  const PLAIN := Attrs(false, false, false, false, 0, false, 0, 9.0)

  /** Column 1 is in a hidden range and in a visible one behind it, so that it reads as visible; setting column 2 hides
      it. */
  lemma OutsideChanged(fc: seq<Col>)
    requires var cols := [Col(1, 1, PLAIN.(hidden := true)), Col(1, 1, PLAIN)];
             Represents(fc, After(SetVisible, Col(2, 2, PLAIN), cols, |cols|))
    ensures var cols := [Col(1, 1, PLAIN.(hidden := true)), Col(1, 1, PLAIN)];
            Last(cols, |cols|, 1) == Some(PLAIN) && Last(fc, |fc|, 1) == Some(PLAIN.(hidden := true))
  {
    var cols := [Col(1, 1, PLAIN.(hidden := true)), Col(1, 1, PLAIN)];
    FlatRead(SetVisible, Col(2, 2, PLAIN), cols, fc, 1);
    ExpectedIs(SetVisible, Col(2, 2, PLAIN), cols, 2, 1);
    assert First(cols, 0, 1) == None && First(cols, 1, 1) == Some(PLAIN.(hidden := true));
    assert First(cols, 2, 1) == Some(PLAIN.(hidden := true)) && Last(cols, 2, 1) == Some(PLAIN);
  }

  lemma {:induction false} OneRange(cols: seq<Col>, k: nat, i: int)
    requires k <= |cols|
    requires forall a, b | 0 <= a < b < |cols| :: !(Covers(cols[a], i) && Covers(cols[b], i))
    ensures First(cols, k, i) == Last(cols, k, i)
    ensures First(cols, k, i).Some? ==> exists a | 0 <= a < k :: Covers(cols[a], i)
    decreases k
  {
    if k > 0 {
      OneRange(cols, k - 1, i);
    }
  }

  /** Without overlapping old ranges: in the new range only the attribute being set changes (for a column that had a
      range), and outside nothing does. */
  lemma SetterExact(s: Setter, col: Col, cols: seq<Col>, fc: seq<Col>, i: int)
    requires Represents(fc, After(s, col, cols, |cols|))
    requires forall a, b | 0 <= a < b < |cols| :: !(Covers(cols[a], i) && Covers(cols[b], i))
    ensures var before := Last(cols, |cols|, i);
            Last(fc, |fc|, i) ==
            if !Covers(col, i) then before
            else Some(if before.None? then col.attrs else Replace(s, col.attrs, before.value))
  {
    FlatRead(s, col, cols, fc, i);
    ExpectedIs(s, col, cols, |cols|, i);
    OneRange(cols, |cols|, i);
    if Last(cols, |cols|, i).Some? {
      var a := Last(cols, |cols|, i).value;
      ReplaceTwice(s, a, a, a);
    }
  }

  // ----- the columns of a flattened list, field by field -----

  /** Range `k` is the last that has column `i` in it. */
  predicate LastWith(cols: seq<Col>, k: nat, i: int) {
    && k < |cols| && cols[k].min <= i && i <= cols[k].max
    && forall m | k < m < |cols| :: !(cols[m].min <= i && i <= cols[m].max)
  }

  /** And `k` the first. */
  predicate FirstWith(cols: seq<Col>, k: nat, i: int) {
    && k < |cols| && cols[k].min <= i && i <= cols[k].max
    && forall m | 0 <= m < k :: !(cols[m].min <= i && i <= cols[m].max)
  }

  lemma {:induction false} LastWithIs(cols: seq<Col>, n: nat, k: nat, i: int)
    requires k < n <= |cols| && Covers(cols[k], i) && forall m | k < m < n :: !Covers(cols[m], i)
    ensures Last(cols, n, i) == Some(cols[k].attrs)
    decreases n
  {
    if k < n - 1 {
      LastWithIs(cols, n - 1, k, i);
    }
  }

  lemma {:induction false} NoFirst(cols: seq<Col>, n: nat, i: int)
    requires n <= |cols| && forall m | 0 <= m < n :: !Covers(cols[m], i)
    ensures First(cols, n, i) == None && Last(cols, n, i) == None
    decreases n
  {
    if n > 0 {
      NoFirst(cols, n - 1, i);
    }
  }

  lemma {:induction false} FirstWithIs(cols: seq<Col>, n: nat, k: nat, i: int)
    requires k < n <= |cols| && Covers(cols[k], i) && forall m | 0 <= m < k :: !Covers(cols[m], i)
    ensures First(cols, n, i) == Some(cols[k].attrs)
    decreases n
  {
    if k < n - 1 {
      FirstWithIs(cols, n - 1, k, i);
    } else {
      NoFirst(cols, k, i);
    }
  }

  /** The attributes of a column that takes the attribute being set from `x` and all others from `y`. */
  predicate Mixed(s: Setter, a: Attrs, x: Attrs, y: Attrs) {
    && a.bestFit == y.bestFit && a.collapsed == y.collapsed && a.phonetic == y.phonetic
    && a.hidden == (if s == SetVisible then x.hidden else y.hidden)
    && a.outlineLevel == (if s == SetOutlineLevel then x.outlineLevel else y.outlineLevel)
    && a.style == (if s == SetStyle then x.style else y.style)
    && a.customWidth == (if s == SetWidth then x.customWidth else y.customWidth)
    && a.width == (if s == SetWidth then x.width else y.width)
  }

  /** A column of the new range: what is being set is new, the rest is that of the last old range with the column in
      it; without such a range all is new. */
  lemma NewColumn(s: Setter, col: Col, cols: seq<Col>, fc: seq<Col>, i: int, k: nat)
    requires Represents(fc, After(s, col, cols, |cols|)) && col.min <= i && i <= col.max
    requires if k < |cols| then LastWith(cols, k, i) else forall m | 0 <= m < |cols| :: !(cols[m].min <= i && i <= cols[m].max)
    ensures exists a | 0 <= a < |fc| ::
              fc[a].min == i && fc[a].max == i && Mixed(s, fc[a].attrs, col.attrs, if k < |cols| then cols[k].attrs else col.attrs)
  {
    ExpectedIs(s, col, cols, |cols|, i);
    if k < |cols| {
      LastWithIs(cols, |cols|, k, i);
    } else {
      NoFirst(cols, |cols|, i);
    }
    EntryIs(s, col, cols, fc, i);
  }

  lemma EntryIs(s: Setter, col: Col, cols: seq<Col>, fc: seq<Col>, i: int)
    requires Represents(fc, After(s, col, cols, |cols|)) && Expected(s, col, cols, |cols|, i).Some?
    ensures exists a | 0 <= a < |fc| ::
              fc[a].min == i && fc[a].max == i && fc[a].attrs == Expected(s, col, cols, |cols|, i).value
  {
    assert After(s, col, cols, |cols|)(i).Some?;
    assert HasEntry(fc, i);
    var a :| 0 <= a < |fc| && fc[a].min == i;
    assert fc[a].max == i;
  }

  /** A column outside the new range: what is being set is that of the first old range with the column in it, the rest
      that of the last. */
  lemma OldColumn(s: Setter, col: Col, cols: seq<Col>, fc: seq<Col>, i: int, j: nat, k: nat)
    requires Represents(fc, After(s, col, cols, |cols|)) && !(col.min <= i && i <= col.max)
    requires FirstWith(cols, j, i) && LastWith(cols, k, i)
    ensures exists a | 0 <= a < |fc| :: fc[a].min == i && fc[a].max == i && Mixed(s, fc[a].attrs, cols[j].attrs, cols[k].attrs)
  {
    ExpectedIs(s, col, cols, |cols|, i);
    FirstWithIs(cols, |cols|, j, i);
    LastWithIs(cols, |cols|, k, i);
    EntryIs(s, col, cols, fc, i);
  }

  /** And no other column has an entry. */
  lemma NoColumn(s: Setter, col: Col, cols: seq<Col>, fc: seq<Col>, a: nat)
    requires Represents(fc, After(s, col, cols, |cols|)) && a < |fc|
    ensures var i := fc[a].min;
            (col.min <= i && i <= col.max) || exists m | 0 <= m < |cols| :: cols[m].min <= i && i <= cols[m].max
  {
    var i := fc[a].min;
    ExpectedIs(s, col, cols, |cols|, i);
    if forall m | 0 <= m < |cols| :: !Covers(cols[m], i) {
      NoFirst(cols, |cols|, i);
      assert After(s, col, cols, |cols|)(i).Some?;
    }
  }
}

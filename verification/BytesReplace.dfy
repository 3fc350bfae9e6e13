/**
 Replacement of text inside one buffer (backend/excelize/lib.go), where what is
 written must not run over what is still to be read.
 */
module BytesReplace {

  /** `pat` stands in `s` at position `i`. */
  predicate At<T(==)>(s: seq<T>, i: nat, pat: seq<T>) {
    i + |pat| <= |s| && s[i..i + |pat|] == pat
  }

  /** What is made of `s[i..]`: the first `n` occurrences of `pat`, left to right without overlap, replaced by `rep`. */
  ghost function Replaced<T>(s: seq<T>, i: nat, pat: seq<T>, rep: seq<T>, n: nat): seq<T>
    requires i <= |s|
    decreases |s| - i
  {
    if n == 0 || i == |s| || pat == [] then s[i..]
    else if At(s, i, pat) then rep + Replaced(s, i + |pat|, pat, rep, n - 1)
    else [s[i]] + Replaced(s, i + 1, pat, rep, n)
  }

  /** `pat` starts nowhere in `s` from `i` up to `j`. */
  ghost predicate Absent<T>(s: seq<T>, i: nat, j: nat, pat: seq<T>) {
    forall k :: i <= k < j ==> !At(s, k, pat)
  }

  lemma {:induction false} ReplacedSkip<T>(s: seq<T>, i: nat, j: nat, pat: seq<T>, rep: seq<T>, n: nat)
    requires i <= j <= |s| && pat != [] && n > 0 && Absent(s, i, j, pat)
    ensures Replaced(s, i, pat, rep, n) == s[i..j] + Replaced(s, j, pat, rep, n)
    decreases j - i
  {
    if i < j {
      var tail := Replaced(s, j, pat, rep, n);
      ReplacedSkip(s, i + 1, j, pat, rep, n);
      assert !At(s, i, pat);
      assert Replaced(s, i, pat, rep, n) == [s[i]] + (s[i + 1..j] + tail);
      assert s[i..j] + tail == [s[i]] + (s[i + 1..j] + tail);
    } else {
      assert s[i..j] + Replaced(s, j, pat, rep, n) == Replaced(s, j, pat, rep, n);
    }
  }

  /** Written below `w`, unread from `i`, with `n` replacements left: what is missing makes up `total`. */
  ghost predicate Progress<T>(out: seq<T>, was: seq<T>, i: nat, pat: seq<T>, rep: seq<T>, n: nat, total: seq<T>)
    requires i <= |was|
  {
    out + Replaced(was, i, pat, rep, n) == total
  }

  /** One turn of the loop: `was[i..j]` is kept, the occurrence at `j` replaced. */
  lemma Turn<T>(done: seq<T>, was: seq<T>, i: nat, j: nat, pat: seq<T>, rep: seq<T>, n: nat, total: seq<T>,
                out: seq<T>, i': nat, n': nat)
    requires i <= j && n > 0 && |rep| <= |pat| && Absent(was, i, j, pat) && At(was, j, pat)
    requires Progress(done, was, i, pat, rep, n, total)
    requires out == done + (was[i..j] + rep) && i' == j + |pat| && n' == n - 1
    ensures Progress(out, was, i', pat, rep, n', total)
  {
    if pat == [] {
      assert i == j by {
        assert i < j ==> At(was, i, pat);
      }
      assert Replaced(was, j, pat, rep, n') == was[j..];
    } else if j < |was| {
      ReplacedSkip(was, i, j, pat, rep, n);
      var chunk, tail := was[i..j], Replaced(was, i', pat, rep, n');
      assert done + (chunk + (rep + tail)) == out + tail;
    }
  }

  /** `bytes.Index` on `s[i:]`: the distance to the first occurrence, or -1. */
  method Index<T(==)>(s: array<T>, i: nat, pat: seq<T>) returns (wid: int)
    requires i <= s.Length
    ensures wid >= 0 ==> Absent(s[..], i, i + wid, pat) && At(s[..], i + wid, pat)
    ensures wid < 0 ==> wid == -1 && Absent(s[..], i, s.Length + 1, pat)
  {
    var k := i;
    while k <= s.Length
      invariant i <= k <= s.Length + 1 && Absent(s[..], i, k, pat)
    {
      if At(s[..], k, pat) {
        return k - i;
      }
      k := k + 1;
    }
    return -1;
  }

  /** The built-in `copy` into `s[w:]`; source and destination may overlap. */
  method Copy<T>(s: array<T>, w: nat, src: seq<T>) returns (n: nat)
    requires w <= s.Length
    modifies s
    ensures n == if |src| <= s.Length - w then |src| else s.Length - w
    ensures s[..w + n] == old(s[..w]) + src[..n]
    ensures forall k :: w + n <= k < s.Length ==> s[k] == old(s[k])
  {
    n := if |src| <= s.Length - w then |src| else s.Length - w;
    forall k | 0 <= k < n {
      s[w + k] := src[k];
    }
  }

  lemma SameTail<T>(s: seq<T>, t: seq<T>, i: nat, j: nat, pat: seq<T>)
    requires |s| == |t| && forall k :: i <= k < |s| ==> s[k] == t[k]
    ensures Absent(s, i, j, pat) == Absent(t, i, j, pat)
    ensures i <= j ==> At(s, j, pat) == At(t, j, pat)
  {
    forall k | i <= k ensures At(s, k, pat) == At(t, k, pat) {
      if k + |pat| <= |s| {
        assert s[k..k + |pat|] == t[k..k + |pat|];
      }
    }
  }

  /** The two copies of a turn: `s[i..j]` moves down to `w`, then `rep` is written behind it. */
  method Emit<T>(s: array<T>, w: nat, i: nat, j: nat, rep: seq<T>) returns (w': nat)
    requires w <= i <= j && j + |rep| <= s.Length
    modifies s
    ensures w' == w + (j - i) + |rep|
    ensures s[..w'] == old(s[..w]) + (old(s[i..j]) + rep)
    ensures forall k :: w' <= k < s.Length ==> s[k] == old(s[k])
  {
    ghost var was := s[..];
    var c := Copy(s, w, s[i..j]);
    w' := w + c;
    assert s[..w'] == was[..w] + was[i..j];
    c := Copy(s, w', rep);
    w' := w' + c;
    assert s[..w'] == was[..w] + (was[i..j] + rep);
  }

  lemma Finish<T>(out: seq<T>, was: seq<T>, i: nat, pat: seq<T>, rep: seq<T>, n: nat, total: seq<T>)
    requires i <= |was| && Progress(out, was, i, pat, rep, n, total)
    requires n == 0 || Absent(was, i, |was|, pat)
    ensures out + was[i..] == total
  {
    if pat != [] && n > 0 {
      ReplacedSkip(was, i, |was|, pat, rep, n);
      assert was[i..|was|] == was[i..] && was[i..] + [] == was[i..];
    }
  }

  /** One turn of the loop, up to an occurrence `wid` further on. */
  method ReplaceNext<T>(s: array<T>, w: nat, i: nat, wid: nat, pat: seq<T>, rep: seq<T>,
                        ghost was: seq<T>, ghost n: nat, ghost total: seq<T>)
    returns (w': nat, i': nat, ghost n': nat)
    requires w <= i <= |was| == s.Length && |rep| <= |pat| && n > 0
    requires forall k :: i <= k < s.Length ==> s[k] == was[k]
    requires Absent(was, i, i + wid, pat) && At(was, i + wid, pat)
    requires Progress(s[..w], was, i, pat, rep, n, total)
    modifies s
    ensures i' == i + wid + |pat| && n' == n - 1 && w' <= i'
    ensures forall k :: i' <= k < s.Length ==> s[k] == was[k]
    ensures Progress(s[..w'], was, i', pat, rep, n', total)
  {
    ghost var chunk := s[i..i + wid];
    ghost var out := s[..w] + (chunk + rep);
    assert chunk == was[i..i + wid];
    i' := i + wid + |pat|;
    n' := n - 1;
    Turn(s[..w], was, i, i + wid, pat, rep, n, total, out, i', n');
    w' := Emit(s, w, i, i + wid, rep);
    assert s[..w'] == out;
  }

  /** The last copy: everything unread moves down. */
  method EmitRest<T>(s: array<T>, w: nat, i: nat, pat: seq<T>, rep: seq<T>,
                     ghost was: seq<T>, ghost n: nat, ghost total: seq<T>) returns (w': nat)
    requires w <= i <= |was| == s.Length
    requires forall k :: i <= k < s.Length ==> s[k] == was[k]
    requires n == 0 || Absent(was, i, |was|, pat)
    requires Progress(s[..w], was, i, pat, rep, n, total)
    modifies s
    ensures w' <= s.Length && s[..w'] == total
  {
    ghost var done, rest := s[..w], s[i..];
    assert rest == was[i..];
    Finish(done, was, i, pat, rep, n, total);
    var c := Copy(s, w, s[i..]);
    w' := w + c;
    assert s[..w'] == done + rest;
  }

  /**
   `bytesReplace` when the replacement is not longer.  The result is `s[..w]`,
   built in `s` itself: the write index never passes the read index.
   */
  method ReplaceInPlace<T(==)>(s: array<T>, pat: seq<T>, rep: seq<T>, n: int) returns (w: nat)
    requires |rep| <= |pat|
    modifies s
    ensures w <= s.Length
    ensures s[..w] == Replaced(old(s[..]), 0, pat, rep, if n < 0 then s.Length else n)
  {
    if n == 0 {
      return s.Length;
    }
    ghost var was := s[..];
    var max := if n < 0 then s.Length else n;
    ghost var total := Replaced(was, 0, pat, rep, max);
    ghost var left: nat := max;
    var i: nat, j: nat := 0, 0;
    w := 0;
    while i < s.Length && j < max
      invariant w <= i <= s.Length && left == max - j
      invariant forall k :: i <= k < s.Length ==> s[k] == was[k]
      invariant Progress(s[..w], was, i, pat, rep, left, total)
      decreases max - j
    {
      var wid := Index(s, i, pat);
      SameTail(s[..], was, i, if wid < 0 then s.Length + 1 else i + wid, pat);
      if wid < 0 {
        break;
      }
      w, i, left := ReplaceNext(s, w, i, wid, pat, rep, was, left, total);
      j := j + 1;
    }
    w := EmitRest(s, w, i, pat, rep, was, left, total);
  }

  /** As many replacements as bytes are no limit: a negative count asks for all occurrences. */
  lemma {:induction false} CountEnough<T>(s: seq<T>, i: nat, pat: seq<T>, rep: seq<T>, m: nat, n: nat)
    requires i <= |s| && |s| - i <= m && |s| - i <= n
    ensures Replaced(s, i, pat, rep, m) == Replaced(s, i, pat, rep, n)
    decreases |s| - i
  {
    if i < |s| && pat != [] {
      if At(s, i, pat) {
        CountEnough(s, i + |pat|, pat, rep, m - 1, n - 1);
      } else {
        CountEnough(s, i + 1, pat, rep, m, n);
      }
    }
  }
}

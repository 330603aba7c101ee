/** The move/merge resolver of Main.java:220-238 and the row-by-row pass
 *  over one column of the turned board (Main.java:156-194), as functions
 *  over that column, together with the proof that the pass computes the
 *  reference slide of Lines. */
module Resolver {
  import opened Lines

  /** Where a tile goes: the source's pair {row, -1} is Move(row) and
   *  {row, -2} is Merge(row). */
  datatype Outcome = Move(row: int) | Merge(row: int)

  /** Scanning up column col from row r towards row 0, but not above the
   *  barrier stop, find where the tile of value v at row r moves or merges. */
  function WhereToMove(col: seq<int>, r: nat, v: int, stop: nat): (o: Outcome)
    requires r < |col|
    decreases r
    ensures stop <= r ==> stop <= o.row <= r
    ensures stop > r ==> o == Move(r)
    ensures o.Merge? ==> stop <= o.row < r && col[o.row] == v
    ensures o.Move? && o.row < r ==> col[o.row] == 0
    ensures o.Move? && stop < o.row ==> col[o.row - 1] != 0 && col[o.row - 1] != v
    ensures forall k :: o.row < k < r ==> col[k] == 0
  {
    if r - 1 < stop then Move(r)
    else if col[r - 1] == v then Merge(r - 1)
    else if col[r - 1] != 0 then Move(r)
    else WhereToMove(col, r - 1, v, stop)
  }

  /** A merge: the row it lands on and the value it creates. */
  datatype MergeEvent = MergeEvent(into: nat, value: int)

  /** The state of the pass over one column: the column so far, the merge
   *  barrier (the source's `merged`), the merges so far, and whether
   *  anything moved or merged. */
  datatype Pass = Pass(cells: seq<int>, barrier: nat, merges: seq<MergeEvent>, changed: bool)

  function Values(ms: seq<MergeEvent>): (vs: seq<int>)
    ensures |vs| == |ms| && forall i :: 0 <= i < |ms| ==> vs[i] == ms[i].value
  {
    seq(|ms|, i requires 0 <= i < |ms| => ms[i].value)
  }

  /** Process the tile (if any) at row r of the column. */
  function StepRow(p: Pass, r: nat): (q: Pass)
    requires r < |p.cells|
    ensures |q.cells| == |p.cells|
  {
    var v := p.cells[r];
    if v == 0 then p
    else match WhereToMove(p.cells, r, v, p.barrier)
      case Move(t) =>
        if t != r then p.(cells := p.cells[t := v][r := 0], changed := true) else p
      case Merge(t) =>
        Pass(p.cells[t := 2 * v][r := 0], t + 1, p.merges + [MergeEvent(t, 2 * v)], true)
  }

  /** The pass over rows 0 .. k-1 of col, starting with barrier 0. */
  function ColumnPass(col: seq<int>, k: nat): (p: Pass)
    requires k <= |col|
    ensures |p.cells| == |col|
  {
    if k == 0 then Pass(col, 0, [], false) else StepRow(ColumnPass(col, k - 1), k - 1)
  }

  /** Against a column whose first m squares hold tiles and whose squares
   *  m .. r-1 are empty, the resolver merges into row m-1 exactly when that
   *  tile lies at or below the barrier and equals v; otherwise it moves the
   *  tile up to row m. */
  lemma ResolveAgainstPacked(cells: seq<int>, m: nat, r: nat, v: int, b: nat)
    requires r < |cells| && m <= r && b <= m
    requires forall i :: 0 <= i < m ==> cells[i] != 0
    requires forall i :: m <= i < r ==> cells[i] == 0
    requires v != 0
    ensures WhereToMove(cells, r, v, b) == if b < m && cells[m - 1] == v then Merge(m - 1) else Move(m)
  {
    var o := WhereToMove(cells, r, v, b);
    if o.Move? && b < o.row {
      assert cells[o.row - 1] != 0;
    }
  }

  /** The column p.cells after the pass over rows 0 .. k-1 of col, given the
   *  tiles out that those rows collapse to: out packed against row 0, then
   *  empty squares up to row k-1, then rows k .. of the input as they were;
   *  and a change has been reported exactly when some row above k differs
   *  from the input. */
  ghost predicate Shape(col: seq<int>, k: nat, p: Pass, out: seq<int>)
  {
    k <= |col| && |out| <= k && |p.cells| == |col| &&
    (forall i :: 0 <= i < |out| ==> p.cells[i] == out[i]) &&
    (forall i :: |out| <= i < k ==> p.cells[i] == 0) &&
    (forall i :: k <= i < |col| ==> p.cells[i] == col[i]) &&
    (p.changed <==> exists i :: 0 <= i < k && p.cells[i] != col[i])
  }

  /** What the pass over rows 0 .. k-1 of col has built: the shape above for
   *  the reference's tiles; a barrier below the last tile exactly when that
   *  tile may still merge; and the reference's merges. */
  ghost predicate Tracks(col: seq<int>, k: nat, p: Pass)
    requires k <= |col|
  {
    var xs := NonZeros(col[..k]);
    Shape(col, k, p, Collapse(xs)) &&
    (if Open(xs) then p.barrier < |Collapse(xs)| else p.barrier == |Collapse(xs)|) &&
    Values(p.merges) == MergeValues(xs)
  }

  /** Reading one more row of the input. */
  lemma NextRow(col: seq<int>, j: nat)
    requires j < |col|
    ensures NonZeros(col[..j + 1]) == NonZeros(col[..j]) + (if col[j] != 0 then [col[j]] else [])
  {
    assert col[..j + 1][..j] == col[..j];
  }

  /** Processing an empty square changes nothing. */
  lemma TrackEmpty(col: seq<int>, j: nat, p: Pass)
    requires j < |col| && Tracks(col, j, p) && col[j] == 0
    ensures Tracks(col, j + 1, StepRow(p, j))
  {
    NextRow(col, j);
    assert NonZeros(col[..j + 1]) == NonZeros(col[..j]);
  }

  /** A tile that merges lands on the last packed tile. */
  lemma StepMerge(p: Pass, m: nat, j: nat)
    requires j < |p.cells| && p.cells[j] != 0 && 0 < m <= j
    requires forall i :: 0 <= i < m ==> p.cells[i] != 0
    requires forall i :: m <= i < j ==> p.cells[i] == 0
    requires p.barrier < m && p.cells[m - 1] == p.cells[j]
    ensures StepRow(p, j) == Pass(p.cells[m - 1 := 2 * p.cells[j]][j := 0], m,
                                  p.merges + [MergeEvent(m - 1, 2 * p.cells[j])], true)
  {
    ResolveAgainstPacked(p.cells, m, j, p.cells[j], p.barrier);
  }

  /** A tile that does not merge moves up to the first empty square. */
  lemma StepMove(p: Pass, m: nat, j: nat)
    requires j < |p.cells| && p.cells[j] != 0 && m <= j && p.barrier <= m
    requires forall i :: 0 <= i < m ==> p.cells[i] != 0
    requires forall i :: m <= i < j ==> p.cells[i] == 0
    requires !(p.barrier < m && p.cells[m - 1] == p.cells[j])
    ensures StepRow(p, j) == if m == j then p else p.(cells := p.cells[m := p.cells[j]][j := 0], changed := true)
  {
    ResolveAgainstPacked(p.cells, m, j, p.cells[j], p.barrier);
  }

  lemma ShapeAfterMerge(col: seq<int>, j: nat, p: Pass, q: Pass, out: seq<int>)
    requires j < |col| && Shape(col, j, p, out) && |out| > 0 && col[j] != 0
    requires q.cells == p.cells[|out| - 1 := 2 * col[j]][j := 0] && q.changed
    ensures Shape(col, j + 1, q, out[..|out| - 1] + [2 * col[j]])
  {
    var out' := out[..|out| - 1] + [2 * col[j]];
    forall i | 0 <= i < |out'|
      ensures q.cells[i] == out'[i]
    {
      if i < |out| - 1 {
        assert out'[i] == out[i];
      }
    }
    assert q.cells[j] != col[j];
  }

  /** What Tracks says about the squares and the barrier, spelled out. */
  lemma TracksPrefix(col: seq<int>, j: nat, p: Pass)
    requires j <= |col| && Tracks(col, j, p)
    ensures |Collapse(NonZeros(col[..j]))| <= j
    ensures forall i :: 0 <= i < |Collapse(NonZeros(col[..j]))| ==> p.cells[i] != 0
    ensures forall i :: |Collapse(NonZeros(col[..j]))| <= i < j ==> p.cells[i] == 0
    ensures Open(NonZeros(col[..j])) ==>
      0 < |Collapse(NonZeros(col[..j]))| && p.barrier < |Collapse(NonZeros(col[..j]))| &&
      p.cells[|Collapse(NonZeros(col[..j]))| - 1] == NonZeros(col[..j])[|NonZeros(col[..j])| - 1]
    ensures !Open(NonZeros(col[..j])) ==> p.barrier == |Collapse(NonZeros(col[..j]))|
  {
    var xs := NonZeros(col[..j]);
    CollapseNoZero(xs);
    if Open(xs) {
      OpenLast(xs);
    }
  }

  /** The step at row j when the tile merges, in terms of Tracks. */
  lemma StepMergeTracked(col: seq<int>, j: nat, p: Pass)
    requires j < |col| && Tracks(col, j, p) && col[j] != 0
    requires Open(NonZeros(col[..j])) && NonZeros(col[..j])[|NonZeros(col[..j])| - 1] == col[j]
    ensures 0 < |Collapse(NonZeros(col[..j]))| <= j
    ensures StepRow(p, j) ==
      Pass(p.cells[|Collapse(NonZeros(col[..j]))| - 1 := 2 * col[j]][j := 0],
           |Collapse(NonZeros(col[..j]))|,
           p.merges + [MergeEvent(|Collapse(NonZeros(col[..j]))| - 1, 2 * col[j])], true)
  {
    TracksPrefix(col, j, p);
    StepMerge(p, |Collapse(NonZeros(col[..j]))|, j);
  }

  /** The step at row j when the tile does not merge, in terms of Tracks. */
  lemma StepMoveTracked(col: seq<int>, j: nat, p: Pass)
    requires j < |col| && Tracks(col, j, p) && col[j] != 0
    requires !(Open(NonZeros(col[..j])) && NonZeros(col[..j])[|NonZeros(col[..j])| - 1] == col[j])
    ensures |Collapse(NonZeros(col[..j]))| <= j
    ensures StepRow(p, j) ==
      if |Collapse(NonZeros(col[..j]))| == j then p
      else p.(cells := p.cells[|Collapse(NonZeros(col[..j]))| := col[j]][j := 0], changed := true)
  {
    TracksPrefix(col, j, p);
    StepMove(p, |Collapse(NonZeros(col[..j]))|, j);
  }

  /** Tracks from its parts, for a given reading of the input. */
  lemma TracksIntro(col: seq<int>, k: nat, p: Pass, xs: seq<int>, out: seq<int>)
    requires k <= |col| && NonZeros(col[..k]) == xs && Collapse(xs) == out
    requires Shape(col, k, p, out)
    requires if Open(xs) then p.barrier < |out| else p.barrier == |out|
    requires Values(p.merges) == MergeValues(xs)
    ensures Tracks(col, k, p)
  {
  }

  /** A tile that already sits right behind the packed tiles stays. */
  lemma ShapeAfterStay(col: seq<int>, j: nat, p: Pass, out: seq<int>)
    requires j < |col| && Shape(col, j, p, out) && |out| == j
    ensures Shape(col, j + 1, p, out + [col[j]])
  {
    var out' := out + [col[j]];
    forall i | 0 <= i < |out'|
      ensures p.cells[i] == out'[i]
    {
      if i < |out| {
        assert out'[i] == out[i];
      }
    }
    if exists i :: 0 <= i < j + 1 && p.cells[i] != col[i] {
      var i :| 0 <= i < j + 1 && p.cells[i] != col[i];
      assert i < j;
    }
  }

  /** A tile that moves up lands right behind the packed tiles. */
  lemma ShapeAfterMove(col: seq<int>, j: nat, p: Pass, q: Pass, out: seq<int>)
    requires j < |col| && Shape(col, j, p, out) && |out| < j && col[j] != 0
    requires q.cells == p.cells[|out| := col[j]][j := 0] && q.changed
    ensures Shape(col, j + 1, q, out + [col[j]])
  {
    var out' := out + [col[j]];
    forall i | 0 <= i < |out'|
      ensures q.cells[i] == out'[i]
    {
      if i < |out| {
        assert out'[i] == out[i];
      }
    }
    assert q.cells[j] != col[j];
  }

  /** A merge event's value extends the merged values. */
  lemma ValuesSnoc(ms: seq<MergeEvent>, e: MergeEvent)
    ensures Values(ms + [e]) == Values(ms) + [e.value]
  {
    assert forall i :: 0 <= i < |ms| ==> (ms + [e])[i] == ms[i];
  }

  /** Reading a tile at row j that merges into the last collapsed tile. */
  lemma ReadMerging(col: seq<int>, j: nat, xs: seq<int>, out: seq<int>)
    requires j < |col| && col[j] != 0 && NonZeros(col[..j]) == xs && Collapse(xs) == out
    requires Open(xs) && |xs| > 0 && xs[|xs| - 1] == col[j]
    ensures NonZeros(col[..j + 1]) == xs + [col[j]]
    ensures |out| > 0 && Collapse(xs + [col[j]]) == out[..|out| - 1] + [2 * col[j]]
    ensures MergeValues(xs + [col[j]]) == MergeValues(xs) + [2 * col[j]]
    ensures !Open(xs + [col[j]])
  {
    NextRow(col, j);
    CollapseSnocMerge(xs, col[j]);
  }

  /** Reading a tile at row j that is appended behind the collapsed tiles. */
  lemma ReadAppending(col: seq<int>, j: nat, xs: seq<int>, out: seq<int>)
    requires j < |col| && col[j] != 0 && NonZeros(col[..j]) == xs && Collapse(xs) == out
    requires !(Open(xs) && xs[|xs| - 1] == col[j])
    ensures NonZeros(col[..j + 1]) == xs + [col[j]]
    ensures Collapse(xs + [col[j]]) == out + [col[j]]
    ensures MergeValues(xs + [col[j]]) == MergeValues(xs)
    ensures Open(xs + [col[j]])
  {
    NextRow(col, j);
    CollapseSnocAppend(xs, col[j]);
  }

  /** Processing a tile that merges keeps Tracks; xs are the tiles read
   *  so far and out their reference merge. */
  lemma TrackMerge(col: seq<int>, j: nat, p: Pass, q: Pass, xs: seq<int>, out: seq<int>)
    requires j < |col| && col[j] != 0 && NonZeros(col[..j]) == xs && Collapse(xs) == out
    requires Shape(col, j, p, out) && Values(p.merges) == MergeValues(xs)
    requires Open(xs) && |xs| > 0 && xs[|xs| - 1] == col[j] && 0 < |out| <= j
    requires q == Pass(p.cells[|out| - 1 := 2 * col[j]][j := 0], |out|,
                       p.merges + [MergeEvent(|out| - 1, 2 * col[j])], true)
    ensures Tracks(col, j + 1, q)
  {
    ReadMerging(col, j, xs, out);
    ShapeAfterMerge(col, j, p, q, out);
    ValuesSnoc(p.merges, MergeEvent(|out| - 1, 2 * col[j]));
    TracksIntro(col, j + 1, q, xs + [col[j]], out[..|out| - 1] + [2 * col[j]]);
  }

  /** Processing a tile that already sits behind the packed tiles keeps
   *  Tracks. */
  lemma TrackStay(col: seq<int>, j: nat, p: Pass, xs: seq<int>, out: seq<int>)
    requires j < |col| && col[j] != 0 && NonZeros(col[..j]) == xs && Collapse(xs) == out
    requires Shape(col, j, p, out) && Values(p.merges) == MergeValues(xs)
    requires !(Open(xs) && xs[|xs| - 1] == col[j]) && |out| == j && p.barrier <= |out|
    ensures Tracks(col, j + 1, p)
  {
    ReadAppending(col, j, xs, out);
    ShapeAfterStay(col, j, p, out);
    TracksIntro(col, j + 1, p, xs + [col[j]], out + [col[j]]);
  }

  /** Processing a tile that moves up keeps Tracks. */
  lemma TrackMove(col: seq<int>, j: nat, p: Pass, q: Pass, xs: seq<int>, out: seq<int>)
    requires j < |col| && col[j] != 0 && NonZeros(col[..j]) == xs && Collapse(xs) == out
    requires Shape(col, j, p, out) && Values(p.merges) == MergeValues(xs)
    requires !(Open(xs) && xs[|xs| - 1] == col[j]) && |out| < j && p.barrier <= |out|
    requires q == p.(cells := p.cells[|out| := col[j]][j := 0], changed := true)
    ensures Tracks(col, j + 1, q)
  {
    ReadAppending(col, j, xs, out);
    ShapeAfterMove(col, j, p, q, out);
    TracksIntro(col, j + 1, q, xs + [col[j]], out + [col[j]]);
  }

  /** Processing row j keeps Tracks. */
  lemma TrackStep(col: seq<int>, j: nat, p: Pass, q: Pass)
    requires j < |col| && Tracks(col, j, p) && q == StepRow(p, j)
    ensures Tracks(col, j + 1, q)
  {
    var xs := NonZeros(col[..j]);
    if col[j] == 0 {
      TrackEmpty(col, j, p);
    } else if Open(xs) && xs[|xs| - 1] == col[j] {
      StepMergeTracked(col, j, p);
      TrackMerge(col, j, p, q, xs, Collapse(xs));
    } else {
      StepMoveTracked(col, j, p);
      if |Collapse(xs)| == j {
        TrackStay(col, j, p, xs, Collapse(xs));
      } else {
        TrackMove(col, j, p, q, xs, Collapse(xs));
      }
    }
  }

  /** Tracks at equal row counts. */
  lemma TracksAt(col: seq<int>, a: nat, b: nat, p: Pass)
    requires a == b && a <= |col| && Tracks(col, a, p)
    ensures Tracks(col, b, p)
  {
  }

  /** Processing row k-1 keeps Tracks, stated at k. */
  lemma TrackStepAt(col: seq<int>, k: nat, p: Pass, q: Pass)
    requires 0 < k <= |col| && Tracks(col, k - 1, p) && q == StepRow(p, k - 1)
    ensures Tracks(col, k, q)
  {
    TrackStep(col, k - 1, p, q);
    TracksAt(col, k - 1 + 1, k, q);
  }

  /** Before any row is read the pass tracks the empty reading. */
  lemma TrackStart(col: seq<int>)
    ensures Tracks(col, 0, ColumnPass(col, 0))
  {
    assert col[..0] == [];
  }

  /** The pass over rows 0 .. k-1 keeps Tracks. */
  lemma {:induction false} PassTracksReference(col: seq<int>, k: nat)
    requires k <= |col|
    ensures Tracks(col, k, ColumnPass(col, k))
  {
    if k == 0 {
      TrackStart(col);
    } else {
      PassTracksReference(col, k - 1);
      TrackStepAt(col, k, ColumnPass(col, k - 1), ColumnPass(col, k));
    }
  }

  /** A finished pass holds its tiles, then empty squares. */
  lemma ShapeLayout(col: seq<int>, p: Pass, out: seq<int>)
    requires Shape(col, |col|, p, out)
    ensures p.cells == out + Zeros(|col| - |out|)
  {
  }

  /** A finished pass has reported a change exactly when the column changed. */
  lemma ShapeChanged(col: seq<int>, p: Pass, out: seq<int>)
    requires Shape(col, |col|, p, out)
    ensures p.changed <==> p.cells != col
  {
    if p.changed {
      var i :| 0 <= i < |col| && p.cells[i] != col[i];
    }
  }

  /** The pass over a whole column computes the reference slide, reports a
   *  change exactly when the column changed, and records the reference's
   *  merges. */
  lemma ColumnPassIsSlide(col: seq<int>)
    ensures ColumnPass(col, |col|).cells == Slide(col)
    ensures ColumnPass(col, |col|).changed <==> Slide(col) != col
    ensures Values(ColumnPass(col, |col|).merges) == MergeValues(NonZeros(col))
  {
    PassTracksReference(col, |col|);
    assert col[..|col|] == col;
    var out := Collapse(NonZeros(col));
    ShapeLayout(col, ColumnPass(col, |col|), out);
    ShapeChanged(col, ColumnPass(col, |col|), out);
  }

  /** The rows merged into rise strictly within one pass and lie above the
   *  barrier, so no square absorbs two merges in one tilt. */
  lemma {:induction false} MergesOncePerSquare(col: seq<int>, k: nat)
    requires k <= |col|
    ensures forall i, j :: 0 <= i < j < |ColumnPass(col, k).merges| ==>
              ColumnPass(col, k).merges[i].into < ColumnPass(col, k).merges[j].into
    ensures forall i :: 0 <= i < |ColumnPass(col, k).merges| ==>
              ColumnPass(col, k).merges[i].into < ColumnPass(col, k).barrier
  {
    if k > 0 {
      MergesOncePerSquare(col, k - 1);
      var p := ColumnPass(col, k - 1);
      var q := ColumnPass(col, k);
      var r := k - 1;
      assert q == StepRow(p, r);
      if p.cells[r] != 0 {
        var o := WhereToMove(p.cells, r, p.cells[r], p.barrier);
        if o.Merge? {
          assert p.barrier <= o.row;
          assert q.merges == p.merges + [MergeEvent(o.row, 2 * p.cells[r])];
          assert q.barrier == o.row + 1;
        } else {
          assert q.merges == p.merges;
          assert q.barrier == p.barrier;
        }
      }
    }
  }

  /** A second pass over a column can merge again: tiles merged by one pass
   *  may become equal neighbours of the next tile, which the barrier kept
   *  apart during that pass. */
  lemma PassNotIdempotent()
    ensures ColumnPass([2, 2, 4, 0], 4).cells == [4, 4, 0, 0]
    ensures ColumnPass([4, 4, 0, 0], 4).cells == [8, 0, 0, 0]
  {
  }
}

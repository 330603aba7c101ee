/** The whole tilt of Main.java:143-202 as a function of the board: turn
 *  the board so that the chosen side faces north, run the column pass over
 *  every column, and turn the result back. What the tilt promises is
 *  proved here: it reports a change exactly when the board changed, packs
 *  every line against the chosen side, keeps the sum of the tiles, removes
 *  one tile per merge, and a board that the game declares over cannot be
 *  tilted while every other non-empty board can. */
module Tilting {
  import opened Sides
  import opened Lines
  import opened Resolver
  import opened Scoring

  /** Column c of g, read from row 0 down. */
  function Column(g: Grid, c: int): (s: seq<int>)
    requires IsGrid(g) && 0 <= c < SIZE
    ensures |s| == SIZE
  {
    seq(SIZE, i requires 0 <= i < SIZE => g[i][c])
  }

  /** The pass over every column of the turned board t. */
  function Passes(t: Grid): (ps: seq<Pass>)
    requires IsGrid(t)
    ensures |ps| == SIZE
    ensures forall c :: 0 <= c < SIZE ==> |ps[c].cells| == SIZE
  {
    seq(SIZE, c requires 0 <= c < SIZE => ColumnPass(Column(t, c), SIZE))
  }

  /** The turned board whose columns are the passes' results. */
  function Assemble(ps: seq<Pass>): (t: Grid)
    requires |ps| == SIZE && forall c :: 0 <= c < SIZE ==> |ps[c].cells| == SIZE
    ensures IsGrid(t)
  {
    seq(SIZE, i requires 0 <= i < SIZE => seq(SIZE, c requires 0 <= c < SIZE => ps[c].cells[i]))
  }

  /** The merged values of columns 0 .. c-1, column by column. */
  function MergedValues(ps: seq<Pass>, c: nat): seq<int>
    requires c <= |ps|
  {
    if c == 0 then [] else MergedValues(ps, c - 1) + Values(ps[c - 1].merges)
  }

  /** Result of a tilt: the new board, whether anything moved or merged, and
   *  the values the merges created, in the order they were made. */
  datatype Tilted = Tilted(grid: Grid, changed: bool, merges: seq<int>)

  function Tilt(g: Grid, side: Side): (r: Tilted)
    requires IsGrid(g)
    ensures IsGrid(r.grid)
  {
    var ps := Passes(Turn(g, side));
    Tilted(Unturn(Assemble(ps), side),
           exists c :: 0 <= c < SIZE && ps[c].changed,
           MergedValues(ps, SIZE))
  }

  /** Column c of the assembled board is the pass over column c. */
  lemma AssembledColumn(ps: seq<Pass>, c: int)
    requires |ps| == SIZE && forall c :: 0 <= c < SIZE ==> |ps[c].cells| == SIZE
    requires 0 <= c < SIZE
    ensures Column(Assemble(ps), c) == ps[c].cells
  {
  }

  /** The turned view of a tilted board is the assembled passes. */
  lemma TurnedTilt(g: Grid, side: Side)
    requires IsGrid(g)
    ensures Turn(Tilt(g, side).grid, side) == Assemble(Passes(Turn(g, side)))
  {
    TurnUnturn(Assemble(Passes(Turn(g, side))), side);
  }

  /** Two boards are equal when all their columns are. */
  lemma ColumnsEqual(a: Grid, b: Grid)
    requires IsGrid(a) && IsGrid(b)
    requires forall c :: 0 <= c < SIZE ==> Column(a, c) == Column(b, c)
    ensures a == b
  {
    forall i | 0 <= i < SIZE
      ensures a[i] == b[i]
    {
      forall c | 0 <= c < SIZE
        ensures a[i][c] == b[i][c]
      {
        assert Column(a, c)[i] == Column(b, c)[i];
      }
    }
  }

  /** tiltBoard returns true exactly when the tilt changes the board. */
  lemma TiltChangedIff(g: Grid, side: Side)
    requires IsGrid(g)
    ensures Tilt(g, side).changed <==> Tilt(g, side).grid != g
  {
    var t := Turn(g, side);
    var ps := Passes(t);
    var out := Assemble(ps);
    forall c | 0 <= c < SIZE
      ensures ps[c].changed <==> Column(out, c) != Column(t, c)
    {
      ColumnPassIsSlide(Column(t, c));
      AssembledColumn(ps, c);
    }
    if Tilt(g, side).changed {
      var c :| 0 <= c < SIZE && ps[c].changed;
      TurnedTilt(g, side);
      assert Column(out, c) != Column(t, c);
    } else {
      ColumnsEqual(out, t);
      UnturnTurn(g, side);
    }
  }

  /** After a tilt every line along the chosen side holds its tiles against
   *  that side with no empty square in front of a tile. */
  lemma TiltPacks(g: Grid, side: Side, c: int)
    requires IsGrid(g) && 0 <= c < SIZE
    ensures Packed(Column(Turn(Tilt(g, side).grid, side), c))
  {
    var t := Turn(g, side);
    TurnedTilt(g, side);
    AssembledColumn(Passes(t), c);
    ColumnPassIsSlide(Column(t, c));
    SlidePacked(Column(t, c));
  }

  /** Every line of a tilted board along the chosen side is the reference
   *  slide of that line before the tilt. */
  lemma TiltIsSlide(g: Grid, side: Side, c: int)
    requires IsGrid(g) && 0 <= c < SIZE
    ensures Column(Turn(Tilt(g, side).grid, side), c) == Slide(Column(Turn(g, side), c))
  {
    TurnedTilt(g, side);
    AssembledColumn(Passes(Turn(g, side)), c);
    ColumnPassIsSlide(Column(Turn(g, side), c));
  }

  /** Every square of g is empty or holds a power of two. */
  predicate PowerBoard(g: Grid)
    requires IsGrid(g)
  {
    forall r, c :: 0 <= r < SIZE && 0 <= c < SIZE ==> g[r][c] == 0 || Power(g[r][c])
  }

  lemma TurnPowers(g: Grid, side: Side)
    requires IsGrid(g) && PowerBoard(g)
    ensures PowerBoard(Turn(g, side))
  {
    forall i, j | 0 <= i < SIZE && 0 <= j < SIZE
      ensures Turn(g, side)[i][j] == 0 || Power(Turn(g, side)[i][j])
    {
      assert InRange(i, j);
    }
  }

  lemma UnturnPowers(t: Grid, side: Side)
    requires IsGrid(t) && PowerBoard(t)
    ensures PowerBoard(Unturn(t, side))
  {
    forall r, c | 0 <= r < SIZE && 0 <= c < SIZE
      ensures Unturn(t, side)[r][c] == 0 || Power(Unturn(t, side)[r][c])
    {
      UntiltRoundTrip(side, r, c);
    }
  }

  /** A tilt keeps every tile a power of two: merging two equal powers
   *  makes the next one. */
  lemma TiltKeepsPowers(g: Grid, side: Side)
    requires IsGrid(g) && PowerBoard(g)
    ensures PowerBoard(Tilt(g, side).grid)
  {
    var t := Turn(g, side);
    var ps := Passes(t);
    TurnPowers(g, side);
    forall c | 0 <= c < SIZE
      ensures Powers(ps[c].cells)
    {
      assert Powers(Column(t, c));
      ColumnPassIsSlide(Column(t, c));
      SlidePowers(Column(t, c));
    }
    var out := Assemble(ps);
    forall i, c | 0 <= i < SIZE && 0 <= c < SIZE
      ensures out[i][c] == 0 || Power(out[i][c])
    {
      assert out[i][c] == ps[c].cells[i];
    }
    UnturnPowers(out, side);
  }

  /** The merges of each column of a tilt land on strictly rising rows: no
   *  square takes two merges in one tilt. */
  lemma TiltMergesOnce(g: Grid, side: Side, c: int)
    requires IsGrid(g) && 0 <= c < SIZE
    ensures var ms := Passes(Turn(g, side))[c].merges;
            forall i, j :: 0 <= i < j < |ms| ==> ms[i].into < ms[j].into
  {
    MergesOncePerSquare(Column(Turn(g, side), c), SIZE);
  }

  /** The passes of the two examples below, on literal columns. */
  lemma ExamplePasses()
    ensures ColumnPass([0, 0, 0, 0], SIZE) == Pass([0, 0, 0, 0], 0, [], false)
    ensures ColumnPass([2, 2, 0, 0], SIZE) == Pass([4, 0, 0, 0], 1, [MergeEvent(0, 4)], true)
    ensures ColumnPass([0, 2, 0, 2], SIZE) == Pass([4, 0, 0, 0], 1, [MergeEvent(0, 4)], true)
  {
  }

  /** The tilt made of four given passes. */
  lemma TiltOfPasses(g: Grid, side: Side, ps: seq<Pass>)
    requires IsGrid(g) && ps == Passes(Turn(g, side))
    ensures Tilt(g, side) == Tilted(Unturn(Assemble(ps), side),
                                    ps[0].changed || ps[1].changed || ps[2].changed || ps[3].changed,
                                    Values(ps[0].merges) + Values(ps[1].merges) +
                                    Values(ps[2].merges) + Values(ps[3].merges))
  {
    var v0, v1, v2, v3 := Values(ps[0].merges), Values(ps[1].merges), Values(ps[2].merges), Values(ps[3].merges);
    assert MergedValues(ps, 0) == [];
    assert [] + v0 == v0;
    assert MergedValues(ps, 1) == v0;
    assert MergedValues(ps, 2) == v0 + v1;
    assert MergedValues(ps, 3) == v0 + v1 + v2;
    assert MergedValues(ps, 4) == v0 + v1 + v2 + v3;
    assert (exists c :: 0 <= c < SIZE && ps[c].changed) <==>
           ps[0].changed || ps[1].changed || ps[2].changed || ps[3].changed;
  }

  lemma WestPasses(g: Grid)
    requires g == [[2, 2, 0, 0], [0, 0, 0, 0], [0, 0, 0, 0], [0, 0, 0, 0]]
    ensures Passes(Turn(g, West)) ==
      [Pass([0, 0, 0, 0], 0, [], false), Pass([0, 0, 0, 0], 0, [], false),
       Pass([0, 0, 0, 0], 0, [], false), Pass([4, 0, 0, 0], 1, [MergeEvent(0, 4)], true)]
  {
    var t := Turn(g, West);
    ExamplePasses();
    assert Column(t, 0) == [0, 0, 0, 0] && Column(t, 1) == [0, 0, 0, 0];
    assert Column(t, 2) == [0, 0, 0, 0] && Column(t, 3) == [2, 2, 0, 0];
  }

  lemma WestGrid(ps: seq<Pass>)
    requires ps == [Pass([0, 0, 0, 0], 0, [], false), Pass([0, 0, 0, 0], 0, [], false),
                    Pass([0, 0, 0, 0], 0, [], false), Pass([4, 0, 0, 0], 1, [MergeEvent(0, 4)], true)]
    ensures Unturn(Assemble(ps), West) == [[4, 0, 0, 0], [0, 0, 0, 0], [0, 0, 0, 0], [0, 0, 0, 0]]
  {
    GridsEqual(Unturn(Assemble(ps), West), [[4, 0, 0, 0], [0, 0, 0, 0], [0, 0, 0, 0], [0, 0, 0, 0]]);
  }

  /** Tilting west: a row 2, 2 merges into a 4 against the west edge. */
  lemma TiltWestExample(g: Grid)
    requires g == [[2, 2, 0, 0], [0, 0, 0, 0], [0, 0, 0, 0], [0, 0, 0, 0]]
    ensures Tilt(g, West).grid == [[4, 0, 0, 0], [0, 0, 0, 0], [0, 0, 0, 0], [0, 0, 0, 0]]
    ensures Tilt(g, West).changed && Tilt(g, West).merges == [4]
  {
    WestPasses(g);
    var ps := Passes(Turn(g, West));
    TiltOfPasses(g, West, ps);
    WestGrid(ps);
    assert Values(ps[3].merges) == [4];
  }

  lemma EastPasses(g: Grid)
    requires g == [[2, 0, 2, 0], [0, 0, 0, 0], [0, 0, 0, 0], [0, 0, 0, 0]]
    ensures Passes(Turn(g, East)) ==
      [Pass([4, 0, 0, 0], 1, [MergeEvent(0, 4)], true), Pass([0, 0, 0, 0], 0, [], false),
       Pass([0, 0, 0, 0], 0, [], false), Pass([0, 0, 0, 0], 0, [], false)]
  {
    var t := Turn(g, East);
    ExamplePasses();
    assert Column(t, 0) == [0, 2, 0, 2] && Column(t, 1) == [0, 0, 0, 0];
    assert Column(t, 2) == [0, 0, 0, 0] && Column(t, 3) == [0, 0, 0, 0];
  }

  lemma EastGrid(ps: seq<Pass>)
    requires ps == [Pass([4, 0, 0, 0], 1, [MergeEvent(0, 4)], true), Pass([0, 0, 0, 0], 0, [], false),
                    Pass([0, 0, 0, 0], 0, [], false), Pass([0, 0, 0, 0], 0, [], false)]
    ensures Unturn(Assemble(ps), East) == [[0, 0, 0, 4], [0, 0, 0, 0], [0, 0, 0, 0], [0, 0, 0, 0]]
  {
    GridsEqual(Unturn(Assemble(ps), East), [[0, 0, 0, 4], [0, 0, 0, 0], [0, 0, 0, 0], [0, 0, 0, 0]]);
  }

  /** Tilting east: 2, _, 2, _ merges into a 4 against the east edge. */
  lemma TiltEastExample(g: Grid)
    requires g == [[2, 0, 2, 0], [0, 0, 0, 0], [0, 0, 0, 0], [0, 0, 0, 0]]
    ensures Tilt(g, East).grid == [[0, 0, 0, 4], [0, 0, 0, 0], [0, 0, 0, 0], [0, 0, 0, 0]]
    ensures Tilt(g, East).changed && Tilt(g, East).merges == [4]
  {
    EastPasses(g);
    var ps := Passes(Turn(g, East));
    TiltOfPasses(g, East, ps);
    EastGrid(ps);
    assert Values(ps[0].merges) == [4];
  }

  /** Sum of all the tiles of g. */
  function Total(g: Grid): int
    requires IsGrid(g)
  {
    Sum(seq(SIZE, i requires 0 <= i < SIZE => Sum(g[i])))
  }

  /** 1 for each occupied square of g, 0 for each empty one. */
  function Marks(g: Grid): (m: Grid)
    requires IsGrid(g)
    ensures IsGrid(m)
  {
    seq(SIZE, i requires 0 <= i < SIZE =>
      seq(SIZE, j requires 0 <= j < SIZE => if g[i][j] != 0 then 1 else 0))
  }

  /** Number of occupied squares of g. */
  function Occupied(g: Grid): int
    requires IsGrid(g)
  {
    Total(Marks(g))
  }

  lemma Sum4(s: seq<int>)
    requires |s| == 4
    ensures Sum(s) == s[0] + s[1] + s[2] + s[3]
  {
    assert s[..4][..3] == s[..3];
    assert s[..3][..2] == s[..2];
    assert s[..2][..1] == s[..1];
    assert s[..1][..0] == [];
    assert Sum(s[..1]) == s[0];
    assert Sum(s[..2]) == s[0] + s[1];
    assert Sum(s[..3]) == s[0] + s[1] + s[2];
    assert s[..4] == s;
  }

  /** The total as the sum of its sixteen squares. */
  lemma TotalSquares(g: Grid)
    requires IsGrid(g)
    ensures Total(g) ==
      g[0][0] + g[0][1] + g[0][2] + g[0][3] +
      g[1][0] + g[1][1] + g[1][2] + g[1][3] +
      g[2][0] + g[2][1] + g[2][2] + g[2][3] +
      g[3][0] + g[3][1] + g[3][2] + g[3][3]
  {
    Sum4(seq(SIZE, i requires 0 <= i < SIZE => Sum(g[i])));
    Sum4(g[0]);
    Sum4(g[1]);
    Sum4(g[2]);
    Sum4(g[3]);
  }

  /** The total as the sum of the column sums. */
  lemma TotalByColumns(g: Grid)
    requires IsGrid(g)
    ensures Total(g) == Sum(seq(SIZE, c requires 0 <= c < SIZE => Sum(Column(g, c))))
  {
    TotalSquares(g);
    Sum4(seq(SIZE, c requires 0 <= c < SIZE => Sum(Column(g, c))));
    Sum4(Column(g, 0));
    Sum4(Column(g, 1));
    Sum4(Column(g, 2));
    Sum4(Column(g, 3));
  }

  /** Turning the board moves its tiles around without changing them. */
  lemma TotalTurn(g: Grid, side: Side)
    requires IsGrid(g)
    ensures Total(Turn(g, side)) == Total(g)
  {
    TotalSquares(g);
    TotalSquares(Turn(g, side));
  }

  lemma MarksTurn(g: Grid, side: Side)
    requires IsGrid(g)
    ensures Marks(Turn(g, side)) == Turn(Marks(g), side)
  {
    forall r | 0 <= r < SIZE
      ensures Marks(Turn(g, side))[r] == Turn(Marks(g), side)[r]
    {
      forall c | 0 <= c < SIZE
        ensures Marks(Turn(g, side))[r][c] == Turn(Marks(g), side)[r][c]
      {
        assert InRange(r, c);
      }
    }
  }

  /** The occupied squares of a line, counted by their marks. */
  lemma {:induction false} CountMarks(s: seq<int>)
    ensures Count(s) == Sum(seq(|s|, i requires 0 <= i < |s| => if s[i] != 0 then 1 else 0))
  {
    if s != [] {
      var s' := s[..|s| - 1];
      CountMarks(s');
      var m := seq(|s|, i requires 0 <= i < |s| => if s[i] != 0 then 1 else 0);
      assert m[..|s| - 1] == seq(|s'|, i requires 0 <= i < |s'| => if s'[i] != 0 then 1 else 0);
    }
  }

  /** The occupied squares of a board as the sum of its columns' counts. */
  lemma OccupiedByColumns(g: Grid)
    requires IsGrid(g)
    ensures Occupied(g) == Sum(seq(SIZE, c requires 0 <= c < SIZE => Count(Column(g, c))))
  {
    var m := Marks(g);
    TotalByColumns(m);
    forall c | 0 <= c < SIZE
      ensures Sum(Column(m, c)) == Count(Column(g, c))
    {
      CountMarks(Column(g, c));
      var col := Column(g, c);
      assert Column(m, c) == seq(|col|, i requires 0 <= i < |col| => if col[i] != 0 then 1 else 0);
    }
    assert seq(SIZE, c requires 0 <= c < SIZE => Sum(Column(m, c)))
        == seq(SIZE, c requires 0 <= c < SIZE => Count(Column(g, c)));
  }

  /** A tilt keeps the sum of the tiles on the board. */
  lemma TiltKeepsTotal(g: Grid, side: Side)
    requires IsGrid(g)
    ensures Total(Tilt(g, side).grid) == Total(g)
  {
    var t := Turn(g, side);
    var ps := Passes(t);
    var out := Assemble(ps);
    TurnedTilt(g, side);
    TotalTurn(Tilt(g, side).grid, side);
    TotalTurn(g, side);
    TotalByColumns(out);
    TotalByColumns(t);
    forall c | 0 <= c < SIZE
      ensures Sum(Column(out, c)) == Sum(Column(t, c))
    {
      AssembledColumn(ps, c);
      ColumnPassIsSlide(Column(t, c));
      SlideSum(Column(t, c));
    }
    assert seq(SIZE, c requires 0 <= c < SIZE => Sum(Column(out, c)))
        == seq(SIZE, c requires 0 <= c < SIZE => Sum(Column(t, c)));
  }

  lemma MergedCount(ps: seq<Pass>)
    requires |ps| == SIZE
    ensures |MergedValues(ps, SIZE)| == |ps[0].merges| + |ps[1].merges| + |ps[2].merges| + |ps[3].merges|
  {
    assert |MergedValues(ps, 1)| == |ps[0].merges|;
    assert |MergedValues(ps, 2)| == |ps[0].merges| + |ps[1].merges|;
    assert |MergedValues(ps, 3)| == |ps[0].merges| + |ps[1].merges| + |ps[2].merges|;
  }

  /** A tilt removes exactly one tile per merge. */
  lemma TiltCountsMerges(g: Grid, side: Side)
    requires IsGrid(g)
    ensures Occupied(Tilt(g, side).grid) + |Tilt(g, side).merges| == Occupied(g)
  {
    var t := Turn(g, side);
    var ps := Passes(t);
    var out := Assemble(ps);
    var grid := Tilt(g, side).grid;
    TurnedTilt(g, side);
    TotalTurn(Marks(grid), side);
    MarksTurn(grid, side);
    TotalTurn(Marks(g), side);
    MarksTurn(g, side);
    OccupiedByColumns(out);
    OccupiedByColumns(t);
    forall c | 0 <= c < SIZE
      ensures Count(Column(out, c)) + |ps[c].merges| == Count(Column(t, c))
    {
      AssembledColumn(ps, c);
      ColumnPassIsSlide(Column(t, c));
      SlideCount(Column(t, c));
    }
    MergedCount(ps);
    Sum4(seq(SIZE, c requires 0 <= c < SIZE => Count(Column(out, c))));
    Sum4(seq(SIZE, c requires 0 <= c < SIZE => Count(Column(t, c))));
  }

  /** The square (r, c) holds a tile equal to neither its left nor its upper
   *  neighbour: the test gameOver makes of every square. */
  predicate Blocked(g: Grid, r: int, c: int)
    requires IsGrid(g) && InRange(r, c)
  {
    g[r][c] != 0 &&
    (c > 0 ==> g[r][c] != g[r][c - 1]) &&
    (r > 0 ==> g[r][c] != g[r - 1][c])
  }

  /** The board gameOver declares over. */
  predicate Stuck(g: Grid)
    requires IsGrid(g)
  {
    forall r, c :: 0 <= r < SIZE && 0 <= c < SIZE ==> Blocked(g, r, c)
  }

  predicate HasTile(g: Grid)
    requires IsGrid(g)
  {
    exists r, c :: 0 <= r < SIZE && 0 <= c < SIZE && g[r][c] != 0
  }

  /** A column of the turned board that a slide changes makes the tilt
   *  report a change. */
  lemma ColumnMoves(g: Grid, side: Side, c: int)
    requires IsGrid(g) && 0 <= c < SIZE
    requires Slide(Column(Turn(g, side), c)) != Column(Turn(g, side), c)
    ensures Tilt(g, side).changed
  {
    ColumnPassIsSlide(Column(Turn(g, side), c));
    assert Passes(Turn(g, side))[c].changed;
  }

  /** On a stuck board every line, seen from any side, is full and has no two
   *  equal neighbours. */
  lemma StuckColumns(g: Grid, side: Side, c: int)
    requires IsGrid(g) && Stuck(g) && 0 <= c < SIZE
    ensures NoZero(Column(Turn(g, side), c))
    ensures NoPair(Column(Turn(g, side), c))
  {
    var col := Column(Turn(g, side), c);
    forall i | 0 <= i < SIZE
      ensures col[i] != 0
    {
      assert Blocked(g, TiltRow(side, i, c), TiltCol(side, i, c));
    }
    forall i | 0 < i < SIZE
      ensures col[i - 1] != col[i]
    {
      match side
      case North => assert Blocked(g, i, c);
      case South => assert Blocked(g, SIZE - i, SIZE - 1 - c);
      case East => assert Blocked(g, c, SIZE - i);
      case West => assert Blocked(g, SIZE - 1 - c, i);
    }
  }

  /** A board the game declares over is left as it is by every tilt. */
  lemma StuckCannotTilt(g: Grid, side: Side)
    requires IsGrid(g) && Stuck(g)
    ensures !Tilt(g, side).changed
    ensures Tilt(g, side).grid == g
  {
    var t := Turn(g, side);
    forall c | 0 <= c < SIZE
      ensures !Passes(t)[c].changed
    {
      StuckColumns(g, side, c);
      SlideKeepsBlocked(Column(t, c));
      ColumnPassIsSlide(Column(t, c));
    }
    TiltChangedIff(g, side);
  }

  /** An empty square above or below a tile in the same column lets a
   *  vertical tilt move it. */
  lemma VerticalGap(g: Grid, i: int, k: int, c: int)
    requires IsGrid(g) && InRange(i, c) && InRange(k, c)
    requires g[i][c] == 0 && g[k][c] != 0
    ensures exists side :: Tilt(g, side).changed
  {
    if i < k {
      var col := Column(Turn(g, North), c);
      TurnNorth(g);
      assert col[i] == 0 && col[k] != 0;
      SlideMovesGap(col);
      ColumnMoves(g, North, c);
    } else {
      var col := Column(Turn(g, South), SIZE - 1 - c);
      assert col[SIZE - 1 - i] == 0 && col[SIZE - 1 - k] != 0;
      SlideMovesGap(col);
      ColumnMoves(g, South, SIZE - 1 - c);
    }
  }

  /** An empty square left or right of a tile in the same row lets a
   *  horizontal tilt move it. */
  lemma HorizontalGap(g: Grid, r: int, j: int, l: int)
    requires IsGrid(g) && InRange(r, j) && InRange(r, l)
    requires g[r][j] == 0 && g[r][l] != 0
    ensures exists side :: Tilt(g, side).changed
  {
    if j < l {
      var col := Column(Turn(g, West), SIZE - 1 - r);
      assert col[j] == 0 && col[l] != 0;
      SlideMovesGap(col);
      ColumnMoves(g, West, SIZE - 1 - r);
    } else {
      var col := Column(Turn(g, East), r);
      assert col[SIZE - 1 - j] == 0 && col[SIZE - 1 - l] != 0;
      SlideMovesGap(col);
      ColumnMoves(g, East, r);
    }
  }

  /** On a full board, two equal tiles one above the other merge when tilted
   *  north. */
  lemma VerticalPair(g: Grid, r: int, c: int)
    requires IsGrid(g) && InRange(r, c) && r > 0
    requires forall i, j :: InRange(i, j) ==> g[i][j] != 0
    requires g[r][c] == g[r - 1][c]
    ensures Tilt(g, North).changed
  {
    var col := Column(Turn(g, North), c);
    TurnNorth(g);
    assert col[r - 1] == col[r];
    SlideMergesFull(col);
    ColumnMoves(g, North, c);
  }

  /** On a full board, two equal tiles side by side merge when tilted
   *  west. */
  lemma HorizontalPair(g: Grid, r: int, c: int)
    requires IsGrid(g) && InRange(r, c) && c > 0
    requires forall i, j :: InRange(i, j) ==> g[i][j] != 0
    requires g[r][c] == g[r][c - 1]
    ensures Tilt(g, West).changed
  {
    var col := Column(Turn(g, West), SIZE - 1 - r);
    assert col[c - 1] == col[c];
    SlideMergesFull(col);
    ColumnMoves(g, West, SIZE - 1 - r);
  }

  /** gameOver holds exactly when the board has a tile and no tilt in any
   *  direction changes it. */
  lemma GameOverIffNoMove(g: Grid)
    requires IsGrid(g)
    ensures Stuck(g) <==> HasTile(g) && forall side :: !Tilt(g, side).changed
  {
    if Stuck(g) {
      assert Blocked(g, 0, 0);
      forall side
        ensures !Tilt(g, side).changed
      {
        StuckCannotTilt(g, side);
      }
    } else if HasTile(g) {
      var k, l :| InRange(k, l) && g[k][l] != 0;
      if exists i, j :: InRange(i, j) && g[i][j] == 0 {
        var i, j :| InRange(i, j) && g[i][j] == 0;
        if g[i][l] == 0 {
          VerticalGap(g, i, k, l);
        } else {
          HorizontalGap(g, i, j, l);
        }
      } else {
        var r, c :| InRange(r, c) && !Blocked(g, r, c);
        if c > 0 && g[r][c] == g[r][c - 1] {
          HorizontalPair(g, r, c);
        } else {
          VerticalPair(g, r, c);
        }
      }
    }
  }

  /** The board has an empty square. */
  predicate HasRoom(g: Grid)
    requires IsGrid(g)
  {
    exists r, c :: 0 <= r < SIZE && 0 <= c < SIZE && g[r][c] == 0
  }

  /** At most SIZE * SIZE squares are occupied, all of them exactly when no
   *  square is empty. */
  lemma OccupiedBound(g: Grid)
    requires IsGrid(g)
    ensures Occupied(g) <= SQUARES
    ensures Occupied(g) == SQUARES <==> !HasRoom(g)
  {
    var m := Marks(g);
    TotalSquares(m);
    if HasRoom(g) {
      var r, c :| 0 <= r < SIZE && 0 <= c < SIZE && g[r][c] == 0;
      assert m[r][c] == 0;
      assert r == 0 || r == 1 || r == 2 || r == 3;
      assert c == 0 || c == 1 || c == 2 || c == 3;
    }
  }

  /** A full column that the pass changes holds a merge. */
  lemma FullColumnMerges(col: seq<int>)
    requires NoZero(col) && ColumnPass(col, |col|).changed
    ensures |ColumnPass(col, |col|).merges| > 0
  {
    ColumnPassIsSlide(col);
    if NoPair(col) {
      SlideKeepsBlocked(col);
    } else {
      NonZerosOfNoZero(col);
      CollapsePair(col);
      CollapseSize(col);
    }
  }

  /** On a full board a tilt can only change something by merging. */
  lemma FullTiltMerges(g: Grid, side: Side)
    requires IsGrid(g) && !HasRoom(g) && Tilt(g, side).changed
    ensures |Tilt(g, side).merges| > 0
  {
    var t := Turn(g, side);
    var ps := Passes(t);
    var c :| 0 <= c < SIZE && ps[c].changed;
    var col := Column(t, c);
    forall i | 0 <= i < SIZE
      ensures col[i] != 0
    {
      assert g[TiltRow(side, i, c)][TiltCol(side, i, c)] != 0;
    }
    FullColumnMerges(col);
    MergedCount(ps);
  }

  /** A tilt that changes the board always leaves an empty square, so the
   *  tile added after an accepted move has somewhere to go. */
  lemma TiltLeavesRoom(g: Grid, side: Side)
    requires IsGrid(g) && Tilt(g, side).changed
    ensures HasRoom(Tilt(g, side).grid)
  {
    var grid := Tilt(g, side).grid;
    if !HasRoom(grid) {
      OccupiedBound(grid);
      OccupiedBound(g);
      TiltCountsMerges(g, side);
      FullTiltMerges(g, side);
    }
  }
}

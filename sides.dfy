/** The board's geometry: its size, the four sides, and the coordinate
 *  transform that lets one tilt algorithm serve every direction by turning
 *  the board so that the chosen side faces north (Main.java:14-22, 242-301). */
module Sides {
  import opened Wrappers

  /** Number of rows and of columns of the board. */
  const SIZE: int := 4
  /** Number of squares on the board. */
  const SQUARES: int := SIZE * SIZE
  /** Creating a tile of this value ends the game. */
  const GOAL: int := 2048

  datatype Side = North | East | South | West

  /** A board as rows of tile values; 0 is an empty square. */
  type Grid = seq<seq<int>>

  predicate InRange(r: int, c: int)
  {
    0 <= r < SIZE && 0 <= c < SIZE
  }

  predicate IsGrid(g: Grid)
  {
    |g| == SIZE && forall i :: 0 <= i < SIZE ==> |g[i]| == SIZE
  }

  /** Row of the real board that holds row r, column c of the board turned
   *  so that side faces north. */
  function TiltRow(side: Side, r: int, c: int): (row: int)
    ensures InRange(r, c) ==> 0 <= row < SIZE
  {
    match side
    case North => r
    case East => c
    case South => SIZE - 1 - r
    case West => SIZE - 1 - c
  }

  /** Column of the real board that holds row r, column c of the turned board. */
  function TiltCol(side: Side, r: int, c: int): (col: int)
    ensures InRange(r, c) ==> 0 <= col < SIZE
  {
    match side
    case North => c
    case East => SIZE - 1 - r
    case South => SIZE - 1 - c
    case West => r
  }

  /** Row of the turned board that shows square (i, j) of the real board. */
  function UntiltRow(side: Side, i: int, j: int): int
  {
    match side
    case North => i
    case East => SIZE - 1 - j
    case South => SIZE - 1 - i
    case West => j
  }

  /** Column of the turned board that shows square (i, j) of the real board. */
  function UntiltCol(side: Side, i: int, j: int): int
  {
    match side
    case North => j
    case East => i
    case South => SIZE - 1 - j
    case West => SIZE - 1 - i
  }

  /** Turning and turning back are inverse: the transform is a bijection of
   *  the grid onto itself. */
  lemma TiltRoundTrip(side: Side, r: int, c: int)
    requires InRange(r, c)
    ensures UntiltRow(side, TiltRow(side, r, c), TiltCol(side, r, c)) == r
    ensures UntiltCol(side, TiltRow(side, r, c), TiltCol(side, r, c)) == c
  {
  }

  lemma UntiltRoundTrip(side: Side, i: int, j: int)
    requires InRange(i, j)
    ensures InRange(UntiltRow(side, i, j), UntiltCol(side, i, j))
    ensures TiltRow(side, UntiltRow(side, i, j), UntiltCol(side, i, j)) == i
    ensures TiltCol(side, UntiltRow(side, i, j), UntiltCol(side, i, j)) == j
  {
  }

  /** The board as seen with side facing north: what the copy-in loop of
   *  tiltBoard builds. */
  function Turn(g: Grid, side: Side): (t: Grid)
    requires IsGrid(g)
    ensures IsGrid(t)
  {
    seq(SIZE, r requires 0 <= r < SIZE =>
      seq(SIZE, c requires 0 <= c < SIZE => g[TiltRow(side, r, c)][TiltCol(side, r, c)]))
  }

  /** The real board whose turned view is t: what the write-back loop of
   *  tiltBoard builds. */
  function Unturn(t: Grid, side: Side): (g: Grid)
    requires IsGrid(t)
    ensures IsGrid(g)
  {
    seq(SIZE, i requires 0 <= i < SIZE =>
      seq(SIZE, j requires 0 <= j < SIZE =>
        UntiltRoundTrip(side, i, j);
        t[UntiltRow(side, i, j)][UntiltCol(side, i, j)]))
  }

  /** Copying the board in and writing it back unchanged leaves it unchanged. */
  lemma UnturnTurn(g: Grid, side: Side)
    requires IsGrid(g)
    ensures Unturn(Turn(g, side), side) == g
  {
    var u := Unturn(Turn(g, side), side);
    forall i | 0 <= i < SIZE
      ensures u[i] == g[i]
    {
      forall j | 0 <= j < SIZE
        ensures u[i][j] == g[i][j]
      {
        UntiltRoundTrip(side, i, j);
      }
    }
  }

  /** Turning the written-back board gives the turned board back. */
  lemma TurnUnturn(t: Grid, side: Side)
    requires IsGrid(t)
    ensures Turn(Unturn(t, side), side) == t
  {
    var u := Turn(Unturn(t, side), side);
    forall r | 0 <= r < SIZE
      ensures u[r] == t[r]
    {
      forall c | 0 <= c < SIZE
        ensures u[r][c] == t[r][c]
      {
        TiltRoundTrip(side, r, c);
      }
    }
  }

  /** Facing north needs no turning. */
  lemma TurnNorth(g: Grid)
    requires IsGrid(g)
    ensures Turn(g, North) == g
  {
    var t := Turn(g, North);
    forall r | 0 <= r < SIZE
      ensures t[r] == g[r]
    {
    }
  }

  /** Two boards are equal when all their squares are. */
  lemma GridsEqual(a: Grid, b: Grid)
    requires IsGrid(a) && IsGrid(b)
    requires forall r, c :: 0 <= r < SIZE && 0 <= c < SIZE ==> a[r][c] == b[r][c]
    ensures a == b
  {
    forall r | 0 <= r < SIZE
      ensures a[r] == b[r]
    {
    }
  }

  /** The key that selects each side. */
  function SideKey(side: Side): string
  {
    match side
    case North => "Up"
    case South => "Down"
    case West => "Left"
    case East => "Right"
  }

  /** The side a key selects; keys other than the four arrows have none
   *  (the source throws IllegalArgumentException for them). */
  function KeyToSide(key: string): (s: Option<Side>)
    ensures s.Some? <==> key in {"Up", "Down", "Left", "Right"}
    ensures s.Some? ==> SideKey(s.value) == key
  {
    if key == "Up" then Some(North)
    else if key == "Down" then Some(South)
    else if key == "Left" then Some(West)
    else if key == "Right" then Some(East)
    else None
  }

  /** Every side is selected by its own key. */
  lemma KeyRoundTrip(side: Side)
    ensures KeyToSide(SideKey(side)) == Some(side)
  {
  }
}

/** The game object of Main.java: the board array, the score, the best
 *  score and the tile count, with the operations that change them in place
 *  (Main.java:56-65, 77-80, 94-97, 113-202, 305-315). Each method is proved
 *  against the functions of the Tilting and Scoring modules. */
module Game {
  import opened Wrappers
  import opened Sides
  import opened Lines
  import opened Resolver
  import opened Scoring
  import opened Tilting

  /** A tile the random source offers: its value and its square. */
  datatype Tile = Tile(value: int, row: int, col: int)

  /** Every offered tile names a square of the board. */
  predicate OnBoard(tiles: seq<Tile>)
  {
    forall i :: 0 <= i < |tiles| ==> 0 <= tiles[i].row < SIZE && 0 <= tiles[i].col < SIZE
  }

  /** The squares of a SIZE x SIZE array as a board. */
  function Contents(a: array2<int>): (g: Grid)
    reads a
    requires a.Length0 == SIZE && a.Length1 == SIZE
    ensures IsGrid(g)
    ensures forall r, c :: 0 <= r < SIZE && 0 <= c < SIZE ==> g[r][c] == a[r, c]
  {
    seq(SIZE, r requires 0 <= r < SIZE reads a =>
      seq(SIZE, c requires 0 <= c < SIZE reads a => a[r, c]))
  }

  /** Index of the first offered tile whose square is empty on g, if any. */
  function FirstEmpty(g: Grid, tiles: seq<Tile>): (k: Option<nat>)
    requires IsGrid(g)
    requires OnBoard(tiles)
    ensures k.Some? ==> k.value < |tiles| && g[tiles[k.value].row][tiles[k.value].col] == 0
    ensures forall i :: 0 <= i < |tiles| && (k.None? || i < k.value) ==>
              g[tiles[i].row][tiles[i].col] != 0
  {
    if tiles == [] then None
    else if g[tiles[0].row][tiles[0].col] == 0 then Some(0)
    else match FirstEmpty(g, tiles[1..])
      case None => None
      case Some(k) => Some(k + 1)
  }

  /** g with tile t put on its square. */
  function Place(g: Grid, t: Tile): (h: Grid)
    requires IsGrid(g) && InRange(t.row, t.col)
    ensures IsGrid(h)
  {
    g[t.row := g[t.row][t.col := t.value]]
  }

  /** Every offered tile has the value 2 or 4, as the random source
   *  promises. */
  predicate TwoOrFour(tiles: seq<Tile>)
  {
    forall i :: 0 <= i < |tiles| ==> tiles[i].value == 2 || tiles[i].value == 4
  }

  /** Placing a 2 or a 4 keeps every tile a power of two. */
  lemma PlaceKeepsPowers(g: Grid, t: Tile)
    requires IsGrid(g) && InRange(t.row, t.col) && PowerBoard(g)
    requires t.value == 2 || t.value == 4
    ensures PowerBoard(Place(g, t))
  {
    assert Power(4) by {
      assert 4 / 2 == 2;
    }
  }

  /** Crediting one more merge event is one more step of the fold. */
  lemma CreditEvent(base: Tally, ms: seq<MergeEvent>, e: MergeEvent)
    ensures Credit(base, Values(ms + [e])) == Credit1(Credit(base, Values(ms)), e.value)
  {
    var vs := Values(ms);
    assert Values(ms + [e]) == vs + [e.value];
    assert (vs + [e.value])[..|vs|] == vs;
  }

  /** On a full board no offered tile lands on an empty square. With the
   *  count still 0, which no method ever raises, SetRandomPiece's guard
   *  does not fire there and its draw loop cannot end. */
  lemma FullBoardNoDraw(g: Grid, tiles: seq<Tile>)
    requires IsGrid(g) && !HasRoom(g) && OnBoard(tiles)
    ensures FirstEmpty(g, tiles).None?
  {
  }

  class Game2048 {
    /** The board: board[r, c] is the tile at row r, column c, or 0. */
    const board: array2<int>
    /** The score of the current game. */
    var score: int
    /** The best final score of the session. */
    var maxScore: int
    /** Meant to count the tiles on the board; nothing ever increments it. */
    var count: int

    predicate Valid()
    {
      board.Length0 == SIZE && board.Length1 == SIZE
    }

    constructor ()
      ensures Valid() && fresh(board)
      ensures !HasTile(Contents(board))
      ensures score == 0 && maxScore == 0 && count == 0
    {
      board := new int[SIZE, SIZE]((r, c) => 0);
      score, maxScore, count := 0, 0, 0;
    }

    /** Empty the board and restart the score; the best score stays. */
    method Clear()
      requires Valid()
      modifies board, this`score, this`count
      ensures !HasTile(Contents(board))
      ensures score == 0 && count == 0 && maxScore == old(maxScore)
    {
      score := 0;
      count := 0;
      for r := 0 to SIZE
        invariant score == 0 && count == 0
        invariant forall i, j :: 0 <= i < r && 0 <= j < SIZE ==> board[i, j] == 0
      {
        for c := 0 to SIZE
          invariant score == 0 && count == 0
          invariant forall i, j :: 0 <= i < r && 0 <= j < SIZE ==> board[i, j] == 0
          invariant forall j :: 0 <= j < c ==> board[r, j] == 0
        {
          board[r, c] := 0;
        }
      }
    }

    /** The best score takes the current score when that is higher. */
    method RecordMaxScore()
      modifies this`maxScore
      ensures Tally(score, maxScore) == RecordMax(old(Tally(score, maxScore)))
    {
      if maxScore < score {
        maxScore := score;
      }
    }

    /** The "New Game" request: record the best score, then clear. */
    method NewGame()
      requires Valid()
      modifies board, this`score, this`maxScore, this`count
      ensures !HasTile(Contents(board))
      ensures score == 0 && count == 0
      ensures maxScore == RecordMax(old(Tally(score, maxScore))).maxScore
    {
      RecordMaxScore();
      Clear();
    }

    /** Whether no square is empty or equal to its left or upper
     *  neighbour. */
    method GameOver() returns (over: bool)
      requires Valid()
      ensures over <==> Stuck(Contents(board))
    {
      for r := 0 to SIZE
        invariant forall i, j :: 0 <= i < r && 0 <= j < SIZE ==> Blocked(Contents(board), i, j)
      {
        for c := 0 to SIZE
          invariant forall i, j :: 0 <= i < r && 0 <= j < SIZE ==> Blocked(Contents(board), i, j)
          invariant forall j :: 0 <= j < c ==> Blocked(Contents(board), r, j)
        {
          var t := board[r, c];
          if t == 0 || (c > 0 && t == board[r, c - 1]) || (r > 0 && t == board[r - 1, c]) {
            assert !Blocked(Contents(board), r, c);
            return false;
          }
        }
      }
      return true;
    }

    /** The check made at the top of each turn: when the game is over the
     *  best score takes the current score if that is higher. */
    method CheckGameOver() returns (over: bool)
      requires Valid()
      modifies this`maxScore
      ensures over <==> Stuck(Contents(board))
      ensures Tally(score, maxScore) ==
        if over then RecordMax(old(Tally(score, maxScore))) else old(Tally(score, maxScore))
    {
      over := GameOver();
      if over {
        RecordMaxScore();
      }
    }

    /** Put a new tile on the board. The random source is the sequence of
     *  tiles it offers; the method draws them in order until one lands on
     *  an empty square, and returns how many it drew. Unless the count
     *  equals SIZE * SIZE, one of the offered tiles must land on an empty
     *  square: the source loops until then. */
    method SetRandomPiece(tiles: seq<Tile>) returns (drawn: nat)
      requires Valid()
      requires OnBoard(tiles)
      requires count != SQUARES ==> FirstEmpty(Contents(board), tiles).Some?
      modifies board
      ensures count == SQUARES ==> drawn == 0 && Contents(board) == old(Contents(board))
      ensures count != SQUARES ==>
        drawn == FirstEmpty(old(Contents(board)), tiles).value + 1 &&
        Contents(board) == Place(old(Contents(board)), tiles[drawn - 1])
      ensures PowerBoard(old(Contents(board))) && TwoOrFour(tiles) ==> PowerBoard(Contents(board))
    {
      if count == SQUARES {
        return 0;
      }
      ghost var k := FirstEmpty(Contents(board), tiles).value;
      var i := 0;
      while board[tiles[i].row, tiles[i].col] != 0
        invariant i <= k
        decreases k - i
      {
        i := i + 1;
      }
      ghost var g := Contents(board);
      board[tiles[i].row, tiles[i].col] := tiles[i].value;
      GridsEqual(Contents(board), Place(g, tiles[i]));
      if PowerBoard(g) && TwoOrFour(tiles) {
        PlaceKeepsPowers(g, tiles[i]);
      }
      drawn := i + 1;
    }

    /** The same step with the full-board guard testing the board itself
     *  rather than the count: on a full board nothing happens. */
    method PlaceTile(tiles: seq<Tile>) returns (drawn: nat)
      requires Valid()
      requires OnBoard(tiles)
      requires HasRoom(Contents(board)) ==> FirstEmpty(Contents(board), tiles).Some?
      modifies board
      ensures !HasRoom(old(Contents(board))) ==> drawn == 0 && Contents(board) == old(Contents(board))
      ensures HasRoom(old(Contents(board))) ==>
        drawn == FirstEmpty(old(Contents(board)), tiles).value + 1 &&
        Contents(board) == Place(old(Contents(board)), tiles[drawn - 1])
      ensures PowerBoard(old(Contents(board))) && TwoOrFour(tiles) ==> PowerBoard(Contents(board))
    {
      OccupiedBound(Contents(board));
      if Occupied(Contents(board)) == SQUARES {
        return 0;
      }
      ghost var k := FirstEmpty(Contents(board), tiles).value;
      var i := 0;
      while board[tiles[i].row, tiles[i].col] != 0
        invariant i <= k
        decreases k - i
      {
        i := i + 1;
      }
      ghost var g := Contents(board);
      board[tiles[i].row, tiles[i].col] := tiles[i].value;
      GridsEqual(Contents(board), Place(g, tiles[i]));
      if PowerBoard(g) && TwoOrFour(tiles) {
        PlaceKeepsPowers(g, tiles[i]);
      }
      drawn := i + 1;
    }

    /** A fresh copy of the board turned so that `side` faces north. */
    method TurnedCopy(side: Side) returns (t: array2<int>)
      requires Valid()
      ensures fresh(t) && t.Length0 == SIZE && t.Length1 == SIZE
      ensures Contents(t) == Turn(Contents(board), side)
    {
      t := new int[SIZE, SIZE];
      ghost var turned := Turn(Contents(board), side);
      for r := 0 to SIZE
        invariant forall i, j :: 0 <= i < r && 0 <= j < SIZE ==> t[i, j] == turned[i][j]
      {
        for c := 0 to SIZE
          invariant forall i, j :: 0 <= i < r && 0 <= j < SIZE ==> t[i, j] == turned[i][j]
          invariant forall j :: 0 <= j < c ==> t[r, j] == turned[r][j]
        {
          t[r, c] := board[TiltRow(side, r, c), TiltCol(side, r, c)];
        }
      }
      GridsEqual(Contents(t), turned);
    }

    /** Put value at row `to` of column c of t and empty row r. */
    method Relocate(t: array2<int>, c: int, r: int, to: int, value: int)
      requires t.Length0 == SIZE && t.Length1 == SIZE && 0 <= c < SIZE
      requires 0 <= r < SIZE && 0 <= to < SIZE
      modifies t
      ensures Column(Contents(t), c) == old(Column(Contents(t), c))[to := value][r := 0]
      ensures forall i, j :: 0 <= i < SIZE && 0 <= j < SIZE && j != c ==> t[i, j] == old(t[i, j])
    {
      ghost var before := Column(Contents(t), c);
      t[to, c] := value;
      t[r, c] := 0;
      assert Column(Contents(t), c) == before[to := value][r := 0];
    }

    /** Resolve the tile at row r of column c of the turned copy t: it
     *  moves up as far as it can, or merges with an equal tile at or below
     *  the merge barrier, and a merge is credited to the score. */
    method ResolveTile(t: array2<int>, c: int, r: int, merged: nat, ghost p: Pass, ghost base: Tally)
      returns (barrier: nat, moved: bool)
      requires t.Length0 == SIZE && t.Length1 == SIZE && 0 <= c < SIZE && 0 <= r < SIZE
      requires Column(Contents(t), c) == p.cells && merged == p.barrier
      requires Tally(score, maxScore) == Credit(base, Values(p.merges))
      modifies t, this`score, this`maxScore
      ensures Column(Contents(t), c) == StepRow(p, r).cells
      ensures barrier == StepRow(p, r).barrier
      ensures StepRow(p, r).changed == (p.changed || moved)
      ensures Tally(score, maxScore) == Credit(base, Values(StepRow(p, r).merges))
      ensures forall i, j :: 0 <= i < SIZE && 0 <= j < SIZE && j != c ==> t[i, j] == old(t[i, j])
    {
      barrier, moved := merged, false;
      var v := t[r, c];
      if v != 0 {
        var o := WhereToMove(Column(Contents(t), c), r, v, merged);
        if o.Move? && o.row != r {
          Relocate(t, c, r, o.row, v);
          moved := true;
        } else if o.Merge? {
          var newValue := v * 2;
          barrier := o.row + 1;
          score := score + newValue;
          Relocate(t, c, r, o.row, newValue);
          moved := true;
          if newValue == GOAL {
            if maxScore < score {
              maxScore := score;
              score := 0;
            }
          }
          CreditEvent(base, p.merges, MergeEvent(o.row, newValue));
        }
      }
    }

    /** Run the pass over column c of the turned copy t, row 0 first. */
    method SlideColumn(t: array2<int>, c: int, ghost col: seq<int>) returns (changed: bool)
      requires t.Length0 == SIZE && t.Length1 == SIZE && 0 <= c < SIZE
      requires Column(Contents(t), c) == col
      modifies t, this`score, this`maxScore
      ensures Column(Contents(t), c) == ColumnPass(col, SIZE).cells
      ensures changed == ColumnPass(col, SIZE).changed
      ensures Tally(score, maxScore) ==
        Credit(old(Tally(score, maxScore)), Values(ColumnPass(col, SIZE).merges))
      ensures forall i, j :: 0 <= i < SIZE && 0 <= j < SIZE && j != c ==> t[i, j] == old(t[i, j])
    {
      ghost var tally := Tally(score, maxScore);
      var merged := 0;
      changed := false;
      for r := 0 to SIZE
        invariant Column(Contents(t), c) == ColumnPass(col, r).cells
        invariant merged == ColumnPass(col, r).barrier
        invariant changed == ColumnPass(col, r).changed
        invariant Tally(score, maxScore) == Credit(tally, Values(ColumnPass(col, r).merges))
        invariant forall i, j :: 0 <= i < SIZE && 0 <= j < SIZE && j != c ==> t[i, j] == old(t[i, j])
      {
        var moved;
        merged, moved := ResolveTile(t, c, r, merged, ColumnPass(col, r), tally);
        changed := changed || moved;
      }
    }

    /** Copy the turned board t back onto the board, turning it back. */
    method WriteBack(t: array2<int>, side: Side)
      requires Valid() && t.Length0 == SIZE && t.Length1 == SIZE && t != board
      modifies board
      ensures Contents(board) == Unturn(Contents(t), side)
    {
      ghost var out := Contents(t);
      for r := 0 to SIZE
        invariant forall i, j :: 0 <= i < r && 0 <= j < SIZE ==>
          board[TiltRow(side, i, j), TiltCol(side, i, j)] == out[i][j]
      {
        for c := 0 to SIZE
          invariant forall i, j :: 0 <= i < r && 0 <= j < SIZE ==>
            board[TiltRow(side, i, j), TiltCol(side, i, j)] == out[i][j]
          invariant forall j :: 0 <= j < c ==> board[TiltRow(side, r, j), TiltCol(side, r, j)] == out[r][j]
        {
          forall i, j | 0 <= i < SIZE && 0 <= j < SIZE {
            TiltRoundTrip(side, i, j);
          }
          board[TiltRow(side, r, c), TiltCol(side, r, c)] := t[r, c];
        }
      }
      forall x, y | 0 <= x < SIZE && 0 <= y < SIZE
        ensures Contents(board)[x][y] == Unturn(out, side)[x][y]
      {
        UntiltRoundTrip(side, x, y);
        var i, j := UntiltRow(side, x, y), UntiltCol(side, x, y);
        assert board[TiltRow(side, i, j), TiltCol(side, i, j)] == out[i][j];
      }
      GridsEqual(Contents(board), Unturn(out, side));
    }

    /** Tilt the board towards `side`; returns whether anything moved or
     *  merged. */
    method TiltBoard(side: Side) returns (changed: bool)
      requires Valid()
      modifies board, this`score, this`maxScore
      ensures Contents(board) == Tilt(old(Contents(board)), side).grid
      ensures changed == Tilt(old(Contents(board)), side).changed
      ensures Tally(score, maxScore) ==
        Credit(old(Tally(score, maxScore)), Tilt(old(Contents(board)), side).merges)
    {
      ghost var g := Contents(board);
      ghost var ps := Passes(Turn(g, side));
      ghost var tally := Tally(score, maxScore);
      var t := TurnedCopy(side);
      changed := false;
      for c := 0 to SIZE
        invariant Contents(board) == g
        invariant forall j :: 0 <= j < c ==> Column(Contents(t), j) == ps[j].cells
        invariant forall j :: c <= j < SIZE ==> Column(Contents(t), j) == Column(Turn(g, side), j)
        invariant changed <==> exists j :: 0 <= j < c && ps[j].changed
        invariant Tally(score, maxScore) == Credit(tally, MergedValues(ps, c))
      {
        ghost var before := Contents(t);
        var moved := SlideColumn(t, c, Column(Contents(t), c));
        CreditAppend(tally, MergedValues(ps, c), Values(ps[c].merges));
        forall j | 0 <= j < SIZE && j != c
          ensures Column(Contents(t), j) == Column(before, j)
        {
        }
        changed := changed || moved;
      }
      forall j | 0 <= j < SIZE
        ensures Column(Contents(t), j) == Column(Assemble(ps), j)
      {
        AssembledColumn(ps, j);
      }
      ColumnsEqual(Contents(t), Assemble(ps));
      WriteBack(t, side);
    }

    /** A direction key during play: the tilt is made only while the game
     *  is not over, and the move counts only when the board changed. */
    method Move(side: Side) returns (moved: bool)
      requires Valid()
      modifies board, this`score, this`maxScore
      ensures moved <==> !Stuck(old(Contents(board))) && Tilt(old(Contents(board)), side).changed
      ensures Contents(board) == Tilt(old(Contents(board)), side).grid
      ensures moved ==> HasRoom(Contents(board))
      ensures Tally(score, maxScore) ==
        if Stuck(old(Contents(board))) then old(Tally(score, maxScore))
        else Credit(old(Tally(score, maxScore)), Tilt(old(Contents(board)), side).merges)
      ensures maxScore >= old(maxScore)
      ensures PowerBoard(old(Contents(board))) ==> PowerBoard(Contents(board))
    {
      var over := GameOver();
      if over {
        StuckCannotTilt(Contents(board), side);
        return false;
      }
      ghost var g := Contents(board);
      ghost var tally := Tally(score, maxScore);
      moved := TiltBoard(side);
      CreditKeepsMax(tally, Tilt(g, side).merges);
      if PowerBoard(g) {
        TiltKeepsPowers(g, side);
      }
      if moved {
        TiltLeavesRoom(g, side);
      }
    }
  }
}

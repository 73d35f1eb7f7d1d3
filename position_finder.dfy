/**
 * `findPosition` (`cw_dungeon.ts`): every place in the loaded maze where a pattern
 * the player copied from the game fits. The pattern is laid over the maze with its
 * top-left cell at each maze position in turn, row by row; wildcard cells match
 * more than one tile type.
 */
module PositionFinder {
  import opened Wrappers
  import opened Tiles

  type Pattern = seq<seq<TileType>>

  datatype FindError = NotEnoughInput | MazeNotLoaded | NotFound

  /** One pattern cell against one maze tile. */
  predicate CellMatches(patternType: TileType, mazeType: TileType) {
    if patternType == Unknown then true
    else if patternType == FountainOrTreasure then mazeType == Fountain || mazeType == Treasure
    else if patternType == NotWall then mazeType != Wall
    else patternType == mazeType
  }

  /**
   * Pattern cell (px, py), laid over the maze with the pattern's corner at (x, y), lies
   * inside the maze and matches; the width checked is that of the corner's row.
   */
  predicate CellFits(maze: Grid, pattern: Pattern, x: nat, y: nat, px: nat, py: nat)
    requires Rectangular(maze) && y < |maze| && py < |pattern| && px < |pattern[py]|
  {
    && y + py < |maze| && x + px < |maze[y]|
    && CellMatches(pattern[py][px], maze[y + py][x + px])
  }

  /** The first `upto` cells of pattern row `py` fit. */
  predicate RowFits(maze: Grid, pattern: Pattern, x: nat, y: nat, py: nat, upto: nat)
    requires Rectangular(maze) && y < |maze| && py < |pattern| && upto <= |pattern[py]|
  {
    forall px :: 0 <= px < upto ==> CellFits(maze, pattern, x, y, px, py)
  }

  /** The first `upto` rows of the pattern fit. */
  predicate RowsFit(maze: Grid, pattern: Pattern, x: nat, y: nat, upto: nat)
    requires Rectangular(maze) && y < |maze| && upto <= |pattern|
  {
    forall py :: 0 <= py < upto ==> RowFits(maze, pattern, x, y, py, |pattern[py]|)
  }

  /** The whole pattern fits with its corner at `p`. */
  predicate FitsAt(maze: Grid, pattern: Pattern, p: Pos)
    requires Rectangular(maze)
  {
    InGrid(maze, p) && RowsFit(maze, pattern, p.x, p.y, |pattern|)
  }

  /** `p` comes before `q` in the order the maze is visited: by row, then by column. */
  predicate Before(p: Pos, q: Pos) {
    p.y < q.y || (p.y == q.y && p.x < q.x)
  }

  predicate InVisitOrder(s: seq<Pos>) {
    forall i, j :: 0 <= i < j < |s| ==> Before(s[i], s[j])
  }

  /**
   * `findPosition`: the pattern needs at least three rows and three columns in its
   * first row, the maze must be loaded, and at least one position must fit. The
   * positions reported (drawn on the map in the source) are exactly those where the
   * pattern fits, in visit order.
   */
  method FindPosition(maze: Grid, pattern: Pattern) returns (r: Result<seq<Pos>, FindError>)
    requires Rectangular(maze)
    ensures r == Failure(NotEnoughInput) <==> |pattern| < 3 || |pattern[0]| < 3
    ensures r == Failure(MazeNotLoaded) <==> |pattern| >= 3 && |pattern[0]| >= 3 && |maze| < 1
    ensures r == Failure(NotFound) <==>
      |pattern| >= 3 && |pattern[0]| >= 3 && |maze| >= 1 && forall p :: !FitsAt(maze, pattern, p)
    ensures r.Success? ==> InVisitOrder(r.value) && forall p :: p in r.value <==> FitsAt(maze, pattern, p)
  {
    if |pattern| < 3 || |pattern[0]| < 3 {
      return Failure(NotEnoughInput);
    }
    if |maze| < 1 {
      return Failure(MazeNotLoaded);
    }
    var found: seq<Pos> := [];
    var foundAnything := false;
    var y := 0;
    while y < |maze|
      invariant y <= |maze| && InVisitOrder(found)
      invariant foundAnything <==> |found| > 0
      invariant forall p :: p in found <==> FitsAt(maze, pattern, p) && p.y < y
    {
      var x := 0;
      while x < |maze[y]|
        invariant x <= |maze[y]| && InVisitOrder(found)
        invariant foundAnything <==> |found| > 0
        invariant forall p :: p in found ==> Before(p, Pos(x, y))
        invariant forall p :: p in found <==> FitsAt(maze, pattern, p) && Before(p, Pos(x, y))
      {
        var fits := MatchAt(maze, pattern, x, y);
        if fits {
          found := found + [Pos(x, y)];
          foundAnything := true;
        }
        x := x + 1;
      }
      y := y + 1;
    }
    if !foundAnything {
      assert forall p :: !FitsAt(maze, pattern, p);
      return Failure(NotFound);
    }
    assert FitsAt(maze, pattern, found[0]);
    r := Success(found);
  }

  /** The pattern loops at one maze position: stop at the first cell that does not fit. */
  method MatchAt(maze: Grid, pattern: Pattern, x: nat, y: nat) returns (found: bool)
    requires Rectangular(maze) && y < |maze| && x < |maze[y]|
    ensures found <==> FitsAt(maze, pattern, Pos(x, y))
  {
    found := true;
    var py := 0;
    while py < |pattern| && found
      invariant py <= |pattern|
      invariant found <==> RowsFit(maze, pattern, x, y, py)
    {
      var px := 0;
      while px < |pattern[py]| && found
        invariant px <= |pattern[py]|
        invariant found <==> RowsFit(maze, pattern, x, y, py) && RowFits(maze, pattern, x, y, py, px)
      {
        if y + py >= |maze| || x + px >= |maze[y]| {
          found := false;
        } else {
          var mazeType := maze[y + py][x + px];
          var patternType := pattern[py][px];
          if patternType == Unknown {
          } else if patternType == FountainOrTreasure {
            if mazeType != Fountain && mazeType != Treasure {
              found := false;
            }
          } else if patternType == NotWall {
            if mazeType == Wall {
              found := false;
            }
          } else if patternType != mazeType {
            found := false;
          }
        }
        assert found <==> CellFits(maze, pattern, x, y, px, py);
        px := px + 1;
      }
      assert !found ==> !RowFits(maze, pattern, x, y, py, |pattern[py]|);
      py := py + 1;
    }
  }
}

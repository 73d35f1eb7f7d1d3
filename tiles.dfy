/**
 * The dungeon grid: tile types, positions and the shape of a loaded maze.
 * A maze is a row-major grid `maze[y][x]` with its origin at the top left.
 */
module Tiles {

  /** The tile types, including the three wildcard types used only by position patterns. */
  datatype TileType =
    | Path | Wall | Bonfire | Fountain | Treasure | Monster | FamousPlace | Boss
    | Unknown | FountainOrTreasure | NotWall

  /** A grid position; `x` is the column, `y` the row. */
  datatype Pos = Pos(x: int, y: int)

  type Grid = seq<seq<TileType>>

  /** Resource nodes are the tiles that take part in the route graph. */
  predicate IsResource(t: TileType) {
    t == Bonfire || t == Fountain || t == Boss
  }

  /** The tiles a scan may emit a connection to. */
  predicate IsStop(t: TileType) {
    t == Fountain || t == Bonfire
  }

  predicate Rectangular(g: Grid) {
    forall y :: 0 <= y < |g| ==> |g[y]| == |g[0]|
  }

  predicate InGrid(g: Grid, p: Pos) {
    0 <= p.y < |g| && 0 <= p.x < |g[p.y]|
  }

  function TypeAt(g: Grid, p: Pos): TileType
    requires InGrid(g, p)
  {
    g[p.y][p.x]
  }

  /** `p` is inside the grid and holds a tile of type `t`. */
  predicate IsType(g: Grid, p: Pos, t: TileType) {
    InGrid(g, p) && g[p.y][p.x] == t
  }

  /**
   * A rectangular grid whose outermost ring is made of walls. The scanner indexes
   * its neighbours without a bounds check; this shape is what keeps it inside the grid.
   */
  predicate Framed(g: Grid) {
    && Rectangular(g)
    && forall y, x :: 0 <= y < |g| && 0 <= x < |g[y]| && g[y][x] != Wall ==>
         0 < y < |g| - 1 && 0 < x < |g[y]| - 1
  }

  /** The four neighbours in the order the scanner visits them: left, right, up, down. */
  function Neighbours(p: Pos): seq<Pos> {
    [Pos(p.x - 1, p.y), Pos(p.x + 1, p.y), Pos(p.x, p.y - 1), Pos(p.x, p.y + 1)]
  }

  predicate Adjacent(a: Pos, b: Pos) {
    (a.x == b.x && (a.y - b.y == 1 || b.y - a.y == 1)) ||
    (a.y == b.y && (a.x - b.x == 1 || b.x - a.x == 1))
  }

  /** Every neighbour of a non-wall tile of a framed grid lies inside the grid. */
  lemma NeighboursInGrid(g: Grid, p: Pos)
    requires Framed(g) && InGrid(g, p) && TypeAt(g, p) != Wall
    ensures forall q :: q in Neighbours(p) ==> InGrid(g, q) && Adjacent(p, q)
  {
    assert |g[p.y - 1]| == |g[0]| == |g[p.y + 1]| == |g[p.y]|;
  }

  predicate Distinct<T(==)>(s: seq<T>) {
    forall i, j :: 0 <= i < j < |s| ==> s[i] != s[j]
  }

  function Last<T>(s: seq<T>): T
    requires |s| > 0
  {
    s[|s| - 1]
  }

  /** The sequence read back to front. */
  function Reverse<T>(s: seq<T>): (r: seq<T>)
    ensures |r| == |s|
    ensures forall i :: 0 <= i < |s| ==> r[i] == s[|s| - 1 - i]
  {
    if s == [] then [] else Reverse(s[1..]) + [s[0]]
  }

  lemma ReverseReverse<T>(s: seq<T>)
    ensures Reverse(Reverse(s)) == s
  {
    assert forall i :: 0 <= i < |s| ==> Reverse(Reverse(s))[i] == s[i];
  }

  lemma ReverseSameElements<T>(s: seq<T>)
    ensures forall x :: x in Reverse(s) <==> x in s
  {
    forall x
      ensures x in Reverse(s) <==> x in s
    {
      if x in s {
        var i :| 0 <= i < |s| && s[i] == x;
        assert Reverse(s)[|s| - 1 - i] == x;
      }
    }
  }
}

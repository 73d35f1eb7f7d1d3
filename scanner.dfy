/**
 * The reachability scanner of the route graph (dungeon/graph.ts): a bounded
 * depth-first walk from a tile that emits a connection for every live fountain
 * or bonfire it reaches, with the walked path, its cost and what lies on it.
 */
module Scanner {
  import opened Tiles
  import opened Config
  import opened Keys

  /** Monsters and treasures on a connection's path (`ConnectionContents`). */
  datatype Contents = Contents(monsters: nat, treasures: nat)

  /** A connection to `position` along `path`, which starts at the origin and ends at `position`. */
  datatype Connection = Connection(position: Pos, weight: int, path: seq<Pos>, contents: Contents)

  /** `wasHereAlready`: a linear search of the walk for the position. */
  function WasHereAlready(position: Pos, path: seq<Pos>): (r: bool)
    ensures r <==> position in path
  {
    path != [] && (VectorEquals(path[0], position) || WasHereAlready(position, path[1..]))
  }

  /** `q` is a tile of type `t` that is not disabled. */
  predicate Live(g: Grid, disabled: set<Pos>, q: Pos, t: TileType) {
    q !in disabled && IsType(g, q, t)
  }

  /** The number of live tiles of type `t` on a walk. */
  function LiveCount(g: Grid, disabled: set<Pos>, ext: seq<Pos>, t: TileType): (n: nat)
    ensures n <= |ext|
  {
    if ext == [] then 0
    else (if Live(g, disabled, ext[0], t) then 1 else 0) + LiveCount(g, disabled, ext[1..], t)
  }

  /** The monster cost of a walk: the monster weight for each live monster on it. */
  function WalkCost(g: Grid, disabled: set<Pos>, w: Weights, ext: seq<Pos>): int {
    if ext == [] then 0
    else (if Live(g, disabled, ext[0], Monster) then w.monster else 0) + WalkCost(g, disabled, w, ext[1..])
  }

  /** The monster cost is the monster weight times the number of live monsters. */
  lemma {:induction false} WalkCostIsProduct(g: Grid, disabled: set<Pos>, w: Weights, ext: seq<Pos>)
    ensures WalkCost(g, disabled, w, ext) == w.monster * LiveCount(g, disabled, ext, Monster)
  {
    if ext != [] {
      WalkCostIsProduct(g, disabled, w, ext[1..]);
      var m := LiveCount(g, disabled, ext[1..], Monster);
      assert w.monster * (1 + m) == w.monster + w.monster * m;
    }
  }

  /** The running path cost after stepping onto `p`: a live monster adds the monster weight. */
  function StepCost(g: Grid, disabled: set<Pos>, w: Weights, p: Pos, cost: int): int {
    if Live(g, disabled, p, Monster) then cost + w.monster else cost
  }

  /** The running contents after stepping onto `p`: live monsters and treasures are counted. */
  function StepContents(g: Grid, disabled: set<Pos>, p: Pos, contents: Contents): Contents {
    Contents(
      contents.monsters + (if Live(g, disabled, p, Monster) then 1 else 0),
      contents.treasures + (if Live(g, disabled, p, Treasure) then 1 else 0))
  }

  /** The connection emitted on `p` itself, if `p` is a live fountain or bonfire. */
  function Here(g: Grid, disabled: set<Pos>, w: Weights, p: Pos, path: seq<Pos>, cost: int,
                contents: Contents): seq<Connection>
    requires InGrid(g, p)
  {
    var t := TypeAt(g, p);
    if p !in disabled && IsStop(t) then
      [Connection(p, StepCost(g, disabled, w, p, cost) + TileWeight(w, t), path + [p],
                  StepContents(g, disabled, p, contents))]
    else []
  }

  /**
   * `findConnectionsRecursive`: a branch ends when the remaining steps are negative,
   * when the tile is already on the walk, or when it is a wall; otherwise a live
   * fountain or bonfire is emitted and the walk continues left, right, up and down.
   */
  function Scan(g: Grid, disabled: set<Pos>, w: Weights, p: Pos, remaining: int,
                path: seq<Pos>, cost: int, contents: Contents): seq<Connection>
    requires Framed(g) && InGrid(g, p)
    decreases if remaining < 0 then 0 else remaining + 1, 1
  {
    if remaining < 0 then []
    else if WasHereAlready(p, path) then []
    else if TypeAt(g, p) == Wall then []
    else Here(g, disabled, w, p, path, cost, contents) + SubScans(g, disabled, w, p, remaining, path, cost, contents)
  }

  /** The four sub-scans of a live branch, in the order the scanner runs them: left, right, up, down. */
  function SubScans(g: Grid, disabled: set<Pos>, w: Weights, p: Pos, remaining: int,
                    path: seq<Pos>, cost: int, contents: Contents): seq<Connection>
    requires Framed(g) && InGrid(g, p) && remaining >= 0 && TypeAt(g, p) != Wall
    decreases remaining + 1, 0
  {
    NeighboursInGrid(g, p);
    var n := Neighbours(p);
    var newPath := path + [p];
    var newCost := StepCost(g, disabled, w, p, cost);
    var newContents := StepContents(g, disabled, p, contents);
    Scan(g, disabled, w, n[0], remaining - 1, newPath, newCost, newContents)
    + Scan(g, disabled, w, n[1], remaining - 1, newPath, newCost, newContents)
    + Scan(g, disabled, w, n[2], remaining - 1, newPath, newCost, newContents)
    + Scan(g, disabled, w, n[3], remaining - 1, newPath, newCost, newContents)
  }

  /** A connection of a live branch is emitted on `p` itself or by one of the four sub-scans. */
  lemma ScanCases(g: Grid, disabled: set<Pos>, w: Weights, p: Pos, remaining: int,
                  path: seq<Pos>, cost: int, contents: Contents, c: Connection)
    requires Framed(g) && InGrid(g, p)
    requires c in Scan(g, disabled, w, p, remaining, path, cost, contents)
    ensures remaining >= 0 && p !in path && TypeAt(g, p) != Wall
    ensures c in Here(g, disabled, w, p, path, cost, contents) || c in SubScans(g, disabled, w, p, remaining, path, cost, contents)
  {
    assert !WasHereAlready(p, path);
  }

  /** A connection of a sub-scan comes from the scan of one of the four neighbours. */
  lemma SubScanCases(g: Grid, disabled: set<Pos>, w: Weights, p: Pos, remaining: int,
                     path: seq<Pos>, cost: int, contents: Contents, c: Connection) returns (q: Pos)
    requires Framed(g) && InGrid(g, p) && remaining >= 0 && TypeAt(g, p) != Wall
    requires c in SubScans(g, disabled, w, p, remaining, path, cost, contents)
    ensures q in Neighbours(p) && InGrid(g, q) && Adjacent(p, q)
    ensures c in Scan(g, disabled, w, q, remaining - 1, path + [p],
                      StepCost(g, disabled, w, p, cost), StepContents(g, disabled, p, contents))
  {
    NeighboursInGrid(g, p);
    var n := Neighbours(p);
    var newPath := path + [p];
    var newCost := StepCost(g, disabled, w, p, cost);
    var newContents := StepContents(g, disabled, p, contents);
    if c in Scan(g, disabled, w, n[0], remaining - 1, newPath, newCost, newContents) {
      q := n[0];
    } else if c in Scan(g, disabled, w, n[1], remaining - 1, newPath, newCost, newContents) {
      q := n[1];
    } else if c in Scan(g, disabled, w, n[2], remaining - 1, newPath, newCost, newContents) {
      q := n[2];
    } else {
      q := n[3];
    }
  }

  /** Each of the four sub-scans contributes all its connections. */
  lemma ScanParts(g: Grid, disabled: set<Pos>, w: Weights, p: Pos, remaining: int,
                  path: seq<Pos>, cost: int, contents: Contents, q: Pos, c: Connection)
    requires Framed(g) && InGrid(g, p)
    requires remaining >= 0 && p !in path && TypeAt(g, p) != Wall
    ensures InGrid(g, p) && forall r :: r in Neighbours(p) ==> InGrid(g, r) && Adjacent(p, r)
    ensures c in Here(g, disabled, w, p, path, cost, contents) ==> c in Scan(g, disabled, w, p, remaining, path, cost, contents)
    ensures q in Neighbours(p) && c in Scan(g, disabled, w, q, remaining - 1, path + [p],
              StepCost(g, disabled, w, p, cost), StepContents(g, disabled, p, contents))
            ==> c in Scan(g, disabled, w, p, remaining, path, cost, contents)
  {
    NeighboursInGrid(g, p);
  }

  /** Consecutive positions are adjacent and no position is a wall. */
  predicate IsWalk(g: Grid, ext: seq<Pos>) {
    && (forall i :: 0 <= i < |ext| ==> InGrid(g, ext[i]) && TypeAt(g, ext[i]) != Wall)
    && (forall i :: 0 <= i < |ext| - 1 ==> Adjacent(ext[i], ext[i + 1]))
  }

  /**
   * `ext` is a walk the scan from `p` can take with `remaining` steps left after
   * `path`, ending on a live fountain or bonfire: at most `remaining + 1` tiles,
   * no repeated tile and no tile already on `path`.
   */
  predicate Reaches(g: Grid, disabled: set<Pos>, p: Pos, remaining: int, path: seq<Pos>, ext: seq<Pos>) {
    && 1 <= |ext| <= remaining + 1
    && ext[0] == p
    && IsWalk(g, ext)
    && Distinct(ext)
    && (forall i :: 0 <= i < |ext| ==> ext[i] !in path)
    && Last(ext) !in disabled
    && IsStop(TypeAt(g, Last(ext)))
  }

  /** The connection the scan emits for the walk `ext`. */
  function ConnectionFor(g: Grid, disabled: set<Pos>, w: Weights, path: seq<Pos>, cost: int,
                         contents: Contents, ext: seq<Pos>): Connection
    requires |ext| > 0 && IsWalk(g, ext)
  {
    Connection(
      Last(ext),
      cost + WalkCost(g, disabled, w, ext) + TileWeight(w, TypeAt(g, Last(ext))),
      path + ext,
      Contents(contents.monsters + LiveCount(g, disabled, ext, Monster),
               contents.treasures + LiveCount(g, disabled, ext, Treasure)))
  }

  /** Emitting after one more step is the same as emitting for the longer walk. */
  lemma ConnectionForStep(g: Grid, disabled: set<Pos>, w: Weights, path: seq<Pos>, cost: int,
                          contents: Contents, p: Pos, ext: seq<Pos>)
    requires |ext| > 0 && IsWalk(g, [p] + ext)
    ensures IsWalk(g, ext)
    ensures ConnectionFor(g, disabled, w, path, cost, contents, [p] + ext)
         == ConnectionFor(g, disabled, w, path + [p], StepCost(g, disabled, w, p, cost),
                          StepContents(g, disabled, p, contents), ext)
  {
    var e := [p] + ext;
    assert e[1..] == ext;
    assert IsWalk(g, ext) by {
      forall i | 0 <= i < |ext| ensures InGrid(g, ext[i]) && TypeAt(g, ext[i]) != Wall {
        assert ext[i] == e[i + 1];
      }
      forall i | 0 <= i < |ext| - 1 ensures Adjacent(ext[i], ext[i + 1]) {
        assert ext[i] == e[i + 1] && ext[i + 1] == e[i + 2];
      }
    }
    assert Last(e) == Last(ext);
    assert path + e == path + [p] + ext;
  }

  /** The connection emitted on `p` itself is the one of the one-tile walk `[p]`. */
  lemma HereIsSingleWalk(g: Grid, disabled: set<Pos>, w: Weights, p: Pos, path: seq<Pos>, cost: int, contents: Contents)
    requires InGrid(g, p) && TypeAt(g, p) != Wall
    ensures IsWalk(g, [p])
    ensures Here(g, disabled, w, p, path, cost, contents) != [] <==> p !in disabled && IsStop(TypeAt(g, p))
    ensures Here(g, disabled, w, p, path, cost, contents) != [] ==>
      Here(g, disabled, w, p, path, cost, contents) == [ConnectionFor(g, disabled, w, path, cost, contents, [p])]
  {
    assert [p][1..] == [];
    assert WalkCost(g, disabled, w, [p]) == (if Live(g, disabled, p, Monster) then w.monster else 0);
    assert LiveCount(g, disabled, [p], Monster) == (if Live(g, disabled, p, Monster) then 1 else 0);
    assert LiveCount(g, disabled, [p], Treasure) == (if Live(g, disabled, p, Treasure) then 1 else 0);
  }

  lemma AdjacentIsNeighbour(p: Pos, q: Pos)
    requires Adjacent(p, q)
    ensures q in Neighbours(p)
  {
    if q.y == p.y && q.x == p.x - 1 { assert q == Neighbours(p)[0]; }
    else if q.y == p.y && q.x == p.x + 1 { assert q == Neighbours(p)[1]; }
    else if q.x == p.x && q.y == p.y - 1 { assert q == Neighbours(p)[2]; }
    else { assert q == Neighbours(p)[3]; }
  }

  /** A walk the scan may take from a neighbour after `p`, prefixed with `p`, is one it may take from `p`. */
  lemma ExtendReaches(g: Grid, disabled: set<Pos>, p: Pos, q: Pos, remaining: int, path: seq<Pos>, ext': seq<Pos>)
    requires InGrid(g, p) && TypeAt(g, p) != Wall && p !in path && Adjacent(p, q)
    requires Reaches(g, disabled, q, remaining - 1, path + [p], ext')
    ensures Reaches(g, disabled, p, remaining, path, [p] + ext')
  {
    var ext := [p] + ext';
    assert forall i :: 0 < i < |ext| ==> ext[i] == ext'[i - 1];
    assert forall i :: 0 <= i < |ext'| ==> ext'[i] !in path + [p];
    assert IsWalk(g, ext) by {
      forall i | 0 <= i < |ext| - 1 ensures Adjacent(ext[i], ext[i + 1]) {
        if i > 0 { assert ext[i] == ext'[i - 1] && ext[i + 1] == ext'[i]; }
      }
    }
    assert Distinct(ext) by {
      forall i, j | 0 <= i < j < |ext| ensures ext[i] != ext[j] {
        assert ext[j] == ext'[j - 1];
        if i > 0 { assert ext[i] == ext'[i - 1]; }
      }
    }
    assert Last(ext) == Last(ext');
  }

  /** The tail of a walk the scan may take from `p` is a walk it may take from the next tile. */
  lemma ShrinkReaches(g: Grid, disabled: set<Pos>, p: Pos, remaining: int, path: seq<Pos>, ext: seq<Pos>)
    requires Reaches(g, disabled, p, remaining, path, ext) && |ext| > 1
    ensures Adjacent(p, ext[1])
    ensures Reaches(g, disabled, ext[1], remaining - 1, path + [p], ext[1..])
  {
    var ext' := ext[1..];
    assert forall i :: 0 <= i < |ext'| ==> ext'[i] == ext[i + 1];
    assert IsWalk(g, ext') by {
      forall i | 0 <= i < |ext'| - 1 ensures Adjacent(ext'[i], ext'[i + 1]) {
        assert ext'[i] == ext[i + 1] && ext'[i + 1] == ext[i + 2];
      }
    }
    assert Distinct(ext');
    forall i | 0 <= i < |ext'| ensures ext'[i] !in path + [p] {
      assert ext[i + 1] != ext[0];
    }
    assert Last(ext') == Last(ext);
  }

  /**
   * `c` extends `path` by a walk the scan from `p` may take, and carries the
   * target, cost and contents of that walk.
   */
  predicate WalkConnection(g: Grid, disabled: set<Pos>, w: Weights, p: Pos, remaining: int,
                           path: seq<Pos>, cost: int, contents: Contents, c: Connection)
  {
    && |path| < |c.path| && c.path[..|path|] == path
    && Reaches(g, disabled, p, remaining, path, c.path[|path|..])
    && c == ConnectionFor(g, disabled, w, path, cost, contents, c.path[|path|..])
  }

  /** What soundness says of a connection found one step further on, it says of the connection from `p`. */
  lemma StepSound(g: Grid, disabled: set<Pos>, w: Weights, p: Pos, q: Pos, remaining: int,
                  path: seq<Pos>, cost: int, contents: Contents, c: Connection)
    requires InGrid(g, p) && TypeAt(g, p) != Wall && p !in path && Adjacent(p, q)
    requires WalkConnection(g, disabled, w, q, remaining - 1, path + [p], StepCost(g, disabled, w, p, cost),
                            StepContents(g, disabled, p, contents), c)
    ensures WalkConnection(g, disabled, w, p, remaining, path, cost, contents, c)
  {
    var newPath := path + [p];
    var ext' := c.path[|newPath|..];
    var ext := c.path[|path|..];
    assert ext == [p] + ext';
    assert c.path[..|path|] == newPath[..|path|];
    ExtendReaches(g, disabled, p, q, remaining, path, ext');
    ConnectionForStep(g, disabled, w, path, cost, contents, p, ext');
  }

  /**
   * Soundness: every emitted connection extends `path` by a walk the scan may
   * take, and carries the target, cost and contents of that walk.
   */
  lemma {:induction false} ScanSound(g: Grid, disabled: set<Pos>, w: Weights, p: Pos, remaining: int,
                                     path: seq<Pos>, cost: int, contents: Contents, c: Connection)
    requires Framed(g) && InGrid(g, p)
    requires c in Scan(g, disabled, w, p, remaining, path, cost, contents)
    ensures WalkConnection(g, disabled, w, p, remaining, path, cost, contents, c)
    decreases if remaining < 0 then 0 else remaining + 1, 1
  {
    assert remaining >= 0 && !WasHereAlready(p, path) && TypeAt(g, p) != Wall;
    if c in Here(g, disabled, w, p, path, cost, contents) {
      HereSound(g, disabled, w, p, remaining, path, cost, contents, c);
    } else {
      SubScanSound(g, disabled, w, p, remaining, path, cost, contents, c);
    }
  }

  /** Soundness of the four sub-scans, through the neighbour whose scan emitted the connection. */
  lemma {:induction false} SubScanSound(g: Grid, disabled: set<Pos>, w: Weights, p: Pos, remaining: int,
                                        path: seq<Pos>, cost: int, contents: Contents, c: Connection)
    requires Framed(g) && InGrid(g, p) && remaining >= 0 && TypeAt(g, p) != Wall && p !in path
    requires c in SubScans(g, disabled, w, p, remaining, path, cost, contents)
    ensures WalkConnection(g, disabled, w, p, remaining, path, cost, contents, c)
    decreases remaining + 1, 0
  {
    var q := SubScanCases(g, disabled, w, p, remaining, path, cost, contents, c);
    ScanSound(g, disabled, w, q, remaining - 1, path + [p], StepCost(g, disabled, w, p, cost),
              StepContents(g, disabled, p, contents), c);
    StepSound(g, disabled, w, p, q, remaining, path, cost, contents, c);
  }

  /** The connection emitted on `p` itself is that of the one-tile walk. */
  lemma HereSound(g: Grid, disabled: set<Pos>, w: Weights, p: Pos, remaining: int,
                  path: seq<Pos>, cost: int, contents: Contents, c: Connection)
    requires InGrid(g, p) && TypeAt(g, p) != Wall && remaining >= 0 && p !in path
    requires c in Here(g, disabled, w, p, path, cost, contents)
    ensures WalkConnection(g, disabled, w, p, remaining, path, cost, contents, c)
  {
    assert c.path == path + [p];
    assert c.path[|path|..] == [p];
    HereIsSingleWalk(g, disabled, w, p, path, cost, contents);
  }

  /** A walk of more than one tile continues as a walk from one of the four neighbours. */
  lemma StepComplete(g: Grid, disabled: set<Pos>, w: Weights, p: Pos, remaining: int,
                     path: seq<Pos>, cost: int, contents: Contents, ext: seq<Pos>)
    requires Reaches(g, disabled, p, remaining, path, ext) && |ext| > 1
    ensures ext[1] in Neighbours(p)
    ensures Reaches(g, disabled, ext[1], remaining - 1, path + [p], ext[1..])
    ensures ConnectionFor(g, disabled, w, path, cost, contents, ext)
         == ConnectionFor(g, disabled, w, path + [p], StepCost(g, disabled, w, p, cost),
                          StepContents(g, disabled, p, contents), ext[1..])
  {
    assert ext == [p] + ext[1..];
    ShrinkReaches(g, disabled, p, remaining, path, ext);
    AdjacentIsNeighbour(p, ext[1]);
    ConnectionForStep(g, disabled, w, path, cost, contents, p, ext[1..]);
  }

  /** Completeness: the scan emits the connection of every walk it may take. */
  lemma {:induction false} ScanComplete(g: Grid, disabled: set<Pos>, w: Weights, p: Pos, remaining: int,
                                        path: seq<Pos>, cost: int, contents: Contents, ext: seq<Pos>)
    requires Framed(g) && InGrid(g, p)
    requires Reaches(g, disabled, p, remaining, path, ext)
    ensures ConnectionFor(g, disabled, w, path, cost, contents, ext) in Scan(g, disabled, w, p, remaining, path, cost, contents)
    decreases |ext|
  {
    if |ext| == 1 {
      HereComplete(g, disabled, w, p, remaining, path, cost, contents, ext);
    } else {
      StepComplete(g, disabled, w, p, remaining, path, cost, contents, ext);
      ScanComplete(g, disabled, w, ext[1], remaining - 1, path + [p], StepCost(g, disabled, w, p, cost),
                   StepContents(g, disabled, p, contents), ext[1..]);
      StepEmitted(g, disabled, w, p, remaining, path, cost, contents, ext);
    }
  }

  /** A one-tile walk is emitted on `p` itself. */
  lemma HereComplete(g: Grid, disabled: set<Pos>, w: Weights, p: Pos, remaining: int,
                     path: seq<Pos>, cost: int, contents: Contents, ext: seq<Pos>)
    requires Framed(g) && InGrid(g, p)
    requires Reaches(g, disabled, p, remaining, path, ext) && |ext| == 1
    ensures ConnectionFor(g, disabled, w, path, cost, contents, ext) in Scan(g, disabled, w, p, remaining, path, cost, contents)
  {
    assert ext[0] !in path;
    var c := ConnectionFor(g, disabled, w, path, cost, contents, ext);
    assert ext == [p];
    HereIsSingleWalk(g, disabled, w, p, path, cost, contents);
    assert c == Here(g, disabled, w, p, path, cost, contents)[0];
    ScanParts(g, disabled, w, p, remaining, path, cost, contents, p, c);
  }

  /** A longer walk is emitted by the sub-scan of its second tile, when that sub-scan emits its rest. */
  lemma StepEmitted(g: Grid, disabled: set<Pos>, w: Weights, p: Pos, remaining: int,
                    path: seq<Pos>, cost: int, contents: Contents, ext: seq<Pos>)
    requires Framed(g) && InGrid(g, p)
    requires Reaches(g, disabled, p, remaining, path, ext) && |ext| > 1
    requires ext[1] in Neighbours(p)
    requires ConnectionFor(g, disabled, w, path, cost, contents, ext)
          == ConnectionFor(g, disabled, w, path + [p], StepCost(g, disabled, w, p, cost),
                           StepContents(g, disabled, p, contents), ext[1..])
    requires ConnectionFor(g, disabled, w, path + [p], StepCost(g, disabled, w, p, cost),
                           StepContents(g, disabled, p, contents), ext[1..])
          in Scan(g, disabled, w, ext[1], remaining - 1, path + [p], StepCost(g, disabled, w, p, cost),
                  StepContents(g, disabled, p, contents))
    ensures ConnectionFor(g, disabled, w, path, cost, contents, ext) in Scan(g, disabled, w, p, remaining, path, cost, contents)
  {
    assert ext[0] !in path;
    var c := ConnectionFor(g, disabled, w, path, cost, contents, ext);
    ScanParts(g, disabled, w, p, remaining, path, cost, contents, ext[1], c);
  }

  /** Every connection of a sub-scan walks at least two tiles past `path`. */
  lemma SubScansLonger(g: Grid, disabled: set<Pos>, w: Weights, p: Pos, remaining: int,
                       path: seq<Pos>, cost: int, contents: Contents, c: Connection)
    requires Framed(g) && InGrid(g, p) && remaining >= 0 && TypeAt(g, p) != Wall
    requires c in SubScans(g, disabled, w, p, remaining, path, cost, contents)
    ensures |c.path| > |path| + 1
  {
    var q := SubScanCases(g, disabled, w, p, remaining, path, cost, contents, c);
    ScanSound(g, disabled, w, q, remaining - 1, path + [p], StepCost(g, disabled, w, p, cost),
              StepContents(g, disabled, p, contents), c);
  }

  /** Only the first connection of a scan can be the one-tile walk: every later one comes from a sub-scan. */
  lemma LongerAfterFirst(g: Grid, disabled: set<Pos>, w: Weights, p: Pos, remaining: int,
                         path: seq<Pos>, cost: int, contents: Contents, i: nat)
    requires Framed(g) && InGrid(g, p)
    requires 0 < i < |Scan(g, disabled, w, p, remaining, path, cost, contents)|
    ensures |Scan(g, disabled, w, p, remaining, path, cost, contents)[i].path| > |path| + 1
  {
    var all := Scan(g, disabled, w, p, remaining, path, cost, contents);
    ScanCases(g, disabled, w, p, remaining, path, cost, contents, all[i]);
    var here := Here(g, disabled, w, p, path, cost, contents);
    var rest := SubScans(g, disabled, w, p, remaining, path, cost, contents);
    assert all[i] == rest[i - |here|];
    SubScansLonger(g, disabled, w, p, remaining, path, cost, contents, all[i]);
  }

  /** The scan emits exactly the connections of the walks it may take. */
  lemma ScanExactly(g: Grid, disabled: set<Pos>, w: Weights, p: Pos, remaining: int,
                    path: seq<Pos>, cost: int, contents: Contents, c: Connection)
    requires Framed(g) && InGrid(g, p)
    ensures c in Scan(g, disabled, w, p, remaining, path, cost, contents) <==>
      WalkConnection(g, disabled, w, p, remaining, path, cost, contents, c)
  {
    if c in Scan(g, disabled, w, p, remaining, path, cost, contents) {
      ScanSound(g, disabled, w, p, remaining, path, cost, contents, c);
    } else if WalkConnection(g, disabled, w, p, remaining, path, cost, contents, c) {
      ScanComplete(g, disabled, w, p, remaining, path, cost, contents, c.path[|path|..]);
    }
  }

  /** More budget never loses a connection: the scan is monotone in the step budget. */
  lemma ScanMonotone(g: Grid, disabled: set<Pos>, w: Weights, p: Pos, remaining: int, more: int,
                     path: seq<Pos>, cost: int, contents: Contents, c: Connection)
    requires Framed(g) && InGrid(g, p) && remaining <= more
    requires c in Scan(g, disabled, w, p, remaining, path, cost, contents)
    ensures c in Scan(g, disabled, w, p, more, path, cost, contents)
  {
    ScanSound(g, disabled, w, p, remaining, path, cost, contents, c);
    ScanComplete(g, disabled, w, p, more, path, cost, contents, c.path[|path|..]);
  }
}

/**
 * Choosing where a route starts and reading routes back from the solvers'
 * predecessor links (dungeon/graph.ts `fixStartingPosition`,
 * `findPathFromNodes`; dungeon/treasure.ts `findTreasureRoute`).
 */
module Routes {
  import opened Wrappers
  import opened Tiles
  import opened Sorting
  import opened Labels
  import opened Config
  import opened Scanner
  import opened Graph
  import opened Walks
  import opened Labelling
  import opened TreasureSolver

  /** The errors the route finder throws; `OutsideMaze` stands for the TypeError of indexing past the maze. */
  datatype RouteError =
    | MazeNotLoaded
    | InvalidStart
    | OutsideMaze
    | StartOnWall
    | NothingInReach
    | NoPath

  // ---------------------------------------------------------------- start fixing

  /** `sortConnectionsByDistanceAndBonfire` as a sort key: fountains first, then the shorter path. */
  function StartKey(g: Grid): Connection -> Key {
    (c: Connection) => Key(if IsType(g, c.position, Fountain) then 0 else 1, |c.path|)
  }

  /** The comparator itself. */
  function CompareStartConnections(g: Grid, a: Connection, b: Connection): int {
    if IsType(g, a.position, Fountain) && !IsType(g, b.position, Fountain) then -1
    else if !IsType(g, a.position, Fountain) && IsType(g, b.position, Fountain) then 1
    else |a.path| - |b.path|
  }

  /** The comparator orders connections exactly as their keys do, so the sort is a stable sort by key. */
  lemma StartComparatorIsKeyOrder(g: Grid, a: Connection, b: Connection)
    ensures CompareStartConnections(g, a, b) < 0 <==> KeyLt(StartKey(g)(a), StartKey(g)(b))
    ensures CompareStartConnections(g, a, b) == 0 <==> StartKey(g)(a) == StartKey(g)(b)
  {
  }

  /**
   * `fixStartingPosition`: a start on a bonfire, fountain or boss is kept; from any
   * other open tile the route starts at the best fountain or bonfire the scan
   * reaches within `maxSteps`.
   */
  function FixStartingPosition(g: Grid, disabled: set<Pos>, s: Settings, start: Pos): (r: Result<Pos, RouteError>)
    requires Framed(g)
    ensures r.Success? ==> InGrid(g, r.value) && IsResource(TypeAt(g, r.value))
    ensures InGrid(g, start) && IsResource(TypeAt(g, start)) ==> r == Success(start)
    ensures r == Failure(MazeNotLoaded) <==> |g| == 0
    ensures r == Failure(InvalidStart) <==> |g| > 0 && (start.x < 0 || start.y < 0)
    ensures r == Failure(OutsideMaze) <==> |g| > 0 && start.x >= 0 && start.y >= 0 && !InGrid(g, start)
    ensures r == Failure(StartOnWall) <==> InGrid(g, start) && TypeAt(g, start) == Wall
  {
    if |g| == 0 then Failure(MazeNotLoaded)
    else if start.x < 0 || start.y < 0 then Failure(InvalidStart)
    else if !InGrid(g, start) then Failure(OutsideMaze)
    else if IsResource(TypeAt(g, start)) then Success(start)
    else if TypeAt(g, start) == Wall then Failure(StartOnWall)
    else
      var found := ConnectionsOf(g, disabled, s.boss.weights, s.boss.onlyThroughBonfires, start, Wall, s.maxSteps);
      if |found| == 0 then Failure(NothingInReach)
      else
        var best := SortBy(found, StartKey(g))[0];
        assert best in multiset(found);
        ConnectionShape(g, disabled, s.boss.weights, s.boss.onlyThroughBonfires, start, Wall, s.maxSteps, best);
        Success(best.position)
  }

  /** The first connection with the least key is a fountain whenever one is listed, and has a shortest path among its kind. */
  lemma BestByStartKey(g: Grid, found: seq<Connection>)
    requires |found| > 0
    ensures var c := found[FirstMinIndex(found, StartKey(g))];
      && ((exists d :: d in found && IsType(g, d.position, Fountain)) ==> IsType(g, c.position, Fountain))
      && (forall d :: d in found && IsType(g, d.position, Fountain) == IsType(g, c.position, Fountain) ==>
            |c.path| <= |d.path|)
  {
    var c := found[FirstMinIndex(found, StartKey(g))];
    forall d | d in found
      ensures KeyLe(StartKey(g)(c), StartKey(g)(d))
    {
      var j :| 0 <= j < |found| && found[j] == d;
    }
  }

  /** The connection the start moves to is a walk the scan may take from the start. */
  lemma StartConnectionReached(g: Grid, disabled: set<Pos>, s: Settings, start: Pos, c: Connection)
    requires Framed(g) && InGrid(g, start)
    requires c in ConnectionsOf(g, disabled, s.boss.weights, s.boss.onlyThroughBonfires, start, Wall, s.maxSteps)
    ensures Reaches(g, disabled, start, s.maxSteps, [], c.path)
  {
    ConnectionsOfTargets(g, disabled, s.boss.weights, s.boss.onlyThroughBonfires, start, Wall, s.maxSteps, c);
    ScanSound(g, disabled, s.boss.weights, start, s.maxSteps, [], 0, Contents(0, 0), c);
    assert c.path[0..] == c.path;
  }

  /**
   * From an open tile that is not a node, the start moves to the first connection
   * of the scan with the least key: a fountain whenever one is in reach, and among
   * those of the same kind one with the shortest path; every connection before it
   * in scan order is strictly worse. The walk to it is one the scan may take.
   */
  lemma ClosestStart(g: Grid, disabled: set<Pos>, s: Settings, start: Pos)
    requires Framed(g) && InGrid(g, start) && !IsResource(TypeAt(g, start)) && TypeAt(g, start) != Wall
    ensures var found := ConnectionsOf(g, disabled, s.boss.weights, s.boss.onlyThroughBonfires, start, Wall, s.maxSteps);
      |found| > 0 ==>
        var i := FirstMinIndex(found, StartKey(g));
        var c := found[i];
        && FixStartingPosition(g, disabled, s, start) == Success(c.position)
        && Reaches(g, disabled, start, s.maxSteps, [], c.path)
        && ((exists d :: d in found && IsType(g, d.position, Fountain)) ==> IsType(g, c.position, Fountain))
        && (forall d :: d in found && IsType(g, d.position, Fountain) == IsType(g, c.position, Fountain) ==>
              |c.path| <= |d.path|)
        && (forall j :: 0 <= j < i ==> KeyLt(StartKey(g)(c), StartKey(g)(found[j])))
  {
    var found := ConnectionsOf(g, disabled, s.boss.weights, s.boss.onlyThroughBonfires, start, Wall, s.maxSteps);
    if |found| > 0 {
      var i := FirstMinIndex(found, StartKey(g));
      SortHead(found, StartKey(g));
      StartConnectionReached(g, disabled, s, start, found[i]);
      BestByStartKey(g, found);
    }
  }

  /** Nothing is in reach exactly when the scan has no walk from the start to a live fountain or bonfire. */
  lemma NothingInReachMeansNoWalk(g: Grid, disabled: set<Pos>, s: Settings, start: Pos)
    requires Framed(g) && InGrid(g, start) && !IsResource(TypeAt(g, start)) && TypeAt(g, start) != Wall
    ensures FixStartingPosition(g, disabled, s, start) == Failure(NothingInReach) <==>
      forall ext :: !Reaches(g, disabled, start, s.maxSteps, [], ext)
  {
    var found := ConnectionsOf(g, disabled, s.boss.weights, s.boss.onlyThroughBonfires, start, Wall, s.maxSteps);
    NothingInReachMeansNoneFound(g, disabled, s, start);
    if |found| > 0 {
      StartConnectionReached(g, disabled, s, start, found[0]);
    } else {
      forall ext | Reaches(g, disabled, start, s.maxSteps, [], ext)
        ensures false
      {
        WalkIsFound(g, disabled, s, start, ext);
      }
    }
  }

  /** The start is refused as out of reach exactly when the scan from it lists no connection. */
  lemma NothingInReachMeansNoneFound(g: Grid, disabled: set<Pos>, s: Settings, start: Pos)
    requires Framed(g) && InGrid(g, start) && !IsResource(TypeAt(g, start)) && TypeAt(g, start) != Wall
    ensures FixStartingPosition(g, disabled, s, start) == Failure(NothingInReach) <==>
      |ConnectionsOf(g, disabled, s.boss.weights, s.boss.onlyThroughBonfires, start, Wall, s.maxSteps)| == 0
  {
  }

  /** A walk the scan may take from the start yields a connection to move to. */
  lemma WalkIsFound(g: Grid, disabled: set<Pos>, s: Settings, start: Pos, ext: seq<Pos>)
    requires Framed(g) && InGrid(g, start) && !IsResource(TypeAt(g, start))
    requires Reaches(g, disabled, start, s.maxSteps, [], ext)
    ensures |ConnectionsOf(g, disabled, s.boss.weights, s.boss.onlyThroughBonfires, start, Wall, s.maxSteps)| > 0
  {
    ScanComplete(g, disabled, s.boss.weights, start, s.maxSteps, [], 0, Contents(0, 0), ext);
    var c := ConnectionFor(g, disabled, s.boss.weights, [], 0, Contents(0, 0), ext);
    ConnectionsOfTargets(g, disabled, s.boss.weights, s.boss.onlyThroughBonfires, start, Wall, s.maxSteps, c);
  }

  // ---------------------------------------------------------------- following predecessor links

  /** The predecessor link of `k`, if any, leads to a node of smaller rank. */
  ghost predicate RankedAt(w: NodeMap, rank: map<Pos, nat>, k: Pos)
    requires k in w && rank.Keys == w.Keys
  {
    w[k].previous.Some? ==> w[k].previous.value in w && rank[w[k].previous.value] < rank[k]
  }

  /** Predecessor links lead to nodes of smaller rank, so following them ends. */
  ghost predicate Ranked(w: NodeMap, rank: map<Pos, nat>) {
    && rank.Keys == w.Keys
    && forall k {:trigger RankedAt(w, rank, k)} :: k in w ==> RankedAt(w, rank, k)
  }

  /** A finite label other than the root's comes with a finite-labelled predecessor. */
  ghost predicate LinkedBack(w: NodeMap, root: Pos, k: Pos)
    requires k in w
  {
    w[k].distance.Fin? && k != root ==>
      w[k].previous.Some? && w[k].previous.value in w && w[w[k].previous.value].distance.Fin?
  }

  /**
   * What a walk back needs of a solver's labels: ranked links, a finite-labelled
   * root without predecessor, and a finite-labelled predecessor for every other
   * finite-labelled node.
   */
  ghost predicate Walkable(w: NodeMap, rank: map<Pos, nat>, root: Pos) {
    && Ranked(w, rank)
    && root in w && w[root].previous.None? && w[root].distance.Fin?
    && forall k {:trigger LinkedBack(w, root, k)} :: k in w ==> LinkedBack(w, root, k)
  }

  /** The nodes visited when following predecessor links from `k` until a node has none. */
  ghost function Predecessors(w: NodeMap, rank: map<Pos, nat>, k: Pos): (stops: seq<Pos>)
    requires Ranked(w, rank) && k in w
    ensures |stops| > 0 && stops[0] == k
    ensures forall i :: 0 <= i < |stops| ==> stops[i] in w
    ensures w[Last(stops)].previous.None?
    decreases rank[k]
  {
    assert RankedAt(w, rank, k);
    if w[k].previous.None? then [k] else [k] + Predecessors(w, rank, w[k].previous.value)
  }

  /** One step of the walk: a node's stops are the node followed by its predecessor's stops. */
  lemma PredecessorsUnfold(w: NodeMap, rank: map<Pos, nat>, k: Pos)
    requires Ranked(w, rank) && k in w
    ensures w[k].previous.None? ==> Predecessors(w, rank, k) == [k]
    ensures w[k].previous.Some? ==>
      RankedAt(w, rank, k) && w[k].previous.value in w &&
      Predecessors(w, rank, k) == [k] + Predecessors(w, rank, w[k].previous.value)
  {
    assert RankedAt(w, rank, k);
  }

  /** From a finite label the links end at the root. */
  lemma {:induction false} PredecessorsReachRoot(w: NodeMap, rank: map<Pos, nat>, root: Pos, k: Pos)
    requires Walkable(w, rank, root) && k in w && w[k].distance.Fin?
    ensures Last(Predecessors(w, rank, k)) == root
    decreases rank[k]
  {
    assert RankedAt(w, rank, k) && LinkedBack(w, root, k);
    if k != root {
      PredecessorsReachRoot(w, rank, root, w[k].previous.value);
    }
  }

  /** `node.pathToPrevious ?? []`. */
  function PathToPrevious(n: Node): seq<Pos> {
    if n.pathToPrevious.Some? then n.pathToPrevious.value else []
  }

  /** The paths to the predecessors of the nodes at `stops`, joined in order. */
  function JoinPaths(w: NodeMap, stops: seq<Pos>): seq<Pos>
    requires forall i :: 0 <= i < |stops| ==> stops[i] in w
  {
    if stops == [] then [] else PathToPrevious(w[stops[0]]) + JoinPaths(w, stops[1..])
  }

  /** The nodes at `stops`. */
  function NodesAt(w: NodeMap, stops: seq<Pos>): (ns: seq<Node>)
    requires forall i :: 0 <= i < |stops| ==> stops[i] in w
    ensures |ns| == |stops|
  {
    if stops == [] then [] else NodesAt(w, stops[..|stops| - 1]) + [w[Last(stops)]]
  }

  /** The node list holds, at each index, the node at that stop. */
  lemma {:induction false} NodesAtIndex(w: NodeMap, stops: seq<Pos>)
    requires forall i :: 0 <= i < |stops| ==> stops[i] in w
    ensures forall i :: 0 <= i < |stops| ==> NodesAt(w, stops)[i] == w[stops[i]]
  {
    if stops != [] {
      NodesAtIndex(w, stops[..|stops| - 1]);
    }
  }

  /** Appending one more stop appends its path: the loop's `fullPath.push(...)`. */
  lemma {:induction false} JoinPathsAppend(w: NodeMap, stops: seq<Pos>, k: Pos)
    requires forall i :: 0 <= i < |stops| ==> stops[i] in w
    requires k in w
    ensures JoinPaths(w, stops + [k]) == JoinPaths(w, stops) + PathToPrevious(w[k])
  {
    if stops != [] {
      assert (stops + [k])[1..] == stops[1..] + [k];
      JoinPathsAppend(w, stops[1..], k);
    }
  }

  /** A solver's chain can be walked back to its root. */
  lemma ChainWalkable(conns: ConnectionTable, cs: ConnectionTable, w: NodeMap, rank: map<Pos, nat>,
                      via: map<Pos, nat>, root: Pos, wt: Connection -> int, unreached: Label)
    requires Chain(conns, cs, w, rank, via, root, wt, unreached) && rank.Keys == w.Keys
    ensures Walkable(w, rank, root)
  {
    forall k | k in w
      ensures RankedAt(w, rank, k) && LinkedBack(w, root, k)
    {
      assert Linked(conns, cs, w, rank, via, root, wt, unreached, k);
    }
  }

  /** The stops are the sources of the route's steps read backwards, followed by its last target. */
  ghost predicate Backwards(stops: seq<Pos>, route: seq<Step>) {
    && |stops| == |route| + 1
    && forall i :: 0 <= i < |route| ==> stops[|route| - i] == route[i].from
  }

  /** One more link at the front of the stops is one more step at the end of the route. */
  lemma StopsExtend(k: Pos, rest: seq<Pos>, before: seq<Step>, st: Step)
    requires Backwards(rest, before) && rest[0] == st.from
    ensures Backwards([k] + rest, before + [st])
  {
  }

  /**
   * The nodes the walk visits are the stops of the route the links spell out,
   * read backwards: from `k`, through each step's source, to the root.
   */
  lemma {:induction false} PredecessorsFollowRoute(conns: ConnectionTable, cs: ConnectionTable, w: NodeMap,
                                                   rank: map<Pos, nat>, via: map<Pos, nat>, root: Pos,
                                                   wt: Connection -> int, unreached: Label, k: Pos)
    requires Chain(conns, cs, w, rank, via, root, wt, unreached) && rank.Keys == w.Keys
    requires Ranked(w, rank)
    requires k in w && w[k].distance.Fin?
    ensures Backwards(Predecessors(w, rank, k), LinkRoute(conns, cs, w, rank, via, root, wt, unreached, k))
    decreases rank[k]
  {
    var stops := Predecessors(w, rank, k);
    var route := LinkRoute(conns, cs, w, rank, via, root, wt, unreached, k);
    if k == root {
      assert w[k].previous.None?;
    } else {
      assert Linked(conns, cs, w, rank, via, root, wt, unreached, k);
      var pr := w[k].previous.value;
      PredecessorsFollowRoute(conns, cs, w, rank, via, root, wt, unreached, pr);
      var before := LinkRoute(conns, cs, w, rank, via, root, wt, unreached, pr);
      var rest := Predecessors(w, rank, pr);
      assert route == before + [Step(pr, via[k])];
      assert stops == [k] + rest;
      StopsExtend(k, rest, before, Step(pr, via[k]));
    }
  }

  /** Every connection's path runs from its source to its target, as freshly built ones do. */
  ghost predicate Forward(conns: ConnectionTable) {
    forall p, i :: p in conns && 0 <= i < |conns[p]| ==>
      |conns[p][i].path| >= 2 && conns[p][i].path[0] == p && Last(conns[p][i].path) == conns[p][i].position
  }

  /**
   * With the connection paths of a fresh table, the joined paths of the walk from
   * `k` form one path that starts at `k` and ends at the root.
   */
  lemma {:induction false} JoinedPathEnds(conns: ConnectionTable, cs: ConnectionTable, w: NodeMap,
                                          rank: map<Pos, nat>, via: map<Pos, nat>, root: Pos,
                                          wt: Connection -> int, unreached: Label, k: Pos)
    requires Chain(conns, cs, w, rank, via, root, wt, unreached) && Forward(conns)
    requires Ranked(w, rank)
    requires k in w && w[k].distance.Fin? && k != root
    ensures var path := JoinPaths(w, Predecessors(w, rank, k));
      |path| >= 2 && path[0] == k && Last(path) == root
    decreases rank[k]
  {
    assert Linked(conns, cs, w, rank, via, root, wt, unreached, k);
    var pr := w[k].previous.value;
    var c := conns[pr][via[k]];
    var head := PathToPrevious(w[k]);
    assert head == Reverse(c.path);
    var rest := Predecessors(w, rank, pr);
    assert Predecessors(w, rank, k) == [k] + rest;
    assert ([k] + rest)[1..] == rest;
    assert JoinPaths(w, [k] + rest) == head + JoinPaths(w, rest);
    if pr == root {
      assert rest == [root];
      assert JoinPaths(w, rest) == [];
    } else {
      JoinedPathEnds(conns, cs, w, rank, via, root, wt, unreached, pr);
    }
  }

  // ---------------------------------------------------------------- the boss route

  /** The boss node is the only boss-typed node the solver can label: connections lead to fountains and bonfires. */
  ghost predicate BossOnlyAtRoot(conns: ConnectionTable, w: NodeMap, boss: Pos) {
    && boss in w && w[boss].kind == Boss
    && forall p, i :: p in conns && 0 <= i < |conns[p]| ==>
         conns[p][i].position in w && w[conns[p][i].position].kind != Boss
  }

  /** Under the boss solver no boss-typed node has a predecessor. */
  lemma BossHasNoPredecessor(conns: ConnectionTable, cs: ConnectionTable, w: NodeMap, rank: map<Pos, nat>,
                             via: map<Pos, nat>, boss: Pos)
    requires Chain(conns, cs, w, rank, via, boss, ConnWeight, PosInf) && BossOnlyAtRoot(conns, w, boss)
    ensures forall k :: k in w && w[k].kind == Boss ==> w[k].previous.None?
    ensures forall k :: k in w ==> w[k].distance.Fin? || w[k].distance == PosInf
  {
    forall k | k in w
      ensures w[k].kind == Boss ==> w[k].previous.None?
      ensures w[k].distance.Fin? || w[k].distance == PosInf
    {
      assert Linked(conns, cs, w, rank, via, boss, ConnWeight, PosInf, k);
    }
  }

  /** What `findPathFromNodes` computes: the nodes it passes, start to boss, and the joined path. */
  datatype BossRoute = BossRoute(stops: seq<Pos>, path: seq<Pos>)

  /**
   * `findPathFromNodes`: fix the start, refuse an unlabelled one, then follow the
   * predecessor links, joining each node's path to its predecessor, until a boss
   * node is reached. `rank` is the boss solver's settle order.
   */
  method FindPathFromNodes(g: Grid, disabled: set<Pos>, s: Settings, withPath: NodeMap, start: Pos,
                           ghost rank: map<Pos, nat>, ghost boss: Pos)
    returns (r: Result<BossRoute, RouteError>)
    requires Framed(g)
    requires Walkable(withPath, rank, boss) && withPath[boss].kind == Boss
    requires forall k :: k in withPath && withPath[k].kind == Boss ==> withPath[k].previous.None?
    requires forall k :: k in withPath ==> withPath[k].distance.Fin? || withPath[k].distance == PosInf
    requires forall p :: InGrid(g, p) && IsResource(TypeAt(g, p)) ==> p in withPath
    ensures var fixed := FixStartingPosition(g, disabled, s, start);
      && (fixed.Failure? ==> r == Failure(fixed.error))
      && (fixed.Success? ==>
            && (r.Success? <==> withPath[fixed.value].distance.Fin?)
            && (r.Failure? ==> r.error == NoPath)
            && (r.Success? ==>
                  && r.value.stops == Predecessors(withPath, rank, fixed.value)
                  && r.value.path == JoinPaths(withPath, r.value.stops)
                  && Last(r.value.stops) == boss))
  {
    var fixed := FixStartingPosition(g, disabled, s, start);
    if fixed.Failure? {
      return Failure(fixed.error);
    }
    var position := fixed.value;
    if withPath[position].distance == PosInf {
      return Failure(NoPath);
    }
    var visited, fullPath := WalkToBoss(withPath, position, rank, boss);
    r := Success(BossRoute(visited, fullPath));
  }

  /** The loop of `findPathFromNodes`: from a finite-labelled node, follow the links until a boss node. */
  method WalkToBoss(withPath: NodeMap, first: Pos, ghost rank: map<Pos, nat>, ghost boss: Pos)
    returns (visited: seq<Pos>, fullPath: seq<Pos>)
    requires Walkable(withPath, rank, boss) && withPath[boss].kind == Boss
    requires forall k :: k in withPath && withPath[k].kind == Boss ==> withPath[k].previous.None?
    requires first in withPath && withPath[first].distance.Fin?
    ensures visited == Predecessors(withPath, rank, first)
    ensures fullPath == JoinPaths(withPath, visited)
    ensures Last(visited) == boss
  {
    var position := first;
    visited, fullPath := [], [];
    while true
      invariant position in withPath && withPath[position].distance.Fin?
      invariant visited + Predecessors(withPath, rank, position) == Predecessors(withPath, rank, first)
      invariant forall i :: 0 <= i < |visited| ==> visited[i] in withPath
      invariant fullPath == JoinPaths(withPath, visited)
      decreases rank[position]
    {
      var node := withPath[position];
      JoinPathsAppend(withPath, visited, position);
      fullPath := fullPath + PathToPrevious(node);
      if node.kind == Boss {
        LastStop(withPath, rank, first, visited, position);
        visited := visited + [position];
        break;
      }
      LinkStep(withPath, rank, boss, first, visited, position);
      visited := visited + [position];
      position := node.previous.value;
    }
    PredecessorsReachRoot(withPath, rank, boss, first);
  }

  /** A stop without a predecessor link ends the walk. */
  lemma LastStop(w: NodeMap, rank: map<Pos, nat>, first: Pos, visited: seq<Pos>, k: Pos)
    requires Ranked(w, rank) && first in w && k in w && w[k].previous.None?
    requires visited + Predecessors(w, rank, k) == Predecessors(w, rank, first)
    ensures visited + [k] == Predecessors(w, rank, first)
  {
    PredecessorsUnfold(w, rank, k);
  }

  /** A finite-labelled stop other than the root links to a finite-labelled node of smaller rank, where the walk goes on. */
  lemma LinkStep(w: NodeMap, rank: map<Pos, nat>, root: Pos, first: Pos, visited: seq<Pos>, k: Pos)
    requires Walkable(w, rank, root) && first in w && k in w && w[k].distance.Fin? && k != root
    requires visited + Predecessors(w, rank, k) == Predecessors(w, rank, first)
    ensures w[k].previous.Some? && w[k].previous.value in w && w[w[k].previous.value].distance.Fin?
    ensures k in rank && w[k].previous.value in rank && rank[w[k].previous.value] < rank[k]
    ensures (visited + [k]) + Predecessors(w, rank, w[k].previous.value) == Predecessors(w, rank, first)
  {
    assert RankedAt(w, rank, k) && LinkedBack(w, root, k);
    PredecessorsUnfold(w, rank, k);
    AppendAssociates(visited, [k], Predecessors(w, rank, w[k].previous.value));
  }

  lemma AppendAssociates<T>(a: seq<T>, b: seq<T>, c: seq<T>)
    ensures (a + b) + c == a + (b + c)
  {
  }

  /**
   * The boss route shown is the one the links spell out, whose cost is the label
   * (a cheapest one, by `ShortestRoutes`): its stops are the route's, read
   * backwards, and, with the connection paths of a fresh table, its joined path
   * starts at the start node and ends at the boss.
   */
  lemma BossRouteIsLinkRoute(conns: ConnectionTable, table: ConnectionTable, withPath: NodeMap,
                             rank: map<Pos, nat>, via: map<Pos, nat>, boss: Pos, k: Pos)
    requires Chain(conns, table, withPath, rank, via, boss, ConnWeight, PosInf) && rank.Keys == withPath.Keys
    requires Forward(conns)
    requires k in withPath && withPath[k].distance.Fin?
    ensures Walkable(withPath, rank, boss)
    ensures var stops := Predecessors(withPath, rank, k);
      var route := LinkRoute(conns, table, withPath, rank, via, boss, ConnWeight, PosInf, k);
      && |stops| == |route| + 1
      && (forall i :: 0 <= i < |route| ==> stops[|route| - i] == route[i].from)
      && withPath[k].distance == Fin(RouteCost(conns, route, ConnWeight))
      && (k != boss ==> var path := JoinPaths(withPath, stops); path[0] == k && Last(path) == boss)
  {
    ChainWalkable(conns, table, withPath, rank, via, boss, ConnWeight, PosInf);
    PredecessorsFollowRoute(conns, table, withPath, rank, via, boss, ConnWeight, PosInf, k);
    if k != boss {
      JoinedPathEnds(conns, table, withPath, rank, via, boss, ConnWeight, PosInf, k);
    }
  }

  // ---------------------------------------------------------------- the treasure route

  /**
   * `top` is the first node in map order with the strictly highest label, or the
   * start when no label is above -Infinity.
   */
  ghost predicate FirstHighest(w: NodeMap, order: seq<Pos>, start: Pos, top: Pos)
    requires forall i :: 0 <= i < |order| ==> order[i] in w
  {
    if forall i :: 0 <= i < |order| ==> w[order[i]].distance.NegInf? then top == start
    else exists i ::
      && 0 <= i < |order| && order[i] == top
      && (forall j :: 0 <= j < |order| ==> LessEq(w[order[j]].distance, w[top].distance))
      && (forall j :: 0 <= j < i ==> Less(w[order[j]].distance, w[top].distance))
  }

  /** The `forEach` of `findTreasureRoute` that picks the node with the highest label. */
  method HighestNode(w: NodeMap, order: seq<Pos>, start: Pos) returns (top: Pos)
    requires forall i :: 0 <= i < |order| ==> order[i] in w
    requires forall k :: k in w ==> w[k].position == k
    ensures FirstHighest(w, order, start, top)
  {
    var max := NegInf;
    top := start;
    ghost var at := -1;
    for i := 0 to |order|
      invariant max == NegInf ==> top == start && forall j :: 0 <= j < i ==> w[order[j]].distance.NegInf?
      invariant max != NegInf ==>
        && 0 <= at < i && order[at] == top && w[top].distance == max
        && (forall j :: 0 <= j < i ==> LessEq(w[order[j]].distance, max))
        && (forall j :: 0 <= j < at ==> Less(w[order[j]].distance, max))
    {
      var node := w[order[i]];
      if Less(max, node.distance) {
        forall j | 0 <= j < i
          ensures Less(w[order[j]].distance, node.distance)
        {
          LessTransitive(w[order[j]].distance, max, node.distance);
        }
        max := node.distance;
        top := node.position;
        at := i;
      }
    }
  }

  /** A displayed route segment with its number. */
  datatype Segment = Segment(path: seq<Pos>, id: int)

  /**
   * What `findTreasureRoute` leaves behind: the nodes and joined path in walk order
   * (from the best node back to the start), and the displayed nodes and segments,
   * in route order.
   */
  datatype TreasureRoute = TreasureRoute(nodes: seq<Node>, path: seq<Pos>, shownNodes: seq<Node>, shownPaths: seq<Segment>)

  /**
   * `findTreasureRoute`: pick the node with the highest treasure label, walk its
   * predecessor links back to the start, then reverse the displayed lists and
   * renumber the segments. `rank` is the treasure solver's pop order.
   */
  method FindTreasureRoute(w: NodeMap, order: seq<Pos>, start: Pos, ghost rank: map<Pos, nat>)
    returns (route: TreasureRoute)
    requires Walkable(w, rank, start)
    requires forall k :: k in w ==> w[k].distance.Fin? || w[k].distance == NegInf
    requires forall p :: p in w <==> p in order
    requires forall k :: k in w ==> w[k].position == k
    ensures |route.nodes| > 0 && route.nodes[0].position in w
    ensures FirstHighest(w, order, start, route.nodes[0].position)
    ensures var stops := Predecessors(w, rank, route.nodes[0].position);
      && route.nodes == NodesAt(w, stops)
      && route.path == JoinPaths(w, stops)
      && Last(stops) == start
    ensures route.shownNodes == Reverse(route.nodes)
    ensures |route.shownPaths| == |route.nodes|
    ensures forall i :: 0 <= i < |route.shownPaths| ==>
      route.shownPaths[i] == Segment(PathToPrevious(route.shownNodes[i]), i)
  {
    var top := HighestNode(w, order, start);
    assert top in w && w[top].distance.Fin? by {
      assert start in order;
      var s :| 0 <= s < |order| && order[s] == start;
      assert !w[order[s]].distance.NegInf?;
    }
    var nodes, fullPath, paths := WalkToStart(w, top, start, rank);
    NodesAtIndex(w, Predecessors(w, rank, top));
    var shownNodes, shown := NumberSegments(nodes, paths);
    route := TreasureRoute(nodes, fullPath, shownNodes, shown);
  }

  /** The segments of `nodes` numbered from 1 as the walk meets them: `id: ++pathId`. */
  function Numbered(nodes: seq<Node>): (paths: seq<Segment>)
    ensures |paths| == |nodes|
  {
    if nodes == [] then [] else Numbered(nodes[..|nodes| - 1]) + [Segment(PathToPrevious(Last(nodes)), |nodes|)]
  }

  lemma {:induction false} NumberedAt(nodes: seq<Node>)
    ensures forall i :: 0 <= i < |nodes| ==> Numbered(nodes)[i] == Segment(PathToPrevious(nodes[i]), i + 1)
  {
    if nodes != [] {
      NumberedAt(nodes[..|nodes| - 1]);
    }
  }

  /** What one more stop adds to the walk's nodes, joined path and numbered segments. */
  lemma WalkStep(w: NodeMap, visited: seq<Pos>, k: Pos)
    requires forall i :: 0 <= i < |visited| ==> visited[i] in w
    requires k in w
    ensures NodesAt(w, visited + [k]) == NodesAt(w, visited) + [w[k]]
    ensures JoinPaths(w, visited + [k]) == JoinPaths(w, visited) + PathToPrevious(w[k])
    ensures Numbered(NodesAt(w, visited) + [w[k]]) == Numbered(NodesAt(w, visited)) + [Segment(PathToPrevious(w[k]), |visited| + 1)]
  {
    assert (visited + [k])[..|visited|] == visited;
    JoinPathsAppend(w, visited, k);
    var ns := NodesAt(w, visited) + [w[k]];
    assert ns[..|ns| - 1] == NodesAt(w, visited);
  }

  /**
   * The loop of `findTreasureRoute`: from a finite-labelled node, follow the links
   * to the start, collecting the nodes, the joined path and segments numbered from 1.
   */
  method WalkToStart(w: NodeMap, top: Pos, start: Pos, ghost rank: map<Pos, nat>)
    returns (nodes: seq<Node>, fullPath: seq<Pos>, paths: seq<Segment>)
    requires Walkable(w, rank, start) && top in w && w[top].distance.Fin?
    requires forall k :: k in w ==> w[k].position == k
    ensures var stops := Predecessors(w, rank, top);
      && nodes == NodesAt(w, stops)
      && fullPath == JoinPaths(w, stops)
      && Last(stops) == start
    ensures paths == Numbered(nodes)
  {
    ghost var visited: seq<Pos> := [];
    var position := top;
    nodes, fullPath, paths := [], [], [];
    var pathId := 0;
    while true
      invariant position in w && w[position].distance.Fin?
      invariant visited + Predecessors(w, rank, position) == Predecessors(w, rank, top)
      invariant forall i :: 0 <= i < |visited| ==> visited[i] in w
      invariant nodes == NodesAt(w, visited)
      invariant fullPath == JoinPaths(w, visited)
      invariant pathId == |visited|
      invariant paths == Numbered(nodes)
      decreases rank[position]
    {
      var node := w[position];
      WalkStep(w, visited, position);
      nodes := nodes + [node];
      fullPath := fullPath + PathToPrevious(node);
      pathId := pathId + 1;
      paths := paths + [Segment(PathToPrevious(node), pathId)];
      if node.position == start {
        LastStop(w, rank, top, visited, position);
        visited := visited + [position];
        break;
      }
      LinkStep(w, rank, start, top, visited, position);
      visited := visited + [position];
      position := node.previous.value;
    }
    PredecessorsReachRoot(w, rank, start, top);
  }

  /**
   * The end of `findTreasureRoute`: both displayed lists are reversed in place and
   * each segment number `id` becomes `length - id`, so segments count from 0 in
   * route order.
   */
  method NumberSegments(nodes: seq<Node>, paths: seq<Segment>) returns (shownNodes: seq<Node>, shown: seq<Segment>)
    requires paths == Numbered(nodes)
    ensures shownNodes == Reverse(nodes)
    ensures |shown| == |nodes|
    ensures forall i :: 0 <= i < |shown| ==> shown[i] == Segment(PathToPrevious(shownNodes[i]), i)
  {
    NumberedAt(nodes);
    shownNodes := Reverse(nodes);
    shown := Reverse(paths);
    var n := |shown|;
    for i := 0 to n
      invariant |shown| == n
      invariant forall j :: 0 <= j < i ==> shown[j] == Segment(PathToPrevious(shownNodes[j]), j)
      invariant forall j :: i <= j < n ==> shown[j] == paths[n - 1 - j]
    {
      shown := shown[i := shown[i].(id := n - shown[i].id)];
    }
  }
}

/**
 * The route finder's page state (dungeon/graph.ts, dungeon/treasure.ts,
 * dungeon/settings.ts): the loaded maze, the node map and connection table, the
 * solvers' labelled copies, the recalculation gate, the stored treasure route,
 * the disabled tiles and the settings with their change handlers.
 */
module Dungeon {
  import opened Wrappers
  import opened Tiles
  import opened Labels
  import opened Config
  import opened Scanner
  import opened Graph
  import opened Labelling
  import opened BossSolver
  import opened TreasureSolver
  import opened Routes

  // ---------------------------------------------------------------- table facts

  /** Reversing paths in the table leaves its graph unchanged. */
  lemma ReversedKeepsGraph(nodes: NodeMap, order: seq<Pos>, conns: ConnectionTable, cs: ConnectionTable)
    requires GraphOk(nodes, order, conns) && ReversedOrSame(conns, cs)
    ensures GraphOk(nodes, order, cs)
  {
    forall p, i | p in cs && 0 <= i < |cs[p]|
      ensures cs[p][i].position in nodes && cs[p][i].position != p
    {
      assert cs[p][i].position == conns[p][i].position;
    }
  }

  /** Two rounds of in-place reversal still leave each connection as built or reversed once. */
  lemma ReversedTwice(a: ConnectionTable, b: ConnectionTable, c: ConnectionTable)
    requires ReversedOrSame(a, b) && ReversedOrSame(b, c)
    ensures ReversedOrSame(a, c)
  {
    forall k, i | k in c && 0 <= i < |c[k]|
      ensures c[k][i] == a[k][i] || c[k][i] == a[k][i].(path := Reverse(a[k][i].path))
    {
      ReverseReverse(a[k][i].path);
    }
  }

  /** A table built for the maze never leads to a boss tile, so only the seeded boss node is boss-typed and labelled from nothing. */
  lemma FreshTableAvoidsBoss(g: Grid, disabled: set<Pos>, s: Settings, nodes: NodeMap, order: seq<Pos>,
                             conns: ConnectionTable, w: NodeMap, boss: Pos)
    requires Framed(g) && TableFor(g, disabled, s, nodes, conns)
    requires Distinct(order) && (forall p :: p in nodes <==> p in order)
    requires forall p :: p in nodes ==> InGrid(g, p) && nodes[p].position == p && nodes[p].kind == TypeAt(g, p)
    requires forall p :: InGrid(g, p) && IsResource(TypeAt(g, p)) ==> p in nodes
    requires SameNodes(nodes, w) && boss in w && w[boss].kind == Boss
    ensures BossOnlyAtRoot(conns, w, boss)
  {
    TableForIsGraph(g, disabled, s, nodes, order, conns);
  }

  /** A treasure labelling can be walked back to its start, and every label is finite or -Infinity. */
  lemma TreasureWalkable(conns: ConnectionTable, cs: ConnectionTable, w: NodeMap, rank: map<Pos, nat>,
                         via: map<Pos, nat>, start: Pos, m: Multipliers)
    requires Chain(conns, cs, w, rank, via, start, TreasureWeights(m), NegInf) && rank.Keys == w.Keys
    ensures Walkable(w, rank, start)
    ensures forall k :: k in w ==> w[k].distance.Fin? || w[k].distance == NegInf
  {
    ChainWalkable(conns, cs, w, rank, via, start, TreasureWeights(m), NegInf);
    forall k | k in w ensures w[k].distance.Fin? || w[k].distance == NegInf {
      assert Linked(conns, cs, w, rank, via, start, TreasureWeights(m), NegInf, k);
    }
  }

  // ---------------------------------------------------------------- disabling a route

  /**
   * The tiles `disableCurrentRoute` adds: the monster and treasure tiles on the
   * joined route path and the positions of the fountain nodes on the route.
   */
  function RouteTiles(g: Grid, path: seq<Pos>, nodes: seq<Node>): set<Pos> {
    (set q | q in path && (IsType(g, q, Monster) || IsType(g, q, Treasure)))
    + (set n | n in nodes && n.kind == Fountain :: n.position)
  }

  /** The two loops of `disableCurrentRoute`: add the route's tiles to the disabled set. */
  method AddRouteTiles(g: Grid, disabled: set<Pos>, path: seq<Pos>, nodes: seq<Node>) returns (added: set<Pos>)
    ensures added == disabled + RouteTiles(g, path, nodes)
  {
    added := disabled;
    for i := 0 to |path|
      invariant added == disabled + (set q | q in path[..i] && (IsType(g, q, Monster) || IsType(g, q, Treasure)))
    {
      if IsType(g, path[i], Monster) || IsType(g, path[i], Treasure) {
        added := added + {path[i]};
      }
    }
    assert path[..|path|] == path;
    var fromPath := added;
    for j := 0 to |nodes|
      invariant added == fromPath + (set n | n in nodes[..j] && n.kind == Fountain :: n.position)
    {
      if nodes[j].kind == Fountain {
        added := added + {nodes[j].position};
      }
    }
    assert nodes[..|nodes|] == nodes;
  }

  /**
   * The graph of a loaded maze: the nodes are its resource tiles, fresh, listed in
   * map order, and the table is the one last built for them with some paths
   * reversed in place by the solvers.
   */
  ghost predicate GraphFor(g: Grid, boss: Pos, nodes: NodeMap, order: seq<Pos>, conns: ConnectionTable, built: ConnectionTable)
    requires Framed(g)
  {
    && IsType(g, boss, Boss)
    && (forall p :: p in nodes <==> InGrid(g, p) && IsResource(TypeAt(g, p)))
    && (forall p :: p in nodes ==> nodes[p] == FreshNode(p, TypeAt(g, p)))
    && GraphOk(nodes, order, conns)
    && ReversedOrSame(built, conns)
  }

  /** The boss labels are a boss-solver result, seeded at the boss, on a table that never leads to a boss tile. */
  ghost predicate BossLabelled(nodes: NodeMap, w: NodeMap, conns: ConnectionTable, table: ConnectionTable,
                               rank: map<Pos, nat>, via: map<Pos, nat>, boss: Pos)
  {
    && SameNodes(nodes, w)
    && rank.Keys == nodes.Keys
    && Chain(conns, table, w, rank, via, boss, ConnWeight, PosInf)
    && BossOnlyAtRoot(conns, w, boss)
  }

  /**
   * `calculateDistanceToBoss` as `initCWNodes` and the recalculation gate call it:
   * on a table just built for the maze. The in-place reversals come back in `table`.
   */
  method SolveForBoss(g: Grid, disabled: set<Pos>, s: Settings, boss: Pos, nodes: NodeMap, order: seq<Pos>,
                      conns: ConnectionTable)
    returns (w: NodeMap, table: ConnectionTable, ghost rank: map<Pos, nat>, ghost via: map<Pos, nat>)
    requires Framed(g) && GraphFor(g, boss, nodes, order, conns, conns)
    requires TableFor(g, disabled, s, nodes, conns)
    ensures BossLabelled(nodes, w, conns, table, rank, via, boss)
    ensures GraphFor(g, boss, nodes, order, table, conns)
    ensures NonNegative(conns) ==> Bellman(conns, w)
  {
    assert boss in nodes;
    assert AllFresh(nodes);
    w, table, rank, via := CalculateDistanceToBoss(nodes, order, conns, boss);
    assert w[boss].kind == Boss;
    FreshTableAvoidsBoss(g, disabled, s, nodes, order, conns, w, boss);
    ReversedKeepsGraph(nodes, order, conns, table);
  }

  /** The node maps and the connection table of the route finder. */
  datatype RouteGraph = RouteGraph(
    nodes: NodeMap,
    order: seq<Pos>,
    connections: ConnectionTable,
    withPath: NodeMap,
    withTreasure: NodeMap)

  /**
   * How the current tables came about: the table as the last rebuild produced it,
   * the table the boss solver ran on with its result and settle order, and the same
   * for the last treasure solve.
   */
  datatype Trace = Trace(
    built: ConnectionTable,
    bossConns: ConnectionTable,
    bossTable: ConnectionTable,
    bossRank: map<Pos, nat>,
    bossVia: map<Pos, nat>,
    treasureConns: ConnectionTable,
    treasureRank: map<Pos, nat>,
    treasureVia: map<Pos, nat>)

  /** The state `initCWNodes` establishes and every later step keeps; nothing while no maze is loaded. */
  ghost predicate Loaded(g: Grid, boss: Pos, gr: RouteGraph, t: Trace) {
    && Framed(g)
    && (|g| > 0 ==>
          && GraphFor(g, boss, gr.nodes, gr.order, gr.connections, t.built)
          && BossLabelled(gr.nodes, gr.withPath, t.bossConns, t.bossTable, t.bossRank, t.bossVia, boss))
  }

  /** The table was built for the maze, the disabled tiles and the settings, and the boss labels were computed on it. */
  ghost predicate FreshlyBuilt(g: Grid, disabled: set<Pos>, s: Settings, gr: RouteGraph, t: Trace)
    requires Framed(g)
  {
    TableFor(g, disabled, s, gr.nodes, t.built) && t.bossConns == t.built
  }

  /**
   * `initCWNodes` on a maze with a boss tile: build the nodes and their
   * connections, then label the nodes from the boss. The treasure labels are not touched.
   */
  method InitCWNodes(g: Grid, disabled: set<Pos>, s: Settings, boss: Pos, withTreasure: NodeMap)
    returns (gr: RouteGraph, ghost t: Trace)
    requires Framed(g) && IsType(g, boss, Boss)
    ensures Loaded(g, boss, gr, t) && FreshlyBuilt(g, disabled, s, gr, t)
    ensures ResourceOrder(g, gr.order) && gr.withTreasure == withTreasure
  {
    var nodes, order, built := BuildGraph(g, disabled, s);
    var w, conns, rank, via := SolveForBoss(g, disabled, s, boss, nodes, order, built);
    gr := RouteGraph(nodes, order, conns, w, withTreasure);
    t := Trace(built, built, conns, rank, via, map[], map[], map[]);
  }

  /**
   * What the recalculation gate leaves: when it fires, the table is rebuilt for the
   * current maze, disabled tiles and settings, and on a boss run the boss labels are
   * recomputed on it; otherwise the table as built and the boss labels stay.
   */
  ghost predicate Gated(g: Grid, disabled: set<Pos>, s: Settings, treasureRun: bool, rebuild: bool,
                        gr0: RouteGraph, t0: Trace, gr: RouteGraph, t: Trace)
    requires Framed(g)
  {
    && gr.nodes == gr0.nodes && gr.order == gr0.order
    && (rebuild ==> TableFor(g, disabled, s, gr.nodes, t.built))
    && (!rebuild ==> t.built == t0.built)
    && (rebuild && !treasureRun ==> t.bossConns == t.built)
    && (!rebuild || treasureRun ==>
          && gr.withPath == gr0.withPath && t.bossConns == t0.bossConns && t.bossTable == t0.bossTable
          && t.bossRank == t0.bossRank && t.bossVia == t0.bossVia)
  }

  /** A table rebuilt for the nodes of a loaded maze is again a graph of the maze, as built. */
  lemma RebuiltGraph(g: Grid, disabled: set<Pos>, s: Settings, boss: Pos, nodes: NodeMap, order: seq<Pos>,
                     conns0: ConnectionTable, built0: ConnectionTable, conns: ConnectionTable)
    requires Framed(g) && GraphFor(g, boss, nodes, order, conns0, built0)
    requires TableFor(g, disabled, s, nodes, conns)
    ensures GraphFor(g, boss, nodes, order, conns, conns)
  {
    TableForIsGraph(g, disabled, s, nodes, order, conns);
  }

  /** The rebuild of the gate: new connections for every node; the labels are left as they were. */
  method Rebuild(g: Grid, disabled: set<Pos>, s: Settings, boss: Pos, gr0: RouteGraph, ghost t0: Trace)
    returns (gr: RouteGraph, ghost t: Trace)
    requires Loaded(g, boss, gr0, t0) && |g| > 0
    ensures Loaded(g, boss, gr, t) && GraphFor(g, boss, gr.nodes, gr.order, gr.connections, gr.connections)
    ensures gr == gr0.(connections := t.built) && t == t0.(built := t.built)
    ensures TableFor(g, disabled, s, gr.nodes, t.built)
  {
    var conns := RebuildConnections(g, disabled, s, gr0.nodes, gr0.order);
    RebuiltGraph(g, disabled, s, boss, gr0.nodes, gr0.order, gr0.connections, t0.built, conns);
    gr := gr0.(connections := conns);
    t := t0.(built := conns);
  }

  /** The boss solve of the gate on a table just rebuilt; the treasure labels are left as they were. */
  method Resolve(g: Grid, disabled: set<Pos>, s: Settings, boss: Pos, gr0: RouteGraph, ghost t0: Trace)
    returns (gr: RouteGraph, ghost t: Trace)
    requires Framed(g) && |g| > 0 && GraphFor(g, boss, gr0.nodes, gr0.order, gr0.connections, gr0.connections)
    requires TableFor(g, disabled, s, gr0.nodes, gr0.connections) && t0.built == gr0.connections
    ensures Loaded(g, boss, gr, t)
    ensures gr.nodes == gr0.nodes && gr.order == gr0.order && gr.withTreasure == gr0.withTreasure
    ensures t.built == t0.built && t.bossConns == t.built
    ensures t.treasureConns == t0.treasureConns && t.treasureRank == t0.treasureRank && t.treasureVia == t0.treasureVia
  {
    var w, table, rank, via := SolveForBoss(g, disabled, s, boss, gr0.nodes, gr0.order, gr0.connections);
    gr := gr0.(connections := table, withPath := w);
    t := t0.(bossConns := t0.built, bossTable := table, bossRank := rank, bossVia := via);
  }

  /** The boss labels of a loaded maze are what `findPathFromNodes` needs. */
  lemma BossReady(g: Grid, boss: Pos, gr: RouteGraph, t: Trace)
    requires Loaded(g, boss, gr, t) && |g| > 0
    ensures Walkable(gr.withPath, t.bossRank, boss) && gr.withPath[boss].kind == Boss
    ensures forall k :: k in gr.withPath && gr.withPath[k].kind == Boss ==> gr.withPath[k].previous.None?
    ensures forall k :: k in gr.withPath ==> gr.withPath[k].distance.Fin? || gr.withPath[k].distance == PosInf
    ensures forall p :: InGrid(g, p) && IsResource(TypeAt(g, p)) ==> p in gr.withPath
  {
    ChainWalkable(t.bossConns, t.bossTable, gr.withPath, t.bossRank, t.bossVia, boss, ConnWeight, PosInf);
    BossHasNoPredecessor(t.bossConns, t.bossTable, gr.withPath, t.bossRank, t.bossVia, boss);
  }

  /** What a run of the route finder shows. */
  datatype Outcome = BossPath(boss: BossRoute) | TreasurePath(treasure: TreasureRoute)

  /**
   * The answer of `findPathFromNodes` on the boss labels `w`: the error of
   * `fixStartingPosition`, "no path" from an unlabelled start, or the stops from the
   * start along the predecessor links to the boss with their joined paths.
   */
  ghost predicate BossAnswer(g: Grid, disabled: set<Pos>, s: Settings, start: Pos, boss: Pos, w: NodeMap,
                             rank: map<Pos, nat>, r: Result<Outcome, RouteError>)
    requires Framed(g)
  {
    var fixed := FixStartingPosition(g, disabled, s, start);
    && (fixed.Failure? ==> r == Failure(fixed.error))
    && (fixed.Success? ==>
          && fixed.value in w
          && (r.Success? <==> w[fixed.value].distance.Fin?)
          && (r.Failure? ==> r.error == NoPath)
          && (r.Success? ==>
                && r.value.BossPath? && Ranked(w, rank)
                && r.value.boss.stops == Predecessors(w, rank, fixed.value)
                && r.value.boss.path == JoinPaths(w, r.value.boss.stops)
                && Last(r.value.boss.stops) == boss))
  }

  /** `findPathFromNodes` on the boss labels of a loaded maze. */
  method PathToBoss(g: Grid, disabled: set<Pos>, s: Settings, boss: Pos, start: Pos, gr: RouteGraph, ghost t: Trace)
    returns (r: Result<Outcome, RouteError>)
    requires Loaded(g, boss, gr, t) && |g| > 0
    ensures BossAnswer(g, disabled, s, start, boss, gr.withPath, t.bossRank, r)
  {
    BossReady(g, boss, gr, t);
    var found := FindPathFromNodes(g, disabled, s, gr.withPath, start, t.bossRank, boss);
    r := if found.Success? then Success(BossPath(found.value)) else Failure(found.error);
  }

  /**
   * The treasure labels are a treasure-solver result seeded at `start` on `conns`,
   * with the reversals left in `table`, every link leaving an expanded node.
   */
  ghost predicate TreasureLabelled(nodes: NodeMap, conns: ConnectionTable, table: ConnectionTable, w: NodeMap,
                                   rank: map<Pos, nat>, via: map<Pos, nat>, start: Pos, ts: TreasureSettings)
  {
    && SameNodes(nodes, w)
    && rank.Keys == nodes.Keys
    && Chain(conns, table, w, rank, via, start, TreasureWeights(ts.multipliers), NegInf)
    && FromExpanded(nodes, w, ts.fountainsOnly)
  }

  /**
   * The route `findTreasureRoute` stores: from the first node in map order with the
   * highest label back along the links to the start, with the displayed lists reversed
   * and numbered from 0.
   */
  ghost predicate ShowsRoute(w: NodeMap, order: seq<Pos>, start: Pos, rank: map<Pos, nat>, route: TreasureRoute) {
    && Walkable(w, rank, start)
    && (forall p :: p in w <==> p in order)
    && |route.nodes| > 0 && route.nodes[0].position in w
    && FirstHighest(w, order, start, route.nodes[0].position)
    && (var stops := Predecessors(w, rank, route.nodes[0].position);
        && route.nodes == NodesAt(w, stops)
        && route.path == JoinPaths(w, stops)
        && Last(stops) == start)
    && route.shownNodes == Reverse(route.nodes)
    && |route.shownPaths| == |route.nodes|
    && forall i :: 0 <= i < |route.shownPaths| ==>
         route.shownPaths[i] == Segment(PathToPrevious(route.shownNodes[i]), i)
  }

  /**
   * What a treasure run leaves: when the start cannot be fixed, its error, every
   * treasure label at -Infinity and the stored route as it was; otherwise the
   * treasure labels from the fixed start and the route stored and shown.
   */
  ghost predicate TreasureAnswer(g: Grid, disabled: set<Pos>, s: Settings, start: Pos, gr: RouteGraph, t: Trace,
                                 current0: TreasureRoute, current: TreasureRoute, r: Result<Outcome, RouteError>)
    requires Framed(g)
  {
    var fixed := FixStartingPosition(g, disabled, s, start);
    && (fixed.Failure? ==>
          r == Failure(fixed.error) && gr.withTreasure == Unreached(gr.nodes) && current == current0)
    && (fixed.Success? ==>
          && r == Success(TreasurePath(current))
          && TreasureLabelled(gr.nodes, t.treasureConns, gr.connections, gr.withTreasure, t.treasureRank,
                              t.treasureVia, fixed.value, s.treasure)
          && ShowsRoute(gr.withTreasure, gr.order, fixed.value, t.treasureRank, current))
  }

  /** Replacing the table by one with reversals and the treasure labels keeps a maze loaded. */
  lemma TreasureKeepsLoaded(g: Grid, boss: Pos, gr0: RouteGraph, t0: Trace, gr: RouteGraph, t: Trace)
    requires Loaded(g, boss, gr0, t0) && |g| > 0
    requires gr.nodes == gr0.nodes && gr.order == gr0.order && gr.withPath == gr0.withPath
    requires t.built == t0.built && t.bossConns == t0.bossConns && t.bossTable == t0.bossTable
    requires t.bossRank == t0.bossRank && t.bossVia == t0.bossVia
    requires GraphFor(g, boss, gr.nodes, gr.order, gr.connections, t.built)
    ensures Loaded(g, boss, gr, t)
  {
  }

  /**
   * The treasure solver seeded at the fixed start, then the route stored from its
   * labels: the table and the treasure labels are replaced, the rest is kept.
   */
  method SolveTreasure(gr0: RouteGraph, ghost t0: Trace, start: Pos, ts: TreasureSettings)
    returns (gr: RouteGraph, ghost t: Trace, current: TreasureRoute)
    requires GraphOk(gr0.nodes, gr0.order, gr0.connections) && ReversedOrSame(t0.built, gr0.connections)
    requires AllFresh(gr0.nodes) && start in gr0.nodes
    ensures gr == gr0.(connections := gr.connections, withTreasure := gr.withTreasure)
    ensures t == t0.(treasureConns := gr0.connections, treasureRank := t.treasureRank, treasureVia := t.treasureVia)
    ensures GraphOk(gr.nodes, gr.order, gr.connections) && ReversedOrSame(t.built, gr.connections)
    ensures TreasureLabelled(gr.nodes, t.treasureConns, gr.connections, gr.withTreasure, t.treasureRank,
                             t.treasureVia, start, ts)
    ensures ShowsRoute(gr.withTreasure, gr.order, start, t.treasureRank, current)
  {
    var w, table, rank, via := FindHighestTreasureRoute(gr0.nodes, gr0.order, gr0.connections, start,
                                                        ts.multipliers, ts.fountainsOnly);
    ReversedTwice(t0.built, gr0.connections, table);
    ReversedKeepsGraph(gr0.nodes, gr0.order, gr0.connections, table);
    TreasureWalkable(gr0.connections, table, w, rank, via, start, ts.multipliers);
    current := FindTreasureRoute(w, gr0.order, start, rank);
    gr := gr0.(connections := table, withTreasure := w);
    t := t0.(treasureConns := gr0.connections, treasureRank := rank, treasureVia := via);
  }

  /**
   * `findHighestTreasureRoute` followed by `findTreasureRoute` on the graph of a
   * loaded maze: only the table and the treasure labels change.
   */
  method TreasureRun(g: Grid, disabled: set<Pos>, s: Settings, boss: Pos, start: Pos, gr0: RouteGraph,
                     ghost t0: Trace, current0: TreasureRoute)
    returns (gr: RouteGraph, ghost t: Trace, current: TreasureRoute, r: Result<Outcome, RouteError>)
    requires Framed(g) && |g| > 0 && GraphFor(g, boss, gr0.nodes, gr0.order, gr0.connections, t0.built)
    ensures GraphFor(g, boss, gr.nodes, gr.order, gr.connections, t.built)
    ensures gr == gr0.(connections := gr.connections, withTreasure := gr.withTreasure)
    ensures t == t0.(treasureConns := t.treasureConns, treasureRank := t.treasureRank, treasureVia := t.treasureVia)
    ensures TreasureAnswer(g, disabled, s, start, gr, t, current0, current, r)
  {
    var fixed := FixStartingPosition(g, disabled, s, start);
    if fixed.Failure? {
      gr, t, current, r := gr0.(withTreasure := Unreached(gr0.nodes)), t0, current0, Failure(fixed.error);
      return;
    }
    assert AllFresh(gr0.nodes);
    gr, t, current := SolveTreasure(gr0, t0, fixed.value, s.treasure);
    r := Success(TreasurePath(current));
  }

  /**
   * What `calculatePathWithNodes` leaves on a loaded maze, given whether the gate
   * fired: the gated tables, then the treasure run's labels and route or the boss
   * run's answer on the boss labels, which leaves the stored route as it was.
   */
  ghost predicate Calculated(g: Grid, boss: Pos, disabled: set<Pos>, s: Settings, start: Pos, treasureRun: bool,
                             rebuild: bool, gr0: RouteGraph, t0: Trace, current0: TreasureRoute,
                             gr: RouteGraph, t: Trace, current: TreasureRoute, r: Result<Outcome, RouteError>)
    requires Framed(g)
  {
    && Gated(g, disabled, s, treasureRun, rebuild, gr0, t0, gr, t)
    && (treasureRun ==> TreasureAnswer(g, disabled, s, start, gr, t, current0, current, r))
    && (!treasureRun ==>
          && BossAnswer(g, disabled, s, start, boss, gr.withPath, t.bossRank, r)
          && current == current0 && gr.withTreasure == gr0.withTreasure)
  }

  /** The body of `calculatePathWithNodes` once the maze is known to be loaded. */
  method Calculate(g: Grid, boss: Pos, disabled: set<Pos>, s: Settings, start: Pos, treasureRun: bool,
                   rebuild: bool, gr0: RouteGraph, ghost t0: Trace, current0: TreasureRoute)
    returns (gr: RouteGraph, ghost t: Trace, current: TreasureRoute, r: Result<Outcome, RouteError>)
    requires Loaded(g, boss, gr0, t0) && |g| > 0
    ensures Loaded(g, boss, gr, t)
    ensures Calculated(g, boss, disabled, s, start, treasureRun, rebuild, gr0, t0, current0, gr, t, current, r)
  {
    gr, t := gr0, t0;
    if rebuild {
      gr, t := Rebuild(g, disabled, s, boss, gr, t);
      if !treasureRun {
        gr, t := Resolve(g, disabled, s, boss, gr, t);
      }
    }
    if treasureRun {
      var gr1: RouteGraph; ghost var t1: Trace;
      gr1, t1, current, r := TreasureRun(g, disabled, s, boss, start, gr, t, current0);
      TreasureKeepsLoaded(g, boss, gr, t, gr1, t1);
      gr, t := gr1, t1;
    } else {
      current := current0;
      r := PathToBoss(g, disabled, s, boss, start, gr, t);
    }
  }
}

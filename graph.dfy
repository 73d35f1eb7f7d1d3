/**
 * The route graph (dungeon/graph.ts): resource nodes, the connection table
 * built from scans, and the well-formedness the solvers rely on.
 */
module Graph {
  import opened Wrappers
  import opened Tiles
  import opened Config
  import opened Labels
  import opened Scanner

  /**
   * `CWNode`. The label is `distance`; `previous` and `pathToPrevious` are set by a
   * solver. The `visited` flag is never read and is not modelled.
   */
  datatype Node = Node(position: Pos, kind: TileType, distance: Label, previous: Option<Pos>,
                       pathToPrevious: Option<seq<Pos>>)

  type NodeMap = map<Pos, Node>
  type ConnectionTable = map<Pos, seq<Connection>>

  /** A node as `initCWNodes` creates it: label `Infinity`, no predecessor. */
  function FreshNode(p: Pos, kind: TileType): (n: Node)
    ensures n.position == p && n.kind == kind && n.distance == PosInf
    ensures n.previous.None? && n.pathToPrevious.None?
  {
    Node(p, kind, PosInf, None, None)
  }

  /** Connections whose target tile is a fountain are dropped; the others keep their order. */
  function WithoutFountains(g: Grid, cs: seq<Connection>): (r: seq<Connection>)
    ensures |r| <= |cs|
    ensures forall c :: c in r <==> c in cs && !IsType(g, c.position, Fountain)
  {
    if cs == [] then []
    else if IsType(g, cs[0].position, Fountain) then WithoutFountains(g, cs[1..])
    else [cs[0]] + WithoutFountains(g, cs[1..])
  }

  /** The first scan result is dropped when it is the origin itself. */
  function DropSelf(cs: seq<Connection>, origin: Pos): seq<Connection> {
    if |cs| > 0 && cs[0].position == origin then cs[1..] else cs
  }

  /** What `findAllConnections` returns for a node at `origin` of type `kind`. */
  function ConnectionsOf(g: Grid, disabled: set<Pos>, w: Weights, onlyThroughBonfires: bool,
                         origin: Pos, kind: TileType, maxSteps: int): seq<Connection>
    requires Framed(g) && InGrid(g, origin)
  {
    var found := DropSelf(Scan(g, disabled, w, origin, maxSteps, [], 0, Contents(0, 0)), origin);
    if onlyThroughBonfires && kind == Boss then WithoutFountains(g, found) else found
  }

  /** A connection reaching the origin again can only be the first one: later walks already contain it. */
  lemma SelfOnlyFirst(g: Grid, disabled: set<Pos>, w: Weights, origin: Pos, maxSteps: int, i: nat)
    requires Framed(g) && InGrid(g, origin)
    requires i < |Scan(g, disabled, w, origin, maxSteps, [], 0, Contents(0, 0))|
    requires Scan(g, disabled, w, origin, maxSteps, [], 0, Contents(0, 0))[i].position == origin
    ensures i == 0
  {
    var all := Scan(g, disabled, w, origin, maxSteps, [], 0, Contents(0, 0));
    var c := all[i];
    ScanSound(g, disabled, w, origin, maxSteps, [], 0, Contents(0, 0), c);
    assert c.path[0..] == c.path;
    if i > 0 {
      LongerAfterFirst(g, disabled, w, origin, maxSteps, [], 0, Contents(0, 0), i);
    }
  }

  /**
   * `findAllConnections` never returns a connection to the origin; with
   * approach-only-through-bonfires a boss node gets no fountain targets; every other
   * connection of the scan is kept.
   */
  lemma ConnectionsOfTargets(g: Grid, disabled: set<Pos>, w: Weights, onlyThroughBonfires: bool,
                             origin: Pos, kind: TileType, maxSteps: int, c: Connection)
    requires Framed(g) && InGrid(g, origin)
    ensures c in ConnectionsOf(g, disabled, w, onlyThroughBonfires, origin, kind, maxSteps) <==>
      && c in Scan(g, disabled, w, origin, maxSteps, [], 0, Contents(0, 0))
      && c.position != origin
      && !(onlyThroughBonfires && kind == Boss && IsType(g, c.position, Fountain))
  {
    var all := Scan(g, disabled, w, origin, maxSteps, [], 0, Contents(0, 0));
    var found := DropSelf(all, origin);
    assert forall d :: d in found <==> d in all && d.position != origin by {
      forall d ensures d in found <==> d in all && d.position != origin {
        if d in all {
          var i :| 0 <= i < |all| && all[i] == d;
          if d.position == origin { SelfOnlyFirst(g, disabled, w, origin, maxSteps, i); }
          if i > 0 && all[0].position == origin { assert found[i - 1] == d; }
        }
        if d in found && |all| > 0 && all[0].position == origin {
          var i :| 0 <= i < |found| && found[i] == d;
          assert all[i + 1] == d;
          if d.position == origin { SelfOnlyFirst(g, disabled, w, origin, maxSteps, i + 1); }
        }
      }
    }
  }

  /**
   * `findAllConnections`: scan from the node, splice out the first connection when it
   * is the node itself, then, for a boss approached only through bonfires, splice out
   * every fountain target in place.
   */
  method FindAllConnections(g: Grid, disabled: set<Pos>, w: Weights, onlyThroughBonfires: bool,
                            origin: Pos, kind: TileType, maxSteps: int) returns (conns: seq<Connection>)
    requires Framed(g) && InGrid(g, origin)
    ensures conns == ConnectionsOf(g, disabled, w, onlyThroughBonfires, origin, kind, maxSteps)
    ensures forall c :: c in conns ==> c.position != origin
    ensures onlyThroughBonfires && kind == Boss ==> forall c :: c in conns ==> !IsType(g, c.position, Fountain)
  {
    conns := Scan(g, disabled, w, origin, maxSteps, [], 0, Contents(0, 0));
    if |conns| > 0 && conns[0].position == origin {
      conns := conns[1..];
    }
    if onlyThroughBonfires && kind == Boss {
      conns := SpliceFountains(g, conns);
    }
    ConnectionsOfProperties(g, disabled, w, onlyThroughBonfires, origin, kind, maxSteps);
  }

  /** The in-place splice loop over the boss's connections. */
  method SpliceFountains(g: Grid, found: seq<Connection>) returns (conns: seq<Connection>)
    ensures conns == WithoutFountains(g, found)
  {
    conns := found;
    var i := 0;
    ghost var j := 0;
    while i < |conns|
      invariant 0 <= i <= |conns| && 0 <= j <= |found|
      invariant conns[..i] == WithoutFountains(g, found[..j])
      invariant conns[i..] == found[j..]
      decreases |conns| - i
    {
      assert conns[i] == found[j] && conns[i + 1..] == found[j + 1..];
      assert found[..j + 1] == found[..j] + [found[j]];
      WithoutFountainsAppend(g, found[..j], found[j]);
      if IsType(g, conns[i].position, Fountain) {
        ghost var before := conns;
        conns := conns[..i] + conns[i + 1..];
        assert conns[..i] == before[..i] && conns[i..] == before[i + 1..];
      } else {
        assert conns[..i + 1] == conns[..i] + [conns[i]];
        i := i + 1;
      }
      j := j + 1;
    }
    assert found[..j] == found;
  }

  lemma ConnectionsOfProperties(g: Grid, disabled: set<Pos>, w: Weights, onlyThroughBonfires: bool,
                                origin: Pos, kind: TileType, maxSteps: int)
    requires Framed(g) && InGrid(g, origin)
    ensures forall c :: c in ConnectionsOf(g, disabled, w, onlyThroughBonfires, origin, kind, maxSteps) ==> c.position != origin
    ensures onlyThroughBonfires && kind == Boss ==>
      forall c :: c in ConnectionsOf(g, disabled, w, onlyThroughBonfires, origin, kind, maxSteps) ==> !IsType(g, c.position, Fountain)
  {
    forall c | c in ConnectionsOf(g, disabled, w, onlyThroughBonfires, origin, kind, maxSteps)
      ensures c.position != origin
    {
      ConnectionsOfTargets(g, disabled, w, onlyThroughBonfires, origin, kind, maxSteps, c);
    }
  }

  lemma {:induction false} WithoutFountainsAppend(g: Grid, cs: seq<Connection>, c: Connection)
    ensures WithoutFountains(g, cs + [c])
         == WithoutFountains(g, cs) + (if IsType(g, c.position, Fountain) then [] else [c])
  {
    if cs != [] {
      assert (cs + [c])[1..] == cs[1..] + [c];
      WithoutFountainsAppend(g, cs[1..], c);
    }
  }

  /** Row-major order: by row, then by column. */
  predicate RowMajorLess(a: Pos, b: Pos) {
    a.y < b.y || (a.y == b.y && a.x < b.x)
  }

  /** `order` lists every resource tile of the grid exactly once, row by row. */
  ghost predicate ResourceOrder(g: Grid, order: seq<Pos>) {
    && (forall p :: p in order <==> InGrid(g, p) && IsResource(TypeAt(g, p)))
    && (forall i, j :: 0 <= i < j < |order| ==> RowMajorLess(order[i], order[j]))
  }

  /** The state the two solvers need: nodes keyed by their positions, in map order, each with its connection list. */
  ghost predicate GraphOk(nodes: NodeMap, order: seq<Pos>, conns: ConnectionTable) {
    && Distinct(order)
    && (forall p :: p in nodes <==> p in order)
    && conns.Keys == nodes.Keys
    && (forall p :: p in nodes ==> nodes[p].position == p)
    && (forall p, i :: p in conns && 0 <= i < |conns[p]| ==>
          conns[p][i].position in nodes && conns[p][i].position != p)
  }

  /** Every connection's path joins its source and its target, in one direction or the other. */
  predicate PathsJoin(conns: ConnectionTable) {
    forall p, i :: p in conns && 0 <= i < |conns[p]| ==>
      var c := conns[p][i];
      && |c.path| >= 2
      && ((c.path[0] == p && Last(c.path) == c.position) || (c.path[0] == c.position && Last(c.path) == p))
  }

  /** Every node as `initCWNodes` left it. */
  predicate AllFresh(nodes: NodeMap) {
    forall p :: p in nodes ==> nodes[p] == FreshNode(p, nodes[p].kind)
  }

  /** The connection table `initCWNodes` and the recalculation gate build for the nodes. */
  predicate TableFor(g: Grid, disabled: set<Pos>, s: Settings, nodes: NodeMap, conns: ConnectionTable)
    requires Framed(g)
  {
    && conns.Keys == nodes.Keys
    && forall p :: p in nodes ==>
         (InGrid(g, p) &&
          conns[p] == ConnectionsOf(g, disabled, s.boss.weights, s.boss.onlyThroughBonfires, p,
                                    nodes[p].kind, s.maxSteps))
  }

  /** A connection of a node leads from it, along at least two tiles, to a fountain or bonfire. */
  lemma ConnectionShape(g: Grid, disabled: set<Pos>, w: Weights, onlyThroughBonfires: bool,
                        origin: Pos, kind: TileType, maxSteps: int, c: Connection)
    requires Framed(g) && InGrid(g, origin)
    requires c in ConnectionsOf(g, disabled, w, onlyThroughBonfires, origin, kind, maxSteps)
    ensures c.position != origin && |c.path| >= 2
    ensures c.path[0] == origin && Last(c.path) == c.position
    ensures InGrid(g, c.position) && IsStop(TypeAt(g, c.position))
  {
    ConnectionsOfTargets(g, disabled, w, onlyThroughBonfires, origin, kind, maxSteps, c);
    ScanSound(g, disabled, w, origin, maxSteps, [], 0, Contents(0, 0), c);
    assert c.path[0..] == c.path;
  }

  /** Freshly built connections lead from their source to a fountain or bonfire node. */
  lemma TableForIsGraph(g: Grid, disabled: set<Pos>, s: Settings, nodes: NodeMap, order: seq<Pos>, conns: ConnectionTable)
    requires Framed(g) && TableFor(g, disabled, s, nodes, conns)
    requires Distinct(order) && (forall p :: p in nodes <==> p in order)
    requires forall p :: p in nodes ==> nodes[p].position == p
    requires forall p :: InGrid(g, p) && IsResource(TypeAt(g, p)) ==> p in nodes
    ensures GraphOk(nodes, order, conns)
    ensures PathsJoin(conns)
    ensures forall p, i :: p in conns && 0 <= i < |conns[p]| ==>
      conns[p][i].path[0] == p && Last(conns[p][i].path) == conns[p][i].position &&
      IsStop(TypeAt(g, conns[p][i].position))
  {
    forall p, i | p in conns && 0 <= i < |conns[p]|
      ensures conns[p][i].position in nodes && conns[p][i].position != p
      ensures |conns[p][i].path| >= 2 && conns[p][i].path[0] == p && Last(conns[p][i].path) == conns[p][i].position
      ensures IsStop(TypeAt(g, conns[p][i].position))
    {
      assert conns[p][i] in conns[p];
      ConnectionShape(g, disabled, s.boss.weights, s.boss.onlyThroughBonfires, p, nodes[p].kind, s.maxSteps, conns[p][i]);
    }
  }

  /** The resource tiles of row `y` before column `x`, and of all earlier rows. */
  ghost predicate ResourceBefore(g: Grid, p: Pos, y: int, x: int) {
    InGrid(g, p) && IsResource(TypeAt(g, p)) && (p.y < y || (p.y == y && p.x < x))
  }

  /**
   * The node and connection loop of `initCWNodes`: every resource tile, row by row,
   * becomes a fresh node with the connections `findAllConnections` finds for it.
   */
  method BuildGraph(g: Grid, disabled: set<Pos>, s: Settings)
    returns (nodes: NodeMap, order: seq<Pos>, conns: ConnectionTable)
    requires Framed(g)
    ensures ResourceOrder(g, order)
    ensures forall p :: p in nodes <==> p in order
    ensures forall p :: p in nodes ==> InGrid(g, p) && nodes[p] == FreshNode(p, TypeAt(g, p))
    ensures TableFor(g, disabled, s, nodes, conns)
    ensures GraphOk(nodes, order, conns) && PathsJoin(conns) && AllFresh(nodes)
  {
    nodes, order, conns := map[], [], map[];
    var y := 0;
    while y < |g|
      invariant 0 <= y <= |g|
      invariant forall p :: p in order <==> ResourceBefore(g, p, y, 0)
      invariant forall i, j :: 0 <= i < j < |order| ==> RowMajorLess(order[i], order[j])
      invariant forall p :: p in nodes <==> p in order
      invariant forall p :: p in nodes ==> InGrid(g, p) && nodes[p] == FreshNode(p, TypeAt(g, p))
      invariant TableFor(g, disabled, s, nodes, conns)
    {
      forall i | 0 <= i < |order| ensures RowMajorLess(order[i], Pos(0, y)) {
        assert order[i] in order;
      }
      var x := 0;
      while x < |g[y]|
        invariant 0 <= x <= |g[y]|
        invariant forall p :: p in order <==> ResourceBefore(g, p, y, x)
        invariant forall i, j :: 0 <= i < j < |order| ==> RowMajorLess(order[i], order[j])
        invariant forall i :: 0 <= i < |order| ==> RowMajorLess(order[i], Pos(x, y))
        invariant forall p :: p in nodes <==> p in order
        invariant forall p :: p in nodes ==> InGrid(g, p) && nodes[p] == FreshNode(p, TypeAt(g, p))
        invariant TableFor(g, disabled, s, nodes, conns)
      {
        var t := g[y][x];
        var position := Pos(x, y);
        if IsResource(t) {
          var node := FreshNode(position, t);
          nodes := nodes[position := node];
          order := order + [position];
          var cs := FindAllConnections(g, disabled, s.boss.weights, s.boss.onlyThroughBonfires, position, t, s.maxSteps);
          conns := conns[position := cs];
        }
        x := x + 1;
      }
      y := y + 1;
      assert forall p :: ResourceBefore(g, p, y - 1, |g[y - 1]|) <==> ResourceBefore(g, p, y, 0);
    }
    assert forall p :: ResourceBefore(g, p, |g|, 0) <==> InGrid(g, p) && IsResource(TypeAt(g, p));
    assert Distinct(order);
    TableForIsGraph(g, disabled, s, nodes, order, conns);
  }

  /** The rebuild loop of the recalculation gate: new connections for every node. */
  method RebuildConnections(g: Grid, disabled: set<Pos>, s: Settings, nodes: NodeMap, order: seq<Pos>)
    returns (conns: ConnectionTable)
    requires Framed(g)
    requires forall p :: p in nodes <==> p in order
    requires forall p :: p in nodes ==> InGrid(g, p) && nodes[p].position == p
    ensures TableFor(g, disabled, s, nodes, conns)
  {
    conns := map[];
    var i := 0;
    while i < |order|
      invariant 0 <= i <= |order|
      invariant conns.Keys == set k | k in order[..i]
      invariant forall p :: p in conns ==> conns[p] == ConnectionsOf(g, disabled, s.boss.weights,
                  s.boss.onlyThroughBonfires, p, nodes[p].kind, s.maxSteps)
    {
      var node := nodes[order[i]];
      var cs := FindAllConnections(g, disabled, s.boss.weights, s.boss.onlyThroughBonfires, node.position, node.kind, s.maxSteps);
      conns := conns[node.position := cs];
      assert order[..i + 1] == order[..i] + [order[i]];
      i := i + 1;
    }
    assert order[..i] == order;
  }
}

/**
 * `findHighestTreasureRoute` (dungeon/treasure.ts): label-setting from the start
 * node towards the highest treasure value. Every node starts at `-Infinity`, the
 * start at 0; each round sorts the remaining nodes by label and takes the last
 * (highest); the boss, and with "fountains only" every non-fountain, is taken out
 * without being expanded. An expanded node offers each connection's treasure value
 * on top of its own label, and an update reverses the connection's path in place
 * as the boss solver's does.
 */
module TreasureSolver {
  import opened Wrappers
  import opened Tiles
  import opened Sorting
  import opened Labels
  import opened Config
  import opened Scanner
  import opened Graph
  import opened Walks
  import opened Labelling

  /** `getConnectionTreasureWeight`: monsters and treasures on the path, each times its multiplier. */
  function TreasureWeight(c: Connection, m: Multipliers): (r: int)
    ensures m.monster >= 0 && m.treasure >= 0 ==> r >= 0
    ensures c.contents.monsters == 0 && c.contents.treasures == 0 ==> r == 0
  {
    c.contents.monsters * m.monster + c.contents.treasures * m.treasure
  }

  /** The treasure weight as the weight function of the shared link predicates. */
  function TreasureWeights(m: Multipliers): Connection -> int {
    c => TreasureWeight(c, m)
  }

  /** Whether a node taken out of the remaining list has its connections followed. */
  predicate Expands(kind: TileType, fountainsOnly: bool) {
    kind != Boss && (!fountainsOnly || kind == Fountain)
  }

  /** The update test: the offer is strictly higher, or equal with a longer recorded path. */
  predicate Raises(target: Node, offer: Label, c: Connection) {
    || Less(target.distance, offer)
    || (target.distance == offer && target.pathToPrevious.Some? && |target.pathToPrevious.value| > |c.path|)
  }

  function TreasureOffer(conns: ConnectionTable, w: NodeMap, m: Multipliers, s: Pos, i: nat): Label
    requires s in conns && s in w && i < |conns[s]|
  {
    Plus(w[s].distance, TreasureWeight(conns[s][i], m))
  }

  /**
   * After a connection was followed while its target was unsettled, the target's label
   * is at least the offer, and on a finite tie its path is no longer than the connection's.
   */
  ghost predicate RaisedAt(conns: ConnectionTable, w: NodeMap, m: Multipliers, s: Pos, i: nat)
    requires s in conns && s in w && i < |conns[s]| && conns[s][i].position in w
  {
    var t := conns[s][i].position;
    var offer := TreasureOffer(conns, w, m, s, i);
    && LessEq(offer, w[t].distance)
    && (w[t].distance == offer && offer.Fin? ==>
          w[t].pathToPrevious.Some? && |w[t].pathToPrevious.value| <= |conns[s][i].path|)
  }

  /** Every connection followed so far (all of each expanded node, the first `j` of `cur`) is raised. */
  ghost predicate Raised(nodes: NodeMap, conns: ConnectionTable, w: NodeMap, m: Multipliers, fountainsOnly: bool,
                         rank: map<Pos, nat>, cur: Pos, j: nat)
    requires w.Keys == conns.Keys && nodes.Keys == conns.Keys
    requires forall p, i :: p in conns && 0 <= i < |conns[p]| ==> conns[p][i].position in conns
  {
    forall s, i ::
      (s in rank && s in conns && Expands(nodes[s].kind, fountainsOnly) && 0 <= i < |conns[s]| &&
       (s != cur || i < j) && SettledBefore(rank, s, conns[s][i].position)) ==> RaisedAt(conns, w, m, s, i)
  }

  /** Every predecessor is a node that is expanded. */
  ghost predicate FromExpanded(nodes: NodeMap, w: NodeMap, fountainsOnly: bool) {
    forall k :: k in w && w[k].previous.Some? ==>
      w[k].previous.value in nodes && Expands(nodes[w[k].previous.value].kind, fountainsOnly)
  }

  ghost predicate TProgress(nodes: NodeMap, conns: ConnectionTable, w: NodeMap, m: Multipliers, fountainsOnly: bool,
                            rank: map<Pos, nat>, cur: Pos, j: nat)
  {
    && w.Keys == conns.Keys && nodes.Keys == conns.Keys
    && (forall p, i :: p in conns && 0 <= i < |conns[p]| ==> conns[p][i].position in conns)
    && FromExpanded(nodes, w, fountainsOnly)
    && Raised(nodes, conns, w, m, fountainsOnly, rank, cur, j)
  }

  ghost predicate TInv(nodes: NodeMap, conns: ConnectionTable, cs: ConnectionTable, w: NodeMap,
                       remaining: seq<Pos>, rank: map<Pos, nat>, via: map<Pos, nat>, start: Pos,
                       m: Multipliers, fountainsOnly: bool, n: nat, cur: Pos, j: nat)
  {
    && Bookkeeping(nodes, conns, cs, w, remaining, rank, start, n, cur, j)
    && Chain(conns, cs, w, rank, via, start, TreasureWeights(m), NegInf)
    && TProgress(nodes, conns, w, m, fountainsOnly, rank, cur, j)
  }

  /** The round's choice: the last remaining node with the highest label. */
  lemma PickHighest(w: NodeMap, remaining: seq<Pos>)
    requires Distinct(remaining) && |remaining| > 0 && forall r :: r in remaining ==> r in w
    ensures var sorted := SortBy(remaining, LabelOf(w));
      && Distinct(sorted) && (forall x :: x in sorted <==> x in remaining)
      && (forall r :: r in remaining ==> LessEq(w[r].distance, w[sorted[|sorted| - 1]].distance))
  {
    var key := LabelOf(w);
    var sorted := SortBy(remaining, key);
    DistinctPermutation(remaining, sorted);
    SortLast(remaining, key);
    var m := LastMaxIndex(remaining, key);
    assert remaining[m] in remaining;
    forall r | r in remaining ensures LessEq(w[r].distance, w[sorted[|sorted| - 1]].distance) {
      var i :| 0 <= i < |remaining| && remaining[i] == r;
      assert KeyLe(key(remaining[i]), key(remaining[m]));
      KeyOrderIsLess(w[r].distance, w[sorted[|sorted| - 1]].distance);
    }
  }

  /** In the first round the start, the only labelled node, comes last. */
  lemma FirstIsStart(w: NodeMap, start: Pos, high: Pos)
    requires high in w && start in w && w[start].distance == Fin(0)
    requires forall k :: k in w && k != start ==> w[k].distance == NegInf
    requires LessEq(w[start].distance, w[high].distance)
    ensures high == start
  {
  }

  /** Taking the chosen node out keeps the bookkeeping, with none of its connections followed yet. */
  lemma TPopBookkeeping(nodes: NodeMap, conns: ConnectionTable, cs: ConnectionTable, w: NodeMap,
                        remaining: seq<Pos>, rank: map<Pos, nat>, start: Pos, n: nat, cur: Pos, sorted: seq<Pos>)
    requires cur in conns && Bookkeeping(nodes, conns, cs, w, remaining, rank, start, n, cur, |conns[cur]|)
    requires |sorted| > 0 && Distinct(sorted) && (forall x :: x in sorted <==> x in remaining)
    requires n == 0 ==> sorted[|sorted| - 1] == start
    ensures var high := sorted[|sorted| - 1];
      && high in remaining && high !in rank
      && (forall x :: x in sorted[..|sorted| - 1] ==> x in remaining)
      && Bookkeeping(nodes, conns, cs, w, sorted[..|sorted| - 1], rank[high := n], start, n + 1, high, 0)
  {
    PopLastPartition(nodes, remaining, rank, n, sorted);
  }

  /** Taking the chosen node out keeps every followed connection raised. */
  lemma TPopProgress(nodes: NodeMap, conns: ConnectionTable, w: NodeMap, m: Multipliers, fountainsOnly: bool,
                     rank: map<Pos, nat>, cur: Pos, high: Pos, n: nat)
    requires cur in conns && TProgress(nodes, conns, w, m, fountainsOnly, rank, cur, |conns[cur]|)
    requires high !in rank
    ensures TProgress(nodes, conns, w, m, fountainsOnly, rank[high := n], high, 0)
  {
    var rank' := rank[high := n];
    forall s, i | s in rank' && s in conns && Expands(nodes[s].kind, fountainsOnly) && 0 <= i < |conns[s]| &&
                  (s != high || i < 0) && SettledBefore(rank', s, conns[s][i].position)
      ensures RaisedAt(conns, w, m, s, i)
    {
      assert s in rank;
      assert SettledBefore(rank, s, conns[s][i].position);
    }
  }

  /** A connection whose target is settled, or is not raised, keeps the invariant. */
  lemma RaiseSkip(nodes: NodeMap, conns: ConnectionTable, cs: ConnectionTable, w: NodeMap,
                  remaining: seq<Pos>, rank: map<Pos, nat>, via: map<Pos, nat>, start: Pos,
                  m: Multipliers, fountainsOnly: bool, n: nat, cur: Pos, j: nat)
    requires TInv(nodes, conns, cs, w, remaining, rank, via, start, m, fountainsOnly, n, cur, j)
    requires n > 0 && j < |conns[cur]|
    requires var t := conns[cur][j].position;
      !(IndexOf(remaining, t) >= 0 && Raises(w[t], Plus(w[cur].distance, TreasureWeight(conns[cur][j], m)), conns[cur][j]))
    ensures TInv(nodes, conns, cs, w, remaining, rank, via, start, m, fountainsOnly, n, cur, j + 1)
  {
    var t := conns[cur][j].position;
    forall s, i | s in rank && s in conns && Expands(nodes[s].kind, fountainsOnly) && 0 <= i < |conns[s]| &&
                  (s != cur || i < j + 1) && SettledBefore(rank, s, conns[s][i].position)
      ensures RaisedAt(conns, w, m, s, i)
    {
      if s == cur && i == j {
        assert t !in rank;
        assert t in remaining;
        assert t != start;
        assert Linked(conns, cs, w, rank, via, start, TreasureWeights(m), NegInf, t);
      }
    }
  }

  /** A raising offer is finite: labels are finite or `-Infinity`, and infinite labels have no path. */
  lemma RaiseIsFinite(conns: ConnectionTable, cs: ConnectionTable, w: NodeMap, rank: map<Pos, nat>,
                      via: map<Pos, nat>, start: Pos, m: Multipliers, cur: Pos, j: nat)
    requires Chain(conns, cs, w, rank, via, start, TreasureWeights(m), NegInf)
    requires cur in conns && j < |conns[cur]| && conns[cur][j].position in w
    requires var t := conns[cur][j].position; Raises(w[t], Plus(w[cur].distance, TreasureWeight(conns[cur][j], m)), conns[cur][j])
    ensures Plus(w[cur].distance, TreasureWeights(m)(conns[cur][j])).Fin?
  {
    var t := conns[cur][j].position;
    assert Linked(conns, cs, w, rank, via, start, TreasureWeights(m), NegInf, t);
    assert Linked(conns, cs, w, rank, via, start, TreasureWeights(m), NegInf, cur);
  }

  /** An update keeps every followed connection raised, and the new predecessor is expanded. */
  lemma RaiseUpdateProgress(nodes: NodeMap, conns: ConnectionTable, w: NodeMap, m: Multipliers, fountainsOnly: bool,
                            rank: map<Pos, nat>, cur: Pos, j: nat)
    requires TProgress(nodes, conns, w, m, fountainsOnly, rank, cur, j)
    requires cur in conns && cur in rank && j < |conns[cur]| && Expands(nodes[cur].kind, fountainsOnly)
    requires conns[cur][j].position !in rank
    requires var t := conns[cur][j].position; Raises(w[t], Plus(w[cur].distance, TreasureWeight(conns[cur][j], m)), conns[cur][j])
    ensures var t := conns[cur][j].position;
      var w2 := w[t := Relabel(w[t], Plus(w[cur].distance, TreasureWeights(m)(conns[cur][j])), cur, conns[cur][j])];
      TProgress(nodes, conns, w2, m, fountainsOnly, rank, cur, j + 1)
  {
    var c := conns[cur][j];
    var t := c.position;
    var offer := Plus(w[cur].distance, TreasureWeight(c, m));
    var w2 := w[t := Relabel(w[t], offer, cur, c)];
    forall s, i | s in rank && s in conns && Expands(nodes[s].kind, fountainsOnly) && 0 <= i < |conns[s]| &&
                  (s != cur || i < j + 1) && SettledBefore(rank, s, conns[s][i].position)
      ensures RaisedAt(conns, w2, m, s, i)
    {
      if !(s == cur && i == j) {
        assert RaisedAt(conns, w, m, s, i);
        if conns[s][i].position == t {
          LessTransitive(TreasureOffer(conns, w, m, s, i), w[t].distance, offer);
        }
      }
    }
  }

  /** An update keeps the whole invariant and moves on to the next connection. */
  lemma RaiseUpdate(nodes: NodeMap, conns: ConnectionTable, cs: ConnectionTable, w: NodeMap,
                    remaining: seq<Pos>, rank: map<Pos, nat>, via: map<Pos, nat>, start: Pos,
                    m: Multipliers, fountainsOnly: bool, n: nat, cur: Pos, j: nat)
    requires TInv(nodes, conns, cs, w, remaining, rank, via, start, m, fountainsOnly, n, cur, j)
    requires n > 0 && j < |conns[cur]| && Expands(nodes[cur].kind, fountainsOnly)
    requires var t := conns[cur][j].position;
      IndexOf(remaining, t) >= 0 && Raises(w[t], Plus(w[cur].distance, TreasureWeight(conns[cur][j], m)), conns[cur][j])
    ensures var t := conns[cur][j].position;
      var w2 := w[t := Relabel(w[t], Plus(w[cur].distance, TreasureWeight(conns[cur][j], m)), cur, conns[cur][j])];
      TInv(nodes, conns, Flip(cs, cur, j), w2, remaining, rank, via[t := j], start, m, fountainsOnly, n, cur, j + 1)
  {
    var t := conns[cur][j].position;
    assert t in remaining && t !in rank;
    UpdateBookkeeping(nodes, conns, cs, w, remaining, rank, start, n, cur, j,
                      Plus(w[cur].distance, TreasureWeight(conns[cur][j], m)));
    RaiseIsFinite(conns, cs, w, rank, via, start, m, cur, j);
    UpdateChain(conns, cs, w, rank, via, start, TreasureWeights(m), NegInf, cur, j);
    RaiseUpdateProgress(nodes, conns, w, m, fountainsOnly, rank, cur, j);
  }

  /** The state before the first round: every label `-Infinity` but the start's 0. */
  lemma TInitInv(nodes: NodeMap, order: seq<Pos>, conns: ConnectionTable, start: Pos, m: Multipliers, fountainsOnly: bool)
    requires GraphOk(nodes, order, conns) && AllFresh(nodes) && start in nodes
    ensures TInv(nodes, conns, conns, Unreached(nodes)[start := Unreached(nodes)[start].(distance := Fin(0))], order,
                 map[], map[], start, m, fountainsOnly, 0, start, |conns[start]|)
  {
    var w := Unreached(nodes)[start := Unreached(nodes)[start].(distance := Fin(0))];
    assert Chain(conns, conns, w, map[], map[], start, TreasureWeights(m), NegInf) by {
      forall k | k in w ensures Linked(conns, conns, w, map[], map[], start, TreasureWeights(m), NegInf, k) {
        assert nodes[k] == FreshNode(k, nodes[k].kind);
      }
    }
  }

  /** `structuredClone(allCWNodes)` with every label set to `-Infinity`. */
  function Unreached(nodes: NodeMap): (r: NodeMap)
    ensures r.Keys == nodes.Keys
    ensures forall k :: k in r ==> r[k] == nodes[k].(distance := NegInf)
  {
    map k | k in nodes :: nodes[k].(distance := NegInf)
  }

  /**
   * `findHighestTreasureRoute`, from the start node `fixStartingPosition` chose. The
   * ghost outputs record the order in which nodes left the remaining list and which
   * connection gave each node its label.
   */
  method FindHighestTreasureRoute(nodes: NodeMap, order: seq<Pos>, conns: ConnectionTable, start: Pos,
                                  m: Multipliers, fountainsOnly: bool)
    returns (withTreasure: NodeMap, table: ConnectionTable, ghost rank: map<Pos, nat>, ghost via: map<Pos, nat>)
    requires GraphOk(nodes, order, conns) && AllFresh(nodes) && start in nodes
    ensures SameNodes(nodes, withTreasure) && ReversedOrSame(conns, table)
    ensures rank.Keys == nodes.Keys && start in rank && rank[start] == 0
    ensures forall a, b :: a in rank && b in rank && a != b ==> rank[a] != rank[b]
    ensures Chain(conns, table, withTreasure, rank, via, start, TreasureWeights(m), NegInf)
    ensures FromExpanded(nodes, withTreasure, fountainsOnly)
    ensures forall s, i ::
      (s in conns && Expands(nodes[s].kind, fountainsOnly) && 0 <= i < |conns[s]| &&
       rank[s] < rank[conns[s][i].position]) ==> RaisedAt(conns, withTreasure, m, s, i)
  {
    var w0 := Unreached(nodes);
    withTreasure := w0[start := w0[start].(distance := Fin(0))];
    table := conns;
    var remaining := order;
    rank, via := map[], map[];
    ghost var n: nat := 0;
    ghost var cur := start;
    TInitInv(nodes, order, conns, start, m, fountainsOnly);
    while |remaining| > 0
      invariant cur in conns
      invariant TInv(nodes, conns, table, withTreasure, remaining, rank, via, start, m, fountainsOnly, n, cur, |conns[cur]|)
      decreases |remaining|
    {
      var sorted := SortBy(remaining, LabelOf(withTreasure));
      var high := sorted[|sorted| - 1];
      TPop(nodes, conns, table, withTreasure, remaining, rank, via, start, m, fountainsOnly, n, cur, sorted, high);
      remaining := sorted[..|sorted| - 1];
      rank := rank[high := n];
      n, cur := n + 1, high;
      if Expands(nodes[high].kind, fountainsOnly) {
        withTreasure, table, via :=
          RaiseConnections(nodes, conns, table, withTreasure, remaining, rank, via, start, m, fountainsOnly, n, high);
      } else {
        TSkip(nodes, conns, table, withTreasure, remaining, rank, via, start, m, fountainsOnly, n, high);
      }
    }
    TFinish(nodes, conns, table, withTreasure, remaining, rank, via, start, m, fountainsOnly, n, cur);
  }

  /**
   * One round of `findHighestTreasureRoute`: the remaining node with the highest
   * label (the start in the first round) is settled with the next rank, none of its
   * connections followed yet.
   */
  lemma TPop(nodes: NodeMap, conns: ConnectionTable, cs: ConnectionTable, w: NodeMap,
             remaining: seq<Pos>, rank: map<Pos, nat>, via: map<Pos, nat>, start: Pos,
             m: Multipliers, fountainsOnly: bool, n: nat, cur: Pos, sorted: seq<Pos>, high: Pos)
    requires cur in conns && |remaining| > 0
    requires TInv(nodes, conns, cs, w, remaining, rank, via, start, m, fountainsOnly, n, cur, |conns[cur]|)
    requires sorted == SortBy(remaining, LabelOf(w)) && |sorted| > 0 && high == sorted[|sorted| - 1]
    ensures |sorted| == |remaining| && high in conns
    ensures TInv(nodes, conns, cs, w, sorted[..|sorted| - 1], rank[high := n], via, start, m, fountainsOnly, n + 1, high, 0)
  {
    PickHighest(w, remaining);
    if n == 0 {
      OnlyRootLabelled(conns, cs, w, via, start, TreasureWeights(m), NegInf);
      FirstIsStart(w, start, high);
    }
    TPopBookkeeping(nodes, conns, cs, w, remaining, rank, start, n, cur, sorted);
    PopChain(conns, cs, w, rank, via, start, TreasureWeights(m), NegInf, high, n);
    TPopProgress(nodes, conns, w, m, fountainsOnly, rank, cur, high, n);
  }

  /** A node that is not expanded is done as soon as it is taken out. */
  lemma TSkip(nodes: NodeMap, conns: ConnectionTable, cs: ConnectionTable, w: NodeMap,
              remaining: seq<Pos>, rank: map<Pos, nat>, via: map<Pos, nat>, start: Pos,
              m: Multipliers, fountainsOnly: bool, n: nat, cur: Pos)
    requires cur in conns && cur in nodes && !Expands(nodes[cur].kind, fountainsOnly)
    requires TInv(nodes, conns, cs, w, remaining, rank, via, start, m, fountainsOnly, n, cur, 0)
    ensures TInv(nodes, conns, cs, w, remaining, rank, via, start, m, fountainsOnly, n, cur, |conns[cur]|)
  {
    assert Bookkeeping(nodes, conns, cs, w, remaining, rank, start, n, cur, |conns[cur]|);
    assert Raised(nodes, conns, w, m, fountainsOnly, rank, cur, |conns[cur]|) by {
      assert Raised(nodes, conns, w, m, fountainsOnly, rank, cur, 0);
    }
  }

  /** The inner loop of `findHighestTreasureRoute`: follow the connections of an expanded node, in order. */
  method RaiseConnections(nodes: NodeMap, conns: ConnectionTable, cs: ConnectionTable, w: NodeMap,
                          remaining: seq<Pos>, ghost rank: map<Pos, nat>, ghost via: map<Pos, nat>, start: Pos,
                          m: Multipliers, fountainsOnly: bool, ghost n: nat, high: Pos)
    returns (w': NodeMap, cs': ConnectionTable, ghost via': map<Pos, nat>)
    requires high in conns && n > 0
    requires TInv(nodes, conns, cs, w, remaining, rank, via, start, m, fountainsOnly, n, high, 0)
    requires Expands(nodes[high].kind, fountainsOnly)
    ensures TInv(nodes, conns, cs', w', remaining, rank, via', start, m, fountainsOnly, n, high, |conns[high]|)
  {
    w', cs', via' := w, cs, via;
    var connections := cs[high];
    var j := 0;
    while j < |connections|
      invariant j <= |connections| == |conns[high]|
      invariant forall i :: j <= i < |connections| ==> connections[i] == conns[high][i]
      invariant TInv(nodes, conns, cs', w', remaining, rank, via', start, m, fountainsOnly, n, high, j)
      decreases |connections| - j
    {
      var c := connections[j];
      var t := c.position;
      var offer := Plus(w'[high].distance, TreasureWeight(c, m));
      var idx := IndexOf(remaining, t);
      if idx >= 0 && Raises(w'[t], offer, c) {
        RaiseUpdate(nodes, conns, cs', w', remaining, rank, via', start, m, fountainsOnly, n, high, j);
        w' := w'[t := Relabel(w'[t], offer, high, c)];
        cs' := Flip(cs', high, j);
        via' := via'[t := j];
      } else {
        RaiseSkip(nodes, conns, cs', w', remaining, rank, via', start, m, fountainsOnly, n, high, j);
      }
      j := j + 1;
    }
  }

  lemma TFinish(nodes: NodeMap, conns: ConnectionTable, cs: ConnectionTable, w: NodeMap,
                remaining: seq<Pos>, rank: map<Pos, nat>, via: map<Pos, nat>, start: Pos,
                m: Multipliers, fountainsOnly: bool, n: nat, cur: Pos)
    requires cur in conns && TInv(nodes, conns, cs, w, remaining, rank, via, start, m, fountainsOnly, n, cur, |conns[cur]|)
    requires |remaining| == 0
    ensures rank.Keys == nodes.Keys && start in rank && rank[start] == 0
    ensures forall s, i ::
      (s in conns && Expands(nodes[s].kind, fountainsOnly) && 0 <= i < |conns[s]| &&
       rank[s] < rank[conns[s][i].position]) ==> RaisedAt(conns, w, m, s, i)
  {
    assert rank.Keys == nodes.Keys;
    forall s, i | s in conns && Expands(nodes[s].kind, fountainsOnly) && 0 <= i < |conns[s]| &&
                  rank[s] < rank[conns[s][i].position]
      ensures RaisedAt(conns, w, m, s, i)
    {
      assert SettledBefore(rank, s, conns[s][i].position);
    }
  }

  /**
   * What the treasure labels mean: a node with a finite label is reached from the start
   * along its predecessor links, every step leaving an expanded node (never the boss,
   * only fountains when restricted), and its label is the treasure value of that route.
   */
  lemma TreasureRoutes(nodes: NodeMap, conns: ConnectionTable, table: ConnectionTable, w: NodeMap,
                       rank: map<Pos, nat>, via: map<Pos, nat>, start: Pos, m: Multipliers, fountainsOnly: bool, k: Pos)
    requires rank.Keys == w.Keys && Chain(conns, table, w, rank, via, start, TreasureWeights(m), NegInf)
    requires FromExpanded(nodes, w, fountainsOnly)
    requires k in w && w[k].distance.Fin?
    ensures var route := LinkRoute(conns, table, w, rank, via, start, TreasureWeights(m), NegInf, k);
      && IsRoute(conns, start, route) && RouteEnd(conns, start, route) == k
      && w[k].distance == Fin(RouteCost(conns, route, TreasureWeights(m)))
      && forall i :: 0 <= i < |route| ==> route[i].from in nodes && Expands(nodes[route[i].from].kind, fountainsOnly)
  {
    var route := LinkRoute(conns, table, w, rank, via, start, TreasureWeights(m), NegInf, k);
    forall i | 0 <= i < |route| ensures route[i].from in nodes && Expands(nodes[route[i].from].kind, fountainsOnly) {
      assert w[Target(conns, route[i])].previous == Some(route[i].from);
    }
  }
}

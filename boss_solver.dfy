/**
 * `calculateDistanceToBoss` (dungeon/graph.ts): label-setting from the boss over
 * the connection table. Each round sorts the remaining nodes by label, takes the
 * first, and relaxes its connections; an update stores the reversed connection
 * path as the node's path to its predecessor, reversing the table's path in place.
 */
module BossSolver {
  import opened Wrappers
  import opened Tiles
  import opened Sorting
  import opened Labels
  import opened Scanner
  import opened Graph
  import opened Walks
  import opened Labelling

  /** The offer of connection `i` of settled node `s` to its target. */
  function Offer(conns: ConnectionTable, w: NodeMap, s: Pos, i: nat): Label
    requires s in conns && s in w && i < |conns[s]|
  {
    Plus(w[s].distance, conns[s][i].weight)
  }

  /**
   * After a connection was relaxed while its target was unsettled, the target's label
   * is at most the offer, and on a finite tie its path is no longer than the connection's.
   */
  ghost predicate RelaxedAt(conns: ConnectionTable, w: NodeMap, s: Pos, i: nat)
    requires s in conns && s in w && i < |conns[s]| && conns[s][i].position in w
  {
    var t := conns[s][i].position;
    var offer := Offer(conns, w, s, i);
    && LessEq(w[t].distance, offer)
    && (w[t].distance == offer && offer.Fin? ==>
          w[t].pathToPrevious.Some? && |w[t].pathToPrevious.value| <= |conns[s][i].path|)
  }

  /** Every connection processed so far (all of each settled node, the first `j` of `cur`) is relaxed. */
  ghost predicate Relaxed(conns: ConnectionTable, w: NodeMap, rank: map<Pos, nat>, cur: Pos, j: nat)
    requires w.Keys == conns.Keys
    requires forall p, i :: p in conns && 0 <= i < |conns[p]| ==> conns[p][i].position in conns
  {
    forall s, i ::
      (s in rank && s in conns && 0 <= i < |conns[s]| && (s != cur || i < j) &&
       SettledBefore(rank, s, conns[s][i].position)) ==> RelaxedAt(conns, w, s, i)
  }

  ghost predicate NonNegative(conns: ConnectionTable) {
    forall p, i :: p in conns && 0 <= i < |conns[p]| ==> conns[p][i].weight >= 0
  }

  /** With non-negative weights, labels never decrease along the settle order. */
  ghost predicate Monotone(w: NodeMap, remaining: seq<Pos>, rank: map<Pos, nat>)
    requires forall k :: k in rank ==> k in w
    requires forall k :: k in remaining ==> k in w
  {
    && (forall a, b :: a in rank && b in rank && rank[a] < rank[b] ==> LessEq(w[a].distance, w[b].distance))
    && (forall a, r :: a in rank && r in remaining ==> LessEq(w[a].distance, w[r].distance))
  }

  /** The optimality part of the loop invariant: the first `j` connections of `cur` have been relaxed. */
  ghost predicate Progress(conns: ConnectionTable, w: NodeMap, remaining: seq<Pos>, rank: map<Pos, nat>,
                           cur: Pos, j: nat)
  {
    && w.Keys == conns.Keys
    && (forall p, i :: p in conns && 0 <= i < |conns[p]| ==> conns[p][i].position in conns)
    && (forall k :: k in rank ==> k in w)
    && (forall k :: k in remaining ==> k in w)
    && Relaxed(conns, w, rank, cur, j)
    && (NonNegative(conns) ==> Monotone(w, remaining, rank))
  }

  ghost predicate Inv(nodes: NodeMap, conns: ConnectionTable, cs: ConnectionTable, w: NodeMap,
                      remaining: seq<Pos>, rank: map<Pos, nat>, via: map<Pos, nat>, boss: Pos,
                      n: nat, cur: Pos, j: nat)
  {
    && Bookkeeping(nodes, conns, cs, w, remaining, rank, boss, n, cur, j)
    && Chain(conns, cs, w, rank, via, boss, ConnWeight, PosInf)
    && Progress(conns, w, remaining, rank, cur, j)
  }

  /** The round's choice: the first remaining node with the smallest label. */
  lemma PickLowest(w: NodeMap, remaining: seq<Pos>)
    requires Distinct(remaining) && |remaining| > 0 && forall r :: r in remaining ==> r in w
    ensures var sorted := SortBy(remaining, LabelOf(w));
      && Distinct(sorted) && (forall x :: x in sorted <==> x in remaining)
      && (forall r :: r in remaining ==> LessEq(w[sorted[0]].distance, w[r].distance))
  {
    var key := LabelOf(w);
    var sorted := SortBy(remaining, key);
    DistinctPermutation(remaining, sorted);
    SortHead(remaining, key);
    var m := FirstMinIndex(remaining, key);
    assert remaining[m] in remaining;
    forall r | r in remaining ensures LessEq(w[sorted[0]].distance, w[r].distance) {
      var i :| 0 <= i < |remaining| && remaining[i] == r;
      assert KeyLe(key(remaining[m]), key(remaining[i]));
      KeyOrderIsLess(w[sorted[0]].distance, w[r].distance);
    }
  }

  /** In the first round the boss, the only labelled node, comes first. */
  lemma FirstIsBoss(w: NodeMap, remaining: seq<Pos>, boss: Pos, low: Pos)
    requires boss in remaining && low in w && boss in w && w[boss].distance == Fin(0)
    requires forall k :: k in w && k != boss ==> w[k].distance == PosInf
    requires LessEq(w[low].distance, w[boss].distance)
    ensures low == boss
  {
  }

  /** Settling the chosen node keeps the bookkeeping, with none of its connections relaxed yet. */
  lemma PopBookkeeping(nodes: NodeMap, conns: ConnectionTable, cs: ConnectionTable, w: NodeMap,
                       remaining: seq<Pos>, rank: map<Pos, nat>, boss: Pos, n: nat, cur: Pos, sorted: seq<Pos>)
    requires cur in conns && Bookkeeping(nodes, conns, cs, w, remaining, rank, boss, n, cur, |conns[cur]|)
    requires |sorted| > 0 && Distinct(sorted) && (forall x :: x in sorted <==> x in remaining)
    requires n == 0 ==> sorted[0] == boss
    ensures sorted[0] in remaining && sorted[0] !in rank
    ensures forall x :: x in sorted[1..] <==> x in remaining && x != sorted[0]
    ensures Bookkeeping(nodes, conns, cs, w, sorted[1..], rank[sorted[0] := n], boss, n + 1, sorted[0], 0)
  {
    PopPartition(nodes, remaining, rank, n, sorted);
  }

  /** Settling the chosen node keeps the relaxation and ordering facts. */
  lemma PopProgress(conns: ConnectionTable, w: NodeMap, remaining: seq<Pos>, rank: map<Pos, nat>,
                    cur: Pos, sorted: seq<Pos>, n: nat)
    requires cur in conns && Progress(conns, w, remaining, rank, cur, |conns[cur]|)
    requires |sorted| > 0 && sorted[0] in remaining && sorted[0] !in rank
    requires forall x :: x in sorted[1..] ==> x in remaining
    requires forall r :: r in remaining ==> LessEq(w[sorted[0]].distance, w[r].distance)
    requires forall k :: k in rank ==> rank[k] < n
    ensures Progress(conns, w, sorted[1..], rank[sorted[0] := n], sorted[0], 0)
  {
    PopRelaxed(conns, w, rank, cur, sorted[0], n);
    if NonNegative(conns) {
      PopMonotone(w, remaining, rank, sorted, n);
    }
  }

  lemma PopRelaxed(conns: ConnectionTable, w: NodeMap, rank: map<Pos, nat>, cur: Pos, low: Pos, n: nat)
    requires w.Keys == conns.Keys && cur in conns
    requires forall p, i :: p in conns && 0 <= i < |conns[p]| ==> conns[p][i].position in conns
    requires Relaxed(conns, w, rank, cur, |conns[cur]|) && low !in rank
    ensures Relaxed(conns, w, rank[low := n], low, 0)
  {
    var rank' := rank[low := n];
    forall s, i | s in rank' && s in conns && 0 <= i < |conns[s]| && (s != low || i < 0) &&
                  SettledBefore(rank', s, conns[s][i].position)
      ensures RelaxedAt(conns, w, s, i)
    {
      assert s in rank;
      assert SettledBefore(rank, s, conns[s][i].position);
    }
  }

  lemma PopMonotone(w: NodeMap, remaining: seq<Pos>, rank: map<Pos, nat>, sorted: seq<Pos>, n: nat)
    requires (forall k :: k in rank ==> k in w) && (forall k :: k in remaining ==> k in w)
    requires Monotone(w, remaining, rank) && |sorted| > 0
    requires forall k :: k in rank ==> rank[k] < n
    requires sorted[0] in remaining && sorted[0] !in rank
    requires forall x :: x in sorted[1..] ==> x in remaining
    requires forall r :: r in remaining ==> LessEq(w[sorted[0]].distance, w[r].distance)
    ensures Monotone(w, sorted[1..], rank[sorted[0] := n])
  {
    var low := sorted[0];
    var rank' := rank[low := n];
    forall a, b | a in rank' && b in rank' && rank'[a] < rank'[b]
      ensures LessEq(w[a].distance, w[b].distance)
    {
      if b == low { assert a in rank; }
    }
  }

  /**
   * The update test of the inner loop: the offer is strictly smaller, or equal with a
   * recorded path to the predecessor that is longer than the connection's path.
   */
  predicate Improves(target: Node, offer: Label, c: Connection) {
    || Less(offer, target.distance)
    || (target.distance == offer && target.pathToPrevious.Some? && |target.pathToPrevious.value| > |c.path|)
  }

  /** A connection whose target is still unsettled and not improved stays relaxed. */
  lemma RelaxSkip(nodes: NodeMap, conns: ConnectionTable, cs: ConnectionTable, w: NodeMap,
                  remaining: seq<Pos>, rank: map<Pos, nat>, via: map<Pos, nat>, boss: Pos, n: nat, cur: Pos, j: nat)
    requires Inv(nodes, conns, cs, w, remaining, rank, via, boss, n, cur, j) && n > 0 && j < |conns[cur]|
    requires var t := conns[cur][j].position;
      !(IndexOf(remaining, t) >= 0 && Improves(w[t], Plus(w[cur].distance, conns[cur][j].weight), conns[cur][j]))
    ensures Inv(nodes, conns, cs, w, remaining, rank, via, boss, n, cur, j + 1)
  {
    var t := conns[cur][j].position;
    forall s, i | s in rank && s in conns && 0 <= i < |conns[s]| && (s != cur || i < j + 1) &&
                  SettledBefore(rank, s, conns[s][i].position)
      ensures RelaxedAt(conns, w, s, i)
    {
      if s == cur && i == j {
        assert t !in rank;
        assert t in remaining;
        assert t != boss;
        assert Linked(conns, cs, w, rank, via, boss, ConnWeight, PosInf, t);
      }
    }
  }

  /** An improving offer is finite: an infinite offer can only tie, and infinite labels have no path. */
  lemma UpdateIsFinite(conns: ConnectionTable, cs: ConnectionTable, w: NodeMap, rank: map<Pos, nat>,
                       via: map<Pos, nat>, boss: Pos, cur: Pos, j: nat)
    requires Chain(conns, cs, w, rank, via, boss, ConnWeight, PosInf)
    requires cur in conns && j < |conns[cur]| && conns[cur][j].position in w
    requires var t := conns[cur][j].position; Improves(w[t], Plus(w[cur].distance, conns[cur][j].weight), conns[cur][j])
    ensures Plus(w[cur].distance, conns[cur][j].weight).Fin?
  {
    var t := conns[cur][j].position;
    assert Linked(conns, cs, w, rank, via, boss, ConnWeight, PosInf, t);
  }

  /** An update keeps every processed connection relaxed and, with non-negative weights, the order. */
  lemma RelaxUpdateProgress(conns: ConnectionTable, w: NodeMap, remaining: seq<Pos>, rank: map<Pos, nat>,
                            cur: Pos, j: nat)
    requires cur in conns && cur in rank && j < |conns[cur]|
    requires Progress(conns, w, remaining, rank, cur, j)
    requires forall a :: a in rank && a != cur ==> rank[a] < rank[cur]
    requires conns[cur][j].position in remaining && conns[cur][j].position !in rank
    requires var t := conns[cur][j].position; Improves(w[t], Plus(w[cur].distance, conns[cur][j].weight), conns[cur][j])
    ensures var t := conns[cur][j].position;
      var w2 := w[t := Relabel(w[t], Plus(w[cur].distance, conns[cur][j].weight), cur, conns[cur][j])];
      Progress(conns, w2, remaining, rank, cur, j + 1)
  {
    var c := conns[cur][j];
    var t := c.position;
    var offer := Plus(w[cur].distance, c.weight);
    var w2 := w[t := Relabel(w[t], offer, cur, c)];
    forall s, i | s in rank && s in conns && 0 <= i < |conns[s]| && (s != cur || i < j + 1) &&
                  SettledBefore(rank, s, conns[s][i].position)
      ensures RelaxedAt(conns, w2, s, i)
    {
      if !(s == cur && i == j) {
        assert RelaxedAt(conns, w, s, i);
        if conns[s][i].position == t {
          LessTransitive(offer, w[t].distance, Offer(conns, w, s, i));
        }
      }
    }
    if NonNegative(conns) {
      forall a, r | a in rank && r in remaining ensures LessEq(w2[a].distance, w2[r].distance) {
        if r == t {
          assert LessEq(w[a].distance, w[cur].distance);
          LessTransitive(w[a].distance, w[cur].distance, offer);
        }
      }
    }
  }

  /** An update keeps the whole invariant and moves on to the next connection. */
  lemma RelaxUpdate(nodes: NodeMap, conns: ConnectionTable, cs: ConnectionTable, w: NodeMap,
                    remaining: seq<Pos>, rank: map<Pos, nat>, via: map<Pos, nat>, boss: Pos, n: nat, cur: Pos, j: nat)
    requires Inv(nodes, conns, cs, w, remaining, rank, via, boss, n, cur, j) && n > 0 && j < |conns[cur]|
    requires var t := conns[cur][j].position;
      IndexOf(remaining, t) >= 0 && Improves(w[t], Plus(w[cur].distance, conns[cur][j].weight), conns[cur][j])
    ensures var t := conns[cur][j].position;
      var w2 := w[t := Relabel(w[t], Plus(w[cur].distance, conns[cur][j].weight), cur, conns[cur][j])];
      Inv(nodes, conns, Flip(cs, cur, j), w2, remaining, rank, via[t := j], boss, n, cur, j + 1)
  {
    var t := conns[cur][j].position;
    assert t in remaining && t !in rank;
    UpdateBookkeeping(nodes, conns, cs, w, remaining, rank, boss, n, cur, j, Plus(w[cur].distance, conns[cur][j].weight));
    UpdateIsFinite(conns, cs, w, rank, via, boss, cur, j);
    UpdateChain(conns, cs, w, rank, via, boss, ConnWeight, PosInf, cur, j);
    RelaxUpdateProgress(conns, w, remaining, rank, cur, j);
  }

  /** The state before the first round: only the boss has a label, nothing is settled. */
  lemma InitInv(nodes: NodeMap, order: seq<Pos>, conns: ConnectionTable, boss: Pos)
    requires GraphOk(nodes, order, conns) && AllFresh(nodes) && boss in nodes
    ensures Inv(nodes, conns, conns, nodes[boss := nodes[boss].(distance := Fin(0))], order, map[], map[],
                boss, 0, boss, |conns[boss]|)
  {
    var w := nodes[boss := nodes[boss].(distance := Fin(0))];
    assert Chain(conns, conns, w, map[], map[], boss, ConnWeight, PosInf) by {
      forall k | k in w ensures Linked(conns, conns, w, map[], map[], boss, ConnWeight, PosInf, k) {
        assert nodes[k] == FreshNode(k, nodes[k].kind);
      }
    }
  }

  /**
   * `calculateDistanceToBoss`: every round sorts the remaining nodes by label, settles
   * the first, and relaxes its connections in order. The ghost outputs record the
   * order in which nodes were settled and which connection gave each node its label.
   */
  method CalculateDistanceToBoss(nodes: NodeMap, order: seq<Pos>, conns: ConnectionTable, boss: Pos)
    returns (withPath: NodeMap, table: ConnectionTable, ghost rank: map<Pos, nat>, ghost via: map<Pos, nat>)
    requires GraphOk(nodes, order, conns) && AllFresh(nodes) && boss in nodes
    ensures SameNodes(nodes, withPath) && ReversedOrSame(conns, table)
    ensures rank.Keys == nodes.Keys && boss in rank && rank[boss] == 0
    ensures forall a, b :: a in rank && b in rank && a != b ==> rank[a] != rank[b]
    ensures Chain(conns, table, withPath, rank, via, boss, ConnWeight, PosInf)
    ensures Settled(conns, withPath, rank)
    ensures NonNegative(conns) ==> Bellman(conns, withPath)
  {
    withPath := nodes[boss := nodes[boss].(distance := Fin(0))];
    table := conns;
    var remaining := order;
    rank, via := map[], map[];
    ghost var n: nat := 0;
    ghost var cur := boss;
    InitInv(nodes, order, conns, boss);
    while |remaining| > 0
      invariant cur in conns
      invariant Inv(nodes, conns, table, withPath, remaining, rank, via, boss, n, cur, |conns[cur]|)
      decreases |remaining|
    {
      var sorted := SortBy(remaining, LabelOf(withPath));
      PickLowest(withPath, remaining);
      if n == 0 {
        OnlyRootLabelled(conns, table, withPath, via, boss, ConnWeight, PosInf);
        FirstIsBoss(withPath, remaining, boss, sorted[0]);
      }
      PopBookkeeping(nodes, conns, table, withPath, remaining, rank, boss, n, cur, sorted);
      PopChain(conns, table, withPath, rank, via, boss, ConnWeight, PosInf, sorted[0], n);
      PopProgress(conns, withPath, remaining, rank, cur, sorted, n);
      var low := sorted[0];
      remaining := sorted[1..];
      rank := rank[low := n];
      n, cur := n + 1, low;
      withPath, table, via := RelaxConnections(nodes, conns, table, withPath, remaining, rank, via, boss, n, low);
    }
    Finish(nodes, conns, table, withPath, remaining, rank, via, boss, n, cur);
  }

  /** The inner loop of `calculateDistanceToBoss`: relax the connections of the node just settled, in order. */
  method RelaxConnections(nodes: NodeMap, conns: ConnectionTable, cs: ConnectionTable, w: NodeMap,
                          remaining: seq<Pos>, ghost rank: map<Pos, nat>, ghost via: map<Pos, nat>, boss: Pos,
                          ghost n: nat, low: Pos)
    returns (w': NodeMap, cs': ConnectionTable, ghost via': map<Pos, nat>)
    requires low in conns && n > 0 && Inv(nodes, conns, cs, w, remaining, rank, via, boss, n, low, 0)
    ensures Inv(nodes, conns, cs', w', remaining, rank, via', boss, n, low, |conns[low]|)
  {
    w', cs', via' := w, cs, via;
    var connections := cs[low];
    var j := 0;
    while j < |connections|
      invariant j <= |connections| == |conns[low]|
      invariant forall i :: j <= i < |connections| ==> connections[i] == conns[low][i]
      invariant Inv(nodes, conns, cs', w', remaining, rank, via', boss, n, low, j)
      decreases |connections| - j
    {
      var c := connections[j];
      var t := c.position;
      var offer := Plus(w'[low].distance, c.weight);
      var idx := IndexOf(remaining, t);
      if idx >= 0 && Improves(w'[t], offer, c) {
        RelaxUpdate(nodes, conns, cs', w', remaining, rank, via', boss, n, low, j);
        w' := w'[t := Relabel(w'[t], offer, low, c)];
        cs' := Flip(cs', low, j);
        via' := via'[t := j];
      } else {
        RelaxSkip(nodes, conns, cs', w', remaining, rank, via', boss, n, low, j);
      }
      j := j + 1;
    }
  }

  /** Once every node is settled, each connection from an earlier- to a later-settled node is relaxed. */
  ghost predicate Settled(conns: ConnectionTable, w: NodeMap, rank: map<Pos, nat>)
    requires w.Keys == conns.Keys && conns.Keys == rank.Keys
    requires forall p, i :: p in conns && 0 <= i < |conns[p]| ==> conns[p][i].position in conns
  {
    forall s, i :: s in conns && 0 <= i < |conns[s]| && rank[s] < rank[conns[s][i].position] ==>
      RelaxedAt(conns, w, s, i)
  }

  /** No connection offers its target a smaller label than the target has. */
  ghost predicate Bellman(conns: ConnectionTable, w: NodeMap)
    requires w.Keys == conns.Keys
    requires forall p, i :: p in conns && 0 <= i < |conns[p]| ==> conns[p][i].position in conns
  {
    forall s, i :: s in conns && 0 <= i < |conns[s]| ==>
      LessEq(w[conns[s][i].position].distance, Offer(conns, w, s, i))
  }

  /** A non-negative weight never lowers a label. */
  lemma PlusNonNegative(a: Label, x: int)
    requires x >= 0
    ensures LessEq(a, Plus(a, x))
  {
  }

  lemma Finish(nodes: NodeMap, conns: ConnectionTable, cs: ConnectionTable, w: NodeMap,
               remaining: seq<Pos>, rank: map<Pos, nat>, via: map<Pos, nat>, boss: Pos, n: nat, cur: Pos)
    requires cur in conns && Inv(nodes, conns, cs, w, remaining, rank, via, boss, n, cur, |conns[cur]|)
    requires |remaining| == 0
    ensures rank.Keys == nodes.Keys && boss in rank && rank[boss] == 0
    ensures Settled(conns, w, rank)
    ensures NonNegative(conns) ==> Bellman(conns, w)
  {
    assert rank.Keys == nodes.Keys;
    assert n > 0 by {
      assert boss in rank;
    }
    RelaxedIsSettled(conns, w, rank, cur);
    if NonNegative(conns) {
      SettledIsBellman(conns, w, rank);
    }
  }

  /** Once every connection of every settled node is processed and all nodes are settled, the labels are settled. */
  lemma RelaxedIsSettled(conns: ConnectionTable, w: NodeMap, rank: map<Pos, nat>, cur: Pos)
    requires w.Keys == conns.Keys && conns.Keys == rank.Keys
    requires forall p, i :: p in conns && 0 <= i < |conns[p]| ==> conns[p][i].position in conns
    requires cur in conns && Relaxed(conns, w, rank, cur, |conns[cur]|)
    ensures Settled(conns, w, rank)
  {
    forall s, i | s in conns && 0 <= i < |conns[s]| && rank[s] < rank[conns[s][i].position]
      ensures RelaxedAt(conns, w, s, i)
    {
      assert SettledBefore(rank, s, conns[s][i].position);
    }
  }

  /**
   * With non-negative weights, labels that never decrease along the settle order and
   * every connection relaxed when its source was settled first, no connection offers
   * an improvement.
   */
  lemma SettledIsBellman(conns: ConnectionTable, w: NodeMap, rank: map<Pos, nat>)
    requires w.Keys == conns.Keys && conns.Keys == rank.Keys
    requires forall p, i :: p in conns && 0 <= i < |conns[p]| ==> conns[p][i].position in conns
    requires Settled(conns, w, rank) && NonNegative(conns)
    requires forall a, b :: a in rank && b in rank && rank[a] < rank[b] ==> LessEq(w[a].distance, w[b].distance)
    requires forall a, b :: a in rank && b in rank && a != b ==> rank[a] != rank[b]
    ensures Bellman(conns, w)
  {
    forall s, i | s in conns && 0 <= i < |conns[s]|
      ensures LessEq(w[conns[s][i].position].distance, Offer(conns, w, s, i))
    {
      var t := conns[s][i].position;
      if rank[s] < rank[t] {
        assert RelaxedAt(conns, w, s, i);
      } else {
        PlusNonNegative(w[s].distance, conns[s][i].weight);
        if t != s {
          LessTransitive(w[t].distance, w[s].distance, Offer(conns, w, s, i));
        }
      }
    }
  }

  lemma PlusMonotone(a: Label, b: Label, x: int)
    requires LessEq(a, b)
    ensures LessEq(Plus(a, x), Plus(b, x))
  {
  }

  /**
   * With no connection offering an improvement and label 0 at the root, every route
   * from the root costs at least its end's label.
   */
  lemma {:induction false} NoShorterRoute(conns: ConnectionTable, w: NodeMap, root: Pos, steps: seq<Step>)
    requires w.Keys == conns.Keys && root in w && w[root].distance == Fin(0)
    requires forall p, i :: p in conns && 0 <= i < |conns[p]| ==> conns[p][i].position in conns
    requires Bellman(conns, w) && IsRoute(conns, root, steps)
    ensures LessEq(w[RouteEnd(conns, root, steps)].distance, Fin(RouteCost(conns, steps, ConnWeight)))
  {
    if steps != [] {
      var prefix := steps[..|steps| - 1];
      var last := steps[|steps| - 1];
      RoutePrefix(conns, root, steps);
      NoShorterRoute(conns, w, root, prefix);
      assert StepOk(conns, last);
      PlusMonotone(w[last.from].distance, Fin(RouteCost(conns, prefix, ConnWeight)), conns[last.from][last.index].weight);
      LessTransitive(w[Target(conns, last)].distance, Offer(conns, w, last.from, last.index),
                     Fin(RouteCost(conns, steps, ConnWeight)));
    }
  }

  /**
   * The boss solver's result, with non-negative weights: a node has a finite label
   * exactly when some route leads to it from the boss; the predecessor links then
   * spell out a route whose cost is the label, and no route is cheaper.
   */
  lemma ShortestRoutes(nodes: NodeMap, conns: ConnectionTable, table: ConnectionTable, withPath: NodeMap,
                       rank: map<Pos, nat>, via: map<Pos, nat>, boss: Pos, k: Pos)
    requires forall p, i :: p in conns && 0 <= i < |conns[p]| ==> conns[p][i].position in conns
    requires SameNodes(nodes, withPath) && rank.Keys == nodes.Keys
    requires Chain(conns, table, withPath, rank, via, boss, ConnWeight, PosInf) && Bellman(conns, withPath) && k in nodes
    ensures withPath[k].distance.Fin? <==>
      exists steps :: IsRoute(conns, boss, steps) && RouteEnd(conns, boss, steps) == k
    ensures withPath[k].distance.Fin? ==>
      var best := LinkRoute(conns, table, withPath, rank, via, boss, ConnWeight, PosInf, k);
      && withPath[k].distance == Fin(RouteCost(conns, best, ConnWeight))
      && forall steps :: IsRoute(conns, boss, steps) && RouteEnd(conns, boss, steps) == k ==>
           RouteCost(conns, best, ConnWeight) <= RouteCost(conns, steps, ConnWeight)
  {
    if withPath[k].distance.Fin? {
      var best := LinkRoute(conns, table, withPath, rank, via, boss, ConnWeight, PosInf, k);
      forall steps | IsRoute(conns, boss, steps) && RouteEnd(conns, boss, steps) == k
        ensures RouteCost(conns, best, ConnWeight) <= RouteCost(conns, steps, ConnWeight)
      {
        NoShorterRoute(conns, withPath, boss, steps);
      }
    } else {
      assert withPath[k].distance == PosInf by {
        assert Linked(conns, table, withPath, rank, via, boss, ConnWeight, PosInf, k);
      }
      forall steps | IsRoute(conns, boss, steps) && RouteEnd(conns, boss, steps) == k
        ensures false
      {
        NoShorterRoute(conns, withPath, boss, steps);
      }
    }
  }
}

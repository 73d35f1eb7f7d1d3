/**
 * What the two label-setting loops (`calculateDistanceToBoss` in dungeon/graph.ts
 * and `findHighestTreasureRoute` in dungeon/treasure.ts) have in common: the node
 * map they relabel, the rank in which nodes leave the remaining list, the
 * predecessor links an update writes, and the connection whose path an update
 * reverses in place.
 */
module Labelling {
  import opened Wrappers
  import opened Tiles
  import opened Sorting
  import opened Labels
  import opened Scanner
  import opened Graph
  import opened Walks

  /** `remainingNodes.findIndex(...)`: the first index holding `x`, or -1. */
  function IndexOf(s: seq<Pos>, x: Pos): (i: int)
    ensures -1 <= i < |s|
    ensures i >= 0 ==> s[i] == x && x !in s[..i]
    ensures i < 0 <==> x !in s
  {
    if s == [] then -1
    else if s[0] == x then 0
    else var j := IndexOf(s[1..], x); if j < 0 then -1 else assert s[1..][..j] == s[1..j + 1]; j + 1
  }

  /** The sort key of a node position under the current labels. */
  function LabelOf(w: NodeMap): Pos -> Key {
    (p: Pos) => if p in w then LabelKey(w[p].distance) else Key(0, 0)
  }

  /** The solver keeps every node, its position and its type. */
  ghost predicate SameNodes(nodes: NodeMap, w: NodeMap) {
    && w.Keys == nodes.Keys
    && forall k :: k in w ==> w[k].position == k && w[k].kind == nodes[k].kind
  }

  /** Each table entry is the original or the original with its path reversed. */
  ghost predicate ReversedOrSame(conns: ConnectionTable, cs: ConnectionTable) {
    && cs.Keys == conns.Keys
    && forall k :: k in cs ==>
         && |cs[k]| == |conns[k]|
         && forall i :: 0 <= i < |cs[k]| ==>
              cs[k][i] == conns[k][i] || cs[k][i] == conns[k][i].(path := Reverse(conns[k][i].path))
  }

  /** The nodes still to settle and the settled ones (with their settle rank) split the node set. */
  ghost predicate Partition(nodes: NodeMap, remaining: seq<Pos>, rank: map<Pos, nat>, n: nat) {
    && Distinct(remaining)
    && (forall k :: k in nodes <==> k in remaining || k in rank)
    && (forall k :: k in remaining ==> k !in rank)
    && (forall k :: k in rank ==> rank[k] < n)
    && (forall a, b :: a in rank && b in rank && a != b ==> rank[a] != rank[b])
  }

  /** The graph facts both loops rely on. */
  ghost predicate Table(nodes: NodeMap, conns: ConnectionTable) {
    && conns.Keys == nodes.Keys
    && (forall p :: p in nodes ==> nodes[p].position == p)
    && (forall p, i :: p in conns && 0 <= i < |conns[p]| ==>
          conns[p][i].position in conns && conns[p][i].position != p)
  }

  /** The weight the boss solver gives a connection. */
  function ConnWeight(c: Connection): int {
    c.weight
  }

  /**
   * The predecessor link of node `k`: a node's label is finite or still the initial
   * `unreached`; a node with a predecessor has a finite label it got, under weight
   * `wt`, from a connection of an earlier-settled node, and its path to the
   * predecessor is that connection's path, reversed in the table; a finite label
   * other than the root's always has a predecessor.
   */
  ghost predicate Linked(conns: ConnectionTable, cs: ConnectionTable, w: NodeMap, rank: map<Pos, nat>,
                         via: map<Pos, nat>, root: Pos, wt: Connection -> int, unreached: Label, k: Pos)
    requires k in w && w.Keys == conns.Keys && cs.Keys == conns.Keys
  {
    && (w[k].distance.Fin? || w[k].distance == unreached)
    && (w[k].previous.None? ==> w[k].pathToPrevious.None?)
    && (w[k].distance.Fin? && k != root ==> w[k].previous.Some?)
    && (w[k].previous.Some? ==>
          var pr := w[k].previous.value;
          && w[k].distance.Fin? && k != root
          && pr in rank && pr in w && k in via
          && (k in rank ==> rank[pr] < rank[k])
          && via[k] < |conns[pr]| && via[k] < |cs[pr]|
          && conns[pr][via[k]].position == k
          && w[k].distance == Plus(w[pr].distance, wt(conns[pr][via[k]]))
          && cs[pr][via[k]].path == Reverse(conns[pr][via[k]].path)
          && w[k].pathToPrevious == Some(cs[pr][via[k]].path))
  }

  /** Every node is linked, and the root has label 0 and no predecessor. */
  ghost predicate Chain(conns: ConnectionTable, cs: ConnectionTable, w: NodeMap, rank: map<Pos, nat>,
                        via: map<Pos, nat>, root: Pos, wt: Connection -> int, unreached: Label)
  {
    && root in w && w.Keys == conns.Keys && cs.Keys == conns.Keys
    && w[root].distance == Fin(0) && w[root].previous.None? && w[root].pathToPrevious.None?
    && forall k :: k in w ==> Linked(conns, cs, w, rank, via, root, wt, unreached, k)
  }

  /** Before any node is settled, only the root is labelled. */
  lemma OnlyRootLabelled(conns: ConnectionTable, cs: ConnectionTable, w: NodeMap, via: map<Pos, nat>,
                         root: Pos, wt: Connection -> int, unreached: Label)
    requires Chain(conns, cs, w, map[], via, root, wt, unreached)
    ensures forall k :: k in w && k != root ==> w[k].distance == unreached
  {
    forall k | k in w && k != root ensures w[k].distance == unreached {
      assert Linked(conns, cs, w, map[], via, root, wt, unreached, k);
    }
  }

  ghost predicate SettledBefore(rank: map<Pos, nat>, s: Pos, t: Pos) {
    s in rank && (t !in rank || rank[s] < rank[t])
  }

  /** The bookkeeping part of the loop invariant: `cur` is the node settled last, with rank `n - 1`. */
  ghost predicate Bookkeeping(nodes: NodeMap, conns: ConnectionTable, cs: ConnectionTable, w: NodeMap,
                              remaining: seq<Pos>, rank: map<Pos, nat>, root: Pos, n: nat, cur: Pos, j: nat)
  {
    && Table(nodes, conns)
    && SameNodes(nodes, w)
    && ReversedOrSame(conns, cs)
    && (forall k :: k in conns && k !in rank ==> cs[k] == conns[k])
    && Partition(nodes, remaining, rank, n)
    && root in nodes
    && (n == 0 <==> rank == map[])
    && (n > 0 ==> root in rank && rank[root] == 0 && cur in rank && rank[cur] == n - 1)
    && cur in conns && j <= |conns[cur]|
    && (forall i :: j <= i < |conns[cur]| ==> cs[cur][i] == conns[cur][i])
  }

  lemma DistinctPermutation(s: seq<Pos>, t: seq<Pos>)
    requires Distinct(s) && multiset(s) == multiset(t)
    ensures Distinct(t) && forall x :: x in s <==> x in t
  {
    forall x ensures x in s <==> x in t {
      assert x in s <==> x in multiset(s);
      assert x in t <==> x in multiset(t);
    }
    if !Distinct(t) {
      var i, j :| 0 <= i < j < |t| && t[i] == t[j];
      assert t == t[..j] + [t[j]] + t[j + 1..];
      assert multiset(t)[t[j]] >= 2 by {
        assert t[..j] == t[..i] + [t[i]] + t[i + 1..j];
        assert multiset(t) == multiset(t[..i]) + multiset{t[i]} + multiset(t[i + 1..j]) + multiset{t[j]} + multiset(t[j + 1..]);
      }
      DistinctCount(s, t[j]);
      assert false;
    }
  }

  lemma {:induction false} DistinctCount(s: seq<Pos>, x: Pos)
    requires Distinct(s)
    ensures multiset(s)[x] <= 1
  {
    if s != [] {
      assert s == [s[0]] + s[1..];
      assert Distinct(s[1..]);
      DistinctCount(s[1..], x);
      if s[0] == x {
        assert x !in s[1..];
        assert multiset(s[1..])[x] == 0;
      }
    }
  }

  lemma PopPartition(nodes: NodeMap, remaining: seq<Pos>, rank: map<Pos, nat>, n: nat, sorted: seq<Pos>)
    requires Partition(nodes, remaining, rank, n) && |sorted| > 0
    requires Distinct(sorted) && (forall x :: x in sorted <==> x in remaining)
    ensures Partition(nodes, sorted[1..], rank[sorted[0] := n], n + 1)
    ensures forall x :: x in sorted[1..] <==> x in remaining && x != sorted[0]
  {
    var low := sorted[0];
    var rest := sorted[1..];
    forall x ensures x in rest <==> x in remaining && x != low {
      if x in rest {
        var i :| 0 <= i < |rest| && rest[i] == x;
        assert sorted[i + 1] == x;
      }
      if x in remaining && x != low {
        var i :| 0 <= i < |sorted| && sorted[i] == x;
        assert rest[i - 1] == x;
      }
    }
  }

  /** Taking the last node of the sorted list out of the remaining ones and giving it rank `n`. */
  lemma PopLastPartition(nodes: NodeMap, remaining: seq<Pos>, rank: map<Pos, nat>, n: nat, sorted: seq<Pos>)
    requires Partition(nodes, remaining, rank, n) && |sorted| > 0
    requires Distinct(sorted) && (forall x :: x in sorted <==> x in remaining)
    ensures var last := sorted[|sorted| - 1];
      && Partition(nodes, sorted[..|sorted| - 1], rank[last := n], n + 1)
      && (forall x :: x in sorted[..|sorted| - 1] <==> x in remaining && x != last)
  {
    var last := sorted[|sorted| - 1];
    var rest := sorted[..|sorted| - 1];
    forall x ensures x in rest <==> x in remaining && x != last {
      if x in remaining && x != last {
        var i :| 0 <= i < |sorted| && sorted[i] == x;
        assert rest[i] == x;
      }
    }
  }

  lemma PopChain(conns: ConnectionTable, cs: ConnectionTable, w: NodeMap, rank: map<Pos, nat>,
                 via: map<Pos, nat>, root: Pos, wt: Connection -> int, unreached: Label, low: Pos, n: nat)
    requires Chain(conns, cs, w, rank, via, root, wt, unreached) && low !in rank
    requires forall k :: k in rank ==> rank[k] < n
    ensures Chain(conns, cs, w, rank[low := n], via, root, wt, unreached)
  {
    forall k | k in w ensures Linked(conns, cs, w, rank[low := n], via, root, wt, unreached, k) {
      assert Linked(conns, cs, w, rank, via, root, wt, unreached, k);
    }
  }

  /** The node after an update from connection `c` of `from` with label `offer`. */
  function Relabel(target: Node, offer: Label, from: Pos, c: Connection): (r: Node)
    ensures r.position == target.position && r.kind == target.kind
    ensures r.distance == offer && r.previous == Some(from)
    ensures r.pathToPrevious == Some(Reverse(c.path))
  {
    target.(distance := offer, previous := Some(from), pathToPrevious := Some(Reverse(c.path)))
  }

  /** The table after the update: the connection's path is reversed in place. */
  function Flip(cs: ConnectionTable, from: Pos, j: nat): (r: ConnectionTable)
    requires from in cs && j < |cs[from]|
    ensures r.Keys == cs.Keys && |r[from]| == |cs[from]|
    ensures r[from][j] == cs[from][j].(path := Reverse(cs[from][j].path))
    ensures forall k :: k in r && k != from ==> r[k] == cs[k]
    ensures forall i :: 0 <= i < |r[from]| && i != j ==> r[from][i] == cs[from][i]
  {
    cs[from := cs[from][j := cs[from][j].(path := Reverse(cs[from][j].path))]]
  }

  /** An update of a remaining node keeps the bookkeeping. */
  lemma UpdateBookkeeping(nodes: NodeMap, conns: ConnectionTable, cs: ConnectionTable, w: NodeMap,
                          remaining: seq<Pos>, rank: map<Pos, nat>, root: Pos, n: nat, cur: Pos, j: nat, offer: Label)
    requires Bookkeeping(nodes, conns, cs, w, remaining, rank, root, n, cur, j) && n > 0 && j < |conns[cur]|
    requires conns[cur][j].position in remaining
    ensures var t := conns[cur][j].position;
      Bookkeeping(nodes, conns, Flip(cs, cur, j), w[t := Relabel(w[t], offer, cur, conns[cur][j])],
                  remaining, rank, root, n, cur, j + 1)
  {
  }

  /** A finite update of an unsettled node keeps the links: only the target's link changes, to `cur`. */
  lemma UpdateChain(conns: ConnectionTable, cs: ConnectionTable, w: NodeMap, rank: map<Pos, nat>,
                    via: map<Pos, nat>, root: Pos, wt: Connection -> int, unreached: Label, cur: Pos, j: nat)
    requires Chain(conns, cs, w, rank, via, root, wt, unreached) && root in rank
    requires cur in rank && cur in conns && j < |conns[cur]| && j < |cs[cur]| && cs[cur][j] == conns[cur][j]
    requires conns[cur][j].position in w && conns[cur][j].position !in rank
    requires Plus(w[cur].distance, wt(conns[cur][j])).Fin?
    ensures var t := conns[cur][j].position;
      var w2 := w[t := Relabel(w[t], Plus(w[cur].distance, wt(conns[cur][j])), cur, conns[cur][j])];
      Chain(conns, Flip(cs, cur, j), w2, rank, via[t := j], root, wt, unreached)
  {
    var c := conns[cur][j];
    var t := c.position;
    var offer := Plus(w[cur].distance, wt(c));
    var cs2 := Flip(cs, cur, j);
    var w2 := w[t := Relabel(w[t], offer, cur, c)];
    var via2 := via[t := j];
    forall k | k in w2
      ensures Linked(conns, cs2, w2, rank, via2, root, wt, unreached, k)
    {
      if k != t {
        LinkKept(conns, cs, w, rank, via, root, wt, unreached, cur, j, offer, k);
      }
    }
  }

  /** The link of a node other than the target survives the update. */
  lemma LinkKept(conns: ConnectionTable, cs: ConnectionTable, w: NodeMap, rank: map<Pos, nat>,
                 via: map<Pos, nat>, root: Pos, wt: Connection -> int, unreached: Label,
                 cur: Pos, j: nat, offer: Label, k: Pos)
    requires w.Keys == conns.Keys && cs.Keys == conns.Keys
    requires cur in conns && j < |conns[cur]| && j < |cs[cur]|
    requires conns[cur][j].position in w && conns[cur][j].position !in rank
    requires k in w && k != conns[cur][j].position && Linked(conns, cs, w, rank, via, root, wt, unreached, k)
    ensures var t := conns[cur][j].position;
      Linked(conns, Flip(cs, cur, j), w[t := Relabel(w[t], offer, cur, conns[cur][j])], rank, via[t := j],
             root, wt, unreached, k)
  {
  }

  /**
   * The route the predecessor links spell out for a finite-labelled node: from the
   * root, each node's label-giving connection in turn. Its cost is the node's label.
   */
  ghost function LinkRoute(conns: ConnectionTable, cs: ConnectionTable, w: NodeMap, rank: map<Pos, nat>,
                           via: map<Pos, nat>, root: Pos, wt: Connection -> int, unreached: Label, k: Pos)
    : (steps: seq<Step>)
    requires Chain(conns, cs, w, rank, via, root, wt, unreached) && rank.Keys == w.Keys
    requires k in w && w[k].distance.Fin?
    ensures IsRoute(conns, root, steps) && RouteEnd(conns, root, steps) == k
    ensures w[k].distance == Fin(RouteCost(conns, steps, wt))
    ensures forall i :: 0 <= i < |steps| ==>
      steps[i].from in w && Target(conns, steps[i]) in w && w[Target(conns, steps[i])].previous == Some(steps[i].from)
    decreases rank[k]
  {
    if k == root then []
    else
      assert Linked(conns, cs, w, rank, via, root, wt, unreached, k);
      var pr := w[k].previous.value;
      var s := Step(pr, via[k]);
      var before := LinkRoute(conns, cs, w, rank, via, root, wt, unreached, pr);
      RouteExtend(conns, root, before, s, wt);
      before + [s]
  }
}

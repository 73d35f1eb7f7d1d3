/**
 * Routes through the connection graph: a sequence of steps, each naming a node
 * and one of its connections, every step starting where the previous one ended.
 */
module Walks {
  import opened Tiles
  import opened Scanner
  import opened Graph

  /** Connection `index` of the node at `from`. */
  datatype Step = Step(from: Pos, index: nat)

  predicate StepOk(conns: ConnectionTable, s: Step) {
    s.from in conns && s.index < |conns[s.from]|
  }

  function Target(conns: ConnectionTable, s: Step): Pos
    requires StepOk(conns, s)
  {
    conns[s.from][s.index].position
  }

  /** Every step exists and starts where the previous one ended; the first starts at `root`. */
  predicate IsRoute(conns: ConnectionTable, root: Pos, steps: seq<Step>) {
    && (forall k :: 0 <= k < |steps| ==> StepOk(conns, steps[k]))
    && (|steps| > 0 ==> steps[0].from == root)
    && (forall k :: 0 < k < |steps| ==> steps[k].from == Target(conns, steps[k - 1]))
  }

  /** Where a route ends. */
  function RouteEnd(conns: ConnectionTable, root: Pos, steps: seq<Step>): (e: Pos)
    requires IsRoute(conns, root, steps)
    ensures steps == [] ==> e == root
  {
    if steps == [] then root else Target(conns, steps[|steps| - 1])
  }

  /** The sum of the weights `wt` gives the route's connections. */
  function RouteCost(conns: ConnectionTable, steps: seq<Step>, wt: Connection -> int): int
    requires forall k :: 0 <= k < |steps| ==> StepOk(conns, steps[k])
  {
    if steps == [] then 0
    else
      var last := steps[|steps| - 1];
      assert StepOk(conns, last);
      RouteCost(conns, steps[..|steps| - 1], wt) + wt(conns[last.from][last.index])
  }

  /** Dropping the last step leaves a route, ending where the last step starts. */
  lemma RoutePrefix(conns: ConnectionTable, root: Pos, steps: seq<Step>)
    requires IsRoute(conns, root, steps) && |steps| > 0
    ensures IsRoute(conns, root, steps[..|steps| - 1])
    ensures RouteEnd(conns, root, steps[..|steps| - 1]) == steps[|steps| - 1].from
  {
  }

  /** A route extended by a step that starts at its end is a route. */
  lemma RouteExtend(conns: ConnectionTable, root: Pos, steps: seq<Step>, s: Step, wt: Connection -> int)
    requires IsRoute(conns, root, steps) && StepOk(conns, s) && s.from == RouteEnd(conns, root, steps)
    ensures IsRoute(conns, root, steps + [s])
    ensures RouteEnd(conns, root, steps + [s]) == Target(conns, s)
    ensures RouteCost(conns, steps + [s], wt) == RouteCost(conns, steps, wt) + wt(conns[s.from][s.index])
  {
    assert (steps + [s])[..|steps|] == steps;
  }
}

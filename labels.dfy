/**
 * Node labels (`CWNode.distance`): a JavaScript number that is an integer,
 * `Infinity` or `-Infinity`.
 */
module Labels {
  import opened Sorting

  datatype Label = NegInf | Fin(n: int) | PosInf

  /** `label + w` for a finite `w`: infinities absorb. */
  function Plus(a: Label, w: int): (r: Label)
    ensures r.Fin? <==> a.Fin?
    ensures a.Fin? ==> r.n - a.n == w
  {
    match a
    case Fin(n) => Fin(n + w)
    case _ => a
  }

  /** JavaScript `a < b`. */
  predicate Less(a: Label, b: Label) {
    match (a, b)
    case (Fin(x), Fin(y)) => x < y
    case (NegInf, _) => !b.NegInf?
    case (_, PosInf) => !a.PosInf?
    case _ => false
  }

  predicate LessEq(a: Label, b: Label) {
    Less(a, b) || a == b
  }

  /**
   * The sign of the comparator `a.distance - b.distance` as the sort reads it:
   * `Infinity - Infinity` and `-Infinity - -Infinity` are NaN, which the sort
   * treats as 0.
   */
  function CompareLabels(a: Label, b: Label): int {
    match (a, b)
    case (Fin(x), Fin(y)) => if x < y then -1 else if x == y then 0 else 1
    case (PosInf, PosInf) => 0
    case (NegInf, NegInf) => 0
    case (PosInf, _) => 1
    case (_, PosInf) => -1
    case (NegInf, _) => -1
    case (_, NegInf) => 1
  }

  /** The sort key of a label: the three classes in order, then the finite value. */
  function LabelKey(l: Label): Key {
    match l
    case NegInf => Key(0, 0)
    case Fin(n) => Key(1, n)
    case PosInf => Key(2, 0)
  }

  /** The comparator orders labels exactly as their keys do, so the sort is a sort by key. */
  lemma CompareIsKeyOrder(a: Label, b: Label)
    ensures CompareLabels(a, b) < 0 <==> KeyLt(LabelKey(a), LabelKey(b))
    ensures CompareLabels(a, b) == 0 <==> LabelKey(a) == LabelKey(b)
    ensures CompareLabels(a, b) < 0 <==> Less(a, b)
  {
  }

  /** Keys order labels as `<` does, and equal keys mean equal labels. */
  lemma KeyOrderIsLess(a: Label, b: Label)
    ensures KeyLe(LabelKey(a), LabelKey(b)) <==> LessEq(a, b)
    ensures KeyLt(LabelKey(a), LabelKey(b)) <==> Less(a, b)
  {
  }

  lemma LessTransitive(a: Label, b: Label, c: Label)
    ensures LessEq(a, b) && LessEq(b, c) ==> LessEq(a, c)
    ensures LessEq(a, b) && Less(b, c) ==> Less(a, c)
    ensures Less(a, b) && LessEq(b, c) ==> Less(a, c)
  {
  }
}

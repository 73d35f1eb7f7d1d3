/**
 * The "(x,y)" string keys of the node and connection maps (dungeon/graph.ts).
 * The round trip below shows that the key encoding is injective on integer
 * positions, which is why the rest of the model keys its maps by `Pos` directly.
 */
module Keys {
  import opened Wrappers
  import opened Tiles
  import opened Text

  /** `vectorToString`: the key `(x,y)`. */
  function VectorToString(v: Pos): string {
    "(" + IntToString(v.x) + "," + IntToString(v.y) + ")"
  }

  /**
   * `stringToVector`: drop the first "(" and the first ")", split on ",", read the
   * first two pieces with `Number`. `None` stands for a vector with a NaN coordinate.
   */
  function StringToVector(s: string): Option<Pos> {
    var parts := Split(ReplaceFirst(ReplaceFirst(s, '('), ')'), {','});
    var x := ParseNumber(parts[0]);
    var y := if |parts| > 1 then ParseNumber(parts[1]) else None;
    if x.Some? && y.Some? then Some(Pos(x.value, y.value)) else None
  }

  /** `vectorEquals` is coordinate-wise equality, i.e. equality of positions. */
  function VectorEquals(a: Pos, b: Pos): (r: bool)
    ensures r <==> a == b
  {
    a.x == b.x && a.y == b.y
  }

  /** Reading a key back gives the position it was made from. */
  lemma KeyRoundTrip(v: Pos)
    ensures StringToVector(VectorToString(v)) == Some(v)
  {
    var xs, ys := IntToString(v.x), IntToString(v.y);
    IntRoundTrip(v.x);
    IntRoundTrip(v.y);
    var body := xs + "," + ys;
    assert VectorToString(v) == "(" + body + ")";
    assert ReplaceFirst(VectorToString(v), '(') == body + ")";
    assert ')' !in body by {
      forall i | 0 <= i < |body| ensures body[i] != ')' {
        if i < |xs| { assert body[i] == xs[i]; }
        else if i > |xs| { assert body[i] == ys[i - |xs| - 1]; }
      }
    }
    ReplaceFirstAfter(body, ')', "");
    assert body + ")" == body + [')'] + "";
    assert ReplaceFirst(body + ")", ')') == body;
    SplitWhole(ys, {','});
    SplitAt(xs, ',', ys, {','});
    assert body == xs + [','] + ys;
  }

  /** Distinct positions have distinct keys. */
  lemma KeyInjective(a: Pos, b: Pos)
    requires VectorToString(a) == VectorToString(b)
    ensures a == b
  {
    KeyRoundTrip(a);
    KeyRoundTrip(b);
  }
}

/**
 * Tile classification from pixel colours (`cw_dungeon.ts`): an exact lookup for maps
 * drawn in Jorg's style, and a nearest-colour match for the game's own, compressed,
 * map images. A colour is a list of RGBA channels; the averaged colour of a raster
 * cell is given to the classifier as integers.
 */
module Colors {
  import opened Wrappers
  import opened Tiles
  import opened Sorting

  type Color = seq<int>

  datatype ColorError = Unidentified(colors: Color)

  // ---------------------------------------------------------------- reading pixels

  /** Where the red channel of pixel (x, y) sits in a row-major RGBA image `width` pixels wide. */
  function RedIndex(x: int, y: int, width: int): int {
    y * (width * 4) + x * 4
  }

  /** `getColorValuesForCoordinate`: the four channels of pixel (x, y). */
  function ColorValuesAt(data: seq<int>, x: int, y: int, width: int): (r: Color)
    requires 0 <= RedIndex(x, y, width) && RedIndex(x, y, width) + 3 < |data|
    ensures |r| == 4
    ensures forall c :: 0 <= c < 4 ==> r[c] == data[4 * (y * width + x) + c]
  {
    var red := RedIndex(x, y, width);
    assert red == 4 * (y * width + x);
    [data[red], data[red + 1], data[red + 2], data[red + 3]]
  }

  /** Two different pixels of one image row-major layout read four disjoint channels each. */
  lemma PixelsApart(x1: int, y1: int, x2: int, y2: int, width: int)
    requires 0 <= x1 < width && 0 <= x2 < width && 0 <= y1 && 0 <= y2
    requires (x1, y1) != (x2, y2)
    ensures RedIndex(x1, y1, width) + 4 <= RedIndex(x2, y2, width) ||
            RedIndex(x2, y2, width) + 4 <= RedIndex(x1, y1, width)
  {
    assert RedIndex(x1, y1, width) == 4 * (y1 * width + x1);
    assert RedIndex(x2, y2, width) == 4 * (y2 * width + x2);
    if y1 < y2 {
      assert y1 * width + x1 < (y1 + 1) * width <= y2 * width;
    } else if y2 < y1 {
      assert y2 * width + x2 < (y2 + 1) * width <= y1 * width;
    }
  }

  // ---------------------------------------------------------------- exact lookup

  /** `colorsToTypesJorg`, keyed by the channel list itself rather than its comma-joined text. */
  const JorgTable: seq<(Color, TileType)> := [
    ([139, 155, 180, 255], Wall),
    ([255, 255, 255, 255], Path),
    ([188, 130, 14, 255], Treasure),
    ([255, 210, 78, 255], Bonfire),
    ([161, 242, 255, 255], Fountain),
    ([247, 83, 150, 255], Monster),
    ([255, 248, 177, 255], FamousPlace),
    ([255, 84, 73, 255], Boss)
  ]

  /** The type stored under `key`, if any. */
  function Lookup(table: seq<(Color, TileType)>, key: Color): (r: Option<TileType>)
    ensures r.Some? ==> (key, r.value) in table
    ensures r.None? ==> forall i :: 0 <= i < |table| ==> table[i].0 != key
  {
    if table == [] then None
    else if table[0].0 == key then Some(table[0].1)
    else Lookup(table[1..], key)
  }

  /** `colorToTileTypeJorg`: the type of an exact table colour; any other colour is an error. */
  function ColorToTileTypeJorg(colors: Color): (r: Result<TileType, ColorError>)
    ensures r.Failure? ==> r == Failure(Unidentified(colors))
  {
    match Lookup(JorgTable, colors)
    case Some(t) => Success(t)
    case None => Failure(Unidentified(colors))
  }

  predicate KeysDistinct(table: seq<(Color, TileType)>) {
    forall i, j :: 0 <= i < j < |table| ==> table[i].0 != table[j].0
  }

  /** In a table without repeated keys, the lookup finds exactly the stored pairs. */
  lemma {:induction false} LookupExact(table: seq<(Color, TileType)>, key: Color, t: TileType)
    requires KeysDistinct(table)
    ensures Lookup(table, key) == Some(t) <==> (key, t) in table
  {
    if table != [] && table[0].0 != key {
      LookupExact(table[1..], key, t);
      if (key, t) in table {
        var i :| 0 <= i < |table| && table[i] == (key, t);
        assert table[1..][i - 1] == (key, t);
      }
    } else if table != [] && (key, t) in table {
      var i :| 0 <= i < |table| && table[i] == (key, t);
      assert i == 0;
    }
  }

  /** A colour is identified exactly when it is one of the eight table colours, and then as that entry's type. */
  lemma JorgExact(colors: Color, t: TileType)
    ensures ColorToTileTypeJorg(colors) == Success(t) <==> (colors, t) in JorgTable
  {
    assert KeysDistinct(JorgTable);
    LookupExact(JorgTable, colors, t);
  }

  // ---------------------------------------------------------------- nearest colour

  /** `colorsToTypesCW`, in the map's insertion order, which is the order its keys are visited in. */
  const CWTable: seq<(TileType, Color)> := [
    (Wall, [0, 0, 0, 255]),
    (Path, [255, 255, 255, 255]),
    (Fountain, [90, 173, 78, 255]),
    (Bonfire, [223, 169, 48, 255]),
    (Treasure, [79, 196, 127, 255]),
    (Monster, [140, 127, 204, 255]),
    (FamousPlace, [65, 69, 204, 255]),
    (Boss, [199, 76, 50, 255])
  ]

  function Abs(n: int): nat {
    if n < 0 then -n else n
  }

  /** Sum of the absolute channel differences over the first `n` channels. */
  function L1(colors: Color, compare: Color, n: nat): (d: nat)
    requires n <= |colors| && n <= |compare|
    ensures n > 0 ==> d == L1(colors, compare, n - 1) + Abs(colors[n - 1] - compare[n - 1])
  {
    if n == 0 then 0 else L1(colors, compare, n - 1) + Abs(colors[n - 1] - compare[n - 1])
  }

  /** The distance the classifier computes from `colors` to table entry `i`: over the channels of `colors`. */
  function DistanceTo(colors: Color, i: nat): nat
    requires |colors| <= 4 && i < |CWTable|
  {
    L1(colors, CWTable[i].1, |colors|)
  }

  /** Entry `i` is at least as close as every entry, and strictly closer than every earlier one. */
  predicate ClosestFirst(colors: Color, i: nat)
    requires |colors| <= 4 && i < |CWTable|
  {
    && (forall j :: 0 <= j < |CWTable| ==> DistanceTo(colors, i) <= DistanceTo(colors, j))
    && (forall j :: 0 <= j < i ==> DistanceTo(colors, i) < DistanceTo(colors, j))
  }

  /** The channel loop of `colorToTileTypeCW`. */
  method ChannelDistance(colors: Color, compare: Color) returns (distance: int)
    requires |colors| <= |compare|
    ensures distance == L1(colors, compare, |colors|)
  {
    distance := 0;
    var i := 0;
    while i < |colors|
      invariant i <= |colors|
      invariant distance == L1(colors, compare, i)
    {
      distance := distance + Abs(colors[i] - compare[i]);
      i := i + 1;
    }
  }

  /** The distance to every table colour, in table order. */
  method TableDistances(colors: Color) returns (differences: seq<(TileType, int)>)
    requires |colors| <= 4
    ensures |differences| == |CWTable|
    ensures forall j :: 0 <= j < |CWTable| ==> differences[j] == (CWTable[j].0, DistanceTo(colors, j))
  {
    differences := [];
    var k := 0;
    while k < |CWTable|
      invariant k <= |CWTable| && |differences| == k
      invariant forall j :: 0 <= j < k ==> differences[j] == (CWTable[j].0, DistanceTo(colors, j))
    {
      var distance := ChannelDistance(colors, CWTable[k].1);
      differences := differences + [(CWTable[k].0, distance)];
      k := k + 1;
    }
  }

  /**
   * `colorToTileTypeCW`: the distance to every table colour, sorted ascending by a
   * stable sort, and the type in front taken; ties go to the earlier table entry.
   */
  method ColorToTileTypeCW(colors: Color) returns (t: TileType)
    requires |colors| <= 4
    ensures exists i :: 0 <= i < |CWTable| && t == CWTable[i].0 && ClosestFirst(colors, i)
  {
    var differences := TableDistances(colors);
    t := SortByDistance(differences)[0].0;
    var i := FrontIsClosest(differences);
    FrontIsClosestEntry(colors, differences, i);
  }

  /** The stable sort by distance: `differencesToColors.sort((a, b) => a[1] - b[1])`. */
  function SortByDistance(differences: seq<(TileType, int)>): (r: seq<(TileType, int)>)
    ensures |r| == |differences|
  {
    SortBy(differences, (d: (TileType, int)) => Key(d.1, 0))
  }

  /** The stable sort by distance puts in front the first entry `i` of least distance. */
  lemma FrontIsClosest(differences: seq<(TileType, int)>) returns (i: nat)
    requires |differences| > 0
    ensures i < |differences| && SortByDistance(differences)[0] == differences[i]
    ensures forall j :: 0 <= j < |differences| ==> differences[i].1 <= differences[j].1
    ensures forall j :: 0 <= j < i ==> differences[i].1 < differences[j].1
  {
    var key := (d: (TileType, int)) => Key(d.1, 0);
    SortHead(differences, key);
    i := FirstMinIndex(differences, key);
    forall j | 0 <= j < |differences| ensures differences[i].1 <= differences[j].1 {
      assert KeyLe(key(differences[i]), key(differences[j]));
    }
    forall j | 0 <= j < i ensures differences[i].1 < differences[j].1 {
      assert KeyLt(key(differences[i]), key(differences[j]));
    }
  }

  lemma FrontIsClosestEntry(colors: Color, differences: seq<(TileType, int)>, i: nat)
    requires |colors| <= 4 && |differences| == |CWTable| && i < |CWTable|
    requires forall j :: 0 <= j < |CWTable| ==> differences[j] == (CWTable[j].0, DistanceTo(colors, j))
    requires forall j :: 0 <= j < |differences| ==> differences[i].1 <= differences[j].1
    requires forall j :: 0 <= j < i ==> differences[i].1 < differences[j].1
    ensures differences[i].0 == CWTable[i].0 && ClosestFirst(colors, i)
  {
  }

  /** Each table colour is classified as its own type: it is at distance 0, every other entry further. */
  lemma CWTableColorsAreOwn(k: nat)
    requires k < |CWTable|
    ensures ClosestFirst(CWTable[k].1, k)
    ensures forall i :: 0 <= i < |CWTable| && ClosestFirst(CWTable[k].1, i) ==> CWTable[i].0 == CWTable[k].0
  {
    var c := CWTable[k].1;
    assert DistanceTo(c, k) == 0 by { SelfDistance(c, 4); }
    forall j | 0 <= j < |CWTable| && j != k ensures DistanceTo(c, j) > 0 {
      TableColorsDiffer(k, j);
      DistanceOfDifferent(c, CWTable[j].1, 4);
    }
  }

  lemma {:induction false} SelfDistance(c: Color, n: nat)
    requires n <= |c|
    ensures L1(c, c, n) == 0
  {
    if n > 0 {
      SelfDistance(c, n - 1);
    }
  }

  /** Colours that differ in one of the first `n` channels are a positive distance apart. */
  lemma {:induction false} DistanceOfDifferent(a: Color, b: Color, n: nat)
    requires n <= |a| && n <= |b| && a[..n] != b[..n]
    ensures L1(a, b, n) > 0
  {
    if a[n - 1] == b[n - 1] {
      assert a[..n] == a[..n - 1] + [a[n - 1]];
      assert b[..n] == b[..n - 1] + [b[n - 1]];
      DistanceOfDifferent(a, b, n - 1);
    }
  }

  lemma TableColorsDiffer(k: nat, j: nat)
    requires k < |CWTable| && j < |CWTable| && k != j
    ensures CWTable[k].1[..4] != CWTable[j].1[..4]
  {
    assert CWTable[k].1[..4] == CWTable[k].1 && CWTable[j].1[..4] == CWTable[j].1;
  }
}

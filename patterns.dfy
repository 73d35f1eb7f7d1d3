/**
 * `parsePattern` (`cw_dungeon.ts`): the text a player copies from the game's "mark
 * your way on paper" message becomes a grid of tile types. The two message texts are
 * removed, the text upper-cased and trimmed, split into lines and each line into
 * characters; every line must be as long as the first, and every character must be
 * a token of the table.
 */
module Patterns {
  import opened Wrappers
  import opened Tiles
  import opened Text

  type Pattern = seq<seq<TileType>>

  datatype PatternError = NotSameWidth | UnrecognizedToken

  /** `inputToTypes`: the token table. */
  function TokenType(c: char): Option<TileType> {
    match c
    case '?' => Some(Unknown)
    case 'X' => Some(Wall)
    case '+' => Some(Wall)
    case '.' => Some(Path)
    case ' ' => Some(Path)
    case 'B' => Some(Bonfire)
    case 'F' => Some(Fountain)
    case 'T' => Some(Treasure)
    case 'P' => Some(FamousPlace)
    case 'Z' => Some(Boss)
    case 'U' => Some(FountainOrTreasure)
    case 'M' => Some(Monster)
    case 'N' => Some(NotWall)
    case _ => None
  }

  // ---------------------------------------------------------------- preparing the text

  /**
   * The two messages of the game that a copied map may still contain. Each is written as
   * a short head joined to the rest: the verifier reads the characters of a short literal
   * but not those of a long one, and `MessagesHoldO` needs the head.
   */
  const MapMessage := "You " + "stopped and tried to mark your way on paper. You got a map like this:"
  const OutOfSpaceMessage := "Unfortunately, " + "you ran out of space on a piece of paper. There's nowhere to draw some of the places you have visited"

  /** `s.replace(needle, "")` for a text pattern: drops the first occurrence of `needle`, if any. */
  function RemoveFirst(s: string, needle: string): (r: string)
    requires |needle| > 0
    ensures |r| == |s| || |r| == |s| - |needle|
    decreases |s|
  {
    if |s| < |needle| then s
    else if s[..|needle|] == needle then s[|needle|..]
    else [s[0]] + RemoveFirst(s[1..], needle)
  }

  /** A text lacking one of the needle's characters keeps every character. */
  lemma {:induction false} RemoveFirstAbsent(s: string, needle: string, c: char)
    requires |needle| > 0 && c in needle && c !in s
    ensures RemoveFirst(s, needle) == s
    decreases |s|
  {
    if |s| >= |needle| {
      assert s[..|needle|] != needle by {
        var k :| 0 <= k < |needle| && needle[k] == c;
        assert s[..|needle|][k] == s[k];
      }
      RemoveFirstAbsent(s[1..], needle, c);
      assert [s[0]] + s[1..] == s;
    }
  }

  /** The lines of the prepared text, each as its list of characters. */
  function PatternLines(input: string): seq<string> {
    var text := Trim(Upper(RemoveFirst(RemoveFirst(input, MapMessage), OutOfSpaceMessage)));
    Split(text, {'\n'})
  }

  // ---------------------------------------------------------------- the shape checks

  /** Every line is as long as the first. */
  predicate SameWidth(lines: seq<string>) {
    forall i :: 0 <= i < |lines| ==> |lines[i]| == |lines[0]|
  }

  /** Every character of every line is a token. */
  predicate AllTokens(lines: seq<string>) {
    forall i, k :: 0 <= i < |lines| && 0 <= k < |lines[i]| ==> TokenType(lines[i][k]).Some?
  }

  /** `result` is `lines` read token by token. */
  predicate ReadAs(lines: seq<string>, result: Pattern) {
    && |result| == |lines|
    && (forall i :: 0 <= i < |lines| ==> |result[i]| == |lines[i]|)
    && (forall i, k :: 0 <= i < |lines| && 0 <= k < |lines[i]| ==> TokenType(lines[i][k]) == Some(result[i][k]))
  }

  /**
   * `parsePattern`: the width check over all lines comes first, then the lines are
   * read token by token, failing at the first character outside the table.
   */
  method ParsePattern(input: string) returns (r: Result<Pattern, PatternError>)
    ensures var lines := PatternLines(input);
      && (r == Failure(NotSameWidth) <==> !SameWidth(lines))
      && (r == Failure(UnrecognizedToken) <==> SameWidth(lines) && !AllTokens(lines))
      && (r.Success? ==> ReadAs(lines, r.value))
  {
    var lines := PatternLines(input);
    r := ParseLines(lines);
  }

  /** The checks and the reading of `parsePattern`, on the split lines. */
  method ParseLines(lines: seq<string>) returns (r: Result<Pattern, PatternError>)
    requires |lines| > 0
    ensures r == Failure(NotSameWidth) <==> !SameWidth(lines)
    ensures r == Failure(UnrecognizedToken) <==> SameWidth(lines) && !AllTokens(lines)
    ensures r.Success? ==> ReadAs(lines, r.value)
  {
    var width := |lines[0]|;
    var i := 0;
    while i < |lines|
      invariant i <= |lines|
      invariant forall j :: 0 <= j < i ==> |lines[j]| == width
    {
      if |lines[i]| != width {
        return Failure(NotSameWidth);
      }
      i := i + 1;
    }
    var result: Pattern := [];
    i := 0;
    while i < |lines|
      invariant i <= |lines| && |result| == i
      invariant ReadAs(lines[..i], result)
      invariant AllTokens(lines[..i])
    {
      var row := ReadLine(lines[i]);
      if row.None? {
        NotAllTokens(lines, i);
        return Failure(UnrecognizedToken);
      }
      ReadOneMore(lines, i, result, row.value);
      result := result + [row.value];
      i := i + 1;
    }
    assert lines[..i] == lines;
    r := Success(result);
  }

  lemma ReadOneMore(lines: seq<string>, i: nat, result: Pattern, row: seq<TileType>)
    requires i < |lines| && ReadAs(lines[..i], result) && AllTokens(lines[..i])
    requires |row| == |lines[i]| && forall k :: 0 <= k < |row| ==> TokenType(lines[i][k]) == Some(row[k])
    ensures ReadAs(lines[..i + 1], result + [row]) && AllTokens(lines[..i + 1])
  {
    assert lines[..i + 1] == lines[..i] + [lines[i]];
  }

  /** One line, character by character; `None` at the first character that is not a token. */
  method ReadLine(line: string) returns (row: Option<seq<TileType>>)
    ensures row.None? <==> exists k :: 0 <= k < |line| && TokenType(line[k]).None?
    ensures row.Some? ==> |row.value| == |line|
    ensures row.Some? ==> forall k :: 0 <= k < |line| ==> TokenType(line[k]) == Some(row.value[k])
  {
    var tiles: seq<TileType> := [];
    var k := 0;
    while k < |line|
      invariant k <= |line| && |tiles| == k
      invariant forall j :: 0 <= j < k ==> TokenType(line[j]) == Some(tiles[j])
    {
      var t := TokenType(line[k]);
      if t.None? {
        return None;
      }
      tiles := tiles + [t.value];
      k := k + 1;
    }
    return Some(tiles);
  }

  lemma NotAllTokens(lines: seq<string>, i: nat)
    requires i < |lines| && exists k :: 0 <= k < |lines[i]| && TokenType(lines[i][k]).None?
    ensures !AllTokens(lines)
  {
  }

  // ---------------------------------------------------------------- the table and a round trip

  /** 'X' and '+' both stand for a wall, '.' and ' ' both for a path. */
  lemma Synonyms()
    ensures TokenType('X') == TokenType('+') == Some(Wall)
    ensures TokenType('.') == TokenType(' ') == Some(Path)
    ensures forall c :: TokenType(c) == Some(Wall) ==> c == 'X' || c == '+'
    ensures forall c :: TokenType(c) == Some(Path) ==> c == '.' || c == ' '
  {
  }

  /** The canonical token of each pattern tile type. */
  function TokenOf(t: TileType): (c: char)
    ensures TokenType(c) == Some(t)
  {
    match t
    case Unknown => '?'
    case Wall => 'X'
    case Path => '.'
    case Bonfire => 'B'
    case Fountain => 'F'
    case Treasure => 'T'
    case FamousPlace => 'P'
    case Boss => 'Z'
    case FountainOrTreasure => 'U'
    case Monster => 'M'
    case NotWall => 'N'
  }

  function RenderLine(row: seq<TileType>): (s: string)
    ensures |s| == |row| && forall k :: 0 <= k < |row| ==> s[k] == TokenOf(row[k])
  {
    if row == [] then [] else [TokenOf(row[0])] + RenderLine(row[1..])
  }

  /** A pattern written out with one canonical token per tile and one line per row. */
  function Render(p: Pattern): string
    requires |p| > 0
  {
    if |p| == 1 then RenderLine(p[0]) else RenderLine(p[0]) + "\n" + Render(p[1..])
  }

  /** The lines a rendered pattern is read from. */
  function RenderedLines(p: Pattern): (lines: seq<string>)
    ensures |lines| == |p| && forall i :: 0 <= i < |p| ==> lines[i] == RenderLine(p[i])
  {
    if p == [] then [] else [RenderLine(p[0])] + RenderedLines(p[1..])
  }

  /** The characters of a rendering: canonical tokens and line breaks. */
  predicate PlainChar(c: char) {
    || c == '\n' || c == '?' || c == 'X' || c == '.' || c == 'B' || c == 'F'
    || c == 'T' || c == 'P' || c == 'Z' || c == 'U' || c == 'M' || c == 'N'
  }

  predicate Plain(s: string) {
    forall k :: 0 <= k < |s| ==> PlainChar(s[k])
  }

  lemma {:induction false} LinePlain(row: seq<TileType>)
    ensures Plain(RenderLine(row)) && '\n' !in RenderLine(row)
  {
    var line := RenderLine(row);
    forall k | 0 <= k < |line| ensures PlainChar(line[k]) && line[k] != '\n' {
      assert line[k] == TokenOf(row[k]);
    }
  }

  lemma {:induction false} RenderPlain(p: Pattern)
    requires |p| > 0
    ensures Plain(Render(p))
  {
    LinePlain(p[0]);
    if |p| > 1 {
      RenderPlain(p[1..]);
      var line := RenderLine(p[0]);
      var r := Render(p);
      assert r == line + "\n" + Render(p[1..]);
      forall k | 0 <= k < |r| ensures PlainChar(r[k]) {
        if k < |line| {
          assert r[k] == line[k];
        } else if k > |line| {
          assert r[k] == Render(p[1..])[k - |line| - 1];
        }
      }
    }
  }

  lemma {:induction false} RenderSplit(p: Pattern)
    requires |p| > 0
    ensures Split(Render(p), {'\n'}) == RenderedLines(p)
  {
    var line := RenderLine(p[0]);
    LinePlain(p[0]);
    assert NoneOf(line, {'\n'});
    if |p| == 1 {
      SplitWhole(line, {'\n'});
    } else {
      RenderSplit(p[1..]);
      SplitAt(line, '\n', Render(p[1..]), {'\n'});
      assert RenderedLines(p) == [line] + RenderedLines(p[1..]);
    }
  }

  lemma {:induction false} RenderEnds(p: Pattern)
    requires |p| > 0 && |p[0]| > 0 && Rectangular(p)
    ensures |Render(p)| > 0
    ensures Render(p)[0] == TokenOf(p[0][0])
    ensures Render(p)[|Render(p)| - 1] == TokenOf(p[|p| - 1][|p[0]| - 1])
  {
    if |p| > 1 {
      assert |p[1]| == |p[0]|;
      assert Rectangular(p[1..]);
      RenderEnds(p[1..]);
      assert p[1..][|p[1..]| - 1] == p[|p| - 1];
    }
  }

  lemma TokenNotBreak(t: TileType)
    ensures TokenOf(t) != '\n'
  {
  }

  lemma {:induction false} UpperPlain(s: string)
    requires Plain(s)
    ensures Upper(s) == s
  {
    if s != [] {
      assert Plain(s[1..]);
      UpperPlain(s[1..]);
    }
  }

  lemma TrimPlain(s: string)
    requires |s| > 0 && s[0] !in WhiteSpace && s[|s| - 1] !in WhiteSpace
    ensures Trim(s) == s
  {
  }

  /** Both message texts hold a lower-case 'o', which no rendering does. */
  lemma MessagesHoldO()
    ensures 'o' in MapMessage && 'o' in OutOfSpaceMessage
  {
    assert MapMessage[1] == 'o' && OutOfSpaceMessage[3] == 'o';
  }

  lemma PreparedPlain(s: string, m1: string, m2: string)
    requires Plain(s) && |s| > 0 && s[0] != '\n' && s[|s| - 1] != '\n'
    requires 'o' in m1 && 'o' in m2
    ensures Trim(Upper(RemoveFirst(RemoveFirst(s, m1), m2))) == s
  {
    assert 'o' !in s;
    RemoveFirstAbsent(s, m1, 'o');
    RemoveFirstAbsent(s, m2, 'o');
    UpperPlain(s);
    assert PlainChar(s[0]) && PlainChar(s[|s| - 1]);
    TrimPlain(s);
  }

  /**
   * Rendering a rectangular pattern of at least one column and reading it back gives
   * the same lines, which pass both checks and read as the pattern itself.
   */
  lemma RenderRoundTrip(p: Pattern)
    requires |p| > 0 && |p[0]| > 0 && Rectangular(p)
    ensures PatternLines(Render(p)) == RenderedLines(p)
    ensures SameWidth(PatternLines(Render(p))) && AllTokens(PatternLines(Render(p)))
    ensures forall r :: ReadAs(PatternLines(Render(p)), r) <==> r == p
  {
    RenderLines(p);
    var lines := RenderedLines(p);
    forall r ensures ReadAs(lines, r) <==> r == p {
      ReadRendered(p, r);
    }
  }

  /** The text the pattern renders to reads back, after the page's clean-up, as its lines. */
  lemma RenderLines(p: Pattern)
    requires |p| > 0 && |p[0]| > 0 && Rectangular(p)
    ensures PatternLines(Render(p)) == RenderedLines(p)
  {
    var s := Render(p);
    RenderPlain(p);
    RenderEnds(p);
    RenderSplit(p);
    TokenNotBreak(p[0][0]);
    TokenNotBreak(p[|p| - 1][|p[0]| - 1]);
    MessagesHoldO();
    PreparedPlain(s, MapMessage, OutOfSpaceMessage);
  }

  lemma ReadRendered(p: Pattern, r: Pattern)
    ensures ReadAs(RenderedLines(p), r) <==> r == p
  {
    var lines := RenderedLines(p);
    if ReadAs(lines, r) {
      forall i | 0 <= i < |p| ensures r[i] == p[i] {
        forall k | 0 <= k < |p[i]| ensures r[i][k] == p[i][k] {
          assert lines[i][k] == TokenOf(p[i][k]);
        }
      }
    }
    if r == p {
      forall i, k | 0 <= i < |lines| && 0 <= k < |lines[i]| ensures TokenType(lines[i][k]) == Some(r[i][k]) {
        assert lines[i][k] == TokenOf(p[i][k]);
      }
    }
  }
}

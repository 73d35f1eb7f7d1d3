/**
 * The settings record of the route finder (dungeon/settings.ts): its fields,
 * the per-type weight lookup, the clamping of numeric inputs, and the filling
 * of a stored record with defaults.
 */
module Config {
  import opened Wrappers
  import opened Tiles

  datatype Weights = Weights(fountain: int, bonfire: int, monster: int)
  datatype BossSettings = BossSettings(onlyThroughBonfires: bool, weights: Weights)
  datatype Multipliers = Multipliers(monster: int, treasure: int)
  datatype TreasureSettings = TreasureSettings(fountainsOnly: bool, multipliers: Multipliers)

  datatype Settings = Settings(
    maxSteps: int,
    startResetsPath: bool,
    bossHighlighted: bool,
    startHighlighted: bool,
    scribbleLines: bool,
    boss: BossSettings,
    treasure: TreasureSettings,
    colors: seq<string>)

  const DefaultMaxSteps := 30
  /** The value a numeric input falls back to when it is not a positive number. */
  const FallbackInput := 30
  const DefaultWeights := Weights(1, 5, 3)
  const DefaultBoss := BossSettings(true, DefaultWeights)
  const DefaultMultipliers := Multipliers(1, 1)
  const DefaultTreasure := TreasureSettings(true, DefaultMultipliers)
  const DefaultColors: seq<string> := ["#d92626", "#d9d926", "#26d926", "#26d9d9", "#2626d9", "#d926d9"]

  /** `getTileWeight`: the configured weight of a fountain, bonfire or monster, 0 for any other type. */
  function TileWeight(w: Weights, t: TileType): (r: int)
    ensures t == Fountain ==> r == w.fountain
    ensures t == Bonfire ==> r == w.bonfire
    ensures t == Monster ==> r == w.monster
    ensures t !in {Fountain, Bonfire, Monster} ==> r == 0
  {
    if t == Fountain then w.fountain
    else if t == Bonfire then w.bonfire
    else if t == Monster then w.monster
    else 0
  }

  /**
   * The clamp of the numeric change handlers: `+input` (`None` when it is NaN)
   * is kept when positive and replaced by 30 otherwise.
   */
  function ClampInput(input: Option<int>): (r: int)
    ensures r > 0
    ensures input.Some? && input.value > 0 ==> r == input.value
    ensures input.None? || input.value <= 0 ==> r == FallbackInput
  {
    if input.Some? && input.value > 0 then input.value else FallbackInput
  }

  /** A settings record as read back from storage: any field may be missing. */
  datatype StoredWeights = StoredWeights(fountain: Option<int>, bonfire: Option<int>, monster: Option<int>)
  datatype StoredBoss = StoredBoss(onlyThroughBonfires: Option<bool>, weights: Option<StoredWeights>)
  datatype StoredMultipliers = StoredMultipliers(monster: Option<int>, treasure: Option<int>)
  datatype StoredTreasure = StoredTreasure(fountainsOnly: Option<bool>, multipliers: Option<StoredMultipliers>)
  datatype StoredSettings = StoredSettings(
    maxSteps: Option<int>,
    startResetsPath: Option<bool>,
    bossHighlighted: Option<bool>,
    startHighlighted: Option<bool>,
    scribbleLines: Option<bool>,
    boss: Option<StoredBoss>,
    treasure: Option<StoredTreasure>,
    colors: Option<seq<string>>)

  /** The record parsed from an absent entry (`"{}"`). */
  const NothingStored := StoredSettings(None, None, None, None, None, None, None, None)

  function Or<T>(o: Option<T>, default: T): T {
    if o.Some? then o.value else default
  }

  function FillWeights(w: Option<StoredWeights>): Weights {
    match w
    case None => DefaultWeights
    case Some(sw) => Weights(Or(sw.fountain, 1), Or(sw.bonfire, 5), Or(sw.monster, 3))
  }

  function FillBoss(b: Option<StoredBoss>): BossSettings {
    match b
    case None => DefaultBoss
    case Some(sb) => BossSettings(Or(sb.onlyThroughBonfires, true), FillWeights(sb.weights))
  }

  function FillMultipliers(m: Option<StoredMultipliers>): Multipliers {
    match m
    case None => DefaultMultipliers
    case Some(sm) => Multipliers(Or(sm.monster, 1), Or(sm.treasure, 1))
  }

  function FillTreasure(t: Option<StoredTreasure>): TreasureSettings {
    match t
    case None => DefaultTreasure
    case Some(st) => TreasureSettings(Or(st.fountainsOnly, true), FillMultipliers(st.multipliers))
  }

  /**
   * `loadSettingsFromStorage`: every present field is kept and every missing one
   * gets its default; `maxSteps` is tested for falsiness, so a stored 0 is replaced too.
   */
  function LoadSettings(stored: StoredSettings): (s: Settings)
    ensures stored.maxSteps.Some? && stored.maxSteps.value != 0 ==> s.maxSteps == stored.maxSteps.value
    ensures stored.maxSteps.None? || stored.maxSteps.value == 0 ==> s.maxSteps == DefaultMaxSteps
    ensures s.startResetsPath == (stored.startResetsPath == Some(true))
    ensures s.bossHighlighted == (stored.bossHighlighted == Some(true))
    ensures s.startHighlighted == (stored.startHighlighted == Some(true))
    ensures s.scribbleLines == (stored.scribbleLines == Some(true))
    ensures stored.boss.None? ==> s.boss == DefaultBoss
    ensures stored.boss.Some? ==> s.boss.onlyThroughBonfires == (stored.boss.value.onlyThroughBonfires != Some(false))
    ensures stored.boss.Some? && stored.boss.value.weights.Some? ==>
      var sw := stored.boss.value.weights.value;
      && (sw.fountain.Some? ==> s.boss.weights.fountain == sw.fountain.value)
      && (sw.bonfire.Some? ==> s.boss.weights.bonfire == sw.bonfire.value)
      && (sw.monster.Some? ==> s.boss.weights.monster == sw.monster.value)
      && (sw.fountain.None? ==> s.boss.weights.fountain == 1)
      && (sw.bonfire.None? ==> s.boss.weights.bonfire == 5)
      && (sw.monster.None? ==> s.boss.weights.monster == 3)
    ensures stored.boss.Some? && stored.boss.value.weights.None? ==> s.boss.weights == DefaultWeights
    ensures stored.treasure.None? ==> s.treasure == DefaultTreasure
    ensures stored.treasure.Some? ==> s.treasure.fountainsOnly == (stored.treasure.value.fountainsOnly != Some(false))
    ensures stored.treasure.Some? && stored.treasure.value.multipliers.Some? ==>
      var sm := stored.treasure.value.multipliers.value;
      && s.treasure.multipliers.monster == (if sm.monster.Some? then sm.monster.value else 1)
      && s.treasure.multipliers.treasure == (if sm.treasure.Some? then sm.treasure.value else 1)
    ensures stored.treasure.Some? && stored.treasure.value.multipliers.None? ==> s.treasure.multipliers == DefaultMultipliers
    ensures s.colors == (if stored.colors.Some? then stored.colors.value else DefaultColors)
  {
    Settings(
      if stored.maxSteps.Some? && stored.maxSteps.value != 0 then stored.maxSteps.value else DefaultMaxSteps,
      Or(stored.startResetsPath, false),
      Or(stored.bossHighlighted, false),
      Or(stored.startHighlighted, false),
      Or(stored.scribbleLines, false),
      FillBoss(stored.boss),
      FillTreasure(stored.treasure),
      Or(stored.colors, DefaultColors))
  }

  /** `JSON.stringify` of a complete settings record: every field present. */
  function Store(s: Settings): StoredSettings {
    StoredSettings(
      Some(s.maxSteps), Some(s.startResetsPath), Some(s.bossHighlighted), Some(s.startHighlighted),
      Some(s.scribbleLines),
      Some(StoredBoss(Some(s.boss.onlyThroughBonfires),
        Some(StoredWeights(Some(s.boss.weights.fountain), Some(s.boss.weights.bonfire), Some(s.boss.weights.monster))))),
      Some(StoredTreasure(Some(s.treasure.fountainsOnly),
        Some(StoredMultipliers(Some(s.treasure.multipliers.monster), Some(s.treasure.multipliers.treasure))))),
      Some(s.colors))
  }

  /** The defaults loaded when nothing is stored. */
  function Defaults(): (s: Settings)
    ensures s.maxSteps == 30 && s.boss.weights == Weights(1, 5, 3) && s.treasure.multipliers == Multipliers(1, 1)
    ensures s.boss.onlyThroughBonfires && s.treasure.fountainsOnly && |s.colors| == 6
    ensures !s.startResetsPath && !s.bossHighlighted && !s.startHighlighted && !s.scribbleLines
  {
    LoadSettings(NothingStored)
  }

  /** Saving and loading again gives back the same settings, unless `maxSteps` is the falsy 0. */
  lemma StoreLoadRoundTrip(s: Settings)
    requires s.maxSteps != 0
    ensures LoadSettings(Store(s)) == s
  {
  }

  /** Loading is idempotent: the record it writes back loads to the same settings. */
  lemma LoadIdempotent(stored: StoredSettings)
    ensures LoadSettings(Store(LoadSettings(stored))) == LoadSettings(stored)
  {
    var s := LoadSettings(stored);
    assert s.maxSteps != 0;
    StoreLoadRoundTrip(s);
  }
}

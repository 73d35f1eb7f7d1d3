module RouteFinder {
  import opened Wrappers
  import opened Tiles
  import opened Config
  import opened Graph
  import opened Routes
  import opened Dungeon

  /** The loaded maze and its boss with the tables built for them, and how the tables came about. */
  datatype Tables = Tables(maze: Grid, boss: Pos, graph: RouteGraph, ghost trace: Trace)

  /** The tables before any maze is loaded. */
  const NoTables := Tables([], Pos(-1, -1), RouteGraph(map[], [], map[], map[], map[]),
                           Trace(map[], map[], map[], map[], map[], map[], map[], map[]))

  /** The tables of a maze right after loading: resource order and freshly built connections. */
  ghost predicate JustLoaded(g: Grid, boss: Pos, disabled: set<Pos>, s: Settings, t: Tables)
    requires Framed(g)
  {
    t.maze == g && t.boss == boss && ResourceOrder(g, t.graph.order) && FreshlyBuilt(g, disabled, s, t.graph, t.trace)
  }

  /**
   * The page state of the route finder: the selected start, the settings and what
   * storage holds of them, the disabled tiles, and the step length and pending flag
   * of the recalculation gate. The maze, its tables and the stored treasure route
   * are handed to the methods that use them and handed back updated.
   */
  class Page {
    var startPosition: Pos
    var settings: Settings
    var savedSettings: StoredSettings
    var disabled: set<Pos>
    var previousStepLength: int
    var needsRecalculation: bool

    /** The stored settings are the current ones. */
    ghost predicate Valid()
      reads this`settings, this`savedSettings
    {
      settings.maxSteps != 0 && savedSettings == Store(settings)
    }

    /** Page load: the settings are read from storage, filled with defaults and written back; no maze yet. */
    constructor (stored: StoredSettings)
      ensures Valid()
      ensures settings == LoadSettings(stored)
      ensures disabled == {} && previousStepLength == 0 && !needsRecalculation && startPosition == Pos(-1, -1)
    {
      startPosition := Pos(-1, -1);
      settings := LoadSettings(stored);
      savedSettings := Store(LoadSettings(stored));
      disabled := {};
      previousStepLength, needsRecalculation := 0, false;
    }

    /** A reload reads back exactly the current settings. */
    lemma ReloadRestoresSettings()
      requires Valid()
      ensures LoadSettings(savedSettings) == settings
    {
      StoreLoadRoundTrip(settings);
    }

    /**
     * `loadMaze` followed by `initCWNodes`: an empty maze is an error that leaves the
     * tables alone; otherwise the step length is remembered, every resource tile
     * becomes a fresh node with the connections a scan finds for it, and the boss
     * solver labels the nodes from the boss.
     */
    method LoadMaze(g: Grid, boss: Pos, tb: Tables) returns (tables: Tables, r: Result<(), RouteError>)
      requires Framed(g) && (|g| > 0 ==> IsType(g, boss, Boss))
      requires Loaded(tb.maze, tb.boss, tb.graph, tb.trace)
      modifies this`previousStepLength
      ensures Loaded(tables.maze, tables.boss, tables.graph, tables.trace)
      ensures tables.maze == g && tables.graph.withTreasure == tb.graph.withTreasure
      ensures r.Failure? <==> |g| == 0
      ensures r.Failure? ==>
        r.error == MazeNotLoaded && tables == tb.(maze := g) && previousStepLength == old(previousStepLength)
      ensures r.Success? ==> previousStepLength == settings.maxSteps && JustLoaded(g, boss, disabled, settings, tables)
    {
      if |g| == 0 {
        return tb.(maze := g), Failure(MazeNotLoaded);
      }
      previousStepLength := settings.maxSteps;
      var gr, t := InitCWNodes(g, disabled, settings, boss, tb.graph.withTreasure);
      tables, r := Tables(g, boss, gr, t), Success(());
    }

    /** A click on the canvas selects the start tile. */
    method SelectStart(p: Pos)
      modifies this`startPosition
      ensures startPosition == p
    {
      startPosition := p;
    }

    /** The recalculation gate: it fires when the step length changed or a recalculation is pending, and resets both. */
    method Gate() returns (rebuild: bool)
      modifies this`previousStepLength, this`needsRecalculation
      ensures rebuild == (old(previousStepLength) != settings.maxSteps || old(needsRecalculation))
      ensures previousStepLength == settings.maxSteps && !needsRecalculation
    {
      rebuild := previousStepLength != settings.maxSteps || needsRecalculation;
      if rebuild {
        previousStepLength, needsRecalculation := settings.maxSteps, false;
      }
    }

    /**
     * `calculatePathWithNodes`: an error while no maze is loaded; otherwise the
     * recalculation gate, then a treasure run, which replaces the stored treasure
     * route, or a boss run from the selected start.
     */
    method CalculatePathWithNodes(tb: Tables, current0: TreasureRoute, treasureRun: bool)
      returns (tables: Tables, current: TreasureRoute, r: Result<Outcome, RouteError>)
      requires Loaded(tb.maze, tb.boss, tb.graph, tb.trace)
      modifies this`previousStepLength, this`needsRecalculation
      ensures Loaded(tables.maze, tables.boss, tables.graph, tables.trace)
      ensures tables.maze == tb.maze && tables.boss == tb.boss
      ensures |tb.maze| == 0 ==>
        && r == Failure(MazeNotLoaded) && tables == tb && current == current0
        && previousStepLength == old(previousStepLength) && needsRecalculation == old(needsRecalculation)
      ensures |tb.maze| > 0 ==>
        && previousStepLength == settings.maxSteps && !needsRecalculation
        && Calculated(tb.maze, tb.boss, disabled, settings, startPosition, treasureRun,
                      old(previousStepLength) != settings.maxSteps || old(needsRecalculation),
                      tb.graph, tb.trace, current0, tables.graph, tables.trace, current, r)
    {
      if |tb.maze| == 0 {
        return tb, current0, Failure(MazeNotLoaded);
      }
      var rebuild := Gate();
      var gr: RouteGraph; ghost var t: Trace;
      gr, t, current, r := Calculate(tb.maze, tb.boss, disabled, settings, startPosition, treasureRun,
                                     rebuild, tb.graph, tb.trace, current0);
      tables := Tables(tb.maze, tb.boss, gr, t);
    }

    /**
     * `disableCurrentRoute`: nothing while no treasure route is stored; otherwise the
     * monster and treasure tiles on its path and its fountain stops become disabled,
     * and a recalculation is pending.
     */
    method DisableCurrentRoute(g: Grid, current: TreasureRoute)
      modifies this`disabled, this`needsRecalculation
      ensures current.path == [] ==> disabled == old(disabled) && needsRecalculation == old(needsRecalculation)
      ensures current.path != [] ==>
        disabled == old(disabled) + RouteTiles(g, current.path, current.nodes) && needsRecalculation
    {
      if current.path == [] {
        return;
      }
      disabled := AddRouteTiles(g, disabled, current.path, current.nodes);
      needsRecalculation := true;
    }

    /** `maxStepsChange`: the clamped step length is stored and a recalculation is pending. */
    method MaxStepsChange(input: Option<int>)
      requires Valid()
      modifies this`settings, this`savedSettings, this`needsRecalculation
      ensures Valid()
      ensures settings == old(settings).(maxSteps := ClampInput(input)) && needsRecalculation
    {
      settings := settings.(maxSteps := ClampInput(input));
      savedSettings := Store(settings);
      needsRecalculation := true;
    }

    /** `fountainWeightChange`: the clamped fountain weight is stored and a recalculation is pending. */
    method FountainWeightChange(input: Option<int>)
      requires Valid()
      modifies this`settings, this`savedSettings, this`needsRecalculation
      ensures Valid()
      ensures settings == old(settings).(boss := old(settings).boss.(weights :=
                old(settings).boss.weights.(fountain := ClampInput(input))))
      ensures needsRecalculation
    {
      settings := settings.(boss := settings.boss.(weights := settings.boss.weights.(fountain := ClampInput(input))));
      savedSettings := Store(settings);
      needsRecalculation := true;
    }

    /** `bonfireWeightChange`: the clamped bonfire weight is stored and a recalculation is pending. */
    method BonfireWeightChange(input: Option<int>)
      requires Valid()
      modifies this`settings, this`savedSettings, this`needsRecalculation
      ensures Valid()
      ensures settings == old(settings).(boss := old(settings).boss.(weights :=
                old(settings).boss.weights.(bonfire := ClampInput(input))))
      ensures needsRecalculation
    {
      settings := settings.(boss := settings.boss.(weights := settings.boss.weights.(bonfire := ClampInput(input))));
      savedSettings := Store(settings);
      needsRecalculation := true;
    }

    /** `monsterWeightChange`: the clamped monster weight is stored and a recalculation is pending. */
    method MonsterWeightChange(input: Option<int>)
      requires Valid()
      modifies this`settings, this`savedSettings, this`needsRecalculation
      ensures Valid()
      ensures settings == old(settings).(boss := old(settings).boss.(weights :=
                old(settings).boss.weights.(monster := ClampInput(input))))
      ensures needsRecalculation
    {
      settings := settings.(boss := settings.boss.(weights := settings.boss.weights.(monster := ClampInput(input))));
      savedSettings := Store(settings);
      needsRecalculation := true;
    }

    /** `approachBossOnlyThroughBonfireChange`: the checkbox is stored and a recalculation is pending. */
    method OnlyThroughBonfiresChange(checked: bool)
      requires Valid()
      modifies this`settings, this`savedSettings, this`needsRecalculation
      ensures Valid()
      ensures settings == old(settings).(boss := old(settings).boss.(onlyThroughBonfires := checked))
      ensures needsRecalculation
    {
      settings := settings.(boss := settings.boss.(onlyThroughBonfires := checked));
      savedSettings := Store(settings);
      needsRecalculation := true;
    }

    /** `startResetsPathChange`: the checkbox is stored; the tables are not affected. */
    method StartResetsPathChange(checked: bool)
      requires Valid()
      modifies this`settings, this`savedSettings
      ensures Valid()
      ensures settings == old(settings).(startResetsPath := checked)
    {
      settings := settings.(startResetsPath := checked);
      savedSettings := Store(settings);
    }

    /** `highlightBossChange`: the checkbox is stored; the tables are not affected. */
    method HighlightBossChange(checked: bool)
      requires Valid()
      modifies this`settings, this`savedSettings
      ensures Valid()
      ensures settings == old(settings).(bossHighlighted := checked)
    {
      settings := settings.(bossHighlighted := checked);
      savedSettings := Store(settings);
    }

    /** `highlightStartChange`: the checkbox is stored; the tables are not affected. */
    method HighlightStartChange(checked: bool)
      requires Valid()
      modifies this`settings, this`savedSettings
      ensures Valid()
      ensures settings == old(settings).(startHighlighted := checked)
    {
      settings := settings.(startHighlighted := checked);
      savedSettings := Store(settings);
    }

    /** `scribbleLinesChange`: the checkbox is stored; the tables are not affected. */
    method ScribbleLinesChange(checked: bool)
      requires Valid()
      modifies this`settings, this`savedSettings
      ensures Valid()
      ensures settings == old(settings).(scribbleLines := checked)
    {
      settings := settings.(scribbleLines := checked);
      savedSettings := Store(settings);
    }

    /**
     * `resetSettings`: the step length, the checkboxes, the boss settings and the
     * colours go back to their defaults and are stored; the treasure settings are
     * kept, and no recalculation is requested.
     */
    method ResetSettings()
      requires Valid()
      modifies this`settings, this`savedSettings
      ensures Valid()
      ensures settings == Defaults().(treasure := old(settings).treasure)
    {
      settings := Settings(DefaultMaxSteps, false, false, false, false, DefaultBoss, settings.treasure, DefaultColors);
      savedSettings := Store(settings);
    }
  }
}

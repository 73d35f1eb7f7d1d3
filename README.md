# ChatwarsTools — dungeon route finder and crafting helper, modelled in Dafny

This project models the core of two browser tools for the game Chat Wars and
proves properties of the model.

**Dungeon route finder** (`dungeon/`). A dungeon maze is read from a screenshot.
Each tile's pixel colour is classified as a tile type: wall, path, monster, treasure,
fountain, bonfire, boss and the rest. The *resource* tiles become the nodes of a
graph. For every node, a bounded depth-first scan of the maze finds the
*connections*: the walks of at most `maxSteps` steps that end at another stop.
Each connection records the monsters and treasures it passes, and a boss-run cost
of `monster weight × live monsters passed`, plus the weight of the fountain or
bonfire it ends on.

The route finder solves two problems over this graph:

* **Boss run.** The nodes are labelled outward from the boss. This is a
  Dijkstra-style relaxation that re-sorts the remaining nodes by label and pops the
  lowest. The labelled predecessors are then followed from the stop the start is
  fixed to (the selected start itself when it is a stop, otherwise a reachable
  fountain first and then the shorter path), giving the cheapest route to the boss.
* **Treasure run.** The same relaxation runs from the start, maximising the
  treasure weight and expanding only from fountains when asked to. The route to
  the best node is then walked back to the start, and its segments are numbered
  for display. Its monster and treasure tiles can be disabled so that the next run
  avoids them.

The rest of the finder:

* The page state lives in `RouteFinder.Page`: the selected start, the settings, the
  disabled tiles, and the recalculation gate made of `previousStepLength` and
  `needsRecalculation`.
* Settings are read from browser storage with per-field defaults and written back.
  The per-maze data (disabled tiles, campfire codes) is kept in storage under the
  first ten characters of the image hash. At most five mazes are kept, and the
  oldest by timestamp is evicted first.
* A pattern typed by the user (`X`/`+` wall, `.`/space path, letters for the other
  types) is parsed into a tile grid and searched for in the maze.

**Crafting helper** (`craftinghelper/`). The user lists items to craft, with
amounts and a per-row "to guild" flag. Each row is validated against the official
item list, and the helper works out the full crafting tree:

* what is taken from the player's stock and from the guild's stock;
* what must be deposited to the guild;
* what cannot be obtained;
* which intermediate items must be crafted.

Ingredient lists are merged by id and sorted with non-numeric ids first (in text
order) and numeric ids after them (by value). The "blacksmith wonders" bonus scales
an amount `n` down to ⌈n·50/(50+b)⌉. It is applied twice over: up front to every
requested item that is not bound for the guild, and again to the ingredient demand
of every item the player crafts. A guild-bound item and its ingredients use the bare
recipe amounts. A request can also be read from a URL parameter of space- or
comma-separated `id amount` pairs.

The calculation is stated on values: `Expand` splits one recipe and `Run` drains the
worklist. The source's loops are proved to compute exactly these. Lemmas then prove
that they keep the *books*:

* every amount recorded as taken from the player is what the player's stock entry lost;
* the guild's recorded withdrawals never exceed what its entries lost;
* with non-negative stocks, no entry drops below zero.

Module layout:

* Shared modules:
  * `wrappers.dfy`: Option and Result.
  * `tiles.dfy`: tile types, positions, grids and sequence helpers.
  * `text.dfy`: splitting, trimming, ASCII case and decimal numerals.
  * `sorting.dfy`: the stable sort by a two-part key that models `Array.prototype.sort` with the source's comparators.
  * `records.dfy`: insertion-ordered string-keyed objects.
* Route finder: `keys`, `labels`, `settings`, `scanner`, `graph`, `walks`, `labelling`, `boss_solver`, `treasure_solver`, `routes`, `dungeon`, `page`, `storage`, `colors`, `patterns`, `position_finder`.
* Crafting helper: `crafting_data`, `crafting_calc`.

## Model

| member | source | states |
|---|---|---|
| Keys.VectorEquals | dungeon/graph.ts:269-271 | two vectors are equal exactly when both coordinates agree |
| Keys.KeyRoundTrip | dungeon/graph.ts:260-267 | parsing the `(x,y)` map key of a vector gives the vector back |
| Keys.KeyInjective | dungeon/graph.ts:260-262 | distinct vectors have distinct map keys, so keying node maps by position loses nothing |
| Labels.Plus | dungeon/graph.ts:192 | adding a connection weight keeps a label finite or infinite, and shifts a finite label by exactly the weight |
| Labels.CompareIsKeyOrder | dungeon/graph.ts:273-275 | the node comparator `a.distance - b.distance`, with ∞−∞ = NaN treated as equal, orders labels as the key order and as `Less` |
| Labels.KeyOrderIsLess | dungeon/graph.ts:273-275 | the sort key of a label orders like the label itself, both weakly and strictly |
| Labels.LessTransitive | dungeon/graph.ts:273-275 | the label order is transitive, also mixed with its strict form |
| Sorting.Insert | dungeon/graph.ts:183 | inserting into the stable sort adds exactly one element and keeps the multiset |
| Sorting.SortBy | dungeon/graph.ts:183 | the stable sort used for `remainingNodes.sort` is a permutation |
| Sorting.SortSorted | dungeon/graph.ts:183 | the result of the sort is ordered by the key |
| Sorting.InsertSorted | dungeon/graph.ts:183 | inserting into an ordered list keeps it ordered |
| Sorting.InsertEnds | dungeon/graph.ts:183 | the first and last elements after an insertion are the expected ones, with ties kept in insertion order |
| Sorting.FirstMinIndex | dungeon/graph.ts:184 | the first position of a minimal key: no key is smaller, and all earlier keys are strictly larger |
| Sorting.LastMaxIndex | dungeon/treasure.ts:83-84 | the last position of a maximal key: no key is larger, and all later keys are strictly smaller |
| Sorting.SortHead | dungeon/graph.ts:183-184 | after the stable sort, `shift()` yields the first element with the minimal key |
| Sorting.SortLast | dungeon/treasure.ts:83-84 | after the stable sort, `pop()` yields the last element with the maximal key |
| Config.TileWeight | dungeon/settings.ts:185-190 | fountains, bonfires and monsters weigh as configured; every other tile weighs 0 |
| Config.ClampInput | dungeon/settings.ts:56-110 | a positive number typed into a settings field is kept; anything else becomes 30 |
| Config.LoadSettings | dungeon/settings.ts:124-151 | every missing field is filled with its default (steps 30; weights 1/5/3; multipliers 1/1; bonfire-only and fountains-only on; the six colours); a stored step count of 0 also becomes 30; stored values are kept |
| Config.Defaults | dungeon/settings.ts:171-181 | the reset values: 30 steps, weights 1/5/3, bonfire approach on, highlights off, six colours |
| Config.StoreLoadRoundTrip | dungeon/settings.ts:124-155 | saving settings with a non-zero step count and loading them back gives the same settings |
| Config.LoadIdempotent | dungeon/settings.ts:124-151 | loading what a load wrote back changes nothing |
| Scanner.WasHereAlready | dungeon/graph.ts:165-168 | true exactly when the position is on the path |
| Scanner.WalkCostIsProduct | dungeon/graph.ts:137-141 | the monster part of a connection's boss-run cost is the monster weight times the live monster tiles on its walk; the weight of the stop it ends on is added to it when the connection is recorded |
| Scanner.ScanSound | dungeon/graph.ts:125-162 | every connection the recursive scan returns is a walk within the step budget: it does not revisit a tile, crosses no wall, ends on a stop, and carries the contents and cost of that walk |
| Scanner.ScanComplete | dungeon/graph.ts:125-162 | every such walk is returned by the scan |
| Scanner.ScanExactly | dungeon/graph.ts:125-162 | the scan returns exactly the connections of the admissible walks |
| Scanner.ScanMonotone | dungeon/graph.ts:125-162 | a larger step budget finds every connection a smaller one finds |
| Scanner.LongerAfterFirst | dungeon/graph.ts:125-162 | only the first connection returned can be the one-tile walk of the start itself |
| Graph.FreshNode | dungeon/graph.ts:51-73 | a node starts at its position with its tile type, distance +∞ and no predecessor |
| Graph.WithoutFountains | dungeon/graph.ts:112-119 | the bonfire-only filter keeps exactly the connections that do not end on a fountain |
| Graph.FindAllConnections | dungeon/graph.ts:102-122 | the node's connections are the scan's results without the walk to itself, and for the boss with bonfire-only approach none ends on a fountain |
| Graph.SpliceFountains | dungeon/graph.ts:112-119 | the in-place splice loop leaves exactly the fountain-free connections, in order |
| Graph.ConnectionShape | dungeon/graph.ts:102-122 | each connection starts at its node, ends at its target, has at least two tiles, and its target is a stop inside the maze |
| Graph.BuildGraph | dungeon/graph.ts:51-73 | every resource tile becomes a fresh node, in row-major order, with the connections found for it, and the table forms a graph over those nodes |
| Graph.RebuildConnections | dungeon/graph.ts:81-91 | the recalculation rebuilds every node's connections for the current settings and disabled tiles |
| BossSolver.CalculateDistanceToBoss | dungeon/graph.ts:174-204 | the nodes are labelled from the boss: every node is popped once, in rank order; each label is reached by following predecessors back to the boss; every connection is relaxed; with non-negative weights no connection can shorten any label |
| BossSolver.RelaxConnections | dungeon/graph.ts:187-202 | relaxing the popped node's connections keeps the labelling invariant |
| BossSolver.NoShorterRoute | dungeon/graph.ts:174-204 | no walk through the connection graph from the boss reaches a node more cheaply than the node's label |
| BossSolver.ShortestRoutes | dungeon/graph.ts:174-204 | a node has a finite label exactly when a route from the boss reaches it, and then the predecessor route costs exactly the label |
| TreasureSolver.TreasureWeight | dungeon/treasure.ts:106-109 | a connection's treasure weight is non-negative under non-negative multipliers, and 0 when it passes no monster or treasure |
| TreasureSolver.Unreached | dungeon/treasure.ts:69-72 | every node of the copy starts at distance −∞ |
| TreasureSolver.FindHighestTreasureRoute | dungeon/treasure.ts:68-104 | the treasure labelling from the start: every node popped once with the start first; predecessor links lead back to the start; only fountains expand when fountains-only is set; every connection of an expanded node was offered to its target |
| TreasureSolver.TreasureRoutes | dungeon/treasure.ts:68-104 | each reached node's label is exactly the treasure weight of its predecessor route from the start |
| Routes.FixStartingPosition | dungeon/graph.ts:234-250 | a start on a resource tile is kept; a start elsewhere moves to the best stop found (a fountain before any other stop, then the shorter path); no maze, negative coordinates, outside the maze, on a wall and nothing in reach are the error cases, each exactly when it applies |
| Routes.StartComparatorIsKeyOrder | dungeon/graph.ts:276-280 | the start comparator orders connections fountain first, then by path length |
| Routes.ClosestStart | dungeon/graph.ts:234-250 | the start moves to the target of the first best connection |
| Routes.NothingInReachMeansNoWalk | dungeon/graph.ts:234-250 | the start fails with nothing in reach exactly when no admissible walk from it ends on a stop |
| Routes.FindPathFromNodes | dungeon/graph.ts:208-231 | from the fixed start, the route follows predecessors to the boss; its path is the joined connection paths, from the start tile to the boss; errors of the start fix are passed on |
| Routes.WalkToBoss | dungeon/graph.ts:214-229 | the walk loop visits exactly the predecessor chain of the first node, ends at the boss, and joins the connection paths |
| Routes.BossRouteIsLinkRoute | dungeon/graph.ts:208-231 | the boss route's stops, read backwards, are a route through the connection graph whose cost is the first node's label |
| Routes.HighestNode | dungeon/treasure.ts:123-130 | picks the first node, in map order, with the highest treasure label |
| Routes.FindTreasureRoute | dungeon/treasure.ts:113-156 | the shown route starts from the highest node and follows predecessors to the start, reversed for display, with segments numbered from 0 |
| Routes.WalkToStart | dungeon/treasure.ts:135-149 | the back-walk collects exactly the predecessor chain, and numbers its segments from 1 |
| Routes.NumberSegments | dungeon/treasure.ts:151-155 | reversing the route renumbers its segments from 0 along the reversed order |
| Dungeon.AddRouteTiles | dungeon/treasure.ts:158-173 | the disabled set grows by exactly the monster and treasure tiles on the route's path and its fountain stops |
| Dungeon.InitCWNodes | dungeon/graph.ts:51-73 | loading builds the node map and table, and the boss labelling, for the loaded maze |
| Dungeon.Rebuild | dungeon/graph.ts:82-85 | the recalculation branch rebuilds every node's connections for the current settings and leaves the labels as they were |
| Dungeon.Resolve | dungeon/graph.ts:87-89 | on a boss run the rebuilt table is relabelled from the boss, and the treasure labels are left alone |
| Dungeon.PathToBoss | dungeon/graph.ts:96-98 | a boss run answers with the route of `findPathFromNodes` over the current labelling |
| Dungeon.TreasureRun | dungeon/graph.ts:93-96 | a treasure run reverses the table, labels from the fixed start and returns the route to the best node; an invalid start is reported |
| Dungeon.Calculate | dungeon/graph.ts:80-98 | when the gate fires, the connections are rebuilt and, on a boss run only, the boss labels recomputed; then a treasure run or a boss run, with the tables kept consistent with the maze |
| Dungeon.FreshTableAvoidsBoss | dungeon/graph.ts:102-122 | no connection of a freshly scanned table ends on the boss, so the boss is only ever the root |
| RouteFinder.Page.constructor | dungeon/settings.ts:121-151 | page load: settings are loaded with defaults and written back; nothing disabled, no start selected |
| RouteFinder.Page.ReloadRestoresSettings | dungeon/settings.ts:124-155 | what storage holds reloads as the current settings |
| RouteFinder.Page.LoadMaze | dungeon/cw_dungeon.ts:111-123 | an empty maze is an error; otherwise the step length is remembered and the graph is built afresh |
| RouteFinder.Page.SelectStart | dungeon/ui.ts:26-31 | a click selects the start tile |
| RouteFinder.Page.Gate | dungeon/graph.ts:81-91 | the gate fires when the step length changed or a recalculation is pending, and resets both |
| RouteFinder.Page.CalculatePathWithNodes | dungeon/graph.ts:76-99 | no maze is an error that changes nothing; otherwise the gate and then a treasure or boss run |
| RouteFinder.Page.DisableCurrentRoute | dungeon/treasure.ts:158-173 | nothing without a stored route; otherwise its tiles become disabled and a recalculation is pending |
| RouteFinder.Page.MaxStepsChange | dungeon/settings.ts:56-62 | the clamped step count is stored and a recalculation is pending |
| RouteFinder.Page.StartResetsPathChange | dungeon/settings.ts:63-68 | only the start-resets-path flag changes, and it is stored |
| RouteFinder.Page.HighlightBossChange | dungeon/settings.ts:69-75 | only the boss highlight flag changes, and it is stored |
| RouteFinder.Page.HighlightStartChange | dungeon/settings.ts:76-82 | only the start highlight flag changes, and it is stored |
| RouteFinder.Page.OnlyThroughBonfiresChange | dungeon/settings.ts:83-89 | only the bonfire-approach flag changes; it is stored and a recalculation is pending |
| RouteFinder.Page.FountainWeightChange | dungeon/settings.ts:90-96 | only the fountain weight changes, clamped; it is stored and a recalculation is pending |
| RouteFinder.Page.BonfireWeightChange | dungeon/settings.ts:97-103 | only the bonfire weight changes, clamped; it is stored and a recalculation is pending |
| RouteFinder.Page.MonsterWeightChange | dungeon/settings.ts:104-110 | only the monster weight changes, clamped; it is stored and a recalculation is pending |
| RouteFinder.Page.ScribbleLinesChange | dungeon/settings.ts:111-116 | only the scribble-lines flag changes, and it is stored |
| RouteFinder.Page.ResetSettings | dungeon/settings.ts:171-181 | everything except the treasure settings returns to its default, and is stored |
| Storage.MapKey | dungeon/storage.ts:24 | a maze is stored under the first ten characters of its hash |
| Storage.FindOldest | dungeon/storage.ts:80-88 | the scan picks the first entry with the smallest timestamp |
| Storage.OldestIsOldest | dungeon/storage.ts:80-88 | the chosen entry is stored, and no stored entry is older |
| Storage.RemoveOldMapData | dungeon/storage.ts:75-93 | at most five mazes remain; only whole entries are removed, untouched; every removed maze is no newer than every kept one |
| Storage.DeleteOldest | dungeon/storage.ts:89-90 | one eviction removes exactly the oldest entry and keeps the rest in order |
| Storage.AddDisabled | dungeon/storage.ts:37-42 | loading disabled tiles adds the new ones, in order, without duplicates |
| Storage.AddedMerges | dungeon/storage.ts:37-42 | the merged tile list is duplicate-free and holds exactly the old and the new tiles |
| Storage.SetCampfireCodes | dungeon/storage.ts:43-47 | loading campfire codes overwrites or adds each stored code |
| Storage.MergedGet | dungeon/storage.ts:43-47 | after the merge, a loaded location answers its stored code and any other location its old code |
| Storage.CopyCampfireCodes | dungeon/storage.ts:59-61 | the saved object holds exactly the current codes |
| Storage.Persistence.constructor | dungeon/storage.ts:15-16 | no maze hash, no codes and no disabled tiles |
| Storage.Persistence.Save | dungeon/storage.ts:50-65 | nothing is written without a maze hash; otherwise the maze's entry is replaced by the current tiles, codes and time, and nothing else changes |
| Storage.Persistence.LoadPersistentData | dungeon/storage.ts:20-48 | a stored entry is merged into the current data (a missing one resets it) and saved; then the object read before the save, with its oldest mazes evicted, is written back over that save |
| Storage.LoadEntry | dungeon/storage.ts:24-31 | a missing entry empties tiles and codes; a present one is merged in |
| Storage.SaveLoadRoundTrip | dungeon/storage.ts:20-65 | what is saved for a maze is what is loaded for it |
| Colors.ColorValuesAt | dungeon/cw_dungeon.ts:177-180 | the four channels of pixel (x, y) are read at `4·(y·width + x)` |
| Colors.PixelsApart | dungeon/cw_dungeon.ts:177-180 | distinct pixels of a row-major image read disjoint channel groups |
| Colors.Lookup | dungeon/cw_dungeon.ts:213-217 | a colour found in the table maps to its entry; an absent one matches no entry |
| Colors.ColorToTileTypeJorg | dungeon/cw_dungeon.ts:213-217 | an unknown colour is an error carrying that colour |
| Colors.JorgExact | dungeon/cw_dungeon.ts:186-217 | a colour is classified as a type exactly when the table lists that pair |
| Colors.ChannelDistance | dungeon/cw_dungeon.ts:228-231 | the channel loop computes the sum of absolute channel differences |
| Colors.TableDistances | dungeon/cw_dungeon.ts:225-233 | one distance per table entry, in table order |
| Colors.ColorToTileTypeCW | dungeon/cw_dungeon.ts:224-239 | the type is a table entry nearest to the colour, the first such entry on ties |
| Colors.FrontIsClosest | dungeon/cw_dungeon.ts:234-235 | after the stable sort by distance, the front is the first minimal entry |
| Colors.CWTableColorsAreOwn | dungeon/cw_dungeon.ts:197-239 | every reference colour of the table classifies as its own type |
| Patterns.ParseLines | dungeon/cw_dungeon.ts:301-349 | rows of different width and unknown characters are the errors, each exactly when it occurs; otherwise the rows read token by token |
| Patterns.ReadLine | dungeon/cw_dungeon.ts:301-315 | a row reads as tile types exactly when every character is a token |
| Patterns.ParsePattern | dungeon/cw_dungeon.ts:320-350 | the prepared input (placeholders removed, upper-cased, trimmed, split on newlines) is read as a grid of tile types, or the error says why not |
| Patterns.Synonyms | dungeon/cw_dungeon.ts:301-315 | `X` and `+` both mean wall, `.` and space both mean path, and nothing else does |
| Patterns.TokenOf | dungeon/cw_dungeon.ts:301-315 | every tile type has a token that reads back as that type |
| Patterns.RenderRoundTrip | dungeon/cw_dungeon.ts:320-350 | a pattern written out row by row parses back to exactly that pattern |
| PositionFinder.FindPosition | dungeon/cw_dungeon.ts:244-286 | a pattern under 3×3 and a missing maze are errors; otherwise every position (the top-left corner of the pattern on the maze) where the pattern fits, with unknown tiles as wildcards, is reported in scan order, and "not found" exactly when there is none |
| PositionFinder.MatchAt | dungeon/cw_dungeon.ts:259-274 | the cell test accepts a position exactly when every pattern cell fits the maze there |
| Text.SplitShape | dungeon/cw_dungeon.ts:349 | splitting gives one more piece than there are separators, and no piece holds one |
| Text.IntRoundTrip | dungeon/graph.ts:260-267 | an integer written out parses back to itself |
| CraftingData.ItemToCalcItem | craftinghelper/script.ts:321-323 | the calculation item carries the item's id, name, mana and recipe with the given amount and flag |
| CraftingData.GetItemInformation | craftinghelper/script.ts:135-140 | an id match wins, then a case-insensitive name match; not found exactly when neither exists |
| CraftingData.CompareIdsCases | craftinghelper/script.ts:142-152 | numeric ids compare by value, and a numeric id sorts after a non-numeric one |
| CraftingData.CompareIdsFlip | craftinghelper/script.ts:142-152 | the id comparator is antisymmetric |
| CraftingData.CompareIdsTransitive | craftinghelper/script.ts:142-152 | the id comparator is transitive |
| CraftingData.SortIngredientsSorted | craftinghelper/script.ts:142-152 | sorting ingredients orders them by id and is a permutation |
| CraftingData.Combine | craftinghelper/script.ts:325-336 | the merge keeps one entry per id, in first-seen order, with the summed amount |
| CraftingData.CombinedMerged | craftinghelper/script.ts:325-336 | the reference merge has the same property |
| CraftingData.CombineCalcitem | craftinghelper/script.ts:338-350 | the step merge keeps the first entry per id, in first-seen order, with the summed amount |
| CraftingData.CombinedStepsMerged | craftinghelper/script.ts:338-350 | the reference step merge has the same property |
| CraftingData.LoadFromUrl | craftinghelper/script.ts:561-581 | no parameter, an empty one or an odd number of pieces loads nothing; otherwise consecutive pieces form the `id amount` pairs |
| CraftingData.LinkRoundTrip | craftinghelper/script.ts:561-581 | pairs written as a link are read back as the same pairs |
| CraftingCalculator.Deducted | craftinghelper/script.ts:245-249 | the wonders deduction is the exact ceiling of `n·50/(50+b)` |
| CraftingCalculator.DeductedRange | craftinghelper/script.ts:245-249 | the deducted amount is between 0 and the request, and the request itself without wonders |
| CraftingCalculator.DeductUpFront | craftinghelper/script.ts:245-249 | each requested amount is replaced by its deduction, nothing else changes |
| CraftingCalculator.FindActive | craftinghelper/script.ts:260-261 | the first active stock entry with the id, or none |
| CraftingCalculator.TakeFrom | craftinghelper/script.ts:260-272 | takes what the stock holds of the item up to the need, leaves the shortfall, and covers exactly when nothing is short |
| CraftingCalculator.SplitForCraft | craftinghelper/script.ts:260-292 | for an item to craft: the player first, then the guild, then craft or report the rest; the new state is `CraftStep` of the old |
| CraftingCalculator.SplitForGuild | craftinghelper/script.js:222-268 | for an item going to the guild: the guild first, then the player's stock as a deposit, then craft or report the rest; the new state is `GuildStep` of the old |
| CraftingCalculator.CraftStepBooks | craftinghelper/script.ts:255-292 | splitting an ingredient of a player craft keeps the books: every take is recorded against the stock it came from, and with non-negative stocks no entry drops below zero |
| CraftingCalculator.GuildStepBooks | craftinghelper/script.js:224-265 | splitting an ingredient of a guild-bound item keeps the books: the guild's share is not recorded as a withdrawal, the player's share is |
| CraftingCalculator.CraftStepAccounts | craftinghelper/script.ts:255-292 | for an item the player crafts, each ingredient demand is exactly what the player's list gains plus what the guild's list gains plus the remainder, and the deposit is untouched |
| CraftingCalculator.GuildStepAccounts | craftinghelper/script.js:224-265 | for a guild-bound item, each ingredient demand is exactly what the guild's stock gives up plus what the player's list gains plus the remainder; the withdrawal list is untouched, and the deposit gains the player's share plus a crafted remainder |
| CraftingCalculator.UseRecipe | craftinghelper/script.js:222-312 | the recipe loop splits every ingredient in order (the guild branch for a guild-bound item, with the demand `Demand` gives: bare for the guild, reduced by the factor otherwise) as `Expand` does, or fails at the first ingredient that is not in the item list |
| CraftingCalculator.ExpandBooks | craftinghelper/script.js:222-312 | expanding a recipe keeps the books and adds no crafting step |
| CraftingCalculator.Worklist | craftinghelper/script.js:220-314 | the `do … while` loop pops the last item, splits its recipe, and appends it to the crafting steps unless it is bound for the guild, until the worklist is empty: its result is `Run` |
| CraftingCalculator.RunBooks | craftinghelper/script.js:220-314 | a run that succeeds keeps the books from its start to its end |
| CraftingCalculator.Tidy | craftinghelper/script.ts:297-299 | a result list is merged per id and then sorted by id |
| CraftingCalculator.CalculateNeededItems | craftinghelper/script.js:206-319 | the worklist runs from the reduced requests; an unknown ingredient is reported; otherwise each of the four lists is the worklist's list merged with `combine` and sorted by id, the crafting steps are the popped non-guild items in reverse pop order, the books balance per id, and nothing more is taken from a stock than it holds |
| CraftingCalculator.CheckRowCases | craftinghelper/script.ts:200-227 | a row is refused for an empty field, an unknown item, an item without recipe or a non-positive amount, each exactly when it applies; an accepted row carries its item, amount and flag |
| CraftingCalculator.AcceptedCount | craftinghelper/script.ts:229-233 | all rows are accepted exactly when none is refused |
| CraftingCalculator.ReadNeededItems | craftinghelper/script.ts:187-236 | a count mismatch or no rows is reported; otherwise the accepted rows in order, with "no valid entries" exactly when none is accepted and "partially failed" exactly when some are |

## Left out

- Drawing, the canvas and DOM updates, error display and `hideError`, and highlighting of bosses, fountains and bonfires (`findAndHighlightClosestFountainsAndBonfires`) are UI only and are not modelled.
- Image loading, scaling and the averaging of tile colours in `loadCWMaze` are left out. The classifiers take the pixel data or the colour as a parameter.
- The older recursive depth-first `calculatePath`/`calculatePathRecursive` and the commented-out treasure search are unused code paths.
- Hashing the image (SHA-256), `localStorage`, JSON parsing and `Date.now()` are I/O. The hash, the stored object and the time are parameters.
- Colors.ColorToTileTypeCW: the input is limited to at most four channels. An input with more channels would read `undefined` from the table entry in JavaScript.
- The Jorg colour table is keyed by the channel sequence itself rather than by its comma-joined text (`colors.toString()`); the two agree for integer channels.
- `setupColors` and the colour pickers are UI only.
- The `throw` after `colorToTileTypeCW`'s sort cannot happen with a non-empty table and is not modelled.
- Floating-point arithmetic: the wonders factor is modelled as the exact rational ceiling ⌈n·50/(50+b)⌉. IEEE rounding of `Math.ceil(n * (1 / (1 + b * 0.02)))` is not modelled.
- CraftingCalculator.CalculateNeededItems: the worklist runs on a fuel bound (`OutOfFuel` once it is spent). A cyclic recipe list, which would loop forever in the original, is therefore reported instead of diverging.
- CraftingCalculator.CalculateNeededItems: it requires a non-empty request with positive amounts, which `readNeededItems` guarantees. The `bsWonders` value is a `nat`; a negative input is not modelled.
- Recipe amounts are natural numbers. `parseInt` is modelled on decimal text: leading white space, an optional sign, the longest run of digits, and NaN when there is no digit. Its radix rules (a `0x` prefix read as hexadecimal) are not modelled.
- Name matching and sorting use ASCII case folding and code-point order in place of `toLowerCase` with Unicode and `localeCompare`.
- Patterns.ParsePattern: `toUpperCase` is modelled by ASCII upper-casing and `trim` by a fixed white-space set that lacks the Unicode space separators (U+1680, U+2000–U+200A, U+202F, U+205F, U+3000). A row holding `ß` becomes `SS` in JavaScript and fails the width check; in the model it fails the token check instead.
- The emoji replacements in `parsePattern` are modelled as removing the two placeholder messages. The other character rewrites are not modelled.
- Node labels of both runs are copied, not shared. The source's `pathToPrevious` aliases the connection's path array: the boss run stores it and reverses it in place, and a later treasure run without a rebuild reverses the table's arrays again. The next boss run's local `fullPath` then joins flipped segments; that local is unused and the drawing is undirected. The model stores a reversed copy (`Relabel`), so `Routes.FindPathFromNodes` always promises a path from the start to the boss.
- TreasureSolver.FindHighestTreasureRoute: the contract states the labelling's consistency (routes, ranks and weights), not that the chosen route is the most valuable one. The greedy maximisation is not optimal in general.
- Most dungeon members require `Framed`: a rectangular maze whose outer ring is all walls (`Scanner.Scan`, `Routes.FixStartingPosition`, `Routes.FindPathFromNodes`, `RouteFinder.Page.LoadMaze` and the rest). The source demands no such shape. It works normally on a maze with a non-wall border tile that no scan reaches within `maxSteps`, and the model does not cover that input. When a scan does reach the edge, the source reads `maze[y][x]` outside the grid and throws a TypeError; that failure is not modelled either.
- The boss run assumes the loaded maze contains a boss. A maze without one makes the source fail when it reads the boss node, and that failure is not modelled.
- CraftingCalculator.ReadNeededItems: the "to guild" flag list must be at least as long as the rows. The `.ts` version reads no flag, and the `.js` version reads it from each row.
- Only the "to guild" branch of `craftinghelper/script.js` is modelled. The rest of that file is an older build of `script.ts`.
- `loadFromUrl` filling the page rows, the `calculate()` error display and the stock text analysers (`analyseStock`, `analyseGuildStock`) are UI or input parsing outside the core.
- Console logging is left out.
- Records keep their keys in insertion order. JavaScript lists integer-like keys (such as an all-digit map key or a numeric recipe id) first, in ascending order, and the model does not.
- Config.ClampInput: a settings field is read as an optional integer. Fractional numbers, which `+this.value` would keep, are not modelled.

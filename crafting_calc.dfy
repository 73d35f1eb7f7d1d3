/**
 * The crafting calculator (`calculateNeededItems` in `craftinghelper/script.ts`, with the
 * deposit-to-guild branch of `craftinghelper/script.js`). A worklist of items to craft is
 * popped from the end; every ingredient demand of the popped item is met from the
 * player's stock, the guild's stock, a further item to craft, or marked unavailable.
 * Stock lists are working copies: only the first active entry for an id is ever used,
 * and it gives up as much of the demand as it holds.
 */
module CraftingCalculator {
  import opened Wrappers
  import opened Text
  import opened CraftingData

  // ---------------------------------------------------------------- the blacksmith factor

  /**
   * `Math.ceil(n * 1 / (1 + bsWonders * 0.02))` in exact arithmetic: `n * 50 / (50 + bsWonders)`
   * rounded up, the least integer whose multiple by `50 + bsWonders` reaches `n * 50`.
   */
  function Deducted(n: int, bsWonders: nat): (r: int)
    ensures r * (50 + bsWonders) >= n * 50
    ensures (r - 1) * (50 + bsWonders) < n * 50
  {
    var d := 50 + bsWonders;
    var q := (-(n * 50)) / d;
    assert q * d + (-(n * 50)) % d == -(n * 50);
    -q
  }

  /** The factor never raises a demand, keeps it non-negative, and is the identity without wonders. */
  lemma DeductedRange(n: nat, bsWonders: nat)
    ensures 0 <= Deducted(n, bsWonders) <= n
    ensures bsWonders == 0 ==> Deducted(n, bsWonders) == n
  {
    var r := Deducted(n, bsWonders);
    var d := 50 + bsWonders;
    CancelLess(-1, r, d);
    GrowFactor(n, d);
    CancelLess(r - 1, n, d);
    if bsWonders == 0 {
      CancelLess(n - 1, r, 50);
    }
  }

  lemma CancelLess(a: int, b: int, d: int)
    requires d > 0 && a * d < b * d
    ensures a < b
  {
  }

  lemma GrowFactor(n: nat, d: int)
    requires d >= 50
    ensures n * 50 <= n * d
  {
  }

  /** The up-front loop: every item not bound for the guild has its amount reduced by the factor. */
  method DeductUpFront(neededItems: seq<CalcItem>, bsWonders: nat) returns (r: seq<CalcItem>)
    ensures |r| == |neededItems|
    ensures forall i :: 0 <= i < |r| ==>
      r[i] == if neededItems[i].toGuild then neededItems[i]
              else neededItems[i].(amount := Deducted(neededItems[i].amount, bsWonders))
  {
    r := [];
    var i := 0;
    while i < |neededItems|
      invariant i <= |neededItems| && |r| == i
      invariant forall k :: 0 <= k < i ==>
        r[k] == if neededItems[k].toGuild then neededItems[k]
                else neededItems[k].(amount := Deducted(neededItems[k].amount, bsWonders))
    {
      var item := neededItems[i];
      if !item.toGuild {
        item := item.(amount := Deducted(item.amount, bsWonders));
      }
      r := r + [item];
      i := i + 1;
    }
  }

  // ---------------------------------------------------------------- stock entries

  /** `stock.find(el => el.id == id && el.active)`: the first active entry for `id`. */
  function FindActive(stock: seq<StockItem>, id: string): (r: Option<nat>)
    ensures r.Some? ==> r.value < |stock| && stock[r.value].id == id && stock[r.value].active
    ensures r.Some? ==> forall j :: 0 <= j < r.value ==> !(stock[j].id == id && stock[j].active)
    ensures r.None? ==> forall j :: 0 <= j < |stock| ==> !(stock[j].id == id && stock[j].active)
  {
    if stock == [] then None
    else if stock[0].id == id && stock[0].active then Some(0)
    else match FindActive(stock[1..], id)
      case None => None
      case Some(j) => Some(j + 1)
  }

  /** What the first active entry for `id` holds; nothing when there is none. */
  function Available(stock: seq<StockItem>, id: string): int {
    match FindActive(stock, id)
    case None => 0
    case Some(j) => stock[j].amount
  }

  function Min(a: int, b: int): int {
    if a <= b then a else b
  }

  /** What a take of `needed` removes: as much as the first active entry holds, up to `needed`. */
  function Taken(stock: seq<StockItem>, id: string, needed: int): int {
    match FindActive(stock, id)
    case None => 0
    case Some(j) => Min(stock[j].amount, needed)
  }

  /** The first active entry for `id` holds all of `needed`: the take ends the search. */
  predicate Covers(stock: seq<StockItem>, id: string, needed: int) {
    FindActive(stock, id).Some? && Available(stock, id) >= needed
  }

  /** The list entry a take records: one entry with the amount taken, when there was an entry to take from. */
  function Record(stock: seq<StockItem>, id: string, needed: int): seq<Ingredient> {
    if FindActive(stock, id).Some? then [Ingredient(id, Taken(stock, id, needed))] else []
  }

  /** `after` is `before` with only the first active entry for `id` possibly holding another amount. */
  predicate ChangedAt(before: seq<StockItem>, after: seq<StockItem>, id: string) {
    && |after| == |before|
    && (forall i :: 0 <= i < |before| ==> after[i].id == before[i].id && after[i].active == before[i].active)
    && (forall i :: 0 <= i < |before| && FindActive(before, id) != Some(i) ==> after[i].amount == before[i].amount)
  }

  /** A take of `needed` for `id`: the first active entry gives up `Taken`, nothing else changes. */
  predicate Took(before: seq<StockItem>, after: seq<StockItem>, id: string, needed: int) {
    && ChangedAt(before, after, id)
    && match FindActive(before, id)
       case None => after == before
       case Some(j) => after[j].amount == before[j].amount - Taken(before, id, needed)
  }

  /** The stock after a take of `needed` for `id`: the first active entry gives up what was taken. */
  function AfterTake(stock: seq<StockItem>, id: string, needed: int): seq<StockItem> {
    match FindActive(stock, id)
    case None => stock
    case Some(j) => stock[j := stock[j].(amount := stock[j].amount - Taken(stock, id, needed))]
  }

  /** What is still missing of `demand` after `stock` was searched for it. */
  function Short(stock: seq<StockItem>, id: string, demand: int): int {
    demand - Taken(stock, id, demand)
  }

  /**
   * The find-and-subtract block: subtract the demand from the first active entry; if that
   * leaves it negative, the entry is emptied and the shortfall remains to be found elsewhere.
   */
  method TakeFrom(stock: seq<StockItem>, id: string, needed: int)
    returns (stock': seq<StockItem>, taken: Option<int>, rest: int, covered: bool)
    ensures Took(stock, stock', id, needed)
    ensures taken.None? <==> FindActive(stock, id).None?
    ensures taken.Some? ==> taken.value == Taken(stock, id, needed)
    ensures rest == Short(stock, id, needed)
    ensures covered <==> Covers(stock, id, needed)
    ensures covered ==> rest == 0
    ensures stock' == AfterTake(stock, id, needed)
  {
    match FindActive(stock, id)
    case None =>
      stock', taken, rest, covered := stock, None, needed, false;
    case Some(j) =>
      var amount := stock[j].amount;
      var left := amount - needed;
      if left < 0 {
        rest := -left;
        taken := Some(amount);
        stock' := stock[j := stock[j].(amount := 0)];
        covered := false;
      } else {
        rest := 0;
        taken := Some(needed);
        stock' := stock[j := stock[j].(amount := left)];
        covered := true;
      }
  }

  /** A take never leaves the entry it used below zero. */
  lemma TookNonNegative(before: seq<StockItem>, after: seq<StockItem>, id: string, needed: int)
    requires Took(before, after, id, needed) && FindActive(before, id).Some?
    ensures after[FindActive(before, id).value].amount >= 0
  {
  }

  // ---------------------------------------------------------------- the books

  /** `cur` is `init` after takes: same entries, ids and flags; an entry that is not the first active one for its id is untouched. */
  predicate Evolved(init: seq<StockItem>, cur: seq<StockItem>) {
    && |cur| == |init|
    && (forall i :: 0 <= i < |init| ==> cur[i].id == init[i].id && cur[i].active == init[i].active)
    && (forall i :: 0 <= i < |init| && FindActive(init, init[i].id) != Some(i) ==> cur[i].amount == init[i].amount)
  }

  /** How much the first active entry for `id` lost between `init` and `cur`. */
  function Decrease(init: seq<StockItem>, cur: seq<StockItem>, id: string): int {
    match FindActive(init, id)
    case None => 0
    case Some(j) => if j < |cur| then init[j].amount - cur[j].amount else 0
  }

  predicate NonNegative(stock: seq<StockItem>) {
    forall i :: 0 <= i < |stock| ==> stock[i].amount >= 0
  }

  /** Every entry of `cur` holds between nothing and what it held in `init`. */
  predicate Bounded(init: seq<StockItem>, cur: seq<StockItem>) {
    |cur| == |init| && forall i :: 0 <= i < |init| ==> 0 <= cur[i].amount <= init[i].amount
  }

  /** Entries with the same ids and flags are searched alike. */
  lemma SameFind(a: seq<StockItem>, b: seq<StockItem>, id: string)
    requires |a| == |b| && forall i :: 0 <= i < |a| ==> a[i].id == b[i].id && a[i].active == b[i].active
    ensures FindActive(a, id) == FindActive(b, id)
  {
    match FindActive(a, id)
    case None =>
    case Some(j) =>
      assert b[j].id == id && b[j].active;
  }

  /** A take keeps the stock evolved from its start. */
  lemma EvolvedTake(init: seq<StockItem>, cur: seq<StockItem>, cur': seq<StockItem>, id: string)
    requires Evolved(init, cur) && ChangedAt(cur, cur', id)
    ensures Evolved(init, cur')
  {
    SameFind(init, cur, id);
  }

  /** A take adds what it took to the decrease of its own id, and nothing to any other. */
  lemma DecreaseTake(init: seq<StockItem>, cur: seq<StockItem>, cur': seq<StockItem>, id: string, needed: int, x: string)
    requires Evolved(init, cur) && Took(cur, cur', id, needed)
    ensures Decrease(init, cur', x) == Decrease(init, cur, x) + if x == id then Taken(cur, id, needed) else 0
  {
    SameFind(init, cur, x);
    SameFind(init, cur, id);
  }

  /** The decrease of an id in a bounded stock lies between nothing and what its entry held. */
  lemma DecreaseWithin(init: seq<StockItem>, cur: seq<StockItem>, id: string)
    requires Bounded(init, cur)
    ensures 0 <= Decrease(init, cur, id) <= Available(init, id)
  {
  }

  /** A take of a non-negative demand from a bounded stock keeps it bounded. */
  lemma BoundedTake(init: seq<StockItem>, cur: seq<StockItem>, cur': seq<StockItem>, id: string, needed: int)
    requires Bounded(init, cur) && Took(cur, cur', id, needed) && needed >= 0
    ensures Bounded(init, cur')
    ensures 0 <= Taken(cur, id, needed)
  {
  }

  /** The player's books: every amount recorded for an id is what the id's entry lost; a non-negative stock stays bounded. */
  ghost predicate PlayerBooks(init: seq<StockItem>, cur: seq<StockItem>, recorded: seq<Ingredient>) {
    && Evolved(init, cur)
    && (forall id :: AmountOf(recorded, id) == Decrease(init, cur, id))
    && (NonNegative(init) ==> Bounded(init, cur))
  }

  /** The guild's books: withdrawals recorded for an id never exceed what its entry lost. */
  ghost predicate GuildBooks(init: seq<StockItem>, cur: seq<StockItem>, recorded: seq<Ingredient>) {
    && Evolved(init, cur)
    && (NonNegative(init) ==> Bounded(init, cur) && forall id :: 0 <= AmountOf(recorded, id) <= Decrease(init, cur, id))
  }

  /** Recording a take adds to the recorded amount of its own id exactly what the take removed. */
  lemma RecordAt(recorded: seq<Ingredient>, cur: seq<StockItem>, id: string, needed: int, x: string)
    ensures AmountOf(recorded + Record(cur, id, needed), x) == AmountOf(recorded, x) + if x == id then Taken(cur, id, needed) else 0
  {
    if FindActive(cur, id).Some? {
      AmountAppend(recorded, Ingredient(id, Taken(cur, id, needed)), x);
    } else {
      assert recorded + Record(cur, id, needed) == recorded;
    }
  }

  /** A recorded take keeps the player's books. */
  lemma PlayerBooksTake(init: seq<StockItem>, cur: seq<StockItem>, cur': seq<StockItem>, recorded: seq<Ingredient>, id: string, needed: int)
    requires PlayerBooks(init, cur, recorded) && Took(cur, cur', id, needed) && needed >= 0
    ensures PlayerBooks(init, cur', recorded + Record(cur, id, needed))
  {
    EvolvedTake(init, cur, cur', id);
    if NonNegative(init) {
      BoundedTake(init, cur, cur', id, needed);
    }
    forall x ensures AmountOf(recorded + Record(cur, id, needed), x) == Decrease(init, cur', x) {
      RecordAt(recorded, cur, id, needed, x);
      DecreaseTake(init, cur, cur', id, needed, x);
    }
  }

  /** A recorded take keeps the guild's books. */
  lemma GuildBooksTake(init: seq<StockItem>, cur: seq<StockItem>, cur': seq<StockItem>, recorded: seq<Ingredient>, id: string, needed: int)
    requires GuildBooks(init, cur, recorded) && Took(cur, cur', id, needed) && needed >= 0
    ensures GuildBooks(init, cur', recorded + Record(cur, id, needed))
  {
    EvolvedTake(init, cur, cur', id);
    if NonNegative(init) {
      BoundedTake(init, cur, cur', id, needed);
      forall x ensures 0 <= AmountOf(recorded + Record(cur, id, needed), x) <= Decrease(init, cur', x) {
        RecordAt(recorded, cur, id, needed, x);
        DecreaseTake(init, cur, cur', id, needed, x);
      }
    }
  }

  /** A take that is not recorded (the guild's share of a deposit) keeps the guild's books too. */
  lemma GuildBooksSilentTake(init: seq<StockItem>, cur: seq<StockItem>, cur': seq<StockItem>, recorded: seq<Ingredient>, id: string, needed: int)
    requires GuildBooks(init, cur, recorded) && Took(cur, cur', id, needed) && needed >= 0
    ensures GuildBooks(init, cur', recorded)
  {
    EvolvedTake(init, cur, cur', id);
    if NonNegative(init) {
      BoundedTake(init, cur, cur', id, needed);
      forall x ensures 0 <= AmountOf(recorded, x) <= Decrease(init, cur', x) {
        DecreaseTake(init, cur, cur', id, needed, x);
      }
    }
  }

  // ---------------------------------------------------------------- one ingredient

  /** The calculation's working state: the stock copies, the worklist and the result lists. */
  datatype State = State(
    player: seq<StockItem>, guild: seq<StockItem>,
    needed: seq<CalcItem>,
    fromPlayer: seq<Ingredient>, fromGuild: seq<Ingredient>, notAvailable: seq<Ingredient>,
    deposit: seq<Ingredient>, toCraft: seq<CalcItem>)

  /** Everything the calculation keeps true, relative to the stock it started from. */
  ghost predicate Books(player: seq<StockItem>, guild: seq<StockItem>, s: State) {
    && PlayerBooks(player, s.player, s.fromPlayer)
    && GuildBooks(guild, s.guild, s.fromGuild)
    && (forall k :: 0 <= k < |s.needed| ==> s.needed[k].amount >= 0)
    && (forall k :: 0 <= k < |s.toCraft| ==> !s.toCraft[k].toGuild)
  }

  /** Where a remainder goes: a further item to craft when `item` has a recipe, otherwise the unavailable list. */
  function Crafts(item: OfficialItem, remainder: int): seq<CalcItem> {
    if remainder > 0 && |item.recipe| > 0 then [ItemToCalcItem(item, remainder, false)] else []
  }

  function Unavailable(item: OfficialItem, remainder: int): seq<Ingredient> {
    if remainder > 0 && |item.recipe| == 0 then [Ingredient(item.id, remainder)] else []
  }

  /**
   * The state after the guild's stock was searched for the `rest` of an ingredient the
   * player's did not cover: the withdrawal is recorded, and what is still missing is
   * crafted or marked unavailable.
   */
  function GuildRest(s: State, item: OfficialItem, rest: int): State {
    var remainder := Short(s.guild, item.id, rest);
    s.(guild := AfterTake(s.guild, item.id, rest), fromGuild := s.fromGuild + Record(s.guild, item.id, rest),
       needed := s.needed + Crafts(item, remainder), notAvailable := s.notAvailable + Unavailable(item, remainder))
  }

  /** The state after one ingredient of an item crafted by the player was split: the player's stock first, then the guild's. */
  function CraftStep(s: State, item: OfficialItem, demand: int): State {
    var s1 := s.(player := AfterTake(s.player, item.id, demand), fromPlayer := s.fromPlayer + Record(s.player, item.id, demand));
    if Covers(s.player, item.id, demand) then s1 else GuildRest(s1, item, Short(s.player, item.id, demand))
  }

  /** The remainder left after the player's stock and then the guild's were searched for `demand`. */
  function CraftRemainder(s: State, id: string, demand: int): int {
    if Covers(s.player, id, demand) then 0 else Short(s.guild, id, Short(s.player, id, demand))
  }

  /**
   * The guild's half of an ingredient of an item crafted by the player: the guild's stock
   * is searched for what the player's did not cover and the withdrawal recorded; what it
   * does not cover either is crafted or marked unavailable.
   */
  method GuildThenRest(s: State, item: OfficialItem, rest: int) returns (s': State)
    ensures s'.player == s.player && s'.fromPlayer == s.fromPlayer
    ensures Took(s.guild, s'.guild, item.id, rest) && s'.fromGuild == s.fromGuild + Record(s.guild, item.id, rest)
    ensures s'.needed == s.needed + Crafts(item, Short(s.guild, item.id, rest))
    ensures s'.notAvailable == s.notAvailable + Unavailable(item, Short(s.guild, item.id, rest))
    ensures s'.deposit == s.deposit && s'.toCraft == s.toCraft
    ensures s' == GuildRest(s, item, rest)
  {
    var guild', takenG, remainder, coveredG := TakeFrom(s.guild, item.id, rest);
    var needed, notAvailable := s.needed, s.notAvailable;
    if !coveredG && remainder > 0 {
      if |item.recipe| > 0 {
        needed := needed + [ItemToCalcItem(item, remainder, false)];
      } else {
        notAvailable := notAvailable + [Ingredient(item.id, remainder)];
      }
    }
    s' := s.(guild := guild', fromGuild := s.fromGuild + Record(s.guild, item.id, rest),
             needed := needed, notAvailable := notAvailable);
  }

  /**
   * One ingredient of an item crafted by the player: the player's stock first, then the
   * guild's, both recorded; what neither covers is crafted or marked unavailable.
   */
  method SplitForCraft(s: State, item: OfficialItem, demand: int) returns (s': State)
    ensures Took(s.player, s'.player, item.id, demand)
    ensures s'.fromPlayer == s.fromPlayer + Record(s.player, item.id, demand)
    ensures Covers(s.player, item.id, demand) ==> s'.guild == s.guild && s'.fromGuild == s.fromGuild
    ensures !Covers(s.player, item.id, demand) ==> Took(s.guild, s'.guild, item.id, Short(s.player, item.id, demand))
    ensures !Covers(s.player, item.id, demand) ==>
      s'.fromGuild == s.fromGuild + Record(s.guild, item.id, Short(s.player, item.id, demand))
    ensures s'.needed == s.needed + Crafts(item, CraftRemainder(s, item.id, demand))
    ensures s'.notAvailable == s.notAvailable + Unavailable(item, CraftRemainder(s, item.id, demand))
    ensures s'.deposit == s.deposit && s'.toCraft == s.toCraft
    ensures s' == CraftStep(s, item, demand)
  {
    var player', takenP, rest, coveredP := TakeFrom(s.player, item.id, demand);
    var s1 := s.(player := player', fromPlayer := s.fromPlayer + Record(s.player, item.id, demand));
    if coveredP {
      return s1;
    }
    s' := GuildThenRest(s1, item, rest);
  }

  /** The remainder left after the guild's stock and then the player's were searched for `demand`. */
  function GuildRemainder(s: State, id: string, demand: int): int {
    if Covers(s.guild, id, demand) then 0 else Short(s.player, id, Short(s.guild, id, demand))
  }

  /** The deposit a crafted remainder adds: the crafted amount goes to the guild as well. */
  function Deposited(item: OfficialItem, remainder: int): seq<Ingredient> {
    if remainder > 0 && |item.recipe| > 0 then [Ingredient(item.id, remainder)] else []
  }

  /**
   * The state after the player's stock was searched for the `rest` of an ingredient of an
   * item bound for the guild that the guild's stock did not cover: what is taken is
   * recorded as taken from the player and as deposited; what is still missing is crafted
   * (and deposited) or marked unavailable.
   */
  function PlayerRest(s: State, item: OfficialItem, rest: int): State {
    var remainder := Short(s.player, item.id, rest);
    s.(player := AfterTake(s.player, item.id, rest), fromPlayer := s.fromPlayer + Record(s.player, item.id, rest),
       deposit := s.deposit + Record(s.player, item.id, rest) + Deposited(item, remainder),
       needed := s.needed + Crafts(item, remainder), notAvailable := s.notAvailable + Unavailable(item, remainder))
  }

  /** The state after one ingredient of an item bound for the guild was split: the guild's stock first, silently, then the player's. */
  function GuildStep(s: State, item: OfficialItem, demand: int): State {
    var s1 := s.(guild := AfterTake(s.guild, item.id, demand));
    if Covers(s.guild, item.id, demand) then s1 else PlayerRest(s1, item, Short(s.guild, item.id, demand))
  }

  /** One ingredient of `current`'s recipe, split by the branch its guild flag selects. */
  function IngredientStep(s: State, item: OfficialItem, demand: int, toGuild: bool): State {
    if toGuild then GuildStep(s, item, demand) else CraftStep(s, item, demand)
  }

  /**
   * The player's half of an ingredient of an item bound for the guild: the player's stock
   * is searched for what the guild's did not cover, recorded both as taken from the player
   * and as deposited to the guild; what it does not cover either is crafted by the player
   * (and deposited) or marked unavailable.
   */
  method PlayerThenRest(s: State, item: OfficialItem, rest: int) returns (s': State)
    ensures s'.guild == s.guild && s'.fromGuild == s.fromGuild
    ensures Took(s.player, s'.player, item.id, rest) && s'.fromPlayer == s.fromPlayer + Record(s.player, item.id, rest)
    ensures s'.deposit == s.deposit + Record(s.player, item.id, rest) + Deposited(item, Short(s.player, item.id, rest))
    ensures s'.needed == s.needed + Crafts(item, Short(s.player, item.id, rest))
    ensures s'.notAvailable == s.notAvailable + Unavailable(item, Short(s.player, item.id, rest))
    ensures s'.toCraft == s.toCraft
    ensures s' == PlayerRest(s, item, rest)
  {
    var player', takenP, remainder, coveredP := TakeFrom(s.player, item.id, rest);
    var deposit := s.deposit + Record(s.player, item.id, rest);
    var needed, notAvailable := s.needed, s.notAvailable;
    if !coveredP && remainder > 0 {
      if |item.recipe| > 0 {
        needed := needed + [ItemToCalcItem(item, remainder, false)];
        deposit := deposit + [Ingredient(item.id, remainder)];
      } else {
        notAvailable := notAvailable + [Ingredient(item.id, remainder)];
      }
    }
    s' := s.(player := player', fromPlayer := s.fromPlayer + Record(s.player, item.id, rest),
             needed := needed, notAvailable := notAvailable, deposit := deposit);
  }

  /**
   * One ingredient of an item bound for the guild: the guild's stock first, and not
   * recorded, since it stays where it is; then the player's, recorded both as taken from
   * the player and as deposited to the guild. What neither covers is crafted by the
   * player (and deposited) or marked unavailable.
   */
  method SplitForGuild(s: State, item: OfficialItem, demand: int) returns (s': State)
    ensures Took(s.guild, s'.guild, item.id, demand) && s'.fromGuild == s.fromGuild
    ensures Covers(s.guild, item.id, demand) ==> s'.player == s.player && s'.fromPlayer == s.fromPlayer
    ensures !Covers(s.guild, item.id, demand) ==> Took(s.player, s'.player, item.id, Short(s.guild, item.id, demand))
    ensures !Covers(s.guild, item.id, demand) ==>
      s'.fromPlayer == s.fromPlayer + Record(s.player, item.id, Short(s.guild, item.id, demand))
    ensures Covers(s.guild, item.id, demand) ==> s'.deposit == s.deposit
    ensures !Covers(s.guild, item.id, demand) ==>
      s'.deposit == s.deposit + Record(s.player, item.id, Short(s.guild, item.id, demand))
                    + Deposited(item, GuildRemainder(s, item.id, demand))
    ensures s'.needed == s.needed + Crafts(item, GuildRemainder(s, item.id, demand))
    ensures s'.notAvailable == s.notAvailable + Unavailable(item, GuildRemainder(s, item.id, demand))
    ensures s'.toCraft == s.toCraft
    ensures s' == GuildStep(s, item, demand)
  {
    var guild', takenG, rest, coveredG := TakeFrom(s.guild, item.id, demand);
    var s1 := s.(guild := guild');
    if coveredG {
      return s1;
    }
    s' := PlayerThenRest(s1, item, rest);
  }

  /** What an ingredient list gained for `id` between two states of the calculation. */
  function Gain(before: seq<Ingredient>, after: seq<Ingredient>, id: string): int {
    AmountOf(after, id) - AmountOf(before, id)
  }

  /** Appending one optional entry for `id` adds its amount, or nothing. */
  lemma AppendOne(list: seq<Ingredient>, extra: seq<Ingredient>, id: string, amount: int)
    requires extra == [] || extra == [Ingredient(id, amount)]
    ensures AmountOf(list + extra, id) == AmountOf(list, id) + if extra == [] then 0 else amount
  {
    if extra == [] {
      assert list + extra == list;
    } else {
      AmountAppend(list, Ingredient(id, amount), id);
    }
  }

  /**
   * An ingredient of an item crafted by the player is accounted for in full: what the
   * player's list gains plus what the guild's list gains plus the remainder is the demand;
   * a positive remainder is crafted when the item has a recipe and is unavailable otherwise.
   */
  lemma CraftStepAccounts(s: State, item: OfficialItem, demand: int)
    ensures var t := CraftStep(s, item, demand);
      && Gain(s.fromPlayer, t.fromPlayer, item.id) + Gain(s.fromGuild, t.fromGuild, item.id)
         + CraftRemainder(s, item.id, demand) == demand
      && t.deposit == s.deposit && t.toCraft == s.toCraft
  {
    var id := item.id;
    RecordAt(s.fromPlayer, s.player, id, demand, id);
    if !Covers(s.player, id, demand) {
      RecordAt(s.fromGuild, s.guild, id, Short(s.player, id, demand), id);
    }
  }

  /**
   * An ingredient of an item bound for the guild is accounted for in full: what the guild's
   * stock gives up plus what the player's list gains plus the remainder is the demand. The
   * guild's withdrawals list gains nothing, and the deposit gains what the player gave plus
   * the remainder when it is crafted.
   */
  lemma GuildStepAccounts(s: State, item: OfficialItem, demand: int)
    requires demand >= 0
    ensures var t := GuildStep(s, item, demand);
      && Taken(s.guild, item.id, demand) + Gain(s.fromPlayer, t.fromPlayer, item.id)
         + GuildRemainder(s, item.id, demand) == demand
      && t.fromGuild == s.fromGuild
      && Gain(s.deposit, t.deposit, item.id) == Gain(s.fromPlayer, t.fromPlayer, item.id)
         + (if |item.recipe| > 0 && GuildRemainder(s, item.id, demand) > 0 then GuildRemainder(s, item.id, demand) else 0)
  {
    var id := item.id;
    if !Covers(s.guild, id, demand) {
      var rest := Short(s.guild, id, demand);
      RecordAt(s.fromPlayer, s.player, id, rest, id);
      RecordAt(s.deposit, s.player, id, rest, id);
      AppendOne(s.deposit + Record(s.player, id, rest), Deposited(item, Short(s.player, id, rest)), id, Short(s.player, id, rest));
    } else {
      assert Taken(s.guild, id, demand) == demand;
    }
  }

  /** The stock after a take is the stock the take describes. */
  lemma AfterTakeTook(stock: seq<StockItem>, id: string, needed: int)
    ensures Took(stock, AfterTake(stock, id, needed), id, needed)
  {
  }

  /** Searching the guild's stock for the rest of an ingredient keeps the books. */
  lemma GuildRestBooks(player: seq<StockItem>, guild: seq<StockItem>, s: State, item: OfficialItem, rest: int)
    requires Books(player, guild, s) && rest >= 0
    ensures Books(player, guild, GuildRest(s, item, rest)) && GuildRest(s, item, rest).toCraft == s.toCraft
  {
    AfterTakeTook(s.guild, item.id, rest);
    GuildBooksTake(guild, s.guild, AfterTake(s.guild, item.id, rest), s.fromGuild, item.id, rest);
  }

  /** Searching the player's stock for the rest of a guild-bound ingredient keeps the books. */
  lemma PlayerRestBooks(player: seq<StockItem>, guild: seq<StockItem>, s: State, item: OfficialItem, rest: int)
    requires Books(player, guild, s) && rest >= 0
    ensures Books(player, guild, PlayerRest(s, item, rest)) && PlayerRest(s, item, rest).toCraft == s.toCraft
  {
    AfterTakeTook(s.player, item.id, rest);
    PlayerBooksTake(player, s.player, AfterTake(s.player, item.id, rest), s.fromPlayer, item.id, rest);
  }

  /** Splitting an ingredient of a player craft keeps the books: whatever is taken is recorded against the stock it came from. */
  lemma CraftStepBooks(player: seq<StockItem>, guild: seq<StockItem>, s: State, item: OfficialItem, demand: int)
    requires Books(player, guild, s) && demand >= 0
    ensures Books(player, guild, CraftStep(s, item, demand)) && CraftStep(s, item, demand).toCraft == s.toCraft
  {
    AfterTakeTook(s.player, item.id, demand);
    PlayerBooksTake(player, s.player, AfterTake(s.player, item.id, demand), s.fromPlayer, item.id, demand);
    var s1 := s.(player := AfterTake(s.player, item.id, demand), fromPlayer := s.fromPlayer + Record(s.player, item.id, demand));
    if !Covers(s.player, item.id, demand) {
      GuildRestBooks(player, guild, s1, item, Short(s.player, item.id, demand));
    }
  }

  /** Splitting an ingredient of a guild-bound item keeps the books: the guild's share is not a withdrawal, the player's is recorded. */
  lemma GuildStepBooks(player: seq<StockItem>, guild: seq<StockItem>, s: State, item: OfficialItem, demand: int)
    requires Books(player, guild, s) && demand >= 0
    ensures Books(player, guild, GuildStep(s, item, demand)) && GuildStep(s, item, demand).toCraft == s.toCraft
  {
    AfterTakeTook(s.guild, item.id, demand);
    GuildBooksSilentTake(guild, s.guild, AfterTake(s.guild, item.id, demand), s.fromGuild, item.id, demand);
    var s1 := s.(guild := AfterTake(s.guild, item.id, demand));
    if !Covers(s.guild, item.id, demand) {
      PlayerRestBooks(player, guild, s1, item, Short(s.guild, item.id, demand));
    }
  }

  // ---------------------------------------------------------------- the worklist

  datatype CalcError = ItemNotFound(name: string) | OutOfFuel

  /** The demand for an ingredient used `count` times per unit: bare for the guild, reduced by the factor otherwise. */
  function Demand(current: CalcItem, count: nat, bsWonders: nat): int {
    if current.toGuild then count * current.amount else Deducted(count * current.amount, bsWonders)
  }

  lemma DemandNonNegative(current: CalcItem, count: nat, bsWonders: nat)
    requires current.amount >= 0
    ensures Demand(current, count, bsWonders) >= 0
  {
    var n: nat := count * current.amount;
    DeductedRange(n, bsWonders);
  }

  /**
   * The recipe loop on states: the ingredients of `recipe` in turn, each looked up and its
   * demand split; the first one missing from the item table stops the calculation.
   */
  function Expand(items: seq<OfficialItem>, s: State, recipe: seq<(string, nat)>, current: CalcItem, bsWonders: nat)
    : Result<State, CalcError>
    decreases |recipe|
  {
    if recipe == [] then Success(s)
    else match GetItemInformation(items, recipe[0].0)
      case None => Failure(ItemNotFound(recipe[0].0))
      case Some(item) =>
        var step := IngredientStep(s, item, Demand(current, recipe[0].1, bsWonders), current.toGuild);
        Expand(items, step, recipe[1..], current, bsWonders)
  }

  /**
   * The `for ... in currentItem.recipe` loop: every ingredient is looked up and its demand
   * split, guild stock first for an item bound for the guild; an ingredient missing from
   * the item table stops the calculation.
   */
  method UseRecipe(items: seq<OfficialItem>, s0: State, current: CalcItem, bsWonders: nat) returns (r: Result<State, CalcError>)
    ensures r.Success? ==> r.value.toCraft == s0.toCraft
    ensures r.Failure? ==> r.error.ItemNotFound? && GetItemInformation(items, r.error.name).None?
    ensures r.Failure? ==> exists k :: 0 <= k < |current.recipe| && current.recipe[k].0 == r.error.name
    ensures r == Expand(items, s0, current.recipe, current, bsWonders)
  {
    var s := s0;
    var k := 0;
    while k < |current.recipe|
      invariant k <= |current.recipe| && s.toCraft == s0.toCraft
      invariant Expand(items, s, current.recipe[k..], current, bsWonders) == Expand(items, s0, current.recipe, current, bsWonders)
    {
      assert current.recipe[k..][0] == current.recipe[k] && current.recipe[k..][1..] == current.recipe[k + 1..];
      var (name, count) := current.recipe[k];
      var demand := Demand(current, count, bsWonders);
      var found := GetItemInformation(items, name);
      if found.None? {
        return Failure(ItemNotFound(name));
      }
      if current.toGuild {
        s := SplitForGuild(s, found.value, demand);
      } else {
        s := SplitForCraft(s, found.value, demand);
      }
      k := k + 1;
    }
    assert current.recipe[k..] == [];
    return Success(s);
  }

  /** `Array.prototype.reverse`. */
  function Reversed<T>(s: seq<T>): (r: seq<T>)
    ensures |r| == |s| && forall i :: 0 <= i < |s| ==> r[i] == s[|s| - 1 - i]
  {
    if s == [] then [] else Reversed(s[1..]) + [s[0]]
  }

  /**
   * The worklist on states: pop the last item, expand its recipe, and append it to the
   * crafting steps unless it is bound for the guild; `fuel` bounds the number of pops.
   */
  function Run(items: seq<OfficialItem>, s: State, bsWonders: nat, fuel: nat): Result<State, CalcError>
    decreases fuel
  {
    if |s.needed| == 0 then Success(s)
    else if fuel == 0 then Failure(OutOfFuel)
    else match Pop(items, s, bsWonders)
      case Failure(e) => Failure(e)
      case Success(next) => Run(items, next, bsWonders, fuel - 1)
  }

  /** One round of the worklist: the last item is popped, its recipe expanded, and the item recorded as a crafting step unless it is bound for the guild. */
  function Pop(items: seq<OfficialItem>, s: State, bsWonders: nat): Result<State, CalcError>
    requires |s.needed| > 0
  {
    var current := s.needed[|s.needed| - 1];
    match Expand(items, s.(needed := s.needed[..|s.needed| - 1]), current.recipe, current, bsWonders)
    case Failure(e) => Failure(e)
    case Success(next) => Success(if current.toGuild then next else next.(toCraft := next.toCraft + [current]))
  }

  /** A requested item after the up-front loop: reduced by the factor unless it is bound for the guild. */
  function UpFront(item: CalcItem, bsWonders: nat): CalcItem {
    if item.toGuild then item else item.(amount := Deducted(item.amount, bsWonders))
  }

  /** The state the worklist starts from: the stock copies, the reduced requests, and empty lists. */
  function Start(stockItems: seq<StockItem>, guildItems: seq<StockItem>, neededItems: seq<CalcItem>, bsWonders: nat): State {
    var needed := seq(|neededItems|, i requires 0 <= i < |neededItems| => UpFront(neededItems[i], bsWonders));
    State(stockItems, guildItems, needed, [], [], [], [], [])
  }

  /** `shown` is `list` merged by id (`combine`) and then sorted by id. */
  ghost predicate Tidied(list: seq<Ingredient>, shown: seq<Ingredient>) {
    IdsSorted(shown) && exists c :: Merged(list, c) && multiset(shown) == multiset(c)
  }

  /** The lists the calculation shows: withdrawals, player stock used, unavailable ingredients, deposits and crafting steps. */
  datatype Outcome = Outcome(
    neededFromGuild: seq<Ingredient>, neededFromPlayer: seq<Ingredient>, notAvailable: seq<Ingredient>,
    depositToGuild: seq<Ingredient>, itemsToCraft: seq<CalcItem>)

  /** No entry asks for less than nothing or more than the first active stock entry for its id holds. */
  predicate WithinStock(list: seq<Ingredient>, stock: seq<StockItem>) {
    forall k :: 0 <= k < |list| ==> 0 <= list[k].amount <= Available(stock, list[k].id)
  }

  /** A result list: merged by id, then sorted. */
  method Tidy(list: seq<Ingredient>) returns (r: seq<Ingredient>)
    ensures IdsSorted(r)
    ensures exists c :: Merged(list, c) && multiset(r) == multiset(c)
    ensures Tidied(list, r)
  {
    var c := Combine(list);
    r := SortIngredients(c);
    SortIngredientsSorted(c);
  }

  /**
   * `calculateNeededItems`: pop the last item of the worklist until it is empty (the caller
   * passes at least one item), split every ingredient demand, then merge and sort the lists
   * and reverse the crafting steps. `fuel` bounds the number of items popped: a recipe that
   * (indirectly) needs itself would make the source loop forever.
   */
  method CalculateNeededItems(items: seq<OfficialItem>, stockItems: seq<StockItem>, guildItems: seq<StockItem>,
                              neededItems: seq<CalcItem>, bsWonders: nat, fuel: nat) returns (r: Result<Outcome, CalcError>)
    requires |neededItems| > 0
    requires forall i :: 0 <= i < |neededItems| ==> neededItems[i].amount > 0
    ensures r.Failure? && r.error.ItemNotFound? ==> GetItemInformation(items, r.error.name).None?
    ensures r.Success? ==> IdsSorted(r.value.neededFromGuild) && IdsSorted(r.value.neededFromPlayer)
    ensures r.Success? ==> IdsSorted(r.value.notAvailable) && IdsSorted(r.value.depositToGuild)
    ensures r.Success? ==> forall k :: 0 <= k < |r.value.itemsToCraft| ==> !r.value.itemsToCraft[k].toGuild
    ensures r.Success? && NonNegative(stockItems) ==> WithinStock(r.value.neededFromPlayer, stockItems)
    ensures r.Success? && NonNegative(guildItems) ==> WithinStock(r.value.neededFromGuild, guildItems)
    ensures r.Success? <==> Run(items, Start(stockItems, guildItems, neededItems, bsWonders), bsWonders, fuel).Success?
    ensures r.Failure? ==> r.error == Run(items, Start(stockItems, guildItems, neededItems, bsWonders), bsWonders, fuel).error
    ensures r.Success? ==>
      var final := Run(items, Start(stockItems, guildItems, neededItems, bsWonders), bsWonders, fuel).value;
      && Books(stockItems, guildItems, final) && |final.needed| == 0
      && Tidied(final.fromGuild, r.value.neededFromGuild) && Tidied(final.fromPlayer, r.value.neededFromPlayer)
      && Tidied(final.notAvailable, r.value.notAvailable) && Tidied(final.deposit, r.value.depositToGuild)
      && r.value.itemsToCraft == Reversed(final.toCraft)
  {
    var needed := DeductUpFront(neededItems, bsWonders);
    forall k | 0 <= k < |needed| ensures needed[k].amount >= 0 {
      DeductedRange(neededItems[k].amount, bsWonders);
    }
    var s0 := State(stockItems, guildItems, needed, [], [], [], [], []);
    assert s0 == Start(stockItems, guildItems, neededItems, bsWonders);
    var run := Worklist(items, s0, bsWonders, fuel);
    if run.Failure? {
      return Failure(run.error);
    }
    StartBooks(stockItems, guildItems, s0);
    RunBooks(items, stockItems, guildItems, s0, bsWonders, fuel);
    var s := run.value;
    var neededFromGuild := Tidy(s.fromGuild);
    var neededFromPlayer := Tidy(s.fromPlayer);
    var notAvailable := Tidy(s.notAvailable);
    var depositToGuild := Tidy(s.deposit);
    if NonNegative(stockItems) {
      PlayerWithin(stockItems, s.player, s.fromPlayer, neededFromPlayer);
    }
    if NonNegative(guildItems) {
      GuildWithin(guildItems, s.guild, s.fromGuild, neededFromGuild);
    }
    r := Success(Outcome(neededFromGuild, neededFromPlayer, notAvailable, depositToGuild, Reversed(s.toCraft)));
  }

  /**
   * The `do ... while (neededItems.length > 0)` loop: pop the last item, split its recipe,
   * and record it as a crafting step unless it is bound for the guild.
   */
  method Worklist(items: seq<OfficialItem>, s0: State, bsWonders: nat, fuel: nat) returns (r: Result<State, CalcError>)
    ensures r == Run(items, s0, bsWonders, fuel)
    ensures r.Success? ==> |r.value.needed| == 0
    ensures r.Failure? && r.error.ItemNotFound? ==> GetItemInformation(items, r.error.name).None?
  {
    ghost var goal := Run(items, s0, bsWonders, fuel);
    var s := s0;
    var fuelLeft := fuel;
    while |s.needed| > 0
      invariant Run(items, s, bsWonders, fuelLeft) == goal
      decreases fuelLeft
    {
      if fuelLeft == 0 {
        return Failure(OutOfFuel);
      }
      var next := PopItem(items, s, bsWonders);
      RunPop(items, s, bsWonders, fuelLeft);
      if next.Failure? {
        return Failure(next.error);
      }
      s := next.value;
      fuelLeft := fuelLeft - 1;
    }
    return Success(s);
  }

  /** `Run` with items left and fuel to spare is one `Pop` followed by the rest of the run. */
  lemma RunPop(items: seq<OfficialItem>, s: State, bsWonders: nat, fuel: nat)
    requires |s.needed| > 0 && fuel > 0
    ensures Pop(items, s, bsWonders).Failure? ==> Run(items, s, bsWonders, fuel) == Failure(Pop(items, s, bsWonders).error)
    ensures Pop(items, s, bsWonders).Success? ==>
      Run(items, s, bsWonders, fuel) == Run(items, Pop(items, s, bsWonders).value, bsWonders, fuel - 1)
  {
  }

  /** One round of the `do ... while` loop: pop the last item, split its recipe, and record it unless it is bound for the guild. */
  method PopItem(items: seq<OfficialItem>, s: State, bsWonders: nat) returns (r: Result<State, CalcError>)
    requires |s.needed| > 0
    ensures r == Pop(items, s, bsWonders)
    ensures r.Failure? ==> r.error.ItemNotFound? && GetItemInformation(items, r.error.name).None?
  {
    var current := s.needed[|s.needed| - 1];
    var popped := s.(needed := s.needed[..|s.needed| - 1]);
    var used := UseRecipe(items, popped, current, bsWonders);
    if used.Failure? {
      return Failure(used.error);
    }
    var next := used.value;
    if !current.toGuild {
      next := next.(toCraft := next.toCraft + [current]);
    }
    return Success(next);
  }

  /** Popping the last item keeps the books, and the popped item asks for a non-negative amount. */
  lemma BooksPop(player: seq<StockItem>, guild: seq<StockItem>, s: State)
    requires Books(player, guild, s) && |s.needed| > 0
    ensures Books(player, guild, s.(needed := s.needed[..|s.needed| - 1]))
    ensures s.needed[|s.needed| - 1].amount >= 0
  {
  }

  /** Recording a player craft as a crafting step keeps the books. */
  lemma BooksCraft(player: seq<StockItem>, guild: seq<StockItem>, s: State, c: CalcItem)
    requires Books(player, guild, s) && !c.toGuild
    ensures Books(player, guild, s.(toCraft := s.toCraft + [c]))
  {
  }

  /** Expanding a recipe keeps the books and adds no crafting step. */
  lemma {:induction false} ExpandBooks(items: seq<OfficialItem>, player: seq<StockItem>, guild: seq<StockItem>, s: State,
                                       recipe: seq<(string, nat)>, current: CalcItem, bsWonders: nat)
    requires Books(player, guild, s) && current.amount >= 0
    ensures Expand(items, s, recipe, current, bsWonders).Success? ==>
      Books(player, guild, Expand(items, s, recipe, current, bsWonders).value)
      && Expand(items, s, recipe, current, bsWonders).value.toCraft == s.toCraft
    decreases |recipe|
  {
    if recipe != [] {
      var found := GetItemInformation(items, recipe[0].0);
      if found.Some? {
        var demand := Demand(current, recipe[0].1, bsWonders);
        DemandNonNegative(current, recipe[0].1, bsWonders);
        if current.toGuild {
          GuildStepBooks(player, guild, s, found.value, demand);
        } else {
          CraftStepBooks(player, guild, s, found.value, demand);
        }
        ExpandBooks(items, player, guild, IngredientStep(s, found.value, demand, current.toGuild), recipe[1..], current, bsWonders);
      }
    }
  }

  /** A round of the worklist keeps the books. */
  lemma PopBooks(items: seq<OfficialItem>, player: seq<StockItem>, guild: seq<StockItem>, s: State, bsWonders: nat)
    requires Books(player, guild, s) && |s.needed| > 0
    ensures Pop(items, s, bsWonders).Success? ==> Books(player, guild, Pop(items, s, bsWonders).value)
  {
    var current := s.needed[|s.needed| - 1];
    var popped := s.(needed := s.needed[..|s.needed| - 1]);
    BooksPop(player, guild, s);
    ExpandBooks(items, player, guild, popped, current.recipe, current, bsWonders);
    var expanded := Expand(items, popped, current.recipe, current, bsWonders);
    if expanded.Success? && !current.toGuild {
      BooksCraft(player, guild, expanded.value, current);
    }
  }

  /** A run that succeeds keeps the books from its start state to its end state. */
  lemma {:induction false} RunBooks(items: seq<OfficialItem>, player: seq<StockItem>, guild: seq<StockItem>, s: State,
                                    bsWonders: nat, fuel: nat)
    requires Books(player, guild, s)
    ensures Run(items, s, bsWonders, fuel).Success? ==> Books(player, guild, Run(items, s, bsWonders, fuel).value)
    decreases fuel
  {
    if |s.needed| > 0 && fuel > 0 {
      PopBooks(items, player, guild, s, bsWonders);
      RunPop(items, s, bsWonders, fuel);
      var next := Pop(items, s, bsWonders);
      if next.Success? {
        RunBooks(items, player, guild, next.value, bsWonders, fuel - 1);
      }
    }
  }

  lemma StartBooks(player: seq<StockItem>, guild: seq<StockItem>, s: State)
    requires s.player == player && s.guild == guild && s.fromPlayer == [] && s.fromGuild == [] && s.toCraft == []
    requires forall k :: 0 <= k < |s.needed| ==> s.needed[k].amount >= 0
    ensures Books(player, guild, s)
  {
  }

  /** A merged entry holds the total of its id. */
  lemma MergedEntry(list: seq<Ingredient>, c: seq<Ingredient>, e: Ingredient)
    requires Merged(list, c) && e in c
    ensures e.amount == AmountOf(list, e.id)
  {
  }

  /** What the player is asked for, per id, is what the first active entry lost, which it held. */
  lemma PlayerWithin(init: seq<StockItem>, cur: seq<StockItem>, raw: seq<Ingredient>, r: seq<Ingredient>)
    requires PlayerBooks(init, cur, raw) && NonNegative(init)
    requires exists c :: Merged(raw, c) && multiset(r) == multiset(c)
    ensures WithinStock(r, init)
  {
    var c :| Merged(raw, c) && multiset(r) == multiset(c);
    forall k | 0 <= k < |r| ensures 0 <= r[k].amount <= Available(init, r[k].id) {
      assert r[k] in multiset(c);
      MergedEntry(raw, c, r[k]);
      DecreaseWithin(init, cur, r[k].id);
    }
  }

  /** What the guild is asked to hand out, per id, is at most what its first active entry lost. */
  lemma GuildWithin(init: seq<StockItem>, cur: seq<StockItem>, raw: seq<Ingredient>, r: seq<Ingredient>)
    requires GuildBooks(init, cur, raw) && NonNegative(init)
    requires exists c :: Merged(raw, c) && multiset(r) == multiset(c)
    ensures WithinStock(r, init)
  {
    var c :| Merged(raw, c) && multiset(r) == multiset(c);
    forall k | 0 <= k < |r| ensures 0 <= r[k].amount <= Available(init, r[k].id) {
      assert r[k] in multiset(c);
      MergedEntry(raw, c, r[k]);
      DecreaseWithin(init, cur, r[k].id);
    }
  }

  // ---------------------------------------------------------------- reading the input rows

  /** Why one input row was refused; the page marks the offending field. */
  datatype RowProblem = EmptyField | UnknownItem | NotCraftable | InvalidAmount

  /** The message shown above the results. */
  datatype Notice = NoNotice | CountMismatch | NoRows | NoValidEntries | PartiallyFailed

  /**
   * One row of `readNeededItems`: the trimmed id must be non-empty and name a known item
   * with a recipe, and the trimmed amount must read as a positive integer.
   */
  function CheckRow(items: seq<OfficialItem>, id: string, amount: string, toGuild: bool): (r: Result<CalcItem, RowProblem>)
    ensures r.Success? ==> r.value.amount > 0 && |r.value.recipe| > 0 && r.value.toGuild == toGuild
  {
    var idToCraft := Trim(id);
    var amountToCraft := ParseIntPrefix(Trim(amount));
    if idToCraft == [] then Failure(EmptyField)
    else match GetItemInformation(items, idToCraft)
      case None => Failure(UnknownItem)
      case Some(item) =>
        if |item.recipe| == 0 then Failure(NotCraftable)
        else if amountToCraft.None? || amountToCraft.value <= 0 then Failure(InvalidAmount)
        else Success(ItemToCalcItem(item, amountToCraft.value, toGuild))
  }

  /** Which problem, if any, a row has: the checks in the order the page makes them. */
  lemma CheckRowCases(items: seq<OfficialItem>, id: string, amount: string, toGuild: bool)
    ensures CheckRow(items, id, amount, toGuild) == Failure(EmptyField) <==> Trim(id) == []
    ensures CheckRow(items, id, amount, toGuild) == Failure(UnknownItem) <==>
      Trim(id) != [] && GetItemInformation(items, Trim(id)).None?
    ensures CheckRow(items, id, amount, toGuild) == Failure(NotCraftable) <==>
      Trim(id) != [] && GetItemInformation(items, Trim(id)).Some? && |GetItemInformation(items, Trim(id)).value.recipe| == 0
    ensures CheckRow(items, id, amount, toGuild).Success? <==>
      && Trim(id) != [] && GetItemInformation(items, Trim(id)).Some? && |GetItemInformation(items, Trim(id)).value.recipe| > 0
      && ParseIntPrefix(Trim(amount)).Some? && ParseIntPrefix(Trim(amount)).value > 0
    ensures CheckRow(items, id, amount, toGuild).Success? ==>
      CheckRow(items, id, amount, toGuild).value.id == GetItemInformation(items, Trim(id)).value.id &&
      CheckRow(items, id, amount, toGuild).value.amount == ParseIntPrefix(Trim(amount)).value
  {
  }

  /** Every row checked, in row order. */
  function CheckRows(items: seq<OfficialItem>, ids: seq<string>, amounts: seq<string>, toGuilds: seq<bool>): (rows: seq<Result<CalcItem, RowProblem>>)
    requires |ids| <= |amounts| && |ids| <= |toGuilds|
    ensures |rows| == |ids|
  {
    seq(|ids|, i requires 0 <= i < |ids| => CheckRow(items, ids[i], amounts[i], toGuilds[i]))
  }

  lemma CheckRowsAt(items: seq<OfficialItem>, ids: seq<string>, amounts: seq<string>, toGuilds: seq<bool>, i: nat)
    requires |ids| <= |amounts| && |ids| <= |toGuilds| && i < |ids|
    ensures CheckRows(items, ids, amounts, toGuilds)[i] == CheckRow(items, ids[i], amounts[i], toGuilds[i])
  {
  }

  lemma PrefixStep<T>(s: seq<T>, i: nat)
    requires i < |s|
    ensures s[..i + 1] == s[..i] + [s[i]]
  {
  }

  /** The items of the accepted rows, in row order. */
  function Accepted(rows: seq<Result<CalcItem, RowProblem>>): seq<CalcItem> {
    if rows == [] then []
    else
      var prev := Accepted(rows[..|rows| - 1]);
      var row := rows[|rows| - 1];
      if row.Success? then prev + [row.value] else prev
  }

  predicate AnyRefused(rows: seq<Result<CalcItem, RowProblem>>) {
    exists i :: 0 <= i < |rows| && rows[i].Failure?
  }

  /** Accepting one more row. */
  lemma AcceptedAppend(rows: seq<Result<CalcItem, RowProblem>>, row: Result<CalcItem, RowProblem>)
    ensures Accepted(rows + [row]) == if row.Success? then Accepted(rows) + [row.value] else Accepted(rows)
    ensures AnyRefused(rows + [row]) <==> AnyRefused(rows) || row.Failure?
  {
    assert (rows + [row])[..|rows|] == rows;
    if AnyRefused(rows) {
      var i :| 0 <= i < |rows| && rows[i].Failure?;
      assert (rows + [row])[i] == rows[i];
    }
    if AnyRefused(rows + [row]) {
      var i :| 0 <= i < |rows| + 1 && (rows + [row])[i].Failure?;
      if i < |rows| {
        assert rows[i] == (rows + [row])[i];
      }
    }
  }

  /** Every accepted item meets what the calculation asks of its input, when every accepted row does. */
  lemma {:induction false} AcceptedValid(rows: seq<Result<CalcItem, RowProblem>>)
    requires forall i :: 0 <= i < |rows| && rows[i].Success? ==> rows[i].value.amount > 0 && |rows[i].value.recipe| > 0
    ensures forall k :: 0 <= k < |Accepted(rows)| ==> Accepted(rows)[k].amount > 0 && |Accepted(rows)[k].recipe| > 0
  {
    if rows != [] {
      var init := rows[..|rows| - 1];
      AcceptedValid(init);
      LastSplit(rows);
      AcceptedAppend(init, rows[|rows| - 1]);
    }
  }

  /** One item per row exactly when no row was refused. */
  lemma {:induction false} AcceptedCount(rows: seq<Result<CalcItem, RowProblem>>)
    ensures |Accepted(rows)| <= |rows|
    ensures |Accepted(rows)| == |rows| <==> !AnyRefused(rows)
  {
    if rows != [] {
      var init := rows[..|rows| - 1];
      AcceptedCount(init);
      LastSplit(rows);
      AcceptedAppend(init, rows[|rows| - 1]);
    }
  }

  /**
   * `readNeededItems` of the version with the deposit box: the id, amount and box of every
   * row of the page, in order. Rows are read only when there are as many ids as amounts
   * and at least one row.
   */
  /** The loop over the rows: the accepted items in order, and whether any row was refused. */
  method ReadRows(items: seq<OfficialItem>, ids: seq<string>, amounts: seq<string>, toGuilds: seq<bool>)
    returns (result: seq<CalcItem>, errored: bool)
    requires |ids| <= |amounts| && |ids| <= |toGuilds|
    ensures result == Accepted(CheckRows(items, ids, amounts, toGuilds))
    ensures errored <==> AnyRefused(CheckRows(items, ids, amounts, toGuilds))
  {
    ghost var all := CheckRows(items, ids, amounts, toGuilds);
    result := [];
    errored := false;
    var i := 0;
    while i < |ids|
      invariant i <= |ids|
      invariant result == Accepted(all[..i])
      invariant errored <==> AnyRefused(all[..i])
    {
      var row := CheckRow(items, ids[i], amounts[i], toGuilds[i]);
      CheckRowsAt(items, ids, amounts, toGuilds, i);
      PrefixStep(all, i);
      AcceptedAppend(all[..i], row);
      if row.Failure? {
        errored := true;
      } else {
        result := result + [row.value];
      }
      i := i + 1;
    }
    assert all[..i] == all;
  }

  method ReadNeededItems(items: seq<OfficialItem>, ids: seq<string>, amounts: seq<string>, toGuilds: seq<bool>)
    returns (result: seq<CalcItem>, notice: Notice)
    requires |ids| == |amounts| ==> |ids| <= |toGuilds|
    ensures |ids| != |amounts| ==> result == [] && notice == CountMismatch
    ensures |ids| == |amounts| == 0 ==> result == [] && notice == NoRows
    ensures |ids| == |amounts| > 0 ==> result == Accepted(CheckRows(items, ids, amounts, toGuilds))
    ensures |ids| == |amounts| > 0 ==> (notice == NoValidEntries <==> result == [])
    ensures |ids| == |amounts| > 0 ==>
      (notice == PartiallyFailed <==> result != [] && AnyRefused(CheckRows(items, ids, amounts, toGuilds)))
    ensures notice == NoNotice ==> |result| == |ids| > 0
    ensures forall k :: 0 <= k < |result| ==> result[k].amount > 0 && |result[k].recipe| > 0
  {
    if |ids| != |amounts| {
      return [], CountMismatch;
    }
    if |ids| <= 0 {
      return [], NoRows;
    }
    ghost var all := CheckRows(items, ids, amounts, toGuilds);
    var errored;
    result, errored := ReadRows(items, ids, amounts, toGuilds);
    AcceptedValid(all);
    AcceptedCount(all);
    if |result| <= 0 {
      notice := NoValidEntries;
    } else if errored {
      notice := PartiallyFailed;
    } else {
      notice := NoNotice;
    }
  }
}

/**
 * The crafting helper's data and list operations (`craftinghelper/script.ts`): the item
 * database lookup, the ingredient order, merging lists by id, and the item/amount
 * pairs of a shared link.
 */
module CraftingData {
  import opened Wrappers
  import opened Text

  /** An amount of one item: a demand, a withdrawal or a deposit. */
  datatype Ingredient = Ingredient(id: string, amount: int)

  /** An entry of the player's or the guild's stock; inactive entries are not used. */
  datatype StockItem = StockItem(id: string, amount: int, active: bool)

  /**
   * An entry of the item database. The recipe lists ingredient names with their
   * amounts, in the order the source's `for ... in` visits the recipe's keys.
   */
  datatype OfficialItem = OfficialItem(id: string, name: string, craftMana: int, recipe: seq<(string, nat)>)

  /** An item to craft: a database entry with the amount to make and whether it goes to the guild. */
  datatype CalcItem = CalcItem(amount: int, id: string, name: string, craftMana: int,
                               recipe: seq<(string, nat)>, toGuild: bool)

  /** `itemToCalcItem`. */
  function ItemToCalcItem(item: OfficialItem, amount: int, toGuild: bool): (r: CalcItem)
    ensures r.id == item.id && r.name == item.name && r.craftMana == item.craftMana && r.recipe == item.recipe
    ensures r.amount == amount && r.toGuild == toGuild
  {
    CalcItem(amount, item.id, item.name, item.craftMana, item.recipe, toGuild)
  }

  // ---------------------------------------------------------------- looking items up

  /** Index of the first element satisfying `p`: `Array.prototype.find`. */
  function FindFirst<T>(s: seq<T>, p: T -> bool): (r: Option<nat>)
    ensures r.Some? ==> r.value < |s| && p(s[r.value]) && forall j :: 0 <= j < r.value ==> !p(s[j])
    ensures r.None? ==> forall j :: 0 <= j < |s| ==> !p(s[j])
  {
    if s == [] then None
    else if p(s[0]) then Some(0)
    else match FindFirst(s[1..], p)
      case None => None
      case Some(i) => Some(i + 1)
  }

  /**
   * `getItemInformation`: the first item whose id is `id`; failing that, the first
   * whose name equals `id` ignoring case; failing that, nothing.
   */
  function GetItemInformation(items: seq<OfficialItem>, id: string): (r: Option<OfficialItem>)
    ensures r.None? <==> forall j :: 0 <= j < |items| ==> items[j].id != id && Lower(items[j].name) != Lower(id)
    ensures (exists j :: 0 <= j < |items| && items[j].id == id) ==>
      exists i :: 0 <= i < |items| && r == Some(items[i]) && items[i].id == id &&
        forall j :: 0 <= j < i ==> items[j].id != id
    ensures (forall j :: 0 <= j < |items| ==> items[j].id != id) && r.Some? ==>
      exists i :: 0 <= i < |items| && r == Some(items[i]) && Lower(items[i].name) == Lower(id) &&
        forall j :: 0 <= j < i ==> Lower(items[j].name) != Lower(id)
  {
    match FindFirst(items, (x: OfficialItem) => x.id == id)
    case Some(i) => Some(items[i])
    case None =>
      match FindFirst(items, (x: OfficialItem) => Lower(x.name) == Lower(id))
      case Some(i) => Some(items[i])
      case None => None
  }

  // ---------------------------------------------------------------- the ingredient order

  /**
   * `parseInt` on decimal text: leading white space, an optional sign, then the
   * longest run of digits; without a digit the result is NaN (`None`).
   */
  function ParseIntPrefix(s: string): (r: Option<int>)
    ensures AllDigits(s) && |s| > 0 ==> r == Some(DigitsValue(s))
  {
    var t := TrimStart(s);
    var negative := |t| > 0 && t[0] == '-';
    var unsigned := if |t| > 0 && (t[0] == '-' || t[0] == '+') then t[1..] else t;
    var digits := DigitRun(unsigned);
    if |digits| == 0 then None
    else if negative then Some(0 - DigitsValue(digits) as int)
    else Some(DigitsValue(digits))
  }

  /** The longest prefix of decimal digits. */
  function DigitRun(s: string): (r: string)
    ensures |r| <= |s| && r == s[..|r|] && AllDigits(r)
    ensures AllDigits(s) ==> r == s
  {
    if s != [] && IsDigit(s[0]) then [s[0]] + DigitRun(s[1..]) else []
  }

  /** Code-point order on text, the stand-in for `localeCompare`: -1, 0 or 1. */
  function CompareText(a: string, b: string): (r: int)
    ensures -1 <= r <= 1
  {
    if a == [] && b == [] then 0
    else if a == [] then -1
    else if b == [] then 1
    else if a[0] < b[0] then -1
    else if b[0] < a[0] then 1
    else CompareText(a[1..], b[1..])
  }

  /**
   * `sortIngredients` on two ids: two numeric ids by value, a numeric id after a
   * non-numeric one, two non-numeric ids as text.
   */
  function CompareIds(a: string, b: string): int {
    var an := ParseIntPrefix(a);
    var bn := ParseIntPrefix(b);
    if an.Some? && bn.Some? then an.value - bn.value
    else if an.Some? && bn.None? then 1
    else if an.None? && bn.Some? then -1
    else CompareText(a, b)
  }

  lemma {:induction false} CompareTextFlip(a: string, b: string)
    ensures CompareText(a, b) == -CompareText(b, a)
  {
    if a != [] && b != [] && a[0] == b[0] {
      CompareTextFlip(a[1..], b[1..]);
    }
  }

  lemma {:induction false} CompareTextTransitive(a: string, b: string, c: string)
    requires CompareText(a, b) <= 0 && CompareText(b, c) <= 0
    ensures CompareText(a, c) <= 0
  {
    if a != [] && b != [] && c != [] && a[0] == b[0] == c[0] {
      CompareTextTransitive(a[1..], b[1..], c[1..]);
    }
  }

  /** Swapping the ids negates the comparison, so the order is total. */
  lemma CompareIdsFlip(a: string, b: string)
    ensures CompareIds(a, b) == -CompareIds(b, a)
  {
    CompareTextFlip(a, b);
  }

  /** The comparison is transitive: together with `CompareIdsFlip`, a total preorder a stable sort can use. */
  lemma CompareIdsTransitive(a: string, b: string, c: string)
    requires CompareIds(a, b) <= 0 && CompareIds(b, c) <= 0
    ensures CompareIds(a, c) <= 0
  {
    if ParseIntPrefix(a).None? && ParseIntPrefix(b).None? && ParseIntPrefix(c).None? {
      CompareTextTransitive(a, b, c);
    }
  }

  /** Two numeric ids compare by value; a numeric id sorts after a non-numeric one. */
  lemma CompareIdsCases(a: string, b: string)
    ensures ParseIntPrefix(a).Some? && ParseIntPrefix(b).Some? ==>
      (CompareIds(a, b) <= 0 <==> ParseIntPrefix(a).value <= ParseIntPrefix(b).value)
    ensures ParseIntPrefix(a).Some? && ParseIntPrefix(b).None? ==> CompareIds(a, b) > 0 && CompareIds(b, a) < 0
  {
  }


  /** Every ingredient comes no later than the next one in the ingredient order. */
  predicate IdsInOrder(s: seq<Ingredient>) {
    forall i :: 0 <= i < |s| - 1 ==> CompareIds(s[i].id, s[i + 1].id) <= 0
  }

  /** Every ingredient comes no later than every later one. */
  predicate IdsSorted(s: seq<Ingredient>) {
    forall i, j :: 0 <= i < j < |s| ==> CompareIds(s[i].id, s[j].id) <= 0
  }

  /** Puts `x` in front of the first element it does not come after. */
  function InsertIngredient(x: Ingredient, t: seq<Ingredient>): (r: seq<Ingredient>)
    ensures multiset(r) == multiset(t) + multiset{x}
  {
    if t == [] then [x]
    else if CompareIds(x.id, t[0].id) <= 0 then [x] + t
    else
      var rest := InsertIngredient(x, t[1..]);
      assert multiset(t) == multiset{t[0]} + multiset(t[1..]) by { assert t == [t[0]] + t[1..]; }
      [t[0]] + rest
  }

  /** `list.sort(sortIngredients)`: a stable sort, as an insertion sort. */
  function SortIngredients(s: seq<Ingredient>): (r: seq<Ingredient>)
    ensures multiset(r) == multiset(s)
  {
    if s == [] then []
    else
      assert s == [s[0]] + s[1..];
      InsertIngredient(s[0], SortIngredients(s[1..]))
  }

  lemma InsertIngredientHead(x: Ingredient, t: seq<Ingredient>)
    ensures InsertIngredient(x, t) != []
    ensures InsertIngredient(x, t)[0] == x || (t != [] && InsertIngredient(x, t)[0] == t[0])
  {
  }

  /** Putting in front an element that comes no later than the old front keeps neighbours in order. */
  lemma InOrderCons(a: Ingredient, t: seq<Ingredient>)
    requires IdsInOrder(t) && (t != [] ==> CompareIds(a.id, t[0].id) <= 0)
    ensures IdsInOrder([a] + t)
  {
    var r := [a] + t;
    forall i | 0 <= i < |r| - 1 ensures CompareIds(r[i].id, r[i + 1].id) <= 0 {
      if i > 0 {
        assert r[i] == t[i - 1] && r[i + 1] == t[i];
      }
    }
  }

  lemma InOrderTail(t: seq<Ingredient>)
    requires IdsInOrder(t) && t != []
    ensures IdsInOrder(t[1..])
  {
    var u := t[1..];
    forall i | 0 <= i < |u| - 1 ensures CompareIds(u[i].id, u[i + 1].id) <= 0 {
      assert u[i] == t[i + 1] && u[i + 1] == t[i + 2];
    }
  }

  lemma {:induction false} InsertIngredientInOrder(x: Ingredient, t: seq<Ingredient>)
    requires IdsInOrder(t)
    ensures IdsInOrder(InsertIngredient(x, t))
  {
    if t != [] && CompareIds(x.id, t[0].id) > 0 {
      InOrderTail(t);
      InsertIngredientInOrder(x, t[1..]);
      CompareIdsFlip(x.id, t[0].id);
      InsertIngredientHead(x, t[1..]);
      InOrderCons(t[0], InsertIngredient(x, t[1..]));
    } else if t != [] {
      InOrderCons(x, t);
    }
  }

  /** Neighbours in order are all in order, since the ingredient order is transitive. */
  lemma {:induction false} InOrderSorted(s: seq<Ingredient>)
    requires IdsInOrder(s)
    ensures IdsSorted(s)
  {
    if |s| > 1 {
      var t := s[1..];
      InOrderTail(s);
      InOrderSorted(t);
      forall i, j | 0 <= i < j < |s| ensures CompareIds(s[i].id, s[j].id) <= 0 {
        if i == 0 && j > 1 {
          assert s[1] == t[0] && s[j] == t[j - 1];
          CompareIdsTransitive(s[0].id, s[1].id, s[j].id);
        } else if i > 0 {
          assert s[i] == t[i - 1] && s[j] == t[j - 1];
        }
      }
    }
  }

  lemma {:induction false} SortIngredientsInOrder(s: seq<Ingredient>)
    ensures IdsInOrder(SortIngredients(s))
  {
    if s != [] {
      SortIngredientsInOrder(s[1..]);
      InsertIngredientInOrder(s[0], SortIngredients(s[1..]));
    }
  }

  /** The sort orders by the ingredient order and keeps every element. */
  lemma SortIngredientsSorted(s: seq<Ingredient>)
    ensures IdsSorted(SortIngredients(s)) && multiset(SortIngredients(s)) == multiset(s)
  {
    SortIngredientsInOrder(s);
    InOrderSorted(SortIngredients(s));
  }

  // ---------------------------------------------------------------- merging by id

  lemma LastSplit<T>(s: seq<T>)
    requires s != []
    ensures s[..|s| - 1] + [s[|s| - 1]] == s
  {
  }

  /** The distinct elements of `s`, each where it first occurs. */
  function Dedup<T(==)>(s: seq<T>): (r: seq<T>)
  {
    if s == [] then []
    else if s[|s| - 1] in s[..|s| - 1] then Dedup(s[..|s| - 1])
    else Dedup(s[..|s| - 1]) + [s[|s| - 1]]
  }

  lemma DedupAppend<T>(s: seq<T>, e: T)
    ensures Dedup(s + [e]) == if e in s then Dedup(s) else Dedup(s) + [e]
  {
    assert (s + [e])[..|s|] == s;
  }

  /** Deduplication keeps exactly the elements, once each. */
  lemma {:induction false} DedupShape<T>(s: seq<T>)
    ensures forall i :: 0 <= i < |Dedup(s)| ==> Dedup(s)[i] in s
    ensures forall e :: e in s ==> e in Dedup(s)
    ensures forall i, j :: 0 <= i < j < |Dedup(s)| ==> Dedup(s)[i] != Dedup(s)[j]
  {
    if s != [] {
      var p := s[..|s| - 1];
      DedupShape(p);
      assert s == p + [s[|s| - 1]];
      DedupAppend(p, s[|s| - 1]);
    }
  }

  function Ids(s: seq<Ingredient>): (r: seq<string>)
    ensures |r| == |s| && forall i :: 0 <= i < |s| ==> r[i] == s[i].id
  {
    if s == [] then [] else Ids(s[..|s| - 1]) + [s[|s| - 1].id]
  }

  lemma IdsAppend(s: seq<Ingredient>, x: Ingredient)
    ensures Ids(s + [x]) == Ids(s) + [x.id]
  {
    assert (s + [x])[..|s|] == s;
  }

  /** The total amount `s` holds under `id`. */
  function AmountOf(s: seq<Ingredient>, id: string): int {
    if s == [] then 0
    else AmountOf(s[..|s| - 1], id) + (if s[|s| - 1].id == id then s[|s| - 1].amount else 0)
  }

  lemma AmountAppend(s: seq<Ingredient>, x: Ingredient, id: string)
    ensures AmountOf(s + [x], id) == AmountOf(s, id) + if x.id == id then x.amount else 0
  {
    assert (s + [x])[..|s|] == s;
  }

  lemma {:induction false} NoAmountWithoutId(s: seq<Ingredient>, id: string)
    requires id !in Ids(s)
    ensures AmountOf(s, id) == 0
  {
    if s != [] {
      assert Ids(s[..|s| - 1]) == Ids(s)[..|s| - 1];
      NoAmountWithoutId(s[..|s| - 1], id);
    }
  }

  /** Every entry holds the total `list` has under its id. */
  predicate Totals(list: seq<Ingredient>, combined: seq<Ingredient>) {
    forall k :: 0 <= k < |combined| ==> combined[k].amount == AmountOf(list, combined[k].id)
  }

  /** A merged list: one entry per distinct id, in first-occurrence order, holding the total under that id. */
  predicate Merged(list: seq<Ingredient>, combined: seq<Ingredient>) {
    Ids(combined) == Dedup(Ids(list)) && Totals(list, combined)
  }

  /** The first entry of `c` under `id`: `Array.prototype.find`. */
  function IndexOfId(c: seq<Ingredient>, id: string): (r: Option<nat>)
    ensures r.Some? ==> r.value < |c| && c[r.value].id == id
    ensures r.None? ==> id !in Ids(c)
  {
    if c == [] then None
    else match IndexOfId(c[..|c| - 1], id)
      case Some(k) => Some(k)
      case None => if c[|c| - 1].id == id then Some(|c| - 1) else None
  }

  /** One step of `combine`: add `i` to the entry with its id, or append it. */
  function AddIngredient(c: seq<Ingredient>, i: Ingredient): seq<Ingredient> {
    match IndexOfId(c, i.id)
    case Some(k) => c[k := c[k].(amount := c[k].amount + i.amount)]
    case None => c + [Ingredient(i.id, i.amount)]
  }

  /** What `combine` builds from the first `|s|` entries. */
  function Combined(s: seq<Ingredient>): seq<Ingredient> {
    if s == [] then [] else AddIngredient(Combined(s[..|s| - 1]), s[|s| - 1])
  }

  /** `combine`: merge the entries with equal ids, adding their amounts. */
  method Combine(list: seq<Ingredient>) returns (combined: seq<Ingredient>)
    ensures Merged(list, combined)
  {
    combined := [];
    var n := 0;
    while n < |list|
      invariant n <= |list| && combined == Combined(list[..n])
    {
      var i := list[n];
      var elem := IndexOfId(combined, i.id);
      if elem.Some? {
        combined := combined[elem.value := combined[elem.value].(amount := combined[elem.value].amount + i.amount)];
      } else {
        combined := combined + [Ingredient(i.id, i.amount)];
      }
      assert list[..n + 1][..n] == list[..n];
      n := n + 1;
    }
    assert list[..n] == list;
    CombinedMerged(list);
  }

  /** What `combine` builds is the merged list. */
  lemma {:induction false} CombinedMerged(s: seq<Ingredient>)
    ensures Merged(s, Combined(s))
  {
    if s != [] {
      var p := s[..|s| - 1];
      var x := s[|s| - 1];
      CombinedMerged(p);
      MergeAdd(p, x, Combined(p));
      LastSplit(s);
    }
  }

  /** One step of `combine` keeps the list merged. */
  lemma MergeAdd(p: seq<Ingredient>, x: Ingredient, c: seq<Ingredient>)
    requires Merged(p, c)
    ensures Merged(p + [x], AddIngredient(c, x))
  {
    match IndexOfId(c, x.id)
    case Some(k) =>
      assert AddIngredient(c, x) == c[k := c[k].(amount := c[k].amount + x.amount)];
      MergeExisting(p, x, c, k);
    case None =>
      assert AddIngredient(c, x) == c + [Ingredient(x.id, x.amount)];
      MergeNew(p, x, c);
  }

  lemma IdsUpdate(c: seq<Ingredient>, k: nat, amount: int)
    requires k < |c|
    ensures Ids(c[k := c[k].(amount := amount)]) == Ids(c)
  {
    var c' := c[k := c[k].(amount := amount)];
    assert forall i :: 0 <= i < |c| ==> Ids(c')[i] == Ids(c)[i];
  }

  lemma DistinctIds(p: seq<Ingredient>, c: seq<Ingredient>)
    requires Ids(c) == Dedup(Ids(p))
    ensures forall i, j :: 0 <= i < j < |c| ==> c[i].id != c[j].id
  {
    DedupShape(Ids(p));
    assert forall i :: 0 <= i < |c| ==> Ids(c)[i] == c[i].id;
  }

  /** An id seen before leaves the distinct ids as they were. */
  lemma IdsExisting(p: seq<Ingredient>, x: Ingredient, c: seq<Ingredient>)
    requires Ids(c) == Dedup(Ids(p)) && x.id in Ids(c)
    ensures Dedup(Ids(p + [x])) == Ids(c)
  {
    IdsAppend(p, x);
    DedupShape(Ids(p));
    DedupAppend(Ids(p), x.id);
  }

  /** A new id joins the distinct ids at the end. */
  lemma IdsNew(p: seq<Ingredient>, x: Ingredient, c: seq<Ingredient>)
    requires Ids(c) == Dedup(Ids(p)) && x.id !in Ids(c)
    ensures Dedup(Ids(p + [x])) == Ids(c) + [x.id]
  {
    IdsAppend(p, x);
    DedupShape(Ids(p));
    DedupAppend(Ids(p), x.id);
  }

  lemma TotalsExisting(p: seq<Ingredient>, x: Ingredient, c: seq<Ingredient>, k: nat)
    requires Totals(p, c) && k < |c| && c[k].id == x.id
    requires forall i, j :: 0 <= i < j < |c| ==> c[i].id != c[j].id
    ensures Totals(p + [x], c[k := c[k].(amount := c[k].amount + x.amount)])
  {
    var c' := c[k := c[k].(amount := c[k].amount + x.amount)];
    forall j | 0 <= j < |c'| ensures c'[j].amount == AmountOf(p + [x], c'[j].id) {
      AmountAppend(p, x, c'[j].id);
    }
  }

  lemma TotalsNew(p: seq<Ingredient>, x: Ingredient, c: seq<Ingredient>)
    requires Totals(p, c) && x.id !in Ids(c) && x.id !in Ids(p)
    ensures Totals(p + [x], c + [Ingredient(x.id, x.amount)])
  {
    var c' := c + [Ingredient(x.id, x.amount)];
    NoAmountWithoutId(p, x.id);
    forall j | 0 <= j < |c'| ensures c'[j].amount == AmountOf(p + [x], c'[j].id) {
      AmountAppend(p, x, c'[j].id);
      if j < |c| {
        assert c'[j] == c[j];
      }
    }
  }

  lemma MergeExisting(p: seq<Ingredient>, x: Ingredient, c: seq<Ingredient>, k: nat)
    requires Merged(p, c) && k < |c| && c[k].id == x.id
    ensures Merged(p + [x], c[k := c[k].(amount := c[k].amount + x.amount)])
  {
    var c' := c[k := c[k].(amount := c[k].amount + x.amount)];
    IdsExisting(p, x, c);
    IdsUpdate(c, k, c[k].amount + x.amount);
    DistinctIds(p, c);
    TotalsExisting(p, x, c, k);
  }

  lemma MergeNew(p: seq<Ingredient>, x: Ingredient, c: seq<Ingredient>)
    requires Merged(p, c) && x.id !in Ids(c)
    ensures Merged(p + [x], c + [Ingredient(x.id, x.amount)])
  {
    IdsNew(p, x, c);
    IdsAppend(c, Ingredient(x.id, x.amount));
    DedupShape(Ids(p));
    TotalsNew(p, x, c);
  }

  // ---------------------------------------------------------------- merging crafting steps

  /** The id and amount of every crafting step: the steps seen as an ingredient list. */
  function Amounts(s: seq<CalcItem>): (r: seq<Ingredient>)
    ensures |r| == |s| && forall i :: 0 <= i < |s| ==> r[i] == Ingredient(s[i].id, s[i].amount)
  {
    seq(|s|, i requires 0 <= i < |s| => Ingredient(s[i].id, s[i].amount))
  }

  lemma AmountsAppend(s: seq<CalcItem>, x: CalcItem)
    ensures Amounts(s + [x]) == Amounts(s) + [Ingredient(x.id, x.amount)]
  {
  }

  lemma AmountsPrefix(s: seq<CalcItem>, n: nat)
    requires n <= |s|
    ensures Amounts(s[..n]) == Amounts(s)[..n]
  {
  }

  lemma CalcIdsAppend(s: seq<CalcItem>, x: CalcItem)
    ensures Ids(Amounts(s + [x])) == Ids(Amounts(s)) + [x.id]
  {
    AmountsAppend(s, x);
    IdsAppend(Amounts(s), Ingredient(x.id, x.amount));
  }

  lemma CalcAmountAppend(s: seq<CalcItem>, x: CalcItem, id: string)
    ensures AmountOf(Amounts(s + [x]), id) == AmountOf(Amounts(s), id) + if x.id == id then x.amount else 0
  {
    AmountsAppend(s, x);
    AmountAppend(Amounts(s), Ingredient(x.id, x.amount), id);
  }

  /** The first item of `s` under `id`. */
  function FirstWithId(s: seq<CalcItem>, id: string): (r: CalcItem)
    requires id in Ids(Amounts(s))
    ensures r in s && r.id == id
  {
    if id in Ids(Amounts(s[..|s| - 1])) then
      assert Ids(Amounts(s[..|s| - 1])) == Ids(Amounts(s))[..|s| - 1];
      FirstWithId(s[..|s| - 1], id)
    else s[|s| - 1]
  }

  lemma FirstWithIdAppend(s: seq<CalcItem>, x: CalcItem, id: string)
    requires id in Ids(Amounts(s)) || id == x.id
    ensures id in Ids(Amounts(s + [x]))
    ensures FirstWithId(s + [x], id) == if id in Ids(Amounts(s)) then FirstWithId(s, id) else x
  {
    CalcIdsAppend(s, x);
    assert (s + [x])[..|s|] == s;
  }

  /** The step a merged list holds for `first`'s id: its name, mana and recipe, the total amount, not for the guild. */
  function MergedStep(first: CalcItem, amount: int): CalcItem {
    CalcItem(amount, first.id, first.name, first.craftMana, first.recipe, false)
  }

  /** Every step is the first occurrence of its id in `list`, with the total under that id. */
  predicate Entries(list: seq<CalcItem>, combined: seq<CalcItem>) {
    forall k :: 0 <= k < |combined| ==>
      combined[k].id in Ids(Amounts(list)) &&
      combined[k] == MergedStep(FirstWithId(list, combined[k].id), AmountOf(Amounts(list), combined[k].id))
  }

  /** Merged crafting steps: one per distinct id, in first-occurrence order, described by the first occurrence. */
  predicate MergedSteps(list: seq<CalcItem>, combined: seq<CalcItem>) {
    Ids(Amounts(combined)) == Dedup(Ids(Amounts(list))) && Entries(list, combined)
  }

  /** One step of `combineCalcitem`. */
  function AddStep(c: seq<CalcItem>, i: CalcItem): seq<CalcItem> {
    match IndexOfId(Amounts(c), i.id)
    case Some(k) => c[k := c[k].(amount := c[k].amount + i.amount)]
    case None => c + [MergedStep(i, i.amount)]
  }

  function CombinedSteps(s: seq<CalcItem>): seq<CalcItem> {
    if s == [] then [] else AddStep(CombinedSteps(s[..|s| - 1]), s[|s| - 1])
  }

  /** `combineCalcitem`: merge the steps with equal ids, keeping name, mana and recipe of the first. */
  method CombineCalcitem(list: seq<CalcItem>) returns (combined: seq<CalcItem>)
    ensures MergedSteps(list, combined)
  {
    combined := [];
    var n := 0;
    while n < |list|
      invariant n <= |list| && combined == CombinedSteps(list[..n])
    {
      var i := list[n];
      var elem := IndexOfId(Amounts(combined), i.id);
      if elem.Some? {
        combined := combined[elem.value := combined[elem.value].(amount := combined[elem.value].amount + i.amount)];
      } else {
        combined := combined + [CalcItem(i.amount, i.id, i.name, i.craftMana, i.recipe, false)];
      }
      assert list[..n + 1][..n] == list[..n];
      n := n + 1;
    }
    assert list[..n] == list;
    CombinedStepsMerged(list);
  }

  /** What `combineCalcitem` builds is the merged list of steps. */
  lemma {:induction false} CombinedStepsMerged(s: seq<CalcItem>)
    ensures MergedSteps(s, CombinedSteps(s))
  {
    if s != [] {
      var p := s[..|s| - 1];
      var x := s[|s| - 1];
      CombinedStepsMerged(p);
      MergeStepAdd(p, x, CombinedSteps(p));
      LastSplit(s);
    }
  }

  /** One step of `combineCalcitem` keeps the steps merged. */
  lemma MergeStepAdd(p: seq<CalcItem>, x: CalcItem, c: seq<CalcItem>)
    requires MergedSteps(p, c)
    ensures MergedSteps(p + [x], AddStep(c, x))
  {
    var found := IndexOfId(Amounts(c), x.id);
    if found.Some? {
      var k := found.value;
      assert Amounts(c)[k] == Ingredient(c[k].id, c[k].amount);
      assert AddStep(c, x) == c[k := c[k].(amount := c[k].amount + x.amount)];
      MergeStepExisting(p, x, c, k);
    } else {
      assert AddStep(c, x) == c + [MergedStep(x, x.amount)];
      MergeStepNew(p, x, c);
    }
  }

  lemma CalcIdsUpdate(c: seq<CalcItem>, k: nat, amount: int)
    requires k < |c|
    ensures Ids(Amounts(c[k := c[k].(amount := amount)])) == Ids(Amounts(c))
  {
    var c' := c[k := c[k].(amount := amount)];
    assert forall i :: 0 <= i < |c| ==> Ids(Amounts(c'))[i] == Ids(Amounts(c))[i];
  }

  lemma DistinctStepIds(p: seq<CalcItem>, c: seq<CalcItem>)
    requires Ids(Amounts(c)) == Dedup(Ids(Amounts(p)))
    ensures forall i, j :: 0 <= i < j < |c| ==> c[i].id != c[j].id
    ensures forall i :: 0 <= i < |c| ==> c[i].id in Ids(Amounts(p))
  {
    DedupShape(Ids(Amounts(p)));
    assert forall i :: 0 <= i < |c| ==> Ids(Amounts(c))[i] == c[i].id;
  }

  lemma StepIdsExisting(p: seq<CalcItem>, x: CalcItem, c: seq<CalcItem>)
    requires Ids(Amounts(c)) == Dedup(Ids(Amounts(p))) && x.id in Ids(Amounts(c))
    ensures Dedup(Ids(Amounts(p + [x]))) == Ids(Amounts(c))
  {
    CalcIdsAppend(p, x);
    DedupShape(Ids(Amounts(p)));
    DedupAppend(Ids(Amounts(p)), x.id);
  }

  lemma StepIdsNew(p: seq<CalcItem>, x: CalcItem, c: seq<CalcItem>)
    requires Ids(Amounts(c)) == Dedup(Ids(Amounts(p))) && x.id !in Ids(Amounts(c))
    ensures x.id !in Ids(Amounts(p))
    ensures Dedup(Ids(Amounts(p + [x]))) == Ids(Amounts(c)) + [x.id]
  {
    CalcIdsAppend(p, x);
    DedupShape(Ids(Amounts(p)));
    DedupAppend(Ids(Amounts(p)), x.id);
  }

  /** The step for an id seen before, after `x` was added to it. */
  lemma EntryExisting(p: seq<CalcItem>, x: CalcItem, e: CalcItem)
    requires e.id == x.id && e.id in Ids(Amounts(p))
    requires e == MergedStep(FirstWithId(p, e.id), AmountOf(Amounts(p), e.id))
    ensures e.(amount := e.amount + x.amount) == MergedStep(FirstWithId(p + [x], e.id), AmountOf(Amounts(p + [x]), e.id))
  {
    CalcAmountAppend(p, x, e.id);
    FirstWithIdAppend(p, x, e.id);
  }

  /** The step for an id other than `x`'s is not touched by adding `x`. */
  lemma EntryOther(p: seq<CalcItem>, x: CalcItem, e: CalcItem)
    requires e.id != x.id && e.id in Ids(Amounts(p))
    requires e == MergedStep(FirstWithId(p, e.id), AmountOf(Amounts(p), e.id))
    ensures e.id in Ids(Amounts(p + [x]))
    ensures e == MergedStep(FirstWithId(p + [x], e.id), AmountOf(Amounts(p + [x]), e.id))
  {
    CalcAmountAppend(p, x, e.id);
    FirstWithIdAppend(p, x, e.id);
  }

  lemma EntriesExisting(p: seq<CalcItem>, x: CalcItem, c: seq<CalcItem>, k: nat)
    requires Entries(p, c) && k < |c| && c[k].id == x.id
    requires forall i, j :: 0 <= i < j < |c| ==> c[i].id != c[j].id
    ensures Entries(p + [x], c[k := c[k].(amount := c[k].amount + x.amount)])
  {
    var c' := c[k := c[k].(amount := c[k].amount + x.amount)];
    forall j | 0 <= j < |c'|
      ensures c'[j].id in Ids(Amounts(p + [x]))
      ensures c'[j] == MergedStep(FirstWithId(p + [x], c'[j].id), AmountOf(Amounts(p + [x]), c'[j].id))
    {
      if j == k {
        EntryExisting(p, x, c[k]);
        FirstWithIdAppend(p, x, x.id);
      } else {
        EntryOther(p, x, c[j]);
      }
    }
  }

  lemma EntriesNew(p: seq<CalcItem>, x: CalcItem, c: seq<CalcItem>)
    requires Entries(p, c) && x.id !in Ids(Amounts(p))
    requires forall j :: 0 <= j < |c| ==> c[j].id != x.id
    ensures Entries(p + [x], c + [MergedStep(x, x.amount)])
  {
    var c' := c + [MergedStep(x, x.amount)];
    NoAmountWithoutId(Amounts(p), x.id);
    forall j | 0 <= j < |c'|
      ensures c'[j].id in Ids(Amounts(p + [x]))
      ensures c'[j] == MergedStep(FirstWithId(p + [x], c'[j].id), AmountOf(Amounts(p + [x]), c'[j].id))
    {
      if j < |c| {
        assert c'[j] == c[j];
        EntryOther(p, x, c[j]);
      } else {
        CalcAmountAppend(p, x, x.id);
        FirstWithIdAppend(p, x, x.id);
      }
    }
  }

  lemma MergeStepExisting(p: seq<CalcItem>, x: CalcItem, c: seq<CalcItem>, k: nat)
    requires MergedSteps(p, c) && k < |c| && c[k].id == x.id
    ensures MergedSteps(p + [x], c[k := c[k].(amount := c[k].amount + x.amount)])
  {
    StepIdsKept(p, x, c, k);
    DistinctStepIds(p, c);
    EntriesExisting(p, x, c, k);
  }

  /** Adding to the step of an id seen before keeps the ids of the merged steps. */
  lemma StepIdsKept(p: seq<CalcItem>, x: CalcItem, c: seq<CalcItem>, k: nat)
    requires Ids(Amounts(c)) == Dedup(Ids(Amounts(p))) && k < |c| && c[k].id == x.id
    ensures Ids(Amounts(c[k := c[k].(amount := c[k].amount + x.amount)])) == Dedup(Ids(Amounts(p + [x])))
  {
    assert Amounts(c)[k] == Ingredient(x.id, c[k].amount) && Ids(Amounts(c))[k] == x.id;
    StepIdsExisting(p, x, c);
    CalcIdsUpdate(c, k, c[k].amount + x.amount);
  }

  lemma MergeStepNew(p: seq<CalcItem>, x: CalcItem, c: seq<CalcItem>)
    requires MergedSteps(p, c) && x.id !in Ids(Amounts(c))
    ensures MergedSteps(p + [x], c + [MergedStep(x, x.amount)])
  {
    StepIdsNew(p, x, c);
    CalcIdsAppend(c, MergedStep(x, x.amount));
    EntriesNew(p, x, c);
  }

  // ---------------------------------------------------------------- a shared link

  /**
   * `loadFromUrl`, without the rows it adds to the page: the `c` parameter split at
   * spaces and commas into item/amount pairs; nothing when the parameter is missing
   * or empty, or the number of pieces is odd.
   */
  method LoadFromUrl(c: Option<string>) returns (pairs: Option<seq<(string, string)>>)
    ensures pairs.None? <==> c.None? || c.value == "" || |Split(c.value, {' ', ','})| % 2 != 0
    ensures pairs.Some? ==> Flatten(pairs.value) == Split(c.value, {' ', ','})
  {
    if c.None? || c.value == "" {
      return None;
    }
    var crafts := Split(c.value, {' ', ','});
    if |crafts| == 0 || |crafts| % 2 != 0 {
      return None;
    }
    var craftPairs: seq<(string, string)> := [];
    var i := 0;
    while i < |crafts|
      invariant i <= |crafts| && i % 2 == 0
      invariant Flatten(craftPairs) == crafts[..i]
    {
      assert crafts[..i + 2] == crafts[..i] + [crafts[i], crafts[i + 1]];
      FlattenAppend(craftPairs, (crafts[i], crafts[i + 1]));
      craftPairs := craftPairs + [(crafts[i], crafts[i + 1])];
      i := i + 2;
    }
    assert crafts[..i] == crafts;
    return Some(craftPairs);
  }

  /** The pieces of a list of pairs, in order. */
  function Flatten(pairs: seq<(string, string)>): (r: seq<string>)
    ensures |r| == 2 * |pairs|
    ensures forall i :: 0 <= i < |pairs| ==> r[2 * i] == pairs[i].0 && r[2 * i + 1] == pairs[i].1
  {
    if pairs == [] then [] else [pairs[0].0, pairs[0].1] + Flatten(pairs[1..])
  }

  lemma {:induction false} FlattenAppend(pairs: seq<(string, string)>, p: (string, string))
    ensures Flatten(pairs + [p]) == Flatten(pairs) + [p.0, p.1]
  {
    if pairs != [] {
      assert (pairs + [p])[1..] == pairs[1..] + [p];
      FlattenAppend(pairs[1..], p);
    }
  }

  /** The link text a list of pairs is written as: every piece followed by a space, the last without. */
  function LinkText(pieces: seq<string>): string
    requires |pieces| > 0
  {
    if |pieces| == 1 then pieces[0] else pieces[0] + " " + LinkText(pieces[1..])
  }

  /** Pairs written as a link, with no space or comma inside a piece, are read back as the same pairs. */
  lemma {:induction false} LinkRoundTrip(pairs: seq<(string, string)>)
    requires |pairs| > 0
    requires forall i :: 0 <= i < |pairs| ==> NoneOf(pairs[i].0, {' ', ','}) && NoneOf(pairs[i].1, {' ', ','})
    ensures Split(LinkText(Flatten(pairs)), {' ', ','}) == Flatten(pairs)
    ensures |Split(LinkText(Flatten(pairs)), {' ', ','})| % 2 == 0
  {
    var pieces := Flatten(pairs);
    forall k | 0 <= k < |pieces| ensures NoneOf(pieces[k], {' ', ','}) {
      if k % 2 == 0 {
        assert pieces[k] == pairs[k / 2].0;
      } else {
        assert pieces[k] == pieces[2 * (k / 2) + 1] == pairs[k / 2].1;
      }
    }
    LinkPieces(pieces);
  }

  lemma {:induction false} LinkPieces(pieces: seq<string>)
    requires |pieces| > 0 && forall k :: 0 <= k < |pieces| ==> NoneOf(pieces[k], {' ', ','})
    ensures Split(LinkText(pieces), {' ', ','}) == pieces
  {
    if |pieces| == 1 {
      SplitWhole(pieces[0], {' ', ','});
    } else {
      LinkPieces(pieces[1..]);
      SplitAt(pieces[0], ' ', LinkText(pieces[1..]), {' ', ','});
      assert pieces[0] + " " + LinkText(pieces[1..]) == pieces[0] + [' '] + LinkText(pieces[1..]);
      assert pieces == [pieces[0]] + pieces[1..];
    }
  }
}

/** The recommendation engine page: a preference record, a filter / rank /
    truncate pipeline over the food items, and the handlers that update the
    preferences, record orders and bump popularity.  `localStorage` is
    modelled as two fields holding what was last written; JSON encoding is
    taken to round-trip. */
module RecommendationEngine {
  import opened Wrappers
  import opened Text
  import PriceParse
  import Seqs
  import Ranking

  /** A food item; `popularity` and `tags` are optional. */
  datatype FoodItem = FoodItem(
    id: int,
    name: string,
    description: string,
    price: string,
    modelUrl: string,
    markerId: int,
    category: Option<string>,
    popularity: Option<int>,
    tags: Option<seq<string>>)

  /** `item.popularity || 0` */
  function Popularity(item: FoodItem): (p: int)
    ensures item.popularity.None? ==> p == 0
    ensures item.popularity.Some? ==> p == item.popularity.value
  {
    item.popularity.GetOr(0)
  }

  /** The user's preference record; every field may be absent. */
  datatype Preferences = Preferences(
    category: Option<string>,
    priceRange: Option<string>,
    dietaryPreferences: Option<seq<string>>,
    previousOrders: Option<seq<int>>)

  const NoPreferences := Preferences(None, None, None, None)

  /** A string field is truthy when present and non-empty. */
  predicate Truthy(s: Option<string>) {
    s.Some? && s.value != ""
  }

  predicate CategoryFilterOn(p: Preferences) {
    Truthy(p.category) && p.category.value != "all"
  }

  predicate DietFilterOn(p: Preferences) {
    p.dietaryPreferences.Some? && |p.dietaryPreferences.value| > 0
  }

  predicate PriceFilterOn(p: Preferences) {
    Truthy(p.priceRange) && p.priceRange.value != "all"
  }

  /** Some tag of the item contains `pref`, both lower-cased; an item
      without tags has none. */
  predicate HasTag(item: FoodItem, pref: string) {
    item.tags.Some? && exists t :: t in item.tags.value && Contains(Lower(t), Lower(pref))
  }

  predicate MeetsDiet(item: FoodItem, prefs: seq<string>) {
    forall pref :: pref in prefs ==> HasTag(item, pref)
  }

  /** Reference definition of the three filters together: the item passes
      every filter that the preferences switch on. */
  predicate Admits(p: Preferences, item: FoodItem) {
    && (CategoryFilterOn(p) ==> item.category == p.category)
    && (DietFilterOn(p) ==> MeetsDiet(item, p.dietaryPreferences.value))
    && (PriceFilterOn(p) ==> PriceParse.InBucket(item.price, p.priceRange.value))
  }

  function ByCategory(items: seq<FoodItem>, p: Preferences): (r: seq<FoodItem>)
    ensures CategoryFilterOn(p) ==> forall i :: 0 <= i < |r| ==> r[i].category == p.category
    ensures !CategoryFilterOn(p) ==> r == items
    ensures multiset(r) <= multiset(items)
    ensures forall x :: x in r <==> x in items && (CategoryFilterOn(p) ==> x.category == p.category)
  {
    if CategoryFilterOn(p) then Seqs.Filter(items, (it: FoodItem) => it.category == p.category)
    else items
  }

  function ByDiet(items: seq<FoodItem>, p: Preferences): (r: seq<FoodItem>)
    ensures DietFilterOn(p) ==> forall i :: 0 <= i < |r| ==> MeetsDiet(r[i], p.dietaryPreferences.value)
    ensures !DietFilterOn(p) ==> r == items
    ensures multiset(r) <= multiset(items)
    ensures forall x :: x in r <==> x in items && (DietFilterOn(p) ==> MeetsDiet(x, p.dietaryPreferences.value))
  {
    if DietFilterOn(p) then Seqs.Filter(items, (it: FoodItem) => MeetsDiet(it, p.dietaryPreferences.value))
    else items
  }

  function ByPrice(items: seq<FoodItem>, p: Preferences): (r: seq<FoodItem>)
    ensures PriceFilterOn(p) ==> forall i :: 0 <= i < |r| ==> PriceParse.InBucket(r[i].price, p.priceRange.value)
    ensures !PriceFilterOn(p) ==> r == items
    ensures multiset(r) <= multiset(items)
    ensures forall x :: x in r <==> x in items && (PriceFilterOn(p) ==> PriceParse.InBucket(x.price, p.priceRange.value))
  {
    if PriceFilterOn(p) then Seqs.Filter(items, (it: FoodItem) => PriceParse.InBucket(it.price, p.priceRange.value))
    else items
  }

  /** The three filter stages in the order the pipeline applies them. */
  function Filtered(items: seq<FoodItem>, p: Preferences): (r: seq<FoodItem>)
    ensures multiset(r) <= multiset(items)
  {
    ByPrice(ByDiet(ByCategory(items, p), p), p)
  }

  /** The filters keep some of the occurrences, and an item survives exactly
      when it occurs and every filter admits it. */
  lemma FilteredAdmits(items: seq<FoodItem>, p: Preferences)
    ensures multiset(Filtered(items, p)) <= multiset(items)
    ensures forall x :: x in Filtered(items, p) <==> x in items && Admits(p, x)
  {
    var a := ByCategory(items, p);
    var b := ByDiet(a, p);
    assert multiset(ByPrice(b, p)) <= multiset(b) <= multiset(a) <= multiset(items);
  }

  /** The filters keep exactly the admitted occurrences, each as often as
      it occurs in the input. */
  lemma FilteredCount(items: seq<FoodItem>, p: Preferences, x: FoodItem)
    ensures multiset(Filtered(items, p))[x] == if Admits(p, x) then multiset(items)[x] else 0
  {
    var a := ByCategory(items, p);
    var b := ByDiet(a, p);
    if CategoryFilterOn(p) {
      Seqs.FilterCount(items, (it: FoodItem) => it.category == p.category, x);
    }
    if DietFilterOn(p) {
      Seqs.FilterCount(a, (it: FoodItem) => MeetsDiet(it, p.dietaryPreferences.value), x);
    }
    if PriceFilterOn(p) {
      Seqs.FilterCount(b, (it: FoodItem) => PriceParse.InBucket(it.price, p.priceRange.value), x);
    }
  }

  /** Preferences that admit fewer items filter to a smaller collection. */
  lemma FilteredMonotone(items: seq<FoodItem>, p: Preferences, q: Preferences)
    requires forall x :: Admits(p, x) ==> Admits(q, x)
    ensures multiset(Filtered(items, p)) <= multiset(Filtered(items, q))
  {
    forall x ensures multiset(Filtered(items, p))[x] <= multiset(Filtered(items, q))[x] {
      FilteredCount(items, p, x);
      FilteredCount(items, q, x);
    }
  }

  /** Switching on a category filter can only shrink the result. */
  lemma AddingCategoryShrinks(items: seq<FoodItem>, p: Preferences, c: string)
    ensures multiset(Filtered(items, p.(category := Some(c)))) <= multiset(Filtered(items, p.(category := None)))
  {
    FilteredMonotone(items, p.(category := Some(c)), p.(category := None));
  }

  /** Requiring one more dietary tag can only shrink the result. */
  lemma AddingDietaryTagShrinks(items: seq<FoodItem>, p: Preferences, d: seq<string>, t: string)
    ensures multiset(Filtered(items, p.(dietaryPreferences := Some(d + [t]))))
         <= multiset(Filtered(items, p.(dietaryPreferences := Some(d))))
  {
    var p1, p0 := p.(dietaryPreferences := Some(d + [t])), p.(dietaryPreferences := Some(d));
    forall x | Admits(p1, x) ensures Admits(p0, x) {
      forall pref | pref in d ensures HasTag(x, pref) {
        assert pref in d + [t];
      }
    }
    FilteredMonotone(items, p1, p0);
  }

  /** Switching on a price filter can only shrink the result. */
  lemma AddingPriceRangeShrinks(items: seq<FoodItem>, p: Preferences, range: string)
    ensures multiset(Filtered(items, p.(priceRange := Some(range)))) <= multiset(Filtered(items, p.(priceRange := None)))
  {
    FilteredMonotone(items, p.(priceRange := Some(range)), p.(priceRange := None));
  }

  /** `preferences.previousOrders?.includes(id)` */
  predicate Ordered(p: Preferences, id: int) {
    p.previousOrders.Some? && id in p.previousOrders.value
  }

  /** The comparator's order: previously ordered items first, then by popularity. */
  function RankKey(p: Preferences): (key: FoodItem -> Ranking.Rank)
    ensures forall it :: key(it).primary == (if Ordered(p, it.id) then 1 else 0)
    ensures forall it :: key(it).secondary == Popularity(it)
  {
    (it: FoodItem) => Ranking.Rank(if Ordered(p, it.id) then 1 else 0, Popularity(it))
  }

  /** The filtered items in ranked order. */
  function Ranked(items: seq<FoodItem>, p: Preferences): (r: seq<FoodItem>)
    ensures multiset(r) == multiset(Filtered(items, p))
  {
    Ranking.SortDesc(Filtered(items, p), RankKey(p))
  }

  /** `generateRecommendations`: the first three ranked items. */
  function Recommend(items: seq<FoodItem>, p: Preferences): (r: seq<FoodItem>)
    ensures |r| == if |Ranked(items, p)| < 3 then |Ranked(items, p)| else 3
    ensures r == Ranked(items, p)[..|r|]
  {
    Seqs.Take(Ranked(items, p), 3)
  }

  /** The recommendations are the first three of the ranked filtered items
      (all of them when fewer pass), each an admitted item of the input,
      and no item more often than it occurs. */
  lemma RecommendShape(items: seq<FoodItem>, p: Preferences)
    ensures var r := Recommend(items, p);
      && |r| == (if |Filtered(items, p)| < 3 then |Filtered(items, p)| else 3)
      && r == Ranked(items, p)[..|r|]
      && multiset(r) <= multiset(items)
      && forall x :: x in r ==> x in items && Admits(p, x)
  {
    var ranked := Ranked(items, p);
    FilteredAdmits(items, p);
    assert multiset(ranked) == multiset(Filtered(items, p));
    forall x | x in Recommend(items, p) ensures x in items && Admits(p, x) {
      assert x in multiset(ranked);
    }
  }

  /** Every recommendation has the requested category, carries every
      requested dietary tag and lies in the requested price bucket. */
  lemma RecommendationsMatch(items: seq<FoodItem>, p: Preferences, i: nat)
    requires i < |Recommend(items, p)|
    ensures CategoryFilterOn(p) ==> Recommend(items, p)[i].category == p.category
    ensures DietFilterOn(p) ==> forall pref :: pref in p.dietaryPreferences.value ==> HasTag(Recommend(items, p)[i], pref)
    ensures PriceFilterOn(p) ==> PriceParse.InBucket(Recommend(items, p)[i].price, p.priceRange.value)
  {
    RecommendShape(items, p);
    assert Recommend(items, p)[i] in Recommend(items, p);
  }

  /** An item without tags is never recommended under a dietary filter. */
  lemma UntaggedExcluded(items: seq<FoodItem>, p: Preferences, x: FoodItem)
    requires DietFilterOn(p) && x.tags.None?
    ensures x !in Recommend(items, p)
  {
    RecommendShape(items, p);
    var pref := p.dietaryPreferences.value[0];
    assert pref in p.dietaryPreferences.value;
  }

  /** In the ranking, previously ordered items come before the others, and
      within each of the two groups popularity does not increase. */
  lemma RankedOrder(items: seq<FoodItem>, p: Preferences, i: nat, j: nat)
    requires i < j < |Ranked(items, p)|
    ensures Ordered(p, Ranked(items, p)[j].id) ==> Ordered(p, Ranked(items, p)[i].id)
    ensures Ordered(p, Ranked(items, p)[i].id) == Ordered(p, Ranked(items, p)[j].id)
            ==> Popularity(Ranked(items, p)[i]) >= Popularity(Ranked(items, p)[j])
  {
    Ranking.SortDescSorted(Filtered(items, p), RankKey(p));
  }

  /** Ties keep input order: the ranked items of any one rank appear in the
      order the filters left them. */
  lemma RankedStable(items: seq<FoodItem>, p: Preferences, k: Ranking.Rank)
    ensures Ranking.KeyFilter(Ranked(items, p), RankKey(p), k) == Ranking.KeyFilter(Filtered(items, p), RankKey(p), k)
  {
    Ranking.SortDescStable(Filtered(items, p), RankKey(p), k);
  }

  /** `{ ...p, ...u }`; the callers only pass fields they set. */
  function Merge(p: Preferences, u: Preferences): (r: Preferences)
    ensures u.category.Some? ==> r.category == u.category
    ensures u.category.None? ==> r.category == p.category
    ensures u.priceRange.Some? ==> r.priceRange == u.priceRange
    ensures u.priceRange.None? ==> r.priceRange == p.priceRange
    ensures u.dietaryPreferences.Some? ==> r.dietaryPreferences == u.dietaryPreferences
    ensures u.dietaryPreferences.None? ==> r.dietaryPreferences == p.dietaryPreferences
    ensures u.previousOrders.Some? ==> r.previousOrders == u.previousOrders
    ensures u.previousOrders.None? ==> r.previousOrders == p.previousOrders
  {
    Preferences(
      if u.category.Some? then u.category else p.category,
      if u.priceRange.Some? then u.priceRange else p.priceRange,
      if u.dietaryPreferences.Some? then u.dietaryPreferences else p.dietaryPreferences,
      if u.previousOrders.Some? then u.previousOrders else p.previousOrders)
  }

  lemma MergeLaws(p: Preferences, u: Preferences, v: Preferences)
    ensures Merge(p, NoPreferences) == p
    ensures Merge(Merge(p, u), u) == Merge(p, u)
    ensures Merge(Merge(p, u), v) == Merge(p, Merge(u, v))
  {
  }

  /** The `category` field removed, everything else kept. */
  function ClearCategory(p: Preferences): (r: Preferences)
    ensures r.category.None?
    ensures r.priceRange == p.priceRange && r.dietaryPreferences == p.dietaryPreferences
    ensures r.previousOrders == p.previousOrders
  {
    p.(category := None)
  }

  lemma ClearCategoryIdempotent(p: Preferences)
    ensures ClearCategory(ClearCategory(p)) == ClearCategory(p)
    ensures !CategoryFilterOn(ClearCategory(p))
  {
  }

  /** The dietary list with `pref` removed when present, appended otherwise. */
  function Toggle(prefs: seq<string>, pref: string): (r: seq<string>)
    ensures pref in prefs ==> r == Seqs.Remove(prefs, pref)
    ensures pref in prefs ==> pref !in r && forall x :: x in r <==> x in prefs && x != pref
    ensures pref !in prefs ==> r == prefs + [pref]
  {
    if pref in prefs then Seqs.Remove(prefs, pref) else prefs + [pref]
  }

  /** Toggling off a present tag is `filter(p => p !== preference)`: the other
      tags stay in their order and with their repeats, and the tag is gone. */
  lemma ToggleOffKeepsOthers(prefs: seq<string>, pref: string)
    requires pref in prefs
    ensures Seqs.IsSubsequence(Toggle(prefs, pref), prefs)
    ensures multiset(Toggle(prefs, pref)) == multiset(prefs)[pref := 0]
  {
    Seqs.RemoveKeepsOthers(prefs, pref);
  }

  /** Toggling an absent tag twice restores the original list. */
  lemma ToggleTwice(prefs: seq<string>, pref: string)
    requires pref !in prefs
    ensures Toggle(Toggle(prefs, pref), pref) == prefs
  {
    assert pref in prefs + [pref];
    Seqs.RemoveAppend(prefs, [pref], pref);
    Seqs.RemoveAbsent(prefs, pref);
    assert Seqs.Remove([pref], pref) == [];
  }

  /** The list of previous orders after ordering `id`: unchanged when `id`
      is already there, otherwise `id` appended. */
  function RecordOrder(orders: seq<int>, id: int): (r: seq<int>)
    ensures id in r
    ensures id in orders ==> r == orders
    ensures id !in orders ==> r == orders + [id]
    ensures Seqs.NoDuplicates(orders) ==> Seqs.NoDuplicates(r)
  {
    if id in orders then orders else orders + [id]
  }

  /** Every item with id `id` gets one more popularity point (missing counts
      as 0); the others are unchanged. */
  function BumpPopularity(items: seq<FoodItem>, id: int): (r: seq<FoodItem>)
    ensures |r| == |items|
    ensures forall k :: 0 <= k < |r| && items[k].id == id ==>
      r[k] == items[k].(popularity := Some(Popularity(items[k]) + 1))
    ensures forall k :: 0 <= k < |r| && items[k].id != id ==> r[k] == items[k]
  {
    seq(|items|, k requires 0 <= k < |items| =>
      if items[k].id == id then items[k].(popularity := Some(Popularity(items[k]) + 1)) else items[k])
  }

  /** Bumping keeps every item's identity and position. */
  lemma BumpKeepsIds(items: seq<FoodItem>, id: int)
    ensures forall k :: 0 <= k < |items| ==> BumpPopularity(items, id)[k].id == items[k].id
    ensures forall k :: 0 <= k < |items| ==>
      Popularity(BumpPopularity(items, id)[k]) == Popularity(items[k]) + (if items[k].id == id then 1 else 0)
  {
  }

  /** The popular-items order: by popularity alone. */
  function PopularityKey(): (key: FoodItem -> Ranking.Rank)
    ensures forall it :: key(it) == Ranking.Rank(Popularity(it), 0)
  {
    (it: FoodItem) => Ranking.Rank(Popularity(it), 0)
  }

  /** The popular items come in non-increasing popularity. */
  lemma PopularOrder(items: seq<FoodItem>, i: nat, j: nat)
    requires i < j < |Ranking.SortDesc(items, PopularityKey())|
    ensures Popularity(Ranking.SortDesc(items, PopularityKey())[i]) >= Popularity(Ranking.SortDesc(items, PopularityKey())[j])
  {
    Ranking.SortDescSorted(items, PopularityKey());
  }

  /** The five sample items used when nothing is stored. */
  const SampleItems: seq<FoodItem> :=
    [ FoodItem(1, "Margherita Pizza", "Classic pizza with tomato sauce, mozzarella, and fresh basil",
               "$12.99", SampleModelUrl, 0, Some("Main Course"), Some(85), Some(["vegetarian", "italian", "cheese", "tomato"])),
      FoodItem(2, "Chocolate Cake", "Rich chocolate cake with ganache frosting",
               "$8.99", SampleModelUrl, 1, Some("Dessert"), Some(92), Some(["sweet", "chocolate", "dessert"])),
      FoodItem(3, "Caesar Salad", "Fresh romaine lettuce with Caesar dressing, croutons, and parmesan",
               "$9.99", SampleModelUrl, 2, Some("Starter"), Some(78), Some(["healthy", "salad", "cheese"])),
      FoodItem(4, "Beef Burger", "Juicy beef patty with lettuce, tomato, cheese, and special sauce",
               "$14.99", SampleModelUrl, 3, Some("Main Course"), Some(88), Some(["meat", "burger", "american"])),
      FoodItem(5, "Vegetable Curry", "Mixed vegetables in a rich curry sauce with basmati rice",
               "$13.99", SampleModelUrl, 4, Some("Main Course"), Some(75), Some(["vegetarian", "spicy", "curry", "indian"])) ]

  const SampleModelUrl := "https://models.readyplayer.me/64fa0e8d7c2cbd23d77999d9.glb"

  /** Stored items with the popularity and tags that mounting draws at
      random, supplied here as inputs; nothing else of an item changes. */
  function WithRandomData(saved: seq<FoodItem>, popularity: seq<int>, tags: seq<seq<string>>): (r: seq<FoodItem>)
    requires |popularity| == |saved| == |tags|
    ensures |r| == |saved|
    ensures forall k :: 0 <= k < |r| ==> r[k].popularity == Some(popularity[k]) && r[k].tags == Some(tags[k])
    ensures forall k :: 0 <= k < |r| ==> r[k].(popularity := saved[k].popularity, tags := saved[k].tags) == saved[k]
  {
    seq(|saved|, k requires 0 <= k < |saved| => saved[k].(popularity := Some(popularity[k]), tags := Some(tags[k])))
  }

  /** The page's state: the `useState` fields and what was last written
      under `localStorage` "foodItems" and "userPreferences". */
  datatype PageState = PageState(
    foodItems: seq<FoodItem>,
    userPreferences: Preferences,
    recommendations: seq<FoodItem>,
    loading: bool,
    dietaryPreferences: seq<string>,
    priceRange: string,
    selectedCategory: string,
    storedItems: Option<seq<FoodItem>>,
    storedPreferences: Option<Preferences>)

  /** `updateUserPreferences` after its merge: the preferences are set and
      stored, and the recommendations regenerated from the current items. */
  function WithPreferences(st: PageState, p: Preferences): PageState {
    st.(userPreferences := p, storedPreferences := Some(p), recommendations := Recommend(st.foodItems, p))
  }

  /** A `localStorage` entry as the mount effect reads it: nothing stored
      (or the empty string), text `JSON.parse` reads as the value, or text it
      cannot use: not JSON, or for "foodItems" JSON that is not a list. */
  datatype Saved<T> = NotSaved | Parsed(value: T) | Corrupt

  function Present<T>(saved: Saved<T>): Option<T> {
    if saved.Parsed? then Some(saved.value) else None
  }

  /** The state after mounting: stored items get the supplied random
      popularity and tags; with nothing stored the sample items are used and
      written back.  Stored preferences, if any, are loaded.  No
      recommendations yet, still loading, and every selection at 'all'. */
  function InitialState(savedItems: Option<seq<FoodItem>>, savedPreferences: Option<Preferences>,
                        randomPopularity: seq<int>, randomTags: seq<seq<string>>): (st: PageState)
    requires savedItems.Some? ==> |randomPopularity| == |savedItems.value| == |randomTags|
    ensures savedItems.Some? ==> st.foodItems == WithRandomData(savedItems.value, randomPopularity, randomTags)
    ensures savedItems.Some? ==> st.storedItems == savedItems
    ensures savedItems.None? ==> st.foodItems == SampleItems && st.storedItems == Some(SampleItems)
    ensures savedPreferences.Some? ==> st.userPreferences == savedPreferences.value
    ensures savedPreferences.None? ==> st.userPreferences == NoPreferences
    ensures st.storedPreferences == savedPreferences
    ensures st.recommendations == [] && st.loading && st.dietaryPreferences == []
    ensures st.priceRange == "all" && st.selectedCategory == "all"
  {
    PageState(
      if savedItems.Some? then WithRandomData(savedItems.value, randomPopularity, randomTags) else SampleItems,
      if savedPreferences.Some? then savedPreferences.value else NoPreferences,
      [], true, [], "all", "all",
      if savedItems.Some? then savedItems else Some(SampleItems),
      savedPreferences)
  }

  /** The mount effect with its two `JSON.parse` calls: unusable stored
      items or preferences make the effect throw, and the page never reaches
      a state; otherwise it reaches `InitialState`. */
  function Mount(savedItems: Saved<seq<FoodItem>>, savedPreferences: Saved<Preferences>,
                 randomPopularity: seq<int>, randomTags: seq<seq<string>>): (r: Option<PageState>)
    requires savedItems.Parsed? ==> |randomPopularity| == |savedItems.value| == |randomTags|
    ensures r.None? <==> savedItems.Corrupt? || savedPreferences.Corrupt?
    ensures r.Some? ==> r.value == InitialState(Present(savedItems), Present(savedPreferences), randomPopularity, randomTags)
  {
    if savedItems.Corrupt? || savedPreferences.Corrupt? then None
    else Some(InitialState(Present(savedItems), Present(savedPreferences), randomPopularity, randomTags))
  }

  /** The recommendation engine page. */
  class Engine {
    var state: PageState

    /** Mounting with stored entries that parse: the state is
        `InitialState`, which `Mount` reaches in exactly that case. */
    constructor (savedItems: Option<seq<FoodItem>>, savedPreferences: Option<Preferences>,
                 randomPopularity: seq<int>, randomTags: seq<seq<string>>)
      requires savedItems.Some? ==> |randomPopularity| == |savedItems.value| == |randomTags|
      ensures state == InitialState(savedItems, savedPreferences, randomPopularity, randomTags)
    {
      state := InitialState(savedItems, savedPreferences, randomPopularity, randomTags);
    }

    /** The loading delay elapses. */
    method FinishLoading()
      modifies this
      ensures state == old(state).(loading := false)
    {
      state := state.(loading := false);
    }

    /** `updateUserPreferences`: merge, store, and recompute the
        recommendations from the current items. */
    method UpdateUserPreferences(u: Preferences)
      modifies this
      ensures state == WithPreferences(old(state), Merge(old(state).userPreferences, u))
    {
      state := WithPreferences(state, Merge(state.userPreferences, u));
    }

    /** `toggleDietaryPreference`: toggles the page's own list (not the one
        in the stored preferences) and merges it in. */
    method ToggleDietaryPreference(pref: string)
      modifies this
      ensures var toggled := Toggle(old(state).dietaryPreferences, pref);
        state == WithPreferences(old(state), old(state).userPreferences.(dietaryPreferences := Some(toggled)))
                   .(dietaryPreferences := toggled)
    {
      var toggled := Toggle(state.dietaryPreferences, pref);
      UpdateUserPreferences(NoPreferences.(dietaryPreferences := Some(toggled)));
      state := state.(dietaryPreferences := toggled);
    }

    /** `handleCategoryChange`: a real category is merged in; "all" removes
        the field instead. */
    method HandleCategoryChange(category: string)
      modifies this
      ensures category != "all" ==>
        state == WithPreferences(old(state), old(state).userPreferences.(category := Some(category)))
                   .(selectedCategory := category)
      ensures category == "all" ==>
        state == WithPreferences(old(state), ClearCategory(old(state).userPreferences))
                   .(selectedCategory := category)
    {
      if category != "all" {
        UpdateUserPreferences(NoPreferences.(category := Some(category)));
      } else {
        state := WithPreferences(state, ClearCategory(state.userPreferences));
      }
      state := state.(selectedCategory := category);
    }

    /** `handlePriceRangeChange` */
    method HandlePriceRangeChange(range: string)
      modifies this
      ensures state == WithPreferences(old(state), old(state).userPreferences.(priceRange := Some(range)))
                         .(priceRange := range)
    {
      UpdateUserPreferences(NoPreferences.(priceRange := Some(range)));
      state := state.(priceRange := range);
    }

    /** `handleOrderItem`: records the order unless already recorded (which
        recomputes the recommendations from the items as they were), then
        bumps the item's popularity and stores the items. */
    method HandleOrderItem(id: int)
      modifies this
      ensures var prev := old(state).userPreferences.previousOrders.GetOr([]);
        var recorded := if id in prev then old(state)
          else WithPreferences(old(state), old(state).userPreferences.(previousOrders := Some(RecordOrder(prev, id))));
        var bumped := BumpPopularity(old(state).foodItems, id);
        state == recorded.(foodItems := bumped, storedItems := Some(bumped))
    {
      var previousOrders := state.userPreferences.previousOrders.GetOr([]);
      if id !in previousOrders {
        UpdateUserPreferences(NoPreferences.(previousOrders := Some(previousOrders + [id])));
      }
      var updated := BumpPopularity(state.foodItems, id);
      state := state.(foodItems := updated, storedItems := Some(updated));
    }

    /** The popular-items panel: sorts the item list itself, in place, by
        popularity (no state setter is called, so nothing is stored and the
        recommendations stay), then shows the first three. */
    method PopularItems() returns (shown: seq<FoodItem>)
      modifies this
      ensures state == old(state).(foodItems := Ranking.SortDesc(old(state).foodItems, PopularityKey()))
      ensures shown == Seqs.Take(state.foodItems, 3)
    {
      state := state.(foodItems := Ranking.SortDesc(state.foodItems, PopularityKey()));
      shown := Seqs.Take(state.foodItems, 3);
    }
  }

  /** Ordering never creates a duplicate in the list of previous orders. */
  lemma OrderKeepsNoDuplicates(p: Preferences, id: int)
    requires p.previousOrders.Some? ==> Seqs.NoDuplicates(p.previousOrders.value)
    ensures Seqs.NoDuplicates(RecordOrder(p.previousOrders.GetOr([]), id))
  {
  }
}

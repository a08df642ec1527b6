/** The AR menu page: the category and subcategory vocabularies derived from
    the items, the two-level filter, the selection handlers and the display
    helpers for names, descriptions and prices. */
module ArMenu {
  import opened Wrappers
  import opened Text
  import Seqs
  import PriceParse
  import opened Records

  function CategoryOf(item: Record): Value {
    Get(item, "category")
  }

  function SubcategoryOf(item: Record): Value {
    Get(item, "subcategory")
  }

  /** `items.map(item => item.category)` */
  function CategoryColumn(items: seq<Record>): (r: seq<Value>)
    ensures |r| == |items|
    ensures forall i :: 0 <= i < |items| ==> r[i] == CategoryOf(items[i])
  {
    seq(|items|, i requires 0 <= i < |items| => CategoryOf(items[i]))
  }

  /** `items.map(item => item.subcategory)` */
  function SubcategoryColumn(items: seq<Record>): (r: seq<Value>)
    ensures |r| == |items|
    ensures forall i :: 0 <= i < |items| ==> r[i] == SubcategoryOf(items[i])
  {
    seq(|items|, i requires 0 <= i < |items| => SubcategoryOf(items[i]))
  }

  /** `Array.from(new Set(foodItems.map(item => item.category)))`: every
      category value once, `undefined` and "" included. */
  function Categories(items: seq<Record>): (r: seq<Value>)
    ensures Seqs.NoDuplicates(r)
    ensures forall v :: v in r <==> exists i :: 0 <= i < |items| && CategoryOf(items[i]) == v
  {
    var column := CategoryColumn(items);
    assert forall i :: 0 <= i < |items| ==> column[i] in column;
    Seqs.Distinct(column)
  }

  /** The categories come in the order in which they first occur among the items. */
  lemma CategoriesFirstSeen(items: seq<Record>, i: nat, j: nat)
    requires i < j < |Categories(items)|
    ensures Categories(items)[i] in CategoryColumn(items) && Categories(items)[j] in CategoryColumn(items)
    ensures Seqs.FirstIndex(CategoryColumn(items), Categories(items)[i])
          < Seqs.FirstIndex(CategoryColumn(items), Categories(items)[j])
  {
    Seqs.DistinctFirstSeenOrder(CategoryColumn(items), i, j);
  }

  /** The items whose category is exactly `selected`. */
  function InCategory(items: seq<Record>, selected: Value): (r: seq<Record>)
    ensures forall x :: x in r <==> x in items && CategoryOf(x) == selected
  {
    Seqs.Filter(items, (it: Record) => CategoryOf(it) == selected)
  }

  /** The subcategories offered for the selected category: none without a
      (truthy) selection, otherwise the distinct subcategories of the items
      of that category, as they first occur. */
  function Subcategories(items: seq<Record>, selected: Value): (r: seq<Value>)
    ensures !Truthy(selected) ==> r == []
    ensures Seqs.NoDuplicates(r)
  {
    if Truthy(selected) then Seqs.Distinct(SubcategoryColumn(InCategory(items, selected)))
    else []
  }

  /** With a selection, the subcategory of every item of the selected
      category is offered. */
  lemma SubcategoryOffered(items: seq<Record>, selected: Value, i: nat)
    requires Truthy(selected) && i < |items| && CategoryOf(items[i]) == selected
    ensures SubcategoryOf(items[i]) in Subcategories(items, selected)
  {
    var members := InCategory(items, selected);
    assert items[i] in members;
    var k :| 0 <= k < |members| && members[k] == items[i];
    assert SubcategoryColumn(members)[k] == SubcategoryOf(items[i]);
  }

  /** Every offered subcategory is that of some item of the selected category. */
  lemma SubcategorySource(items: seq<Record>, selected: Value, v: Value)
    requires Truthy(selected) && v in Subcategories(items, selected)
    ensures exists i :: 0 <= i < |items| && CategoryOf(items[i]) == selected && SubcategoryOf(items[i]) == v
  {
    var members := InCategory(items, selected);
    var column := SubcategoryColumn(members);
    var k :| 0 <= k < |column| && column[k] == v;
    assert members[k] in members;
    var i :| 0 <= i < |items| && items[i] == members[k];
  }

  /** The subcategories come in the order in which they first occur among
      the items of the selected category. */
  lemma SubcategoriesFirstSeen(items: seq<Record>, selected: Value, i: nat, j: nat)
    requires Truthy(selected) && i < j < |Subcategories(items, selected)|
    ensures var column := SubcategoryColumn(InCategory(items, selected));
      && Subcategories(items, selected)[i] in column && Subcategories(items, selected)[j] in column
      && Seqs.FirstIndex(column, Subcategories(items, selected)[i]) < Seqs.FirstIndex(column, Subcategories(items, selected)[j])
  {
    Seqs.DistinctFirstSeenOrder(SubcategoryColumn(InCategory(items, selected)), i, j);
  }

  /** The page's item filter: a truthy category selection must match, and so
      must a truthy subcategory selection. */
  predicate Shown(item: Record, category: Value, subcategory: Value) {
    !(Truthy(category) && CategoryOf(item) != category)
    && !(Truthy(subcategory) && SubcategoryOf(item) != subcategory)
  }

  function FilteredItems(items: seq<Record>, category: Value, subcategory: Value): (r: seq<Record>)
    ensures forall x :: x in r <==>
      (x in items && (!Truthy(category) || CategoryOf(x) == category)
       && (!Truthy(subcategory) || SubcategoryOf(x) == subcategory))
    ensures multiset(r) <= multiset(items)
  {
    Seqs.Filter(items, (it: Record) => Shown(it, category, subcategory))
  }

  /** The filter keeps the items' order, and keeps every item when nothing is selected. */
  lemma FilteredItemsOrder(items: seq<Record>, category: Value, subcategory: Value)
    ensures Seqs.IsSubsequence(FilteredItems(items, category, subcategory), items)
    ensures !Truthy(category) && !Truthy(subcategory) ==> FilteredItems(items, category, subcategory) == items
  {
    Seqs.FilterIsSubsequence(items, (it: Record) => Shown(it, category, subcategory));
    if !Truthy(category) && !Truthy(subcategory) {
      Seqs.FilterAll(items, (it: Record) => Shown(it, category, subcategory));
    }
  }

  /** The two selections of the page; the initial state selects nothing. */
  class Selection {
    var category: Value
    var subcategory: Value

    constructor ()
      ensures category == Null && subcategory == Null
    {
      category := Null;
      subcategory := Null;
    }

    /** The "All" button. */
    method SelectAll()
      modifies this
      ensures category == Null && subcategory == Null
    {
      category := Null;
      subcategory := Null;
    }

    /** A category button: the subcategory selection is always reset. */
    method SelectCategory(c: Value)
      modifies this
      ensures category == c && subcategory == Null
    {
      category := c;
      subcategory := Null;
    }

    /** The "All <category>" button of the subcategory row. */
    method ClearSubcategory()
      modifies this
      ensures subcategory == Null && category == old(category)
    {
      subcategory := Null;
    }

    method SelectSubcategory(s: Value)
      modifies this
      ensures subcategory == s && category == old(category)
    {
      subcategory := s;
    }
  }

  /** `capitalize`: "" for a missing or empty text, otherwise the first
      character upper-cased (ASCII) and the rest unchanged. */
  function Capitalize(text: Option<string>): (r: string)
    ensures text.None? || text == Some("") ==> r == ""
    ensures text.Some? && text.value != "" ==>
      |r| == |text.value| && r[0] == ToUpperAscii(text.value[0]) && r[1..] == text.value[1..]
  {
    if text.None? || text.value == "" then "" else [ToUpperAscii(text.value[0])] + text.value[1..]
  }

  lemma CapitalizeIdempotent(s: string)
    ensures Capitalize(Some(Capitalize(Some(s)))) == Capitalize(Some(s))
  {
  }

  /** A comma directly followed by an ASCII letter at position `i`. */
  predicate CommaBeforeLetter(s: string, i: int) {
    0 <= i && i + 1 < |s| && s[i] == ',' && IsAsciiLetter(s[i + 1])
  }

  /** `s.replace(/,([a-zA-Z])/g, ", $1")`, scanning as the regular expression
      does: a match consumes the comma and the letter. */
  function SpaceCommas(s: string): (r: string)
    ensures |r| >= |s|
  {
    if s == [] then []
    else if CommaBeforeLetter(s, 0) then ", " + [s[1]] + SpaceCommas(s[2..])
    else [s[0]] + SpaceCommas(s[1..])
  }

  /** Reference definition, character by character: a space goes after
      every comma that is directly followed by a letter. */
  function Spaced(s: string): (r: string)
    ensures s != [] ==> r != [] && r[0] == s[0]
  {
    if s == [] then [] else (if CommaBeforeLetter(s, 0) then ", " else [s[0]]) + Spaced(s[1..])
  }

  lemma {:induction false} SpaceCommasIsSpaced(s: string)
    ensures SpaceCommas(s) == Spaced(s)
  {
    if s != [] {
      if CommaBeforeLetter(s, 0) {
        SpaceCommasIsSpaced(s[2..]);
        assert s[1..][1..] == s[2..];
        assert !CommaBeforeLetter(s[1..], 0);
      } else {
        SpaceCommasIsSpaced(s[1..]);
      }
    }
  }

  /** After spacing, no comma is directly followed by a letter. */
  lemma {:induction false} SpacedHasNoCommaBeforeLetter(s: string)
    ensures forall i :: !CommaBeforeLetter(Spaced(s), i)
  {
    if s != [] {
      SpacedHasNoCommaBeforeLetter(s[1..]);
      var head := if CommaBeforeLetter(s, 0) then ", " else [s[0]];
      var tail := Spaced(s[1..]);
      assert Spaced(s) == head + tail;
      forall i ensures !CommaBeforeLetter(head + tail, i) {
        if i >= |head| {
          assert !CommaBeforeLetter(tail, i - |head|);
          if i + 1 < |head + tail| {
            assert (head + tail)[i] == tail[i - |head|] && (head + tail)[i + 1] == tail[i - |head| + 1];
          }
        } else if i + 1 == |head| && tail != [] {
          // the last character of the head is followed by the first of s[1..]
          assert (head + tail)[i + 1] == s[1];
        }
      }
    }
  }

  /** Text without a comma before a letter is left as it is. */
  lemma {:induction false} SpacedFixed(s: string)
    requires forall i :: !CommaBeforeLetter(s, i)
    ensures Spaced(s) == s
  {
    if s != [] {
      assert !CommaBeforeLetter(s, 0);
      forall i ensures !CommaBeforeLetter(s[1..], i) {
        assert !CommaBeforeLetter(s, i + 1);
      }
      SpacedFixed(s[1..]);
    }
  }

  /** Spacing the commas twice is the same as once. */
  lemma SpaceCommasIdempotent(s: string)
    ensures SpaceCommas(SpaceCommas(s)) == SpaceCommas(s)
  {
    SpaceCommasIsSpaced(s);
    SpacedHasNoCommaBeforeLetter(s);
    SpaceCommasIsSpaced(Spaced(s));
    SpacedFixed(Spaced(s));
  }

  /** `item.description?.replace(...)`: nothing shown for a missing description. */
  function DescriptionText(description: Option<string>): (r: Option<string>)
    ensures r.Some? <==> description.Some?
    ensures description.Some? ==> r.value == Spaced(description.value)
  {
    SpaceCommasIsSpaced(description.GetOr(""));
    if description.Some? then Some(SpaceCommas(description.value)) else None
  }

  /** What `formatPrice` shows: a fixed text, or the number rendered with
      two decimals after "$" (`toFixed(2)`, not modelled further). */
  datatype PriceText = Plain(text: string) | DollarsFixed2(amount: PriceParse.Number)

  /** `formatPrice`: "N/A" for `undefined` or `null`; a string that does not
      start with a number is shown as it is. */
  function FormatPrice(price: Value): (r: PriceText)
    ensures price.Missing? || price.Null? ==> r == Plain("N/A")
    ensures price.Str? && PriceParse.ParseFloat(price.text).None? ==> r == Plain(price.text)
    ensures price.Str? && PriceParse.ParseFloat(price.text).Some? ==> r == DollarsFixed2(PriceParse.ParseFloat(price.text).value)
    ensures price.Num? ==> r == DollarsFixed2(PriceParse.Finite(price.number, 0))
  {
    match price
    case Missing => Plain("N/A")
    case Null => Plain("N/A")
    case Num(n) => DollarsFixed2(PriceParse.Finite(n, 0))
    case Str(s) =>
      match PriceParse.ParseFloat(s)
      case None => Plain(s)
      case Some(n) => DollarsFixed2(n)
  }

  /** A price written with its dollar sign is shown unchanged. */
  lemma DollarPriceShownAsIs(s: string)
    requires s != [] && s[0] == '$'
    ensures FormatPrice(Str(s)) == Plain(s)
  {
    PriceParse.DollarIsNotANumber(s);
  }
}

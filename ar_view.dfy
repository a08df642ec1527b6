/** The AR view page: the item named by the route, its model URL, the related
    items shown below it and the zoom buttons. */
module ArView {
  import opened Wrappers
  import opened Text
  import Seqs
  import opened Records

  /** `item.id.toString()`; `None` where that call throws. */
  function IdText(item: Record): Option<string> {
    ToStr(Get(item, "id"))
  }

  /** Every item has a string or numeric id, so `toString` never throws. */
  predicate HasIds(items: seq<Record>) {
    forall i :: 0 <= i < |items| ==> IdText(items[i]).Some?
  }

  /** The outcome of `find`: the index of the item found, none, or an
      exception thrown by the callback on an item without an id. */
  datatype Lookup = Found(index: nat) | NotFound | Threw
  {
    /** The lookup went past position `j` without stopping there. */
    predicate Passes(j: nat) {
      (Found? && j < index) || NotFound?
    }
  }

  /** `foodItems.find(item => item.id.toString() === id)`: the first item
      whose id, as a string, is the route's id. */
  function FindItem(items: seq<Record>, id: string): (r: Lookup)
    ensures r.Found? ==> r.index < |items| && IdText(items[r.index]) == Some(id)
  {
    if items == [] then NotFound
    else match IdText(items[0])
      case None => Threw
      case Some(t) =>
        if t == id then Found(0)
        else
          match FindItem(items[1..], id)
          case Found(k) => Found(k + 1)
          case NotFound => NotFound
          case Threw => Threw
  }

  /** The lookup stops at the first match: every item before it has an id,
      and not this one; and it reports none only when every item has an id
      and none matches. */
  lemma FindItemFirst(items: seq<Record>, id: string)
    ensures var r := FindItem(items, id);
      r.Found? ==> forall j :: 0 <= j < r.index ==> IdText(items[j]).Some? && IdText(items[j]) != Some(id)
    ensures FindItem(items, id).NotFound? ==> forall j :: 0 <= j < |items| ==> IdText(items[j]).Some? && IdText(items[j]) != Some(id)
  {
    forall j | 0 <= j < |items| && FindItem(items, id).Passes(j)
      ensures IdText(items[j]).Some? && IdText(items[j]) != Some(id)
    {
      FindItemPasses(items, id, j);
    }
  }

  /** An item the lookup went past has an id, and not the route's. */
  lemma {:induction false} FindItemPasses(items: seq<Record>, id: string, j: nat)
    requires j < |items| && FindItem(items, id).Passes(j)
    ensures IdText(items[j]).Some? && IdText(items[j]) != Some(id)
  {
    if j > 0 {
      var rest := items[1..];
      FindItemPasses(rest, id, j - 1);
      assert rest[j - 1] == items[j];
    }
  }

  /** The lookup throws only where some item has no id. */
  lemma {:induction false} FindItemThrows(items: seq<Record>, id: string)
    ensures FindItem(items, id).Threw? ==> exists j :: 0 <= j < |items| && IdText(items[j]).None?
  {
    if items != [] && IdText(items[0]).Some? && IdText(items[0]).value != id {
      var rest := items[1..];
      FindItemThrows(rest, id);
      if FindItem(rest, id).Threw? {
        var j :| 0 <= j < |rest| && IdText(rest[j]).None?;
        assert rest[j] == items[j + 1];
      }
    }
  }

  /** With every id present the lookup never throws, and it finds an item
      exactly when some item carries the route's id. */
  lemma FindItemWithIds(items: seq<Record>, id: string)
    requires HasIds(items)
    ensures !FindItem(items, id).Threw?
    ensures FindItem(items, id).Found? <==> exists j :: 0 <= j < |items| && IdText(items[j]) == Some(id)
  {
    FindItemFirst(items, id);
  }

  /** `modelUrl.startsWith("/uploads") ? "http://localhost:5000" + modelUrl : modelUrl` */
  function ModelSourceUrl(modelUrl: string): (r: string)
    ensures StartsWith(modelUrl, "/uploads") ==> r == "http://localhost:5000" + modelUrl
    ensures !StartsWith(modelUrl, "/uploads") ==> r == modelUrl
  {
    if StartsWith(modelUrl, "/uploads") then "http://localhost:5000" + modelUrl else modelUrl
  }

  /** `modelSourceUrl` for the route: `undefined` when no item is found;
      for a found item its resolved `modelUrl`; `None` where evaluating it
      throws: in the lookup, or calling `startsWith` on a found item whose
      `modelUrl` is not a string (absent, `null` or a number). */
  function ItemModelSource(items: seq<Record>, id: string): (r: Option<Value>)
    ensures FindItem(items, id).NotFound? ==> r == Some(Missing)
    ensures r.None? <==>
      (FindItem(items, id).Threw? || (FindItem(items, id).Found? && !Get(items[FindItem(items, id).index], "modelUrl").Str?))
    ensures FindItem(items, id).Found? && Get(items[FindItem(items, id).index], "modelUrl").Str? ==>
      r == Some(Str(ModelSourceUrl(Get(items[FindItem(items, id).index], "modelUrl").text)))
  {
    match FindItem(items, id)
    case Threw => None
    case NotFound => Some(Missing)
    case Found(k) =>
      match Get(items[k], "modelUrl")
      case Str(url) => Some(Str(ModelSourceUrl(url)))
      case _ => None
  }

  /** Resolving an already resolved URL changes nothing, and an uploaded
      model is always fetched from the back end's `/uploads` route. */
  lemma ModelSourceUrlIdempotent(modelUrl: string)
    ensures ModelSourceUrl(ModelSourceUrl(modelUrl)) == ModelSourceUrl(modelUrl)
    ensures StartsWith(modelUrl, "/uploads") ==> StartsWith(ModelSourceUrl(modelUrl), "http://localhost:5000/uploads")
  {
    var r := ModelSourceUrl(modelUrl);
    if StartsWith(modelUrl, "/uploads") {
      assert r[0] == 'h';
      assert !StartsWith(r, "/uploads") by {
        assert |r| >= 8 ==> r[..8][0] == 'h';
      }
      assert r[..29] == "http://localhost:5000" + modelUrl[..8];
    }
  }

  predicate Relates(item: Record, category: Value, id: string) {
    CategoryOf(item) == category && IdText(item) != Some(id)
  }

  function CategoryOf(item: Record): Value {
    Get(item, "category")
  }

  /** The filter callback `item.category === foodItem.category &&
      item.id.toString() !== id`, over all items; `None` where it throws
      (an item of the same category without an id). */
  function RelatedFilter(items: seq<Record>, category: Value, id: string): (r: Option<seq<Record>>)
    ensures r.Some? ==> forall x :: x in r.value ==> x in items && Relates(x, category, id) && IdText(x).Some?
  {
    if items == [] then Some([])
    else
      var rest := RelatedFilter(items[1..], category, id);
      if CategoryOf(items[0]) != category then rest
      else if IdText(items[0]).None? || rest.None? then None
      else Some((if IdText(items[0]) != Some(id) then [items[0]] else []) + rest.value)
  }

  /** With every id present, the related filter is an ordinary filter. */
  lemma {:induction false} RelatedFilterWithIds(items: seq<Record>, category: Value, id: string)
    requires HasIds(items)
    ensures RelatedFilter(items, category, id) == Some(Seqs.Filter(items, (x: Record) => Relates(x, category, id)))
  {
    if items != [] {
      assert HasIds(items[1..]) by {
        forall i | 0 <= i < |items| - 1 ensures IdText(items[1..][i]).Some? {
          assert items[1..][i] == items[i + 1];
        }
      }
      RelatedFilterWithIds(items[1..], category, id);
      assert IdText(items[0]).Some?;
      RelatedFilterStep(items, category, id);
      Seqs.FilterStep(items, (x: Record) => Relates(x, category, id));
    }
  }

  lemma RelatedFilterStep(items: seq<Record>, category: Value, id: string)
    requires items != [] && IdText(items[0]).Some? && RelatedFilter(items[1..], category, id).Some?
    ensures RelatedFilter(items, category, id)
         == Some((if Relates(items[0], category, id) then [items[0]] else []) + RelatedFilter(items[1..], category, id).value)
  {
    var rest := RelatedFilter(items[1..], category, id);
    if CategoryOf(items[0]) != category {
      assert RelatedFilter(items, category, id) == rest;
      assert [] + rest.value == rest.value;
    } else {
      assert RelatedFilter(items, category, id)
          == Some((if IdText(items[0]) != Some(id) then [items[0]] else []) + rest.value);
    }
  }

  /** `relatedItems`: up to three other items of the viewed item's category,
      nothing when no item is viewed; `None` where rendering throws. */
  function RelatedItems(items: seq<Record>, id: string): (r: Option<seq<Record>>)
    ensures FindItem(items, id).NotFound? ==> r == Some([])
    ensures FindItem(items, id).Threw? ==> r.None?
    ensures r.Some? ==> |r.value| <= 3
    ensures FindItem(items, id).Found? && r.Some? ==> forall x :: x in r.value ==>
      x in items && CategoryOf(x) == CategoryOf(items[FindItem(items, id).index])
      && IdText(x).Some? && IdText(x) != Some(id)
  {
    match FindItem(items, id)
    case Threw => None
    case NotFound => Some([])
    case Found(k) =>
      match RelatedFilter(items, CategoryOf(items[k]), id)
      case None => None
      case Some(related) =>
        var shown := Seqs.Take(related, 3);
        assert forall x :: x in shown ==> x in related;
        Some(shown)
  }

  /** With every id present nothing throws, and the related items keep the
      menu's order: they are the first three of an order-preserving filter. */
  lemma RelatedItemsOrder(items: seq<Record>, id: string)
    requires HasIds(items) && FindItem(items, id).Found?
    ensures RelatedItems(items, id).Some?
    ensures var c := CategoryOf(items[FindItem(items, id).index]);
      RelatedItems(items, id).value == Seqs.Take(Seqs.Filter(items, (x: Record) => Relates(x, c, id)), 3)
    ensures var c := CategoryOf(items[FindItem(items, id).index]);
      Seqs.IsSubsequence(Seqs.Filter(items, (x: Record) => Relates(x, c, id)), items)
  {
    var c := CategoryOf(items[FindItem(items, id).index]);
    RelatedFilterWithIds(items, c, id);
    Seqs.FilterIsSubsequence(items, (x: Record) => Relates(x, c, id));
  }

  /** The zoom level counted in half steps: level = halfSteps / 2. */
  const MinZoom := 1
  const MaxZoom := 6
  const DefaultZoom := 2

  /** `Math.min(prev + 0.5, 3)` */
  function ZoomedIn(h: int): (r: int)
    ensures r <= MaxZoom
    ensures h < MaxZoom ==> r == h + 1
    ensures h >= MaxZoom ==> r == MaxZoom
  {
    if h + 1 < MaxZoom then h + 1 else MaxZoom
  }

  /** `Math.max(prev - 0.5, 0.5)` */
  function ZoomedOut(h: int): (r: int)
    ensures r >= MinZoom
    ensures h > MinZoom ==> r == h - 1
    ensures h <= MinZoom ==> r == MinZoom
  {
    if h - 1 > MinZoom then h - 1 else MinZoom
  }

  /** In range, one step out undoes one step in below the maximum, and
      one step in undoes one step out above the minimum. */
  lemma ZoomRoundTrips(h: int)
    requires MinZoom <= h <= MaxZoom
    ensures h < MaxZoom ==> ZoomedOut(ZoomedIn(h)) == h
    ensures h > MinZoom ==> ZoomedIn(ZoomedOut(h)) == h
    ensures MinZoom <= ZoomedIn(h) <= MaxZoom && MinZoom <= ZoomedOut(h) <= MaxZoom
  {
  }

  datatype ZoomButton = ZoomIn | ZoomOut | Reset

  function Press(h: int, b: ZoomButton): int {
    match b
    case ZoomIn => ZoomedIn(h)
    case ZoomOut => ZoomedOut(h)
    case Reset => DefaultZoom
  }

  function PressAll(h: int, presses: seq<ZoomButton>): int
    decreases |presses|
  {
    if presses == [] then h else PressAll(Press(h, presses[0]), presses[1..])
  }

  /** Starting anywhere in range, no sequence of button presses leaves it. */
  lemma {:induction false} ZoomStaysInRange(h: int, presses: seq<ZoomButton>)
    requires MinZoom <= h <= MaxZoom
    ensures MinZoom <= PressAll(h, presses) <= MaxZoom
    decreases |presses|
  {
    if presses != [] {
      ZoomStaysInRange(Press(h, presses[0]), presses[1..]);
    }
  }

  /** The page's zoom state. */
  class Zoom {
    var halfSteps: int

    ghost predicate Valid()
      reads this
    {
      MinZoom <= halfSteps <= MaxZoom
    }

    constructor ()
      ensures halfSteps == DefaultZoom && Valid()
    {
      halfSteps := DefaultZoom;
    }

    method HandleZoomIn()
      requires Valid()
      modifies this
      ensures Valid() && halfSteps == ZoomedIn(old(halfSteps))
    {
      halfSteps := ZoomedIn(halfSteps);
    }

    method HandleZoomOut()
      requires Valid()
      modifies this
      ensures Valid() && halfSteps == ZoomedOut(old(halfSteps))
    {
      halfSteps := ZoomedOut(halfSteps);
    }

    method HandleResetView()
      modifies this
      ensures Valid() && halfSteps == DefaultZoom
    {
      halfSteps := DefaultZoom;
    }
  }
}

# menuARt core, modelled in Dafny

This project models the deterministic logic of the menuARt restaurant menu: a
React front end with an AR viewer, a rule-based recommendation page, a chat
page and a password-gated admin screen, plus a Flask back end over Firestore.
Everything that talks to the outside world is replaced by a parameter or an
in-memory value:

- a `fetch` is replaced by its outcome (`MenuApi.Fetch`);
- `localStorage` is replaced by fields holding the last value written;
- Firestore becomes a `Backend.Firestore` object with three maps;
- `uuid4`, `secure_filename`, `encodeURIComponent` and `URL.createObjectURL`
  become uninterpreted functions or values passed in;
- the random popularity and tags assigned on mount are passed in.

The modules follow the source files:

| module | models |
|---|---|
| `RecommendationEngine` (`recommendation_engine.dfy`) | `AIRecommendationEngine.tsx`: the filter / rank / take-3 pipeline as functions, and the page's handlers as the class `Engine` over one state record |
| `PriceParse` (`price_parse.dfy`) | `parseFloat` on the price string as an exact decimal (mantissa and power of ten), and the three price buckets |
| `Ranking` (`ranking.dfy`) | the stable descending sort that `Array.prototype.sort` performs with the page's comparators |
| `ArMenu` (`ar_menu.dfy`) | `ARMenuPage.tsx`: categories, subcategories, the two-level filter, the selection class, `capitalize`, comma spacing, `formatPrice` |
| `ArView` (`ar_view.dfy`) | `ARViewPage.tsx`: the `find` lookup (including the exception a missing id raises), model URL resolution, related items, zoom in half steps |
| `AdminPanel` (`admin_panel.dfy`) | `AdminPanel.tsx`: the item provider and the panel's state machine, as two classes |
| `MenuApi` (`menu_api.dfy`) | `menuApi.ts`: URLs, the multipart payload (with the `forEach` loop), the read fallback and the rethrown write failures |
| `Backend` (`backend.dfy`) | `app.py`: `allowed_file`, upload decisions, record preparation, the category and subcategory writes, the read-side shaping, `menu_context` |
| `Chat` (`chat.dfy`) | `RecommendationsPage.tsx`: the transcript and loading state machine |
| `Records`, `Text`, `Seqs`, `Wrappers` | JavaScript objects as ordered property lists, string helpers, `filter` / `slice` / `new Set` and `Option` |

Two behaviours of the code that a reader might not expect, and that the
model keeps:

- `getMenuItems` (src/api/menuApi.ts:17-30) falls back to the cached items
  inside its `catch` block, and calls `JSON.parse` on the cached text there
  (line 28). A corrupt cache therefore makes it throw
  (`MenuApi.GetMenuItems`, case `StoredCorrupt`).
- `handleSubmit` (src/components/AdminPanel.tsx:253-295) issues no request
  when neither edit mode nor the add form is open, but it still refreshes
  the items and resets the form (`AdminPanel.Panel.HandleSubmit`).

Where each source function lives in the model:

| source | Dafny |
|---|---|
| `generateRecommendations` | `RecommendationEngine.Recommend` = `Seqs.Take(Ranked(..), 3)`; `Ranked` sorts `Filtered`, the three stages `ByCategory`, `ByDiet`, `ByPrice`; `Admits` is the per-item reference predicate |
| `parseFloat` and the price `switch` | `PriceParse.ParseFloat`, `PriceParse.PriceOf`, `PriceParse.InBucket` |
| `updateUserPreferences`, `toggleDietaryPreference`, `handleCategoryChange`, `handlePriceRangeChange`, `handleOrderItem` | the methods of `RecommendationEngine.Engine`, over `Merge`, `Toggle`, `ClearCategory`, `RecordOrder`, `BumpPopularity` |
| the mount effect of the recommendation page | `RecommendationEngine.Mount`, `InitialState`, `Engine.constructor` |
| `categories`, `subcategories`, `filteredItems` | `ArMenu.Categories`, `ArMenu.Subcategories`, `ArMenu.FilteredItems` with the predicate `ArMenu.Shown` |
| the description's comma `replace` | `ArMenu.SpaceCommas`, with the reference definition `ArMenu.Spaced` |
| `foodItems.find`, `modelSourceUrl`, `relatedItems` | `ArView.FindItem`, `ArView.ItemModelSource` and `ArView.ModelSourceUrl`, `ArView.RelatedItems` |
| `allowed_file` | `Backend.AllowedFile` |
| `get_categories`, `get_subcategories` | `Backend.CategoryNames`, `Backend.GetSubcategories` with the grouping `Backend.Grouped` |
| the `menu_context` loop | `Backend.MenuContext`, one `Backend.MenuLine` per item, fields by `Backend.FieldText` |
| `handleSendMessage` | `Chat.ChatSession.SendMessage` and `ReceiveReply`; one whole send is `Chat.Turn`, a sequence of them `Chat.Conversation` |
| the endpoint paths | `MenuApi.MenuUrl`, `ItemUrl`, `UploadUrl`, `CategoryUrl`, `SubcategoryUrl` |

## Model

| member | source | states |
|---|---|---|
| RecommendationEngine.Popularity | src/components/AIRecommendationEngine.tsx:236 | `popularity` or 0 when it is missing |
| RecommendationEngine.ByCategory | src/components/AIRecommendationEngine.tsx:194-196 | with a category other than 'all' set, every result has that category; otherwise the list is unchanged; no occurrence is added; an item is kept iff it occurs and matches |
| RecommendationEngine.ByDiet | src/components/AIRecommendationEngine.tsx:199-206 | with a non-empty tag list, every result has, for each requested tag, some item tag that contains it, both lower-cased; otherwise the list is unchanged; nothing is added |
| RecommendationEngine.ByPrice | src/components/AIRecommendationEngine.tsx:209-223 | with a range other than 'all' set, every result's price lies in that bucket; otherwise unchanged; nothing is added |
| RecommendationEngine.Admits | src/components/AIRecommendationEngine.tsx:194-223 | the reference predicate for one item: every active filter of the three accepts it (no ensures; used by `FilteredAdmits` and `RecommendShape`) |
| RecommendationEngine.Filtered | src/components/AIRecommendationEngine.tsx:191-223 | the three filter stages in source order; never adds an occurrence |
| RecommendationEngine.FilteredAdmits | src/components/AIRecommendationEngine.tsx:191-223 | the three filters together never add an occurrence, and an item survives iff it occurs and every active filter admits it |
| RecommendationEngine.FilteredCount | src/components/AIRecommendationEngine.tsx:191-223 | each admitted item is kept exactly as often as it occurs, any other item not at all |
| RecommendationEngine.FilteredMonotone | src/components/AIRecommendationEngine.tsx:191-223 | preferences that admit fewer items filter to a sub-multiset |
| RecommendationEngine.AddingCategoryShrinks | src/components/AIRecommendationEngine.tsx:194-196 | setting a category can only shrink the filtered multiset |
| RecommendationEngine.AddingDietaryTagShrinks | src/components/AIRecommendationEngine.tsx:199-206 | requiring one more dietary tag can only shrink it |
| RecommendationEngine.AddingPriceRangeShrinks | src/components/AIRecommendationEngine.tsx:209-223 | setting a price range can only shrink it |
| RecommendationEngine.RankKey | src/components/AIRecommendationEngine.tsx:226-237 | the comparator's rank: 1 for a previously ordered id, else 0, then popularity |
| RecommendationEngine.Ranked | src/components/AIRecommendationEngine.tsx:226-237 | the sort of line 226 over the filtered items: a permutation of them |
| RecommendationEngine.Recommend | src/components/AIRecommendationEngine.tsx:189-241 | `generateRecommendations`: min(3, number ranked) items, the head of the ranked list |
| RecommendationEngine.RecommendShape | src/components/AIRecommendationEngine.tsx:189-240 | the recommendations are exactly min(3, number filtered) items, the head of the ranked list, drawn from the item list and admitted by every filter |
| RecommendationEngine.RecommendationsMatch | src/components/AIRecommendationEngine.tsx:194-223 | each recommendation has the requested category, every requested tag and the requested price bucket |
| RecommendationEngine.UntaggedExcluded | src/components/AIRecommendationEngine.tsx:203 | under a dietary filter an item without tags is never recommended |
| RecommendationEngine.RankedOrder | src/components/AIRecommendationEngine.tsx:226-237 | previously ordered items come before the others; within each group popularity does not increase |
| RecommendationEngine.RankedStable | src/components/AIRecommendationEngine.tsx:226-237 | items of equal rank keep the order the filters left them in |
| RecommendationEngine.Merge | src/components/AIRecommendationEngine.tsx:151 | each field given in the update overrides; every other field is kept |
| RecommendationEngine.MergeLaws | src/components/AIRecommendationEngine.tsx:150-153 | merging nothing is the identity; merging the same update twice equals once; merges compose |
| RecommendationEngine.ClearCategory | src/components/AIRecommendationEngine.tsx:175 | `category` removed, the other three fields kept |
| RecommendationEngine.ClearCategoryIdempotent | src/components/AIRecommendationEngine.tsx:174-178 | choosing 'all' twice equals once, and leaves no category filter |
| RecommendationEngine.Toggle | src/components/AIRecommendationEngine.tsx:161-163 | a present tag is filtered out (`Seqs.Remove`): it no longer occurs and every other tag still does; an absent one is appended |
| RecommendationEngine.ToggleOffKeepsOthers | src/components/AIRecommendationEngine.tsx:162 | toggling off keeps the other tags in their order and with their repeats: a subsequence whose multiset is the old one without the tag |
| RecommendationEngine.ToggleTwice | src/components/AIRecommendationEngine.tsx:160-167 | toggling an absent tag twice restores the list |
| RecommendationEngine.RecordOrder | src/components/AIRecommendationEngine.tsx:245-249 | the id is appended only when absent, so a duplicate-free list stays duplicate-free |
| RecommendationEngine.OrderKeepsNoDuplicates | src/components/AIRecommendationEngine.tsx:245-249 | ordering keeps the stored previous orders duplicate-free, a missing list counting as empty |
| RecommendationEngine.BumpPopularity | src/components/AIRecommendationEngine.tsx:252-257 | same length and order; the matching items gain one popularity point with missing counted as 0; all other items unchanged |
| RecommendationEngine.BumpKeepsIds | src/components/AIRecommendationEngine.tsx:252-257 | every position keeps its id, and popularity rises by exactly one where the id matches |
| RecommendationEngine.PopularityKey | src/components/AIRecommendationEngine.tsx:384 | the popular-items comparator ranks by popularity alone |
| RecommendationEngine.PopularOrder | src/components/AIRecommendationEngine.tsx:383-385 | the popular items come in non-increasing popularity |
| RecommendationEngine.WithRandomData | src/components/AIRecommendationEngine.tsx:36-43 | stored items get the supplied popularity and tags, and nothing else of an item changes |
| RecommendationEngine.WithPreferences | src/components/AIRecommendationEngine.tsx:150-157 | `updateUserPreferences` after its merge: preferences set and stored, recommendations recomputed from the current items (no ensures; it is the whole new state in the ensures of `Engine.UpdateUserPreferences` and the handlers built on it) |
| RecommendationEngine.InitialState | src/components/AIRecommendationEngine.tsx:32-117 | stored items with their random data, or the five sample items written back; stored preferences or none; no recommendations; loading; 'all' selections |
| RecommendationEngine.Mount | src/components/AIRecommendationEngine.tsx:32-117 | the mount throws iff the stored items (line 36) or the stored preferences (line 115) cannot be parsed; otherwise it reaches `InitialState` |
| RecommendationEngine.Engine.constructor | src/components/AIRecommendationEngine.tsx:32-117 | mounting with stored entries that parse gives exactly `InitialState` |
| RecommendationEngine.Engine.FinishLoading | src/components/AIRecommendationEngine.tsx:108-110 | only `loading` becomes false |
| RecommendationEngine.Engine.UpdateUserPreferences | src/components/AIRecommendationEngine.tsx:150-157 | the merged preferences are set and stored, and the recommendations recomputed from the current items |
| RecommendationEngine.Engine.ToggleDietaryPreference | src/components/AIRecommendationEngine.tsx:160-167 | the page's own tag list is toggled and merged into the preferences |
| RecommendationEngine.Engine.HandleCategoryChange | src/components/AIRecommendationEngine.tsx:170-180 | a real category is merged in; 'all' removes the field, stores and recomputes; the selection is recorded |
| RecommendationEngine.Engine.HandlePriceRangeChange | src/components/AIRecommendationEngine.tsx:183-186 | the range is recorded and merged in |
| RecommendationEngine.Engine.HandleOrderItem | src/components/AIRecommendationEngine.tsx:244-262 | the order is recorded unless already there; then the popularity is bumped and the items stored |
| RecommendationEngine.Engine.PopularItems | src/components/AIRecommendationEngine.tsx:383-385 | the item list itself becomes its stable sort by popularity, nothing else changes, and the first three are shown |
| Ranking.SortDesc | src/components/AIRecommendationEngine.tsx:226-237 | the sorted list is a permutation of the input |
| Ranking.SortDescSorted | src/components/AIRecommendationEngine.tsx:226-237 | the sorted list is in descending rank order |
| Ranking.SortDescStable | src/components/AIRecommendationEngine.tsx:226-237 | elements of equal rank keep their input order |
| PriceParse.UnsignedPrefixOfDecimal | src/components/AIRecommendationEngine.tsx:211 | digits, a point and digits are read whole, as the exact decimal they denote |
| PriceParse.ParseFloat | src/components/AIRecommendationEngine.tsx:211 | `parseFloat`: leading white space, a sign, then the longest numeric prefix, else NaN (no ensures; its properties are the lemmas of this module) |
| PriceParse.InBucket | src/components/AIRecommendationEngine.tsx:212-221 | the price `switch` on the parsed price (no ensures; see `BucketsPartitionNumbers`, `CentsPriceBucket`) |
| PriceParse.PriceOf | src/components/AIRecommendationEngine.tsx:211 | `parseFloat(item.price.replace('$', ''))` (no ensures; characterised by `PriceOfDollarPrefix` and `CentsPriceValue`) |
| PriceParse.PriceOfDollarPrefix | src/components/AIRecommendationEngine.tsx:211 | removing the '$' of a "$..." price leaves `parseFloat` of the rest |
| PriceParse.CentsPriceValue | src/components/AIRecommendationEngine.tsx:211 | a "$d.cc" price parses to exactly d + cc/100 |
| PriceParse.CentsPriceBucket | src/components/AIRecommendationEngine.tsx:211-218 | a "$d.cc" price is low iff d < 10, medium iff 10 <= d < 15, high iff d >= 15 |
| PriceParse.BoundaryPrices | src/components/AIRecommendationEngine.tsx:211-218 | "$9.99" is low and not medium; "$10.00" is medium and not low; "$14.99" is medium; "$15.00" is high |
| PriceParse.BelowIffNotAtLeast | src/components/AIRecommendationEngine.tsx:214-218 | `p < c` and `p >= c` are complementary on numbers |
| PriceParse.BucketsPartitionNumbers | src/components/AIRecommendationEngine.tsx:213-218 | every number lies in exactly one of the three buckets |
| PriceParse.UnparseableFailsEveryBucket | src/components/AIRecommendationEngine.tsx:212-220 | NaN fails low, medium and high, and an unknown range value keeps every item |
| PriceParse.DollarIsNotANumber | src/components/ARMenuPage.tsx:43-44 | a string beginning with '$' has no numeric prefix, so `parseFloat` gives NaN |
| ArMenu.Categories | src/components/ARMenuPage.tsx:14-16 | each category value once, `undefined` and "" included, and only values some item has |
| ArMenu.CategoriesFirstSeen | src/components/ARMenuPage.tsx:14-16 | the categories come in the order they first occur |
| ArMenu.InCategory | src/components/ARMenuPage.tsx:23 | the items whose category is exactly the selection |
| ArMenu.Subcategories | src/components/ARMenuPage.tsx:19-27 | empty without a truthy selection; never a repeated value |
| ArMenu.SubcategoryOffered | src/components/ARMenuPage.tsx:19-27 | the subcategory of every item of the selected category is offered |
| ArMenu.SubcategorySource | src/components/ARMenuPage.tsx:19-27 | every offered subcategory belongs to some item of the selected category |
| ArMenu.SubcategoriesFirstSeen | src/components/ARMenuPage.tsx:19-27 | subcategories come in the order they first occur in that category |
| ArMenu.FilteredItems | src/components/ARMenuPage.tsx:30-38 | an item is kept iff it matches a truthy category selection and a truthy subcategory selection; nothing is added |
| ArMenu.Shown | src/components/ARMenuPage.tsx:30-38 | the filter callback: no truthy selection it fails (no ensures; used by `FilteredItems`) |
| ArMenu.FilteredItemsOrder | src/components/ARMenuPage.tsx:30-38 | the filter keeps input order, and with no selection it keeps the whole list |
| ArMenu.Selection.constructor | src/components/ARMenuPage.tsx:8-11 | both selections start as `null` |
| ArMenu.Selection.SelectAll | src/components/ARMenuPage.tsx:82-85 | "All" clears both selections |
| ArMenu.Selection.SelectCategory | src/components/ARMenuPage.tsx:103-106 | choosing a category always resets the subcategory |
| ArMenu.Selection.ClearSubcategory | src/components/ARMenuPage.tsx:136 | only the subcategory is cleared |
| ArMenu.Selection.SelectSubcategory | src/components/ARMenuPage.tsx:154 | only the subcategory is set |
| ArMenu.Capitalize | src/components/ARMenuPage.tsx:49-52 | "" for missing or empty text; otherwise same length, first character upper-cased, the rest unchanged |
| ArMenu.CapitalizeIdempotent | src/components/ARMenuPage.tsx:49-52 | capitalising twice equals once |
| ArMenu.SpaceCommas | src/components/ARMenuPage.tsx:194 | the left-to-right scan of the global `replace`; never shortens the text; equal to the reference `Spaced` by `SpaceCommasIsSpaced` |
| ArMenu.SpaceCommasIsSpaced | src/components/ARMenuPage.tsx:194 | the regular-expression replacement equals the reference definition that puts a space after every comma followed by a letter and changes nothing else |
| ArMenu.SpacedHasNoCommaBeforeLetter | src/components/ARMenuPage.tsx:194 | after spacing, no comma is directly followed by a letter |
| ArMenu.SpacedFixed | src/components/ARMenuPage.tsx:194 | text without a comma before a letter is unchanged |
| ArMenu.SpaceCommasIdempotent | src/components/ARMenuPage.tsx:194 | spacing twice equals spacing once |
| ArMenu.DescriptionText | src/components/ARMenuPage.tsx:194 | nothing for a missing description, otherwise the spaced text |
| ArMenu.FormatPrice | src/components/ARMenuPage.tsx:41-46 | "N/A" for `undefined` and `null`; the text unchanged when it has no numeric prefix; otherwise the parsed amount for `toFixed(2)` |
| ArMenu.DollarPriceShownAsIs | src/components/ARMenuPage.tsx:41-46 | a price written with its '$', such as "$12.99", is shown unchanged |
| ArView.FindItem | src/components/ARViewPage.tsx:13 | a found index is in range and its item's id text is the route id |
| ArView.FindItemFirst | src/components/ARViewPage.tsx:13 | every item before the found one has an id that differs; "not found" means every item has an id and none matches |
| ArView.FindItemThrows | src/components/ARViewPage.tsx:13 | the lookup throws only when some item has no id |
| ArView.FindItemWithIds | src/components/ARViewPage.tsx:13 | with every id present it never throws, and it finds an item iff some item carries the route id |
| ArView.ModelSourceUrl | src/components/ARViewPage.tsx:16-18 | a "/uploads" URL gets the back end's origin in front; any other is used as it is |
| ArView.ItemModelSource | src/components/ARViewPage.tsx:13-18 | `undefined` when no item is found; the resolved URL of a found item's string `modelUrl`; throws iff the lookup throws or the found item's `modelUrl` is not a string |
| ArView.ModelSourceUrlIdempotent | src/components/ARViewPage.tsx:16-18 | resolving twice equals once; an uploaded model always resolves under "http://localhost:5000/uploads" |
| ArView.RelatedFilter | src/components/ARViewPage.tsx:21-27 | every kept item occurs in the list, has the category, has an id, and not the route id; `None` where the callback throws |
| ArView.RelatedFilterWithIds | src/components/ARViewPage.tsx:21-27 | with every id present, the related filter is an ordinary filter |
| ArView.RelatedItems | src/components/ARViewPage.tsx:21-28 | empty when nothing is found; at most three; each shares the viewed item's category and has a different id |
| ArView.RelatedItemsOrder | src/components/ARViewPage.tsx:21-28 | with every id present, the related items are the first three of an order-preserving filter |
| ArView.ZoomedIn | src/components/ARViewPage.tsx:47-49 | half a step up, capped at 3 |
| ArView.ZoomedOut | src/components/ARViewPage.tsx:52-54 | half a step down, floored at 0.5 |
| ArView.ZoomRoundTrips | src/components/ARViewPage.tsx:47-54 | in range, zooming out undoes zooming in below the cap, and the reverse above the floor |
| ArView.ZoomStaysInRange | src/components/ARViewPage.tsx:47-58 | no sequence of button presses leaves [0.5, 3] |
| ArView.Zoom.constructor | src/components/ARViewPage.tsx:10 | the zoom starts at 1 |
| ArView.Zoom.HandleZoomIn | src/components/ARViewPage.tsx:47-49 | the level becomes the capped step up and stays in range |
| ArView.Zoom.HandleZoomOut | src/components/ARViewPage.tsx:52-54 | the level becomes the floored step down and stays in range |
| ArView.Zoom.HandleResetView | src/components/ARViewPage.tsx:57-58 | the level returns to 1 |
| AdminPanel.FoodItemsProvider.constructor | src/components/AdminPanel.tsx:28-29 | no items, loading |
| AdminPanel.FoodItemsProvider.Refresh | src/components/AdminPanel.tsx:31-41 | loading ends false; the list becomes what `getMenuItems` returns, or stays as it was when that throws |
| AdminPanel.AddCategoryName | src/components/AdminPanel.tsx:307-317 | a name that is blank after trimming is refused; any other is appended untrimmed, even when already listed |
| AdminPanel.AddSubcategoryName | src/components/AdminPanel.tsx:319-337 | both inputs must be non-blank; the name is appended to that category's list, created when absent; no other category changes; it throws exactly when the category is no own key of the object but an inherited `Object.prototype` member |
| AdminPanel.AddSubcategoryThrowsOnlyOnInherited | src/components/AdminPanel.tsx:329-335 | a category that has its own list never throws; "constructor" without one always does |
| AdminPanel.Panel.constructor | src/components/AdminPanel.tsx:57-106 | the initial state: unauthenticated, empty form, the three initial categories and their subcategories |
| AdminPanel.Panel.SetPassword | src/components/AdminPanel.tsx:58 | only the typed password changes |
| AdminPanel.Panel.HandleLogin | src/components/AdminPanel.tsx:125-134 | only "admin123" authenticates, and success clears the password; a wrong password changes nothing |
| AdminPanel.Panel.HandleLogout | src/components/AdminPanel.tsx:136-141 | authentication, selection and both modes are cleared |
| AdminPanel.Panel.HandleInputChange | src/components/AdminPanel.tsx:144-154 | only the named form field changes |
| AdminPanel.Panel.HandleModelUpload | src/components/AdminPanel.tsx:157-172 | with a file, its object URL becomes the preview and the form's model URL; without one nothing changes |
| AdminPanel.Panel.HandleEdit | src/components/AdminPanel.tsx:175-181 | edit mode on the item, add form closed, the form and preview from the item |
| AdminPanel.Panel.HandleDelete | src/components/AdminPanel.tsx:184-187 | only records the id and opens the modal |
| AdminPanel.Panel.CancelDelete | src/components/AdminPanel.tsx:217-220 | closes the modal and clears the id |
| AdminPanel.Panel.ConfirmDelete | src/components/AdminPanel.tsx:190-214 | nothing without a recorded id; otherwise the delete request is issued, and on success the items are refreshed and the selection cleared iff it was the deleted item; on failure the error is set; the modal is closed, the id cleared and loading false either way |
| AdminPanel.Panel.HandleAddNew | src/components/AdminPanel.tsx:223-251 | add form open with the new-item defaults, edit mode, selection and model cleared |
| AdminPanel.Panel.HandleSubmit | src/components/AdminPanel.tsx:253-295 | an update when editing a selected item, an add when the add form is open, no call otherwise; success refreshes and resets form, file, preview, selection and both modes; failure only sets the error; loading ends false |
| AdminPanel.Panel.HandleCancel | src/components/AdminPanel.tsx:297-304 | modes, selection, model and error cleared; the form keeps its contents |
| AdminPanel.Panel.SetNewCategoryName | src/components/AdminPanel.tsx:104 | only the category input changes |
| AdminPanel.Panel.SetNewSubcategoryName | src/components/AdminPanel.tsx:105 | only the subcategory input changes |
| AdminPanel.Panel.SetSelectedCategoryForSub | src/components/AdminPanel.tsx:106 | only the chosen category changes |
| AdminPanel.Panel.HandleAddCategory | src/components/AdminPanel.tsx:307-317 | a blank name changes nothing; otherwise it is appended and the input cleared |
| AdminPanel.Panel.HandleAddSubcategory | src/components/AdminPanel.tsx:319-337 | needs both inputs non-blank; then the name is appended under the category and the name input cleared; reports a crash exactly when the updater throws, leaving the state as it was |
| AdminPanel.Panel.HandleShowMenuQrCode | src/components/AdminPanel.tsx:340-344 | the AR menu URL is set and the modal opened |
| AdminPanel.Panel.HandleCloseMenuQrModal | src/components/AdminPanel.tsx:347-350 | the modal is closed and the URL cleared |
| MenuApi.ApiUrl | src/api/menuApi.ts:2 | the configured URL when it is non-empty, otherwise "http://localhost:5000/api" |
| MenuApi.MenuUrl | src/api/menuApi.ts:19 | the collection route `API_URL + "/menu"` (no ensures; see `ItemUrlExtendsMenuUrl`, `AddRequest`) |
| MenuApi.UploadUrl | src/api/menuApi.ts:125 | the upload route `API_URL + "/upload"` (no ensures) |
| MenuApi.CategoryUrl | src/api/menuApi.ts:171 | the category route with the encoded name (no ensures) |
| MenuApi.SubcategoryUrl | src/api/menuApi.ts:219-221 | the subcategory route with both names encoded (no ensures) |
| MenuApi.ItemUrl | src/api/menuApi.ts:86 | the item route `${API_URL}/menu/${id}`, used at line 106 too (no ensures; characterised by `ItemUrlExtendsMenuUrl`) |
| MenuApi.ItemUrlExtendsMenuUrl | src/api/menuApi.ts:86 | every item route lies under the collection route followed by '/' |
| MenuApi.FormFields | src/api/menuApi.ts:38-48 | one part per property, plus one when a model file is given |
| MenuApi.FormFieldsParts | src/api/menuApi.ts:41-43 | part i is property i's name with its string form, "" for a falsy value |
| MenuApi.FormFieldsLast | src/api/menuApi.ts:46-48 | the model file, when given, is the last part |
| MenuApi.FormFieldsRoundTrip | src/api/menuApi.ts:38-48 | a parser reading the payload gets each property's string form back, and nothing for a property the item lacks |
| MenuApi.BuildFormData | src/api/menuApi.ts:38-48 | the `forEach` loop builds exactly the payload `FormFields` describes |
| MenuApi.AddRequest | src/api/menuApi.ts:50-53 | POST to the API URL + "/menu" with the payload |
| MenuApi.UpdateRequest | src/api/menuApi.ts:86-89 | PUT to the API URL + "/menu/" + id with the payload |
| MenuApi.DeleteRequest | src/api/menuApi.ts:106-108 | DELETE to the API URL + "/menu/" + id with no body |
| MenuApi.WriteOutcome | src/api/menuApi.ts:55-60 | a result is returned iff the response is ok and its body is readable, and it is the field read from the body |
| MenuApi.DeleteOutcome | src/api/menuApi.ts:110-112 | the delete returns iff the response is ok |
| MenuApi.FailedWritesThrow | src/api/menuApi.ts:55-63 | a network failure or a non-ok response never yields a result |
| MenuApi.GetMenuItems | src/api/menuApi.ts:17-30 | the server's list on an ok, readable response; otherwise the cached list, or [] with no cache |
| MenuApi.GetMenuItemsThrowsOnlyOnCorruptCache | src/api/menuApi.ts:17-30 | the read throws iff the server fails and the cache is corrupt |
| Backend.LastDot | backend/app.py:121 | the position of the last '.', with no '.' after it; none iff there is no '.' |
| Backend.AllowedFile | backend/app.py:120-121 | `allowed_file` (no ensures; characterised by `AllowedFileIff`) |
| Backend.AllowedFileIff | backend/app.py:118-121 | allowed iff there is a '.' and the text after the last one, lower-cased, is png/jpg/jpeg/gif/glb/gltf |
| Backend.AllowedFileLength | backend/app.py:118-121 | an allowed name has at least four characters |
| Backend.MixedCaseLastExtensionAllowed | backend/app.py:118-121 | "a.tar.GLB" is allowed |
| Backend.BareExtensionRefused | backend/app.py:121 | "glb" is refused |
| Backend.UploadFile | backend/app.py:239-265 | 400 "No file part", 400 "No selected file", 400 "File type not allowed", otherwise stored under the sanitised name with URL "/uploads/" + name |
| Backend.UploadRefusalsAre400 | backend/app.py:243-265 | every refusal is a 400, and an empty name is never allowed |
| Backend.WithUploads | backend/app.py:160-174 | modelUrl and imageUrl are overwritten only for accepted files, with the upload origin and sanitised name; nothing else changes |
| Backend.PrepareNewItem | backend/app.py:150-174 | a non-empty supplied id is kept, otherwise the fresh id; the upload URLs use that id; other fields kept |
| Backend.PrepareUpdate | backend/app.py:195-216 | the path id always replaces the form's id; upload URLs as above; other fields kept |
| Backend.PrepareUpdateIdempotent | backend/app.py:195-216 | preparing an already prepared record again under the same id without files changes no field |
| Backend.MergeFieldsGet | backend/app.py:221 | after the update a field reads as in the data if the data has it, else as before |
| Backend.AddMenuItem | backend/app.py:147-184 | the prepared record is written whole under its id when there is a database and returned with the success message |
| Backend.UpdateMenuItem | backend/app.py:192-223 | the prepared fields are merged into the stored document; a missing document gives 500 |
| Backend.ClearNames | backend/app.py:405 | the merge write keeps other fields and sets `names` to [] |
| Backend.AddCategoryForgetsNames | backend/app.py:403-405 | re-adding a category wipes its stored subcategory names |
| Backend.AddCategory | backend/app.py:385-412 | 503 without a database, 500 on a non-JSON body, 400 without a name, else 201 with both writes |
| Backend.AddSubcategoryDoc | backend/app.py:448-467 | 400 without both names; with a document, appended (201) only when absent, else unchanged (200); without one, created with exactly [name] (201); no other document changes |
| Backend.AddSubcategoryKeepsNamesDistinct | backend/app.py:455-461 | adding keeps a duplicate-free names list duplicate-free |
| Backend.AddSubcategoryIdempotent | backend/app.py:455-463 | a repeated request reports "already exists" and changes nothing |
| Backend.DeleteSubcategoryDoc | backend/app.py:482-495 | 200 iff the document exists and lists the name, which then loses every occurrence; otherwise 404 with the store unchanged |
| Backend.AddThenDeleteRestores | backend/app.py:455-490 | deleting a name just added to a stored list restores the store |
| Backend.AddSubcategory | backend/app.py:439-473 | 503 without a database, 500 on a non-JSON body, else the outcome of `AddSubcategoryDoc` |
| Backend.DeleteSubcategory | backend/app.py:476-495 | 503 without a database, else the outcome of `DeleteSubcategoryDoc` |
| Backend.CategoryNames | backend/app.py:338-350 | [] without a database; otherwise the truthy entries of the per-document name column, filtered in order: only truthy names, each from some document |
| Backend.NameColumn | backend/app.py:344-346 | one `get('name')` per streamed document, in stream order |
| Backend.CategoryNamesOrder | backend/app.py:346 | the names keep stream order, and each truthy name appears once per document carrying it |
| Backend.AddToGroup | backend/app.py:371-373 | a new category key is added last; an existing key keeps its place |
| Backend.LookupAddToGroup | backend/app.py:371-373 | the name is appended under its category and no other list changes |
| Backend.GroupedNames | backend/app.py:366-374 | each category maps to exactly the names of its listed documents, in document order |
| Backend.GroupedKeys | backend/app.py:366-374 | the keys are the listed categories, each once, in first-seen order |
| Backend.Grouped | backend/app.py:366-374 | the reference grouping the loop builds (no ensures; characterised by `GroupedNames`, `GroupedKeys`) |
| Backend.WrittenNamesNeverRead | backend/app.py:368-370 | documents as the writes leave them have no `category` or `name`, so the read side lists nothing |
| Backend.GetSubcategories | backend/app.py:358-374 | the loop builds exactly the grouping `Grouped` describes |
| Backend.MenuContext | backend/app.py:301-306 | the `+=` loop builds one line per item, or the fixed text when there are none |
| Backend.FieldText | backend/app.py:304 | `item.get(key, 'N/A')` formatted by the f-string (no ensures) |
| Backend.MenuLine | backend/app.py:304 | one item's line of the context (no ensures; see `MenuLineNewlines`) |
| Backend.MenuLineNewlines | backend/app.py:304 | a line whose fields hold no line break ends in exactly one |
| Backend.MenuContextLineCount | backend/app.py:301-306 | the context has one line per item when no field holds a line break |
| Chat.AnswerText | src/components/RecommendationsPage.tsx:36-49 | the server's `response` on an ok, readable reply, the apology otherwise |
| Chat.Turn | src/components/RecommendationsPage.tsx:19-52 | one whole send: the old transcript is a prefix, and it grows by two messages iff the input is not blank |
| Chat.Conversation | src/components/RecommendationsPage.tsx:10-52 | the transcript after a sequence of sends (no ensures; see `ConversationShape`, `ConversationExtends`) |
| Chat.TurnAlternates | src/components/RecommendationsPage.tsx:19-52 | a send and its answer keep the transcript alternating and ending on an answer |
| Chat.ConversationShape | src/components/RecommendationsPage.tsx:10-52 | every conversation alternates, ends on an answer and holds two messages per non-blank input |
| Chat.ConversationExtends | src/components/RecommendationsPage.tsx:23-49 | the transcript is append-only: each earlier stage is a prefix of every later one |
| Chat.ChatSession.constructor | src/components/RecommendationsPage.tsx:10-17 | a single greeting, empty input, not loading |
| Chat.ChatSession.SetInputText | src/components/RecommendationsPage.tsx:115 | only the input changes |
| Chat.ChatSession.SendMessage | src/components/RecommendationsPage.tsx:19-25 | a blank input changes nothing; otherwise the untrimmed text is appended as the customer's, the input cleared and loading set |
| Chat.ChatSession.ReceiveReply | src/components/RecommendationsPage.tsx:40-51 | exactly one answer is appended and loading ends |
| Chat.ChatSession.HandleKeyPress | src/components/RecommendationsPage.tsx:55-58 | Enter sends only when not loading; any other key changes nothing |
| Chat.ChatSession.Exchange | src/components/RecommendationsPage.tsx:19-53 | a whole send with its answer is one turn of the transcript |
| Records.Get | src/components/ARViewPage.tsx:25 | a property read such as `item.category`: `undefined` for a key the object lacks, and otherwise a value the object holds under that key |
| Records.Set | src/components/AdminPanel.tsx:149-152 | the set key reads the new value and every other key reads as before |
| Records.SetKeys | src/components/AdminPanel.tsx:149-152 | property order is kept; a new key goes last |
| Records.SetKeepsUniqueKeys | src/components/AdminPanel.tsx:149-152 | setting never creates a second property of the same name |
| Records.FormString | src/api/menuApi.ts:42 | `value?.toString()`, else "": a string is sent as it is and a number as its decimal text (the empty cases: `FormStringEmpty`) |
| Records.FormStringEmpty | src/api/menuApi.ts:42 | the form string is "" exactly for `undefined`, `null` and ""; the number 0 is sent as "0" |
| Records.TemplateString | src/api/menuApi.ts:86 | an id interpolates as its string; `undefined` and `null` are spelled out |
| Records.ToStr | src/components/ARViewPage.tsx:13 | `toString` throws exactly on `undefined` and `null` |
| Text.IntToStringInjective | src/components/ARViewPage.tsx:13 | numeric ids with the same string are equal |
| Text.TrimEmptyIffBlank | src/components/RecommendationsPage.tsx:20 | `trim()` is empty exactly for the all-white-space strings |
| Text.Lower | src/components/AIRecommendationEngine.tsx:203 | lower-casing keeps the length and maps each character |
| Text.RemoveFirst | src/components/AIRecommendationEngine.tsx:211 | `replace('$', '')`: a string without '$' is unchanged, one with it loses exactly one character, and a leading '$' is the one removed (any position: `RemoveFirstAt`) |
| Text.RemoveFirstAt | src/components/AIRecommendationEngine.tsx:211 | for the position of the first occurrence, the result is the string without that character |
| Seqs.Distinct | src/components/ARMenuPage.tsx:14-16 | `Array.from(new Set(...))`: the same values, each once |
| Seqs.DistinctFirstSeenOrder | src/components/ARMenuPage.tsx:14-16 | the distinct values come in first-occurrence order |
| Seqs.Take | src/components/AIRecommendationEngine.tsx:240 | `slice(0, n)`: min(n, length) elements, a prefix |
| Seqs.Remove | src/components/AIRecommendationEngine.tsx:162 | `filter(x => x !== t)`: no longer than the input; exactly the other values occur |
| Seqs.RemoveKeepsOthers | src/components/AIRecommendationEngine.tsx:162 | the removal is a subsequence with every other value's count unchanged and `t`'s count zero |
| Seqs.FilterIsSubsequence | src/components/ARMenuPage.tsx:30-38 | filtering keeps the order of what it keeps |

## Left out

- Rendering, styling, routing, the model-viewer script injection and the
  `resetTurntable` / `cameraOrbit` calls: they are presentation only.
- `fetch`, `FormData` internals, `localStorage`, Firestore, file saving and
  `send_from_directory`: each is an outcome passed in or a map field.
- `get_menu`, `delete_menu_item` and `delete_category` in `backend/app.py`:
  these handlers are not part of this model.
- The client's `getCategories`, `addCategory`, `deleteCategory`,
  `getSubcategories`, `addSubcategory` and `deleteSubcategory`: each is one
  request followed by a status check. Only their URLs (`MenuApi.CategoryUrl`,
  `MenuApi.SubcategoryUrl`) are modelled.
- The recommend endpoint's LangChain / OpenAI chain: a foreign call. Only
  `menu_context` is modelled; the prompt template has no slot for it, so the
  text it builds does not reach the model. The chat page takes the reply as a parameter.
- Randomness: `generateRandomTags` and the random popularity on mount are
  inputs to `Engine`'s constructor.
- Timers, `alert` and logging: the loading delay is the separate method
  `FinishLoading`; the focus timer and alerts have no state effect.
- React batching and asynchrony. Each handler is one atomic method, and each
  awaited call is replaced by its outcome. `Chat.ChatSession.SendMessage` and
  `ReceiveReply` split `handleSendMessage` at its `await`.
- Floating point: prices are exact decimals. `toFixed(2)` rounding in
  `formatPrice` is not modelled; the model returns the parsed amount.
- Stored "userPreferences" text that parses to something other than an
  object (`null`, a number) is taken as absent; the mount does not throw on
  it, and what later spreads of it would do is not modelled.
- Numbers in items are integers. Non-string values in a JSON request body
  (`data.get('name')` returning a number, say) are not modelled: a body field
  is an optional string.
- Case mapping is ASCII only: `toLowerCase`, `toUpperCase` and Python's `lower`
  on other letters are not modelled.
- `uuid4`, `secure_filename`, `encodeURIComponent` and `URL.createObjectURL`
  are parameters with no properties assumed.
- The Firestore stream's document order and ids are taken as given sequences.
- RecommendationEngine.Engine.PopularItems: the in-place sort of the
  `foodItems` state array is modelled as reassigning that field with its
  sorted contents. Aliasing between React state and the sorted array is
  therefore not modelled.
- Ranking.SortDesc: `Array.prototype.sort` is modelled by this reference
  stable sort. Both agree because a stable sort is determined by the
  comparator's order and the input alone.
- AdminPanel.Panel.HandleAddSubcategory: after the updater throws, React
  unmounts the panel; the model reports `crashed` and keeps the last state,
  and does not model the unmounting.
- The client's subcategory object is a map with the own keys only; inherited
  `Object.prototype` members are recognised by name (`ObjectPrototypeKeys`),
  and only where a read of one makes the code throw.
- The `useState` hooks of the admin panel and of the recommendation engine
  are fields of one state record (`PanelState`, `PageState`) that each
  handler replaces.

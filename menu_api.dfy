/** The front end's menu API client: the base URL, the endpoint paths, the
    multipart payload of an added or updated item, the read fallback to the
    cached items and the rethrowing of failed writes.  A `fetch` is replaced
    by its outcome, passed in. */
module MenuApi {
  import opened Wrappers
  import opened Text
  import opened Records

  const DefaultApiUrl := "http://localhost:5000/api"

  /** `import.meta.env.VITE_API_URL || "http://localhost:5000/api"` */
  function ApiUrl(configured: Option<string>): (r: string)
    ensures configured.Some? && configured.value != "" ==> r == configured.value
    ensures configured.None? || configured == Some("") ==> r == DefaultApiUrl
  {
    if configured.Some? && configured.value != "" then configured.value else DefaultApiUrl
  }

  function MenuUrl(api: string): string {
    api + "/menu"
  }

  /** `${API_URL}/menu/${id}` */
  function ItemUrl(api: string, id: Value): string {
    api + "/menu/" + TemplateString(id)
  }

  function UploadUrl(api: string): string {
    api + "/upload"
  }

  /** `${API_URL}/categories/${encodeURIComponent(name)}`; the encoder is a parameter. */
  function CategoryUrl(api: string, encode: string -> string, name: string): string {
    api + "/categories/" + encode(name)
  }

  /** `${API_URL}/subcategories/${encode(category)}/${encode(name)}` */
  function SubcategoryUrl(api: string, encode: string -> string, category: string, name: string): string {
    api + "/subcategories/" + encode(category) + "/" + encode(name)
  }

  /** The item routes all lie under the collection route. */
  lemma ItemUrlExtendsMenuUrl(api: string, id: Value)
    ensures StartsWith(ItemUrl(api, id), MenuUrl(api) + "/")
    ensures |ItemUrl(api, id)| > |MenuUrl(api)|
  {
    assert ItemUrl(api, id)[..|MenuUrl(api) + "/"|] == MenuUrl(api) + "/";
  }

  /** An uploaded file, known here only by its name. */
  datatype File = File(name: string)

  /** One part of a multipart form. */
  datatype FormPart = TextPart(name: string, value: string) | FilePart(name: string, file: File)

  /** The payload `addMenuItem` and `updateMenuItem` build: one text part per
      property of the item, in property order, then the model file if any. */
  function FormFields(item: Record, modelFile: Option<File>): (form: seq<FormPart>)
    ensures |form| == |item| + (if modelFile.Some? then 1 else 0)
  {
    if item == [] then (if modelFile.Some? then [FilePart("modelFile", modelFile.value)] else [])
    else [TextPart(item[0].key, FormString(item[0].value))] + FormFields(item[1..], modelFile)
  }

  lemma {:induction false} FormFieldsParts(item: Record, modelFile: Option<File>, i: nat)
    requires i < |item|
    ensures FormFields(item, modelFile)[i] == TextPart(item[i].key, FormString(item[i].value))
  {
    if i > 0 {
      FormFieldsParts(item[1..], modelFile, i - 1);
    }
  }

  lemma {:induction false} FormFieldsLast(item: Record, modelFile: Option<File>)
    ensures modelFile.Some? ==> FormFields(item, modelFile)[|item|] == FilePart("modelFile", modelFile.value)
  {
    if item != [] {
      FormFieldsLast(item[1..], modelFile);
    }
  }

  /** The first text value sent under `name`, as a multipart parser reads it. */
  function FormValue(form: seq<FormPart>, name: string): Option<string> {
    if form == [] then None
    else if form[0].TextPart? && form[0].name == name then Some(form[0].value)
    else FormValue(form[1..], name)
  }

  /** Reading the payload back gives each property's string form, "" for a
      falsy value; a property the item lacks is not sent. */
  lemma {:induction false} FormFieldsRoundTrip(item: Record, modelFile: Option<File>, key: string)
    requires UniqueKeys(item)
    ensures key in Keys(item) ==> FormValue(FormFields(item, modelFile), key) == Some(FormString(Get(item, key)))
    ensures key !in Keys(item) && key != "modelFile" ==> FormValue(FormFields(item, modelFile), key).None?
  {
    if item != [] {
      assert Keys(item[1..]) == Keys(item)[1..];
      assert UniqueKeys(item[1..]) by {
        assert forall i :: 0 <= i < |item| - 1 ==> Keys(item[1..])[i] == Keys(item)[i + 1];
      }
      if item[0].key != key {
        assert key in Keys(item) ==> key in Keys(item[1..]);
      }
      FormFieldsRoundTrip(item[1..], modelFile, key);
    }
  }

  lemma FormFieldsStep(item: Record, i: nat, modelFile: Option<File>)
    requires i < |item|
    ensures FormFields(item[i..], modelFile)
         == [TextPart(item[i].key, FormString(item[i].value))] + FormFields(item[i + 1..], modelFile)
  {
    assert item[i..][1..] == item[i + 1..];
  }

  lemma AppendAssociates<T>(a: seq<T>, b: seq<T>, c: seq<T>)
    ensures (a + b) + c == a + (b + c)
  {
  }

  /** Builds the payload with the `forEach` loop of the source. */
  method BuildFormData(item: Record, modelFile: Option<File>) returns (form: seq<FormPart>)
    ensures form == FormFields(item, modelFile)
  {
    form := [];
    var i := 0;
    while i < |item|
      invariant 0 <= i <= |item|
      invariant form + FormFields(item[i..], modelFile) == FormFields(item, modelFile)
    {
      var part := TextPart(item[i].key, FormString(item[i].value));
      FormFieldsStep(item, i, modelFile);
      AppendAssociates(form, [part], FormFields(item[i + 1..], modelFile));
      form := form + [part];
      i := i + 1;
    }
    assert item[i..] == [];
    assert form + FormFields([], modelFile) == FormFields(item, modelFile);
    if modelFile.Some? {
      form := form + [FilePart("modelFile", modelFile.value)];
    }
  }

  datatype Request = Request(verb: string, url: string, body: seq<FormPart>)

  function AddRequest(api: string, item: Record, modelFile: Option<File>): (r: Request)
    ensures r.verb == "POST" && r.url == api + "/menu" && r.body == FormFields(item, modelFile)
  {
    Request("POST", MenuUrl(api), FormFields(item, modelFile))
  }

  function UpdateRequest(api: string, id: Value, item: Record, modelFile: Option<File>): (r: Request)
    ensures r.verb == "PUT" && r.url == api + "/menu/" + TemplateString(id) && r.body == FormFields(item, modelFile)
  {
    Request("PUT", ItemUrl(api, id), FormFields(item, modelFile))
  }

  function DeleteRequest(api: string, id: Value): (r: Request)
    ensures r.verb == "DELETE" && r.url == api + "/menu/" + TemplateString(id) && r.body == []
  {
    Request("DELETE", ItemUrl(api, id), [])
  }

  /** What a `fetch` came to: a network failure, or a response with its
      `ok` flag and its body as JSON (`None` when it is not valid JSON). */
  datatype Fetch<T> = NetworkError | Response(ok: bool, json: Option<T>)

  /** A call that returned a value or threw. */
  datatype Outcome<T> = Returned(value: T) | Threw

  /** `addMenuItem`, `updateMenuItem` and `uploadFile` after their request:
      a non-ok response, a network failure or an unreadable body is rethrown;
      otherwise the field read from the body is returned. */
  function WriteOutcome<T>(response: Fetch<T>): (r: Outcome<T>)
    ensures r.Returned? <==> response.Response? && response.ok && response.json.Some?
    ensures r.Returned? ==> r.value == response.json.value
  {
    match response
    case NetworkError => Threw
    case Response(ok, json) => if ok && json.Some? then Returned(json.value) else Threw
  }

  /** `deleteMenuItem` reads no body: only the status decides. */
  function DeleteOutcome<T>(response: Fetch<T>): (r: Outcome<()>)
    ensures r.Returned? <==> response.Response? && response.ok
  {
    if response.Response? && response.ok then Returned(()) else Threw
  }

  /** A failed write never yields a result. */
  lemma FailedWritesThrow<T>(response: Fetch<T>)
    requires response.NetworkError? || !response.ok
    ensures WriteOutcome(response) == Threw && DeleteOutcome(response) == Threw
  {
  }

  /** The `localStorage` "foodItems" entry as `getMenuItems` finds it. */
  datatype CachedItems = NotStored | StoredEmpty | StoredJson(items: seq<Record>) | StoredCorrupt

  /** `getMenuItems`: the server's list on an ok response with a readable
      body; otherwise the cached list, [] with nothing cached.  Parsing a
      corrupt cache inside the handler throws. */
  function GetMenuItems(response: Fetch<seq<Record>>, cache: CachedItems): (r: Outcome<seq<Record>>)
    ensures response.Response? && response.ok && response.json.Some? ==> r == Returned(response.json.value)
    ensures !(response.Response? && response.ok && response.json.Some?) ==>
      match cache
      case NotStored => r == Returned([])
      case StoredEmpty => r == Returned([])
      case StoredJson(items) => r == Returned(items)
      case StoredCorrupt => r == Threw
  {
    match response
    case Response(true, Some(items)) => Returned(items)
    case _ =>
      match cache
      case NotStored => Returned([])
      case StoredEmpty => Returned([])
      case StoredJson(items) => Returned(items)
      case StoredCorrupt => Threw
  }

  /** The read throws only when the server fails and the cache is corrupt. */
  lemma GetMenuItemsThrowsOnlyOnCorruptCache(response: Fetch<seq<Record>>, cache: CachedItems)
    ensures GetMenuItems(response, cache).Threw? <==>
      cache.StoredCorrupt? && !(response.Response? && response.ok && response.json.Some?)
  {
  }
}

/** The Flask back end: the upload extension check, the upload endpoint's
    decisions, how a menu record is prepared before it is stored, the
    category and subcategory writes with their status codes, the read-side
    shaping of categories and subcategories, and the menu text handed to the
    recommendation chain.  Firestore is a class of three collections;
    `uuid4`, `secure_filename` and file saving are parameters or left out. */
module Backend {
  import opened Wrappers
  import opened Text
  import opened Records
  import Seqs

  // ---------------------------------------------------------------- replies

  /** A JSON reply: a "message" body, an "error" body with a fixed text, or
      an error whose text is the text of a caught exception. */
  datatype Reply = Message(status: nat, text: string) | Error(status: nat, text: string) | Failed(status: nat)

  // ------------------------------------------------------ allowed extensions

  const AllowedExtensions: set<string> := {"png", "jpg", "jpeg", "gif", "glb", "gltf"}

  /** The position of the last '.' in `s`, if any. */
  function LastDot(s: string): (r: Option<nat>)
    ensures r.Some? ==> r.value < |s| && s[r.value] == '.' && '.' !in s[r.value + 1..]
    ensures r.None? ==> '.' !in s
  {
    if s == [] then None
    else if s[|s| - 1] == '.' then Some(|s| - 1)
    else
      var r := LastDot(s[..|s| - 1]);
      assert s == s[..|s| - 1] + [s[|s| - 1]];
      if r.Some? then
        assert s[r.value + 1..] == s[..|s| - 1][r.value + 1..] + [s[|s| - 1]];
        r
      else r
  }

  /** `allowed_file`: the name has a '.', and what follows the last one,
      lower-cased, is an allowed extension.  Lower-casing is ASCII only;
      no other character lower-cases into the letters of these extensions. */
  predicate AllowedFile(filename: string) {
    LastDot(filename).Some? && Lower(filename[LastDot(filename).value + 1..]) in AllowedExtensions
  }

  /** `allowed_file` judged by any dot that is the last one. */
  lemma AllowedFileIff(filename: string)
    ensures AllowedFile(filename) <==>
      exists i :: 0 <= i < |filename| && filename[i] == '.' && '.' !in filename[i + 1..]
        && Lower(filename[i + 1..]) in AllowedExtensions
  {
    if !AllowedFile(filename) {
      forall i | 0 <= i < |filename| && filename[i] == '.' && '.' !in filename[i + 1..]
        ensures Lower(filename[i + 1..]) !in AllowedExtensions
      {
        assert LastDot(filename).Some?;
      }
    }
  }

  /** An allowed name has at least a dot and three characters after it. */
  lemma AllowedFileLength(filename: string)
    requires AllowedFile(filename)
    ensures |filename| >= 4
  {
    var ext := filename[LastDot(filename).value + 1..];
    assert |Lower(ext)| >= 3;
  }

  /** The extension is matched case-insensitively, after the last dot only. */
  lemma MixedCaseLastExtensionAllowed()
    ensures AllowedFile("a.tar.GLB")
  {
    assert LastDot("a.tar.GLB") == Some(5);
    assert "a.tar.GLB"[6..] == "GLB";
    assert Lower("GLB") == "glb";
  }

  /** A bare extension has no dot and is refused. */
  lemma BareExtensionRefused()
    ensures !AllowedFile("glb")
  {
    assert LastDot("glb") == None;
  }

  // ------------------------------------------------------------ /api/upload

  /** A part of a multipart request that carries a file. */
  datatype Upload = Upload(filename: string)

  datatype UploadReply = Rejected(status: nat, error: string) | Stored(filename: string, url: string)

  /** `upload_file`: `part` is the "file" part, if the request has one;
      `secure` stands for `secure_filename`. */
  function UploadFile(part: Option<Upload>, secure: string -> string): (r: UploadReply)
    ensures r.Stored? <==> part.Some? && AllowedFile(part.value.filename)
    ensures r.Stored? ==> r.filename == secure(part.value.filename) && r.url == "/uploads/" + r.filename
    ensures part.None? ==> r == Rejected(400, "No file part")
    ensures part.Some? && part.value.filename == "" ==> r == Rejected(400, "No selected file")
    ensures part.Some? && part.value.filename != "" && !AllowedFile(part.value.filename) ==>
      r == Rejected(400, "File type not allowed")
  {
    if part.None? then Rejected(400, "No file part")
    else if part.value.filename == "" then Rejected(400, "No selected file")
    else if AllowedFile(part.value.filename) then
      var name := secure(part.value.filename);
      Stored(name, "/uploads/" + name)
    else Rejected(400, "File type not allowed")
  }

  /** Every refusal is a 400: the empty name never gets past the check. */
  lemma UploadRefusalsAre400(part: Option<Upload>, secure: string -> string)
    ensures UploadFile(part, secure).Rejected? ==> UploadFile(part, secure).status == 400
    ensures part.Some? && part.value.filename == "" ==> !AllowedFile(part.value.filename)
  {
  }

  // ------------------------------------------------- menu record preparation

  const UploadOrigin := "http://localhost:5000/uploads/"

  /** `model_file and allowed_file(model_file.filename)`: a present part
      with an allowed name (an empty name is falsy and not allowed). */
  predicate Accepted(file: Option<Upload>) {
    file.Some? && AllowedFile(file.value.filename)
  }

  /** The URL a saved upload is served from: the sanitised "<id>_<name>". */
  function SavedUrl(id: string, file: Upload, secure: string -> string): string {
    UploadOrigin + secure(id + "_" + file.filename)
  }

  /** Lines 160-174 and 202-216: `modelUrl` and `imageUrl` are overwritten
      only for accepted files; nothing else changes. */
  function WithUploads(data: Record, id: string, modelFile: Option<Upload>, imageFile: Option<Upload>, secure: string -> string): (r: Record)
    ensures Accepted(modelFile) ==> Get(r, "modelUrl") == Str(SavedUrl(id, modelFile.value, secure))
    ensures !Accepted(modelFile) ==> Get(r, "modelUrl") == Get(data, "modelUrl")
    ensures Accepted(imageFile) ==> Get(r, "imageUrl") == Str(SavedUrl(id, imageFile.value, secure))
    ensures !Accepted(imageFile) ==> Get(r, "imageUrl") == Get(data, "imageUrl")
    ensures forall k :: k != "modelUrl" && k != "imageUrl" ==> Get(r, k) == Get(data, k)
  {
    var withModel := if Accepted(modelFile) then Set(data, "modelUrl", Str(SavedUrl(id, modelFile.value, secure))) else data;
    if Accepted(imageFile) then Set(withModel, "imageUrl", Str(SavedUrl(id, imageFile.value, secure))) else withModel
  }

  lemma FieldNamesDiffer()
    ensures "id" != "modelUrl" && "id" != "imageUrl"
  {
    assert |"id"| == 2;
  }

  /** `add_menu_item`'s record: a non-empty supplied id is kept, otherwise
      `freshId` (the `uuid4` string) is used; then the uploads. */
  function PrepareNewItem(form: Record, freshId: string, modelFile: Option<Upload>, imageFile: Option<Upload>, secure: string -> string): (r: Record)
    ensures Truthy(Get(form, "id")) ==> Get(r, "id") == Get(form, "id")
    ensures !Truthy(Get(form, "id")) ==> Get(r, "id") == Str(freshId)
    ensures Accepted(modelFile) ==> Get(r, "modelUrl") == Str(SavedUrl(FormString(Get(r, "id")), modelFile.value, secure))
    ensures !Accepted(modelFile) ==> Get(r, "modelUrl") == Get(form, "modelUrl")
    ensures Accepted(imageFile) ==> Get(r, "imageUrl") == Str(SavedUrl(FormString(Get(r, "id")), imageFile.value, secure))
    ensures !Accepted(imageFile) ==> Get(r, "imageUrl") == Get(form, "imageUrl")
    ensures forall k :: k != "id" && k != "modelUrl" && k != "imageUrl" ==> Get(r, k) == Get(form, k)
  {
    FieldNamesDiffer();
    var data := if Truthy(Get(form, "id")) then form else Set(form, "id", Str(freshId));
    WithUploads(data, FormString(Get(data, "id")), modelFile, imageFile, secure)
  }

  /** `update_menu_item`'s record: the path id replaces any id in the form. */
  function PrepareUpdate(form: Record, itemId: string, modelFile: Option<Upload>, imageFile: Option<Upload>, secure: string -> string): (r: Record)
    ensures Get(r, "id") == Str(itemId)
    ensures Accepted(modelFile) ==> Get(r, "modelUrl") == Str(SavedUrl(itemId, modelFile.value, secure))
    ensures !Accepted(modelFile) ==> Get(r, "modelUrl") == Get(form, "modelUrl")
    ensures Accepted(imageFile) ==> Get(r, "imageUrl") == Str(SavedUrl(itemId, imageFile.value, secure))
    ensures !Accepted(imageFile) ==> Get(r, "imageUrl") == Get(form, "imageUrl")
    ensures forall k :: k != "id" && k != "modelUrl" && k != "imageUrl" ==> Get(r, k) == Get(form, k)
  {
    FieldNamesDiffer();
    var data := Set(form, "id", Str(itemId));
    var r := WithUploads(data, itemId, modelFile, imageFile, secure);
    assert Get(data, "id") == Str(itemId);
    assert Get(r, "id") == Get(data, "id");
    assert Get(data, "modelUrl") == Get(form, "modelUrl");
    assert Get(data, "imageUrl") == Get(form, "imageUrl");
    assert forall k :: k != "id" ==> Get(data, k) == Get(form, k);
    r
  }

  /** A record already prepared for an id keeps it when updated again under
      the same id without files. */
  lemma PrepareUpdateIdempotent(form: Record, itemId: string, secure: string -> string)
    ensures var once := PrepareUpdate(form, itemId, None, None, secure);
      forall k :: Get(PrepareUpdate(once, itemId, None, None, secure), k) == Get(once, k)
  {
  }

  /** Firestore's `update` on an existing document. */
  function MergeFields(doc: Record, data: Record): Record {
    if data == [] then doc else Set(MergeFields(doc, data[1..]), data[0].key, data[0].value)
  }

  /** After the update a field reads as in `data` if `data` has it, and as
      before otherwise. */
  lemma {:induction false} MergeFieldsGet(doc: Record, data: Record, k: string)
    ensures Get(MergeFields(doc, data), k) == if k in Keys(data) then Get(data, k) else Get(doc, k)
  {
    if data != [] {
      assert Keys(data) == [data[0].key] + Keys(data[1..]);
      MergeFieldsGet(doc, data[1..], k);
    }
  }

  // ----------------------------------------------------------- the database

  /** A subcategories document: its scalar fields and its `names` array. */
  datatype SubDoc = SubDoc(fields: Record, names: Option<seq<string>>)

  /** `to_dict().get('names', [])` */
  function Names(doc: SubDoc): seq<string> {
    doc.names.GetOr([])
  }

  class Firestore {
    var menu: map<string, Record>
    var categories: map<string, Record>
    var subcategories: map<string, SubDoc>

    constructor ()
      ensures menu == map[] && categories == map[] && subcategories == map[]
    {
      menu := map[];
      categories := map[];
      subcategories := map[];
    }
  }

  /** The id a prepared record is stored under: `data['id']`. */
  function StoredId(item: Record): string {
    FormString(Get(item, "id"))
  }

  /** `add_menu_item`: the prepared record is written whole under its id
      when there is a database, and returned in any case. */
  method AddMenuItem(db: Firestore?, form: Record, freshId: string, modelFile: Option<Upload>, imageFile: Option<Upload>, secure: string -> string)
    returns (reply: Reply, item: Record)
    modifies db
    ensures item == PrepareNewItem(form, freshId, modelFile, imageFile, secure)
    ensures reply == Message(200, "Menu item added successfully")
    ensures db != null ==>
      db.menu == old(db.menu)[StoredId(item) := item]
      && db.categories == old(db.categories) && db.subcategories == old(db.subcategories)
  {
    item := PrepareNewItem(form, freshId, modelFile, imageFile, secure);
    if db != null {
      db.menu := db.menu[StoredId(item) := item];
    }
    reply := Message(200, "Menu item added successfully");
  }

  /** `update_menu_item`: the prepared fields are merged into the stored
      document.  Firestore refuses to update a missing document; the handler
      turns that into a 500. */
  method UpdateMenuItem(db: Firestore?, itemId: string, form: Record, modelFile: Option<Upload>, imageFile: Option<Upload>, secure: string -> string)
    returns (reply: Reply, item: Option<Record>)
    modifies db
    ensures db != null && itemId !in old(db.menu) ==>
      reply == Failed(500) && item == None && db.menu == old(db.menu)
    ensures db == null || itemId in old(db.menu) ==>
      reply == Message(200, "Menu item updated successfully")
      && item == Some(PrepareUpdate(form, itemId, modelFile, imageFile, secure))
    ensures db != null && itemId in old(db.menu) ==>
      db.menu == old(db.menu)[itemId := MergeFields(old(db.menu)[itemId], item.value)]
    ensures db != null ==> db.categories == old(db.categories) && db.subcategories == old(db.subcategories)
  {
    var data := PrepareUpdate(form, itemId, modelFile, imageFile, secure);
    if db != null {
      if itemId !in db.menu {
        return Failed(500), None;
      }
      db.menu := db.menu[itemId := MergeFields(db.menu[itemId], data)];
    }
    reply := Message(200, "Menu item updated successfully");
    item := Some(data);
  }

  /** A JSON string field: a non-empty text passes `if not x`. */
  predicate Filled(field: Option<string>) {
    field.Some? && field.value != ""
  }

  /** `set({'names': []}, merge=True)`: the other fields stay, and any
      existing list of names is replaced by the empty one. */
  function ClearNames(doc: Option<SubDoc>): (r: SubDoc)
    ensures r.names == Some([])
    ensures r.fields == if doc.Some? then doc.value.fields else []
  {
    SubDoc(if doc.Some? then doc.value.fields else [], Some([]))
  }

  /** Re-adding a category forgets the subcategories stored for it. */
  lemma AddCategoryForgetsNames(doc: SubDoc)
    requires Names(doc) != []
    ensures Names(ClearNames(Some(doc))) == [] != Names(doc)
  {
  }

  /** `add_category`: `body` is the request's JSON object (`None` when it is
      not JSON, which raises), `name` its "name" field. */
  method AddCategory(db: Firestore?, body: Option<Option<string>>) returns (reply: Reply)
    modifies db
    ensures db == null ==> reply == Error(503, "Database not available.")
    ensures db != null && body.None? ==> reply == Error(500, "An error occurred while adding the category.")
    ensures db != null && body.Some? && !Filled(body.value) ==> reply == Error(400, "Category name is required.")
    ensures db != null && body.Some? && Filled(body.value) ==>
      var name := body.value.value;
      reply == Message(201, "Category added successfully")
      && db.categories == old(db.categories)[name := [Entry("name", Str(name))]]
      && db.subcategories == old(db.subcategories)[name := ClearNames(
           if name in old(db.subcategories) then Some(old(db.subcategories)[name]) else None)]
    ensures db != null && !(body.Some? && Filled(body.value)) ==>
      db.categories == old(db.categories) && db.subcategories == old(db.subcategories)
    ensures db != null ==> db.menu == old(db.menu)
  {
    if db == null {
      return Error(503, "Database not available.");
    }
    if body.None? {
      return Error(500, "An error occurred while adding the category.");
    }
    if !Filled(body.value) {
      return Error(400, "Category name is required.");
    }
    var name := body.value.value;
    db.categories := db.categories[name := [Entry("name", Str(name))]];
    var existing := if name in db.subcategories then Some(db.subcategories[name]) else None;
    db.subcategories := db.subcategories[name := ClearNames(existing)];
    reply := Message(201, "Category added successfully");
  }

  /** A reply and the subcategories collection after it. */
  datatype SubWrite = SubWrite(reply: Reply, docs: map<string, SubDoc>)

  /** `add_subcategory` once the database and the JSON body are there. */
  function AddSubcategoryDoc(docs: map<string, SubDoc>, category: Option<string>, name: Option<string>): (r: SubWrite)
    ensures !(Filled(category) && Filled(name)) ==>
      r == SubWrite(Error(400, "Category name and subcategory name are required."), docs)
    ensures Filled(category) && Filled(name) ==>
      var c, n := category.value, name.value;
      && r.docs.Keys == docs.Keys + {c}
      && (forall k :: k in docs && k != c ==> r.docs[k] == docs[k])
      && n in Names(r.docs[c])
      && (c in docs && n in Names(docs[c]) ==>
            r == SubWrite(Message(200, "Subcategory already exists"), docs))
      && (c in docs && n !in Names(docs[c]) ==>
            r.reply == Message(201, "Subcategory added successfully")
            && r.docs[c] == docs[c].(names := Some(Names(docs[c]) + [n])))
      && (c !in docs ==>
            r.reply == Message(201, "Subcategory added successfully and new category entry created")
            && r.docs[c] == SubDoc([], Some([n])))
  {
    if !(Filled(category) && Filled(name)) then
      SubWrite(Error(400, "Category name and subcategory name are required."), docs)
    else
      var c, n := category.value, name.value;
      if c in docs then
        var current := Names(docs[c]);
        if n !in current then
          SubWrite(Message(201, "Subcategory added successfully"), docs[c := docs[c].(names := Some(current + [n]))])
        else SubWrite(Message(200, "Subcategory already exists"), docs)
      else
        SubWrite(Message(201, "Subcategory added successfully and new category entry created"), docs[c := SubDoc([], Some([n]))])
  }

  /** Adding never creates a duplicate in a list that had none. */
  lemma AddSubcategoryKeepsNamesDistinct(docs: map<string, SubDoc>, category: string, name: string)
    requires category != "" && name != "" && category in docs && Seqs.NoDuplicates(Names(docs[category]))
    ensures Seqs.NoDuplicates(Names(AddSubcategoryDoc(docs, Some(category), Some(name)).docs[category]))
  {
    var current := Names(docs[category]);
    if name !in current {
      var next := current + [name];
      forall i, j | 0 <= i < j < |next| ensures next[i] != next[j] {
        if j == |current| {
          assert next[i] == current[i] && current[i] in current;
        }
      }
    }
  }

  /** A second identical request reports "already exists" and changes nothing. */
  lemma AddSubcategoryIdempotent(docs: map<string, SubDoc>, category: string, name: string)
    requires category != "" && name != ""
    ensures var once := AddSubcategoryDoc(docs, Some(category), Some(name));
      AddSubcategoryDoc(once.docs, Some(category), Some(name)) == SubWrite(Message(200, "Subcategory already exists"), once.docs)
  {
  }

  /** `delete_subcategory` once the database is there. */
  function DeleteSubcategoryDoc(docs: map<string, SubDoc>, category: string, name: string): (r: SubWrite)
    ensures r.reply.status == 200 <==> category in docs && name in Names(docs[category])
    ensures r.reply.status != 200 ==> r.docs == docs && r.reply.status == 404
    ensures category !in docs ==> r.reply == Message(404, "Category for subcategory not found")
    ensures category in docs && name !in Names(docs[category]) ==> r.reply == Message(404, "Subcategory not found")
    ensures r.reply.status == 200 ==>
      r.reply == Message(200, "Subcategory deleted successfully")
      && r.docs == docs[category := docs[category].(names := Some(Seqs.Remove(Names(docs[category]), name)))]
      && name !in Names(r.docs[category])
      && forall x :: x in Names(r.docs[category]) <==> x in Names(docs[category]) && x != name
  {
    if category in docs then
      var current := Names(docs[category]);
      if name in current then
        SubWrite(Message(200, "Subcategory deleted successfully"),
          docs[category := docs[category].(names := Some(Seqs.Remove(current, name)))])
      else SubWrite(Message(404, "Subcategory not found"), docs)
    else SubWrite(Message(404, "Category for subcategory not found"), docs)
  }

  /** Deleting a name just added to a stored list restores the list. */
  lemma {:induction false} AddThenDeleteRestores(docs: map<string, SubDoc>, category: string, name: string)
    requires category != "" && name != "" && category in docs
    requires docs[category].names.Some? && name !in Names(docs[category])
    ensures DeleteSubcategoryDoc(AddSubcategoryDoc(docs, Some(category), Some(name)).docs, category, name).docs == docs
  {
    var current := Names(docs[category]);
    Seqs.RemoveAppend(current, [name], name);
    Seqs.RemoveAbsent(current, name);
    assert Seqs.Remove([name], name) == [];
    assert Seqs.Remove(current + [name], name) == current;
  }

  /** `add_subcategory` */
  method AddSubcategory(db: Firestore?, body: Option<(Option<string>, Option<string>)>) returns (reply: Reply)
    modifies db
    ensures db == null ==> reply == Error(503, "Database not available.")
    ensures db != null && body.None? ==>
      reply == Error(500, "An error occurred while adding the subcategory.") && db.subcategories == old(db.subcategories)
    ensures db != null && body.Some? ==>
      var w := AddSubcategoryDoc(old(db.subcategories), body.value.0, body.value.1);
      reply == w.reply && db.subcategories == w.docs
    ensures db != null ==> db.menu == old(db.menu) && db.categories == old(db.categories)
  {
    if db == null {
      return Error(503, "Database not available.");
    }
    if body.None? {
      return Error(500, "An error occurred while adding the subcategory.");
    }
    var w := AddSubcategoryDoc(db.subcategories, body.value.0, body.value.1);
    db.subcategories := w.docs;
    reply := w.reply;
  }

  /** `delete_subcategory` */
  method DeleteSubcategory(db: Firestore?, category: string, name: string) returns (reply: Reply)
    modifies db
    ensures db == null ==> reply == Error(503, "Database not available.")
    ensures db != null ==>
      var w := DeleteSubcategoryDoc(old(db.subcategories), category, name);
      reply == w.reply && db.subcategories == w.docs
      && db.menu == old(db.menu) && db.categories == old(db.categories)
  {
    if db == null {
      return Error(503, "Database not available.");
    }
    var w := DeleteSubcategoryDoc(db.subcategories, category, name);
    db.subcategories := w.docs;
    reply := w.reply;
  }

  // ------------------------------------------------------------- read side

  /** `cat.get('name')` for each document of the stream, in stream order. */
  function NameColumn(docs: seq<Record>): (names: seq<Value>)
    ensures |names| == |docs|
    ensures forall i :: 0 <= i < |docs| ==> names[i] == Get(docs[i], "name")
  {
    seq(|docs|, i requires 0 <= i < |docs| => Get(docs[i], "name"))
  }

  /** `get_categories`: the truthy `name` fields, one per document, in stream
      order; no database gives the empty list. */
  function CategoryNames(docs: Option<seq<Record>>): (r: seq<Value>)
    ensures docs.None? ==> r == []
    ensures docs.Some? ==> r == Seqs.Filter(NameColumn(docs.value), Truthy)
    ensures forall v :: v in r ==> Truthy(v)
    ensures docs.Some? ==> forall v :: v in r <==> Truthy(v) && exists d :: d in docs.value && Get(d, "name") == v
    ensures docs.Some? ==> |r| <= |docs.value|
  {
    if docs.None? then []
    else
      var names := NameColumn(docs.value);
      assert forall v :: v in names <==> exists d :: d in docs.value && Get(d, "name") == v by {
        forall v | v in names ensures exists d :: d in docs.value && Get(d, "name") == v {
          var i :| 0 <= i < |names| && names[i] == v;
          assert docs.value[i] in docs.value;
        }
        forall v | (exists d :: d in docs.value && Get(d, "name") == v) ensures v in names {
          var d :| d in docs.value && Get(d, "name") == v;
          var i :| 0 <= i < |docs.value| && docs.value[i] == d;
          assert names[i] == v;
        }
      }
      Seqs.Filter(names, Truthy)
  }

  /** The names keep the stream's order and its repeats: each truthy name
      appears once per document carrying it, no other value at all. */
  lemma CategoryNamesOrder(docs: seq<Record>, v: Value)
    ensures Seqs.IsSubsequence(CategoryNames(Some(docs)), NameColumn(docs))
    ensures multiset(CategoryNames(Some(docs)))[v] == if Truthy(v) then multiset(NameColumn(docs))[v] else 0
  {
    Seqs.FilterIsSubsequence(NameColumn(docs), Truthy);
    Seqs.FilterCount(NameColumn(docs), Truthy, v);
  }

  /** One key of the `subcategories` dict the endpoint builds. */
  datatype Group = Group(category: Value, names: seq<Value>)

  function GroupKeys(groups: seq<Group>): (ks: seq<Value>)
    ensures |ks| == |groups| && forall i :: 0 <= i < |groups| ==> ks[i] == groups[i].category
  {
    if groups == [] then [] else [groups[0].category] + GroupKeys(groups[1..])
  }

  /** `subcategories_dict.get(category, [])` */
  function Lookup(groups: seq<Group>, category: Value): seq<Value> {
    if groups == [] then []
    else if groups[0].category == category then groups[0].names
    else Lookup(groups[1..], category)
  }

  /** Lines 371-374: append `name` under `category`, creating the key last. */
  function AddToGroup(groups: seq<Group>, category: Value, name: Value): (r: seq<Group>)
    ensures category !in GroupKeys(groups) ==> GroupKeys(r) == GroupKeys(groups) + [category]
    ensures category in GroupKeys(groups) ==> GroupKeys(r) == GroupKeys(groups)
  {
    if groups == [] then [Group(category, [name])]
    else
      assert GroupKeys(groups) == [groups[0].category] + GroupKeys(groups[1..]);
      if groups[0].category == category then [groups[0].(names := groups[0].names + [name])] + groups[1..]
      else [groups[0]] + AddToGroup(groups[1..], category, name)
  }

  lemma {:induction false} LookupAddToGroup(groups: seq<Group>, category: Value, name: Value, key: Value)
    ensures Lookup(AddToGroup(groups, category, name), key) == Lookup(groups, key) + (if key == category then [name] else [])
  {
    if groups != [] && groups[0].category != category {
      LookupAddToGroup(groups[1..], category, name, key);
    }
  }

  /** A document shows up only with a truthy `category` and a truthy `name`. */
  predicate Listed(doc: SubDoc) {
    Truthy(Get(doc.fields, "category")) && Truthy(Get(doc.fields, "name"))
  }

  /** The dict after the first `|docs|` documents of the stream. */
  function Grouped(docs: seq<SubDoc>): seq<Group> {
    if docs == [] then []
    else
      var groups := Grouped(docs[..|docs| - 1]);
      var doc := docs[|docs| - 1];
      if Listed(doc) then AddToGroup(groups, Get(doc.fields, "category"), Get(doc.fields, "name")) else groups
  }

  /** Reference: the names listed under `category`, in stream order. */
  function NamesUnder(docs: seq<SubDoc>, category: Value): seq<Value> {
    if docs == [] then []
    else
      var doc := docs[|docs| - 1];
      NamesUnder(docs[..|docs| - 1], category)
        + (if Listed(doc) && Get(doc.fields, "category") == category then [Get(doc.fields, "name")] else [])
  }

  /** Each category maps to exactly its documents' names, in order. */
  lemma {:induction false} GroupedNames(docs: seq<SubDoc>, category: Value)
    ensures Lookup(Grouped(docs), category) == NamesUnder(docs, category)
  {
    if docs != [] {
      var doc := docs[|docs| - 1];
      GroupedNames(docs[..|docs| - 1], category);
      if Listed(doc) {
        LookupAddToGroup(Grouped(docs[..|docs| - 1]), Get(doc.fields, "category"), Get(doc.fields, "name"), category);
      }
    }
  }

  /** Reference: the categories of the listed documents, in stream order. */
  function ListedCategories(docs: seq<SubDoc>): seq<Value> {
    if docs == [] then []
    else
      var doc := docs[|docs| - 1];
      ListedCategories(docs[..|docs| - 1]) + (if Listed(doc) then [Get(doc.fields, "category")] else [])
  }

  /** The keys are the listed categories, each once, in the order first
      seen; so they are distinct and keep the stream's order. */
  lemma {:induction false} GroupedKeys(docs: seq<SubDoc>)
    ensures GroupKeys(Grouped(docs)) == Seqs.Distinct(ListedCategories(docs))
  {
    if docs != [] {
      var n := |docs| - 1;
      var doc := docs[n];
      GroupedKeys(docs[..n]);
      if Listed(doc) {
        var c := Get(doc.fields, "category");
        assert Grouped(docs) == AddToGroup(Grouped(docs[..n]), c, Get(doc.fields, "name"));
        var cats := ListedCategories(docs);
        assert cats == ListedCategories(docs[..n]) + [c];
        assert cats[..|cats| - 1] == ListedCategories(docs[..n]) && cats[|cats| - 1] == c;
        var d := Seqs.Distinct(ListedCategories(docs[..n]));
        assert Seqs.Distinct(cats) == if c in d then d else d + [c];
      } else {
        assert ListedCategories(docs) == ListedCategories(docs[..n]);
      }
    }
  }

  /** The documents `add_category` and `add_subcategory` write have no
      `category` or `name` field, so the read side never lists them. */
  lemma {:induction false} WrittenNamesNeverRead(docs: seq<SubDoc>)
    requires forall i :: 0 <= i < |docs| ==> docs[i].fields == []
    ensures Grouped(docs) == []
  {
    if docs != [] {
      WrittenNamesNeverRead(docs[..|docs| - 1]);
    }
  }

  /** `get_subcategories` with a database: the dict built by the loop. */
  method GetSubcategories(docs: seq<SubDoc>) returns (groups: seq<Group>)
    ensures groups == Grouped(docs)
  {
    groups := [];
    for i := 0 to |docs|
      invariant groups == Grouped(docs[..i])
    {
      assert docs[..i + 1][..i] == docs[..i];
      var category := Get(docs[i].fields, "category");
      var name := Get(docs[i].fields, "name");
      if Truthy(category) && Truthy(name) {
        groups := AddToGroup(groups, category, name);
      }
    }
    assert docs[..|docs|] == docs;
  }

  // ------------------------------------------------------ the menu context

  /** `f"{item.get(key, 'N/A')}"`: an absent key reads "N/A", a JSON null
      prints as "None". */
  function FieldText(item: Record, key: string): string {
    match Get(item, key)
    case Missing => "N/A"
    case Null => "None"
    case Str(s) => s
    case Num(n) => IntToString(n)
  }

  /** ", <heading>: <value>" */
  function Labeled(heading: string, value: string): string {
    ", " + heading + ": " + value
  }

  /** One line of the context. */
  function MenuLine(item: Record): string {
    "- Name: " + FieldText(item, "name")
      + Labeled("Category", FieldText(item, "category"))
      + Labeled("Subcategory", FieldText(item, "subcategory"))
      + Labeled("Description", FieldText(item, "description"))
      + Labeled("Price", FieldText(item, "price")) + "\n"
  }

  function MenuLines(items: seq<Record>): string {
    if items == [] then "" else MenuLines(items[..|items| - 1]) + MenuLine(items[|items| - 1])
  }

  const NoItemsText := "No menu items available.\n"

  /** The whole context: the lines, or the fixed text for an empty menu. */
  function MenuContextText(items: seq<Record>): string {
    if items == [] then NoItemsText else MenuLines(items)
  }

  /** The `+=` loop building `menu_context`. */
  method MenuContext(items: seq<Record>) returns (context: string)
    ensures context == MenuContextText(items)
  {
    context := "";
    if items != [] {
      for i := 0 to |items|
        invariant context == MenuLines(items[..i])
      {
        assert items[..i + 1][..i] == items[..i];
        context := context + MenuLine(items[i]);
      }
      assert items[..|items|] == items;
    } else {
      context := context + NoItemsText;
    }
  }

  function Newlines(s: string): nat {
    if s == [] then 0 else Newlines(s[..|s| - 1]) + (if s[|s| - 1] == '\n' then 1 else 0)
  }

  lemma {:induction false} NewlinesAppend(a: string, b: string)
    ensures Newlines(a + b) == Newlines(a) + Newlines(b)
  {
    if b != [] {
      assert (a + b)[..|a + b| - 1] == a + b[..|b| - 1];
      NewlinesAppend(a, b[..|b| - 1]);
    } else {
      assert a + b == a;
    }
  }

  lemma {:induction false} NoNewlines(s: string)
    requires '\n' !in s
    ensures Newlines(s) == 0
  {
    if s != [] {
      assert s[|s| - 1] in s;
      assert forall c :: c in s[..|s| - 1] ==> c in s;
      NoNewlines(s[..|s| - 1]);
    }
  }

  /** No field of the item contains a line break. */
  predicate SingleLineFields(item: Record) {
    '\n' !in FieldText(item, "name") && '\n' !in FieldText(item, "category")
    && '\n' !in FieldText(item, "subcategory") && '\n' !in FieldText(item, "description")
    && '\n' !in FieldText(item, "price")
  }

  lemma LabeledNewlines(heading: string, value: string)
    requires '\n' !in heading && '\n' !in value
    ensures Newlines(Labeled(heading, value)) == 0
  {
    NoNewlines(Labeled(heading, value));
  }

  lemma MenuLineNewlines(item: Record)
    requires SingleLineFields(item)
    ensures Newlines(MenuLine(item)) == 1
  {
    var a := "- Name: " + FieldText(item, "name");
    NoNewlines(a);
    var b := Labeled("Category", FieldText(item, "category"));
    var c := Labeled("Subcategory", FieldText(item, "subcategory"));
    var d := Labeled("Description", FieldText(item, "description"));
    var e := Labeled("Price", FieldText(item, "price"));
    LabeledNewlines("Category", FieldText(item, "category"));
    LabeledNewlines("Subcategory", FieldText(item, "subcategory"));
    LabeledNewlines("Description", FieldText(item, "description"));
    LabeledNewlines("Price", FieldText(item, "price"));
    NewlinesAppend(a, b);
    NewlinesAppend(a + b, c);
    NewlinesAppend(a + b + c, d);
    NewlinesAppend(a + b + c + d, e);
    NewlinesAppend(a + b + c + d + e, "\n");
    assert MenuLine(item) == a + b + c + d + e + "\n";
  }

  /** One line per item, when no field holds a line break. */
  lemma {:induction false} MenuContextLineCount(items: seq<Record>)
    requires items != [] && forall i :: 0 <= i < |items| ==> SingleLineFields(items[i])
    ensures Newlines(MenuContextText(items)) == |items|
  {
    LinesCount(items);
  }

  lemma {:induction false} LinesCount(items: seq<Record>)
    requires forall i :: 0 <= i < |items| ==> SingleLineFields(items[i])
    ensures Newlines(MenuLines(items)) == |items|
  {
    if items != [] {
      var n := |items| - 1;
      LinesCount(items[..n]);
      MenuLineNewlines(items[n]);
      NewlinesAppend(MenuLines(items[..n]), MenuLine(items[n]));
    }
  }

}

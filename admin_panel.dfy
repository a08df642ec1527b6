/** The admin panel: the shared item provider and the panel's state machine
    (password gate, add and edit modes, two-step delete, submit, the local
    category vocabulary and the menu QR modal).  Each awaited API call is
    replaced by its outcome, passed in; `alert` and focus timers are left out. */
module AdminPanel {
  import opened Wrappers
  import opened Text
  import opened Records
  import MenuApi

  /** The provider's list after a refresh from `before`: what `getMenuItems`
      returns, or `before` when it throws. */
  predicate Refreshed(before: seq<Record>, response: MenuApi.Fetch<seq<Record>>, cache: MenuApi.CachedItems, after: seq<Record>) {
    match MenuApi.GetMenuItems(response, cache)
    case Returned(items) => after == items
    case Threw => after == before
  }

  /** The provider behind `FoodItemsContext`. */
  class FoodItemsProvider {
    var foodItems: seq<Record>
    var loading: bool

    constructor ()
      ensures foodItems == [] && loading
    {
      foodItems := [];
      loading := true;
    }

    /** `refreshFoodItems`; loading ends whatever `getMenuItems` does. */
    method Refresh(response: MenuApi.Fetch<seq<Record>>, cache: MenuApi.CachedItems)
      modifies this
      ensures !loading && Refreshed(old(foodItems), response, cache, foodItems)
    {
      loading := true;
      var outcome := MenuApi.GetMenuItems(response, cache);
      if outcome.Returned? {
        foodItems := outcome.value;
      }
      loading := false;
    }
  }

  const AdminPassword := "admin123"
  const DeleteFailed := "Failed to delete item. Please try again."
  const SubmitFailed := "Operation failed. Please try again."
  const MenuQrUrl := "http://localhost:3000/ar-menu"

  /** The eight form fields, all empty. */
  function EmptyForm(): Record {
    [Entry("id", Str("")), Entry("name", Str("")), Entry("description", Str("")), Entry("price", Str("")),
     Entry("image", Str("")), Entry("modelUrl", Str("")), Entry("category", Str("")), Entry("subcategory", Str(""))]
  }

  /** The defaults of a new item: a plate emoji, the placeholder pizza model,
      "Main Course" / "Pizza". */
  function NewItemForm(): Record {
    [Entry("id", Str("")), Entry("name", Str("")), Entry("description", Str("")), Entry("price", Str("")),
     Entry("image", Str("\U{1F37D}\U{FE0F}")), Entry("modelUrl", Str("/models/food/placeholders/pizza.glb")),
     Entry("category", Str("Main Course")), Entry("subcategory", Str("Pizza"))]
  }

  const InitialCategories := ["Starter", "Main Course", "Dessert"]

  function InitialSubcategories(): map<string, seq<string>> {
    map["Starter" := ["Salads", "Soups", "Breads", "Appetizers"],
        "Main Course" := ["Pizza", "Pasta", "Burgers", "Curry", "Seafood", "Steak"],
        "Dessert" := ["Cakes", "Ice Cream", "Pastries", "Italian Desserts"]]
  }

  /** `handleAddCategory` on the list: a name that is blank after trimming
      is refused; any other is appended as typed, even if already listed. */
  function AddCategoryName(categories: seq<string>, name: string): (r: seq<string>)
    ensures IsBlank(name) ==> r == categories
    ensures !IsBlank(name) ==> r == categories + [name]
  {
    TrimEmptyIffBlank(name);
    if Trim(name) == "" then categories else categories + [name]
  }

  /** The properties every plain object inherits from `Object.prototype`.
      Each reads as a function (`__proto__` as the prototype object itself):
      truthy, and not iterable. */
  const ObjectPrototypeKeys: set<string> := {
    "constructor", "hasOwnProperty", "isPrototypeOf", "propertyIsEnumerable",
    "toLocaleString", "toString", "valueOf", "__proto__",
    "__defineGetter__", "__defineSetter__", "__lookupGetter__", "__lookupSetter__"}

  /** `prev[category]` on the object literal finds an inherited member
      rather than an own list. */
  predicate Inherited(subcategories: map<string, seq<string>>, category: string) {
    category !in subcategories && category in ObjectPrototypeKeys
  }

  /** `handleAddSubcategory` on the map: both inputs must be non-blank (their
      `trim()` non-empty, by `TrimEmptyIffBlank`); the name is appended to that category's list, which is
      created when absent, and no other category changes.  `None` where the
      updater throws: for a category that is no own key but an inherited one,
      `prev[category] || []` is that member, and spreading it is a TypeError. */
  function AddSubcategoryName(subcategories: map<string, seq<string>>, category: string, name: string): (r: Option<map<string, seq<string>>>)
    ensures IsBlank(category) || IsBlank(name) ==> r == Some(subcategories)
    ensures r.None? <==> !IsBlank(category) && !IsBlank(name) && Inherited(subcategories, category)
    ensures !IsBlank(category) && !IsBlank(name) && r.Some? ==>
      r.value.Keys == subcategories.Keys + {category}
      && r.value[category] == (if category in subcategories then subcategories[category] else []) + [name]
      && forall k :: k in subcategories && k != category ==> r.value[k] == subcategories[k]
  {
    if IsBlank(category) || IsBlank(name) then Some(subcategories)
    else if Inherited(subcategories, category) then None
    else Some(subcategories[category := (if category in subcategories then subcategories[category] else []) + [name]])
  }

  /** A category the panel offers from its own lists never throws, and one
      named after an inherited member, such as "constructor", always does. */
  lemma AddSubcategoryThrowsOnlyOnInherited(subcategories: map<string, seq<string>>, name: string)
    requires !IsBlank(name)
    ensures forall c :: c in subcategories ==> AddSubcategoryName(subcategories, c, name).Some?
    ensures "constructor" !in subcategories ==> AddSubcategoryName(subcategories, "constructor", name).None?
  {
    assert !IsBlank("constructor") by {
      assert !IsJsSpace("constructor"[0]);
    }
  }

  /** The panel's React state, one field per `useState` hook. */
  datatype PanelState = PanelState(
    isAuthenticated: bool,
    password: string,
    selectedItem: Option<Record>,
    isEditing: bool,
    showAddForm: bool,
    /** `null` until a model is chosen or an item is edited. */
    modelPreviewUrl: Value,
    modelFile: Option<MenuApi.File>,
    isLoading: bool,
    error: Option<string>,
    showDeleteModal: bool,
    /** `null` when no delete is pending. */
    itemToDeleteId: Value,
    showMenuQrModal: bool,
    menuQrCodeUrl: string,
    formData: Record,
    categories: seq<string>,
    subcategories: map<string, seq<string>>,
    newCategoryName: string,
    newSubcategoryName: string,
    selectedCategoryForSub: string)

  function InitialState(): PanelState {
    PanelState(false, "", None, false, false, Null, None, false, None, false, Null,
      false, "", EmptyForm(), InitialCategories, InitialSubcategories(), "", "", "")
  }

  class Panel {
    const provider: FoodItemsProvider
    const api: string
    var state: PanelState

    /** The add form and the edit mode are never open together. */
    ghost predicate Valid()
      reads this
    {
      !(state.isEditing && state.showAddForm)
    }

    constructor (provider: FoodItemsProvider, api: string)
      ensures Valid() && this.provider == provider && this.api == api
      ensures state == InitialState()
    {
      this.provider := provider;
      this.api := api;
      state := InitialState();
    }

    method SetPassword(p: string)
      requires Valid()
      modifies this
      ensures Valid() && state == old(state).(password := p)
    {
      state := state.(password := p);
    }

    /** `handleLogin`: only the right password authenticates, and it clears
        the field; a wrong one changes nothing. */
    method HandleLogin()
      requires Valid()
      modifies this
      ensures Valid()
      ensures old(state.password) == AdminPassword ==> state == old(state).(isAuthenticated := true, password := "")
      ensures old(state.password) != AdminPassword ==> state == old(state)
    {
      if state.password == AdminPassword {
        state := state.(isAuthenticated := true, password := "");
      }
    }

    /** `handleLogout` */
    method HandleLogout()
      requires Valid()
      modifies this
      ensures Valid()
      ensures state == old(state).(isAuthenticated := false, selectedItem := None,
        isEditing := false, showAddForm := false)
    {
      state := state.(isAuthenticated := false, selectedItem := None, isEditing := false, showAddForm := false);
    }

    /** `handleInputChange`: only the named form field changes. */
    method HandleInputChange(name: string, value: string)
      requires Valid()
      modifies this
      ensures Valid()
      ensures state == old(state).(formData := Set(old(state.formData), name, Str(value)))
      ensures Get(state.formData, name) == Str(value)
      ensures forall k :: k != name ==> Get(state.formData, k) == Get(old(state.formData), k)
    {
      state := state.(formData := Set(state.formData, name, Str(value)));
    }

    /** `handleModelUpload`: with a file chosen, its object URL becomes the
        preview and the form's model URL; `createObjectURL` is a parameter. */
    method HandleModelUpload(files: seq<MenuApi.File>, createObjectUrl: MenuApi.File -> string)
      requires Valid()
      modifies this
      ensures Valid()
      ensures files == [] ==> state == old(state)
      ensures files != [] ==> state == old(state).(
        modelPreviewUrl := Str(createObjectUrl(files[0])), modelFile := Some(files[0]),
        formData := Set(old(state.formData), "modelUrl", Str(createObjectUrl(files[0]))))
    {
      if files != [] {
        var file := files[0];
        var objectUrl := createObjectUrl(file);
        state := state.(modelPreviewUrl := Str(objectUrl), modelFile := Some(file),
          formData := Set(state.formData, "modelUrl", Str(objectUrl)));
      }
    }

    /** `handleEdit`: edit mode on the item, add form closed. */
    method HandleEdit(item: Record)
      requires Valid()
      modifies this
      ensures Valid()
      ensures state == old(state).(selectedItem := Some(item), formData := item,
        isEditing := true, showAddForm := false, modelPreviewUrl := Get(item, "modelUrl"))
    {
      state := state.(selectedItem := Some(item), formData := item, isEditing := true,
        showAddForm := false, modelPreviewUrl := Get(item, "modelUrl"));
    }

    /** `handleDelete`: only records the intent and opens the modal. */
    method HandleDelete(id: Value)
      requires Valid()
      modifies this
      ensures Valid()
      ensures state == old(state).(itemToDeleteId := id, showDeleteModal := true)
    {
      state := state.(itemToDeleteId := id, showDeleteModal := true);
    }

    /** `cancelDelete` */
    method CancelDelete()
      requires Valid()
      modifies this
      ensures Valid()
      ensures state == old(state).(showDeleteModal := false, itemToDeleteId := Null)
    {
      state := state.(showDeleteModal := false, itemToDeleteId := Null);
    }

    /** `confirmDelete`: nothing without a recorded id (only `null` counts as
        none, so an `undefined` id is sent).  Otherwise the delete request is
        issued; on success the items are refreshed and the selection cleared
        if it was the deleted item, on failure the error is set.  Either way
        the modal is closed, the id cleared and loading ended. */
    method ConfirmDelete<T>(response: MenuApi.Fetch<T>, refreshed: MenuApi.Fetch<seq<Record>>, cache: MenuApi.CachedItems)
      returns (issued: Option<MenuApi.Request>)
      requires Valid()
      modifies this, provider
      ensures Valid()
      ensures old(state.itemToDeleteId) == Null ==>
        issued == None && state == old(state) && provider.foodItems == old(provider.foodItems)
        && provider.loading == old(provider.loading)
      ensures old(state.itemToDeleteId) != Null ==>
        var ok := MenuApi.DeleteOutcome(response).Returned?;
        var selected := old(state.selectedItem);
        var deselect := ok && selected.Some? && Get(selected.value, "id") == old(state.itemToDeleteId);
        issued == Some(MenuApi.DeleteRequest(api, old(state.itemToDeleteId)))
        && state == old(state).(showDeleteModal := false, isLoading := false,
             itemToDeleteId := Null, error := if ok then None else Some(DeleteFailed),
             selectedItem := if deselect then None else selected,
             isEditing := if deselect then false else old(state.isEditing))
        && (ok ==> !provider.loading && Refreshed(old(provider.foodItems), refreshed, cache, provider.foodItems))
        && (!ok ==> provider.foodItems == old(provider.foodItems) && provider.loading == old(provider.loading))
    {
      var id := state.itemToDeleteId;
      if id == Null {
        return None;
      }
      state := state.(showDeleteModal := false, isLoading := true, error := None);
      issued := Some(MenuApi.DeleteRequest(api, id));
      if MenuApi.DeleteOutcome(response).Returned? {
        provider.Refresh(refreshed, cache);
        if state.selectedItem.Some? && Get(state.selectedItem.value, "id") == id {
          state := state.(selectedItem := None, isEditing := false);
        }
      } else {
        state := state.(error := Some(DeleteFailed));
      }
      state := state.(isLoading := false, itemToDeleteId := Null);
    }

    /** `handleAddNew`: add form open with the new-item defaults, edit mode
        and selection cleared, no model. */
    method HandleAddNew()
      requires Valid()
      modifies this
      ensures Valid()
      ensures state == old(state).(selectedItem := None, isEditing := false,
        showAddForm := true, modelPreviewUrl := Null, modelFile := None, formData := NewItemForm())
    {
      state := state.(selectedItem := None, isEditing := false, showAddForm := true,
        modelPreviewUrl := Null, modelFile := None, formData := NewItemForm());
    }

    /** `handleSubmit`: an update when editing a selected item, an add when
        the add form is open, no call otherwise.  Unless that call fails, the
        items are refreshed and form, file, preview, selection and both modes
        are reset; a failure only sets the error.  Loading ends either way. */
    method HandleSubmit<T>(response: MenuApi.Fetch<T>, refreshed: MenuApi.Fetch<seq<Record>>, cache: MenuApi.CachedItems)
      returns (issued: Option<MenuApi.Request>)
      requires Valid()
      modifies this, provider
      ensures Valid()
      ensures var s := old(state);
        issued ==
          if s.isEditing && s.selectedItem.Some? then
            Some(MenuApi.UpdateRequest(api, Get(s.selectedItem.value, "id"), s.formData, s.modelFile))
          else if s.showAddForm then Some(MenuApi.AddRequest(api, s.formData, s.modelFile))
          else None
      ensures issued.Some? && MenuApi.WriteOutcome(response).Threw? ==>
        state == old(state).(isLoading := false, error := Some(SubmitFailed))
        && provider.foodItems == old(provider.foodItems) && provider.loading == old(provider.loading)
      ensures !(issued.Some? && MenuApi.WriteOutcome(response).Threw?) ==>
        state == old(state).(isLoading := false, error := None, formData := EmptyForm(),
          modelPreviewUrl := Null, modelFile := None, selectedItem := None, isEditing := false,
          showAddForm := false)
        && !provider.loading && Refreshed(old(provider.foodItems), refreshed, cache, provider.foodItems)
    {
      state := state.(isLoading := true, error := None);
      if state.isEditing && state.selectedItem.Some? {
        issued := Some(MenuApi.UpdateRequest(api, Get(state.selectedItem.value, "id"), state.formData, state.modelFile));
      } else if state.showAddForm {
        issued := Some(MenuApi.AddRequest(api, state.formData, state.modelFile));
      } else {
        issued := None;
      }
      if issued.Some? && MenuApi.WriteOutcome(response).Threw? {
        state := state.(error := Some(SubmitFailed));
      } else {
        provider.Refresh(refreshed, cache);
        state := state.(formData := EmptyForm(), modelPreviewUrl := Null, modelFile := None,
          selectedItem := None, isEditing := false, showAddForm := false);
      }
      state := state.(isLoading := false);
    }

    /** `handleCancel`: modes, selection, model and error cleared; the form
        keeps its contents. */
    method HandleCancel()
      requires Valid()
      modifies this
      ensures Valid()
      ensures state == old(state).(selectedItem := None, isEditing := false,
        showAddForm := false, modelPreviewUrl := Null, modelFile := None, error := None)
    {
      state := state.(selectedItem := None, isEditing := false, showAddForm := false,
        modelPreviewUrl := Null, modelFile := None, error := None);
    }

    method SetNewCategoryName(name: string)
      requires Valid()
      modifies this
      ensures Valid() && state == old(state).(newCategoryName := name)
    {
      state := state.(newCategoryName := name);
    }

    method SetNewSubcategoryName(name: string)
      requires Valid()
      modifies this
      ensures Valid() && state == old(state).(newSubcategoryName := name)
    {
      state := state.(newSubcategoryName := name);
    }

    method SetSelectedCategoryForSub(category: string)
      requires Valid()
      modifies this
      ensures Valid() && state == old(state).(selectedCategoryForSub := category)
    {
      state := state.(selectedCategoryForSub := category);
    }

    /** `handleAddCategory`: a blank name changes nothing; otherwise it is
        appended and the input cleared. */
    method HandleAddCategory()
      requires Valid()
      modifies this
      ensures Valid()
      ensures IsBlank(old(state.newCategoryName)) ==> state == old(state)
      ensures !IsBlank(old(state.newCategoryName)) ==> state == old(state).(
        categories := AddCategoryName(old(state.categories), old(state.newCategoryName)), newCategoryName := "")
    {
      TrimEmptyIffBlank(state.newCategoryName);
      if Trim(state.newCategoryName) == "" {
        return;
      }
      state := state.(categories := AddCategoryName(state.categories, state.newCategoryName), newCategoryName := "");
    }

    /** `handleAddSubcategory`: needs a category and a name, both non-blank;
        then the name is appended to that category's list and the name input
        cleared.  `crashed` when the state updater throws: React then
        unmounts the panel, and the model keeps the last rendered state. */
    method HandleAddSubcategory() returns (crashed: bool)
      requires Valid()
      modifies this
      ensures Valid()
      ensures var r := AddSubcategoryName(old(state.subcategories), old(state.selectedCategoryForSub), old(state.newSubcategoryName));
        crashed <==> r.None?
      ensures crashed || IsBlank(old(state.selectedCategoryForSub)) || IsBlank(old(state.newSubcategoryName)) ==>
        state == old(state)
      ensures !crashed && !IsBlank(old(state.selectedCategoryForSub)) && !IsBlank(old(state.newSubcategoryName)) ==>
        state == old(state).(newSubcategoryName := "", subcategories :=
          AddSubcategoryName(old(state.subcategories), old(state.selectedCategoryForSub), old(state.newSubcategoryName)).value)
    {
      var category, name := state.selectedCategoryForSub, state.newSubcategoryName;
      var r := AddSubcategoryName(state.subcategories, category, name);
      crashed := r.None?;
      TrimEmptyIffBlank(category);
      TrimEmptyIffBlank(name);
      if crashed || Trim(category) == "" || Trim(name) == "" {
        return;
      }
      state := state.(subcategories := r.value, newSubcategoryName := "");
    }

    /** `handleShowMenuQrCode` */
    method HandleShowMenuQrCode()
      requires Valid()
      modifies this
      ensures Valid()
      ensures state == old(state).(menuQrCodeUrl := MenuQrUrl, showMenuQrModal := true)
    {
      state := state.(menuQrCodeUrl := MenuQrUrl, showMenuQrModal := true);
    }

    /** `handleCloseMenuQrModal` */
    method HandleCloseMenuQrModal()
      requires Valid()
      modifies this
      ensures Valid()
      ensures state == old(state).(showMenuQrModal := false, menuQrCodeUrl := "")
    {
      state := state.(showMenuQrModal := false, menuQrCodeUrl := "");
    }
  }
}

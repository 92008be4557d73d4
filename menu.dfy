/**
 * The menu manager: the `menu` table mirrored by change events, the search
 * and category filter, the add/edit form, the validated add, update and
 * delete requests with their busy flags, and the visibility toggle.
 */
module Menu {
  import opened Wrappers
  import Seqs
  import Text
  import Mirror

  /**
   * A row of `menu`; `visible` is the `Visibility` column. Both `price` and
   * `Visibility` can be null: the insert never sets `Visibility`, and a price
   * that `parseInt` reads as `NaN` is stored as null.
   */
  datatype MenuItem = MenuItem(id: int, name: string, price: Option<int>, category: string, visible: Option<bool>)

  /** `item.Visibility ? 'Visible' : 'Not Visible'`: only a stored true is truthy. */
  predicate Shown(visible: Option<bool>) {
    visible == Some(true)
  }

  function ItemId(item: MenuItem): int {
    item.id
  }

  /** The three form inputs, as the text the inputs hold. */
  datatype Form = Form(name: string, price: string, category: string)

  const EmptyForm := Form("", "", "")

  datatype FormField = NameField | PriceField | CategoryField

  /** The keys of the `processing` object: `add`, an item id, and `delete_<id>`. */
  datatype BusyKey = AddKey | SaveKey(id: int) | DeleteKey(id: int)

  /** A missing key reads as falsy. */
  predicate Busy(m: map<BusyKey, bool>, k: BusyKey) {
    k in m && m[k]
  }

  /** The writes the manager sends to `menu`; a price that `parseInt` reads as `NaN` is None. */
  datatype MenuWrite =
    | InsertRow(name: string, price: Option<int>, category: string)
    | UpdateRow(id: int, name: string, price: Option<int>, category: string)
    | DeleteRow(id: int)
    | SetVisibility(id: int, visible: bool)

  const FieldsRequired := "All fields are required"

  /** `!formData.name || !formData.price || !formData.category` is false: no input is empty. */
  predicate FormComplete(f: Form) {
    f.name != "" && f.price != "" && f.category != ""
  }

  /**
   * The payload of `handleAddItem`: the name with the white space at its ends
   * cut off, the price as `parseInt` reads it (None for an empty input, the
   * number for a digit string), the category as typed.
   */
  function InsertPayload(f: Form): (w: MenuWrite)
    ensures w.InsertRow? && w.category == f.category
    ensures exists a :: Text.TrimmedAt(f.name, w.name, a)
    ensures w.name == [] || (!Text.IsSpace(w.name[0]) && !Text.IsSpace(w.name[|w.name| - 1]))
    ensures f.price == "" ==> w.price == None
    ensures f.price != "" && Text.AllDigits(f.price) ==> w.price == Some(Text.DigitsValue(f.price))
  {
    InsertRow(Text.Trim(f.name), Text.ParseInt(f.price), f.category)
  }

  /** The payload of `handleUpdateItem`: the row's id, the rest read from the form as for an add. */
  function UpdatePayload(id: int, f: Form): (w: MenuWrite)
    ensures w.UpdateRow? && w.id == id && w.category == f.category
    ensures exists a :: Text.TrimmedAt(f.name, w.name, a)
    ensures w.name == [] || (!Text.IsSpace(w.name[0]) && !Text.IsSpace(w.name[|w.name| - 1]))
    ensures f.price == "" ==> w.price == None
    ensures f.price != "" && Text.AllDigits(f.price) ==> w.price == Some(Text.DigitsValue(f.price))
  {
    UpdateRow(id, Text.Trim(f.name), Text.ParseInt(f.price), f.category)
  }

  /**
   * The form `startEditing` fills in: the item's name and category, and its
   * price as text that `parseInt` reads back. `item.price.toString()` throws
   * on a null price, so the form exists only for a row with a price.
   */
  function EditForm(item: MenuItem): (f: Form)
    requires item.price.Some?
    ensures f.name == item.name && f.category == item.category
    ensures f.price != "" && Text.ParseInt(f.price) == item.price
  {
    Text.ParseIntOfIntToString(item.price.value);
    Form(item.name, Text.IntToString(item.price.value), item.category)
  }

  /**
   * Saving an edit form nobody touched writes the item's own price back, and
   * it passes validation exactly when the item's name and category are not empty.
   */
  lemma EditUnchangedKeepsPrice(item: MenuItem)
    requires item.price.Some?
    ensures UpdatePayload(item.id, EditForm(item)) == UpdateRow(item.id, Text.Trim(item.name), item.price, item.category)
    ensures FormComplete(EditForm(item)) <==> item.name != "" && item.category != ""
  {
    var f := EditForm(item);
    assert f.name == item.name && f.category == item.category && f.price != "";
  }

  // ----- the search and category filter -----

  /** Name or category contains the term, ignoring case, and the category is the selected one or 'all' is selected. */
  predicate Matches(item: MenuItem, term: string, category: string)
    ensures Matches(item, term, category) <==>
      && ((exists k :: Text.OccursAt(Text.Lower(item.name), Text.Lower(term), k))
          || (exists k :: Text.OccursAt(Text.Lower(item.category), Text.Lower(term), k)))
      && (category == "all" || item.category == category)
  {
    Text.ContainsIffOccurs(Text.Lower(item.name), Text.Lower(term));
    Text.ContainsIffOccurs(Text.Lower(item.category), Text.Lower(term));
    && (Text.Contains(Text.Lower(item.name), Text.Lower(term))
        || Text.Contains(Text.Lower(item.category), Text.Lower(term)))
    && (category == "all" || item.category == category)
  }

  /** The search ignores case: a term matches as its lower-case form does. */
  lemma MatchesIgnoresCase(item: MenuItem, term: string, category: string)
    ensures Matches(item, term, category) <==> Matches(item, Text.Lower(term), category)
  {
    Text.LowerIdempotent(term);
  }

  /** `filteredItems`: exactly the matching items, in menu order. */
  function FilteredItems(items: seq<MenuItem>, term: string, category: string): (r: seq<MenuItem>)
    ensures forall i :: 0 <= i < |r| ==> r[i] in items && Matches(r[i], term, category)
    ensures forall i :: 0 <= i < |items| && Matches(items[i], term, category) ==> items[i] in r
    ensures forall x :: x in items ==> multiset(r)[x] == if Matches(x, term, category) then multiset(items)[x] else 0
    ensures Seqs.IsSubsequence(r, items)
  {
    Seqs.FilterCounts(items, (x: MenuItem) => Matches(x, term, category));
    Seqs.Filter(items, (x: MenuItem) => Matches(x, term, category))
  }

  /** An empty search with 'all' selected shows the whole menu. */
  lemma EmptySearchShowsAll(items: seq<MenuItem>)
    ensures FilteredItems(items, "", "all") == items
  {
    forall i | 0 <= i < |items| ensures Matches(items[i], "", "all") {
      Text.ContainsEmpty(Text.Lower(items[i].name));
    }
    Seqs.FilterKeepsAll(items, (x: MenuItem) => Matches(x, "", "all"));
  }

  /** Narrowing to one category shows only items of that category. */
  lemma CategoryFilterIsExact(items: seq<MenuItem>, term: string, category: string)
    requires category != "all"
    ensures forall x :: x in FilteredItems(items, term, category) ==> x.category == category
  {
    var r := FilteredItems(items, term, category);
    forall x | x in r ensures x.category == category {
      var i :| 0 <= i < |r| && r[i] == x;
    }
  }

  // ----- visibility -----

  /**
   * `visibilityMode(id, visibility)` writes `!visibility`: the negation of the
   * visibility the button shows, so a null `Visibility` becomes true.
   */
  function VisibilityWrite(id: int, visibility: Option<bool>): (w: MenuWrite)
    ensures w.SetVisibility? && w.id == id
    ensures w.visible <==> !Shown(visibility)
    ensures visibility == None ==> w.visible
  {
    SetVisibility(id, !(visibility.Some? && visibility.value))
  }

  /** What a visibility write does to a row of `menu`. */
  function ApplyVisibility(item: MenuItem, w: MenuWrite): (r: MenuItem)
    requires w.SetVisibility?
    ensures r.id == item.id && r.name == item.name && r.price == item.price && r.category == item.category
    ensures r.visible == if w.id == item.id then Some(w.visible) else item.visible
  {
    if w.id == item.id then item.(visible := Some(w.visible)) else item
  }

  /**
   * Pressing the toggle twice, each time on the row as it then is: the first
   * press flips what the button shows and the second shows the original state
   * again. The row itself comes back exactly when its `Visibility` was set; a
   * null `Visibility` goes to true and then to false.
   */
  lemma ToggleTwiceRestores(item: MenuItem)
    ensures var once := ApplyVisibility(item, VisibilityWrite(item.id, item.visible));
            var twice := ApplyVisibility(once, VisibilityWrite(once.id, once.visible));
            && Shown(once.visible) == !Shown(item.visible)
            && Shown(twice.visible) == Shown(item.visible)
            && (twice == item <==> item.visible.Some?)
            && (item.visible == None ==> once.visible == Some(true) && twice == item.(visible := Some(false)))
  {
  }

  class MenuManager {
    var items: seq<MenuItem>
    var processing: map<BusyKey, bool>
    var form: Form
    var editingItem: Option<int>
    var showAddForm: bool
    var error: string
    var success: string

    constructor ()
      ensures items == [] && processing == map[] && form == EmptyForm
      ensures editingItem == None && !showAddForm && error == "" && success == ""
    {
      items := [];
      processing := map[];
      form := EmptyForm;
      editingItem := None;
      showAddForm := false;
      error := "";
      success := "";
    }

    /** `fetchItems`: the rows as received, or an error message. */
    method FetchItems(response: Option<seq<MenuItem>>)
      modifies this`items, this`error
      ensures response.Some? ==> items == response.value && error == old(error)
      ensures response.None? ==> items == old(items) && error == "Failed to fetch menu items"
    {
      if response.Some? {
        items := response.value;
      } else {
        error := "Failed to fetch menu items";
      }
    }

    /** The realtime handler of the `menu` channel. */
    method ApplyChange(e: Mirror.Change<MenuItem>)
      modifies this`items, this`success
      ensures e.Insert? ==> items == old(items) + [e.row] && success == "Item added: " + e.row.name
      ensures e.Update? ==> items == Mirror.ReplaceKey(old(items), ItemId, e.row.id, e.row)
                            && success == "Item updated: " + e.row.name
      ensures e.Delete? ==> items == Mirror.RemoveKey(old(items), ItemId, e.oldId) && success == "Item deleted"
    {
      match e
      case Insert(row) =>
        items := items + [row];
        success := "Item added: " + row.name;
      case Update(row) =>
        items := Mirror.ReplaceKey(items, ItemId, row.id, row);
        success := "Item updated: " + row.name;
      case Delete(id) =>
        items := Mirror.RemoveKey(items, ItemId, id);
        success := "Item deleted";
    }

    /** `handleInputChange(field, value)`. */
    method SetField(field: FormField, value: string)
      modifies this`form
      ensures field == NameField ==> form == old(form).(name := value)
      ensures field == PriceField ==> form == old(form).(price := value)
      ensures field == CategoryField ==> form == old(form).(category := value)
    {
      match field
      case NameField => form := form.(name := value);
      case PriceField => form := form.(price := value);
      case CategoryField => form := form.(category := value);
    }

    /** `startAdding`. */
    method StartAdding()
      modifies this`showAddForm, this`editingItem, this`form
      ensures showAddForm && editingItem == None && form == EmptyForm
    {
      showAddForm := true;
      editingItem := None;
      form := EmptyForm;
    }

    /** The Cancel button of the add form. */
    method CloseAddForm()
      modifies this`showAddForm
      ensures !showAddForm
    {
      showAddForm := false;
    }

    /** The Edit button is disabled while any item is being edited. */
    predicate EditOffered()
      reads this
    {
      editingItem.None?
    }

    /**
     * `startEditing(item)`. The edited id is set first; for a row with a null
     * price `item.price.toString()` then throws, so the form and the add form
     * stay as they were.
     */
    method StartEditing(item: MenuItem)
      modifies this`editingItem, this`form, this`showAddForm
      ensures editingItem == Some(item.id) && !EditOffered()
      ensures item.price.Some? ==> form == Form(item.name, Text.IntToString(item.price.value), item.category)
                                   && !showAddForm
      ensures item.price.None? ==> form == old(form) && showAddForm == old(showAddForm)
    {
      editingItem := Some(item.id);
      if item.price.None? {
        return;
      }
      form := EditForm(item);
      showAddForm := false;
    }

    /** `cancelEditing`. */
    method CancelEditing()
      modifies this`editingItem, this`form
      ensures editingItem == None && form == EmptyForm
    {
      editingItem := None;
      form := EmptyForm;
    }

    /** The submit button of the add form is shown with the form and disabled while an add is in flight. */
    predicate AddOffered()
      reads this
    {
      showAddForm && !Busy(processing, AddKey)
    }

    /**
     * `handleAddItem` up to the request: an incomplete form sets the error and
     * issues nothing; a complete one raises the `add` flag and issues the insert.
     */
    method SubmitAdd() returns (w: Option<MenuWrite>)
      modifies this`error, this`processing
      ensures !FormComplete(form) ==> w == None && error == FieldsRequired && processing == old(processing)
      ensures FormComplete(form) ==> w == Some(InsertPayload(form)) && error == old(error)
                                     && processing == old(processing)[AddKey := true] && !AddOffered()
    {
      if !FormComplete(form) {
        error := FieldsRequired;
        w := None;
        return;
      }
      processing := processing[AddKey := true];
      w := Some(InsertPayload(form));
    }

    /** The rest of `handleAddItem`: on success the form is emptied and hidden; on failure an error is shown; the `add` flag is lowered either way. */
    method FinishAdd(succeeded: bool)
      modifies this`processing, this`success, this`error, this`form, this`showAddForm
      ensures processing == old(processing)[AddKey := false]
      ensures succeeded ==> success == "Item added successfully" && form == EmptyForm && !showAddForm && error == old(error)
      ensures !succeeded ==> error == "Failed to add item" && success == old(success)
                             && form == old(form) && showAddForm == old(showAddForm)
    {
      if succeeded {
        success := "Item added successfully";
        form := EmptyForm;
        showAddForm := false;
      } else {
        error := "Failed to add item";
      }
      processing := processing[AddKey := false];
    }

    /** Save Changes is shown for the item being edited and disabled while its update is in flight. */
    predicate SaveOffered(id: int)
      reads this
    {
      editingItem == Some(id) && !Busy(processing, SaveKey(id))
    }

    /** `handleUpdateItem(id)` up to the request, validated like an add. */
    method SubmitUpdate(id: int) returns (w: Option<MenuWrite>)
      modifies this`error, this`processing
      ensures !FormComplete(form) ==> w == None && error == FieldsRequired && processing == old(processing)
      ensures FormComplete(form) ==> w == Some(UpdatePayload(id, form)) && error == old(error)
                                     && processing == old(processing)[SaveKey(id) := true] && !SaveOffered(id)
    {
      if !FormComplete(form) {
        error := FieldsRequired;
        w := None;
        return;
      }
      processing := processing[SaveKey(id) := true];
      w := Some(UpdatePayload(id, form));
    }

    /** The rest of `handleUpdateItem`: success leaves edit mode with an empty form; the item's flag is lowered either way. */
    method FinishUpdate(id: int, succeeded: bool)
      modifies this`processing, this`success, this`error, this`form, this`editingItem
      ensures processing == old(processing)[SaveKey(id) := false]
      ensures succeeded ==> success == "Item updated successfully" && editingItem == None && form == EmptyForm
                            && error == old(error)
      ensures !succeeded ==> error == "Failed to update item" && success == old(success)
                             && editingItem == old(editingItem) && form == old(form)
    {
      if succeeded {
        success := "Item updated successfully";
        editingItem := None;
        form := EmptyForm;
      } else {
        error := "Failed to update item";
      }
      processing := processing[SaveKey(id) := false];
    }

    /** Delete is disabled while that item's delete is in flight and while any item is being edited. */
    predicate DeleteOffered(id: int)
      reads this
    {
      !Busy(processing, DeleteKey(id)) && editingItem.None?
    }

    /** `handleDeleteItem(id)` up to the request; `confirmed` is the answer to the confirmation dialog. */
    method StartDelete(id: int, confirmed: bool) returns (w: Option<MenuWrite>)
      modifies this`processing
      ensures !confirmed ==> w == None && processing == old(processing)
      ensures confirmed ==> w == Some(DeleteRow(id)) && processing == old(processing)[DeleteKey(id) := true]
                            && !DeleteOffered(id)
    {
      if !confirmed {
        w := None;
        return;
      }
      processing := processing[DeleteKey(id) := true];
      w := Some(DeleteRow(id));
    }

    /** The rest of `handleDeleteItem`: a message, and the `delete_<id>` flag lowered either way. */
    method FinishDelete(id: int, succeeded: bool)
      modifies this`processing, this`success, this`error
      ensures processing == old(processing)[DeleteKey(id) := false]
      ensures succeeded ==> success == "Item deleted successfully" && error == old(error)
      ensures !succeeded ==> error == "Failed to delete item" && success == old(success)
    {
      if succeeded {
        success := "Item deleted successfully";
      } else {
        error := "Failed to delete item";
      }
      processing := processing[DeleteKey(id) := false];
    }
  }
}

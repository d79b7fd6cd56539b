/**
 * The state of the dashboard page and its event handlers: the inventory, the
 * item form, the index of the item being edited and whether the form is open.
 * Items are addressed by their current position in the inventory.
 */
module Store {
  import opened Wrappers
  import opened Items
  import opened ArrayOps

  /** One `handleChange` event: the form field it names and its new value. */
  datatype FieldChange =
    | SetName(name: string)
    | SetCategory(category: Category)
    | SetQuantity(quantity: int)
    | SetExpiry(expiry: Expiry)

  class Dashboard {
    var items: seq<Item>
    var isOpen: bool
    var form: Item
    var editingIndex: Option<nat>

    /** The page as first rendered: no items, form closed and empty, nothing being edited. */
    constructor ()
      ensures items == [] && !isOpen && form == EmptyForm && editingIndex == None
    {
      items := [];
      isOpen := false;
      form := EmptyForm;
      editingIndex := None;
    }

    /** The "Add Item" button: opens the form and nothing else (a pending edit stays pending). */
    method Open()
      modifies this
      ensures isOpen
      ensures items == old(items) && form == old(form) && editingIndex == old(editingIndex)
    {
      isOpen := true;
    }

    /** The "Cancel" button: closes the form; the form contents and the edit index are kept. */
    method Cancel()
      modifies this
      ensures !isOpen
      ensures items == old(items) && form == old(form) && editingIndex == old(editingIndex)
    {
      isOpen := false;
    }

    /** `handleChange`: replaces one field of the form and leaves the others alone. */
    method Change(change: FieldChange)
      modifies this
      ensures change.SetName? ==> form == old(form).(name := change.name)
      ensures change.SetCategory? ==> form == old(form).(category := change.category)
      ensures change.SetQuantity? ==> form == old(form).(quantity := change.quantity)
      ensures change.SetExpiry? ==> form == old(form).(expiry := change.expiry)
      ensures items == old(items) && isOpen == old(isOpen) && editingIndex == old(editingIndex)
    {
      match change
      case SetName(n) => form := form.(name := n);
      case SetCategory(c) => form := form.(category := c);
      case SetQuantity(q) => form := form.(quantity := q);
      case SetExpiry(e) => form := form.(expiry := e);
    }

    /**
     * `handleSubmit`: with no edit pending the form is appended; with an edit
     * pending at `i` the form is written at position `i` and the edit ends. Either
     * way the form is reset and closed. Nothing is validated.
     */
    method Submit()
      requires editingIndex.Some? ==> editingIndex.value <= |items|
      modifies this
      ensures old(editingIndex).None? ==> items == old(items) + [old(form)]
      ensures old(editingIndex).Some? ==> items == WriteAt(old(items), old(editingIndex).value, old(form))
      ensures old(editingIndex).Some? && old(editingIndex).value < |old(items)| ==>
                |items| == |old(items)|
                && items[old(editingIndex).value] == old(form)
                && forall j :: 0 <= j < |items| && j != old(editingIndex).value ==> items[j] == old(items)[j]
      ensures editingIndex == None && form == EmptyForm && !isOpen
    {
      if editingIndex.Some? {
        items := WriteAt(items, editingIndex.value, form);
        editingIndex := None;
      } else {
        items := items + [form];
      }
      form := EmptyForm;
      isOpen := false;
    }

    /**
     * `handleEdit`: loads the item at `index` into the form, remembers the index
     * and opens the form.
     */
    method Edit(index: nat)
      requires index < |items|
      modifies this
      ensures items == old(items)
      ensures form == items[index] && editingIndex == Some(index) && isOpen
    {
      form := items[index];
      editingIndex := Some(index);
      isOpen := true;
    }

    /**
     * `handleDelete`: drops the item at `index`; the others keep their order. An
     * index outside the inventory changes nothing.
     */
    method Delete(index: int)
      modifies this
      ensures items == RemovePosition(old(items), index)
      ensures 0 <= index < |old(items)| ==> items == old(items)[..index] + old(items)[index + 1..]
      ensures !(0 <= index < |old(items)|) ==> items == old(items)
      ensures form == old(form) && isOpen == old(isOpen) && editingIndex == old(editingIndex)
    {
      RemovePositionSpec(items, index);
      items := RemovePosition(items, index);
    }
  }

  /** Opening an item for edit and saving it untouched gives back the same inventory. */
  method EditThenSubmitKeepsItems(d: Dashboard, index: nat)
    requires index < |d.items|
    modifies d
    ensures d.items == old(d.items)
    ensures d.editingIndex == None && d.form == EmptyForm && !d.isOpen
  {
    d.Edit(index);
    d.Submit();
  }

  /**
   * Cancelling an edit leaves it pending: on an inventory [a, b], editing a,
   * cancelling, reopening with "Add Item" and saving c overwrites a instead of
   * appending c.
   */
  method CancelledEditStaysPending(a: Item, b: Item, c: Item) returns (after: seq<Item>)
    ensures after == [c, b]
  {
    var d := new Dashboard();
    d.Open();
    d.Change(SetName(a.name));
    d.Change(SetCategory(a.category));
    d.Change(SetQuantity(a.quantity));
    d.Change(SetExpiry(a.expiry));
    assert d.form == a;
    d.Submit();
    d.Open();
    d.Change(SetName(b.name));
    d.Change(SetCategory(b.category));
    d.Change(SetQuantity(b.quantity));
    d.Change(SetExpiry(b.expiry));
    assert d.form == b;
    d.Submit();
    assert d.items == [a, b];
    d.Edit(0);
    d.Cancel();
    d.Open();
    d.Change(SetName(c.name));
    d.Change(SetCategory(c.category));
    d.Change(SetQuantity(c.quantity));
    d.Change(SetExpiry(c.expiry));
    assert d.form == c;
    d.Submit();
    after := d.items;
  }

  /** Adding to a fresh page: each submit appends the form, and deleting the first item leaves the rest in order. */
  method AddAddDelete(a: Item, b: Item) returns (after: seq<Item>)
    ensures after == [b]
  {
    var d := new Dashboard();
    d.Open();
    d.Change(SetName(a.name));
    d.Change(SetCategory(a.category));
    d.Change(SetQuantity(a.quantity));
    d.Change(SetExpiry(a.expiry));
    d.Submit();
    d.Open();
    d.Change(SetName(b.name));
    d.Change(SetCategory(b.category));
    d.Change(SetQuantity(b.quantity));
    d.Change(SetExpiry(b.expiry));
    d.Submit();
    d.Delete(0);
    after := d.items;
  }
}

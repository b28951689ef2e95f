/** The state of the App component of src/App.js: the inventory, the add-item form and
    the alert list, with the handlers that change them. React's state updates become
    field assignments; the effect that re-checks alerts whenever the inventory changes
    runs at the end of each handler that changes it. */
module InventoryApp {
  import opened Dates
  import opened Items
  import opened Alerts
  import opened Ingest

  /** The four inputs of the add-item form. */
  datatype FormField = NameField | QuantityField | ExpiryField | SalesField

  /** The text currently in one input of the form. */
  function FieldValue(form: Form, field: FormField): string {
    match field
    case NameField => form.name
    case QuantityField => form.quantity
    case ExpiryField => form.expiry
    case SalesField => form.sales
  }

  /** `{ ...form, <field>: value }`: the edited input holds the typed value and the
      other three keep theirs. */
  function WithField(form: Form, field: FormField, value: string): (f: Form)
    ensures FieldValue(f, field) == value
    ensures forall g :: g != field ==> FieldValue(f, g) == FieldValue(form, g)
  {
    match field
    case NameField => form.(name := value)
    case QuantityField => form.(quantity := value)
    case ExpiryField => form.(expiry := value)
    case SalesField => form.(sales := value)
  }

  /** A form is determined by what its four inputs hold. */
  lemma FormByFields(f: Form, g: Form)
    requires forall field :: FieldValue(f, field) == FieldValue(g, field)
    ensures f == g
  {
    assert FieldValue(f, NameField) == FieldValue(g, NameField);
    assert FieldValue(f, QuantityField) == FieldValue(g, QuantityField);
    assert FieldValue(f, ExpiryField) == FieldValue(g, ExpiryField);
    assert FieldValue(f, SalesField) == FieldValue(g, SalesField);
  }

  /** Typing into two different inputs gives the same form in either order. */
  lemma EditsCommute(form: Form, a: FormField, b: FormField, v: string, w: string)
    requires a != b
    ensures WithField(WithField(form, a, v), b, w) == WithField(WithField(form, b, w), a, v)
  {
    FormByFields(WithField(WithField(form, a, v), b, w), WithField(WithField(form, b, w), a, v));
  }

  /** A later change to an input replaces an earlier one. */
  lemma LastEditWins(form: Form, a: FormField, v: string, w: string)
    ensures WithField(WithField(form, a, v), a, w) == WithField(form, a, w)
  {
    FormByFields(WithField(WithField(form, a, v), a, w), WithField(form, a, w));
  }

  class App {
    var inventory: seq<Item>
    var newItem: Form
    var alerts: seq<Item>
    /** When the alerts were last computed. */
    ghost var checkedAt: Moment

    /** Ids are positions, and the alert list is the alert filter of the inventory at
        the time of the last check. */
    ghost predicate Valid()
      reads this
    {
      WellFormed(inventory) && alerts == AlertsOf(inventory, checkedAt)
    }

    /** The component's first render: the seed inventory, an empty form, and the alerts
        computed by the effect's first run. */
    constructor (now: Moment)
      ensures Valid() && checkedAt == now
      ensures inventory == Seed && newItem == EmptyForm && alerts == AlertsOf(Seed, now)
    {
      inventory := Seed;
      newItem := EmptyForm;
      alerts := [];
      checkedAt := now;
      new;
      SeedWellFormed();
      CheckForAlerts(now);
    }

    /** `checkForAlerts`: replace the alert list by the alert filter of the inventory. */
    method CheckForAlerts(now: Moment)
      modifies this
      ensures alerts == AlertsOf(inventory, now) && checkedAt == now
      ensures inventory == old(inventory) && newItem == old(newItem)
      ensures WellFormed(inventory) ==> Valid()
    {
      alerts := AlertsOf(inventory, now);
      checkedAt := now;
    }

    /** An input's `onChange`: one field of the form takes the typed value. */
    method Edit(field: FormField, value: string)
      requires Valid()
      modifies this
      ensures Valid()
      ensures newItem == WithField(old(newItem), field, value)
      ensures inventory == old(inventory) && alerts == old(alerts) && checkedAt == old(checkedAt)
    {
      newItem := WithField(newItem, field, value);
    }

    /** `handleAddItem`. Without a name, a quantity or sales nothing changes. Otherwise
        the new record is appended after every existing item, the form is emptied, and
        the inventory change makes the alert effect run: the new alert list is the old
        inventory's, re-checked at `now`, followed by the new item if it needs an alert. */
    method AddItem(now: Moment)
      requires Valid()
      modifies this
      ensures Valid()
      ensures !Submittable(old(newItem)) ==>
                inventory == old(inventory) && newItem == old(newItem)
                && alerts == old(alerts) && checkedAt == old(checkedAt)
      ensures Submittable(old(newItem)) ==>
                var item := NewItemData(old(newItem), old(inventory));
                inventory == old(inventory) + [item] && newItem == EmptyForm && checkedAt == now
                && alerts == AlertsOf(old(inventory), now) + (if NeedsAlert(item, now) then [item] else [])
    {
      if Submittable(newItem) {
        var item := NewItemData(newItem, inventory);
        AddKeepsWellFormed(inventory, newItem);
        inventory := inventory + [item];
        newItem := EmptyForm;
        CheckForAlerts(now);
        AlertsOfAppend(old(inventory), [item], now);
        assert AlertsOf([item], now) == AlertsOf([], now) + (if NeedsAlert(item, now) then [item] else []);
      }
    }
  }
}

/** A session as a client of the component sees it: start on 2025-01-01, fill in the form
    and add one item. */
module Session {
  import opened JsNumbers
  import opened Dates
  import opened Items
  import opened Alerts
  import opened Ingest
  import opened InventoryApp

  lemma BreadForm()
    ensures WithField(WithField(WithField(EmptyForm, NameField, "Bread"), QuantityField, "15"), SalesField, "1,2,3")
            == Form("Bread", "15", "", "1,2,3")
  {
    var f := WithField(WithField(WithField(EmptyForm, NameField, "Bread"), QuantityField, "15"), SalesField, "1,2,3");
    FormByFields(f, Form("Bread", "15", "", "1,2,3"));
  }

  method AddBreadSession() {
    var now := Moment(Ordinal(2025, 1, 1), 0);
    var app := new App(now);
    SeedAlerts(now);
    assert app.alerts == [Seed[0]];

    app.Edit(NameField, "Bread");
    assert app.newItem.quantity == "";
    app.AddItem(now);
    assert app.inventory == Seed;

    app.Edit(QuantityField, "15");
    app.Edit(SalesField, "1,2,3");
    BreadForm();
    assert app.newItem == Form("Bread", "15", "", "1,2,3");
    AddBreadExample(Seed);
    app.AddItem(now);
    var bread := Item(4, "Bread", Int(15), "", [Int(1), Int(2), Int(3)], 10);
    assert ParseDate("") == None;
    assert !NeedsAlert(bread, now);
    assert app.inventory == Seed + [bread];
    assert app.alerts == [Seed[0]];
    assert app.newItem == EmptyForm;
  }
}

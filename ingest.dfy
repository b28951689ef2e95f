/** What the add-item handler of src/App.js builds from the form: the presence check and
    the new inventory record. */
module Ingest {
  import opened JsNumbers
  import opened Text
  import opened Items

  /** `newItem.name && newItem.quantity && newItem.sales`: the three fields are non-empty
      strings. The expiry may be empty. */
  predicate Submittable(form: Form) {
    form.name != "" && form.quantity != "" && form.sales != ""
  }

  /** `sales.split(',').map(Number)`: one figure per comma-separated token. */
  function ParseSales(text: string): (sales: seq<Num>)
    ensures |sales| == |Split(text, ',')| == Occurrences(text, ',') + 1
    ensures forall i :: 0 <= i < |sales| ==> sales[i] == ToNumber(Split(text, ',')[i])
  {
    var tokens := Split(text, ',');
    SplitShape(text, ',');
    seq(|tokens|, i requires 0 <= i < |tokens| => ToNumber(tokens[i]))
  }

  /** The record appended for a submitted form: the form's name and expiry copied as they
      are, the quantity through `parseInt`, the sales through ParseSales, the id one more
      than the number of items already held and the reorder level 10. */
  function NewItemData(form: Form, inventory: seq<Item>): (item: Item)
    requires Submittable(form)
    ensures item.id == |inventory| + 1 && item.reorderLevel == 10
    ensures item.name == form.name && item.expiry == form.expiry
    ensures item.quantity == ParseInt(form.quantity)
    ensures item.sales == ParseSales(form.sales) && |item.sales| >= 1
  {
    Item(|inventory| + 1, form.name, ParseInt(form.quantity), form.expiry, ParseSales(form.sales), 10)
  }

  /** Adding a record keeps the inventory well formed: ids stay equal to positions. */
  lemma AddKeepsWellFormed(inventory: seq<Item>, form: Form)
    requires WellFormed(inventory) && Submittable(form)
    ensures WellFormed(inventory + [NewItemData(form, inventory)])
  {
  }

  lemma {:induction false} DecimalHasNoComma(n: nat)
    ensures ',' !in DecimalString(n)
  {
    if n >= 10 {
      DecimalHasNoComma(n / 10);
    }
  }

  /** Sales typed as integers joined by commas are read back as those integers. */
  lemma SalesRoundTrip(values: seq<int>)
    requires |values| > 0
    ensures ParseSales(Join(seq(|values|, i requires 0 <= i < |values| => IntString(values[i])), ','))
            == seq(|values|, i requires 0 <= i < |values| => Int(values[i]))
  {
    var tokens := seq(|values|, i requires 0 <= i < |values| => IntString(values[i]));
    forall i | 0 <= i < |tokens|
      ensures ',' !in tokens[i] && ToNumber(tokens[i]) == Int(values[i])
    {
      var v := values[i];
      DecimalHasNoComma(if v < 0 then -v else v);
      IntStringRoundTrip(v);
    }
    SplitJoin(tokens, ',');
  }

  /** The form of a typical add: the empty expiry stays empty (it is not turned into
      "N/A"), the quantity and the sales are read as numbers. */
  lemma AddBreadExample(inventory: seq<Item>)
    ensures NewItemData(Form("Bread", "15", "", "1,2,3"), inventory)
            == Item(|inventory| + 1, "Bread", Int(15), "", [Int(1), Int(2), Int(3)], 10)
  {
    SalesRoundTrip([1, 2, 3]);
    IntStringRoundTrip(15);
    assert IntString(15) == "15";
    assert Join(["1", "2", "3"], ',') == "1,2,3";
  }

  /** Nothing rejects a negative quantity: "-5" is stored as -5. */
  lemma NegativeQuantityKept(inventory: seq<Item>)
    ensures NewItemData(Form("Bread", "-5", "", "1"), inventory).quantity == Int(-5)
  {
    IntStringRoundTrip(-5);
    assert IntString(-5) == "-5";
  }
}

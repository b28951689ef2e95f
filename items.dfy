/** The inventory record and the add-item form of src/App.js, and the seed inventory the
    component starts with. */
module Items {
  import opened JsNumbers

  /** One inventory record. `quantity` and the sales figures are JS numbers (NaN when the
      form text was not a number); `expiry` is kept as the text it was given. */
  datatype Item = Item(id: int, name: string, quantity: Num, expiry: string,
                       sales: seq<Num>, reorderLevel: int)

  /** The add-item form: four raw strings as typed. */
  datatype Form = Form(name: string, quantity: string, expiry: string, sales: string)

  const EmptyForm: Form := Form("", "", "", "")

  /** The marker an item without an expiry date carries. */
  const NotApplicable: string := "N/A"

  /** The three demonstration records the inventory starts with. */
  const Seed: seq<Item> := [
    Item(1, "Milk", Int(20), "2024-10-30", [Int(5), Int(3), Int(4), Int(7)], 10),
    Item(2, "T-Shirt", Int(50), NotApplicable, [Int(15), Int(20), Int(5), Int(8)], 30),
    Item(3, "Laptop", Int(10), NotApplicable, [Int(2), Int(1), Int(3), Int(4)], 5)
  ]

  /** What every inventory the component builds satisfies: the item at position `i` has
      id `i + 1`, a positive reorder level and at least one sales figure. */
  predicate WellFormed(inventory: seq<Item>) {
    forall i :: 0 <= i < |inventory| ==>
      inventory[i].id == i + 1 && inventory[i].reorderLevel > 0 && |inventory[i].sales| > 0
  }

  /** Ids in a well-formed inventory strictly increase, so no two items share one. */
  lemma IdsIncrease(inventory: seq<Item>, i: int, j: int)
    requires WellFormed(inventory)
    requires 0 <= i < j < |inventory|
    ensures inventory[i].id < inventory[j].id
  {
  }

  lemma SeedWellFormed()
    ensures WellFormed(Seed)
  {
  }
}

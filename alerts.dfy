/** The alert check of src/App.js: the items that have expired or are overstocked, in
    inventory order. */
module Alerts {
  import opened JsNumbers
  import opened Dates
  import opened Items

  /** The expiry is not the "N/A" marker and reads as a date whose midnight is before now.
      A string that is not a date (the empty string, say) makes an invalid JS date, and
      comparing one is always false. */
  predicate IsExpiring(item: Item, now: Moment) {
    item.expiry != NotApplicable &&
    match ParseDate(item.expiry)
    case Some(day) => MidnightBefore(day, now)
    case None => false
  }

  /** Strictly more than twice the reorder level in stock; a NaN quantity never is. */
  predicate IsOverstocked(item: Item) {
    item.quantity.Int? && item.quantity.v > item.reorderLevel * 2
  }

  predicate NeedsAlert(item: Item, now: Moment) {
    IsExpiring(item, now) || IsOverstocked(item)
  }

  /** `inventory.filter(...)` with the alert predicate. */
  function AlertsOf(inventory: seq<Item>, now: Moment): (alerts: seq<Item>)
    ensures |alerts| <= |inventory|
    ensures forall x :: x in alerts <==> x in inventory && NeedsAlert(x, now)
  {
    if inventory == [] then []
    else
      var last := inventory[|inventory| - 1];
      AlertsOf(inventory[..|inventory| - 1], now) + (if NeedsAlert(last, now) then [last] else [])
  }

  /** The positions of the items that need an alert, in increasing order. */
  function AlertPositions(inventory: seq<Item>, now: Moment): (ps: seq<nat>)
    ensures forall k :: 0 <= k < |ps| ==> ps[k] < |inventory|
    ensures forall k, l :: 0 <= k < l < |ps| ==> ps[k] < ps[l]
    ensures forall i :: 0 <= i < |inventory| ==> (i in ps <==> NeedsAlert(inventory[i], now))
  {
    if inventory == [] then []
    else
      var n := |inventory| - 1;
      AlertPositions(inventory[..n], now) + (if NeedsAlert(inventory[n], now) then [n] else [])
  }

  /** The alerts are exactly the inventory items at AlertPositions, in that order: the
      filter neither reorders, repeats, drops nor invents an item. */
  lemma {:induction false} AlertsAreSubsequence(inventory: seq<Item>, now: Moment)
    ensures |AlertsOf(inventory, now)| == |AlertPositions(inventory, now)|
    ensures forall k :: 0 <= k < |AlertPositions(inventory, now)| ==>
              AlertsOf(inventory, now)[k] == inventory[AlertPositions(inventory, now)[k]]
  {
    if inventory != [] {
      var n := |inventory| - 1;
      var front := inventory[..n];
      var fa, fp := AlertsOf(front, now), AlertPositions(front, now);
      var a, p := AlertsOf(inventory, now), AlertPositions(inventory, now);
      AlertsAreSubsequence(front, now);
      assert a == fa + (if NeedsAlert(inventory[n], now) then [inventory[n]] else []);
      assert p == fp + (if NeedsAlert(inventory[n], now) then [n] else []);
      forall k | 0 <= k < |p|
        ensures a[k] == inventory[p[k]]
      {
        if k < |fp| {
          assert a[k] == fa[k] == front[fp[k]];
        }
      }
    }
  }

  /** Filtering a concatenation filters each part. */
  lemma {:induction false} AlertsOfAppend(a: seq<Item>, b: seq<Item>, now: Moment)
    ensures AlertsOf(a + b, now) == AlertsOf(a, now) + AlertsOf(b, now)
  {
    if b != [] {
      var n := |b| - 1;
      assert (a + b)[..|a + b| - 1] == a + b[..n];
      AlertsOfAppend(a, b[..n], now);
    } else {
      assert a + b == a;
    }
  }

  /** Re-checking the alert list itself changes nothing. */
  lemma {:induction false} AlertsIdempotent(inventory: seq<Item>, now: Moment)
    ensures AlertsOf(AlertsOf(inventory, now), now) == AlertsOf(inventory, now)
  {
    if inventory != [] {
      var n := |inventory| - 1;
      var last := inventory[n];
      var front := AlertsOf(inventory[..n], now);
      var tail := if NeedsAlert(last, now) then [last] else [];
      AlertsIdempotent(inventory[..n], now);
      AlertsOfAppend(front, tail, now);
      if NeedsAlert(last, now) {
        assert AlertsOf(tail, now) == AlertsOf([], now) + [last];
      }
    }
  }

  /** The "N/A" test is redundant: the marker never reads as a date. */
  lemma NotApplicableIsNoDate(item: Item, now: Moment)
    ensures IsExpiring(item, now) <==> ParseDate(item.expiry).Some? && MidnightBefore(ParseDate(item.expiry).value, now)
  {
    assert ParseDate(NotApplicable) == None;
  }

  /** On the seed inventory only Milk can alert, and it does once the day after
      2024-10-30 has begun; T-Shirt (50, not above 60) and Laptop (10, not above 10)
      never do. */
  lemma SeedAlerts(now: Moment)
    ensures AlertsOf(Seed, now) == if MidnightBefore(Ordinal(2024, 10, 30), now) then [Seed[0]] else []
  {
    ParseFormat(2024, 10, 30);
    assert FormatDate(2024, 10, 30) == "2024-10-30";
    assert NeedsAlert(Seed[0], now) == MidnightBefore(Ordinal(2024, 10, 30), now);
    assert !NeedsAlert(Seed[1], now) && !NeedsAlert(Seed[2], now);
    var one := Seed[..1];
    assert one[..0] == [];
    assert AlertsOf(one, now) == if NeedsAlert(Seed[0], now) then [Seed[0]] else [];
    assert Seed[..2][..1] == one;
    assert AlertsOf(Seed[..2], now) == AlertsOf(one, now);
  }
}

/**
 * The order and bill of restaurantbilling.py: the widget-key sanitiser,
 * the five hubs' menus, the selection of ordered items, the bill rows with
 * their subtotal, and the tax, tip and total. Every menu price is a whole
 * number of currency units, so amounts are integers: line totals and the
 * subtotal in units, tax, tip and total in hundredths of a unit.
 */
module Billing {

  // ---------------------------------------------------------------------
  // safe_key
  // ---------------------------------------------------------------------

  /** ASCII letters and digits (the ASCII part of str.isalnum). */
  predicate IsAlnum(c: char)
  {
    'a' <= c <= 'z' || 'A' <= c <= 'Z' || '0' <= c <= '9'
  }

  /**
   * safe_key: every character that is not a letter or digit becomes '_';
   * the key has the same length, keeps each letter and digit in place and
   * holds nothing but letters, digits and '_'.
   */
  function SafeKey(s: string): (r: string)
    ensures |r| == |s|
    ensures forall k :: 0 <= k < |s| && IsAlnum(s[k]) ==> r[k] == s[k]
    ensures forall k :: 0 <= k < |s| && !IsAlnum(s[k]) ==> r[k] == '_'
    ensures forall k :: 0 <= k < |r| ==> IsAlnum(r[k]) || r[k] == '_'
  {
    if s == [] then []
    else [if IsAlnum(s[0]) then s[0] else '_'] + SafeKey(s[1..])
  }

  /** Sanitising a key again changes nothing. */
  lemma SafeKeyIdempotent(s: string)
    ensures SafeKey(SafeKey(s)) == SafeKey(s)
  {
  }

  /** Two strings of equal length get the same key exactly when they agree on letters and digits. */
  lemma SafeKeyCollision(s: string, t: string)
    requires |s| == |t|
    ensures SafeKey(s) == SafeKey(t) <==>
              forall k :: 0 <= k < |s| ==>
                (IsAlnum(s[k]) || IsAlnum(t[k]) ==> s[k] == t[k])
  {
    if SafeKey(s) != SafeKey(t) {
      var k :| 0 <= k < |s| && SafeKey(s)[k] != SafeKey(t)[k];
    }
  }

  // ---------------------------------------------------------------------
  // Menus and the order
  // ---------------------------------------------------------------------

  datatype MenuItem = MenuItem(name: string, price: nat, color: string)

  datatype Hub = Hub(name: string, bannerColor: string, menu: seq<MenuItem>)

  /** The five hubs, four items each, in display order. */
  const Restaurants: seq<Hub> := [
    Hub("Burger Hub", "#FFF3E0", [
      MenuItem("Classic Burger", 130, "#FFE0B2"),
      MenuItem("Cheese Burger", 160, "#FFDAB9"),
      MenuItem("Veggie Burger", 120, "#FFEFD5"),
      MenuItem("Fries Large", 90, "#FFF7C2")]),
    Hub("Pizzeria Corner", "#FFF8E1", [
      MenuItem("Margherita", 220, "#FFF1C9"),
      MenuItem("Pepperoni", 260, "#FFE7BF"),
      MenuItem("Four Cheese", 300, "#FFEFD6"),
      MenuItem("Garlic Bread", 95, "#F0F8E2")]),
    Hub("Pasta House", "#F0FFF4", [
      MenuItem("Alfredo Pasta", 210, "#E6FFFA"),
      MenuItem("Arrabiata", 200, "#F0FFF0"),
      MenuItem("Pesto Pasta", 230, "#E9FFF6"),
      MenuItem("Garlic Prawns Pasta", 320, "#FFF0F5")]),
    Hub("Cafe Delight", "#F3E8FF", [
      MenuItem("Cappuccino", 120, "#F3E8FF"),
      MenuItem("Latte", 130, "#F6EFFE"),
      MenuItem("Blueberry Muffin", 85, "#FFF7F0"),
      MenuItem("Chocolate Brownie", 95, "#FFF0F0")]),
    Hub("Asian Wok", "#E8F7FF", [
      MenuItem("Chicken Fried Rice", 160, "#E8F7FF"),
      MenuItem("Veg Noodles", 140, "#F0FBF6"),
      MenuItem("Manchurian", 170, "#FFF7E6"),
      MenuItem("Schezwan Noodles", 180, "#FFF2F0")])
  ]

  /** The quantity input's bounds. */
  const MaxQuantity: nat := 50

  /** Every menu price is positive. */
  lemma MenuPricesPositive()
    ensures forall h, i :: 0 <= h < |Restaurants| && 0 <= i < |Restaurants[h].menu| ==>
              Restaurants[h].menu[i].price > 0
  {
  }

  /** An ordered item: name, unit price and quantity. */
  datatype Selected = Selected(name: string, price: nat, quantity: nat)

  /** Positions listed in strictly increasing order, so each at most once. */
  predicate Increasing(r: seq<nat>)
  {
    forall j, k :: 0 <= j < k < |r| ==> r[j] < r[k]
  }

  /** r lists exactly the positions of the positive quantities. */
  predicate PositivePositions(r: seq<nat>, quantities: seq<nat>)
  {
    && (forall j :: 0 <= j < |r| ==> r[j] < |quantities| && quantities[r[j]] > 0)
    && (forall i :: 0 <= i < |quantities| && quantities[i] > 0 ==> i in r)
  }

  /** The positions of the positive quantities, in increasing order, each once. */
  function PositiveIndices(quantities: seq<nat>): (r: seq<nat>)
    ensures forall j :: 0 <= j < |r| ==> r[j] < |quantities|
    ensures PositivePositions(r, quantities) && Increasing(r)
  {
    if quantities == [] then []
    else
      var n := |quantities| - 1;
      PositiveIndices(quantities[..n]) + (if quantities[n] > 0 then [n] else [])
  }

  /** x is some menu item with its price and its quantity input. */
  predicate OnMenu(x: Selected, menu: seq<MenuItem>, quantities: seq<nat>)
    requires |quantities| == |menu|
  {
    exists i :: 0 <= i < |menu| && x == Selected(menu[i].name, menu[i].price, quantities[i])
  }

  /** The menu items with a positive quantity, each with its price and quantity. */
  function Selection(menu: seq<MenuItem>, quantities: seq<nat>): (r: seq<Selected>)
    requires |quantities| == |menu|
    ensures |r| <= |menu|
    ensures forall j :: 0 <= j < |r| ==> r[j].quantity > 0
    ensures forall j :: 0 <= j < |r| ==> OnMenu(r[j], menu, quantities)
    ensures forall i :: 0 <= i < |menu| && quantities[i] > 0 ==>
              Selected(menu[i].name, menu[i].price, quantities[i]) in r
  {
    if menu == [] then []
    else
      var n := |menu| - 1;
      var init := Selection(menu[..n], quantities[..n]);
      if quantities[n] > 0 then init + [Selected(menu[n].name, menu[n].price, quantities[n])] else init
  }

  /** The j-th entry of r is the menu item at position idx[j], with its price and quantity. */
  predicate Follows(r: seq<Selected>, idx: seq<nat>, menu: seq<MenuItem>, quantities: seq<nat>)
    requires |quantities| == |menu|
  {
    && |r| == |idx|
    && forall j :: 0 <= j < |r| ==>
         idx[j] < |menu| && r[j] == Selected(menu[idx[j]].name, menu[idx[j]].price, quantities[idx[j]])
  }

  /** Positions below n read the same in a list and in its first n entries. */
  lemma FollowsPrefix(r: seq<Selected>, idx: seq<nat>, menu: seq<MenuItem>, quantities: seq<nat>, n: nat)
    requires |quantities| == |menu| && n <= |menu|
    requires Follows(r, idx, menu[..n], quantities[..n])
    ensures Follows(r, idx, menu, quantities)
  {
    forall j | 0 <= j < |r|
      ensures r[j] == Selected(menu[idx[j]].name, menu[idx[j]].price, quantities[idx[j]])
    {
      assert menu[..n][idx[j]] == menu[idx[j]];
      assert quantities[..n][idx[j]] == quantities[idx[j]];
    }
  }

  /** Appending the item at position n to both lists keeps them in step. */
  lemma FollowsAppend(r: seq<Selected>, idx: seq<nat>, menu: seq<MenuItem>, quantities: seq<nat>, n: nat)
    requires |quantities| == |menu| && n < |menu|
    requires Follows(r, idx, menu, quantities)
    ensures Follows(r + [Selected(menu[n].name, menu[n].price, quantities[n])], idx + [n], menu, quantities)
  {
  }

  /**
   * The order of the selection: the j-th selected item is the menu item at
   * the j-th positive position, so each item appears once and in menu order.
   */
  lemma {:induction false} SelectionFollowsMenuOrder(menu: seq<MenuItem>, quantities: seq<nat>)
    requires |quantities| == |menu|
    ensures Follows(Selection(menu, quantities), PositiveIndices(quantities), menu, quantities)
  {
    if menu != [] {
      var n := |menu| - 1;
      var m, q := menu[..n], quantities[..n];
      var init, initIdx := Selection(m, q), PositiveIndices(q);
      SelectionFollowsMenuOrder(m, q);
      FollowsPrefix(init, initIdx, menu, quantities, n);
      if quantities[n] > 0 {
        FollowsAppend(init, initIdx, menu, quantities, n);
      }
    }
  }

  /** Quantities within the input's bounds stay within them after selection. */
  lemma SelectionQuantitiesBounded(menu: seq<MenuItem>, quantities: seq<nat>)
    requires |quantities| == |menu|
    requires forall i :: 0 <= i < |quantities| ==> quantities[i] <= MaxQuantity
    ensures forall j :: 0 <= j < |Selection(menu, quantities)| ==>
              0 < Selection(menu, quantities)[j].quantity <= MaxQuantity
  {
    var r := Selection(menu, quantities);
    forall j | 0 <= j < |r|
      ensures r[j].quantity <= MaxQuantity
    {
      var i :| 0 <= i < |menu| && r[j] == Selected(menu[i].name, menu[i].price, quantities[i]);
    }
  }

  /**
   * The menu loop: each item whose quantity input is positive is entered
   * in selected_items with its price and quantity.
   */
  method SelectItems(menu: seq<MenuItem>, quantities: seq<nat>) returns (selected: seq<Selected>)
    requires |quantities| == |menu|
    ensures selected == Selection(menu, quantities)
    ensures Follows(selected, PositiveIndices(quantities), menu, quantities)
  {
    selected := [];
    var i := 0;
    while i < |menu|
      invariant 0 <= i <= |menu|
      invariant selected == Selection(menu[..i], quantities[..i])
    {
      assert menu[..i + 1][..i] == menu[..i];
      assert quantities[..i + 1][..i] == quantities[..i];
      if quantities[i] > 0 {
        selected := selected + [Selected(menu[i].name, menu[i].price, quantities[i])];
      }
      i := i + 1;
    }
    assert menu[..i] == menu;
    assert quantities[..i] == quantities;
    SelectionFollowsMenuOrder(menu, quantities);
  }

  // ---------------------------------------------------------------------
  // The bill
  // ---------------------------------------------------------------------

  /** One line of the bill: item, quantity, unit price, line total. */
  datatype BillRow = BillRow(item: string, quantity: nat, unit: nat, lineTotal: nat)

  /** The bill line of an ordered item. */
  function RowOf(s: Selected): (r: BillRow)
    ensures r.item == s.name && r.quantity == s.quantity && r.unit == s.price
    ensures r.lineTotal == r.unit * r.quantity
  {
    BillRow(s.name, s.quantity, s.price, s.price * s.quantity)
  }

  /** The sum of the line totals. */
  function SumLines(rows: seq<BillRow>): nat
  {
    if rows == [] then 0 else SumLines(rows[..|rows| - 1]) + rows[|rows| - 1].lineTotal
  }

  /** Σ price × quantity over the ordered items. */
  function OrderValue(selected: seq<Selected>): nat
  {
    if selected == [] then 0
    else OrderValue(selected[..|selected| - 1]) + selected[|selected| - 1].price * selected[|selected| - 1].quantity
  }

  /**
   * The bill loop: one row per ordered item, in order, each with its line
   * total unit × quantity; the subtotal is the sum of the line totals and
   * equals the value of the order.
   */
  method BuildBill(selected: seq<Selected>) returns (rows: seq<BillRow>, subtotal: nat)
    ensures |rows| == |selected|
    ensures forall i :: 0 <= i < |rows| ==> rows[i] == RowOf(selected[i])
    ensures subtotal == SumLines(rows)
    ensures subtotal == OrderValue(selected)
  {
    rows := [];
    subtotal := 0;
    var i := 0;
    while i < |selected|
      invariant 0 <= i <= |selected|
      invariant |rows| == i
      invariant forall j :: 0 <= j < i ==> rows[j] == RowOf(selected[j])
      invariant subtotal == SumLines(rows) == OrderValue(selected[..i])
    {
      var unit := selected[i].price;
      var qty := selected[i].quantity;
      var lineTotal := unit * qty;
      assert selected[..i + 1][..i] == selected[..i];
      rows := rows + [BillRow(selected[i].name, qty, unit, lineTotal)];
      assert rows[..i] == rows[..|rows| - 1];
      subtotal := subtotal + lineTotal;
      i := i + 1;
    }
    assert selected[..i] == selected;
  }

  /** An order with at least one item off a menu of positive prices has a positive subtotal. */
  lemma {:induction false} OrderValuePositive(selected: seq<Selected>)
    requires |selected| > 0
    requires forall j :: 0 <= j < |selected| ==> selected[j].price > 0 && selected[j].quantity > 0
    ensures OrderValue(selected) > 0
  {
    var last := selected[|selected| - 1];
    assert last.price * last.quantity > 0 by {
      PositiveProduct(last.price, last.quantity);
    }
  }

  lemma PositiveProduct(a: nat, b: nat)
    requires a > 0 && b > 0
    ensures a * b > 0
  {
  }

  /** The tax slider's bounds, in percent. */
  const MaxTaxRate: nat := 30

  /** The tax, in hundredths: rate percent of the subtotal. */
  function TaxCents(subtotal: nat, rate: nat): (r: nat)
    requires rate <= MaxTaxRate
    ensures 100 * r == rate * (100 * subtotal)
    ensures r <= MaxTaxRate * subtotal
  {
    subtotal * rate
  }

  /**
   * The grand total, in hundredths: subtotal plus tax plus tip. Tax adds
   * between 0 and 30 percent on top of the subtotal; the tip is added as is.
   */
  function TotalCents(subtotal: nat, rate: nat, tipCents: nat): (r: nat)
    requires rate <= MaxTaxRate
    ensures 100 * subtotal + tipCents <= r <= (100 + MaxTaxRate) * subtotal + tipCents
    ensures rate == 0 ==> r == 100 * subtotal + tipCents
  {
    100 * subtotal + TaxCents(subtotal, rate) + tipCents
  }
}

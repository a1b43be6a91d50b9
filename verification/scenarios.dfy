/**
 * Worked examples on one product P (id 1) that starts with no stock: receive
 * 5.00 at 28.00, sell 3.00 at 40.00, try to sell 10.00, undo the receipt,
 * and try to delete P. Quantities and prices are in hundredths, totals in
 * ten-thousandths (140.00 is 1400000).
 */
module Scenarios {
  import opened Wrappers
  import opened Models
  import opened Ledger
  import opened Database
  import Inventories = InventoryController
  import Sales = SaleController
  import ProductForms = ProductController

  const P: ProductId := 1

  /** One department, unit and type (id 1 each), product P at stock 0, no batches. */
  function Initial(): State
  {
    State(
      {1}, {1}, {1},
      map[P := Product("P-001", "Producto P", 2800, 0, 1, 1, 1, None)],
      2,
      map[], 1,
      map[], 1)
  }

  /** The receipt of scenario A: 5.00 of P at 28.00, recorded at time 100. */
  function Receipt(): seq<Line>
  {
    [Line(P, 500, 2800)]
  }

  /** The sale of scenario B: 3.00 of P at 40.00. */
  function Sold(): seq<Line>
  {
    [Line(P, 300, 4000)]
  }

  /** Scenario A: the receipt raises P to 5.00 and costs 140.00 in total. */
  lemma ScenarioA()
    ensures
      var r := Inventories.Store(Initial(), Receipt(), None, 7, 100);
      && r.Success?
      && r.value.products[P].stock == 500
      && r.value.products[P].lastInventoryAt == Some(100)
      && r.value.inventories[1].totalCost == 1400000
  {
    var items := Receipt();
    assert items[1..] == [];
    assert Qty(items, P) == 500;
    assert P in Products(items);
  }

  function AfterA(): State
  {
    After(Initial(), Inventories.Store(Initial(), Receipt(), None, 7, 100))
  }

  /** Scenario B: selling 3.00 at 40.00 leaves 2.00 and records 120.00. */
  lemma ScenarioB()
    ensures
      var r := Sales.Store(AfterA(), Sold(), None, 7, 200);
      && r.Success?
      && r.value.products[P].stock == 200
      && r.value.sales[1].totalSold == 1200000
      && r.value.sales[1].cutoffAt == 200
  {
    ScenarioA();
    var items := Sold();
    assert items[1..] == [];
    assert Qty(items, P) == 300;
  }

  function AfterB(): State
  {
    After(AfterA(), Sales.Store(AfterA(), Sold(), None, 7, 200))
  }

  /** Scenario C: a sale of 10.00 against 2.00 in stock is refused naming P,
      and the state, P's stock included, is left as it was. */
  lemma ScenarioC()
    ensures
      var r := Sales.Store(AfterB(), [Line(P, 1000, 4000)], None, 7, 300);
      && r == Failure(InsufficientStock(P))
      && After(AfterB(), r) == AfterB()
      && AfterB().products[P].stock == 200
  {
    ScenarioB();
    var items := [Line(P, 1000, 4000)];
    assert items[1..] == [];
    assert Qty(items, P) == 1000;
  }

  /** Scenario D: undoing the receipt brings P back to 0.00; its stamp stays. */
  lemma ScenarioD()
    ensures AfterA().inventories.Keys == {1}
    ensures InventoryKnown(AfterA(), 1)
    ensures
      var r := Inventories.Destroy(AfterA(), 1);
      && r.Success?
      && r.value.products[P].stock == 0
      && r.value.products[P].lastInventoryAt == Some(100)
      && r.value.inventories == map[]
  {
    ScenarioA();
    var items := Receipt();
    assert items[1..] == [];
    assert Qty(items, P) == 500;
  }

  /**
   * Undoing the receipt after the sale is not refused: P's stock becomes
   * -3.00, although every stock was at or above zero before.
   */
  lemma DestroyAfterSaleGoesNegative()
    ensures StockNonNegative(AfterB().products)
    ensures InventoryKnown(AfterB(), 1)
    ensures
      var r := Inventories.Destroy(AfterB(), 1);
      && r.Success?
      && r.value.products[P].stock == -300
      && !StockNonNegative(r.value.products)
  {
    ScenarioB();
    var items := Receipt();
    assert items[1..] == [];
    assert Qty(items, P) == 500;
  }

  /** The state that undo leaves: P at -3.00, and the sale of scenario B. */
  function BelowZero(): State
  {
    State(
      {1}, {1}, {1},
      map[P := Product("P-001", "Producto P", 2800, -300, 1, 1, 1, Some(100))],
      2,
      map[], 2,
      map[1 := Sale(7, 200, 1200000, Sold())], 2)
  }

  /** With P below zero, resubmitting the sale unchanged is refused: the
      returned 3.00 only brings P back to 0.00. */
  lemma ResubmitRefusedBelowZero()
    ensures SaleKnown(BelowZero(), 1)
    ensures Sales.Update(BelowZero(), 1, Sold(), None) == Failure(InsufficientStock(P))
  {
    var s := BelowZero();
    var items := Sold();
    assert items[1..] == [];
    assert Qty(items, P) == 300;
    assert P in Products(items);
    Sales.ResubmitIff(s, 1, None);
  }

  /** P with 5.00 in stock and no batch recorded. */
  function Stocked(): State
  {
    State(
      {1}, {1}, {1},
      map[P := Product("P-001", "Producto P", 2800, 500, 1, 1, 1, Some(100))],
      2,
      map[], 2,
      map[], 1)
  }

  /** Two lines of 3.00 of P in one sale. */
  function Twice(): seq<Line>
  {
    [Line(P, 300, 4000), Line(P, 300, 4000)]
  }

  /**
   * Selling 3.00 twice from 5.00: the loop saves the first line, leaving P at
   * 2.00, then rejects the second. The request fails naming P, and the
   * transaction discards the saved line, so the database keeps P at 5.00.
   */
  lemma RollbackDiscardsSavedLine()
    ensures
      var pending := SellPending(Stocked().products, Twice());
      && pending.rejected == Some(P)
      && pending.written[P].stock == 200
      && pending.written != Stocked().products
    ensures Sales.Store(Stocked(), Twice(), None, 7, 300) == Failure(InsufficientStock(P))
    ensures After(Stocked(), Sales.Store(Stocked(), Twice(), None, 7, 300)) == Stocked()
  {
    var s := Stocked();
    var items := Twice();
    assert ItemsValid(s.products, items);
    var ps1 := Step(s.products, items[0], Outbound, None);
    assert ps1[P].stock == 200;
    assert items[1..] == [Line(P, 300, 4000)];
    assert SellPending(s.products, items) == SellPending(ps1, items[1..]);
    assert SellPending(ps1, items[1..]) == Pending(ps1, Some(P));
    Sales.StoreRollsBack(s, items, None, 7, 300);
  }

  /** Products 1 and 2, both with no stock. */
  function TwoEmpty(): State
  {
    State(
      {1}, {1}, {1},
      map[1 := Product("A-001", "Producto A", 100, 0, 1, 1, 1, None),
          2 := Product("B-001", "Producto B", 100, 0, 1, 1, 1, None)],
      3,
      map[], 1,
      map[], 1)
  }

  /** With both products short, the sale names the product of its first line. */
  lemma FirstShortLineNamed()
    ensures Sales.Store(TwoEmpty(), [Line(1, 100, 100), Line(2, 100, 100)], None, 7, 300) == Failure(InsufficientStock(1))
    ensures Sales.Store(TwoEmpty(), [Line(2, 100, 100), Line(1, 100, 100)], None, 7, 300) == Failure(InsufficientStock(2))
  {
    var s := TwoEmpty();
    assert ItemsValid(s.products, [Line(1, 100, 100), Line(2, 100, 100)]);
    assert ItemsValid(s.products, [Line(2, 100, 100), Line(1, 100, 100)]);
  }

  /** Scenario E: P has a receipt line, so deleting it is refused and nothing
      changes. */
  lemma ScenarioE()
    ensures
      var r := ProductForms.Destroy(AfterA(), P);
      && r == Failure(HasHistory)
      && After(AfterA(), r) == AfterA()
  {
    ScenarioA();
    var items := Receipt();
    assert AfterA().inventories[1].lines == items;
    assert P in Products(items);
  }
}

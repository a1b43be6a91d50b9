/**
 * What the handlers do to the stock column as a whole. The batch handlers keep
 * every product's opening balance (stock less everything received plus
 * everything sold); only the product form moves it. The sale handlers and the
 * inventory `store` never take a stock below zero; the inventory `update` and
 * `destroy` can.
 */
module Balance {
  import opened Wrappers
  import opened Models
  import opened Ledger
  import opened Database
  import Inventories = InventoryController
  import Sales = SaleController
  import ProductForms = ProductController

  /** Writing, rewriting or removing inventory `id` changes the received total
      of a product by the change in that batch's quantity of it. */
  lemma InventoryRecorded(s: State, s': State, id: BatchId, n: nat, p: ProductId)
    requires || s'.inventories == s.inventories - {id}
             || (id in s'.inventories && s'.inventories == s.inventories[id := s'.inventories[id]])
    ensures Recorded(InventoryMoves(s'), n, p) == Recorded(InventoryMoves(s), n, p)
      + (if id < n then Contribution(InventoryMoves(s'), id, p) - Contribution(InventoryMoves(s), id, p) else 0)
  {
    RecordedPoint(InventoryMoves(s), InventoryMoves(s'), id, n, p);
  }

  /** Writing, rewriting or removing sale `id` changes the sold total of a
      product by the change in that batch's quantity of it. */
  lemma SaleRecorded(s: State, s': State, id: BatchId, n: nat, p: ProductId)
    requires || s'.sales == s.sales - {id}
             || (id in s'.sales && s'.sales == s.sales[id := s'.sales[id]])
    ensures Recorded(SaleMoves(s'), n, p) == Recorded(SaleMoves(s), n, p)
      + (if id < n then Contribution(SaleMoves(s'), id, p) - Contribution(SaleMoves(s), id, p) else 0)
  {
    RecordedPoint(SaleMoves(s), SaleMoves(s'), id, n, p);
  }

  lemma InventoryStoreKeepsOpening(s: State, items: seq<Line>, purchaseDate: Option<Date>, user: UserId, now: Time)
    requires IdsIssued(s)
    requires Inventories.Store(s, items, purchaseDate, user, now).Success?
    ensures
      var s' := Inventories.Store(s, items, purchaseDate, user, now).value;
      forall p :: p in s.products ==> p in s'.products && Opening(s', p) == Opening(s, p)
  {
    var s' := Inventories.Store(s, items, purchaseDate, user, now).value;
    var n := s.nextInventoryId;
    forall p | p in s.products
      ensures p in s'.products && Opening(s', p) == Opening(s, p)
    {
      InventoryRecorded(s, s', n, n, p);
      assert Contribution(InventoryMoves(s'), n, p) == Qty(items, p);
    }
  }

  lemma InventoryUpdateKeepsOpening(s: State, id: BatchId, items: seq<Line>, purchaseDate: Option<Date>)
    requires IdsIssued(s)
    requires InventoryKnown(s, id)
    requires Inventories.Update(s, id, items, purchaseDate).Success?
    ensures
      var s' := Inventories.Update(s, id, items, purchaseDate).value;
      forall p :: p in s.products ==> p in s'.products && Opening(s', p) == Opening(s, p)
  {
    var s' := Inventories.Update(s, id, items, purchaseDate).value;
    forall p | p in s.products
      ensures p in s'.products && Opening(s', p) == Opening(s, p)
    {
      InventoryRecorded(s, s', id, s.nextInventoryId, p);
    }
  }

  lemma InventoryDestroyKeepsOpening(s: State, id: BatchId)
    requires IdsIssued(s)
    requires InventoryKnown(s, id)
    requires Inventories.Destroy(s, id).Success?
    ensures
      var s' := Inventories.Destroy(s, id).value;
      forall p :: p in s.products ==> p in s'.products && Opening(s', p) == Opening(s, p)
  {
    var s' := Inventories.Destroy(s, id).value;
    forall p | p in s.products
      ensures p in s'.products && Opening(s', p) == Opening(s, p)
    {
      InventoryRecorded(s, s', id, s.nextInventoryId, p);
      assert Qty([], p) == 0;
    }
  }

  lemma SaleStoreKeepsOpening(s: State, items: seq<Line>, cutoff: Option<Time>, user: UserId, now: Time)
    requires IdsIssued(s)
    requires Sales.Store(s, items, cutoff, user, now).Success?
    ensures
      var s' := Sales.Store(s, items, cutoff, user, now).value;
      forall p :: p in s.products ==> p in s'.products && Opening(s', p) == Opening(s, p)
  {
    var s' := Sales.Store(s, items, cutoff, user, now).value;
    var n := s.nextSaleId;
    forall p | p in s.products
      ensures p in s'.products && Opening(s', p) == Opening(s, p)
    {
      SaleRecorded(s, s', n, n, p);
      assert Contribution(SaleMoves(s'), n, p) == Qty(items, p);
      assert Qty([], p) == 0;
    }
  }

  lemma SaleUpdateKeepsOpening(s: State, id: BatchId, items: seq<Line>, cutoff: Option<Time>)
    requires IdsIssued(s)
    requires SaleKnown(s, id)
    requires Sales.Update(s, id, items, cutoff).Success?
    ensures
      var s' := Sales.Update(s, id, items, cutoff).value;
      forall p :: p in s.products ==> p in s'.products && Opening(s', p) == Opening(s, p)
  {
    var s' := Sales.Update(s, id, items, cutoff).value;
    forall p | p in s.products
      ensures p in s'.products && Opening(s', p) == Opening(s, p)
    {
      SaleRecorded(s, s', id, s.nextSaleId, p);
    }
  }

  lemma SaleDestroyKeepsOpening(s: State, id: BatchId)
    requires IdsIssued(s)
    requires SaleKnown(s, id)
    requires Sales.Destroy(s, id).Success?
    ensures
      var s' := Sales.Destroy(s, id).value;
      forall p :: p in s.products ==> p in s'.products && Opening(s', p) == Opening(s, p)
  {
    var s' := Sales.Destroy(s, id).value;
    forall p | p in s.products
      ensures p in s'.products && Opening(s', p) == Opening(s, p)
    {
      SaleRecorded(s, s', id, s.nextSaleId, p);
      assert Qty([], p) == 0;
    }
  }

  /**
   * The product form bypasses the ledger: the edited product's opening balance
   * moves by exactly the difference between the entered and the previous
   * stock, and every other product's is unchanged.
   */
  lemma ProductUpdateMovesOpening(s: State, id: ProductId, f: ProductForms.ProductForm)
    requires ProductForms.Update(s, id, f).Success?
    ensures
      var s' := ProductForms.Update(s, id, f).value;
      && s'.products.Keys == s.products.Keys
      && Opening(s', id) == Opening(s, id) + f.stock - s.products[id].stock
      && forall p :: p in s.products && p != id ==> Opening(s', p) == Opening(s, p)
  {
  }

  /**
   * A new product has no movements, so its opening balance is the stock
   * entered on the form; every other product's is unchanged.
   */
  lemma ProductStoreOpening(s: State, f: ProductForms.ProductForm)
    requires IdsIssued(s) && LinesValid(s)
    requires ProductForms.Store(s, f).Success?
    ensures
      var s', id := ProductForms.Store(s, f).value, s.nextProductId;
      && id in s'.products
      && Opening(s', id) == f.stock
      && forall p :: p in s.products ==> p in s'.products && Opening(s', p) == Opening(s, p)
  {
    var s', id := ProductForms.Store(s, f).value, s.nextProductId;
    assert !HasMovements(s', id) by {
      forall k | k in s'.inventories
        ensures id !in Products(s'.inventories[k].lines)
      {
        assert ItemsValid(s.products, s.inventories[k].lines);
      }
      forall k | k in s'.sales
        ensures id !in Products(s'.sales[k].lines)
      {
        assert ItemsValid(s.products, s.sales[k].lines);
      }
    }
    OpeningWithoutMovements(s', id);
  }

  /** Deleting a product leaves every remaining product's opening balance. */
  lemma ProductDestroyKeepsOpening(s: State, id: ProductId)
    requires ProductForms.Destroy(s, id).Success?
    ensures
      var s' := ProductForms.Destroy(s, id).value;
      forall p :: p in s'.products ==> p in s.products && Opening(s', p) == Opening(s, p)
  {
  }

  /** A sale only takes from products whose stock covers it, so it keeps every
      stock at or above zero. */
  lemma SaleStoreKeepsNonNegative(s: State, items: seq<Line>, cutoff: Option<Time>, user: UserId, now: Time)
    requires StockNonNegative(s.products)
    requires Sales.Store(s, items, cutoff, user, now).Success?
    ensures StockNonNegative(Sales.Store(s, items, cutoff, user, now).value.products)
  {
    var s' := Sales.Store(s, items, cutoff, user, now).value;
    forall p | p in s'.products
      ensures s'.products[p].stock >= 0
    {
      if p !in Products(items) {
        QtyOutside(items, p);
      }
    }
  }

  /** A sale edit returns the old lines and takes the new ones only where the
      result stays covered, so it keeps every stock at or above zero. */
  lemma SaleUpdateKeepsNonNegative(s: State, id: BatchId, items: seq<Line>, cutoff: Option<Time>)
    requires LinesValid(s)
    requires StockNonNegative(s.products)
    requires SaleKnown(s, id)
    requires Sales.Update(s, id, items, cutoff).Success?
    ensures StockNonNegative(Sales.Update(s, id, items, cutoff).value.products)
  {
    var s' := Sales.Update(s, id, items, cutoff).value;
    var back := s.sales[id].lines;
    assert ItemsValid(s.products, back);
    forall p | p in s'.products
      ensures s'.products[p].stock >= 0
    {
      if p !in Products(items) {
        QtyOutside(items, p);
        QtyNonNegative(back, p);
      }
    }
  }

  lemma SaleDestroyKeepsNonNegative(s: State, id: BatchId)
    requires LinesValid(s)
    requires StockNonNegative(s.products)
    requires SaleKnown(s, id)
    requires Sales.Destroy(s, id).Success?
    ensures StockNonNegative(Sales.Destroy(s, id).value.products)
  {
    var s' := Sales.Destroy(s, id).value;
    var back := s.sales[id].lines;
    assert ItemsValid(s.products, back);
    forall p | p in s'.products
      ensures s'.products[p].stock >= 0
    {
      QtyNonNegative(back, p);
      assert Qty([], p) == 0;
    }
  }

  lemma InventoryStoreKeepsNonNegative(s: State, items: seq<Line>, purchaseDate: Option<Date>, user: UserId, now: Time)
    requires StockNonNegative(s.products)
    requires Inventories.Store(s, items, purchaseDate, user, now).Success?
    ensures StockNonNegative(Inventories.Store(s, items, purchaseDate, user, now).value.products)
  {
    var s' := Inventories.Store(s, items, purchaseDate, user, now).value;
    forall p | p in s'.products
      ensures s'.products[p].stock >= 0
    {
      QtyNonNegative(items, p);
      assert Qty([], p) == 0;
    }
  }

  /** The product form only accepts a stock of zero or more. */
  lemma ProductStoreKeepsNonNegative(s: State, f: ProductForms.ProductForm)
    requires StockNonNegative(s.products)
    requires ProductForms.Store(s, f).Success?
    ensures StockNonNegative(ProductForms.Store(s, f).value.products)
  {
  }

  lemma ProductUpdateKeepsNonNegative(s: State, id: ProductId, f: ProductForms.ProductForm)
    requires StockNonNegative(s.products)
    requires ProductForms.Update(s, id, f).Success?
    ensures StockNonNegative(ProductForms.Update(s, id, f).value.products)
  {
  }
}

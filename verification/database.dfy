/**
 * The database as one immutable value, the constraints its schema and the
 * validation rules keep, and the ledger reading of each product's stock.
 */
module Database {
  import opened Wrappers
  import opened Models
  import opened Ledger

  /** Tables the handlers touch, with the next auto-increment id of each. The
      department, unit and type tables only matter through their ids. */
  datatype State = State(
    departments: set<CatalogId>,
    units: set<CatalogId>,
    productTypes: set<CatalogId>,
    products: Catalog,
    nextProductId: ProductId,
    inventories: map<BatchId, Inventory>,
    nextInventoryId: BatchId,
    sales: map<BatchId, Sale>,
    nextSaleId: BatchId)

  /** The state a request leaves behind: the committed state, or on failure
      the state before it. */
  function After(s: State, r: Result<State, Error>): State
  {
    match r
    case Success(t) => t
    case Failure(_) => s
  }

  /**
   * The rules every batch request passes before its transaction opens: a
   * non-empty item list, each item naming an existing product, with quantity
   * and unit price at least 0.01.
   */
  predicate ItemsValid(ps: Catalog, items: seq<Line>)
  {
    && |items| >= 1
    && forall i :: 0 <= i < |items| ==>
         items[i].product in ps && items[i].qty >= 1 && items[i].price >= 1
  }

  lemma ItemsValidKnown(ps: Catalog, items: seq<Line>)
    requires ItemsValid(ps, items)
    ensures Known(ps, items) && NonNegative(items)
  {
  }

  /** Ids below each counter have been issued; stored rows never use a later one. */
  predicate IdsIssued(s: State)
  {
    && (forall k :: k in s.products ==> k < s.nextProductId)
    && (forall k :: k in s.inventories ==> k < s.nextInventoryId)
    && (forall k :: k in s.sales ==> k < s.nextSaleId)
  }

  /** Stored lines passed validation when written, and still name existing
      products (the foreign keys of the line tables). */
  predicate LinesValid(s: State)
  {
    && (forall k :: k in s.inventories ==> ItemsValid(s.products, s.inventories[k].lines))
    && (forall k :: k in s.sales ==> ItemsValid(s.products, s.sales[k].lines))
  }

  /** Each batch's stored total is the sum of its line subtotals. */
  predicate TotalsMatch(s: State)
  {
    && (forall k :: k in s.inventories ==> s.inventories[k].totalCost == Amount(s.inventories[k].lines))
    && (forall k :: k in s.sales ==> s.sales[k].totalSold == Amount(s.sales[k].lines))
  }

  /** The unique index on `products.sku`. */
  predicate SkusUnique(ps: Catalog)
  {
    forall a, b :: a in ps && b in ps && ps[a].sku == ps[b].sku ==> a == b
  }

  predicate Valid(s: State)
  {
    IdsIssued(s) && LinesValid(s) && TotalsMatch(s) && SkusUnique(s.products)
  }

  /** Writing, rewriting or removing inventory `id` keeps the line and total
      constraints, provided the written batch meets them. */
  lemma PutInventory(s: State, s': State, id: BatchId)
    requires LinesValid(s) && TotalsMatch(s)
    requires s'.products.Keys == s.products.Keys && s'.sales == s.sales
    requires s'.inventories.Keys <= s.inventories.Keys + {id}
    requires forall k :: k in s'.inventories && k != id ==> s'.inventories[k] == s.inventories[k]
    requires id in s'.inventories ==>
      && ItemsValid(s'.products, s'.inventories[id].lines)
      && s'.inventories[id].totalCost == Amount(s'.inventories[id].lines)
    ensures LinesValid(s') && TotalsMatch(s')
  {
    forall k | k in s'.inventories && k != id
      ensures ItemsValid(s'.products, s'.inventories[k].lines)
    {
      assert ItemsValid(s.products, s.inventories[k].lines);
    }
    forall k | k in s'.sales
      ensures ItemsValid(s'.products, s'.sales[k].lines)
    {
      assert ItemsValid(s.products, s.sales[k].lines);
    }
  }

  /** Writing, rewriting or removing sale `id` keeps the line and total
      constraints, provided the written batch meets them. */
  lemma PutSale(s: State, s': State, id: BatchId)
    requires LinesValid(s) && TotalsMatch(s)
    requires s'.products.Keys == s.products.Keys && s'.inventories == s.inventories
    requires s'.sales.Keys <= s.sales.Keys + {id}
    requires forall k :: k in s'.sales && k != id ==> s'.sales[k] == s.sales[k]
    requires id in s'.sales ==>
      && ItemsValid(s'.products, s'.sales[id].lines)
      && s'.sales[id].totalSold == Amount(s'.sales[id].lines)
    ensures LinesValid(s') && TotalsMatch(s')
  {
    forall k | k in s'.sales && k != id
      ensures ItemsValid(s'.products, s'.sales[k].lines)
    {
      assert ItemsValid(s.products, s.sales[k].lines);
    }
    forall k | k in s'.inventories
      ensures ItemsValid(s'.products, s'.inventories[k].lines)
    {
      assert ItemsValid(s.products, s.inventories[k].lines);
    }
  }

  /** Moving stock renames nothing, so the SKU index stays unique. */
  lemma ShiftedSkusUnique(ps: Catalog, ps': Catalog, plus: seq<Line>, minus: seq<Line>, stamp: Option<Time>)
    requires SkusUnique(ps)
    requires Shifted(ps, ps', plus, minus, stamp)
    ensures SkusUnique(ps')
  {
    assert forall p :: p in ps ==> ps'[p].sku == ps[p].sku;
  }

  /**
   * A transaction that writes, rewrites or removes inventory `id` and shifts
   * stock keeps the database valid, provided the batch it writes passes
   * validation, carries its own total and has an issued id.
   */
  lemma InventoryWriteValid(s: State, s': State, id: BatchId, plus: seq<Line>, minus: seq<Line>, stamp: Option<Time>)
    requires Valid(s)
    requires s'.sales == s.sales && s'.nextProductId == s.nextProductId && s'.nextSaleId == s.nextSaleId
    requires s'.nextInventoryId >= s.nextInventoryId
    requires || s'.inventories == s.inventories - {id}
             || (id in s'.inventories && s'.inventories == s.inventories[id := s'.inventories[id]])
    requires id in s'.inventories ==>
      && id < s'.nextInventoryId
      && ItemsValid(s'.products, s'.inventories[id].lines)
      && s'.inventories[id].totalCost == Amount(s'.inventories[id].lines)
    requires Shifted(s.products, s'.products, plus, minus, stamp)
    ensures Valid(s')
  {
    assert IdsIssued(s') by {
      forall k | k in s'.inventories
        ensures k < s'.nextInventoryId
      {
        if k != id {
          assert k in s.inventories;
        }
      }
    }
    assert LinesValid(s') && TotalsMatch(s') by {
      forall k | k in s'.inventories && k != id
        ensures k in s.inventories && s'.inventories[k] == s.inventories[k]
      {
      }
      PutInventory(s, s', id);
    }
    ShiftedSkusUnique(s.products, s'.products, plus, minus, stamp);
  }

  /**
   * A transaction that writes, rewrites or removes sale `id` and shifts stock
   * keeps the database valid, under the same provisos as for an inventory.
   */
  lemma SaleWriteValid(s: State, s': State, id: BatchId, plus: seq<Line>, minus: seq<Line>)
    requires Valid(s)
    requires s'.inventories == s.inventories && s'.nextProductId == s.nextProductId && s'.nextInventoryId == s.nextInventoryId
    requires s'.nextSaleId >= s.nextSaleId
    requires || s'.sales == s.sales - {id}
             || (id in s'.sales && s'.sales == s.sales[id := s'.sales[id]])
    requires id in s'.sales ==>
      && id < s'.nextSaleId
      && ItemsValid(s'.products, s'.sales[id].lines)
      && s'.sales[id].totalSold == Amount(s'.sales[id].lines)
    requires Shifted(s.products, s'.products, plus, minus, None)
    ensures Valid(s')
  {
    assert IdsIssued(s') by {
      forall k | k in s'.sales
        ensures k < s'.nextSaleId
      {
        if k != id {
          assert k in s.sales;
        }
      }
    }
    assert LinesValid(s') && TotalsMatch(s') by {
      forall k | k in s'.sales && k != id
        ensures k in s.sales && s'.sales[k] == s.sales[k]
      {
      }
      PutSale(s, s', id);
    }
    ShiftedSkusUnique(s.products, s'.products, plus, minus, None);
  }

  /** No product's stock is below zero. */
  predicate StockNonNegative(ps: Catalog)
  {
    forall p :: p in ps ==> ps[p].stock >= 0
  }

  /** The lines of inventory `id`, if it exists, name existing products. */
  predicate InventoryKnown(s: State, id: BatchId)
  {
    id in s.inventories ==> Known(s.products, s.inventories[id].lines)
  }

  /** The lines of sale `id`, if it exists, name existing products. */
  predicate SaleKnown(s: State, id: BatchId)
  {
    id in s.sales ==> Known(s.products, s.sales[id].lines)
  }

  /** The inventory batches, each reduced to its lines. */
  function InventoryMoves(s: State): Batches
  {
    map k | k in s.inventories :: s.inventories[k].lines
  }

  /** The sale batches, each reduced to its lines. */
  function SaleMoves(s: State): Batches
  {
    map k | k in s.sales :: s.sales[k].lines
  }

  /**
   * The stock a product would have had with no inventory or sale recorded: its
   * stock, less everything received, plus everything sold. The ledger rule is
   * that no batch handler changes it; only the product form does.
   */
  function Opening(s: State, p: ProductId): Hundredths
    requires p in s.products
  {
    s.products[p].stock
      - Recorded(InventoryMoves(s), s.nextInventoryId, p)
      + Recorded(SaleMoves(s), s.nextSaleId, p)
  }

  /** Whether any inventory line or sale line refers to product `p`. */
  predicate HasMovements(s: State, p: ProductId)
  {
    || (exists k :: k in s.inventories && p in Products(s.inventories[k].lines))
    || (exists k :: k in s.sales && p in Products(s.sales[k].lines))
  }

  /** With the foreign keys intact, a product with no movements has nothing
      recorded, so its opening balance is its stock. */
  lemma OpeningWithoutMovements(s: State, p: ProductId)
    requires p in s.products
    requires !HasMovements(s, p)
    ensures Opening(s, p) == s.products[p].stock
  {
    RecordedUnreferenced(InventoryMoves(s), s.nextInventoryId, p);
    RecordedUnreferenced(SaleMoves(s), s.nextSaleId, p);
  }
}

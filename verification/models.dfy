/**
 * The persisted entities: products, inventory batches ("entradas") with their
 * lines, and sale batches ("afectaciones") with their lines, together with the
 * sums over a list of lines that the handlers compute.
 *
 * Every decimal column of the application has two places, so a quantity or a
 * price is an integer number of hundredths (28.00 is 2800). A line subtotal,
 * quantity times price, is then an integer number of ten-thousandths.
 */
module Models {
  import opened Wrappers

  type ProductId = nat
  type BatchId = nat
  type UserId = nat
  /** Id of a department, unit or product type. */
  type CatalogId = nat
  /** A timestamp (`now()`, `fecha_inventario`, `fecha_corte`); opaque here. */
  type Time = nat
  /** A calendar date (`fecha_compra`); opaque here. */
  type Date = nat

  /** A two-place decimal counted in hundredths. Signed: stock can go negative. */
  type Hundredths = int

  datatype Product = Product(
    sku: string,
    name: string,
    unitCost: Hundredths,
    stock: Hundredths,
    department: CatalogId,
    unit: CatalogId,
    productType: CatalogId,
    lastInventoryAt: Option<Time>)

  /** One submitted or stored line item: a product, a quantity and a unit price
      (`costo_unitario` for an inventory, `precio_venta` for a sale). */
  datatype Line = Line(product: ProductId, qty: Hundredths, price: Hundredths)

  /**
   * An inventory batch. The purchase date (`fecha_compra`) is a column of each
   * stored line, but every write of a batch's lines gives all of them the
   * request's one date, so the model keeps it once per batch.
   */
  datatype Inventory = Inventory(
    createdBy: UserId,
    recordedAt: Time,
    totalCost: int,
    purchaseDate: Option<Date>,
    lines: seq<Line>)

  datatype Sale = Sale(
    createdBy: UserId,
    cutoffAt: Time,
    totalSold: int,
    lines: seq<Line>)

  /** Why a request was turned away. `Invalid` is a failed validation rule,
      `NotFound` a route parameter naming no row, `InsufficientStock` the sale
      handlers' exception, `HasHistory` the product delete guard. */
  datatype Error = Invalid | NotFound | InsufficientStock(product: ProductId) | HasHistory

  /** The products table, keyed by id. */
  type Catalog = map<ProductId, Product>

  /** The products a list of lines refers to. */
  function Products(items: seq<Line>): set<ProductId>
  {
    set i | 0 <= i < |items| :: items[i].product
  }

  /** Total quantity of product `p` over a list of lines. */
  function Qty(items: seq<Line>, p: ProductId): Hundredths
  {
    if |items| == 0 then 0
    else (if items[0].product == p then items[0].qty else 0) + Qty(items[1..], p)
  }

  /** Sum over the lines of quantity times unit price, in ten-thousandths. */
  function Amount(items: seq<Line>): int
  {
    if |items| == 0 then 0
    else items[0].qty * items[0].price + Amount(items[1..])
  }

  /** Every line refers to a product of the table. */
  predicate Known(ps: Catalog, items: seq<Line>)
  {
    forall i :: 0 <= i < |items| ==> items[i].product in ps
  }

  /** No line has a negative quantity. */
  predicate NonNegative(items: seq<Line>)
  {
    forall i :: 0 <= i < |items| ==> items[i].qty >= 0
  }

  lemma ProductsCons(items: seq<Line>)
    requires |items| > 0
    ensures Products(items) == {items[0].product} + Products(items[1..])
  {
    var rest := items[1..];
    forall p | p in Products(items)
      ensures p in {items[0].product} + Products(rest)
    {
      var i :| 0 <= i < |items| && items[i].product == p;
      if i > 0 {
        assert rest[i - 1].product == p;
      }
    }
    forall p | p in Products(rest)
      ensures p in Products(items)
    {
      var j :| 0 <= j < |rest| && rest[j].product == p;
      assert items[j + 1].product == p;
    }
    assert items[0].product in Products(items) by {
      assert items[0].product == items[0].product;
    }
  }

  /** A product no line refers to has quantity zero. */
  lemma {:induction false} QtyOutside(items: seq<Line>, p: ProductId)
    requires p !in Products(items)
    ensures Qty(items, p) == 0
    decreases |items|
  {
    if |items| > 0 {
      ProductsCons(items);
      QtyOutside(items[1..], p);
    }
  }

  /** Without negative quantities, the total quantity of a product is not negative. */
  lemma {:induction false} QtyNonNegative(items: seq<Line>, p: ProductId)
    requires NonNegative(items)
    ensures Qty(items, p) >= 0
    decreases |items|
  {
    if |items| > 0 {
      assert NonNegative(items[1..]) by {
        forall i | 0 <= i < |items| - 1
          ensures items[1..][i].qty >= 0
        {
          assert items[1..][i] == items[i + 1];
        }
      }
      QtyNonNegative(items[1..], p);
    }
  }
}

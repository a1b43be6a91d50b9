/**
 * The product handlers: `store` and `update` of the product form, which write
 * the submitted fields (stock included) straight into the row, and `destroy`,
 * which refuses to delete a product that any batch line refers to.
 */
module ProductController {
  import opened Wrappers
  import opened Models
  import opened Ledger
  import opened Database

  /** The fields the product form submits. */
  datatype ProductForm = ProductForm(
    sku: string,
    name: string,
    unitCost: Hundredths,
    stock: Hundredths,
    department: CatalogId,
    unit: CatalogId,
    productType: CatalogId)

  /** The `unique:products,sku` rule: no product other than `ignore` has this
      SKU already. */
  predicate SkuAvailable(ps: Catalog, sku: string, ignore: Option<ProductId>)
  {
    forall p :: p in ps && ps[p].sku == sku ==> ignore == Some(p)
  }

  /**
   * The product form's validation: SKU and name present and at most 255
   * characters, the SKU not taken by another product, cost and stock at least
   * zero, and department, unit and type naming existing rows.
   */
  predicate FormValid(s: State, f: ProductForm, ignore: Option<ProductId>)
  {
    && 1 <= |f.sku| <= 255
    && SkuAvailable(s.products, f.sku, ignore)
    && 1 <= |f.name| <= 255
    && f.unitCost >= 0
    && f.stock >= 0
    && f.department in s.departments
    && f.unit in s.units
    && f.productType in s.productTypes
  }

  /** The form's fields over an existing row; `last_inventory_at` is not a
      form field, so the row keeps its own. */
  function Overwrite(prior: Option<Time>, f: ProductForm): Product
  {
    Product(f.sku, f.name, f.unitCost, f.stock, f.department, f.unit, f.productType, prior)
  }

  /**
   * `store`: a valid form becomes a new product with the next id, holding the
   * submitted fields, its stock as entered and no inventory stamp.
   */
  function Store(s: State, f: ProductForm): (r: Result<State, Error>)
    ensures r.Success? <==> FormValid(s, f, None)
    ensures r.Failure? ==> r.error == Invalid
    ensures r.Success? ==>
      var s', id := r.value, s.nextProductId;
      && s' == s.(products := s'.products, nextProductId := id + 1)
      && id in s'.products
      && s'.products == s.products[id := s'.products[id]]
      && s'.products[id].sku == f.sku
      && s'.products[id].name == f.name
      && s'.products[id].unitCost == f.unitCost
      && s'.products[id].stock == f.stock
      && s'.products[id].department == f.department
      && s'.products[id].unit == f.unit
      && s'.products[id].productType == f.productType
      && s'.products[id].lastInventoryAt == None
  {
    if !FormValid(s, f, None) then Failure(Invalid)
    else
      Success(s.(
        products := s.products[s.nextProductId := Overwrite(None, f)],
        nextProductId := s.nextProductId + 1))
  }

  /**
   * `update`: a valid form overwrites every field of the product, stock
   * included, without touching any batch; the product may keep its own SKU.
   */
  function Update(s: State, id: ProductId, f: ProductForm): (r: Result<State, Error>)
    ensures id !in s.products ==> r == Failure(NotFound)
    ensures id in s.products ==> (r.Success? <==> FormValid(s, f, Some(id)))
    ensures id in s.products && r.Failure? ==> r.error == Invalid
    ensures r.Success? ==>
      var s' := r.value;
      && s' == s.(products := s'.products)
      && id in s'.products
      && s'.products == s.products[id := s'.products[id]]
      && s'.products[id].sku == f.sku
      && s'.products[id].name == f.name
      && s'.products[id].unitCost == f.unitCost
      && s'.products[id].stock == f.stock
      && s'.products[id].department == f.department
      && s'.products[id].unit == f.unit
      && s'.products[id].productType == f.productType
      && s'.products[id].lastInventoryAt == s.products[id].lastInventoryAt
  {
    if id !in s.products then Failure(NotFound)
    else if !FormValid(s, f, Some(id)) then Failure(Invalid)
    else
      Success(s.(products := s.products[id := Overwrite(s.products[id].lastInventoryAt, f)]))
  }

  /**
   * `destroy`: a product some inventory or sale line refers to is kept and the
   * request refused; any other product is deleted, and nothing else changes.
   */
  function Destroy(s: State, id: ProductId): (r: Result<State, Error>)
    ensures id !in s.products ==> r == Failure(NotFound)
    ensures id in s.products ==> (r.Success? <==> !HasMovements(s, id))
    ensures id in s.products && r.Failure? ==> r.error == HasHistory
    ensures r.Success? ==> r.value == s.(products := s.products - {id})
  {
    if id !in s.products then Failure(NotFound)
    else if HasMovements(s, id) then Failure(HasHistory)
    else Success(s.(products := s.products - {id}))
  }

  /**
   * Under the unique index, a product's own SKU passes the update form's
   * rule for that product, and fails the creation form's rule.
   */
  lemma OwnSkuAvailable(ps: Catalog, id: ProductId)
    requires SkusUnique(ps)
    requires id in ps
    ensures SkuAvailable(ps, ps[id].sku, Some(id))
    ensures !SkuAvailable(ps, ps[id].sku, None)
  {
  }

  /** A form passing the rule for `ignore` keeps the SKU index unique once it
      is written to row `id`, when `id` is the ignored row or a fresh one. */
  lemma WriteSkusUnique(ps: Catalog, id: ProductId, x: Product, ignore: Option<ProductId>)
    requires SkusUnique(ps)
    requires SkuAvailable(ps, x.sku, ignore)
    requires ignore == Some(id) || (ignore == None && id !in ps)
    ensures SkusUnique(ps[id := x])
  {
    var ps' := ps[id := x];
    forall a, b | a in ps' && b in ps' && ps'[a].sku == ps'[b].sku
      ensures a == b
    {
      if a != id && b != id {
        assert ps[a].sku == ps[b].sku;
      }
    }
  }

  /** Adding products or changing their fields keeps every stored line valid
      as long as the set of ids does not shrink. */
  lemma WiderCatalogLinesValid(s: State, s': State)
    requires LinesValid(s)
    requires s'.inventories == s.inventories && s'.sales == s.sales
    requires s.products.Keys <= s'.products.Keys
    ensures LinesValid(s')
  {
    forall k | k in s'.inventories
      ensures ItemsValid(s'.products, s'.inventories[k].lines)
    {
      assert ItemsValid(s.products, s.inventories[k].lines);
    }
    forall k | k in s'.sales
      ensures ItemsValid(s'.products, s'.sales[k].lines)
    {
      assert ItemsValid(s.products, s.sales[k].lines);
    }
  }

  lemma StoreValid(s: State, f: ProductForm)
    requires Valid(s)
    requires Store(s, f).Success?
    ensures Valid(Store(s, f).value)
  {
    var s' := Store(s, f).value;
    var id := s.nextProductId;
    assert id !in s.products;
    WriteSkusUnique(s.products, id, s'.products[id], None);
    WiderCatalogLinesValid(s, s');
  }

  lemma UpdateValid(s: State, id: ProductId, f: ProductForm)
    requires Valid(s)
    requires Update(s, id, f).Success?
    ensures Valid(Update(s, id, f).value)
  {
    var s' := Update(s, id, f).value;
    WriteSkusUnique(s.products, id, s'.products[id], Some(id));
    WiderCatalogLinesValid(s, s');
  }

  /** The delete guard is what keeps the line tables' foreign keys intact. */
  lemma DestroyValid(s: State, id: ProductId)
    requires Valid(s)
    requires Destroy(s, id).Success?
    ensures Valid(Destroy(s, id).value)
  {
    var s' := Destroy(s, id).value;
    forall k | k in s'.inventories
      ensures ItemsValid(s'.products, s'.inventories[k].lines)
    {
      var lines := s.inventories[k].lines;
      assert ItemsValid(s.products, lines);
      forall i | 0 <= i < |lines|
        ensures lines[i].product != id
      {
        assert lines[i].product in Products(lines);
      }
    }
    forall k | k in s'.sales
      ensures ItemsValid(s'.products, s'.sales[k].lines)
    {
      var lines := s.sales[k].lines;
      assert ItemsValid(s.products, lines);
      forall i | 0 <= i < |lines|
        ensures lines[i].product != id
      {
        assert lines[i].product in Products(lines);
      }
    }
  }
}

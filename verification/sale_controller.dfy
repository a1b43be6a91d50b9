/**
 * The sale ("afectaciones") handlers: `store`, `update` and `destroy` of a
 * stock-out batch. Each body runs in one database transaction; the
 * insufficient-stock exception thrown part-way through the line loop rolls the
 * whole transaction back, so a failed request leaves the state as it was.
 */
module SaleController {
  import opened Wrappers
  import opened Models
  import opened Ledger
  import opened Database

  /**
   * `store`: a valid request whose lines the stock covers becomes a new sale
   * with the next id, cut off at `cutoff` or, when omitted, at `now`; every
   * product's stock falls by its quantity in the batch. The first line the
   * running stock does not cover aborts the batch, naming its product.
   */
  function Store(s: State, items: seq<Line>, cutoff: Option<Time>, user: UserId, now: Time): (r: Result<State, Error>)
    ensures !ItemsValid(s.products, items) ==> r == Failure(Invalid)
    ensures ItemsValid(s.products, items) ==> (r.Success? <==> Sufficient(s.products, items))
    ensures ItemsValid(s.products, items) && r.Failure? ==>
      && r.error.InsufficientStock?
      && r.error.product in s.products
      && Qty(items, r.error.product) > s.products[r.error.product].stock
    ensures ItemsValid(s.products, items) && r.Failure? ==>
      exists i :: FirstShort(s.products, [], items, i) && r.error == InsufficientStock(items[i].product)
    ensures r.Success? ==>
      var s', id := r.value, s.nextSaleId;
      && s' == s.(products := s'.products, sales := s'.sales, nextSaleId := id + 1)
      && id in s'.sales
      && s'.sales == s.sales[id := s'.sales[id]]
      && s'.sales[id].createdBy == user
      && s'.sales[id].cutoffAt == (if cutoff.Some? then cutoff.value else now)
      && s'.sales[id].lines == items
      && s'.sales[id].totalSold == Amount(items)
      && Shifted(s.products, s'.products, [], items, None)
      && forall p :: p in Products(items) ==> s'.products[p].stock >= 0
  {
    if !ItemsValid(s.products, items) then Failure(Invalid)
    else
      ItemsValidKnown(s.products, items);
      SellSucceedsIff(s.products, items);
      var sold := Sell(s.products, items);
      if sold.Failure? then
        SellShortfall(s.products, items);
        Failure(sold.error)
      else
        var sale := Sale(user, cutoff.GetOr(now), Amount(items), items);
        Success(s.(
          products := sold.value,
          sales := s.sales[s.nextSaleId := sale],
          nextSaleId := s.nextSaleId + 1))
  }

  /**
   * `update`: the sale's old lines are returned to stock first, then the new
   * lines are checked and taken out as in `store`; the cut-off time is kept
   * when the request omits it. The check therefore counts the old quantities
   * as available again, and a failure rolls the return back as well.
   */
  function Update(s: State, id: BatchId, items: seq<Line>, cutoff: Option<Time>): (r: Result<State, Error>)
    requires SaleKnown(s, id)
    ensures id !in s.sales ==> r == Failure(NotFound)
    ensures id in s.sales && !ItemsValid(s.products, items) ==> r == Failure(Invalid)
    ensures id in s.sales && ItemsValid(s.products, items) ==>
      (r.Success? <==> SufficientAfterReturn(s.products, items, s.sales[id].lines))
    ensures id in s.sales && ItemsValid(s.products, items) && r.Failure? ==>
      && r.error.InsufficientStock?
      && r.error.product in s.products
      && Qty(items, r.error.product) > s.products[r.error.product].stock + Qty(s.sales[id].lines, r.error.product)
    ensures id in s.sales && ItemsValid(s.products, items) && r.Failure? ==>
      exists i :: FirstShort(s.products, s.sales[id].lines, items, i) && r.error == InsufficientStock(items[i].product)
    ensures r.Success? ==>
      var s', b := r.value, s.sales[id];
      && s' == s.(products := s'.products, sales := s'.sales)
      && id in s'.sales
      && s'.sales == s.sales[id := s'.sales[id]]
      && s'.sales[id].createdBy == b.createdBy
      && s'.sales[id].cutoffAt == (if cutoff.Some? then cutoff.value else b.cutoffAt)
      && s'.sales[id].lines == items
      && s'.sales[id].totalSold == Amount(items)
      && Shifted(s.products, s'.products, b.lines, items, None)
      && forall p :: p in Products(items) ==> s'.products[p].stock >= 0
  {
    if id !in s.sales then Failure(NotFound)
    else if !ItemsValid(s.products, items) then Failure(Invalid)
    else
      var b := s.sales[id];
      ItemsValidKnown(s.products, items);
      var exchanged := Exchange(s.products, b.lines, items);
      if exchanged.Failure? then Failure(exchanged.error)
      else
        var b' := b.(cutoffAt := cutoff.GetOr(b.cutoffAt), totalSold := Amount(items), lines := items);
        Success(s.(products := exchanged.value, sales := s.sales[id := b']))
  }

  /**
   * `destroy`: every line's quantity is added back to its product's stock and
   * the sale with its lines is removed.
   */
  function Destroy(s: State, id: BatchId): (r: Result<State, Error>)
    requires SaleKnown(s, id)
    ensures r.Success? <==> id in s.sales
    ensures r.Failure? ==> r.error == NotFound
    ensures r.Success? ==>
      var s' := r.value;
      && s' == s.(products := s'.products, sales := s'.sales)
      && s'.sales == s.sales - {id}
      && Shifted(s.products, s'.products, s.sales[id].lines, [], None)
  {
    if id !in s.sales then Failure(NotFound)
    else
      Success(s.(
        products := Move(s.products, s.sales[id].lines, Inbound, None),
        sales := s.sales - {id}))
  }

  /**
   * `store` throws from inside its line loop, after the lines before the
   * rejected one have been saved. The transaction discards those writes: the
   * request fails naming the rejected line's product, and the database after
   * it is the database before it, whatever the loop had written.
   */
  lemma StoreRollsBack(s: State, items: seq<Line>, cutoff: Option<Time>, user: UserId, now: Time)
    requires ItemsValid(s.products, items)
    requires SellPending(s.products, items).rejected.Some?
    ensures Store(s, items, cutoff, user, now) == Failure(InsufficientStock(SellPending(s.products, items).rejected.value))
    ensures After(s, Store(s, items, cutoff, user, now)) == s
  {
    var r := Store(s, items, cutoff, user, now);
    var pending := SellPending(s.products, items);
    var i :| FirstShort(s.products, [], items, i) && pending.rejected == Some(items[i].product);
    var j :| FirstShort(s.products, [], items, j) && r.error == InsufficientStock(items[j].product);
    FirstShortUnique(s.products, [], items, i, j);
  }

  /**
   * `update` returns the old lines to stock and saves the new lines that pass
   * before it throws. The transaction discards all of it: the request fails
   * naming the rejected line's product and the database is left as it was.
   */
  lemma UpdateRollsBack(s: State, id: BatchId, items: seq<Line>, cutoff: Option<Time>)
    requires id in s.sales
    requires Known(s.products, s.sales[id].lines)
    requires ItemsValid(s.products, items)
    requires
      var restored := Move(s.products, s.sales[id].lines, Inbound, None);
      && Known(restored, items)
      && SellPending(restored, items).rejected.Some?
    ensures SaleKnown(s, id)
    ensures Update(s, id, items, cutoff)
      == Failure(InsufficientStock(SellPending(Move(s.products, s.sales[id].lines, Inbound, None), items).rejected.value))
    ensures After(s, Update(s, id, items, cutoff)) == s
  {
    var back := s.sales[id].lines;
    var restored := Move(s.products, back, Inbound, None);
    var r := Update(s, id, items, cutoff);
    var pending := SellPending(restored, items);
    SufficientReturned(s.products, restored, items, back);
    var i :| FirstShort(restored, [], items, i) && pending.rejected == Some(items[i].product);
    assert r.Failure?;
    var j :| FirstShort(s.products, back, items, j) && r.error == InsufficientStock(items[j].product);
    FirstShortUnique(s.products, back, items, i, j);
  }

  lemma StoreValid(s: State, items: seq<Line>, cutoff: Option<Time>, user: UserId, now: Time)
    requires Valid(s)
    requires Store(s, items, cutoff, user, now).Success?
    ensures Valid(Store(s, items, cutoff, user, now).value)
  {
    var s' := Store(s, items, cutoff, user, now).value;
    SaleWriteValid(s, s', s.nextSaleId, [], items);
  }

  lemma UpdateValid(s: State, id: BatchId, items: seq<Line>, cutoff: Option<Time>)
    requires Valid(s)
    requires SaleKnown(s, id)
    requires Update(s, id, items, cutoff).Success?
    ensures Valid(Update(s, id, items, cutoff).value)
  {
    var s' := Update(s, id, items, cutoff).value;
    SaleWriteValid(s, s', id, s.sales[id].lines, items);
  }

  lemma DestroyValid(s: State, id: BatchId)
    requires Valid(s)
    requires SaleKnown(s, id)
    requires Destroy(s, id).Success?
    ensures Valid(Destroy(s, id).value)
  {
    var s' := Destroy(s, id).value;
    SaleWriteValid(s, s', id, s.sales[id].lines, []);
  }

  /**
   * A sale the stock covers, once stored and then destroyed, leaves the
   * database exactly as before, except that its id has been used up.
   */
  lemma StoreDestroyRoundTrip(s: State, items: seq<Line>, cutoff: Option<Time>, user: UserId, now: Time)
    requires IdsIssued(s)
    requires ItemsValid(s.products, items)
    requires Sufficient(s.products, items)
    ensures Store(s, items, cutoff, user, now).Success?
    ensures SaleKnown(Store(s, items, cutoff, user, now).value, s.nextSaleId)
    ensures
      var r := Destroy(Store(s, items, cutoff, user, now).value, s.nextSaleId);
      r.Success? && r.value == s.(nextSaleId := s.nextSaleId + 1)
  {
    ItemsValidKnown(s.products, items);
    var s1 := Store(s, items, cutoff, user, now).value;
    var id := s.nextSaleId;
    assert SaleKnown(s1, id);
    var s2 := Destroy(s1, id).value;
    SoldThenReturned(s, s1, s2, id, items);
  }

  /** A sale written under a fresh id and then removed leaves the table as it
      was, and its lines taken out and added back restore every product. */
  lemma SoldThenReturned(s: State, s1: State, s2: State, id: BatchId, items: seq<Line>)
    requires id !in s.sales
    requires s1 == s.(products := s1.products, sales := s1.sales, nextSaleId := id + 1)
    requires id in s1.sales && s1.sales == s.sales[id := s1.sales[id]]
    requires s1.sales[id].lines == items
    requires Shifted(s.products, s1.products, [], items, None)
    requires s2 == s1.(products := s2.products, sales := s2.sales)
    requires s2.sales == s1.sales - {id}
    requires Shifted(s1.products, s2.products, items, [], None)
    ensures s2 == s.(nextSaleId := id + 1)
  {
    assert s2.sales == s.sales;
    ShiftedRestored(s.products, s1.products, s2.products, items);
  }

  /**
   * Resubmitting a sale's own lines, with the cut-off omitted or unchanged,
   * succeeds exactly when none of the products it names has a negative stock,
   * and then leaves the whole database as it was.
   */
  lemma ResubmitIff(s: State, id: BatchId, cutoff: Option<Time>)
    requires id in s.sales
    requires ItemsValid(s.products, s.sales[id].lines)
    requires s.sales[id].totalSold == Amount(s.sales[id].lines)
    requires cutoff == None || cutoff == Some(s.sales[id].cutoffAt)
    ensures SaleKnown(s, id)
    ensures
      var b := s.sales[id];
      var r := Update(s, id, b.lines, cutoff);
      && (r.Success? <==> forall p :: p in Products(b.lines) ==> s.products[p].stock >= 0)
      && (r.Success? ==> r.value == s)
  {
    var b := s.sales[id];
    SufficientAfterOwnReturn(s.products, b.lines);
    var r := Update(s, id, b.lines, cutoff);
    if r.Success? {
      var s' := r.value;
      assert s'.products == s.products by {
        ShiftedSame(s.products, s'.products, b.lines);
      }
      assert s'.sales == s.sales by {
        assert s'.sales[id] == b;
      }
    }
  }

  /** With no stock negative, resubmitting a sale unchanged always succeeds. */
  lemma ResubmitSucceeds(s: State, id: BatchId)
    requires LinesValid(s) && TotalsMatch(s)
    requires StockNonNegative(s.products)
    requires id in s.sales
    ensures SaleKnown(s, id)
    ensures Update(s, id, s.sales[id].lines, None) == Success(s)
  {
    assert ItemsValid(s.products, s.sales[id].lines);
    ResubmitIff(s, id, None);
  }
}

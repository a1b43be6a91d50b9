/**
 * The stock ledger: how a list of lines moves the `stock` column of the
 * products it refers to, the sale handlers' line-by-line sufficiency check,
 * and the per-product sum of quantities over all recorded batches.
 */
module Ledger {
  import opened Wrappers
  import opened Models

  /** Whether a movement adds to stock (an inventory, a sale being undone) or
      takes from it (a sale, an inventory being undone). */
  datatype Direction = Inbound | Outbound

  function Signed(d: Direction, q: Hundredths): Hundredths
  {
    match d
    case Inbound => q
    case Outbound => -q
  }

  /**
   * `after` is `before` with the quantities of `plus` added to and those of
   * `minus` taken from each product's stock; when `stamp` is given, every
   * product that `plus` refers to gets it as `last_inventory_at`. Nothing else
   * about any product changes and no product appears or disappears.
   */
  predicate Shifted(before: Catalog, after: Catalog, plus: seq<Line>, minus: seq<Line>, stamp: Option<Time>)
  {
    && after.Keys == before.Keys
    && forall p :: p in before ==>
         after[p] == before[p].(
           stock := before[p].stock + Qty(plus, p) - Qty(minus, p),
           lastInventoryAt := if stamp.Some? && p in Products(plus) then stamp else before[p].lastInventoryAt)
  }

  /** One line's save: `$product->stock += / -= cantidad`, plus the optional
      stamp. Only the line's own product row changes. */
  function Step(ps: Catalog, x: Line, d: Direction, stamp: Option<Time>): (r: Catalog)
    requires x.product in ps
    ensures r.Keys == ps.Keys
    ensures forall p :: p in ps && p != x.product ==> r[p] == ps[p]
    ensures r[x.product].stock == ps[x.product].stock + Signed(d, x.qty)
    ensures r[x.product].lastInventoryAt == (if stamp.Some? then stamp else ps[x.product].lastInventoryAt)
    ensures r[x.product] == ps[x.product].(stock := r[x.product].stock, lastInventoryAt := r[x.product].lastInventoryAt)
  {
    var prior := ps[x.product];
    ps[x.product := prior.(
      stock := prior.stock + Signed(d, x.qty),
      lastInventoryAt := if stamp.Some? then stamp else prior.lastInventoryAt)]
  }

  /**
   * The handlers' unchecked loop over a batch's lines, one `Step` per line in
   * order. Inbound it adds every quantity (and stamps, for an inventory);
   * outbound it subtracts every quantity without looking at the result, so
   * stock may go below zero.
   */
  function Move(ps: Catalog, items: seq<Line>, d: Direction, stamp: Option<Time>): (r: Catalog)
    requires Known(ps, items)
    requires d == Outbound ==> stamp == None
    ensures d == Inbound ==> Shifted(ps, r, items, [], stamp)
    ensures d == Outbound ==> Shifted(ps, r, [], items, None)
    decreases |items|
  {
    if |items| == 0 then ps
    else
      ProductsCons(items);
      assert Known(ps, items[1..]) by {
        forall i | 0 <= i < |items| - 1
          ensures items[1..][i].product in ps
        {
          assert items[1..][i] == items[i + 1];
        }
      }
      var r := Move(Step(ps, items[0], d, stamp), items[1..], d, stamp);
      MoveCons(ps, items, d, stamp, r);
      r
  }

  /** One `Step` followed by the movement of the remaining lines is the
      movement of the whole list. */
  lemma MoveCons(ps: Catalog, items: seq<Line>, d: Direction, stamp: Option<Time>, r: Catalog)
    requires Known(ps, items) && |items| > 0
    requires d == Outbound ==> stamp == None
    requires d == Inbound ==> Shifted(Step(ps, items[0], d, stamp), r, items[1..], [], stamp)
    requires d == Outbound ==> Shifted(Step(ps, items[0], d, stamp), r, [], items[1..], None)
    ensures d == Inbound ==> Shifted(ps, r, items, [], stamp)
    ensures d == Outbound ==> Shifted(ps, r, [], items, None)
  {
    ProductsCons(items);
    var x := items[0];
    var ps1 := Step(ps, x, d, stamp);
    assert Qty([], x.product) == 0;
    assert Products([]) == {};
    if d == Inbound {
      forall p | p in ps
        ensures r[p] == ps[p].(
          stock := ps[p].stock + Qty(items, p) - Qty([], p),
          lastInventoryAt := if stamp.Some? && p in Products(items) then stamp else ps[p].lastInventoryAt)
      {
        assert r[p] == ps1[p].(
          stock := ps1[p].stock + Qty(items[1..], p) - Qty([], p),
          lastInventoryAt := if stamp.Some? && p in Products(items[1..]) then stamp else ps1[p].lastInventoryAt);
      }
    } else {
      forall p | p in ps
        ensures r[p] == ps[p].(
          stock := ps[p].stock + Qty([], p) - Qty(items, p),
          lastInventoryAt := ps[p].lastInventoryAt)
      {
        assert r[p] == ps1[p].(
          stock := ps1[p].stock + Qty([], p) - Qty(items[1..], p),
          lastInventoryAt := ps1[p].lastInventoryAt);
      }
    }
  }

  /** Taking `minus` out and then adding `plus` in is one shift by both. */
  lemma ShiftedThen(a: Catalog, b: Catalog, c: Catalog, plus: seq<Line>, minus: seq<Line>, stamp: Option<Time>)
    requires Shifted(a, b, [], minus, None)
    requires Shifted(b, c, plus, [], stamp)
    ensures Shifted(a, c, plus, minus, stamp)
  {
    assert Qty([], 0) == 0 && Products([]) == {};
    forall p | p in a
      ensures c[p] == a[p].(
        stock := a[p].stock + Qty(plus, p) - Qty(minus, p),
        lastInventoryAt := if stamp.Some? && p in Products(plus) then stamp else a[p].lastInventoryAt)
    {
      assert Qty([], p) == 0;
      assert b[p] == a[p].(stock := a[p].stock - Qty(minus, p));
    }
  }

  /** Adding `plus` in and then taking `minus` out, without stamps, is one
      shift by both. */
  lemma ShiftedBack(a: Catalog, b: Catalog, c: Catalog, plus: seq<Line>, minus: seq<Line>)
    requires Shifted(a, b, plus, [], None)
    requires Shifted(b, c, [], minus, None)
    ensures Shifted(a, c, plus, minus, None)
  {
    forall p | p in a
      ensures c[p] == a[p].(stock := a[p].stock + Qty(plus, p) - Qty(minus, p))
    {
      assert Qty([], p) == 0;
    }
  }

  /** Adding a list in and taking the same list out restores every stock; only
      the stamps of the adding remain. */
  lemma ShiftedUndone(a: Catalog, b: Catalog, c: Catalog, items: seq<Line>, stamp: Option<Time>)
    requires Shifted(a, b, items, [], stamp)
    requires Shifted(b, c, [], items, None)
    ensures c.Keys == a.Keys
    ensures forall p :: p in a ==> c[p] == a[p].(lastInventoryAt := b[p].lastInventoryAt)
  {
    forall p | p in a
      ensures c[p] == a[p].(lastInventoryAt := b[p].lastInventoryAt)
    {
      assert Qty([], p) == 0;
    }
  }

  /** A product's line-by-line total covers what the batch takes: for every
      product the batch names, its stock is at least the batch's total quantity. */
  predicate Sufficient(ps: Catalog, items: seq<Line>)
    requires Known(ps, items)
  {
    forall i :: 0 <= i < |items| ==> Qty(items, items[i].product) <= ps[items[i].product].stock
  }

  /** What a sale edit checks, stated on the stock before the edit: every
      product the new lines name has, once the old lines `back` are returned,
      at least the new lines' total quantity. */
  predicate SufficientAfterReturn(ps: Catalog, items: seq<Line>, back: seq<Line>)
    requires Known(ps, items)
  {
    forall i :: 0 <= i < |items| ==>
      Qty(items, items[i].product) <= ps[items[i].product].stock + Qty(back, items[i].product)
  }

  /** Checking after returning `back` is checking the original stock plus `back`. */
  lemma SufficientReturned(ps: Catalog, ps': Catalog, items: seq<Line>, back: seq<Line>)
    requires Known(ps, items)
    requires Shifted(ps, ps', back, [], None)
    ensures Known(ps', items)
    ensures Sufficient(ps', items) <==> SufficientAfterReturn(ps, items, back)
    ensures forall i :: 0 <= i < |items| ==> (Short(ps', [], items, i) <==> Short(ps, back, items, i))
    ensures forall i :: FirstShort(ps', [], items, i) ==> FirstShort(ps, back, items, i)
  {
    assert forall p :: p in ps ==> ps'[p].stock == ps[p].stock + Qty(back, p) by {
      forall p | p in ps
        ensures ps'[p].stock == ps[p].stock + Qty(back, p)
      {
        assert Qty([], p) == 0;
      }
    }
    assert Qty([], 0) == 0;
    forall i | 0 <= i < |items|
      ensures Short(ps', [], items, i) <==> Short(ps, back, items, i)
    {
      assert Qty([], items[i].product) == 0;
    }
  }

  /** Returning a batch's own lines and checking them again passes exactly when
      none of the products they name is below zero. */
  lemma SufficientAfterOwnReturn(ps: Catalog, items: seq<Line>)
    requires Known(ps, items)
    ensures SufficientAfterReturn(ps, items, items) <==> forall p :: p in Products(items) ==> ps[p].stock >= 0
  {
    if SufficientAfterReturn(ps, items, items) {
      forall p | p in Products(items)
        ensures ps[p].stock >= 0
      {
        var i :| 0 <= i < |items| && items[i].product == p;
      }
    }
  }

  /** Taking lines out and adding the same lines back without stamps gives
      back the table it started from. */
  lemma ShiftedRestored(a: Catalog, b: Catalog, c: Catalog, items: seq<Line>)
    requires Shifted(a, b, [], items, None)
    requires Shifted(b, c, items, [], None)
    ensures c == a
  {
    forall p | p in a
      ensures c[p] == a[p]
    {
      assert Qty([], p) == 0;
    }
  }

  /** Adding and taking out the same lines without stamps changes nothing. */
  lemma ShiftedSame(ps: Catalog, ps': Catalog, items: seq<Line>)
    requires Shifted(ps, ps', items, items, None)
    ensures ps' == ps
  {
    forall p | p in ps
      ensures ps'[p] == ps[p]
    {
    }
  }

  /**
   * Line `i` of `items` fails the running check, reckoned from the stock of
   * `ps` with the lines `back` returned: the quantities of its product on lines
   * `0..i` together exceed that stock. This is the check `stock < cantidad` on
   * the stock that the lines before `i` have already lowered.
   */
  predicate Short(ps: Catalog, back: seq<Line>, items: seq<Line>, i: int)
    requires Known(ps, items) && 0 <= i < |items|
  {
    var p := items[i].product;
    Qty(items[..i + 1], p) > ps[p].stock + Qty(back, p)
  }

  /** Line `i` is the first line the running check rejects. */
  predicate FirstShort(ps: Catalog, back: seq<Line>, items: seq<Line>, i: int)
    requires Known(ps, items)
  {
    && 0 <= i < |items|
    && Short(ps, back, items, i)
    && forall j :: 0 <= j < i ==> !Short(ps, back, items, j)
  }

  /**
   * The sale handlers' checked loop: each line, in order, is compared with the
   * product's stock as left by the lines before it; the first line whose
   * quantity exceeds that running stock aborts the whole batch, naming its
   * product.
   */
  function Sell(ps: Catalog, items: seq<Line>): (r: Result<Catalog, Error>)
    requires Known(ps, items)
    ensures r.Success? ==> r.value == Move(ps, items, Outbound, None)
    ensures r.Success? <==> forall i :: 0 <= i < |items| ==> !Short(ps, [], items, i)
    ensures r.Failure? ==> exists i :: FirstShort(ps, [], items, i) && r.error == InsufficientStock(items[i].product)
    decreases |items|
  {
    if |items| == 0 then Success(ps)
    else
      var x := items[0];
      ProductsCons(items);
      assert Qty([], x.product) == 0;
      assert Qty(items[..1], x.product) == x.qty by {
        assert items[..1][1..] == [];
      }
      if ps[x.product].stock < x.qty then
        assert FirstShort(ps, [], items, 0);
        Failure(InsufficientStock(x.product))
      else
        assert Known(ps, items[1..]) by {
          forall i | 0 <= i < |items| - 1
            ensures items[1..][i].product in ps
          {
            assert items[1..][i] == items[i + 1];
          }
        }
        var r := Sell(Step(ps, x, Outbound, None), items[1..]);
        ShortAfterStep(ps, items);
        assert r.Failure? ==> exists i :: FirstShort(ps, [], items, i) && r.error == InsufficientStock(items[i].product) by {
          if r.Failure? {
            var i :| FirstShort(Step(ps, x, Outbound, None), [], items[1..], i) && r.error == InsufficientStock(items[1..][i].product);
            assert FirstShort(ps, [], items, i + 1);
          }
        }
        r
  }

  /** Once the first line has passed and been taken out, line `j` of the rest
      fails the running check exactly when line `j + 1` of the batch did. */
  lemma ShortAfterStep(ps: Catalog, items: seq<Line>)
    requires Known(ps, items) && |items| > 0
    requires ps[items[0].product].stock >= items[0].qty
    ensures Known(Step(ps, items[0], Outbound, None), items[1..])
    ensures !Short(ps, [], items, 0)
    ensures forall j :: 0 <= j < |items| - 1 ==>
      (Short(Step(ps, items[0], Outbound, None), [], items[1..], j) <==> Short(ps, [], items, j + 1))
    ensures (forall j :: 0 <= j < |items| - 1 ==> !Short(Step(ps, items[0], Outbound, None), [], items[1..], j))
      <==> (forall j :: 0 <= j < |items| ==> !Short(ps, [], items, j))
    ensures forall i :: FirstShort(Step(ps, items[0], Outbound, None), [], items[1..], i) ==> FirstShort(ps, [], items, i + 1)
  {
    var x := items[0];
    var rest := items[1..];
    var ps1 := Step(ps, x, Outbound, None);
    assert Known(ps1, rest) by {
      forall i | 0 <= i < |rest|
        ensures rest[i].product in ps1
      {
        assert rest[i] == items[i + 1];
      }
    }
    assert Qty([], x.product) == 0;
    assert Qty(items[..1], x.product) == x.qty by {
      assert items[..1][1..] == [];
    }
    forall j | 0 <= j < |rest|
      ensures Short(ps1, [], rest, j) <==> Short(ps, [], items, j + 1)
    {
      var p := rest[j].product;
      assert items[j + 1] == rest[j];
      assert items[..j + 2][1..] == rest[..j + 1];
      assert Qty(items[..j + 2], p) == (if x.product == p then x.qty else 0) + Qty(rest[..j + 1], p);
      assert Qty([], p) == 0;
    }
    forall i | FirstShort(ps1, [], rest, i)
      ensures FirstShort(ps, [], items, i + 1)
    {
      forall j | 0 <= j < i + 1
        ensures !Short(ps, [], items, j)
      {
        if j > 0 {
          assert !Short(ps1, [], rest, j - 1);
        }
      }
    }
    if forall j :: 0 <= j < |rest| ==> !Short(ps1, [], rest, j) {
      forall j | 0 <= j < |items|
        ensures !Short(ps, [], items, j)
      {
        if j > 0 {
          assert !Short(ps1, [], rest, j - 1);
        }
      }
    }
  }

  /** Two lines cannot both be the first the running check rejects. */
  lemma FirstShortUnique(ps: Catalog, back: seq<Line>, items: seq<Line>, i: int, j: int)
    requires Known(ps, items)
    requires FirstShort(ps, back, items, i) && FirstShort(ps, back, items, j)
    ensures i == j
  {
  }

  /**
   * The sale loop as the open transaction sees it at the moment it ends:
   * `written` is the products table with every line before the rejected one
   * already saved, and `rejected` names the product of the line that threw,
   * if one did. Whether that table is kept is the transaction's business.
   */
  datatype Pending = Pending(written: Catalog, rejected: Option<ProductId>)

  function SellPending(ps: Catalog, items: seq<Line>): (r: Pending)
    requires Known(ps, items)
    ensures r.written.Keys == ps.Keys
    ensures r.rejected.None? <==> Sell(ps, items).Success?
    ensures r.rejected.None? ==> r.written == Move(ps, items, Outbound, None)
    ensures r.rejected.Some? ==> exists i ::
      && FirstShort(ps, [], items, i)
      && r.rejected == Some(items[i].product)
      && Shifted(ps, r.written, [], items[..i], None)
    decreases |items|
  {
    if |items| == 0 then Pending(ps, None)
    else
      var x := items[0];
      if ps[x.product].stock < x.qty then
        PendingAtFirst(ps, items);
        Pending(ps, Some(x.product))
      else
        ShortAfterStep(ps, items);
        var r := SellPending(Step(ps, x, Outbound, None), items[1..]);
        assert r.rejected.Some? ==> exists i ::
          && FirstShort(ps, [], items, i)
          && r.rejected == Some(items[i].product)
          && Shifted(ps, r.written, [], items[..i], None)
        by {
          if r.rejected.Some? {
            var i :|
              && FirstShort(Step(ps, x, Outbound, None), [], items[1..], i)
              && r.rejected == Some(items[1..][i].product)
              && Shifted(Step(ps, x, Outbound, None), r.written, [], items[1..][..i], None);
            PendingCons(ps, items, i, r.written);
          }
        }
        r
  }

  /** A batch whose first line is rejected has written nothing. */
  lemma PendingAtFirst(ps: Catalog, items: seq<Line>)
    requires Known(ps, items) && |items| > 0
    requires ps[items[0].product].stock < items[0].qty
    ensures FirstShort(ps, [], items, 0)
    ensures Shifted(ps, ps, [], items[..0], None)
  {
    assert Qty([], items[0].product) == 0;
    assert Qty(items[..1], items[0].product) == items[0].qty by {
      assert items[..1][1..] == [];
    }
    assert forall p :: Qty(items[..0], p) == 0;
    assert Products([]) == {};
  }

  /** Saving the first line and then the next `i` lines of the rest is saving
      the first `i + 1` lines of the batch. */
  lemma PendingCons(ps: Catalog, items: seq<Line>, i: nat, written: Catalog)
    requires Known(ps, items) && 0 <= i < |items| - 1
    requires ps[items[0].product].stock >= items[0].qty
    requires Shifted(Step(ps, items[0], Outbound, None), written, [], items[1..][..i], None)
    ensures Shifted(ps, written, [], items[..i + 1], None)
  {
    var pre := items[..i + 1];
    assert pre[0] == items[0];
    assert pre[1..] == items[1..][..i];
    assert Known(ps, pre) by {
      forall k | 0 <= k < |pre|
        ensures pre[k].product in ps
      {
        assert pre[k] == items[k];
      }
    }
    MoveCons(ps, pre, Outbound, None, written);
  }

  /**
   * The running check depends only on the totals: a batch without negative
   * quantities passes line by line exactly when every product it names has at
   * least the batch's total quantity of that product in stock.
   */
  lemma {:induction false} SellSucceedsIff(ps: Catalog, items: seq<Line>)
    requires Known(ps, items)
    requires NonNegative(items)
    ensures Sell(ps, items).Success? <==> Sufficient(ps, items)
    decreases |items|
  {
    if |items| > 0 {
      var x := items[0];
      var rest := items[1..];
      assert Known(ps, rest) && NonNegative(rest) by {
        forall i | 0 <= i < |rest|
          ensures rest[i].product in ps && rest[i].qty >= 0
        {
          assert rest[i] == items[i + 1];
        }
      }
      QtyNonNegative(rest, x.product);
      if ps[x.product].stock < x.qty {
        assert Qty(items, x.product) > ps[x.product].stock;
      } else {
        var ps1 := Step(ps, x, Outbound, None);
        SellSucceedsIff(ps1, rest);
        SufficientStep(ps, items);
      }
    }
  }

  /** After the first line passes, the rest is sufficient against the running
      stock exactly when the whole batch is sufficient against the original. */
  lemma SufficientStep(ps: Catalog, items: seq<Line>)
    requires Known(ps, items) && |items| > 0
    requires ps[items[0].product].stock >= items[0].qty
    ensures Known(Step(ps, items[0], Outbound, None), items[1..])
    ensures Sufficient(Step(ps, items[0], Outbound, None), items[1..]) <==> Sufficient(ps, items)
  {
    var x := items[0];
    var rest := items[1..];
    var ps1 := Step(ps, x, Outbound, None);
    assert Known(ps1, rest) by {
      forall i | 0 <= i < |rest|
        ensures rest[i].product in ps1
      {
        assert rest[i] == items[i + 1];
      }
    }
    // Per product, the comparison is the same before and after the first line.
    assert forall q :: q in ps ==>
      (Qty(rest, q) <= ps1[q].stock <==> Qty(items, q) <= ps[q].stock);
    if Sufficient(ps, items) {
      forall i | 0 <= i < |rest|
        ensures Qty(rest, rest[i].product) <= ps1[rest[i].product].stock
      {
        assert rest[i] == items[i + 1];
      }
    }
    if Sufficient(ps1, rest) {
      forall i | 0 <= i < |items|
        ensures Qty(items, items[i].product) <= ps[items[i].product].stock
      {
        if i > 0 {
          assert items[i] == rest[i - 1];
        } else if x.product in Products(rest) {
          var j :| 0 <= j < |rest| && rest[j].product == x.product;
        } else {
          QtyOutside(rest, x.product);
        }
      }
    }
  }

  /** A rejected sale names a product whose batch total exceeds its stock. */
  lemma {:induction false} SellShortfall(ps: Catalog, items: seq<Line>)
    requires Known(ps, items)
    requires NonNegative(items)
    requires Sell(ps, items).Failure?
    ensures Sell(ps, items).error.product in ps
    ensures Qty(items, Sell(ps, items).error.product) > ps[Sell(ps, items).error.product].stock
    decreases |items|
  {
    var x := items[0];
    var rest := items[1..];
    assert Known(ps, rest) && NonNegative(rest) by {
      forall i | 0 <= i < |rest|
        ensures rest[i].product in ps && rest[i].qty >= 0
      {
        assert rest[i] == items[i + 1];
      }
    }
    QtyNonNegative(rest, x.product);
    if ps[x.product].stock >= x.qty {
      var ps1 := Step(ps, x, Outbound, None);
      SufficientStep(ps, items);
      SellShortfall(ps1, rest);
    }
  }

  /**
   * A sale edit's stock work: the old lines `back` are returned unchecked,
   * then the new lines are sold with the running check. It succeeds exactly
   * when the stock with `back` returned covers the new lines, and then moves
   * each product by its returned minus its new quantity.
   */
  function Exchange(ps: Catalog, back: seq<Line>, items: seq<Line>): (r: Result<Catalog, Error>)
    requires Known(ps, back) && Known(ps, items) && NonNegative(items)
    ensures r.Success? <==> SufficientAfterReturn(ps, items, back)
    ensures r.Success? ==> Shifted(ps, r.value, back, items, None)
    ensures r.Failure? ==>
      && r.error.InsufficientStock?
      && r.error.product in ps
      && Qty(items, r.error.product) > ps[r.error.product].stock + Qty(back, r.error.product)
    ensures r.Failure? ==> exists i :: FirstShort(ps, back, items, i) && r.error == InsufficientStock(items[i].product)
  {
    var restored := Move(ps, back, Inbound, None);
    SufficientReturned(ps, restored, items, back);
    SellSucceedsIff(restored, items);
    var sold := Sell(restored, items);
    if sold.Failure? then
      SellShortfall(restored, items);
      Failure(sold.error)
    else
      ShiftedBack(ps, restored, sold.value, back, items);
      sold
  }

  /** Taking a batch out and putting it back leaves the table as it was. */
  lemma MoveOutIn(ps: Catalog, items: seq<Line>)
    requires Known(ps, items)
    ensures Known(Move(ps, items, Outbound, None), items)
    ensures Move(Move(ps, items, Outbound, None), items, Inbound, None) == ps
  {
    var mid := Move(ps, items, Outbound, None);
    var back := Move(mid, items, Inbound, None);
    assert back.Keys == ps.Keys;
    forall p | p in ps
      ensures back[p] == ps[p]
    {
    }
  }

  /** Putting a batch back and taking it out again leaves the table as it was. */
  lemma MoveInOut(ps: Catalog, items: seq<Line>)
    requires Known(ps, items)
    ensures Known(Move(ps, items, Inbound, None), items)
    ensures Move(Move(ps, items, Inbound, None), items, Outbound, None) == ps
  {
    var mid := Move(ps, items, Inbound, None);
    var back := Move(mid, items, Outbound, None);
    assert back.Keys == ps.Keys;
    forall p | p in ps
      ensures back[p] == ps[p]
    {
    }
  }

  /** The batches of one kind, each reduced to its lines. */
  type Batches = map<BatchId, seq<Line>>

  function Contribution(m: Batches, k: BatchId, p: ProductId): Hundredths
  {
    if k in m then Qty(m[k], p) else 0
  }

  /** Total quantity of product `p` over the batches with ids below `n`. */
  function Recorded(m: Batches, n: nat, p: ProductId): Hundredths
  {
    if n == 0 then 0 else Recorded(m, n - 1, p) + Contribution(m, n - 1, p)
  }

  /** Changing one batch changes the recorded total by the difference of its
      contributions, when its id is in range, and not at all otherwise. */
  lemma {:induction false} RecordedPoint(m: Batches, m': Batches, k: BatchId, n: nat, p: ProductId)
    requires forall j :: j != k ==> Contribution(m, j, p) == Contribution(m', j, p)
    ensures Recorded(m', n, p) ==
      Recorded(m, n, p) + (if k < n then Contribution(m', k, p) - Contribution(m, k, p) else 0)
  {
    if n > 0 {
      RecordedPoint(m, m', k, n - 1, p);
    }
  }

  /** A product no recorded batch refers to has nothing recorded. */
  lemma {:induction false} RecordedUnreferenced(m: Batches, n: nat, p: ProductId)
    requires forall k :: k in m ==> p !in Products(m[k])
    ensures Recorded(m, n, p) == 0
  {
    if n > 0 {
      RecordedUnreferenced(m, n - 1, p);
      if n - 1 in m {
        QtyOutside(m[n - 1], p);
      }
    }
  }

  /** The handlers' `$total += cantidad * precio` loop. */
  method SumLines(items: seq<Line>) returns (total: int)
    ensures total == Amount(items)
  {
    total := 0;
    var i := 0;
    while i < |items|
      invariant 0 <= i <= |items|
      invariant total + Amount(items[i..]) == Amount(items)
    {
      assert items[i..][1..] == items[i + 1..];
      total := total + items[i].qty * items[i].price;
      i := i + 1;
    }
  }
}

/**
 * The inventory ("entradas") handlers: `store`, `update` and `destroy` of a
 * stock-in batch. Each body runs in one database transaction, so each is a
 * function from the state before to the committed state, or to an error.
 */
module InventoryController {
  import opened Wrappers
  import opened Models
  import opened Ledger
  import opened Database

  /**
   * `store`: a valid request becomes a new batch with the next id, recorded
   * at `now` by `user`, whose total is the sum of its line subtotals; every
   * product's stock rises by its quantity in the batch and every product the
   * batch names is stamped with the batch's time. An invalid one changes nothing.
   */
  function Store(s: State, items: seq<Line>, purchaseDate: Option<Date>, user: UserId, now: Time): (r: Result<State, Error>)
    ensures r.Success? <==> ItemsValid(s.products, items)
    ensures r.Failure? ==> r.error == Invalid
    ensures r.Success? ==>
      var s', id := r.value, s.nextInventoryId;
      && s' == s.(products := s'.products, inventories := s'.inventories, nextInventoryId := id + 1)
      && id in s'.inventories
      && s'.inventories == s.inventories[id := s'.inventories[id]]
      && s'.inventories[id].createdBy == user
      && s'.inventories[id].recordedAt == now
      && s'.inventories[id].purchaseDate == purchaseDate
      && s'.inventories[id].lines == items
      && s'.inventories[id].totalCost == Amount(items)
      && Shifted(s.products, s'.products, items, [], Some(now))
  {
    if !ItemsValid(s.products, items) then Failure(Invalid)
    else
      ItemsValidKnown(s.products, items);
      var batch := Inventory(user, now, Amount(items), purchaseDate, items);
      Success(s.(
        products := Move(s.products, items, Inbound, Some(now)),
        inventories := s.inventories[s.nextInventoryId := batch],
        nextInventoryId := s.nextInventoryId + 1))
  }

  /**
   * `update`: the batch's old lines are taken back out of stock, replaced by
   * exactly the submitted ones, and those are added in; the total is
   * recomputed, and the products named are stamped with the batch's original
   * time, not the time of the edit. Net, each product's stock moves by its new
   * quantity minus its old one.
   */
  function Update(s: State, id: BatchId, items: seq<Line>, purchaseDate: Option<Date>): (r: Result<State, Error>)
    requires InventoryKnown(s, id)
    ensures id !in s.inventories ==> r == Failure(NotFound)
    ensures id in s.inventories ==> (r.Success? <==> ItemsValid(s.products, items))
    ensures id in s.inventories && r.Failure? ==> r.error == Invalid
    ensures r.Success? ==>
      var s', b := r.value, s.inventories[id];
      && s' == s.(products := s'.products, inventories := s'.inventories)
      && id in s'.inventories
      && s'.inventories == s.inventories[id := s'.inventories[id]]
      && s'.inventories[id].createdBy == b.createdBy
      && s'.inventories[id].recordedAt == b.recordedAt
      && s'.inventories[id].purchaseDate == purchaseDate
      && s'.inventories[id].lines == items
      && s'.inventories[id].totalCost == Amount(items)
      && Shifted(s.products, s'.products, items, b.lines, Some(b.recordedAt))
  {
    if id !in s.inventories then Failure(NotFound)
    else if !ItemsValid(s.products, items) then Failure(Invalid)
    else
      var b := s.inventories[id];
      ItemsValidKnown(s.products, items);
      var reverted := Move(s.products, b.lines, Outbound, None);
      var restocked := Move(reverted, items, Inbound, Some(b.recordedAt));
      ShiftedThen(s.products, reverted, restocked, items, b.lines, Some(b.recordedAt));
      var b' := b.(totalCost := Amount(items), purchaseDate := purchaseDate, lines := items);
      Success(s.(products := restocked, inventories := s.inventories[id := b']))
  }

  /**
   * `destroy`: every line's quantity is taken back out of its product's stock,
   * with no check on the result, and the batch with its lines is removed.
   */
  function Destroy(s: State, id: BatchId): (r: Result<State, Error>)
    requires InventoryKnown(s, id)
    ensures r.Success? <==> id in s.inventories
    ensures r.Failure? ==> r.error == NotFound
    ensures r.Success? ==>
      var s' := r.value;
      && s' == s.(products := s'.products, inventories := s'.inventories)
      && s'.inventories == s.inventories - {id}
      && Shifted(s.products, s'.products, [], s.inventories[id].lines, None)
  {
    if id !in s.inventories then Failure(NotFound)
    else
      Success(s.(
        products := Move(s.products, s.inventories[id].lines, Outbound, None),
        inventories := s.inventories - {id}))
  }

  lemma StoreValid(s: State, items: seq<Line>, purchaseDate: Option<Date>, user: UserId, now: Time)
    requires Valid(s)
    requires Store(s, items, purchaseDate, user, now).Success?
    ensures Valid(Store(s, items, purchaseDate, user, now).value)
  {
    var s' := Store(s, items, purchaseDate, user, now).value;
    InventoryWriteValid(s, s', s.nextInventoryId, items, [], Some(now));
  }

  lemma UpdateValid(s: State, id: BatchId, items: seq<Line>, purchaseDate: Option<Date>)
    requires Valid(s)
    requires InventoryKnown(s, id)
    requires Update(s, id, items, purchaseDate).Success?
    ensures Valid(Update(s, id, items, purchaseDate).value)
  {
    var s' := Update(s, id, items, purchaseDate).value;
    var b := s.inventories[id];
    InventoryWriteValid(s, s', id, items, b.lines, Some(b.recordedAt));
  }

  lemma DestroyValid(s: State, id: BatchId)
    requires Valid(s)
    requires InventoryKnown(s, id)
    requires Destroy(s, id).Success?
    ensures Valid(Destroy(s, id).value)
  {
    var s' := Destroy(s, id).value;
    InventoryWriteValid(s, s', id, [], s.inventories[id].lines, None);
  }

  /**
   * Storing a batch and then destroying it gives back every product's stock
   * and the inventory table as they were; the products keep the
   * `last_inventory_at` the store gave them, since `destroy` does not reset it.
   */
  lemma StoreDestroyRoundTrip(s: State, items: seq<Line>, purchaseDate: Option<Date>, user: UserId, now: Time)
    requires IdsIssued(s)
    requires ItemsValid(s.products, items)
    ensures Store(s, items, purchaseDate, user, now).Success?
    ensures InventoryKnown(Store(s, items, purchaseDate, user, now).value, s.nextInventoryId)
    ensures
      var s1 := Store(s, items, purchaseDate, user, now).value;
      var r := Destroy(s1, s.nextInventoryId);
      && r.Success?
      && r.value == s.(products := r.value.products, nextInventoryId := s.nextInventoryId + 1)
      && r.value.products.Keys == s.products.Keys
      && forall p :: p in s.products ==>
           r.value.products[p] == s.products[p].(lastInventoryAt := s1.products[p].lastInventoryAt)
  {
    ItemsValidKnown(s.products, items);
    var s1 := Store(s, items, purchaseDate, user, now).value;
    var id := s.nextInventoryId;
    assert InventoryKnown(s1, id);
    var s2 := Destroy(s1, id).value;
    WrittenThenRemoved(s, s1, s2, id, items, Some(now));
  }

  /** A batch written under a fresh id and then removed leaves the table as it
      was, and its lines' stock added and taken out again. */
  lemma WrittenThenRemoved(s: State, s1: State, s2: State, id: BatchId, items: seq<Line>, stamp: Option<Time>)
    requires id !in s.inventories
    requires s1 == s.(products := s1.products, inventories := s1.inventories, nextInventoryId := id + 1)
    requires id in s1.inventories && s1.inventories == s.inventories[id := s1.inventories[id]]
    requires s1.inventories[id].lines == items
    requires Shifted(s.products, s1.products, items, [], stamp)
    requires s2 == s1.(products := s2.products, inventories := s2.inventories)
    requires s2.inventories == s1.inventories - {id}
    requires Shifted(s1.products, s2.products, [], items, None)
    ensures s2 == s.(products := s2.products, nextInventoryId := id + 1)
    ensures s2.products.Keys == s.products.Keys
    ensures forall p :: p in s.products ==> s2.products[p] == s.products[p].(lastInventoryAt := s1.products[p].lastInventoryAt)
  {
    assert s2.inventories == s.inventories;
    ShiftedUndone(s.products, s1.products, s2.products, items, stamp);
  }

  /**
   * Resubmitting a batch's own items and purchase date leaves the inventory
   * table and every product's stock as they were; only the stamps are
   * refreshed, with the batch's own time.
   */
  lemma ResubmitKeepsStock(s: State, id: BatchId)
    requires id in s.inventories
    requires ItemsValid(s.products, s.inventories[id].lines)
    requires s.inventories[id].totalCost == Amount(s.inventories[id].lines)
    ensures InventoryKnown(s, id)
    ensures
      var b := s.inventories[id];
      var r := Update(s, id, b.lines, b.purchaseDate);
      && r.Success?
      && r.value.inventories == s.inventories
      && r.value.products.Keys == s.products.Keys
      && (forall p :: p in s.products ==> r.value.products[p].stock == s.products[p].stock)
  {
    var b := s.inventories[id];
    var s' := Update(s, id, b.lines, b.purchaseDate).value;
    RewrittenAsIs(s, s', id);
  }

  /** Rewriting a batch with its own fields leaves the table and, its lines
      being taken out and put back, every stock as it was. */
  lemma RewrittenAsIs(s: State, s': State, id: BatchId)
    requires id in s.inventories && id in s'.inventories
    requires s'.inventories == s.inventories[id := s'.inventories[id]]
    requires s'.inventories[id] == s.inventories[id]
    requires Shifted(s.products, s'.products, s.inventories[id].lines, s.inventories[id].lines, Some(s.inventories[id].recordedAt))
    ensures s'.inventories == s.inventories
    ensures s'.products.Keys == s.products.Keys
    ensures forall p :: p in s.products ==> s'.products[p].stock == s.products[p].stock
  {
  }
}

/**
 * The `order` table and the repository update that settles an order: a
 * partial payload merged over the stored order, the total recomputed when
 * the discount changes, and the offered batch debited when the merged order
 * is delivered.
 */
module OrderRepositories {
  import opened Common
  import opened ProductOfferedRepositories

  /** A row of `order`. Quantities, discounts and totals are Decimals, here exact reals. */
  datatype Order = Order(
    id: Uuid,
    productOfferedId: Option<Uuid>,
    quantity: real,
    discount: real,
    total: real,
    isDelivered: bool,
    orderDate: Time,
    deliveryDate: Option<Time>,
    isActive: bool,
    createdBy: Option<Uuid>,
    updatedBy: Option<Uuid>,
    createdAt: Time,
    updatedAt: Time)

  /** `OrderToSave`: the order the service hands to the repository. */
  datatype OrderToSave = OrderToSave(
    productOfferedId: Uuid,
    quantity: real,
    discount: real,
    isDelivered: bool,
    total: real,
    orderDate: Time,
    createdBy: Option<Uuid>,
    updatedBy: Option<Uuid>)

  /** `OrderUpdate`: each field left out of the payload or given a value. */
  datatype OrderUpdate = OrderUpdate(
    productOfferedId: Patch<Uuid>,
    quantity: Patch<real>,
    discount: Patch<real>,
    isDelivered: Patch<bool>)

  /** The order `preprocess_create` and `CREATE_ORDER_ITEM` store for a payload. */
  function Stored(o: OrderToSave, newId: Uuid, createdAt: Time, updatedAt: Time): Order
  {
    Order(newId, Some(o.productOfferedId), o.quantity, o.discount, o.total, o.isDelivered, o.orderDate,
          None, true, o.createdBy, o.updatedBy, createdAt, updatedAt)
  }

  /** `copy(update=order_update.dict(exclude_unset=True))`: the payload laid over the stored order. */
  function Merge(o: Order, p: OrderUpdate): (r: Order)
    ensures p.productOfferedId.Set? ==> r.productOfferedId == Some(p.productOfferedId.value)
    ensures p.productOfferedId.Unset? ==> r.productOfferedId == o.productOfferedId
    ensures p.quantity.Set? ==> r.quantity == p.quantity.value
    ensures p.quantity.Unset? ==> r.quantity == o.quantity
    ensures p.discount.Set? ==> r.discount == p.discount.value
    ensures p.discount.Unset? ==> r.discount == o.discount
    ensures p.isDelivered.Set? ==> r.isDelivered == p.isDelivered.value
    ensures p.isDelivered.Unset? ==> r.isDelivered == o.isDelivered
    ensures r.(productOfferedId := o.productOfferedId, quantity := o.quantity, discount := o.discount,
               isDelivered := o.isDelivered) == o
  {
    o.(productOfferedId := if p.productOfferedId.Set? then Some(p.productOfferedId.value) else o.productOfferedId,
       quantity := Overlay(o.quantity, p.quantity),
       discount := Overlay(o.discount, p.discount),
       isDelivered := Overlay(o.isDelivered, p.isDelivered))
  }

  /**
   * `get_product_offered_by_id(order_update.product_offered_id)`: the batch
   * the payload names. The lookup uses the payload, not the merged order; a
   * payload without a batch id finds nothing.
   */
  function PatchBatch(p: OrderUpdate, batches: map<Uuid, OfferedProduct>): (r: Option<OfferedProduct>)
    ensures r.Some? <==> p.productOfferedId.Set? && p.productOfferedId.value in batches
    ensures r.Some? ==> r.value == batches[p.productOfferedId.value]
  {
    if p.productOfferedId.Set? && p.productOfferedId.value in batches then Some(batches[p.productOfferedId.value])
    else None
  }

  /**
   * `product_item.product.price.price`: the price of the batch's product.
   * `prices` holds the price attached to each priced product; a batch
   * without a product or a product without a price has none.
   */
  function PriceOf(batch: OfferedProduct, prices: map<Uuid, real>): (r: Option<real>)
    ensures r.Some? <==> batch.productId.Some? && batch.productId.value in prices
    ensures r.Some? ==> r.value == prices[batch.productId.value]
  {
    if batch.productId.Some? && batch.productId.value in prices then Some(prices[batch.productId.value]) else None
  }

  /**
   * The prices the code as written can read. `get_product_by_id` builds the
   * product from `GET_PRODUCT_BY_ID`, which selects the id of the price row
   * and no price, so every loaded product has the price None and
   * `product.price.price` raises an AttributeError. Every other `prices`
   * map stands for the evidently intended reading: the price row of the
   * batch's product.
   */
  const LoadedPrices: map<Uuid, real> := map[]

  /** As written, no batch has a readable price. */
  lemma PriceNeverLoaded(batch: OfferedProduct)
    ensures PriceOf(batch, LoadedPrices).None?
  {
  }

  /** What `update_order` does with the stored state, decided before it writes. */
  datatype UpdatePlan =
    | NoOrder                                      // `{}`: no order has the id
    | Raises                                       // an exception before any write
    | Writes(order: Order, debited: Option<Uuid>)  // the order written, and the batch debited if any

  /**
   * The decisions of `update_order`. `updatedAt` and `deliveredAt` are its
   * two clock readings. A changed discount recomputes the total from the
   * price of the payload's batch (no batch or no price: an AttributeError);
   * a merged order that is delivered gets its delivery date and debits that
   * batch by `int(quantity)` (no batch: `ProductOfferedInvalidUpdateParams`).
   */
  function PlanUpdate(stored: map<Uuid, Order>, id: Uuid, p: OrderUpdate, updatedById: Uuid,
                      updatedAt: Time, deliveredAt: Time,
                      batches: map<Uuid, OfferedProduct>, prices: map<Uuid, real>): (r: UpdatePlan)
    ensures r == NoOrder <==> id !in stored
    ensures r.Writes? ==> r.order.id == stored[id].id && r.order.updatedBy == Some(updatedById)
                          && r.order.updatedAt == updatedAt
    ensures r.Writes? && r.debited.Some? ==> r.debited.value in batches
  {
    if id !in stored then NoOrder
    else
      var before := stored[id];
      var merged := Merge(before, p).(updatedBy := Some(updatedById), updatedAt := updatedAt);
      var batch := PatchBatch(p, batches);
      if merged.discount != before.discount && (batch.None? || PriceOf(batch.value, prices).None?) then Raises
      else
        var priced := if merged.discount != before.discount
                      then merged.(total := PriceOf(batch.value, prices).value * merged.quantity - merged.discount)
                      else merged;
        if !priced.isDelivered then Writes(priced, None)
        else if batch.None? then Raises
        else Writes(priced.(deliveryDate := Some(deliveredAt)), Some(p.productOfferedId.value))
  }

  /** The batch after the delivery write-back: `units` fewer in stock and stamped by the actor. */
  function Debited(batch: OfferedProduct, units: int, updatedById: Uuid, now: Time): (r: OfferedProduct)
    ensures r.quantity + units == batch.quantity
    ensures r.updatedBy == Some(updatedById) && r.updatedAt == now
    ensures r.(quantity := batch.quantity, updatedBy := batch.updatedBy, updatedAt := batch.updatedAt) == batch
  {
    batch.(quantity := batch.quantity - units, updatedBy := Some(updatedById), updatedAt := now)
  }

  /** The offered batches after a plan has been carried out. */
  function BatchesAfter(batches: map<Uuid, OfferedProduct>, plan: UpdatePlan, updatedById: Uuid, now: Time)
      : (r: map<Uuid, OfferedProduct>)
    requires plan.Writes? && plan.debited.Some? ==> plan.debited.value in batches
    ensures r.Keys == batches.Keys
    ensures forall k :: k in batches && !(plan.Writes? && plan.debited == Some(k)) ==> r[k] == batches[k]
    ensures plan.Writes? && plan.debited.Some? ==>
      r[plan.debited.value] == Debited(batches[plan.debited.value], TruncToInt(plan.order.quantity), updatedById, now)
  {
    if plan.Writes? && plan.debited.Some?
    then batches[plan.debited.value := Debited(batches[plan.debited.value], TruncToInt(plan.order.quantity),
                                               updatedById, now)]
    else batches
  }

  // ---------------------------------------------------------------------------
  // Properties of the update

  /** Fields the payload leaves out keep their stored values; the audit fields other than the stamps never change. */
  lemma UnsetFieldsKept(stored: map<Uuid, Order>, id: Uuid, p: OrderUpdate, actor: Uuid, t1: Time, t2: Time,
                        batches: map<Uuid, OfferedProduct>, prices: map<Uuid, real>)
    requires PlanUpdate(stored, id, p, actor, t1, t2, batches, prices).Writes?
    ensures var r := PlanUpdate(stored, id, p, actor, t1, t2, batches, prices).order;
      && (p.quantity.Unset? ==> r.quantity == stored[id].quantity)
      && (p.discount.Unset? ==> r.discount == stored[id].discount)
      && (p.isDelivered.Unset? ==> r.isDelivered == stored[id].isDelivered)
      && (p.productOfferedId.Unset? ==> r.productOfferedId == stored[id].productOfferedId)
      && (p.quantity.Set? ==> r.quantity == p.quantity.value)
      && (p.discount.Set? ==> r.discount == p.discount.value)
      && (p.isDelivered.Set? ==> r.isDelivered == p.isDelivered.value)
      && r.orderDate == stored[id].orderDate && r.isActive == stored[id].isActive
      && r.createdBy == stored[id].createdBy && r.createdAt == stored[id].createdAt
  {
  }

  /**
   * The total follows the discount alone: kept when the merged discount is
   * the stored one, otherwise the price of the payload's batch times the
   * merged quantity, less the merged discount.
   */
  lemma TotalFollowsDiscount(stored: map<Uuid, Order>, id: Uuid, p: OrderUpdate, actor: Uuid, t1: Time, t2: Time,
                             batches: map<Uuid, OfferedProduct>, prices: map<Uuid, real>)
    requires PlanUpdate(stored, id, p, actor, t1, t2, batches, prices).Writes?
    ensures var r := PlanUpdate(stored, id, p, actor, t1, t2, batches, prices).order;
      && (r.discount == stored[id].discount ==> r.total == stored[id].total)
      && (r.discount != stored[id].discount ==>
            && PatchBatch(p, batches).Some? && PriceOf(PatchBatch(p, batches).value, prices).Some?
            && r.total == PriceOf(PatchBatch(p, batches).value, prices).value * r.quantity - r.discount)
  {
  }

  /**
   * As written, an update that changes the discount always raises: the
   * total is recomputed from a price that is never loaded.
   */
  lemma DiscountChangeRaises(stored: map<Uuid, Order>, id: Uuid, p: OrderUpdate, actor: Uuid, t1: Time, t2: Time,
                             batches: map<Uuid, OfferedProduct>)
    requires id in stored && Merge(stored[id], p).discount != stored[id].discount
    ensures PlanUpdate(stored, id, p, actor, t1, t2, batches, LoadedPrices) == Raises
  {
  }

  /** Changing only the quantity leaves the stored total in place, however far it now is from price × quantity. */
  lemma QuantityAloneKeepsTotal(stored: map<Uuid, Order>, id: Uuid, q: real, actor: Uuid, t1: Time, t2: Time,
                                batches: map<Uuid, OfferedProduct>, prices: map<Uuid, real>)
    requires id in stored && !stored[id].isDelivered
    ensures var r := PlanUpdate(stored, id, OrderUpdate(Unset, Set(q), Unset, Unset), actor, t1, t2, batches, prices);
      && r.Writes? && r.order.quantity == q && r.order.total == stored[id].total && r.debited.None?
  {
  }

  /**
   * Stock is debited exactly when the merged order is delivered; then the
   * delivery date is stamped and the debited batch is the payload's.
   */
  lemma DebitIffDelivered(stored: map<Uuid, Order>, id: Uuid, p: OrderUpdate, actor: Uuid, t1: Time, t2: Time,
                          batches: map<Uuid, OfferedProduct>, prices: map<Uuid, real>)
    requires PlanUpdate(stored, id, p, actor, t1, t2, batches, prices).Writes?
    ensures var r := PlanUpdate(stored, id, p, actor, t1, t2, batches, prices);
      && (r.debited.Some? <==> r.order.isDelivered)
      && (r.debited.Some? ==> r.debited == Some(p.productOfferedId.value) && r.order.deliveryDate == Some(t2))
      && (r.debited.None? ==> r.order.deliveryDate == stored[id].deliveryDate)
  {
  }

  /** An undelivered merged order leaves every batch as it was. */
  lemma UndeliveredLeavesStock(stored: map<Uuid, Order>, id: Uuid, p: OrderUpdate, actor: Uuid, t1: Time, t2: Time,
                               batches: map<Uuid, OfferedProduct>, prices: map<Uuid, real>)
    requires var r := PlanUpdate(stored, id, p, actor, t1, t2, batches, prices); r.Writes? && !r.order.isDelivered
    ensures BatchesAfter(batches, PlanUpdate(stored, id, p, actor, t1, t2, batches, prices), actor, t1) == batches
  {
  }

  /** A delivery whose payload names no stored batch raises, whatever the discount does. */
  lemma DeliveryWithoutBatchRaises(stored: map<Uuid, Order>, id: Uuid, p: OrderUpdate, actor: Uuid, t1: Time, t2: Time,
                                   batches: map<Uuid, OfferedProduct>, prices: map<Uuid, real>)
    requires id in stored && Merge(stored[id], p).isDelivered && PatchBatch(p, batches).None?
    ensures PlanUpdate(stored, id, p, actor, t1, t2, batches, prices) == Raises
  {
  }

  /**
   * The debit is decided on the merged state: an order already delivered,
   * updated again with a payload that only names its batch, debits that
   * batch a second time.
   */
  lemma RedeliveryDebitsAgain(stored: map<Uuid, Order>, id: Uuid, b: Uuid, actor: Uuid, t1: Time, t2: Time,
                              batches: map<Uuid, OfferedProduct>, prices: map<Uuid, real>)
    requires id in stored && stored[id].isDelivered && b in batches
    ensures var r := PlanUpdate(stored, id, OrderUpdate(Set(b), Unset, Unset, Unset), actor, t1, t2, batches, prices);
      r.Writes? && r.debited == Some(b)
      && BatchesAfter(batches, r, actor, t1)[b].quantity == batches[b].quantity - TruncToInt(stored[id].quantity)
  {
  }

  /**
   * The update with the debit confined to the delivery itself: the same
   * plan, except that an order already delivered before the update is not
   * debited again.
   */
  function PlanUpdateOnce(stored: map<Uuid, Order>, id: Uuid, p: OrderUpdate, updatedById: Uuid,
                          updatedAt: Time, deliveredAt: Time,
                          batches: map<Uuid, OfferedProduct>, prices: map<Uuid, real>): (r: UpdatePlan)
    ensures r == NoOrder <==> id !in stored
    ensures r.Writes? && r.debited.Some? ==> r.debited.value in batches
  {
    match PlanUpdate(stored, id, p, updatedById, updatedAt, deliveredAt, batches, prices)
    case Writes(o, Some(_)) =>
      if stored[id].isDelivered then Writes(o.(deliveryDate := stored[id].deliveryDate), None)
      else PlanUpdate(stored, id, p, updatedById, updatedAt, deliveredAt, batches, prices)
    case other => other
  }

  /**
   * With the corrected plan, an order debits stock only on the update that
   * turns it from undelivered to delivered: once stored as delivered, no
   * later update debits it, and its delivery date stays the first one.
   */
  lemma DebitOnlyOnDelivery(stored: map<Uuid, Order>, id: Uuid, p: OrderUpdate, actor: Uuid, t1: Time, t2: Time,
                            batches: map<Uuid, OfferedProduct>, prices: map<Uuid, real>)
    requires PlanUpdateOnce(stored, id, p, actor, t1, t2, batches, prices).Writes?
    ensures var r := PlanUpdateOnce(stored, id, p, actor, t1, t2, batches, prices);
      && (r.debited.Some? <==> !stored[id].isDelivered && r.order.isDelivered)
      && (stored[id].isDelivered ==> r.order.deliveryDate == stored[id].deliveryDate)
  {
  }

  /**
   * Two successive corrected updates of the same order debit stock at most
   * once between them.
   */
  lemma AtMostOneDebit(stored: map<Uuid, Order>, id: Uuid, p1: OrderUpdate, p2: OrderUpdate, actor: Uuid,
                       t1: Time, t2: Time, t3: Time, t4: Time,
                       batches: map<Uuid, OfferedProduct>, prices: map<Uuid, real>)
    requires PlanUpdateOnce(stored, id, p1, actor, t1, t2, batches, prices).Writes?
    ensures var first := PlanUpdateOnce(stored, id, p1, actor, t1, t2, batches, prices);
      var second := PlanUpdateOnce(stored[id := first.order], id, p2, actor, t3, t4,
                                   BatchesAfter(batches, first, actor, t1), prices);
      !(first.debited.Some? && second.Writes? && second.debited.Some?)
  {
    DebitOnlyOnDelivery(stored, id, p1, actor, t1, t2, batches, prices);
    var first := PlanUpdateOnce(stored, id, p1, actor, t1, t2, batches, prices);
    if first.debited.Some? {
      var after := BatchesAfter(batches, first, actor, t1);
      var second := PlanUpdateOnce(stored[id := first.order], id, p2, actor, t3, t4, after, prices);
      if second.Writes? {
        DebitOnlyOnDelivery(stored[id := first.order], id, p2, actor, t3, t4, after, prices);
      }
    }
  }

  // ---------------------------------------------------------------------------
  // The repository

  class OrderRepository {
    var orders: map<Uuid, Order>

    /** Every order is stored under its own id. */
    ghost predicate Valid()
      reads this
    {
      forall id :: id in orders ==> orders[id].id == id
    }

    constructor (initial: map<Uuid, Order>)
      requires forall id :: id in initial ==> initial[id].id == id
      ensures Valid() && orders == initial
    {
      orders := initial;
    }

    /** `create_order`: `preprocess_create` defaults the id, `is_active` and both timestamps; the row is inserted. */
    method CreateOrder(o: OrderToSave, newId: Uuid, createdAt: Time, updatedAt: Time) returns (created: Order)
      requires Valid() && newId !in orders
      modifies this
      ensures Valid()
      ensures created == Stored(o, newId, createdAt, updatedAt) && created.isActive && created.deliveryDate.None?
      ensures orders == old(orders)[newId := created]
    {
      created := Stored(o, newId, createdAt, updatedAt);
      orders := orders[newId := created];
    }

    /**
     * `update_order`: carries out `PlanUpdate` against the stored orders and
     * the offered batches. `{}` is `Ok(None)`, a raised exception `Err(())`.
     * The debit is written before the order, and only when the plan writes.
     */
    method UpdateOrder(id: Uuid, p: OrderUpdate, updatedById: Uuid, updatedAt: Time, deliveredAt: Time,
                       offered: ProductOfferedRepository, prices: map<Uuid, real>)
        returns (result: Result<Option<Order>, ()>)
      requires Valid() && offered.Valid()
      modifies this, offered
      ensures Valid() && offered.Valid()
      ensures var plan := PlanUpdate(old(orders), id, p, updatedById, updatedAt, deliveredAt, old(offered.items), prices);
        match plan
        case NoOrder => result == Ok(None) && orders == old(orders) && offered.items == old(offered.items)
        case Raises => result == Err(()) && orders == old(orders) && offered.items == old(offered.items)
        case Writes(o, _) =>
          && result == Ok(Some(o)) && orders == old(orders)[id := o]
          && offered.items == BatchesAfter(old(offered.items), plan, updatedById, updatedAt)
    {
      var plan := PlanUpdate(orders, id, p, updatedById, updatedAt, deliveredAt, offered.items, prices);
      match plan
      case NoOrder =>
        return Ok(None);
      case Raises =>
        return Err(());
      case Writes(o, debited) =>
        if debited.Some? {
          offered.DebitStock(debited.value, TruncToInt(o.quantity), updatedById, updatedAt);
        }
        orders := orders[id := o];
        result := Ok(Some(o));
    }
  }
}

/**
 * `OrderService`: the guards of order creation and update, the backlog row
 * recorded when an order asks for more than a batch holds, and the total
 * an accepted order is given.
 */
module OrderServices {
  import opened Common
  import opened ProductOfferedRepositories
  import opened BacklogRepositories
  import opened OrderRepositories

  /** `OrderCreate`: what a client orders. */
  datatype OrderCreate = OrderCreate(productOfferedId: Uuid, quantity: real, discount: real)

  /** The exceptions the service reports. */
  datatype OrderError =
    | IdNotValid
    | ProductOfferedNotFound
    | QuantityNotAvailable(stock: int, quantity: real)
    | DiscountTooHigh(gross: real, discount: real)
    | OrderNotFound
    | InvalidUpdateParams
    | Uncaught

  /**
   * What `create_order` decides from the stored batches and prices: reject,
   * record the shortfall as a backlog row and reject, or accept the order.
   */
  datatype CreateStep =
    | Reject(error: OrderError)
    | Shortfall(backlog: BacklogToSave, error: OrderError)
    | Accept(order: OrderToSave)

  /**
   * The guard chain of `create_order`. A missing batch is reported first.
   * Reading the price of a batch without a priced product is an
   * AttributeError. A quantity not above 0 is meant to be rejected with
   * `OrderQuantityException`, but that exception is built without its two
   * required arguments, so the rejection surfaces as an uncaught TypeError.
   * A quantity above the batch's stock records the missing amount as backlog
   * of the batch's product (`int` of the Decimal difference; a batch without
   * a product fails validation of the backlog payload). A discount above
   * price × quantity is refused.
   */
  function CreateDecision(order: OrderCreate, actor: Uuid, now: Time,
                          batches: map<Uuid, OfferedProduct>, prices: map<Uuid, real>): (d: CreateStep)
    ensures order.productOfferedId !in batches ==> d == Reject(ProductOfferedNotFound)
    ensures order.productOfferedId in batches && PriceOf(batches[order.productOfferedId], prices).None?
            ==> d == Reject(Uncaught)
    ensures d.Accept? <==>
      && order.productOfferedId in batches
      && PriceOf(batches[order.productOfferedId], prices).Some?
      && 0.0 < order.quantity <= batches[order.productOfferedId].quantity as real
      && order.discount <= PriceOf(batches[order.productOfferedId], prices).value * order.quantity
    ensures d.Accept? ==>
      && d.order.productOfferedId == order.productOfferedId
      && d.order.quantity == order.quantity && d.order.discount == order.discount
      && !d.order.isDelivered && d.order.orderDate == now
      && d.order.total == PriceOf(batches[order.productOfferedId], prices).value * order.quantity - order.discount
      && d.order.total >= 0.0
      && d.order.createdBy == Some(actor) && d.order.updatedBy == Some(ZeroUuid)
    ensures d.Shortfall? <==>
      && order.productOfferedId in batches
      && PriceOf(batches[order.productOfferedId], prices).Some?
      && 0.0 < order.quantity && order.quantity > batches[order.productOfferedId].quantity as real
      && batches[order.productOfferedId].productId.Some?
    ensures d.Shortfall? ==>
      var b := batches[order.productOfferedId];
      && d.backlog == BacklogToSave(b.productId.value, TruncToInt(order.quantity - b.quantity as real),
                                    Some(actor), Some(ZeroUuid))
      && d.backlog.requiredQuantity >= 0
      && d.error == QuantityNotAvailable(b.quantity, order.quantity)
  {
    if order.productOfferedId !in batches then Reject(ProductOfferedNotFound)
    else
      var batch := batches[order.productOfferedId];
      match PriceOf(batch, prices)
      case None => Reject(Uncaught)
      case Some(price) =>
        var total := price * order.quantity - order.discount;
        if order.quantity <= 0.0 then Reject(Uncaught)
        else if order.quantity > batch.quantity as real then
          if batch.productId.None? then Reject(Uncaught)
          else Shortfall(BacklogToSave(batch.productId.value, TruncToInt(order.quantity - batch.quantity as real),
                                       Some(actor), Some(ZeroUuid)),
                         QuantityNotAvailable(batch.quantity, order.quantity))
        else if price * order.quantity < order.discount then Reject(DiscountTooHigh(price * order.quantity, order.discount))
        else Accept(OrderToSave(order.productOfferedId, order.quantity, order.discount, false, total, now,
                                Some(actor), Some(ZeroUuid)))
  }

  /**
   * As written, `create_order` never accepts an order and never records a
   * shortfall: a stored batch's price is never loaded, so every order for
   * one ends in the uncaught AttributeError before the quantity guard.
   */
  lemma CreateNeverAcceptsAsWritten(order: OrderCreate, actor: Uuid, now: Time, batches: map<Uuid, OfferedProduct>)
    ensures CreateDecision(order, actor, now, batches, LoadedPrices)
            == Reject(if order.productOfferedId in batches then Uncaught else ProductOfferedNotFound)
  {
  }

  /** An order for exactly the stock of its batch passes the stock guard: the comparison is strict. */
  lemma WholeStockAccepted(order: OrderCreate, actor: Uuid, now: Time,
                           batches: map<Uuid, OfferedProduct>, prices: map<Uuid, real>)
    requires order.productOfferedId in batches && PriceOf(batches[order.productOfferedId], prices).Some?
    requires order.quantity == batches[order.productOfferedId].quantity as real > 0.0
    requires 0.0 <= order.discount <= PriceOf(batches[order.productOfferedId], prices).value * order.quantity
    ensures CreateDecision(order, actor, now, batches, prices).Accept?
  {
  }

  /** The backlog row of a shortfall covers exactly the whole units the batch is short of. */
  lemma ShortfallCoversMissingUnits(order: OrderCreate, actor: Uuid, now: Time,
                                    batches: map<Uuid, OfferedProduct>, prices: map<Uuid, real>)
    requires CreateDecision(order, actor, now, batches, prices).Shortfall?
    ensures var d := CreateDecision(order, actor, now, batches, prices);
      var stock := batches[order.productOfferedId].quantity;
      && d.backlog.productId == batches[order.productOfferedId].productId.value
      && stock as real + d.backlog.requiredQuantity as real <= order.quantity
      && order.quantity < stock as real + d.backlog.requiredQuantity as real + 1.0
  {
  }

  /**
   * `create_order`: the decision carried out. A shortfall inserts its
   * backlog row and reports the order as not available; an accepted order
   * is inserted. The offered batches are read, never written: ordering does
   * not move stock. `now` is the order date the service reads;
   * `createdAt` and `updatedAt` are the two clock readings of
   * `preprocess_create` in the repository that inserts.
   */
  method CreateOrder(order: OrderCreate, actor: Uuid, now: Time, createdAt: Time, updatedAt: Time,
                     newBacklogId: Uuid, newOrderId: Uuid,
                     offered: ProductOfferedRepository, prices: map<Uuid, real>,
                     backlog: BacklogRepository, orders: OrderRepository)
      returns (result: Result<Order, OrderError>)
    requires backlog.Valid() && newBacklogId !in backlog.rows
    requires orders.Valid() && newOrderId !in orders.orders
    modifies backlog, orders
    ensures backlog.Valid() && orders.Valid()
    ensures offered.items == old(offered.items)
    ensures match CreateDecision(order, actor, now, old(offered.items), prices)
      case Reject(e) =>
        result == Err(e) && backlog.rows == old(backlog.rows) && orders.orders == old(orders.orders)
      case Shortfall(b, e) =>
        && result == Err(e) && orders.orders == old(orders.orders)
        && backlog.rows == old(backlog.rows)[newBacklogId := BacklogRow(newBacklogId, b.productId, b.requiredQuantity,
                                                                        true, b.createdBy, createdAt, b.updatedBy, updatedAt)]
      case Accept(o) =>
        && result == Ok(Stored(o, newOrderId, createdAt, updatedAt)) && backlog.rows == old(backlog.rows)
        && orders.orders == old(orders.orders)[newOrderId := Stored(o, newOrderId, createdAt, updatedAt)]
  {
    var decision := CreateDecision(order, actor, now, offered.items, prices);
    match decision
    case Reject(e) =>
      return Err(e);
    case Shortfall(b, e) =>
      var _ := backlog.CreateBacklog(b, newBacklogId, createdAt, updatedAt);
      return Err(e);
    case Accept(o) =>
      var created := orders.CreateOrder(o, newOrderId, createdAt, updatedAt);
      return Ok(created);
  }

  // ---------------------------------------------------------------------------
  // Update

  /**
   * The guards of `update_order`, run before the repository is called; None
   * when all pass. The batch is the payload's. A field the payload leaves out
   * reads as None, and comparing None with a number is a TypeError the
   * service does not catch; so is the argument-less quantity exception. An
   * over-stock quantity is refused without any backlog row.
   */
  function UpdateCheck(id: IdArg, p: OrderUpdate, batches: map<Uuid, OfferedProduct>, prices: map<Uuid, real>)
      : (r: Option<OrderError>)
    ensures !IsValidUuid(id) ==> r == Some(IdNotValid)
    ensures IsValidUuid(id) && PatchBatch(p, batches).None? ==> r == Some(ProductOfferedNotFound)
    ensures (IsValidUuid(id) && PatchBatch(p, batches).Some? && PriceOf(PatchBatch(p, batches).value, prices).Some?
             && p.quantity.Set? && 0.0 < p.quantity.value
             && p.quantity.value > PatchBatch(p, batches).value.quantity as real)
            ==> r == Some(QuantityNotAvailable(PatchBatch(p, batches).value.quantity, p.quantity.value))
    ensures r.None? <==>
      && IsValidUuid(id)
      && PatchBatch(p, batches).Some? && PriceOf(PatchBatch(p, batches).value, prices).Some?
      && p.quantity.Set? && 0.0 < p.quantity.value <= PatchBatch(p, batches).value.quantity as real
      && p.discount.Set? && p.discount.value <= PriceOf(PatchBatch(p, batches).value, prices).value * p.quantity.value
  {
    if !IsValidUuid(id) then Some(IdNotValid)
    else match PatchBatch(p, batches)
      case None => Some(ProductOfferedNotFound)
      case Some(batch) =>
        match PriceOf(batch, prices)
        case None => Some(Uncaught)
        case Some(price) =>
          if p.quantity.Unset? then Some(Uncaught)
          else if p.quantity.value <= 0.0 then Some(Uncaught)
          else if p.quantity.value > batch.quantity as real then Some(QuantityNotAvailable(batch.quantity, p.quantity.value))
          else if p.discount.Unset? then Some(Uncaught)
          else if price * p.quantity.value < p.discount.value then Some(DiscountTooHigh(price * p.quantity.value, p.discount.value))
          else None
  }

  /**
   * As written, `update_order` refuses every update: a payload without a
   * stored batch is not found, and one with a stored batch raises on the
   * price, which is never loaded.
   */
  lemma UpdateAlwaysRefusedAsWritten(id: IdArg, p: OrderUpdate, batches: map<Uuid, OfferedProduct>)
    ensures UpdateCheck(id, p, batches, LoadedPrices).Some?
    ensures IsValidUuid(id) && PatchBatch(p, batches).Some? ==> UpdateCheck(id, p, batches, LoadedPrices) == Some(Uncaught)
  {
  }

  /**
   * Once the service's guards pass, the repository update cannot raise:
   * the payload names a stored, priced batch, which is all the total and
   * the delivery debit need.
   */
  lemma CheckedUpdateDoesNotRaise(id: Uuid, p: OrderUpdate, stored: map<Uuid, Order>, actor: Uuid, t1: Time, t2: Time,
                                  batches: map<Uuid, OfferedProduct>, prices: map<Uuid, real>)
    requires UpdateCheck(Wellformed(id), p, batches, prices).None?
    ensures PlanUpdate(stored, id, p, actor, t1, t2, batches, prices) != Raises
  {
  }

  /**
   * A checked delivery never drives the batch's stock below 0: the debit is
   * the whole part of a quantity that the stock covers.
   */
  lemma CheckedDeliveryKeepsStock(id: Uuid, p: OrderUpdate, stored: map<Uuid, Order>, actor: Uuid, t1: Time, t2: Time,
                                  batches: map<Uuid, OfferedProduct>, prices: map<Uuid, real>)
    requires UpdateCheck(Wellformed(id), p, batches, prices).None?
    requires PlanUpdate(stored, id, p, actor, t1, t2, batches, prices).Writes?
    ensures var plan := PlanUpdate(stored, id, p, actor, t1, t2, batches, prices);
      plan.debited.Some? ==>
        0 <= BatchesAfter(batches, plan, actor, t1)[plan.debited.value].quantity <= batches[plan.debited.value].quantity
  {
    var plan := PlanUpdate(stored, id, p, actor, t1, t2, batches, prices);
    if plan.debited.Some? {
      var b := plan.debited.value;
      assert b == p.productOfferedId.value && plan.order.quantity == p.quantity.value;
      var units := TruncToInt(plan.order.quantity);
      assert 0.0 <= units as real <= batches[b].quantity as real;
    }
  }

  /**
   * `update_order`: the guards, then the repository update. Its `{}` is
   * reported as the order not found, anything it raises as invalid update
   * parameters. A refused update writes nothing.
   */
  method UpdateOrder(id: IdArg, p: OrderUpdate, actor: Uuid, updatedAt: Time, deliveredAt: Time,
                     offered: ProductOfferedRepository, prices: map<Uuid, real>, orders: OrderRepository)
      returns (result: Result<Order, OrderError>)
    requires offered.Valid() && orders.Valid()
    modifies orders, offered
    ensures offered.Valid() && orders.Valid()
    ensures UpdateCheck(id, p, old(offered.items), prices).Some? ==>
      && result == Err(UpdateCheck(id, p, old(offered.items), prices).value)
      && orders.orders == old(orders.orders) && offered.items == old(offered.items)
    ensures UpdateCheck(id, p, old(offered.items), prices).None? ==>
      var plan := PlanUpdate(old(orders.orders), id.uuid, p, actor, updatedAt, deliveredAt, old(offered.items), prices);
      match plan
      case NoOrder => result == Err(OrderNotFound) && orders.orders == old(orders.orders)
                      && offered.items == old(offered.items)
      case Raises => false
      case Writes(o, _) =>
        && result == Ok(o) && orders.orders == old(orders.orders)[id.uuid := o]
        && offered.items == BatchesAfter(old(offered.items), plan, actor, updatedAt)
  {
    var refusal := UpdateCheck(id, p, offered.items, prices);
    if refusal.Some? {
      return Err(refusal.value);
    }
    CheckedUpdateDoesNotRaise(id.uuid, p, orders.orders, actor, updatedAt, deliveredAt, offered.items, prices);
    var outcome := orders.UpdateOrder(id.uuid, p, actor, updatedAt, deliveredAt, offered, prices);
    match outcome
    case Ok(None) =>
      result := Err(OrderNotFound);
    case Ok(Some(o)) =>
      result := Ok(o);
    case Err(_) =>
      result := Err(InvalidUpdateParams);
  }
}

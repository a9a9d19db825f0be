/**
 * `PriceService`: the guards of price creation and update, and the rule
 * they keep, one price row per product. The price table is read through
 * the lookups the service makes: the stored products, and the row
 * `get_price_by_product_id` answers for a product (None for `{}`).
 */
module PriceServices {
  import opened Common

  /** A row of `price`. */
  datatype PriceRow = PriceRow(
    id: Uuid,
    price: real,
    productId: Option<Uuid>,
    isActive: bool,
    createdBy: Option<Uuid>,
    updatedBy: Option<Uuid>)

  /** `PriceCreate`: the price a client asks to set. */
  datatype PriceCreate = PriceCreate(price: real, productId: Uuid)

  /** `PriceToSave`: the price handed to the repository. */
  datatype PriceToSave = PriceToSave(price: real, productId: Uuid, createdBy: Option<Uuid>, updatedBy: Option<Uuid>)

  /** `PriceUpdate` as the service reads it: a field left out reads as None. */
  datatype PriceUpdate = PriceUpdate(price: Option<real>, productId: Option<Uuid>, isActive: Option<bool>)

  /** The exceptions the service reports. */
  datatype PriceError =
    | IdNotValid
    | ProductNotFound
    | ProductAlreadyPriced
    | PriceNotPositive
    | Uncaught

  /** `existing` is a truthful answer of `get_price_by_product_id(productId)` against `rows`. */
  predicate Answers(rows: map<Uuid, PriceRow>, productId: Uuid, existing: Option<PriceRow>)
  {
    && (existing.Some? ==> existing.value.id in rows && rows[existing.value.id] == existing.value
                           && existing.value.productId == Some(productId))
    && (existing.None? ==> forall id :: id in rows ==> rows[id].productId != Some(productId))
  }

  /** No product has two price rows; every row is stored under its own id. */
  predicate OnePricePerProduct(rows: map<Uuid, PriceRow>)
  {
    && (forall id :: id in rows ==> rows[id].id == id)
    && (forall a, b :: a in rows && b in rows && rows[a].productId.Some? && rows[a].productId == rows[b].productId
                       ==> a == b)
  }

  /**
   * The guard chain of `create_price` and the price it then saves: the
   * product must exist, must not be priced already, and the price must be
   * positive, judged in that order.
   */
  function CreatePricePlan(p: PriceCreate, actor: Uuid, products: set<Uuid>, existing: Option<PriceRow>)
      : (r: Result<PriceToSave, PriceError>)
    ensures p.productId !in products ==> r == Err(ProductNotFound)
    ensures p.productId in products && existing.Some? ==> r == Err(ProductAlreadyPriced)
    ensures r.Ok? <==> p.productId in products && existing.None? && p.price > 0.0
    ensures r.Ok? ==> r.value == PriceToSave(p.price, p.productId, Some(actor), Some(ZeroUuid))
  {
    if p.productId !in products then Err(ProductNotFound)
    else if existing.Some? then Err(ProductAlreadyPriced)
    else if p.price <= 0.0 then Err(PriceNotPositive)
    else Ok(PriceToSave(p.price, p.productId, Some(actor), Some(ZeroUuid)))
  }

  /**
   * The guards of `update_price`, run before the repository is called;
   * None when all pass. The product is looked up by the payload's id (none:
   * not found); an absent price fails its comparison with 0 (a TypeError the
   * service does not catch); the product may be priced only by the row
   * being updated.
   */
  function UpdatePriceCheck(id: IdArg, u: PriceUpdate, products: set<Uuid>, existing: Option<PriceRow>)
      : (r: Option<PriceError>)
    ensures !IsValidUuid(id) ==> r == Some(IdNotValid)
    ensures IsValidUuid(id) && !Names(products, u.productId) ==> r == Some(ProductNotFound)
    ensures (IsValidUuid(id) && Names(products, u.productId) && u.price.Some? && u.price.value <= 0.0)
            ==> r == Some(PriceNotPositive)
    ensures r.None? <==>
      && IsValidUuid(id) && Names(products, u.productId) && u.price.Some? && u.price.value > 0.0
      && (existing.None? || existing.value.id == id.uuid)
  {
    if !IsValidUuid(id) then Some(IdNotValid)
    else if !Names(products, u.productId) then Some(ProductNotFound)
    else if u.price.None? then Some(Uncaught)
    else if u.price.value <= 0.0 then Some(PriceNotPositive)
    else if existing.Some? && existing.value.id != id.uuid then Some(ProductAlreadyPriced)
    else None
  }

  /** A product priced by another row is refused; the row that already prices it passes. */
  lemma UpdateKeepsOwnPrice(id: Uuid, u: PriceUpdate, products: set<Uuid>, existing: PriceRow)
    requires Names(products, u.productId) && u.price.Some? && u.price.value > 0.0
    ensures UpdatePriceCheck(Wellformed(id), u, products, Some(existing)).None? <==> existing.id == id
    ensures existing.id != id ==> UpdatePriceCheck(Wellformed(id), u, products, Some(existing)) == Some(ProductAlreadyPriced)
  {
  }

  /** The row `create_price` stores for a plan: the intended insert, carrying the product. */
  function Created(s: PriceToSave, newId: Uuid): PriceRow
  {
    PriceRow(newId, s.price, Some(s.productId), true, s.createdBy, s.updatedBy)
  }

  /**
   * Creation keeps one price per product: when the lookup answered
   * truthfully and the plan goes ahead, the product had no price row, so
   * the new row is its only one.
   */
  lemma CreateKeepsOnePrice(rows: map<Uuid, PriceRow>, p: PriceCreate, actor: Uuid, products: set<Uuid>,
                            existing: Option<PriceRow>, newId: Uuid)
    requires OnePricePerProduct(rows) && Answers(rows, p.productId, existing) && newId !in rows
    requires CreatePricePlan(p, actor, products, existing).Ok?
    ensures OnePricePerProduct(rows[newId := Created(CreatePricePlan(p, actor, products, existing).value, newId)])
  {
    var r := Created(CreatePricePlan(p, actor, products, existing).value, newId);
    var after := rows[newId := r];
    forall a, b | a in after && b in after && after[a].productId.Some? && after[a].productId == after[b].productId
      ensures a == b
    {
    }
  }

  /**
   * An accepted update keeps one price per product when the row is moved
   * to the payload's product: the lookup found no row for it or found the
   * row being updated.
   */
  lemma UpdateKeepsOnePrice(rows: map<Uuid, PriceRow>, id: Uuid, u: PriceUpdate, products: set<Uuid>,
                            existing: Option<PriceRow>)
    requires OnePricePerProduct(rows) && id in rows
    requires u.productId.Some? && Answers(rows, u.productId.value, existing)
    requires UpdatePriceCheck(Wellformed(id), u, products, existing).None?
    ensures OnePricePerProduct(rows[id := rows[id].(price := u.price.value, productId := u.productId)])
  {
    var after := rows[id := rows[id].(price := u.price.value, productId := u.productId)];
    forall a, b | a in after && b in after && after[a].productId.Some? && after[a].productId == after[b].productId
      ensures a == b
    {
    }
  }
}

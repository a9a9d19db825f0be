/** The `product_offered` table: produced batches of a product, each with its own stock. */
module ProductOfferedRepositories {
  import opened Common

  /** A row of `product_offered`. */
  datatype OfferedProduct = OfferedProduct(
    id: Uuid,
    name: string,
    code: string,
    quantity: int,
    productId: Option<Uuid>,
    warehouseId: Option<Uuid>,
    isActive: bool,
    createdBy: Option<Uuid>,
    updatedBy: Option<Uuid>,
    createdAt: Time,
    updatedAt: Time)

  /** `ProductOfferedToSave`: the batch the service hands to the repository. */
  datatype ProductOfferedToSave = ProductOfferedToSave(
    name: string,
    quantity: int,
    productId: Option<Uuid>,
    warehouseId: Option<Uuid>,
    code: string,
    createdBy: Option<Uuid>,
    updatedBy: Option<Uuid>)

  class ProductOfferedRepository {
    var items: map<Uuid, OfferedProduct>

    /** Every row is stored under its own id. */
    ghost predicate Valid()
      reads this
    {
      forall id :: id in items ==> items[id].id == id
    }

    constructor (initial: map<Uuid, OfferedProduct>)
      requires forall id :: id in initial ==> initial[id].id == id
      ensures Valid() && items == initial
    {
      items := initial;
    }

    /**
     * `create_product_offered`: `preprocess_create` gives the batch a fresh
     * id, `is_active = True` and both timestamps (the payload carries none of
     * those keys); `CREATE_PRODUCT_OFFERED_ITEM` inserts it.
     */
    method CreateProductOffered(batch: ProductOfferedToSave, newId: Uuid, createdAt: Time, updatedAt: Time)
        returns (created: OfferedProduct)
      requires Valid() && newId !in items
      modifies this
      ensures Valid()
      ensures created == OfferedProduct(newId, batch.name, batch.code, batch.quantity, batch.productId,
                                        batch.warehouseId, true, batch.createdBy, batch.updatedBy, createdAt, updatedAt)
      ensures items == old(items)[newId := created]
    {
      created := OfferedProduct(newId, batch.name, batch.code, batch.quantity, batch.productId,
                                batch.warehouseId, true, batch.createdBy, batch.updatedBy, createdAt, updatedAt);
      items := items[newId := created];
    }

    /**
     * The write-back `update_order` performs on delivery: the stored batch,
     * read again and laid over itself by `update_product_offered`, with
     * `units` fewer in stock and `updated_by` / `updated_at` stamped. No
     * other field and no other batch changes.
     */
    method DebitStock(id: Uuid, units: int, updatedById: Uuid, now: Time)
      requires Valid() && id in items
      modifies this
      ensures Valid()
      ensures items == old(items)[id := old(items)[id].(quantity := old(items)[id].quantity - units,
                                                      updatedBy := Some(updatedById), updatedAt := now)]
    {
      var batch := items[id];
      batch := batch.(quantity := batch.quantity - units);
      batch := batch.(updatedBy := Some(updatedById), updatedAt := now);
      items := items[id := batch];
    }
  }
}

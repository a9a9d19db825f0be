/**
 * `FormulaService`: the guards a formula line passes before it is created
 * or updated. A formula line says how many units of one raw material one
 * unit of a product consumes.
 */
module FormulaServices {
  import opened Common

  /** `FormulaCreate`: the line a client asks to add. */
  datatype FormulaCreate = FormulaCreate(requiredQuantity: int, productId: Option<Uuid>, rawMaterialId: Option<Uuid>)

  /** `FormulaToSave`: the line handed to the repository. */
  datatype FormulaToSave = FormulaToSave(
    requiredQuantity: int,
    productId: Option<Uuid>,
    rawMaterialId: Option<Uuid>,
    createdBy: Option<Uuid>,
    updatedBy: Option<Uuid>)

  /** `FormulaUpdate` as the service reads it: a field left out reads as None. */
  datatype FormulaUpdate = FormulaUpdate(requiredQuantity: Option<int>, productId: Option<Uuid>, rawMaterialId: Option<Uuid>)

  /** The exceptions the service reports. */
  datatype FormulaError =
    | IdNotValid
    | ProductNotFound
    | QuantityNotPositive
    | RawMaterialNotFound
    | Uncaught

  /**
   * The guard chain of `create_formula` and the line it then persists.
   * `products` and `rawMaterials` are the stored ids. No stored formula
   * line is consulted: a second line for the same product and raw material
   * passes like the first.
   */
  function CreateFormulaPlan(f: FormulaCreate, actor: Uuid, products: set<Uuid>, rawMaterials: set<Uuid>)
      : (r: Result<FormulaToSave, FormulaError>)
    ensures !Names(products, f.productId) ==> r == Err(ProductNotFound)
    ensures Names(products, f.productId) && f.requiredQuantity <= 0 ==> r == Err(QuantityNotPositive)
    ensures Names(products, f.productId) && f.requiredQuantity > 0 && !Names(rawMaterials, f.rawMaterialId)
            ==> r == Err(RawMaterialNotFound)
    ensures r.Ok? <==> Names(products, f.productId) && f.requiredQuantity > 0 && Names(rawMaterials, f.rawMaterialId)
    ensures r.Ok? ==> r.value == FormulaToSave(f.requiredQuantity, f.productId, f.rawMaterialId,
                                               Some(actor), Some(ZeroUuid))
  {
    if !Names(products, f.productId) then Err(ProductNotFound)
    else if f.requiredQuantity <= 0 then Err(QuantityNotPositive)
    else if !Names(rawMaterials, f.rawMaterialId) then Err(RawMaterialNotFound)
    else Ok(FormulaToSave(f.requiredQuantity, f.productId, f.rawMaterialId, Some(actor), Some(ZeroUuid)))
  }

  /**
   * The guards of `update_formula`, run before the repository is called;
   * None when all pass. Here the quantity is judged before the product, and
   * a payload without a quantity fails its comparison with 0 (a TypeError
   * the service does not catch).
   */
  function UpdateFormulaCheck(id: IdArg, u: FormulaUpdate, products: set<Uuid>, rawMaterials: set<Uuid>)
      : (r: Option<FormulaError>)
    ensures !IsValidUuid(id) ==> r == Some(IdNotValid)
    ensures IsValidUuid(id) && u.requiredQuantity.None? ==> r == Some(Uncaught)
    ensures IsValidUuid(id) && u.requiredQuantity.Some? && u.requiredQuantity.value <= 0 ==> r == Some(QuantityNotPositive)
    ensures (IsValidUuid(id) && u.requiredQuantity.Some? && u.requiredQuantity.value > 0
             && !Names(products, u.productId)) ==> r == Some(ProductNotFound)
    ensures r.None? <==>
      && IsValidUuid(id) && u.requiredQuantity.Some? && u.requiredQuantity.value > 0
      && Names(products, u.productId) && Names(rawMaterials, u.rawMaterialId)
  {
    if !IsValidUuid(id) then Some(IdNotValid)
    else if u.requiredQuantity.None? then Some(Uncaught)
    else if u.requiredQuantity.value <= 0 then Some(QuantityNotPositive)
    else if !Names(products, u.productId) then Some(ProductNotFound)
    else if !Names(rawMaterials, u.rawMaterialId) then Some(RawMaterialNotFound)
    else None
  }

  /**
   * Create and update agree on which lines are acceptable: a stored line
   * that passes creation also passes the update guards, sent back unchanged
   * under a well-formed id, and the other way round.
   */
  lemma CreateAndUpdateAgree(id: Uuid, q: int, productId: Option<Uuid>, rawMaterialId: Option<Uuid>, actor: Uuid,
                             products: set<Uuid>, rawMaterials: set<Uuid>)
    ensures CreateFormulaPlan(FormulaCreate(q, productId, rawMaterialId), actor, products, rawMaterials).Ok?
        <==> UpdateFormulaCheck(Wellformed(id), FormulaUpdate(Some(q), productId, rawMaterialId), products, rawMaterials).None?
  {
  }

  /**
   * The two chains order their guards differently: a line with no positive
   * quantity and an unknown product is refused for its product on create and
   * for its quantity on update.
   */
  lemma GuardOrderDiffers(id: Uuid, q: int, productId: Option<Uuid>, rawMaterialId: Option<Uuid>, actor: Uuid,
                          products: set<Uuid>, rawMaterials: set<Uuid>)
    requires q <= 0 && !Names(products, productId)
    ensures CreateFormulaPlan(FormulaCreate(q, productId, rawMaterialId), actor, products, rawMaterials)
            == Err(ProductNotFound)
    ensures UpdateFormulaCheck(Wellformed(id), FormulaUpdate(Some(q), productId, rawMaterialId), products, rawMaterials)
            == Some(QuantityNotPositive)
  {
  }
}

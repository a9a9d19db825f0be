/**
 * `ProductOfferedService`: the production of a new batch of a product (its
 * code, its guards, its insertion and the backlog it settles) and the
 * validation of a batch update.
 */
module ProductOfferedServices {
  import opened Common
  import opened ProductOfferedRepositories
  import opened BacklogRepositories
  import opened ProductOfferedSql

  // ---------------------------------------------------------------------------
  // Batch codes

  /** The calendar reading of `datetime.now()` a code is made from; `weekday` counts from 0 = Monday. */
  datatype Today = Today(year: int, dayOfYear: int, weekday: int)

  predicate ValidToday(t: Today)
  {
    1 <= t.year <= 9999 && 1 <= t.dayOfYear <= 366 && 0 <= t.weekday <= 6
  }

  predicate IsDigit(c: char)
  {
    '0' <= c <= '9'
  }

  function DigitChar(d: int): (c: char)
    requires 0 <= d <= 9
    ensures IsDigit(c)
  {
    ('0' as int + d) as char
  }

  function DigitValue(c: char): int
  {
    c as int - '0' as int
  }

  /** `str(n).zfill(2)` for a number below 100. */
  function ZFill2(n: int): (s: string)
    requires 0 <= n < 100
  {
    [DigitChar(n / 10), DigitChar(n % 10)]
  }

  /** The week number of the code: `(day_of_year - 1) // 7 + 1`, counted from 1 January, not an ISO week. */
  function WeekOfYear(dayOfYear: int): int
  {
    (dayOfYear - 1) / 7 + 1
  }

  /** `generate_product_code`: `YY-WW-D` from the two-digit year, the week number and the weekday counted from 1. */
  function GenerateProductCode(t: Today): (code: string)
    requires ValidToday(t)
    ensures |code| == 7 && code[2] == '-' && code[5] == '-'
    ensures forall i :: 0 <= i < 7 && i != 2 && i != 5 ==> IsDigit(code[i])
  {
    ZFill2(t.year % 100) + "-" + ZFill2(WeekOfYear(t.dayOfYear)) + "-" + [DigitChar(t.weekday + 1)]
  }

  /** The three numbers a batch code spells. */
  datatype CodeFields = CodeFields(year: int, week: int, day: int)

  /** Reads a code of the form `YY-WW-D` back into its numbers. */
  function ParseProductCode(code: string): Option<CodeFields>
  {
    if |code| == 7 && code[2] == '-' && code[5] == '-'
       && forall i :: 0 <= i < 7 && i != 2 && i != 5 ==> IsDigit(code[i])
    then Some(CodeFields(10 * DigitValue(code[0]) + DigitValue(code[1]),
                         10 * DigitValue(code[3]) + DigitValue(code[4]),
                         DigitValue(code[6])))
    else None
  }

  /**
   * The code spells the year modulo 100, the week `(day_of_year - 1) // 7 + 1`
   * (between 1 and 53) and the weekday from 1 = Monday to 7 = Sunday.
   */
  lemma ProductCodeRoundTrip(t: Today)
    requires ValidToday(t)
    ensures ParseProductCode(GenerateProductCode(t))
            == Some(CodeFields(t.year % 100, WeekOfYear(t.dayOfYear), t.weekday + 1))
    ensures 1 <= WeekOfYear(t.dayOfYear) <= 53 && 1 <= t.weekday + 1 <= 7
  {
    var code := GenerateProductCode(t);
    var yy := t.year % 100;
    var ww := WeekOfYear(t.dayOfYear);
    assert code[0] == DigitChar(yy / 10) && code[1] == DigitChar(yy % 10);
    assert code[3] == DigitChar(ww / 10) && code[4] == DigitChar(ww % 10);
    assert code[6] == DigitChar(t.weekday + 1);
  }

  /** Two instants share a code exactly when they share the year modulo 100, the week and the weekday. */
  lemma SameCodeSameDay(t1: Today, t2: Today)
    requires ValidToday(t1) && ValidToday(t2)
    ensures GenerateProductCode(t1) == GenerateProductCode(t2) <==>
      t1.year % 100 == t2.year % 100 && WeekOfYear(t1.dayOfYear) == WeekOfYear(t2.dayOfYear) && t1.weekday == t2.weekday
  {
    ProductCodeRoundTrip(t1);
    ProductCodeRoundTrip(t2);
  }

  // ---------------------------------------------------------------------------
  // Creation

  /** `ProductOfferedCreate`: the batch a client asks to register; the quantity may be left out (None). */
  datatype ProductOfferedCreate = ProductOfferedCreate(
    name: string,
    quantity: Option<int>,
    productId: Option<Uuid>,
    warehouseId: Option<Uuid>)

  /** The exceptions the service reports. */
  datatype OfferedError =
    | IdNotValid
    | QuantityNotPositive
    | WarehouseNotFound
    | ProductNotFound
    | RequirementsNotMet
    | Uncaught

  /**
   * The guard chain of `create_product_offered` and the batch it then
   * saves. `warehouses` are the stored warehouse ids, `productNames` the
   * stored products' names. A payload without a quantity fails the
   * comparison with 0, a TypeError the service does not catch.
   */
  function CreatePlan(batch: ProductOfferedCreate, actor: Uuid, code: string,
                      warehouses: set<Uuid>, productNames: map<Uuid, string>)
      : (r: Result<ProductOfferedToSave, OfferedError>)
    ensures batch.quantity.None? ==> r == Err(Uncaught)
    ensures batch.quantity.Some? && batch.quantity.value <= 0 ==> r == Err(QuantityNotPositive)
    ensures batch.quantity.Some? && batch.quantity.value > 0 && !Names(warehouses, batch.warehouseId)
            ==> r == Err(WarehouseNotFound)
    ensures r.Ok? <==>
      && batch.quantity.Some? && batch.quantity.value > 0
      && Names(warehouses, batch.warehouseId) && Names(productNames.Keys, batch.productId)
    ensures r.Ok? ==> r.value == ProductOfferedToSave(productNames[batch.productId.value], batch.quantity.value,
                                                      batch.productId, batch.warehouseId, code,
                                                      Some(actor), Some(ZeroUuid))
  {
    if batch.quantity.None? then Err(Uncaught)
    else if batch.quantity.value <= 0 then Err(QuantityNotPositive)
    else if !Names(warehouses, batch.warehouseId) then Err(WarehouseNotFound)
    else if !Names(productNames.Keys, batch.productId) then Err(ProductNotFound)
    else Ok(ProductOfferedToSave(productNames[batch.productId.value], batch.quantity.value, batch.productId,
                                 batch.warehouseId, code, Some(actor), Some(ZeroUuid)))
  }

  /** The quantity is judged before either table is consulted: the answer does not depend on them. */
  lemma QuantityCheckedBeforeLookups(batch: ProductOfferedCreate, actor: Uuid, code: string,
                                     w1: set<Uuid>, p1: map<Uuid, string>, w2: set<Uuid>, p2: map<Uuid, string>)
    requires batch.quantity.None? || batch.quantity.value <= 0
    ensures CreatePlan(batch, actor, code, w1, p1) == CreatePlan(batch, actor, code, w2, p2)
    ensures CreatePlan(batch, actor, code, w1, p1)
            == Err(if batch.quantity.None? then Uncaught else QuantityNotPositive)
  {
  }

  /** The batch stored for a plan: what `CreateProductOffered` of the repository inserts. */
  function Inserted(batch: ProductOfferedToSave, newId: Uuid, createdAt: Time, updatedAt: Time): (r: OfferedProduct)
    ensures r.id == newId && r.isActive && r.createdAt == createdAt && r.updatedAt == updatedAt
    ensures r.name == batch.name && r.code == batch.code && r.quantity == batch.quantity
    ensures r.productId == batch.productId && r.warehouseId == batch.warehouseId
    ensures r.createdBy == batch.createdBy && r.updatedBy == batch.updatedBy
  {
    OfferedProduct(newId, batch.name, batch.code, batch.quantity, batch.productId, batch.warehouseId,
                   true, batch.createdBy, batch.updatedBy, createdAt, updatedAt)
  }

  /**
   * `create_product_offered` as written: the guards, the insertion, then
   * the backlog of the product settled with the new batch's quantity. The
   * requirement check is never run here: the repository only inserts, and
   * the `'false'` and falsy tests on the returned batch can never succeed.
   * `fetched` is what the backlog query returns for the product;
   * `createdAt` and `updatedAt` are the two clock readings of
   * `preprocess_create`, `settledAt` the one the backlog rows are stamped
   * with.
   */
  method CreateProductOffered(batch: ProductOfferedCreate, actor: Uuid, today: Today,
                              createdAt: Time, updatedAt: Time, settledAt: Time, newId: Uuid,
                              warehouses: set<Uuid>, productNames: map<Uuid, string>,
                              offered: ProductOfferedRepository, backlog: BacklogRepository,
                              fetched: seq<BacklogRow>)
      returns (result: Result<OfferedProduct, OfferedError>)
    requires ValidToday(today)
    requires offered.Valid() && backlog.Valid() && newId !in offered.items
    requires batch.productId.Some? ==> backlog.Fetched(batch.productId.value, fetched)
    modifies offered, backlog
    ensures offered.Valid() && backlog.Valid()
    ensures match CreatePlan(batch, actor, GenerateProductCode(today), warehouses, productNames)
      case Err(e) =>
        result == Err(e) && offered.items == old(offered.items) && backlog.rows == old(backlog.rows)
      case Ok(toSave) =>
        && result == Ok(Inserted(toSave, newId, createdAt, updatedAt))
        && offered.items == old(offered.items)[newId := Inserted(toSave, newId, createdAt, updatedAt)]
        && backlog.rows == Apply(old(backlog.rows), Fill(fetched, toSave.quantity, actor, settledAt))
  {
    var plan := CreatePlan(batch, actor, GenerateProductCode(today), warehouses, productNames);
    if plan.Err? {
      return Err(plan.error);
    }
    var created := offered.CreateProductOffered(plan.value, newId, createdAt, updatedAt);
    if created.productId.Some? && created.quantity > 0 {
      var _ := backlog.UpdateBacklogByProductId(created.productId.value, created.quantity, actor, settledAt, fetched);
    }
    result := Ok(created);
  }

  /** As written, a batch whose formula cannot be covered is still created and no raw material is spent. */
  lemma UncoveredBatchStillCreated()
    ensures var batch := ProductOfferedCreate("x", Some(1), Some(10), Some(30));
      && CreatePlan(batch, 1, "25-01-1", {30}, map[10 := "x"]).Ok?
      && CheckFormulaRequirements([FormulaLine(5, 10, 20, 3)], map[20 := 1], 10, 1) == CheckOutcome(false, map[20 := 1])
  {
    ShortLineBlocks([FormulaLine(5, 10, 20, 3)], map[20 := 1], 10, 1, 0);
  }

  /**
   * Creation with the requirement check in force: after the guards the
   * check-and-debit runs for the batch's quantity; `'false'` reports the
   * requirements as not met and nothing is written; otherwise the raw
   * materials are debited, the batch inserted and the backlog settled.
   */
  method CreateProductOfferedChecked(batch: ProductOfferedCreate, actor: Uuid, today: Today,
                                     createdAt: Time, updatedAt: Time, settledAt: Time, newId: Uuid,
                                     warehouses: set<Uuid>, productNames: map<Uuid, string>,
                                     formula: seq<FormulaLine>, raw: RawMaterialTable,
                                     offered: ProductOfferedRepository, backlog: BacklogRepository,
                                     fetched: seq<BacklogRow>)
      returns (result: Result<OfferedProduct, OfferedError>)
    requires ValidToday(today)
    requires offered.Valid() && backlog.Valid() && newId !in offered.items
    requires batch.productId.Some? ==> backlog.Fetched(batch.productId.value, fetched)
    modifies offered, backlog, raw
    ensures offered.Valid() && backlog.Valid()
    ensures match CreatePlan(batch, actor, GenerateProductCode(today), warehouses, productNames)
      case Err(e) =>
        && result == Err(e) && offered.items == old(offered.items) && backlog.rows == old(backlog.rows)
        && raw.available == old(raw.available)
      case Ok(toSave) =>
        var check := CheckFormulaRequirements(formula, old(raw.available), toSave.productId.value, toSave.quantity);
        if !check.ok then
          && result == Err(RequirementsNotMet) && offered.items == old(offered.items)
          && backlog.rows == old(backlog.rows) && raw.available == old(raw.available)
        else
          && result == Ok(Inserted(toSave, newId, createdAt, updatedAt))
          && raw.available == check.stock
          && offered.items == old(offered.items)[newId := Inserted(toSave, newId, createdAt, updatedAt)]
          && backlog.rows == Apply(old(backlog.rows), Fill(fetched, toSave.quantity, actor, settledAt))
  {
    var plan := CreatePlan(batch, actor, GenerateProductCode(today), warehouses, productNames);
    if plan.Err? {
      return Err(plan.error);
    }
    var ok := raw.CheckFormulaRequirementsStatement(formula, plan.value.productId.value, plan.value.quantity);
    if !ok {
      return Err(RequirementsNotMet);
    }
    var created := offered.CreateProductOffered(plan.value, newId, createdAt, updatedAt);
    if created.productId.Some? && created.quantity > 0 {
      var _ := backlog.UpdateBacklogByProductId(created.productId.value, created.quantity, actor, settledAt, fetched);
    }
    result := Ok(created);
  }

  // ---------------------------------------------------------------------------
  // Update validation

  /** `ProductOfferedUpdate` as the service reads it: a field left out reads as None. */
  datatype ProductOfferedUpdate = ProductOfferedUpdate(
    name: Option<string>,
    quantity: Option<int>,
    productId: Option<Uuid>,
    warehouseId: Option<Uuid>,
    isActive: Option<bool>)

  /**
   * The guards of `update_product_offered`, run before any write, and the
   * payload it then hands to the repository, renamed after the product. A
   * payload without a quantity fails the comparison with 0 (a TypeError the
   * service does not catch).
   */
  function UpdateCheck(id: IdArg, update: ProductOfferedUpdate, warehouses: set<Uuid>, productNames: map<Uuid, string>)
      : (r: Result<ProductOfferedUpdate, OfferedError>)
    ensures !IsValidUuid(id) ==> r == Err(IdNotValid)
    ensures IsValidUuid(id) && update.quantity.None? ==> r == Err(Uncaught)
    ensures IsValidUuid(id) && update.quantity.Some? && update.quantity.value <= 0 ==> r == Err(QuantityNotPositive)
    ensures (IsValidUuid(id) && update.quantity.Some? && update.quantity.value > 0
             && !Names(warehouses, update.warehouseId)) ==> r == Err(WarehouseNotFound)
    ensures r.Ok? <==> IsValidUuid(id) && update.quantity.Some? && update.quantity.value > 0
                       && Names(warehouses, update.warehouseId) && Names(productNames.Keys, update.productId)
    ensures r.Ok? ==> r.value == update.(name := Some(productNames[update.productId.value]))
  {
    if !IsValidUuid(id) then Err(IdNotValid)
    else if update.quantity.None? then Err(Uncaught)
    else if update.quantity.value <= 0 then Err(QuantityNotPositive)
    else if !Names(warehouses, update.warehouseId) then Err(WarehouseNotFound)
    else if !Names(productNames.Keys, update.productId) then Err(ProductNotFound)
    else Ok(update.(name := Some(productNames[update.productId.value])))
  }
}

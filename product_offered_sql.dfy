/**
 * `CHECK_FORMULA_REQUIREMENTS`: the all-or-nothing check-and-debit of raw
 * materials for producing `quantity` units of a product. One statement, so
 * every part of it reads the raw-material quantities as they were before
 * the statement.
 */
module ProductOfferedSql {
  import opened Common

  /** A row of the `formula` table: one raw material needed per unit of a product. */
  datatype FormulaLine = FormulaLine(id: Uuid, productId: Uuid, rawMaterialId: Uuid, requiredQuantity: int)

  /** A row of the `formula_requirements` part: one formula line joined with its raw material. */
  datatype Requirement = Requirement(rawMaterialId: Uuid, totalRequired: int, available: int)

  /** The outcome of the statement: the `'true'`/`'false'` answer and the raw-material quantities afterwards. */
  datatype CheckOutcome = CheckOutcome(ok: bool, stock: map<Uuid, int>)

  /** The i-th formula line belongs to the product and its raw material exists (the inner join keeps it). */
  predicate LineOf(formula: seq<FormulaLine>, i: int, productId: Uuid, stock: map<Uuid, int>)
  {
    0 <= i < |formula| && formula[i].productId == productId && formula[i].rawMaterialId in stock
  }

  /** `formula_requirements`: the product's lines joined with the raw materials, in table order. */
  function Requirements(formula: seq<FormulaLine>, stock: map<Uuid, int>, productId: Uuid, quantity: int)
    : (r: seq<Requirement>)
    ensures |r| <= |formula|
    ensures forall j :: 0 <= j < |r| ==> r[j].rawMaterialId in stock && r[j].available == stock[r[j].rawMaterialId]
  {
    if formula == [] then []
    else
      var rest := Requirements(formula[1..], stock, productId, quantity);
      if formula[0].productId == productId && formula[0].rawMaterialId in stock
      then [Requirement(formula[0].rawMaterialId, formula[0].requiredQuantity * quantity, stock[formula[0].rawMaterialId])] + rest
      else rest
  }

  /** `quantity_missing`. */
  function Missing(r: Requirement): int
  {
    r.totalRequired - r.available
  }

  /** `requirements_not_met` is not empty. */
  predicate AnyShort(reqs: seq<Requirement>): (b: bool)
    ensures b ==> reqs != []
  {
    exists j :: 0 <= j < |reqs| && Missing(reqs[j]) > 0
  }

  /**
   * The `update_requirements` row the `UPDATE ... FROM` joins with raw
   * material `raw`. Where several lines name the same raw material the
   * database picks one of them; the model picks the first.
   */
  function FirstFor(reqs: seq<Requirement>, raw: Uuid): (r: Option<Requirement>)
    ensures r.Some? ==> r.value.rawMaterialId == raw && exists j :: 0 <= j < |reqs| && reqs[j] == r.value
    ensures r.None? <==> forall j :: 0 <= j < |reqs| ==> reqs[j].rawMaterialId != raw
  {
    if reqs == [] then None
    else if reqs[0].rawMaterialId == raw then Some(reqs[0])
    else
      var r := FirstFor(reqs[1..], raw);
      assert forall j :: 1 <= j < |reqs| ==> reqs[j] == reqs[1..][j - 1];
      r
  }

  /** Every raw material joined with a requirement is set to `available_quantity - total_required_quantity`. */
  function Debit(stock: map<Uuid, int>, reqs: seq<Requirement>): (r: map<Uuid, int>)
    ensures r.Keys == stock.Keys
    ensures forall k :: k in stock && (forall j :: 0 <= j < |reqs| ==> reqs[j].rawMaterialId != k) ==> r[k] == stock[k]
  {
    map k | k in stock :: match FirstFor(reqs, k)
                          case None => stock[k]
                          case Some(r) => r.available - r.totalRequired
  }

  /**
   * The whole statement: `'false'` with nothing changed when a requirement
   * is short; otherwise every joined raw material is debited and the answer
   * is `'true'` exactly when some raw material was updated.
   */
  function CheckFormulaRequirements(formula: seq<FormulaLine>, stock: map<Uuid, int>, productId: Uuid, quantity: int)
    : (r: CheckOutcome)
    ensures r.stock.Keys == stock.Keys
  {
    var reqs := Requirements(formula, stock, productId, quantity);
    if AnyShort(reqs) then CheckOutcome(false, stock)
    else CheckOutcome(reqs != [], Debit(stock, reqs))
  }

  // ---------------------------------------------------------------------------
  // Properties, stated over formula lines

  /** `r` is the row the join makes of `line`: `required_quantity × quantity` against the stored quantity. */
  predicate Joins(r: Requirement, line: FormulaLine, stock: map<Uuid, int>, quantity: int)
  {
    line.rawMaterialId in stock
    && r == Requirement(line.rawMaterialId, line.requiredQuantity * quantity, stock[line.rawMaterialId])
  }

  /** `r` is the joined row of some line of the product. */
  ghost predicate JoinedFrom(r: Requirement, formula: seq<FormulaLine>, stock: map<Uuid, int>, productId: Uuid, quantity: int)
  {
    exists i :: LineOf(formula, i, productId, stock) && Joins(r, formula[i], stock, quantity)
  }

  /** Some joined row is the one `line` makes. */
  ghost predicate JoinedInto(line: FormulaLine, reqs: seq<Requirement>, stock: map<Uuid, int>, quantity: int)
  {
    exists j :: 0 <= j < |reqs| && Joins(reqs[j], line, stock, quantity)
  }

  /** Every joined row comes from a line of the product whose raw material exists. */
  ghost predicate FromLines(reqs: seq<Requirement>, formula: seq<FormulaLine>, stock: map<Uuid, int>, productId: Uuid, quantity: int)
  {
    forall j :: 0 <= j < |reqs| ==> JoinedFrom(reqs[j], formula, stock, productId, quantity)
  }

  /** Every line of the product whose raw material exists gives a joined row. */
  ghost predicate CoversLines(reqs: seq<Requirement>, formula: seq<FormulaLine>, stock: map<Uuid, int>, productId: Uuid, quantity: int)
  {
    forall i :: LineOf(formula, i, productId, stock) ==> JoinedInto(formula[i], reqs, stock, quantity)
  }

  /**
   * Every joined row is the product's line whose raw material exists, with
   * `required_quantity × quantity` against the quantity stored before the
   * statement.
   */
  lemma {:induction false} RequirementsFromLines(formula: seq<FormulaLine>, stock: map<Uuid, int>, productId: Uuid, quantity: int)
    ensures FromLines(Requirements(formula, stock, productId, quantity), formula, stock, productId, quantity)
  {
    if formula != [] {
      var rest := formula[1..];
      RequirementsFromLines(rest, stock, productId, quantity);
      var reqs := Requirements(formula, stock, productId, quantity);
      var rreqs := Requirements(rest, stock, productId, quantity);
      var head := formula[0].productId == productId && formula[0].rawMaterialId in stock;
      var k := if head then 1 else 0;
      assert reqs == (if head then [reqs[0]] else []) + rreqs;
      forall j | 0 <= j < |reqs|
        ensures JoinedFrom(reqs[j], formula, stock, productId, quantity)
      {
        if head && j == 0 {
          assert LineOf(formula, 0, productId, stock) && Joins(reqs[0], formula[0], stock, quantity);
        } else {
          var r := rreqs[j - k];
          assert reqs[j] == r;
          assert JoinedFrom(r, rest, stock, productId, quantity);
          var i :| LineOf(rest, i, productId, stock) && Joins(r, rest[i], stock, quantity);
          assert rest[i] == formula[i + 1];
          assert LineOf(formula, i + 1, productId, stock);
        }
      }
    }
  }

  /** Every line of the product whose raw material exists is joined. */
  lemma {:induction false} RequirementsCoverLines(formula: seq<FormulaLine>, stock: map<Uuid, int>, productId: Uuid, quantity: int)
    ensures CoversLines(Requirements(formula, stock, productId, quantity), formula, stock, productId, quantity)
  {
    if formula != [] {
      var rest := formula[1..];
      RequirementsCoverLines(rest, stock, productId, quantity);
      var reqs := Requirements(formula, stock, productId, quantity);
      var rreqs := Requirements(rest, stock, productId, quantity);
      var head := formula[0].productId == productId && formula[0].rawMaterialId in stock;
      var k := if head then 1 else 0;
      assert reqs == (if head then [reqs[0]] else []) + rreqs;
      forall i | LineOf(formula, i, productId, stock)
        ensures JoinedInto(formula[i], reqs, stock, quantity)
      {
        if i == 0 {
          assert Joins(reqs[0], formula[0], stock, quantity);
        } else {
          var line := rest[i - 1];
          assert line == formula[i];
          assert LineOf(rest, i - 1, productId, stock);
          assert JoinedInto(line, rreqs, stock, quantity);
          var j :| 0 <= j < |rreqs| && Joins(rreqs[j], line, stock, quantity);
          assert reqs[j + k] == rreqs[j];
        }
      }
    }
  }

  /** The line a joined row comes from. */
  lemma SourceLine(formula: seq<FormulaLine>, stock: map<Uuid, int>, productId: Uuid, quantity: int, j: int)
      returns (i: int)
    requires 0 <= j < |Requirements(formula, stock, productId, quantity)|
    ensures LineOf(formula, i, productId, stock)
    ensures Joins(Requirements(formula, stock, productId, quantity)[j], formula[i], stock, quantity)
  {
    RequirementsFromLines(formula, stock, productId, quantity);
    var reqs := Requirements(formula, stock, productId, quantity);
    var r := reqs[j];
    assert JoinedFrom(r, formula, stock, productId, quantity);
    i :| LineOf(formula, i, productId, stock) && Joins(r, formula[i], stock, quantity);
  }

  /** The joined row a line of the product gives. */
  lemma JoinedRow(formula: seq<FormulaLine>, stock: map<Uuid, int>, productId: Uuid, quantity: int, i: int)
      returns (j: int)
    requires LineOf(formula, i, productId, stock)
    ensures 0 <= j < |Requirements(formula, stock, productId, quantity)|
    ensures Joins(Requirements(formula, stock, productId, quantity)[j], formula[i], stock, quantity)
  {
    RequirementsCoverLines(formula, stock, productId, quantity);
    var reqs := Requirements(formula, stock, productId, quantity);
    var line := formula[i];
    assert JoinedInto(line, reqs, stock, quantity);
    j :| 0 <= j < |reqs| && Joins(reqs[j], line, stock, quantity);
  }

  /** One line asking for more than its raw material holds blocks everything: `'false'`, nothing debited. */
  lemma ShortLineBlocks(formula: seq<FormulaLine>, stock: map<Uuid, int>, productId: Uuid, quantity: int, i: int)
    requires LineOf(formula, i, productId, stock)
    requires formula[i].requiredQuantity * quantity > stock[formula[i].rawMaterialId]
    ensures CheckFormulaRequirements(formula, stock, productId, quantity) == CheckOutcome(false, stock)
  {
    var j := JoinedRow(formula, stock, productId, quantity, i);
    assert Missing(Requirements(formula, stock, productId, quantity)[j]) > 0;
  }

  /** With every line of the product covered on its own, no joined row is short. */
  lemma CoveredNotShort(formula: seq<FormulaLine>, stock: map<Uuid, int>, productId: Uuid, quantity: int)
    requires forall i :: LineOf(formula, i, productId, stock) ==>
      formula[i].requiredQuantity * quantity <= stock[formula[i].rawMaterialId]
    ensures !AnyShort(Requirements(formula, stock, productId, quantity))
  {
    var reqs := Requirements(formula, stock, productId, quantity);
    forall j | 0 <= j < |reqs| ensures Missing(reqs[j]) <= 0 {
      var i := SourceLine(formula, stock, productId, quantity, j);
    }
  }

  /** When every line of the product is covered on its own, the answer is `'true'` exactly when the product has a line. */
  lemma CoveredAnswer(formula: seq<FormulaLine>, stock: map<Uuid, int>, productId: Uuid, quantity: int)
    requires forall i :: LineOf(formula, i, productId, stock) ==>
      formula[i].requiredQuantity * quantity <= stock[formula[i].rawMaterialId]
    ensures CheckFormulaRequirements(formula, stock, productId, quantity).ok
            <==> exists i :: LineOf(formula, i, productId, stock)
  {
    CoveredNotShort(formula, stock, productId, quantity);
    var reqs := Requirements(formula, stock, productId, quantity);
    if exists i :: LineOf(formula, i, productId, stock) {
      var i :| LineOf(formula, i, productId, stock);
      var j := JoinedRow(formula, stock, productId, quantity, i);
    }
    if reqs != [] {
      var i := SourceLine(formula, stock, productId, quantity, 0);
    }
  }

  /**
   * When every line of the product is covered on its own, the raw material
   * of any of its lines is debited by the requirement of one line naming it
   * (the one the update joins) and stays non-negative.
   */
  lemma CoveredDebit(formula: seq<FormulaLine>, stock: map<Uuid, int>, productId: Uuid, quantity: int, i: int)
      returns (used: int)
    requires forall i :: LineOf(formula, i, productId, stock) ==>
      formula[i].requiredQuantity * quantity <= stock[formula[i].rawMaterialId]
    requires LineOf(formula, i, productId, stock)
    ensures LineOf(formula, used, productId, stock) && formula[used].rawMaterialId == formula[i].rawMaterialId
    ensures CheckFormulaRequirements(formula, stock, productId, quantity).stock[formula[i].rawMaterialId]
            == stock[formula[i].rawMaterialId] - formula[used].requiredQuantity * quantity
    ensures CheckFormulaRequirements(formula, stock, productId, quantity).stock[formula[i].rawMaterialId] >= 0
  {
    CoveredNotShort(formula, stock, productId, quantity);
    var reqs := Requirements(formula, stock, productId, quantity);
    var k := formula[i].rawMaterialId;
    var j0 := JoinedRow(formula, stock, productId, quantity, i);
    assert reqs[j0].rawMaterialId == k;
    var first := FirstFor(reqs, k);
    var j :| 0 <= j < |reqs| && reqs[j] == first.value;
    used := SourceLine(formula, stock, productId, quantity, j);
    assert Missing(reqs[j]) <= 0;
  }

  /** When the product's lines name each raw material at most once, a covered production debits every one by exactly its line's requirement. */
  lemma CoveredDebitExact(formula: seq<FormulaLine>, stock: map<Uuid, int>, productId: Uuid, quantity: int, i: int)
    requires forall i :: LineOf(formula, i, productId, stock) ==>
      formula[i].requiredQuantity * quantity <= stock[formula[i].rawMaterialId]
    requires forall i, i' :: LineOf(formula, i, productId, stock) && LineOf(formula, i', productId, stock) && i != i' ==>
      formula[i].rawMaterialId != formula[i'].rawMaterialId
    requires LineOf(formula, i, productId, stock)
    ensures CheckFormulaRequirements(formula, stock, productId, quantity).stock[formula[i].rawMaterialId]
            == stock[formula[i].rawMaterialId] - formula[i].requiredQuantity * quantity
  {
    var used := CoveredDebit(formula, stock, productId, quantity, i);
  }

  /** Raw materials none of the product's lines name are never touched, whatever the answer. */
  lemma UnreferencedUntouched(formula: seq<FormulaLine>, stock: map<Uuid, int>, productId: Uuid, quantity: int, k: Uuid)
    requires k in stock
    requires forall i :: LineOf(formula, i, productId, stock) ==> formula[i].rawMaterialId != k
    ensures CheckFormulaRequirements(formula, stock, productId, quantity).stock[k] == stock[k]
  {
    var reqs := Requirements(formula, stock, productId, quantity);
    forall j | 0 <= j < |reqs| ensures reqs[j].rawMaterialId != k {
      var i := SourceLine(formula, stock, productId, quantity, j);
    }
  }

  /** A product without formula lines (or whose raw materials are all gone) falls to the `ELSE 'false'` and changes nothing. */
  lemma EmptyFormulaIsFalse(formula: seq<FormulaLine>, stock: map<Uuid, int>, productId: Uuid, quantity: int)
    requires forall i :: !LineOf(formula, i, productId, stock)
    ensures CheckFormulaRequirements(formula, stock, productId, quantity) == CheckOutcome(false, stock)
  {
    var reqs := Requirements(formula, stock, productId, quantity);
    if reqs != [] {
      var i := SourceLine(formula, stock, productId, quantity, 0);
      assert false;
    }
    assert Debit(stock, []) == stock;
  }

  /**
   * Lines are tested one at a time, not summed per raw material: two lines
   * each needing 3 units of a raw material that holds 5 pass, and the raw
   * material ends at 2, not at -1.
   */
  lemma LinesAreNotSummed()
    ensures var formula := [FormulaLine(1, 10, 20, 3), FormulaLine(2, 10, 20, 3)];
      CheckFormulaRequirements(formula, map[20 := 5], 10, 1) == CheckOutcome(true, map[20 := 2])
  {
    var formula := [FormulaLine(1, 10, 20, 3), FormulaLine(2, 10, 20, 3)];
    var stock: map<Uuid, int> := map[20 := 5];
    var reqs := Requirements(formula, stock, 10, 1);
    assert formula[1..][1..] == [];
    assert reqs == [Requirement(20, 3, 5), Requirement(20, 3, 5)];
    assert !AnyShort(reqs);
    assert Debit(stock, reqs) == map[20 := 2];
  }

  /** A `'false'` answer never changes a raw material: with nothing short, no joined row means nothing debited. */
  lemma FalseChangesNothing(formula: seq<FormulaLine>, stock: map<Uuid, int>, productId: Uuid, quantity: int)
    ensures !CheckFormulaRequirements(formula, stock, productId, quantity).ok ==>
              CheckFormulaRequirements(formula, stock, productId, quantity).stock == stock
  {
    var reqs := Requirements(formula, stock, productId, quantity);
    if !AnyShort(reqs) && reqs == [] {
      assert Debit(stock, reqs) == stock;
    }
  }

  /** The `rawmaterial` table's `available_quantity` column, which the statement updates. */
  class RawMaterialTable {
    var available: map<Uuid, int>

    constructor (initial: map<Uuid, int>)
      ensures available == initial
    {
      available := initial;
    }

    /** Executes `CHECK_FORMULA_REQUIREMENTS` for `quantity` units of `productId` and reads its answer. */
    method CheckFormulaRequirementsStatement(formula: seq<FormulaLine>, productId: Uuid, quantity: int)
        returns (ok: bool)
      modifies this
      ensures CheckOutcome(ok, available) == CheckFormulaRequirements(formula, old(available), productId, quantity)
      ensures !ok ==> available == old(available)
    {
      FalseChangesNothing(formula, available, productId, quantity);
      var outcome := CheckFormulaRequirements(formula, available, productId, quantity);
      available := outcome.stock;
      ok := outcome.ok;
    }
  }
}

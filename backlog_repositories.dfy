/**
 * The backlog ledger: rows of unmet demand per product, recorded when an
 * order asks for more than is in stock, and shrunk greedily, row by row,
 * when a new batch of that product is produced.
 */
module BacklogRepositories {
  import opened Common
  import Records

  /** A row of the `backlog` table. */
  datatype BacklogRow = BacklogRow(
    id: Uuid,
    productId: Uuid,
    requiredQuantity: int,
    isActive: bool,
    createdBy: Option<Uuid>,
    createdAt: Time,
    updatedBy: Option<Uuid>,
    updatedAt: Time)

  /** `BacklogToSave`: what a caller hands to `create_backlog`. */
  datatype BacklogToSave = BacklogToSave(
    productId: Uuid,
    requiredQuantity: int,
    createdBy: Option<Uuid>,
    updatedBy: Option<Uuid>)

  /** `BacklogToSave.dict()`: only the keys the schema declares, none of the audit defaults. */
  function ToSaveEntries(b: BacklogToSave): Records.Entries
  {
    map[
      "product_id" := Records.UuidValue(b.productId),
      "required_quantity" := Records.IntValue(b.requiredQuantity),
      "created_by" := if b.createdBy.Some? then Records.UuidValue(b.createdBy.value) else Records.NoneValue,
      "updated_by" := if b.updatedBy.Some? then Records.UuidValue(b.updatedBy.value) else Records.NoneValue]
  }

  /** Every audit default of `preprocess_create` applies to a new backlog row: none of those keys is in the payload. */
  lemma ToSaveTakesAllDefaults(b: BacklogToSave, newId: Uuid, createdAt: Time, updatedAt: Time)
    ensures var r := Records.CreateDefaults(ToSaveEntries(b), newId, createdAt, updatedAt);
      && r[Records.IdKey] == Records.UuidValue(newId)
      && r[Records.IsActiveKey] == Records.BoolValue(true)
      && r[Records.CreatedAtKey] == Records.TimeValue(createdAt)
      && r[Records.UpdatedAtKey] == Records.TimeValue(updatedAt)
  {
  }

  // ---------------------------------------------------------------------------
  // The greedy allocation, as functions of the fetched rows

  /**
   * One row absorbing stock (the loop body run while units remain): a row
   * asking for more than remains is reduced by what remains and stays
   * active; otherwise it is cleared and deactivated. The second component is
   * the stock left for the following rows.
   */
  function Absorb(row: BacklogRow, remaining: int, actor: Uuid, now: Time): (r: (BacklogRow, int))
    ensures r.0.requiredQuantity + (remaining - r.1) == row.requiredQuantity
    ensures r.0.isActive == (row.isActive && row.requiredQuantity > remaining)
    ensures remaining >= 0 && row.requiredQuantity >= 0 ==> 0 <= r.1 <= remaining && r.0.requiredQuantity >= 0
    ensures r.0.id == row.id && r.0.productId == row.productId
    ensures r.0.createdBy == row.createdBy && r.0.createdAt == row.createdAt
    ensures r.0.updatedBy == Some(actor) && r.0.updatedAt == now
  {
    if row.requiredQuantity > remaining then
      (row.(requiredQuantity := row.requiredQuantity - remaining, updatedBy := Some(actor), updatedAt := now), 0)
    else
      (row.(requiredQuantity := 0, isActive := false, updatedBy := Some(actor), updatedAt := now),
       remaining - row.requiredQuantity)
  }

  /** The rows written, in processing order, when `quantity` units meet `rows`. */
  function Fill(rows: seq<BacklogRow>, quantity: int, actor: Uuid, now: Time): (r: seq<BacklogRow>)
    ensures |r| <= |rows|
  {
    if rows == [] || quantity <= 0 then []
    else
      var step := Absorb(rows[0], quantity, actor, now);
      [step.0] + Fill(rows[1..], step.1, actor, now)
  }

  /** The stock still unallocated after `rows` were processed. */
  function Leftover(rows: seq<BacklogRow>, quantity: int): int
  {
    if rows == [] || quantity <= 0 then quantity
    else Leftover(rows[1..], Absorb(rows[0], quantity, 0, 0).1)
  }

  /** The fetched rows as they stand once the call is over: the written prefix, then the untouched rest. */
  function Settled(rows: seq<BacklogRow>, quantity: int, actor: Uuid, now: Time): (r: seq<BacklogRow>)
    ensures |r| == |rows|
    ensures r[|Fill(rows, quantity, actor, now)|..] == rows[|Fill(rows, quantity, actor, now)|..]
  {
    var f := Fill(rows, quantity, actor, now);
    f + rows[|f|..]
  }

  function Total(rows: seq<BacklogRow>): int
  {
    if rows == [] then 0 else rows[0].requiredQuantity + Total(rows[1..])
  }

  predicate AllNonNegative(rows: seq<BacklogRow>)
  {
    forall i :: 0 <= i < |rows| ==> rows[i].requiredQuantity >= 0
  }

  function Min(a: int, b: int): int { if a <= b then a else b }

  // ---------------------------------------------------------------------------
  // Properties of the allocation

  lemma {:induction false} TotalNonNegative(rows: seq<BacklogRow>)
    requires AllNonNegative(rows)
    ensures Total(rows) >= 0
  {
    if rows != [] {
      assert AllNonNegative(rows[1..]) by {
        forall i | 0 <= i < |rows[1..]| ensures rows[1..][i].requiredQuantity >= 0 {
          assert rows[1..][i] == rows[i + 1];
        }
      }
      TotalNonNegative(rows[1..]);
    }
  }

  lemma {:induction false} TotalAppend(a: seq<BacklogRow>, b: seq<BacklogRow>)
    ensures Total(a + b) == Total(a) + Total(b)
  {
    if a == [] {
      assert a + b == b;
    } else {
      assert (a + b)[1..] == a[1..] + b;
      TotalAppend(a[1..], b);
    }
  }

  /**
   * The i-th row is written exactly when units remain before it, and is then
   * the row after absorbing those units: rows are served strictly in the
   * fetched order, every written row keeps its id, product and creation
   * audit, and no row after the stock runs out is written.
   */
  lemma {:induction false} FillAt(rows: seq<BacklogRow>, quantity: int, actor: Uuid, now: Time, i: nat)
    requires i < |rows|
    ensures |Fill(rows, quantity, actor, now)| <= |rows|
    ensures i < |Fill(rows, quantity, actor, now)| <==> Leftover(rows[..i], quantity) > 0
    ensures i < |Fill(rows, quantity, actor, now)| ==>
      Fill(rows, quantity, actor, now)[i] == Absorb(rows[i], Leftover(rows[..i], quantity), actor, now).0
  {
    if quantity <= 0 {
      LeftoverStuck(rows[..i], quantity);
    } else {
      var step := Absorb(rows[0], quantity, actor, now);
      assert step.1 == Absorb(rows[0], quantity, 0, 0).1;
      if i == 0 {
        assert rows[..0] == [];
      } else {
        assert rows[..i][0] == rows[0];
        assert rows[..i][1..] == rows[1..][..i - 1];
        assert rows[1..][i - 1] == rows[i];
        FillAt(rows[1..], step.1, actor, now, i - 1);
      }
    }
  }

  /** Once the stock is used up nothing moves it again. */
  lemma {:induction false} LeftoverStuck(rows: seq<BacklogRow>, quantity: int)
    requires quantity <= 0
    ensures Leftover(rows, quantity) == quantity
  {
  }

  /** With non-negative demand and stock, every written row keeps a non-negative demand. */
  lemma {:induction false} FillNonNegative(rows: seq<BacklogRow>, quantity: int, actor: Uuid, now: Time)
    requires AllNonNegative(rows)
    ensures AllNonNegative(Fill(rows, quantity, actor, now))
  {
    if rows != [] && quantity > 0 {
      var step := Absorb(rows[0], quantity, actor, now);
      var rest := rows[1..];
      assert AllNonNegative(rest) by {
        forall i | 0 <= i < |rest| ensures rest[i].requiredQuantity >= 0 {
          assert rest[i] == rows[i + 1];
        }
      }
      FillNonNegative(rest, step.1, actor, now);
      var f1 := Fill(rest, step.1, actor, now);
      var f := Fill(rows, quantity, actor, now);
      assert f == [step.0] + f1;
      forall i | 0 <= i < |f| ensures f[i].requiredQuantity >= 0 {
        if i > 0 { assert f[i] == f1[i - 1]; }
      }
    }
  }

  /**
   * With non-negative demand and stock, the fetched rows' total demand drops
   * by exactly min(quantity, original total) — each unit of new stock
   * cancels one unit of demand until either runs out — and what is left of
   * the stock is the rest, never negative.
   */
  lemma {:induction false} FillSettles(rows: seq<BacklogRow>, quantity: int, actor: Uuid, now: Time)
    requires quantity >= 0 && AllNonNegative(rows)
    ensures Total(rows) - Total(Settled(rows, quantity, actor, now)) == Min(quantity, Total(rows))
    ensures Leftover(rows, quantity) == quantity - Min(quantity, Total(rows))
  {
    TotalNonNegative(rows);
    if rows == [] || quantity == 0 {
      assert Settled(rows, quantity, actor, now) == rows;
    } else {
      var step := Absorb(rows[0], quantity, actor, now);
      assert step.1 == Absorb(rows[0], quantity, 0, 0).1;
      var rest := rows[1..];
      assert AllNonNegative(rest) by {
        forall i | 0 <= i < |rest| ensures rest[i].requiredQuantity >= 0 {
          assert rest[i] == rows[i + 1];
        }
      }
      TotalNonNegative(rest);
      FillSettles(rest, step.1, actor, now);
      SettledStep(rows, quantity, actor, now);
      assert Total(Settled(rows, quantity, actor, now)) == step.0.requiredQuantity + Total(Settled(rest, step.1, actor, now));
    }
  }

  lemma SettledStep(rows: seq<BacklogRow>, quantity: int, actor: Uuid, now: Time)
    requires rows != [] && quantity > 0
    ensures Settled(rows, quantity, actor, now) ==
      [Absorb(rows[0], quantity, actor, now).0] + Settled(rows[1..], Absorb(rows[0], quantity, actor, now).1, actor, now)
  {
    var step := Absorb(rows[0], quantity, actor, now);
    var rest := rows[1..];
    var f1 := Fill(rest, step.1, actor, now);
    var f := Fill(rows, quantity, actor, now);
    assert f == [step.0] + f1;
    var tail := rest[|f1|..];
    assert rows[|f|..] == tail;
    assert Settled(rest, step.1, actor, now) == f1 + tail;
    assert Settled(rows, quantity, actor, now) == f + tail;
    assert f + tail == [step.0] + (f1 + tail);
  }

  /**
   * Earliest demand first: when the new stock `s` is smaller than the first
   * row's demand, the first row shrinks by `s` and stays active, and no later
   * row is written.
   */
  lemma FirstRowServedFirst(rows: seq<BacklogRow>, s: int, actor: Uuid, now: Time)
    requires |rows| >= 1 && 0 < s < rows[0].requiredQuantity
    ensures Fill(rows, s, actor, now) ==
      [rows[0].(requiredQuantity := rows[0].requiredQuantity - s, updatedBy := Some(actor), updatedAt := now)]
    ensures Settled(rows, s, actor, now)[1..] == rows[1..]
  {
    assert Fill(rows[1..], 0, actor, now) == [];
  }

  // ---------------------------------------------------------------------------
  // The table

  /** The table after each written row replaced the stored row with its id, in order. */
  function Apply(table: map<Uuid, BacklogRow>, written: seq<BacklogRow>): map<Uuid, BacklogRow>
  {
    if written == [] then table
    else
      var last := written[|written| - 1];
      Apply(table, written[..|written| - 1])[last.id := last]
  }

  /** Writing one more row is a map update of the table so far. */
  lemma ApplySnoc(table: map<Uuid, BacklogRow>, written: seq<BacklogRow>, w: BacklogRow)
    ensures Apply(table, written + [w]) == Apply(table, written)[w.id := w]
  {
    assert (written + [w])[..|written|] == written;
  }

  /** One turn of the loop: the row at the front is written iff stock remains. */
  lemma FillStep(rows: seq<BacklogRow>, remaining: int, actor: Uuid, now: Time)
    requires rows != []
    ensures remaining > 0 ==>
      (Fill(rows, remaining, actor, now)
       == [Absorb(rows[0], remaining, actor, now).0] + Fill(rows[1..], Absorb(rows[0], remaining, actor, now).1, actor, now))
    ensures remaining <= 0 ==> Fill(rows, remaining, actor, now) == [] == Fill(rows[1..], remaining, actor, now)
  {
  }

  /** One turn of the loop in terms of the rows written so far: the invariant of the loop carries over to `i + 1`. */
  lemma FillAdvance(fetched: seq<BacklogRow>, i: int, remaining: int, written: seq<BacklogRow>,
                    total: seq<BacklogRow>, actor: Uuid, now: Time)
    requires 0 <= i < |fetched| && written + Fill(fetched[i..], remaining, actor, now) == total
    ensures remaining > 0 ==>
      var step := Absorb(fetched[i], remaining, actor, now);
      (written + [step.0]) + Fill(fetched[i + 1..], step.1, actor, now) == total
    ensures remaining <= 0 ==> written + Fill(fetched[i + 1..], remaining, actor, now) == total
  {
    assert fetched[i..][0] == fetched[i] && fetched[i..][1..] == fetched[i + 1..];
    FillStep(fetched[i..], remaining, actor, now);
    if remaining > 0 {
      var step := Absorb(fetched[i], remaining, actor, now);
      assert written + ([step.0] + Fill(fetched[i + 1..], step.1, actor, now))
          == (written + [step.0]) + Fill(fetched[i + 1..], step.1, actor, now);
    }
  }

  /** The fetched rows from index `i` on are stored as fetched. */
  ghost predicate StoredFrom(rows: map<Uuid, BacklogRow>, fetched: seq<BacklogRow>, i: int)
  {
    forall j :: 0 <= i <= j < |fetched| ==> fetched[j].id in rows && rows[fetched[j].id] == fetched[j]
  }

  /** Writing the row at `i` leaves the later fetched rows, whose ids differ, as they are stored. */
  lemma StoreKeepsLater(rows: map<Uuid, BacklogRow>, fetched: seq<BacklogRow>, i: int, w: BacklogRow)
    requires 0 <= i < |fetched| && StoredFrom(rows, fetched, i) && w.id == fetched[i].id
    requires forall j, k :: 0 <= j < k < |fetched| ==> fetched[j].id != fetched[k].id
    ensures StoredFrom(rows[w.id := w], fetched, i + 1)
  {
  }

  /** The body of the loop for one row while stock remains, as the repository runs it. */
  method AbsorbRow(row: BacklogRow, remaining: int, actor: Uuid, now: Time) returns (written: BacklogRow, left: int)
    ensures (written, left) == Absorb(row, remaining, actor, now)
  {
    written, left := row, remaining;
    if written.requiredQuantity > left {
      written := written.(requiredQuantity := written.requiredQuantity - left);
      left := 0;
    } else {
      left := left - written.requiredQuantity;
      written := written.(requiredQuantity := 0, isActive := false);
    }
    written := written.(updatedBy := Some(actor), updatedAt := now);
  }

  class BacklogRepository {
    var rows: map<Uuid, BacklogRow>

    /** Every row is stored under its own id. */
    ghost predicate Valid()
      reads this
    {
      forall id :: id in rows ==> rows[id].id == id
    }

    /**
     * `GET_BACKLOG_BY_PRODUCT_ID` returned `fetched`: exactly the active rows
     * of `productId`, each once, as currently stored, in an order the query
     * leaves to the database.
     */
    ghost predicate Fetched(productId: Uuid, fetched: seq<BacklogRow>)
      reads this
    {
      && (forall i :: 0 <= i < |fetched| ==>
            fetched[i].id in rows && rows[fetched[i].id] == fetched[i]
            && fetched[i].productId == productId && fetched[i].isActive)
      && (forall i, j :: 0 <= i < j < |fetched| ==> fetched[i].id != fetched[j].id)
      && (forall id :: id in rows && rows[id].productId == productId && rows[id].isActive ==>
            exists i :: 0 <= i < |fetched| && fetched[i].id == id)
    }

    constructor (initial: map<Uuid, BacklogRow>)
      requires forall id :: id in initial ==> initial[id].id == id
      ensures Valid() && rows == initial
    {
      rows := initial;
    }

    /**
     * `create_backlog`: a row with a fresh id, active, stamped with the two
     * clock readings of `preprocess_create`, is inserted and returned.
     */
    method CreateBacklog(backlog: BacklogToSave, newId: Uuid, createdAt: Time, updatedAt: Time)
        returns (created: BacklogRow)
      requires Valid() && newId !in rows
      modifies this
      ensures Valid()
      ensures created == BacklogRow(newId, backlog.productId, backlog.requiredQuantity, true,
                                    backlog.createdBy, createdAt, backlog.updatedBy, updatedAt)
      ensures rows == old(rows)[newId := created]
    {
      ToSaveTakesAllDefaults(backlog, newId, createdAt, updatedAt);
      created := BacklogRow(newId, backlog.productId, backlog.requiredQuantity, true,
                            backlog.createdBy, createdAt, backlog.updatedBy, updatedAt);
      rows := rows[newId := created];
    }

    /**
     * `update_backlog_by_product_id`: spreads `quantity` new units over the
     * product's active rows in the fetched order. No active row: `{}` (None)
     * and nothing written. Otherwise the written rows, in processing order;
     * the table holds them and nothing else changed.
     */
    method UpdateBacklogByProductId(productId: Uuid, quantity: int, updatedById: Uuid, now: Time,
                                    fetched: seq<BacklogRow>)
        returns (result: Option<seq<BacklogRow>>)
      requires Valid() && Fetched(productId, fetched)
      modifies this
      ensures Valid()
      ensures fetched == [] ==> result == None && rows == old(rows)
      ensures fetched != [] ==> result == Some(Fill(fetched, quantity, updatedById, now))
      ensures rows == Apply(old(rows), Fill(fetched, quantity, updatedById, now))
    {
      if fetched == [] {
        return None;
      }
      ghost var before := rows;
      var updatedBacklogs: seq<BacklogRow> := [];
      var remaining := quantity;
      var i := 0;
      while i < |fetched|
        invariant 0 <= i <= |fetched|
        invariant updatedBacklogs + Fill(fetched[i..], remaining, updatedById, now)
                  == Fill(fetched, quantity, updatedById, now)
        invariant rows == Apply(before, updatedBacklogs)
        invariant StoredFrom(rows, fetched, i)
        invariant Valid()
      {
        var backlog := fetched[i];
        FillAdvance(fetched, i, remaining, updatedBacklogs, Fill(fetched, quantity, updatedById, now), updatedById, now);
        if remaining > 0 {
          backlog, remaining := AbsorbRow(backlog, remaining, updatedById, now);
          // the WHERE clause of UPDATE_BACKLOG_BY_PRODUCT_ID matches the stored row
          assert backlog.id in rows && rows[backlog.id].productId == productId && rows[backlog.id].isActive;
          StoreKeepsLater(rows, fetched, i, backlog);
          rows := rows[backlog.id := backlog];
          ApplySnoc(before, updatedBacklogs, backlog);
          updatedBacklogs := updatedBacklogs + [backlog];
        }
        i := i + 1;
      }
      assert fetched[i..] == [];
      assert Fill(fetched[i..], remaining, updatedById, now) == [];
      assert updatedBacklogs + [] == updatedBacklogs;
      return Some(updatedBacklogs);
    }
  }
}

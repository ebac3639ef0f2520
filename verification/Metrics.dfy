/**
 * The derived figures of app/models.py: the cost of one labour record,
 * and a crop's material cost, labour cost, revenue and gross profit.
 * The sums run left to right over the crop's related records, as
 * Python's `sum` does. Amounts are exact reals.
 */
module Metrics {
  import opened Records
  import opened Tables
  import opened Schema

  /**
   * `LabourRecord.total_cost`: hours worked at the hourly rate
   * daily_wage / 8 of the worker the record names, or 0 when that worker
   * cannot be resolved.
   */
  function LabourRecordCost(r: LabourRecord, labours: map<nat, Labour>): (cost: real)
    ensures r.labourId !in labours ==> cost == 0.0
  {
    if r.labourId in labours then r.hoursWorked * (labours[r.labourId].dailyWage / HOURS_PER_DAY) else 0.0
  }

  /** A record's cost is its share of a day's wage: cost * 8 == hours * daily wage. */
  lemma RecordCostShare(r: LabourRecord, labours: map<nat, Labour>)
    requires r.labourId in labours
    ensures LabourRecordCost(r, labours) * HOURS_PER_DAY == r.hoursWorked * labours[r.labourId].dailyWage
  {
    var wage := labours[r.labourId].dailyWage;
    assert r.hoursWorked * (wage / HOURS_PER_DAY) * HOURS_PER_DAY == r.hoursWorked * wage;
  }

  /** Eight hours of work cost exactly one daily wage. */
  lemma FullDayCostsDailyWage(r: LabourRecord, labours: map<nat, Labour>)
    requires r.labourId in labours && r.hoursWorked == HOURS_PER_DAY
    ensures LabourRecordCost(r, labours) == labours[r.labourId].dailyWage
  {
    RecordCostShare(r, labours);
  }

  /** `Crop.get_total_cost`: the sum of the amounts of the given cost records. */
  function MaterialCost(costs: seq<CostRecord>): (total: real)
    ensures costs == [] ==> total == 0.0
    ensures (forall c :: c in costs ==> c.amount >= 0.0) ==> total >= 0.0
  {
    if costs == [] then 0.0
    else MaterialCost(costs[..|costs| - 1]) + costs[|costs| - 1].amount
  }

  /** `Crop.get_total_labour_cost`: the sum of the costs of the given labour records. */
  function LabourCost(records: seq<LabourRecord>, labours: map<nat, Labour>): (total: real)
    ensures records == [] ==> total == 0.0
  {
    if records == [] then 0.0
    else LabourCost(records[..|records| - 1], labours) + LabourRecordCost(records[|records| - 1], labours)
  }

  /**
   * `Crop.get_revenue`: actual yield times the market price when the
   * yield is set; the source tests the yield for truthiness, so a zero
   * yield takes the 0 branch, which agrees with 0 * 25.
   */
  function Revenue(crop: Crop): (revenue: real)
    ensures crop.actualYield.None? ==> revenue == 0.0
    ensures crop.actualYield.Some? ==> revenue == crop.actualYield.value * MARKET_PRICE
  {
    if crop.actualYield.Some? && crop.actualYield.value != 0.0 then crop.actualYield.value * MARKET_PRICE
    else 0.0
  }

  /** `Crop.get_gross_profit`: revenue less material and labour cost; a crop with no records keeps its whole revenue. */
  function GrossProfit(crop: Crop, costs: seq<CostRecord>, records: seq<LabourRecord>, labours: map<nat, Labour>): (profit: real)
    ensures costs == [] && records == [] ==> profit == Revenue(crop)
  {
    Revenue(crop) - (MaterialCost(costs) + LabourCost(records, labours))
  }

  // ---------------------------------------------------------------------
  // Properties of the sums
  // ---------------------------------------------------------------------

  /** Material cost is additive over concatenation. */
  lemma {:induction false} MaterialCostAppend(a: seq<CostRecord>, b: seq<CostRecord>)
    ensures MaterialCost(a + b) == MaterialCost(a) + MaterialCost(b)
  {
    if b != [] {
      var b' := b[..|b| - 1];
      assert (a + b)[..|a + b| - 1] == a + b';
      MaterialCostAppend(a, b');
    } else {
      assert a + b == a;
    }
  }

  /** Labour cost is additive over concatenation. */
  lemma {:induction false} LabourCostAppend(a: seq<LabourRecord>, b: seq<LabourRecord>, labours: map<nat, Labour>)
    ensures LabourCost(a + b, labours) == LabourCost(a, labours) + LabourCost(b, labours)
  {
    if b != [] {
      var b' := b[..|b| - 1];
      assert (a + b)[..|a + b| - 1] == a + b';
      LabourCostAppend(a, b', labours);
    } else {
      assert a + b == a;
    }
  }

  /** With non-negative hours and wages, labour cost is non-negative. */
  lemma {:induction false} LabourCostNonNegative(records: seq<LabourRecord>, labours: map<nat, Labour>)
    requires forall r :: r in records ==> r.hoursWorked >= 0.0
    requires forall l :: l in labours ==> labours[l].dailyWage >= 0.0
    ensures LabourCost(records, labours) >= 0.0
  {
    if records != [] {
      var last := records[|records| - 1];
      assert last in records;
      LabourCostNonNegative(records[..|records| - 1], labours);
      if last.labourId in labours {
        var rate := labours[last.labourId].dailyWage / HOURS_PER_DAY;
        assert LabourRecordCost(last, labours) == last.hoursWorked * rate;
        ProductNonNegative(last.hoursWorked, rate);
      }
    }
  }

  lemma ProductNonNegative(x: real, y: real)
    requires x >= 0.0 && y >= 0.0
    ensures x * y >= 0.0
  {
  }

  /** One more cost record lowers the gross profit by exactly its amount. */
  lemma GrossProfitWithCost(crop: Crop, costs: seq<CostRecord>, c: CostRecord, records: seq<LabourRecord>, labours: map<nat, Labour>)
    ensures GrossProfit(crop, costs + [c], records, labours) == GrossProfit(crop, costs, records, labours) - c.amount
  {
    assert (costs + [c])[..|costs|] == costs;
  }

  /** One more labour record lowers the gross profit by exactly its cost. */
  lemma GrossProfitWithLabour(crop: Crop, costs: seq<CostRecord>, records: seq<LabourRecord>, r: LabourRecord, labours: map<nat, Labour>)
    ensures GrossProfit(crop, costs, records + [r], labours) == GrossProfit(crop, costs, records, labours) - LabourRecordCost(r, labours)
  {
    assert (records + [r])[..|records|] == records;
  }

  /** With non-negative amounts, hours and wages, profit never exceeds revenue. */
  lemma GrossProfitAtMostRevenue(crop: Crop, costs: seq<CostRecord>, records: seq<LabourRecord>, labours: map<nat, Labour>)
    requires forall c :: c in costs ==> c.amount >= 0.0
    requires forall r :: r in records ==> r.hoursWorked >= 0.0
    requires forall l :: l in labours ==> labours[l].dailyWage >= 0.0
    ensures GrossProfit(crop, costs, records, labours) <= Revenue(crop)
  {
    LabourCostNonNegative(records, labours);
  }

  // ---------------------------------------------------------------------
  // The figures of one crop of the store
  // ---------------------------------------------------------------------

  function CropMaterialCost(db: Db, cropId: nat): real
  {
    MaterialCost(CostRecordsOf(db, cropId))
  }

  function CropLabourCost(db: Db, cropId: nat): real
  {
    LabourCost(LabourRecordsOf(db, cropId), db.labours.rows)
  }

  /** Material plus labour cost, the `cost` the reports show for a crop. */
  function CropCost(db: Db, cropId: nat): real
  {
    CropMaterialCost(db, cropId) + CropLabourCost(db, cropId)
  }

  function CropRevenue(db: Db, cropId: nat): real
    requires cropId in db.crops.rows
  {
    Revenue(db.crops.rows[cropId])
  }

  function CropProfit(db: Db, cropId: nat): (profit: real)
    requires cropId in db.crops.rows
    ensures profit == CropRevenue(db, cropId) - CropCost(db, cropId)
  {
    GrossProfit(db.crops.rows[cropId], CostRecordsOf(db, cropId), LabourRecordsOf(db, cropId), db.labours.rows)
  }

  /** A crop nothing has been recorded against has no cost. */
  lemma {:induction false} NoRecordsNoCost(db: Db, cropId: nat)
    requires forall k :: k in db.costRecords.rows ==> db.costRecords.rows[k].cropId != cropId
    requires forall k :: k in db.labourRecords.rows ==> db.labourRecords.rows[k].cropId != cropId
    ensures CropMaterialCost(db, cropId) == 0.0 && CropLabourCost(db, cropId) == 0.0
  {
    RowsWhereEmpty(db.costRecords.rows, CostCrop, cropId, db.costRecords.next);
    RowsWhereEmpty(db.labourRecords.rows, RecordCrop, cropId, db.labourRecords.next);
  }

  /** Adding a cost record to the store raises its crop's material cost by its amount and no other crop's. */
  lemma CropMaterialCostAfterInsert(db: Db, r: CostRecord, cropId: nat)
    requires WellFormed(db.costRecords)
    ensures CropMaterialCost(db.(costRecords := Insert(db.costRecords, r)), cropId)
         == CropMaterialCost(db, cropId) + (if r.cropId == cropId then r.amount else 0.0)
  {
    MaterialCostAfterInsert(db.costRecords, r, cropId);
  }

  /** Deleting cost record `k` from the store lowers its crop's material cost by its amount. */
  lemma CropMaterialCostAfterRemove(db: Db, k: nat)
    requires WellFormed(db.costRecords) && k in db.costRecords.rows
    ensures CropMaterialCost(db.(costRecords := db.costRecords.(rows := db.costRecords.rows - {k})), db.costRecords.rows[k].cropId)
         == CropMaterialCost(db, db.costRecords.rows[k].cropId) - db.costRecords.rows[k].amount
  {
    MaterialCostAfterRemove(db.costRecords.rows, db.costRecords.rows[k].cropId, db.costRecords.next, k);
  }

  /** Adding a labour record to the store raises its crop's labour cost by the record's cost and no other crop's. */
  lemma CropLabourCostAfterInsert(db: Db, r: LabourRecord, cropId: nat)
    requires WellFormed(db.labourRecords)
    ensures CropLabourCost(db.(labourRecords := Insert(db.labourRecords, r)), cropId)
         == CropLabourCost(db, cropId) + (if r.cropId == cropId then LabourRecordCost(r, db.labours.rows) else 0.0)
  {
    LabourCostAfterInsert(db.labourRecords, r, cropId, db.labours.rows);
  }

  /** Deleting labour record `k` from the store lowers its crop's labour cost by the record's cost. */
  lemma CropLabourCostAfterRemove(db: Db, k: nat)
    requires WellFormed(db.labourRecords) && k in db.labourRecords.rows
    ensures CropLabourCost(db.(labourRecords := db.labourRecords.(rows := db.labourRecords.rows - {k})), db.labourRecords.rows[k].cropId)
         == CropLabourCost(db, db.labourRecords.rows[k].cropId) - LabourRecordCost(db.labourRecords.rows[k], db.labours.rows)
  {
    LabourCostAfterRemove(db.labourRecords.rows, db.labourRecords.rows[k].cropId, db.labourRecords.next, k, db.labours.rows);
  }

  /** Recording an expense raises the material cost of its crop by its amount and of no other crop. */
  lemma MaterialCostAfterInsert(t: Table<CostRecord>, r: CostRecord, cropId: nat)
    requires WellFormed(t)
    ensures MaterialCost(RowsWhere(Insert(t, r).rows, CostCrop, cropId, Insert(t, r).next))
         == MaterialCost(RowsWhere(t.rows, CostCrop, cropId, t.next)) + (if r.cropId == cropId then r.amount else 0.0)
  {
    InsertRowsWhere(t, r, CostCrop, cropId);
    var s := RowsWhere(t.rows, CostCrop, cropId, t.next);
    if r.cropId == cropId {
      assert (s + [r])[..|s|] == s;
    } else {
      assert s + [] == s;
    }
  }

  /** Recording work raises the labour cost of its crop by the record's cost and of no other crop. */
  lemma LabourCostAfterInsert(t: Table<LabourRecord>, r: LabourRecord, cropId: nat, labours: map<nat, Labour>)
    requires WellFormed(t)
    ensures LabourCost(RowsWhere(Insert(t, r).rows, RecordCrop, cropId, Insert(t, r).next), labours)
         == LabourCost(RowsWhere(t.rows, RecordCrop, cropId, t.next), labours)
            + (if r.cropId == cropId then LabourRecordCost(r, labours) else 0.0)
  {
    InsertRowsWhere(t, r, RecordCrop, cropId);
    var s := RowsWhere(t.rows, RecordCrop, cropId, t.next);
    if r.cropId == cropId {
      assert (s + [r])[..|s|] == s;
    } else {
      assert s + [] == s;
    }
  }

  lemma MaterialCostSnoc(s: seq<CostRecord>, c: CostRecord)
    ensures MaterialCost(s + [c]) == MaterialCost(s) + c.amount
  {
    assert (s + [c])[..|s|] == s;
  }

  lemma LabourCostSnoc(s: seq<LabourRecord>, r: LabourRecord, labours: map<nat, Labour>)
    ensures LabourCost(s + [r], labours) == LabourCost(s, labours) + LabourRecordCost(r, labours)
  {
    assert (s + [r])[..|s|] == s;
  }

  /** The material cost of the records below `n + 1` adds record `n` when it belongs to the crop. */
  lemma MaterialCostBelowStep(rows: map<nat, CostRecord>, cropId: nat, n: nat)
    ensures MaterialCost(RowsWhere(rows, CostCrop, cropId, n + 1))
         == MaterialCost(RowsWhere(rows, CostCrop, cropId, n))
            + (if n in rows && rows[n].cropId == cropId then rows[n].amount else 0.0)
  {
    var s := RowsWhere(rows, CostCrop, cropId, n);
    if n in rows && rows[n].cropId == cropId {
      MaterialCostSnoc(s, rows[n]);
    }
  }

  /** The labour cost of the records below `n + 1` adds record `n` when it belongs to the crop. */
  lemma LabourCostBelowStep(rows: map<nat, LabourRecord>, cropId: nat, n: nat, labours: map<nat, Labour>)
    ensures LabourCost(RowsWhere(rows, RecordCrop, cropId, n + 1), labours)
         == LabourCost(RowsWhere(rows, RecordCrop, cropId, n), labours)
            + (if n in rows && rows[n].cropId == cropId then LabourRecordCost(rows[n], labours) else 0.0)
  {
    var s := RowsWhere(rows, RecordCrop, cropId, n);
    if n in rows && rows[n].cropId == cropId {
      LabourCostSnoc(s, rows[n], labours);
    }
  }

  /** Deleting cost record `k` lowers its crop's material cost by its amount and no other crop's. */
  lemma {:induction false} MaterialCostAfterRemove(rows: map<nat, CostRecord>, cropId: nat, n: nat, k: nat)
    ensures MaterialCost(RowsWhere(rows - {k}, CostCrop, cropId, n))
         == MaterialCost(RowsWhere(rows, CostCrop, cropId, n))
            - (if k in rows && k < n && rows[k].cropId == cropId then rows[k].amount else 0.0)
  {
    if n > 0 {
      var x := n - 1;
      MaterialCostAfterRemove(rows, cropId, x, k);
      MaterialCostBelowStep(rows, cropId, x);
      MaterialCostBelowStep(rows - {k}, cropId, x);
      if x == k {
        assert x !in rows - {k};
      } else if x in rows {
        assert x in rows - {k} && (rows - {k})[x] == rows[x];
      }
    }
  }

  /** Deleting labour record `k` lowers its crop's labour cost by its cost and no other crop's. */
  lemma {:induction false} LabourCostAfterRemove(rows: map<nat, LabourRecord>, cropId: nat, n: nat, k: nat, labours: map<nat, Labour>)
    ensures LabourCost(RowsWhere(rows - {k}, RecordCrop, cropId, n), labours)
         == LabourCost(RowsWhere(rows, RecordCrop, cropId, n), labours)
            - (if k in rows && k < n && rows[k].cropId == cropId then LabourRecordCost(rows[k], labours) else 0.0)
  {
    if n > 0 {
      var x := n - 1;
      LabourCostAfterRemove(rows, cropId, x, k, labours);
      LabourCostBelowStep(rows, cropId, x, labours);
      LabourCostBelowStep(rows - {k}, cropId, x, labours);
      if x == k {
        assert x !in rows - {k};
      } else if x in rows {
        assert x in rows - {k} && (rows - {k})[x] == rows[x];
      }
    }
  }
}

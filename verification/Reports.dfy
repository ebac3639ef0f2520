/**
 * The read-only views of app/routes.py that combine the per-crop figures:
 * the dashboard totals (`index`), the reports page (`view_reports`), the
 * crop detail page (`view_crop_detail`) and the chart feed
 * (`api_crop_stats`). Crops are visited in store order.
 */
module Reports {
  import opened Records
  import opened Tables
  import opened Schema
  import opened Metrics

  /** `Crop.query.all()`: every crop key, in store order. */
  function CropIds(db: Db): (ids: seq<nat>)
    requires WellFormed(db.crops)
    ensures forall id :: id in ids <==> id in db.crops.rows
    ensures StrictlyIncreasing(ids)
  {
    Ids(db.crops)
  }

  ghost predicate AreCrops(db: Db, ids: seq<nat>)
  {
    forall id :: id in ids ==> id in db.crops.rows
  }

  // ---------------------------------------------------------------------
  // Status filters. The dashboard filters in SQL (`filter_by(status=...)`),
  // which compares under the database's case-insensitive collation; the
  // crop-profit loop compares in Python with `==`, which is exact.
  // ---------------------------------------------------------------------

  datatype Comparison = Exact | Collated

  /** ASCII upper-case letters fold to lower case; every other character is kept. */
  function FoldChar(c: char): (f: char)
    ensures 'A' <= c <= 'Z' ==> f as int == c as int + 32
    ensures !('A' <= c <= 'Z') ==> f == c
  {
    if 'A' <= c <= 'Z' then (c as int + 32) as char else c
  }

  /** The string with every character case-folded. */
  function Folded(s: string): (r: string)
    ensures |r| == |s|
    ensures forall i :: 0 <= i < |s| ==> r[i] == FoldChar(s[i])
  {
    if s == [] then [] else Folded(s[..|s| - 1]) + [FoldChar(s[|s| - 1])]
  }

  /** Whether a stored status matches the wanted one under the given comparison. */
  predicate SameStatus(stored: string, wanted: string, how: Comparison)
  {
    match how
    case Exact => stored == wanted
    case Collated => Folded(stored) == Folded(wanted)
  }

  /** An exact match is also a collated match, and the collation ignores letter case. */
  lemma CollationWidensExact(stored: string, wanted: string)
    ensures SameStatus(stored, wanted, Exact) ==> SameStatus(stored, wanted, Collated)
    ensures SameStatus("harvested", HARVESTED, Collated) && !SameStatus("harvested", HARVESTED, Exact)
    ensures SameStatus("GROWING", GROWING, Collated) && !SameStatus("GROWING", GROWING, Exact)
    ensures !SameStatus(FAILED, HARVESTED, Collated) && !SameStatus(FAILED, GROWING, Collated)
  {
  }

  /** Whether `id` is a stored crop whose status matches `status` under `how`. */
  function Matches(db: Db, status: string, how: Comparison): nat -> bool
  {
    (id: nat) => id in db.crops.rows && SameStatus(db.crops.rows[id].status, status, how)
  }

  /** Whether `id` is a stored crop whose status does not match `status` under `how`. */
  function Differs(db: Db, status: string, how: Comparison): nat -> bool
  {
    (id: nat) => id in db.crops.rows && !SameStatus(db.crops.rows[id].status, status, how)
  }

  /** The crops among `ids` whose status matches `status` under `how`, in the same order. */
  function WithStatus(db: Db, ids: seq<nat>, status: string, how: Comparison): (r: seq<nat>)
    requires AreCrops(db, ids)
    ensures forall id :: id in r <==> id in ids && SameStatus(db.crops.rows[id].status, status, how)
    ensures AreCrops(db, r)
    ensures StrictlyIncreasing(ids) ==> StrictlyIncreasing(r)
    ensures |r| <= |ids|
  {
    Filter(ids, Matches(db, status, how))
  }

  /** The crops among `ids` whose status does not match `status` under `how`, in the same order. */
  function WithoutStatus(db: Db, ids: seq<nat>, status: string, how: Comparison): (r: seq<nat>)
    requires AreCrops(db, ids)
    ensures forall id :: id in r <==> id in ids && !SameStatus(db.crops.rows[id].status, status, how)
    ensures StrictlyIncreasing(ids) ==> StrictlyIncreasing(r)
  {
    Filter(ids, Differs(db, status, how))
  }

  function SumRevenue(db: Db, ids: seq<nat>): real
    requires AreCrops(db, ids)
  {
    if ids == [] then 0.0 else SumRevenue(db, ids[..|ids| - 1]) + CropRevenue(db, ids[|ids| - 1])
  }

  function SumCost(db: Db, ids: seq<nat>): real
    requires AreCrops(db, ids)
  {
    if ids == [] then 0.0 else SumCost(db, ids[..|ids| - 1]) + CropCost(db, ids[|ids| - 1])
  }

  function SumProfit(db: Db, ids: seq<nat>): real
    requires AreCrops(db, ids)
  {
    if ids == [] then 0.0 else SumProfit(db, ids[..|ids| - 1]) + CropProfit(db, ids[|ids| - 1])
  }

  function SumReals(xs: seq<real>): real
  {
    if xs == [] then 0.0 else SumReals(xs[..|xs| - 1]) + xs[|xs| - 1]
  }

  lemma SumsSnoc(db: Db, ids: seq<nat>, id: nat)
    requires AreCrops(db, ids) && id in db.crops.rows
    ensures AreCrops(db, ids + [id])
    ensures SumRevenue(db, ids + [id]) == SumRevenue(db, ids) + CropRevenue(db, id)
    ensures SumCost(db, ids + [id]) == SumCost(db, ids) + CropCost(db, id)
    ensures SumProfit(db, ids + [id]) == SumProfit(db, ids) + CropProfit(db, id)
  {
    assert (ids + [id])[..|ids|] == ids;
  }

  // ---------------------------------------------------------------------
  // Dashboard (`index`)
  // ---------------------------------------------------------------------

  datatype DashboardStats = DashboardStats(
    totalFields: nat,
    totalCrops: nat,
    activeCrops: nat,
    totalLabours: nat,
    totalRevenue: real,
    totalCosts: real,
    grossProfit: real)

  ghost function CropsWithStatus(db: Db, status: string, how: Comparison): set<nat>
  {
    set c | c in db.crops.rows && SameStatus(db.crops.rows[c].status, status, how)
  }

  /**
   * `index`: revenue is summed over Harvested crops only, while costs are
   * summed over every crop whatever its status. Both status filters run in
   * SQL, so they match under the collation.
   */
  function Dashboard(db: Db): (s: DashboardStats)
    requires TablesWellFormed(db)
    ensures s.totalFields == |db.fields.rows| && s.totalCrops == |db.crops.rows|
    ensures s.totalLabours == |db.labours.rows|
    ensures s.activeCrops == |CropsWithStatus(db, GROWING, Collated)| <= s.totalCrops
    ensures s.grossProfit == s.totalRevenue - s.totalCosts
  {
    var ids := CropIds(db);
    var growing := WithStatus(db, ids, GROWING, Collated);
    var revenue := SumRevenue(db, WithStatus(db, ids, HARVESTED, Collated));
    var costs := SumCost(db, ids);
    assert |growing| == |CropsWithStatus(db, GROWING, Collated)| by {
      DistinctCount(growing);
      assert Elements(growing) == CropsWithStatus(db, GROWING, Collated);
    }
    IdsCount(db.crops);
    DashboardStats(|db.fields.rows|, |db.crops.rows|, |growing|, |db.labours.rows|,
                   revenue, costs, revenue - costs)
  }

  /** Over any list of crops, the dashboard's asymmetric profit splits by status. */
  lemma {:induction false} AsymmetricProfitSplit(db: Db, ids: seq<nat>, how: Comparison)
    requires AreCrops(db, ids)
    ensures SumRevenue(db, WithStatus(db, ids, HARVESTED, how)) - SumCost(db, ids)
         == SumProfit(db, WithStatus(db, ids, HARVESTED, how)) - SumCost(db, WithoutStatus(db, ids, HARVESTED, how))
  {
    if ids != [] {
      var init, last := ids[..|ids| - 1], ids[|ids| - 1];
      assert ids == init + [last];
      PrefixAreCrops(db, ids, |ids| - 1);
      AsymmetricProfitSplit(db, init, how);
      SumsSnoc(db, init, last);
      StatusSnoc(db, init, last, HARVESTED, how);
      if SameStatus(db.crops.rows[last].status, HARVESTED, how) {
        SumsSnoc(db, WithStatus(db, init, HARVESTED, how), last);
      } else {
        SumsSnoc(db, WithoutStatus(db, init, HARVESTED, how), last);
      }
    }
  }

  /**
   * The dashboard's gross profit is the profit of the Harvested crops
   * minus the costs of every crop that is not Harvested.
   */
  lemma DashboardProfit(db: Db)
    requires TablesWellFormed(db)
    ensures Dashboard(db).grossProfit
         == SumProfit(db, WithStatus(db, CropIds(db), HARVESTED, Collated))
            - SumCost(db, WithoutStatus(db, CropIds(db), HARVESTED, Collated))
  {
    AsymmetricProfitSplit(db, CropIds(db), Collated);
  }

  // ---------------------------------------------------------------------
  // Reports page (`view_reports`)
  // ---------------------------------------------------------------------

  datatype ReportTotals = ReportTotals(totalRevenue: real, totalCosts: real, totalProfit: real)

  /** Revenue and costs over every crop, whatever its status. */
  function Totals(db: Db): (t: ReportTotals)
    requires WellFormed(db.crops)
    ensures t.totalProfit == t.totalRevenue - t.totalCosts
  {
    var ids := CropIds(db);
    var revenue, costs := SumRevenue(db, ids), SumCost(db, ids);
    ReportTotals(revenue, costs, revenue - costs)
  }

  /** Both filters look only at the last crop when one is appended. */
  lemma StatusSnoc(db: Db, ids: seq<nat>, id: nat, status: string, how: Comparison)
    requires AreCrops(db, ids) && id in db.crops.rows
    ensures AreCrops(db, ids + [id])
    ensures SameStatus(db.crops.rows[id].status, status, how) ==>
      && WithStatus(db, ids + [id], status, how) == WithStatus(db, ids, status, how) + [id]
      && WithoutStatus(db, ids + [id], status, how) == WithoutStatus(db, ids, status, how)
    ensures !SameStatus(db.crops.rows[id].status, status, how) ==>
      && WithStatus(db, ids + [id], status, how) == WithStatus(db, ids, status, how)
      && WithoutStatus(db, ids + [id], status, how) == WithoutStatus(db, ids, status, how) + [id]
  {
    FilterSnoc(ids, id, Matches(db, status, how));
    FilterSnoc(ids, id, Differs(db, status, how));
  }

  lemma {:induction false} RevenueSplitsByStatus(db: Db, ids: seq<nat>, status: string, how: Comparison)
    requires AreCrops(db, ids)
    ensures SumRevenue(db, ids)
         == SumRevenue(db, WithStatus(db, ids, status, how)) + SumRevenue(db, WithoutStatus(db, ids, status, how))
  {
    if ids != [] {
      var init, last := ids[..|ids| - 1], ids[|ids| - 1];
      assert ids == init + [last];
      PrefixAreCrops(db, ids, |ids| - 1);
      RevenueSplitsByStatus(db, init, status, how);
      StatusSnoc(db, init, last, status, how);
      var w, wo := WithStatus(db, init, status, how), WithoutStatus(db, init, status, how);
      if SameStatus(db.crops.rows[last].status, status, how) {
        SumsSnoc(db, w, last);
      } else {
        SumsSnoc(db, wo, last);
      }
    }
  }

  lemma {:induction false} ProfitSumsCropProfits(db: Db, ids: seq<nat>)
    requires AreCrops(db, ids)
    ensures SumRevenue(db, ids) - SumCost(db, ids) == SumProfit(db, ids)
  {
    if ids != [] {
      ProfitSumsCropProfits(db, ids[..|ids| - 1]);
    }
  }

  /** The report's total profit is the sum of every crop's gross profit. */
  lemma TotalProfitIsSumOfCropProfits(db: Db)
    requires WellFormed(db.crops)
    ensures Totals(db).totalProfit == SumProfit(db, CropIds(db))
  {
    ProfitSumsCropProfits(db, CropIds(db));
  }

  /**
   * The reports page and the dashboard agree on costs; the reports page's
   * revenue exceeds the dashboard's by the revenue of crops not Harvested.
   */
  lemma ReportsAndDashboard(db: Db)
    requires TablesWellFormed(db)
    ensures Totals(db).totalCosts == Dashboard(db).totalCosts
    ensures Totals(db).totalRevenue
         == Dashboard(db).totalRevenue + SumRevenue(db, WithoutStatus(db, CropIds(db), HARVESTED, Collated))
  {
    RevenueSplitsByStatus(db, CropIds(db), HARVESTED, Collated);
  }

  // ---------------------------------------------------------------------
  // Crop-wise profit table (`view_reports`, crop_profits)
  // ---------------------------------------------------------------------

  datatype CropProfitRow = CropProfitRow(
    cropType: string,
    fieldName: string,
    revenue: real,
    cost: real,
    profit: real,
    actualYield: Option<real>)

  /** The Harvested crops in store order. */
  function HarvestedIds(db: Db): (ids: seq<nat>)
    requires WellFormed(db.crops)
    ensures forall id :: id in ids <==> id in db.crops.rows && db.crops.rows[id].status == HARVESTED
    ensures StrictlyIncreasing(ids)
  {
    WithStatus(db, CropIds(db), HARVESTED, Exact)
  }

  /**
   * Every crop of the profit table counts toward the dashboard's revenue,
   * but not the other way round: a crop stored as "harvested" is counted
   * by the dashboard's collated filter and left out of the profit table.
   */
  lemma ProfitTableWithinDashboard(db: Db, id: nat)
    requires WellFormed(db.crops)
    ensures id in HarvestedIds(db) ==> id in WithStatus(db, CropIds(db), HARVESTED, Collated)
    ensures id in db.crops.rows && db.crops.rows[id].status == "harvested" ==>
      id in WithStatus(db, CropIds(db), HARVESTED, Collated) && id !in HarvestedIds(db)
  {
    if id in db.crops.rows {
      CollationWidensExact(db.crops.rows[id].status, HARVESTED);
    }
  }

  /**
   * One line of the table: the crop's type, its field's name, its revenue,
   * its material plus labour cost, its gross profit and its actual yield.
   */
  function ProfitRow(db: Db, id: nat): (row: CropProfitRow)
    requires Consistent(db) && id in db.crops.rows
    ensures var crop := db.crops.rows[id];
      && crop.fieldId in db.fields.rows
      && row.cropType == crop.cropType
      && row.fieldName == db.fields.rows[crop.fieldId].name
      && row.actualYield == crop.actualYield
    ensures row.revenue == Revenue(db.crops.rows[id])
    ensures row.cost == MaterialCost(CostRecordsOf(db, id)) + LabourCost(LabourRecordsOf(db, id), db.labours.rows)
    ensures row.profit == GrossProfit(db.crops.rows[id], CostRecordsOf(db, id), LabourRecordsOf(db, id), db.labours.rows)
    ensures row.profit == row.revenue - row.cost
  {
    var crop := db.crops.rows[id];
    CropProfitRow(crop.cropType, db.fields.rows[crop.fieldId].name,
                  CropRevenue(db, id), CropCost(db, id), CropProfit(db, id), crop.actualYield)
  }

  lemma PrefixAreCrops(db: Db, ids: seq<nat>, i: nat)
    requires AreCrops(db, ids) && i <= |ids|
    ensures AreCrops(db, ids[..i])
  {
    forall x | x in ids[..i] ensures x in db.crops.rows {
      assert x in ids;
    }
  }

  lemma WithStatusStep(db: Db, ids: seq<nat>, i: nat, status: string)
    requires AreCrops(db, ids) && i < |ids|
    ensures AreCrops(db, ids[..i]) && AreCrops(db, ids[..i + 1])
    ensures WithStatus(db, ids[..i + 1], status, Exact)
         == WithStatus(db, ids[..i], status, Exact) + (if db.crops.rows[ids[i]].status == status then [ids[i]] else [])
  {
    PrefixAreCrops(db, ids, i);
    PrefixAreCrops(db, ids, i + 1);
    assert ids[..i + 1] == ids[..i] + [ids[i]];
    FilterSnoc(ids[..i], ids[i], Matches(db, status, Exact));
  }

  /** The table's lines for the crops `ids`, in the same order. */
  function ProfitRows(db: Db, ids: seq<nat>): (rows: seq<CropProfitRow>)
    requires Consistent(db) && AreCrops(db, ids)
    ensures |rows| == |ids|
  {
    if ids == [] then [] else ProfitRows(db, ids[..|ids| - 1]) + [ProfitRow(db, ids[|ids| - 1])]
  }

  lemma {:induction false} ProfitRowsAt(db: Db, ids: seq<nat>, i: nat)
    requires Consistent(db) && AreCrops(db, ids) && i < |ids|
    ensures ProfitRows(db, ids)[i] == ProfitRow(db, ids[i])
  {
    if i < |ids| - 1 {
      ProfitRowsAt(db, ids[..|ids| - 1], i);
    }
  }

  lemma ProfitRowsSnoc(db: Db, ids: seq<nat>, id: nat)
    requires Consistent(db) && AreCrops(db, ids) && id in db.crops.rows
    ensures AreCrops(db, ids + [id])
    ensures ProfitRows(db, ids + [id]) == ProfitRows(db, ids) + [ProfitRow(db, id)]
  {
    assert (ids + [id])[..|ids|] == ids;
  }

  /** Builds the table by walking all crops and appending a line for each Harvested one. */
  method BuildCropProfits(db: Db) returns (rows: seq<CropProfitRow>)
    requires Consistent(db)
    ensures |rows| == |HarvestedIds(db)|
    ensures forall i :: 0 <= i < |rows| ==> rows[i] == ProfitRow(db, HarvestedIds(db)[i])
  {
    var ids := CropIds(db);
    rows := [];
    var i := 0;
    PrefixAreCrops(db, ids, 0);
    while i < |ids|
      invariant 0 <= i <= |ids| && AreCrops(db, ids[..i])
      invariant rows == ProfitRows(db, WithStatus(db, ids[..i], HARVESTED, Exact))
    {
      WithStatusStep(db, ids, i, HARVESTED);
      var id := ids[i];
      ghost var done := WithStatus(db, ids[..i], HARVESTED, Exact);
      if db.crops.rows[id].status == HARVESTED {
        ProfitRowsSnoc(db, done, id);
        rows := rows + [ProfitRow(db, id)];
        assert rows == ProfitRows(db, done + [id]);
      } else {
        assert done + [] == done;
      }
      i := i + 1;
    }
    assert ids[..i] == ids;
    forall j | 0 <= j < |rows| ensures rows[j] == ProfitRow(db, HarvestedIds(db)[j]) {
      ProfitRowsAt(db, HarvestedIds(db), j);
    }
  }

  // ---------------------------------------------------------------------
  // Labour cost rollup (`view_reports`, labour_costs)
  // ---------------------------------------------------------------------

  datatype LabourCostRow = LabourCostRow(labourId: nat, name: string, totalCost: real)

  function TotalHours(records: seq<LabourRecord>): real
  {
    if records == [] then 0.0 else TotalHours(records[..|records| - 1]) + records[|records| - 1].hoursWorked
  }

  /** Whether worker `id` has at least one labour record. */
  function HasRecords(db: Db): nat -> bool
  {
    (id: nat) => RecordsOfWorker(db, id) != []
  }

  /** The workers among `ids` that have at least one labour record, in the same order. */
  function WorkersWithRecords(db: Db, ids: seq<nat>): (r: seq<nat>)
    ensures forall id :: id in r <==> id in ids && RecordsOfWorker(db, id) != []
    ensures StrictlyIncreasing(ids) ==> StrictlyIncreasing(r)
  {
    Filter(ids, HasRecords(db))
  }

  /**
   * The joined, grouped query: one line per worker that has at least one
   * labour record, with the sum of hours_worked * daily_wage / 8 over
   * those records.
   */
  function LabourCosts(db: Db): (rows: seq<LabourCostRow>)
    requires WellFormed(db.labours)
    ensures forall i :: 0 <= i < |rows| ==>
      rows[i].labourId in db.labours.rows && rows[i].name == db.labours.rows[rows[i].labourId].name
  {
    var ws := WorkersWithRecords(db, Ids(db.labours));
    assert forall i :: 0 <= i < |ws| ==> ws[i] in db.labours.rows by {
      forall i | 0 <= i < |ws| ensures ws[i] in db.labours.rows {
        assert ws[i] in ws;
      }
    }
    seq(|ws|, i requires 0 <= i < |ws| =>
      LabourCostRow(ws[i], db.labours.rows[ws[i]].name, LabourCost(RecordsOfWorker(db, ws[i]), db.labours.rows)))
  }

  /** The cost of one worker's records is their total hours at the hourly rate. */
  lemma {:induction false} WorkerCostFromHours(records: seq<LabourRecord>, labours: map<nat, Labour>, labourId: nat)
    requires labourId in labours
    requires forall i :: 0 <= i < |records| ==> records[i].labourId == labourId
    ensures LabourCost(records, labours) * HOURS_PER_DAY == TotalHours(records) * labours[labourId].dailyWage
  {
    if records != [] {
      var init, last := records[..|records| - 1], records[|records| - 1];
      WorkerCostFromHours(init, labours, labourId);
      RecordCostShare(last, labours);
      ShareOfWage(LabourCost(init, labours), LabourRecordCost(last, labours), LabourCost(records, labours),
                  TotalHours(init), last.hoursWorked, TotalHours(records), labours[labourId].dailyWage);
    } else {
      ShareOfWage(0.0, 0.0, LabourCost(records, labours), 0.0, 0.0, TotalHours(records), labours[labourId].dailyWage);
    }
  }

  /**
   * Two amounts that are each their hours' share of the same daily wage add
   * up to the share of the summed hours.
   */
  lemma ShareOfWage(a: real, b: real, total: real, hoursA: real, hoursB: real, hours: real, wage: real)
    requires a * HOURS_PER_DAY == hoursA * wage && b * HOURS_PER_DAY == hoursB * wage
    requires total == a + b && hours == hoursA + hoursB
    ensures total * HOURS_PER_DAY == hours * wage
  {
  }

  /** A worker's record listing is non-empty exactly when some stored record names them. */
  lemma WorkerHasRecords(db: Db, l: nat)
    requires WellFormed(db.labourRecords)
    ensures RecordsOfWorker(db, l) != [] <==> exists k :: k in db.labourRecords.rows && db.labourRecords.rows[k].labourId == l
  {
    RowsWhereEmpty(db.labourRecords.rows, RecordWorker, l, db.labourRecords.next);
    if exists k :: k in db.labourRecords.rows && db.labourRecords.rows[k].labourId == l {
      var k :| k in db.labourRecords.rows && db.labourRecords.rows[k].labourId == l;
      assert k < db.labourRecords.next && RecordWorker(db.labourRecords.rows[k]) == l;
    }
  }

  /** Every worker with at least one labour record has a line in the rollup, and no other worker has one. */
  lemma LabourCostsWorkers(db: Db, l: nat)
    requires TablesWellFormed(db)
    ensures (exists i :: 0 <= i < |LabourCosts(db)| && LabourCosts(db)[i].labourId == l)
        <==> l in db.labours.rows && exists k :: k in db.labourRecords.rows && db.labourRecords.rows[k].labourId == l
  {
    var rows := LabourCosts(db);
    var ws := WorkersWithRecords(db, Ids(db.labours));
    assert |rows| == |ws| && forall i :: 0 <= i < |rows| ==> rows[i].labourId == ws[i];
    WorkerHasRecords(db, l);
    if l in ws {
      var i :| 0 <= i < |ws| && ws[i] == l;
      assert rows[i].labourId == l;
    }
    if exists i :: 0 <= i < |rows| && rows[i].labourId == l {
      var i :| 0 <= i < |rows| && rows[i].labourId == l;
      assert ws[i] in ws;
    }
  }

  /** The rollup lists workers in store order, so no worker has two lines. */
  lemma LabourCostsOrdered(db: Db)
    requires WellFormed(db.labours)
    ensures forall i, j :: 0 <= i < j < |LabourCosts(db)| ==> LabourCosts(db)[i].labourId < LabourCosts(db)[j].labourId
  {
  }

  /** Line `i` belongs to an existing worker and totals the cost of that worker's records. */
  lemma LabourCostsLine(db: Db, i: nat)
    requires WellFormed(db.labours) && i < |LabourCosts(db)|
    ensures var row := LabourCosts(db)[i];
      && row.labourId in db.labours.rows
      && RecordsOfWorker(db, row.labourId) != []
      && row.totalCost == LabourCost(RecordsOfWorker(db, row.labourId), db.labours.rows)
  {
    var ws := WorkersWithRecords(db, Ids(db.labours));
    assert ws[i] in ws;
  }

  /** Each line's total, times 8, is the worker's daily wage times the hours on their records. */
  lemma LabourCostsTotals(db: Db, i: nat)
    requires WellFormed(db.labours) && i < |LabourCosts(db)|
    ensures var row := LabourCosts(db)[i];
      && row.labourId in db.labours.rows
      && row.totalCost * HOURS_PER_DAY
         == TotalHours(RecordsOfWorker(db, row.labourId)) * db.labours.rows[row.labourId].dailyWage
  {
    LabourCostsLine(db, i);
    var l := LabourCosts(db)[i].labourId;
    var records := RecordsOfWorker(db, l);
    assert forall j :: 0 <= j < |records| ==> records[j].labourId == l by {
      forall j | 0 <= j < |records| ensures records[j].labourId == l {
        assert records[j] in records;
      }
    }
    WorkerCostFromHours(records, db.labours.rows, l);
  }

  // ---------------------------------------------------------------------
  // Crop detail page (`view_crop_detail`)
  // ---------------------------------------------------------------------

  datatype CropDetail = CropDetail(
    crop: Crop,
    labourRecords: seq<LabourRecord>,
    costRecords: seq<CostRecord>,
    totalCost: real,
    totalLabourCost: real,
    revenue: real,
    grossProfit: real)

  /**
   * The crop with all of its labour and cost records and its figures, or
   * None (not found) for an unknown key.
   */
  function ViewCropDetail(db: Db, id: nat): (r: Option<CropDetail>)
    requires TablesWellFormed(db)
    ensures r.None? <==> id !in db.crops.rows
    ensures r.Some? ==>
      && r.value.crop == db.crops.rows[id]
      && r.value.costRecords == CostRecordsOf(db, id)
      && r.value.labourRecords == LabourRecordsOf(db, id)
      && (forall c :: c in r.value.costRecords ==> c.cropId == id)
      && (forall l :: l in r.value.labourRecords ==> l.cropId == id)
      && (forall k :: k in db.costRecords.rows && db.costRecords.rows[k].cropId == id ==>
            db.costRecords.rows[k] in r.value.costRecords)
      && (forall k :: k in db.labourRecords.rows && db.labourRecords.rows[k].cropId == id ==>
            db.labourRecords.rows[k] in r.value.labourRecords)
      && r.value.totalCost == MaterialCost(r.value.costRecords)
      && r.value.totalLabourCost == LabourCost(r.value.labourRecords, db.labours.rows)
      && r.value.revenue == Revenue(r.value.crop)
      && r.value.grossProfit == r.value.revenue - (r.value.totalCost + r.value.totalLabourCost)
      && r.value.totalCost == CropMaterialCost(db, id)
      && r.value.totalLabourCost == CropLabourCost(db, id)
      && r.value.grossProfit == CropProfit(db, id)
  {
    if id !in db.crops.rows then None
    else
      var costs, records := CostRecordsOf(db, id), LabourRecordsOf(db, id);
      assert forall k :: k in db.costRecords.rows && db.costRecords.rows[k].cropId == id ==> db.costRecords.rows[k] in costs by {
        forall k | k in db.costRecords.rows && db.costRecords.rows[k].cropId == id
          ensures db.costRecords.rows[k] in costs
        {
          assert CostCrop(db.costRecords.rows[k]) == id;
        }
      }
      assert forall k :: k in db.labourRecords.rows && db.labourRecords.rows[k].cropId == id ==> db.labourRecords.rows[k] in records by {
        forall k | k in db.labourRecords.rows && db.labourRecords.rows[k].cropId == id
          ensures db.labourRecords.rows[k] in records
        {
          assert RecordCrop(db.labourRecords.rows[k]) == id;
        }
      }
      var d := CropDetail(db.crops.rows[id], records, costs,
                          CropMaterialCost(db, id), CropLabourCost(db, id), CropRevenue(db, id), CropProfit(db, id));
      Some(d)
  }

  // ---------------------------------------------------------------------
  // Chart feed (`api_crop_stats`)
  // ---------------------------------------------------------------------

  datatype CropStats = CropStats(labels: seq<string>, revenue: seq<real>, costs: seq<real>, profit: seq<real>)

  /** Four parallel lists with one entry per crop of `ids`; entry i describes crop ids[i]. */
  function StatsOf(db: Db, ids: seq<nat>): (s: CropStats)
    requires AreCrops(db, ids)
    ensures |s.labels| == |s.revenue| == |s.costs| == |s.profit| == |ids|
    ensures forall i :: 0 <= i < |ids| ==>
      && s.labels[i] == db.crops.rows[ids[i]].cropType
      && s.revenue[i] == CropRevenue(db, ids[i])
      && s.costs[i] == CropCost(db, ids[i])
      && s.profit[i] == s.revenue[i] - s.costs[i]
  {
    assert forall i :: 0 <= i < |ids| ==> ids[i] in db.crops.rows by {
      forall i | 0 <= i < |ids| ensures ids[i] in db.crops.rows {
        assert ids[i] in ids;
      }
    }
    var labels := seq(|ids|, i requires 0 <= i < |ids| => db.crops.rows[ids[i]].cropType);
    var revenue := seq(|ids|, i requires 0 <= i < |ids| => CropRevenue(db, ids[i]));
    var costs := seq(|ids|, i requires 0 <= i < |ids| => CropCost(db, ids[i]));
    var profit := seq(|ids|, i requires 0 <= i < |ids| => CropProfit(db, ids[i]));
    CropStats(labels, revenue, costs, profit)
  }

  /** `api_crop_stats`: the lists cover every crop once, in store order. */
  function CropStatsFeed(db: Db): (s: CropStats)
    requires WellFormed(db.crops)
    ensures |s.labels| == |s.revenue| == |s.costs| == |s.profit| == |db.crops.rows|
  {
    IdsCount(db.crops);
    StatsOf(db, CropIds(db))
  }

  lemma {:induction false} FeedSums(db: Db, ids: seq<nat>, revenue: seq<real>, costs: seq<real>, profit: seq<real>)
    requires AreCrops(db, ids)
    requires |revenue| == |costs| == |profit| == |ids|
    requires forall i :: 0 <= i < |ids| ==>
      revenue[i] == CropRevenue(db, ids[i]) && costs[i] == CropCost(db, ids[i]) && profit[i] == CropProfit(db, ids[i])
    ensures SumReals(revenue) == SumRevenue(db, ids)
    ensures SumReals(costs) == SumCost(db, ids)
    ensures SumReals(profit) == SumProfit(db, ids)
  {
    if ids != [] {
      var n := |ids| - 1;
      FeedSums(db, ids[..n], revenue[..n], costs[..n], profit[..n]);
    }
  }

  /** The chart feed adds up to the totals of the reports page. */
  lemma FeedMatchesTotals(db: Db)
    requires WellFormed(db.crops)
    ensures var s := CropStatsFeed(db);
      && SumReals(s.revenue) == Totals(db).totalRevenue
      && SumReals(s.costs) == Totals(db).totalCosts
      && SumReals(s.profit) == Totals(db).totalProfit
  {
    var s := CropStatsFeed(db);
    FeedSums(db, CropIds(db), s.revenue, s.costs, s.profit);
    TotalProfitIsSumOfCropProfits(db);
  }
}

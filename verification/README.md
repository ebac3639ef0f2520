# Farm record store — a Dafny model

The application keeps the records of a small farm: **fields**, the
**crops** sown on them, the **labours** (workers), **labour records**
(hours a worker spent on a crop) and **cost records** (money spent on a
crop). Web handlers add, edit and delete these rows. Three read-only views
add them up:
- the dashboard;
- the reports page, with a per-crop profit table and a per-worker labour
  cost rollup;
- a JSON chart feed.

This project models that core and proves what it computes:

- `Records.dfy`: the five row types, the market price (25 per unit of
  yield), the 8-hour working day, and the status strings.
- `Tables.dfy`: a table is a map from integer keys to rows, plus an
  autoincrement counter. Queries see rows in ascending key order.
- `Schema.dfy`: the whole database and its integrity invariant, called
  `Consistent`. It requires that keys stay below their counters and that no
  row is an orphan. It also defines the per-crop and per-worker record
  queries. All of them are one generic foreign-key filter in `Tables.dfy`.
- `Metrics.dfy`: the per-record and per-crop figures of `app/models.py`.
  These are the cost of a labour record, material cost, labour cost,
  revenue and gross profit. The file also states how each figure moves
  when one record is added or removed.
- `Cascade.dfy`: the `delete-orphan` cascades. Deleting a crop takes its
  labour and cost records with it. Deleting a field takes its crops with
  them. Deleting a worker takes their labour records.
- `Store.dfy`: the add, edit and delete handlers of `app/routes.py`, as
  methods of a `FarmStore` class that updates its tables in place. Every
  handler keeps `Consistent`. A handler given an unknown key fails with
  `NotFound` and changes nothing. An edit that names a missing parent
  fails with `MissingParent` and changes nothing. An insert that names a
  missing parent fails with `MissingParent` and stores no row, but it
  still uses up the next key of its table, so the following insert skips
  that key.
- `Reports.dfy`: the dashboard, the report totals, the crop-profit loop,
  the labour cost rollup, the crop detail page and the chart feed. It also
  proves how these views relate to each other.
- `Scenario.dfy`: a client of the store. It plants a crop, books work and
  expenses, and harvests the crop. It proves the resulting revenue, cost
  and profit.

Two points of the handlers' behaviour shape the model:
- **`edit_crop` does not replace the whole row.** It keeps the actual
  yield and actual harvest date when the form leaves them blank
  (`app/routes.py:138-141`).
- **There is no edit handler for labour records or cost records**, so the
  model has none.

Crop status is matched in two ways:
- The dashboard filters by status in SQL (`app/routes.py:19`, `:23`). It
  runs against the MySQL database of `config.py:20`, whose default
  collation compares case-insensitively.
- The crop-profit loop compares the status in Python with `==`
  (`app/routes.py:281`), which is exact.

The model keeps both: `Reports.Comparison` is `Exact` or `Collated`. A crop
stored as "harvested" therefore counts toward the dashboard's revenue but
is missing from the profit table.

## Model

| member | source | states |
|---|---|---|
| Metrics.LabourRecordCost | app/models.py:78-82 | a record whose worker is gone costs nothing |
| Metrics.RecordCostShare | app/models.py:78-82 | a record's cost times 8 equals its hours times its worker's daily wage |
| Metrics.FullDayCostsDailyWage | app/models.py:78-82 | eight hours of work cost exactly one daily wage |
| Metrics.MaterialCost | app/models.py:34-35 | no cost records means zero material cost; non-negative amounts give a non-negative total |
| Metrics.MaterialCostAppend | app/models.py:34-35 | the material cost of two record lists together is the sum of their costs |
| Metrics.LabourCost | app/models.py:37-38 | no labour records means zero labour cost |
| Metrics.LabourCostAppend | app/models.py:37-38 | the labour cost of two record lists together is the sum of their costs |
| Metrics.LabourCostNonNegative | app/models.py:37-38 | with non-negative hours and wages, labour cost is never negative |
| Metrics.Revenue | app/models.py:40-45 | revenue is the actual yield times the market price 25, and 0 when no yield is recorded |
| Metrics.GrossProfit | app/models.py:47-50 | definition of gross profit (revenue less material and labour cost); a crop with no records keeps its whole revenue; GrossProfitWithCost, GrossProfitWithLabour and GrossProfitAtMostRevenue state how records lower it |
| Metrics.GrossProfitWithCost | app/models.py:47-50 | one more cost record lowers gross profit by exactly its amount |
| Metrics.GrossProfitWithLabour | app/models.py:47-50 | one more labour record lowers gross profit by exactly its cost |
| Metrics.GrossProfitAtMostRevenue | app/models.py:47-50 | with non-negative amounts, hours and wages, gross profit never exceeds revenue |
| Metrics.CropProfit | app/models.py:47-50 | a stored crop's profit is its revenue minus its material and labour costs |
| Metrics.NoRecordsNoCost | app/models.py:34-38 | a crop with no cost or labour records has zero material and labour cost |
| Metrics.CropMaterialCostAfterInsert | app/routes.py:246-255 | inserting a cost record adds its amount to its own crop's material cost and leaves other crops' costs unchanged |
| Metrics.CropMaterialCostAfterRemove | app/routes.py:263-265 | deleting a cost record subtracts its amount from its crop's material cost |
| Metrics.CropLabourCostAfterInsert | app/routes.py:207-216 | inserting a labour record adds its cost to its own crop's labour cost and leaves other crops' costs unchanged |
| Metrics.CropLabourCostAfterRemove | app/routes.py:229-231 | deleting a labour record subtracts its cost from its crop's labour cost |
| Tables.Insert | app/models.py:5 | an autoincrement insert uses a fresh key, stores the row under it, keeps every other row and grows the table by one |
| Tables.InsertAppendsId | app/models.py:5 | the new row's key comes after every existing key in query order |
| Tables.Filter | app/routes.py:19-25 | keeps exactly the listed keys the test accepts, keeps their order, and never lengthens the list (a `filter_by` over a query) |
| Tables.FilterSnoc | app/routes.py:281-282 | appending a key appends it to the filtered list exactly when the test accepts it, as the loop's `if` does |
| Tables.KeysWhere | app/models.py:31-32 | lists exactly the keys below n whose row names the parent, in ascending order |
| Tables.RowsWhere | app/models.py:31-32 | every listed row names the parent, and every row below n that names it is listed (`crop.cost_records`, `crop.labour_records`) |
| Tables.RowsWhereByKeys | app/models.py:64 | the listing has one entry per matching key, in key order, so each child row is listed (and summed) exactly once |
| Tables.RowsWhereEmpty | app/models.py:31-32 | a parent's listing is empty exactly when no row names it |
| Tables.InsertRowsWhere | app/models.py:31-32 | an insert appends the new row to its parent's listing and to no other |
| Tables.IdsCount | app/routes.py:17-18 | a table's query lists each row exactly once, so its length is the row count |
| Schema.EmptyDb | app/models.py:4-94 | a fresh schema has every table empty and is consistent |
| Cascade.DeleteCropRows | app/models.py:31-32 | deleting a crop removes exactly that crop and its labour and cost records; the result stays consistent |
| Cascade.CascadeFieldCropsRemoves | app/models.py:11 | walking the crop keys below n removes exactly the field's crops below n and their records |
| Cascade.DeleteFieldRows | app/models.py:11 | definition of the field delete with its crop cascade; only the deleted field leaves the fields table, workers are untouched, no crop is added and no key counter moves; DeleteFieldRowsRemoves and DeleteFieldLeavesNoCrops state the cascade |
| Cascade.DeleteFieldRowsRemoves | app/models.py:11 | deleting a field removes the field, all its crops and all their records, changes nothing else, and stays consistent |
| Cascade.DeleteFieldLeavesNoCrops | app/models.py:11 | after a field is deleted, no crop of that field and no record of such a crop remains |
| Cascade.DeleteLabourRows | app/models.py:64 | deleting a worker removes exactly the worker and their labour records; the result stays consistent |
| Store.EditedCrop | app/routes.py:128-141 | every editable column comes from the form; the actual harvest date and actual yield change only when supplied |
| Store.EditedCropIdempotent | app/routes.py:128-141 | submitting the same crop form twice has the same effect as submitting it once |
| Store.EditKeepsRevenueWithoutYield | app/routes.py:140-141 | a form without an actual yield leaves the crop's revenue unchanged |
| Store.FarmStore.constructor | app/models.py:4-94 | a new store is empty and consistent |
| Store.FarmStore.AddField | app/routes.py:45-57 | inserts the field under the next key and keeps the store consistent |
| Store.FarmStore.EditField | app/routes.py:59-69 | an unknown key fails with nothing changed; otherwise it replaces name, area and location |
| Store.FarmStore.DeleteField | app/routes.py:71-77 | an unknown key fails with nothing changed; otherwise the loop over crops produces the field cascade |
| Store.FarmStore.AddCrop | app/routes.py:85-103 | a missing field rejects the insert, stores nothing and uses up the next crop key; otherwise the new crop is Growing with no actual yield or harvest date |
| Store.FarmStore.EditCrop | app/routes.py:122-147 | an unknown crop or a missing field fails with nothing changed; otherwise the crop becomes EditedCrop of the form |
| Store.FarmStore.DeleteCrop | app/routes.py:149-155 | an unknown key fails with nothing changed; otherwise the crop goes with its records |
| Store.FarmStore.AddLabour | app/routes.py:163-176 | inserts the worker as Active under the next key |
| Store.FarmStore.EditLabour | app/routes.py:178-190 | an unknown key fails with nothing changed; otherwise it replaces name, designation, contact, wage and status |
| Store.FarmStore.DeleteLabour | app/routes.py:192-198 | an unknown key fails with nothing changed; otherwise the worker goes with their labour records |
| Store.FarmStore.AddLabourRecord | app/routes.py:201-220 | a missing crop or worker rejects the insert, stores nothing and uses up the next labour-record key; otherwise the crop's labour cost grows by the record's cost |
| Store.FarmStore.DeleteLabourRecord | app/routes.py:227-233 | an unknown key fails with nothing changed; otherwise the crop's labour cost drops by the record's cost |
| Store.FarmStore.AddCost | app/routes.py:241-259 | a missing crop rejects the insert, stores nothing and uses up the next cost key; otherwise the date defaults to now and the crop's material cost grows by the amount |
| Store.FarmStore.DeleteCost | app/routes.py:261-267 | an unknown key fails with nothing changed; otherwise the crop's material cost drops by the amount |
| Reports.CropIds | app/routes.py:272 | all crops are listed, each once, in ascending key order |
| Reports.CollationWidensExact | app/routes.py:19-23 | an exact status match is also a collated one; "harvested" matches Harvested under the collation but not exactly; Failed matches neither Harvested nor Growing |
| Reports.WithStatus | app/routes.py:19 | keeps exactly the listed crops whose status matches under the chosen comparison, in order |
| Reports.WithoutStatus | app/routes.py:23-25 | keeps exactly the listed crops whose status does not match under the chosen comparison, keeping ascending key order |
| Reports.Dashboard | app/routes.py:16-37 | gives the row counts of fields, crops and workers, the number of crops matching Growing under the collation, and profit as revenue minus costs |
| Reports.AsymmetricProfitSplit | app/routes.py:23-25 | revenue of Harvested crops minus cost of all crops equals the Harvested crops' profit minus the other crops' cost |
| Reports.DashboardProfit | app/routes.py:34 | the dashboard's gross profit is the Harvested crops' profit minus the cost of every crop that is not Harvested |
| Reports.Totals | app/routes.py:274-276 | total profit is total revenue minus total costs |
| Reports.RevenueSplitsByStatus | app/routes.py:274 | total revenue is the revenue of crops with a status plus that of crops without it |
| Reports.ProfitSumsCropProfits | app/routes.py:274-276 | summed revenue minus summed cost equals the sum of the per-crop profits |
| Reports.TotalProfitIsSumOfCropProfits | app/routes.py:276 | the reports page's total profit is the sum of every crop's gross profit |
| Reports.ReportsAndDashboard | app/routes.py:23-25 | the two pages agree on costs; the reports page's revenue also counts crops that are not Harvested |
| Reports.HarvestedIds | app/routes.py:280-281 | lists exactly the crops whose status is exactly Harvested, in key order |
| Reports.ProfitTableWithinDashboard | app/routes.py:23 | every crop of the profit table counts toward the dashboard's revenue; a crop stored as "harvested" counts there but is missing from the table |
| Reports.ProfitRow | app/routes.py:282-289 | a row holds the crop's type, its field's name, its revenue, its material plus labour cost, its gross profit and its actual yield |
| Reports.BuildCropProfits | app/routes.py:279-289 | the loop yields one row per Harvested crop, in order, each equal to that crop's profit row |
| Reports.WorkersWithRecords | app/routes.py:292 | keeps exactly the workers with at least one labour record, in order |
| Reports.WorkerHasRecords | app/routes.py:292 | a worker's record listing is non-empty exactly when some stored labour record names them, the join condition |
| Reports.LabourCostsWorkers | app/routes.py:292 | a worker has a rollup line exactly when they exist and have a labour record (inner join) |
| Reports.LabourCosts | app/routes.py:292 | definition of the per-worker rollup; every line names an existing worker and carries that worker's name; LabourCostsWorkers, LabourCostsOrdered, LabourCostsLine and LabourCostsTotals state the rest |
| Reports.LabourCostsOrdered | app/routes.py:292 | rollup lines have strictly increasing worker keys, so no worker has two lines (group by) |
| Reports.LabourCostsLine | app/routes.py:292 | each line's total is the labour cost of all that worker's records |
| Reports.WorkerCostFromHours | app/routes.py:292 | one worker's summed record costs, times 8, equal their total hours times their daily wage |
| Reports.LabourCostsTotals | app/routes.py:292 | each line's total, times 8, equals the worker's total hours times their daily wage |
| Reports.ViewCropDetail | app/routes.py:105-120 | an unknown key gives not-found; otherwise the crop and exactly its stored cost and labour records (one entry per stored record, in key order), their material and labour cost, its revenue, and profit as revenue minus both costs, the same figures the crop itself reports |
| Reports.StatsOf | app/routes.py:307-312 | gives four parallel lists, where entry i is crop i's label, revenue, cost and profit, with profit equal to revenue minus cost |
| Reports.CropStatsFeed | app/routes.py:304-313 | each list has one entry per crop |
| Reports.FeedSums | app/routes.py:307-312 | the feed's lists add up to the summed revenue, cost and profit of the crops listed |
| Reports.FeedMatchesTotals | app/routes.py:304-313 | the chart feed's lists add up to the reports page's totals |
| Scenario.PlantRice | app/routes.py:45-103 | adding a field and a crop to a consistent store leaves the crop stored and no records booked |
| Scenario.Hire | app/routes.py:163-176 | a hired worker is stored with the given wage |
| Scenario.Work | app/routes.py:201-259 | a 200 expense and 16 hours at 100 a day book 200 material and 200 labour cost to the crop |
| Scenario.Harvest | app/routes.py:122-147 | marking the crop Harvested with yield 500 gives revenue 12500 and profit 12100 |
| Scenario.NorthRice | app/models.py:34-50 | the walk-through on a new store ends with revenue 12500, cost 400 and profit 12100 |

## Left out

- The web layer is not modelled: Flask routing, templates, flash
  messages, redirects, JSON encoding, and the GET form pages.
- Form parsing is not modelled. The handlers take typed values, so a
  malformed number or date, which the source turns into a server error,
  is outside the model. A blank optional field is `None`.
- `datetime.utcnow()` becomes a `now` parameter. Dates are integers.
- Floating point is not modelled. Amounts, hours and wages are exact reals,
  so float rounding and the two-decimal `:.2f` formatting of the
  dashboard and reports are not captured.
- Database sessions, transactions and commit failures other than a
  foreign key violation are not modelled. An insert or edit naming a
  missing parent is modelled as refused (`MissingParent`). The handlers themselves do not check; the model
  takes the refusal from the foreign keys of the MySQL backend named in
  `config.py`. A refused edit changes nothing. A refused insert stores no
  row but consumes one auto-increment value, which MySQL does not reuse.
- The list views (`view_fields`, `view_crops`, `view_labours`,
  `view_labour_records`, `view_costs`) return every row and are not
  modelled separately.
- `add_labour_record` offers only Active workers on its form, but the
  POST handler accepts any worker. The model accepts any existing worker.
- Queries are taken to return rows in ascending key order. The source
  leaves the order to the database.
- The labour rollup's SQL join and group-by are modelled by what they
  compute (`Reports.LabourCosts`), with one line per worker in key order.
- `config.py` and the application factory in `app/__init__.py` are not
  part of this model.
- Metrics.LabourRecordCost: its ensures covers only the missing-worker
  case. The hours-times-wage-over-8 share is stated by
  `Metrics.RecordCostShare` and `Metrics.FullDayCostsDailyWage`.
- Reports.WithStatus: the collated comparison folds only ASCII letter
  case. The accent folding of MySQL's `utf8mb4_0900_ai_ci` collation and
  the trailing-space padding of older collations are not modelled.
- Reports.WithoutStatus: the same simplification of the collation as
  `Reports.WithStatus`.
- Reports.Dashboard: the same simplification of the collation as
  `Reports.WithStatus`.
- Scenario.Harvest: does not state the crop's stored actual yield, only
  the revenue and profit that follow from it.

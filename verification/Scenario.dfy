/**
 * A client of the store: a rice crop on a new field, one worker, one
 * expense and two days of work, then the crop is marked Harvested with its
 * actual yield. Each step states only what the store's contracts give it.
 */
module Scenario {
  import opened Records
  import opened Schema
  import opened Metrics
  import opened Store

  /** A field is added to a store with no records, and a rice crop is sown on it. */
  method PlantRice(store: FarmStore) returns (rice: nat)
    requires store.Valid()
    requires store.costRecords.rows == map[] && store.labourRecords.rows == map[]
    modifies store
    ensures store.Valid() && rice in store.crops.rows
    ensures store.costRecords.rows == map[] && store.labourRecords.rows == map[]
  {
    var north := store.AddField("North", 10.0, "", 0);
    var added := store.AddCrop(north, "Rice", "", 20240101, None, 50.0, None, "", 0);
    rice := added.id;
  }

  /** Hires a worker on a wage of 100 a day. */
  method Hire(store: FarmStore, rice: nat) returns (worker: nat)
    requires store.Valid() && rice in store.crops.rows
    requires store.costRecords.rows == map[] && store.labourRecords.rows == map[]
    modifies store
    ensures store.Valid() && rice in store.crops.rows && worker in store.labours.rows
    ensures store.labours.rows[worker].dailyWage == 100.0
    ensures store.costRecords.rows == map[] && store.labourRecords.rows == map[]
  {
    worker := store.AddLabour("L", "", "", 100.0, 0);
  }

  /** Seeds worth 200 and 16 hours (two days) of work are booked to the crop. */
  method Work(store: FarmStore, rice: nat, worker: nat)
    requires store.Valid() && rice in store.crops.rows && worker in store.labours.rows
    requires store.labours.rows[worker].dailyWage == 100.0
    requires store.costRecords.rows == map[] && store.labourRecords.rows == map[]
    modifies store
    ensures store.Valid() && rice in store.crops.rows
    ensures CropMaterialCost(store.State(), rice) == 200.0
    ensures CropLabourCost(store.State(), rice) == 200.0
  {
    NoRecordsNoCost(store.State(), rice);
    var added := store.AddCost(rice, "Seeds", "", 200.0, None, "", 0);
    added := store.AddLabourRecord(rice, worker, 20240102, 16.0, "Weeding", "");
  }

  /** The crop is edited to Harvested with 500 units; revenue is 500 * 25. */
  method Harvest(store: FarmStore, rice: nat)
    requires store.Valid() && rice in store.crops.rows
    requires CropMaterialCost(store.State(), rice) == 200.0
    requires CropLabourCost(store.State(), rice) == 200.0
    modifies store
    ensures store.Valid() && rice in store.crops.rows
    ensures store.crops.rows[rice].status == HARVESTED
    ensures CropRevenue(store.State(), rice) == 12500.0
    ensures CropProfit(store.State(), rice) == 12100.0
  {
    var crop := store.crops.rows[rice];
    var form := CropForm(crop.fieldId, crop.cropType, crop.variety, crop.seedingDate,
                         crop.expectedHarvestDate, crop.quantitySeeded, crop.expectedYield,
                         HARVESTED, crop.notes, None, Some(500.0));
    var res := store.EditCrop(rice, form);
  }

  /** The whole walk-through: the crop ends with a profit of 12100. */
  method NorthRice() returns (revenue: real, cost: real, profit: real)
    ensures revenue == 12500.0 && cost == 400.0 && profit == 12100.0
  {
    var store := new FarmStore();
    var rice := PlantRice(store);
    var worker := Hire(store, rice);
    Work(store, rice, worker);
    Harvest(store, rice);
    revenue := CropRevenue(store.State(), rice);
    cost := CropCost(store.State(), rice);
    profit := CropProfit(store.State(), rice);
  }
}

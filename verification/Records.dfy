/**
 * The five row kinds of the farm record store (app/models.py) as values.
 * Identifiers are the autoincrement primary keys; a row refers to its
 * parent by that key. Dates and timestamps are opaque integers.
 */
module Records {

  datatype Option<+T> = None | Some(value: T)

  /** A calendar date or timestamp; its encoding does not matter here. */
  type Date = int

  /** Fixed market price per kg of actual yield. */
  const MARKET_PRICE: real := 25.0

  /** Working hours in one paid day: the hourly rate is daily_wage / 8. */
  const HOURS_PER_DAY: real := 8.0

  /** Crop status values the application uses (the column itself is free text). */
  const GROWING: string := "Growing"
  const HARVESTED: string := "Harvested"
  const FAILED: string := "Failed"

  /** The status a new worker gets. */
  const ACTIVE: string := "Active"

  datatype Field = Field(
    name: string,
    area: real,           // acres
    location: string,
    createdDate: Date)

  datatype Crop = Crop(
    fieldId: nat,
    cropType: string,
    variety: string,
    seedingDate: Date,
    expectedHarvestDate: Option<Date>,
    actualHarvestDate: Option<Date>,
    quantitySeeded: real, // kg
    expectedYield: Option<real>,
    actualYield: Option<real>,
    status: string,
    notes: string,
    createdDate: Date)

  datatype Labour = Labour(
    name: string,
    designation: string,
    contact: string,
    dailyWage: real,
    status: string,
    createdDate: Date)

  datatype LabourRecord = LabourRecord(
    cropId: nat,
    labourId: nat,
    workDate: Date,
    hoursWorked: real,
    workType: string,
    notes: string)

  datatype CostRecord = CostRecord(
    cropId: nat,
    category: string,
    description: string,
    amount: real,
    transactionDate: Date,
    notes: string)
}

/**
 * The relational schema of app/models.py: five tables, the foreign keys
 * between them, and the one-to-many relationships a row exposes
 * (a crop's cost records and labour records, a labour's records).
 */
module Schema {
  import opened Records
  import opened Tables

  datatype Db = Db(
    fields: Table<Field>,
    crops: Table<Crop>,
    labours: Table<Labour>,
    labourRecords: Table<LabourRecord>,
    costRecords: Table<CostRecord>)

  ghost predicate TablesWellFormed(db: Db)
  {
    && WellFormed(db.fields)
    && WellFormed(db.crops)
    && WellFormed(db.labours)
    && WellFormed(db.labourRecords)
    && WellFormed(db.costRecords)
  }

  /** Referential integrity: every foreign key resolves to a row. */
  ghost predicate NoOrphans(db: Db)
  {
    && (forall c :: c in db.crops.rows ==> db.crops.rows[c].fieldId in db.fields.rows)
    && (forall k :: k in db.labourRecords.rows ==>
          && db.labourRecords.rows[k].cropId in db.crops.rows
          && db.labourRecords.rows[k].labourId in db.labours.rows)
    && (forall k :: k in db.costRecords.rows ==> db.costRecords.rows[k].cropId in db.crops.rows)
  }

  /** The invariant every store operation keeps. */
  ghost predicate Consistent(db: Db)
  {
    TablesWellFormed(db) && NoOrphans(db)
  }

  function EmptyDb(): (db: Db)
    ensures Consistent(db)
    ensures db.fields.rows == map[] && db.crops.rows == map[] && db.labours.rows == map[]
    ensures db.labourRecords.rows == map[] && db.costRecords.rows == map[]
  {
    Db(Empty(), Empty(), Empty(), Empty(), Empty())
  }

  // ---------------------------------------------------------------------
  // Relationships, each listed in ascending key order.
  // ---------------------------------------------------------------------

  /** The foreign keys of the three relationships, as functions of the child row. */
  function CostCrop(r: CostRecord): nat { r.cropId }
  function RecordCrop(r: LabourRecord): nat { r.cropId }
  function RecordWorker(r: LabourRecord): nat { r.labourId }

  /** `Crop.cost_records`. */
  function CostRecordsOf(db: Db, cropId: nat): (s: seq<CostRecord>)
    ensures forall r :: r in s ==> r.cropId == cropId
  {
    RowsWhere(db.costRecords.rows, CostCrop, cropId, db.costRecords.next)
  }

  /** `Crop.labour_records`. */
  function LabourRecordsOf(db: Db, cropId: nat): (s: seq<LabourRecord>)
    ensures forall r :: r in s ==> r.cropId == cropId
  {
    RowsWhere(db.labourRecords.rows, RecordCrop, cropId, db.labourRecords.next)
  }

  /** `Labour.labour_records`. */
  function RecordsOfWorker(db: Db, labourId: nat): (s: seq<LabourRecord>)
    ensures forall r :: r in s ==> r.labourId == labourId
  {
    RowsWhere(db.labourRecords.rows, RecordWorker, labourId, db.labourRecords.next)
  }
}

/**
 * The cascade rules declared on the relationships of app/models.py:
 * Field -> Crops, Crop -> LabourRecords and CostRecords,
 * Labour -> LabourRecords. Each delete removes the parent row and every
 * row that would otherwise be left pointing at a missing parent.
 * Deleting a field walks its crops in key order and deletes each one in
 * turn, so the order and completeness of the cascade can be checked.
 */
module Cascade {
  import opened Records
  import opened Tables
  import opened Schema

  /** Keys of the labour records that belong to one of the crops `cs`. */
  ghost function LabourRecordsOfCrops(db: Db, cs: set<nat>): set<nat>
  {
    set k | k in db.labourRecords.rows && db.labourRecords.rows[k].cropId in cs
  }

  /** Keys of the cost records that belong to one of the crops `cs`. */
  ghost function CostRecordsOfCrops(db: Db, cs: set<nat>): set<nat>
  {
    set k | k in db.costRecords.rows && db.costRecords.rows[k].cropId in cs
  }

  /** Keys of the crops grown on field `fieldId` whose key is below `n`. */
  ghost function CropsOfFieldBelow(db: Db, fieldId: nat, n: nat): set<nat>
  {
    set c | c in db.crops.rows && c < n && db.crops.rows[c].fieldId == fieldId
  }

  ghost function CropsOfField(db: Db, fieldId: nat): set<nat>
  {
    set c | c in db.crops.rows && db.crops.rows[c].fieldId == fieldId
  }

  /** Deletes crop `cropId` with its labour records and cost records. */
  function DeleteCropRows(db: Db, cropId: nat): (r: Db)
    ensures r.fields == db.fields && r.labours == db.labours
    ensures r.crops.next == db.crops.next && r.labourRecords.next == db.labourRecords.next
    ensures r.costRecords.next == db.costRecords.next
    ensures r.crops.rows == db.crops.rows - {cropId}
    ensures r.labourRecords.rows == db.labourRecords.rows - LabourRecordsOfCrops(db, {cropId})
    ensures r.costRecords.rows == db.costRecords.rows - CostRecordsOfCrops(db, {cropId})
    ensures Consistent(db) ==> Consistent(r)
  {
    var lr, cr := db.labourRecords.rows, db.costRecords.rows;
    db.(crops := db.crops.(rows := db.crops.rows - {cropId}),
        labourRecords := db.labourRecords.(rows := map k | k in lr && lr[k].cropId != cropId :: lr[k]),
        costRecords := db.costRecords.(rows := map k | k in cr && cr[k].cropId != cropId :: cr[k]))
  }

  /** Deletes, in ascending key order, every crop of field `fieldId` with key below `n`. */
  function CascadeFieldCrops(db: Db, fieldId: nat, n: nat): Db
  {
    if n == 0 then db
    else
      var d := CascadeFieldCrops(db, fieldId, n - 1);
      if n - 1 in d.crops.rows && d.crops.rows[n - 1].fieldId == fieldId then DeleteCropRows(d, n - 1) else d
  }

  /**
   * Deletes field `fieldId` after deleting all of its crops. Only the field
   * row itself leaves the fields table and the workers are untouched;
   * DeleteFieldRowsRemoves states what happens to crops and records.
   */
  function DeleteFieldRows(db: Db, fieldId: nat): (r: Db)
    ensures r.fields.rows == db.fields.rows - {fieldId} && r.fields.next == db.fields.next
    ensures r.labours == db.labours
    ensures r.crops.rows.Keys <= db.crops.rows.Keys
    ensures r.crops.next == db.crops.next && r.labourRecords.next == db.labourRecords.next
         && r.costRecords.next == db.costRecords.next
  {
    CascadeFieldCropsRemoves(db, fieldId, db.crops.next);
    var d := CascadeFieldCrops(db, fieldId, db.crops.next);
    d.(fields := d.fields.(rows := d.fields.rows - {fieldId}))
  }

  /** Deletes worker `labourId` with every labour record that names the worker. */
  function DeleteLabourRows(db: Db, labourId: nat): (r: Db)
    ensures r.fields == db.fields && r.crops == db.crops && r.costRecords == db.costRecords
    ensures r.labours.next == db.labours.next && r.labourRecords.next == db.labourRecords.next
    ensures r.labours.rows == db.labours.rows - {labourId}
    ensures forall k :: k in r.labourRecords.rows <==> k in db.labourRecords.rows && db.labourRecords.rows[k].labourId != labourId
    ensures forall k :: k in r.labourRecords.rows ==> r.labourRecords.rows[k] == db.labourRecords.rows[k]
    ensures Consistent(db) ==> Consistent(r)
  {
    var lr := db.labourRecords.rows;
    db.(labours := db.labours.(rows := db.labours.rows - {labourId}),
        labourRecords := db.labourRecords.(rows := map k | k in lr && lr[k].labourId != labourId :: lr[k]))
  }

  /** Removing the labour records of one more crop from a table already without those of `gone`. */
  lemma LabourRecordsOfOneMore(db: Db, d: Db, gone: set<nat>, x: nat)
    requires d.labourRecords.rows == db.labourRecords.rows - LabourRecordsOfCrops(db, gone)
    ensures d.labourRecords.rows - LabourRecordsOfCrops(d, {x})
         == db.labourRecords.rows - LabourRecordsOfCrops(db, gone + {x})
  {
    assert LabourRecordsOfCrops(db, gone + {x}) == LabourRecordsOfCrops(db, gone) + LabourRecordsOfCrops(d, {x});
  }

  /** Removing the cost records of one more crop from a table already without those of `gone`. */
  lemma CostRecordsOfOneMore(db: Db, d: Db, gone: set<nat>, x: nat)
    requires d.costRecords.rows == db.costRecords.rows - CostRecordsOfCrops(db, gone)
    ensures d.costRecords.rows - CostRecordsOfCrops(d, {x})
         == db.costRecords.rows - CostRecordsOfCrops(db, gone + {x})
  {
    assert CostRecordsOfCrops(db, gone + {x}) == CostRecordsOfCrops(db, gone) + CostRecordsOfCrops(d, {x});
  }

  /**
   * After the walk over keys below `n`, exactly the crops of the field
   * below `n` are gone, with exactly their records; nothing else moved.
   */
  lemma {:induction false} CascadeFieldCropsRemoves(db: Db, fieldId: nat, n: nat)
    ensures var r := CascadeFieldCrops(db, fieldId, n);
      && r.fields == db.fields && r.labours == db.labours
      && r.crops.next == db.crops.next && r.labourRecords.next == db.labourRecords.next
      && r.costRecords.next == db.costRecords.next
      && r.crops.rows == db.crops.rows - CropsOfFieldBelow(db, fieldId, n)
      && r.labourRecords.rows == db.labourRecords.rows - LabourRecordsOfCrops(db, CropsOfFieldBelow(db, fieldId, n))
      && r.costRecords.rows == db.costRecords.rows - CostRecordsOfCrops(db, CropsOfFieldBelow(db, fieldId, n))
  {
    if n > 0 {
      var x := n - 1;
      CascadeFieldCropsRemoves(db, fieldId, x);
      var d := CascadeFieldCrops(db, fieldId, x);
      var gone, gone' := CropsOfFieldBelow(db, fieldId, x), CropsOfFieldBelow(db, fieldId, n);
      if x in d.crops.rows && d.crops.rows[x].fieldId == fieldId {
        assert x in db.crops.rows && db.crops.rows[x].fieldId == fieldId;
        assert gone' == gone + {x};
        LabourRecordsOfOneMore(db, d, gone, x);
        CostRecordsOfOneMore(db, d, gone, x);
      } else {
        assert gone' == gone;
      }
    }
  }

  /**
   * Deleting a field removes the field, all of its crops and every labour
   * and cost record of those crops, leaves every other row as it was, and
   * keeps referential integrity.
   */
  lemma DeleteFieldRowsRemoves(db: Db, fieldId: nat)
    requires TablesWellFormed(db)
    ensures var r := DeleteFieldRows(db, fieldId);
      && r.labours == db.labours
      && r.fields.rows == db.fields.rows - {fieldId}
      && r.crops.rows == db.crops.rows - CropsOfField(db, fieldId)
      && r.labourRecords.rows == db.labourRecords.rows - LabourRecordsOfCrops(db, CropsOfField(db, fieldId))
      && r.costRecords.rows == db.costRecords.rows - CostRecordsOfCrops(db, CropsOfField(db, fieldId))
      && (Consistent(db) ==> Consistent(r))
  {
    CascadeFieldCropsRemoves(db, fieldId, db.crops.next);
    assert CropsOfFieldBelow(db, fieldId, db.crops.next) == CropsOfField(db, fieldId);
  }

  /** After a field is deleted no crop of it remains, and no record of such a crop. */
  lemma DeleteFieldLeavesNoCrops(db: Db, fieldId: nat)
    requires Consistent(db)
    ensures var r := DeleteFieldRows(db, fieldId);
      && fieldId !in r.fields.rows
      && Consistent(r)
      && (forall c :: c in r.crops.rows ==> r.crops.rows[c].fieldId != fieldId)
      && (forall k :: k in r.labourRecords.rows ==> r.crops.rows[r.labourRecords.rows[k].cropId].fieldId != fieldId)
      && (forall k :: k in r.costRecords.rows ==> r.crops.rows[r.costRecords.rows[k].cropId].fieldId != fieldId)
  {
    DeleteFieldRowsRemoves(db, fieldId);
  }
}

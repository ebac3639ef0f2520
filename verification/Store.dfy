/**
 * The record store as the request handlers of app/routes.py drive it:
 * add, edit and delete per entity. A handler that looks a row up by key
 * fails with NotFound when it is absent; an insert or edit that names a
 * parent row that does not exist is refused by the database's foreign
 * key (MissingParent). A refused edit leaves the store as it was; a
 * refused insert stores no row but has already drawn its key from the
 * table's auto-increment counter, which the database does not give back,
 * so the next insert leaves a gap. Every operation keeps the store
 * Consistent: keys below their counters, no orphans.
 */
module Store {
  import opened Records
  import opened Tables
  import opened Schema
  import opened Metrics
  import opened Cascade

  datatype Failure = NotFound | MissingParent

  /** Result of an edit or delete. */
  datatype Outcome = Done | Failed(failure: Failure)

  /** Result of an insert that may be refused: the new key, or why not. */
  datatype Added = Created(id: nat) | Rejected(failure: Failure)

  /**
   * The crop edit form. `actualHarvestDate` and `actualYield` are None
   * when the form leaves them blank.
   */
  datatype CropForm = CropForm(
    fieldId: nat,
    cropType: string,
    variety: string,
    seedingDate: Date,
    expectedHarvestDate: Option<Date>,
    quantitySeeded: real,
    expectedYield: Option<real>,
    status: string,
    notes: string,
    actualHarvestDate: Option<Date>,
    actualYield: Option<real>)

  /**
   * The crop `edit_crop` leaves behind: every editable column is taken
   * from the form, except that the actual harvest date and the actual
   * yield are only replaced when the form supplies them.
   */
  function EditedCrop(crop: Crop, form: CropForm): (r: Crop)
    ensures r.fieldId == form.fieldId && r.cropType == form.cropType && r.variety == form.variety
    ensures r.seedingDate == form.seedingDate && r.expectedHarvestDate == form.expectedHarvestDate
    ensures r.quantitySeeded == form.quantitySeeded && r.expectedYield == form.expectedYield
    ensures r.status == form.status && r.notes == form.notes
    ensures r.createdDate == crop.createdDate
    ensures form.actualHarvestDate.None? ==> r.actualHarvestDate == crop.actualHarvestDate
    ensures form.actualHarvestDate.Some? ==> r.actualHarvestDate == form.actualHarvestDate
    ensures form.actualYield.None? ==> r.actualYield == crop.actualYield
    ensures form.actualYield.Some? ==> r.actualYield == form.actualYield
  {
    Crop(form.fieldId, form.cropType, form.variety, form.seedingDate, form.expectedHarvestDate,
         if form.actualHarvestDate.Some? then form.actualHarvestDate else crop.actualHarvestDate,
         form.quantitySeeded, form.expectedYield,
         if form.actualYield.Some? then form.actualYield else crop.actualYield,
         form.status, form.notes, crop.createdDate)
  }

  /** Submitting the same crop form twice has the effect of submitting it once. */
  lemma EditedCropIdempotent(crop: Crop, form: CropForm)
    ensures EditedCrop(EditedCrop(crop, form), form) == EditedCrop(crop, form)
  {
  }

  /** A blank actual yield on the form keeps the crop's revenue. */
  lemma EditKeepsRevenueWithoutYield(crop: Crop, form: CropForm)
    requires form.actualYield.None?
    ensures Revenue(EditedCrop(crop, form)) == Revenue(crop)
  {
  }

  class FarmStore {
    var fields: Table<Field>
    var crops: Table<Crop>
    var labours: Table<Labour>
    var labourRecords: Table<LabourRecord>
    var costRecords: Table<CostRecord>

    /** The store's contents as a value. */
    function State(): Db
      reads this
    {
      Db(fields, crops, labours, labourRecords, costRecords)
    }

    ghost predicate Valid()
      reads this
    {
      Consistent(State())
    }

    /** A freshly created schema: every table empty. */
    constructor ()
      ensures Valid() && State() == EmptyDb()
    {
      fields, crops, labours := Empty(), Empty(), Empty();
      labourRecords, costRecords := Empty(), Empty();
    }

    // ------------------------------------------------------------------
    // Fields
    // ------------------------------------------------------------------

    /** `add_field`. */
    method AddField(name: string, area: real, location: string, now: Date) returns (id: nat)
      requires Valid()
      modifies this
      ensures Valid()
      ensures id == old(fields.next) && id !in old(fields.rows)
      ensures State() == old(State()).(fields := Insert(old(fields), Field(name, area, location, now)))
    {
      id := fields.next;
      fields := Insert(fields, Field(name, area, location, now));
    }

    /** `edit_field`: overwrites name, area and location. */
    method EditField(id: nat, name: string, area: real, location: string) returns (res: Outcome)
      requires Valid()
      modifies this
      ensures Valid()
      ensures id !in old(fields.rows) ==> res == Failed(NotFound) && State() == old(State())
      ensures id in old(fields.rows) ==>
        && res == Done
        && State() == old(State()).(fields := old(fields).(rows := old(fields.rows)[id :=
             old(fields.rows)[id].(name := name, area := area, location := location)]))
    {
      if id !in fields.rows {
        return Failed(NotFound);
      }
      var field := fields.rows[id];
      field := field.(name := name);
      field := field.(area := area);
      field := field.(location := location);
      fields := fields.(rows := fields.rows[id := field]);
      res := Done;
    }

    /**
     * `delete_field`: deletes the field's crops one by one in key order,
     * each with its labour and cost records, then the field itself.
     */
    method DeleteField(id: nat) returns (res: Outcome)
      requires Valid()
      modifies this
      ensures Valid()
      ensures id !in old(fields.rows) ==> res == Failed(NotFound) && State() == old(State())
      ensures id in old(fields.rows) ==> res == Done && State() == DeleteFieldRows(old(State()), id)
    {
      if id !in fields.rows {
        return Failed(NotFound);
      }
      ghost var before := State();
      var c := 0;
      while c < crops.next
        invariant crops.next == before.crops.next && c <= crops.next
        invariant State() == CascadeFieldCrops(before, id, c)
      {
        if c in crops.rows && crops.rows[c].fieldId == id {
          PurgeCrop(c);
        }
        c := c + 1;
      }
      fields := fields.(rows := fields.rows - {id});
      DeleteFieldRowsRemoves(before, id);
      res := Done;
    }

    // ------------------------------------------------------------------
    // Crops
    // ------------------------------------------------------------------

    /**
     * `add_crop`: a new crop is Growing, with no actual harvest date and
     * no actual yield; the optional expected date and yield are None
     * when the form leaves them blank.
     */
    method AddCrop(fieldId: nat, cropType: string, variety: string, seedingDate: Date,
                   expectedHarvestDate: Option<Date>, quantitySeeded: real,
                   expectedYield: Option<real>, notes: string, now: Date) returns (res: Added)
      requires Valid()
      modifies this
      ensures Valid()
      ensures fieldId !in old(fields.rows) ==>
        res == Rejected(MissingParent) && State() == old(State()).(crops := old(crops).(next := old(crops.next) + 1))
      ensures fieldId in old(fields.rows) ==>
        && res == Created(old(crops.next))
        && State() == old(State()).(crops := Insert(old(crops),
             Crop(fieldId, cropType, variety, seedingDate, expectedHarvestDate, None,
                  quantitySeeded, expectedYield, None, GROWING, notes, now)))
        && crops.rows[res.id].status == GROWING
        && crops.rows[res.id].actualYield.None? && crops.rows[res.id].actualHarvestDate.None?
    {
      if fieldId !in fields.rows {
        ghost var d := State();
        crops := crops.(next := crops.next + 1);
        assert State() == d.(crops := d.crops.(next := d.crops.next + 1));
        assert TablesWellFormed(State()) && NoOrphans(State());
        return Rejected(MissingParent);
      }
      res := Created(crops.next);
      crops := Insert(crops, Crop(fieldId, cropType, variety, seedingDate, expectedHarvestDate, None,
                                  quantitySeeded, expectedYield, None, GROWING, notes, now));
    }

    /** `edit_crop`: see EditedCrop for which columns are replaced. */
    method EditCrop(id: nat, form: CropForm) returns (res: Outcome)
      requires Valid()
      modifies this
      ensures Valid()
      ensures id !in old(crops.rows) ==> res == Failed(NotFound) && State() == old(State())
      ensures id in old(crops.rows) && form.fieldId !in old(fields.rows) ==>
        res == Failed(MissingParent) && State() == old(State())
      ensures id in old(crops.rows) && form.fieldId in old(fields.rows) ==>
        && res == Done
        && State() == old(State()).(crops := old(crops).(rows := old(crops.rows)[id := EditedCrop(old(crops.rows)[id], form)]))
    {
      if id !in crops.rows {
        return Failed(NotFound);
      }
      if form.fieldId !in fields.rows {
        return Failed(MissingParent);
      }
      var crop := crops.rows[id];
      crop := crop.(fieldId := form.fieldId, cropType := form.cropType, variety := form.variety);
      crop := crop.(seedingDate := form.seedingDate, expectedHarvestDate := form.expectedHarvestDate);
      crop := crop.(quantitySeeded := form.quantitySeeded, expectedYield := form.expectedYield);
      crop := crop.(status := form.status, notes := form.notes);
      if form.actualHarvestDate.Some? {
        crop := crop.(actualHarvestDate := form.actualHarvestDate);
      }
      if form.actualYield.Some? {
        crop := crop.(actualYield := form.actualYield);
      }
      crops := crops.(rows := crops.rows[id := crop]);
      res := Done;
    }

    /** Deletes one crop with its labour and cost records. */
    method PurgeCrop(id: nat)
      modifies this
      ensures State() == DeleteCropRows(old(State()), id)
    {
      var lr, cr := labourRecords.rows, costRecords.rows;
      labourRecords := labourRecords.(rows := map k | k in lr && lr[k].cropId != id :: lr[k]);
      costRecords := costRecords.(rows := map k | k in cr && cr[k].cropId != id :: cr[k]);
      crops := crops.(rows := crops.rows - {id});
    }

    /** `delete_crop`. */
    method DeleteCrop(id: nat) returns (res: Outcome)
      requires Valid()
      modifies this
      ensures Valid()
      ensures id !in old(crops.rows) ==> res == Failed(NotFound) && State() == old(State())
      ensures id in old(crops.rows) ==> res == Done && State() == DeleteCropRows(old(State()), id)
    {
      if id !in crops.rows {
        return Failed(NotFound);
      }
      PurgeCrop(id);
      res := Done;
    }

    // ------------------------------------------------------------------
    // Labours
    // ------------------------------------------------------------------

    /** `add_labour`: a new worker is Active. */
    method AddLabour(name: string, designation: string, contact: string, dailyWage: real, now: Date)
      returns (id: nat)
      requires Valid()
      modifies this
      ensures Valid()
      ensures id == old(labours.next) && id !in old(labours.rows)
      ensures State() == old(State()).(labours := Insert(old(labours), Labour(name, designation, contact, dailyWage, ACTIVE, now)))
      ensures labours.rows[id].status == ACTIVE
    {
      id := labours.next;
      labours := Insert(labours, Labour(name, designation, contact, dailyWage, ACTIVE, now));
    }

    /** `edit_labour`: overwrites name, designation, contact, daily wage and status. */
    method EditLabour(id: nat, name: string, designation: string, contact: string, dailyWage: real, status: string)
      returns (res: Outcome)
      requires Valid()
      modifies this
      ensures Valid()
      ensures id !in old(labours.rows) ==> res == Failed(NotFound) && State() == old(State())
      ensures id in old(labours.rows) ==>
        && res == Done
        && State() == old(State()).(labours := old(labours).(rows := old(labours.rows)[id :=
             old(labours.rows)[id].(name := name, designation := designation, contact := contact,
                                    dailyWage := dailyWage, status := status)]))
    {
      if id !in labours.rows {
        return Failed(NotFound);
      }
      var labour := labours.rows[id];
      labour := labour.(name := name, designation := designation, contact := contact);
      labour := labour.(dailyWage := dailyWage, status := status);
      labours := labours.(rows := labours.rows[id := labour]);
      res := Done;
    }

    /** `delete_labour`: the worker goes with every record that names them. */
    method DeleteLabour(id: nat) returns (res: Outcome)
      requires Valid()
      modifies this
      ensures Valid()
      ensures id !in old(labours.rows) ==> res == Failed(NotFound) && State() == old(State())
      ensures id in old(labours.rows) ==> res == Done && State() == DeleteLabourRows(old(State()), id)
    {
      if id !in labours.rows {
        return Failed(NotFound);
      }
      var lr := labourRecords.rows;
      labourRecords := labourRecords.(rows := map k | k in lr && lr[k].labourId != id :: lr[k]);
      labours := labours.(rows := labours.rows - {id});
      res := Done;
    }

    // ------------------------------------------------------------------
    // Labour records
    // ------------------------------------------------------------------

    /** `add_labour_record`; adds the record's cost to its crop's labour cost. */
    method AddLabourRecord(cropId: nat, labourId: nat, workDate: Date, hoursWorked: real,
                           workType: string, notes: string) returns (res: Added)
      requires Valid()
      modifies this
      ensures Valid()
      ensures cropId !in old(crops.rows) || labourId !in old(labours.rows) ==>
        res == Rejected(MissingParent)
        && State() == old(State()).(labourRecords := old(labourRecords).(next := old(labourRecords.next) + 1))
      ensures cropId in old(crops.rows) && labourId in old(labours.rows) ==>
        && res == Created(old(labourRecords.next))
        && State() == old(State()).(labourRecords := Insert(old(labourRecords),
             LabourRecord(cropId, labourId, workDate, hoursWorked, workType, notes)))
        && CropLabourCost(State(), cropId) == old(CropLabourCost(State(), cropId))
             + LabourRecordCost(LabourRecord(cropId, labourId, workDate, hoursWorked, workType, notes), labours.rows)
    {
      if cropId !in crops.rows || labourId !in labours.rows {
        ghost var d := State();
        labourRecords := labourRecords.(next := labourRecords.next + 1);
        assert State() == d.(labourRecords := d.labourRecords.(next := d.labourRecords.next + 1));
        assert TablesWellFormed(State()) && NoOrphans(State());
        return Rejected(MissingParent);
      }
      var record := LabourRecord(cropId, labourId, workDate, hoursWorked, workType, notes);
      CropLabourCostAfterInsert(State(), record, cropId);
      res := Created(labourRecords.next);
      labourRecords := Insert(labourRecords, record);
    }

    /** `delete_labour_record`; removes the record's cost from its crop's labour cost. */
    method DeleteLabourRecord(id: nat) returns (res: Outcome)
      requires Valid()
      modifies this
      ensures Valid()
      ensures id !in old(labourRecords.rows) ==> res == Failed(NotFound) && State() == old(State())
      ensures id in old(labourRecords.rows) ==>
        && res == Done
        && State() == old(State()).(labourRecords := old(labourRecords).(rows := old(labourRecords.rows) - {id}))
        && var r := old(labourRecords.rows)[id];
           CropLabourCost(State(), r.cropId) == old(CropLabourCost(State(), r.cropId)) - LabourRecordCost(r, labours.rows)
    {
      if id !in labourRecords.rows {
        return Failed(NotFound);
      }
      CropLabourCostAfterRemove(State(), id);
      labourRecords := labourRecords.(rows := labourRecords.rows - {id});
      res := Done;
    }

    // ------------------------------------------------------------------
    // Cost records
    // ------------------------------------------------------------------

    /**
     * `add_cost`: the transaction date defaults to `now` when the form
     * leaves it blank; adds the amount to its crop's material cost.
     */
    method AddCost(cropId: nat, category: string, description: string, amount: real,
                   transactionDate: Option<Date>, notes: string, now: Date) returns (res: Added)
      requires Valid()
      modifies this
      ensures Valid()
      ensures cropId !in old(crops.rows) ==>
        res == Rejected(MissingParent) && State() == old(State()).(costRecords := old(costRecords).(next := old(costRecords.next) + 1))
      ensures cropId in old(crops.rows) ==>
        && res == Created(old(costRecords.next))
        && State() == old(State()).(costRecords := Insert(old(costRecords),
             CostRecord(cropId, category, description, amount,
                        if transactionDate.Some? then transactionDate.value else now, notes)))
        && CropMaterialCost(State(), cropId) == old(CropMaterialCost(State(), cropId)) + amount
    {
      if cropId !in crops.rows {
        ghost var d := State();
        costRecords := costRecords.(next := costRecords.next + 1);
        assert State() == d.(costRecords := d.costRecords.(next := d.costRecords.next + 1));
        assert TablesWellFormed(State()) && NoOrphans(State());
        return Rejected(MissingParent);
      }
      var date := if transactionDate.Some? then transactionDate.value else now;
      var record := CostRecord(cropId, category, description, amount, date, notes);
      CropMaterialCostAfterInsert(State(), record, cropId);
      res := Created(costRecords.next);
      costRecords := Insert(costRecords, record);
    }

    /** `delete_cost`; removes the amount from its crop's material cost. */
    method DeleteCost(id: nat) returns (res: Outcome)
      requires Valid()
      modifies this
      ensures Valid()
      ensures id !in old(costRecords.rows) ==> res == Failed(NotFound) && State() == old(State())
      ensures id in old(costRecords.rows) ==>
        && res == Done
        && State() == old(State()).(costRecords := old(costRecords).(rows := old(costRecords.rows) - {id}))
        && var r := old(costRecords.rows)[id];
           CropMaterialCost(State(), r.cropId) == old(CropMaterialCost(State(), r.cropId)) - r.amount
    {
      if id !in costRecords.rows {
        return Failed(NotFound);
      }
      CropMaterialCostAfterRemove(State(), id);
      costRecords := costRecords.(rows := costRecords.rows - {id});
      res := Done;
    }
  }
}

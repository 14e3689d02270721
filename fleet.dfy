/** The fleet as the web application holds it: a module-level list that the
    handlers change in place, and the CSV file that `save_vehicles` rewrites
    from it. Each handler is proved to leave the list in the state the
    matching function of Mutations describes, and to save exactly when the
    source does. */
module Store {
  import opened Records
  import opened Seqs
  import opened Queries
  import opened Mutations

  /** The batch loop's test for one well-formed item: filter its updates to
      the whitelist, then look its vehicle up. */
  method EditOne(fleet: seq<Record>, item: BatchItem) returns (e: EditResult)
    requires FleetWellFormed(fleet) && !Malformed(item)
    ensures e == ItemResult(fleet, item)
  {
    var reg := item.reg.value;
    var updates := Allowed(item.updates.value);
    if updates == map[] {
      return EditFailed(reg, NO_VALID_FIELDS);
    }
    var found := Find(fleet, reg);
    if found.None? {
      return EditFailed(reg, NOT_FOUND);
    }
    return Updated(reg, found.value);
  }

  /** The bulk loop's checks for one item: required keys, then the duplicate
      search over the fleet. */
  method AddOne(fleet: seq<Record>, v: Record) returns (e: AddResult)
    requires FleetWellFormed(fleet)
    ensures e == BulkEntry(fleet, v)
  {
    var missing := MissingFields(v);
    if missing != [] {
      return Rejected(if VRM in v then v[VRM] else Str("Unknown"), Missing(missing));
    }
    var found := Find(fleet, v[VRM]);
    if found.Some? {
      return Rejected(v[VRM], Duplicate);
    }
    return Added(v[VRM]);
  }

  class Fleet {
    /** The in-memory list `vehicles`. */
    var vehicles: seq<Record>
    /** What the CSV file holds: the list as of the last save. */
    var persisted: seq<Record>
    /** How many times the file has been written. */
    var saves: nat

    ghost predicate Valid()
      reads this
    {
      FleetWellFormed(vehicles)
    }

    /** `load_vehicles`: the list starts as the file's rows. */
    constructor(initial: seq<Record>)
      requires FleetWellFormed(initial)
      ensures Valid()
      ensures vehicles == initial && persisted == initial && saves == 0
    {
      vehicles := initial;
      persisted := initial;
      saves := 0;
    }

    /** `save_vehicles`: the file is rewritten from the list. */
    method Save()
      modifies this
      ensures vehicles == old(vehicles) && persisted == vehicles && saves == old(saves) + 1
    {
      persisted := vehicles;
      saves := saves + 1;
    }

    /** The common body of rent and return: set the status of the first
        vehicle with `reg` and save, or change nothing when there is none. */
    method ChangeStatus(reg: Value, s: Value, message: string) returns (r: Response<string>)
      requires Valid()
      modifies this
      ensures Valid()
      ensures vehicles == StatusChange(old(vehicles), reg, s)
      ensures r == StatusReply(old(vehicles), reg, message)
      ensures r.Ok? ==> persisted == vehicles && saves == old(saves) + 1
      ensures !r.Ok? ==> persisted == old(persisted) && saves == old(saves)
    {
      var found := Find(vehicles, reg);
      if found.None? {
        return NotFound(NOT_FOUND);
      }
      var i := found.value;
      StatusChangeKeepsVrms(vehicles, reg, s);
      vehicles := vehicles[i := vehicles[i][STATUS := s]];
      Save();
      return Ok(message);
    }

    /** `/cars/rent`. */
    method Rent(args: Args) returns (r: Response<string>)
      requires Valid()
      modifies this
      ensures Valid()
      ensures vehicles == StatusChange(old(vehicles), Arg(args, "reg"), RENTED)
      ensures r == StatusReply(old(vehicles), Arg(args, "reg"), RENTED_MESSAGE)
      ensures r.Ok? ==> persisted == vehicles && saves == old(saves) + 1
      ensures !r.Ok? ==> persisted == old(persisted) && saves == old(saves)
    {
      r := ChangeStatus(Arg(args, "reg"), RENTED, RENTED_MESSAGE);
    }

    /** `/cars/return`. */
    method Return(args: Args) returns (r: Response<string>)
      requires Valid()
      modifies this
      ensures Valid()
      ensures vehicles == StatusChange(old(vehicles), Arg(args, "reg"), AVAILABLE)
      ensures r == StatusReply(old(vehicles), Arg(args, "reg"), RETURNED_MESSAGE)
      ensures r.Ok? ==> persisted == vehicles && saves == old(saves) + 1
      ensures !r.Ok? ==> persisted == old(persisted) && saves == old(saves)
    {
      r := ChangeStatus(Arg(args, "reg"), AVAILABLE, RETURNED_MESSAGE);
    }

    /** `/cars/add`: append the new vehicle, with no duplicate check, and save. */
    method Add(args: Args) returns (r: Response<string>)
      requires Valid()
      modifies this
      ensures Valid()
      ensures vehicles == old(vehicles) + [NewVehicle(args)]
      ensures r == Ok(ADDED_MESSAGE)
      ensures persisted == vehicles && saves == old(saves) + 1
    {
      vehicles := vehicles + [NewVehicle(args)];
      Save();
      return Ok(ADDED_MESSAGE);
    }

    /** `/cars/remove`: keep the vehicles with another registration and save,
        whether or not any vehicle had it. */
    method Remove(args: Args) returns (r: Response<string>)
      requires Valid()
      modifies this
      ensures Valid()
      ensures vehicles == Without(old(vehicles), Arg(args, "reg"))
      ensures r == Ok(REMOVED_MESSAGE)
      ensures persisted == vehicles && saves == old(saves) + 1
    {
      WithoutMeaning(vehicles, Arg(args, "reg"));
      vehicles := Without(vehicles, Arg(args, "reg"));
      Save();
      return Ok(REMOVED_MESSAGE);
    }

    /** `/cars/edit`. */
    method Edit(args: Args) returns (r: Response<EditReply>)
      requires Valid()
      modifies this
      ensures Valid()
      ensures vehicles == EditOutcome(old(vehicles), args).fleet
      ensures r == EditOutcome(old(vehicles), args).reply
      ensures r.Ok? ==> persisted == vehicles && saves == old(saves) + 1
      ensures !r.Ok? ==> persisted == old(persisted) && saves == old(saves)
    {
      var reg := Arg(args, "reg");
      if !Truthy(reg) {
        return BadRequest(REG_REQUIRED);
      }
      var updates := EditUpdates(args);
      if updates == map[] {
        return BadRequest(NO_VALID_FIELDS);
      }
      var found := Find(vehicles, reg);
      if found.None? {
        return NotFound(NOT_FOUND);
      }
      var i := found.value;
      MergeFrame(vehicles, i, updates);
      vehicles := Merge(vehicles, i, updates);
      Save();
      return Ok(EditReply(UPDATED_MESSAGE, vehicles[i]));
    }

    /** `/cars/batch-edit`: a 400 for an empty body; otherwise the items in
        order, stopping with a 400 at the first malformed one (the edits
        before it stay in the list but are not saved); the file is saved when
        the loop finishes and some item was a success. */
    method BatchEdit(items: seq<BatchItem>) returns (r: Response<seq<EditResult>>)
      requires Valid()
      modifies this
      ensures Valid()
      ensures vehicles == BatchRun(old(vehicles), items).fleet
      ensures r == if items == [] then BadRequest(NO_UPDATES)
                   else if BatchRun(old(vehicles), items).aborted then BadRequest(MALFORMED_ITEM)
                   else Ok(BatchRun(old(vehicles), items).results)
      ensures r.Ok? && AnyUpdated(r.body) ==> persisted == vehicles && saves == old(saves) + 1
      ensures !(r.Ok? && AnyUpdated(r.body)) ==> persisted == old(persisted) && saves == old(saves)
    {
      if items == [] {
        return BadRequest(NO_UPDATES);
      }
      ghost var start := vehicles;
      var results: seq<EditResult> := [];
      var i := 0;
      while i < |items|
        invariant 0 <= i <= |items|
        invariant FleetWellFormed(vehicles)
        invariant BatchRun(start, items[..i]) == BatchState(vehicles, results, false)
        invariant persisted == old(persisted) && saves == old(saves)
      {
        var item := items[i];
        assert items[..i + 1] == items[..i] + [item];
        BatchRunAppend(start, items[..i], item);
        if item.reg.None? || item.updates.None? {
          BatchRunStaysAborted(start, items, i + 1);
          return BadRequest(MALFORMED_ITEM);
        }
        results := BatchPass(start, items[..i], item, results);
        i := i + 1;
      }
      assert items[..i] == items;
      if AnyUpdated(results) {
        Save();
      }
      return Ok(results);
    }

    /** One pass of the batch loop over a well-formed item, after the items
        `seen`: look its vehicle up, and merge the whitelisted updates into it. */
    method BatchPass(ghost start: seq<Record>, ghost seen: seq<BatchItem>, item: BatchItem,
                     results: seq<EditResult>) returns (results': seq<EditResult>)
      requires FleetWellFormed(vehicles) && !Malformed(item)
      requires BatchRun(start, seen) == BatchState(vehicles, results, false)
      modifies this
      ensures FleetWellFormed(vehicles)
      ensures BatchRun(start, seen + [item]) == BatchState(vehicles, results', false)
      ensures persisted == old(persisted) && saves == old(saves)
    {
      BatchRunAppend(start, seen, item);
      var e := EditOne(vehicles, item);
      if e.Updated? {
        MergeFrame(vehicles, e.index, Allowed(item.updates.value));
        vehicles := Merge(vehicles, e.index, Allowed(item.updates.value));
      }
      results' := results + [e];
    }

    /** One pass of the bulk loop over item `v`, after the items `seen`:
        check it, and append it with its defaults when it passes. */
    method BulkPass(ghost start: seq<Record>, ghost seen: seq<Record>, v: Record,
                    results: seq<AddResult>, added: nat) returns (results': seq<AddResult>, added': nat)
      requires FleetWellFormed(vehicles)
      requires BulkRun(start, seen) == BulkState(vehicles, results, added)
      modifies this
      ensures FleetWellFormed(vehicles)
      ensures BulkRun(start, seen + [v]) == BulkState(vehicles, results', added')
      ensures persisted == old(persisted) && saves == old(saves)
    {
      BulkRunAppend(start, seen, v);
      BulkStepKeeps(BulkState(vehicles, results, added), v);
      var e := AddOne(vehicles, v);
      results', added' := results + [e], added;
      if e.Added? {
        vehicles := vehicles + [WithDefaults(v)];
        added' := added + 1;
      }
    }

    /** `/cars/bulk-add`: a 400 for an empty body; otherwise each item is
        rejected or appended with its defaults, and the file is saved when at
        least one was appended. */
    method BulkAdd(items: seq<Record>) returns (r: Response<BulkReply>)
      requires Valid()
      modifies this
      ensures Valid()
      ensures vehicles == BulkRun(old(vehicles), items).fleet
      ensures vehicles == old(vehicles) + Picked(items, BulkRun(old(vehicles), items).results)
      ensures r == if items == [] then BadRequest(NO_VEHICLES)
                   else Ok(BulkReply(BulkRun(old(vehicles), items).results, BulkRun(old(vehicles), items).added))
      ensures r.Ok? && r.body.added > 0 ==> persisted == vehicles && saves == old(saves) + 1
      ensures !(r.Ok? && r.body.added > 0) ==> persisted == old(persisted) && saves == old(saves)
    {
      if items == [] {
        return BadRequest(NO_VEHICLES);
      }
      ghost var start := vehicles;
      var results: seq<AddResult> := [];
      var added := 0;
      var i := 0;
      while i < |items|
        invariant 0 <= i <= |items|
        invariant FleetWellFormed(vehicles)
        invariant BulkRun(start, items[..i]) == BulkState(vehicles, results, added)
        invariant persisted == old(persisted) && saves == old(saves)
      {
        assert items[..i + 1] == items[..i] + [items[i]];
        results, added := BulkPass(start, items[..i], items[i], results, added);
        i := i + 1;
      }
      assert items[..i] == items;
      BulkRunPicked(start, items);
      if added > 0 {
        Save();
      }
      return Ok(BulkReply(results, added));
    }
  }
}

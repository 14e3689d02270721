/** What the state-changing handlers do to the fleet, as functions of the
    fleet before the request: rent and return, add, remove, edit with a field
    whitelist, batch edit and bulk add. The Fleet class runs the handlers'
    loops and is proved to end in these states. */
module Mutations {
  import opened Records
  import opened Seqs
  import opened Queries

  const RENTED_MESSAGE := "Vehicle rented successfully"
  const RETURNED_MESSAGE := "Vehicle returned successfully"
  const ADDED_MESSAGE := "Vehicle added successfully"
  const REMOVED_MESSAGE := "Vehicle removed successfully"
  const UPDATED_MESSAGE := "Vehicle updated successfully"
  const REG_REQUIRED := "Registration number required"
  const NO_VALID_FIELDS := "No valid fields to update"
  const NO_UPDATES := "No updates provided"
  const MALFORMED_ITEM := "Each update must contain 'reg' and 'updates' fields"
  const NO_VEHICLES := "No vehicles provided"
  const DUPLICATE_VRM := "Vehicle with this registration already exists"

  // ---------------------------------------------------------------- rent, return

  /** Rent (`s` is `RENTED`) and return (`s` is `AVAILABLE`): the first vehicle
      whose `vrm` is `reg` gets status `s`; with no such vehicle nothing changes. */
  function StatusChange(fleet: seq<Record>, reg: Value, s: Value): (r: seq<Record>)
    ensures |r| == |fleet|
  {
    match FirstMatch(fleet, reg)
    case None => fleet
    case Some(i) => fleet[i := fleet[i][STATUS := s]]
  }

  /** Only the status of the first matching vehicle changes: every other
      vehicle, and every other field of that one, stays as it was. */
  lemma StatusChangeFrame(fleet: seq<Record>, reg: Value, s: Value)
    ensures var r := StatusChange(fleet, reg, s);
            forall j :: 0 <= j < |fleet| && FirstMatch(fleet, reg) != Some(j) ==> r[j] == fleet[j]
    ensures var r := StatusChange(fleet, reg, s);
            FirstMatch(fleet, reg).Some? ==>
              var i := FirstMatch(fleet, reg).value;
              Get(r[i], STATUS) == s &&
              r[i].Keys == fleet[i].Keys + {STATUS} &&
              forall k :: k in fleet[i] && k != STATUS ==> r[i][k] == fleet[i][k]
    ensures FirstMatch(fleet, reg).None? ==> StatusChange(fleet, reg, s) == fleet
  {
  }

  /** A status change leaves every registration mark, hence every lookup, and
      the fleet's well-formedness alone. */
  lemma StatusChangeKeepsVrms(fleet: seq<Record>, reg: Value, s: Value)
    ensures Column(StatusChange(fleet, reg, s), VRM) == Column(fleet, VRM)
    ensures forall other :: FirstMatch(StatusChange(fleet, reg, s), other) == FirstMatch(fleet, other)
    ensures FleetWellFormed(fleet) ==> FleetWellFormed(StatusChange(fleet, reg, s))
  {
    var r := StatusChange(fleet, reg, s);
    assert Column(r, VRM) == Column(fleet, VRM) by {
      forall j | 0 <= j < |fleet| ensures Column(r, VRM)[j] == Column(fleet, VRM)[j] {}
    }
    forall other ensures FirstMatch(r, other) == FirstMatch(fleet, other) {
      FirstMatchOnlyReadsVrms(r, fleet, other);
    }
  }

  /** After a rent the vehicle shown for `reg` is rented; after a return it is available. */
  lemma StatusChangeThenShow(fleet: seq<Record>, reg: Value, s: Value)
    requires exists i :: 0 <= i < |fleet| && Get(fleet[i], VRM) == reg
    ensures Lookup(StatusChange(fleet, reg, s), reg).Ok?
    ensures Get(Lookup(StatusChange(fleet, reg, s), reg).body, STATUS) == s
  {
    StatusChangeKeepsVrms(fleet, reg, s);
  }

  /** Renting then returning is returning: the vehicle ends available and the
      rest of the fleet is as before; a vehicle that was available before the
      rent is exactly restored. Renting twice is renting once. */
  lemma RentThenReturn(fleet: seq<Record>, reg: Value)
    ensures StatusChange(StatusChange(fleet, reg, RENTED), reg, AVAILABLE) == StatusChange(fleet, reg, AVAILABLE)
    ensures FirstMatch(fleet, reg).Some? && Get(fleet[FirstMatch(fleet, reg).value], STATUS) == AVAILABLE ==>
              StatusChange(StatusChange(fleet, reg, RENTED), reg, AVAILABLE) == fleet
    ensures StatusChange(StatusChange(fleet, reg, RENTED), reg, RENTED) == StatusChange(fleet, reg, RENTED)
  {
    var rented := StatusChange(fleet, reg, RENTED);
    StatusChangeKeepsVrms(fleet, reg, RENTED);
    assert FirstMatch(rented, reg) == FirstMatch(fleet, reg);
    match FirstMatch(fleet, reg)
    case None =>
    case Some(i) =>
      assert rented[i][STATUS := AVAILABLE] == fleet[i][STATUS := AVAILABLE];
      assert rented[i][STATUS := RENTED] == fleet[i][STATUS := RENTED];
      if Get(fleet[i], STATUS) == AVAILABLE {
        assert fleet[i][STATUS := AVAILABLE] == fleet[i];
      }
  }

  /** What rent and return are evidently meant to answer: their message when
      a vehicle has `reg`, a 404 otherwise. */
  function StatusReply(fleet: seq<Record>, reg: Value, message: string): (r: Response<string>)
    ensures r == Ok(message) <==> exists i :: 0 <= i < |fleet| && Get(fleet[i], VRM) == reg
    ensures r == Ok(message) || r == NotFound(NOT_FOUND)
  {
    if FirstMatch(fleet, reg).Some? then Ok(message) else NotFound(NOT_FOUND)
  }

  /** Rent and return as written: like show, the loop falls off the end when
      no vehicle has `reg`, and the view's `None` becomes a 500. */
  function StatusReplyAsWritten(fleet: seq<Record>, reg: Value, message: string): (r: Response<string>)
    ensures r == Ok(message) || r == ServerError
    ensures r == ServerError <==> !Registered(fleet, reg)
    ensures r.Ok? ==> r == StatusReply(fleet, reg, message)
  {
    if FirstMatch(fleet, reg).Some? then Ok(message) else ServerError
  }

  /** Renting a vehicle that was just removed: the reply as written is a 500,
      the intended reply a 404, and the fleet is left alone. */
  lemma RentAfterRemove(fleet: seq<Record>, reg: Value)
    ensures StatusReplyAsWritten(Without(fleet, reg), reg, RENTED_MESSAGE) == ServerError
    ensures StatusReply(Without(fleet, reg), reg, RENTED_MESSAGE) == NotFound(NOT_FOUND)
    ensures StatusChange(Without(fleet, reg), reg, RENTED) == Without(fleet, reg)
  {
    WithoutMeaning(fleet, reg);
  }

  // ---------------------------------------------------------------- add

  /** The thirteen fields `/cars/add` reads from the query string. */
  const ADD_FIELDS: seq<string> :=
    ["id", "make", "model", "colour", "vin", "year", "vrm", "category", "numberSeats", "dayRate",
     "status", "fuelEconomy", "branch"]

  /** The record `/cars/add` builds: each field from the query string, `None`
      when absent, except `status`, which defaults to `AVAILABLE`. */
  function NewVehicle(args: Args): (v: Record)
    ensures v.Keys == set k | k in ADD_FIELDS
    ensures forall k :: k in ADD_FIELDS && k != STATUS ==> v[k] == Arg(args, k)
    ensures v[STATUS] == if STATUS in args then Str(args[STATUS]) else AVAILABLE
    ensures WellFormed(v)
  {
    map k | k in ADD_FIELDS :: if k == STATUS then (if STATUS in args then Str(args[STATUS]) else AVAILABLE) else Arg(args, k)
  }

  /** There is no duplicate check: after an add, show finds the new vehicle
      when its `vrm` is new, and the earlier vehicle with that `vrm` otherwise. */
  lemma AddThenShow(fleet: seq<Record>, args: Args)
    ensures var v := NewVehicle(args);
            var reg := Arg(args, VRM);
            Lookup(fleet + [v], reg) ==
              if exists i :: 0 <= i < |fleet| && Get(fleet[i], VRM) == reg then Lookup(fleet, reg) else Ok(v)
  {
    var v, reg := NewVehicle(args), Arg(args, VRM);
    AppendKeepsFirstMatch(fleet, v, reg);
  }

  /** Appending a vehicle moves no earlier match, and is found only when nothing earlier matches. */
  lemma {:induction false} AppendKeepsFirstMatch(fleet: seq<Record>, v: Record, reg: Value)
    ensures FirstMatch(fleet + [v], reg) ==
            match FirstMatch(fleet, reg)
            case Some(i) => Some(i)
            case None => if Get(v, VRM) == reg then Some(|fleet|) else None
  {
    if fleet != [] {
      assert (fleet + [v])[1..] == fleet[1..] + [v];
      AppendKeepsFirstMatch(fleet[1..], v, reg);
    }
  }

  // ---------------------------------------------------------------- remove

  predicate NotRegistered(reg: Value, v: Record) {
    Get(v, VRM) != reg
  }

  /** `[v for v in vehicles if v["vrm"] != reg]`. */
  function Without(fleet: seq<Record>, reg: Value): seq<Record> {
    Filter(fleet, v => NotRegistered(reg, v))
  }

  /** Remove keeps exactly the vehicles with another `vrm`, every copy of
      each, in their order, and afterwards no vehicle has `reg`. */
  lemma WithoutMeaning(fleet: seq<Record>, reg: Value)
    ensures forall v :: v in Without(fleet, reg) <==> v in fleet && Get(v, VRM) != reg
    ensures IsSubseq(Without(fleet, reg), fleet)
    ensures forall v :: Occurrences(Without(fleet, reg), v) ==
                          if Get(v, VRM) != reg then Occurrences(fleet, v) else 0
    ensures FirstMatch(Without(fleet, reg), reg).None?
    ensures FleetWellFormed(fleet) ==> FleetWellFormed(Without(fleet, reg))
  {
    FilterMembers(fleet, v => NotRegistered(reg, v));
    FilterIsSubseq(fleet, v => NotRegistered(reg, v));
    var r := Without(fleet, reg);
    forall j | 0 <= j < |r| ensures Get(r[j], VRM) != reg && r[j] in fleet {
      assert r[j] in r;
    }
    forall v ensures Occurrences(r, v) == if Get(v, VRM) != reg then Occurrences(fleet, v) else 0 {
      FilterOccurrences(fleet, v => NotRegistered(reg, v), v);
    }
  }

  /** Removing a registration no vehicle has changes nothing (and still succeeds). */
  lemma WithoutAbsent(fleet: seq<Record>, reg: Value)
    requires forall i :: 0 <= i < |fleet| ==> Get(fleet[i], VRM) != reg
    ensures Without(fleet, reg) == fleet
  {
    FilterAll(fleet, v => NotRegistered(reg, v));
  }

  /** Removing the registration of a vehicle just added with a new `vrm` gives back the fleet. */
  lemma AddThenRemove(fleet: seq<Record>, args: Args)
    requires forall i :: 0 <= i < |fleet| ==> Get(fleet[i], VRM) != Arg(args, VRM)
    ensures Without(fleet + [NewVehicle(args)], Arg(args, VRM)) == fleet
  {
    var reg := Arg(args, VRM);
    FilterAppend(fleet, NewVehicle(args), v => NotRegistered(reg, v));
    WithoutAbsent(fleet, reg);
  }

  /** After a remove, show for that registration finds nothing: the intended
      lookup answers 404, the lookup as written fails with a 500. */
  lemma ShowAfterRemove(fleet: seq<Record>, reg: Value)
    ensures Lookup(Without(fleet, reg), reg) == NotFound(NOT_FOUND)
    ensures LookupAsWritten(Without(fleet, reg), reg) == ServerError
  {
    WithoutMeaning(fleet, reg);
  }

  // ---------------------------------------------------------------- edit

  /** The fields an edit may change. */
  const EDITABLE: seq<string> := ["colour", "dayRate", "status", "branch", "category", "numberSeats"]

  /** `{k: args.get(k) for k in allowed_fields if args.get(k)}`. */
  function EditUpdates(args: Args): (u: map<string, Value>)
    ensures forall k :: k in u <==> k in EDITABLE && k in args && args[k] != ""
    ensures forall k :: k in u ==> u[k] == Str(args[k])
  {
    map k | k in EDITABLE && k in args && args[k] != "" :: Str(args[k])
  }

  /** `after` is `before` updated with `u`: the keys of `u` take its values,
      every other key keeps its value, and no key is dropped. */
  predicate MergedFields(before: Record, after: Record, u: map<string, Value>) {
    after.Keys == before.Keys + u.Keys &&
    (forall k :: k in u ==> after[k] == u[k]) &&
    (forall k :: k in before && k !in u ==> after[k] == before[k])
  }

  /** `v.update(updates)` on vehicle `i`. */
  function Merge(fleet: seq<Record>, i: nat, updates: map<string, Value>): (r: seq<Record>)
    requires i < |fleet|
    ensures |r| == |fleet|
  {
    fleet[i := fleet[i] + updates]
  }

  /** A merge of editable fields changes vehicle `i` in exactly the updated
      keys, no other vehicle, and no registration mark. */
  lemma MergeFrame(fleet: seq<Record>, i: nat, updates: map<string, Value>)
    requires i < |fleet|
    requires forall k :: k in updates ==> k in EDITABLE
    ensures var r := Merge(fleet, i, updates);
            (forall j :: 0 <= j < |fleet| && j != i ==> r[j] == fleet[j]) &&
            MergedFields(fleet[i], r[i], updates)
    ensures Column(Merge(fleet, i, updates), VRM) == Column(fleet, VRM)
    ensures FleetWellFormed(fleet) ==> FleetWellFormed(Merge(fleet, i, updates))
  {
    var r := Merge(fleet, i, updates);
    assert VRM !in updates;
    assert Column(r, VRM) == Column(fleet, VRM) by {
      forall j | 0 <= j < |fleet| ensures Column(r, VRM)[j] == Column(fleet, VRM)[j] {}
    }
  }

  /** The body of a successful edit: the message and the merged vehicle. */
  datatype EditReply = EditReply(message: string, vehicle: Record)

  /** The fleet after a handler and its reply. */
  datatype Edited = Edited(fleet: seq<Record>, reply: Response<EditReply>)

  /** `/cars/edit`: a 400 without a registration, a 400 when no editable field
      has a non-empty value, a 404 when no vehicle has the registration, and
      otherwise the first such vehicle merged with the updates and shown. */
  function EditOutcome(fleet: seq<Record>, args: Args): Edited {
    var reg := Arg(args, "reg");
    var updates := EditUpdates(args);
    if !Truthy(reg) then Edited(fleet, BadRequest(REG_REQUIRED))
    else if updates == map[] then Edited(fleet, BadRequest(NO_VALID_FIELDS))
    else match FirstMatch(fleet, reg)
      case None => Edited(fleet, NotFound(NOT_FOUND))
      case Some(i) =>
        var f := Merge(fleet, i, updates);
        Edited(f, Ok(EditReply(UPDATED_MESSAGE, f[i])))
  }

  /** An edit succeeds exactly when a registration is given, some editable
      field has a value and a vehicle has the registration; otherwise it is a
      400 for the missing registration, else a 400 for the missing fields
      (before any lookup), else a 404, and changes nothing; every edit keeps the fleet well-formed and its
      registration marks. */
  lemma EditSucceeds(fleet: seq<Record>, args: Args)
    requires FleetWellFormed(fleet)
    ensures EditOutcome(fleet, args).reply.Ok? <==>
              Truthy(Arg(args, "reg")) && EditUpdates(args) != map[] &&
              exists i :: 0 <= i < |fleet| && Get(fleet[i], VRM) == Arg(args, "reg")
    ensures !EditOutcome(fleet, args).reply.Ok? ==> EditOutcome(fleet, args).fleet == fleet
    ensures !Truthy(Arg(args, "reg")) ==> EditOutcome(fleet, args).reply == BadRequest(REG_REQUIRED)
    ensures Truthy(Arg(args, "reg")) && EditUpdates(args) == map[] ==>
              EditOutcome(fleet, args).reply == BadRequest(NO_VALID_FIELDS)
    ensures Truthy(Arg(args, "reg")) && EditUpdates(args) != map[] && !Registered(fleet, Arg(args, "reg")) ==>
              EditOutcome(fleet, args).reply == NotFound(NOT_FOUND)
    ensures FleetWellFormed(EditOutcome(fleet, args).fleet)
    ensures Column(EditOutcome(fleet, args).fleet, VRM) == Column(fleet, VRM)
  {
    var reg, updates := Arg(args, "reg"), EditUpdates(args);
    if Truthy(reg) && updates != map[] {
      match FirstMatch(fleet, reg)
      case None =>
      case Some(i) =>
        MergeFrame(fleet, i, updates);
    }
  }

  /** A successful edit shows vehicle `i`, the first with the registration,
      with each supplied editable field set, every other field as before and
      no field outside the whitelist added or dropped, and changes no other
      vehicle. */
  lemma EditShows(fleet: seq<Record>, args: Args, i: nat)
    requires FleetWellFormed(fleet)
    requires Truthy(Arg(args, "reg")) && EditUpdates(args) != map[]
    requires FirstMatch(fleet, Arg(args, "reg")) == Some(i)
    ensures var o := EditOutcome(fleet, args);
            |o.fleet| == |fleet| && o.reply == Ok(EditReply(UPDATED_MESSAGE, o.fleet[i])) && Get(o.fleet[i], VRM) == Arg(args, "reg")
    ensures var o := EditOutcome(fleet, args);
            |o.fleet| == |fleet| &&
            MergedFields(fleet[i], o.fleet[i], EditUpdates(args)) &&
            (forall k :: k !in EDITABLE ==> (k in o.fleet[i] <==> k in fleet[i])) &&
            (forall j :: 0 <= j < |fleet| && j != i ==> o.fleet[j] == fleet[j])
  {
    MergeFrame(fleet, i, EditUpdates(args));
  }

  // ---------------------------------------------------------------- batch edit

  /** One element of the batch: its `reg` and `updates`, each absent or present. */
  datatype BatchItem = BatchItem(reg: Option<Value>, updates: Option<map<string, Value>>)

  predicate Malformed(item: BatchItem) {
    item.reg.None? || item.updates.None?
  }

  /** One entry of the batch's `results`. A success names the vehicle by its
      position: the handler puts the fleet's own record into the entry, so the
      response shows it as it is when the whole batch is done. */
  datatype EditResult = Updated(reg: Value, index: nat) | EditFailed(reg: Value, message: string)

  /** `{k: v for k, v in updates.items() if k in allowed_fields}`: unlike the
      single edit, empty and `None` values are kept. */
  function Allowed(updates: map<string, Value>): (u: map<string, Value>)
    ensures forall k :: k in u <==> k in updates && k in EDITABLE
    ensures forall k :: k in u ==> u[k] == updates[k]
  {
    map k | k in updates && k in EDITABLE :: updates[k]
  }

  /** Some vehicle has registration mark `vrm`: `any(v["vrm"] == vrm for v in vehicles)`. */
  predicate Registered(fleet: seq<Record>, vrm: Value) {
    exists i :: 0 <= i < |fleet| && Get(fleet[i], VRM) == vrm
  }

  /** The entry a well-formed item gets in `fleet`: a failure when no
      whitelisted key is left, checked before any lookup; otherwise a success
      naming the first vehicle with the item's `reg`, or a failure when there
      is none. */
  function ItemResult(fleet: seq<Record>, item: BatchItem): (r: EditResult)
    requires !Malformed(item)
    ensures r.reg == item.reg.value
    ensures Allowed(item.updates.value) == map[] ==> r == EditFailed(item.reg.value, NO_VALID_FIELDS)
    ensures r.Updated? <==>
              Allowed(item.updates.value) != map[] && Registered(fleet, item.reg.value)
    ensures Allowed(item.updates.value) != map[] && !Registered(fleet, item.reg.value) ==>
              r == EditFailed(item.reg.value, NOT_FOUND)
    ensures r.Updated? ==> r.index < |fleet| && Get(fleet[r.index], VRM) == r.reg
    ensures r.Updated? ==> forall j :: 0 <= j < r.index ==> Get(fleet[j], VRM) != r.reg
  {
    if Allowed(item.updates.value) == map[] then EditFailed(item.reg.value, NO_VALID_FIELDS)
    else match FirstMatch(fleet, item.reg.value)
      case None => EditFailed(item.reg.value, NOT_FOUND)
      case Some(i) => Updated(item.reg.value, i)
  }

  /** The batch loop's state: the fleet so far, the entries so far, and whether
      a malformed item stopped the loop. */
  datatype BatchState = BatchState(fleet: seq<Record>, results: seq<EditResult>, aborted: bool)

  /** One pass of the batch loop. */
  function BatchStep(st: BatchState, item: BatchItem): BatchState {
    if st.aborted then st
    else if Malformed(item) then st.(aborted := true)
    else
      var r := ItemResult(st.fleet, item);
      if r.Updated? then BatchState(Merge(st.fleet, r.index, Allowed(item.updates.value)), st.results + [r], false)
      else st.(results := st.results + [r])
  }

  /** The batch loop over `items`, from `fleet`. */
  function BatchRun(fleet: seq<Record>, items: seq<BatchItem>): BatchState {
    if items == [] then BatchState(fleet, [], false)
    else BatchStep(BatchRun(fleet, items[..|items| - 1]), items[|items| - 1])
  }

  lemma BatchRunAppend(fleet: seq<Record>, items: seq<BatchItem>, item: BatchItem)
    ensures BatchRun(fleet, items + [item]) == BatchStep(BatchRun(fleet, items), item)
  {
    assert (items + [item])[..|items|] == items;
  }

  /** One pass keeps the fleet's length, its registration marks and its well-formedness. */
  lemma BatchStepFrame(st: BatchState, item: BatchItem)
    ensures |BatchStep(st, item).fleet| == |st.fleet|
    ensures Column(BatchStep(st, item).fleet, VRM) == Column(st.fleet, VRM)
    ensures FleetWellFormed(st.fleet) ==> FleetWellFormed(BatchStep(st, item).fleet)
  {
    if !st.aborted && !Malformed(item) {
      var r := ItemResult(st.fleet, item);
      if r.Updated? {
        MergeFrame(st.fleet, r.index, Allowed(item.updates.value));
      }
    }
  }

  /** The batch keeps the fleet's length, every registration mark and its well-formedness. */
  lemma {:induction false} BatchRunFrame(fleet: seq<Record>, items: seq<BatchItem>)
    ensures |BatchRun(fleet, items).fleet| == |fleet|
    ensures Column(BatchRun(fleet, items).fleet, VRM) == Column(fleet, VRM)
    ensures FleetWellFormed(fleet) ==> FleetWellFormed(BatchRun(fleet, items).fleet)
  {
    if items != [] {
      var init := items[..|items| - 1];
      BatchRunFrame(fleet, init);
      BatchStepFrame(BatchRun(fleet, init), items[|items| - 1]);
    }
  }

  /** The loop stops exactly when some item is malformed. */
  lemma {:induction false} BatchRunAborts(fleet: seq<Record>, items: seq<BatchItem>)
    ensures BatchRun(fleet, items).aborted <==> exists k :: 0 <= k < |items| && Malformed(items[k])
  {
    if items != [] {
      var init := items[..|items| - 1];
      BatchRunAborts(fleet, init);
      assert forall k :: 0 <= k < |init| ==> items[k] == init[k];
    }
  }

  /** With no malformed item there is one entry per item, in input order, each
      decided by the fleet as it was before the request: no edit changes a
      registration mark, so no edit changes what a later item finds. */
  lemma {:induction false} BatchRunResults(fleet: seq<Record>, items: seq<BatchItem>)
    requires forall k :: 0 <= k < |items| ==> !Malformed(items[k])
    ensures !BatchRun(fleet, items).aborted
    ensures |BatchRun(fleet, items).results| == |items|
    ensures forall k :: 0 <= k < |items| ==> BatchRun(fleet, items).results[k] == ItemResult(fleet, items[k])
  {
    if items != [] {
      var init, item := items[..|items| - 1], items[|items| - 1];
      assert forall k :: 0 <= k < |init| ==> items[k] == init[k];
      BatchRunResults(fleet, init);
      BatchRunFrame(fleet, init);
      var st := BatchRun(fleet, init);
      FirstMatchOnlyReadsVrms(st.fleet, fleet, item.reg.value);
      BatchStepAppends(st, item);
      var rs := BatchRun(fleet, items).results;
      assert rs == st.results + [ItemResult(fleet, item)];
      forall k | 0 <= k < |items| ensures rs[k] == ItemResult(fleet, items[k]) {
        if k < |init| {
          assert rs[k] == st.results[k];
        }
      }
    }
  }

  /** A pass over a well-formed item appends its entry. */
  lemma BatchStepAppends(st: BatchState, item: BatchItem)
    requires !st.aborted && !Malformed(item)
    ensures !BatchStep(st, item).aborted
    ensures BatchStep(st, item).results == st.results + [ItemResult(st.fleet, item)]
  {
  }

  /** Once a malformed item has stopped the loop, the later items change nothing. */
  lemma {:induction false} BatchRunStaysAborted(fleet: seq<Record>, items: seq<BatchItem>, k: nat)
    requires k <= |items| && BatchRun(fleet, items[..k]).aborted
    ensures BatchRun(fleet, items) == BatchRun(fleet, items[..k])
  {
    if k < |items| {
      var init := items[..|items| - 1];
      assert init[..k] == items[..k];
      BatchRunStaysAborted(fleet, init, k);
    } else {
      assert items[..k] == items;
    }
  }

  /** Every success names a vehicle that has the item's `reg`, at the end of the batch as well. */
  lemma BatchUpdatedMatches(fleet: seq<Record>, items: seq<BatchItem>)
    requires !BatchRun(fleet, items).aborted
    ensures var st := BatchRun(fleet, items);
            forall k :: 0 <= k < |st.results| && st.results[k].Updated? ==>
              st.results[k].index < |st.fleet| && Get(st.fleet[st.results[k].index], VRM) == st.results[k].reg
  {
    BatchRunAborts(fleet, items);
    BatchRunFrame(fleet, items);
    BatchRunResults(fleet, items);
    var st := BatchRun(fleet, items);
    forall k | 0 <= k < |st.results| && st.results[k].Updated?
      ensures st.results[k].index < |st.fleet| && Get(st.fleet[st.results[k].index], VRM) == st.results[k].reg
    {
      var j := st.results[k].index;
      assert Column(st.fleet, VRM)[j] == Column(fleet, VRM)[j];
    }
  }

  /** Some entry of the batch is a success. */
  predicate AnyUpdated(results: seq<EditResult>) {
    exists k :: 0 <= k < |results| && results[k].Updated?
  }

  /** Key `k` of a vehicle: its value, or `None` when the vehicle lacks the key. */
  function Field(v: Record, k: string): Option<Value> {
    if k in v then Some(v[k]) else None
  }

  /** The entry writes to vehicle `j`. */
  predicate Names(r: EditResult, j: nat) {
    r.Updated? && r.index == j
  }

  /** Item `item` writes key `k` of vehicle `j` of `fleet`. */
  predicate Writes(fleet: seq<Record>, item: BatchItem, j: nat, k: string)
    requires !Malformed(item)
  {
    Names(ItemResult(fleet, item), j) && k in Allowed(item.updates.value)
  }

  /** Key `k` of vehicle `j` after the batch, last writer wins: the value the
      last item that writes it gives it, else its value before the request.
      Who writes is decided against the fleet before the request. */
  function LastWrite(fleet: seq<Record>, items: seq<BatchItem>, j: nat, k: string): Option<Value>
    requires j < |fleet|
    requires forall m :: 0 <= m < |items| ==> !Malformed(items[m])
  {
    if items == [] then Field(fleet[j], k)
    else
      var item := items[|items| - 1];
      if Writes(fleet, item, j, k) then Some(Allowed(item.updates.value)[k])
      else LastWrite(fleet, items[..|items| - 1], j, k)
  }

  /** When item `m` writes the key and no later item does, the key ends with item `m`'s value. */
  lemma {:induction false} LastWriteIsLast(fleet: seq<Record>, items: seq<BatchItem>, j: nat, k: string, m: nat)
    requires j < |fleet|
    requires forall n :: 0 <= n < |items| ==> !Malformed(items[n])
    requires m < |items| && Writes(fleet, items[m], j, k)
    requires forall n :: m < n < |items| ==> !Writes(fleet, items[n], j, k)
    ensures LastWrite(fleet, items, j, k) == Some(Allowed(items[m].updates.value)[k])
  {
    if m < |items| - 1 {
      var init := items[..|items| - 1];
      assert forall n :: 0 <= n < |init| ==> init[n] == items[n];
      LastWriteIsLast(fleet, init, j, k, m);
    }
  }

  /** When no item writes the key, it keeps its value from before the request. */
  lemma {:induction false} LastWriteNone(fleet: seq<Record>, items: seq<BatchItem>, j: nat, k: string)
    requires j < |fleet|
    requires forall n :: 0 <= n < |items| ==> !Malformed(items[n])
    requires forall n :: 0 <= n < |items| ==> !Writes(fleet, items[n], j, k)
    ensures LastWrite(fleet, items, j, k) == Field(fleet[j], k)
  {
    if items != [] {
      var init := items[..|items| - 1];
      assert forall n :: 0 <= n < |init| ==> init[n] == items[n];
      LastWriteNone(fleet, init, j, k);
    }
  }

  /** A pass over a well-formed item: its entry is the one the fleet before
      the request gives it, and it merges its whitelisted updates into the
      vehicle the entry names. */
  lemma BatchStepWrites(fleet: seq<Record>, st: BatchState, item: BatchItem, j: nat, k: string)
    requires !st.aborted && !Malformed(item) && j < |st.fleet|
    requires Column(st.fleet, VRM) == Column(fleet, VRM)
    ensures j < |BatchStep(st, item).fleet|
    ensures Field(BatchStep(st, item).fleet[j], k) ==
            if Writes(fleet, item, j, k) then Some(Allowed(item.updates.value)[k]) else Field(st.fleet[j], k)
  {
    FirstMatchOnlyReadsVrms(st.fleet, fleet, item.reg.value);
    BatchStepFrame(st, item);
  }

  /** With no malformed item, each key of each vehicle ends as `LastWrite` says. */
  lemma {:induction false} BatchRunEffect(fleet: seq<Record>, items: seq<BatchItem>, j: nat, k: string)
    requires j < |fleet|
    requires forall n :: 0 <= n < |items| ==> !Malformed(items[n])
    ensures j < |BatchRun(fleet, items).fleet|
    ensures Field(BatchRun(fleet, items).fleet[j], k) == LastWrite(fleet, items, j, k)
  {
    BatchRunFrame(fleet, items);
    if items != [] {
      var init := items[..|items| - 1];
      assert forall n :: 0 <= n < |init| ==> init[n] == items[n];
      BatchRunEffect(fleet, init, j, k);
      BatchRunResults(fleet, init);
      BatchRunFrame(fleet, init);
      BatchStepWrites(fleet, BatchRun(fleet, init), items[|items| - 1], j, k);
    }
  }

  /** A vehicle no entry of the batch names ends as it began. */
  lemma BatchRunUntouched(fleet: seq<Record>, items: seq<BatchItem>, j: nat)
    requires j < |fleet|
    requires forall n :: 0 <= n < |items| ==> !Malformed(items[n])
    requires forall n :: 0 <= n < |items| ==> !Names(ItemResult(fleet, items[n]), j)
    ensures j < |BatchRun(fleet, items).fleet| && BatchRun(fleet, items).fleet[j] == fleet[j]
  {
    BatchRunFrame(fleet, items);
    var after := BatchRun(fleet, items).fleet[j];
    forall k ensures Field(after, k) == Field(fleet[j], k) {
      BatchRunEffect(fleet, items, j, k);
      LastWriteNone(fleet, items, j, k);
    }
    assert after.Keys == fleet[j].Keys by {
      forall k ensures k in after <==> k in fleet[j] {
        assert Field(after, k).Some? <==> Field(fleet[j], k).Some?;
      }
    }
    forall k | k in after ensures after[k] == fleet[j][k] {
      assert Field(after, k) == Field(fleet[j], k);
    }
  }

  /** No key outside the whitelist is added, dropped or changed by a batch. */
  lemma BatchRunOutsideWhitelist(fleet: seq<Record>, items: seq<BatchItem>, j: nat, k: string)
    requires j < |fleet| && k !in EDITABLE
    requires forall n :: 0 <= n < |items| ==> !Malformed(items[n])
    ensures j < |BatchRun(fleet, items).fleet|
    ensures Field(BatchRun(fleet, items).fleet[j], k) == Field(fleet[j], k)
  {
    BatchRunEffect(fleet, items, j, k);
    LastWriteNone(fleet, items, j, k);
  }

  // ---------------------------------------------------------------- bulk add

  /** The keys every bulk-added vehicle must have. */
  const REQUIRED: seq<string> := ["id", "make", "model", "vrm"]

  /** `[field for field in required_fields if field not in vehicle]`: the
      required keys the item lacks. */
  function MissingFields(v: Record): (m: seq<string>)
    ensures forall f :: f in m <==> f in REQUIRED && f !in v
  {
    FilterMembers(REQUIRED, f => f !in v);
    Filter(REQUIRED, f => f !in v)
  }

  /** The missing keys come in the required order. */
  lemma MissingFieldsInOrder(v: Record)
    ensures IsSubseq(MissingFields(v), REQUIRED)
  {
    FilterIsSubseq(REQUIRED, f => f !in v);
  }

  datatype Rejection = Missing(fields: seq<string>) | Duplicate

  /** One entry of the bulk add's `results`; its `vrm` is `vehicle.get("vrm", "Unknown")`. */
  datatype AddResult = Added(vrm: Value) | Rejected(vrm: Value, reason: Rejection)

  /** `", ".join(fields)`. */
  function Join(fields: seq<string>, sep: string): string {
    if fields == [] then ""
    else if |fields| == 1 then fields[0]
    else Join(fields[..|fields| - 1], sep) + sep + fields[|fields| - 1]
  }

  /** The `message` of an entry. */
  function Message(r: AddResult): string {
    match r
    case Added(_) => ADDED_MESSAGE
    case Rejected(_, reason) =>
      match reason
      case Missing(fields) => "Missing required fields: " + Join(fields, ", ")
      case Duplicate => DUPLICATE_VRM
  }

  /** The message tells a success, a duplicate and a missing-key rejection apart. */
  lemma MessageTellsApart(e: AddResult)
    ensures Message(e) == ADDED_MESSAGE <==> e.Added?
    ensures Message(e) == DUPLICATE_VRM <==> e.Rejected? && e.reason.Duplicate?
  {
    assert ADDED_MESSAGE[8] != DUPLICATE_VRM[8];
    if e.Rejected? && e.reason.Missing? {
      assert Message(e)[0] == 'M' != ADDED_MESSAGE[0];
      assert DUPLICATE_VRM[0] != 'M';
    }
  }

  /** A filter of the required keys, written out key by key. */
  lemma FilterRequired(p: string -> bool)
    ensures Filter(REQUIRED, p) == (if p("id") then ["id"] else []) + (if p("make") then ["make"] else []) +
                                   (if p("model") then ["model"] else []) + (if p("vrm") then ["vrm"] else [])
  {
    var s1, s2, s3 := ["id"], ["id", "make"], ["id", "make", "model"];
    assert s1[..0] == [];
    assert Filter(s1, p) == (if p("id") then ["id"] else []);
    assert s2[..1] == s1;
    assert Filter(s2, p) == Filter(s1, p) + (if p("make") then ["make"] else []);
    assert s3[..2] == s2;
    assert Filter(s3, p) == Filter(s2, p) + (if p("model") then ["model"] else []);
    assert REQUIRED[..3] == s3;
  }

  /** An item with `id`, `make` and `model` but no `vrm` is entered as
      "Unknown", and its message names `vrm` alone. */
  lemma MissingVrmMessage(fleet: seq<Record>)
    ensures var e := BulkEntry(fleet, map["id" := Str("1"), "make" := Str("Ford"), "model" := Str("Fiesta")]);
            e.vrm == Str("Unknown") && Message(e) == "Missing required fields: vrm"
  {
    var v := map["id" := Str("1"), "make" := Str("Ford"), "model" := Str("Fiesta")];
    assert "id" in v && "make" in v && "model" in v && "vrm" !in v;
    FilterRequired(f => f !in v);
    assert MissingFields(v) == ["vrm"];
  }

  /** An item with only `id` gets a message naming the other three required
      keys, in the required order. */
  lemma MissingThreeMessage(fleet: seq<Record>)
    ensures var e := BulkEntry(fleet, map["id" := Str("1")]);
            e == Rejected(Str("Unknown"), Missing(["make", "model", "vrm"])) &&
            Message(e) == "Missing required fields: " + "make, model, vrm"
  {
    var v := map["id" := Str("1")];
    assert "id" in v && "make" !in v && "model" !in v && "vrm" !in v;
    FilterRequired(f => f !in v);
    assert MissingFields(v) == ["make", "model", "vrm"];
    JoinThree();
  }

  /** `", ".join` of three keys. */
  lemma JoinThree()
    ensures Join(["make", "model", "vrm"], ", ") == "make, model, vrm"
  {
    var m := ["make", "model", "vrm"];
    assert m[..2] == ["make", "model"] && m[..2][..1] == ["make"];
    assert Join(m[..2], ", ") == "make" + ", " + "model";
  }

  /** The three `setdefault` calls: `status`, `branch` and `category` are set
      only when absent; every key present keeps its value. */
  function WithDefaults(v: Record): (d: Record)
    ensures d.Keys == v.Keys + {STATUS, BRANCH, CATEGORY}
    ensures forall k :: k in v ==> d[k] == v[k]
    ensures STATUS !in v ==> d[STATUS] == AVAILABLE
    ensures BRANCH !in v ==> d[BRANCH] == Str("Main Branch")
    ensures CATEGORY !in v ==> d[CATEGORY] == Str("Standard")
  {
    var d := if STATUS in v then v else v[STATUS := AVAILABLE];
    var d := if BRANCH in d then d else d[BRANCH := Str("Main Branch")];
    if CATEGORY in d then d else d[CATEGORY := Str("Standard")]
  }

  /** The body of a bulk add's reply. */
  datatype BulkReply = BulkReply(results: seq<AddResult>, added: nat)

  /** The bulk loop's state: the fleet so far, the entries so far, and `added_count`. */
  datatype BulkState = BulkState(fleet: seq<Record>, results: seq<AddResult>, added: nat)

  /** The entry one item gets: rejected for missing keys, rejected as a
      duplicate of a vehicle already in `fleet`, or added. */
  function BulkEntry(fleet: seq<Record>, v: Record): AddResult {
    var missing := MissingFields(v);
    if missing != [] then Rejected(if VRM in v then v[VRM] else Str("Unknown"), Missing(missing))
    else if Registered(fleet, v[VRM]) then Rejected(v[VRM], Duplicate)
    else Added(v[VRM])
  }

  /** One pass of the bulk loop: the item is appended with its defaults when
      its entry is a success. The duplicate check sees the fleet as it is at
      that point, vehicles added earlier in the same request included. */
  function BulkStep(st: BulkState, v: Record): BulkState {
    var e := BulkEntry(st.fleet, v);
    if e.Added? then BulkState(st.fleet + [WithDefaults(v)], st.results + [e], st.added + 1)
    else st.(results := st.results + [e])
  }

  /** The bulk loop over `items`, from `fleet`: one entry per item. */
  function BulkRun(fleet: seq<Record>, items: seq<Record>): (st: BulkState)
    ensures |st.results| == |items|
  {
    if items == [] then BulkState(fleet, [], 0)
    else BulkStep(BulkRun(fleet, items[..|items| - 1]), items[|items| - 1])
  }

  lemma BulkRunAppend(fleet: seq<Record>, items: seq<Record>, v: Record)
    ensures BulkRun(fleet, items + [v]) == BulkStep(BulkRun(fleet, items), v)
  {
    assert (items + [v])[..|items|] == items;
  }

  predicate IsAdded(r: AddResult) {
    r.Added?
  }

  /** No two vehicles share a registration mark. */
  predicate UniqueVrms(fleet: seq<Record>) {
    forall i, j :: 0 <= i < j < |fleet| ==> Get(fleet[i], VRM) != Get(fleet[j], VRM)
  }

  /** One entry per item in input order; `added_count` is the number of
      successes, and the fleet has that many more vehicles. */
  lemma {:induction false} BulkRunCounts(fleet: seq<Record>, items: seq<Record>)
    ensures var st := BulkRun(fleet, items);
            |st.results| == |items| &&
            st.added == |Filter(st.results, IsAdded)| &&
            |st.fleet| == |fleet| + st.added
  {
    if items != [] {
      var init, v := items[..|items| - 1], items[|items| - 1];
      BulkRunCounts(fleet, init);
      var st := BulkRun(fleet, init);
      var e := BulkEntry(st.fleet, v);
      FilterAppend(st.results, e, IsAdded);
      assert BulkRun(fleet, items).results == st.results + [e];
    }
  }

  /** A vehicle that passes the checks has every required key, and with its
      defaults every key the handlers index. */
  lemma AddedIsWellFormed(fleet: seq<Record>, v: Record)
    requires BulkEntry(fleet, v).Added?
    ensures WellFormed(WithDefaults(v)) && Get(WithDefaults(v), VRM) == v[VRM]
    ensures !Registered(fleet, v[VRM])
  {
    assert MAKE in REQUIRED && VRM in REQUIRED;
  }

  /** One pass keeps the fleet well-formed and its registration marks unique. */
  lemma BulkStepKeeps(st: BulkState, v: Record)
    ensures FleetWellFormed(st.fleet) ==> FleetWellFormed(BulkStep(st, v).fleet)
    ensures UniqueVrms(st.fleet) ==> UniqueVrms(BulkStep(st, v).fleet)
  {
    if BulkEntry(st.fleet, v).Added? {
      AddedIsWellFormed(st.fleet, v);
    }
  }

  /** The bulk add keeps the fleet well-formed and its registration marks unique. */
  lemma {:induction false} BulkRunKeeps(fleet: seq<Record>, items: seq<Record>)
    ensures FleetWellFormed(fleet) ==> FleetWellFormed(BulkRun(fleet, items).fleet)
    ensures UniqueVrms(fleet) ==> UniqueVrms(BulkRun(fleet, items).fleet)
  {
    if items != [] {
      var init := items[..|items| - 1];
      BulkRunKeeps(fleet, init);
      BulkStepKeeps(BulkRun(fleet, init), items[|items| - 1]);
    }
  }

  /** The item has every required key. */
  predicate HasRequired(v: Record) {
    "id" in v && "make" in v && "model" in v && "vrm" in v
  }

  /** What an entry says about its item, given the fleet it is checked
      against: a rejection listing the missing keys exactly when a required
      key is missing, a rejection as a duplicate exactly when every required
      key is present and the fleet has the item's `vrm`, and a success exactly
      when every required key is present and the fleet does not have it; the
      entry carries the item's `vrm`, or "Unknown". */
  ghost predicate EntryFits(e: AddResult, v: Record, fleet: seq<Record>) {
    (e.Rejected? && e.reason.Missing? <==> !HasRequired(v)) &&
    (e.Rejected? && e.reason.Missing? ==> forall f :: f in e.reason.fields <==> f in REQUIRED && f !in v) &&
    (e.Rejected? && e.reason.Duplicate? <==> HasRequired(v) && Registered(fleet, v[VRM])) &&
    (e.Added? <==> HasRequired(v) && !Registered(fleet, v[VRM])) &&
    e.vrm == (if VRM in v then v[VRM] else Str("Unknown"))
  }

  /** The entry an item gets fits it. */
  lemma BulkEntryFits(fleet: seq<Record>, v: Record)
    ensures EntryFits(BulkEntry(fleet, v), v, fleet)
  {
    var m := MissingFields(v);
    if m != [] {
      assert m[0] in m;
    }
    if !HasRequired(v) {
      var f := if "id" !in v then "id" else if "make" !in v then "make" else if "model" !in v then "model" else "vrm";
      assert f in REQUIRED && f !in v;
      assert f in m;
    }
  }

  /** The appended vehicles: each item whose entry is a success, with its
      defaults, in input order. */
  function Picked(items: seq<Record>, results: seq<AddResult>): seq<Record>
    requires |items| == |results|
  {
    if items == [] then []
    else
      var n := |items| - 1;
      Picked(items[..n], results[..n]) + if results[n].Added? then [WithDefaults(items[n])] else []
  }

  lemma PickedAppend(items: seq<Record>, results: seq<AddResult>, v: Record, e: AddResult)
    requires |items| == |results|
    ensures Picked(items + [v], results + [e]) ==
            Picked(items, results) + if e.Added? then [WithDefaults(v)] else []
  {
    assert (items + [v])[..|items|] == items;
    assert (results + [e])[..|results|] == results;
  }

  /** Appending a vehicle adds exactly its registration mark. */
  lemma RegisteredAppend(fleet: seq<Record>, v: Record, x: Value)
    ensures Registered(fleet + [v], x) <==> Registered(fleet, x) || Get(v, VRM) == x
  {
    var f := fleet + [v];
    if Registered(fleet, x) {
      var i :| 0 <= i < |fleet| && Get(fleet[i], VRM) == x;
      assert f[i] == fleet[i];
    }
    if Get(v, VRM) == x {
      assert f[|fleet|] == v;
    }
    if Registered(f, x) {
      var i :| 0 <= i < |f| && Get(f[i], VRM) == x;
      if i < |fleet| {
        assert f[i] == fleet[i];
      }
    }
  }

  /** The fleet with the appended vehicles has a registration mark exactly
      when the fleet had it or a success carries it. */
  lemma {:induction false} RegisteredPicked(fleet: seq<Record>, items: seq<Record>, results: seq<AddResult>, x: Value)
    requires |items| == |results|
    requires forall j :: 0 <= j < |results| && results[j].Added? ==> VRM in items[j] && results[j].vrm == items[j][VRM]
    ensures Registered(fleet + Picked(items, results), x) <==> Registered(fleet, x) || Added(x) in results
  {
    if items != [] {
      var n := |items| - 1;
      var ii, rr := items[..n], results[..n];
      assert forall j :: 0 <= j < n ==> ii[j] == items[j] && rr[j] == results[j];
      RegisteredPicked(fleet, ii, rr, x);
      var base := fleet + Picked(ii, rr);
      assert results == rr + [results[n]];
      assert Added(x) in results <==> Added(x) in rr || results[n] == Added(x);
      if results[n].Added? {
        var w := WithDefaults(items[n]);
        assert fleet + Picked(items, results) == base + [w];
        assert Get(w, VRM) == items[n][VRM];
        RegisteredAppend(base, w, x);
      } else {
        assert fleet + Picked(items, results) == base;
      }
    } else {
      assert fleet + Picked(items, results) == fleet;
    }
  }

  /** The bulk add only appends: the fleet before the request is a prefix of the fleet after. */
  lemma {:induction false} BulkRunGrows(fleet: seq<Record>, items: seq<Record>)
    ensures fleet <= BulkRun(fleet, items).fleet
  {
    if items != [] {
      BulkRunGrows(fleet, items[..|items| - 1]);
    }
  }

  /** The bulk add appends the items whose entries are successes, with
      their defaults, in input order. */
  lemma {:induction false} BulkRunPicked(fleet: seq<Record>, items: seq<Record>)
    ensures var st := BulkRun(fleet, items);
            |st.results| == |items| && st.fleet == fleet + Picked(items, st.results)
  {
    if items != [] {
      var n := |items| - 1;
      var init, v := items[..n], items[n];
      BulkRunPicked(fleet, init);
      var st := BulkRun(fleet, init);
      var e := BulkEntry(st.fleet, v);
      assert BulkRun(fleet, items).results == st.results + [e];
      assert items == init + [v];
      PickedAppend(init, st.results, v, e);
      if e.Added? {
        assert fleet + (Picked(init, st.results) + [WithDefaults(v)]) == st.fleet + [WithDefaults(v)];
      }
    }
  }

  /** Entry `k` is the one item `k` gets against the fleet the first `k`
      items leave, and the first `k` entries are theirs. */
  lemma {:induction false} BulkRunEntry(fleet: seq<Record>, items: seq<Record>, k: nat)
    requires k < |items|
    ensures var rs := BulkRun(fleet, items).results;
            k < |rs| && rs[..k] == BulkRun(fleet, items[..k]).results &&
            rs[k] == BulkEntry(BulkRun(fleet, items[..k]).fleet, items[k])
  {
    var n := |items| - 1;
    var init := items[..n];
    BulkRunCounts(fleet, init);
    var st := BulkRun(fleet, init);
    var rs := BulkRun(fleet, items).results;
    assert rs == st.results + [BulkEntry(st.fleet, items[n])];
    if k < n {
      BulkRunEntry(fleet, init, k);
      assert init[..k] == items[..k] && init[k] == items[k];
      assert rs[..k] == st.results[..k] && rs[k] == st.results[k];
    } else {
      assert items[..k] == init;
    }
  }

  /** Each entry fits its item against the fleet as it is when the item's
      turn comes: the fleet before the request and the vehicles appended for
      the earlier items. */
  lemma BulkResultMeaning(fleet: seq<Record>, items: seq<Record>)
    ensures |BulkRun(fleet, items).results| == |items|
    ensures var rs := BulkRun(fleet, items).results;
            forall k :: 0 <= k < |items| ==> EntryFits(rs[k], items[k], fleet + Picked(items[..k], rs[..k]))
  {
    BulkRunCounts(fleet, items);
    var rs := BulkRun(fleet, items).results;
    forall k | 0 <= k < |items| ensures EntryFits(rs[k], items[k], fleet + Picked(items[..k], rs[..k])) {
      BulkRunEntry(fleet, items, k);
      BulkRunPicked(fleet, items[..k]);
      BulkEntryFits(BulkRun(fleet, items[..k]).fleet, items[k]);
    }
  }

  /** Item `k` is added exactly when it has every required key and its
      `vrm` is neither in the fleet before the request nor carried by an
      earlier success; it is a duplicate exactly when it has every required
      key and one of those holds; it lacks keys exactly when one is missing. */
  lemma BulkEntryMeaning(fleet: seq<Record>, items: seq<Record>, k: nat)
    requires k < |items|
    ensures k < |BulkRun(fleet, items).results|
    ensures var rs, v := BulkRun(fleet, items).results, items[k];
            (rs[k].Rejected? && rs[k].reason.Missing? <==> !HasRequired(v)) &&
            (rs[k].Added? <==> HasRequired(v) && !Registered(fleet, v[VRM]) && Added(v[VRM]) !in rs[..k]) &&
            (rs[k].Rejected? && rs[k].reason.Duplicate? <==>
               HasRequired(v) && (Registered(fleet, v[VRM]) || Added(v[VRM]) in rs[..k]))
  {
    BulkResultMeaning(fleet, items);
    var rs := BulkRun(fleet, items).results;
    var ii, rr := items[..k], rs[..k];
    forall j | 0 <= j < |rr| && rr[j].Added? ensures VRM in ii[j] && rr[j].vrm == ii[j][VRM] {
      assert ii[j] == items[j] && rr[j] == rs[j];
      assert EntryFits(rs[j], items[j], fleet + Picked(items[..j], rs[..j]));
    }
    assert EntryFits(rs[k], items[k], fleet + Picked(ii, rr));
    if HasRequired(items[k]) {
      RegisteredPicked(fleet, ii, rr, items[k][VRM]);
    }
  }
}

# Vehicle rental fleet: a Dafny model

The backend of a vehicle rental application keeps its fleet as one ordered,
in-memory list of vehicle records. Each record is a dictionary from a field
name to a value, and the list is written back to a CSV file after changes.
HTTP handlers read and change this list:

- **Look-ups:** show one vehicle by its registration mark (`vrm`), list the
  available vehicles, the vehicles of one branch, or the branch names.
- **Changes:** rent, return, add, remove, edit one vehicle through a field
  whitelist, edit many in one batch, and add many with required-field and
  duplicate checks.
- **Search:** an AND of criteria over the fleet.
- **Analytics:** status counts, utilisation, average day rate, frequency
  tables and per-branch statistics.

The handlers exist twice: `backend/api.py` and, almost line for line,
`backend/routes/vehicle_routes.py` with `backend/routes/analytics_routes.py`.
Both are modelled at once, and the table cites the handler in each.

## Modules

- `records.dfy` (`Records`): field values, records, query strings and
  response outcomes, plus `v.get(k)`, Python truthiness, `str()` and
  `.lower()`. `WellFormed` names the keys that every way of creating a
  vehicle supplies and that the handlers index with `v[k]`. `dayRate` is
  indexed too but may be missing, since bulk add does not require it; the
  resulting KeyError is modelled.
- `seqs.dfy` (`Seqs`): order-preserving filters, first-occurrence lists,
  occurrence counts and frequency tables. Each is defined the way an append
  loop builds it, and comes with its meaning lemmas.
- `queries.dfy` (`Queries`): the lookup loop, show, available, fetch by
  branch and branch list.
- `search.dfy` (`Search`): `/cars/search`.
- `analytics.dfy` (`Analytics`): `/analytics/fleet`, `/analytics/branch` and
  `/analytics/rentals`.
- `mutations.dfy` (`Mutations`): what each changing handler does to the
  fleet, written as a function of the fleet before the request. Lemmas
  relate these functions to one another.
- `fleet.dfy` (`Store`): the class `Fleet`, holding the list, a snapshot of
  the CSV file and a save counter. Each handler is a method run step by step,
  proved to end in the state its `Mutations` function describes, and to save
  exactly when the source saves.

Modelling choices:

- A field value is `Null` (Python `None`) or a string.
- A handler's reply is `Ok(body)`, `BadRequest(error)`, `NotFound(error)`, or
  `ServerError`. `ServerError` stands for an exception the handler does not
  catch, which the web framework turns into a 500.
- `float()` is a parameter `parse: string -> Option<real>`. Arithmetic on
  rates is exact `real` arithmetic.

## Model

| member | source | states |
|---|---|---|
| Seqs.FirstIndex | backend/routes/vehicle_routes.py:114 | the position of the first occurrence of a value: it holds the value and no earlier position does |
| Seqs.DistinctIsSubseq | backend/routes/vehicle_routes.py:112-115 | the first-occurrence list is a subsequence of the list it is built from |
| Seqs.DistinctKeepsOrder | backend/routes/vehicle_routes.py:112-115 | an element listed before another first occurs before it |
| Seqs.DistinctOrder | backend/routes/vehicle_routes.py:112-115 | the first-occurrence list is a subsequence, and one element comes before another exactly when it first occurs earlier |
| Queries.FirstMatch | backend/api.py:44-48 | the index found has `vrm == reg`, nothing before it matches, and `None` means no vehicle matches |
| Queries.FirstMatchOnlyReadsVrms | backend/api.py:46-47 | fleets with the same registration column give the same lookup |
| Queries.Find | backend/routes/vehicle_routes.py:11-13 | the lookup loop stops at exactly the first matching index, or at none when no vehicle matches |
| Queries.Lookup | backend/routes/vehicle_routes.py:9-13 | `Ok` exactly when some vehicle has `reg`, and then it is the first fleet vehicle with that `vrm`; otherwise a 404 "Vehicle not found" |
| Queries.LookupAsWritten | backend/api.py:44-48 | show as written is a 500 exactly when no vehicle has `reg`, and otherwise the intended lookup |
| Queries.LookupAsWrittenFailsWhenMissing | backend/api.py:44-48 | show as written and the intended lookup differ exactly when no vehicle has `reg`: a 500 in place of the 404 |
| Queries.Show | backend/api.py:44-48 | the handler's reply is the intended lookup |
| Queries.ShowAvailable | backend/routes/vehicle_routes.py:85-90 | the append loop builds the available-status filter of the fleet |
| Queries.AvailableMeaning | backend/api.py:114-119 | the available list holds exactly the fleet's vehicles with status `AVAILABLE`, every copy of each, in fleet order, and its length is the number of `AVAILABLE` statuses |
| Queries.FetchByBranch | backend/routes/vehicle_routes.py:94-102 | a 400 exactly when the branch is absent or empty; otherwise exactly the vehicles of that branch |
| Queries.FetchByBranchExactly | backend/routes/vehicle_routes.py:100 | the branch's vehicles are a subsequence of the fleet holding every copy of each vehicle of that branch, as many as the branch occurs in the branch column |
| Queries.BranchList | backend/routes/vehicle_routes.py:111-116 | the loop builds the first-occurrence list of the branch column |
| Queries.BranchListMeaning | backend/routes/vehicle_routes.py:111-116 | the branch list has no duplicates, names exactly the branches some vehicle has, and lists one branch before another exactly when its first vehicle comes earlier in the fleet |
| Search.Judge | backend/api.py:268-298 | one vehicle is kept exactly when it is selected, and raises exactly when `float(None)` is reached |
| Search.Search | backend/routes/vehicle_routes.py:122-177 | a 500 exactly when some vehicle raises; otherwise the selected vehicles in fleet order, `count` equal to their number, and the echo of the filters; nothing without criteria |
| Search.NothingSelected | backend/api.py:269-270 | with no criterion, or with a ceiling that does not parse, no vehicle is selected |
| Search.UnparsableRateExcluded | backend/api.py:291-295 | under a ceiling, a vehicle whose rate does not parse is never a result |
| Search.SearchSelectsExactly | backend/api.py:266-298 | the results are exactly the fleet's vehicles meeting every supplied criterion, every copy of each, as a subsequence of the fleet |
| Queries.FilterCountsColumn | backend/routes/analytics_routes.py:111-112 | a filter on one field's value has as many vehicles as that value occurs in the column |
| Analytics.AvailablePlusRentedAtMostTotal | backend/routes/analytics_routes.py:10-12 | available plus rented is at most the total |
| Analytics.Percentage | backend/routes/analytics_routes.py:51-53 | 0 for an empty whole; otherwise `r * whole == part * 100`; within [0, 100] when `part <= whole` |
| Analytics.SumOfCleanRates | backend/routes/analytics_routes.py:38-41 | with every key present and every non-empty rate parsing, the sum is the total of the parsed rates |
| Analytics.SumWithBadRate | backend/routes/analytics_routes.py:42-43 | with every key present and some non-empty rate not parsing, the sum raises ValueError |
| Analytics.SumWithMissingKey | backend/routes/analytics_routes.py:40 | with every rate parsing and some vehicle lacking the key, the sum raises KeyError |
| Analytics.AverageDayRateMeaning | backend/api.py:348-351 | the average is the parsed total over all vehicles, 0 for an empty fleet or an unparsable rate, and a failure for a missing key; with both kinds present, the first offending vehicle decides between 0 and the failure |
| Analytics.SumAtFirstOffence | backend/routes/analytics_routes.py:38-43 | the sum fails with ValueError or KeyError according to the first vehicle whose rate does not parse or whose key is missing, whatever follows it |
| Analytics.BranchStatOf | backend/routes/analytics_routes.py:26-35 | a branch's available plus rented is at most its total |
| Analytics.BranchStatsMeaning | backend/routes/analytics_routes.py:26-35 | the loop's table has an entry for exactly the fleet's branches, each counting that branch's vehicles, available ones and rented ones |
| Analytics.BranchTotalsAreTally | backend/api.py:333-341 | the branch totals are the frequency table of the branch column |
| Analytics.BranchTotalsSumToTotal | backend/api.py:333-345 | the branch totals sum to the fleet size, and each branch has available plus rented at most its total |
| Analytics.TableSumsToTotal | backend/routes/analytics_routes.py:19-24 | a frequency table's keys are the column's distinct values, and its counts sum to the fleet size |
| Analytics.CountBy | backend/routes/analytics_routes.py:116-125 | the counting loop builds the frequency table: its keys are the values some vehicle has, and its counts sum to the number of vehicles |
| Analytics.Tabulate | backend/routes/analytics_routes.py:20-35 | one pass keeps the make table, the category table and the branch statistics equal to those of the vehicles seen so far |
| Analytics.Account | backend/routes/analytics_routes.py:31-35 | a branch entry gains one in its total, and one in available or rented by the vehicle's status |
| Analytics.Composition | backend/api.py:325-345 | the loop yields the frequency tables of make and category and the per-branch statistics |
| Analytics.FleetAnalytics | backend/routes/analytics_routes.py:9-62 | `Ok` exactly when the average does not raise; the summary's counts, the utilisation in [0, 100], and make, category and branch tables that each sum to the total |
| Analytics.BranchAnalytics | backend/routes/analytics_routes.py:68-104 | a 400 for an empty name; a 404 for a branch with no vehicles; a 500 exactly when its average raises and `Ok` otherwise, with at least one vehicle, the counts, the utilisation, the average and a category table summing to the branch total |
| Analytics.RentalAnalytics | backend/api.py:408-430 | the current rentals are the rented count, the rate is within [0, 100], and both tables sum to the current rentals |
| Analytics.TwoVehicleExample | backend/api.py:349-358 | a well-formed fleet of two vehicles, rates 50 and 100, one rented, gives utilisation 50 and average 75 |
| Analytics.AllRentedIsFullUtilisation | backend/routes/analytics_routes.py:51-53 | a fleet with every vehicle rented has utilisation 100 |
| Mutations.StatusChangeFrame | backend/api.py:53-59 | only the status of the first matching vehicle changes, to the new status; every other field and every other vehicle is kept; with no match nothing changes |
| Mutations.StatusChange | backend/api.py:53-59 | a status change keeps the number of vehicles |
| Mutations.StatusChangeKeepsVrms | backend/routes/vehicle_routes.py:21-23 | a status change keeps every registration mark, every lookup and well-formedness |
| Mutations.StatusChangeThenShow | backend/api_test.py:76-96 | after a rent, show for that registration gives a rented vehicle; after a return, an available one |
| Mutations.RentThenReturn | backend/api.py:53-70 | rent then return is return; a vehicle that was available is restored exactly; renting twice is renting once |
| Mutations.StatusReply | backend/routes/vehicle_routes.py:19-37 | the intended reply is the success message exactly when some vehicle has `reg`, otherwise a 404 |
| Mutations.StatusReplyAsWritten | backend/routes/vehicle_routes.py:19-37 | rent and return as written reply a 500 exactly when no vehicle has `reg`, and otherwise the intended reply |
| Mutations.RentAfterRemove | backend/api.py:53-59 | renting a removed vehicle is a 500 as written and a 404 as intended, and changes nothing |
| Mutations.NewVehicle | backend/api.py:75-90 | the new record has exactly the thirteen fields, each from the query string, with status defaulting to `AVAILABLE`; it is well-formed |
| Mutations.AddThenShow | backend/api.py:91 | with no duplicate check, show after an add finds the new vehicle for a new `vrm` and the earlier vehicle otherwise |
| Mutations.AppendKeepsFirstMatch | backend/routes/vehicle_routes.py:59 | appending moves no earlier match, and the new vehicle is found only when nothing earlier matches |
| Mutations.WithoutMeaning | backend/api.py:98-103 | remove keeps exactly the vehicles with another `vrm`, every copy of each, as a subsequence, after which no vehicle matches; well-formedness is kept |
| Mutations.WithoutAbsent | backend/routes/vehicle_routes.py:67-72 | removing a registration that no vehicle has changes nothing |
| Mutations.AddThenRemove | backend/api.py:91-101 | removing a just-added vehicle with a new `vrm` gives back the fleet |
| Mutations.ShowAfterRemove | backend/api_test.py:262-269 | after a remove, show finds nothing: a 404 as intended, a 500 as written |
| Mutations.EditUpdates | backend/api.py:142-143 | the updates hold exactly the whitelisted parameters with non-empty values |
| Mutations.MergeFrame | backend/api.py:150 | the merge changes, in one vehicle only, exactly the updated keys, and keeps the registration column and well-formedness |
| Mutations.EditSucceeds | backend/api.py:136-154 | an edit succeeds exactly when a registration is given, some whitelisted field has a value and a vehicle matches; otherwise a 400 "Registration number required", else a 400 "No valid fields to update" before any lookup, else a 404; a failed edit changes nothing |
| Mutations.EditShows | backend/api_test.py:98-119 | a successful edit replies "Vehicle updated successfully" with the first matching vehicle, the supplied fields set, all other fields kept, no non-whitelisted key added or dropped, and no other vehicle changed |
| Mutations.Allowed | backend/api.py:172 | the batch updates are exactly the whitelisted keys of the item's updates |
| Mutations.ItemResult | backend/api.py:172-199 | an item's entry names its `reg`; "No valid fields to update" when no whitelisted key is left; a success exactly when keys are left and a vehicle has the `reg`, naming the first such vehicle; otherwise "Vehicle not found" |
| Mutations.BatchStepFrame | backend/api.py:183-185 | one batch pass keeps the length, the registration column and well-formedness |
| Mutations.BatchRunFrame | backend/api.py:167-199 | the whole batch keeps the length, the registration column and well-formedness |
| Mutations.BatchRunAborts | backend/api.py:168-169 | the batch stops exactly when some item lacks `reg` or `updates` |
| Mutations.BatchRunResults | backend/api.py:167-199 | with no malformed item, one entry per item in input order, each decided by the fleet before the request |
| Mutations.BatchStepAppends | backend/api.py:177-199 | a pass over a well-formed item appends that item's entry |
| Mutations.BatchRunStaysAborted | backend/api.py:168-169 | after the abort, the later items change nothing |
| Mutations.BatchUpdatedMatches | backend/api.py:183-190 | every success names a vehicle that has the item's `reg` at the end of the batch |
| Mutations.LastWriteIsLast | backend/api.py:183-185 | a key written by an item and by no later item takes that item's value |
| Mutations.LastWriteNone | backend/api.py:183-185 | a key no item writes keeps its value from before the request |
| Mutations.BatchStepWrites | backend/api.py:183-185 | one pass sets each key the item writes to the item's value and keeps every other key of every vehicle |
| Mutations.BatchRunEffect | backend/api.py:167-199 | with no malformed item, every key of every vehicle ends with the value of the last item that writes it, else its old value, absent keys included |
| Mutations.BatchRunUntouched | backend/api_test.py:320-345 | a vehicle that no entry names is unchanged by the batch |
| Mutations.BatchRunOutsideWhitelist | backend/api.py:172 | no key outside the whitelist is added, dropped or changed by the batch |
| Mutations.MissingFields | backend/api.py:220 | the missing fields are exactly the required keys the item lacks |
| Mutations.MissingFieldsInOrder | backend/api.py:220 | the missing fields come in the required order: a subsequence of `id`, `make`, `model`, `vrm` |
| Mutations.FilterRequired | backend/api.py:214-220 | a filter of the required keys is the keys that pass, in the order `id`, `make`, `model`, `vrm` |
| Mutations.MessageTellsApart | backend/api.py:221-246 | the entry's message is the success message exactly for a success and the duplicate message exactly for a duplicate |
| Mutations.MissingVrmMessage | backend/api.py:221-226 | an item lacking only `vrm` is entered as "Unknown" with "Missing required fields: vrm" |
| Mutations.MissingThreeMessage | backend/api.py:221-226 | an item with only `id` gets "Missing required fields: make, model, vrm" |
| Mutations.JoinThree | backend/api.py:225 | `', '.join` of three keys puts the separator between them |
| Mutations.WithDefaults | backend/api.py:239-241 | status, branch and category are set only when absent, and every present key keeps its value |
| Mutations.BulkEntryFits | backend/api.py:219-249 | an entry lists the missing keys exactly when one is missing; it is a duplicate exactly when every key is present and the fleet has the `vrm`; it is a success exactly when every key is present and the fleet lacks the `vrm`; it carries the `vrm` or "Unknown" |
| Mutations.BulkRunCounts | backend/api.py:216-249 | one entry per item; `added_count` is the number of successes and the growth of the fleet |
| Mutations.BulkRun | backend/api.py:216-249 | the bulk loop gives one entry per item |
| Mutations.PickedAppend | backend/api.py:243 | one more item adds its defaulted record to the appended vehicles exactly when its entry is a success |
| Mutations.RegisteredAppend | backend/api.py:230 | appending a vehicle adds exactly its registration mark to the duplicate check |
| Mutations.RegisteredPicked | backend/api.py:230-243 | the fleet with the appended vehicles has a `vrm` exactly when the fleet had it or a success carries it |
| Mutations.BulkRunPicked | backend/api.py:239-243 | the final fleet is the old fleet followed by the successful items with their defaults, in input order |
| Mutations.BulkRunEntry | backend/api.py:216-246 | entry `k` is the one item `k` gets against the fleet the first `k` items leave |
| Mutations.BulkRunGrows | backend/api.py:243 | the fleet before the request is a prefix of the fleet after |
| Mutations.AddedIsWellFormed | backend/api.py:239-243 | an appended vehicle, with its defaults, has every key the handlers index, and its `vrm` is new |
| Mutations.BulkStepKeeps | backend/api.py:230-243 | one pass keeps well-formedness and unique registration marks |
| Mutations.BulkRunKeeps | backend/api_test.py:347-366 | bulk add keeps well-formedness and unique registration marks |
| Mutations.BulkResultMeaning | backend/api.py:216-249 | each entry fits its item against the fleet before the request plus the vehicles appended for earlier items |
| Mutations.BulkEntryMeaning | backend/api_test.py:347-366 | an item is added exactly when it has every required key and its `vrm` is neither in the fleet before the request nor carried by an earlier success; a duplicate exactly when it has every key and one of those holds; a missing-key rejection exactly when a key is missing |
| Store.EditOne | backend/api.py:171-199 | one batch item's checks give that item's entry |
| Store.AddOne | backend/api.py:219-236 | one bulk item's checks give that item's entry |
| Store.Fleet.constructor | backend/api.py:28-32 | the list and the file start with the given rows |
| Store.Fleet.Save | backend/api.py:34-39 | the file takes the list's contents, and the list is unchanged |
| Store.Fleet.ChangeStatus | backend/api.py:53-70 | the fleet ends as the status change describes; it saves exactly on success |
| Store.Fleet.Rent | backend/routes/vehicle_routes.py:19-25 | the status change to `RENTED`, the intended reply, and a save exactly on success |
| Store.Fleet.Return | backend/routes/vehicle_routes.py:31-37 | the status change to `AVAILABLE`, the intended reply, and a save exactly on success |
| Store.Fleet.Add | backend/routes/vehicle_routes.py:43-61 | the fleet grows by the new vehicle at the end, always saved |
| Store.Fleet.Remove | backend/routes/vehicle_routes.py:67-72 | the fleet ends as the remove describes; it always saves and succeeds |
| Store.Fleet.Edit | backend/api.py:136-154 | the fleet and the reply are the edit's outcome, the success reply carrying the update message and the vehicle; it saves exactly on success |
| Store.Fleet.BatchPass | backend/api.py:171-199 | one pass of the batch loop leaves the list and the entries where the batch run over one more item puts them, saving nothing |
| Store.Fleet.BulkPass | backend/api.py:217-246 | one pass of the bulk loop leaves the list, the entries and `added_count` where the bulk run over one more item puts them, saving nothing |
| Store.Fleet.BatchEdit | backend/api.py:159-204 | a 400 for an empty body; the fleet ends as the batch run, even after an abort; a 400 on abort; otherwise the entries; a save once exactly when some entry is a success |
| Store.Fleet.BulkAdd | backend/api.py:209-254 | a 400 for an empty body; otherwise the entries and `added_count` are the bulk run's, and the fleet is the old fleet followed by the added items with their defaults; a save once exactly when something was added |

## Definitions

These functions are the model's definitions of what the handlers compute.
They have no contract of their own; the lemmas named here state their meaning.

- `Analytics.CountStatus` (backend/routes/analytics_routes.py:11-12): `Queries.FilterCountsColumn` and `Analytics.AvailablePlusRentedAtMostTotal`.
- `Analytics.SumDayRates` and `Analytics.AverageDayRate` (backend/routes/analytics_routes.py:38-48): `Analytics.SumOfCleanRates`, `Analytics.SumWithBadRate`, `Analytics.SumWithMissingKey`, `Analytics.SumAtFirstOffence` and `Analytics.AverageDayRateMeaning`.
- `Analytics.BranchStats` (backend/routes/analytics_routes.py:26-35): `Analytics.BranchStatsMeaning` and `Analytics.BranchTotalsAreTally`.
- `Analytics.FleetReportOf` (backend/api.py:315-366): `Analytics.FleetAnalytics`, which returns it.
- `Search.ReadDayRate` and `Search.Selected` (backend/api.py:266-298): `Search.Judge`, `Search.UnparsableRateExcluded`, `Search.NothingSelected` and `Search.SearchSelectsExactly`.
- `Mutations.Without` (backend/api.py:98-103): `Mutations.WithoutMeaning`.
- `Mutations.EditOutcome` (backend/api.py:136-154): `Mutations.EditSucceeds` and `Mutations.EditShows`.
- `Mutations.BatchStep` and `Mutations.BatchRun` (backend/api.py:159-204): `Mutations.BatchRunResults`, `Mutations.BatchRunEffect`, `Mutations.BatchRunUntouched` and `Mutations.BatchRunOutsideWhitelist`. `Mutations.LastWrite` is their reference definition, key by key.
- `Mutations.BulkEntry` and `Mutations.BulkStep` (backend/api.py:216-246): `Mutations.BulkEntryFits`, `Mutations.BulkRunPicked` and `Mutations.BulkEntryMeaning`. `Mutations.Picked` is the reference definition of the appended vehicles.

## Findings

| source | as written | input that shows it | evidently intended | confidence | as-written member | corrected member |
|---|---|---|---|---|---|---|
| backend/api.py:44-48 | show, rent and return loop over the fleet and return only from inside the loop. The view then returns `None` when no vehicle matches, which the framework answers with a 500 error. The same holds in backend/routes/vehicle_routes.py:9-37. | `/cars/show?reg=X` right after `/cars/remove?reg=X`; backend/api_test.py:262-269 expects 404 there | a 404 "Vehicle not found", as edit answers at backend/api.py:154 | not executed | Queries.LookupAsWritten with Mutations.ShowAfterRemove; Mutations.StatusReplyAsWritten with Mutations.RentAfterRemove | Queries.Lookup, Mutations.StatusReply, Store.Fleet.Rent |

## Left out

- CSV persistence: loading reads the file's rows, and saving writes them back. A save is modelled as a snapshot `persisted` plus a counter `saves`. CSV encoding and file errors are not modelled, and `backend/utils/data_handler.py` is not part of this model.
- The web layer is not modelled: routing, request parsing and JSON serialisation. The model takes a JSON body to be a list: a `null` or empty body is the empty list, which gets the 400 the source gives it, and a body that is a non-empty object, whose keys the source's loops would walk, is not modelled. A JSON value that is neither a string nor `null` is not modelled.
- `float()` and `round(…, 2)`: the parse is the parameter `parse`, and no rounding is applied to the rates.
- `.lower()` is modelled on the ASCII letters only.
- The batch result's `vehicle` is the fleet's own dictionary, so the reply shows it as it is after the whole batch. `Updated` records its index instead.
- Show-all (`/cars/all`) and show-by-branch (`/cars/branch`) are not modelled; they only return the list or group it.
- Customers: only file I/O of customers appears in the source.
- `from models.data import vehicles` with the `global vehicles` rebinding in remove is not modelled. Module aliasing of this kind is import plumbing, so the model has a single owned list.
- The frontend (`frontend/src`) and `backend/app.py` are not modelled: they are HTTP clients, UI wiring and start-up.
- Mutations.StatusChange: its own contract says only that the length is kept. What it changes is stated by Mutations.StatusChangeFrame.
- A batch item that is not an object, or whose `updates` is `null` or not an object, is not modelled. In the source `update["updates"].items()` then raises AttributeError: the reply is a 500, and the earlier items stay merged in memory but are not saved. `BatchItem.updates` uses `None` only for an absent key.

/** The read-only vehicle endpoints: look a vehicle up by its registration
    mark (VRM), list the available vehicles, the vehicles of one branch, and
    the branch names. */
module Queries {
  import opened Records
  import opened Seqs

  /** The position of the first vehicle whose `vrm` is `reg`: the vehicle every
      lookup loop of the handlers stops at. */
  function FirstMatch(fleet: seq<Record>, reg: Value): (r: Option<nat>)
    ensures r.Some? ==> r.value < |fleet| && Get(fleet[r.value], VRM) == reg
    ensures r.Some? ==> forall j :: 0 <= j < r.value ==> Get(fleet[j], VRM) != reg
    ensures r.None? ==> forall j :: 0 <= j < |fleet| ==> Get(fleet[j], VRM) != reg
  {
    if fleet == [] then None
    else if Get(fleet[0], VRM) == reg then Some(0)
    else
      match FirstMatch(fleet[1..], reg)
      case None => None
      case Some(k) => Some(k + 1)
  }

  /** The lookup depends on the registration marks alone, so an update that
      leaves every `vrm` alone leaves every lookup alone. */
  lemma FirstMatchOnlyReadsVrms(f: seq<Record>, g: seq<Record>, reg: Value)
    requires Column(f, VRM) == Column(g, VRM)
    ensures FirstMatch(f, reg) == FirstMatch(g, reg)
  {
    assert |f| == |Column(f, VRM)|;
    forall j | 0 <= j < |f|
      ensures Get(f[j], VRM) == Get(g[j], VRM)
    {
      assert Column(f, VRM)[j] == Column(g, VRM)[j];
    }
  }

  /** The lookup loop every by-registration handler runs: walk the fleet and
      stop at the first vehicle whose `vrm` is `reg`. */
  method Find(fleet: seq<Record>, reg: Value) returns (found: Option<nat>)
    requires FleetWellFormed(fleet)
    ensures found == FirstMatch(fleet, reg)
  {
    var i := 0;
    while i < |fleet|
      invariant 0 <= i <= |fleet|
      invariant forall j :: 0 <= j < i ==> Get(fleet[j], VRM) != reg
    {
      if fleet[i][VRM] == reg {
        FirstMatchIsFirst(fleet, reg, i);
        return Some(i);
      }
      i := i + 1;
    }
    FirstMatchIsFirst(fleet, reg, |fleet|);
    return None;
  }

  /** Whatever index the loop stops at, or the end of the fleet, is the first match. */
  lemma {:induction false} FirstMatchIsFirst(fleet: seq<Record>, reg: Value, i: nat)
    requires i <= |fleet|
    requires forall j :: 0 <= j < i ==> Get(fleet[j], VRM) != reg
    requires i < |fleet| ==> Get(fleet[i], VRM) == reg
    ensures FirstMatch(fleet, reg) == if i < |fleet| then Some(i) else None
  {
    if fleet != [] && i > 0 {
      FirstMatchIsFirst(fleet[1..], reg, i - 1);
    }
  }

  const NOT_FOUND := "Vehicle not found"

  /** `/cars/show` as the handler is evidently meant to answer: the first
      vehicle whose `vrm` is `reg`, or a 404 when there is none. */
  function Lookup(fleet: seq<Record>, reg: Value): (r: Response<Record>)
    ensures r.Ok? || r == NotFound(NOT_FOUND)
    ensures r.Ok? <==> exists i :: 0 <= i < |fleet| && Get(fleet[i], VRM) == reg
    ensures r.Ok? ==> Get(r.body, VRM) == reg && r.body in fleet
    ensures r.Ok? ==> FirstMatch(fleet, reg).Some? && r.body == fleet[FirstMatch(fleet, reg).value]
  {
    match FirstMatch(fleet, reg)
    case None => NotFound(NOT_FOUND)
    case Some(i) => Ok(fleet[i])
  }

  /** `/cars/show` as written: when no vehicle matches, the loop falls off the
      end, the view returns `None`, and the web framework answers 500. */
  function LookupAsWritten(fleet: seq<Record>, reg: Value): (r: Response<Record>)
    ensures r.Ok? || r == ServerError
    ensures r == ServerError <==> forall i :: 0 <= i < |fleet| ==> Get(fleet[i], VRM) != reg
    ensures r.Ok? ==> r == Lookup(fleet, reg)
  {
    match FirstMatch(fleet, reg)
    case None => ServerError
    case Some(i) => Ok(fleet[i])
  }

  /** The two differ exactly on a registration no vehicle has. */
  lemma LookupAsWrittenFailsWhenMissing(fleet: seq<Record>, reg: Value)
    ensures LookupAsWritten(fleet, reg) != Lookup(fleet, reg) <==>
            forall i :: 0 <= i < |fleet| ==> Get(fleet[i], VRM) != reg
    ensures LookupAsWritten(fleet, reg) == ServerError <==> Lookup(fleet, reg) == NotFound(NOT_FOUND)
  {
  }

  /** `/cars/show`. */
  method Show(fleet: seq<Record>, reg: Value) returns (r: Response<Record>)
    requires FleetWellFormed(fleet)
    ensures r == Lookup(fleet, reg)
  {
    var found := Find(fleet, reg);
    if found.None? {
      return NotFound(NOT_FOUND);
    }
    return Ok(fleet[found.value]);
  }

  predicate IsAvailable(v: Record) {
    Get(v, STATUS) == AVAILABLE
  }

  predicate IsRented(v: Record) {
    Get(v, STATUS) == RENTED
  }

  /** The test the branch filters apply: `v["branch"] == b`. */
  function InBranch(b: Value): Record -> bool {
    v => Get(v, BRANCH) == b
  }

  /** A filter on one field's value keeps as many vehicles as that value occurs in the column. */
  lemma {:induction false} FilterCountsColumn(fleet: seq<Record>, key: string, x: Value, p: Record -> bool)
    requires forall v :: p(v) <==> Get(v, key) == x
    ensures |Filter(fleet, p)| == Occurrences(Column(fleet, key), x)
  {
    if fleet != [] {
      var init := fleet[..|fleet| - 1];
      assert fleet == init + [fleet[|fleet| - 1]];
      FilterCountsColumn(init, key, x, p);
      ColumnAppend(init, fleet[|fleet| - 1], key);
      OccurrencesAppend(Column(init, key), Get(fleet[|fleet| - 1], key), x);
    }
  }

  /** `/cars/available`: the vehicles whose status is `AVAILABLE`, in fleet order. */
  method ShowAvailable(fleet: seq<Record>) returns (available: seq<Record>)
    requires FleetWellFormed(fleet)
    ensures available == Filter(fleet, IsAvailable)
  {
    available := [];
    ghost var seen: seq<Record> := [];
    var i := 0;
    while i < |fleet|
      invariant 0 <= i <= |fleet|
      invariant seen == fleet[..i]
      invariant available == Filter(seen, IsAvailable)
    {
      FilterAppend(seen, fleet[i], IsAvailable);
      if fleet[i][STATUS] == AVAILABLE {
        available := available + [fleet[i]];
      }
      assert fleet[..i + 1] == seen + [fleet[i]];
      seen := seen + [fleet[i]];
      i := i + 1;
    }
    assert seen == fleet;
  }

  /** The available vehicles are exactly the fleet's vehicles whose status is
      `AVAILABLE`, every copy of each, in fleet order, and there are as many
      as `AVAILABLE` occurs in the status column. */
  lemma AvailableMeaning(fleet: seq<Record>)
    ensures forall v :: v in Filter(fleet, IsAvailable) <==> v in fleet && Get(v, STATUS) == AVAILABLE
    ensures IsSubseq(Filter(fleet, IsAvailable), fleet)
    ensures forall v :: Occurrences(Filter(fleet, IsAvailable), v) ==
                          if Get(v, STATUS) == AVAILABLE then Occurrences(fleet, v) else 0
    ensures |Filter(fleet, IsAvailable)| == Occurrences(Column(fleet, STATUS), AVAILABLE)
  {
    FilterMembers(fleet, IsAvailable);
    FilterIsSubseq(fleet, IsAvailable);
    forall v ensures Occurrences(Filter(fleet, IsAvailable), v) ==
                       if Get(v, STATUS) == AVAILABLE then Occurrences(fleet, v) else 0 {
      FilterOccurrences(fleet, IsAvailable, v);
    }
    FilterCountsColumn(fleet, STATUS, AVAILABLE, IsAvailable);
  }

  /** `/cars/fetch_by_branch`: a 400 when the branch parameter is absent or
      empty, otherwise the vehicles of that branch. */
  function FetchByBranch(fleet: seq<Record>, branch: Value): (r: Response<seq<Record>>)
    requires FleetWellFormed(fleet)
    ensures r.Ok? <==> Truthy(branch)
    ensures !Truthy(branch) ==> r == BadRequest("branch query parameter is required")
    ensures r.Ok? ==> forall v :: v in r.body <==> v in fleet && Get(v, BRANCH) == branch
  {
    if !Truthy(branch) then BadRequest("branch query parameter is required")
    else
      FilterMembers(fleet, InBranch(branch));
      Ok(Filter(fleet, InBranch(branch)))
  }

  /** The vehicles of a branch keep their fleet order and every copy of
      each, and there are as many as the branch occurs in the branch column. */
  lemma FetchByBranchExactly(fleet: seq<Record>, branch: Value)
    requires FleetWellFormed(fleet) && Truthy(branch)
    ensures IsSubseq(FetchByBranch(fleet, branch).body, fleet)
    ensures forall v :: Occurrences(FetchByBranch(fleet, branch).body, v) ==
                          if Get(v, BRANCH) == branch then Occurrences(fleet, v) else 0
    ensures |FetchByBranch(fleet, branch).body| == Occurrences(Column(fleet, BRANCH), branch)
  {
    FilterIsSubseq(fleet, InBranch(branch));
    forall v ensures Occurrences(Filter(fleet, InBranch(branch)), v) ==
                       if Get(v, BRANCH) == branch then Occurrences(fleet, v) else 0 {
      FilterOccurrences(fleet, InBranch(branch), v);
    }
    FilterCountsColumn(fleet, BRANCH, branch, InBranch(branch));
  }

  /** `/cars/branch-list`: every branch name once, in order of first occurrence. */
  method BranchList(fleet: seq<Record>) returns (branches: seq<Value>)
    requires FleetWellFormed(fleet)
    ensures branches == Distinct(Column(fleet, BRANCH))
  {
    branches := [];
    ghost var seen: seq<Record> := [];
    var i := 0;
    while i < |fleet|
      invariant 0 <= i <= |fleet|
      invariant seen == fleet[..i]
      invariant branches == Distinct(Column(seen, BRANCH))
    {
      var branch := fleet[i][BRANCH];
      ColumnAppend(seen, fleet[i], BRANCH);
      DistinctAppend(Column(seen, BRANCH), branch);
      if branch !in branches {
        branches := branches + [branch];
      }
      assert fleet[..i + 1] == seen + [fleet[i]];
      seen := seen + [fleet[i]];
      i := i + 1;
    }
    assert seen == fleet;
  }

  /** The branch list names every branch of the fleet once and nothing else,
      in the order of each branch's first vehicle. */
  lemma BranchListMeaning(fleet: seq<Record>)
    ensures NoDuplicates(Distinct(Column(fleet, BRANCH)))
    ensures forall b :: b in Distinct(Column(fleet, BRANCH)) <==> exists i :: 0 <= i < |fleet| && Get(fleet[i], BRANCH) == b
    ensures var d, c := Distinct(Column(fleet, BRANCH)), Column(fleet, BRANCH);
            forall a, b :: 0 <= a < |d| && 0 <= b < |d| ==> (a < b <==> FirstIndex(c, d[a]) < FirstIndex(c, d[b]))
  {
    DistinctOrder(Column(fleet, BRANCH));
    forall b ensures b in Distinct(Column(fleet, BRANCH)) <==> exists i :: 0 <= i < |fleet| && Get(fleet[i], BRANCH) == b {
      InColumn(fleet, BRANCH, b);
    }
  }
}

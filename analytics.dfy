/** The analytics endpoints: status counts, utilisation, the average day rate,
    frequency tables by make, category and branch, and per-branch statistics,
    all read from one snapshot of the fleet. */
module Analytics {
  import opened Records
  import opened Seqs
  import opened Queries

  /** `sum(1 for v in fleet if v["status"] == s)`. */
  function CountStatus(fleet: seq<Record>, s: Value): nat {
    Occurrences(Column(fleet, STATUS), s)
  }

  /** No vehicle is counted both available and rented. */
  lemma AvailablePlusRentedAtMostTotal(fleet: seq<Record>)
    ensures CountStatus(fleet, AVAILABLE) + CountStatus(fleet, RENTED) <= |fleet|
  {
    OccurrencesOfTwo(Column(fleet, STATUS), AVAILABLE, RENTED);
  }

  /** `part / whole * 100 if whole > 0 else 0`, in exact arithmetic. */
  function Percentage(part: nat, whole: nat): (r: real)
    ensures 0.0 <= r
    ensures whole == 0 ==> r == 0.0
    ensures whole > 0 ==> r * whole as real == part as real * 100.0
    ensures part <= whole ==> r <= 100.0
    ensures 0 < whole == part ==> r == 100.0
  {
    if whole > 0 then
      var q := part as real / whole as real;
      assert q * whole as real == part as real;
      assert part <= whole ==> q <= 1.0;
      q * 100.0
    else 0.0
  }

  /** What `sum(float(v["dayRate"]) for v in vs if v["dayRate"])` comes to,
      evaluated front to back: the first vehicle without a `dayRate` key
      raises KeyError, the first non-empty rate that does not parse raises
      ValueError, and otherwise the parsed rates add up. */
  datatype RateSum = Sum(total: real) | Unparsable | MissingKey

  function SumDayRates(vs: seq<Record>, parse: string -> Option<real>): RateSum
  {
    if vs == [] then Sum(0.0)
    else if DAY_RATE !in vs[0] then MissingKey
    else if !Truthy(vs[0][DAY_RATE]) then SumDayRates(vs[1..], parse)
    else match parse(vs[0][DAY_RATE].text)
      case None => Unparsable
      case Some(x) =>
        match SumDayRates(vs[1..], parse)
        case Sum(t) => Sum(x + t)
        case other => other
  }

  /** The handler's average: ValueError and ZeroDivisionError give 0, KeyError
      is not caught (`None` here: the request fails). The denominator is the
      number of all vehicles, not of the rated ones. */
  function AverageDayRate(vs: seq<Record>, parse: string -> Option<real>): Option<real>
  {
    match SumDayRates(vs, parse)
    case MissingKey => None
    case Unparsable => Some(0.0)
    case Sum(t) => Some(if |vs| == 0 then 0.0 else t / |vs| as real)
  }

  /** Every vehicle has a `dayRate` key. */
  predicate HasRateKeys(vs: seq<Record>) {
    forall i :: 0 <= i < |vs| ==> DAY_RATE in vs[i]
  }

  /** Every non-empty `dayRate` parses. */
  predicate RatesParse(vs: seq<Record>, parse: string -> Option<real>) {
    forall i :: 0 <= i < |vs| && DAY_RATE in vs[i] && Truthy(vs[i][DAY_RATE]) ==>
      parse(vs[i][DAY_RATE].text).Some?
  }

  /** The parsed rate of a rated vehicle, 0 for an unrated one. */
  function RateOf(v: Record, parse: string -> Option<real>): real {
    if DAY_RATE in v && Truthy(v[DAY_RATE]) && parse(v[DAY_RATE].text).Some?
    then parse(v[DAY_RATE].text).value else 0.0
  }

  function RateTotal(vs: seq<Record>, parse: string -> Option<real>): real {
    if vs == [] then 0.0 else RateOf(vs[0], parse) + RateTotal(vs[1..], parse)
  }

  /** With every key present and every rate parsing, the sum is the total of the parsed rates. */
  lemma {:induction false} SumOfCleanRates(vs: seq<Record>, parse: string -> Option<real>)
    requires HasRateKeys(vs) && RatesParse(vs, parse)
    ensures SumDayRates(vs, parse) == Sum(RateTotal(vs, parse))
  {
    if vs != [] {
      assert HasRateKeys(vs[1..]) && RatesParse(vs[1..], parse) by {
        forall i | 0 <= i < |vs[1..]| ensures vs[1..][i] == vs[i + 1] {}
      }
      SumOfCleanRates(vs[1..], parse);
    }
  }

  /** With every key present, one rate that does not parse makes the sum fail with ValueError. */
  lemma {:induction false} SumWithBadRate(vs: seq<Record>, parse: string -> Option<real>)
    requires HasRateKeys(vs) && !RatesParse(vs, parse)
    ensures SumDayRates(vs, parse) == Unparsable
  {
    if DAY_RATE in vs[0] && Truthy(vs[0][DAY_RATE]) && parse(vs[0][DAY_RATE].text).None? {
    } else {
      assert HasRateKeys(vs[1..]) && !RatesParse(vs[1..], parse) by {
        forall i | 0 <= i < |vs[1..]| ensures vs[1..][i] == vs[i + 1] {}
        var k :| 0 <= k < |vs| && DAY_RATE in vs[k] && Truthy(vs[k][DAY_RATE]) && parse(vs[k][DAY_RATE].text).None?;
        assert k > 0 && vs[1..][k - 1] == vs[k];
      }
      SumWithBadRate(vs[1..], parse);
    }
  }

  /** With every rate parsing, one vehicle without the key makes the sum fail with KeyError. */
  lemma {:induction false} SumWithMissingKey(vs: seq<Record>, parse: string -> Option<real>)
    requires RatesParse(vs, parse) && !HasRateKeys(vs)
    ensures SumDayRates(vs, parse) == MissingKey
  {
    if DAY_RATE in vs[0] {
      assert RatesParse(vs[1..], parse) && !HasRateKeys(vs[1..]) by {
        forall i | 0 <= i < |vs[1..]| ensures vs[1..][i] == vs[i + 1] {}
        var k :| 0 <= k < |vs| && DAY_RATE !in vs[k];
        assert k > 0 && vs[1..][k - 1] == vs[k];
      }
      SumWithMissingKey(vs[1..], parse);
    }
  }

  /** A vehicle the sum stops at: no `dayRate` key (KeyError), or a non-empty
      rate that does not parse (ValueError). */
  predicate RateOffends(v: Record, parse: string -> Option<real>) {
    DAY_RATE !in v || (Truthy(v[DAY_RATE]) && parse(v[DAY_RATE].text).None?)
  }

  /** The first offending vehicle decides the sum's failure, whatever follows it. */
  lemma {:induction false} SumAtFirstOffence(vs: seq<Record>, parse: string -> Option<real>, k: nat)
    requires k < |vs| && RateOffends(vs[k], parse)
    requires forall j :: 0 <= j < k ==> !RateOffends(vs[j], parse)
    ensures SumDayRates(vs, parse) == if DAY_RATE in vs[k] then Unparsable else MissingKey
  {
    if k > 0 {
      assert !RateOffends(vs[0], parse);
      forall j | 0 <= j < k - 1 ensures !RateOffends(vs[1..][j], parse) {
        assert vs[1..][j] == vs[j + 1];
      }
      assert vs[1..][k - 1] == vs[k];
      SumAtFirstOffence(vs[1..], parse, k - 1);
    }
  }

  /** The average, stated against the reference total: the parsed rates over
      the number of all vehicles, 0 for an empty list or an unparsable rate,
      and a failure when a key is missing and every rate parses; with both
      kinds present, the first offending vehicle decides. */
  lemma AverageDayRateMeaning(vs: seq<Record>, parse: string -> Option<real>)
    ensures HasRateKeys(vs) && RatesParse(vs, parse) && |vs| > 0 ==>
              AverageDayRate(vs, parse) == Some(RateTotal(vs, parse) / |vs| as real)
    ensures |vs| == 0 ==> AverageDayRate(vs, parse) == Some(0.0)
    ensures HasRateKeys(vs) && !RatesParse(vs, parse) ==> AverageDayRate(vs, parse) == Some(0.0)
    ensures RatesParse(vs, parse) && !HasRateKeys(vs) ==> AverageDayRate(vs, parse).None?
    ensures forall k :: 0 <= k < |vs| && RateOffends(vs[k], parse) &&
                        (forall j :: 0 <= j < k ==> !RateOffends(vs[j], parse)) ==>
              AverageDayRate(vs, parse) == if DAY_RATE in vs[k] then Some(0.0) else None
  {
    forall k | 0 <= k < |vs| && RateOffends(vs[k], parse) &&
               (forall j :: 0 <= j < k ==> !RateOffends(vs[j], parse))
      ensures AverageDayRate(vs, parse) == if DAY_RATE in vs[k] then Some(0.0) else None
    {
      SumAtFirstOffence(vs, parse, k);
    }
    if HasRateKeys(vs) && RatesParse(vs, parse) { SumOfCleanRates(vs, parse); }
    if HasRateKeys(vs) && !RatesParse(vs, parse) { SumWithBadRate(vs, parse); }
    if RatesParse(vs, parse) && !HasRateKeys(vs) { SumWithMissingKey(vs, parse); }
  }

  /** One branch's entry of `branch_performance`. */
  datatype BranchStat = BranchStat(total: nat, available: nat, rented: nat)

  function BranchVehicles(fleet: seq<Record>, b: Value): seq<Record> {
    Filter(fleet, InBranch(b))
  }

  function BranchStatOf(fleet: seq<Record>, b: Value): (s: BranchStat)
    ensures s.available + s.rented <= s.total
  {
    var vs := BranchVehicles(fleet, b);
    AvailablePlusRentedAtMostTotal(vs);
    BranchStat(|vs|, CountStatus(vs, AVAILABLE), CountStatus(vs, RENTED))
  }

  /** One pass of the loop over vehicle `v`. */
  function Bump(s: BranchStat, v: Record): BranchStat {
    BranchStat(s.total + 1,
               s.available + (if Get(v, STATUS) == AVAILABLE then 1 else 0),
               s.rented + (if Get(v, STATUS) == RENTED then 1 else 0))
  }

  /** The loop's branch step: create the entry of `v`'s branch if new, then bump it. */
  function Enter(m: map<Value, BranchStat>, v: Record): map<Value, BranchStat> {
    var b := Get(v, BRANCH);
    m[b := Bump(if b in m then m[b] else BranchStat(0, 0, 0), v)]
  }

  /** `branch_performance` as the handler's loop builds it, one vehicle at a time. */
  function BranchStats(fleet: seq<Record>): map<Value, BranchStat> {
    if fleet == [] then map[] else Enter(BranchStats(fleet[..|fleet| - 1]), fleet[|fleet| - 1])
  }

  /** The statistics of branch `c` once `v` is appended: bumped when `v` is of branch `c`. */
  lemma BranchStatOfStep(fleet: seq<Record>, v: Record, c: Value)
    ensures BranchStatOf(fleet + [v], c) ==
            if Get(v, BRANCH) == c then Bump(BranchStatOf(fleet, c), v) else BranchStatOf(fleet, c)
  {
    FilterAppend(fleet, v, InBranch(c));
    var vs := BranchVehicles(fleet, c);
    if Get(v, BRANCH) == c {
      assert BranchVehicles(fleet + [v], c) == vs + [v];
      ColumnAppend(vs, v, STATUS);
      OccurrencesAppend(Column(vs, STATUS), Get(v, STATUS), AVAILABLE);
      OccurrencesAppend(Column(vs, STATUS), Get(v, STATUS), RENTED);
    } else {
      assert BranchVehicles(fleet + [v], c) == vs;
    }
  }

  /** A branch that no vehicle has has no statistics to speak of. */
  lemma BranchStatOfAbsent(fleet: seq<Record>, c: Value)
    requires c !in Column(fleet, BRANCH)
    ensures BranchStatOf(fleet, c) == BranchStat(0, 0, 0)
  {
    var vs := BranchVehicles(fleet, c);
    if vs != [] {
      FilterMembers(fleet, InBranch(c));
      assert vs[0] in vs;
      var k :| 0 <= k < |fleet| && fleet[k] == vs[0];
      InColumn(fleet, BRANCH, c);
    }
  }

  lemma BranchStatsStep(fleet: seq<Record>, v: Record)
    ensures BranchStats(fleet + [v]) == Enter(BranchStats(fleet), v)
  {
    assert (fleet + [v])[..|fleet|] == fleet;
  }

  /** The loop's table has an entry for exactly the fleet's branches, and each
      entry counts that branch's vehicles, its available and its rented ones. */
  lemma {:induction false} BranchStatsMeaning(fleet: seq<Record>)
    ensures forall b :: b in BranchStats(fleet) <==> b in Column(fleet, BRANCH)
    ensures forall b :: b in BranchStats(fleet) ==> BranchStats(fleet)[b] == BranchStatOf(fleet, b)
  {
    if fleet != [] {
      var init, v := fleet[..|fleet| - 1], fleet[|fleet| - 1];
      assert fleet == init + [v];
      BranchStatsMeaning(init);
      ColumnAppend(init, v, BRANCH);
      forall b | b in BranchStats(fleet)
        ensures BranchStats(fleet)[b] == BranchStatOf(fleet, b)
      {
        BranchStatOfStep(init, v, b);
        if b !in Column(init, BRANCH) {
          BranchStatOfAbsent(init, b);
        }
      }
    }
  }

  /** The branch totals: the number of vehicles of each branch. */
  function Totals(stats: map<Value, BranchStat>): map<Value, nat> {
    map b | b in stats :: stats[b].total
  }

  lemma TotalsEnter(m: map<Value, BranchStat>, v: Record)
    ensures Totals(Enter(m, v)) == Inc(Totals(m), Get(v, BRANCH))
  {
    assert Totals(Enter(m, v)).Keys == Inc(Totals(m), Get(v, BRANCH)).Keys;
  }

  /** The branch totals are the frequency table of the branch column. */
  lemma {:induction false} BranchTotalsAreTally(fleet: seq<Record>)
    ensures Totals(BranchStats(fleet)) == Tally(Column(fleet, BRANCH))
  {
    if fleet != [] {
      var init, v := fleet[..|fleet| - 1], fleet[|fleet| - 1];
      assert fleet == init + [v];
      BranchTotalsAreTally(init);
      BranchStatsStep(init, v);
      TotalsEnter(BranchStats(init), v);
      ColumnAppend(init, v, BRANCH);
      TallyStep(Column(init, BRANCH), Get(v, BRANCH));
    }
  }

  /** The branch totals sum to the fleet total, and each branch has
      available + rented <= total. */
  lemma BranchTotalsSumToTotal(fleet: seq<Record>)
    ensures SumOver(Distinct(Column(fleet, BRANCH)), Totals(BranchStats(fleet))) == |fleet|
    ensures forall b :: b in BranchStats(fleet) ==>
              BranchStats(fleet)[b].available + BranchStats(fleet)[b].rented <= BranchStats(fleet)[b].total
  {
    BranchTotalsAreTally(fleet);
    TallySumsToLength(Column(fleet, BRANCH));
    BranchStatsMeaning(fleet);
  }

  /** A frequency table of one field sums to the number of vehicles. */
  lemma TableSumsToTotal(fleet: seq<Record>, key: string)
    ensures Tally(Column(fleet, key)).Keys == set b | b in Distinct(Column(fleet, key))
    ensures SumOver(Distinct(Column(fleet, key)), Tally(Column(fleet, key))) == |fleet|
  {
    TallyKeys(Column(fleet, key));
    TallySumsToLength(Column(fleet, key));
  }

  /** One step `counts[v[key]] = counts.get(v[key], 0) + 1` keeps the table
      the frequency table of the column. */
  lemma ColumnTallyStep(fleet: seq<Record>, v: Record, key: string)
    requires key in v
    ensures Tally(Column(fleet + [v], key)) == Inc(Tally(Column(fleet, key)), v[key])
  {
    ColumnAppend(fleet, v, key);
    TallyStep(Column(fleet, key), Get(v, key));
  }

  /** `counts[v[key]] = counts.get(v[key], 0) + 1` over `vs`. */
  method CountBy(vs: seq<Record>, key: string) returns (counts: map<Value, nat>)
    requires key in {CATEGORY, BRANCH}
    requires FleetWellFormed(vs)
    ensures counts == Tally(Column(vs, key))
    ensures SumOver(Distinct(Column(vs, key)), counts) == |vs|
    ensures forall x :: x in counts <==> exists i :: 0 <= i < |vs| && Get(vs[i], key) == x
  {
    counts := map[];
    ghost var seen: seq<Record> := [];
    var i := 0;
    while i < |vs|
      invariant 0 <= i <= |vs|
      invariant seen == vs[..i]
      invariant counts == Tally(Column(seen, key))
    {
      var x := vs[i][key];
      ColumnTallyStep(seen, vs[i], key);
      counts := Inc(counts, x);
      assert vs[..i + 1] == seen + [vs[i]];
      seen := seen + [vs[i]];
      i := i + 1;
    }
    assert seen == vs;
    TableSumsToTotal(vs, key);
    forall x ensures x in counts <==> exists i :: 0 <= i < |vs| && Get(vs[i], key) == x {
      InColumn(vs, key, x);
    }
  }

  datatype Summary = Summary(
    totalVehicles: nat,
    availableVehicles: nat,
    rentedVehicles: nat,
    utilizationRate: real,
    averageDayRate: real)

  datatype FleetReport = FleetReport(
    summary: Summary,
    byMake: map<Value, nat>,
    byCategory: map<Value, nat>,
    branchPerformance: map<Value, BranchStat>)

  /** `/analytics/fleet` as one value, or `None` when the average raises. */
  function FleetReportOf(fleet: seq<Record>, parse: string -> Option<real>): Option<FleetReport> {
    match AverageDayRate(fleet, parse)
    case None => None
    case Some(avg) =>
      var rented := CountStatus(fleet, RENTED);
      Some(FleetReport(
        Summary(|fleet|, CountStatus(fleet, AVAILABLE), rented, Percentage(rented, |fleet|), avg),
        Tally(Column(fleet, MAKE)), Tally(Column(fleet, CATEGORY)), BranchStats(fleet)))
  }

  /** One pass of the handler's loop over vehicle `v`, after the vehicles
      `seen`: a count each for its make and category, then its branch's
      total and its status count. */
  method Tabulate(ghost seen: seq<Record>, v: Record, makes: map<Value, nat>, categories: map<Value, nat>,
                  branchStats: map<Value, BranchStat>)
    returns (makes': map<Value, nat>, categories': map<Value, nat>, branchStats': map<Value, BranchStat>)
    requires WellFormed(v)
    requires makes == Tally(Column(seen, MAKE))
    requires categories == Tally(Column(seen, CATEGORY))
    requires branchStats == BranchStats(seen)
    ensures makes' == Tally(Column(seen + [v], MAKE))
    ensures categories' == Tally(Column(seen + [v], CATEGORY))
    ensures branchStats' == BranchStats(seen + [v])
  {
    var make, category, branch := v[MAKE], v[CATEGORY], v[BRANCH];
    ColumnTallyStep(seen, v, MAKE);
    ColumnTallyStep(seen, v, CATEGORY);
    BranchStatsStep(seen, v);
    makes' := Inc(makes, make);
    categories' := Inc(categories, category);
    var stat := if branch in branchStats then branchStats[branch] else BranchStat(0, 0, 0);
    stat := Account(stat, v);
    branchStats' := branchStats[branch := stat];
  }

  /** The branch statistics' share of one pass: the total always, and the
      available or rented count by the vehicle's status. */
  method Account(stat: BranchStat, v: Record) returns (stat': BranchStat)
    requires WellFormed(v)
    ensures stat' == Bump(stat, v)
  {
    StatusesDiffer();
    stat' := stat.(total := stat.total + 1);
    if v[STATUS] == AVAILABLE {
      stat' := stat'.(available := stat'.available + 1);
    } else if v[STATUS] == RENTED {
      stat' := stat'.(rented := stat'.rented + 1);
    }
  }

  /** The handler's one loop over the fleet: the make and category tables and
      the branch statistics. */
  method Composition(fleet: seq<Record>) returns (makes: map<Value, nat>, categories: map<Value, nat>, branchStats: map<Value, BranchStat>)
    requires FleetWellFormed(fleet)
    ensures makes == Tally(Column(fleet, MAKE))
    ensures categories == Tally(Column(fleet, CATEGORY))
    ensures branchStats == BranchStats(fleet)
  {
    makes, categories, branchStats := map[], map[], map[];
    ghost var seen: seq<Record> := [];
    var i := 0;
    while i < |fleet|
      invariant 0 <= i <= |fleet|
      invariant seen == fleet[..i]
      invariant makes == Tally(Column(seen, MAKE))
      invariant categories == Tally(Column(seen, CATEGORY))
      invariant branchStats == BranchStats(seen)
    {
      makes, categories, branchStats := Tabulate(seen, fleet[i], makes, categories, branchStats);
      assert fleet[..i + 1] == seen + [fleet[i]];
      seen := seen + [fleet[i]];
      i := i + 1;
    }
    assert seen == fleet;
  }

  /** `/analytics/fleet`: the status counts, the composition tables, the
      average day rate and the utilisation. */
  method FleetAnalytics(fleet: seq<Record>, parse: string -> Option<real>) returns (r: Response<FleetReport>)
    requires FleetWellFormed(fleet)
    ensures r.Ok? || r == ServerError
    ensures r.Ok? <==> FleetReportOf(fleet, parse).Some?
    ensures r.Ok? ==> r.body == FleetReportOf(fleet, parse).value
    ensures r.Ok? ==> r.body.summary.totalVehicles == |fleet|
    ensures r.Ok? ==> r.body.summary.availableVehicles + r.body.summary.rentedVehicles <= |fleet|
    ensures r.Ok? ==> 0.0 <= r.body.summary.utilizationRate <= 100.0
    ensures r.Ok? ==> SumOver(Distinct(Column(fleet, MAKE)), r.body.byMake) == |fleet|
    ensures r.Ok? ==> SumOver(Distinct(Column(fleet, CATEGORY)), r.body.byCategory) == |fleet|
    ensures r.Ok? ==> SumOver(Distinct(Column(fleet, BRANCH)), Totals(r.body.branchPerformance)) == |fleet|
  {
    var total := |fleet|;
    var available := CountStatus(fleet, AVAILABLE);
    var rented := CountStatus(fleet, RENTED);
    var makes, categories, branchStats := Composition(fleet);
    var avg := AverageDayRate(fleet, parse);
    if avg.None? {
      return ServerError;
    }
    AvailablePlusRentedAtMostTotal(fleet);
    TableSumsToTotal(fleet, MAKE);
    TableSumsToTotal(fleet, CATEGORY);
    BranchTotalsSumToTotal(fleet);
    var summary := Summary(total, available, rented, Percentage(rented, total), avg.value);
    return Ok(FleetReport(summary, makes, categories, branchStats));
  }

  datatype BranchReport = BranchReport(
    branchName: string,
    totalVehicles: nat,
    availableVehicles: nat,
    rentedVehicles: nat,
    utilizationRate: real,
    averageDayRate: real,
    categoryDistribution: map<Value, nat>)

  /** `/analytics/branch?name=`: a 400 for an absent or empty name, a 404 for a
      branch with no vehicles, otherwise the fleet formulas over that branch. */
  method BranchAnalytics(fleet: seq<Record>, name: Value, parse: string -> Option<real>) returns (r: Response<BranchReport>)
    requires FleetWellFormed(fleet)
    ensures !Truthy(name) ==> r == BadRequest("Branch name is required")
    ensures Truthy(name) && BranchVehicles(fleet, name) == [] ==> r == NotFound("Branch not found")
    ensures Truthy(name) && BranchVehicles(fleet, name) != [] ==>
              (r == ServerError <==> AverageDayRate(BranchVehicles(fleet, name), parse).None?)
    ensures (Truthy(name) && BranchVehicles(fleet, name) != [] &&
             AverageDayRate(BranchVehicles(fleet, name), parse).Some?) ==> r.Ok?
    ensures r.Ok? ==> Truthy(name) && r.body.branchName == name.text
    ensures r.Ok? ==> r.body.totalVehicles == |BranchVehicles(fleet, name)| >= 1
    ensures r.Ok? ==> r.body.availableVehicles == CountStatus(BranchVehicles(fleet, name), AVAILABLE)
    ensures r.Ok? ==> r.body.rentedVehicles == CountStatus(BranchVehicles(fleet, name), RENTED)
    ensures r.Ok? ==> r.body.availableVehicles + r.body.rentedVehicles <= r.body.totalVehicles
    ensures r.Ok? ==> r.body.utilizationRate == Percentage(r.body.rentedVehicles, r.body.totalVehicles)
    ensures r.Ok? ==> r.body.averageDayRate == AverageDayRate(BranchVehicles(fleet, name), parse).value
    ensures r.Ok? ==> r.body.categoryDistribution == Tally(Column(BranchVehicles(fleet, name), CATEGORY))
    ensures r.Ok? ==> SumOver(Distinct(Column(BranchVehicles(fleet, name), CATEGORY)), r.body.categoryDistribution)
                        == r.body.totalVehicles
  {
    if !Truthy(name) {
      return BadRequest("Branch name is required");
    }
    var branchVehicles := BranchVehicles(fleet, name);
    if branchVehicles == [] {
      return NotFound("Branch not found");
    }
    assert FleetWellFormed(branchVehicles) by {
      FilterMembers(fleet, InBranch(name));
      forall i | 0 <= i < |branchVehicles| ensures WellFormed(branchVehicles[i]) {
        assert branchVehicles[i] in branchVehicles;
      }
    }
    var total := |branchVehicles|;
    var available := CountStatus(branchVehicles, AVAILABLE);
    var rented := CountStatus(branchVehicles, RENTED);
    var categories := CountBy(branchVehicles, CATEGORY);
    var avg := AverageDayRate(branchVehicles, parse);
    if avg.None? {
      return ServerError;
    }
    AvailablePlusRentedAtMostTotal(branchVehicles);
    return Ok(BranchReport(name.text, total, available, rented, Percentage(rented, total), avg.value, categories));
  }

  datatype RentalReport = RentalReport(
    currentRentals: nat,
    rentalRate: real,
    rentalsByCategory: map<Value, nat>,
    rentalsByBranch: map<Value, nat>)

  /** `/analytics/rentals`: the rented vehicles and their tables by category and by branch. */
  method RentalAnalytics(fleet: seq<Record>) returns (report: RentalReport)
    requires FleetWellFormed(fleet)
    ensures report.currentRentals == CountStatus(fleet, RENTED) <= |fleet|
    ensures report.rentalRate == Percentage(report.currentRentals, |fleet|)
    ensures 0.0 <= report.rentalRate <= 100.0
    ensures report.rentalsByCategory == Tally(Column(Filter(fleet, IsRented), CATEGORY))
    ensures report.rentalsByBranch == Tally(Column(Filter(fleet, IsRented), BRANCH))
    ensures SumOver(Distinct(Column(Filter(fleet, IsRented), CATEGORY)), report.rentalsByCategory) == report.currentRentals
    ensures SumOver(Distinct(Column(Filter(fleet, IsRented), BRANCH)), report.rentalsByBranch) == report.currentRentals
  {
    var rentedVehicles := Filter(fleet, IsRented);
    assert FleetWellFormed(rentedVehicles) by {
      FilterMembers(fleet, IsRented);
      forall i | 0 <= i < |rentedVehicles| ensures WellFormed(rentedVehicles[i]) {
        assert rentedVehicles[i] in rentedVehicles;
      }
    }
    var currentRentals := |rentedVehicles|;
    FilterCountsColumn(fleet, STATUS, RENTED, IsRented);
    AvailablePlusRentedAtMostTotal(fleet);
    var byCategory := CountBy(rentedVehicles, CATEGORY);
    var byBranch := CountBy(rentedVehicles, BRANCH);
    report := RentalReport(currentRentals, Percentage(currentRentals, |fleet|), byCategory, byBranch);
  }

  /** A vehicle of the worked example: a Ford of the standard category at the
      Leeds branch, with the given registration, day rate and status. */
  function ExampleVehicle(vrm: string, rate: string, status: Value): (v: Record)
    ensures WellFormed(v)
    ensures DAY_RATE in v && v[DAY_RATE] == Str(rate) && Get(v, STATUS) == status
  {
    map[VRM := Str(vrm), MAKE := Str("Ford"), CATEGORY := Str("Standard"), BRANCH := Str("Leeds"),
        DAY_RATE := Str(rate), STATUS := status]
  }

  /** The worked example: two well-formed vehicles with rates "50" and "100", one rented,
      give utilisation 50 and an average day rate of 75. */
  lemma TwoVehicleExample(parse: string -> Option<real>)
    requires parse("50") == Some(50.0) && parse("100") == Some(100.0)
    ensures var fleet := [ExampleVehicle("A", "50", AVAILABLE), ExampleVehicle("B", "100", RENTED)];
            var report := FleetReportOf(fleet, parse);
            FleetWellFormed(fleet) && report.Some? &&
            report.value.summary == Summary(2, 1, 1, 50.0, 75.0)
  {
    var fleet := [ExampleVehicle("A", "50", AVAILABLE), ExampleVehicle("B", "100", RENTED)];
    assert fleet[1..] == [fleet[1]] && fleet[1..][1..] == [];
    assert SumDayRates(fleet[1..], parse) == Sum(100.0);
    assert SumDayRates(fleet, parse) == Sum(150.0);
    var status := Column(fleet, STATUS);
    assert status == [AVAILABLE, RENTED];
    assert status[..1] == [AVAILABLE] && status[..1][..0] == [];
    assert AVAILABLE.text[0] != RENTED.text[0];
    assert Occurrences(status[..1], AVAILABLE) == 1 && Occurrences(status[..1], RENTED) == 0;
    assert Occurrences(status, AVAILABLE) == 1 && Occurrences(status, RENTED) == 1;
  }

  /** A fleet in which every vehicle is rented is fully utilised. */
  lemma AllRentedIsFullUtilisation(fleet: seq<Record>)
    requires |fleet| > 0 && forall i :: 0 <= i < |fleet| ==> Get(fleet[i], STATUS) == RENTED
    ensures Percentage(CountStatus(fleet, RENTED), |fleet|) == 100.0
  {
    FilterAll(fleet, IsRented);
    FilterCountsColumn(fleet, STATUS, RENTED, IsRented);
  }
}

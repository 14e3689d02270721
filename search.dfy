/** `/cars/search`: the vehicles that meet every criterion supplied, an AND of
    a case-insensitive text query over six fields, exact branch, status and
    category, and a numeric ceiling on the day rate. */
module Search {
  import opened Records
  import opened Seqs

  /** The fields the text query looks in, in the order the handler tries them. */
  const SEARCH_FIELDS: seq<string> := ["make", "model", "colour", "vrm", "category", "branch"]

  /** The lower-cased query, `request.args.get("query", "").lower()`. */
  function QueryText(args: Args): string {
    Lower(if "query" in args then args["query"] else "")
  }

  /** The search parameters as the handler reads them. */
  datatype Criteria = Criteria(query: string, branch: Value, status: Value, category: Value, maxPrice: Value)

  function CriteriaOf(args: Args): Criteria {
    Criteria(QueryText(args), Arg(args, "branch"), Arg(args, "status"), Arg(args, "category"), Arg(args, "max_price"))
  }

  /** Some criterion is supplied: a non-empty query or a non-empty parameter. */
  predicate AnyCriteria(c: Criteria) {
    c.query != "" || Truthy(c.branch) || Truthy(c.status) || Truthy(c.category) || Truthy(c.maxPrice)
  }

  /** `str(vehicle.get(field, "")).lower()`. */
  function FieldText(v: Record, field: string): string {
    if field in v then Lower(Text(v[field])) else ""
  }

  predicate TextMatches(v: Record, q: string) {
    exists j :: 0 <= j < |SEARCH_FIELDS| && IsSubstring(q, FieldText(v, SEARCH_FIELDS[j]))
  }

  /** What `float(vehicle.get("dayRate", 0))` does: an absent rate reads as 0,
      a `None` rate raises TypeError (not caught), and a text that does not
      parse raises ValueError (caught). */
  datatype RateReading = Rate(value: real) | NotANumber | TypeFault

  function ReadDayRate(v: Record, parse: string -> Option<real>): RateReading {
    if DAY_RATE !in v then Rate(0.0)
    else match v[DAY_RATE]
      case Null => TypeFault
      case Str(s) => match parse(s) case None => NotANumber case Some(x) => Rate(x)
  }

  /** The four criteria the handler checks before the price. */
  predicate MatchesBeforePrice(v: Record, c: Criteria) {
    (c.query != "" ==> TextMatches(v, c.query)) &&
    (Truthy(c.branch) ==> Get(v, BRANCH) == c.branch) &&
    (Truthy(c.status) ==> Get(v, STATUS) == c.status) &&
    (Truthy(c.category) ==> Get(v, CATEGORY) == c.category)
  }

  /** The price criterion: the rate and the ceiling both parse, and the rate is
      at most the ceiling. */
  predicate WithinPrice(v: Record, c: Criteria, parse: string -> Option<real>) {
    Truthy(c.maxPrice) ==>
      ReadDayRate(v, parse).Rate? && parse(c.maxPrice.text).Some? &&
      ReadDayRate(v, parse).value <= parse(c.maxPrice.text).value
  }

  /** A vehicle is a result when some criterion is supplied and it meets every
      supplied criterion. */
  predicate Selected(v: Record, c: Criteria, parse: string -> Option<real>) {
    AnyCriteria(c) && MatchesBeforePrice(v, c) && WithinPrice(v, c, parse)
  }

  function Selector(c: Criteria, parse: string -> Option<real>): Record -> bool {
    v => Selected(v, c, parse)
  }

  /** The handler reaches `float(None)` on a vehicle that passes the other
      criteria, has a `None` day rate, and a price ceiling is supplied. */
  predicate Raises(v: Record, c: Criteria, parse: string -> Option<real>) {
    AnyCriteria(c) && Truthy(c.maxPrice) && MatchesBeforePrice(v, c) && ReadDayRate(v, parse) == TypeFault
  }

  /** The `filters_used` echo: the lower-cased query or `None`, the other
      parameters as given. */
  datatype FiltersUsed = FiltersUsed(query: Value, branch: Value, status: Value, category: Value, maxPrice: Value)

  function Echo(c: Criteria): FiltersUsed {
    FiltersUsed(if c.query != "" then Str(c.query) else Null, c.branch, c.status, c.category, c.maxPrice)
  }

  datatype SearchResult = SearchResult(results: seq<Record>, count: nat, filtersUsed: FiltersUsed)

  /** What the loop body does with one vehicle: keep it, pass over it, or raise. */
  datatype Verdict = Keep | Pass | Raise

  /** The body of the handler's loop for one vehicle. */
  method Judge(v: Record, c: Criteria, parse: string -> Option<real>) returns (verdict: Verdict)
    ensures verdict == Keep <==> Selected(v, c, parse)
    ensures verdict == Raise <==> Raises(v, c, parse)
  {
    var query, branch, status, category, maxPrice := c.query, c.branch, c.status, c.category, c.maxPrice;
    if !(query != "" || Truthy(branch) || Truthy(status) || Truthy(category) || Truthy(maxPrice)) {
      return Pass;
    }
    var matches := true;
    if query != "" {
      var textMatch := false;
      var k := 0;
      while k < |SEARCH_FIELDS|
        invariant 0 <= k <= |SEARCH_FIELDS|
        invariant !textMatch
        invariant forall j :: 0 <= j < k ==> !IsSubstring(query, FieldText(v, SEARCH_FIELDS[j]))
      {
        if IsSubstring(query, FieldText(v, SEARCH_FIELDS[k])) {
          textMatch := true;
          break;
        }
        k := k + 1;
      }
      assert textMatch <==> TextMatches(v, query);
      matches := matches && textMatch;
    }
    if Truthy(branch) {
      matches := matches && Get(v, BRANCH) == branch;
    }
    if Truthy(status) {
      matches := matches && Get(v, STATUS) == status;
    }
    if Truthy(category) {
      matches := matches && Get(v, CATEGORY) == category;
    }
    assert matches <==> MatchesBeforePrice(v, c);
    if Truthy(maxPrice) && matches {
      match ReadDayRate(v, parse)
      case TypeFault =>
        return Raise;
      case NotANumber =>
        return Pass;
      case Rate(rate) =>
        match parse(maxPrice.text)
        case None =>
          return Pass;
        case Some(ceiling) =>
          matches := rate <= ceiling;
    }
    verdict := if matches then Keep else Pass;
  }

  /** `/cars/search`. */
  method Search(fleet: seq<Record>, args: Args, parse: string -> Option<real>) returns (r: Response<SearchResult>)
    ensures r.Ok? || r == ServerError
    ensures r == ServerError <==> exists i :: 0 <= i < |fleet| && Raises(fleet[i], CriteriaOf(args), parse)
    ensures r.Ok? ==> r.body == SearchResult(Filter(fleet, Selector(CriteriaOf(args), parse)), |r.body.results|, Echo(CriteriaOf(args)))
    ensures !AnyCriteria(CriteriaOf(args)) ==> r == Ok(SearchResult([], 0, Echo(CriteriaOf(args))))
  {
    var c := CriteriaOf(args);
    ghost var sel := Selector(c, parse);
    var results: seq<Record> := [];
    ghost var seen: seq<Record> := [];
    var i := 0;
    while i < |fleet|
      invariant 0 <= i <= |fleet|
      invariant seen == fleet[..i]
      invariant results == Filter(seen, sel)
      invariant forall j :: 0 <= j < i ==> !Raises(fleet[j], c, parse)
    {
      FilterAppend(seen, fleet[i], sel);
      var verdict := Judge(fleet[i], c, parse);
      if verdict == Raise {
        return ServerError;
      }
      if verdict == Keep {
        results := results + [fleet[i]];
      }
      assert fleet[..i + 1] == seen + [fleet[i]];
      seen := seen + [fleet[i]];
      i := i + 1;
    }
    assert seen == fleet;
    if !AnyCriteria(c) {
      NothingSelected(fleet, c, parse);
    }
    return Ok(SearchResult(results, |results|, Echo(c)));
  }

  /** Without criteria, or with a ceiling that does not parse, nothing is selected. */
  lemma NothingSelected(fleet: seq<Record>, c: Criteria, parse: string -> Option<real>)
    requires !AnyCriteria(c) || (Truthy(c.maxPrice) && parse(c.maxPrice.text).None?)
    ensures Filter(fleet, Selector(c, parse)) == []
  {
    FilterNone(fleet, Selector(c, parse));
  }

  /** Under a price ceiling, a vehicle whose day rate does not parse is never a result. */
  lemma UnparsableRateExcluded(fleet: seq<Record>, c: Criteria, parse: string -> Option<real>, v: Record)
    requires Truthy(c.maxPrice) && ReadDayRate(v, parse) == NotANumber
    ensures v !in Filter(fleet, Selector(c, parse))
  {
    FilterMembers(fleet, Selector(c, parse));
  }

  /** The results are exactly the fleet's vehicles that meet every supplied
      criterion, every copy of each, in fleet order. */
  lemma SearchSelectsExactly(fleet: seq<Record>, c: Criteria, parse: string -> Option<real>)
    ensures forall v :: v in Filter(fleet, Selector(c, parse)) <==> v in fleet && Selected(v, c, parse)
    ensures IsSubseq(Filter(fleet, Selector(c, parse)), fleet)
    ensures forall v :: Occurrences(Filter(fleet, Selector(c, parse)), v) ==
                          if Selected(v, c, parse) then Occurrences(fleet, v) else 0
  {
    FilterMembers(fleet, Selector(c, parse));
    FilterIsSubseq(fleet, Selector(c, parse));
    forall v ensures Occurrences(Filter(fleet, Selector(c, parse)), v) ==
                       if Selected(v, c, parse) then Occurrences(fleet, v) else 0 {
      FilterOccurrences(fleet, Selector(c, parse), v);
    }
  }
}

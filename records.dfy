/** Vehicle records as the request handlers see them: a vehicle is a dictionary
    from field name to a value, and the fleet is an ordered list of them. */
module Records {

  datatype Option<T> = None | Some(value: T)

  /** A field value: Python's `None` (an absent query parameter, a JSON null)
      or a string. */
  datatype Value = Null | Str(text: string)

  /** One vehicle: field name to value. */
  type Record = map<string, Value>

  /** The query string of a request, `request.args`. */
  type Args = map<string, string>

  /** What a handler answers: its JSON body, a 400, a 404, or an exception the
      handler does not catch (which the web framework turns into a 500). */
  datatype Response<T> =
    | Ok(body: T)
    | BadRequest(error: string)
    | NotFound(error: string)
    | ServerError

  const VRM := "vrm"
  const MAKE := "make"
  const CATEGORY := "category"
  const BRANCH := "branch"
  const STATUS := "status"
  const DAY_RATE := "dayRate"

  const AVAILABLE := Str("AVAILABLE")
  const RENTED := Str("RENTED")

  /** The two statuses are different values. */
  lemma StatusesDiffer()
    ensures AVAILABLE != RENTED
  {
    assert AVAILABLE.text[0] != RENTED.text[0];
  }

  /** `v.get(k)`: the value under `k`, or `None` when `k` is absent. On the keys
      that WellFormed guarantees it is also `v[k]`. */
  function Get(v: Record, k: string): Value {
    if k in v then v[k] else Null
  }

  /** `request.args.get(k)`. */
  function Arg(args: Args, k: string): Value {
    if k in args then Str(args[k]) else Null
  }

  /** Python truthiness of a value: only a non-empty string is true. */
  predicate Truthy(x: Value) {
    x.Str? && x.text != ""
  }

  /** `str(x)`. */
  function Text(x: Value): string {
    match x
    case Null => "None"
    case Str(s) => s
  }

  /** `str.lower()` on the ASCII letters. */
  function LowerChar(c: char): char {
    if 'A' <= c <= 'Z' then (c as int - 'A' as int + 'a' as int) as char else c
  }

  function Lower(s: string): string {
    seq(|s|, i requires 0 <= i < |s| => LowerChar(s[i]))
  }

  /** Python's `q in s` on strings. */
  predicate IsSubstring(q: string, s: string) {
    exists i :: 0 <= i <= |s| && q <= s[i..]
  }

  /** The keys that every way of creating a vehicle supplies and that the
      handlers index with `v[k]` rather than `v.get(k)`, so the fleet never
      lacks them. `dayRate` is indexed too but may be missing, since bulk add
      does not require it; the resulting KeyError is modelled. */
  predicate WellFormed(v: Record) {
    VRM in v && MAKE in v && CATEGORY in v && BRANCH in v && STATUS in v
  }

  predicate FleetWellFormed(fleet: seq<Record>) {
    forall i :: 0 <= i < |fleet| ==> WellFormed(fleet[i])
  }

  /** The values of one field down the fleet, in fleet order. */
  function Column(fleet: seq<Record>, k: string): seq<Value> {
    seq(|fleet|, i requires 0 <= i < |fleet| => Get(fleet[i], k))
  }

  lemma ColumnAppend(fleet: seq<Record>, v: Record, k: string)
    ensures Column(fleet + [v], k) == Column(fleet, k) + [Get(v, k)]
  {
    assert Column(fleet + [v], k)[|fleet|] == Get(v, k);
  }

  lemma InColumn(fleet: seq<Record>, k: string, x: Value)
    ensures x in Column(fleet, k) <==> exists i :: 0 <= i < |fleet| && Get(fleet[i], k) == x
  {
    if x in Column(fleet, k) {
      var i :| 0 <= i < |fleet| && Column(fleet, k)[i] == x;
    }
    if exists i :: 0 <= i < |fleet| && Get(fleet[i], k) == x {
      var i :| 0 <= i < |fleet| && Get(fleet[i], k) == x;
      assert Column(fleet, k)[i] == x;
    }
  }
}

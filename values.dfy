/**
 * The Python values that flow through the filter algebra: the JSON-native ones
 * (None, bool, int, float/Decimal, str, list, dict with string keys) and the
 * two non-native types the codec knows about (date and datetime), plus any other
 * object, which is opaque.
 */
module Values {

  import opened Wrappers

  /** A proleptic Gregorian calendar date as Python's `datetime.date` holds it. */
  datatype Date = Date(year: int, month: int, day: int)

  predicate IsLeapYear(year: int) {
    year % 4 == 0 && (year % 100 != 0 || year % 400 == 0)
  }

  function DaysInMonth(year: int, month: int): int {
    if month == 2 then (if IsLeapYear(year) then 29 else 28)
    else if month == 4 || month == 6 || month == 9 || month == 11 then 30
    else 31
  }

  /** The dates `datetime.date` can construct: year 1..9999 (MINYEAR..MAXYEAR) and a real day of the month. */
  predicate ValidDate(d: Date) {
    1 <= d.year <= 9999 && 1 <= d.month <= 12 && 1 <= d.day <= DaysInMonth(d.year, d.month)
  }

  type CalendarDate = d: Date | ValidDate(d) witness Date(1, 1, 1)

  datatype Value =
    | Null
    | Bool(b: bool)
    | Int(i: int)
    | Float(r: real)                    // a float or a Decimal, read exactly
    | Str(s: string)
    | List(items: seq<Value>)
    | Dict(entries: map<string, Value>)
    | PyDate(date: CalendarDate)
    | PyDateTime(stamp: string)         // a datetime, known only by its isoformat() text
    | Opaque(id: nat)                   // any other object, known only by its identity

  /** The number a value stands for under Python's numeric tower, where `bool` is a subclass of `int`. */
  function NumberOf(v: Value): Option<real> {
    match v
    case Bool(b) => Some(if b then 1.0 else 0.0)
    case Int(i) => Some(i as real)
    case Float(r) => Some(r)
    case _ => None
  }

  /**
   * Python's `==` on these values: numbers compare by value across bool, int and
   * float (so `1 == 1.0 == True`), lists element-wise, dicts by key set and values.
   */
  predicate PyEq(a: Value, b: Value)
    decreases a
  {
    match (a, b)
    case (Null, Null) => true
    case (Str(s), Str(t)) => s == t
    case (List(xs), List(ys)) =>
      |xs| == |ys| && forall i :: 0 <= i < |xs| ==> PyEq(xs[i], ys[i])
    case (Dict(m), Dict(n)) =>
      m.Keys == n.Keys && forall k :: k in m ==> PyEq(m[k], n[k])
    case (PyDate(d), PyDate(e)) => d == e
    case (PyDateTime(s), PyDateTime(t)) => s == t
    case (Opaque(x), Opaque(y)) => x == y
    case _ => NumberOf(a).Some? && NumberOf(a) == NumberOf(b)
  }

  /** `==` between two dicts. */
  predicate DictEq(m: map<string, Value>, n: map<string, Value>) {
    PyEq(Dict(m), Dict(n))
  }

  lemma {:induction false} PyEqReflexive(v: Value)
    ensures PyEq(v, v)
    decreases v
  {
    match v
    case List(xs) =>
      forall i | 0 <= i < |xs| ensures PyEq(xs[i], xs[i]) { PyEqReflexive(xs[i]); }
    case Dict(m) =>
      forall k | k in m ensures PyEq(m[k], m[k]) { PyEqReflexive(m[k]); }
    case _ =>
  }

  /** Python truthiness (`if value:`). */
  predicate Truthy(v: Value) {
    match v
    case Null => false
    case Bool(b) => b
    case Int(i) => i != 0
    case Float(r) => r != 0.0
    case Str(s) => s != ""
    case List(xs) => xs != []
    case Dict(m) => m != map[]
    case _ => true
  }

  /** Lists and dicts cannot be hashed, so they cannot be dict keys or set members. */
  predicate Hashable(v: Value) {
    !v.List? && !v.Dict?
  }
}

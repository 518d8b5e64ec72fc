/** Per-lookup value checks run when a leaf is built, and the VALIDATORS table. */
module Validators {

  import opened Wrappers
  import opened Values
  import opened LookupTypes

  /** InvalidValueException, carrying its message. */
  datatype InvalidValue = InvalidValue(message: string)

  const IntegerMessage := "Value needs to be an integer"
  const DayMessage := "Day needs to be 1 <= day <= 31"
  const MonthMessage := "Month needs to be 1 <= month <= 12"
  const WeekMessage := "Week needs to be 1 <= week <= 54"
  const HourMessage := "Hour needs to be 0 <= hour <= 23"
  const MinuteMessage := "Minute needs to be 0 <= minute <= 59"
  const SecondMessage := "Second needs to be 0 <= second <= 60"
  const IsNullMessage := "Only True or False allowed for ISNULL lookup type."

  /** The integer a value is when `isinstance(value, int)` holds; `True` and `False` are the ints 1 and 0. */
  function AsInteger(v: Value): (r: Option<int>)
    ensures r.Some? <==> v.Int? || v.Bool?
    ensures v.Int? ==> r == Some(v.i)
    ensures v.Bool? ==> r == Some(if v.b then 1 else 0)
  {
    match v
    case Int(i) => Some(i)
    case Bool(b) => Some(if b then 1 else 0)
    case _ => None
  }

  /** integer_validator: accepts exactly the ints, bools included. */
  function IntegerValidator(v: Value): (r: Outcome<InvalidValue>)
    ensures r.Pass? <==> v.Int? || v.Bool?
    ensures r.Fail? ==> r.error == InvalidValue(IntegerMessage)
  {
    if AsInteger(v).None? then Fail(InvalidValue(IntegerMessage)) else Pass
  }

  /** The shared shape of the six range validators: the integer check first, then `lo <= value <= hi`. */
  function RangeValidator(v: Value, lo: int, hi: int, message: string): Outcome<InvalidValue> {
    match IntegerValidator(v)
    case Fail(e) => Fail(e)
    case Pass =>
      var n := AsInteger(v).value;
      if lo <= n <= hi then Pass else Fail(InvalidValue(message))
  }

  /** The message a range validator fails with: the integer message for a non-integer, its own otherwise. */
  function RangeFailure(v: Value, message: string): InvalidValue {
    InvalidValue(if v.Int? || v.Bool? then message else IntegerMessage)
  }

  function DayValidator(v: Value): (r: Outcome<InvalidValue>)
    ensures r.Pass? <==> (v.Int? && 1 <= v.i <= 31) || v == Bool(true)
    ensures r.Fail? ==> r.error == RangeFailure(v, DayMessage)
  {
    RangeValidator(v, 1, 31, DayMessage)
  }

  function MonthValidator(v: Value): (r: Outcome<InvalidValue>)
    ensures r.Pass? <==> (v.Int? && 1 <= v.i <= 12) || v == Bool(true)
    ensures r.Fail? ==> r.error == RangeFailure(v, MonthMessage)
  {
    RangeValidator(v, 1, 12, MonthMessage)
  }

  function WeekValidator(v: Value): (r: Outcome<InvalidValue>)
    ensures r.Pass? <==> (v.Int? && 1 <= v.i <= 54) || v == Bool(true)
    ensures r.Fail? ==> r.error == RangeFailure(v, WeekMessage)
  {
    RangeValidator(v, 1, 54, WeekMessage)
  }

  function HourValidator(v: Value): (r: Outcome<InvalidValue>)
    ensures r.Pass? <==> (v.Int? && 0 <= v.i <= 23) || v.Bool?
    ensures r.Fail? ==> r.error == RangeFailure(v, HourMessage)
  {
    RangeValidator(v, 0, 23, HourMessage)
  }

  function MinuteValidator(v: Value): (r: Outcome<InvalidValue>)
    ensures r.Pass? <==> (v.Int? && 0 <= v.i <= 59) || v.Bool?
    ensures r.Fail? ==> r.error == RangeFailure(v, MinuteMessage)
  {
    RangeValidator(v, 0, 59, MinuteMessage)
  }

  /** Accepts 60 so that a leap second can be filtered on. */
  function SecondValidator(v: Value): (r: Outcome<InvalidValue>)
    ensures r.Pass? <==> (v.Int? && 0 <= v.i <= 60) || v.Bool?
    ensures r.Fail? ==> r.error == RangeFailure(v, SecondMessage)
  {
    RangeValidator(v, 0, 60, SecondMessage)
  }

  /** isnull_validator: only the two booleans; the string 'null' and the ints 0 and 1 are refused. */
  function IsNullValidator(v: Value): (r: Outcome<InvalidValue>)
    ensures r.Pass? <==> v.Bool?
    ensures r.Fail? ==> r.error == InvalidValue(IsNullMessage)
  {
    if v.Bool? then Pass else Fail(InvalidValue(IsNullMessage))
  }

  /** The functions VALIDATORS maps to. */
  datatype Validator = DayCheck | MonthCheck | WeekCheck | HourCheck | MinuteCheck | SecondCheck | IsNullCheck

  function Run(check: Validator, v: Value): Outcome<InvalidValue> {
    match check
    case DayCheck => DayValidator(v)
    case MonthCheck => MonthValidator(v)
    case WeekCheck => WeekValidator(v)
    case HourCheck => HourValidator(v)
    case MinuteCheck => MinuteValidator(v)
    case SecondCheck => SecondValidator(v)
    case IsNullCheck => IsNullValidator(v)
  }

  /** VALIDATORS.get(lookup): seven of the registered lookups have a validator; year and all the others have none. */
  function ValidatorFor(lookup: string): (r: Option<Validator>)
    ensures r.Some? <==> lookup in {Month, Week, Day, Hour, Minute, Second, IsNull}
    ensures r.Some? ==> IsSupported(lookup)
    ensures r == Some(MonthCheck) <==> lookup == Month
    ensures r == Some(WeekCheck) <==> lookup == Week
    ensures r == Some(DayCheck) <==> lookup == Day
    ensures r == Some(HourCheck) <==> lookup == Hour
    ensures r == Some(MinuteCheck) <==> lookup == Minute
    ensures r == Some(SecondCheck) <==> lookup == Second
    ensures r == Some(IsNullCheck) <==> lookup == IsNull
  {
    if lookup == Month then Some(MonthCheck)
    else if lookup == Week then Some(WeekCheck)
    else if lookup == Day then Some(DayCheck)
    else if lookup == Hour then Some(HourCheck)
    else if lookup == Minute then Some(MinuteCheck)
    else if lookup == Second then Some(SecondCheck)
    else if lookup == IsNull then Some(IsNullCheck)
    else None
  }
}

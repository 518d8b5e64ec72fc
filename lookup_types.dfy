/** The closed catalogue of lookup (operator) names a leaf may use. */
module LookupTypes {

  // Date/time types.
  const Year := "year"
  const Month := "month"
  const Week := "week"
  const Day := "day"
  const Hour := "hour"
  const Minute := "minute"
  const Second := "second"

  // Text types.
  const Contains := "contains"
  const StartsWith := "startswith"
  const EndsWith := "endswith"
  const IContains := "icontains"
  const IStartsWith := "istartswith"
  const IEndsWith := "iendswith"
  const IExact := "iexact"

  // Boundary types.
  const In := "in"
  const Gt := "gt"
  const Lt := "lt"
  const Gte := "gte"
  const Lte := "lte"

  // Miscellaneous types.
  const IsNull := "isnull"
  const Exact := "exact"

  /** LOOKUP_TYPES, in declaration order. */
  const Registry: seq<string> := [
    Year, Month, Week, Day, Hour, Minute, Second,
    Contains, StartsWith, EndsWith, IContains, IStartsWith, IEndsWith, IExact,
    In, Gt, Lt, Gte, Lte,
    IsNull, Exact
  ]

  /** `lookup in LOOKUP_TYPES`. */
  predicate IsSupported(lookup: string) {
    lookup in Registry
  }

  /** The 21 declared names are pairwise distinct, so each occurs in the registry exactly once. */
  lemma RegistryHasEachNameOnce()
    ensures |Registry| == 21
    ensures forall i, j :: 0 <= i < j < |Registry| ==> Registry[i] != Registry[j]
  {
  }

  /** The default lookup, the seven date parts and the null check are all registered. */
  lemma RegistryMembers()
    ensures IsSupported(Exact) && IsSupported(IsNull)
    ensures IsSupported(Year) && IsSupported(Month) && IsSupported(Week) && IsSupported(Day)
    ensures IsSupported(Hour) && IsSupported(Minute) && IsSupported(Second)
  {
  }

  /** A name outside the constants is not registered. */
  lemma UnknownNameIsUnsupported()
    ensures !IsSupported("spindle") && !IsSupported("bogus")
  {
  }
}

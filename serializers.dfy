// DjangoSerializer of filterql/serializers.py: a lookup tree becomes a tree of
// Django Q objects. Q itself is not part of this model; QNode stands for a Q
// object's children, connector and negation, and the suffix delimiter (Django's
// LOOKUP_SEP, "__") is a parameter.

module DjangoSerializer {
  import opened Wrappers
  import opened Values
  import opened Keys
  import opened LookupTypes
  import Validators
  import opened Lookup

  /** What a Q object holds: `(lookup, value)` conditions and nested Q objects. */
  datatype QNode = QNode(children: seq<QChild>, connector: string, negated: bool)

  datatype QChild =
    | Condition(lookup: string, value: Value)
    | Nested(node: QNode)

  /** The Django delimiter used in this package's tests. */
  const LookupSep: string := "__"

  /** CONNECTOR_MAP: the connector keys under Django's names. */
  function ConnectorName(c: Connector): (name: string)
    ensures name == (if c == And then "AND" else "OR")
    ensures ConnectorKey(c) == AndKey ==> name == "AND"
  {
    match c
    case And => "AND"
    case Or => "OR"
  }

  datatype ConvertError =
    | MissingKey(key: string)   // KeyError on the filter dict
    | NotText(offending: Value) // a field or lookup that is not a string

  /**
   * _convert_filter: the field alone for an exact lookup, the field, the delimiter
   * and the lookup otherwise; the value as it is. Keys are read in the order
   * field, value, lookup.
   */
  function ConvertFilter(d: map<string, Value>, delimiter: string): (r: Result<(string, Value), ConvertError>)
    ensures FieldKey !in d ==> r == Failure(MissingKey(FieldKey))
    ensures FieldKey in d && ValueKey !in d ==> r == Failure(MissingKey(ValueKey))
    ensures FieldKey in d && ValueKey in d && LookupKey !in d ==> r == Failure(MissingKey(LookupKey))
    ensures r.Success? ==> FieldKey in d && ValueKey in d && LookupKey in d && d[FieldKey].Str? && d[LookupKey].Str?
    ensures r.Success? ==> r.value.1 == d[ValueKey]
    ensures r.Success? && d[LookupKey].s == Exact ==> r.value.0 == d[FieldKey].s
    ensures r.Success? && d[LookupKey].s != Exact ==> r.value.0 == d[FieldKey].s + delimiter + d[LookupKey].s
    ensures FieldKey in d && ValueKey in d && LookupKey in d && d[FieldKey].Str? && d[LookupKey].Str? ==> r.Success?
  {
    if FieldKey !in d then Failure(MissingKey(FieldKey))
    else if ValueKey !in d then Failure(MissingKey(ValueKey))
    else if LookupKey !in d then Failure(MissingKey(LookupKey))
    else
      var field := d[FieldKey];
      var lookup := d[LookupKey];
      if !lookup.Str? then Failure(NotText(lookup))
      else if !field.Str? then Failure(NotText(field))
      else
        var suffix := if lookup.s == Exact then "" else delimiter + lookup.s;
        Success((field.s + suffix, d[ValueKey]))
  }

  // ---------------------------------------------------------------------------
  // Reading a Django lookup back

  predicate OccursAt(s: string, d: string, i: nat) {
    i + |d| <= |s| && s[i..i + |d|] == d
  }

  /** The first position at or after `i` where `d` occurs in `s`. */
  function FindFrom(s: string, d: string, i: nat): (r: Option<nat>)
    requires |d| > 0
    decreases |s| - i
    ensures r.Some? ==> i <= r.value && OccursAt(s, d, r.value)
    ensures r.Some? ==> forall j | i <= j < r.value :: !OccursAt(s, d, j)
    ensures r.None? ==> forall j | i <= j :: !OccursAt(s, d, j)
  {
    if i + |d| > |s| then None
    else if OccursAt(s, d, i) then Some(i)
    else FindFrom(s, d, i + 1)
  }

  /** How Django splits a lookup: the field up to the first delimiter, the rest as the lookup, `exact` if none. */
  function SplitLookup(key: string, delimiter: string): (r: (string, string))
    requires |delimiter| > 0
  {
    match FindFrom(key, delimiter, 0)
    case None => (key, Exact)
    case Some(p) => (key[..p], key[p + |delimiter|..])
  }

  /** The delimiter first occurs in `field + delimiter` right after the field. */
  predicate FieldFreeOf(field: string, delimiter: string) {
    forall i | 0 <= i < |field| :: !OccursAt(field + delimiter, delimiter, i)
  }

  lemma {:induction false} FindAfterField(field: string, delimiter: string, rest: string, i: nat)
    requires |delimiter| > 0 && FieldFreeOf(field, delimiter) && i <= |field|
    ensures FindFrom(field + delimiter + rest, delimiter, i) == Some(|field|)
    decreases |field| - i
  {
    var key := field + delimiter + rest;
    if i < |field| {
      assert !OccursAt(field + delimiter, delimiter, i);
      assert key[i..i + |delimiter|] == (field + delimiter)[i..i + |delimiter|];
      FindAfterField(field, delimiter, rest, i + 1);
    } else {
      assert key[i..i + |delimiter|] == delimiter;
      assert OccursAt(key, delimiter, i);
    }
  }

  /**
   * Django reads the lookup this serializer writes back into the same field and
   * lookup, whenever the field does not run into the delimiter.
   */
  lemma {:induction false} SplitInvertsConvert(field: string, value: Value, lookup: string, delimiter: string)
    requires |delimiter| > 0 && FieldFreeOf(field, delimiter)
    ensures ConvertFilter(LeafFilter(field, value, lookup), delimiter).Success?
    ensures SplitLookup(ConvertFilter(LeafFilter(field, value, lookup), delimiter).value.0, delimiter) == (field, lookup)
  {
    var key := ConvertFilter(LeafFilter(field, value, lookup), delimiter).value.0;
    if lookup == Exact {
      assert key == field;
      FindAfterField(field, delimiter, "", 0);
      assert field + delimiter + "" == field + delimiter;
      NoMatchInField(field, delimiter, 0);
    } else {
      FindAfterField(field, delimiter, lookup, 0);
      assert key == field + delimiter + lookup;
      assert key[..|field|] == field;
      assert key[|field| + |delimiter|..] == lookup;
    }
  }

  lemma {:induction false} NoMatchInField(field: string, delimiter: string, i: nat)
    requires |delimiter| > 0 && FieldFreeOf(field, delimiter) && i <= |field|
    ensures FindFrom(field, delimiter, i) == None
    decreases |field| - i
  {
    if i + |delimiter| <= |field| {
      assert !OccursAt(field + delimiter, delimiter, i);
      assert field[i..i + |delimiter|] == (field + delimiter)[i..i + |delimiter|];
      NoMatchInField(field, delimiter, i + 1);
    }
  }

  // ---------------------------------------------------------------------------
  // deserialize

  /** One child of a Q object corresponds to one child of the lookup node. */
  predicate ChildMatches(c: Child, q: QChild, delimiter: string)
    decreases c
  {
    match c
    case Filter(d) =>
      var converted := ConvertFilter(d, delimiter);
      converted.Success? && q == Condition(converted.value.0, converted.value.1)
    case Sub(n) => q.Nested? && Deserialize(n, delimiter) == Success(q.node)
  }

  /**
   * deserialize: the connector under its Django name, the negation as it is, and one
   * Q child per filter in order; the first filter that cannot be converted raises.
   */
  function Deserialize(t: Tree, delimiter: string): (r: Result<QNode, ConvertError>)
    decreases t, 1
    ensures r.Success? ==> r.value.connector == ConnectorName(t.connector) && r.value.negated == t.negated
  {
    match DeserializeFrom(t, 0, delimiter)
    case Success(children) => Success(QNode(children, ConnectorName(t.connector), t.negated))
    case Failure(e) => Failure(e)
  }

  /** The loop of deserialize from filter `i` on. */
  function DeserializeFrom(t: Tree, i: nat, delimiter: string): (r: Result<seq<QChild>, ConvertError>)
    requires i <= |t.filters|
    decreases t, 0, |t.filters| - i
    ensures r.Success? ==> |r.value| == |t.filters| - i
  {
    if i == |t.filters| then Success([])
    else
      var head :=
        match t.filters[i]
        case Filter(d) =>
          (match ConvertFilter(d, delimiter)
           case Success(pair) => Success(Condition(pair.0, pair.1))
           case Failure(e) => Failure(e))
        case Sub(n) =>
          (match Deserialize(n, delimiter)
           case Success(q) => Success(Nested(q))
           case Failure(e) => Failure(e));
      match head
      case Failure(e) => Failure(e)
      case Success(q) =>
        match DeserializeFrom(t, i + 1, delimiter)
        case Failure(e) => Failure(e)
        case Success(qs) => Success([q] + qs)
  }

  /**
   * deserialize as the source runs it: a loop that appends one Q child per filter,
   * recursing into nested nodes, then the fields of a fresh Q are set.
   */
  method DeserializeNode(t: Tree, delimiter: string) returns (r: Result<QNode, ConvertError>)
    decreases t, 1
    ensures r == Deserialize(t, delimiter)
  {
    var children: seq<QChild> := [];
    var i := 0;
    while i < |t.filters|
      invariant 0 <= i <= |t.filters|
      invariant DeserializeFrom(t, 0, delimiter) == Prepend(children, DeserializeFrom(t, i, delimiter))
    {
      var q: QChild;
      match t.filters[i] {
        case Sub(n) =>
          var nested := DeserializeNode(n, delimiter);
          if nested.Failure? {
            return Failure(nested.error);
          }
          q := Nested(nested.value);
        case Filter(d) =>
          var converted := ConvertFilter(d, delimiter);
          if converted.Failure? {
            return Failure(converted.error);
          }
          q := Condition(converted.value.0, converted.value.1);
      }
      PrependStep(children, q, DeserializeFrom(t, i + 1, delimiter));
      children := children + [q];
      i := i + 1;
    }
    assert children + [] == children;
    return Success(QNode(children, ConnectorName(t.connector), t.negated));
  }

  /** Output children match input filters one to one and in order: conditions for dicts, nested Q for nodes. */
  lemma {:induction false} DeserializeKeepsShape(t: Tree, i: nat, delimiter: string)
    requires i <= |t.filters| && DeserializeFrom(t, i, delimiter).Success?
    ensures forall j | i <= j < |t.filters| :: ChildMatches(t.filters[j], DeserializeFrom(t, i, delimiter).value[j - i], delimiter)
    decreases |t.filters| - i
  {
    if i < |t.filters| {
      DeserializeKeepsShape(t, i + 1, delimiter);
      var qs := DeserializeFrom(t, i, delimiter).value;
      assert qs[1..] == DeserializeFrom(t, i + 1, delimiter).value;
      forall j | i < j < |t.filters| ensures ChildMatches(t.filters[j], qs[j - i], delimiter) {
        assert qs[j - i] == qs[1..][j - i - 1];
      }
    }
  }

  /** Every leaf dict carries a string field and a string lookup, as Lookup writes them. */
  predicate Convertible(t: Tree)
    decreases t, 0
  {
    forall i | 0 <= i < |t.filters| :: ChildConvertible(t.filters[i])
  }

  predicate ChildConvertible(c: Child)
    decreases c, 1
  {
    match c
    case Filter(d) => IsLeafEntry(d) && d[FieldKey].Str? && d[LookupKey].Str?
    case Sub(n) => Convertible(n)
  }

  /** deserialize succeeds on every tree whose leaf dicts carry string fields and lookups. */
  lemma {:induction false} ConvertibleTreesDeserialize(t: Tree, i: nat, delimiter: string)
    requires Convertible(t) && i <= |t.filters|
    ensures DeserializeFrom(t, i, delimiter).Success?
    ensures i == 0 ==> Deserialize(t, delimiter).Success?
    decreases t, |t.filters| - i
  {
    if i < |t.filters| {
      assert ChildConvertible(t.filters[i]);
      ConvertibleTreesDeserialize(t, i + 1, delimiter);
      match t.filters[i]
      case Filter(d) =>
      case Sub(n) => ConvertibleTreesDeserialize(n, 0, delimiter);
    }
  }

  /** A leaf built by Lookup deserializes to the one condition `field` or `field__lookup`. */
  lemma {:induction false} LeafDeserializes(field: string, value: Value, lookup: string, validate: bool, delimiter: string)
    requires NewLeaf(field, value, lookup, validate).Success?
    ensures Deserialize(NewLeaf(field, value, lookup, validate).value, delimiter) ==
      Success(QNode([Condition(if lookup == Exact then field else field + delimiter + lookup, value)], "AND", false))
  {
    var t := NewLeaf(field, value, lookup, validate).value;
    var key := if lookup == Exact then field else field + delimiter + lookup;
    assert ConvertFilter(LeafFilter(field, value, lookup), delimiter) == Success((key, value));
    assert t.filters[0] == Filter(LeafFilter(field, value, lookup));
    assert DeserializeFrom(t, 1, delimiter) == Success([]);
    assert [Condition(key, value)] + [] == [Condition(key, value)];
    assert DeserializeFrom(t, 0, delimiter) == Success([Condition(key, value)]);
  }

  /** `Lookup('created', 2017, 'year')` becomes `Q(created__year=2017)` under Django's delimiter. */
  lemma {:induction false} YearLeafDeserializes()
    ensures NewLeaf("created", Int(2017), Year, true).Success?
    ensures Deserialize(NewLeaf("created", Int(2017), Year, true).value, LookupSep) ==
      Success(QNode([Condition("created__year", Int(2017))], "AND", false))
  {
    assert IsSupported(Year) by {
      RegistryMembers();
    }
    assert Validators.ValidatorFor(Year).None?;
    assert NewLeaf("created", Int(2017), Year, true).Success?;
    assert Year != Exact;
    assert "created" + LookupSep + Year == "created__year";
    LeafDeserializes("created", Int(2017), Year, true, LookupSep);
  }
}

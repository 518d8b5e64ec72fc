/**
 * The filter-expression tree of lookup.py as values: leaves, nodes, the squashing
 * `add` rule and the combinators built on it, the canonical dict form (`to_dict`)
 * and its validating reader (`from_dict`).
 */
module Lookup {

  import opened Wrappers
  import opened Values
  import opened Keys
  import opened LookupTypes
  import opened Validators
  import opened Codec

  datatype Connector = And | Or

  /** The marker key a connector is written under. */
  function ConnectorKey(c: Connector): string {
    match c
    case And => AndKey
    case Or => OrKey
  }

  /** The arguments a `Lookup` (a leaf object) keeps: `__invert__` rebuilds the leaf from them. */
  datatype LeafArgs = LeafArgs(field: string, value: Value, lookup: string)

  /** One entry of a node's `filters` list: a leaf filter dict or a nested node. */
  datatype Child = Filter(entries: map<string, Value>) | Sub(node: Tree)

  /**
   * A LookupNode as a value. `leaf` is `Some` exactly for `Lookup` objects, the
   * leaf subclass that `add`'s duplicate test looks for.
   */
  datatype Tree = Tree(filters: seq<Child>, connector: Connector, negated: bool, leaf: Option<LeafArgs>)

  const LeafKeys: set<string> := {FieldKey, LookupKey, ValueKey}
  const TypedLeafKeys: set<string> := {FieldKey, LookupKey, ValueKey, TypeKey}

  // ---------------------------------------------------------------------------
  // Leaves

  datatype LeafError =
    | UnsupportedLookup(lookup: string, supported: seq<string>)
    | InvalidValueError(reason: InvalidValue)

  /** Lookup._validate_lookup. */
  function ValidateLookup(lookup: string): (r: Outcome<LeafError>)
    ensures r.Pass? <==> IsSupported(lookup)
    ensures r.Fail? ==> r.error == UnsupportedLookup(lookup, Registry)
  {
    if lookup in Registry then Pass else Fail(UnsupportedLookup(lookup, Registry))
  }

  /** Lookup._validate_value: the lookup's validator if it has one; any value otherwise. */
  function ValidateValue(value: Value, lookup: string): (r: Outcome<LeafError>)
    ensures ValidatorFor(lookup).None? ==> r.Pass?
    ensures ValidatorFor(lookup).Some? ==>
      (r.Pass? <==> Run(ValidatorFor(lookup).value, value).Pass?)
    ensures r.Fail? ==> r.error == InvalidValueError(Run(ValidatorFor(lookup).value, value).error)
  {
    match ValidatorFor(lookup)
    case None => Pass
    case Some(check) =>
      match Run(check, value)
      case Pass => Pass
      case Fail(e) => Fail(InvalidValueError(e))
  }

  /** The leaf's filter dict: field, lookup and value, plus the type tag for a date or datetime value. */
  function LeafFilter(field: string, value: Value, lookup: string): (d: map<string, Value>)
    ensures d.Keys == if TypeTag(value).Some? then TypedLeafKeys else LeafKeys
    ensures d[FieldKey] == Str(field) && d[LookupKey] == Str(lookup) && d[ValueKey] == value
    ensures TypeTag(value).Some? ==> d[TypeKey] == Str(TypeTag(value).value)
  {
    var d := map[FieldKey := Str(field), LookupKey := Str(lookup), ValueKey := value];
    match TypeTag(value)
    case Some(tag) => d[TypeKey := Str(tag)]
    case None => d
  }

  /**
   * Lookup(field, value, lookup, validate): with validation, an unregistered lookup
   * is refused first, then the lookup's validator runs; without it anything goes.
   * The leaf is an AND node holding its one filter.
   */
  function NewLeaf(field: string, value: Value, lookup: string, validate: bool): (r: Result<Tree, LeafError>)
    ensures validate && !IsSupported(lookup) ==> r == Failure(UnsupportedLookup(lookup, Registry))
    ensures validate && IsSupported(lookup) && ValidatorFor(lookup).Some? &&
            Run(ValidatorFor(lookup).value, value).Fail? ==>
      r == Failure(InvalidValueError(Run(ValidatorFor(lookup).value, value).error))
    ensures r.Success? <==>
      !validate || (IsSupported(lookup) && (ValidatorFor(lookup).None? || Run(ValidatorFor(lookup).value, value).Pass?))
    ensures r.Success? ==>
      r.value == Tree([Filter(LeafFilter(field, value, lookup))], And, false, Some(LeafArgs(field, value, lookup)))
  {
    var check := if validate then ValidateLookup(lookup) else Pass;
    var valueCheck := if validate then ValidateValue(value, lookup) else Pass;
    if check.Fail? then Failure(check.error)
    else if valueCheck.Fail? then Failure(valueCheck.error)
    else Success(Tree([Filter(LeafFilter(field, value, lookup))], And, false, Some(LeafArgs(field, value, lookup))))
  }

  /** A leaf built with the default lookup `exact` filters on equality. */
  lemma {:induction false} DefaultLookupIsExact(field: string, value: Value)
    ensures NewLeaf(field, value, Exact, true).Success?
    ensures NewLeaf(field, value, Exact, true).value.filters[0].entries[LookupKey] == Str("exact")
  {
    RegistryMembers();
  }

  /** `Lookup('f', 13, 'month')` is refused with the month message; `Lookup('f', 12, 'month')` is built. */
  lemma {:induction false} MonthRangeIsChecked(field: string)
    ensures NewLeaf(field, Int(13), Month, true) == Failure(InvalidValueError(InvalidValue(MonthMessage)))
    ensures NewLeaf(field, Int(12), Month, true).Success?
  {
    RegistryMembers();
  }

  // ---------------------------------------------------------------------------
  // The canonical dict form

  /** A child's form in its parent's list: a leaf dict as it is, a node by its own to_dict. */
  function ChildForm(c: Child): Value
    decreases c, 2
  {
    match c
    case Filter(d) => Dict(d)
    case Sub(n) => Dict(ToDict(n))
  }

  /** The list comprehension of to_dict: the children's forms, in order. */
  function Forms(t: Tree): (forms: seq<Value>)
    decreases t, 0
    ensures |forms| == |t.filters|
    ensures forall i :: 0 <= i < |t.filters| ==> forms[i] == ChildForm(t.filters[i])
  {
    seq(|t.filters|, i requires 0 <= i < |t.filters| => ChildForm(t.filters[i]))
  }

  /**
   * LookupNode.to_dict: one key, the connector, over the children's forms in order,
   * wrapped as `{_not: ...}` exactly when the node is negated.
   */
  function ToDict(t: Tree): (d: map<string, Value>)
    decreases t, 1
    ensures |d| == 1
    ensures NotKey in d <==> t.negated
    ensures t.negated ==> d[NotKey] == Dict(map[ConnectorKey(t.connector) := List(Forms(t))])
    ensures !t.negated ==> d.Keys == {ConnectorKey(t.connector)} && d[ConnectorKey(t.connector)] == List(Forms(t))
  {
    var body := map[ConnectorKey(t.connector) := List(Forms(t))];
    if t.negated then map[NotKey := Dict(body)] else body
  }

  // ---------------------------------------------------------------------------
  // Reading the canonical form back

  datatype ParseError =
    | InvalidFormat(fragment: Value)        // the structural check failed on this fragment
    | WrongType(offending: Value)           // Python fails with TypeError or AttributeError here
    | UnmodelledEntry(entry: Value)         // a list entry whose items are exactly the leaf keys

  /** The payload an entry must carry to be read as a nested node. */
  predicate IsNodeEntry(em: map<string, Value>) {
    |em| == 1 && (NotKey in em || AndKey in em || OrKey in em)
  }

  /** The key sets a leaf filter dict may have. */
  predicate IsLeafEntry(em: map<string, Value>) {
    em.Keys == LeafKeys || em.Keys == TypedLeafKeys
  }

  /**
   * The root checks of LookupNode.from_dict: the root must have exactly one key; a
   * `_not` root is unwrapped once and its payload must again have exactly one key;
   * the key left must be `_and` or `_or`. Yields the connector's payload, the
   * connector and the negation. Anything that is not a dict is iterated as Python does.
   */
  function RootOf(v: Value): (r: Result<(Value, Connector, bool), ParseError>)
    ensures v.Dict? && |v.entries| != 1 ==> r == Failure(InvalidFormat(v))
    ensures v.Dict? && |v.entries| == 1 && NotKey !in v.entries && AndKey !in v.entries && OrKey !in v.entries ==>
      r == Failure(InvalidFormat(v))
    ensures v.Dict? && |v.entries| == 1 && NotKey in v.entries && v.entries[NotKey].Dict? ==>
      var p := v.entries[NotKey];
      (|p.entries| != 1 || (AndKey !in p.entries && OrKey !in p.entries)) ==> r == Failure(InvalidFormat(p))
    ensures r.Success? ==> v.Dict? && |v.entries| == 1
    ensures r.Success? ==> (r.value.2 <==> NotKey in v.entries)
    ensures r.Success? && !r.value.2 ==>
      v.entries.Keys == {ConnectorKey(r.value.1)} && r.value.0 == v.entries[ConnectorKey(r.value.1)]
    ensures r.Success? && r.value.2 ==>
      v.entries[NotKey].Dict? && v.entries[NotKey].entries.Keys == {ConnectorKey(r.value.1)} &&
      r.value.0 == v.entries[NotKey].entries[ConnectorKey(r.value.1)]
  {
    match v
    case Dict(m) =>
      if |m| != 1 then Failure(InvalidFormat(v))
      else if NotKey in m then
        var p := m[NotKey];
        match p
        case Dict(pm) =>
          if |pm| != 1 then Failure(InvalidFormat(p))
          else if AndKey in pm then SingleKey(pm, AndKey); Success((pm[AndKey], And, true))
          else if OrKey in pm then SingleKey(pm, OrKey); Success((pm[OrKey], Or, true))
          else Failure(InvalidFormat(p))
        case List(xs) =>
          if |xs| == 1 && (xs[0] == Str(AndKey) || xs[0] == Str(OrKey)) then Failure(WrongType(p))
          else Failure(InvalidFormat(p))
        case Str(_) => Failure(InvalidFormat(p))
        case _ => Failure(WrongType(p))
      else if AndKey in m then SingleKey(m, AndKey); Success((m[AndKey], And, false))
      else if OrKey in m then SingleKey(m, OrKey); Success((m[OrKey], Or, false))
      else Failure(InvalidFormat(v))
    case List(xs) =>
      if |xs| == 1 && (xs[0] == Str(NotKey) || xs[0] == Str(AndKey) || xs[0] == Str(OrKey)) then Failure(WrongType(v))
      else Failure(InvalidFormat(v))
    case Str(_) => Failure(InvalidFormat(v))
    case _ => Failure(WrongType(v))
  }

  /** LookupNode.from_dict: the root checks, then the loop over the connector's payload. */
  function FromDict(v: Value): (r: Result<Tree, ParseError>)
    decreases v, 2, 0
    ensures RootOf(v).Failure? ==> r == Failure(RootOf(v).error)
    ensures r.Success? ==> RootOf(v).Success? && r.value.leaf.None?
    ensures r.Success? ==> r.value.connector == RootOf(v).value.1 && r.value.negated == RootOf(v).value.2
    ensures r.Success? && RootOf(v).value.0.List? ==> |r.value.filters| == |RootOf(v).value.0.items|
    ensures r.Success? && !RootOf(v).value.0.List? ==> r.value.filters == []
  {
    match RootOf(v)
    case Failure(e) => Failure(e)
    case Success(root) =>
      var (payload, connector, negated) := root;
      NodeFrom(payload, connector, negated)
  }

  /**
   * The loop over the connector's payload. A list is read entry by entry; an empty
   * string or dict gives a node without children; a non-empty one fails on its
   * first item; anything else is not iterable.
   */
  function NodeFrom(payload: Value, connector: Connector, negated: bool): (r: Result<Tree, ParseError>)
    decreases payload, 1, 0
    ensures r.Success? ==> r.value.connector == connector && r.value.negated == negated && r.value.leaf.None?
    ensures payload.List? ==> (r.Success? <==> ParseEntries(payload, 0).Success?)
    ensures payload.List? && r.Success? ==>
      |r.value.filters| == |payload.items| &&
      forall k | 0 <= k < |payload.items| :: ParseEntry(payload.items[k]) == Success(r.value.filters[k])
    ensures payload.List? && r.Failure? ==> r.error == ParseEntries(payload, 0).error
    ensures !payload.List? && r.Success? ==> r.value.filters == []
  {
    match payload
    case List(xs) =>
      (match ParseEntries(payload, 0)
       case Success(children) => Success(Tree(children, connector, negated, None))
       case Failure(e) => Failure(e))
    case Str(s) =>
      if s == "" then Success(Tree([], connector, negated, None)) else Failure(InvalidFormat(Str([s[0]])))
    case Dict(m) =>
      if m == map[] then Success(Tree([], connector, negated, None)) else Failure(InvalidFormat(payload))
    case _ => Failure(WrongType(payload))
  }

  /** The entries from index `i` on, read left to right; the first bad entry stops the loop. */
  function ParseEntries(list: Value, i: nat): (r: Result<seq<Child>, ParseError>)
    requires list.List? && i <= |list.items|
    decreases list, 0, |list.items| - i
    ensures r.Success? ==> |r.value| == |list.items| - i
    ensures r.Success? ==>
      forall k | 0 <= k < |list.items| - i :: ParseEntry(list.items[i + k]) == Success(r.value[k])
  {
    if i == |list.items| then Success([])
    else
      match ParseEntry(list.items[i])
      case Failure(e) => Failure(e)
      case Success(c) =>
        match ParseEntries(list, i + 1)
        case Failure(e) => Failure(e)
        case Success(cs) => Success([c] + cs)
  }

  /**
   * One entry: a single-key `_and`/`_or`/`_not` dict is a nested node, a dict whose
   * keys are exactly the leaf keys (with or without `_type`) is a leaf, anything
   * else is refused.
   */
  function ParseEntry(e: Value): (r: Result<Child, ParseError>)
    decreases e, 3, 0
    ensures e.Dict? && !IsNodeEntry(e.entries) && !IsLeafEntry(e.entries) ==> r == Failure(InvalidFormat(e))
    ensures e.Dict? && IsLeafEntry(e.entries) ==> r == Success(Filter(e.entries))
    ensures e.Str? ==> r == Failure(InvalidFormat(e))
    ensures r.Success? ==> e.Dict? && (r.value.Filter? <==> IsLeafEntry(e.entries))
  {
    match e
    case Dict(em) =>
      if IsNodeEntry(em) then
        (match FromDict(e)
         case Success(t) => Success(Sub(t))
         case Failure(err) => Failure(err))
      else if IsLeafEntry(em) then Success(Filter(em))
      else Failure(InvalidFormat(e))
    case Str(_) => Failure(InvalidFormat(e))
    case List(ys) => ListEntry(e)
    case _ => Failure(WrongType(e))
  }

  /** `set(list(entry))` on a list entry, and what from_dict then does with it. */
  function ListEntry(e: Value): (r: Result<Child, ParseError>)
    requires e.List?
    ensures r.Failure?
  {
    var ys := e.items;
    if exists j :: 0 <= j < |ys| && !Hashable(ys[j]) then Failure(WrongType(e))
    else if ys != [] && (forall j :: 0 <= j < |ys| ==> ys[j] == ys[0]) &&
            (ys[0] == Str(NotKey) || ys[0] == Str(AndKey) || ys[0] == Str(OrKey)) then
      (if |ys| == 1 then Failure(WrongType(e)) else Failure(InvalidFormat(e)))
    else
      var items := set j | 0 <= j < |ys| :: ys[j];
      if items == (set k | k in LeafKeys :: Str(k)) || items == (set k | k in TypedLeafKeys :: Str(k)) then
        Failure(UnmodelledEntry(e))
      else Failure(InvalidFormat(e))
  }

  /** Each child from_dict builds is its payload entry read on its own, in order. */
  lemma {:induction false} FromDictReadsEachEntry(v: Value)
    requires FromDict(v).Success? && RootOf(v).value.0.List?
    ensures var entries := RootOf(v).value.0.items;
      |FromDict(v).value.filters| == |entries| &&
      forall k | 0 <= k < |entries| :: ParseEntry(entries[k]) == Success(FromDict(v).value.filters[k])
  {
    var root := RootOf(v).value;
    assert FromDict(v) == NodeFrom(root.0, root.1, root.2);
  }

  /** The loop stops at the first entry that fails, with that entry's error. */
  lemma {:induction false} FirstBadEntryStops(list: Value, i: nat, j: nat)
    requires list.List? && i <= j < |list.items|
    requires forall k | i <= k < j :: ParseEntry(list.items[k]).Success?
    requires ParseEntry(list.items[j]).Failure?
    ensures ParseEntries(list, i) == Failure(ParseEntry(list.items[j]).error)
    decreases j - i
  {
    if i < j {
      FirstBadEntryStops(list, i + 1, j);
    }
  }

  /**
   * One bad entry anywhere in the payload, after entries that all parse, makes the
   * whole of from_dict fail with that entry's error; for a dict that is neither a
   * node nor a leaf, or a string, that error is InvalidFormat of the entry.
   */
  lemma {:induction false} BadEntryRejectsWholeDict(xs: seq<Value>, j: nat, c: Connector, negated: bool)
    requires j < |xs|
    requires forall k | 0 <= k < j :: ParseEntry(xs[k]).Success?
    requires ParseEntry(xs[j]).Failure?
    ensures var body := Dict(map[ConnectorKey(c) := List(xs)]);
      FromDict(if negated then Dict(map[NotKey := body]) else body) == Failure(ParseEntry(xs[j]).error)
    ensures (xs[j].Dict? && !IsNodeEntry(xs[j].entries) && !IsLeafEntry(xs[j].entries)) || xs[j].Str? ==>
      ParseEntry(xs[j]).error == InvalidFormat(xs[j])
  {
    FirstBadEntryStops(List(xs), 0, j);
    var body := Dict(map[ConnectorKey(c) := List(xs)]);
    var v := if negated then Dict(map[NotKey := body]) else body;
    assert RootOf(v) == Success((List(xs), c, negated));
  }

  // ---------------------------------------------------------------------------
  // Squashing and the combinators

  /** `f in self.filters` for a filter dict: dicts compare with Python's `==`; a nested node never equals a dict. */
  predicate HasFilter(fs: seq<Child>, f: map<string, Value>) {
    exists i :: 0 <= i < |fs| && fs[i].Filter? && DictEq(fs[i].entries, f)
  }

  /** `isinstance(other, Lookup) and other.filters[0] in self.filters`: negation plays no part. */
  predicate IsDuplicateLeaf(fs: seq<Child>, other: Tree) {
    other.leaf.Some? && |other.filters| > 0 && other.filters[0].Filter? && HasFilter(fs, other.filters[0].entries)
  }

  /** When add may splice: the operand is not negated and has the target connector or a single child. */
  predicate Splices(other: Tree, conn: Connector) {
    !other.negated && (other.connector == conn || |other.filters| == 1)
  }

  /**
   * LookupNode.add on the node's `filters`: a duplicate leaf is dropped, a
   * squashable operand is spliced in, anything else is appended as one child.
   * The existing children always stay, in order, in front.
   */
  function AddTo(fs: seq<Child>, other: Tree, conn: Connector): (r: seq<Child>)
    ensures |fs| <= |r| && r[..|fs|] == fs
    ensures IsDuplicateLeaf(fs, other) ==> r == fs
    ensures !IsDuplicateLeaf(fs, other) && Splices(other, conn) ==> r[|fs|..] == other.filters
    ensures !IsDuplicateLeaf(fs, other) && !Splices(other, conn) ==> r[|fs|..] == [Sub(other)]
  {
    if IsDuplicateLeaf(fs, other) then fs
    else if Splices(other, conn) then fs + other.filters
    else fs + [Sub(other)]
  }

  /** LookupNode._combine: a fresh node with the connector, into which both operands are added in turn. */
  function Combined(a: Tree, b: Tree, conn: Connector): (r: Tree)
    ensures r.connector == conn && !r.negated && r.leaf.None?
  {
    Tree(AddTo(AddTo([], a, conn), b, conn), conn, false, None)
  }

  /**
   * `~`. On a node: a fresh AND node absorbs the operand by the add rule and is
   * negated. On a leaf: a fresh leaf is rebuilt from the stored arguments, WITH
   * validation, and negated, whatever the original's own negation was.
   */
  function Inverted(t: Tree): (r: Result<Tree, LeafError>)
    ensures t.leaf.None? ==> r == Success(Tree(AddTo([], t, And), And, true, None))
    ensures t.leaf.Some? ==>
      var a := t.leaf.value;
      match NewLeaf(a.field, a.value, a.lookup, true)
      case Success(l) => r == Success(l.(negated := true)) && r.value.leaf == t.leaf
      case Failure(e) => r == Failure(e)
  {
    match t.leaf
    case None => Success(Tree(AddTo([], t, And), And, true, None))
    case Some(a) =>
      match NewLeaf(a.field, a.value, a.lookup, true)
      case Success(l) => Success(l.(negated := true))
      case Failure(e) => Failure(e)
  }

  /** A freshly built leaf: a Lookup holding the one filter dict of its arguments, not negated. */
  predicate PlainLeaf(t: Tree) {
    t.leaf.Some? &&
    var a := t.leaf.value;
    t == Tree([Filter(LeafFilter(a.field, a.value, a.lookup))], And, false, t.leaf)
  }

  /** `L(a) & L(a)` and `L(a) & L(a) & L(a)` keep a single child, and so do the OR forms. */
  lemma {:induction false} DuplicateLeafIsSquashed(a: Tree, conn: Connector)
    requires PlainLeaf(a)
    ensures Combined(a, a, conn).filters == a.filters
    ensures Combined(Combined(a, a, conn), a, conn).filters == a.filters
  {
    PyEqReflexive(Dict(a.filters[0].entries));
    assert IsDuplicateLeaf(a.filters, a);
  }

  /** Negation does not protect a leaf from the duplicate test: `L(a) & ~L(a)` keeps only `a`. */
  lemma {:induction false} NegatedDuplicateIsDropped(a: Tree, conn: Connector)
    requires PlainLeaf(a) && Inverted(a).Success?
    ensures Inverted(a).value.negated
    ensures Combined(a, Inverted(a).value, conn).filters == a.filters
  {
    var n := Inverted(a).value;
    assert n.filters == a.filters;
    PyEqReflexive(Dict(a.filters[0].entries));
    assert IsDuplicateLeaf(a.filters, n);
  }

  /** Two leaves whose filter dicts differ under Python's `==`. */
  predicate DistinctLeaves(a: Tree, b: Tree)
    requires PlainLeaf(a) && PlainLeaf(b)
  {
    !DictEq(a.filters[0].entries, b.filters[0].entries)
  }

  /** `L(a) & L(b) & L(c)` is one AND node over the three leaf dicts, not a nested pair. */
  lemma {:induction false} SameConnectorChainIsFlat(a: Tree, b: Tree, c: Tree, conn: Connector)
    requires PlainLeaf(a) && PlainLeaf(b) && PlainLeaf(c)
    requires DistinctLeaves(a, b) && DistinctLeaves(a, c) && DistinctLeaves(b, c)
    ensures Combined(Combined(a, b, conn), c, conn) == Tree(a.filters + b.filters + c.filters, conn, false, None)
  {
    var ab := Combined(a, b, conn);
    assert AddTo([], a, conn) == a.filters;
    assert !HasFilter(a.filters, b.filters[0].entries);
    assert ab.filters == a.filters + b.filters;
    assert AddTo([], ab, conn) == ab.filters;
    assert !HasFilter(ab.filters, c.filters[0].entries) by {
      forall i | 0 <= i < |ab.filters|
        ensures !(ab.filters[i].Filter? && DictEq(ab.filters[i].entries, c.filters[0].entries))
      {
        assert ab.filters[i] == if i == 0 then a.filters[0] else b.filters[0];
      }
    }
  }

  /** `(L(a) & L(b)) | L(c)` nests: the AND pair stays one child of the OR node, in either order. */
  lemma {:induction false} MixedConnectorsNest(a: Tree, b: Tree, c: Tree)
    requires PlainLeaf(a) && PlainLeaf(b) && PlainLeaf(c) && DistinctLeaves(a, b)
    ensures Combined(Combined(a, b, And), c, Or).filters == [Sub(Combined(a, b, And))] + c.filters
    ensures Combined(c, Combined(a, b, And), Or).filters == c.filters + [Sub(Combined(a, b, And))]
  {
    var ab := Combined(a, b, And);
    assert !HasFilter(a.filters, b.filters[0].entries);
    assert |ab.filters| == 2;
    assert AddTo([], ab, Or) == [Sub(ab)];
    assert !HasFilter([Sub(ab)], c.filters[0].entries);
    assert AddTo([], c, Or) == c.filters;
  }

  /** `~L(a)` is written `{_not: {_and: [a]}}`. */
  lemma {:induction false} NegatedLeafForm(a: Tree)
    requires PlainLeaf(a) && Inverted(a).Success?
    ensures ToDict(Inverted(a).value) == map[NotKey := Dict(map[AndKey := List([Dict(a.filters[0].entries)])])]
  {
    var n := Inverted(a).value;
    assert Forms(n) == [Dict(a.filters[0].entries)];
  }

  // ---------------------------------------------------------------------------
  // The round trip through the canonical form

  /** Every leaf dict in the tree has a leaf key set, as Lookup writes it. */
  predicate WellFormed(t: Tree)
    decreases t, 0
  {
    forall i :: 0 <= i < |t.filters| ==> ChildWellFormed(t.filters[i])
  }

  predicate ChildWellFormed(c: Child)
    decreases c, 1
  {
    match c
    case Filter(d) => IsLeafEntry(d)
    case Sub(n) => WellFormed(n)
  }

  /** The tree with every leaf marker dropped: what from_dict builds, since it only makes plain nodes. */
  function Plain(t: Tree): (r: Tree)
    decreases t, 0
    ensures |r.filters| == |t.filters|
  {
    Tree(seq(|t.filters|, i requires 0 <= i < |t.filters| => PlainChild(t.filters[i])), t.connector, t.negated, None)
  }

  function PlainChild(c: Child): Child
    decreases c, 1
  {
    match c
    case Filter(_) => c
    case Sub(n) => Sub(Plain(n))
  }

  /** from_dict(to_dict(n)) rebuilds n, children, connector and negation included, as a plain node. */
  lemma {:induction false} FromDictInvertsToDict(t: Tree)
    requires WellFormed(t)
    ensures FromDict(Dict(ToDict(t))) == Success(Plain(t))
    decreases t, 1, 0
  {
    EntriesRoundTrip(t, 0);
    assert Plain(t).filters[0..] == Plain(t).filters;
    var body := map[ConnectorKey(t.connector) := List(Forms(t))];
    assert NodeFrom(List(Forms(t)), t.connector, t.negated) == Success(Plain(t));
    if t.negated {
      assert ToDict(t) == map[NotKey := Dict(body)];
    } else {
      assert ToDict(t) == body;
    }
  }

  lemma {:induction false} EntriesRoundTrip(t: Tree, i: nat)
    requires WellFormed(t) && i <= |t.filters|
    ensures ParseEntries(List(Forms(t)), i) == Success(Plain(t).filters[i..])
    decreases t, 0, |t.filters| - i
  {
    if i < |t.filters| {
      EntriesRoundTrip(t, i + 1);
      var c := t.filters[i];
      assert ChildWellFormed(c);
      assert Plain(t).filters[i..] == [PlainChild(c)] + Plain(t).filters[i + 1..];
      match c
      case Filter(d) =>
        assert ParseEntry(ChildForm(c)) == Success(c);
      case Sub(n) =>
        FromDictInvertsToDict(n);
        assert ParseEntry(ChildForm(c)) == Success(Sub(Plain(n)));
    }
  }

  /** Dropping the leaf markers does not change the canonical form. */
  lemma {:induction false} PlainHasSameForm(t: Tree)
    ensures ToDict(Plain(t)) == ToDict(t)
    decreases t
  {
    forall i | 0 <= i < |t.filters| ensures ChildForm(PlainChild(t.filters[i])) == ChildForm(t.filters[i]) {
      match t.filters[i]
      case Filter(_) =>
      case Sub(n) => PlainHasSameForm(n);
    }
    assert Forms(Plain(t)) == Forms(t);
  }

  /** from_dict(to_dict(n)).to_dict() == to_dict(n) for every well-formed tree. */
  lemma {:induction false} CanonicalFormRoundTrip(t: Tree)
    requires WellFormed(t)
    ensures FromDict(Dict(ToDict(t))).Success?
    ensures ToDict(FromDict(Dict(ToDict(t))).value) == ToDict(t)
  {
    FromDictInvertsToDict(t);
    PlainHasSameForm(t);
  }

  // ---------------------------------------------------------------------------
  // Trees built with L, &, | and ~

  /** An expression as a caller writes it with the public API. */
  datatype Expr =
    | Leaf(field: string, value: Value, lookup: string, validate: bool)
    | AndOf(left: Expr, right: Expr)
    | OrOf(left: Expr, right: Expr)
    | NotOf(operand: Expr)

  /** Evaluates the expression; the first leaf that fails to build (left to right) raises. */
  function Build(e: Expr): Result<Tree, LeafError> {
    match e
    case Leaf(f, v, l, validate) => NewLeaf(f, v, l, validate)
    case AndOf(x, y) =>
      (match Build(x)
       case Failure(err) => Failure(err)
       case Success(a) =>
         match Build(y)
         case Failure(err) => Failure(err)
         case Success(b) => Success(Combined(a, b, And)))
    case OrOf(x, y) =>
      (match Build(x)
       case Failure(err) => Failure(err)
       case Success(a) =>
         match Build(y)
         case Failure(err) => Failure(err)
         case Success(b) => Success(Combined(a, b, Or)))
    case NotOf(x) =>
      (match Build(x)
       case Failure(err) => Failure(err)
       case Success(a) => Inverted(a))
  }

  lemma {:induction false} AddToKeepsWellFormed(fs: seq<Child>, other: Tree, conn: Connector)
    requires forall i :: 0 <= i < |fs| ==> ChildWellFormed(fs[i])
    requires WellFormed(other)
    ensures var r := AddTo(fs, other, conn); forall i :: 0 <= i < |r| ==> ChildWellFormed(r[i])
  {
    var r := AddTo(fs, other, conn);
    forall i | 0 <= i < |r| ensures ChildWellFormed(r[i]) {
      if i < |fs| {
        assert r[i] == r[..|fs|][i];
      } else if !IsDuplicateLeaf(fs, other) && Splices(other, conn) {
        assert r[i] == r[|fs|..][i - |fs|] == other.filters[i - |fs|];
      } else {
        assert r[i] == r[|fs|..][i - |fs|] == Sub(other);
      }
    }
  }

  /** Every tree the public API builds is well-formed, so it survives the canonical round trip. */
  lemma {:induction false} BuiltTreesAreWellFormed(e: Expr)
    requires Build(e).Success?
    ensures WellFormed(Build(e).value)
  {
    match e
    case Leaf(f, v, l, validate) =>
      assert ChildWellFormed(Build(e).value.filters[0]);
    case AndOf(x, y) =>
      BuiltTreesAreWellFormed(x);
      BuiltTreesAreWellFormed(y);
      AddToKeepsWellFormed([], Build(x).value, And);
      AddToKeepsWellFormed(AddTo([], Build(x).value, And), Build(y).value, And);
    case OrOf(x, y) =>
      BuiltTreesAreWellFormed(x);
      BuiltTreesAreWellFormed(y);
      AddToKeepsWellFormed([], Build(x).value, Or);
      AddToKeepsWellFormed(AddTo([], Build(x).value, Or), Build(y).value, Or);
    case NotOf(x) =>
      BuiltTreesAreWellFormed(x);
      var a := Build(x).value;
      if a.leaf.None? {
        AddToKeepsWellFormed([], a, And);
      } else {
        assert ChildWellFormed(Build(e).value.filters[0]);
      }
  }

  /** For any expression built from L, &, | and ~, from_dict(to_dict(n)).to_dict() == to_dict(n). */
  lemma {:induction false} BuiltTreesRoundTrip(e: Expr)
    requires Build(e).Success?
    ensures FromDict(Dict(ToDict(Build(e).value))) == Success(Plain(Build(e).value))
    ensures ToDict(Plain(Build(e).value)) == ToDict(Build(e).value)
  {
    BuiltTreesAreWellFormed(e);
    FromDictInvertsToDict(Build(e).value);
    PlainHasSameForm(Build(e).value);
  }
}

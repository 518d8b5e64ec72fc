// LookupNode.dumps and LookupNode.from_json at the level of JSON values: dumps
// writes to_dict with TypeEncoder.default for what JSON has no type for, and
// from_json runs type_decoder on every object, innermost first, before
// from_dict. The text itself (simplejson) is not part of this model.

module LookupJson {
  import opened Wrappers
  import opened Values
  import opened Keys
  import opened Codec
  import opened Lookup

  /** What json.dumps can write: JSON's own types, and others when TypeEncoder.default encodes them. */
  predicate Encodable(v: Value)
    decreases v
  {
    match v
    case List(xs) => forall i | 0 <= i < |xs| :: Encodable(xs[i])
    case Dict(m) => forall k | k in m :: Encodable(m[k])
    case PyDate(_) => Default(v).Success?
    case PyDateTime(_) => Default(v).Success?
    case Opaque(_) => Default(v).Success?
    case _ => true
  }

  /** A value JSON has a type for, at every depth: no date, datetime or foreign object anywhere inside. */
  predicate IsJson(j: Value)
    decreases j
  {
    match j
    case List(xs) => forall i | 0 <= i < |xs| :: IsJson(xs[i])
    case Dict(m) => forall k | k in m :: IsJson(m[k])
    case PyDate(_) => false
    case PyDateTime(_) => false
    case Opaque(_) => false
    case _ => true
  }

  /** The JSON value json.dumps writes for `v`: containers element by element, foreign values through default. */
  function Jsonify(v: Value): (j: Value)
    requires Encodable(v)
    decreases v
    ensures !j.PyDate? && !j.PyDateTime? && !j.Opaque?
    ensures IsJson(j)
  {
    match v
    case List(xs) => List(seq(|xs|, i requires 0 <= i < |xs| => Jsonify(xs[i])))
    case Dict(m) => Dict(map k | k in m :: Jsonify(m[k]))
    case PyDate(_) => Default(v).value
    case PyDateTime(_) => Default(v).value
    case Opaque(_) => Default(v).value
    case _ => v
  }

  /** Some value inside `v` that TypeEncoder.default refuses: the object json.dumps raises TypeError for. */
  ghost function Unencodable(v: Value): (u: Value)
    requires !Encodable(v)
    decreases v
    ensures Default(u) == Failure(TypeError(u))
  {
    match v
    case List(xs) =>
      var i :| 0 <= i < |xs| && !Encodable(xs[i]);
      Unencodable(xs[i])
    case Dict(m) =>
      var k :| k in m && !Encodable(m[k]);
      Unencodable(m[k])
    case _ => v
  }

  /** LookupNode.dumps: to_dict written as JSON, or the TypeError default raises. */
  ghost function Dumps(t: Tree): (r: Result<Value, EncodeError>)
    ensures r.Success? <==> Encodable(Dict(ToDict(t)))
    ensures r.Failure? ==> Default(r.error.unencodable) == Failure(r.error)
  {
    var d := Dict(ToDict(t));
    if Encodable(d) then Success(Jsonify(d)) else Failure(TypeError(Unencodable(d)))
  }

  /**
   * json.loads with type_decoder as object hook: every object's members are decoded
   * first, then the hook runs on the object. Which failing member is reported is
   * left open.
   */
  ghost function DecodeAll(v: Value, parseDateTime: DateTimeParser): (r: Result<Value, DecodeError>)
    decreases v, 1
  {
    match v
    case List(xs) =>
      if forall i | 0 <= i < |xs| :: DecodeAll(xs[i], parseDateTime).Success? then
        Success(List(seq(|xs|, i requires 0 <= i < |xs| => DecodeAll(xs[i], parseDateTime).value)))
      else
        var i :| 0 <= i < |xs| && DecodeAll(xs[i], parseDateTime).Failure?;
        Failure(DecodeAll(xs[i], parseDateTime).error)
    case Dict(m) =>
      if forall k | k in m :: DecodeAll(m[k], parseDateTime).Success? then
        match TypeDecode(Members(m, parseDateTime), parseDateTime)
        case Success(d) => Success(Dict(d))
        case Failure(e) => Failure(e)
      else
        var k :| k in m && DecodeAll(m[k], parseDateTime).Failure?;
        Failure(DecodeAll(m[k], parseDateTime).error)
    case _ => Success(v)
  }

  /** An object's members once each has been read. */
  ghost function Members(m: map<string, Value>, parseDateTime: DateTimeParser): (r: map<string, Value>)
    requires forall k | k in m :: DecodeAll(m[k], parseDateTime).Success?
    decreases Dict(m), 0
    ensures r.Keys == m.Keys && forall k | k in m :: r[k] == DecodeAll(m[k], parseDateTime).value
  {
    map k | k in m :: DecodeAll(m[k], parseDateTime).value
  }

  datatype JsonError =
    | Undecodable(decodeError: DecodeError)   // raised by the object hook
    | Unparsable(parseError: ParseError)      // raised by from_dict

  /** LookupNode.from_json on an already parsed JSON value. */
  ghost function FromJson(j: Value, parseDateTime: DateTimeParser): (r: Result<Tree, JsonError>)
    ensures DecodeAll(j, parseDateTime).Failure? ==> r == Failure(Undecodable(DecodeAll(j, parseDateTime).error))
    ensures r.Success? ==> FromDict(DecodeAll(j, parseDateTime).value) == Success(r.value)
  {
    match DecodeAll(j, parseDateTime)
    case Failure(e) => Failure(Undecodable(e))
    case Success(v) =>
      match FromDict(v)
      case Failure(e) => Failure(Unparsable(e))
      case Success(t) => Success(t)
  }

  // ---------------------------------------------------------------------------
  // What survives the trip

  /**
   * Values that come back from JSON as they went in: JSON's own scalars, lists of
   * them, and dicts of them, where a dict tagged `_type: "date"` holds a date
   * under `_value`.
   */
  predicate Survives(v: Value)
    decreases v
  {
    match v
    case Null => true
    case Bool(_) => true
    case Int(_) => true
    case Float(_) => true
    case Str(_) => true
    case List(xs) => forall i | 0 <= i < |xs| :: Survives(xs[i])
    case Dict(m) =>
      (TypeKey in m ==> m[TypeKey] == Str("date") && ValueKey in m && m[ValueKey].PyDate?) &&
      forall k | k in m :: (k == ValueKey && TypeKey in m) || Survives(m[k])
    case _ => false
  }

  /** A surviving value is written without error and read back unchanged by the object hook. */
  lemma {:induction false} SurvivorsRoundTrip(v: Value, parseDateTime: DateTimeParser)
    requires Survives(v)
    ensures Encodable(v)
    ensures DecodeAll(Jsonify(v), parseDateTime) == Success(v)
    decreases v, 1
  {
    match v
    case List(_) => ListRoundTrip(v, parseDateTime);
    case Dict(_) => DictRoundTrip(v, parseDateTime);
    case _ =>
  }

  lemma {:induction false} ListRoundTrip(v: Value, parseDateTime: DateTimeParser)
    requires v.List? && Survives(v)
    ensures Encodable(v)
    ensures DecodeAll(Jsonify(v), parseDateTime) == Success(v)
    decreases v, 0
  {
    var xs := v.items;
    forall i | 0 <= i < |xs| ensures Encodable(xs[i]) && DecodeAll(Jsonify(xs[i]), parseDateTime) == Success(xs[i]) {
      SurvivorsRoundTrip(xs[i], parseDateTime);
    }
    var ys := Jsonify(v).items;
    assert |ys| == |xs| && forall i | 0 <= i < |ys| :: ys[i] == Jsonify(xs[i]);
    assert forall i | 0 <= i < |ys| :: DecodeAll(ys[i], parseDateTime).Success?;
    var zs := seq(|ys|, i requires 0 <= i < |ys| => DecodeAll(ys[i], parseDateTime).value);
    assert DecodeAll(List(ys), parseDateTime) == Success(List(zs));
    assert zs == xs;
  }

  lemma {:induction false} DictRoundTrip(v: Value, parseDateTime: DateTimeParser)
    requires v.Dict? && Survives(v)
    ensures Encodable(v)
    ensures DecodeAll(Jsonify(v), parseDateTime) == Success(v)
    decreases v, 0
  {
    var m := v.entries;
    var tagged := TypeKey in m;
    forall k | k in m ensures Encodable(m[k]) {
      if k == ValueKey && tagged {
      } else {
        SurvivorsRoundTrip(m[k], parseDateTime);
      }
    }
    var jm := map k | k in m :: Jsonify(m[k]);
    assert Jsonify(v) == Dict(jm);
    forall k | k in jm
      ensures DecodeAll(jm[k], parseDateTime).Success?
      ensures DecodeAll(jm[k], parseDateTime).value ==
        if k == ValueKey && tagged then Str(IsoFormat(m[ValueKey].date)) else m[k]
    {
      if k == ValueKey && tagged {
        assert jm[k] == Str(IsoFormat(m[ValueKey].date));
      } else {
        SurvivorsRoundTrip(m[k], parseDateTime);
      }
    }
    HookRestoresMembers(m, Members(jm, parseDateTime), parseDateTime);
  }

  /** The object hook turns the members read back into the original dict. */
  lemma HookRestoresMembers(m: map<string, Value>, members: map<string, Value>, parseDateTime: DateTimeParser)
    requires Survives(Dict(m)) && members.Keys == m.Keys
    requires TypeKey in m ==> members[ValueKey] == Str(IsoFormat(m[ValueKey].date))
    requires forall k | k in m && !(k == ValueKey && TypeKey in m) :: members[k] == m[k]
    ensures TypeDecode(members, parseDateTime) == Success(m)
  {
    if TypeKey in m {
      var d := m[ValueKey].date;
      IsoDateRoundTrip(d);
      assert members[ValueKey := PyDate(d)] == m;
    } else {
      assert members == m;
    }
  }

  /** Every leaf dict in the tree survives the trip. */
  predicate LeavesSurvive(t: Tree)
    decreases t, 0
  {
    forall i | 0 <= i < |t.filters| :: ChildSurvives(t.filters[i])
  }

  predicate ChildSurvives(c: Child)
    decreases c, 1
  {
    match c
    case Filter(d) => Survives(Dict(d))
    case Sub(n) => LeavesSurvive(n)
  }

  /** A leaf whose value is a JSON scalar, a list of them, or a date, writes a dict that survives. */
  lemma {:induction false} LeafFilterSurvives(field: string, value: Value, lookup: string)
    requires (Survives(value) && !value.Dict?) || value.PyDate?
    ensures Survives(Dict(LeafFilter(field, value, lookup)))
  {
  }

  /** The canonical form of a tree whose leaf dicts survive, survives. */
  lemma {:induction false} CanonicalFormSurvives(t: Tree)
    requires LeavesSurvive(t)
    ensures Survives(Dict(ToDict(t)))
    decreases t
  {
    var forms := Forms(t);
    forall i | 0 <= i < |forms| ensures Survives(forms[i]) {
      assert ChildSurvives(t.filters[i]);
      match t.filters[i]
      case Filter(_) =>
      case Sub(n) => CanonicalFormSurvives(n);
    }
    assert Survives(List(forms));
  }

  /**
   * from_json(dumps(n)) rebuilds n as a plain node for every well-formed tree whose
   * leaf dicts survive JSON, dates included.
   */
  lemma {:induction false} FromJsonInvertsDumps(t: Tree, parseDateTime: DateTimeParser)
    requires WellFormed(t) && LeavesSurvive(t)
    ensures Dumps(t).Success?
    ensures FromJson(Dumps(t).value, parseDateTime) == Success(Plain(t))
  {
    CanonicalFormSurvives(t);
    SurvivorsRoundTrip(Dict(ToDict(t)), parseDateTime);
    FromDictInvertsToDict(t);
  }

  /** A leaf whose value JSON cannot write makes dumps raise TypeError for that very value. */
  lemma {:induction false} UnencodableLeafFailsDumps(field: string, id: nat, lookup: string)
    ensures var t := Tree([Filter(LeafFilter(field, Opaque(id), lookup))], And, false, Some(LeafArgs(field, Opaque(id), lookup)));
      Dumps(t) == Failure(TypeError(Opaque(id)))
  {
    var t := Tree([Filter(LeafFilter(field, Opaque(id), lookup))], And, false, Some(LeafArgs(field, Opaque(id), lookup)));
    var leafMap := LeafFilter(field, Opaque(id), lookup);
    var leafDict := Dict(leafMap);
    assert leafMap.Keys == LeafKeys;
    assert !Encodable(leafDict) by {
      assert ValueKey in leafMap && !Encodable(leafMap[ValueKey]);
    }
    assert Unencodable(leafDict) == Opaque(id) by {
      forall k | k in leafMap && !Encodable(leafMap[k]) ensures k == ValueKey {
        assert k == FieldKey || k == LookupKey || k == ValueKey;
      }
    }
    var list := List([leafDict]);
    assert !Encodable(list) by {
      assert !Encodable(list.items[0]);
    }
    assert Unencodable(list) == Opaque(id);
    assert Forms(t) == [leafDict];
    assert ToDict(t) == map[AndKey := list];
    assert !Encodable(Dict(ToDict(t))) by {
      assert AndKey in ToDict(t) && !Encodable(ToDict(t)[AndKey]);
    }
    assert Unencodable(Dict(ToDict(t))) == Opaque(id);
  }
}

# filterql in Dafny

filterql builds filter expressions in Python. It writes them as a small
canonical dict/JSON form and reads them back. It also turns them into Django
`Q` objects. This project models the core of that library and proves
properties of the model:

- **Leaves and nodes.** `Lookup(field, value, lookup)` is a leaf holding one
  filter dict: `_field`, `_lookup`, `_value`, and `_type` for dates and
  datetimes. `LookupNode` holds a connector (`_and`/`_or`), a negation flag and
  an ordered list of children. Each child is a leaf dict or a nested node.
- **Combinators.** `&`, `|` and `~` build new nodes through `add`, the
  squashing rule. A duplicate leaf is dropped. A compatible operand is spliced
  in. Anything else becomes one nested child.
- **Canonical form.** `to_dict` writes the one-key canonical form. `from_dict`
  is a strict parser that raises `InvalidFormat`.
- **Operators and validators.** The operator registry `LOOKUP_TYPES` lists the
  allowed lookups. Per-operator value validators check ranges and booleans.
- **Value codec.** `date` is written as `YYYY-MM-DD` and tagged `_type: "date"`.
  `type_decoder` decodes a tagged dict back.
- **Django adapter.** `deserialize` and `_convert_filter` produce `field` or
  `field__lookup` conditions.

Python values are the datatype `Values.Value`. It includes dates, opaque
objects and the `bool`-is-`int` rule. Python's `==` is `Values.PyEq`, under
which `1 == 1.0 == True`. Results that Python raises are `Result` failures whose
variants name the exception.

Modules:
- `Wrappers`: `Option`, `Result`, and the loop-accumulator `Prepend`.
- `Values`: Python values, `==` and truthiness.
- `Keys`: the key constants.
- `LookupTypes`: the operator registry.
- `Validators`: the value validators.
- `Codec`: the ENCODERS/DECODERS tables, `TypeEncoder.default` and `type_decoder`.
- `Lookup`: the tree as a value, plus `add`, `&`, `|`, `~`, `to_dict` and `from_dict`.
- `LookupObjects`: the in-place `LookupNode` class, proved against `Lookup`.
- `Meaning`: the boolean reading of a tree, with the findings below.
- `LookupJson`: `dumps`/`from_json` on JSON values.
- `DjangoSerializer`: the adapter.

`from_dict` does not check that the connector's payload is a list. The model
follows Python here. An empty string or dict payload gives a node with no
children. A non-empty one fails on its first item. Any other non-list gives a
`WrongType` error.

## Model

| member | source | states |
|---|---|---|
| Values.PyEqReflexive | filterql/lookup.py:163 | Python `==` on values is reflexive, so the duplicate test finds a leaf's own filter. |
| LookupTypes.RegistryHasEachNameOnce | filterql/lookup_types.py:31-56 | LOOKUP_TYPES has 21 entries, pairwise distinct. |
| LookupTypes.RegistryMembers | filterql/lookup_types.py:2-8 | The registry holds `exact`, `isnull`, and year, month, week, day, hour, minute and second. |
| LookupTypes.UnknownNameIsUnsupported | filterql/lookup.py:251-252 | `spindle` and `bogus` are not registered lookups. |
| Validators.AsInteger | filterql/validators.py:6 | Under Python 3, `isinstance(v, int)` holds exactly for ints and bools. True is 1 and False is 0. |
| Validators.IntegerValidator | filterql/validators.py:5-7 | Passes exactly the ints and bools. Otherwise it fails with "Value needs to be an integer". |
| Validators.DayValidator | filterql/validators.py:10-14 | Passes exactly ints 1..31 and `True`. A non-integer fails with the integer message, any other value with the day message. |
| Validators.MonthValidator | filterql/validators.py:17-21 | Passes exactly ints 1..12 and `True`, so 0 and 13 fail. The messages are as for day. |
| Validators.WeekValidator | filterql/validators.py:24-28 | Passes exactly ints 1..54 and `True`. |
| Validators.HourValidator | filterql/validators.py:31-35 | Passes exactly ints 0..23 and both bools. |
| Validators.MinuteValidator | filterql/validators.py:38-42 | Passes exactly ints 0..59 and both bools. |
| Validators.SecondValidator | filterql/validators.py:45-49 | Passes exactly ints 0..60, the leap second included, and both bools. So -1 and 61 fail. |
| Validators.IsNullValidator | filterql/validators.py:52-55 | Passes exactly the booleans, so the string `null` fails with the isnull message. |
| Validators.ValidatorFor | filterql/validators.py:58-69 | Each of month, week, day, hour, minute, second and isnull selects its own validator, and no other lookup has one. All seven are registered lookups. |
| Codec.DigitChar | filterql/utils.py:92 | Each digit written by isoformat is an ASCII digit. |
| Codec.IsoFormat | filterql/utils.py:92 | `date.isoformat()` is ten characters: four digits, a dash, two digits, a dash and two digits. |
| Codec.ParseIsoDate | filterql/utils.py:60-70 | strptime with `%Y-%m-%d` only accepts 8 to 10 characters: four digits, the year they spell, then a dash. The result is a valid calendar date. |
| Codec.IsoDateRoundTrip | filterql/utils.py:60-70 | `decode_date(d.isoformat()) == d` for every date. |
| Codec.IsoDateReadBack | filterql/utils.py:60-70 | Conversely, `decode_date(s).isoformat() == s` for every ten-character text it accepts, unless the day is written with a leading blank. |
| Codec.DigitsSpellIsoFormat | filterql/utils.py:92 | A ten-character text whose digits spell a date's year, month and day is that date's isoformat. |
| Codec.DateTimeTextIsNotADate | filterql/utils.py:70 | A datetime's isoformat text, a date followed by `T` and a time, is refused by the date decoder. |
| Codec.Encoded | filterql/utils.py:91-94 | ENCODERS has an entry exactly for date and datetime. A date is encoded as its isoformat text. |
| Codec.TypeTag | filterql/lookup.py:236-237 | A leaf writes a `_type` tag exactly for the types ENCODERS knows: `date` for a date and `datetime` for a datetime, the type's name. |
| Codec.Default | filterql/utils.py:14-28 | `TypeEncoder.default` returns the encoder's string for a registered type. It raises TypeError for the object itself otherwise. |
| Codec.DecoderFor | filterql/utils.py:86-89 | DECODERS knows exactly the tags `date` and `datetime`. `date` selects decode_date and `datetime` selects decode_datetime. |
| Codec.TagRoundTrip | filterql/utils.py:86-94 | The tag a leaf writes names a decoder. For a date, that decoder undoes the encoder. |
| Codec.TypeDecode | filterql/utils.py:31-57 | The dict is unchanged when `_type` is absent, falsy or unregistered. On success only `_value` may change. A failing decoder gives DecodeException with the tag and the raw value. Failure needs a truthy tag. |
| Codec.TaggedDateDecodes | filterql/utils.py:47-52 | A dict tagged `date` that holds a date's isoformat decodes to that date. |
| Codec.TagWithoutValueEscapes | filterql/utils.py:51-56 | `{_type: "date"}` without `_value` ends in a KeyError, not a DecodeException. |
| Codec.TypeDecodeFixed | filterql/utils.py:51-56 | Corrected handler: it agrees with type_decoder whenever `_value` is present. Every failure of a registered decoder is a DecodeException naming the tag. |
| Codec.Mapping.constructor | filterql/utils.py:31 | A mutable dict holding the given entries. |
| Codec.TypeDecoder | filterql/utils.py:47-57 | Overwrites `_value` in place and returns the same dict, with the entries TypeDecode gives. On failure the dict is left untouched. |
| Lookup.ValidateLookup | filterql/lookup.py:241-252 | Fails with UnsupportedLookupException, carrying the registry, exactly when the lookup is not registered. |
| Lookup.ValidateValue | filterql/lookup.py:254-267 | Runs the registered validator and passes any value when there is none. |
| Lookup.LeafFilter | filterql/lookup.py:226-237 | The leaf dict carries field, lookup and value. It has a `_type` key exactly when the value's type is in ENCODERS. |
| Lookup.NewLeaf | filterql/lookup.py:218-239 | An unsupported lookup fails first, then a validator failure. Both checks are skipped without validation. On success the result is a fresh, non-negated AND leaf holding the one filter dict. |
| Lookup.MonthRangeIsChecked | filterql/validators.py:17-21 | `Lookup('f', 13, 'month')` fails with the month message, and `Lookup('f', 12, 'month')` is built. |
| Lookup.DefaultLookupIsExact | filterql/lookup.py:218 | The default lookup `exact` is registered and has no validator, so every value is accepted. |
| Lookup.Forms | filterql/lookup.py:51 | The children's forms, in order: a leaf dict as it is, a node by its own to_dict. |
| Lookup.ToDict | filterql/lookup.py:43-56 | to_dict has exactly one key. `_not` is present exactly when the node is negated. Inside, the only key is the connector, mapped to the children's forms in order. |
| Lookup.RootOf | filterql/lookup.py:94-118 | The root checks of from_dict. InvalidFormat when the root does not have one key, when the `_not` payload does not have one key, or when the key is not `_and`/`_or`. On success the payload sits under that key. |
| Lookup.FromDict | filterql/lookup.py:80-142 | The root-check errors come first. A node read back is plain, not a leaf, and has the root's connector and negation. It has one child per payload entry when the payload is a list, and none otherwise. |
| Lookup.FromDictReadsEachEntry | filterql/lookup.py:120-142 | Child k of the node from_dict builds is payload entry k, read on its own. |
| Lookup.NodeFrom | filterql/lookup.py:120-142 | The node built from the payload has the given connector and negation and is not a leaf. A list payload succeeds exactly when its loop does: child k is entry k read on its own, and otherwise the loop's error is raised. Any other successful payload gives no children. |
| Lookup.ParseEntries | filterql/lookup.py:123-135 | The loop yields one child per entry, and each child is its entry read on its own. |
| Lookup.FirstBadEntryStops | filterql/lookup.py:123-135 | The loop raises the error of the first entry that fails. |
| Lookup.BadEntryRejectsWholeDict | filterql/lookup.py:120-135 | One bad entry anywhere in the payload, after entries that all read, makes the whole from_dict fail with its error. A dict that is neither a node nor a leaf, or a string, raises InvalidFormat of that entry. This holds under `_and`, `_or` and `_not` alike. |
| Lookup.ParseEntry | filterql/lookup.py:125-135 | A dict with exactly the leaf keys, with or without `_type`, becomes a leaf child. A dict that is neither a node nor a leaf, or a string, raises InvalidFormat. Only dicts are accepted. |
| Lookup.ListEntry | filterql/lookup.py:127-135 | A list entry never yields a child. |
| Lookup.AddTo | filterql/lookup.py:150-173 | A duplicate leaf leaves the children unchanged, negated or not. Otherwise a non-negated operand with the same connector or a single child is spliced in, and anything else is appended as one child. Existing children always stay in front, in order. |
| Lookup.Combined | filterql/lookup.py:181-204 | `&` and `|` give a fresh, non-negated node with the requested connector. |
| Lookup.Inverted | filterql/lookup.py:206-210 | On a node: a fresh AND node absorbs the operand by add and is negated. On a leaf: a leaf rebuilt with validation, negated. |
| Lookup.DuplicateLeafIsSquashed | filterql/lookup.py:162-164 | `L(a) & L(a)` and `L(a) & L(a) & L(a)` keep exactly the one filter, and so do the OR forms. |
| Lookup.NegatedDuplicateIsDropped | filterql/lookup.py:163-164 | `L(a) & ~L(a)` keeps only `a`: negation plays no part in the duplicate test. |
| Lookup.SameConnectorChainIsFlat | filterql/lookup.py:166-171 | `L(a) & L(b) & L(c)` with distinct filters is one AND node with the three filters in order. |
| Lookup.MixedConnectorsNest | filterql/lookup.py:170-173 | `(L(a) & L(b)) | L(c)` has the AND pair as one nested child, in either operand order. |
| Lookup.NegatedLeafForm | filterql/lookup.py:53-54 | `~L(a)` is written `{_not: {_and: [a]}}`. |
| Lookup.Plain | filterql/lookup.py:137-140 | from_dict builds plain nodes. Plain is the tree without its leaf markers, with the same number of children. |
| Lookup.FromDictInvertsToDict | filterql/lookup.py:43-142 | For every well-formed tree, `from_dict(to_dict(n))` rebuilds the children in order, the connector and the negation, as a plain node. |
| Lookup.EntriesRoundTrip | filterql/lookup.py:123-135 | Each child's form is read back to the same child, from any position on. |
| Lookup.PlainHasSameForm | filterql/lookup.py:43-56 | Leaf markers do not show in to_dict. |
| Lookup.CanonicalFormRoundTrip | filterql/lookup.py:43-142 | `from_dict(to_dict(n)).to_dict() == to_dict(n)` for every well-formed tree. |
| Lookup.AddToKeepsWellFormed | filterql/lookup.py:170-173 | add keeps every leaf dict well-formed. |
| Lookup.BuiltTreesAreWellFormed | filterql/lookup.py:181-272 | Every tree built with L, &, | and ~ is well-formed. |
| Lookup.BuiltTreesRoundTrip | filterql/lookup.py:43-272 | For every tree built with L, &, | and ~, from_dict(to_dict(n)) gives n as a plain node, with the same to_dict. |
| LookupObjects.LookupNode.constructor | filterql/lookup.py:26-41 | A copy of the given children, with the connector (AND when none is given) and the negation. The node is not a leaf. |
| LookupObjects.LookupNode.Leaf | filterql/lookup.py:226-239 | The leaf object: one filter dict, AND, not negated, keeping its arguments. |
| LookupObjects.LookupNode.NewLookup | filterql/lookup.py:218-239 | A fresh leaf object exactly when NewLeaf succeeds, with NewLeaf's error otherwise. |
| LookupObjects.LookupNode.Len | filterql/lookup.py:144-148 | `len(node)` is the number of direct children. |
| LookupObjects.LookupNode.Add | filterql/lookup.py:150-173 | Only this node's children change, to AddTo of the old children and the operand. Connector, negation and the operand itself are unchanged. |
| LookupObjects.LookupNode.Negate | filterql/lookup.py:175-179 | Flips the negation and nothing else. |
| LookupObjects.LookupNode.Combine | filterql/lookup.py:181-198 | A fresh node equal to Combined of both operands. |
| LookupObjects.LookupNode.AndWith | filterql/lookup.py:203-204 | `a & b` is a fresh node equal to Combined with AND. |
| LookupObjects.LookupNode.OrWith | filterql/lookup.py:200-201 | `a | b` is a fresh node equal to Combined with OR. |
| LookupObjects.LookupNode.Invert | filterql/lookup.py:206-210 | `~n` is a fresh node equal to Inverted. For a leaf (lines 269-272) it is the revalidated, negated copy, or the validation error. |
| LookupObjects.LookupNode.FromDictNode | filterql/lookup.py:80-142 | Returns a fresh node equal to what FromDict gives, or FromDict's error. |
| LookupObjects.LookupNode.ParseChildren | filterql/lookup.py:122-135 | The loop over the payload list returns exactly ParseEntries: the children in order, or the first entry's error. |
| Meaning.SplicedChildrenKeepMeaning | filterql/lookup.py:166-171 | Splicing is sound: the spliced children, joined by the target connector, mean what the operand meant. |
| Meaning.AddToFixed | filterql/lookup.py:162-173 | Corrected add: existing children stay in front, and only a non-negated single-filter leaf counts as a duplicate. |
| Meaning.CombinedFixed | filterql/lookup.py:181-198 | `_combine` on the corrected rule: a fresh, non-negated node with the connector. |
| Meaning.AddToAgreesOffNegatedLeaves | filterql/lookup.py:162-173 | The corrected add equals add for every node operand and every non-negated single-filter leaf. |
| Meaning.AddToFixedMeaning | filterql/lookup.py:162-173 | Under the corrected add, the node means its old children joined with the operand by the connector. |
| Meaning.CombinedFixedMeaning | filterql/lookup.py:181-204 | With the corrected add, `a & b` holds exactly when both hold and `a | b` when either does. |
| Meaning.CombinedMeaningOffNegatedLeaves | filterql/lookup.py:181-204 | As written, `&` and `|` mean what they should whenever the right operand is not a negated leaf. |
| Meaning.AndWithOwnNegationHolds | filterql/lookup.py:163-164 | As written, `L(a) & ~L(a)` holds for a record that passes `a`, although `a` and `~a` cannot both hold. |
| Meaning.InvertedFixed | filterql/lookup.py:269-272 | Corrected `~`: a leaf copy with its negation toggled, which never fails. Nodes are handled as LookupNode.__invert__ does. |
| Meaning.InvertedFixedMeaning | filterql/lookup.py:206-210 | `~t` holds exactly when `t` does not, for nodes and leaves. |
| Meaning.InvertedNodeMeaning | filterql/lookup.py:206-210 | As written, `~` on a node equals the corrected one and means negation. |
| Meaning.DoubleInversionStaysNegated | filterql/lookup.py:269-272 | As written, `~~L(a)` equals `~L(a)`, so it fails for a record that passes `a`. |
| Meaning.InvertingUnvalidatedLeafFails | filterql/lookup.py:270 | As written, `~` on a leaf built with `validate=False` and lookup `spindle` raises UnsupportedLookupException. |
| LookupJson.Jsonify | filterql/lookup.py:65 | The JSON value json.dumps writes contains no date, datetime or foreign object, at any depth. |
| LookupJson.Unencodable | filterql/utils.py:23-28 | The object dumps raises TypeError for is one that TypeEncoder.default refuses. |
| LookupJson.Dumps | filterql/lookup.py:58-65 | dumps succeeds exactly when every value in to_dict is writable. Otherwise it raises default's TypeError. |
| LookupJson.Members | filterql/lookup.py:78 | An object's members once each has been read: the same keys, each read by the hook. |
| LookupJson.FromJson | filterql/lookup.py:67-78 | An object-hook error comes first. A node read is what from_dict makes of the decoded value. |
| LookupJson.SurvivorsRoundTrip | filterql/utils.py:31-94 | JSON scalars, lists and dicts, with dates under a `date` tag, are written without error. The object hook reads them back unchanged. |
| LookupJson.HookRestoresMembers | filterql/utils.py:47-52 | type_decoder turns the members read back into the original dict, date included. |
| LookupJson.LeafFilterSurvives | filterql/lookup.py:226-237 | A leaf whose value is a JSON scalar, a list of them, or a date writes a dict that survives JSON. |
| LookupJson.CanonicalFormSurvives | filterql/lookup.py:43-56 | The canonical form of a tree whose leaf dicts survive JSON also survives. |
| LookupJson.FromJsonInvertsDumps | filterql/lookup.py:58-78 | `from_json(dumps(n))` rebuilds n as a plain node, dates included. |
| LookupJson.UnencodableLeafFailsDumps | filterql/utils.py:23-28 | A leaf holding an object JSON cannot write makes dumps raise TypeError for that very object. |
| DjangoSerializer.ConnectorName | filterql/serializers.py:9-12 | CONNECTOR_MAP sends `_and` to `AND` and `_or` to `OR`. |
| DjangoSerializer.ConvertFilter | filterql/serializers.py:67-88 | Missing keys raise KeyError in the order field, value, lookup. An exact lookup gives the bare field; any other gives field, delimiter, lookup. The value passes unchanged. |
| DjangoSerializer.SplitInvertsConvert | filterql/serializers.py:81-86 | Splitting at the first delimiter gives back the field and lookup (`exact` for a bare field), when the field does not run into the delimiter. Django's split is the reference definition `FindFrom`, the first occurrence of the delimiter. |
| DjangoSerializer.Deserialize | filterql/serializers.py:33-65 | The Q node has the connector under its Django name and the negation copied. |
| DjangoSerializer.DeserializeFrom | filterql/serializers.py:54-58 | The loop yields one Q child per filter. |
| DjangoSerializer.DeserializeNode | filterql/serializers.py:33-65 | The loop appending one child per filter returns exactly Deserialize. |
| DjangoSerializer.DeserializeKeepsShape | filterql/serializers.py:54-58 | Q children match the filters one to one and in order: a condition from _convert_filter for a dict, a nested Q for a node. |
| DjangoSerializer.ConvertibleTreesDeserialize | filterql/serializers.py:33-88 | deserialize succeeds on every tree whose leaf dicts have all three keys, with string field and lookup. |
| DjangoSerializer.LeafDeserializes | filterql/serializers.py:67-88 | A leaf becomes the single condition `field` or `field__lookup` with its value, under AND, not negated. |
| DjangoSerializer.YearLeafDeserializes | filterql/serializers.py:33-88 | Under Django's `__`, `Lookup('created', 2017, 'year')` becomes `Q(created__year=2017)`. |

## Left out

- JSON text (simplejson's parser and printer, key order, `use_decimal`): the model works on JSON values. Floats stay `Float` where simplejson would give `Decimal`.
- `decode_datetime`: dateutil's `parser.parse` is the parameter `DateTimeParser`. Datetimes are kept as their isoformat text. The JSON round trip is proved for dates and plain JSON values, not for datetimes.
- Django's `Q` class and the lazy `LOOKUP_SEP` import: `QNode` and a `delimiter` parameter stand for them.
- Exception messages: traceback text, dict `repr`s, and the text of UnsupportedLookupException. Errors are datatype variants carrying the offending data. Where Python raises for the first key of a non-empty dict payload (lookup.py:123-135), `InvalidFormat` carries the whole dict, because dict key order is not modelled. The validator messages are kept verbatim.
- The `isinstance` checks on the `LookupNode` constructor arguments and the TypeError `_combine` raises for a non-node operand: Dafny's types exclude those inputs.
- `LookupObjects.LookupNode.Add`: children are stored as tree values, not references. Mutating an object after adding it does not change the node it was added to, and adding a node to itself does not create a cycle. Python shares the object in both cases.
- Lookup.ListEntry: a list entry whose items are exactly the leaf keys is accepted by Python as a leaf child that is a list. The model reports `UnmodelledEntry` for it instead.
- Validators.AsInteger: Python 3 integers are modelled. Under Python 2.7, an integer beyond `sys.maxint` is a `long`, so validators.py:6 would reject it with the integer message, where the model reports the range message.
- Values.PyEq: floats are exact reals. Comparisons between dates and datetimes, and user-defined `__eq__`, are not modelled. Opaque objects compare by identity.
- Codec.ParseIsoDate: only ASCII digits are accepted, where Python's `\d` also accepts other Unicode decimal digits.
- DjangoSerializer.ConvertFilter: `str()` of a non-string field or lookup is not modelled. Such a filter gives `NotText` instead of Python's formatted text.
- LookupJson.DecodeAll: when several members of an object fail to decode, the model leaves open which error is reported. Python reports the first in text order.
- Meaning: the boolean reading is the intended meaning of `&`, `|` and `~`. An empty AND holds and an empty OR does not. Django's treatment of empty `Q` objects is not part of this model.
- filterql/exceptions.py, filterql/__init__.py and setup.py are not part of this model. The exceptions are the error variants.

## Findings

The objects in `LookupObjects` model the code as written. `Meaning` states the corrected rules next to it.

| source | as written | input that shows it | evidently intended | confidence | as-written member | corrected member |
|---|---|---|---|---|---|---|
| filterql/lookup.py:163-164 | The duplicate test ignores the operand's negation, so a negated leaf whose filter is already present is dropped | `L('a', 1) & ~L('a', 1)` gives a node holding only `a` | only a non-negated duplicate is dropped, so the expression never holds | not executed | Meaning.AndWithOwnNegationHolds | Meaning.CombinedFixedMeaning |
| filterql/lookup.py:269-272 | `~` on a Lookup always sets `negated = True` on a fresh copy | `~~L('a', 1)` equals `~L('a', 1)` | double negation gives back `L('a', 1)` | not executed | Meaning.DoubleInversionStaysNegated | Meaning.InvertedFixedMeaning |
| filterql/lookup.py:270 | `~` on a Lookup rebuilds it with validation on | `~L('f', 'x', 'spindle', validate=False)` raises UnsupportedLookupException | the copy keeps the original's validation choice, so `~` never fails | not executed | Meaning.InvertingUnvalidatedLeafFails | Meaning.InvertedFixed |
| filterql/utils.py:51-56 | The error handler reads `dct['_value']` again, so a missing value raises KeyError inside the handler | `{'_type': 'date'}` ends in KeyError | a DecodeException naming the tag | not executed | Codec.TagWithoutValueEscapes | Codec.TypeDecodeFixed |

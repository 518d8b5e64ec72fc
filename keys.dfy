/** The reserved keys of the canonical dict form; every one carries the `_` prefix (KEY_PREFIX). */
module Keys {

  const KeyPrefix := "_"

  const FieldKey := "_field"
  const LookupKey := "_lookup"
  const ValueKey := "_value"
  const TypeKey := "_type"

  const AndKey := "_and"
  const OrKey := "_or"
  const NotKey := "_not"

  /** A one-entry dict has exactly the key it is known to contain. */
  lemma SingleKey<V>(m: map<string, V>, k: string)
    requires |m| == 1 && k in m
    ensures m.Keys == {k}
  {
    var rest := m.Keys - {k};
    assert |rest| == 0;
  }
}

/**
 * The value-type codec: `date` and `datetime` values are written as ISO-8601
 * text and tagged with their type name, and a tagged mapping is decoded back.
 */
module Codec {

  import opened Wrappers
  import opened Values
  import opened Keys

  // ---------------------------------------------------------------------------
  // Dates as ISO-8601 text

  predicate IsDigit(c: char) {
    '0' <= c <= '9'
  }

  function DigitChar(n: int): (c: char)
    requires 0 <= n < 10
    ensures IsDigit(c)
  {
    ('0' as int + n) as char
  }

  function DigitValue(c: char): int
    requires IsDigit(c)
  {
    c as int - '0' as int
  }

  /** `%02d` for 0 <= n < 100. */
  function Pad2(n: int): string
    requires 0 <= n < 100
  {
    [DigitChar(n / 10), DigitChar(n % 10)]
  }

  /** `%04d` for 0 <= n < 10000. */
  function Pad4(n: int): string
    requires 0 <= n < 10000
  {
    [DigitChar(n / 1000), DigitChar(n / 100 % 10), DigitChar(n / 10 % 10), DigitChar(n % 10)]
  }

  /** date.isoformat(): `YYYY-MM-DD`, every part zero-padded. */
  function IsoFormat(d: CalendarDate): (s: string)
    ensures |s| == 10 && s[4] == '-' && s[7] == '-'
    ensures forall i :: 0 <= i < 10 && i != 4 && i != 7 ==> IsDigit(s[i])
  {
    Pad4(d.year) + "-" + Pad2(d.month) + "-" + Pad2(d.day)
  }

  /**
   * The `%m` group of strptime, `1[0-2]|0[1-9]|[1-9]`, followed by the `-` of the
   * format: the month and the number of characters it took. At most one
   * alternative can be followed by `-`, so the choice is unambiguous.
   */
  function MatchMonth(t: string): Option<(int, nat)> {
    if |t| >= 3 && t[0] == '1' && '0' <= t[1] <= '2' && t[2] == '-' then Some((10 + DigitValue(t[1]), 2))
    else if |t| >= 3 && t[0] == '0' && '1' <= t[1] <= '9' && t[2] == '-' then Some((DigitValue(t[1]), 2))
    else if |t| >= 2 && '1' <= t[0] <= '9' && t[1] == '-' then Some((DigitValue(t[0]), 1))
    else None
  }

  /**
   * The `%d` group, `3[01]|[12]\d|0[1-9]|[1-9]| [1-9]`, which must reach the end
   * of the text (strptime refuses "unconverted data").
   */
  function MatchDay(t: string): Option<int> {
    if |t| == 2 && t[0] == '3' && '0' <= t[1] <= '1' then Some(30 + DigitValue(t[1]))
    else if |t| == 2 && '1' <= t[0] <= '2' && IsDigit(t[1]) then Some(10 * DigitValue(t[0]) + DigitValue(t[1]))
    else if |t| == 2 && t[0] == '0' && '1' <= t[1] <= '9' then Some(DigitValue(t[1]))
    else if |t| == 1 && '1' <= t[0] <= '9' then Some(DigitValue(t[0]))
    else if |t| == 2 && t[0] == ' ' && '1' <= t[1] <= '9' then Some(DigitValue(t[1]))
    else None
  }

  /**
   * decode_date: `datetime.strptime(s, '%Y-%m-%d').date()`. `%Y` is exactly four
   * digits; the date must then exist (so year 0000 or 2017-02-30 fail).
   */
  function ParseIsoDate(s: string): (r: Option<CalendarDate>)
    ensures r.Some? ==> 8 <= |s| <= 10 && s[4] == '-'
    ensures r.Some? ==> IsDigit(s[0]) && IsDigit(s[1]) && IsDigit(s[2]) && IsDigit(s[3])
    ensures r.Some? ==>
      r.value.year == 1000 * DigitValue(s[0]) + 100 * DigitValue(s[1]) + 10 * DigitValue(s[2]) + DigitValue(s[3])
  {
    if |s| < 5 || !(IsDigit(s[0]) && IsDigit(s[1]) && IsDigit(s[2]) && IsDigit(s[3])) || s[4] != '-' then None
    else
      var year := 1000 * DigitValue(s[0]) + 100 * DigitValue(s[1]) + 10 * DigitValue(s[2]) + DigitValue(s[3]);
      match MatchMonth(s[5..])
      case None => None
      case Some((month, width)) =>
        match MatchDay(s[5 + width + 1..])
        case None => None
        case Some(day) =>
          var d := Date(year, month, day);
          if ValidDate(d) then Some(d) else None
  }

  lemma FourDigits(n: int)
    requires 0 <= n < 10000
    ensures 1000 * (n / 1000) + 100 * (n / 100 % 10) + 10 * (n / 10 % 10) + n % 10 == n
  {
    assert n == 10 * (n / 10) + n % 10;
    assert n / 10 == 10 * (n / 100) + n / 10 % 10;
    assert n / 100 == 10 * (n / 1000) + n / 100 % 10;
  }

  /** decode_date(isoformat(d)) == d for every date. */
  lemma {:induction false} IsoDateRoundTrip(d: CalendarDate)
    ensures ParseIsoDate(IsoFormat(d)) == Some(d)
  {
    var s := IsoFormat(d);
    FourDigits(d.year);
    assert s[5..] == Pad2(d.month) + "-" + Pad2(d.day);
    assert MatchMonth(s[5..]) == Some((d.month, 2));
    assert s[8..] == Pad2(d.day);
    assert MatchDay(s[8..]) == Some(d.day);
  }

  lemma DigitCharOfValue(c: char)
    requires IsDigit(c)
    ensures DigitChar(DigitValue(c)) == c
  {
  }

  lemma Pad2Reads(a: int, b: int)
    requires 0 <= a < 10 && 0 <= b < 10
    ensures Pad2(10 * a + b) == [DigitChar(a), DigitChar(b)]
  {
  }

  lemma Pad4Reads(a: int, b: int, c: int, d: int)
    requires 0 <= a < 10 && 0 <= b < 10 && 0 <= c < 10 && 0 <= d < 10
    ensures Pad4(1000 * a + 100 * b + 10 * c + d) == [DigitChar(a), DigitChar(b), DigitChar(c), DigitChar(d)]
  {
    var n := 1000 * a + 100 * b + 10 * c + d;
    assert n / 10 == 100 * a + 10 * b + c;
    assert n / 100 == 10 * a + b;
    assert n / 1000 == a;
  }

  /** A ten-character text whose digits spell a date's fields is that date's isoformat. */
  lemma {:induction false} DigitsSpellIsoFormat(s: string, d: CalendarDate)
    requires |s| == 10 && s[4] == '-' && s[7] == '-'
    requires forall i | 0 <= i < 10 && i != 4 && i != 7 :: IsDigit(s[i])
    requires d.year == 1000 * DigitValue(s[0]) + 100 * DigitValue(s[1]) + 10 * DigitValue(s[2]) + DigitValue(s[3])
    requires d.month == 10 * DigitValue(s[5]) + DigitValue(s[6])
    requires d.day == 10 * DigitValue(s[8]) + DigitValue(s[9])
    ensures IsoFormat(d) == s
  {
    Pad4Reads(DigitValue(s[0]), DigitValue(s[1]), DigitValue(s[2]), DigitValue(s[3]));
    Pad2Reads(DigitValue(s[5]), DigitValue(s[6]));
    Pad2Reads(DigitValue(s[8]), DigitValue(s[9]));
    forall i | 0 <= i < 10 && i != 4 && i != 7 ensures DigitChar(DigitValue(s[i])) == s[i] {
      DigitCharOfValue(s[i]);
    }
    var r := IsoFormat(d);
    assert r == Pad4(d.year) + "-" + Pad2(d.month) + "-" + Pad2(d.day);
    forall i | 0 <= i < 10 ensures r[i] == s[i] {
    }
  }

  /**
   * isoformat(decode_date(s)) == s for every ten-character text decode_date accepts
   * whose day is not written with a leading blank: the text names the date digit by digit.
   */
  lemma {:induction false} IsoDateReadBack(s: string)
    requires ParseIsoDate(s).Some? && |s| == 10 && s[8] != ' '
    ensures IsoFormat(ParseIsoDate(s).value) == s
  {
    var d := ParseIsoDate(s).value;
    var t := s[5..];
    var (month, width) := MatchMonth(t).value;
    assert t[0] == s[5] && t[1] == s[6] && t[2] == s[7];
    assert d.month == month == 10 * DigitValue(s[5]) + DigitValue(s[6]) && s[7] == '-';
    var u := s[8..];
    assert u == s[5 + width + 1..];
    assert u[0] == s[8] && u[1] == s[9];
    assert d.day == 10 * DigitValue(s[8]) + DigitValue(s[9]);
    DigitsSpellIsoFormat(s, d);
  }

  /** A datetime's isoformat text (date, `T`, time) is refused by the date parser. */
  lemma {:induction false} DateTimeTextIsNotADate(d: CalendarDate, time: string)
    ensures ParseIsoDate(IsoFormat(d) + "T" + time) == None
  {
    var s := IsoFormat(d) + "T" + time;
    assert s[5..] == Pad2(d.month) + "-" + Pad2(d.day) + "T" + time;
    assert MatchMonth(s[5..]) == Some((d.month, 2));
    assert |s[8..]| >= 3;
  }

  // ---------------------------------------------------------------------------
  // The ENCODERS and DECODERS tables

  /** ENCODERS.get(type(v)): an isoformat encoder for date and datetime, keyed by exact type. */
  function Encoded(v: Value): (r: Option<Value>)
    ensures r.Some? <==> v.PyDate? || v.PyDateTime?
    ensures v.PyDate? ==> r == Some(Str(IsoFormat(v.date)))
  {
    match v
    case PyDate(d) => Some(Str(IsoFormat(d)))
    case PyDateTime(stamp) => Some(Str(stamp))
    case _ => None
  }

  /** `type(v).__name__`, the tag a leaf writes under `_type`, for the types ENCODERS knows. */
  function TypeTag(v: Value): (r: Option<string>)
    ensures r.Some? <==> Encoded(v).Some?
    ensures r == Some("date") <==> v.PyDate?
    ensures r == Some("datetime") <==> v.PyDateTime?
  {
    match v
    case PyDate(_) => Some("date")
    case PyDateTime(_) => Some("datetime")
    case _ => None
  }

  datatype EncodeError = TypeError(unencodable: Value)

  /** TypeEncoder.default: registered types go through their encoder, all others raise TypeError. */
  function Default(v: Value): (r: Result<Value, EncodeError>)
    ensures r.Success? <==> Encoded(v).Some?
    ensures r.Success? ==> r.value.Str? && r == Success(Encoded(v).value)
    ensures r.Failure? ==> r.error == TypeError(v)
  {
    match Encoded(v)
    case Some(x) => Success(x)
    case None => Failure(TypeError(v))
  }

  datatype Decoder = DateDecoder | DateTimeDecoder

  /** DECODERS.get(tag): the two type names. */
  function DecoderFor(tag: string): (r: Option<Decoder>)
    ensures r.Some? <==> tag == "date" || tag == "datetime"
    ensures r == Some(DateDecoder) <==> tag == "date"
    ensures r == Some(DateTimeDecoder) <==> tag == "datetime"
  {
    if tag == "date" then Some(DateDecoder)
    else if tag == "datetime" then Some(DateTimeDecoder)
    else None
  }

  /**
   * dateutil's `parser.parse`, which this model does not contain: it maps a text to
   * the isoformat text of the datetime it denotes, or to None when it raises.
   */
  type DateTimeParser = string -> Option<string>

  /** Runs a decoder; None when it raises (a non-string value makes both raise TypeError). */
  function DecodeWith(decoder: Decoder, raw: Value, parseDateTime: DateTimeParser): Option<Value> {
    match (decoder, raw)
    case (DateDecoder, Str(s)) =>
      (match ParseIsoDate(s) case Some(d) => Some(PyDate(d)) case None => None)
    case (DateTimeDecoder, Str(s)) =>
      (match parseDateTime(s) case Some(stamp) => Some(PyDateTime(stamp)) case None => None)
    case _ => None
  }

  /** The tag a leaf writes names a decoder, and for a date that decoder undoes the encoder. */
  lemma TagRoundTrip(v: Value, parseDateTime: DateTimeParser)
    requires TypeTag(v).Some?
    ensures DecoderFor(TypeTag(v).value).Some?
    ensures v.PyDate? ==> DecodeWith(DecoderFor(TypeTag(v).value).value, Encoded(v).value, parseDateTime) == Some(v)
  {
    if v.PyDate? {
      IsoDateRoundTrip(v.date);
    }
  }

  // ---------------------------------------------------------------------------
  // type_decoder

  datatype DecodeError =
    | DecodeException(tag: string, raw: Value)   // the decoder raised
    | MissingValue(missingTag: string)           // KeyError from the handler itself
    | UnhashableTag(badTag: Value)               // TypeError from DECODERS.get

  /**
   * type_decoder on a mapping's entries: when `_type` is present, truthy and names
   * a decoder, `_value` is replaced by its decoded form.
   */
  function TypeDecode(m: map<string, Value>, parseDateTime: DateTimeParser): (r: Result<map<string, Value>, DecodeError>)
    ensures TypeKey !in m || !Truthy(m[TypeKey]) ==> r == Success(m)
    ensures TypeKey in m && m[TypeKey].Str? && DecoderFor(m[TypeKey].s).None? ==> r == Success(m)
    ensures r.Success? ==> r.value.Keys == m.Keys && forall k :: k in m && k != ValueKey ==> r.value[k] == m[k]
    ensures r.Failure? ==> TypeKey in m && Truthy(m[TypeKey])
    ensures r.Failure? && r.error.DecodeException? ==>
      m[TypeKey] == Str(r.error.tag) && ValueKey in m && r.error.raw == m[ValueKey]
    ensures TypeKey in m && m[TypeKey].Str? && DecoderFor(m[TypeKey].s).Some? && ValueKey in m ==>
      match DecodeWith(DecoderFor(m[TypeKey].s).value, m[ValueKey], parseDateTime)
      case Some(x) => r == Success(m[ValueKey := x])
      case None => r == Failure(DecodeException(m[TypeKey].s, m[ValueKey]))
  {
    if TypeKey !in m || !Truthy(m[TypeKey]) then Success(m)
    else
      var tag := m[TypeKey];
      if !Hashable(tag) then Failure(UnhashableTag(tag))
      else if !tag.Str? || DecoderFor(tag.s).None? then Success(m)
      else if ValueKey !in m then Failure(MissingValue(tag.s))
      else
        match DecodeWith(DecoderFor(tag.s).value, m[ValueKey], parseDateTime)
        case Some(x) => Success(m[ValueKey := x])
        case None => Failure(DecodeException(tag.s, m[ValueKey]))
  }

  /** A date written by the encoder under its tag decodes back to the same date. */
  lemma TaggedDateDecodes(m: map<string, Value>, d: CalendarDate, parseDateTime: DateTimeParser)
    requires TypeKey in m && m[TypeKey] == Str(TypeTag(PyDate(d)).value)
    requires ValueKey in m && m[ValueKey] == Encoded(PyDate(d)).value
    ensures TypeDecode(m, parseDateTime) == Success(m[ValueKey := PyDate(d)])
  {
    TagRoundTrip(PyDate(d), parseDateTime);
  }

  /** As written, a registered tag without `_value` ends in a KeyError, not a DecodeException. */
  lemma TagWithoutValueEscapes(parseDateTime: DateTimeParser)
    ensures TypeDecode(map[TypeKey := Str("date")], parseDateTime) == Failure(MissingValue("date"))
    ensures !TypeDecode(map[TypeKey := Str("date")], parseDateTime).error.DecodeException?
  {
    assert DecoderFor("date") == Some(DateDecoder);
  }

  /**
   * type_decoder with the error handler reading the raw value as `dct.get(_value)`:
   * every failure of a registered decoder is a DecodeException naming the tag.
   */
  function TypeDecodeFixed(m: map<string, Value>, parseDateTime: DateTimeParser): (r: Result<map<string, Value>, DecodeError>)
    ensures ValueKey in m ==> r == TypeDecode(m, parseDateTime)
    ensures r.Failure? ==> r.error.DecodeException? || r.error.UnhashableTag?
    ensures TypeKey in m && m[TypeKey].Str? && DecoderFor(m[TypeKey].s).Some? && r.Failure? ==>
      r.error == DecodeException(m[TypeKey].s, if ValueKey in m then m[ValueKey] else Null)
  {
    if TypeKey in m && m[TypeKey].Str? && DecoderFor(m[TypeKey].s).Some? && ValueKey !in m then
      Failure(DecodeException(m[TypeKey].s, Null))
    else TypeDecode(m, parseDateTime)
  }

  /** A mutable Python dict. */
  class Mapping {
    var entries: map<string, Value>

    constructor (entries: map<string, Value>)
      ensures this.entries == entries
    {
      this.entries := entries;
    }
  }

  /** type_decoder as the JSON object hook runs it: it overwrites `_value` in place and returns the same dict. */
  method TypeDecoder(dct: Mapping, parseDateTime: DateTimeParser) returns (r: Result<Mapping, DecodeError>)
    modifies dct
    ensures r.Success? ==> r.value == dct && TypeDecode(old(dct.entries), parseDateTime) == Success(dct.entries)
    ensures r.Failure? ==> unchanged(dct) && TypeDecode(old(dct.entries), parseDateTime) == Failure(r.error)
  {
    if TypeKey in dct.entries && Truthy(dct.entries[TypeKey]) {
      var tag := dct.entries[TypeKey];
      if !Hashable(tag) {
        return Failure(UnhashableTag(tag));
      }
      if tag.Str? && DecoderFor(tag.s).Some? {
        if ValueKey !in dct.entries {
          return Failure(MissingValue(tag.s));
        }
        var decoded := DecodeWith(DecoderFor(tag.s).value, dct.entries[ValueKey], parseDateTime);
        if decoded.None? {
          return Failure(DecodeException(tag.s, dct.entries[ValueKey]));
        }
        dct.entries := dct.entries[ValueKey := decoded.value];
      }
    }
    r := Success(dct);
  }
}

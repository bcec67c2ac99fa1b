/**
 * Sidecar metadata and dates: the decoded JSON value of a sidecar, the
 * timestamp priority rule, and exiftool's `YYYY:MM:DD HH:MM:SS` layout.
 */
module Metadata {
  import opened Wrappers
  import opened PyText

  /** A value as `json.load` decodes it. A number with a fraction or an
      exponent becomes a Python float: `JReal` holds the value of that
      double (already rounded by the decoder), and `JNaN` stands for the
      `NaN` literal the decoder also accepts. */
  datatype Json =
    | JNull
    | JBool(b: bool)
    | JInt(i: int)
    | JReal(r: real)
    | JNaN
    | JString(s: string)
    | JArray(items: seq<Json>)
    | JObject(fields: map<string, Json>)

  const PhotoTakenKey := "photoTakenTime"
  const CreationKey := "creationTime"
  const TimestampKey := "timestamp"

  /** `int(x)` of a float: truncation toward zero. */
  function TruncateTowardZero(x: real): (t: int)
    ensures x >= 0.0 ==> 0 <= t && t as real <= x < t as real + 1.0
    ensures x < 0.0 ==> t <= 0 && t as real - 1.0 < x <= t as real
  {
    if x >= 0.0 then x.Floor else -((-x).Floor)
  }

  /** Python's `int(v)` on a decoded JSON value; None where it raises
      ValueError (a string that is not an integer, NaN) or TypeError (null,
      a list, an object). A bool is an int in Python. */
  function PyInt(v: Json): (r: Option<int>)
    ensures v.JInt? ==> r == Some(v.i)
    ensures v.JBool? ==> r == Some(if v.b then 1 else 0)
    ensures v.JReal? ==> r == Some(TruncateTowardZero(v.r))
    ensures v.JString? ==> r == ParseInt(v.s)
    ensures v.JNaN? || v.JNull? || v.JArray? || v.JObject? ==> r == None
  {
    match v
    case JNull => None
    case JBool(b) => Some(if b then 1 else 0)
    case JInt(i) => Some(i)
    case JReal(x) => Some(TruncateTowardZero(x))
    case JNaN => None
    case JString(s) => ParseInt(s)
    case JArray(_) => None
    case JObject(_) => None
  }

  /** `int(metadata[key]["timestamp"])`, None where that raises KeyError,
      TypeError or ValueError. */
  function TimestampField(metadata: map<string, Json>, key: string): (r: Option<int>)
    ensures key !in metadata ==> r == None
    ensures key in metadata && !metadata[key].JObject? ==> r == None
    ensures key in metadata && metadata[key].JObject? && TimestampKey !in metadata[key].fields ==> r == None
    ensures key in metadata && metadata[key].JObject? && TimestampKey in metadata[key].fields ==>
              r == PyInt(metadata[key].fields[TimestampKey])
  {
    if key in metadata && metadata[key].JObject? && TimestampKey in metadata[key].fields
    then PyInt(metadata[key].fields[TimestampKey])
    else None
  }

  /**
   * `parse_timestamp`, as an epoch second: the photo-taken time when it is
   * present and an integer, else the creation time under the same
   * condition, else None.
   */
  function ParseTimestamp(metadata: map<string, Json>): (r: Option<int>)
    ensures TimestampField(metadata, PhotoTakenKey).Some? ==> r == TimestampField(metadata, PhotoTakenKey)
    ensures TimestampField(metadata, PhotoTakenKey).None? ==> r == TimestampField(metadata, CreationKey)
    ensures r.None? <==> TimestampField(metadata, PhotoTakenKey).None? && TimestampField(metadata, CreationKey).None?
  {
    match TimestampField(metadata, PhotoTakenKey)
    case Some(ts) => Some(ts)
    case None => TimestampField(metadata, CreationKey)
  }

  /** A sidecar as the photo service writes it, a decimal string under
      `photoTakenTime.timestamp`, yields that number whatever the creation
      time says. */
  lemma PhotoTakenDecimalWins(metadata: map<string, Json>, ts: int)
    requires PhotoTakenKey in metadata && metadata[PhotoTakenKey].JObject?
    requires TimestampKey in metadata[PhotoTakenKey].fields
    requires metadata[PhotoTakenKey].fields[TimestampKey] == JString(DecimalString(ts))
    ensures ParseTimestamp(metadata) == Some(ts)
  {
    ParseDecimalString(ts);
  }

  /** A photo-taken timestamp that is not a number (here: a blank string)
      falls back to the creation time. */
  lemma BlankPhotoTakenFallsBack(metadata: map<string, Json>, ts: int)
    requires PhotoTakenKey in metadata && metadata[PhotoTakenKey] == JObject(map[TimestampKey := JString(" ")])
    requires CreationKey in metadata && metadata[CreationKey] == JObject(map[TimestampKey := JString(DecimalString(ts))])
    ensures ParseTimestamp(metadata) == Some(ts)
  {
    assert TimestampField(metadata, PhotoTakenKey) == None by {
      BlankIsNotANumber(" ");
    }
    assert TimestampField(metadata, CreationKey) == Some(ts) by {
      ParseDecimalString(ts);
    }
  }

  /** With neither field present there is no timestamp. */
  lemma NoTimeFields(metadata: map<string, Json>)
    requires PhotoTakenKey !in metadata && CreationKey !in metadata
    ensures ParseTimestamp(metadata) == None
  {
  }

  // ------------------------------------------------------------- dates

  predicate IsLeapYear(y: int)
  {
    y % 4 == 0 && (y % 100 != 0 || y % 400 == 0)
  }

  function DaysInMonth(y: int, m: int): int
    requires 1 <= m <= 12
  {
    if m == 2 then (if IsLeapYear(y) then 29 else 28)
    else if m == 4 || m == 6 || m == 9 || m == 11 then 30
    else 31
  }

  /** Civil date and time components, as a Python `datetime` holds them. */
  datatype Civil = Civil(year: int, month: int, day: int, hour: int, minute: int, second: int)
  {
    /** The ranges Python's `datetime` enforces. */
    predicate Valid()
    {
      && 1 <= year <= 9999
      && 1 <= month <= 12
      && 1 <= day <= DaysInMonth(year, month)
      && 0 <= hour < 24 && 0 <= minute < 60 && 0 <= second < 60
    }
  }

  type DateTime = c: Civil | c.Valid() witness Civil(1970, 1, 1, 0, 0, 0)

  function Pow10(w: nat): (p: nat)
    ensures p >= 1
  {
    if w == 0 then 1 else 10 * Pow10(w - 1)
  }

  /** The last w decimal digits of n, zero-padded (`%02d`, `%04d`). */
  function Pad(n: nat, w: nat): (s: string)
    ensures |s| == w
    ensures forall i :: 0 <= i < w ==> IsDigit(s[i])
  {
    if w == 0 then "" else Pad(n / 10, w - 1) + [DigitChar(n % 10)]
  }

  lemma {:induction false} PadValue(n: nat, w: nat)
    requires n < Pow10(w)
    ensures DigitsValue(Pad(n, w)) == n
  {
    if w > 0 {
      var q, d := n / 10, n % 10;
      assert n == 10 * q + d && 0 <= d < 10;
      assert q < Pow10(w - 1) by {
        var p := Pow10(w - 1);
        assert n < 10 * p;
      }
      PadValue(q, w - 1);
      var s := Pad(n, w);
      assert s[..w - 1] == Pad(q, w - 1);
      assert s[w - 1] == DigitChar(d);
      assert DigitsValue(s) == DigitsValue(Pad(q, w - 1)) * 10 + d;
    }
  }

  lemma {:induction false} ValuePad(t: string)
    requires forall i :: 0 <= i < |t| ==> IsDigit(t[i])
    ensures DigitsValue(t) < Pow10(|t|)
    ensures Pad(DigitsValue(t), |t|) == t
  {
    if |t| > 0 {
      var init := t[..|t| - 1];
      ValuePad(init);
      var v := DigitsValue(t);
      assert v == DigitsValue(init) * 10 + DigitValue(t[|t| - 1]);
      assert v / 10 == DigitsValue(init) && v % 10 == DigitValue(t[|t| - 1]);
      assert t == init + [t[|t| - 1]];
    }
  }

  /** Positions of the separators in `YYYY:MM:DD HH:MM:SS`. */
  predicate SeparatorAt(i: int)
  {
    i == 4 || i == 7 || i == 10 || i == 13 || i == 16
  }

  /** The exiftool date layout: 19 characters, digits except for the
      separators `:` `:` ` ` `:` `:`. */
  predicate ExifLayout(s: string)
  {
    && |s| == 19
    && s[4] == ':' && s[7] == ':' && s[10] == ' ' && s[13] == ':' && s[16] == ':'
    && forall i :: 0 <= i < 19 && !SeparatorAt(i) ==> IsDigit(s[i])
  }

  /** `format_exif_datetime`: `dt.strftime("%Y:%m:%d %H:%M:%S")`. */
  function FormatExifDateTime(dt: DateTime): (s: string)
    ensures ExifLayout(s)
  {
    Pad(dt.year, 4) + ":" + Pad(dt.month, 2) + ":" + Pad(dt.day, 2) + " "
      + Pad(dt.hour, 2) + ":" + Pad(dt.minute, 2) + ":" + Pad(dt.second, 2)
  }

  /** Reading the layout back into components: the inverse of
      FormatExifDateTime. */
  function ParseExifDateTime(s: string): Option<DateTime>
  {
    if ExifLayout(s) then
      var c := Civil(DigitsValue(s[0..4]), DigitsValue(s[5..7]), DigitsValue(s[8..10]),
                     DigitsValue(s[11..13]), DigitsValue(s[14..16]), DigitsValue(s[17..19]));
      if c.Valid() then Some(c) else None
    else None
  }

  /** Formatting loses nothing: the formatted text reads back as the same
      date and time. */
  lemma FormatParseRoundTrip(dt: DateTime)
    ensures ParseExifDateTime(FormatExifDateTime(dt)) == Some(dt)
  {
    var s := FormatExifDateTime(dt);
    assert s[0..4] == Pad(dt.year, 4);
    assert s[5..7] == Pad(dt.month, 2);
    assert s[8..10] == Pad(dt.day, 2);
    assert s[11..13] == Pad(dt.hour, 2);
    assert s[14..16] == Pad(dt.minute, 2);
    assert s[17..19] == Pad(dt.second, 2);
    PadValue(dt.year, 4);
    PadValue(dt.month, 2);
    PadValue(dt.day, 2);
    PadValue(dt.hour, 2);
    PadValue(dt.minute, 2);
    PadValue(dt.second, 2);
  }

  lemma LayoutPieces(s: string)
    requires ExifLayout(s)
    ensures s == s[0..4] + ":" + s[5..7] + ":" + s[8..10] + " " + s[11..13] + ":" + s[14..16] + ":" + s[17..19]
  {
    var t := s[0..4] + ":" + s[5..7] + ":" + s[8..10] + " " + s[11..13] + ":" + s[14..16] + ":" + s[17..19];
    assert |t| == 19;
    forall i | 0 <= i < 19 ensures t[i] == s[i] {
    }
  }

  /** One numeric field of the layout reads back to its own spelling. */
  lemma FieldRoundTrip(s: string, i: nat, w: nat)
    requires ExifLayout(s)
    requires i + w <= 19
    requires forall k :: i <= k < i + w ==> !SeparatorAt(k)
    ensures Pad(DigitsValue(s[i..i + w]), w) == s[i..i + w]
  {
    ValuePad(s[i..i + w]);
  }

  /** Every text that reads as a date is the formatting of that date, so the
      layout has exactly one spelling per date. */
  lemma ParseFormatRoundTrip(s: string)
    requires ParseExifDateTime(s).Some?
    ensures FormatExifDateTime(ParseExifDateTime(s).value) == s
  {
    var dt := ParseExifDateTime(s).value;
    assert Pad(dt.year, 4) == s[0..4] by { FieldRoundTrip(s, 0, 4); }
    assert Pad(dt.month, 2) == s[5..7] by { FieldRoundTrip(s, 5, 2); }
    assert Pad(dt.day, 2) == s[8..10] by { FieldRoundTrip(s, 8, 2); }
    assert Pad(dt.hour, 2) == s[11..13] by { FieldRoundTrip(s, 11, 2); }
    assert Pad(dt.minute, 2) == s[14..16] by { FieldRoundTrip(s, 14, 2); }
    assert Pad(dt.second, 2) == s[17..19] by { FieldRoundTrip(s, 17, 2); }
    LayoutPieces(s);
  }

  /** Distinct dates are written differently. */
  lemma FormatInjective(a: DateTime, b: DateTime)
    requires FormatExifDateTime(a) == FormatExifDateTime(b)
    ensures a == b
  {
    FormatParseRoundTrip(a);
    FormatParseRoundTrip(b);
  }
}

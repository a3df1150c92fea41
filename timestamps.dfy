/** Local date-times as the ledger uses them: a value is either invalid (what a
    default-constructed date-time holds, and what a failed parse yields) or a
    proleptic Gregorian calendar date with a second of the day. Milliseconds and
    time zones are not modelled. */
module Timestamps {

  const SecondsPerDay: int := 86400

  datatype Date = Date(year: int, month: int, day: int)

  datatype DateTime =
    | Invalid
    | At(year: int, month: int, day: int, seconds: int)
  {
    /** A valid date-time: a real calendar day (there is no year 0; 1 BC is
        year -1) and a second within that day. */
    predicate WellFormed() {
      Invalid? ||
      (year != 0 && 1 <= month <= 12 && 1 <= day <= DaysInMonth(year, month) &&
       0 <= seconds < SecondsPerDay)
    }
  }

  type Timestamp = t: DateTime | t.WellFormed() witness Invalid

  /** Leap years of the proleptic Gregorian calendar without a year 0. */
  predicate IsLeapYear(year: int) {
    var y := if year < 1 then year + 1 else year;
    y % 4 == 0 && (y % 100 != 0 || y % 400 == 0)
  }

  function DaysInMonth(year: int, month: int): int {
    if month == 2 then (if IsLeapYear(year) then 29 else 28)
    else if month == 4 || month == 6 || month == 9 || month == 11 then 30
    else 31
  }

  /** The calendar date of a date-time. The date of an invalid date-time is the
      null date, whose year, month and day all read as 0. */
  function DateOf(t: Timestamp): (d: Date)
    ensures t.At? ==> d.year != 0 && 1 <= d.month <= 12 && 1 <= d.day <= 31
    ensures t.Invalid? ==> d == Date(0, 0, 0)
  {
    if t.At? then Date(t.year, t.month, t.day) else Date(0, 0, 0)
  }

  /** The comparison `a <= b` of two date-times: an invalid value comes before
      every valid one and equals another invalid one; valid values compare by
      year, month, day and then time of day. */
  predicate Le(a: DateTime, b: DateTime)
    ensures a.Invalid? ==> Le(a, b)
    ensures Le(a, b) && a.At? ==> b.At?
    ensures Le(a, b) && a.At? && b.At? ==> a.year <= b.year
  {
    match (a, b)
    case (Invalid, _) => true
    case (At(_, _, _, _), Invalid) => false
    case (At(y1, m1, d1, s1), At(y2, m2, d2, s2)) =>
      y1 < y2 || (y1 == y2 && (m1 < m2 || (m1 == m2 && (d1 < d2 || (d1 == d2 && s1 <= s2)))))
  }

  /** `Le` is a total order, so a closed range [start, end] is well defined. */
  lemma LeIsTotalOrder(a: DateTime, b: DateTime, c: DateTime)
    ensures Le(a, a)
    ensures Le(a, b) && Le(b, a) ==> a == b
    ensures Le(a, b) && Le(b, c) ==> Le(a, c)
    ensures Le(a, b) || Le(b, a)
  {
  }

  // ---------------------------------------------------------------------------
  // ISO 8601 text: "YYYY-MM-DDTHH:MM:SS"

  predicate IsDigit(c: char) {
    '0' <= c <= '9'
  }

  predicate AllDigits(s: string) {
    forall i :: 0 <= i < |s| ==> IsDigit(s[i])
  }

  function Digit(d: int): char
    requires 0 <= d < 10
  {
    ('0' as int + d) as char
  }

  function Pow10(n: nat): nat {
    if n == 0 then 1 else 10 * Pow10(n - 1)
  }

  /** The last `width` decimal digits of `n`, with leading zeros. */
  function Pad(n: nat, width: nat): (s: string)
    ensures |s| == width && AllDigits(s)
  {
    if width == 0 then "" else Pad(n / 10, width - 1) + [Digit(n % 10)]
  }

  /** The number a string of decimal digits denotes. */
  function ReadDigits(s: string): (n: nat)
    requires AllDigits(s)
    ensures n < Pow10(|s|)
  {
    if s == "" then 0 else ReadDigits(s[..|s| - 1]) * 10 + (s[|s| - 1] as int - '0' as int)
  }

  lemma {:induction false} ReadPad(n: nat, width: nat)
    requires n < Pow10(width)
    ensures ReadDigits(Pad(n, width)) == n
  {
    if width > 0 {
      var s := Pad(n, width);
      assert s[..width - 1] == Pad(n / 10, width - 1);
      ReadPad(n / 10, width - 1);
    }
  }

  lemma {:induction false} PadRead(s: string)
    requires AllDigits(s)
    ensures Pad(ReadDigits(s), |s|) == s
  {
    if s != "" {
      var n := |s|;
      var rest := s[..n - 1];
      PadRead(rest);
      var v := ReadDigits(s);
      assert v / 10 == ReadDigits(rest) && v % 10 == s[n - 1] as int - '0' as int;
      assert Pad(v, n) == Pad(ReadDigits(rest), n - 1) + [s[n - 1]];
      assert s == rest + [s[n - 1]];
    }
  }

  /** Years the ISO 8601 format can write with four digits. */
  predicate IsoRepresentable(t: Timestamp) {
    t.Invalid? || 1 <= t.year <= 9999
  }

  /** `toString(Qt::ISODate)`: the empty string for an invalid date-time or a
      year outside 1..9999, otherwise "YYYY-MM-DDTHH:MM:SS". */
  function FormatIso(t: Timestamp): (s: string)
    ensures s == "" <==> !t.At? || !IsoRepresentable(t)
  {
    if t.At? && IsoRepresentable(t) then
      Pad(t.year, 4) + "-" + Pad(t.month, 2) + "-" + Pad(t.day, 2) + "T" +
      Pad(t.seconds / 3600, 2) + ":" + Pad(t.seconds % 3600 / 60, 2) + ":" + Pad(t.seconds % 60, 2)
    else ""
  }

  /** `fromString(s, Qt::ISODate)` for the form `FormatIso` writes: text that is
      not of that form, or that names no real date and time, gives Invalid. */
  function ParseIso(s: string): (t: Timestamp)
    ensures |s| != 19 ==> t == Invalid
    ensures t.At? ==> |s| == 19 && s[4] == '-' && s[7] == '-' && s[10] == 'T' && s[13] == ':' && s[16] == ':'
    ensures t.At? ==> IsoRepresentable(t)
  {
    if |s| == 19 && s[4] == '-' && s[7] == '-' && s[10] == 'T' && s[13] == ':' && s[16] == ':' &&
       AllDigits(s[..4]) && AllDigits(s[5..7]) && AllDigits(s[8..10]) &&
       AllDigits(s[11..13]) && AllDigits(s[14..16]) && AllDigits(s[17..])
    then
      var hour := ReadDigits(s[11..13]);
      var minute := ReadDigits(s[14..16]);
      var second := ReadDigits(s[17..]);
      var t := At(ReadDigits(s[..4]), ReadDigits(s[5..7]), ReadDigits(s[8..10]),
                  hour * 3600 + minute * 60 + second);
      if hour < 24 && minute < 60 && second < 60 && t.WellFormed() then t else Invalid
    else Invalid
  }

  /** Parsing what was formatted gives the date-time back, for every value the
      four-digit year can express (and Invalid, written as ""). */
  lemma {:induction false} ParseFormat(t: Timestamp)
    requires IsoRepresentable(t)
    ensures ParseIso(FormatIso(t)) == t
  {
    if t.At? {
      FormatFields(t);
      SecondsOfDay(t.seconds);
      ParseOfFields(FormatIso(t), t.year, t.month, t.day, t.seconds / 3600, t.seconds % 3600 / 60, t.seconds % 60);
    }
  }

  /** `s` has the ISO form, and its six digit fields read as the given numbers. */
  predicate IsoFields(s: string, year: int, month: int, day: int, hour: int, minute: int, second: int) {
    |s| == 19 && s[4] == '-' && s[7] == '-' && s[10] == 'T' && s[13] == ':' && s[16] == ':' &&
    AllDigits(s[..4]) && AllDigits(s[5..7]) && AllDigits(s[8..10]) &&
    AllDigits(s[11..13]) && AllDigits(s[14..16]) && AllDigits(s[17..]) &&
    ReadDigits(s[..4]) == year && ReadDigits(s[5..7]) == month && ReadDigits(s[8..10]) == day &&
    ReadDigits(s[11..13]) == hour && ReadDigits(s[14..16]) == minute && ReadDigits(s[17..]) == second
  }

  /** The formatted text's fields read back as the date-time's fields. */
  lemma FormatFields(t: Timestamp)
    requires t.At? && IsoRepresentable(t)
    ensures IsoFields(FormatIso(t), t.year, t.month, t.day, t.seconds / 3600, t.seconds % 3600 / 60, t.seconds % 60)
  {
    SecondsOfDay(t.seconds);
    assert Pow10(2) == 100 && Pow10(4) == 10000;
    FormatSlices(t);
    ReadPad(t.year, 4);
    ReadPad(t.month, 2);
    ReadPad(t.day, 2);
    ReadPad(t.seconds / 3600, 2);
    ReadPad(t.seconds % 3600 / 60, 2);
    ReadPad(t.seconds % 60, 2);
  }

  /** Text of the ISO form whose fields denote a real date and time parses to
      that date-time. */
  lemma ParseOfFields(s: string, year: int, month: int, day: int, hour: int, minute: int, second: int)
    requires IsoFields(s, year, month, day, hour, minute, second)
    requires hour < 24 && minute < 60 && second < 60
    requires At(year, month, day, hour * 3600 + minute * 60 + second).WellFormed()
    ensures ParseIso(s) == At(year, month, day, hour * 3600 + minute * 60 + second)
  {
  }

  /** Where each field sits in the formatted text. */
  lemma FormatSlices(t: Timestamp)
    requires t.At? && IsoRepresentable(t)
    ensures var s := FormatIso(t);
      |s| == 19 && s[4] == '-' && s[7] == '-' && s[10] == 'T' && s[13] == ':' && s[16] == ':' &&
      s[..4] == Pad(t.year, 4) && s[5..7] == Pad(t.month, 2) && s[8..10] == Pad(t.day, 2) &&
      s[11..13] == Pad(t.seconds / 3600, 2) && s[14..16] == Pad(t.seconds % 3600 / 60, 2) &&
      s[17..] == Pad(t.seconds % 60, 2)
  {
    var s := FormatIso(t);
    assert s[..4] == Pad(t.year, 4);
    assert s[5..7] == Pad(t.month, 2);
    assert s[8..10] == Pad(t.day, 2);
    assert s[11..13] == Pad(t.seconds / 3600, 2);
    assert s[14..16] == Pad(t.seconds % 3600 / 60, 2);
  }

  lemma SecondsOfDay(seconds: int)
    requires 0 <= seconds < SecondsPerDay
    ensures seconds / 3600 < 24 && seconds % 3600 / 60 < 60 && seconds % 60 < 60
    ensures seconds / 3600 * 3600 + seconds % 3600 / 60 * 60 + seconds % 60 == seconds
  {
  }

  /** Conversely, text that parses to a valid date-time is exactly what
      formatting that date-time writes. */
  lemma {:induction false} FormatParse(s: string)
    requires ParseIso(s).At?
    ensures FormatIso(ParseIso(s)) == s
  {
    var t := ParseIso(s);
    ParseSlices(s);
    FormatSlices(t);
    PadRead(s[..4]);
    PadRead(s[5..7]);
    PadRead(s[8..10]);
    PadRead(s[11..13]);
    PadRead(s[14..16]);
    PadRead(s[17..]);
    SameIsoText(FormatIso(t), s);
  }

  /** What a successful parse read from each field of the text. */
  lemma ParseSlices(s: string)
    requires ParseIso(s).At?
    ensures var t := ParseIso(s);
      |s| == 19 && s[4] == '-' && s[7] == '-' && s[10] == 'T' && s[13] == ':' && s[16] == ':' &&
      AllDigits(s[..4]) && AllDigits(s[5..7]) && AllDigits(s[8..10]) &&
      AllDigits(s[11..13]) && AllDigits(s[14..16]) && AllDigits(s[17..]) &&
      IsoRepresentable(t) &&
      t.year == ReadDigits(s[..4]) && t.month == ReadDigits(s[5..7]) && t.day == ReadDigits(s[8..10]) &&
      t.seconds / 3600 == ReadDigits(s[11..13]) && t.seconds % 3600 / 60 == ReadDigits(s[14..16]) &&
      t.seconds % 60 == ReadDigits(s[17..])
  {
    var t := ParseIso(s);
    var hour, minute, second := ReadDigits(s[11..13]), ReadDigits(s[14..16]), ReadDigits(s[17..]);
    assert t.year == ReadDigits(s[..4]) < Pow10(4);
    TimeOfDay(hour, minute, second);
  }

  lemma TimeOfDay(hour: int, minute: int, second: int)
    requires 0 <= hour < 24 && 0 <= minute < 60 && 0 <= second < 60
    ensures var seconds := hour * 3600 + minute * 60 + second;
      seconds / 3600 == hour && seconds % 3600 / 60 == minute && seconds % 60 == second
  {
  }

  /** Two texts of the ISO form that agree on the separators and on every
      digit field are equal. */
  lemma SameIsoText(a: string, b: string)
    requires |a| == |b| == 19
    requires a[4] == b[4] && a[7] == b[7] && a[10] == b[10] && a[13] == b[13] && a[16] == b[16]
    requires a[..4] == b[..4] && a[5..7] == b[5..7] && a[8..10] == b[8..10]
    requires a[11..13] == b[11..13] && a[14..16] == b[14..16] && a[17..] == b[17..]
    ensures a == b
  {
    forall i | 0 <= i < 19
      ensures a[i] == b[i]
    {
      if i < 4 { assert a[i] == a[..4][i]; assert b[i] == b[..4][i]; }
      else if 5 <= i < 7 { assert a[i] == a[5..7][i - 5]; assert b[i] == b[5..7][i - 5]; }
      else if 8 <= i < 10 { assert a[i] == a[8..10][i - 8]; assert b[i] == b[8..10][i - 8]; }
      else if 11 <= i < 13 { assert a[i] == a[11..13][i - 11]; assert b[i] == b[11..13][i - 11]; }
      else if 14 <= i < 16 { assert a[i] == a[14..16][i - 14]; assert b[i] == b[14..16][i - 14]; }
      else if 17 <= i { assert a[i] == a[17..][i - 17]; assert b[i] == b[17..][i - 17]; }
    }
  }
}

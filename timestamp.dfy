/**
 * The timestamp layout JSONDATE = "%FT%T.000Z" of src/main.h, that is
 * YYYY-MM-DDTHH:MM:SS.000Z, the date-time of section 5.6 of RFC 3339 with
 * a literal zero fraction and the "Z" offset.
 */
module Timestamp {
  import opened Definitions
  import opened Decimal

  /** The broken-down time `strftime` formats. */
  datatype DateTime = DateTime(year: nat, month: nat, day: nat, hour: nat, minute: nat, second: nat)

  /** Field ranges of `struct tm` (second 60 is a leap second), four-digit years. */
  predicate ValidDateTime(t: DateTime)
  {
    && 1000 <= t.year <= 9999 && 1 <= t.month <= 12 && 1 <= t.day <= 31
    && t.hour < 24 && t.minute < 60 && t.second <= 60
  }

  /** The text `strftime(timestamp, 25, JSONDATE, …)` writes: %F, "T", %T, ".000Z". */
  function FormatTimestamp(t: DateTime): (s: string)
    requires ValidDateTime(t)
    ensures |s| == 24 && |s| < TIME_FIELD_SIZE
  {
    DatePart(t) + "T" + TimePart(t) + ".000Z"
  }

  /** %F, that is %Y-%m-%d. */
  function DatePart(t: DateTime): (s: string)
    ensures |s| == 10
  {
    Fixed(t.year, 4) + "-" + Fixed(t.month, 2) + "-" + Fixed(t.day, 2)
  }

  /** %T, that is %H:%M:%S. */
  function TimePart(t: DateTime): (s: string)
    ensures |s| == 8
  {
    Fixed(t.hour, 2) + ":" + Fixed(t.minute, 2) + ":" + Fixed(t.second, 2)
  }

  /** Reading a timestamp back by its fixed positions. */
  function ParseTimestamp(s: string): (r: Option<DateTime>)
  {
    if |s| == 24 && s[10] == 'T' && s[19..] == ".000Z" then
      match (ParseDate(s[..10]), ParseTime(s[11..19]))
      case (Some((y, mo, d)), Some((h, mi, sec))) => Some(DateTime(y, mo, d, h, mi, sec))
      case _ => None
    else None
  }

  function ParseDate(s: string): Option<(nat, nat, nat)>
    requires |s| == 10
  {
    if s[4] == '-' && s[7] == '-' && AllDigits(s[0..4]) && AllDigits(s[5..7]) && AllDigits(s[8..10])
    then Some((Value(s[0..4]), Value(s[5..7]), Value(s[8..10])))
    else None
  }

  function ParseTime(s: string): Option<(nat, nat, nat)>
    requires |s| == 8
  {
    if s[2] == ':' && s[5] == ':' && AllDigits(s[0..2]) && AllDigits(s[3..5]) && AllDigits(s[6..8])
    then Some((Value(s[0..2]), Value(s[3..5]), Value(s[6..8])))
    else None
  }

  /** Where the three fields of `a` sep `b` sep `c` sit, for fields of widths i, j and k. */
  lemma ThreeFields(a: string, b: string, c: string, sep: char, i: nat, j: nat, k: nat)
    requires |a| == i && |b| == j && |c| == k
    ensures var s := a + [sep] + b + [sep] + c;
      && s[0..i] == a && s[i] == sep && s[i + 1..i + 1 + j] == b
      && s[i + 1 + j] == sep && s[i + 2 + j..i + 2 + j + k] == c
  {
    var s := a + [sep] + b + [sep] + c;
    var t := a + [sep] + b;
    assert s[..|t|] == t;
    assert s[0..i] == t[0..i];
    assert s[i + 1..i + 1 + j] == t[i + 1..i + 1 + j];
  }

  lemma ParseDatePart(t: DateTime)
    requires ValidDateTime(t)
    ensures ParseDate(DatePart(t)) == Some((t.year, t.month, t.day))
  {
    ThreeFields(Fixed(t.year, 4), Fixed(t.month, 2), Fixed(t.day, 2), '-', 4, 2, 2);
    assert Pow10(2) == 100 && Pow10(4) == 10000;
    ValueOfFixed(t.year, 4);
    ValueOfFixed(t.month, 2);
    ValueOfFixed(t.day, 2);
  }

  lemma ParseTimePart(t: DateTime)
    requires ValidDateTime(t)
    ensures ParseTime(TimePart(t)) == Some((t.hour, t.minute, t.second))
  {
    ThreeFields(Fixed(t.hour, 2), Fixed(t.minute, 2), Fixed(t.second, 2), ':', 2, 2, 2);
    assert Pow10(2) == 100;
    ValueOfFixed(t.hour, 2);
    ValueOfFixed(t.minute, 2);
    ValueOfFixed(t.second, 2);
  }

  lemma ParseFormat(t: DateTime)
    requires ValidDateTime(t)
    ensures ParseTimestamp(FormatTimestamp(t)) == Some(t)
  {
    var s := FormatTimestamp(t);
    assert s[..10] == DatePart(t);
    assert s[11..19] == TimePart(t);
    assert s[10] == 'T' && s[19..] == ".000Z";
    ParseDatePart(t);
    ParseTimePart(t);
  }

  /** Distinct times give distinct timestamps. */
  lemma FormatInjective(t1: DateTime, t2: DateTime)
    requires ValidDateTime(t1) && ValidDateTime(t2)
    requires FormatTimestamp(t1) == FormatTimestamp(t2)
    ensures t1 == t2
  {
    ParseFormat(t1);
    ParseFormat(t2);
  }
}

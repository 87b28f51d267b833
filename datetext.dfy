/** Dates as text: strftime("%Y-%m-%d") (also str(date)), the timestamp
    format "%Y-%m-%dT%H:%M:%S+00:00", and datetime.strptime for both formats
    with the field grammar of CPython's _strptime:

      %Y  four digits
      %m  1[0-2] | 0[1-9] | [1-9]
      %d  3[01] | [12]\d | 0[1-9] | [1-9] | " "[1-9]
      %H  2[0-3] | [0-1]\d | \d
      %M  [0-5]\d | \d
      %S  6[0-1] | [0-5]\d | \d

    The whole pattern is matched case-insensitively, text left over after
    the match is an error, and the datetime constructor then rejects a day
    past the end of the month, year 0, and seconds 60 and 61. */
module DateText {
  import opened Wrappers
  import opened Text
  import opened Decimal
  import opened Calendar

  datatype DateTime = DateTime(date: Date, hour: int, minute: int, second: int)

  predicate ValidDateTime(t: DateTime) {
    ValidDate(t.date) && 0 <= t.hour < 24 && 0 <= t.minute < 60 && 0 <= t.second < 60
  }

  // ---------------------------------------------------------------------
  // Writing

  /** date.strftime("%Y-%m-%d"), which is also str(date). */
  function FormatDate(d: Date): (s: string)
    requires ValidDate(d)
    ensures |s| == 10 && s[4] == '-' && s[7] == '-'
  {
    ZeroPadWidth(d.year, 4);
    ZeroPadWidth(d.month, 2);
    ZeroPadWidth(d.day, 2);
    ZeroPad(d.year, 4) + "-" + ZeroPad(d.month, 2) + "-" + ZeroPad(d.day, 2)
  }

  /** datetime.strftime("%Y-%m-%dT%H:%M:%S+00:00"). */
  function FormatTimestamp(t: DateTime): (s: string)
    requires ValidDateTime(t)
    ensures |s| == 25 && s[..10] == FormatDate(t.date) && s[10] == 'T'
  {
    FormatDate(t.date) + "T" + ClockText(t.hour, t.minute, t.second)
  }

  /** The "%H:%M:%S+00:00" tail of the timestamp format. */
  function ClockText(h: int, m: int, sec: int): (c: string)
    requires 0 <= h < 24 && 0 <= m < 60 && 0 <= sec < 60
    ensures |c| == 14
  {
    ZeroPadWidth(h, 2);
    ZeroPadWidth(m, 2);
    ZeroPadWidth(sec, 2);
    ZeroPad(h, 2) + ":" + ZeroPad(m, 2) + ":" + ZeroPad(sec, 2) + "+00:00"
  }

  function Pow10(w: nat): nat {
    if w == 0 then 1 else 10 * Pow10(w - 1)
  }

  lemma {:induction false} NatToStringLength(n: nat, w: nat)
    requires w >= 1 && n < Pow10(w)
    ensures |NatToString(n)| <= w
    decreases w
  {
    if n >= 10 {
      assert w > 1;
      NatToStringLength(n / 10, w - 1);
    }
  }

  lemma ZeroPadWidth(n: nat, w: nat)
    requires (w == 2 && n < 100) || (w == 4 && n < 10000)
    ensures |ZeroPad(n, w)| == w
  {
    assert Pow10(2) == 100;
    assert Pow10(4) == 10000;
    NatToStringLength(n, w);
  }

  /** The two characters %02d writes for n < 100. */
  lemma TwoDigits(n: nat)
    requires n < 100
    ensures ZeroPad(n, 2) == [DigitChar(n / 10), DigitChar(n % 10)]
  {
    if n >= 10 {
      assert NatToString(n / 10) == [DigitChar(n / 10)];
    }
  }

  // ---------------------------------------------------------------------
  // The field grammar

  datatype Field = Month | Day | Hour | Minute | Second

  predicate Between(c: char, lo: char, hi: char) { lo <= c <= hi }

  /** t is one of the alternatives of the field's regular expression. */
  predicate FieldText(f: Field, t: string) {
    match f
    case Month =>
      (|t| == 2 && ((t[0] == '1' && Between(t[1], '0', '2')) || (t[0] == '0' && Between(t[1], '1', '9'))))
      || (|t| == 1 && Between(t[0], '1', '9'))
    case Day =>
      (|t| == 2 && ((t[0] == '3' && Between(t[1], '0', '1')) || (Between(t[0], '1', '2') && IsDigit(t[1]))
                    || (t[0] == '0' && Between(t[1], '1', '9')) || (t[0] == ' ' && Between(t[1], '1', '9'))))
      || (|t| == 1 && Between(t[0], '1', '9'))
    case Hour =>
      (|t| == 2 && ((t[0] == '2' && Between(t[1], '0', '3')) || (Between(t[0], '0', '1') && IsDigit(t[1]))))
      || (|t| == 1 && IsDigit(t[0]))
    case Minute =>
      (|t| == 2 && Between(t[0], '0', '5') && IsDigit(t[1]))
      || (|t| == 1 && IsDigit(t[0]))
    case Second =>
      (|t| == 2 && ((t[0] == '6' && Between(t[1], '0', '1')) || (Between(t[0], '0', '5') && IsDigit(t[1]))))
      || (|t| == 1 && IsDigit(t[0]))
  }

  predicate YearText(t: string) {
    |t| == 4 && AllDigits(t)
  }

  /** The integer a matched field stands for; int(" 5") is 5. */
  function FieldValue(f: Field, t: string): (n: nat)
    requires FieldText(f, t)
    ensures f == Month ==> 1 <= n <= 12
    ensures f == Day ==> 1 <= n <= 31
    ensures f == Hour ==> n <= 23
    ensures f == Minute ==> n <= 59
    ensures f == Second ==> n <= 61
  {
    if t[0] == ' ' then DigitValue(t[1])
    else if |t| == 1 then DigitValue(t[0])
    else 10 * DigitValue(t[0]) + DigitValue(t[1])
  }

  /** A pattern character matched case-insensitively. */
  predicate SepMatch(c: char, sep: char) {
    LowerChar(c) == LowerChar(sep)
  }

  /** Where field f, starting at i, ends when it must be followed by sep:
      every alternative ends in a digit and sep is not one, so at most one
      candidate length (two characters, then one) can be followed by sep. */
  function FieldEnd(s: string, i: nat, f: Field, sep: char): (r: Option<nat>)
    ensures r.Some? ==> i < r.value < |s| && r.value <= i + 2
    ensures r.Some? ==> FieldText(f, s[i..r.value]) && SepMatch(s[r.value], sep)
    ensures r.None? ==> forall e :: i < e < |s| && e <= i + 2 && FieldText(f, s[i..e]) ==> !SepMatch(s[e], sep)
  {
    if i + 2 < |s| && FieldText(f, s[i..i + 2]) && SepMatch(s[i + 2], sep) then Some(i + 2)
    else if i + 1 < |s| && FieldText(f, s[i..i + 1]) && SepMatch(s[i + 1], sep) then Some(i + 1)
    else None
  }

  /** A date that the datetime constructor accepts, or its ValueError. */
  function MakeDate(y: int, m: int, d: int): (r: Option<Date>)
    ensures r.Some? <==> ValidDate(Date(y, m, d))
    ensures r.Some? ==> r.value == Date(y, m, d)
  {
    if ValidDate(Date(y, m, d)) then Some(Date(y, m, d)) else None
  }

  // ---------------------------------------------------------------------
  // Reading

  /** Where the month field ends, after a year field and a '-'. */
  function MonthEnd(s: string): (r: Option<nat>)
    ensures r.Some? ==> 5 < r.value < |s| && YearText(s[..4]) && FieldText(Month, s[5..r.value])
  {
    if |s| < 5 || !YearText(s[..4]) || !SepMatch(s[4], '-') then None
    else FieldEnd(s, 5, Month, '-')
  }

  /** datetime.strptime(s, "%Y-%m-%d").date(); None where it raises ValueError. */
  function ParseDate(s: string): (r: Option<Date>)
    ensures r.Some? ==> ValidDate(r.value)
  {
    match MonthEnd(s)
    case None => None
    case Some(e) =>
      var dt := s[e + 1..];
      if !FieldText(Day, dt) then None
      else MakeDate(DigitsValue(s[..4]), FieldValue(Month, s[5..e]), FieldValue(Day, dt))
  }

  /** The "%H:%M:%S+00:00" tail of the timestamp format, read to the end of
      the text: hour, minute and second, or None. */
  function ParseClock(c: string): (r: Option<(int, int, int)>)
    ensures r.Some? ==> 0 <= r.value.0 < 24 && 0 <= r.value.1 < 60 && 0 <= r.value.2 < 60
  {
    match ClockEnds(c)
    case None => None
    case Some((e3, e4, e5)) =>
      var second := FieldValue(Second, c[e4 + 1..e5]);
      if c[e5..] != "+00:00" || second > 59 then None
      else Some((FieldValue(Hour, c[..e3]), FieldValue(Minute, c[e3 + 1..e4]), second))
  }

  /** Where the hour, minute and second fields end. */
  function ClockEnds(c: string): (r: Option<(nat, nat, nat)>)
    ensures r.Some? ==> 0 < r.value.0 < r.value.1 < r.value.2 < |c|
    ensures r.Some? ==> FieldText(Hour, c[..r.value.0]) && FieldText(Minute, c[r.value.0 + 1..r.value.1])
    ensures r.Some? ==> FieldText(Second, c[r.value.1 + 1..r.value.2])
  {
    match FieldEnd(c, 0, Hour, ':')
    case None => None
    case Some(e3) => match FieldEnd(c, e3 + 1, Minute, ':')
      case None => None
      case Some(e4) => match FieldEnd(c, e4 + 1, Second, '+')
        case None => None
        case Some(e5) => Some((e3, e4, e5))
  }

  /** datetime.strptime(s, "%Y-%m-%dT%H:%M:%S+00:00"); None where it raises
      ValueError. */
  function ParseTimestamp(s: string): (r: Option<DateTime>)
    ensures r.Some? ==> ValidDateTime(r.value)
  {
    match DayEnd(s)
    case None => None
    case Some((e1, e2)) => match ParseClock(s[e2 + 1..])
      case None => None
      case Some(clock) =>
        match MakeDate(DigitsValue(s[..4]), FieldValue(Month, s[5..e1]), FieldValue(Day, s[e1 + 1..e2]))
        case None => None
        case Some(d) => Some(DateTime(d, clock.0, clock.1, clock.2))
  }

  /** Where the month field and the day field (followed by 'T') end. */
  function DayEnd(s: string): (r: Option<(nat, nat)>)
    ensures r.Some? ==> 5 < r.value.0 < r.value.1 < |s| && YearText(s[..4])
    ensures r.Some? ==> FieldText(Month, s[5..r.value.0]) && FieldText(Day, s[r.value.0 + 1..r.value.1])
  {
    match MonthEnd(s)
    case None => None
    case Some(e1) => match FieldEnd(s, e1 + 1, Day, 'T')
      case None => None
      case Some(e2) => Some((e1, e2))
  }

  // ---------------------------------------------------------------------
  // Facts about reading

  lemma SepNotDigit(c: char, sep: char)
    requires !IsDigit(sep) && SepMatch(c, sep)
    ensures !IsDigit(c)
  {
    if 'A' <= sep <= 'Z' {
      assert LowerChar(sep) as int == sep as int + 32;
    }
  }

  lemma FieldTextEndsInDigit(f: Field, t: string)
    ensures FieldText(f, t) ==> 1 <= |t| <= 2 && IsDigit(t[|t| - 1])
  {
  }

  /** A field text t at i, followed by a separator, is found by FieldEnd. */
  lemma FieldAt(s: string, i: nat, f: Field, t: string, sep: char)
    requires !IsDigit(sep) && FieldText(f, t)
    requires i + |t| < |s| && s[i..i + |t|] == t && SepMatch(s[i + |t|], sep)
    ensures FieldEnd(s, i, f, sep) == Some(i + |t|)
  {
    FieldTextEndsInDigit(f, t);
    SepNotDigit(s[i + |t|], sep);
    if |t| == 1 && i + 2 < |s| {
      FieldTextEndsInDigit(f, s[i..i + 2]);
      assert s[i..i + 2][1] == s[i + 1];
    }
  }

  /** Where a piece of a concatenation sits in it. */
  lemma PieceAt(s: string, pre: string, t: string, post: string)
    requires s == pre + t + post
    ensures s[..|pre|] == pre
    ensures s[|pre|..|pre| + |t|] == t
    ensures s[|pre| + |t|..] == post
  {
  }

  /** The grammar of "%Y-%m-%d" read completely: text made of a year, a
      month and a day field separated by '-' parses to exactly the date
      those fields name, or fails in the datetime constructor. */
  lemma ParseDateFields(yt: string, mt: string, dt: string)
    requires YearText(yt) && FieldText(Month, mt) && FieldText(Day, dt)
    ensures ParseDate(yt + "-" + mt + "-" + dt)
         == MakeDate(DigitsValue(yt), FieldValue(Month, mt), FieldValue(Day, dt))
  {
    var s := yt + "-" + mt + "-" + dt;
    assert s[..4] == yt;
    assert s[5..5 + |mt|] == mt;
    FieldAt(s, 5, Month, mt, '-');
    assert s[5 + |mt| + 1..] == dt;
  }

  lemma MonthDigits(m: int)
    requires 1 <= m <= 12
    ensures FieldText(Month, ZeroPad(m, 2)) && FieldValue(Month, ZeroPad(m, 2)) == m
  {
    TwoDigits(m);
  }

  lemma DayDigits(d: int)
    requires 1 <= d <= 31
    ensures FieldText(Day, ZeroPad(d, 2)) && FieldValue(Day, ZeroPad(d, 2)) == d
  {
    TwoDigits(d);
  }

  lemma YearDigits(y: int)
    requires 1 <= y <= 9999
    ensures YearText(ZeroPad(y, 4)) && DigitsValue(ZeroPad(y, 4)) == y
  {
    ZeroPadWidth(y, 4);
    ZeroPadValue(y, 4);
  }

  /** strptime reads back what strftime wrote. */
  lemma ParseFormatDate(d: Date)
    requires ValidDate(d)
    ensures ParseDate(FormatDate(d)) == Some(d)
  {
    YearDigits(d.year);
    MonthDigits(d.month);
    DayDigits(d.day);
    ParseDateFields(ZeroPad(d.year, 4), ZeroPad(d.month, 2), ZeroPad(d.day, 2));
  }

  lemma HourDigits(h: int)
    requires 0 <= h < 24
    ensures FieldText(Hour, ZeroPad(h, 2)) && FieldValue(Hour, ZeroPad(h, 2)) == h
  {
    TwoDigits(h);
  }

  lemma SixtyDigits(n: int, f: Field)
    requires 0 <= n < 60 && (f == Minute || f == Second)
    ensures FieldText(f, ZeroPad(n, 2)) && FieldValue(f, ZeroPad(n, 2)) == n
  {
    TwoDigits(n);
  }

  /** The grammar of "%H:%M:%S+00:00" read completely: the three fields
      give the time, unless the seconds are 60 or 61. */
  lemma ParseClockFields(ht: string, nt: string, st: string)
    requires FieldText(Hour, ht) && FieldText(Minute, nt) && FieldText(Second, st)
    ensures ParseClock(ht + ":" + nt + ":" + st + "+00:00")
         == if FieldValue(Second, st) > 59 then None
            else Some((FieldValue(Hour, ht), FieldValue(Minute, nt), FieldValue(Second, st)))
  {
    var c := ht + ":" + nt + ":" + st + "+00:00";
    var i, j := |ht| + 1, |ht| + 1 + |nt| + 1;
    ClockEndsFields(ht, nt, st);
    assert c[..|ht|] == ht && c[i..i + |nt|] == nt && c[j..j + |st|] == st;
    assert c[j + |st|..] == "+00:00";
  }

  lemma ClockEndsFields(ht: string, nt: string, st: string)
    requires FieldText(Hour, ht) && FieldText(Minute, nt) && FieldText(Second, st)
    ensures ClockEnds(ht + ":" + nt + ":" + st + "+00:00")
         == Some((|ht|, |ht| + 1 + |nt|, |ht| + 1 + |nt| + 1 + |st|))
  {
    var c := ht + ":" + nt + ":" + st + "+00:00";
    var i, j := |ht| + 1, |ht| + 1 + |nt| + 1;
    assert c[..|ht|] == ht && c[i..i + |nt|] == nt && c[j..j + |st|] == st;
    FieldAt(c, 0, Hour, ht, ':');
    FieldAt(c, i, Minute, nt, ':');
    FieldAt(c, j, Second, st, '+');
  }

  /** The clock tail reads back the time it was written from. */
  lemma ParseFormatClock(h: int, m: int, sec: int)
    requires 0 <= h < 24 && 0 <= m < 60 && 0 <= sec < 60
    ensures ParseClock(ClockText(h, m, sec)) == Some((h, m, sec))
  {
    HourDigits(h);
    SixtyDigits(m, Minute);
    SixtyDigits(sec, Second);
    ParseClockFields(ZeroPad(h, 2), ZeroPad(m, 2), ZeroPad(sec, 2));
  }

  /** The grammar of the timestamp format read completely: a year, month
      and day field, a 'T' and a clock tail give that date at that time. */
  lemma ParseTimestampFields(yt: string, mt: string, dt: string, c: string)
    requires YearText(yt) && FieldText(Month, mt) && FieldText(Day, dt)
    ensures ParseTimestamp(yt + "-" + mt + "-" + dt + "T" + c)
         == match (MakeDate(DigitsValue(yt), FieldValue(Month, mt), FieldValue(Day, dt)), ParseClock(c))
            case (Some(d), Some(clock)) => Some(DateTime(d, clock.0, clock.1, clock.2))
            case _ => None
  {
    DayEndFields(yt, mt, dt, c);
  }

  lemma DayEndFields(yt: string, mt: string, dt: string, c: string)
    requires YearText(yt) && FieldText(Month, mt) && FieldText(Day, dt)
    ensures var s := yt + "-" + mt + "-" + dt + "T" + c;
            var e1, e2 := 5 + |mt|, 6 + |mt| + |dt|;
            DayEnd(s) == Some((e1, e2)) &&
            s[..4] == yt && s[5..e1] == mt && s[e1 + 1..e2] == dt && s[e2 + 1..] == c
  {
    var m := yt + "-" + mt;
    var l := m + "-" + dt;
    var s := l + "T" + c;
    var e1, e2 := 5 + |mt|, 6 + |mt| + |dt|;
    PieceAt(s, l, "T", c);
    PieceAt(l, m, "-", dt);
    PieceAt(m, yt, "-", mt);
    SliceInPrefix(s, l, 0, |yt|);
    SliceInPrefix(l, m, 0, |yt|);
    SliceInPrefix(s, l, 5, e1);
    SliceInPrefix(l, m, 5, e1);
    SliceInPrefix(s, l, e1 + 1, e2);
    assert s[..4] == yt && s[5..e1] == mt && s[e1 + 1..e2] == dt;
    FieldAt(s, 5, Month, mt, '-');
    FieldAt(s, e1 + 1, Day, dt, 'T');
  }

  /** A slice inside a prefix of s is that slice of the prefix. */
  lemma SliceInPrefix(s: string, p: string, a: nat, b: nat)
    requires |p| <= |s| && s[..|p|] == p && a <= b <= |p|
    ensures s[a..b] == p[a..b]
  {
    forall k | 0 <= k < b - a
      ensures s[a..b][k] == p[a..b][k]
    {
      assert s[..|p|][a + k] == s[a + k];
    }
  }

  /** The timestamp format reads back the date and time it was written from. */
  lemma ParseFormatTimestamp(t: DateTime)
    requires ValidDateTime(t)
    ensures ParseTimestamp(FormatTimestamp(t)) == Some(t)
  {
    var d := t.date;
    var yt, mt, dt := ZeroPad(d.year, 4), ZeroPad(d.month, 2), ZeroPad(d.day, 2);
    YearDigits(d.year);
    MonthDigits(d.month);
    DayDigits(d.day);
    ParseFormatClock(t.hour, t.minute, t.second);
    var c := ClockText(t.hour, t.minute, t.second);
    ParseTimestampFields(yt, mt, dt, c);
    assert MakeDate(DigitsValue(yt), FieldValue(Month, mt), FieldValue(Day, dt)) == Some(d);
  }
}

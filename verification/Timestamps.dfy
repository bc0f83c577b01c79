/**
 Instants as text: the audit log's `YYYY-MM-DD HH:MM:SS`, the migration
 generator's `YYYY_MM_DD_HHMMSS`, and the day filter that compares the former
 as strings.
 */
module Timestamps {
  import opened Decimals
  import opened Calendar

  // ----- Numbers padded with zeros -----

  function ZeroDigits(n: nat): (s: string)
    ensures |s| == n
  {
    if n == 0 then [] else ZeroDigits(n - 1) + ['0']
  }

  /** At least `width` digits. */
  function Padded(n: nat, width: nat): string {
    if |Decimal(n)| < width then ZeroDigits(width - |Decimal(n)|) + Decimal(n) else Decimal(n)
  }

  /** The same for a number that may be negative: the sign takes one of the places. */
  function PaddedInt(n: int, width: nat): string
    requires width > 0
  {
    if n >= 0 then Padded(n, width) else "-" + Padded(-n, width - 1)
  }

  function Pow10(n: nat): nat {
    if n == 0 then 1 else 10 * Pow10(n - 1)
  }

  /** Exactly `width` digits. */
  function Fixed(n: nat, width: nat): (s: string)
    ensures |s| == width
  {
    if width == 0 then [] else Fixed(n / 10, width - 1) + [DigitChar(n % 10)]
  }

  lemma {:induction false} FixedZero(width: nat)
    ensures Fixed(0, width) == ZeroDigits(width)
  {
    if width > 0 {
      FixedZero(width - 1);
    }
  }

  lemma {:induction false} PaddedIsFixed(n: nat, width: nat)
    requires n < Pow10(width) && width > 0
    ensures |Decimal(n)| <= width && Padded(n, width) == Fixed(n, width)
    decreases width
  {
    if n < 10 {
      FixedZero(width - 1);
      assert Fixed(n, width) == ZeroDigits(width - 1) + Decimal(n);
    } else {
      TenthIsBelow(n, Pow10(width - 1));
      PaddedIsFixed(n / 10, width - 1);
      var front := Decimal(n / 10);
      assert Decimal(n) == front + [DigitChar(n % 10)];
      assert ZeroDigits(width - 1 - |front|) + front + [DigitChar(n % 10)] == ZeroDigits(width - 1 - |front|)
             + Decimal(n);
    }
  }

  lemma TenthIsBelow(n: nat, p: nat)
    requires n < 10 * p
    ensures n / 10 < p
  {}

  // ----- The formats -----

  function FormatUtc(unix: int): string {
    var date, seconds := CivilOfLog(unix / 86400), unix % 86400;
    PaddedInt(date.year, 4) + "-" + PaddedInt(date.month, 2) + "-" + PaddedInt(date.day, 2) + " "
    + Padded(seconds / 3600, 2) + ":" + Padded(seconds % 3600 / 60, 2) + ":" + Padded(seconds % 60, 2)
  }

  function MigrationStamp(unix: int): string {
    var date, seconds := CivilFromDays(unix / 86400), unix % 86400;
    PaddedInt(date.year, 4) + "_" + PaddedInt(date.month, 2) + "_" + PaddedInt(date.day, 2) + "_"
    + Padded(seconds / 3600, 2) + Padded(seconds % 3600 / 60, 2) + Padded(seconds % 60, 2)
  }

  // ----- The order of texts -----

  predicate Less(s: string, t: string) {
    t != [] && (s == [] || s[0] < t[0] || (s[0] == t[0] && Less(s[1..], t[1..])))
  }

  /** A number of so many digits, and what follows it. */
  datatype Field = Field(value: nat, width: nat, sep: string)

  function Text(fields: seq<Field>): string {
    if fields == [] then [] else Fixed(fields[0].value, fields[0].width) + (fields[0].sep + Text(fields[1..]))
  }

  predicate LexLess(f: seq<Field>, g: seq<Field>)
    requires |f| == |g|
  {
    f != [] && (f[0].value < g[0].value || (f[0].value == g[0].value && LexLess(f[1..], g[1..])))
  }

  predicate SameShape(f: seq<Field>, g: seq<Field>) {
    && |f| == |g|
    && forall i :: 0 <= i < |f| ==>
      && f[i].width == g[i].width && f[i].sep == g[i].sep
      && f[i].value < Pow10(f[i].width) && g[i].value < Pow10(g[i].width)
  }

  lemma {:induction false} LessAfter(a: string, b: string, s: string, t: string)
    requires |a| == |b|
    ensures Less(a + s, b + t) <==> Less(a, b) || (a == b && Less(s, t))
    decreases |a|
  {
    if a == [] {
      assert a + s == s && b + t == t;
    } else {
      assert (a + s)[1..] == a[1..] + s && (b + t)[1..] == b[1..] + t;
      assert a == [a[0]] + a[1..] && b == [b[0]] + b[1..];
      LessAfter(a[1..], b[1..], s, t);
    }
  }

  lemma LessOneDigit(c: nat, d: nat)
    requires c < 10 && d < 10
    ensures Less([DigitChar(c)], [DigitChar(d)]) <==> c < d
    ensures DigitChar(c) == DigitChar(d) <==> c == d
  {}

  lemma {:induction false} LessFixed(m: nat, n: nat, width: nat)
    requires m < Pow10(width) && n < Pow10(width)
    ensures Less(Fixed(m, width), Fixed(n, width)) <==> m < n
    ensures Fixed(m, width) == Fixed(n, width) <==> m == n
    decreases width
  {
    if width > 0 {
      LessFixed(m / 10, n / 10, width - 1);
      LessOneDigit(m % 10, n % 10);
      var a, b := Fixed(m / 10, width - 1), Fixed(n / 10, width - 1);
      LessAfter(a, b, [DigitChar(m % 10)], [DigitChar(n % 10)]);
      assert Fixed(m, width)[..width - 1] == a && Fixed(n, width)[..width - 1] == b;
      assert Fixed(m, width)[width - 1] == DigitChar(m % 10) && Fixed(n, width)[width - 1] == DigitChar(n % 10);
    }
  }

  lemma {:induction false} LessSame(sep: string, s: string, t: string)
    ensures Less(sep + s, sep + t) <==> Less(s, t)
  {
    LessAfter(sep, sep, s, t);
    NotLessItself(sep);
  }

  lemma {:induction false} NotLessItself(s: string)
    ensures !Less(s, s)
  {
    if s != [] {
      NotLessItself(s[1..]);
    }
  }

  /** Texts of one shape are in the order of their fields. */
  lemma {:induction false} TextOrder(f: seq<Field>, g: seq<Field>)
    requires SameShape(f, g)
    ensures Less(Text(f), Text(g)) <==> LexLess(f, g)
    decreases |f|
  {
    if f != [] {
      var s, t := f[0].sep + Text(f[1..]), g[0].sep + Text(g[1..]);
      LessFixed(f[0].value, g[0].value, f[0].width);
      LessAfter(Fixed(f[0].value, f[0].width), Fixed(g[0].value, g[0].width), s, t);
      LessSame(f[0].sep, Text(f[1..]), Text(g[1..]));
      TextOrder(f[1..], g[1..]);
    }
  }

  // ----- The texts of instants -----

  predicate FourDigitYear(d: Date) {
    0 <= d.year <= 9999 && 1 <= d.month <= 12 && 1 <= d.day <= 31
  }

  predicate InRange(unix: int) {
    0 <= CivilFromDays(unix / 86400).year <= 9999
  }

  function FieldsOf(d: Date, seconds: nat, seps: seq<string>): seq<Field>
    requires FourDigitYear(d) && |seps| == 6
  {
    [Field(d.year, 4, seps[0]), Field(d.month, 2, seps[1]), Field(d.day, 2, seps[2]),
     Field(seconds / 3600, 2, seps[3]), Field(seconds % 3600 / 60, 2, seps[4]), Field(seconds % 60, 2, seps[5])]
  }

  const LOG := ["-", "-", " ", ":", ":", ""]
  const MIGRATION := ["_", "_", "_", "", "", ""]

  lemma TenToThe()
    ensures Pow10(2) == 100 && Pow10(4) == 10000
  {}

  lemma SixFields(f: seq<Field>)
    requires |f| == 6
    ensures Text(f) == Fixed(f[0].value, f[0].width) + (f[0].sep + (Fixed(f[1].value, f[1].width) + (f[1].sep
                     + (Fixed(f[2].value, f[2].width) + (f[2].sep + (Fixed(f[3].value, f[3].width) + (f[3].sep
                     + (Fixed(f[4].value, f[4].width) + (f[4].sep + (Fixed(f[5].value, f[5].width) + f[5].sep))))))))))
  {
    hide Fixed;
    assert Text(f[5..]) == Fixed(f[5].value, f[5].width) + (f[5].sep + Text(f[5..][1..]));
    assert f[5].sep + [] == f[5].sep;
    assert f[4..][1..] == f[5..] && f[3..][1..] == f[4..] && f[2..][1..] == f[3..] && f[1..][1..] == f[2..];
    assert Text(f[4..]) == Fixed(f[4].value, f[4].width) + (f[4].sep + Text(f[5..]));
    assert Text(f[3..]) == Fixed(f[3].value, f[3].width) + (f[3].sep + Text(f[4..]));
    assert Text(f[2..]) == Fixed(f[2].value, f[2].width) + (f[2].sep + Text(f[3..]));
    assert Text(f[1..]) == Fixed(f[1].value, f[1].width) + (f[1].sep + Text(f[2..]));
  }

  lemma DateFields(d: Date)
    requires FourDigitYear(d)
    ensures PaddedInt(d.year, 4) == Fixed(d.year, 4) && PaddedInt(d.month, 2) == Fixed(d.month, 2)
            && PaddedInt(d.day, 2) == Fixed(d.day, 2)
  {
    TenToThe();
    hide Pow10, Fixed, Padded;
    PaddedIsFixed(d.year, 4);
    PaddedIsFixed(d.month, 2);
    PaddedIsFixed(d.day, 2);
  }

  lemma TimeFields(seconds: nat)
    requires seconds < 86400
    ensures Padded(seconds / 3600, 2) == Fixed(seconds / 3600, 2)
    ensures Padded(seconds % 3600 / 60, 2) == Fixed(seconds % 3600 / 60, 2)
            && Padded(seconds % 60, 2) == Fixed(seconds % 60, 2)
  {
    TenToThe();
    hide Pow10, Fixed, Padded;
    PaddedIsFixed(seconds / 3600, 2);
    PaddedIsFixed(seconds % 3600 / 60, 2);
    PaddedIsFixed(seconds % 60, 2);
  }

  lemma DateHasFourDigits(unix: int)
    requires InRange(unix)
    ensures FourDigitYear(CivilFromDays(unix / 86400))
  {
    EveryDayHasADate(unix / 86400);
    hide CivilFromDays;
  }

  lemma FormatIsText(unix: int)
    requires InRange(unix)
    ensures FourDigitYear(CivilFromDays(unix / 86400))
    ensures FormatUtc(unix) == Text(FieldsOf(CivilFromDays(unix / 86400), unix % 86400, LOG))
    ensures MigrationStamp(unix) == Text(FieldsOf(CivilFromDays(unix / 86400), unix % 86400, MIGRATION))
  {
    hide CivilFromDays, CivilOfLog, Padded, PaddedInt, Fixed, Text;
    var d, seconds := CivilFromDays(unix / 86400), unix % 86400;
    TheTwoAgree(unix / 86400);
    DateHasFourDigits(unix);
    DateFields(d);
    TimeFields(seconds);
    SixFields(FieldsOf(d, seconds, LOG));
    SixFields(FieldsOf(d, seconds, MIGRATION));
  }

  lemma FieldsFit(d: Date, r: nat, e: Date, s: nat, seps: seq<string>)
    requires FourDigitYear(d) && FourDigitYear(e) && r < 86400 && s < 86400 && |seps| == 6
    ensures SameShape(FieldsOf(d, r, seps), FieldsOf(e, s, seps))
  {
    TenToThe();
    hide Pow10;
  }

  /** Six fields compare as the date does, and then as the time of day does. */
  lemma FieldsInOrder(d: Date, r: nat, e: Date, s: nat, seps: seq<string>)
    requires FourDigitYear(d) && FourDigitYear(e) && r < 86400 && s < 86400 && |seps| == 6
    ensures LexLess(FieldsOf(d, r, seps), FieldsOf(e, s, seps)) <==> Before(d, e) || (d == e && r < s)
  {
    var f, g := FieldsOf(d, r, seps), FieldsOf(e, s, seps);
    SixLess(f, g);
    TimeOrder(r, s, r / 3600, r % 3600 / 60, r % 60, s / 3600, s % 3600 / 60, s % 60);
  }

  lemma SixLess(f: seq<Field>, g: seq<Field>)
    requires |f| == |g| == 6
    ensures LexLess(f, g) <==>
            || f[0].value < g[0].value || (f[0].value == g[0].value
               && (f[1].value < g[1].value || (f[1].value == g[1].value
            && (f[2].value < g[2].value || (f[2].value == g[2].value
               && (f[3].value < g[3].value || (f[3].value == g[3].value
            && (f[4].value < g[4].value || (f[4].value == g[4].value && f[5].value < g[5].value)))))))))
  {
    assert f[4..][1..] == f[5..] && f[3..][1..] == f[4..] && f[2..][1..] == f[3..] && f[1..][1..] == f[2..];
    assert g[4..][1..] == g[5..] && g[3..][1..] == g[4..] && g[2..][1..] == g[3..] && g[1..][1..] == g[2..];
    assert LexLess(f[5..], g[5..]) <==> f[5].value < g[5].value;
    assert LexLess(f[4..], g[4..]) <==>
           f[4].value < g[4].value || (f[4].value == g[4].value && LexLess(f[5..], g[5..]));
    assert LexLess(f[3..], g[3..]) <==>
           f[3].value < g[3].value || (f[3].value == g[3].value && LexLess(f[4..], g[4..]));
    assert LexLess(f[2..], g[2..]) <==>
           f[2].value < g[2].value || (f[2].value == g[2].value && LexLess(f[3..], g[3..]));
    assert LexLess(f[1..], g[1..]) <==>
           f[1].value < g[1].value || (f[1].value == g[1].value && LexLess(f[2..], g[2..]));
  }

  lemma TimeOrder(r: nat, s: nat, h: nat, m: nat, x: nat, i: nat, n: nat, y: nat)
    requires h == r / 3600 && m == r % 3600 / 60 && x == r % 60
    requires i == s / 3600 && n == s % 3600 / 60 && y == s % 60
    ensures r < s <==> h < i || (h == i && (m < n || (m == n && x < y)))
  {
    Clock(r, h, m, x);
    Clock(s, i, n, y);
  }

  lemma Clock(r: nat, h: nat, m: nat, x: nat)
    requires h == r / 3600 && m == r % 3600 / 60 && x == r % 60
    ensures r == 3600 * h + 60 * m + x && m < 60 && x < 60
  {
    var t := r % 3600;
    SixtyFold(h, m, t % 60);
  }

  lemma SixtyFold(h: nat, m: nat, u: nat)
    requires u < 60
    ensures (3600 * h + 60 * m + u) % 60 == u
  {}

  /** For years 0 to 9999 the order of the texts is the order of the instants. */
  lemma TextOrderIsTimeOrder(a: int, b: int)
    requires InRange(a) && InRange(b)
    ensures Less(FormatUtc(a), FormatUtc(b)) <==> a < b
    ensures Less(MigrationStamp(a), MigrationStamp(b)) <==> a < b
  {
    hide CivilFromDays, FormatUtc, MigrationStamp, Less, LexLess, Text;
    var d, e := CivilFromDays(a / 86400), CivilFromDays(b / 86400);
    FormatIsText(a);
    FormatIsText(b);
    InstantOrder(a, b);
    StampOrder(d, a % 86400, e, b % 86400, LOG);
    StampOrder(d, a % 86400, e, b % 86400, MIGRATION);
  }

  lemma StampOrder(d: Date, r: nat, e: Date, s: nat, seps: seq<string>)
    requires FourDigitYear(d) && FourDigitYear(e) && r < 86400 && s < 86400 && |seps| == 6
    ensures Less(Text(FieldsOf(d, r, seps)), Text(FieldsOf(e, s, seps))) <==> Before(d, e) || (d == e && r < s)
  {
    FieldsFit(d, r, e, s, seps);
    FieldsInOrder(d, r, e, s, seps);
    TextOrder(FieldsOf(d, r, seps), FieldsOf(e, s, seps));
  }

  lemma InstantOrder(a: int, b: int)
    ensures var d, e := CivilFromDays(a / 86400), CivilFromDays(b / 86400);
            a < b <==> Before(d, e) || (d == e && a % 86400 < b % 86400)
  {
    hide CivilFromDays;
    DatesInOrder(a / 86400, b / 86400);
    DatesInOrder(b / 86400, a / 86400);
    DayAndTime(a, b);
  }

  lemma DayAndTime(a: int, b: int)
    ensures a < b <==> a / 86400 < b / 86400 || (a / 86400 == b / 86400 && a % 86400 < b % 86400)
  {}

  // ----- The day filter -----

  /** A day as a date picker writes it. */
  function DayText(d: Date): string
    requires FourDigitYear(d)
  {
    Fixed(d.year, 4) + "-" + Fixed(d.month, 2) + "-" + Fixed(d.day, 2)
  }

  /** Which entries the query lets through; an empty bound is no bound. */
  predicate Selects(from: string, to: string, created: string) {
    && (from != "" ==> !Less(created, from + " 00:00:00"))
    && (to != "" ==> !Less(to + " 23:59:59", created))
  }

  lemma DayBounds(d: Date)
    requires FourDigitYear(d)
    ensures DayText(d) != ""
    ensures DayText(d) + " 00:00:00" == Text(FieldsOf(d, 0, LOG))
    ensures DayText(d) + " 23:59:59" == Text(FieldsOf(d, 86399, LOG))
  {
    TwoDigits();
    hide Fixed, Text;
    DayAtTime(d, 0, "00", "00", "00");
    DayAtTime(d, 86399, "23", "59", "59");
    assert " " + "00" + ":" + "00" + ":" + "00" == " 00:00:00" && " " + "23" + ":" + "59" + ":" + "59" == " 23:59:59";
  }

  lemma TwoDigits()
    ensures Fixed(0, 2) == "00" && Fixed(23, 2) == "23" && Fixed(59, 2) == "59"
  {
    TwoDigitsOf(0, 2, 0, 0);
    TwoDigitsOf(23, 2, 2, 3);
    TwoDigitsOf(59, 2, 5, 9);
  }

  lemma TwoDigitsOf(n: nat, width: nat, tens: nat, ones: nat)
    requires width == 2 && tens < 10 && ones < 10 && n == 10 * tens + ones
    ensures Fixed(n, width) == [DigitChar(tens), DigitChar(ones)]
  {
    hide DigitChar;
    OneStep(n, width, tens, ones);
    OneStep(tens, width - 1, 0, tens);
    assert Fixed(0, width - 2) == [];
  }

  lemma OneStep(n: nat, width: nat, front: nat, last: nat)
    requires width > 0 && last < 10 && n == 10 * front + last
    ensures Fixed(n, width) == Fixed(front, width - 1) + [DigitChar(last)]
  {
    hide DigitChar;
    assert n / 10 == front && n % 10 == last;
  }

  lemma DayAtTime(d: Date, seconds: nat, h: string, m: string, s: string)
    requires FourDigitYear(d)
    requires h == Fixed(seconds / 3600, 2) && m == Fixed(seconds % 3600 / 60, 2) && s == Fixed(seconds % 60, 2)
    ensures DayText(d) != [] && DayText(d) + (" " + h + ":" + m + ":" + s) == Text(FieldsOf(d, seconds, LOG))
  {
    SixFields(FieldsOf(d, seconds, LOG));
    hide Fixed, Text;
    Regroup(Fixed(d.year, 4), Fixed(d.month, 2), Fixed(d.day, 2), h, m, s);
  }

  lemma Regroup(y: string, o: string, d: string, h: string, m: string, s: string)
    ensures (y + "-" + o + "-" + d) + (" " + h + ":" + m + ":" + s)
         == y + ("-" + (o + ("-" + (d + (" " + (h + (":" + (m + (":" + (s + ""))))))))))
  {}

  /** The filter selects exactly the entries of the days from the first to the last, both included. */
  lemma FilterSelectsTheDays(from: Date, to: Date, unix: int)
    requires IsDate(from) && IsDate(to) && 0 <= from.year <= 9999 && 0 <= to.year <= 9999 && InRange(unix)
    ensures FourDigitYear(from) && FourDigitYear(to)
    ensures Selects(DayText(from), DayText(to), FormatUtc(unix)) <==> DayNumber(from) <= unix / 86400 <= DayNumber(to)
  {
    hide CivilFromDays, FormatUtc, Less, Text, DayText, DayNumber;
    var d, s := CivilFromDays(unix / 86400), unix % 86400;
    FormatIsText(unix);
    DayBounds(from);
    DayBounds(to);
    StampOrder(d, s, from, 0, LOG);
    StampOrder(to, 86399, d, s, LOG);
    NumberedOrder(from, unix / 86400);
    NumberedOrder(to, unix / 86400);
  }

  lemma NumberedOrder(d: Date, days: int)
    requires IsDate(d)
    ensures Before(d, CivilFromDays(days)) <==> DayNumber(d) < days
    ensures Before(CivilFromDays(days), d) <==> days < DayNumber(d)
  {
    hide CivilFromDays, DayNumber;
    CivilUndoesDayNumber(d);
    DatesInOrder(DayNumber(d), days);
    DatesInOrder(days, DayNumber(d));
  }

  /** Either bound may be left open. */
  lemma OpenFilter(from: Date, to: Date, unix: int)
    requires IsDate(from) && IsDate(to) && 0 <= from.year <= 9999 && 0 <= to.year <= 9999 && InRange(unix)
    ensures FourDigitYear(from) && FourDigitYear(to)
    ensures Selects(DayText(from), "", FormatUtc(unix)) <==> DayNumber(from) <= unix / 86400
    ensures Selects("", DayText(to), FormatUtc(unix)) <==> unix / 86400 <= DayNumber(to)
    ensures Selects("", "", FormatUtc(unix))
  {
    hide CivilFromDays, FormatUtc, Less, Text, DayText, DayNumber;
    var d, s := CivilFromDays(unix / 86400), unix % 86400;
    FormatIsText(unix);
    DayBounds(from);
    DayBounds(to);
    StampOrder(d, s, from, 0, LOG);
    StampOrder(to, 86399, d, s, LOG);
    NumberedOrder(from, unix / 86400);
    NumberedOrder(to, unix / 86400);
  }
}

/** UTC instants and the text Python's `datetime.isoformat` gives them. The job table stores that text
    and SQLite compares it character by character. */
module Timestamps {
  import opened Wrappers

  datatype DateTime = DateTime(year: nat, month: nat, day: nat, hour: nat, minute: nat, second: nat, micro: nat)

  // ---------------------------------------------------------------- the calendar

  predicate Leap(y: nat) {
    y % 4 == 0 && (y % 100 != 0 || y % 400 == 0)
  }

  function DaysIn(y: nat, m: nat): nat {
    if m == 2 then (if Leap(y) then 29 else 28)
    else if m in {4, 6, 9, 11} then 30 else 31
  }

  predicate Valid(d: DateTime) {
    && 1 <= d.year
    && 1 <= d.month <= 12
    && 1 <= d.day <= DaysIn(d.year, d.month)
    && d.hour < 24 && d.minute < 60 && d.second < 60 && d.micro < 1_000_000
  }

  /** The instant one microsecond later, field by field with carries. */
  function Tick(d: DateTime): DateTime {
    if d.micro + 1 < 1_000_000 then d.(micro := d.micro + 1)
    else if d.second + 1 < 60 then d.(micro := 0, second := d.second + 1)
    else if d.minute + 1 < 60 then d.(micro := 0, second := 0, minute := d.minute + 1)
    else if d.hour + 1 < 24 then d.(micro := 0, second := 0, minute := 0, hour := d.hour + 1)
    else if d.day + 1 <= DaysIn(d.year, d.month) then DateTime(d.year, d.month, d.day + 1, 0, 0, 0, 0)
    else if d.month + 1 <= 12 then DateTime(d.year, d.month + 1, 1, 0, 0, 0, 0)
    else DateTime(d.year + 1, 1, 1, 0, 0, 0, 0)
  }

  /** The instant `t` microseconds after 0001-01-01T00:00:00 UTC. */
  function Civil(t: nat): DateTime {
    if t == 0 then DateTime(1, 1, 1, 0, 0, 0, 0) else Tick(Civil(t - 1))
  }

  function DaysBeforeYear(y: nat): int
  {
    (y - 1) * 365 + (y - 1) / 4 - (y - 1) / 100 + (y - 1) / 400
  }

  function DaysBeforeMonth(y: nat, m: nat): nat {
    if m <= 1 then 0 else DaysBeforeMonth(y, m - 1) + DaysIn(y, m - 1)
  }

  function Day(d: DateTime): int {
    DaysBeforeYear(d.year) + DaysBeforeMonth(d.year, d.month) + d.day - 1
  }

  function SecondOfDay(d: DateTime): nat {
    (d.hour * 60 + d.minute) * 60 + d.second
  }

  /** The closed form: microseconds since 0001-01-01 by the Gregorian day count. */
  function Micros(d: DateTime): int {
    (Day(d) * 86400 + SecondOfDay(d)) * 1_000_000 + d.micro
  }

  lemma YearLength(y: nat)
    requires 1 <= y
    ensures DaysBeforeMonth(y, 12) + 31 == if Leap(y) then 366 else 365
    ensures DaysBeforeYear(y + 1) == DaysBeforeYear(y) + DaysBeforeMonth(y, 12) + 31
  {
    assert DaysBeforeMonth(y, 2) == 31;
    assert DaysBeforeMonth(y, 4) == DaysBeforeMonth(y, 3) + 31 == DaysBeforeMonth(y, 2) + DaysIn(y, 2) + 31;
    assert DaysBeforeMonth(y, 6) == DaysBeforeMonth(y, 5) + 31 == DaysBeforeMonth(y, 4) + 61;
    assert DaysBeforeMonth(y, 8) == DaysBeforeMonth(y, 7) + 31 == DaysBeforeMonth(y, 6) + 61;
    assert DaysBeforeMonth(y, 10) == DaysBeforeMonth(y, 9) + 30 == DaysBeforeMonth(y, 8) + 61;
    assert DaysBeforeMonth(y, 12) == DaysBeforeMonth(y, 11) + 30 == DaysBeforeMonth(y, 10) + 61;
    LeapDays(y);
  }

  lemma LeapDays(y: nat)
    requires 1 <= y
    ensures DaysBeforeYear(y + 1) == DaysBeforeYear(y) + if Leap(y) then 366 else 365
  {
    Quotients(y);
    Multiples(y);
  }

  lemma Multiples(y: nat)
    ensures y % 100 == 0 ==> y % 4 == 0
    ensures y % 400 == 0 ==> y % 100 == 0
  {
    if y % 100 == 0 {
      assert y == 4 * (25 * (y / 100));
    }
    if y % 400 == 0 {
      assert y == 100 * (4 * (y / 400));
    }
  }

  lemma Quotients(y: nat)
    requires 1 <= y
    ensures y / 4 == (y - 1) / 4 + if y % 4 == 0 then 1 else 0
    ensures y / 100 == (y - 1) / 100 + if y % 100 == 0 then 1 else 0
    ensures y / 400 == (y - 1) / 400 + if y % 400 == 0 then 1 else 0
  {
  }

  predicate LastDay(d: DateTime) {
    d.day + 1 > DaysIn(d.year, d.month)
  }

  lemma NextDay(d: DateTime, e: DateTime)
    requires Valid(d)
    requires e.day == if LastDay(d) then 1 else d.day + 1
    requires e.month == if !LastDay(d) then d.month else if d.month == 12 then 1 else d.month + 1
    requires e.year == if LastDay(d) && d.month == 12 then d.year + 1 else d.year
    ensures Day(e) == Day(d) + 1
  {
    YearLength(d.year);
  }

  lemma TickIsOneMicro(d: DateTime)
    requires Valid(d)
    ensures Valid(Tick(d)) && Micros(Tick(d)) == Micros(d) + 1
  {
    var e := Tick(d);
    if e.hour == e.minute == e.second == e.micro == 0 && e.day != d.day {
      NextDay(d, e);
    } else {
      assert Day(e) == Day(d);
    }
  }

  lemma {:induction false} CivilMicros(t: nat)
    ensures Valid(Civil(t)) && Micros(Civil(t)) == t
  {
    if t > 0 {
      CivilMicros(t - 1);
      TickIsOneMicro(Civil(t - 1));
    }
  }

  // ---------------------------------------------------------------- the text

  function Digit(k: nat): char
    requires k < 10
  {
    '0' + (k as char)
  }

  function Pad(n: nat, width: nat): string {
    if width == 0 then "" else Pad(n / 10, width - 1) + [Digit(n % 10)]
  }

  /** One zero-padded field after another, each followed by its separator, then `tail`. */
  function Print(fields: seq<nat>, layout: seq<(nat, string)>, tail: string): string
    requires |fields| == |layout|
  {
    if fields == [] then tail
    else Pad(fields[0], layout[0].0) + (layout[0].1 + Print(fields[1..], layout[1..], tail))
  }

  const LAYOUT: seq<(nat, string)> := [(4, "-"), (2, "-"), (2, "T"), (2, ":"), (2, ":"), (2, "")]

  function Fields(d: DateTime): seq<nat> {
    [d.year, d.month, d.day, d.hour, d.minute, d.second]
  }

  /** isoformat leaves the fraction out when the microseconds are zero. */
  function Fraction(micro: nat): string {
    (if micro == 0 then "" else "." + Pad(micro, 6)) + "+00:00"
  }

  function IsoFormat(d: DateTime): string {
    Print(Fields(d), LAYOUT, Fraction(d.micro))
  }

  /** SQLite's comparison of two TEXT values. */
  predicate StringLess(a: string, b: string) {
    && b != []
    && (a == [] || a[0] < b[0] || (a[0] == b[0] && StringLess(a[1..], b[1..])))
  }

  // ---------------------------------------------------------------- order of the text

  lemma {:induction false} LessAppend(a: string, b: string, x: string, y: string)
    requires |a| == |b|
    ensures StringLess(a + x, b + y) <==> StringLess(a, b) || (a == b && StringLess(x, y))
  {
    if a == [] {
      assert a + x == x && b + y == y;
    } else {
      assert (a + x)[1..] == a[1..] + x && (b + y)[1..] == b[1..] + y;
      LessAppend(a[1..], b[1..], x, y);
      assert a == [a[0]] + a[1..] && b == [b[0]] + b[1..];
    }
  }

  lemma {:induction false} LessIrreflexive(a: string)
    ensures !StringLess(a, a)
  {
    if a != [] {
      LessIrreflexive(a[1..]);
    }
  }

  function Pow10(w: nat): nat {
    if w == 0 then 1 else 10 * Pow10(w - 1)
  }

  lemma {:induction false} PadOrder(m: nat, n: nat, w: nat)
    requires m < Pow10(w) && n < Pow10(w)
    ensures |Pad(m, w)| == |Pad(n, w)| == w
    ensures StringLess(Pad(m, w), Pad(n, w)) <==> m < n
    ensures Pad(m, w) == Pad(n, w) <==> m == n
  {
    if w > 0 {
      PadOrder(m / 10, n / 10, w - 1);
      LessAppend(Pad(m / 10, w - 1), Pad(n / 10, w - 1), [Digit(m % 10)], [Digit(n % 10)]);
      assert Pad(m, w)[..w - 1] == Pad(m / 10, w - 1) && Pad(n, w)[..w - 1] == Pad(n / 10, w - 1);
      assert Pad(m, w)[w - 1] == Digit(m % 10) && Pad(n, w)[w - 1] == Digit(n % 10);
    }
  }

  predicate FieldsLess(a: seq<nat>, b: seq<nat>)
    requires |a| == |b|
  {
    a != [] && (a[0] < b[0] || (a[0] == b[0] && FieldsLess(a[1..], b[1..])))
  }

  ghost predicate Fits(a: seq<nat>, layout: seq<(nat, string)>) {
    |a| == |layout| && forall i :: 0 <= i < |a| ==> a[i] < Pow10(layout[i].0)
  }

  lemma SameSeparator(a: string, b: string, sep: string, x: string, y: string)
    requires |a| == |b|
    ensures StringLess(a + (sep + x), b + (sep + y)) <==> StringLess(a, b) || (a == b && StringLess(x, y))
  {
    LessIrreflexive(sep);
    LessAppend(sep, sep, x, y);
    LessAppend(a, b, sep + x, sep + y);
  }

  lemma {:induction false} PrintOrder(a: seq<nat>, b: seq<nat>, layout: seq<(nat, string)>, x: string, y: string)
    requires Fits(a, layout) && Fits(b, layout)
    ensures StringLess(Print(a, layout, x), Print(b, layout, y)) <==>
              FieldsLess(a, b) || (a == b && StringLess(x, y))
  {
    if a != [] {
      var px, py := Print(a[1..], layout[1..], x), Print(b[1..], layout[1..], y);
      assert Print(a, layout, x) == Pad(a[0], layout[0].0) + (layout[0].1 + px);
      assert Print(b, layout, y) == Pad(b[0], layout[0].0) + (layout[0].1 + py);
      PrintOrder(a[1..], b[1..], layout[1..], x, y);
      PadOrder(a[0], b[0], layout[0].0);
      SameSeparator(Pad(a[0], layout[0].0), Pad(b[0], layout[0].0), layout[0].1, px, py);
      assert a == [a[0]] + a[1..] && b == [b[0]] + b[1..];
    }
  }

  /** The optional fraction sorts right because '+' sorts before '.'. */
  lemma FractionOrder(u: nat, v: nat)
    requires u < 1_000_000 && v < 1_000_000
    ensures StringLess(Fraction(u), Fraction(v)) <==> u < v
  {
    var zone := "+00:00";
    LessIrreflexive(zone);
    assert Pow10(6) == 1_000_000 by { assert Pow10(3) == 1000; }
    assert u == 0 ==> Fraction(u) == zone;
    assert v == 0 ==> Fraction(v) == zone;
    if u > 0 && v > 0 {
      PadOrder(u, v, 6);
      assert Fraction(u) == "." + (Pad(u, 6) + zone) && Fraction(v) == "." + (Pad(v, 6) + zone);
      LessAppend(".", ".", Pad(u, 6) + zone, Pad(v, 6) + zone);
      LessAppend(Pad(u, 6), Pad(v, 6), zone, zone);
    }
  }

  // ---------------------------------------------------------------- order of time

  lemma {:induction false} MonthsGrow(y: nat, m: nat, n: nat)
    requires 1 <= m <= n
    ensures DaysBeforeMonth(y, m) <= DaysBeforeMonth(y, n)
  {
    if m < n {
      MonthsGrow(y, m, n - 1);
    }
  }

  lemma {:induction false} YearsGrow(y: nat, z: nat)
    requires 1 <= y <= z
    ensures DaysBeforeYear(y) <= DaysBeforeYear(z)
  {
    if y < z {
      YearsGrow(y, z - 1);
      YearLength(z - 1);
    }
  }

  lemma EarlierDay(a: DateTime, b: DateTime)
    requires Valid(a) && Valid(b)
    requires a.year < b.year || (a.year == b.year && (a.month < b.month || (a.month == b.month && a.day < b.day)))
    ensures Day(a) < Day(b)
  {
    YearLength(a.year);
    if a.year < b.year {
      MonthsGrow(a.year, a.month, 12);
      if a.month < 12 {
        MonthsGrow(a.year, a.month + 1, 12);
      }
      YearsGrow(a.year + 1, b.year);
    } else if a.month < b.month {
      MonthsGrow(a.year, a.month + 1, b.month);
    }
  }

  lemma FieldsLessUnfolds(a: DateTime, b: DateTime)
    ensures FieldsLess(Fields(a), Fields(b)) <==>
              || a.year < b.year
              || (a.year == b.year && a.month < b.month)
              || (a.year == b.year && a.month == b.month && a.day < b.day)
              || (a.year == b.year && a.month == b.month && a.day == b.day
                  && (a.hour < b.hour || (a.hour == b.hour
                      && (a.minute < b.minute || (a.minute == b.minute && a.second < b.second)))))
  {
    var fa, fb := Fields(a), Fields(b);
    assert fa[1..][1..] == fa[2..] && fb[1..][1..] == fb[2..];
    assert fa[2..][1..] == fa[3..] && fb[2..][1..] == fb[3..];
    assert fa[3..][1..] == fa[4..] && fb[3..][1..] == fb[4..];
    assert fa[4..][1..] == fa[5..] && fb[4..][1..] == fb[5..];
    assert fa[5..][1..] == fa[6..] && fb[5..][1..] == fb[6..];
    assert FieldsLess(fa[5..], fb[5..]) <==> a.second < b.second;
    assert FieldsLess(fa[4..], fb[4..]) <==>
      a.minute < b.minute || (a.minute == b.minute && a.second < b.second);
    assert FieldsLess(fa[2..], fb[2..]) <==>
      a.day < b.day || (a.day == b.day && (a.hour < b.hour || (a.hour == b.hour && FieldsLess(fa[4..], fb[4..]))));
  }

  lemma EarlierIsFewerMicros(a: DateTime, b: DateTime)
    requires Valid(a) && Valid(b)
    requires FieldsLess(Fields(a), Fields(b)) || (Fields(a) == Fields(b) && a.micro < b.micro)
    ensures Micros(a) < Micros(b)
  {
    FieldsLessUnfolds(a, b);
    if FieldsLess(Fields(a), Fields(b)) {
      if a.year == b.year && a.month == b.month && a.day == b.day {
        assert SecondOfDay(a) < SecondOfDay(b);
      } else {
        EarlierDay(a, b);
      }
    } else {
      assert Fields(a)[0] == Fields(b)[0] && Fields(a)[1] == Fields(b)[1] && Fields(a)[2] == Fields(b)[2];
      assert Fields(a)[3] == Fields(b)[3] && Fields(a)[4] == Fields(b)[4] && Fields(a)[5] == Fields(b)[5];
    }
  }

  lemma Trichotomy(a: DateTime, b: DateTime)
    ensures FieldsLess(Fields(a), Fields(b)) || FieldsLess(Fields(b), Fields(a)) || Fields(a) == Fields(b)
  {
    FieldsLessUnfolds(a, b);
    FieldsLessUnfolds(b, a);
  }

  /** For UTC instants of years 1 to 9999 the text order is the time order. */
  lemma IsoOrder(a: DateTime, b: DateTime)
    requires Valid(a) && Valid(b) && a.year <= 9999 && b.year <= 9999
    ensures StringLess(IsoFormat(a), IsoFormat(b)) <==> Micros(a) < Micros(b)
  {
    assert Pow10(2) == 100 && Pow10(4) == 10000;
    assert Fits(Fields(a), LAYOUT) && Fits(Fields(b), LAYOUT);
    PrintOrder(Fields(a), Fields(b), LAYOUT, Fraction(a.micro), Fraction(b.micro));
    FractionOrder(a.micro, b.micro);
    Trichotomy(a, b);
    if FieldsLess(Fields(a), Fields(b)) || (Fields(a) == Fields(b) && a.micro < b.micro) {
      EarlierIsFewerMicros(a, b);
    } else if FieldsLess(Fields(b), Fields(a)) || b.micro < a.micro {
      EarlierIsFewerMicros(b, a);
    } else {
      assert Fields(a)[0] == Fields(b)[0] && Fields(a)[1] == Fields(b)[1] && Fields(a)[2] == Fields(b)[2];
      assert Fields(a)[3] == Fields(b)[3] && Fields(a)[4] == Fields(b)[4] && Fields(a)[5] == Fields(b)[5];
      assert a == b;
    }
  }

  // ---------------------------------------------------------------- reading the text back

  predicate IsDigit(c: char) {
    '0' <= c <= '9'
  }

  function Value(digits: string): nat
    requires forall i :: 0 <= i < |digits| ==> IsDigit(digits[i])
  {
    if digits == "" then 0
    else
      assert IsDigit(digits[|digits| - 1]);
      Value(digits[..|digits| - 1]) * 10 + (digits[|digits| - 1] as int - '0' as int)
  }

  /** Reads numbers of fixed width, each followed by its separator. */
  function ReadFields(text: string, layout: seq<(nat, string)>): Option<(seq<nat>, string)>
    decreases |layout|
  {
    if layout == [] then Some(([], text))
    else
      var (width, sep) := layout[0];
      if |text| < width + |sep| || text[width..width + |sep|] != sep
         || (exists i :: 0 <= i < width && !IsDigit(text[i]))
      then None
      else
        var rest := ReadFields(text[width + |sep|..], layout[1..]);
        if rest.None? then None else Some(([Value(text[..width])] + rest.value.0, rest.value.1))
  }

  function ReadMicros(tail: string): Option<nat> {
    if tail == "+00:00" then Some(0)
    else if |tail| == 13 && tail[0] == '.' && tail[7..] == "+00:00" && forall i :: 1 <= i < 7 ==> IsDigit(tail[i])
    then Some(Value(tail[1..7]))
    else None
  }

  /** `datetime.fromisoformat` on the shape the tables hold: YYYY-MM-DDTHH:MM:SS, perhaps six digits after a
      point, and the offset of UTC. */
  function FromIso(text: string): Option<DateTime> {
    var read := ReadFields(text, [(4, "-"), (2, "-"), (2, "T"), (2, ":"), (2, ":"), (2, "")]);
    if read.None? || |read.value.0| != 6 || ReadMicros(read.value.1).None? then None
    else
      var f := read.value.0;
      Some(DateTime(f[0], f[1], f[2], f[3], f[4], f[5], ReadMicros(read.value.1).value))
  }

  lemma {:induction false} PadReads(n: nat, width: nat)
    requires n < Pow10(width)
    ensures |Pad(n, width)| == width && forall i :: 0 <= i < width ==> IsDigit(Pad(n, width)[i])
    ensures Value(Pad(n, width)) == n
  {
    if width > 0 {
      PadReads(n / 10, width - 1);
      assert Pad(n, width)[..width - 1] == Pad(n / 10, width - 1);
      assert Pad(n, width)[width - 1] == Digit(n % 10);
    }
  }

  lemma Slices(pad: string, sep: string, rest: string)
    ensures var text := pad + (sep + rest);
            && |text| >= |pad| + |sep| && text[..|pad|] == pad && text[|pad|..|pad| + |sep|] == sep
            && text[|pad| + |sep|..] == rest && forall i :: 0 <= i < |pad| ==> text[i] == pad[i]
  {
  }

  lemma {:induction false} PrintReads(fields: seq<nat>, layout: seq<(nat, string)>, tail: string)
    requires Fits(fields, layout)
    ensures ReadFields(Print(fields, layout, tail), layout) == Some((fields, tail))
    decreases |layout|
  {
    if layout != [] {
      var (width, sep) := layout[0];
      var rest := Print(fields[1..], layout[1..], tail);
      PrintReads(fields[1..], layout[1..], tail);
      PadReads(fields[0], width);
      Slices(Pad(fields[0], width), sep, rest);
      assert Print(fields, layout, tail) == Pad(fields[0], width) + (sep + rest);
      assert fields == [fields[0]] + fields[1..];
    }
  }

  lemma FractionReads(micro: nat)
    requires micro < 1_000_000
    ensures ReadMicros(Fraction(micro)) == Some(micro)
  {
    if micro > 0 {
      assert Pow10(6) == 1_000_000 by { assert Pow10(3) == 1000; }
      PadReads(micro, 6);
      var pad := Pad(micro, 6);
      var text := "." + pad + "+00:00";
      assert Fraction(micro) == text && text[1..7] == pad && text[7..] == "+00:00";
      assert forall i :: 1 <= i < 7 ==> text[i] == pad[i - 1];
    }
  }

  /** Reading what isoformat wrote gives back the date-time. */
  lemma IsoReadsBack(d: DateTime)
    requires Valid(d) && d.year <= 9999
    ensures FromIso(IsoFormat(d)) == Some(d)
  {
    assert Pow10(2) == 100 && Pow10(4) == 10000;
    assert Fits(Fields(d), LAYOUT);
    PrintReads(Fields(d), LAYOUT, Fraction(d.micro));
    FractionReads(d.micro);
    assert LAYOUT == [(4, "-"), (2, "-"), (2, "T"), (2, ":"), (2, ":"), (2, "")];
  }

  // ---------------------------------------------------------------- ticks

  /** The text stored for the instant `t` microseconds after 0001-01-01. */
  function Iso(t: nat): string {
    IsoFormat(Civil(t))
  }

  /** The instants `datetime` can hold: it raises from year 10000 on. */
  const TIME_LIMIT: nat := 315537897600_000000

  predicate InRange(t: nat) {
    t < TIME_LIMIT
  }

  lemma InRangeYears(t: nat)
    requires InRange(t)
    ensures Civil(t).year <= 9999
  {
    CivilMicros(t);
    assert DaysBeforeYear(10000) * 86400_000000 == TIME_LIMIT;
    if Civil(t).year >= 10000 {
      YearsGrow(10000, Civil(t).year);
    }
  }

  /** The string test on stored timestamps is the time test. */
  lemma IsoOrderIsTimeOrder(t: nat, u: nat)
    requires InRange(t) && InRange(u)
    ensures StringLess(Iso(t), Iso(u)) <==> t < u
  {
    CivilMicros(t);
    CivilMicros(u);
    InRangeYears(t);
    InRangeYears(u);
    IsoOrder(Civil(t), Civil(u));
  }
}

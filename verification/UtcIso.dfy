/**
 * The queue's timestamps: `utc_iso` texts of the form YYYY-MM-DDTHH:MM:SS.mmmZ
 * (section 5.6 of RFC 3339), compared as plain texts by both back ends.
 *
 * An instant is the number of whole milliseconds since 0001-01-01T00:00:00.000Z;
 * the text exists as long as the year has four digits.
 */
module UtcIso {
  import opened Common
  import opened TextOrder

  const MS_PER_DAY := 86_400_000

  // ---- calendar ----

  predicate Leap(y: nat) {
    y % 4 == 0 && (y % 100 != 0 || y % 400 == 0)
  }

  function DaysInMonth(y: nat, m: nat): (n: nat)
    requires 1 <= m <= 12
    ensures 28 <= n <= 31
  {
    if m == 2 then (if Leap(y) then 29 else 28)
    else if m == 4 || m == 6 || m == 9 || m == 11 then 30 else 31
  }

  /** Days of year y from the first of month m onwards. */
  function DaysFrom(y: nat, m: nat): nat
    requires 1 <= m <= 13
    decreases y, 13 - m
  {
    if m == 13 then 0 else DaysInMonth(y, m) + DaysFrom(y, m + 1)
  }

  function DaysInYear(y: nat): (n: nat) {
    if Leap(y) then 366 else 365
  }

  lemma YearIsTwelveMonths(y: nat)
    ensures DaysFrom(y, 1) == DaysInYear(y)
  {
    assert DaysFrom(y, 13) == 0;
    assert DaysFrom(y, 11) == 61;
    assert DaysFrom(y, 9) == 122;
    assert DaysFrom(y, 7) == 184;
    assert DaysFrom(y, 5) == 245;
    assert DaysFrom(y, 3) == 306;
  }

  datatype MonthDay = MonthDay(month: nat, day: nat)
  datatype YearDay = YearDay(year: nat, day: nat)

  /** The year and zero-based day of year lying n days after the first day of year y. */
  function YearOf(y: nat, n: nat): (r: YearDay)
    ensures r.year >= y && r.day < DaysInYear(r.year)
    decreases n
  {
    if n < DaysInYear(y) then YearDay(y, n) else YearOf(y + 1, n - DaysInYear(y))
  }

  /** The month and one-based day lying n days after the first of month m of year y. */
  function MonthOf(y: nat, m: nat, n: nat): (r: MonthDay)
    requires 1 <= m <= 12 && n < DaysFrom(y, m)
    ensures m <= r.month <= 12 && 1 <= r.day <= DaysInMonth(y, r.month)
    decreases y, 12 - m
  {
    assert DaysFrom(y, 13) == 0;
    if n < DaysInMonth(y, m) then MonthDay(m, n + 1) else MonthOf(y, m + 1, n - DaysInMonth(y, m))
  }

  /** Days between the first day of year y and the first day of year z. */
  function DaysBetweenYears(y: nat, z: nat): nat
    requires y <= z
    decreases z - y
  {
    if y == z then 0 else DaysInYear(y) + DaysBetweenYears(y + 1, z)
  }

  function DaysBetweenMonths(y: nat, m: nat, k: nat): nat
    requires 1 <= m <= k <= 12
    decreases y, k - m
  {
    if m == k then 0 else DaysInMonth(y, m) + DaysBetweenMonths(y, m + 1, k)
  }

  lemma {:induction false} YearOfInverse(y: nat, n: nat)
    ensures n == DaysBetweenYears(y, YearOf(y, n).year) + YearOf(y, n).day
    decreases n
  {
    if n >= DaysInYear(y) { YearOfInverse(y + 1, n - DaysInYear(y)); }
  }

  lemma {:induction false} MonthOfInverse(y: nat, m: nat, n: nat)
    requires 1 <= m <= 12 && n < DaysFrom(y, m)
    ensures n == DaysBetweenMonths(y, m, MonthOf(y, m, n).month) + MonthOf(y, m, n).day - 1
    decreases 12 - m
  {
    if n >= DaysInMonth(y, m) { MonthOfInverse(y, m + 1, n - DaysInMonth(y, m)); }
  }

  lemma {:induction false} YearOfUnique(y: nat, z: nat, d: nat)
    requires y <= z && d < DaysInYear(z)
    ensures YearOf(y, DaysBetweenYears(y, z) + d) == YearDay(z, d)
    decreases z - y
  {
    if y < z { YearOfUnique(y + 1, z, d); }
  }

  lemma {:induction false} MonthOfUnique(y: nat, m: nat, k: nat, d: nat)
    requires 1 <= m <= k <= 12 && 1 <= d <= DaysInMonth(y, k)
    ensures
      var n := DaysBetweenMonths(y, m, k) + d - 1;
      n < DaysFrom(y, m) && MonthOf(y, m, n) == MonthDay(k, d)
    decreases k - m
  {
    if m < k {
      MonthOfUnique(y, m + 1, k, d);
      assert DaysBetweenMonths(y, m, k) == DaysInMonth(y, m) + DaysBetweenMonths(y, m + 1, k);
      assert DaysFrom(y, m) == DaysInMonth(y, m) + DaysFrom(y, m + 1);
    } else {
      assert DaysBetweenMonths(y, m, k) == 0;
    }
  }

  lemma {:induction false} YearOfMonotone(y: nat, n1: nat, n2: nat)
    requires n1 < n2
    ensures
      var a, b := YearOf(y, n1), YearOf(y, n2);
      a.year < b.year || (a.year == b.year && a.day < b.day)
    decreases n1
  {
    if n1 >= DaysInYear(y) { YearOfMonotone(y + 1, n1 - DaysInYear(y), n2 - DaysInYear(y)); }
  }

  lemma {:induction false} MonthOfMonotone(y: nat, m: nat, n1: nat, n2: nat)
    requires 1 <= m <= 12 && n1 < n2 < DaysFrom(y, m)
    ensures
      var a, b := MonthOf(y, m, n1), MonthOf(y, m, n2);
      a.month < b.month || (a.month == b.month && a.day < b.day)
    decreases 12 - m
  {
    if n1 >= DaysInMonth(y, m) {
      MonthOfMonotone(y, m + 1, n1 - DaysInMonth(y, m), n2 - DaysInMonth(y, m));
    }
  }

  // ---- instants and their texts ----

  /** Days in the years 1 to 9999. */
  const DAYS := 3_652_059

  type Instant = t: nat | t < DAYS * MS_PER_DAY witness 0

  function YearStart(y: int): int {
    365 * (y - 1) + (y - 1) / 4 - (y - 1) / 100 + (y - 1) / 400
  }

  lemma YearStartStep(y: nat)
    requires 1 <= y
    ensures YearStart(y + 1) == YearStart(y) + DaysInYear(y)
  {
    Every4(y);
    Every100(y);
    Every400(y);
    LeapByRules(y);
  }

  lemma Every4(y: nat)
    requires 1 <= y
    ensures y / 4 - (y - 1) / 4 == if y % 4 == 0 then 1 else 0
  {
  }

  lemma Every100(y: nat)
    requires 1 <= y
    ensures y / 100 - (y - 1) / 100 == if y % 100 == 0 then 1 else 0
  {
  }

  lemma Every400(y: nat)
    requires 1 <= y
    ensures y / 400 - (y - 1) / 400 == if y % 400 == 0 then 1 else 0
  {
  }

  lemma LeapByRules(y: nat)
    ensures DaysInYear(y) == 365 + (if y % 4 == 0 then 1 else 0) - (if y % 100 == 0 then 1 else 0)
                             + (if y % 400 == 0 then 1 else 0)
  {
    assert y % 100 == 0 ==> y % 4 == 0;
    assert y % 400 == 0 ==> y % 100 == 0;
  }

  lemma {:induction false} YearStartCounts(y: nat, z: nat)
    requires 1 <= y <= z
    ensures DaysBetweenYears(y, z) == YearStart(z) - YearStart(y)
    decreases z - y
  {
    if y < z {
      YearStartStep(y);
      YearStartCounts(y + 1, z);
    }
  }

  /** Every instant falls in a four-digit year, and no later time does. */
  lemma FourDigitYears(n: nat)
    ensures n < DAYS <==> YearOf(1, n).year <= 9999
  {
    var yd := YearOf(1, n);
    YearOfInverse(1, n);
    YearStartCounts(1, yd.year);
    YearStartStep(yd.year);
    assert YearStart(10_000) == DAYS;
    if yd.year <= 9999 {
      YearStartCounts(yd.year + 1, 10_000);
    } else {
      YearStartCounts(10_000, yd.year);
    }
  }

  function Power10(w: nat): (p: nat)
    ensures p > 0
  {
    if w == 0 then 1 else 10 * Power10(w - 1)
  }

  function Digit(d: nat): (c: char)
    requires d < 10
    ensures '0' <= c <= '9' && c as int == '0' as int + d
  {
    '0' + d as char
  }

  /** The last w decimal digits of x. */
  function Pad(x: nat, w: nat): (s: string)
    ensures |s| == w
  {
    if w == 0 then "" else Pad(x / 10, w - 1) + [Digit(x % 10)]
  }

  lemma {:induction false} PadOrder(x: nat, y: nat, w: nat)
    requires x < y < Power10(w)
    ensures Less(Pad(x, w), Pad(y, w))
    decreases w
  {
    ChunkOrder(Pad(x / 10, w - 1), Pad(y / 10, w - 1), [Digit(x % 10)], [Digit(y % 10)]);
    if x / 10 < y / 10 { PadOrder(x / 10, y / 10, w - 1); }
  }

  /** Text of x in units of k followed by the text of the remainder. */
  lemma SplitOrder(x: nat, y: nat, k: nat, w: nat, sep: string, a: string, b: string)
    requires k > 0 && y / k < Power10(w) && x < y
    requires x / k == y / k ==> Less(a, b)
    ensures Less(Pad(x / k, w) + sep + a, Pad(y / k, w) + sep + b)
  {
    QuotientMonotone(x, y, k);
    var p, q := Pad(x / k, w), Pad(y / k, w);
    if x / k < y / k { PadOrder(x / k, y / k, w); }
    ChunkOrder(p, q, sep + a, sep + b);
    ChunkOrder(sep, sep, a, b);
    assert p + sep + a == p + (sep + a) && q + sep + b == q + (sep + b);
  }

  lemma Multiples(k: nat, a: int, b: int)
    ensures a < b ==> k * a + k <= k * b
  {
    if a < b {
      var d := b - a - 1;
      assert k * d >= 0;
      assert b == a + 1 + d && k * (a + 1 + d) == k * a + k + k * d;
    }
  }

  lemma QuotientMonotone(x: nat, y: nat, k: nat)
    requires k > 0 && x < y
    ensures x / k <= y / k && (x / k == y / k ==> x % k < y % k)
  {
    var q1, q2 := x / k, y / k;
    assert x == k * q1 + x % k && y == k * q2 + y % k;
    Multiples(k, q2, q1);
  }

  function SecondText(r: nat): string { Pad(r / 1000, 2) + "." + (Pad(r % 1000, 3) + "Z") }
  function MinuteText(r: nat): string { Pad(r / 60_000, 2) + ":" + SecondText(r % 60_000) }
  function TimeText(r: nat): string { Pad(r / 3_600_000, 2) + ":" + MinuteText(r % 3_600_000) }

  function DayText(md: MonthDay): string { Pad(md.month, 2) + "-" + Pad(md.day, 2) }
  function DateText(n: nat): string {
    var yd := YearOf(1, n);
    YearIsTwelveMonths(yd.year);
    Pad(yd.year, 4) + "-" + DayText(MonthOf(yd.year, 1, yd.day))
  }

  /** models.utc_iso: the text of an instant with millisecond precision. */
  function Iso(t: Instant): string {
    DateText(t / MS_PER_DAY) + "T" + TimeText(t % MS_PER_DAY)
  }

  lemma SecondOrder(x: nat, y: nat)
    requires x < y < 60_000
    ensures Less(SecondText(x), SecondText(y))
  {
    assert Power10(2) == 100 && Power10(3) == 1000;
    if x / 1000 == y / 1000 {
      PadOrder(x % 1000, y % 1000, 3);
      ChunkOrder(Pad(x % 1000, 3), Pad(y % 1000, 3), "Z", "Z");
    }
    SplitOrder(x, y, 1000, 2, ".", Pad(x % 1000, 3) + "Z", Pad(y % 1000, 3) + "Z");
  }

  lemma MinuteOrder(x: nat, y: nat)
    requires x < y < 3_600_000
    ensures Less(MinuteText(x), MinuteText(y))
  {
    assert Power10(2) == 100;
    if x / 60_000 == y / 60_000 { SecondOrder(x % 60_000, y % 60_000); }
    SplitOrder(x, y, 60_000, 2, ":", SecondText(x % 60_000), SecondText(y % 60_000));
  }

  lemma TimeOrder(x: nat, y: nat)
    requires x < y < MS_PER_DAY
    ensures Less(TimeText(x), TimeText(y))
  {
    assert Power10(2) == 100;
    if x / 3_600_000 == y / 3_600_000 { MinuteOrder(x % 3_600_000, y % 3_600_000); }
    SplitOrder(x, y, 3_600_000, 2, ":", MinuteText(x % 3_600_000), MinuteText(y % 3_600_000));
  }

  /** The same for two numbers that need not come from a division. */
  lemma PairOrder(x: nat, y: nat, w: nat, a: string, b: string)
    requires x < y < Power10(w) || (x == y && Less(a, b))
    ensures Less(Pad(x, w) + "-" + a, Pad(y, w) + "-" + b)
  {
    if x < y { PadOrder(x, y, w); }
    ChunkOrder(Pad(x, w), Pad(y, w), "-" + a, "-" + b);
    ChunkOrder("-", "-", a, b);
    assert Pad(x, w) + "-" + a == Pad(x, w) + ("-" + a) && Pad(y, w) + "-" + b == Pad(y, w) + ("-" + b);
  }

  lemma DayOrder(a: MonthDay, b: MonthDay)
    requires a.month < b.month <= 12 || (a.month == b.month && a.day < b.day <= 31)
    ensures Less(DayText(a), DayText(b))
  {
    assert Power10(2) == 100;
    if a.month == b.month { PadOrder(a.day, b.day, 2); }
    PairOrder(a.month, b.month, 2, Pad(a.day, 2), Pad(b.day, 2));
  }

  lemma DateOrder(n1: nat, n2: nat)
    requires n1 < n2 < DAYS
    ensures Less(DateText(n1), DateText(n2))
  {
    assert Power10(4) == 10_000 by { assert Power10(2) == 100; }
    YearOfMonotone(1, n1, n2);
    FourDigitYears(n2);
    var y1, y2 := YearOf(1, n1), YearOf(1, n2);
    YearIsTwelveMonths(y1.year);
    YearIsTwelveMonths(y2.year);
    var m1, m2 := MonthOf(y1.year, 1, y1.day), MonthOf(y2.year, 1, y2.day);
    if y1.year == y2.year {
      MonthOfMonotone(y1.year, 1, y1.day, y2.day);
      DayOrder(m1, m2);
    }
    PairOrder(y1.year, y2.year, 4, DayText(m1), DayText(m2));
  }

  lemma JoinOrder(p: string, q: string, a: string, b: string)
    requires |p| == |q|
    requires Less(p, q) || (p == q && Less(a, b))
    ensures Less(p + "T" + a, q + "T" + b)
  {
    ChunkOrder("T", "T", a, b);
    ChunkOrder(p, q, "T" + a, "T" + b);
    assert p + "T" + a == p + ("T" + a) && q + "T" + b == q + ("T" + b);
  }

  lemma IsoIncreasing(t1: Instant, t2: Instant)
    requires t1 < t2
    ensures Less(Iso(t1), Iso(t2))
  {
    QuotientMonotone(t1, t2, MS_PER_DAY);
    if t1 / MS_PER_DAY < t2 / MS_PER_DAY {
      DateOrder(t1 / MS_PER_DAY, t2 / MS_PER_DAY);
    } else {
      TimeOrder(t1 % MS_PER_DAY, t2 % MS_PER_DAY);
    }
    JoinOrder(DateText(t1 / MS_PER_DAY), DateText(t2 / MS_PER_DAY),
              TimeText(t1 % MS_PER_DAY), TimeText(t2 % MS_PER_DAY));
  }

  /** Comparing timestamp texts is comparing times, to the millisecond. */
  lemma TextOrderIsTimeOrder(t1: Instant, t2: Instant)
    ensures Less(Iso(t1), Iso(t2)) <==> t1 < t2
    ensures Iso(t1) == Iso(t2) <==> t1 == t2
    ensures AtMost(Iso(t1), Iso(t2)) <==> t1 <= t2
  {
    Irreflexive(Iso(t1));
    if t1 < t2 {
      IsoIncreasing(t1, t2);
      if Less(Iso(t2), Iso(t1)) { Transitive(Iso(t1), Iso(t2), Iso(t1)); }
    } else if t2 < t1 {
      IsoIncreasing(t2, t1);
      if Less(Iso(t1), Iso(t2)) { Transitive(Iso(t1), Iso(t2), Iso(t1)); }
    }
  }

  // ---- reading a text back ----

  predicate Digits(s: string) {
    forall i :: 0 <= i < |s| ==> '0' <= s[i] <= '9'
  }

  function Number(s: string): nat
    requires Digits(s)
  {
    if s == "" then 0
    else 10 * Number(s[..|s| - 1]) + (s[|s| - 1] as int - '0' as int)
  }

  lemma {:induction false} NumberOfPad(x: nat, w: nat)
    requires x < Power10(w)
    ensures Digits(Pad(x, w)) && Number(Pad(x, w)) == x
    decreases w
  {
    if w > 0 {
      NumberOfPad(x / 10, w - 1);
      assert Pad(x, w)[..w - 1] == Pad(x / 10, w - 1);
    }
  }

  function At(s: string, i: nat, w: nat): nat
    requires i + w <= |s| && Digits(s[i..i + w])
  {
    Number(s[i..i + w])
  }

  /** The calendar fields written in a 24-character utc_iso text. */
  predicate WellShaped(s: string) {
    && |s| == 24
    && s[4] == s[7] == '-' && s[10] == 'T' && s[13] == s[16] == ':' && s[19] == '.' && s[23] == 'Z'
    && Digits(s[0..4]) && Digits(s[5..7]) && Digits(s[8..10]) && Digits(s[11..13])
    && Digits(s[14..16]) && Digits(s[17..19]) && Digits(s[20..23])
    && 1 <= At(s, 0, 4) && 1 <= At(s, 5, 2) <= 12
    && 1 <= At(s, 8, 2) <= DaysInMonth(At(s, 0, 4), At(s, 5, 2))
    && At(s, 11, 2) < 24 && At(s, 14, 2) < 60 && At(s, 17, 2) < 60
  }

  function Ticks(s: string): nat
    requires WellShaped(s)
  {
    (DaysBetweenYears(1, At(s, 0, 4)) + DaysBetweenMonths(At(s, 0, 4), 1, At(s, 5, 2)) + At(s, 8, 2) - 1)
      * MS_PER_DAY
    + At(s, 11, 2) * 3_600_000 + At(s, 14, 2) * 60_000 + At(s, 17, 2) * 1000 + At(s, 20, 3)
  }

  /** `datetime.fromisoformat` on the texts utc_iso produces; None is the ValueError. */
  function Parse(s: string): Option<nat> {
    if WellShaped(s) then Some(Ticks(s)) else None
  }

  /** Where the fields of a timestamp text sit. */
  lemma Layout(y: string, mo: string, d: string, h: string, mi: string, s: string, ms: string, text: string)
    requires |y| == 4 && |mo| == |d| == |h| == |mi| == |s| == 2 && |ms| == 3
    requires text == y + "-" + (mo + "-" + d) + "T" + (h + ":" + (mi + ":" + (s + "." + (ms + "Z"))))
    ensures |text| == 24
    ensures text[4] == text[7] == '-' && text[10] == 'T' && text[13] == text[16] == ':'
    ensures text[19] == '.' && text[23] == 'Z'
    ensures text[0..4] == y && text[5..7] == mo && text[8..10] == d && text[11..13] == h
    ensures text[14..16] == mi && text[17..19] == s && text[20..23] == ms
  {
    var date, time := y + "-" + (mo + "-" + d), h + ":" + (mi + ":" + (s + "." + (ms + "Z")));
    assert |date| == 10 && |time| == 13;
    assert date[0..4] == y && date[5..7] == mo && date[8..10] == d;
    assert time[0..2] == h && time[3..5] == mi && time[6..8] == s && time[9..12] == ms;
    assert text[..10] == date && text[11..] == time;
    assert text[0..4] == date[0..4] && text[5..7] == date[5..7] && text[8..10] == date[8..10];
    assert text[11..13] == time[0..2] && text[14..16] == time[3..5];
    assert text[17..19] == time[6..8] && text[20..23] == time[9..12];
  }

  lemma FieldsOfIso(t: Instant, y: nat, md: MonthDay, h: nat, mi: nat, s: nat, ms: nat)
    requires
      var yd := YearOf(1, t / MS_PER_DAY);
      yd.year == y && yd.day < DaysFrom(y, 1) && MonthOf(y, 1, yd.day) == md
    requires t % MS_PER_DAY == h * 3_600_000 + mi * 60_000 + s * 1000 + ms
    requires h < 24 && mi < 60 && s < 60 && ms < 1000
    ensures
      var text := Iso(t);
      && WellShaped(text)
      && At(text, 0, 4) == y && At(text, 5, 2) == md.month && At(text, 8, 2) == md.day
      && At(text, 11, 2) == h && At(text, 14, 2) == mi && At(text, 17, 2) == s && At(text, 20, 3) == ms
  {
    FourDigitYears(t / MS_PER_DAY);
    var r := t % MS_PER_DAY;
    assert h == r / 3_600_000 && mi == r % 3_600_000 / 60_000 && s == r % 3_600_000 % 60_000 / 1000
        && ms == r % 3_600_000 % 60_000 % 1000;
    assert Power10(4) == 10_000 by { assert Power10(2) == 100; }
    assert Power10(2) == 100;
    assert Power10(3) == 1000;
    Layout(Pad(y, 4), Pad(md.month, 2), Pad(md.day, 2), Pad(h, 2), Pad(mi, 2), Pad(s, 2), Pad(ms, 3), Iso(t));
    NumberOfPad(y, 4);
    NumberOfPad(md.month, 2);
    NumberOfPad(md.day, 2);
    NumberOfPad(h, 2);
    NumberOfPad(mi, 2);
    NumberOfPad(s, 2);
    NumberOfPad(ms, 3);
  }

  /** Reading back what was written gives the same millisecond. */
  lemma ParseOfIso(t: Instant)
    ensures Parse(Iso(t)) == Some(t)
  {
    var n, r := t / MS_PER_DAY, t % MS_PER_DAY;
    var yd := YearOf(1, n);
    YearIsTwelveMonths(yd.year);
    var md := MonthOf(yd.year, 1, yd.day);
    FieldsOfIso(t, yd.year, md, r / 3_600_000, r % 3_600_000 / 60_000, r % 3_600_000 % 60_000 / 1000,
                r % 3_600_000 % 60_000 % 1000);
    DayOfFields(n);
    TicksOf(Iso(t), n, r);
  }

  lemma DayOfFields(n: nat)
    ensures
      var yd := YearOf(1, n);
      yd.day < DaysFrom(yd.year, 1) &&
      var md := MonthOf(yd.year, 1, yd.day);
      n == DaysBetweenYears(1, yd.year) + DaysBetweenMonths(yd.year, 1, md.month) + md.day - 1
  {
    var yd := YearOf(1, n);
    YearIsTwelveMonths(yd.year);
    YearOfInverse(1, n);
    MonthOfInverse(yd.year, 1, yd.day);
  }

  /** A text whose fields are those of day `n` and millisecond `r` of the day. */
  lemma TicksOf(text: string, n: nat, r: nat)
    requires WellShaped(text)
    requires n == DaysBetweenYears(1, At(text, 0, 4)) + DaysBetweenMonths(At(text, 0, 4), 1, At(text, 5, 2))
                  + At(text, 8, 2) - 1
    requires At(text, 11, 2) == r / 3_600_000 && At(text, 14, 2) == r % 3_600_000 / 60_000
    requires At(text, 17, 2) == r % 3_600_000 % 60_000 / 1000 && At(text, 20, 3) == r % 3_600_000 % 60_000 % 1000
    ensures Ticks(text) == n * MS_PER_DAY + r
  {
  }

  lemma {:induction false} PadOfNumber(s: string)
    requires Digits(s)
    ensures Number(s) < Power10(|s|) && Pad(Number(s), |s|) == s
  {
    if s != "" {
      var w := |s| - 1;
      PadOfNumber(s[..w]);
      assert Number(s) / 10 == Number(s[..w]) && Number(s) % 10 == s[w] as int - '0' as int;
      assert s == s[..w] + [s[w]];
    }
  }

  lemma SameField(a: string, b: string, i: nat, w: nat)
    requires i + w <= |a| && i + w <= |b| && Digits(a[i..i + w]) && Digits(b[i..i + w])
    requires At(a, i, w) == At(b, i, w)
    ensures a[i..i + w] == b[i..i + w]
  {
    PadOfNumber(a[i..i + w]);
    PadOfNumber(b[i..i + w]);
  }

  lemma Assemble(text: string)
    requires |text| == 24
    ensures text == text[0..4] + [text[4]] + text[5..7] + [text[7]] + text[8..10] + [text[10]] + text[11..13]
                    + [text[13]] + text[14..16] + [text[16]] + text[17..19] + [text[19]] + text[20..23] + [text[23]]
  {
  }

  lemma SameText(a: string, b: string)
    requires WellShaped(a) && WellShaped(b)
    requires At(a, 0, 4) == At(b, 0, 4) && At(a, 5, 2) == At(b, 5, 2) && At(a, 8, 2) == At(b, 8, 2)
    requires At(a, 11, 2) == At(b, 11, 2) && At(a, 14, 2) == At(b, 14, 2) && At(a, 17, 2) == At(b, 17, 2)
    requires At(a, 20, 3) == At(b, 20, 3)
    ensures a == b
  {
    SameField(a, b, 0, 4);
    SameField(a, b, 5, 2);
    SameField(a, b, 8, 2);
    SameField(a, b, 11, 2);
    SameField(a, b, 14, 2);
    SameField(a, b, 17, 2);
    SameField(a, b, 20, 3);
    Assemble(a);
    Assemble(b);
  }

  lemma DayNumberUnique(y: nat, mo: nat, d: nat)
    requires 1 <= y && 1 <= mo <= 12 && 1 <= d <= DaysInMonth(y, mo)
    ensures
      var k := DaysBetweenMonths(y, 1, mo) + d - 1;
      && YearOf(1, DaysBetweenYears(1, y) + k) == YearDay(y, k) && k < DaysFrom(y, 1)
      && MonthOf(y, 1, k) == MonthDay(mo, d)
  {
    MonthOfUnique(y, 1, mo, d);
    YearIsTwelveMonths(y);
    YearOfUnique(1, y, DaysBetweenMonths(y, 1, mo) + d - 1);
  }

  lemma TicksFields(text: string)
    requires WellShaped(text)
    ensures
      var y := At(text, 0, 4);
      var n := DaysBetweenYears(1, y) + DaysBetweenMonths(y, 1, At(text, 5, 2)) + At(text, 8, 2) - 1;
      var r := At(text, 11, 2) * 3_600_000 + At(text, 14, 2) * 60_000 + At(text, 17, 2) * 1000 + At(text, 20, 3);
      Ticks(text) / MS_PER_DAY == n && Ticks(text) % MS_PER_DAY == r && At(text, 20, 3) < 1000 && At(text, 0, 4) <= 9999
  {
    PadOfNumber(text[0..4]);
    PadOfNumber(text[20..23]);
    assert Power10(4) == 10_000 by { assert Power10(2) == 100; }
    assert Power10(3) == 1000;
  }

  lemma TicksInRange(text: string)
    requires WellShaped(text)
    ensures Ticks(text) < DAYS * MS_PER_DAY
  {
    TicksFields(text);
    DayNumberUnique(At(text, 0, 4), At(text, 5, 2), At(text, 8, 2));
    FourDigitYears(Ticks(text) / MS_PER_DAY);
  }

  /** The reader accepts nothing else: a text it accepts is the text of the instant it returns. */
  lemma IsoOfParse(text: string)
    requires Parse(text).Some?
    ensures Parse(text).value < DAYS * MS_PER_DAY && Iso(Parse(text).value) == text
  {
    var y, mo, d := At(text, 0, 4), At(text, 5, 2), At(text, 8, 2);
    TicksInRange(text);
    TicksFields(text);
    DayNumberUnique(y, mo, d);
    FieldsOfIso(Ticks(text), y, MonthDay(mo, d), At(text, 11, 2), At(text, 14, 2), At(text, 17, 2), At(text, 20, 3));
    SameText(Iso(Ticks(text)), text);
  }

  // ---- the calendar, independently ----

  lemma {:induction false} OneMonthMore(y: nat, m: nat, k: nat)
    requires 1 <= m <= k < 12
    ensures DaysBetweenMonths(y, m, k + 1) == DaysBetweenMonths(y, m, k) + DaysInMonth(y, k)
    decreases k - m
  {
    if m < k { OneMonthMore(y, m + 1, k); }
  }

  /** Counted from March, months start on days 0, 31, 61, 92, ...: the integer part of (153 k + 2) / 5. */
  lemma {:induction false} MonthStarts(y: nat, m: nat)
    requires 3 <= m <= 12
    ensures DaysBetweenMonths(y, 1, 2) == 31
    ensures DaysBetweenMonths(y, 1, m) == 59 + (if Leap(y) then 1 else 0) + (153 * (m - 3) + 2) / 5
    ensures DaysInMonth(y, 12) == 31
  {
    OneMonthMore(y, 1, m - 1);
    if m > 3 { MonthStarts(y, m - 1); } else { OneMonthMore(y, 1, 1); }
  }

  /** The day of a date, by the rules of the calendar alone. */
  function DayNumber(y: nat, m: nat, d: nat): int {
    365 * (y - 1) + (y - 1) / 4 - (y - 1) / 100 + (y - 1) / 400
    + (if m == 1 then 0 else if m == 2 then 31
       else 59 + (if y % 4 == 0 && (y % 100 != 0 || y % 400 == 0) then 1 else 0) + (153 * (m - 3) + 2) / 5)
    + d - 1
  }

  lemma DaysAreCalendar(y: nat, m: nat, d: nat)
    requires 1 <= y && 1 <= m <= 12
    ensures DayNumber(y, m, d) == DaysBetweenYears(1, y) + DaysBetweenMonths(y, 1, m) + d - 1
  {
    YearStartCounts(1, y);
    if m >= 3 { MonthStarts(y, m); } else { MonthStarts(y, 3); }
  }

  lemma DateFields(n: nat, y: nat, m: nat, d: nat)
    requires 1 <= y <= 9999 && 1 <= m <= 12 && 1 <= d <= DaysInMonth(y, m)
    requires n == DaysBetweenYears(1, y) + DaysBetweenMonths(y, 1, m) + d - 1
    ensures n < DAYS && YearOf(1, n).year == y && YearOf(1, n).day < DaysFrom(y, 1)
    ensures MonthOf(y, 1, YearOf(1, n).day) == MonthDay(m, d)
  {
    DayNumberUnique(y, m, d);
    FourDigitYears(n);
  }

  lemma DateTextOf(n: nat, y: nat, md: MonthDay)
    requires YearOf(1, n).year == y && YearOf(1, n).day < DaysFrom(y, 1) && MonthOf(y, 1, YearOf(1, n).day) == md
    ensures DateText(n) == Pad(y, 4) + "-" + (Pad(md.month, 2) + "-" + Pad(md.day, 2))
  {
  }

  /** A day is written as its date: year, month and day by the calendar's rules. */
  lemma DateTextSpells(n: nat, y: nat, m: nat, d: nat)
    requires 1 <= y <= 9999 && 1 <= m <= 12 && 1 <= d <= DaysInMonth(y, m) && n == DayNumber(y, m, d)
    ensures n < DAYS && DateText(n) == Pad(y, 4) + "-" + (Pad(m, 2) + "-" + Pad(d, 2))
  {
    DaysAreCalendar(y, m, d);
    DateFields(n, y, m, d);
    DateTextOf(n, y, MonthDay(m, d));
  }

  lemma ClockFields(h: nat, mi: nat, s: nat, ms: nat, r: nat)
    requires mi < 60 && s < 60 && ms < 1000 && r == h * 3_600_000 + mi * 60_000 + s * 1000 + ms
    ensures r / 3_600_000 == h && r % 3_600_000 / 60_000 == mi
    ensures r % 3_600_000 % 60_000 / 1000 == s && r % 3_600_000 % 60_000 % 1000 == ms
  {
    assert r % 3_600_000 == mi * 60_000 + s * 1000 + ms;
    assert r % 3_600_000 % 60_000 == s * 1000 + ms;
  }

  /** A time of day is written as its hour, minute, second and millisecond. */
  lemma TimeTextSpells(h: nat, mi: nat, s: nat, ms: nat, r: nat)
    requires mi < 60 && s < 60 && ms < 1000 && r == h * 3_600_000 + mi * 60_000 + s * 1000 + ms
    ensures TimeText(r) == Pad(h, 2) + ":" + (Pad(mi, 2) + ":" + (Pad(s, 2) + "." + (Pad(ms, 3) + "Z")))
  {
    ClockFields(h, mi, s, ms, r);
    assert MinuteText(r % 3_600_000) == Pad(mi, 2) + ":" + SecondText(r % 3_600_000 % 60_000);
  }

  /** Date and time stand where they should, with a T in between. */
  lemma IsoJoins(t: Instant)
    ensures |Iso(t)| == 24 && Iso(t)[..10] == DateText(t / MS_PER_DAY) && Iso(t)[10] == 'T'
    ensures Iso(t)[11..] == TimeText(t % MS_PER_DAY)
  {
    assert |DateText(t / MS_PER_DAY)| == 10 && |TimeText(t % MS_PER_DAY)| == 13;
  }

  // ---- lease arithmetic ----

  /** storage._lease_expiry: None is the ValueError or OverflowError Python raises. */
  function LeaseExpiry(now: string, ttlSeconds: int): Option<string> {
    match Parse(now)
    case None => None
    case Some(t) =>
      var until := t + 1000 * ttlSeconds;
      if 0 <= until < DAYS * MS_PER_DAY then Some(Iso(until)) else None
  }

  lemma ExpiryOfParsed(text: string, now: nat, ttlSeconds: nat)
    requires Parse(text) == Some(now) && now + 1000 * ttlSeconds < DAYS * MS_PER_DAY
    ensures LeaseExpiry(text, ttlSeconds) == Some(Iso(now + 1000 * ttlSeconds))
  {
  }

  /**
   * A lease taken at `now` for `ttl` seconds has not run out, as text comparison sees it,
   * at any time up to and including now + ttl, and has run out at every later one.
   */
  lemma LeaseRunsOutExactlyAfterTtl(now: Instant, ttlSeconds: nat, later: Instant, lease: Option<string>)
    requires now + 1000 * ttlSeconds < DAYS * MS_PER_DAY
    requires lease == LeaseExpiry(Iso(now), ttlSeconds)
    ensures lease == Some(Iso(now + 1000 * ttlSeconds))
    ensures Less(lease.value, Iso(later)) <==> later > now + 1000 * ttlSeconds
  {
    ParseOfIso(now);
    ExpiryOfParsed(Iso(now), now, ttlSeconds);
    TextOrderIsTimeOrder(now + 1000 * ttlSeconds, later);
  }
}

/** `iso8601_utc` of `build.rs`: the closed-form conversion from a day number to a civil
    date, and the timestamp printed from it. The Rust integer widths are newtypes, so
    that the function bodies verify at all says that no addition, subtraction or
    narrowing cast in them leaves its type, for any timestamp a `u64` holds. */
module BuildTime {
  import opened Gregorian
  import opened Decimal
  import opened Wrappers

  newtype u32 = x: int | 0 <= x < 0x1_0000_0000
  newtype u64 = x: int | 0 <= x < 0x1_0000_0000_0000_0000
  newtype i64 = x: int | -0x8000_0000_0000_0000 <= x < 0x8000_0000_0000_0000

  /** Rust's `/`, which truncates toward zero. */
  function TruncatedDiv(a: i64, b: i64): (q: i64)
    requires b > 1
  {
    if a >= 0 then a / b else -((-(a as int)) / (b as int)) as i64
  }

  datatype Civil = Civil(y: i64, m: u32, d: u32)

  function YearOfEra(doe: u32): u32
    requires doe <= 146_096
  {
    (doe - doe / 1460 + doe / 36_524 - doe / 146_096) / 365
  }

  function DayOfYear(doe: u32): u32
    requires doe <= 146_096
  {
    YearOfEraExact(doe as int);
    var yoe := YearOfEra(doe);
    doe - (365 * yoe + yoe / 4 - yoe / 100)
  }

  function MonthAndDay(doy: u32): (md: (u32, u32))
    requires doy <= 365
  {
    var mp := (5 * doy + 2) / 153;
    var d := doy - (153 * mp + 2) / 5 + 1;
    var m := if mp < 10 then mp + 3 else mp - 9;
    (m, d)
  }

  function EraOf(days: i64): (era: i64)
    requires -0x4000_0000_0000_0000 <= days <= 0x4000_0000_0000_0000
    ensures 0 <= days as int + 719_468 - era as int * 146_097 < 146_097
  {
    var z := days + 719_468;
    EraIsFloor(z);
    TruncatedDiv(if z >= 0 then z else z - 146_096, 146_097)
  }

  function DayOfEra(days: i64): (doe: u32)
    requires -0x4000_0000_0000_0000 <= days <= 0x4000_0000_0000_0000
    ensures doe <= 146_096 && doe as int == days as int + 719_468 - EraOf(days) as int * 146_097
  {
    (days + 719_468 - EraOf(days) * 146_097) as u32
  }

  /** Lines 23-32 of the build script, on every day number whose shift fits. */
  function CivilFromDays(days: i64): Civil
    requires -0x4000_0000_0000_0000 <= days <= 0x4000_0000_0000_0000
  {
    var doe := DayOfEra(days);
    YearOfEraExact(doe as int);
    var y := YearOfEra(doe) as i64 + EraOf(days) * 400;
    var md := MonthAndDay(DayOfYear(doe));
    Civil(y + (if md.0 <= 2 then 1 else 0), md.0, md.1)
  }

  lemma EraIsFloor(z: i64)
    requires z >= -0x7000_0000_0000_0000
    ensures TruncatedDiv(if z >= 0 then z else z - 146_096, 146_097) as int == z as int / 146_097
  {
    if z < 0 {
      var n := -(z as int) + 146_096;
      var q := n / 146_097;
      assert 146_097 * q <= n < 146_097 * q + 146_097;
      assert 0 <= z as int - 146_097 * (-q) < 146_097;
      FloorUnique(z as int, -q);
    }
  }

  lemma FloorUnique(z: int, q: int)
    requires 0 <= z - 146_097 * q < 146_097
    ensures z / 146_097 == q
  {
  }

  /** The crux. Write the day of era as whole centuries, four-year groups, years and a
      rest; then the closed form's correction terms yield exactly that year, and what
      it subtracts afterwards leaves exactly that rest. A rest of 365 only occurs in a
      year (counted from March) that ends in a leap February. */
  lemma YearOfEraExact(doe: int)
    requires 0 <= doe <= 146_096
    ensures var yoe := (doe - doe / 1460 + doe / 36_524 - doe / 146_096) / 365;
      && 0 <= yoe <= 399
      && 0 <= doe - (365 * yoe + yoe / 4 - yoe / 100) <= 365
      && (doe - (365 * yoe + yoe / 4 - yoe / 100) == 365 ==> IsLeap(yoe + 1))
  {
    var a := if doe / 36_524 >= 4 then 3 else doe / 36_524;
    var r := doe - 36_524 * a;
    var b := r / 1461;
    var s := r - 1461 * b;
    var c := if s / 365 >= 4 then 3 else s / 365;
    var k := s - 365 * c;
    var yoe := 100 * a + 4 * b + c;
    assert 0 <= a <= 3 && 0 <= b <= 24 && 0 <= c <= 3 && 0 <= k <= 365;
    assert yoe / 4 == 25 * a + b;
    assert yoe / 100 == a;
    var t := if 24 * a + b + 365 * c + k >= 1460 then 1 else 0;
    assert doe - 1460 * (25 * a + b) == 24 * a + b + 365 * c + k;
    assert doe / 1460 == 25 * a + b + t;
    CorrectedDayOfEra(doe, a, b, c, k, t);
    assert doe - doe / 1460 + doe / 36_524 - doe / 146_096 < 365 * yoe + 365;
    assert (doe - doe / 1460 + doe / 36_524 - doe / 146_096) / 365 == yoe;
    if k == 365 {
      assert c == 3;
      assert b == 24 ==> a == 3;
    }
  }

  lemma CorrectedDayOfEra(doe: int, a: int, b: int, c: int, k: int, t: int)
    requires 0 <= a <= 3 && 0 <= b <= 24 && 0 <= c <= 3 && 0 <= k <= 365
    requires k == 365 ==> c == 3 && (b < 24 || a == 3)
    requires doe == 36_524 * a + 1461 * b + 365 * c + k
    requires t == if 24 * a + b + 365 * c + k >= 1460 then 1 else 0
    requires doe / 1460 == 25 * a + b + t
    ensures 365 * (100 * a + 4 * b + c)
      <= doe - doe / 1460 + doe / 36_524 - doe / 146_096
      < 365 * (100 * a + 4 * b + c) + 365
  {
    if doe == 146_096 {
      assert a == 3 && b == 24 && c == 3 && k == 365;
    } else {
      assert doe / 146_096 == 0;
      assert doe / 36_524 == a;
    }
  }

  function ToDate(c: Civil): Date {
    Date(c.y as int, c.m as int, c.d as int)
  }

  /** Days from the first of March to the first of month `m`, counting on into the next
      January and February. */
  function MarchOffset(m: int): int
    requires 1 <= m <= 12
  {
    DaysBeforeMonth(1, m) + (if m <= 2 then 306 else -59)
  }

  lemma MonthAndDayExact(doy: u32)
    requires doy <= 365
    ensures var (m, d) := MonthAndDay(doy);
      && 1 <= m <= 12
      && MarchOffset(m as int) + d as int - 1 == doy as int
      && 1 <= d as int <= (if m == 2 then 29 else DaysInMonth(1, m as int))
      && (m == 2 && d == 29 <==> doy == 365)
  {
    MonthTable(1);
  }

  lemma EraShift(y: int, era: int, n: int)
    requires 0 <= n <= 399 && y == n + era * 400
    ensures LeapDays(y) == 97 * era + n / 4 - n / 100
    ensures IsLeap(y + 1) <==> IsLeap(n + 1)
  {
    WholeShift(y, era, n, 400, 1);
    WholeShift(y, era, n, 100, 4);
    WholeShift(y, era, n, 4, 100);
    SameRest(y + 1, era, n + 1, 400, 1);
    SameRest(y + 1, era, n + 1, 100, 4);
    SameRest(y + 1, era, n + 1, 4, 100);
  }

  lemma WholeShift(y: int, era: int, n: int, m: int, k: int)
    requires (m, k) == (400, 1) || (m, k) == (100, 4) || (m, k) == (4, 100)
    requires y == n + era * 400
    ensures y / m == k * era + n / m
  {
  }

  lemma SameRest(y: int, era: int, n: int, m: int, k: int)
    requires (m, k) == (400, 1) || (m, k) == (100, 4) || (m, k) == (4, 100)
    requires y == n + era * 400
    ensures y % m == n % m
  {
    WholeShift(y, era, n, m, k);
    if m == 400 {
      assert y == 400 * (y / 400) + y % 400;
    } else if m == 100 {
      assert y == 100 * (y / 100) + y % 100;
    } else {
      assert y == 4 * (y / 4) + y % 4;
    }
  }

  /** The closed form yields a valid date, and counting the days of the calendar up to
      that date gives back the day number it came from. */
  lemma CivilCountsBack(days: i64)
    requires -0x4000_0000_0000_0000 <= days <= 0x4000_0000_0000_0000
    ensures Valid(ToDate(CivilFromDays(days)))
    ensures DayNumber(ToDate(CivilFromDays(days))) == days as int
  {
    var era, doe := EraOf(days), DayOfEra(days);
    DayOfEraSplits(doe);
    var n, doy := YearOfEra(doe) as int, DayOfYear(doe);
    var (m, d) := MonthAndDay(doy);
    MonthAndDayExact(doy);
    MarchYearCounts(era as int, n, doy as int, m as int, d as int);
    assert ToDate(CivilFromDays(days)) == MarchDate(era as int, n, m as int, d as int);
  }

  lemma DayOfEraSplits(doe: u32)
    requires doe <= 146_096
    ensures var n, doy := YearOfEra(doe) as int, DayOfYear(doe) as int;
      && 0 <= n <= 399 && 0 <= doy <= 365 && (doy == 365 ==> IsLeap(n + 1))
      && doe as int == 365 * n + n / 4 - n / 100 + doy
  {
    YearOfEraExact(doe as int);
  }

  /** The date of month `m`, day `d` in the March-based year `n` of an era. */
  function MarchDate(era: int, n: int, m: int, d: int): Date {
    Date(n + era * 400 + (if m <= 2 then 1 else 0), m, d)
  }

  lemma MarchYearCounts(era: int, n: int, doy: int, m: int, d: int)
    requires 0 <= n <= 399 && 1 <= m <= 12 && 0 <= doy <= 365
    requires MarchOffset(m) + d - 1 == doy
    requires 1 <= d <= (if m == 2 then 29 else DaysInMonth(1, m))
    requires m == 2 && d == 29 <==> doy == 365
    requires doy == 365 ==> IsLeap(n + 1)
    ensures Valid(MarchDate(era, n, m, d))
    ensures DayNumber(MarchDate(era, n, m, d)) + 719_468
      == era * 146_097 + 365 * n + n / 4 - n / 100 + doy
  {
    var march := n + era * 400;
    EraShift(march, era, n);
    MonthTable(1);
    MonthTable(march);
    MonthTable(march + 1);
    DaysBeforeYearClosed(march + 1);
    NextYear(march);
  }

  /** The other direction: the closed form inverts the count on every valid date. */
  lemma CivilInvertsDayNumber(date: Date, days: i64)
    requires Valid(date) && DayNumber(date) == days as int
    requires -0x4000_0000_0000_0000 <= days <= 0x4000_0000_0000_0000
    ensures ToDate(CivilFromDays(days)) == date
  {
    CivilCountsBack(days);
    DayNumberOrders(ToDate(CivilFromDays(days)), date);
  }

  /** The date of the next day number is the next day of the calendar: across month
      ends, leap days, centuries and eras alike. */
  lemma CivilStepsByCalendar(days: i64)
    requires -0x4000_0000_0000_0000 <= days < 0x4000_0000_0000_0000
    ensures Valid(ToDate(CivilFromDays(days)))
    ensures ToDate(CivilFromDays(days + 1)) == Successor(ToDate(CivilFromDays(days)))
  {
    CivilCountsBack(days);
    SuccessorCounts(ToDate(CivilFromDays(days)));
    CivilInvertsDayNumber(Successor(ToDate(CivilFromDays(days))), days + 1);
  }

  datatype Stamp = Stamp(date: Date, hour: int, minute: int, second: int)

  /** Lines 15-32: the day and the time of day of a timestamp. */
  function StampOf(secs: u64): Stamp {
    var days := (secs / 86_400) as i64;
    var remainder := (secs % 86_400) as u32;
    var hour := remainder / 3600;
    var rest := remainder % 3600;
    Stamp(ToDate(CivilFromDays(days)), hour as int, (rest / 60) as int, (rest % 60) as int)
  }

  predicate StampBefore(a: Stamp, b: Stamp) {
    Before(a.date, b.date)
    || (a.date == b.date && (a.hour < b.hour
        || (a.hour == b.hour && (a.minute < b.minute || (a.minute == b.minute && a.second < b.second)))))
  }

  predicate ValidStamp(t: Stamp) {
    Valid(t.date) && 0 <= t.hour < 24 && 0 <= t.minute < 60 && 0 <= t.second < 60
  }

  /** Seconds since 1970-01-01T00:00:00Z, counted day by day on the calendar. */
  function SecondsOf(t: Stamp): int
    requires ValidStamp(t)
  {
    86_400 * DayNumber(t.date) + 3600 * t.hour + 60 * t.minute + t.second
  }

  lemma StampCountsBack(secs: u64)
    ensures ValidStamp(StampOf(secs)) && SecondsOf(StampOf(secs)) == secs as int
  {
    CivilCountsBack((secs / 86_400) as i64);
    var r := secs as int % 86_400;
    assert r == 3600 * (r / 3600) + r % 3600;
    assert r % 3600 == 60 * (r % 3600 / 60) + r % 3600 % 60;
  }

  /** Timestamps order as (year, month, day, hour, minute, second) tuples. */
  lemma StampsOrderAsSeconds(s: u64, t: u64)
    ensures StampBefore(StampOf(s), StampOf(t)) <==> s < t
  {
    StampCountsBack(s);
    StampCountsBack(t);
    var a, b := StampOf(s), StampOf(t);
    DayNumberOrders(a.date, b.date);
  }

  function PrintStamp(t: Stamp): string
    requires ValidStamp(t) && t.date.year >= 0
  {
    Pad(t.date.year, 4) + ("-" + (Pad(t.date.month, 2) + ("-" + (Pad(t.date.day, 2) + ("T"
    + (Pad(t.hour, 2) + (":" + (Pad(t.minute, 2) + (":" + (Pad(t.second, 2) + "Z"))))))))))
  }

  function Iso8601Utc(secs: u64): string {
    StampCountsBack(secs);
    NotBeforeEpoch(StampOf(secs).date);
    PrintStamp(StampOf(secs))
  }

  lemma NotBeforeEpoch(date: Date)
    requires Valid(date) && DayNumber(date) >= 0
    ensures date.year >= 1970
  {
    WithinYear(date);
    if date.year < 1970 {
      YearsGrow(date.year + 1, 1970);
    }
  }

  /** The first second of the year 10000. */
  const YEAR_10000 := 253_402_300_800

  lemma FourDigitYear(secs: u64)
    ensures StampOf(secs).date.year <= 9999 <==> secs as int < YEAR_10000
  {
    StampCountsBack(secs);
    YearBySeconds(StampOf(secs));
  }

  lemma YearBySeconds(t: Stamp)
    requires ValidStamp(t)
    ensures t.date.year <= 9999 <==> SecondsOf(t) < YEAR_10000
  {
    YearByDayNumber(t.date, 10_000);
    assert LeapDays(9999) == 2424;
    assert t.date.year <= 9999 <==> DayNumber(t.date) < 2_932_897;
  }

  lemma YearByDayNumber(date: Date, y: int)
    requires Valid(date)
    ensures date.year < y <==> DayNumber(date) < 365 * (y - 1970) + LeapDays(y - 1) - 477
  {
    DaysBeforeYearClosed(y);
    WithinYear(date);
    if date.year < y {
      YearsGrow(date.year + 1, y);
    } else {
      YearsGrow(y, date.year);
    }
  }

  /** `date-time` of section 5.6 of RFC 3339, in the one layout `Z` offsets have. */
  predicate Rfc3339Layout(s: string) {
    |s| == 20 && s[4] == '-' && s[7] == '-' && s[10] == 'T' && s[13] == ':' && s[16] == ':' && s[19] == 'Z'
    && Digits(s[0..4]) && Digits(s[5..7]) && Digits(s[8..10])
    && Digits(s[11..13]) && Digits(s[14..16]) && Digits(s[17..19])
  }

  /** A reader of such strings that counts seconds on the calendar. */
  function ReadTimestamp(s: string): Option<int> {
    if !Rfc3339Layout(s) then None
    else
      var t := Stamp(Date(Value(s[0..4]), Value(s[5..7]), Value(s[8..10])),
                     Value(s[11..13]), Value(s[14..16]), Value(s[17..19]));
      if ValidStamp(t) then Some(SecondsOf(t)) else None
  }

  lemma TimeFields(h: string, mi: string, sec: string)
    requires |h| == |mi| == |sec| == 2
    ensures var s := h + (":" + (mi + (":" + (sec + "Z"))));
      && |s| == 9 && s[2] == ':' && s[5] == ':' && s[8] == 'Z'
      && s[0..2] == h && s[3..5] == mi && s[6..8] == sec
  {
  }

  lemma DateFields(y: string, m: string, d: string, rest: string)
    requires |y| == 4 && |m| == |d| == 2
    ensures var s := y + ("-" + (m + ("-" + (d + ("T" + rest)))));
      && |s| == 11 + |rest| && s[4] == '-' && s[7] == '-' && s[10] == 'T'
      && s[0..4] == y && s[5..7] == m && s[8..10] == d && s[11..] == rest
  {
  }

  lemma SixFields(y: string, m: string, d: string, h: string, mi: string, sec: string)
    requires |y| == 4 && |m| == |d| == |h| == |mi| == |sec| == 2
    ensures var s := y + ("-" + (m + ("-" + (d + ("T" + (h + (":" + (mi + (":" + (sec + "Z"))))))))));
      && |s| == 20
      && s[4] == '-' && s[7] == '-' && s[10] == 'T' && s[13] == ':' && s[16] == ':' && s[19] == 'Z'
      && s[0..4] == y && s[5..7] == m && s[8..10] == d
      && s[11..13] == h && s[14..16] == mi && s[17..19] == sec
  {
    var t := h + (":" + (mi + (":" + (sec + "Z"))));
    TimeFields(h, mi, sec);
    DateFields(y, m, d, t);
    var s := y + ("-" + (m + ("-" + (d + ("T" + t)))));
    assert s[13] == s[11..][2] && s[16] == s[11..][5] && s[19] == s[11..][8];
    assert s[11..13] == s[11..][0..2] && s[14..16] == s[11..][3..5] && s[17..19] == s[11..][6..8];
  }

  /** The printed timestamp reads back, on the calendar, as the very second it was
      printed for; it is outside the RFC's format exactly from the year 10000 on, where
      `{:04}` prints a fifth digit. */
  lemma PrintedTimestampReadsBack(secs: u64)
    ensures ReadTimestamp(Iso8601Utc(secs)) == if secs as int < YEAR_10000 then Some(secs as int) else None
    ensures Rfc3339Layout(Iso8601Utc(secs)) <==> secs as int < YEAR_10000
  {
    var t := StampOf(secs);
    StampCountsBack(secs);
    NotBeforeEpoch(t.date);
    FourDigitYear(secs);
    PadReads(t.date.year, 4);
    PadReads(t.date.month, 2);
    PadReads(t.date.day, 2);
    PadReads(t.hour, 2);
    PadReads(t.minute, 2);
    PadReads(t.second, 2);
    if t.date.year <= 9999 {
      SixFields(Pad(t.date.year, 4), Pad(t.date.month, 2), Pad(t.date.day, 2),
                Pad(t.hour, 2), Pad(t.minute, 2), Pad(t.second, 2));
    } else {
      assert |Iso8601Utc(secs)| >= 21;
    }
  }

  /** Below the year 10000 the strings themselves sort in time order. */
  lemma PrintedTimestampsSort(s: u64, t: u64)
    requires (s as int) < YEAR_10000 && (t as int) < YEAR_10000
    ensures Less(Iso8601Utc(s), Iso8601Utc(t)) <==> s < t
  {
    var a, b := StampOf(s), StampOf(t);
    StampCountsBack(s);
    StampCountsBack(t);
    NotBeforeEpoch(a.date);
    NotBeforeEpoch(b.date);
    FourDigitYear(s);
    FourDigitYear(t);
    StampsOrderAsSeconds(s, t);
    PrintOrder(a, b);
  }

  /** One zero-padded field decides the order, or passes it on to what follows. */
  lemma FieldOrder(m: nat, n: nat, w: nat, sep: char, u: string, v: string)
    requires (w == 2 && m < 100 && n < 100) || (w == 4 && m < 10_000 && n < 10_000)
    ensures Less(Pad(m, w) + ([sep] + u), Pad(n, w) + ([sep] + v)) <==> m < n || (m == n && Less(u, v))
  {
    PadReads(m, w);
    PadReads(n, w);
    LessConcat(Pad(m, w), Pad(n, w), [sep] + u, [sep] + v);
    LessConcat([sep], [sep], u, v);
    DigitsOrder(Pad(m, w), Pad(n, w));
  }

  lemma PrintOrder(a: Stamp, b: Stamp)
    requires ValidStamp(a) && ValidStamp(b) && 0 <= a.date.year <= 9999 && 0 <= b.date.year <= 9999
    ensures Less(PrintStamp(a), PrintStamp(b)) <==> StampBefore(a, b)
  {
    var a5, b5 := Pad(a.second, 2) + ("Z" + ""), Pad(b.second, 2) + ("Z" + "");
    var a4, b4 := Pad(a.minute, 2) + (":" + a5), Pad(b.minute, 2) + (":" + b5);
    var a3, b3 := Pad(a.hour, 2) + (":" + a4), Pad(b.hour, 2) + (":" + b4);
    var a2, b2 := Pad(a.date.day, 2) + ("T" + a3), Pad(b.date.day, 2) + ("T" + b3);
    var a1, b1 := Pad(a.date.month, 2) + ("-" + a2), Pad(b.date.month, 2) + ("-" + b2);
    FieldOrder(a.second, b.second, 2, 'Z', "", "");
    FieldOrder(a.minute, b.minute, 2, ':', a5, b5);
    FieldOrder(a.hour, b.hour, 2, ':', a4, b4);
    FieldOrder(a.date.day, b.date.day, 2, 'T', a3, b3);
    FieldOrder(a.date.month, b.date.month, 2, '-', a2, b2);
    FieldOrder(a.date.year, b.date.year, 4, '-', a1, b1);
    assert "Z" + "" == "Z";
    assert PrintStamp(a) == Pad(a.date.year, 4) + ("-" + a1);
    assert PrintStamp(b) == Pad(b.date.year, 4) + ("-" + b1);
  }
}

/**
  Dates and timestamps of the exFAT driver.
*/
module ExfatTime {
  import opened Common

  datatype Date = Date(y: int, m: int, d: int)

  const SHIFT := 719468      // days from 0000-03-01 to 1970-01-01
  const ERA := 146097        // days in 400 years
  const EPOCH_1980 := 315532800

  predicate Leap(y: int) {
    y % 4 == 0 && (y % 100 != 0 || y % 400 == 0)
  }

  function MonthDays(y: int, m: int): int {
    if m == 2 then (if Leap(y) then 29 else 28) else if m in {4, 6, 9, 11} then 30 else 31
  }

  /** A date of the Gregorian calendar. */
  predicate Real(t: Date) {
    1 <= t.m <= 12 && 1 <= t.d <= MonthDays(t.y, t.m)
  }

  /** The year of an era that starts in March, from the day of the era. */
  function YearOfEra(doe: int): int {
    (doe - doe / 1460 + doe / 36524 - doe / 146096) / 365
  }

  /** The first day of year `yoe` of an era. */
  function YearStart(yoe: int): int {
    365 * yoe + yoe / 4 - yoe / 100
  }

  /** The month counted from March, from the day of the year. */
  function MonthOfYear(doy: int): int {
    (5 * doy + 2) / 153
  }

  function MonthStart(mp: int): int {
    (153 * mp + 2) / 5
  }

  /** `civil_from_days`, for days since 1970 */
  function CivilFromDays(z: nat): Date {
    var era := (z + SHIFT) / ERA;
    var doe := (z + SHIFT) % ERA;
    var yoe := YearOfEra(doe);
    var doy := doe - YearStart(yoe);
    var mp := MonthOfYear(doy);
    var m := if mp < 10 then mp + 3 else mp - 9;
    Date(yoe + era * 400 + (if m <= 2 then 1 else 0), m, doy - MonthStart(mp) + 1)
  }

  /** `days_from_civil`, for years that are not negative */
  function DaysFromCivil(t: Date): int {
    var y := if t.m <= 2 then t.y - 1 else t.y;
    var era := y / 400;
    var doy := MonthStart(if t.m > 2 then t.m - 3 else t.m + 9) + t.d - 1;
    era * ERA + YearStart(y % 400) + doy - SHIFT
  }

  /** The length of year `yoe` of an era: the leap day is the last day of a year from March. */
  function YearDays(yoe: int): int {
    if Leap(yoe + 1) then 366 else 365
  }

  /** Day `r` of century `b`: group of four years `g`, day `s` of the group, year `h` of the group. */
  lemma InGroup(b: int, g: int, s: int, h: int)
    requires 0 <= b <= 3 && 0 <= g <= 24 && 0 <= s <= 1460 && 1461 * g + s < 36524
    requires h == if s / 365 > 3 then 3 else s / 365
    ensures YearOfEra(36524 * b + 1461 * g + s) == 100 * b + 4 * g + h
  {
    var doe := 36524 * b + 1461 * g + s;
    var e := (24 * b + g + s) / 1460;
    assert doe / 36524 == b && doe / 146096 == 0;
    assert doe == 1460 * (25 * b + g) + (24 * b + g + s);
    assert doe / 1460 == 25 * b + g + e;
    assert (s - e) / 365 == h;
    assert doe - doe / 1460 + b == 365 * (100 * b + 4 * g) + (s - e);
  }

  lemma StartOfGroup(b: int, g: int, h: int)
    requires 0 <= b <= 3 && 0 <= g <= 24 && 0 <= h <= 3
    ensures YearStart(100 * b + 4 * g + h) == 36524 * b + 1461 * g + 365 * h
    ensures YearDays(100 * b + 4 * g + h) == 366 <==> h == 3 && (g != 24 || b == 3)
  {
  }

  lemma InCentury(doe: int, b: int)
    requires 0 <= b <= 3 && 36524 * b <= doe < 36524 * (b + 1)
    ensures 0 <= YearOfEra(doe) < 400
    ensures YearStart(YearOfEra(doe)) <= doe < YearStart(YearOfEra(doe)) + YearDays(YearOfEra(doe))
  {
    hide YearOfEra, YearStart, Leap;
    var r := doe - 36524 * b;
    var g, s := r / 1461, r % 1461;
    var h := if s / 365 > 3 then 3 else s / 365;
    InGroup(b, g, s, h);
    StartOfGroup(b, g, h);
  }

  /** The day of an era lies in the year computed for it. */
  lemma InYear(doe: int)
    requires 0 <= doe < ERA
    ensures 0 <= YearOfEra(doe) < 400
    ensures YearStart(YearOfEra(doe)) <= doe < YearStart(YearOfEra(doe)) + YearDays(YearOfEra(doe))
  {
    if doe < 146096 { InCentury(doe, doe / 36524); }
  }

  /** The day of a year lies in the month computed for it. */
  lemma InMonth(doy: int)
    requires 0 <= doy < 366
    ensures 0 <= MonthOfYear(doy) < 12 && MonthStart(MonthOfYear(doy)) <= doy < MonthStart(MonthOfYear(doy) + 1)
  {
  }

  lemma MonthFound(mp: int, doy: int)
    requires 0 <= mp < 12 && MonthStart(mp) <= doy < MonthStart(mp + 1)
    ensures MonthOfYear(doy) == mp
  {
  }

  lemma YearFound(yoe: int, doe: int)
    requires 0 <= yoe < 400 && 0 <= doe < ERA && YearStart(yoe) <= doe < YearStart(yoe) + YearDays(yoe)
    ensures YearOfEra(doe) == yoe
  {
    InYear(doe);
    YearsApart(yoe, YearOfEra(doe), doe);
  }

  lemma YearsApart(y: int, x: int, doe: int)
    requires 0 <= y < 400 && 0 <= x < 400 && YearStart(y) <= doe < YearStart(y) + YearDays(y)
    requires YearStart(x) <= doe < YearStart(x) + YearDays(x)
    ensures x == y
  {
    if x < y { YearAfter(x, y); }
    if y < x { YearAfter(y, x); }
  }

  lemma YearAfter(x: int, y: int)
    requires 0 <= x < y < 400
    ensures YearStart(x) + YearDays(x) <= YearStart(y)
  {
  }

  /** The last day of a month. */
  lemma MonthEnds(y: int, m: int, mp: int)
    requires 1 <= m <= 12 && mp == if m > 2 then m - 3 else m + 9
    ensures m != 2 ==> MonthDays(y, m) == MonthStart(mp + 1) - MonthStart(mp)
    ensures m == 2 ==> MonthStart(mp) + MonthDays(y, m) == (if Leap(y) then 366 else 365)
  {
  }

  lemma EraSplit(era: int, r: int)
    requires 0 <= r < ERA
    ensures (era * ERA + r) / ERA == era && (era * ERA + r) % ERA == r
  {
  }

  lemma LeapInEra(era: int, x: int)
    ensures Leap(x + 400 * era) <==> Leap(x)
  {
    var (a, b) := (100 * era, 4 * era);
    assert 400 * era == 4 * a == 100 * b;
    Mod4(x, a);
    Mod100(x, b);
    Mod400(x, era);
  }

  lemma Mod4(x: int, k: int)
    ensures (x + 4 * k) % 4 == x % 4
  {
  }

  lemma Mod100(x: int, k: int)
    ensures (x + 100 * k) % 100 == x % 100
  {
  }

  lemma Mod400(x: int, k: int)
    ensures (x + 400 * k) % 400 == x % 400
  {
  }

  /** Every day has a date of the calendar, and that date has this day. */
  lemma DayToDate(z: nat)
    ensures Real(CivilFromDays(z)) && DaysFromCivil(CivilFromDays(z)) == z
  {
    hide YearOfEra, YearStart, MonthOfYear, MonthStart, MonthDays, Leap;
    var era, doe := (z + SHIFT) / ERA, (z + SHIFT) % ERA;
    InYear(doe);
    var yoe := YearOfEra(doe);
    var doy := doe - YearStart(yoe);
    InMonth(doy);
    var mp := MonthOfYear(doy);
    var t := CivilFromDays(z);
    MonthEnds(t.y, t.m, mp);
    LeapInEra(era, yoe + 1);
    assert (yoe + era * 400) / 400 == era && (yoe + era * 400) % 400 == yoe;
  }

  lemma DayOfYear(mp: int, d: int, n: int, days: int)
    requires 0 <= mp < 12 && 1 <= d <= n && 365 <= days
    requires if mp == 11 then MonthStart(mp) + n == days else n == MonthStart(mp + 1) - MonthStart(mp)
    requires days <= 366
    ensures MonthStart(mp) <= MonthStart(mp) + d - 1 < MonthStart(mp + 1) && 0 <= MonthStart(mp) + d - 1 < days
    ensures mp >= 10 ==> MonthStart(mp) >= 306
  {
  }

  lemma YearEnds(yoe: int)
    requires 0 <= yoe < 400
    ensures 0 <= YearStart(yoe) && YearStart(yoe) + YearDays(yoe) <= ERA
  {
  }

  lemma From1970(era: int, yoe: int, doy: int)
    requires 0 <= yoe < 400 && 0 <= doy && 400 * era + yoe >= 1969 && (400 * era + yoe == 1969 ==> doy >= 306)
    ensures era * ERA + YearStart(yoe) + doy >= SHIFT
  {
  }

  /** Every date from 1970 on is the date of its day. */
  lemma DateToDay(t: Date)
    requires Real(t) && t.y >= 1970
    ensures DaysFromCivil(t) >= 0 && CivilFromDays(DaysFromCivil(t)) == t
  {
    hide YearOfEra, YearStart, MonthOfYear, MonthStart, MonthDays, Leap;
    var y := if t.m <= 2 then t.y - 1 else t.y;
    var mp := if t.m > 2 then t.m - 3 else t.m + 9;
    var era, yoe := y / 400, y % 400;
    var doy := MonthStart(mp) + t.d - 1;
    MonthEnds(t.y, t.m, mp);
    LeapInEra(era, yoe + 1);
    DayOfYear(mp, t.d, MonthDays(t.y, t.m), YearDays(yoe));
    MonthFound(mp, doy);
    YearEnds(yoe);
    YearFound(yoe, YearStart(yoe) + doy);
    EraSplit(era, YearStart(yoe) + doy);
    From1970(era, yoe, doy);
  }

  // ----- Timestamps -----

  /** The fields of a timestamp word, lowest first. */
  function Packed(y: int, m: int, d: int, hour: int, min: int, half: int): int {
    ((((y * 16 + m) * 32 + d) * 32 + hour) * 64 + min) * 32 + half
  }

  /** `unix_to_ts` */
  function UnixToTs(t: nat): int {
    var c := CivilFromDays(t / 86400);
    var s := t % 86400;
    if c.y < 1980 then Packed(0, 1, 1, 0, 0, 0)
    else if c.y > 2107 then Packed(127, 12, 31, 23, 59, 29)
    else Packed(c.y - 1980, c.m, c.d, s / 3600, s / 60 % 60, s % 60 / 2)
  }

  /** `ts_to_unix`, `utc` being the UtcOffset byte */
  function TsToUnix(ts: nat, ms10: nat, utc: nat): nat {
    var d, m, y := ts / 65536 % 32, ts / 2097152 % 16, 1980 + ts / 33554432;
    if d == 0 || m == 0 || m > 12 then EPOCH_1980 else
    var s := ts / 2048 % 32 * 3600 + ts / 32 % 64 * 60 + ts % 32 * 2 + (if ms10 < 200 then ms10 / 100 else 0);
    var steps := if utc < 0x80 then 0 else if utc % 128 >= 64 then utc % 128 - 128 else utc % 128;
    var t := DaysFromCivil(Date(y, m, d)) * 86400 + s - steps * 900;
    if t < 0 then 0 else if t > 0xFFFF_FFFF then 0xFFFF_FFFF else t
  }

  /** The 10 ms byte `set_times` stores beside the time: the odd second, and the hundredths if the time is now. */
  function Ms10(t: nat, now: nat, cs: nat): nat {
    t % 2 * 100 + if t == now then cs else 0
  }

  lemma Unpack(y: int, m: int, d: int, hour: int, min: int, half: int)
    requires 0 <= y && 0 <= m < 16 && 0 <= d < 32 && 0 <= hour < 32 && 0 <= min < 64 && 0 <= half < 32
    ensures var ts := Packed(y, m, d, hour, min, half);
            && ts >= 0 && ts / 33554432 == y && ts / 2097152 % 16 == m && ts / 65536 % 32 == d
            && ts / 2048 % 32 == hour && ts / 32 % 64 == min && ts % 32 == half
  {
    var ts := Packed(y, m, d, hour, min, half);
    var a1 := y * 16 + m;
    var a2 := a1 * 32 + d;
    var a3 := a2 * 32 + hour;
    var a4 := a3 * 64 + min;
    DivModUnique(ts, 32, a4, half);
    DivModUnique(ts, 2048, a3, 32 * min + half);
    DivModUnique(ts, 65536, a2, 2048 * hour + 32 * min + half);
    DivModUnique(ts, 2097152, a1, 65536 * d + 2048 * hour + 32 * min + half);
    DivModUnique(ts, 33554432, y, 2097152 * m + 65536 * d + 2048 * hour + 32 * min + half);
    DivModUnique(a4, 64, a3, min);
    DivModUnique(a3, 32, a2, hour);
    DivModUnique(a2, 32, a1, d);
    DivModUnique(a1, 16, y, m);
  }

  /** The year of a 32-bit time from 1980 on. */
  lemma YearsCovered(z: nat)
    requires 3652 <= z <= 49710
    ensures 1980 <= CivilFromDays(z).y <= 2107
  {
    hide YearOfEra, MonthOfYear, MonthStart;
    var era, doe := (z + SHIFT) / ERA, (z + SHIFT) % ERA;
    InYear(doe);
    InMonth(doe - YearStart(YearOfEra(doe)));
    MonthTen(doe - YearStart(YearOfEra(doe)));
    YearRange(z, era, YearOfEra(doe), doe - YearStart(YearOfEra(doe)));
  }

  lemma MonthTen(doy: int)
    requires 0 <= doy < 366
    ensures MonthOfYear(doy) >= 10 <==> doy >= 306
  {
  }

  lemma YearRange(z: int, era: int, yoe: int, doy: int)
    requires 3652 <= z <= 49710 && 0 <= yoe < 400 && 0 <= doy <= 365 && z + SHIFT == era * ERA + YearStart(yoe) + doy
    ensures 1980 <= yoe + era * 400 + (if doy >= 306 then 1 else 0) <= 2107
  {
    YearNear(yoe);
    assert era == 4 || era == 5;
    assert YearStart(379) == 138426;
  }

  lemma YearNear(yoe: int)
    requires 0 <= yoe < 400
    ensures 365 * yoe - 3 <= YearStart(yoe) <= 365 * yoe + 99
  {
  }

  /** What `set_times` writes for a 32-bit time from 1980 on is read back as that very second. */
  lemma TimeReadBack(t: nat, now: nat, cs: nat)
    requires EPOCH_1980 <= t <= 0xFFFF_FFFF && cs < 100
    ensures 0 <= UnixToTs(t) && TsToUnix(UnixToTs(t), Ms10(t, now, cs), 0x80) == t
  {
    hide CivilFromDays, DaysFromCivil, Packed, Leap, Ms10;
    var z, s := t / 86400, t % 86400;
    var c := CivilFromDays(z);
    DayToDate(z);
    YearsCovered(z);
    Unpack(c.y - 1980, c.m, c.d, s / 3600, s / 60 % 60, s % 60 / 2);
    OfDay(t);
    Hundredths(t, now, cs);
  }

  lemma OfDay(t: nat)
    ensures t % 86400 / 3600 * 3600 + t % 86400 / 60 % 60 * 60 + t % 86400 % 60 / 2 * 2 + t % 2 == t % 86400
    ensures t % 86400 / 3600 < 24 && t / 86400 * 86400 + t % 86400 == t
  {
    var s := t % 86400;
    assert t == 2 * (43200 * (t / 86400)) + s;
    assert t % 2 == s % 2;
    var (h, m) := (s / 3600, s / 60);
    assert s == 60 * m + s % 60 && m == 60 * h + m % 60;
  }

  lemma Hundredths(t: nat, now: nat, cs: nat)
    requires cs < 100
    ensures Ms10(t, now, cs) < 200 && Ms10(t, now, cs) / 100 == t % 2
  {
  }
}

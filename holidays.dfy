/**
  The holiday matcher: a fixed-date Gregorian table, a fixed-date lunar table and two
  floating rules (Mother's Day and Father's Day), applied in that order.
 */
module Holidays {
  import opened Civil
  import opened Text

  /** Gregorian holidays keyed by zero-padded "MM-DD". */
  const GregorianHolidays: map<string, string> := map[
    "01-01" := "元旦", "02-14" := "情人节", "03-08" := "妇女节",
    "03-12" := "植树节", "04-01" := "愚人节", "05-01" := "劳动节",
    "05-04" := "青年节", "06-01" := "儿童节", "07-01" := "建党节",
    "08-01" := "建军节", "09-10" := "教师节", "10-01" := "国庆节",
    "12-24" := "平安夜", "12-25" := "圣诞节"]

  /** Lunar holidays keyed by zero-padded lunar "MM-DD". */
  const LunarHolidays: map<string, string> := map[
    "01-01" := "春节", "01-15" := "元宵节", "02-02" := "龙抬头",
    "05-05" := "端午节", "07-07" := "七夕节", "07-15" := "中元节",
    "08-15" := "中秋节", "09-09" := "重阳节", "12-08" := "腊八节",
    "12-23" := "小年", "12-29" := "除夕"]

  const MothersDay := "母亲节"
  const FathersDay := "父亲节"

  /**
    `String(format: "%02d", n)`: the decimal digits of `n`, padded with a leading zero to
    width two; a negative number is its sign followed by its digits.
   */
  function FormatNumber(n: int): (r: string)
    ensures |r| >= 2
    ensures 0 <= n ==> AllDigits(r) && ParseDecimal(r) == n
    ensures 0 <= n < 100 <==> |r| == 2 && AllDigits(r)
  {
    if n < 0 then
      assert !IsDigit(("-" + Decimal(-n))[0]);
      "-" + Decimal(-n)
    else if n < 10 then
      DecimalRoundTrip(n);
      "0" + Decimal(n)
    else
      DecimalRoundTrip(n);
      DecimalLength(n);
      Decimal(n)
  }

  /** A number of at least 10 has at least two digits, and one of at least 100 at least three. */
  lemma DecimalLength(n: nat)
    ensures n >= 10 ==> |Decimal(n)| >= 2
    ensures n >= 100 ==> |Decimal(n)| >= 3
  {
    if n >= 10 {
      DecimalLength(n / 10);
    }
  }

  /** The "MM-DD" key of a month and a day. */
  function Key(month: int, day: int): (k: string)
    ensures |k| >= 5
    ensures 0 <= month < 100 && 0 <= day < 100 ==> |k| == 5 && k[2] == '-'
  {
    FormatNumber(month) + "-" + FormatNumber(day)
  }

  /** Keys of non-negative (month, day) pairs determine the pair. */
  lemma KeyInjective(m1: nat, d1: nat, m2: nat, d2: nat)
    requires Key(m1, d1) == Key(m2, d2)
    ensures m1 == m2 && d1 == d2
  {
    var f1, f2 := FormatNumber(m1), FormatNumber(m2);
    var g1, g2 := FormatNumber(d1), FormatNumber(d2);
    assert Key(m1, d1) == f1 + ("-" + g1);
    assert Key(m2, d2) == f2 + ("-" + g2);
    DigitsPrefixUnique(f1, "-" + g1, f2, "-" + g2);
    assert g1 == ("-" + g1)[1..];
    assert g2 == ("-" + g2)[1..];
  }

  /** The Gregorian-table match of a day: its holiday, if the table has one. */
  function GregorianMatch(month: int, day: int): (r: seq<string>)
    ensures |r| <= 1 && (r != [] <==> Key(month, day) in GregorianHolidays)
  {
    var key := Key(month, day);
    if key in GregorianHolidays then [GregorianHolidays[key]] else []
  }

  /** The lunar-table match of a lunar day. */
  function LunarMatch(lunarMonth: int, lunarDay: int): (r: seq<string>)
    ensures |r| <= 1 && (r != [] <==> Key(lunarMonth, lunarDay) in LunarHolidays)
  {
    var key := Key(lunarMonth, lunarDay);
    if key in LunarHolidays then [LunarHolidays[key]] else []
  }

  /** The floating holidays: Mother's Day on the second Sunday of May, Father's Day on the third Sunday of June. */
  function FloatingMatch(month: int, weekday: int, weekdayOrdinal: int): (r: seq<string>)
    ensures |r| <= 1
  {
    (if month == 5 && weekday == 1 && weekdayOrdinal == 2 then [MothersDay] else [])
    + (if month == 6 && weekday == 1 && weekdayOrdinal == 3 then [FathersDay] else [])
  }

  /**
    The holidays of a day, given its Gregorian month and day, its weekday (1 = Sunday), the
    ordinal of that weekday within the month, and its lunar month and day.
   */
  function HolidayList(month: int, day: int, weekday: int, weekdayOrdinal: int,
                       lunarMonth: int, lunarDay: int): (r: seq<string>)
    ensures |r| <= 3
  {
    GregorianMatch(month, day) + LunarMatch(lunarMonth, lunarDay) + FloatingMatch(month, weekday, weekdayOrdinal)
  }

  /** The ordinal of a day's weekday within its month: days 1..7 are the first, 8..14 the second, and so on. */
  function WeekdayOrdinal(day: int): (k: int)
    ensures 1 <= day ==> 1 <= k && 7 * (k - 1) < day <= 7 * k
  {
    (day - 1) / 7 + 1
  }

  /** The holidays of the day containing `date`, given its lunar month and day. */
  function HolidaysOn(date: Date, lunarMonth: int, lunarDay: int): (r: seq<string>)
    ensures |r| <= 3
  {
    var c := CivilOf(date);
    HolidayList(c.month, c.day, Weekday(DayNumber(date)), WeekdayOrdinal(c.day), lunarMonth, lunarDay)
  }

  /** `HolidayHelper.getHolidays(date:lunarMonth:lunarDay:)`, appending one match at a time. */
  method GetHolidays(date: Date, lunarMonth: int, lunarDay: int) returns (found: seq<string>)
    ensures found == HolidaysOn(date, lunarMonth, lunarDay)
  {
    found := [];
    var c := CivilOf(date);
    var gregorianKey := Key(c.month, c.day);
    if gregorianKey in GregorianHolidays {
      found := found + [GregorianHolidays[gregorianKey]];
    }
    assert found == GregorianMatch(c.month, c.day);
    var lunarKey := Key(lunarMonth, lunarDay);
    if lunarKey in LunarHolidays {
      found := found + [LunarHolidays[lunarKey]];
    }
    assert found == GregorianMatch(c.month, c.day) + LunarMatch(lunarMonth, lunarDay);
    var weekday := Weekday(DayNumber(date));
    var weekdayOrdinal := WeekdayOrdinal(c.day);
    ghost var before := found;
    ghost var mothers: seq<string> := [];
    ghost var fathers: seq<string> := [];
    if c.month == 5 && weekday == 1 && weekdayOrdinal == 2 {
      found := found + [MothersDay];
      mothers := [MothersDay];
    }
    assert found == before + mothers;
    if c.month == 6 && weekday == 1 && weekdayOrdinal == 3 {
      found := found + [FathersDay];
      fathers := [FathersDay];
    }
    assert found == (before + mothers) + fathers;
    AppendAssociative(before, mothers, fathers);
  }

  lemma AppendAssociative(a: seq<string>, b: seq<string>, c: seq<string>)
    ensures (a + b) + c == a + (b + c)
  {
  }

  /** Neither table names a floating holiday. */
  lemma TablesHaveNoFloatingHoliday(k: string)
    ensures k in GregorianHolidays ==> GregorianHolidays[k] != MothersDay && GregorianHolidays[k] != FathersDay
    ensures k in LunarHolidays ==> LunarHolidays[k] != MothersDay && LunarHolidays[k] != FathersDay
  {
  }

  /** 母亲节 is listed exactly on the second Sunday of May, and 父亲节 exactly on the third Sunday of June. */
  lemma FloatingHolidays(month: int, day: int, weekday: int, weekdayOrdinal: int, lunarMonth: int, lunarDay: int)
    ensures var r := HolidayList(month, day, weekday, weekdayOrdinal, lunarMonth, lunarDay);
      && (MothersDay in r <==> month == 5 && weekday == 1 && weekdayOrdinal == 2)
      && (FathersDay in r <==> month == 6 && weekday == 1 && weekdayOrdinal == 3)
      && !(MothersDay in r && FathersDay in r)
  {
    var g, l := GregorianMatch(month, day), LunarMatch(lunarMonth, lunarDay);
    TablesHaveNoFloatingHoliday(Key(month, day));
    TablesHaveNoFloatingHoliday(Key(lunarMonth, lunarDay));
    assert MothersDay !in g + l && FathersDay !in g + l;
    assert HolidayList(month, day, weekday, weekdayOrdinal, lunarMonth, lunarDay)
        == (g + l) + FloatingMatch(month, weekday, weekdayOrdinal);
  }

  /**
    The list is empty exactly when neither table has the day's key and no floating rule
    applies; a Gregorian match comes first and a lunar match right after it.
   */
  lemma HolidayListOrder(month: int, day: int, weekday: int, weekdayOrdinal: int, lunarMonth: int, lunarDay: int)
    ensures var r := HolidayList(month, day, weekday, weekdayOrdinal, lunarMonth, lunarDay);
      var g, l := Key(month, day), Key(lunarMonth, lunarDay);
      && (r == [] <==> g !in GregorianHolidays && l !in LunarHolidays
                       && !(month == 5 && weekday == 1 && weekdayOrdinal == 2)
                       && !(month == 6 && weekday == 1 && weekdayOrdinal == 3))
      && (g in GregorianHolidays ==> r[0] == GregorianHolidays[g])
      && (g in GregorianHolidays && l in LunarHolidays ==> r[1] == LunarHolidays[l])
      && (g !in GregorianHolidays && l in LunarHolidays ==> r[0] == LunarHolidays[l])
  {
  }

  /** Lunar New Year's Day matches 春节 and lunar 12-29 matches 除夕 in the lunar table. */
  lemma SpringFestivalAndEve()
    ensures LunarMatch(1, 1) == ["春节"]
    ensures LunarMatch(12, 29) == ["除夕"]
  {
    assert Key(1, 1) == "01-01";
    assert Key(12, 29) == "12-29";
  }

  /** When National Day meets the Mid-Autumn Festival both holidays are listed, Gregorian first. */
  lemma NationalDayMeetsMidAutumn(weekday: int, weekdayOrdinal: int)
    ensures HolidayList(10, 1, weekday, weekdayOrdinal, 8, 15) == ["国庆节", "中秋节"]
  {
    assert Key(10, 1) == "10-01";
    assert Key(8, 15) == "08-15";
  }
}

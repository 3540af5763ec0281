/**
  The 24 solar terms and the day-of-month formula `[Y*D+C]-L` that places each
  one in a Gregorian year between 1901 and 2100: Y is the year's last two
  digits, D = 0.2422, C a per-term constant for the 20th or the 21st century
  and L = [Y/4]. Decimal constants are exact integers scaled by 10000.
 */
module SolarTerms {
  import opened Wrappers
  import opened Civil
  import opened Seqs

  datatype SolarTerm =
    | LiChun | YuShui | JingZhe | ChunFen | QingMing | GuYu
    | LiXia | XiaoMan | MangZhong | XiaZhi | XiaoShu | DaShu
    | LiQiu | ChuShu | BaiLu | QiuFen | HanLu | ShuangJiang
    | LiDong | XiaoXue | DaXue | DongZhi | XiaoHan | DaHan

  /** Every term, in declaration order (`SolarTerm.allCases`). */
  const AllCases: seq<SolarTerm> := [
    LiChun, YuShui, JingZhe, ChunFen, QingMing, GuYu,
    LiXia, XiaoMan, MangZhong, XiaZhi, XiaoShu, DaShu,
    LiQiu, ChuShu, BaiLu, QiuFen, HanLu, ShuangJiang,
    LiDong, XiaoXue, DaXue, DongZhi, XiaoHan, DaHan]

  function ChineseName(t: SolarTerm): (name: string)
    ensures |name| == 2
  {
    match t
    case LiChun => "立春"      case YuShui => "雨水"
    case JingZhe => "惊蛰"     case ChunFen => "春分"
    case QingMing => "清明"    case GuYu => "谷雨"
    case LiXia => "立夏"       case XiaoMan => "小满"
    case MangZhong => "芒种"   case XiaZhi => "夏至"
    case XiaoShu => "小暑"     case DaShu => "大暑"
    case LiQiu => "立秋"       case ChuShu => "处暑"
    case BaiLu => "白露"       case QiuFen => "秋分"
    case HanLu => "寒露"       case ShuangJiang => "霜降"
    case LiDong => "立冬"      case XiaoXue => "小雪"
    case DaXue => "大雪"       case DongZhi => "冬至"
    case XiaoHan => "小寒"     case DaHan => "大寒"
  }

  /** The Gregorian month in which the term falls. */
  function Month(t: SolarTerm): (m: int)
    ensures 1 <= m <= 12
  {
    match t
    case LiChun | YuShui => 2
    case JingZhe | ChunFen => 3
    case QingMing | GuYu => 4
    case LiXia | XiaoMan => 5
    case MangZhong | XiaZhi => 6
    case XiaoShu | DaShu => 7
    case LiQiu | ChuShu => 8
    case BaiLu | QiuFen => 9
    case HanLu | ShuangJiang => 10
    case LiDong | XiaoXue => 11
    case DaXue | DongZhi => 12
    case XiaoHan | DaHan => 1
  }

  /** The fixed-point scale of the constants: 1.0 is 10000. */
  const Scale: int := 10000

  /** D = 0.2422, scaled. */
  const D: int := 2422

  /** The C constants (20th century, 21st century), scaled. */
  function CValue(t: SolarTerm): (c: (int, int))
    ensures 3 * Scale < c.1 < c.0 < 25 * Scale
  {
    match t
    case LiChun => (46295, 38700)        case YuShui => (194599, 187300)
    case JingZhe => (63826, 56300)       case ChunFen => (214155, 206460)
    case QingMing => (55900, 48100)      case GuYu => (208880, 201000)
    case LiXia => (63180, 55200)         case XiaoMan => (218600, 210400)
    case MangZhong => (65000, 56780)     case XiaZhi => (222000, 213700)
    case XiaoShu => (79280, 71080)       case DaShu => (236500, 228300)
    case LiQiu => (83500, 75000)         case ChuShu => (239500, 231500)
    case BaiLu => (84400, 76460)         case QiuFen => (238220, 230420)
    case HanLu => (90980, 83180)         case ShuangJiang => (242180, 234380)
    case LiDong => (82180, 74380)        case XiaoXue => (230800, 223600)
    case DaXue => (77000, 71800)         case DongZhi => (223940, 219400)
    case XiaoHan => (61100, 54055)       case DaHan => (208400, 201200)
  }

  /** Years in which the term falls one day later than the formula says. */
  function SpecialRule(t: SolarTerm): (r: Option<seq<int>>)
    ensures r.Some? <==> t == DongZhi
    ensures r.Some? ==> r.value == [2082]
  {
    if t == DongZhi then Some([2082]) else None
  }

  /** Integer division rounding toward zero, as Swift's `Int(_: Double)` truncates a quotient. */
  function TruncDiv(a: int, b: int): (q: int)
    requires b > 0
    ensures a >= 0 ==> q == a / b
  {
    if a >= 0 then a / b else -((-a) / b)
  }

  /** Swift's `%`, whose remainder takes the sign of the dividend. */
  function TruncRem(a: int, b: int): (r: int)
    requires b > 0
    ensures a >= 0 ==> r == a % b
  {
    if a >= 0 then a % b else -((-a) % b)
  }

  /** The day of the month on which term `t` falls in `year`. */
  function CalculateSolarTermDay(t: SolarTerm, year: int): int {
    var y := TruncRem(year, 100);
    var c := if year < 2001 then CValue(t).0 else CValue(t).1;
    var day := TruncDiv(y * D + c, Scale) - TruncDiv(y, 4);
    if SpecialRule(t).Some? && year in SpecialRule(t).value then day + 1 else day
  }

  /** The first of `candidates` whose day in `year` is `day`, by name. */
  function FirstMatch(candidates: seq<SolarTerm>, year: int, day: int): (r: Option<string>)
    ensures r.Some? <==> exists i :: 0 <= i < |candidates| && CalculateSolarTermDay(candidates[i], year) == day
    ensures r.Some? ==> exists i :: 0 <= i < |candidates|
                          && CalculateSolarTermDay(candidates[i], year) == day
                          && r.value == ChineseName(candidates[i])
                          && forall j :: 0 <= j < i ==> CalculateSolarTermDay(candidates[j], year) != day
  {
    if candidates == [] then None
    else if CalculateSolarTermDay(candidates[0], year) == day then Some(ChineseName(candidates[0]))
    else
      var r := FirstMatch(candidates[1..], year, day);
      assert forall i :: 1 <= i < |candidates| ==> candidates[i] == candidates[1..][i - 1];
      r
  }

  /** The terms of one Gregorian month, in declaration order. */
  function TermsOfMonth(month: int): seq<SolarTerm> {
    Filter(AllCases, InMonth(month))
  }

  function InMonth(month: int): SolarTerm -> bool {
    t => Month(t) == month
  }

  /** The name of the solar term falling on the civil date (year, month, day), if any. */
  function SolarTermOn(year: int, month: int, day: int): (r: Option<string>)
    ensures !(1901 <= year <= 2100) ==> r == None
    ensures r.Some? ==> |r.value| == 2
  {
    if !(1901 <= year <= 2100) then None
    else FirstMatch(TermsOfMonth(month), year, day)
  }

  /** `SolarTermHelper.getSolarTerm(for:)`. */
  function GetSolarTerm(date: Date): (r: Option<string>)
    ensures r.Some? ==> |r.value| == 2
  {
    var c := CivilOf(date);
    SolarTermOn(c.year, c.month, c.day)
  }

  // ---------------------------------------------------------------------------
  // The term table

  /** The position of a term in the declaration order. */
  lemma TermIndex(t: SolarTerm) returns (i: int)
    ensures 0 <= i < |AllCases| && AllCases[i] == t
  {
    i := match t
      case LiChun => 0 case YuShui => 1 case JingZhe => 2 case ChunFen => 3
      case QingMing => 4 case GuYu => 5 case LiXia => 6 case XiaoMan => 7
      case MangZhong => 8 case XiaZhi => 9 case XiaoShu => 10 case DaShu => 11
      case LiQiu => 12 case ChuShu => 13 case BaiLu => 14 case QiuFen => 15
      case HanLu => 16 case ShuangJiang => 17 case LiDong => 18 case XiaoXue => 19
      case DaXue => 20 case DongZhi => 21 case XiaoHan => 22 case DaHan => 23;
  }

  /** Every term is listed, exactly once. */
  lemma AllCasesComplete()
    ensures forall t :: t in AllCases
    ensures forall i, j :: 0 <= i < j < |AllCases| ==> AllCases[i] != AllCases[j]
  {
    forall t ensures t in AllCases {
      var i := TermIndex(t);
    }
  }

  /** No two terms share a Chinese name. */
  lemma NamesDistinct()
    ensures forall i, j :: 0 <= i < j < |AllCases| ==> ChineseName(AllCases[i]) != ChineseName(AllCases[j])
  {
  }

  /** The terms are listed month by month: two for February, two for March, ..., two for January last. */
  lemma MonthOfIndex()
    ensures forall i :: 0 <= i < |AllCases| ==> Month(AllCases[i]) == if i >= 22 then 1 else i / 2 + 2
  {
  }

  /** Each Gregorian month 1..12 holds exactly two terms; no other month holds any. */
  lemma MonthHasTwoTerms(month: int)
    ensures 1 <= month <= 12 ==>
      exists t1, t2 :: t1 != t2 && Month(t1) == month && Month(t2) == month
        && forall t :: Month(t) == month ==> t == t1 || t == t2
    ensures !(1 <= month <= 12) ==> forall t :: Month(t) != month
  {
    MonthOfIndex();
    AllCasesComplete();
    if 1 <= month <= 12 {
      var k := if month == 1 then 22 else 2 * (month - 2);
      var t1, t2 := AllCases[k], AllCases[k + 1];
      forall t | Month(t) == month ensures t == t1 || t == t2 {
        var i := TermIndex(t);
      }
      assert t1 != t2 && Month(t1) == month && Month(t2) == month;
    } else {
      forall t ensures Month(t) != month {
        var i := TermIndex(t);
      }
    }
  }

  // ---------------------------------------------------------------------------
  // The formula

  /**
    Within 1901..2100 the truncations are floors: the day is floor(Y*D + C) - floor(Y/4) with
    Y = year mod 100 and C the 20th-century constant exactly for years before 2001; only 冬至
    in 2082 is moved one day later.
   */
  lemma CalculateInRange(t: SolarTerm, year: int)
    requires 1901 <= year <= 2100
    ensures var y := year % 100;
      CalculateSolarTermDay(t, year)
        == (y * D + (if year < 2001 then CValue(t).0 else CValue(t).1)) / Scale - y / 4
           + (if t == DongZhi && year == 2082 then 1 else 0)
  {
  }

  /** Within the supported years every term falls between the 3rd and the 24th of its month. */
  lemma TermDayBounds(t: SolarTerm, year: int)
    requires 1901 <= year <= 2100
    ensures 3 <= CalculateSolarTermDay(t, year) <= 24
    ensures CalculateSolarTermDay(t, year) <= DaysInMonth(year, Month(t))
  {
    CalculateInRange(t, year);
    var y := year % 100;
    var c := if year < 2001 then CValue(t).0 else CValue(t).1;
    assert 0 <= y < 100;
    assert 38700 <= c <= 242180;
    if t == DongZhi && year == 2082 {
      assert c == 219400;
    }
  }

  /** The position in the declaration order of the earlier term of a month. */
  function FirstIndexOfMonth(month: int): (k: int)
    requires 1 <= month <= 12
    ensures 0 <= k && k + 1 < |AllCases|
    ensures Month(AllCases[k]) == month && Month(AllCases[k + 1]) == month
  {
    if month == 1 then 22 else 2 * (month - 2)
  }

  /** A term's position is the first or the second of its month's pair. */
  lemma IndexInMonth(t: SolarTerm) returns (i: int)
    ensures 0 <= i < |AllCases| && AllCases[i] == t && 1 <= Month(t) <= 12
    ensures i == FirstIndexOfMonth(Month(t)) || i == FirstIndexOfMonth(Month(t)) + 1
  {
    i := TermIndex(t);
    MonthOfIndex();
  }

  /** The later term of a month falls at least 14 days after the earlier one. */
  lemma MonthTermsApart(month: int, year: int)
    requires 1 <= month <= 12 && 1901 <= year <= 2100
    ensures var k := FirstIndexOfMonth(month);
      CalculateSolarTermDay(AllCases[k + 1], year) >= CalculateSolarTermDay(AllCases[k], year) + 14
  {
    var k := FirstIndexOfMonth(month);
    var t1, t2 := AllCases[k], AllCases[k + 1];
    CalculateInRange(t1, year);
    CalculateInRange(t2, year);
    var y := year % 100;
    var c1 := if year < 2001 then CValue(t1).0 else CValue(t1).1;
    var c2 := if year < 2001 then CValue(t2).0 else CValue(t2).1;
    PairGap(month);
    FloorShift(y * D, c1, c2);
  }

  /** The C constants of a month's two terms lie more than 14 apart in both centuries. */
  lemma PairGap(month: int)
    requires 1 <= month <= 12
    ensures var k := FirstIndexOfMonth(month);
      && CValue(AllCases[k + 1]).0 >= CValue(AllCases[k]).0 + 14 * Scale
      && CValue(AllCases[k + 1]).1 >= CValue(AllCases[k]).1 + 14 * Scale
  {
  }

  lemma FloorShift(a: int, c1: int, c2: int)
    requires c2 >= c1 + 14 * Scale
    ensures (a + c2) / Scale >= (a + c1) / Scale + 14
  {
    assert (a + c1 + 14 * Scale) / Scale == (a + c1) / Scale + 14;
  }

  /** No date is the day of two different terms. */
  lemma AtMostOneTerm(t1: SolarTerm, t2: SolarTerm, year: int)
    requires 1901 <= year <= 2100 && Month(t1) == Month(t2) && t1 != t2
    ensures CalculateSolarTermDay(t1, year) != CalculateSolarTermDay(t2, year)
  {
    var i := IndexInMonth(t1);
    var j := IndexInMonth(t2);
    MonthTermsApart(Month(t1), year);
  }

  /**
    In the supported years a date has a solar term exactly when it is the computed day of a
    term of its month, and the name returned is that term's.
   */
  lemma SolarTermOnMatches(year: int, month: int, day: int)
    requires 1901 <= year <= 2100
    ensures (SolarTermOn(year, month, day).Some?
             <==> exists t :: Month(t) == month && CalculateSolarTermDay(t, year) == day)
    ensures forall t :: Month(t) == month && CalculateSolarTermDay(t, year) == day
              ==> SolarTermOn(year, month, day) == Some(ChineseName(t))
  {
    var candidates := TermsOfMonth(month);
    var r := SolarTermOn(year, month, day);
    assert r == FirstMatch(candidates, year, day);
    forall t | Month(t) == month && CalculateSolarTermDay(t, year) == day
      ensures r == Some(ChineseName(t))
    {
      MatchIsTheTerm(year, month, day, t);
    }
    if r.Some? {
      var i :| 0 <= i < |candidates| && CalculateSolarTermDay(candidates[i], year) == day;
      assert InMonth(month)(candidates[i]);
    }
  }

  /** A term of the month falling on the day is the one whose name is returned. */
  lemma MatchIsTheTerm(year: int, month: int, day: int, t: SolarTerm)
    requires 1901 <= year <= 2100 && Month(t) == month && CalculateSolarTermDay(t, year) == day
    ensures SolarTermOn(year, month, day) == Some(ChineseName(t))
  {
    var candidates := TermsOfMonth(month);
    var r := SolarTermOn(year, month, day);
    assert r == FirstMatch(candidates, year, day);
    TermsOfMonthMembers(month, t);
    var i :| 0 <= i < |candidates| && candidates[i] == t;
    var i' :| 0 <= i' < |candidates| && CalculateSolarTermDay(candidates[i'], year) == day
              && r.value == ChineseName(candidates[i']);
    assert InMonth(month)(candidates[i']);
    if candidates[i'] != t {
      AtMostOneTerm(candidates[i'], t, year);
    }
  }

  /** The terms of a month are exactly the terms whose month it is. */
  lemma TermsOfMonthMembers(month: int, t: SolarTerm)
    ensures t in TermsOfMonth(month) <==> Month(t) == month
  {
    AllCasesComplete();
    FilterMembers(AllCases, InMonth(month), t);
  }

  /** February's two terms are 立春 and 雨水. */
  lemma FebruaryTerms(t: SolarTerm)
    requires Month(t) == 2
    ensures t == LiChun || t == YuShui
  {
  }

  /** 立春 of 2025 falls on 3 February, so 4 February 2025 has no solar term. */
  lemma LiChun2025()
    ensures SolarTermOn(2025, 2, 3) == Some("立春")
    ensures SolarTermOn(2025, 2, 4) == None
  {
    LiChun2025Day();
    NoTermOn4February2025();
  }

  lemma LiChun2025Day()
    ensures SolarTermOn(2025, 2, 3) == Some("立春")
  {
    assert CalculateSolarTermDay(LiChun, 2025) == 3;
    SolarTermOnMatches(2025, 2, 3);
  }

  lemma NoTermOn4February2025()
    ensures SolarTermOn(2025, 2, 4) == None
  {
    assert CalculateSolarTermDay(LiChun, 2025) == 3;
    assert CalculateSolarTermDay(YuShui, 2025) == 18;
    SolarTermOnMatches(2025, 2, 4);
    forall t | Month(t) == 2 ensures CalculateSolarTermDay(t, 2025) != 4 {
      FebruaryTerms(t);
    }
  }
}

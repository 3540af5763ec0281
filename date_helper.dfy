/**
  The duration text of the event list: the time between two instants as whole hours and
  remaining whole minutes, written in Chinese (both apps) or English (the bilingual app).
 */
module DateHelper {
  import opened Wrappers
  import opened Civil
  import opened Text

  /** The language setting of the app. */
  datatype AppLanguage = System | Chinese | English

  /**
    Chinese is used when the setting says so, or when it defers to the system and the first
    preferred language is a Chinese one.
   */
  predicate IsChinese(setting: AppLanguage, preferredLanguages: seq<string>) {
    setting == Chinese
    || (setting == System && |preferredLanguages| > 0 && "zh" <= preferredLanguages[0])
  }

  /**
    `dateComponents([.hour, .minute], from: earlier, to: later)`: the whole hours of the
    distance between the instants and the whole minutes left over; seconds are dropped.
   */
  function DurationParts(start: Date, end: Date): (parts: (nat, nat))
    ensures var (hours, minutes) := parts; var d := Max(start, end) - Min(start, end);
      && minutes < 60
      && 3600 * hours + 60 * minutes <= d < 3600 * hours + 60 * minutes + 60
  {
    var d := Max(start, end) - Min(start, end);
    (d / 3600, d % 3600 / 60)
  }

  function Max(a: int, b: int): int { if a < b then b else a }

  /** The words a duration is written with. */
  datatype Units = Units(hour: string, minute: string, gap: string)

  const ChineseUnits := Units("小时", "分", "")
  const EnglishUnits := Units("h", "m", " ")

  /** Units that can be told apart from digits and from each other by their first character. */
  predicate Distinguishable(u: Units) {
    u.hour != [] && u.minute != [] && !IsDigit(u.hour[0]) && !IsDigit(u.minute[0]) && u.hour[0] != u.minute[0]
  }

  /** Hours and minutes when both are positive, only the positive one otherwise, and nothing for a zero duration. */
  function Render(hours: nat, minutes: nat, u: Units): (r: Option<string>)
    ensures r.None? <==> hours == 0 && minutes == 0
  {
    if hours > 0 && minutes > 0 then Some(Decimal(hours) + u.hour + u.gap + Decimal(minutes) + u.minute)
    else if hours > 0 then Some(Decimal(hours) + u.hour)
    else if minutes > 0 then Some(Decimal(minutes) + u.minute)
    else None
  }

  /** `formattedDuration(from:to:)` of the bilingual app. */
  function FormattedDurationBilingual(start: Date, end: Date, setting: AppLanguage, preferredLanguages: seq<string>): Option<string> {
    var (hours, minutes) := DurationParts(start, end);
    Render(hours, minutes, if IsChinese(setting, preferredLanguages) then ChineseUnits else EnglishUnits)
  }

  /** `formattedDuration(from:to:)` of the Chinese-only app. */
  function FormattedDuration(start: Date, end: Date): Option<string> {
    var (hours, minutes) := DurationParts(start, end);
    Render(hours, minutes, ChineseUnits)
  }

  /** The order of the two instants does not matter. */
  lemma FormattedDurationSymmetric(a: Date, b: Date, setting: AppLanguage, preferredLanguages: seq<string>)
    ensures FormattedDuration(a, b) == FormattedDuration(b, a)
    ensures FormattedDurationBilingual(a, b, setting, preferredLanguages)
            == FormattedDurationBilingual(b, a, setting, preferredLanguages)
  {
    assert DurationParts(a, b) == DurationParts(b, a);
  }

  /** There is no text exactly when the instants are less than a minute apart, in either language. */
  lemma NoTextUnderAMinute(a: Date, b: Date, setting: AppLanguage, preferredLanguages: seq<string>)
    ensures FormattedDuration(a, b).None? <==> Max(a, b) - Min(a, b) < 60
    ensures FormattedDurationBilingual(a, b, setting, preferredLanguages).None? <==> Max(a, b) - Min(a, b) < 60
  {
  }

  /** Under the Chinese setting the bilingual app writes what the Chinese-only app writes. */
  lemma BilingualAgreesInChinese(a: Date, b: Date, setting: AppLanguage, preferredLanguages: seq<string>)
    requires IsChinese(setting, preferredLanguages)
    ensures FormattedDurationBilingual(a, b, setting, preferredLanguages) == FormattedDuration(a, b)
  {
  }

  lemma ChineseUnitsDistinguishable()
    ensures Distinguishable(ChineseUnits) && Distinguishable(EnglishUnits)
  {
  }

  /** A rendered duration determines its hours and minutes. */
  lemma RenderInjective(h1: nat, m1: nat, h2: nat, m2: nat, u: Units)
    requires Distinguishable(u)
    requires Render(h1, m1, u) == Render(h2, m2, u)
    ensures h1 == h2 && m1 == m2
  {
    var r := Render(h1, m1, u);
    if r.Some? {
      var text := r.value;
      var rest1 := text[|Decimal(if h1 > 0 then h1 else m1)|..];
      var rest2 := text[|Decimal(if h2 > 0 then h2 else m2)|..];
      LeadingNumber(h1, m1, u);
      LeadingNumber(h2, m2, u);
      DecimalPrefixUnique(if h1 > 0 then h1 else m1, rest1, if h2 > 0 then h2 else m2, rest2);
      if h1 > 0 && m1 > 0 && h2 > 0 && m2 > 0 {
        var tail1 := Decimal(m1) + u.minute;
        var tail2 := Decimal(m2) + u.minute;
        assert rest1 == (u.hour + u.gap) + tail1;
        assert rest2 == (u.hour + u.gap) + tail2;
        assert tail1 == rest1[|u.hour + u.gap|..];
        assert tail2 == rest2[|u.hour + u.gap|..];
        DecimalPrefixUnique(m1, u.minute, m2, u.minute);
      }
    }
  }

  /** The text of a positive duration starts with the decimal of its leading number, followed by a non-digit. */
  lemma LeadingNumber(h: nat, m: nat, u: Units)
    requires Distinguishable(u) && Render(h, m, u).Some?
    ensures var lead := if h > 0 then h else m; var text := Render(h, m, u).value;
      && |Decimal(lead)| < |text|
      && text == Decimal(lead) + text[|Decimal(lead)|..]
      && !IsDigit(text[|Decimal(lead)|])
      && text[|Decimal(lead)|] == (if h > 0 then u.hour[0] else u.minute[0])
      && (h > 0 && m > 0 ==> text[|Decimal(lead)|..] == (u.hour + u.gap) + (Decimal(m) + u.minute))
      && (h > 0 && m == 0 ==> text[|Decimal(lead)|..] == u.hour)
      && (h == 0 ==> text[|Decimal(lead)|..] == u.minute)
  {
    var text := Render(h, m, u).value;
    if h > 0 && m > 0 {
      assert text == Decimal(h) + ((u.hour + u.gap) + (Decimal(m) + u.minute));
    }
  }

  /** Whole minutes of a distance, given its hours and leftover minutes. */
  lemma WholeMinutes(d: int, hours: nat, minutes: nat)
    requires minutes < 60 && 3600 * hours + 60 * minutes <= d < 3600 * hours + 60 * minutes + 60
    ensures d / 60 == 60 * hours + minutes
  {
    var q := 60 * hours + minutes;
    assert 60 * q <= d < 60 * q + 60;
  }

  /** Two durations with the same text are the same number of whole minutes long. */
  lemma SameTextSameMinutes(a: Date, b: Date, c: Date, d: Date)
    requires FormattedDuration(a, b) == FormattedDuration(c, d)
    ensures (Max(a, b) - Min(a, b)) / 60 == (Max(c, d) - Min(c, d)) / 60
  {
    var (h1, m1) := DurationParts(a, b);
    var (h2, m2) := DurationParts(c, d);
    ChineseUnitsDistinguishable();
    RenderInjective(h1, m1, h2, m2, ChineseUnits);
    WholeMinutes(Max(a, b) - Min(a, b), h1, m1);
    WholeMinutes(Max(c, d) - Min(c, d), h2, m2);
  }
}

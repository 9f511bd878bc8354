/**
 * The text side of `speakTime`: choosing the spoken language and turning an
 * hour and minute into a German or English sentence, with the locale tag and
 * rate handed to the speech platform. Playback itself is not modelled; the
 * result is the utterance that would be spoken.
 */
module Speech {
  import opened Basics
  import opened Decimal

  /** The language setting: `'auto' | 'de' | 'en'`. */
  datatype LanguageOption = Auto | De | En

  /** A language the app can speak. */
  datatype Language = German | English

  /**
   * `getBrowserLanguage`: the runtime's reported UI language, where an absent
   * or empty report counts as "de"; German iff it starts with "de".
   */
  function BrowserLanguage(reported: Option<string>): Language
  {
    var lang := if reported.None? || reported.value == "" then "de" else reported.value;
    if StartsWith(lang, "de") then German else English
  }

  /** `getActiveLanguage`: an explicit setting wins, `auto` asks the runtime. */
  function ActiveLanguage(setting: LanguageOption, reported: Option<string>): Language
  {
    match setting
    case De => German
    case En => English
    case Auto => BrowserLanguage(reported)
  }

  lemma ActiveLanguageResolution(setting: LanguageOption, reported: Option<string>)
    ensures setting == De ==> ActiveLanguage(setting, reported) == German
    ensures setting == En ==> ActiveLanguage(setting, reported) == English
    ensures setting == Auto ==>
      (ActiveLanguage(setting, reported) == German <==>
       reported.None? || reported.value == "" || StartsWith(reported.value, "de"))
  {
  }

  /** `hour % 12 || 12`: the hour on a 12-hour dial, with 12 in place of 0. */
  function Hour12(hour: int): (h: int)
    ensures hour >= 0 ==> 1 <= h <= 12 && h % 12 == hour % 12
  {
    var r := JsRem(hour, 12);
    JsRemNonNegative(if hour >= 0 then hour else 0, 12);
    if r == 0 then 12 else r
  }

  /** The sentence shapes the app speaks. */
  datatype Phrase =
    | OnTheHour(hour24: int)                        // Es ist {h} Uhr
    | QuarterPast(hour12: int)                      // Es ist viertel nach {h}
    | HalfTo(nextHour: int)                         // Es ist halb {n}
    | QuarterTo(nextHour: int)                      // Es ist viertel vor {n}
    | HourAndMinute(hour24: int, minute: int)       // Es ist {h} Uhr {m}
    | OClock(hour12: int, pm: bool)                 // It's {h} o'clock {AM|PM}
    | HourMinute(hour12: int, minute: int, pm: bool) // It's {h} {m} {AM|PM}

  /** The sentence `speakTime` chooses for a time, in the given language. */
  function Compose(language: Language, hour: int, minute: int): Phrase
  {
    var hour12 := Hour12(hour);
    match language
    case German =>
      if minute == 0 then OnTheHour(hour)
      else if minute == 15 then QuarterPast(hour12)
      else if minute == 30 then HalfTo(JsRem(hour12, 12) + 1)
      else if minute == 45 then QuarterTo(JsRem(hour12, 12) + 1)
      else HourAndMinute(hour, minute)
    case English =>
      if minute == 0 then OClock(hour12, hour >= 12)
      else HourMinute(hour12, minute, hour >= 12)
  }

  function Period(pm: bool): string
  {
    if pm then "PM" else "AM"
  }

  /** The words of a phrase, numbers written as JavaScript template literals write them. */
  function Text(p: Phrase): string
  {
    match p
    case OnTheHour(h) => "Es ist " + IntToString(h) + " Uhr"
    case QuarterPast(h) => "Es ist viertel nach " + IntToString(h)
    case HalfTo(n) => "Es ist halb " + IntToString(n)
    case QuarterTo(n) => "Es ist viertel vor " + IntToString(n)
    case HourAndMinute(h, m) => "Es ist " + IntToString(h) + " Uhr " + IntToString(m)
    case OClock(h, pm) => "It's " + IntToString(h) + " o'clock " + Period(pm)
    case HourMinute(h, m, pm) => "It's " + IntToString(h) + " " + IntToString(m) + " " + Period(pm)
  }

  /**
   * How a listener reads a phrase on a 12-hour dial: (hour position 0..11,
   * minute). "halb n" and "viertel vor n" count towards the coming hour n.
   */
  function DialReading(p: Phrase): (int, int)
  {
    match p
    case OnTheHour(h) => (h % 12, 0)
    case QuarterPast(h) => (h % 12, 15)
    case HalfTo(n) => ((n + 11) % 12, 30)
    case QuarterTo(n) => ((n + 11) % 12, 45)
    case HourAndMinute(h, m) => (h % 12, m)
    case OClock(h, _) => (h % 12, 0)
    case HourMinute(h, m, _) => (h % 12, m)
  }

  /** Every sentence, in either language, names the dial position of the time it is built from. */
  lemma ComposeNamesTheTime(language: Language, hour: int, minute: int)
    requires 0 <= hour < 24 && 0 <= minute < 60
    ensures DialReading(Compose(language, hour, minute)) == (hour % 12, minute)
  {
    var h12 := Hour12(hour);
    JsRemNonNegative(h12, 12);
  }

  /** The 24-hour hour a 12-hour reading with AM/PM stands for. */
  function Hour24(hour12: int, pm: bool): int
  {
    hour12 % 12 + if pm then 12 else 0
  }

  /**
   * English sentences carry a 12-hour value in 1..12 and a period that is PM
   * exactly from 12:00 on; together they recover the 24-hour hour.
   */
  lemma EnglishPeriodRecoversHour(hour: int, minute: int)
    requires 0 <= hour < 24
    ensures var p := Compose(English, hour, minute);
      && (p.OClock? || p.HourMinute?)
      && 1 <= p.hour12 <= 12
      && (p.pm <==> hour >= 12)
      && Hour24(p.hour12, p.pm) == hour
  {
  }

  /** The German rules, one per minute case. */
  lemma GermanRules(hour: int, minute: int)
    requires 0 <= hour < 24
    ensures var p := Compose(German, hour, minute); var h12 := Hour12(hour);
      && (minute == 0 ==> p == OnTheHour(hour))
      && (minute == 15 ==> p == QuarterPast(h12))
      && (minute == 30 ==> p == HalfTo(h12 % 12 + 1))
      && (minute == 45 ==> p == QuarterTo(h12 % 12 + 1))
      && (minute !in {0, 15, 30, 45} ==> p == HourAndMinute(hour, minute))
  {
    JsRemNonNegative(Hour12(hour), 12);
  }

  lemma GermanExamples()
    ensures Text(Compose(German, 6, 0)) == "Es ist 6 Uhr"
    ensures Text(Compose(German, 6, 15)) == "Es ist viertel nach 6"
    ensures Text(Compose(German, 6, 30)) == "Es ist halb 7"
    ensures Text(Compose(German, 6, 45)) == "Es ist viertel vor 7"
    ensures Text(Compose(German, 12, 30)) == "Es ist halb 1"
    ensures Text(Compose(German, 15, 0)) == "Es ist 15 Uhr"
  {
    GermanRules(6, 15);
    GermanRules(6, 30);
    GermanRules(6, 45);
    GermanRules(12, 30);
    assert Hour12(6) == 6 && Hour12(12) == 12;
    assert IntToString(6) == "6" && IntToString(7) == "7" && IntToString(1) == "1";
    assert IntToString(15) == "15" by { assert NatToString(15) == NatToString(1) + "5"; }
  }

  lemma EnglishExamples()
    ensures Text(Compose(English, 6, 0)) == "It's 6 o'clock AM"
    ensures Text(Compose(English, 0, 0)) == "It's 12 o'clock AM"
    ensures Text(Compose(English, 13, 5)) == "It's 1 5 PM"
  {
    assert Compose(English, 6, 0) == OClock(6, false);
    assert Compose(English, 0, 0) == OClock(12, false);
    assert Compose(English, 13, 5) == HourMinute(1, 5, true);
    assert IntToString(6) == "6" && IntToString(1) == "1" && IntToString(5) == "5";
    assert IntToString(12) == "12" by { assert NatToString(12) == NatToString(1) + "2"; }
  }

  /** The utterance handed to the speech platform. */
  datatype Utterance = Utterance(text: string, lang: string, rate: real)

  const SpeechRate: real := 0.9

  function LocaleTag(language: Language): string
  {
    if language == German then "de-DE" else "en-US"
  }

  /**
   * `speakTime(hour, minute, languageSetting)`: nothing when the platform has
   * no speech capability, otherwise the sentence in the active language.
   * `reported` is the runtime's UI language.
   */
  function SpeakTime(hour: int, minute: int, setting: LanguageOption, reported: Option<string>,
                     speechAvailable: bool): (u: Option<Utterance>)
    ensures u.Some? <==> speechAvailable
    ensures u.Some? ==> u.value.rate == SpeechRate
    ensures u.Some? ==>
      var language := ActiveLanguage(setting, reported);
      && (u.value.lang == "de-DE" <==> language == German)
      && (u.value.lang == "en-US" <==> language == English)
      && u.value.text == Text(Compose(language, hour, minute))
  {
    if !speechAvailable then None
    else
      var language := ActiveLanguage(setting, reported);
      Some(Utterance(Text(Compose(language, hour, minute)), LocaleTag(language), SpeechRate))
  }
}

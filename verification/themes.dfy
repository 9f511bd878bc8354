/**
 * The fixed theme registry of the interactive clock and its Roman-numeral
 * table, with a general Roman encoder and decoder to check the table against.
 */
module Themes {
  import opened Basics

  /** `ClockThemeId` */
  datatype ThemeId = Tower | Cuckoo | Watch | Learning

  /** The string key of a theme id. */
  function IdName(id: ThemeId): string
  {
    match id
    case Tower => "tower"
    case Cuckoo => "cuckoo"
    case Watch => "watch"
    case Learning => "learning"
  }

  /** The 13 named colours of a theme. */
  datatype ThemeColors = ThemeColors(
    outerRing: string, outerRingStroke: string,
    faceGradientStart: string, faceGradientEnd: string,
    hourMarker: string, minuteMarker: string, numbers: string,
    hourHand: string, minuteHand: string,
    centerOuter: string, centerInner: string,
    handleHour: string, handleMinute: string)

  /** `ClockTheme`; `decorations` is the decoration-set tag, a string. */
  datatype ClockTheme = ClockTheme(
    name: string, icon: string, description: string,
    colors: ThemeColors, decorations: string, useRomanNumerals: bool)

  const TowerTheme := ClockTheme(
    "Turmuhr", "\U{1F3F0}", "Mittelalterliche Turmuhr",
    ThemeColors("#4a3728", "#2d1f14", "#f5e6d3", "#d4b896", "#2d1f14", "#6b5344", "#2d1f14",
                "#2d1f14", "#8b0000", "#2d1f14", "#8b0000", "#2d1f14", "#8b0000"),
    "tower", true)

  const CuckooTheme := ClockTheme(
    "Kuckucksuhr", "\U{1F426}", "Traditionelle Kuckucksuhr",
    ThemeColors("#5d4037", "#3e2723", "#fff8e1", "#ffe0b2", "#3e2723", "#8d6e63", "#3e2723",
                "#3e2723", "#1b5e20", "#3e2723", "#1b5e20", "#3e2723", "#2e7d32"),
    "cuckoo", false)

  const WatchTheme := ClockTheme(
    "Armbanduhr", "\U{231A}", "Moderne Armbanduhr",
    ThemeColors("#37474f", "#263238", "#ffffff", "#e3f2fd", "#263238", "#90a4ae", "#263238",
                "#263238", "#1976d2", "#263238", "#1976d2", "#263238", "#1976d2"),
    "watch", false)

  const LearningTheme := ClockTheme(
    "Lernuhr", "\U{1F393}", "Bunte Lernuhr mit Minuten",
    ThemeColors("#ffffff", "#e0e0e0", "#ffffff", "#ffffff", "#333333", "#666666", "#ffffff",
                "#1a1a1a", "#1a1a1a", "#ffffff", "#e53935", "#333333", "#e53935"),
    "learning", false)

  /** `CLOCK_THEMES`, keyed by the theme's string id. */
  const ClockThemes: map<string, ClockTheme> := map[
    "tower" := TowerTheme,
    "cuckoo" := CuckooTheme,
    "watch" := WatchTheme,
    "learning" := LearningTheme]

  /** `CLOCK_THEMES[theme]` for a well-typed id. */
  function ThemeFor(id: ThemeId): (t: ClockTheme)
    ensures IdName(id) in ClockThemes && t == ClockThemes[IdName(id)]
  {
    ClockThemes[IdName(id)]
  }

  /** The registry is defined on exactly the four ids. */
  lemma RegistryDomain()
    ensures ClockThemes.Keys == {"tower", "cuckoo", "watch", "learning"}
    ensures forall id :: IdName(id) in ClockThemes
    ensures forall a, b :: IdName(a) == IdName(b) ==> a == b
  {
  }

  /**
   * Each theme's decoration tag is its own id, so checking `theme === 'learning'`
   * agrees with checking for the learning decoration; only the tower uses Roman numerals.
   */
  lemma ThemeTags(id: ThemeId)
    ensures ThemeFor(id).decorations == IdName(id)
    ensures (id == Learning) <==> ThemeFor(id).decorations == "learning"
    ensures ThemeFor(id).useRomanNumerals <==> id == Tower
  {
  }

  /** `ROMAN_NUMERALS` */
  const RomanNumerals: map<int, string> := map[
    1 := "I", 2 := "II", 3 := "III", 4 := "IV", 5 := "V", 6 := "VI",
    7 := "VII", 8 := "VIII", 9 := "IX", 10 := "X", 11 := "XI", 12 := "XII"]

  /** The standard subtractive Roman symbols, largest first. */
  const RomanValues: seq<nat> := [1000, 900, 500, 400, 100, 90, 50, 40, 10, 9, 5, 4, 1]
  const RomanSymbols: seq<string> := ["M", "CM", "D", "CD", "C", "XC", "L", "XL", "X", "IX", "V", "IV", "I"]

  /** Greedy Roman encoding of n using the symbols from index i on. */
  function RomanFrom(n: nat, i: nat): string
    requires i <= |RomanValues|
    decreases |RomanValues| - i, n
  {
    if n == 0 || i == |RomanValues| then ""
    else if n >= RomanValues[i] then RomanSymbols[i] + RomanFrom(n - RomanValues[i], i)
    else RomanFrom(n, i + 1)
  }

  /** The standard Roman numeral of n (subtractive forms IV, IX, XL, ...). */
  function ToRoman(n: nat): string
  {
    RomanFrom(n, 0)
  }

  function LetterValue(c: char): nat
  {
    match c
    case 'I' => 1
    case 'V' => 5
    case 'X' => 10
    case 'L' => 50
    case 'C' => 100
    case 'D' => 500
    case 'M' => 1000
    case _ => 0
  }

  /** Reading a Roman numeral: a letter smaller than its successor is subtracted. */
  function RomanValue(s: string): int
  {
    if |s| == 0 then 0
    else if |s| >= 2 && LetterValue(s[0]) < LetterValue(s[1]) then RomanValue(s[1..]) - LetterValue(s[0])
    else RomanValue(s[1..]) + LetterValue(s[0])
  }

  /** The table is defined exactly on 1..12. */
  lemma RomanTableDomain()
    ensures forall k :: k in RomanNumerals <==> 1 <= k <= 12
  {
    forall k | 1 <= k <= 12
      ensures k in RomanNumerals
    {
      assert k == 1 || k == 2 || k == 3 || k == 4 || k == 5 || k == 6
          || k == 7 || k == 8 || k == 9 || k == 10 || k == 11 || k == 12;
    }
  }

  /** Each entry is the standard subtractive numeral of its key. */
  lemma RomanTableIsStandard()
    ensures forall k :: k in RomanNumerals ==> RomanNumerals[k] == ToRoman(k)
  {
    assert ToRoman(1) == "I";
    assert ToRoman(2) == "II";
    assert ToRoman(3) == "III";
    assert ToRoman(4) == "IV";
    assert ToRoman(5) == "V";
    assert ToRoman(6) == "VI";
    assert ToRoman(7) == "VII";
    assert ToRoman(8) == "VIII";
    assert ToRoman(9) == "IX";
    assert ToRoman(10) == "X";
    assert ToRoman(11) == "XI";
    assert ToRoman(12) == "XII";
  }

  /** Each entry reads back as its key. */
  lemma RomanTableReadsBack()
    ensures forall k :: k in RomanNumerals ==> RomanValue(RomanNumerals[k]) == k
  {
    assert RomanValue("I") == 1;
    assert RomanValue("II") == 2;
    assert RomanValue("III") == 3;
    assert RomanValue("IV") == 4;
    assert RomanValue("V") == 5;
    assert RomanValue("VI") == 6;
    assert RomanValue("VII") == 7;
    assert RomanValue("VIII") == 8;
    assert RomanValue("IX") == 9;
    assert RomanValue("X") == 10;
    assert RomanValue("XI") == 11;
    assert RomanValue("XII") == 12;
  }
}

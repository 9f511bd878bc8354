/**
 * Clock arithmetic of the interactive clock and the analog clock: turning a
 * drag angle (degrees clockwise from 12 o'clock) into an hour or a minute,
 * and turning an hour and minute into hand rotations.
 *
 * Angles are reals; the pointer-to-angle conversion (`atan2`) is not part of
 * this model, so the angle is taken as an input.
 */
module ClockMath {
  import opened Basics

  /** Degrees covered by one hour on the dial. */
  const HourSectorDegrees: real := 30.0
  /** Degrees covered by one minute on the dial. */
  const MinuteSectorDegrees: real := 6.0

  /** `angleToHour`: the nearest of the 12 hour positions, `Math.round(angle / 30) % 12`. */
  function AngleToHour(angle: real): (h: int)
    ensures -12 < h < 12
    ensures 0.0 <= angle ==> 0 <= h < 12
  {
    JsRem(Round(angle / HourSectorDegrees), 12)
  }

  /** `angleToMinute`: the nearest of the 60 minute positions, `Math.round(angle / 6) % 60`. */
  function AngleToMinute(angle: real): (m: int)
    ensures -60 < m < 60
    ensures 0.0 <= angle ==> 0 <= m < 60
  {
    JsRem(Round(angle / MinuteSectorDegrees), 60)
  }

  /**
   * The angles that select hour h: the half-open sector of width 30 centred
   * on 30h, plus, for hour 0, the part of its sector just below 360.
   */
  predicate InHourSector(angle: real, h: int)
  {
    || (h as real * 30.0 - 15.0 <= angle < h as real * 30.0 + 15.0)
    || (h == 0 && 345.0 <= angle < 360.0)
  }

  /** The angles that select minute m, in the same way with sectors of width 6. */
  predicate InMinuteSector(angle: real, m: int)
  {
    || (m as real * 6.0 - 3.0 <= angle < m as real * 6.0 + 3.0)
    || (m == 0 && 357.0 <= angle < 360.0)
  }

  /** On a full turn, an angle selects hour h exactly when it lies in h's sector. */
  lemma AngleToHourSector(angle: real, h: int)
    requires 0.0 <= angle < 360.0
    requires 0 <= h < 12
    ensures AngleToHour(angle) == h <==> InHourSector(angle, h)
  {
    var k := Round(angle / 30.0);
    assert 0 <= k <= 12;
    assert k as real * 30.0 - 15.0 <= angle < k as real * 30.0 + 15.0;
    if k == 12 {
      assert AngleToHour(angle) == 0;
    } else {
      assert AngleToHour(angle) == k;
    }
    if InHourSector(angle, h) {
      if h as real * 30.0 - 15.0 <= angle < h as real * 30.0 + 15.0 {
        RoundUnique(angle / 30.0, h);
      } else {
        RoundUnique(angle / 30.0, 12);
      }
    }
  }

  /** On a full turn, an angle selects minute m exactly when it lies in m's sector. */
  lemma AngleToMinuteSector(angle: real, m: int)
    requires 0.0 <= angle < 360.0
    requires 0 <= m < 60
    ensures AngleToMinute(angle) == m <==> InMinuteSector(angle, m)
  {
    var k := Round(angle / 6.0);
    assert 0 <= k <= 60;
    assert k as real * 6.0 - 3.0 <= angle < k as real * 6.0 + 3.0;
    if k == 60 {
      assert AngleToMinute(angle) == 0;
    } else {
      assert AngleToMinute(angle) == k;
    }
    if InMinuteSector(angle, m) {
      if m as real * 6.0 - 3.0 <= angle < m as real * 6.0 + 3.0 {
        RoundUnique(angle / 6.0, m);
      } else {
        RoundUnique(angle / 6.0, 60);
      }
    }
  }

  /** Boundary cases: ties round up, and angles just below a full turn wrap to 0. */
  lemma QuantiserExamples()
    ensures AngleToHour(14.0) == 0 && AngleToHour(15.0) == 1 && AngleToHour(16.0) == 1
    ensures AngleToHour(345.0) == 0 && AngleToHour(359.0) == 0 && AngleToHour(0.0) == 0
    ensures AngleToMinute(3.0) == 1 && AngleToMinute(357.0) == 0 && AngleToMinute(359.0) == 0
  {
    RoundUnique(14.0 / 30.0, 0);
    RoundUnique(15.0 / 30.0, 1);
    RoundUnique(16.0 / 30.0, 1);
    RoundUnique(345.0 / 30.0, 12);
    RoundUnique(359.0 / 30.0, 12);
    RoundUnique(3.0 / 6.0, 1);
    RoundUnique(357.0 / 6.0, 60);
    RoundUnique(359.0 / 6.0, 60);
  }

  /**
   * Hour-hand rotation `(hour % 12) * 30 + (minute / 60) * 30`, shared by the
   * interactive and the analog clock.
   */
  function HourDegrees(hour: int, minute: int): (d: real)
    ensures 0 <= hour && 0 <= minute < 60 ==> 0.0 <= d < 360.0
  {
    (JsRem(hour, 12) * 30) as real + (minute as real / 60.0) * 30.0
  }

  /** Minute-hand rotation `minute * 6`. */
  function MinuteDegrees(minute: int): (d: real)
    ensures 0 <= minute < 60 ==> 0.0 <= d <= 354.0
  {
    (minute * 6) as real
  }

  /** The hour hand turns half a degree per minute and one sector per hour. */
  lemma HourDegreesSplit(hour: int, minute: int)
    requires 0 <= hour
    ensures HourDegrees(hour, minute) == (hour % 12) as real * 30.0 + minute as real / 2.0
    ensures HourDegrees(hour + 12, minute) == HourDegrees(hour, minute)
  {
    JsRemNonNegative(hour, 12);
    JsRemNonNegative(hour + 12, 12);
  }

  lemma HandExamples()
    ensures HourDegrees(3, 30) == 105.0 && HourDegrees(15, 30) == 105.0
    ensures MinuteDegrees(45) == 270.0
  {
    HourDegreesSplit(3, 30);
    HourDegreesSplit(15, 30);
  }

  /**
   * Dragging round trip for the hour hand: the angle at which the hour hand is
   * drawn selects that hour while less than half the hour has passed, and the
   * next hour from half past on.
   */
  lemma HourHandSelectsNearestHour(hour: int, minute: int)
    requires 0 <= hour && 0 <= minute < 60
    ensures AngleToHour(HourDegrees(hour, minute))
         == if minute < 30 then hour % 12 else (hour + 1) % 12
  {
    var k := hour % 12;
    HourDegreesSplit(hour, minute);
    var x := HourDegrees(hour, minute) / 30.0;
    assert x == k as real + minute as real / 60.0;
    if minute < 30 {
      RoundUnique(x, k);
    } else {
      RoundUnique(x, k + 1);
      assert (k + 1) % 12 == (hour + 1) % 12;
    }
  }

  /** Dragging round trip for the minute hand: its drawn angle selects its own minute. */
  lemma MinuteHandSelectsItsMinute(minute: int)
    requires 0 <= minute < 60
    ensures AngleToMinute(MinuteDegrees(minute)) == minute
  {
    RoundUnique(MinuteDegrees(minute) / 6.0, minute);
  }

  /** The numerals printed around a dial, starting at 12 o'clock. */
  const DialNumerals: seq<int> := [12, 1, 2, 3, 4, 5, 6, 7, 8, 9, 10, 11]

  /** Numeral i reads 12 at the top and i elsewhere, and sits where the hour hand points at that hour. */
  lemma DialNumeralPositions(i: int)
    requires 0 <= i < 12
    ensures |DialNumerals| == 12
    ensures DialNumerals[i] == if i == 0 then 12 else i
    ensures HourDegrees(DialNumerals[i], 0) == i as real * 30.0
  {
    HourDegreesSplit(DialNumerals[i], 0);
  }
}

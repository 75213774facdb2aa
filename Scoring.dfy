/** The server's scoring and reward rules: experience points for a result,
    the level an amount of experience reaches, the pass rule of a graded
    test with its bonus, and the day-based streak. Speeds and accuracies are
    the request's numbers (`real`); days are day numbers. */
module Scoring {
  import opened Common

  /** The four levels, in increasing order. */
  datatype Level = Beginner | Intermediate | Advanced | Expert {
    /** The name stored in the user document. */
    function Name(): string {
      match this
      case Beginner => "beginner"
      case Intermediate => "intermediate"
      case Advanced => "advanced"
      case Expert => "expert"
    }

    /** Position in the progression. */
    function Rank(): nat {
      match this
      case Beginner => 0
      case Intermediate => 1
      case Advanced => 2
      case Expert => 3
    }
  }

  /** Python's `int(x)`: truncation toward zero. */
  function TruncToInt(x: real): (r: int)
    ensures x >= 0.0 ==> 0 <= r && r as real <= x < r as real + 1.0
    ensures x < 0.0 ==> r <= 0 && r as real - 1.0 < x <= r as real
  {
    if x >= 0.0 then x.Floor else -((-x).Floor)
  }

  /** `calculate_xp`: the speed scaled by the accuracy fraction, truncated,
      and never less than one point. */
  function CalculateXp(wpm: real, accuracy: real): (xp: int)
    ensures xp >= 1
    ensures wpm * accuracy >= 100.0 ==> xp as real <= wpm * accuracy / 100.0 < xp as real + 1.0
    ensures wpm * accuracy < 100.0 ==> xp == 1
  {
    var base := TruncToInt(wpm * (accuracy / 100.0));
    if base > 1 then base else 1
  }

  /** A faster or more accurate result never earns fewer points. */
  lemma CalculateXpMonotone(w1: real, a1: real, w2: real, a2: real)
    requires 0.0 <= w1 <= w2 && 0.0 <= a1 <= a2
    ensures CalculateXp(w1, a1) <= CalculateXp(w2, a2)
  {
    var x1, x2 := w1 * (a1 / 100.0), w2 * (a2 / 100.0);
    MulMonotone(w1, w2, a1 / 100.0, a2 / 100.0);
    assert x1.Floor <= x2.Floor;
  }

  /** Products of non-negative factors grow with each factor. */
  lemma MulMonotone(a: real, b: real, c: real, d: real)
    requires 0.0 <= a <= b && 0.0 <= c <= d
    ensures a * c <= b * d
  {
    assert (b - a) * c >= 0.0;
    assert b * (d - c) >= 0.0;
  }

  /** `get_level_from_xp`. */
  function LevelFromXp(xp: int): Level {
    if xp < 100 then Beginner
    else if xp < 500 then Intermediate
    else if xp < 1500 then Advanced
    else Expert
  }

  /** The lowest amount of experience at which a level is reached. */
  function LevelThreshold(l: Level): int {
    match l
    case Beginner => 0
    case Intermediate => 100
    case Advanced => 500
    case Expert => 1500
  }

  /** Levels are the bands between consecutive thresholds: a non-negative
      amount of experience reaches exactly the highest level whose threshold
      it meets. */
  lemma LevelBands(xp: int, l: Level)
    requires xp >= 0
    ensures LevelFromXp(xp) == l <==>
              LevelThreshold(l) <= xp && (l != Expert ==> xp < LevelThreshold(NextLevel(l)))
  {
  }

  /** The level after `l` (the last level is its own successor). */
  function NextLevel(l: Level): Level {
    match l
    case Beginner => Intermediate
    case Intermediate => Advanced
    case Advanced => Expert
    case Expert => Expert
  }

  /** More experience never lowers the level. */
  lemma LevelMonotone(x: int, y: int)
    requires x <= y
    ensures LevelFromXp(x).Rank() <= LevelFromXp(y).Rank()
  {
  }

  /** The boundary values of the level thresholds. */
  lemma LevelExamples()
    ensures LevelFromXp(99) == Beginner && LevelFromXp(100) == Intermediate
    ensures LevelFromXp(499) == Intermediate && LevelFromXp(500) == Advanced
    ensures LevelFromXp(1499) == Advanced && LevelFromXp(1500) == Expert
  {
  }

  /** The fixed accuracy a graded test demands. */
  const PassAccuracy: real := 90.0

  /** The pass rule of `submit_test`: the target speed and the accuracy
      threshold must both be met. */
  function Passed(wpm: real, accuracy: real, targetWpm: int): bool {
    wpm >= targetWpm as real && accuracy >= PassAccuracy
  }

  /** The pass rule at a target of 35 words per minute: fast and accurate
      enough, fast but below 90% accuracy, and accurate but too slow. */
  lemma PassExamples()
    ensures Passed(40.0, 91.0, 35)
    ensures !Passed(40.0, 89.0, 35)
    ensures !Passed(30.0, 95.0, 35)
  {
  }

  /** The points a graded test earns: `calculate_xp`, raised by half and
      truncated when the test is passed. */
  function TestXpGained(wpm: real, accuracy: real, passed: bool): int {
    var base := CalculateXp(wpm, accuracy);
    if passed then TruncToInt(base as real * 1.5) else base
  }

  /** The pass bonus never lowers the reward; it is exactly half the base
      points, rounded down, so a one-point result gains nothing from it. */
  lemma TestXpGainedBonus(wpm: real, accuracy: real, passed: bool)
    ensures TestXpGained(wpm, accuracy, passed) >= CalculateXp(wpm, accuracy) >= 1
    ensures passed ==> TestXpGained(wpm, accuracy, passed) == CalculateXp(wpm, accuracy) * 3 / 2
    ensures !passed ==> TestXpGained(wpm, accuracy, passed) == CalculateXp(wpm, accuracy)
    ensures passed ==>
      (TestXpGained(wpm, accuracy, passed) > CalculateXp(wpm, accuracy) <==> CalculateXp(wpm, accuracy) >= 2)
  {
    var base := CalculateXp(wpm, accuracy);
    if passed {
      var g := TruncToInt(base as real * 1.5);
      assert base as real * 1.5 == (base * 3) as real / 2.0;
      var q := base * 3 / 2;
      assert base * 3 == 2 * q || base * 3 == 2 * q + 1;
      assert q as real <= base as real * 1.5 < q as real + 1.0;
      assert g == q;
    }
  }

  // ---------------------------------------------------------------------
  // Streak

  /** The streak part of a user document: consecutive active days and the
      last day with a finalized result, if any. */
  datatype Streak = Streak(days: int, lastDay: Option<int>)

  /** The decision of `update_user_streak` on day `today`. */
  function NextStreak(s: Streak, today: int): Streak {
    if s.lastDay == Some(today) then s
    else if s.lastDay == Some(today - 1) then Streak(s.days + 1, Some(today))
    else Streak(1, Some(today))
  }

  /** A second result on the same day changes nothing, and after any update
      the last active day is today. */
  lemma NextStreakSameDay(s: Streak, today: int)
    ensures NextStreak(NextStreak(s, today), today) == NextStreak(s, today)
    ensures NextStreak(s, today).lastDay == Some(today)
  {
  }

  /** The streak after results on the `k` consecutive days starting at `d`. */
  function ActiveDays(s: Streak, d: int, k: nat): Streak
    decreases k
  {
    if k == 0 then s else ActiveDays(NextStreak(s, d), d + 1, k - 1)
  }

  /** Activity on `k` consecutive days, starting from a streak that is broken
      (no activity yesterday) or continued (activity yesterday), ends with a
      streak of `k` days, or `k` more days. */
  lemma {:induction false} ConsecutiveDays(s: Streak, d: int, k: nat)
    requires k >= 1
    requires s.lastDay != Some(d)
    ensures ActiveDays(s, d, k).lastDay == Some(d + k - 1)
    ensures s.lastDay == Some(d - 1) ==> ActiveDays(s, d, k).days == s.days + k
    ensures s.lastDay != Some(d - 1) ==> ActiveDays(s, d, k).days == k
    decreases k
  {
    var s1 := NextStreak(s, d);
    if k > 1 {
      ConsecutiveDays(s1, d + 1, k - 1);
    }
  }
}

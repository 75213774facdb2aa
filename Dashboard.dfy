/** The dashboard's level progress bar (`getXPProgress`): how far the signed-in
    user's experience has come within its level band. A missing user or a
    zero, null or absent `xp` all read as 0. The percentage is exact real
    arithmetic where the page uses floating point. */
module Dashboard {
  import opened Common
  import opened Scoring

  /** The points earned within the band, the band's width, and the fill of
      the bar. */
  datatype XpProgress = XpProgress(current: int, target: int, percentage: real)

  /** The fill `current / target * 100`. */
  function Percent(current: int, target: int): real
    requires target > 0
  {
    (current as real / target as real) * 100.0
  }

  /** `getXPProgress`: the band of the first three levels, and for the last
      a bar over 500 points that stops at 100 percent. */
  function GetXpProgress(userXp: Option<int>): XpProgress {
    var xp := if userXp.Some? then userXp.value else 0;
    if xp < 100 then XpProgress(xp, 100, Percent(xp, 100))
    else if xp < 500 then XpProgress(xp - 100, 400, Percent(xp - 100, 400))
    else if xp < 1500 then XpProgress(xp - 500, 1000, Percent(xp - 500, 1000))
    else
      var p := Percent(xp - 1500, 500);
      XpProgress(xp - 1500, 500, if p < 100.0 then p else 100.0)
  }

  /** Below the last level, the bar spans exactly the user's level band: it
      starts at the threshold of `LevelFromXp`, is as wide as the distance to
      the next threshold, and its fill lies in [0, 100). */
  lemma ProgressFollowsLevel(xp: int)
    requires xp >= 0 && LevelFromXp(xp) != Expert
    ensures var p := GetXpProgress(Some(xp));
            var l := LevelFromXp(xp);
            && p.current == xp - LevelThreshold(l)
            && p.target == LevelThreshold(NextLevel(l)) - LevelThreshold(l)
            && 0 <= p.current < p.target
            && 0.0 <= p.percentage < 100.0
            && p.percentage * p.target as real == 100.0 * p.current as real
  {
    var p := GetXpProgress(Some(xp));
    FractionBelowOne(p.current, p.target);
  }

  /** At the last level the bar measures the points past its threshold over a
      500-point span, full exactly from 2000 points on. */
  lemma ProgressAtExpert(xp: int)
    requires LevelFromXp(xp) == Expert
    ensures var p := GetXpProgress(Some(xp));
            && p.current == xp - LevelThreshold(Expert) && p.target == 500
            && 0.0 <= p.percentage <= 100.0
            && (p.percentage == 100.0 <==> xp >= 2000)
  {
    var p := Percent(xp - 1500, 500);
    if xp < 2000 {
      FractionBelowOne(xp - 1500, 500);
    } else {
      assert p >= 100.0;
    }
  }

  /** A user without experience, or without a user at all, starts an empty
      bar towards 100 points. */
  lemma ProgressOfNothing()
    ensures GetXpProgress(None) == GetXpProgress(Some(0)) == XpProgress(0, 100, 0.0)
  {
  }

  /** A fill of `c` out of `t` points lies in [0, 100) and times `t` gives
      `100 c`. */
  lemma FractionBelowOne(c: int, t: int)
    requires 0 <= c < t
    ensures 0.0 <= Percent(c, t) < 100.0
    ensures Percent(c, t) * t as real == 100.0 * c as real
  {
    var q := c as real / t as real;
    assert q * t as real == c as real;
    assert (1.0 - q) * t as real == t as real - c as real;
  }
}

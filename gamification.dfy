/** Level, XP and time-conversion helpers of src/types/gamification.ts.

    JavaScript numbers are modelled as integers where the source only
    ever sees integers (levels, XP, minutes) and as exact fractions for
    the plan conversion factors. */
module Gamification {
  import opened Wrappers
  import opened Decimal

  /** `LEVEL_XP_REQUIREMENTS`: XP needed to leave levels 1-10. */
  function RequirementTable(level: int): (r: Option<nat>)
    ensures r.Some? <==> 1 <= level <= 10
  {
    if 1 <= level <= 10 then Some([100, 200, 350, 550, 800, 1100, 1450, 1850, 2300, 2800][level - 1])
    else None
  }

  /** `getXPToNextLevel`: the table for levels it lists, 500 more per
      level above ten otherwise (including, as written, levels below one). */
  function XPToNext(level: int): int {
    match RequirementTable(level)
    case Some(x) => x
    case None => 2800 + (level - 10) * 500
  }

  /** From level 1 on, each level needs more XP than the one before, and
      from level 10 on exactly 500 more. */
  lemma XPToNextGrows(level: int)
    requires level >= 1
    ensures XPToNext(level + 1) > XPToNext(level)
    ensures level >= 10 ==> XPToNext(level + 1) == XPToNext(level) + 500
  {
  }

  /** Closed form of the XP at which `level` starts: the prefix sums of the
      table up to level 11, then an arithmetic series. */
  function CumulativeXP(level: int): int {
    if level <= 1 then 0
    else if level <= 11 then [0, 100, 300, 650, 1200, 2000, 3100, 4550, 6400, 8700, 11500][level - 1]
    else 11500 + 2800 * (level - 11) + 250 * (level - 11) * (level - 10)
  }

  /** The start of the next level is the start of this one plus what this
      one requires. */
  lemma CumulativeStep(level: int)
    requires level >= 1
    ensures CumulativeXP(level + 1) == CumulativeXP(level) + XPToNext(level)
  {
    if level >= 11 {
      var n := level - 11;
      assert (n + 1) * (n + 2) == n * (n + 1) + 2 * (n + 1);
      assert 250 * ((n + 1) * (n + 2)) == 250 * (n * (n + 1)) + 500 * (n + 1);
    }
  }

  /** `getXPForLevel`: 0 up to level 1, then the sum of the requirements of
      every level below. */
  method XPForLevel(level: int) returns (total: int)
    ensures total == CumulativeXP(level)
    ensures level <= 1 ==> total == 0
  {
    if level <= 1 {
      return 0;
    }
    total := 0;
    var i := 1;
    while i < level
      invariant 1 <= i <= level
      invariant total == CumulativeXP(i)
    {
      CumulativeStep(i);
      total := total + XPToNext(i);
      i := i + 1;
    }
  }

  /** The integer parts of `getLevelProgress` (the percentage is a float
      and is not modelled). */
  method LevelProgress(currentXP: int, level: int) returns (xpToNext: int, xpFromStart: int)
    ensures level >= 1 ==> xpToNext + xpFromStart == XPToNext(level)
    ensures xpFromStart == currentXP - CumulativeXP(level)
    ensures xpToNext == CumulativeXP(level + 1) - currentXP
  {
    var startXP := XPForLevel(level);
    var targetXP := XPForLevel(level + 1);
    xpToNext := targetXP - currentXP;
    xpFromStart := currentXP - startXP;
    if level >= 1 {
      CumulativeStep(level);
    }
  }

  datatype Plan = Free | Starter | Pro | Business

  /** `TIME_TO_CREDIT_CONVERSION` as an exact fraction numerator/denominator:
      1.0, 1.0, 1.2 and 1.5. */
  function Factor(plan: Plan): (nat, nat) {
    match plan
    case Free => (1, 1)
    case Starter => (1, 1)
    case Pro => (6, 5)
    case Business => (3, 2)
  }

  /** `Math.floor((minutes / 15) * factor)`, computed exactly. */
  function TimeToCredits(minutes: int, plan: Plan): (credits: int)
    ensures var (num, den) := Factor(plan);
            credits * 15 * den <= minutes * num < (credits + 1) * 15 * den
  {
    var (num, den) := Factor(plan);
    (minutes * num) / (15 * den)
  }

  /** The free and starter plans convert one credit per full 15 minutes. */
  lemma BasicPlansCreditPerQuarterHour(minutes: int, plan: Plan)
    requires plan == Free || plan == Starter
    ensures TimeToCredits(minutes, plan) == minutes / 15
  {
  }

  /** More minutes never give fewer credits. */
  lemma TimeToCreditsMonotone(m1: int, m2: int, plan: Plan)
    requires m1 <= m2
    ensures TimeToCredits(m1, plan) <= TimeToCredits(m2, plan)
  {
    var (num, den) := Factor(plan);
    assert m1 * num <= m2 * num;
  }

  /** A higher plan never converts the same non-negative time into fewer credits. */
  lemma HigherPlanNotWorse(minutes: nat)
    ensures TimeToCredits(minutes, Free) <= TimeToCredits(minutes, Pro) <= TimeToCredits(minutes, Business)
  {
  }

  /** JavaScript `a % b` for a positive divisor: the remainder takes the
      sign of the dividend. */
  function JsRem(a: int, b: int): (r: int)
    requires b > 0
    ensures a >= 0 ==> r == a % b
    ensures -b < r < b
  {
    if a >= 0 then a % b else -((-a) % b)
  }

  /** `formatTime`. */
  function FormatTime(minutes: int): string {
    var hours := minutes / 60;
    var mins := JsRem(minutes, 60);
    if hours > 0 then IntToString(hours) + "시간 " + IntToString(mins) + "분"
    else IntToString(mins) + "분"
  }

  /** Reads "m분" at the end of a duration text. */
  function ParseMinutes(s: string): Option<nat> {
    match ParseNatPrefix(s)
    case None => None
    case Some((m, rest)) => if rest == "분" then Some(m) else None
  }

  /** Reading a formatted duration back: "h시간 m분" or "m분". */
  function ParseDuration(s: string): Option<nat> {
    match ParseNatPrefix(s)
    case None => None
    case Some((first, rest)) =>
      if rest == "분" then Some(first)
      else if |rest| > 3 && rest[..3] == "시간 " then
        match ParseMinutes(rest[3..])
        case Some(m) => Some(first * 60 + m)
        case None => None
      else None
  }

  /** A non-negative duration is shown with hours exactly when it reaches
      an hour, with the minute part below 60. */
  lemma FormatTimeShape(minutes: nat)
    ensures minutes >= 60 ==> FormatTime(minutes) == NatToString(minutes / 60) + "시간 " + NatToString(minutes % 60) + "분"
    ensures minutes < 60 ==> FormatTime(minutes) == NatToString(minutes) + "분"
  {
    var hours := minutes / 60;
    var mins := JsRem(minutes, 60);
    assert mins == minutes % 60;
    assert IntToString(mins) == NatToString(minutes % 60);
    if minutes >= 60 {
      assert hours > 0;
      assert IntToString(hours) == NatToString(minutes / 60);
    } else {
      assert hours == 0;
      assert minutes % 60 == minutes;
    }
  }

  lemma ParseDurationOfParts(s: string, h: nat, after: string, m: nat)
    requires ParseNatPrefix(s) == Some((h, "시간 " + after))
    requires ParseMinutes(after) == Some(m)
    ensures ParseDuration(s) == Some(h * 60 + m)
  {
    var tail := "시간 " + after;
    assert tail[..3] == "시간 " && tail[3..] == after;
    assert |tail| >= 3 > |"분"|;
  }

  lemma ParseMinutesOf(m: nat)
    ensures ParseMinutes(NatToString(m) + "분") == Some(m)
  {
    ParseNatToString(m, "분");
  }

  lemma ParseHoursAndMinutes(h: nat, m: nat)
    ensures ParseDuration(NatToString(h) + "시간 " + NatToString(m) + "분") == Some(h * 60 + m)
  {
    var after := NatToString(m) + "분";
    var whole := NatToString(h) + "시간 " + NatToString(m) + "분";
    assert whole == NatToString(h) + ("시간 " + after);
    ParseNatToString(h, "시간 " + after);
    ParseMinutesOf(m);
    ParseDurationOfParts(whole, h, after, m);
  }

  /** A non-negative duration's text reads back as the same number of minutes. */
  lemma FormatTimeRoundTrip(minutes: nat)
    ensures ParseDuration(FormatTime(minutes)) == Some(minutes)
  {
    FormatTimeShape(minutes);
    if minutes >= 60 {
      ParseHoursAndMinutes(minutes / 60, minutes % 60);
    } else {
      ParseNatToString(minutes, "분");
    }
  }

  /** A negative duration never shows hours; its minute part keeps the
      sign, as JavaScript's remainder does. */
  lemma FormatTimeNegative(minutes: int)
    requires minutes < 0
    ensures FormatTime(minutes) == IntToString(-((-minutes) % 60)) + "분"
  {
  }
}

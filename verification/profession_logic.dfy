/** The edit handlers of a profession card and its derived statistics. A
    handler takes the raw text of one input field and either rejects it or
    produces the partial update of (level, XP, target) the card applies. */
module ProfessionLogic {
  import opened Wrappers
  import opened JsMath
  import opened Types
  import opened ProfessionXP
  import opened ProfessionMappings
  import opened ProfessionValidation

  /** The fields of a profession an edit sets; `None` leaves a field as it is. */
  datatype Update = Update(currentLevel: Option<int>, currentXP: Option<int>, targetLevel: Option<int>)

  /** An edit is ignored when the field holds something other than digits. */
  predicate Rejected(value: string)
  {
    value != "" && !IsNumericString(value)
  }

  /** `handleLevelChange`: the level typed in (1 when the field is
      cleared), clamped to [1, 100]; the XP reset to that level's
      threshold; the target raised to the level if it was below. */
  function HandleLevelChange(newLevel: string, currentTargetLevel: int): (u: Option<Update>)
    ensures u.None? <==> Rejected(newLevel)
    ensures u.Some? ==>
              u.value.currentLevel.Some? && u.value.currentXP.Some? && u.value.targetLevel.Some?
    ensures u.Some? ==>
              var level := u.value.currentLevel.value;
              1 <= level <= 100 &&
              u.value.currentXP.value == GetXPForLevel(level) &&
              u.value.targetLevel.value >= level &&
              u.value.targetLevel.value >= currentTargetLevel &&
              (u.value.targetLevel.value == level || u.value.targetLevel.value == currentTargetLevel)
    ensures newLevel == "" ==> u == Some(Update(Some(1), Some(0), Some(Max(1, currentTargetLevel))))
    ensures IsNumericString(newLevel) && 1 <= DecimalValue(newLevel) <= 100 ==>
              u.Some? && u.value.currentLevel == Some(DecimalValue(newLevel))
    ensures IsNumericString(newLevel) && DecimalValue(newLevel) > 100 ==>
              u.Some? && u.value.currentLevel == Some(100)
    ensures IsNumericString(newLevel) && DecimalValue(newLevel) == 0 ==>
              u.Some? && u.value.currentLevel == Some(1)
    ensures IsNumericString(newLevel) ==>
              u.Some? && u.value.currentLevel == Some(ValidateLevel(DecimalValue(newLevel)))
  {
    if Rejected(newLevel) then None
    else
      var level := ParseNumericInput(newLevel, 1);
      var clampedLevel := ValidateLevel(level);
      var baseXP := GetXPForLevel(clampedLevel);
      var newTargetLevel := Max(clampedLevel, currentTargetLevel);
      Some(Update(Some(clampedLevel), Some(baseXP), Some(newTargetLevel)))
  }

  /** After a level edit the XP total resolves back to the new level. */
  lemma LevelChangeIsCoherent(newLevel: string, currentTargetLevel: int)
    requires !Rejected(newLevel)
    ensures var u := HandleLevelChange(newLevel, currentTargetLevel).value;
            LevelFromTotalXP(u.currentXP.value) == u.currentLevel.value
  {
    var u := HandleLevelChange(newLevel, currentTargetLevel).value;
    LevelOfThreshold(u.currentLevel.value);
  }

  /** Typing a level in decimal sets exactly that level. */
  lemma LevelChangeOfDecimal(n: int, currentTargetLevel: int)
    requires 1 <= n <= 100
    ensures HandleLevelChange(DecimalString(n), currentTargetLevel) ==
              Some(Update(Some(n), Some(GetXPForLevel(n)), Some(Max(n, currentTargetLevel))))
  {
    DecimalRoundTrip(n, 1);
  }

  /** `handleXPChange`: the XP total typed in (0 when the field is
      cleared), clamped to [0, threshold of level 100]; the level is
      included only when the detected level differs from the current one,
      and the target is never touched. */
  function HandleXPChange(newXP: string, currentLevel: int): (u: Option<Update>)
    ensures u.None? <==> Rejected(newXP)
    ensures u.Some? ==> u.value.targetLevel.None? && u.value.currentXP.Some?
    ensures u.Some? ==> 0 <= u.value.currentXP.value <= GetXPForLevel(MAX_LEVEL)
    ensures newXP == "" ==> u.Some? && u.value.currentXP == Some(0)
    ensures IsNumericString(newXP) && DecimalValue(newXP) <= GetXPForLevel(MAX_LEVEL) ==>
              u.Some? && u.value.currentXP == Some(DecimalValue(newXP))
    ensures IsNumericString(newXP) && DecimalValue(newXP) > GetXPForLevel(MAX_LEVEL) ==>
              u.Some? && u.value.currentXP == Some(GetXPForLevel(MAX_LEVEL))
    ensures IsNumericString(newXP) ==>
              u.Some? && u.value.currentXP == Some(ValidateTotalXP(DecimalValue(newXP)))
    ensures u.Some? ==>
              (u.value.currentLevel.Some? <==> LevelFromTotalXP(u.value.currentXP.value) != currentLevel)
    ensures u.Some? && u.value.currentLevel.Some? ==>
              u.value.currentLevel.value == LevelFromTotalXP(u.value.currentXP.value)
  {
    if Rejected(newXP) then None
    else
      var xp := ParseNumericInput(newXP, 0);
      var clampedXP := ValidateTotalXP(xp);
      var detectedLevel := DetectLevelFromXP(clampedXP, currentLevel);
      DetectLevelAgreesWithResolver(clampedXP, currentLevel);
      if detectedLevel != currentLevel then
        Some(Update(Some(detectedLevel), Some(clampedXP), None))
      else
        Some(Update(None, Some(clampedXP), None))
  }

  /** After an XP edit, the level the profession ends up with (the updated
      one, or the unchanged current one) is the level of the new total:
      level and XP never disagree. */
  lemma XPChangeIsCoherent(newXP: string, currentLevel: int)
    requires !Rejected(newXP)
    ensures var u := HandleXPChange(newXP, currentLevel).value;
            var xp := u.currentXP.value;
            var level := u.currentLevel.GetOr(currentLevel);
            GetXPForLevel(level) <= xp && (level == 100 || xp < GetXPForLevel(level + 1))
  {
    var u := HandleXPChange(newXP, currentLevel).value;
    var xp := u.currentXP.value;
    var level := u.currentLevel.GetOr(currentLevel);
    assert level == LevelFromTotalXP(xp);
  }

  /** `handleTargetLevelChange`: the target typed in (the current level when
      the field is cleared), clamped to [currentLevel, 100]; nothing else
      changes. */
  function HandleTargetLevelChange(newTarget: string, currentLevel: int): (u: Option<Update>)
    ensures u.None? <==> Rejected(newTarget)
    ensures u.Some? ==> u.value.currentLevel.None? && u.value.currentXP.None? && u.value.targetLevel.Some?
    ensures u.Some? ==> u.value.targetLevel.value >= currentLevel
    ensures u.Some? && currentLevel <= MAX_LEVEL ==> u.value.targetLevel.value <= MAX_LEVEL
    ensures newTarget == "" ==> u == Some(Update(None, None, Some(currentLevel)))
    ensures IsNumericString(newTarget) && currentLevel <= DecimalValue(newTarget) <= MAX_LEVEL ==>
              u == Some(Update(None, None, Some(DecimalValue(newTarget))))
    ensures IsNumericString(newTarget) && DecimalValue(newTarget) < currentLevel ==>
              u == Some(Update(None, None, Some(currentLevel)))
    ensures IsNumericString(newTarget) && DecimalValue(newTarget) > MAX_LEVEL ==>
              u == Some(Update(None, None, Some(Max(currentLevel, MAX_LEVEL))))
    ensures IsNumericString(newTarget) ==>
              u == Some(Update(None, None, Some(ValidateTargetLevel(DecimalValue(newTarget), currentLevel))))
  {
    if Rejected(newTarget) then None
    else
      var target := ParseNumericInput(newTarget, currentLevel);
      var clampedTarget := ValidateTargetLevel(target, currentLevel);
      Some(Update(None, None, Some(clampedTarget)))
  }

  /** The integer and real parts of `calculateProfessionStats` (the recipe
      average and the crafts estimate built on it are not modelled). */
  datatype ProfessionStats = ProfessionStats(
    currentTotalXP: int,
    currentLevelBaseXP: int,
    nextLevelBaseXP: int,
    progress: real,
    xpNeeded: int,
    levelsRemaining: int)

  /** The share of a level's width already earned, in percent, before
      clamping; a level without width counts as 0. */
  function LevelProgress(xpInLevel: int, levelWidth: int): real
  {
    if levelWidth > 0 then (xpInLevel as real / levelWidth as real) * 100.0 else 0.0
  }

  /** `calculateProfessionStats`: progress through the current level as a
      percentage clamped to [0, 100] (0 when the level has no width), XP
      still needed to reach the target threshold (never negative), and the
      number of levels to go. */
  function CalculateProfessionStats(profession: Profession): (r: ProfessionStats)
    ensures r.currentTotalXP == profession.currentXP
    ensures r.currentLevelBaseXP == GetXPForLevel(profession.currentLevel)
    ensures r.nextLevelBaseXP == GetXPForLevel(profession.currentLevel + 1)
    ensures r.currentLevelBaseXP <= r.nextLevelBaseXP
    ensures 0.0 <= r.progress <= 100.0
    ensures r.xpNeeded >= 0 && r.xpNeeded >= GetXPForLevel(profession.targetLevel) - profession.currentXP
    ensures r.xpNeeded == 0 <==> profession.currentXP >= GetXPForLevel(profession.targetLevel)
    ensures r.xpNeeded > 0 ==> r.xpNeeded + profession.currentXP == GetXPForLevel(profession.targetLevel)
    ensures r.levelsRemaining == profession.targetLevel - profession.currentLevel
  {
    var currentTotalXP := profession.currentXP;
    var currentLevelBaseXP := GetXPForLevel(profession.currentLevel);
    var nextLevelBaseXP := GetXPForLevel(profession.currentLevel + 1);
    GetXPForLevelMonotone(profession.currentLevel, profession.currentLevel + 1);
    var xpInCurrentLevel := currentTotalXP - currentLevelBaseXP;
    var xpNeededForLevel := nextLevelBaseXP - currentLevelBaseXP;
    var progress := LevelProgress(xpInCurrentLevel, xpNeededForLevel);
    var targetLevelXP := GetXPForLevel(profession.targetLevel);
    var xpNeeded := Max(0, targetLevelXP - currentTotalXP);
    var levelsRemaining := profession.targetLevel - profession.currentLevel;
    ProfessionStats(currentTotalXP, currentLevelBaseXP, nextLevelBaseXP,
                    MinReal(MaxReal(progress, 0.0), 100.0), xpNeeded, levelsRemaining)
  }

  /** At the top level both base XP values are the last threshold, so the
      level has no width and the displayed progress is 0. */
  lemma StatsAtMaxLevel(profession: Profession)
    requires profession.currentLevel >= MAX_LEVEL
    ensures var r := CalculateProfessionStats(profession);
            r.currentLevelBaseXP == r.nextLevelBaseXP == TableXP(100) && r.progress == 0.0
  {
  }

  /** Inside its window, a profession's progress is the share of the level
      already earned: 0 at the level's threshold and below 100 before the
      next one. */
  lemma StatsProgressInsideWindow(profession: Profession)
    requires 1 <= profession.currentLevel < MAX_LEVEL
    requires GetXPForLevel(profession.currentLevel) <= profession.currentXP < GetXPForLevel(profession.currentLevel + 1)
    ensures var r := CalculateProfessionStats(profession);
            r.progress < 100.0 &&
            (profession.currentXP == GetXPForLevel(profession.currentLevel) ==> r.progress == 0.0)
  {
    var base := GetXPForLevel(profession.currentLevel);
    var next := GetXPForLevel(profession.currentLevel + 1);
    var r := CalculateProfessionStats(profession);
    assert r.progress == MinReal(MaxReal(LevelProgress(profession.currentXP - base, next - base), 0.0), 100.0);
    ShareBelowWhole(profession.currentXP - base, next - base);
  }

  /** Below level 100, the utility's progress of the XP earned inside the
      level is the progress the card's statistics show for the same
      profession. */
  lemma ProgressAgreesWithStats(profession: Profession)
    requires 1 <= profession.currentLevel < MAX_LEVEL
    requires GetXPForLevel(profession.currentLevel) <= profession.currentXP < GetXPForLevel(profession.currentLevel + 1)
    ensures GetProgressToNextLevel(profession.currentLevel, profession.currentXP - GetXPForLevel(profession.currentLevel)) ==
              CalculateProfessionStats(profession).progress
  {
    var base := GetXPForLevel(profession.currentLevel);
    var next := GetXPForLevel(profession.currentLevel + 1);
    var r := CalculateProfessionStats(profession);
    assert r.progress == MinReal(MaxReal(LevelProgress(profession.currentXP - base, next - base), 0.0), 100.0);
    ShareBelowWhole(profession.currentXP - base, next - base);
  }

  /** A part smaller than its whole is less than 100 percent of it, and
      nothing is 0 percent. */
  lemma ShareBelowWhole(part: int, whole: int)
    requires 0 <= part < whole
    ensures 0.0 <= LevelProgress(part, whole) < 100.0
    ensures part == 0 ==> LevelProgress(part, whole) == 0.0
  {
    var q := part as real / whole as real;
    assert q * whole as real == part as real;
  }
}

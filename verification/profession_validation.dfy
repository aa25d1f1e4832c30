/** Clamping and sanitising of user-entered levels, XP totals and target
    levels, and the re-derivation of the level from an edited XP total. */
module ProfessionValidation {
  import opened JsMath
  import opened ProfessionXP
  import opened ProfessionMappings

  /** `validateLevel`: a level clamped into [MIN_LEVEL, MAX_LEVEL]. */
  function ValidateLevel(level: int): (r: int)
    ensures MIN_LEVEL <= r <= MAX_LEVEL
    ensures MIN_LEVEL <= level <= MAX_LEVEL ==> r == level
    ensures level < MIN_LEVEL ==> r == MIN_LEVEL
    ensures level > MAX_LEVEL ==> r == MAX_LEVEL
  {
    Max(MIN_LEVEL, Min(MAX_LEVEL, level))
  }

  lemma ValidateLevelIdempotent(level: int)
    ensures ValidateLevel(ValidateLevel(level)) == ValidateLevel(level)
  {
  }

  /** `validateTotalXP`: an XP total clamped into [0, threshold of MAX_LEVEL]. */
  function ValidateTotalXP(xp: int): (r: int)
    ensures 0 <= r <= GetXPForLevel(MAX_LEVEL)
    ensures 0 <= xp <= GetXPForLevel(MAX_LEVEL) ==> r == xp
    ensures xp < 0 ==> r == 0
    ensures xp > GetXPForLevel(MAX_LEVEL) ==> r == GetXPForLevel(MAX_LEVEL)
  {
    var maxXP := GetXPForLevel(MAX_LEVEL);
    Max(0, Min(maxXP, xp))
  }

  lemma ValidateTotalXPIdempotent(xp: int)
    ensures ValidateTotalXP(ValidateTotalXP(xp)) == ValidateTotalXP(xp)
  {
  }

  /** `validateTargetLevel`: a target no lower than the current level and,
      when the current level is itself legal, no higher than MAX_LEVEL. */
  function ValidateTargetLevel(targetLevel: int, currentLevel: int): (r: int)
    ensures r >= currentLevel
    ensures currentLevel <= MAX_LEVEL ==> r <= MAX_LEVEL
    ensures currentLevel <= targetLevel <= MAX_LEVEL ==> r == targetLevel
    ensures targetLevel < currentLevel ==> r == currentLevel
    ensures targetLevel > MAX_LEVEL ==> r == Max(currentLevel, MAX_LEVEL)
  {
    Max(currentLevel, Min(MAX_LEVEL, targetLevel))
  }

  lemma ValidateTargetLevelIdempotent(targetLevel: int, currentLevel: int)
    ensures ValidateTargetLevel(ValidateTargetLevel(targetLevel, currentLevel), currentLevel)
            == ValidateTargetLevel(targetLevel, currentLevel)
  {
  }

  /** The characters the regular-expression class `\d` accepts. */
  predicate IsDigit(ch: char)
  {
    '0' <= ch <= '9'
  }

  predicate AllDigits(s: string)
  {
    forall i :: 0 <= i < |s| ==> IsDigit(s[i])
  }

  /** `isNumericString`, the pattern `^\d+$` matched as a scan: one digit,
      then either the end of the input or another match of the pattern. */
  function IsNumericString(value: string): (r: bool)
    ensures r <==> |value| > 0 && AllDigits(value)
    decreases |value|
  {
    |value| > 0 && IsDigit(value[0]) && (|value| == 1 || IsNumericString(value[1..]))
  }

  function DigitValue(ch: char): (d: int)
    requires IsDigit(ch)
    ensures 0 <= d <= 9
  {
    ch as int - '0' as int
  }

  function DigitChar(d: int): (ch: char)
    requires 0 <= d <= 9
    ensures IsDigit(ch) && DigitValue(ch) == d
  {
    ('0' as int + d) as char
  }

  /** `parseInt(value, 10)` on a string of digits: the digits read left to
      right in base 10. */
  function DecimalValue(value: string): (r: int)
    requires AllDigits(value)
    ensures r >= 0
    decreases |value|
  {
    if |value| == 0 then 0
    else DecimalValue(value[..|value| - 1]) * 10 + DigitValue(value[|value| - 1])
  }

  /** `parseNumericInput`: the base-10 value of an all-digit input, and
      `defaultValue` for an empty or non-numeric one. */
  function ParseNumericInput(value: string, defaultValue: int): (r: int)
    ensures value == "" ==> r == defaultValue
    ensures !IsNumericString(value) ==> r == defaultValue
    ensures IsNumericString(value) ==> r >= 0
  {
    if value == "" || !IsNumericString(value) then defaultValue
    else DecimalValue(value)
  }

  /** The decimal rendering of a non-negative integer, as an input field
      shows a number. */
  function DecimalString(n: int): (s: string)
    requires n >= 0
    ensures IsNumericString(s)
    decreases n
  {
    if n < 10 then [DigitChar(n)]
    else DecimalString(n / 10) + [DigitChar(n % 10)]
  }

  /** Parsing the rendering of a number gives the number back. */
  lemma {:induction false} DecimalRoundTrip(n: int, defaultValue: int)
    requires n >= 0
    ensures ParseNumericInput(DecimalString(n), defaultValue) == n
  {
    DecimalValueOfString(n);
  }

  lemma {:induction false} DecimalValueOfString(n: int)
    requires n >= 0
    ensures DecimalValue(DecimalString(n)) == n
    decreases n
  {
    var s := DecimalString(n);
    if n < 10 {
      assert s[..0] == [];
    } else {
      DecimalValueOfString(n / 10);
      assert s[..|s| - 1] == DecimalString(n / 10);
    }
  }

  /** Leading zeros do not change the parsed value. */
  lemma {:induction false} LeadingZeroIgnored(value: string, defaultValue: int)
    requires IsNumericString(value)
    ensures ParseNumericInput("0" + value, defaultValue) == ParseNumericInput(value, defaultValue)
  {
    ZeroPrefixValue(value);
  }

  lemma {:induction false} ZeroPrefixValue(value: string)
    requires AllDigits(value)
    ensures AllDigits("0" + value)
    ensures DecimalValue("0" + value) == DecimalValue(value)
    decreases |value|
  {
    var z := "0" + value;
    assert AllDigits(z) by {
      forall i | 0 <= i < |z| ensures IsDigit(z[i]) {
        if i > 0 { assert z[i] == value[i - 1]; }
      }
    }
    if |value| == 0 {
      assert z[..0] == [];
    } else {
      var front := value[..|value| - 1];
      ZeroPrefixValue(front);
      assert z[..|z| - 1] == "0" + front;
    }
  }

  /** `detectLevelFromXP`: the current level while `totalXP` stays inside its
      window [threshold(level), threshold(level + 1) - 1], otherwise the
      level resolved from the total. */
  function DetectLevelFromXP(totalXP: int, currentLevel: int): (r: int)
    ensures 1 <= r <= 100
    ensures totalXP >= 0 ==> GetXPForLevel(r) <= totalXP
    ensures totalXP >= 0 ==> r == 100 || totalXP < GetXPForLevel(r + 1)
  {
    var detectedLevel := LevelFromTotalXP(totalXP);
    var minXPForCurrentLevel := GetXPForLevel(currentLevel);
    var maxXPForCurrentLevel := GetXPForLevel(currentLevel + 1) - 1;
    if totalXP < minXPForCurrentLevel || totalXP > maxXPForCurrentLevel then
      if totalXP >= 0 then ResolvedWindow(totalXP); detectedLevel else detectedLevel
    else
      WindowWidthPositive(currentLevel);
      currentLevel
  }

  /** The window shortcut never changes the answer: the detected level is
      always the level resolved from the total. */
  lemma DetectLevelAgreesWithResolver(totalXP: int, currentLevel: int)
    ensures DetectLevelFromXP(totalXP, currentLevel) == LevelFromTotalXP(totalXP)
  {
    var minXP := GetXPForLevel(currentLevel);
    var maxXP := GetXPForLevel(currentLevel + 1) - 1;
    if minXP <= totalXP <= maxXP {
      WindowWidthPositive(currentLevel);
      LevelOfWindow(totalXP, currentLevel);
    }
  }
}

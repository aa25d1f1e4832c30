/** The cumulative experience table of professions (levels 1 to 100) and
    the resolver that translates between a level and a cumulative XP total. */
module ProfessionXP {
  import opened Wrappers
  import opened JsMath

  /** Cumulative XP needed to have reached `level`: the entries of the
      experience table, split into rows of ten levels. */
  function TableXP(level: int): (r: int)
    requires 1 <= level <= 100
    ensures 0 <= r <= 581687
  {
    if level <= 10 then Levels1To10(level)
    else if level <= 20 then Levels11To20(level)
    else if level <= 30 then Levels21To30(level)
    else if level <= 40 then Levels31To40(level)
    else if level <= 50 then Levels41To50(level)
    else if level <= 60 then Levels51To60(level)
    else if level <= 70 then Levels61To70(level)
    else if level <= 80 then Levels71To80(level)
    else if level <= 90 then Levels81To90(level)
    else Levels91To100(level)
  }

  function Levels1To10(level: int): int
    requires 1 <= level <= 10
  {
    match level
    case 1 => 0
    case 2 => 20
    case 3 => 60
    case 4 => 120
    case 5 => 200
    case 6 => 300
    case 7 => 420
    case 8 => 560
    case 9 => 720
    case 10 => 900
  }

  function Levels11To20(level: int): int
    requires 11 <= level <= 20
  {
    match level
    case 11 => 1100
    case 12 => 1320
    case 13 => 1560
    case 14 => 1820
    case 15 => 2100
    case 16 => 2400
    case 17 => 2720
    case 18 => 3060
    case 19 => 3420
    case 20 => 3800
  }

  function Levels21To30(level: int): int
    requires 21 <= level <= 30
  {
    match level
    case 21 => 4220
    case 22 => 4660
    case 23 => 5120
    case 24 => 5600
    case 25 => 6100
    case 26 => 14122
    case 27 => 15315
    case 28 => 16564
    case 29 => 17873
    case 30 => 19672
  }

  function Levels31To40(level: int): int
    requires 31 <= level <= 40
  {
    match level
    case 31 => 20672
    case 32 => 22166
    case 33 => 23726
    case 34 => 25353
    case 35 => 27048
    case 36 => 28815
    case 37 => 30656
    case 38 => 32572
    case 39 => 34566
    case 40 => 36641
  }

  function Levels41To50(level: int): int
    requires 41 <= level <= 50
  {
    match level
    case 41 => 38800
    case 42 => 41044
    case 43 => 43378
    case 44 => 45804
    case 45 => 48325
    case 46 => 50946
    case 47 => 53669
    case 48 => 56498
    case 49 => 59437
    case 50 => 62491
  }

  function Levels51To60(level: int): int
    requires 51 <= level <= 60
  {
    match level
    case 51 => 65664
    case 52 => 68960
    case 53 => 72385
    case 54 => 75943
    case 55 => 79640
    case 56 => 83482
    case 57 => 87475
    case 58 => 91624
    case 59 => 95937
    case 60 => 100421
  }

  function Levels61To70(level: int): int
    requires 61 <= level <= 70
  {
    match level
    case 61 => 105082
    case 62 => 109930
    case 63 => 114971
    case 64 => 120215
    case 65 => 125671
    case 66 => 131348
    case 67 => 137256
    case 68 => 143407
    case 69 => 149811
    case 70 => 156481
  }

  function Levels71To80(level: int): int
    requires 71 <= level <= 80
  {
    match level
    case 71 => 163429
    case 72 => 170669
    case 73 => 178214
    case 74 => 186080
    case 75 => 194283
    case 76 => 202839
    case 77 => 211765
    case 78 => 221082
    case 79 => 230808
    case 80 => 240964
  }

  function Levels81To90(level: int): int
    requires 81 <= level <= 90
  {
    match level
    case 81 => 251574
    case 82 => 262660
    case 83 => 274248
    case 84 => 286364
    case 85 => 299037
    case 86 => 312297
    case 87 => 326175
    case 88 => 340705
    case 89 => 355924
    case 90 => 371870
  }

  function Levels91To100(level: int): int
    requires 91 <= level <= 100
  {
    match level
    case 91 => 388582
    case 92 => 406106
    case 93 => 424486
    case 94 => 443772
    case 95 => 464016
    case 96 => 485274
    case 97 => 507604
    case 98 => 531071
    case 99 => 555741
    case 100 => 581687
  }

  /** Indexing the table as a record: `undefined` outside levels 1..100. */
  function TableLookup(level: int): (r: Option<int>)
    ensures r.Some? <==> 1 <= level <= 100
    ensures r.Some? ==> r.value == TableXP(level)
  {
    if 1 <= level <= 100 then Some(TableXP(level)) else None
  }

  /** The table starts at 0, ends at 581687 and grows at every step. */
  lemma TableEndpoints()
    ensures TableXP(1) == 0
    ensures TableXP(100) == 581687
    ensures forall l :: 1 <= l < 100 ==> TableXP(l) < TableXP(l + 1)
  {
  }

  /** The table is strictly increasing between any two levels. */
  lemma {:induction false} TableStrictlyIncreasing(a: int, b: int)
    requires 1 <= a < b <= 100
    ensures TableXP(a) < TableXP(b)
    decreases b - a
  {
    TableEndpoints();
    if a + 1 < b {
      TableStrictlyIncreasing(a + 1, b);
    }
  }

  /** `getXPForLevel`: the threshold of a level, with levels below 1 read
      as 0 XP and levels above 100 read as the level-100 threshold. */
  function GetXPForLevel(level: int): (r: int)
    ensures 0 <= r <= TableXP(100)
    ensures 1 <= level <= 100 ==> TableLookup(level) == Some(r)
  {
    if level < 1 then 0
    else if level > 100 then TableXP(100)
    else TableXP(level)
  }

  /** `getXPForLevel` is the table read at the level clamped into 1..100. */
  lemma GetXPForLevelIsClampedLookup(level: int)
    ensures GetXPForLevel(level) == TableXP(Max(1, Min(100, level)))
  {
    TableEndpoints();
  }

  /** `getXPForLevel` is non-decreasing over all integers. */
  lemma GetXPForLevelMonotone(a: int, b: int)
    requires a <= b
    ensures GetXPForLevel(a) <= GetXPForLevel(b)
  {
    var ca, cb := Max(1, Min(100, a)), Max(1, Min(100, b));
    GetXPForLevelIsClampedLookup(a);
    GetXPForLevelIsClampedLookup(b);
    if ca < cb {
      TableStrictlyIncreasing(ca, cb);
    }
  }

  /** The resolved level's window, read through `getXPForLevel`, holds a
      non-negative total. */
  lemma ResolvedWindow(totalXP: int)
    requires totalXP >= 0
    ensures var r := LevelFromTotalXP(totalXP);
            GetXPForLevel(r) <= totalXP && (r == 100 || totalXP < GetXPForLevel(r + 1))
  {
  }

  /** Exactly the levels 1..99 have a window of positive width between
      their threshold and the next one. */
  lemma WindowWidthPositive(level: int)
    ensures GetXPForLevel(level) < GetXPForLevel(level + 1) <==> 1 <= level < 100
  {
    TableEndpoints();
    if 1 <= level < 100 {
      TableStrictlyIncreasing(level, level + 1);
    }
  }

  /** `getXPBetweenLevels`: XP separating two level thresholds, 0 when the
      second level does not lie above the first. */
  function GetXPBetweenLevels(fromLevel: int, toLevel: int): (r: int)
    ensures fromLevel >= toLevel ==> r == 0
    ensures r >= 0
    ensures fromLevel < toLevel ==> GetXPForLevel(fromLevel) + r == GetXPForLevel(toLevel)
  {
    if fromLevel >= toLevel then 0
    else
      GetXPForLevelMonotone(fromLevel, toLevel);
      GetXPForLevel(toLevel) - GetXPForLevel(fromLevel)
  }

  /** Between two distinct table levels there is always XP to earn. */
  lemma XPBetweenLevelsPositive(a: int, b: int)
    requires 1 <= a < b <= 100
    ensures GetXPBetweenLevels(a, b) > 0
  {
    TableStrictlyIncreasing(a, b);
  }

  /** Spans add up along an ascending chain of levels. */
  lemma XPBetweenLevelsAdditive(a: int, b: int, c: int)
    requires a <= b <= c
    ensures GetXPBetweenLevels(a, b) + GetXPBetweenLevels(b, c) == GetXPBetweenLevels(a, c)
  {
  }

  /** `getTotalXP`: a level's threshold plus the XP earned inside that
      level. Round trip: when the in-level XP fits in the level's span, the
      total resolves back to the level. */
  function GetTotalXP(currentLevel: int, currentXP: int): (r: int)
    ensures 1 <= currentLevel <= 100 && 0 <= currentXP &&
            (currentLevel == 100 || currentXP < GetXPBetweenLevels(currentLevel, currentLevel + 1)) ==>
              LevelFromTotalXP(r) == currentLevel
  {
    var total := GetXPForLevel(currentLevel) + currentXP;
    if 1 <= currentLevel <= 100 && 0 <= currentXP &&
       (currentLevel == 100 || currentXP < GetXPBetweenLevels(currentLevel, currentLevel + 1))
    then
      LevelOfWindow(total, currentLevel);
      total
    else total
  }

  /** `getXPForNextLevel`: XP still missing to reach the next level, reading
      `currentXP` as XP earned inside the current level (not clamped). */
  function GetXPForNextLevel(currentLevel: int, currentXP: int): (r: int)
    ensures currentLevel >= 100 ==> r == 0
    ensures 1 <= currentLevel < 100 && currentXP <= 0 ==> r > 0
  {
    if currentLevel >= 100 then 0
    else
      var currentLevelXP := GetXPForLevel(currentLevel);
      var nextLevelXP := GetXPForLevel(currentLevel + 1);
      TableEndpoints();
      nextLevelXP - currentLevelXP - currentXP
  }

  /** Below level 100, the total reached plus what is still missing is
      exactly the next level's threshold. */
  lemma TotalPlusRemainingIsNextThreshold(currentLevel: int, currentXP: int)
    requires currentLevel < 100
    ensures GetTotalXP(currentLevel, currentXP) + GetXPForNextLevel(currentLevel, currentXP)
            == GetXPForLevel(currentLevel + 1)
  {
  }

  /** `getProgressToNextLevel`: percentage of the current level's span
      covered by `currentXP`, saturating at 100. */
  function GetProgressToNextLevel(currentLevel: int, currentXP: int): (r: real)
    ensures r <= 100.0
    ensures currentLevel >= 100 ==> r == 100.0
    ensures currentLevel < 100 && currentXP >= 0 ==> r >= 0.0
  {
    if currentLevel >= 100 then 100.0
    else
      var currentLevelXP := GetXPForLevel(currentLevel);
      var nextLevelXP := GetXPForLevel(currentLevel + 1);
      var xpNeeded := nextLevelXP - currentLevelXP;
      if xpNeeded == 0 then 100.0
      else
        GetXPForLevelMonotone(currentLevel, currentLevel + 1);
        assert xpNeeded > 0;
        var ratio := currentXP as real / xpNeeded as real;
        RatioNonNegative(currentXP, xpNeeded);
        MinReal(ratio * 100.0, 100.0)
  }

  /** A non-negative amount over a positive one is a non-negative ratio. */
  lemma RatioNonNegative(part: int, whole: int)
    requires whole > 0
    ensures part >= 0 ==> part as real / whole as real >= 0.0
  {
    var q := part as real / whole as real;
    assert q * whole as real == part as real;
  }

  /** The downward scan of `getLevelFromTotalXP`, from `level` to 1: the
      first level whose threshold `totalXP` reaches, or 1 when none does. */
  function ScanDown(totalXP: int, level: int): (r: int)
    requires 0 <= level <= 100
    ensures 1 <= r <= Max(level, 1)
    ensures forall l :: r < l <= level ==> totalXP < TableXP(l)
    ensures totalXP >= 0 && level >= 1 ==> TableXP(r) <= totalXP
    ensures totalXP < 0 ==> r == 1
    decreases level
  {
    if level < 1 then 1
    else if totalXP >= TableXP(level) then level
    else ScanDown(totalXP, level - 1)
  }

  /** `getLevelFromTotalXP`: the greatest level whose threshold is reached
      by `totalXP`; level 1 for a negative total. */
  function LevelFromTotalXP(totalXP: int): (r: int)
    ensures 1 <= r <= 100
    ensures totalXP < 0 ==> r == 1
    ensures totalXP >= 0 ==> TableXP(r) <= totalXP
    ensures forall l :: r < l <= 100 ==> totalXP < TableXP(l)
    ensures totalXP >= 0 ==> r == 100 || totalXP < TableXP(r + 1)
  {
    ScanDown(totalXP, 100)
  }

  /** A level is reached exactly when the total covers its threshold. */
  lemma LevelFromTotalXPGalois(totalXP: int, level: int)
    requires totalXP >= 0
    requires 1 <= level <= 100
    ensures LevelFromTotalXP(totalXP) >= level <==> totalXP >= TableXP(level)
  {
    var r := LevelFromTotalXP(totalXP);
    if r > level {
      TableStrictlyIncreasing(level, r);
      assert TableXP(level) < TableXP(r) <= totalXP;
    } else if r < level {
      assert totalXP < TableXP(level);
    }
  }

  /** More XP never resolves to a lower level. */
  lemma LevelFromTotalXPMonotone(x: int, y: int)
    requires x <= y
    ensures LevelFromTotalXP(x) <= LevelFromTotalXP(y)
  {
  }

  /** Any total inside the XP window of a level resolves to that level. */
  lemma LevelOfWindow(totalXP: int, level: int)
    requires 1 <= level <= 100
    requires TableXP(level) <= totalXP
    requires level == 100 || totalXP < TableXP(level + 1)
    ensures LevelFromTotalXP(totalXP) == level
  {
    LevelFromTotalXPGalois(totalXP, level);
    if level < 100 {
      LevelFromTotalXPGalois(totalXP, level + 1);
    }
  }

  /** Round trip: resolving the threshold of a level gives that level back. */
  lemma LevelOfThreshold(level: int)
    requires 1 <= level <= 100
    ensures LevelFromTotalXP(GetXPForLevel(level)) == level
  {
    TableEndpoints();
    LevelOfWindow(GetXPForLevel(level), level);
  }
}

/** The slot/palier policy (XP per craft, last XP-earning level and unlock
    level for 1 to 8 ingredient slots) and the calculators built on it:
    crafts needed with one slot count, and the multi-leg strategy. */
module CraftXP {
  import opened Wrappers
  import opened Seqs
  import opened JsMath
  import opened ProfessionXP

  /** `CRAFT_XP_BY_SLOTS`: XP earned by one craft with `slots` ingredients. */
  function CraftXPBySlots(slots: int): (r: Option<int>)
    ensures r.Some? <==> 1 <= slots <= 8
  {
    match slots
    case 1 => Some(1)
    case 2 => Some(10)
    case 3 => Some(25)
    case 4 => Some(50)
    case 5 => Some(100)
    case 6 => Some(250)
    case 7 => Some(500)
    case 8 => Some(1000)
    case _ => None
  }

  /** `MAX_LEVEL_BY_SLOTS`: the last level at which `slots` still earns XP. */
  function MaxLevelBySlots(slots: int): (r: Option<int>)
    ensures r.Some? <==> 1 <= slots <= 8
  {
    match slots
    case 1 => Some(40)
    case 2 => Some(60)
    case 3 => Some(80)
    case 4 => Some(100)
    case 5 => Some(100)
    case 6 => Some(100)
    case 7 => Some(100)
    case 8 => Some(100)
    case _ => None
  }

  /** `UNLOCK_LEVEL_BY_SLOTS`: the level from which `slots` can be used. */
  function UnlockLevelBySlots(slots: int): (r: Option<int>)
    ensures r.Some? <==> 1 <= slots <= 8
  {
    match slots
    case 1 => Some(1)
    case 2 => Some(1)
    case 3 => Some(10)
    case 4 => Some(20)
    case 5 => Some(40)
    case 6 => Some(60)
    case 7 => Some(80)
    case 8 => Some(100)
    case _ => None
  }

  /** More slots always earn more XP per craft; every slot count unlocks no
      later than its last XP-earning level. */
  lemma SlotTablesShape()
    ensures forall a, b :: 1 <= a < b <= 8 ==> CraftXPBySlots(a).value < CraftXPBySlots(b).value
    ensures forall k :: 1 <= k <= 8 ==> UnlockLevelBySlots(k).value <= MaxLevelBySlots(k).value
  {
  }

  /** `canGainXP`: crafting with `slots` still earns XP at `currentLevel`
      (false for an unknown slot count). */
  predicate CanGainXP(slots: int, currentLevel: int): (r: bool)
    ensures r <==> 1 <= slots <= 8 && currentLevel <= MaxLevelBySlots(slots).value
  {
    MaxLevelBySlots(slots).Some? && currentLevel <= MaxLevelBySlots(slots).value
  }

  /** `isSlotUnlocked`: `slots` is unlocked at `currentLevel` (false for an
      unknown slot count). */
  predicate IsSlotUnlocked(slots: int, currentLevel: int): (r: bool)
    ensures r <==> 1 <= slots <= 8 && currentLevel >= UnlockLevelBySlots(slots).value
  {
    UnlockLevelBySlots(slots).Some? && currentLevel >= UnlockLevelBySlots(slots).value
  }

  predicate IsAvailable(slots: int, currentLevel: int)
  {
    IsSlotUnlocked(slots, currentLevel) && CanGainXP(slots, currentLevel)
  }

  /** Levelling up only ever unlocks slot counts and only ever takes the XP
      of a slot count away: each slot count is usable on one interval of
      levels. */
  lemma SlotPredicatesMonotone(slots: int, a: int, b: int)
    requires a <= b
    ensures IsSlotUnlocked(slots, a) ==> IsSlotUnlocked(slots, b)
    ensures CanGainXP(slots, b) ==> CanGainXP(slots, a)
    ensures IsAvailable(slots, a) && IsAvailable(slots, b) ==>
              forall l :: a <= l <= b ==> IsAvailable(slots, l)
  {
  }

  /** Strictly ascending. */
  predicate StrictlySorted(ps: seq<int>)
  {
    forall i, j :: 0 <= i < j < |ps| ==> ps[i] < ps[j]
  }

  /** The loop of `getAvailableSlots` from slot count `i` up to 8. */
  function AvailableSlotsFrom(currentLevel: int, i: int): (r: seq<int>)
    requires 1 <= i <= 9
    ensures forall k :: k in r <==> i <= k <= 8 && IsAvailable(k, currentLevel)
    decreases 9 - i
  {
    if i > 8 then []
    else
      var rest := AvailableSlotsFrom(currentLevel, i + 1);
      if IsAvailable(i, currentLevel) then
        assert forall k :: k in [i] + rest <==> k == i || k in rest;
        [i] + rest
      else rest
  }

  /** The loop visits the slot counts in increasing order, so the list it
      builds is strictly ascending. */
  lemma {:induction false} AvailableSlotsSorted(currentLevel: int, i: int)
    requires 1 <= i <= 9
    ensures StrictlySorted(AvailableSlotsFrom(currentLevel, i))
    decreases 9 - i
  {
    if i <= 8 && IsAvailable(i, currentLevel) {
      var rest := AvailableSlotsFrom(currentLevel, i + 1);
      AvailableSlotsSorted(currentLevel, i + 1);
      assert forall b :: 0 <= b < |rest| ==> i < rest[b] by {
        forall b | 0 <= b < |rest| ensures i < rest[b] {
          assert rest[b] in rest;
        }
      }
      ConsIndex(i, rest);
    } else if i <= 8 {
      AvailableSlotsSorted(currentLevel, i + 1);
    }
  }

  /** `getAvailableSlots`: the ascending slot counts that are both unlocked
      and still earning XP at `currentLevel`, both bounds inclusive. */
  function GetAvailableSlots(currentLevel: int): (r: seq<int>)
    ensures forall k :: k in r <==>
              1 <= k <= 8 && UnlockLevelBySlots(k).value <= currentLevel <= MaxLevelBySlots(k).value
  {
    AvailableSlotsFrom(currentLevel, 1)
  }

  /** The available slot counts come in ascending order. */
  lemma AvailableSlotsAscending(currentLevel: int)
    ensures StrictlySorted(GetAvailableSlots(currentLevel))
  {
    AvailableSlotsSorted(currentLevel, 1);
  }

  /** At level 1 only the one- and two-slot crafts are available. */
  lemma AvailableSlotsAtLevelOne()
    ensures GetAvailableSlots(1) == [1, 2]
  {
    assert AvailableSlotsFrom(1, 8) == [];
    assert AvailableSlotsFrom(1, 7) == [];
    assert AvailableSlotsFrom(1, 6) == [];
    assert AvailableSlotsFrom(1, 5) == [];
    assert AvailableSlotsFrom(1, 4) == [];
    assert AvailableSlotsFrom(1, 3) == [];
    assert AvailableSlotsFrom(1, 2) == [2];
  }

  /** At level 100 the crafts with four to eight slots are available. */
  lemma AvailableSlotsAtLevelHundred()
    ensures GetAvailableSlots(100) == [4, 5, 6, 7, 8]
  {
    AvailableSlotsAtHundredFromFour();
    SlotsStep(100, 3);
    SlotsStep(100, 2);
    SlotsStep(100, 1);
  }

  /** The level-100 list from four slots on. */
  lemma AvailableSlotsAtHundredFromFour()
    ensures AvailableSlotsFrom(100, 4) == [4, 5, 6, 7, 8]
  {
    AvailableSlotsAtHundredFromFive();
    SlotsStep(100, 4);
    assert [4] + [5, 6, 7, 8] == [4, 5, 6, 7, 8];
  }

  /** The level-100 list from five slots on. */
  lemma AvailableSlotsAtHundredFromFive()
    ensures AvailableSlotsFrom(100, 5) == [5, 6, 7, 8]
  {
    AvailableSlotsAtHundredFromSix();
    SlotsStep(100, 5);
    assert [5] + [6, 7, 8] == [5, 6, 7, 8];
  }

  /** The upper part of the level-100 list: six to eight slots. */
  lemma AvailableSlotsAtHundredFromSix()
    ensures AvailableSlotsFrom(100, 6) == [6, 7, 8]
  {
    SlotsStep(100, 8);
    SlotsStep(100, 7);
    SlotsStep(100, 6);
    assert AvailableSlotsFrom(100, 9) == [];
    assert [6] + ([7] + ([8] + [])) == [6, 7, 8];
  }

  /** One turn of the loop: `i` is kept exactly when it is available. */
  lemma SlotsStep(currentLevel: int, i: int)
    requires 1 <= i <= 8
    ensures AvailableSlotsFrom(currentLevel, i) ==
              if IsAvailable(i, currentLevel) then [i] + AvailableSlotsFrom(currentLevel, i + 1)
              else AvailableSlotsFrom(currentLevel, i + 1)
  {
  }

  /** At the exact unlock level of a slot count it is available; one level
      below, it is not. */
  lemma AvailableAtUnlockBoundary(k: int)
    requires 1 <= k <= 8
    ensures k in GetAvailableSlots(UnlockLevelBySlots(k).value)
    ensures k !in GetAvailableSlots(UnlockLevelBySlots(k).value - 1)
  {
    SlotTablesShape();
  }

  /** Some slot count is available at every legal level. */
  lemma AvailableSlotsNonEmpty(currentLevel: int)
    requires 1 <= currentLevel <= 100
    ensures |GetAvailableSlots(currentLevel)| > 0
  {
    var k := if currentLevel <= 40 then 1 else if currentLevel <= 60 then 2
             else if currentLevel <= 80 then 3 else 4;
    assert k in GetAvailableSlots(currentLevel);
  }

  /** `getBestCraftOption`: the last (largest) available slot count, or 1
      when none is available. */
  function GetBestCraftOption(currentLevel: int): (r: int)
    ensures 1 <= r <= 8
  {
    var availableSlots := GetAvailableSlots(currentLevel);
    if |availableSlots| == 0 then 1
    else
      var last := availableSlots[|availableSlots| - 1];
      assert last in availableSlots;
      last
  }

  /** The best option is the largest available slot count, and 1 when none
      is available. */
  lemma BestCraftOptionIsLargest(currentLevel: int)
    ensures |GetAvailableSlots(currentLevel)| == 0 ==> GetBestCraftOption(currentLevel) == 1
    ensures |GetAvailableSlots(currentLevel)| > 0 ==>
              GetBestCraftOption(currentLevel) in GetAvailableSlots(currentLevel) &&
              forall k :: k in GetAvailableSlots(currentLevel) ==> k <= GetBestCraftOption(currentLevel)
  {
    var availableSlots := GetAvailableSlots(currentLevel);
    if |availableSlots| > 0 {
      AvailableSlotsAscending(currentLevel);
      var last := availableSlots[|availableSlots| - 1];
      assert forall k :: k in availableSlots ==> k <= last by {
        forall k | k in availableSlots ensures k <= last {
          var j :| 0 <= j < |availableSlots| && availableSlots[j] == k;
        }
      }
    }
  }

  /** The best option earns the most XP per craft among available slots. */
  lemma BestCraftOptionMaximisesXP(currentLevel: int, k: int)
    requires k in GetAvailableSlots(currentLevel)
    ensures CraftXPBySlots(k).value <= CraftXPBySlots(GetBestCraftOption(currentLevel)).value
  {
    BestCraftOptionIsLargest(currentLevel);
    SlotTablesShape();
  }

  /** The best option by level range: 2 slots below level 10, then one
      more slot at each unlock level. */
  lemma BestCraftOptionValue(currentLevel: int)
    requires 1 <= currentLevel <= 100
    ensures GetBestCraftOption(currentLevel) ==
              if currentLevel < 10 then 2 else if currentLevel < 20 then 3
              else if currentLevel < 40 then 4 else if currentLevel < 60 then 5
              else if currentLevel < 80 then 6 else if currentLevel < 100 then 7 else 8
  {
    if currentLevel < 10 {
      BestCraftOptionIs(currentLevel, 2);
    } else if currentLevel < 20 {
      BestCraftOptionIs(currentLevel, 3);
    } else if currentLevel < 40 {
      BestCraftOptionIs(currentLevel, 4);
    } else if currentLevel < 60 {
      BestCraftOptionIs(currentLevel, 5);
    } else if currentLevel < 80 {
      BestCraftOptionIs(currentLevel, 6);
    } else if currentLevel < 100 {
      BestCraftOptionIs(currentLevel, 7);
    } else {
      BestCraftOptionIs(currentLevel, 8);
    }
  }

  /** An available slot count with nothing available above it is the best. */
  lemma BestCraftOptionIs(currentLevel: int, v: int)
    requires IsAvailable(v, currentLevel)
    requires forall k :: v < k <= 8 ==> !IsAvailable(k, currentLevel)
    ensures GetBestCraftOption(currentLevel) == v
  {
    assert v in GetAvailableSlots(currentLevel);
    BestCraftOptionIsLargest(currentLevel);
    assert IsAvailable(GetBestCraftOption(currentLevel), currentLevel);
  }

  /** On legal levels the best option is simply the highest unlocked slot
      count: every unlocked count is still earning XP at its top. */
  lemma BestCraftOptionIsHighestUnlocked(currentLevel: int)
    requires 1 <= currentLevel <= 100
    ensures IsSlotUnlocked(GetBestCraftOption(currentLevel), currentLevel)
    ensures forall k :: GetBestCraftOption(currentLevel) < k <= 8 ==> !IsSlotUnlocked(k, currentLevel)
  {
    var v := if currentLevel < 10 then 2 else if currentLevel < 20 then 3
             else if currentLevel < 40 then 4 else if currentLevel < 60 then 5
             else if currentLevel < 80 then 6 else if currentLevel < 100 then 7 else 8;
    BestCraftOptionValue(currentLevel);
    assert GetBestCraftOption(currentLevel) == v;
    if v < 8 {
      NothingUnlockedAbove(v, currentLevel);
    }
  }

  /** Below the unlock level of `v + 1` slots, no count above `v` is unlocked. */
  lemma NothingUnlockedAbove(v: int, currentLevel: int)
    requires 1 <= v < 8
    requires currentLevel < UnlockLevelBySlots(v + 1).value
    ensures forall k :: v < k <= 8 ==> !IsSlotUnlocked(k, currentLevel)
  {
    forall k | v < k <= 8
      ensures !IsSlotUnlocked(k, currentLevel)
    {
      UnlockLevelMonotone(v + 1, k);
    }
  }

  /** More slots never unlock earlier. */
  lemma UnlockLevelMonotone(a: int, b: int)
    requires 1 <= a <= b <= 8
    ensures UnlockLevelBySlots(a).value <= UnlockLevelBySlots(b).value
  {
  }

  /** Why a slot count cannot be used: the French messages "Débloqué au
      niveau N" and "Max niveau N". */
  datatype Reason = NotYetUnlocked(unlockLevel: int) | AboveMaxLevel(maxLevel: int)

  /** The tagged result of `calculateCraftsByPaliers`. */
  datatype CraftsResult = CraftsResult(crafts: Num, valid: bool, reason: Option<Reason>)

  /** `calculateCraftsByPaliers`: crafts needed with `slots` ingredients to
      go from `currentXP` to the threshold of `targetLevel`. A comparison
      with an `undefined` table entry is false in JavaScript, so an unknown
      slot count passes both checks and is refused only by its missing XP
      reward. */
  function CalculateCraftsByPaliers(currentLevel: int, currentXP: int, targetLevel: int, slots: int): (r: CraftsResult)
    ensures r.valid <==> 1 <= slots <= 8 && IsSlotUnlocked(slots, currentLevel) && targetLevel <= MaxLevelBySlots(slots).value
    ensures !r.valid ==> r.crafts == Finite(0)
    ensures r.valid ==> r.reason == None
    ensures !(1 <= slots <= 8) ==> r.reason == None
    ensures 1 <= slots <= 8 && !IsSlotUnlocked(slots, currentLevel) ==>
              r.reason == Some(NotYetUnlocked(UnlockLevelBySlots(slots).value))
    ensures 1 <= slots <= 8 && IsSlotUnlocked(slots, currentLevel) && targetLevel > MaxLevelBySlots(slots).value ==>
              r.reason == Some(AboveMaxLevel(MaxLevelBySlots(slots).value))
    ensures r.valid && targetLevel < 1 ==> r.crafts == NaN
    ensures r.valid && targetLevel >= 1 ==>
              r.crafts.Finite? &&
              r.crafts.value * CraftXPBySlots(slots).value >= TableXP(targetLevel) - currentXP &&
              (r.crafts.value - 1) * CraftXPBySlots(slots).value < TableXP(targetLevel) - currentXP
  {
    var maxLevelForSlots := MaxLevelBySlots(slots);
    var unlockLevel := UnlockLevelBySlots(slots);
    var xpPerCraft := CraftXPBySlots(slots).GetOr(0);
    if unlockLevel.Some? && currentLevel < unlockLevel.value then
      CraftsResult(Finite(0), false, Some(NotYetUnlocked(unlockLevel.value)))
    else if maxLevelForSlots.Some? && targetLevel > maxLevelForSlots.value then
      CraftsResult(Finite(0), false, Some(AboveMaxLevel(maxLevelForSlots.value)))
    else if xpPerCraft == 0 then
      CraftsResult(Finite(0), false, None)
    else
      match TableLookup(targetLevel)
      case None => CraftsResult(NaN, true, None)
      case Some(targetXP) =>
        var xpNeeded := targetXP - currentXP;
        CraftsResult(Finite(CeilDiv(xpNeeded, xpPerCraft)), true, None)
  }

  /** Among valid options for the same span, more slots never need more
      crafts. */
  lemma MoreSlotsFewerCrafts(currentLevel: int, currentXP: int, targetLevel: int, a: int, b: int)
    requires a < b
    requires CalculateCraftsByPaliers(currentLevel, currentXP, targetLevel, a).valid
    requires CalculateCraftsByPaliers(currentLevel, currentXP, targetLevel, b).valid
    requires 1 <= targetLevel
    requires currentXP <= TableXP(targetLevel)
    ensures CalculateCraftsByPaliers(currentLevel, currentXP, targetLevel, b).crafts.value
            <= CalculateCraftsByPaliers(currentLevel, currentXP, targetLevel, a).crafts.value
  {
    SlotTablesShape();
    CeilDivAntitone(TableXP(targetLevel) - currentXP, CraftXPBySlots(a).value, CraftXPBySlots(b).value);
  }

  /** From level 1 with no XP to level 10 with one slot: one craft per XP point. */
  lemma OneSlotToLevelTenExample()
    ensures CalculateCraftsByPaliers(1, 0, 10, 1) == CraftsResult(Finite(TableXP(10)), true, None)
  {
  }

  /** The palier levels at which the strategy may change slot count. The
      source pairs each with a slot count that no computation reads. */
  const PALIER_LEVELS: seq<int> := [20, 60, 80, 100]

  /** `paliers.find(p => p.level > level)` on a sorted list: the least
      palier above `level`, if any. */
  function FirstAbove(ps: seq<int>, level: int): (r: Option<int>)
    requires StrictlySorted(ps)
    ensures r.Some? ==> r.value in ps && r.value > level
    ensures r.Some? ==> forall q :: q in ps && q > level ==> r.value <= q
    ensures r.None? ==> forall q :: q in ps ==> q <= level
    decreases |ps|
  {
    if |ps| == 0 then None
    else if ps[0] > level then Some(ps[0])
    else
      assert forall q :: q in ps ==> q == ps[0] || q in ps[1..];
      FirstAbove(ps[1..], level)
  }

  /** The level at which a strategy leg starting at `level` ends: the next
      palier, or the target when that comes first. */
  function LegEnd(level: int, targetLevel: int): (r: int)
    ensures level < targetLevel ==> level < r <= targetLevel
    ensures r < targetLevel ==> 20 <= r <= 100
  {
    assert StrictlySorted(PALIER_LEVELS);
    match FirstAbove(PALIER_LEVELS, level)
    case Some(p) => Min(p, targetLevel)
    case None => targetLevel
  }

  /** A leg ends on the target or on a palier before it, and never skips a
      palier: no palier lies strictly between its start and its end. */
  lemma LegEndIsNextPalier(level: int, targetLevel: int)
    ensures var r := LegEnd(level, targetLevel);
            (r == targetLevel || (r in PALIER_LEVELS && level < r < targetLevel)) &&
            forall q :: q in PALIER_LEVELS && level < q ==> r <= q
  {
    assert StrictlySorted(PALIER_LEVELS);
  }

  /** One leg of the strategy. `crafts` and `totalXP` are NaN when the leg
      ends outside the XP table. */
  datatype Segment = Segment(slots: int, fromLevel: int, toLevel: int, crafts: Num, totalXP: Num)

  /** The body of the source's loop: the leg from `currentLevel`, with
      `currentXP` already earned, to `palierLevel`, crafted with `slots`. */
  function StrategyLeg(slots: int, currentLevel: int, currentXP: int, palierLevel: int): (s: Segment)
    requires 1 <= slots <= 8
    ensures s.slots == slots && s.fromLevel == currentLevel && s.toLevel == palierLevel
    ensures s.totalXP.Finite? <==> 1 <= palierLevel <= 100
    ensures s.totalXP.Finite? ==> s.totalXP.value == TableXP(palierLevel) - currentXP
    ensures s.crafts.Finite? <==> s.totalXP.Finite?
  {
    var xpPerCraft := CraftXPBySlots(slots).value;
    match TableLookup(palierLevel)
    case None => Segment(slots, currentLevel, palierLevel, NaN, NaN)
    case Some(palierXP) =>
      var xpNeeded := palierXP - currentXP;
      Segment(slots, currentLevel, palierLevel, Finite(CeilDiv(xpNeeded, xpPerCraft)), Finite(xpNeeded))
  }

  /** A leg inside the table takes the fewest crafts whose XP covers the
      leg's XP: the ceiling of that XP over the XP per craft. */
  lemma StrategyLegCrafts(slots: int, currentLevel: int, currentXP: int, palierLevel: int)
    requires 1 <= slots <= 8
    ensures var s := StrategyLeg(slots, currentLevel, currentXP, palierLevel);
            s.totalXP.Finite? ==>
              s.crafts.value * CraftXPBySlots(slots).value >= s.totalXP.value &&
              (s.crafts.value - 1) * CraftXPBySlots(slots).value < s.totalXP.value
  {
  }

  /** `calculateOptimalStrategy`. Each recursive call is one more turn of
      the source's loop, from the level and XP reached by the previous leg. */
  function CalculateOptimalStrategy(currentLevel: int, currentXP: int, targetLevel: int): (r: seq<Segment>)
    ensures currentLevel >= targetLevel <==> r == []
    ensures currentLevel < targetLevel ==> r[0].fromLevel == currentLevel
    decreases targetLevel - currentLevel
  {
    if currentLevel >= targetLevel then []
    else
      var palierLevel := LegEnd(currentLevel, targetLevel);
      var leg := StrategyLeg(GetBestCraftOption(currentLevel), currentLevel, currentXP, palierLevel);
      match TableLookup(palierLevel)
      case None =>
        // Only the target can lie outside the table, so the loop stops here.
        assert palierLevel == targetLevel;
        [leg]
      case Some(palierXP) =>
        [leg] + CalculateOptimalStrategy(palierLevel, palierXP, targetLevel)
  }

  /** The first turn of the loop, and what remains after it: the rest of the
      strategy is the strategy from the first palier, with exactly that
      palier's threshold XP. */
  lemma StrategyUnfold(currentLevel: int, currentXP: int, targetLevel: int)
    requires currentLevel < targetLevel
    ensures var r := CalculateOptimalStrategy(currentLevel, currentXP, targetLevel);
            var p := LegEnd(currentLevel, targetLevel);
            r[0] == StrategyLeg(GetBestCraftOption(currentLevel), currentLevel, currentXP, p) &&
            (p < targetLevel ==> 1 <= p <= 100 && r[1..] == CalculateOptimalStrategy(p, TableXP(p), targetLevel)) &&
            (p == targetLevel ==> |r| == 1)
  {
    var p := LegEnd(currentLevel, targetLevel);
    if 1 <= p <= 100 {
      assert TableLookup(p) == Some(TableXP(p));
    }
  }

  /** The legs are contiguous, every leg but the last ends on a palier inside
      the XP table, and the last ends at the target. */
  lemma {:induction false} StrategyContiguous(currentLevel: int, currentXP: int, targetLevel: int)
    ensures var r := CalculateOptimalStrategy(currentLevel, currentXP, targetLevel);
            (|r| > 0 ==> r[|r| - 1].toLevel == targetLevel) &&
            forall i :: 0 <= i < |r| - 1 ==>
              r[i].toLevel == r[i + 1].fromLevel && 20 <= r[i].toLevel <= 100 && r[i].toLevel < targetLevel
    decreases targetLevel - currentLevel
  {
    if currentLevel < targetLevel {
      var r := CalculateOptimalStrategy(currentLevel, currentXP, targetLevel);
      var p := LegEnd(currentLevel, targetLevel);
      StrategyUnfold(currentLevel, currentXP, targetLevel);
      if p < targetLevel {
        var rest := CalculateOptimalStrategy(p, TableXP(p), targetLevel);
        StrategyContiguous(p, TableXP(p), targetLevel);
        assert r == [r[0]] + rest;
        ConsIndex(r[0], rest);
      }
    }
  }

  /** Every leg is one turn of the loop: it runs from its start level to the
      next palier (or the target), with the best slot count at its start, and
      starts from `currentXP` for the first leg and from the threshold of its
      start level for the others. */
  lemma {:induction false} StrategyLegsAreTurns(currentLevel: int, currentXP: int, targetLevel: int)
    ensures var r := CalculateOptimalStrategy(currentLevel, currentXP, targetLevel);
            forall i :: 0 <= i < |r| ==>
              r[i].fromLevel < r[i].toLevel && (i > 0 ==> 20 <= r[i].fromLevel <= 100) &&
              r[i] == StrategyLeg(GetBestCraftOption(r[i].fromLevel), r[i].fromLevel,
                                  if i == 0 then currentXP else TableXP(r[i].fromLevel),
                                  LegEnd(r[i].fromLevel, targetLevel))
    decreases targetLevel - currentLevel
  {
    if currentLevel < targetLevel {
      var r := CalculateOptimalStrategy(currentLevel, currentXP, targetLevel);
      var p := LegEnd(currentLevel, targetLevel);
      StrategyUnfold(currentLevel, currentXP, targetLevel);
      if p < targetLevel {
        var rest := CalculateOptimalStrategy(p, TableXP(p), targetLevel);
        StrategyLegsAreTurns(p, TableXP(p), targetLevel);
        assert r == [r[0]] + rest;
        ConsIndex(r[0], rest);
        forall i | 1 <= i < |r|
          ensures r[i].fromLevel < r[i].toLevel && 20 <= r[i].fromLevel <= 100 &&
                  r[i] == StrategyLeg(GetBestCraftOption(r[i].fromLevel), r[i].fromLevel,
                                      TableXP(r[i].fromLevel), LegEnd(r[i].fromLevel, targetLevel))
        {
          assert r[i] == rest[i - 1];
          if i == 1 {
            assert rest[0].fromLevel == p;
          }
        }
      }
    }
  }

  /** The sum of the legs' XP, NaN as soon as one leg is NaN. */
  function SumTotalXP(segments: seq<Segment>): Num
  {
    if |segments| == 0 then Finite(0)
    else AddNum(segments[0].totalXP, SumTotalXP(segments[1..]))
  }

  /** For a target inside the table the legs' XP telescopes to exactly the
      XP separating `currentXP` from the target (so no leg is NaN). */
  lemma {:induction false} StrategyTelescopes(currentLevel: int, currentXP: int, targetLevel: int)
    requires 1 <= targetLevel <= 100
    requires currentLevel < targetLevel
    ensures SumTotalXP(CalculateOptimalStrategy(currentLevel, currentXP, targetLevel)) == Finite(TableXP(targetLevel) - currentXP)
    decreases targetLevel - currentLevel
  {
    var p := LegEnd(currentLevel, targetLevel);
    if p < targetLevel {
      StrategyTelescopes(p, TableXP(p), targetLevel);
    }
    TelescopeStep(currentLevel, currentXP, targetLevel, p);
  }

  /** One telescoping step: the first leg runs from `currentXP` to the
      threshold of its end `p`, and when `p` is a palier below the target the
      rest of the strategy covers the XP from that threshold on. */
  lemma TelescopeStep(currentLevel: int, currentXP: int, targetLevel: int, p: int)
    requires 1 <= targetLevel <= 100
    requires currentLevel < targetLevel
    requires p == LegEnd(currentLevel, targetLevel)
    requires p < targetLevel ==>
               SumTotalXP(CalculateOptimalStrategy(p, TableXP(p), targetLevel)) == Finite(TableXP(targetLevel) - TableXP(p))
    ensures SumTotalXP(CalculateOptimalStrategy(currentLevel, currentXP, targetLevel)) == Finite(TableXP(targetLevel) - currentXP)
  {
    var r := CalculateOptimalStrategy(currentLevel, currentXP, targetLevel);
    StrategyUnfold(currentLevel, currentXP, targetLevel);
    assert r[0].totalXP == Finite(TableXP(p) - currentXP);
    if p == targetLevel {
      assert r[1..] == [];
    }
  }

  /** Number of entries of `ps` strictly above `level`. */
  function CountAbove(ps: seq<int>, level: int): (n: int)
    ensures 0 <= n <= |ps|
    decreases |ps|
  {
    if |ps| == 0 then 0
    else (if ps[0] > level then 1 else 0) + CountAbove(ps[1..], level)
  }

  /** Number of paliers strictly above `level`. */
  function PaliersAbove(level: int): (n: int)
    ensures 0 <= n <= |PALIER_LEVELS|
  {
    CountAbove(PALIER_LEVELS, level)
  }

  /** The count of paliers above a level, band by band. */
  lemma PaliersAboveBands(level: int)
    ensures PaliersAbove(level) ==
              if level < 20 then 4 else if level < 60 then 3 else if level < 80 then 2 else if level < 100 then 1 else 0
  {
    var ps := PALIER_LEVELS;
    assert ps[1..] == [60, 80, 100];
    assert ps[1..][1..] == [80, 100];
    assert ps[1..][1..][1..] == [100];
    assert ps[1..][1..][1..][1..] == [];
  }

  lemma NextPalierValue(level: int)
    requires level < 100
    ensures FirstAbove(PALIER_LEVELS, level) ==
              Some(if level < 20 then 20 else if level < 60 then 60 else if level < 80 then 80 else 100)
  {
    assert StrictlySorted(PALIER_LEVELS);
    assert PALIER_LEVELS[0] == 20 && PALIER_LEVELS[1] == 60 && PALIER_LEVELS[2] == 80 && PALIER_LEVELS[3] == 100;
  }

  /** The loop runs at most once per palier above the start level. */
  lemma {:induction false} StrategyLengthBound(currentLevel: int, currentXP: int, targetLevel: int)
    requires targetLevel <= 100
    ensures |CalculateOptimalStrategy(currentLevel, currentXP, targetLevel)| <= PaliersAbove(currentLevel)
    decreases targetLevel - currentLevel
  {
    if currentLevel < targetLevel {
      var p := LegEnd(currentLevel, targetLevel);
      NextPalierValue(currentLevel);
      StrategyUnfold(currentLevel, currentXP, targetLevel);
      PaliersAboveBands(currentLevel);
      if p < targetLevel {
        StrategyLengthBound(p, TableXP(p), targetLevel);
        PaliersAboveBands(p);
      }
    }
  }

  /** With a target inside the table the strategy has at most four legs. */
  lemma StrategyAtMostFourLegs(currentLevel: int, currentXP: int, targetLevel: int)
    requires targetLevel <= 100
    ensures |CalculateOptimalStrategy(currentLevel, currentXP, targetLevel)| <= 4
  {
    StrategyLengthBound(currentLevel, currentXP, targetLevel);
  }
}

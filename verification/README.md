# Dofus Retro profession tracker — progression engine in Dafny

This project models the profession-progression engine of a Dofus Retro
companion app. Each profession has a level from 1 to 100. A cumulative XP
table maps levels to XP thresholds, and the engine resolves a total XP back
to a level. The engine is made of:

- the validation layer that clamps and parses what the player types into a
  profession card;
- the crafting-slot policy ("paliers") with its craft-count calculator and
  optimal levelling strategy;
- the slot-unlock and smithmagus eligibility policy over the roster;
- the three card edit handlers and the roster merge that applies them;
- the recipe cost and margin calculation.

Each source file is one Dafny module:

| module | file | source |
|---|---|---|
| `ProfessionXP` | profession_xp.dfy | src/utils/professionXP.ts |
| `ProfessionValidation` | profession_validation.dfy | src/utils/professionValidation.ts |
| `CraftXP` | craft_xp.dfy | src/constants/craftXP.ts |
| `ProfessionMappings` | profession_mappings.dfy | src/constants/professionMappings.ts |
| `ProfessionHelpers` | profession_helpers.dfy | src/utils/professionHelpers.ts |
| `ProfessionLogic` | profession_logic.dfy | src/hooks/useProfessionLogic.ts |
| `Roster` | roster.dfy | src/components/professions/ProfessionsManager.tsx |
| `CraftCost` | craft_cost.dfy | src/context/AppContext.tsx |

Shared pieces:

- `Types` holds the records.
- `Wrappers` holds `Option`.
- `Seqs` holds small sequence lemmas.
- `JsMath` holds `Math.min`, `Math.max` and `Math.ceil`. It also holds `Num`, a number that may be `NaN`.

Modelling conventions:

- JavaScript numbers are modelled as unbounded integers. The progress percentages are `real`.
- A table lookup outside its keys yields `undefined` in the source. It is an `Option` here.
- Arithmetic on `undefined` yields `NaN`, which `Num` represents.
- `Math.ceil(x / k)` with `k > 0` is written `-((-x) / k)`. Dafny's `/` is Euclidean, and this form also rounds a negative `x` the way JavaScript does.
- A handler that may return early without calling its callback is a function returning `Option<Update>`. `None` means the edit was rejected.

Behaviour worth knowing:

- **Empty XP field.** Clearing the XP field sets the XP total to 0, not to the current level's threshold (src/hooks/useProfessionLogic.ts:101).
- **Profession category.** The profession record of src/types/index.ts:25-32 has no category field, yet the helpers read `profession.type`. The model gives `Profession` a `category` field for it, with values `Harvest`, `Craft` and `Smithmagus`.
- **Two palier numbers.** The slot tables say one slot gains XP up to level 40 (src/constants/craftXP.ts:21). The strategy's palier list changes strategy at 20 (src/constants/craftXP.ts:152). Both numbers are modelled as written.
- **Target below level.** Level edits and target edits keep the target at or above the level. An XP edit never touches the target, so it can leave the target below the new level. `Roster.XPEditCanLeaveTargetBelowLevel` exhibits this.
- **Redundant window check.** `detectLevelFromXP` keeps the current level while the XP lies inside that level's window, and re-derives the level otherwise. Both branches give the same answer: `DetectLevelAgreesWithResolver` proves that it always equals `getLevelFromTotalXP`.
- **Progress at level 100.** At level 100 or above, the hook's stats report progress 0, because the level window has width 0. `getProgressToNextLevel` reports 100 there. Below level 100 the two agree (`ProfessionLogic.ProgressAgreesWithStats`).

## Model

| member | source | states |
|---|---|---|
| ProfessionXP.TableXP | src/utils/professionXP.ts:3-104 | every entry of the XP table for levels 1..100 lies between 0 and 581687 |
| ProfessionXP.TableLookup | src/utils/professionXP.ts:3-104 | the table is defined exactly on levels 1..100 |
| ProfessionXP.TableEndpoints | src/utils/professionXP.ts:3-104 | table[1] = 0, table[100] = 581687, and each entry is below the next |
| ProfessionXP.TableStrictlyIncreasing | src/utils/professionXP.ts:3-104 | for any two levels 1 ≤ a < b ≤ 100, table[a] < table[b] |
| ProfessionXP.GetXPForLevel | src/utils/professionXP.ts:109-113 | the result is between 0 and table[100], and equals the table entry for levels 1..100 |
| ProfessionXP.GetXPForLevelIsClampedLookup | src/utils/professionXP.ts:109-113 | getXPForLevel is the table lookup at the level clamped to [1, 100]: 0 below 1, table[100] above 100 |
| ProfessionXP.GetXPForLevelMonotone | src/utils/professionXP.ts:109-113 | getXPForLevel is non-decreasing over all integers |
| ProfessionXP.GetXPBetweenLevels | src/utils/professionXP.ts:118-124 | 0 when from ≥ to; otherwise the gap between the two thresholds; never negative |
| ProfessionXP.XPBetweenLevelsPositive | src/utils/professionXP.ts:118-124 | the gap between two distinct levels in 1..100 is positive |
| ProfessionXP.XPBetweenLevelsAdditive | src/utils/professionXP.ts:118-124 | gaps add up: (a→b) + (b→c) = (a→c) for a ≤ b ≤ c |
| ProfessionXP.GetTotalXP | src/utils/professionXP.ts:170-172 | round trip with the resolver: for a level in 1..100 and in-level XP that fits in the level's span, the total resolves back to that level |
| ProfessionXP.GetXPForNextLevel | src/utils/professionXP.ts:129-137 | 0 at level ≥ 100; positive below 100 when no in-level XP has been earned |
| ProfessionXP.TotalPlusRemainingIsNextThreshold | src/utils/professionXP.ts:129-137 | below level 100, total XP plus the XP still needed is exactly the next level's threshold, so the in-level XP is not clamped |
| ProfessionXP.GetProgressToNextLevel | src/utils/professionXP.ts:142-153 | progress never exceeds 100, is 100 at level ≥ 100, and is non-negative for non-negative in-level XP |
| ProfessionXP.ScanDown | src/utils/professionXP.ts:158-165 | the downward scan from a level stops at the highest level at or below it whose threshold the total reaches, and stops at 1 for a negative total |
| ProfessionXP.LevelFromTotalXP | src/utils/professionXP.ts:158-165 | the resolved level is in 1..100 and 1 for a negative total; for a total ≥ 0 its threshold is reached and the next one is not |
| ProfessionXP.LevelFromTotalXPGalois | src/utils/professionXP.ts:158-165 | for a total ≥ 0, the resolved level is at least L exactly when the total reaches table[L] |
| ProfessionXP.LevelFromTotalXPMonotone | src/utils/professionXP.ts:158-165 | more XP never resolves to a lower level |
| ProfessionXP.LevelOfWindow | src/utils/professionXP.ts:158-165 | a total inside a level's window resolves to that level |
| ProfessionXP.LevelOfThreshold | src/utils/professionXP.ts:109-113 | round trip: the threshold of level L resolves back to L, for every L in 1..100 |
| ProfessionMappings.ConstantsInRange | src/constants/professionMappings.ts:32-37 | MIN_LEVEL = 1 < MAX_LEVEL = 100, and the slot-unlock level 30 and the smithmagic level 65 both lie between them |
| ProfessionMappings.MappingSize | src/constants/professionMappings.ts:6-18 | the smithmagus-to-craft mapping has exactly 11 entries |
| ProfessionMappings.MappingInjective | src/constants/professionMappings.ts:6-18 | distinct smithmagus ids map to distinct craft ids |
| ProfessionMappings.MappingDoesNotChain | src/constants/professionMappings.ts:6-18 | no craft id is itself a smithmagus key, so prerequisites never chain |
| ProfessionValidation.ValidateLevel | src/utils/professionValidation.ts:7-12 | the result is in [1, 100]; identity on [1, 100]; below 1 gives 1; above 100 gives 100 |
| ProfessionValidation.ValidateLevelIdempotent | src/utils/professionValidation.ts:7-12 | clamping a clamped level changes nothing |
| ProfessionValidation.ValidateTotalXP | src/utils/professionValidation.ts:17-20 | the result is in [0, threshold of 100]; identity inside that range; saturates at both ends |
| ProfessionValidation.ValidateTotalXPIdempotent | src/utils/professionValidation.ts:17-20 | clamping a clamped XP total changes nothing |
| ProfessionValidation.ValidateTargetLevel | src/utils/professionValidation.ts:25-33 | the target is at least the current level, and at most 100 when the current level is; identity on [current, 100]; raised to current when below it |
| ProfessionValidation.ValidateTargetLevelIdempotent | src/utils/professionValidation.ts:25-33 | for a fixed current level, clamping a clamped target changes nothing |
| ProfessionValidation.IsNumericString | src/utils/professionValidation.ts:38-40 | true exactly when the text is non-empty and every character is a digit 0..9 |
| ProfessionValidation.ParseNumericInput | src/utils/professionValidation.ts:45-53 | the default for empty or non-numeric text; otherwise a non-negative value |
| ProfessionValidation.DecimalValue | src/utils/professionValidation.ts:52 | the base-10 value of a digit string is never negative |
| ProfessionValidation.DecimalRoundTrip | src/utils/professionValidation.ts:45-53 | parsing the decimal spelling of any n ≥ 0 gives back n |
| ProfessionValidation.DecimalValueOfString | src/utils/professionValidation.ts:45-53 | the base-10 value of the decimal spelling of n is n |
| ProfessionValidation.LeadingZeroIgnored | src/utils/professionValidation.ts:45-53 | a leading zero does not change the parsed value |
| ProfessionValidation.DetectLevelFromXP | src/utils/professionValidation.ts:58-74 | the detected level is in 1..100; for a total ≥ 0 the total lies in the detected level's window |
| ProfessionValidation.DetectLevelAgreesWithResolver | src/utils/professionValidation.ts:58-74 | the window check never changes the answer: detection always equals getLevelFromTotalXP |
| CraftXP.CraftXPBySlots | src/constants/craftXP.ts:6-15 | XP per craft is defined exactly for slot counts 1..8 |
| CraftXP.MaxLevelBySlots | src/constants/craftXP.ts:20-29 | the XP cap per slot count is defined exactly for 1..8 |
| CraftXP.UnlockLevelBySlots | src/constants/craftXP.ts:34-43 | the unlock level per slot count is defined exactly for 1..8 |
| CraftXP.CanGainXP | src/constants/craftXP.ts:48-51 | true exactly for a slot count in 1..8 whose cap is at or above the level |
| CraftXP.IsSlotUnlocked | src/constants/craftXP.ts:56-62 | true exactly for a slot count in 1..8 whose unlock level is at or below the level |
| CraftXP.SlotPredicatesMonotone | src/constants/craftXP.ts:48-62 | a higher level never locks a slot count and never restores its XP, so each slot count is usable on one interval of levels |
| CraftXP.SlotTablesShape | src/constants/craftXP.ts:6-43 | XP per craft strictly increases with the slot count, and every slot count unlocks at or before its cap |
| CraftXP.GetAvailableSlots | src/constants/craftXP.ts:48-77 | lists exactly the slot counts k in 1..8 with unlock[k] ≤ level ≤ max[k], both bounds inclusive |
| CraftXP.AvailableSlotsAscending | src/constants/craftXP.ts:67-77 | the available slot counts are listed in strictly ascending order |
| CraftXP.AvailableSlotsAtLevelOne | src/constants/craftXP.ts:67-77 | level 1 offers slots [1, 2] |
| CraftXP.AvailableSlotsAtLevelHundred | src/constants/craftXP.ts:67-77 | level 100 offers slots [4, 5, 6, 7, 8] |
| CraftXP.AvailableAtUnlockBoundary | src/constants/craftXP.ts:56-62 | a slot count is available at its unlock level and not one level before |
| CraftXP.AvailableSlotsNonEmpty | src/constants/craftXP.ts:67-77 | every level in 1..100 has at least one available slot count |
| CraftXP.GetBestCraftOption | src/constants/craftXP.ts:192-201 | the chosen slot count lies in 1..8 |
| CraftXP.BestCraftOptionIsLargest | src/constants/craftXP.ts:192-201 | the best option is the largest available slot count, or 1 when none is available |
| CraftXP.BestCraftOptionMaximisesXP | src/constants/craftXP.ts:6-15 | no available slot count gives more XP per craft than the best option |
| CraftXP.BestCraftOptionValue | src/constants/craftXP.ts:192-201 | the best option per level band: 2 below 10, 3 below 20, 4 below 40, 5 below 60, 6 below 80, 7 below 100, 8 at 100 |
| CraftXP.BestCraftOptionIs | src/constants/craftXP.ts:192-201 | an available slot count with no available larger one is the best option |
| CraftXP.BestCraftOptionIsHighestUnlocked | src/constants/craftXP.ts:192-201 | within 1..100 the best option is unlocked, and no larger slot count is |
| CraftXP.CalculateCraftsByPaliers | src/constants/craftXP.ts:83-122 | valid exactly for an unlocked slot count in 1..8 whose cap is at least the target; the unlock reason comes first, then the cap reason, with none for slot counts outside 1..8; invalid gives 0 crafts; valid gives the unclamped ceiling of the needed XP over the XP per craft |
| CraftXP.MoreSlotsFewerCrafts | src/constants/craftXP.ts:83-122 | when both options are valid, more slots never need more crafts |
| CraftXP.OneSlotToLevelTenExample | src/constants/craftXP.ts:83-122 | one slot from level 1 to level 10 takes table[10] crafts |
| CraftXP.FirstAbove | src/constants/craftXP.ts:160 | on a sorted list, the least entry above the level, or nothing exactly when no entry is above it |
| CraftXP.LegEnd | src/constants/craftXP.ts:158-162 | below the target a leg always advances and never passes the target; a leg that stops short of the target ends at a level in 20..100 |
| CraftXP.LegEndIsNextPalier | src/constants/craftXP.ts:158-162 | a leg ends at the target or at a palier strictly between the level and the target, and no palier above the level comes before it |
| CraftXP.StrategyLeg | src/constants/craftXP.ts:164-179 | a segment records its slots and bounds; its XP is the palier threshold minus the current XP, and NaN past the table; its crafts are a number exactly when its XP is |
| CraftXP.StrategyLegCrafts | src/constants/craftXP.ts:164-179 | a segment's crafts are the least count whose XP per craft covers the segment's XP |
| CraftXP.CalculateOptimalStrategy | src/constants/craftXP.ts:128-187 | the strategy is empty exactly when the current level is at or above the target; otherwise it starts at the current level |
| CraftXP.StrategyUnfold | src/constants/craftXP.ts:158-183 | one loop turn: the first segment is a leg to the next palier end, and the rest is the strategy from that palier's threshold |
| CraftXP.StrategyContiguous | src/constants/craftXP.ts:158-186 | segments are contiguous: each ends where the next begins, at a palier level in 20..100 below the target, and the last ends at the target |
| CraftXP.StrategyLegsAreTurns | src/constants/craftXP.ts:158-186 | every segment rises (from < to) and uses the best slot option at its starting level; the first starts from the given XP and later ones from their threshold |
| CraftXP.StrategyTelescopes | src/constants/craftXP.ts:158-186 | for a target in 1..100, the segments' XP sums to table[target] minus the current XP |
| CraftXP.TelescopeStep | src/constants/craftXP.ts:158-186 | one loop turn keeps the sum: the first leg's XP plus the rest's sum from the palier threshold is table[target] minus the current XP |
| CraftXP.NextPalierValue | src/constants/craftXP.ts:151-162 | below 100 the next palier is 20, 60, 80 or 100 by band |
| CraftXP.PaliersAboveBands | src/constants/craftXP.ts:151-156 | counted from the palier list, 4 paliers lie above a level below 20, 3 below 60, 2 below 80, 1 below 100, and none from 100 |
| CraftXP.StrategyLengthBound | src/constants/craftXP.ts:158-186 | the strategy has no more segments than there are paliers above the starting level |
| CraftXP.StrategyAtMostFourLegs | src/constants/craftXP.ts:158-186 | for a target ≤ 100 there are at most four segments |
| JsMath.CeilDiv | src/constants/craftXP.ts:117-119 | the least multiple count: r·k ≥ x > (r−1)·k, also for negative x |
| JsMath.CeilDivLeast | src/constants/craftXP.ts:117-119 | no smaller count covers x |
| JsMath.CeilDivAntitone | src/constants/craftXP.ts:117-119 | for x ≥ 0, more XP per craft never needs more crafts |
| ProfessionHelpers.Filter | src/utils/professionHelpers.ts:14 | the filtered list is never longer than its input |
| ProfessionHelpers.FilterMembers | src/utils/professionHelpers.ts:14 | the filter keeps exactly the elements that satisfy the predicate |
| ProfessionHelpers.FilterAppend | src/utils/professionHelpers.ts:14 | filtering a concatenation filters each part, so the filter keeps input order |
| ProfessionHelpers.FilterPermutation | src/utils/professionHelpers.ts:14 | inputs with the same elements in another order give filtered lists with the same elements |
| ProfessionHelpers.ActiveProfessions | src/utils/professionHelpers.ts:11-15 | keeps exactly the professions above level 1 |
| ProfessionHelpers.ActiveProfessionsAppend | src/utils/professionHelpers.ts:11-15 | the filter keeps input order: it distributes over concatenation |
| ProfessionHelpers.SmallestActiveProfession | src/utils/professionHelpers.ts:20-28 | nothing exactly when no profession is active; otherwise an active profession of the roster whose level is minimal among the active ones |
| ProfessionHelpers.SmallestActiveIsFirst | src/utils/professionHelpers.ts:20-28 | the profession found is the first active one of its level: every active profession in front of it has a higher level |
| ProfessionHelpers.MinByLevel | src/utils/professionHelpers.ts:24-27 | the reduce returns the accumulator or a later profession, and its level is minimal among them |
| ProfessionHelpers.MinByLevelIsFirst | src/utils/professionHelpers.ts:24-27 | the reduce keeps the accumulator, or returns a later profession strictly below the accumulator and below every profession in front of it |
| ProfessionHelpers.UnlockedSlots | src/utils/professionHelpers.ts:33-55 | at least 1; 1 with no active profession; at most the roster size otherwise |
| ProfessionHelpers.UnlockedSlotsCount | src/utils/professionHelpers.ts:40-54 | with some active profession the count is min(1 + #professions at level ≥ 30, roster size) |
| ProfessionHelpers.ActiveUnlockersAreAll | src/utils/professionHelpers.ts:40-54 | the professions reaching level 30 among the active ones are all of them |
| ProfessionHelpers.UnlockedSlotsPermutation | src/utils/professionHelpers.ts:40-54 | reordering the roster does not change the slot count |
| ProfessionHelpers.UnlockedSlotsTwoUnlockersExample | src/utils/professionHelpers.ts:33-55 | levels [35, 40, 1, 1, 1, 1] give 3 slots |
| ProfessionHelpers.UnlockedSlotsNoneActiveExample | src/utils/professionHelpers.ts:33-55 | six level-1 professions give 1 slot |
| ProfessionHelpers.FindById | src/utils/professionHelpers.ts:64-65 | a profession of the roster with the id, or nothing exactly when no profession has it |
| ProfessionHelpers.FindByIdIsFirst | src/utils/professionHelpers.ts:64-65 | the profession found is the first with the id: every one in front of it has another id |
| ProfessionHelpers.FindByIdUnique | src/utils/professionHelpers.ts:64-65 | with unique ids, looking up a member's id finds that member |
| ProfessionHelpers.GetRequiredCraftProfession | src/utils/professionHelpers.ts:60-66 | the roster's craft profession mapped from the smithmagus id; nothing when the id is unmapped or the craft is absent |
| ProfessionHelpers.CanLearnSmithmagicSound | src/utils/professionHelpers.ts:71-84 | eligibility implies a mapped id and a required craft at level ≥ 65 in the roster |
| ProfessionHelpers.CanLearnSmithmagicIff | src/utils/professionHelpers.ts:71-84 | with unique ids, eligible exactly when the id is mapped and its craft is in the roster at level ≥ 65 |
| ProfessionHelpers.CanModifyProfession | src/utils/professionHelpers.ts:89-115 | an active profession is always modifiable; an inactive smithmagus without the prerequisite never is; otherwise modifiable exactly when nothing is active or fewer professions are active than slots are unlocked |
| ProfessionHelpers.CanModifyRespectsPolicy | src/utils/professionHelpers.ts:89-115 | allowing a new profession leaves room for it in the unlocked slots (or nothing is active yet), and a smithmagus only with its craft at level ≥ 65 |
| ProfessionHelpers.CanModifyJewelmagusAtFiftyExample | src/utils/professionHelpers.ts:89-115 | a jewelmagus with the jeweler at level 50 cannot be started |
| ProfessionHelpers.CanModifyJewelmagusAtSixtyFiveExample | src/utils/professionHelpers.ts:89-115 | a jewelmagus with the jeweler at level 65 can be started |
| ProfessionHelpers.Compare | src/utils/professionHelpers.ts:124-130 | the comparator puts a first exactly when its level is higher, ties exactly equal levels, and puts b first exactly when b's level is higher |
| ProfessionHelpers.CompareIsConsistent | src/utils/professionHelpers.ts:124-130 | the comparator is antisymmetric (swapping its arguments negates it) and transitive, so the sort order is well defined |
| ProfessionHelpers.Insert | src/utils/professionHelpers.ts:124-130 | inserting into a level-descending list keeps it descending and adds exactly the one element |
| ProfessionHelpers.InsertKeepsLevelOrder | src/utils/professionHelpers.ts:124-130 | insertion places the new element after every earlier element of equal level |
| ProfessionHelpers.InsertionSort | src/utils/professionHelpers.ts:124-130 | the sort output is level-descending and a permutation of its input |
| ProfessionHelpers.InsertionSortIsStable | src/utils/professionHelpers.ts:124-130 | professions of equal level keep their input order |
| ProfessionHelpers.SortProfessionsByLevel | src/utils/professionHelpers.ts:120-131 | a permutation of exactly the professions of the category, in non-increasing level, with active ones before level-1 ones |
| ProfessionHelpers.SortProfessionsByLevelIsStable | src/utils/professionHelpers.ts:120-131 | within the category, professions of equal level keep roster order |
| ProfessionLogic.HandleLevelChange | src/hooks/useProfessionLogic.ts:67-87 | rejected exactly for non-empty non-digit text; otherwise sets all three fields: the level is 1 when empty and validateLevel of the typed value otherwise (that value in range, 1 for "0", 100 above), the XP is that level's threshold, and the target is max(level, old target) |
| ProfessionLogic.LevelChangeIsCoherent | src/hooks/useProfessionLogic.ts:76-86 | after a level edit the XP total resolves back to the new level |
| ProfessionLogic.LevelChangeOfDecimal | src/hooks/useProfessionLogic.ts:76-86 | typing a level 1..100 in decimal sets exactly that level |
| ProfessionLogic.HandleXPChange | src/hooks/useProfessionLogic.ts:92-115 | rejected exactly for non-empty non-digit text; otherwise sets the XP to 0 when empty and to validateTotalXP of the typed value otherwise (that value in range, table[100] above), and never sets the target; includes a level exactly when the resolved level differs from the current one, and then it is the resolved level |
| ProfessionLogic.XPChangeIsCoherent | src/hooks/useProfessionLogic.ts:101-114 | after an XP edit the resulting level (new or kept) has the new total in its window |
| ProfessionLogic.HandleTargetLevelChange | src/hooks/useProfessionLogic.ts:120-135 | rejected exactly for non-empty non-digit text; otherwise sets only the target, at least the current level and at most 100 when the level is: the current level when empty, and validateTargetLevel of the typed value otherwise (that value in range, the current level below it, max(level, 100) above 100) |
| ProfessionLogic.CalculateProfessionStats | src/hooks/useProfessionLogic.ts:28-62 | base XPs of the level and the next, progress in [0, 100], XP needed never negative and 0 exactly once the target threshold is reached (otherwise the exact gap), levels remaining is target minus level |
| ProfessionLogic.StatsAtMaxLevel | src/hooks/useProfessionLogic.ts:32-38 | at level ≥ 100 both base XPs are table[100] and the progress is 0 |
| ProfessionLogic.ProgressAgreesWithStats | src/utils/professionXP.ts:142-153 | below level 100, getProgressToNextLevel of the XP earned inside the level equals the progress the card's statistics show |
| ProfessionLogic.StatsProgressInsideWindow | src/hooks/useProfessionLogic.ts:35-38 | inside its window a profession shows progress below 100, and 0 at the level's threshold |
| Roster.ApplyUpdate | src/components/professions/ProfessionsManager.tsx:21-23 | object spread: each field the update sets is replaced, every other field (id, name, category, icon included) is kept |
| Roster.ApplyUpdateLaws | src/components/professions/ProfessionsManager.tsx:21-23 | an empty update is the identity, applying an update twice is applying it once, and two spreads compose as one merged update |
| Roster.UpdateProfession | src/components/professions/ProfessionsManager.tsx:21-23 | the roster keeps its length and ids; professions with another id are unchanged; those with the id get the update |
| Roster.UpdateWithoutEffect | src/components/professions/ProfessionsManager.tsx:21-23 | an update for an absent id, or an empty update, leaves the roster as it is |
| Roster.UpdateKeepsUniqueIds | src/components/professions/ProfessionsManager.tsx:21-23 | unique ids stay unique |
| Roster.EditLevel | src/components/professions/ProfessionsManager.tsx:25-27 | a level edit keeps the roster's length and ids, changes nothing for rejected text, and leaves professions with another id unchanged |
| Roster.EditXP | src/components/professions/ProfessionsManager.tsx:28-29 | an XP edit keeps the roster's length and ids, changes nothing for rejected text, and leaves professions with another id unchanged |
| Roster.EditTarget | src/components/professions/ProfessionsManager.tsx:30-31 | a target edit keeps the roster's length and ids, changes nothing for rejected text, and leaves professions with another id unchanged |
| Roster.EditLevelEffect | src/components/professions/ProfessionsManager.tsx:25-27 | a rejected level edit changes nothing; otherwise the edited profession's XP lies in its level's window and its target is at or above its level; other professions are unchanged |
| Roster.EditXPEffect | src/components/professions/ProfessionsManager.tsx:28-29 | a rejected XP edit changes nothing; otherwise the edited profession's level and XP agree and its target is kept; other professions are unchanged |
| Roster.EditTargetEffect | src/components/professions/ProfessionsManager.tsx:30-31 | a target edit keeps every level and XP total; the edited target is at or above the level, and at most 100 when the level is |
| Roster.XPEditCanLeaveTargetBelowLevel | src/hooks/useProfessionLogic.ts:105-114 | a level-1 profession with target 1 given 200 XP moves to level 5 and keeps target 1 |
| CraftCost.FindResource | src/context/AppContext.tsx:89 | a resource of the list with the id, or nothing exactly when none has it |
| CraftCost.FindResourceIsFirst | src/context/AppContext.tsx:89 | the resource found is the first with the id: every one in front of it has another id |
| CraftCost.UnitPrice | src/context/AppContext.tsx:89-90 | the price of the first resource with the id; 0 when no resource has it; non-negative when every price is |
| CraftCost.LineCost | src/context/AppContext.tsx:89-90 | a line costs the first matching resource's price times its quantity, nothing when the resource is missing, and never a negative amount with non-negative prices and quantity |
| CraftCost.FoldCostAtLeastStart | src/context/AppContext.tsx:88-91 | with non-negative line costs the fold never drops below its start |
| CraftCost.CalculateCraftCost | src/context/AppContext.tsx:87-92 | a recipe without ingredients costs 0 |
| CraftCost.FoldIsSum | src/context/AppContext.tsx:88-91 | the left fold from t equals t plus the sum of the line costs |
| CraftCost.CraftCostAdditive | src/context/AppContext.tsx:88-91 | the cost of concatenated ingredient lists is the sum of their costs; appending a line adds exactly its unit price × quantity |
| CraftCost.MissingResourceCostsNothing | src/context/AppContext.tsx:89-90 | a line whose resource is missing adds nothing, wherever it stands |
| CraftCost.CraftCostNonNegative | src/context/AppContext.tsx:88-91 | non-negative prices and quantities give a non-negative cost |
| CraftCost.CalculateMargin | src/context/AppContext.tsx:94-98 | each margin is its channel's price minus the sum of the line costs |
| CraftCost.MarginAppendLine | src/context/AppContext.tsx:87-98 | adding an ingredient line lowers each margin by exactly that line's unit price times its quantity |
| CraftCost.MarginAtMostPrice | src/context/AppContext.tsx:87-98 | with non-negative prices and quantities neither margin exceeds its sale price |
| CraftCost.MarginLaws | src/context/AppContext.tsx:94-98 | the two margins differ by the price gap alone; with no ingredients each margin is its full price |

## Left out

- React view components, and the event plumbing of the inputs: presentational.
- The superseded root copy src/components/ProfessionsManager.tsx: the app mounts the copy under professions/.
- IndexedDB persistence and the asynchronous load and save effects: external I/O.
- The static seed data of src/data/, and the category titles `PROFESSION_CATEGORY_TITLES`: records without logic.
- src/data/professionTypes.ts: its enum is modelled as the `ProfessionType` datatype; the rest of the file is left out.
- The recipe average `avgXP`, the `craftsNeeded` estimate built on it, and the `profRecipes` list of `calculateProfessionStats`: float arithmetic over recipes.
- The `maxSlots` field of each palier entry: the strategy loop never reads it.
- ProfessionLogic.CalculateProfessionStats: the progress is an exact rational, not a binary64 float.
- ProfessionXP.GetProgressToNextLevel: the progress is an exact rational, not a binary64 float.
- ProfessionValidation.ParseNumericInput: does not model `parseInt` losing precision above 2^53, because levels and XP stay far below it.
- Non-integer levels and XP totals (fractional values, `Infinity`): they come from digit-only text or from integer tables.
- Fractional prices and quantities: the resource editor reads them with `Number(...)` from number inputs (src/components/ResourcesManager.tsx:74, :82), so "2.5" can reach the cost. The model makes them integers and sums them exactly. With binary64 sums, which are not associative, `FoldIsSum`, `CraftCostAdditive` and `MissingResourceCostsNothing` hold only up to rounding.
- CraftCost.UnitPrice: a missing resource and a zero price both give 0, as `|| 0` does; a `NaN` price is not modelled.

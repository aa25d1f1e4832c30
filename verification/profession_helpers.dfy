/** The slot-unlock and eligibility policy over the player's profession
    roster: which professions are active, how many profession slots are
    unlocked, whether an advanced profession's prerequisite is met, whether
    a profession may be edited, and the per-category display order. */
module ProfessionHelpers {
  import opened Wrappers
  import opened Seqs
  import opened JsMath
  import opened Types
  import opened ProfessionMappings

  // ---------------------------------------------------------------------
  // Filtering and counting
  // ---------------------------------------------------------------------

  /** `s.filter(f)`: the elements satisfying `f`, in their original order. */
  function Filter(s: seq<Profession>, f: Profession -> bool): (r: seq<Profession>)
    ensures |r| <= |s|
  {
    if |s| == 0 then []
    else if f(s[0]) then [s[0]] + Filter(s[1..], f)
    else Filter(s[1..], f)
  }

  /** The filter keeps exactly the members satisfying `f`. */
  lemma {:induction false} FilterMembers(s: seq<Profession>, f: Profession -> bool)
    ensures forall x :: x in Filter(s, f) <==> x in s && f(x)
    decreases |s|
  {
    if |s| > 0 {
      FilterMembers(s[1..], f);
      assert forall x :: x in s <==> x == s[0] || x in s[1..];
    }
  }

  /** Filtering a concatenation filters each part: together with the
      one-element case this pins `Filter` down as an order-keeping filter. */
  lemma {:induction false} FilterAppend(a: seq<Profession>, b: seq<Profession>, f: Profession -> bool)
    ensures Filter(a + b, f) == Filter(a, f) + Filter(b, f)
    decreases |a|
  {
    if |a| == 0 {
      assert a + b == b;
    } else {
      assert (a + b)[0] == a[0];
      assert (a + b)[1..] == a[1..] + b;
      FilterAppend(a[1..], b, f);
    }
  }

  lemma FilterSingleton(x: Profession, f: Profession -> bool)
    ensures Filter([x], f) == if f(x) then [x] else []
  {
    assert [x][1..] == [];
  }

  /** Filtering a non-empty sequence filters its head, then its tail. */
  lemma FilterCons(s: seq<Profession>, f: Profession -> bool)
    requires |s| > 0
    ensures Filter(s, f) == Filter([s[0]], f) + Filter(s[1..], f)
  {
    FilterSingleton(s[0], f);
  }

  /** Filtering commutes with permutation: what survives the filter depends
      only on the multiset of elements, not on their order. */
  lemma {:induction false} FilterPermutation(s: seq<Profession>, t: seq<Profession>, f: Profession -> bool)
    requires multiset(s) == multiset(t)
    ensures multiset(Filter(s, f)) == multiset(Filter(t, f))
    decreases |s|
  {
    if |s| == 0 {
      assert |t| == |multiset(t)| == 0;
    } else {
      var x := s[0];
      assert x in multiset(t);
      var k :| 0 <= k < |t| && t[k] == x;
      var t' := t[..k] + t[k + 1..];
      RemoveMatchingHead(s, t, k);
      FilterPermutation(s[1..], t', f);
      FilterCons(s, f);
      FilterRemoveAt(t, k, f);
      assert multiset(Filter(s, f)) == multiset(Filter([x], f)) + multiset(Filter(s[1..], f));
    }
  }

  /** Filtering counts the element at `k` once, apart from the rest. */
  lemma FilterRemoveAt(t: seq<Profession>, k: int, f: Profession -> bool)
    requires 0 <= k < |t|
    ensures multiset(Filter(t, f)) == multiset(Filter([t[k]], f)) + multiset(Filter(t[..k] + t[k + 1..], f))
  {
    var x := t[k];
    SplitAt(t, k);
    FilterAppend(t[..k] + [x], t[k + 1..], f);
    FilterAppend(t[..k], [x], f);
    FilterAppend(t[..k], t[k + 1..], f);
  }

  // ---------------------------------------------------------------------
  // Active professions
  // ---------------------------------------------------------------------

  /** A profession is active once it is above level 1. */
  predicate IsActive(p: Profession)
  {
    p.currentLevel > 1
  }

  /** `getActiveProfessions`: the active professions, in roster order. */
  function ActiveProfessions(ps: seq<Profession>): (r: seq<Profession>)
    ensures |r| <= |ps|
    ensures forall p :: p in r <==> p in ps && IsActive(p)
  {
    FilterMembers(ps, IsActive);
    Filter(ps, IsActive)
  }

  /** The active professions of a concatenated roster are those of each
      part, in order. */
  lemma ActiveProfessionsAppend(a: seq<Profession>, b: seq<Profession>)
    ensures ActiveProfessions(a + b) == ActiveProfessions(a) + ActiveProfessions(b)
  {
    FilterAppend(a, b, IsActive);
  }

  /** The reduction step of `getSmallestActiveProfessions`: the running
      minimum `acc` is replaced only by a strictly lower level, so the first
      profession of minimal level wins. */
  function MinByLevel(acc: Profession, rest: seq<Profession>): (r: Profession)
    ensures r == acc || r in rest
    ensures r.currentLevel <= acc.currentLevel
    ensures forall p :: p in rest ==> r.currentLevel <= p.currentLevel
    decreases |rest|
  {
    if |rest| == 0 then acc
    else
      var next := if rest[0].currentLevel < acc.currentLevel then rest[0] else acc;
      assert forall p :: p in rest ==> p == rest[0] || p in rest[1..];
      MinByLevel(next, rest[1..])
  }

  /** `r` stands at index `i` of `s`, strictly below the level of every
      profession in front of it: it is the first of its level there. */
  predicate LeadsAt(r: Profession, s: seq<Profession>, i: int)
  {
    0 <= i < |s| && s[i] == r && forall j :: 0 <= j < i ==> r.currentLevel < s[j].currentLevel
  }

  /** Leading at `i` in the tail of `s` is leading at `i + 1` in `s` once
      the head is above the level. */
  lemma LeadsAtCons(r: Profession, s: seq<Profession>, i: int)
    requires |s| > 0 && LeadsAt(r, s[1..], i) && r.currentLevel < s[0].currentLevel
    ensures LeadsAt(r, s, i + 1)
  {
    forall j | 0 <= j < i + 1 ensures r.currentLevel < s[j].currentLevel {
      if j > 0 {
        assert s[j] == s[1..][j - 1];
      }
    }
  }

  /** The reduce replaces the accumulator only by a strictly lower level:
      when it returns something else, that is a profession of `rest` below
      the accumulator and strictly below everything in front of it. */
  lemma {:induction false} MinByLevelIsFirst(acc: Profession, rest: seq<Profession>)
    ensures var r := MinByLevel(acc, rest);
            r == acc || (r.currentLevel < acc.currentLevel && exists i :: LeadsAt(r, rest, i))
    decreases |rest|
  {
    if |rest| > 0 {
      var r := MinByLevel(acc, rest);
      var next := if rest[0].currentLevel < acc.currentLevel then rest[0] else acc;
      assert r == MinByLevel(next, rest[1..]);
      MinByLevelIsFirst(next, rest[1..]);
      if r != acc {
        if r == next {
          assert LeadsAt(r, rest, 0);
        } else {
          var i :| LeadsAt(r, rest[1..], i);
          LeadsAtCons(r, rest, i);
        }
      }
    }
  }

  /** `getSmallestActiveProfessions`: the first active profession of lowest
      level, or nothing when no profession is active. */
  function SmallestActiveProfession(ps: seq<Profession>): (r: Option<Profession>)
    ensures r.None? <==> forall p :: p in ps ==> !IsActive(p)
    ensures r.Some? ==> r.value in ps && IsActive(r.value)
    ensures r.Some? ==> forall p :: p in ps && IsActive(p) ==> r.value.currentLevel <= p.currentLevel
  {
    var active := ActiveProfessions(ps);
    if |active| == 0 then None
    else
      assert active[0] in active;
      assert forall p :: p in active ==> p == active[0] || p in active[1..];
      Some(MinByLevel(active[0], active[1..]))
  }

  /** Ties go to the earliest: the profession found comes before every other
      active profession of its level. */
  lemma SmallestActiveIsFirst(ps: seq<Profession>)
    ensures var r := SmallestActiveProfession(ps);
            r.Some? ==> exists k :: LeadsAt(r.value, ActiveProfessions(ps), k)
  {
    var active := ActiveProfessions(ps);
    if |active| > 0 {
      var m := MinByLevel(active[0], active[1..]);
      MinByLevelIsFirst(active[0], active[1..]);
      if m == active[0] {
        assert LeadsAt(m, active, 0);
      } else {
        var i :| LeadsAt(m, active[1..], i);
        LeadsAtCons(m, active, i);
      }
    }
  }

  // ---------------------------------------------------------------------
  // Unlocked slots
  // ---------------------------------------------------------------------

  /** The profession has reached the level that unlocks one more slot. */
  predicate ReachesSlotUnlock(p: Profession)
  {
    p.currentLevel >= SLOT_UNLOCK_LEVEL
  }

  /** `getUnlockedSlots`: one slot, plus one per active profession at or
      above the unlock level, capped by the roster size. The source sorts
      the active professions before counting; the count is taken here over
      the same professions sorted the same way. */
  function UnlockedSlots(ps: seq<Profession>): (r: int)
    ensures r >= 1
    ensures |ActiveProfessions(ps)| == 0 ==> r == 1
    ensures |ActiveProfessions(ps)| > 0 ==> r <= |ps|
  {
    var active := ActiveProfessions(ps);
    if |active| == 0 then 1
    else
      assert active[0] in ps;
      var sortedByLevel := InsertionSort(active);
      Min(1 + |Filter(sortedByLevel, ReachesSlotUnlock)|, |ps|)
  }

  /** The closed form: with any profession active, the count is one plus
      the number of professions at or above the unlock level (all of which
      are active), capped by the roster size; the sort plays no part. */
  lemma UnlockedSlotsCount(ps: seq<Profession>)
    requires |ActiveProfessions(ps)| > 0
    ensures UnlockedSlots(ps) == Min(1 + |Filter(ps, ReachesSlotUnlock)|, |ps|)
  {
    var active := ActiveProfessions(ps);
    var sorted := InsertionSort(active);
    FilterPermutation(sorted, active, ReachesSlotUnlock);
    assert |Filter(sorted, ReachesSlotUnlock)| == |multiset(Filter(sorted, ReachesSlotUnlock))|;
    assert |Filter(active, ReachesSlotUnlock)| == |multiset(Filter(active, ReachesSlotUnlock))|;
    ActiveUnlockersAreAll(ps);
  }

  /** Every profession at the unlock level is active, so counting the
      unlockers among the active professions counts them all. */
  lemma {:induction false} ActiveUnlockersAreAll(ps: seq<Profession>)
    ensures Filter(ActiveProfessions(ps), ReachesSlotUnlock) == Filter(ps, ReachesSlotUnlock)
    decreases |ps|
  {
    if |ps| > 0 {
      ActiveUnlockersAreAll(ps[1..]);
      if IsActive(ps[0]) {
        FilterAppend([ps[0]], ActiveProfessions(ps[1..]), ReachesSlotUnlock);
        FilterSingleton(ps[0], ReachesSlotUnlock);
      }
    }
  }

  /** Reordering the roster does not change the number of unlocked slots. */
  lemma UnlockedSlotsPermutation(ps: seq<Profession>, qs: seq<Profession>)
    requires multiset(ps) == multiset(qs)
    ensures UnlockedSlots(ps) == UnlockedSlots(qs)
  {
    FilterPermutation(ps, qs, IsActive);
    assert |ActiveProfessions(ps)| == |multiset(ActiveProfessions(ps))|;
    assert |ActiveProfessions(qs)| == |multiset(ActiveProfessions(qs))|;
    assert |ps| == |multiset(ps)| && |qs| == |multiset(qs)|;
    if |ActiveProfessions(ps)| > 0 {
      UnlockedSlotsCount(ps);
      UnlockedSlotsCount(qs);
      FilterPermutation(ps, qs, ReachesSlotUnlock);
      assert |Filter(ps, ReachesSlotUnlock)| == |multiset(Filter(ps, ReachesSlotUnlock))|;
      assert |Filter(qs, ReachesSlotUnlock)| == |multiset(Filter(qs, ReachesSlotUnlock))|;
    }
  }

  /** A roster member that only its level distinguishes. */
  function AtLevel(level: int): Profession
  {
    Profession("", "", Craft, level, 0, level, "")
  }

  /** Levels 35, 40, 1, 1, 1, 1: two active professions, both past the
      unlock level, give three slots. */
  lemma UnlockedSlotsTwoUnlockersExample()
    ensures UnlockedSlots([AtLevel(35), AtLevel(40), AtLevel(1), AtLevel(1), AtLevel(1), AtLevel(1)]) == 3
  {
    var ps := [AtLevel(35), AtLevel(40), AtLevel(1), AtLevel(1), AtLevel(1), AtLevel(1)];
    TwoUnlockersFilters();
    UnlockedSlotsCount(ps);
  }

  /** The two filters of the example: both professions above level 1 are
      active and past the unlock level. */
  lemma TwoUnlockersFilters()
    ensures var ps := [AtLevel(35), AtLevel(40), AtLevel(1), AtLevel(1), AtLevel(1), AtLevel(1)];
            ActiveProfessions(ps) == [AtLevel(35), AtLevel(40)] &&
            Filter(ps, ReachesSlotUnlock) == [AtLevel(35), AtLevel(40)]
  {
    var ones := [AtLevel(1), AtLevel(1), AtLevel(1), AtLevel(1)];
    var ps := [AtLevel(35)] + ([AtLevel(40)] + ones);
    assert ps == [AtLevel(35), AtLevel(40), AtLevel(1), AtLevel(1), AtLevel(1), AtLevel(1)];
    FilterOnes(ones);
    FilterFrontPair(ones, IsActive);
    FilterFrontPair(ones, ReachesSlotUnlock);
  }

  /** Level-1 professions are neither active nor past the unlock level. */
  lemma FilterOnes(ones: seq<Profession>)
    requires ones == [AtLevel(1), AtLevel(1), AtLevel(1), AtLevel(1)]
    ensures Filter(ones, IsActive) == [] && Filter(ones, ReachesSlotUnlock) == []
  {
    FilterNone(ones, IsActive);
    FilterNone(ones, ReachesSlotUnlock);
  }

  /** Two professions that pass `f` in front of a tail that `f` drops. */
  lemma FilterFrontPair(ones: seq<Profession>, f: Profession -> bool)
    requires f(AtLevel(35)) && f(AtLevel(40)) && Filter(ones, f) == []
    ensures Filter([AtLevel(35)] + ([AtLevel(40)] + ones), f) == [AtLevel(35), AtLevel(40)]
  {
    FilterAppend([AtLevel(35)], [AtLevel(40)] + ones, f);
    FilterAppend([AtLevel(40)], ones, f);
    FilterSingleton(AtLevel(35), f);
    FilterSingleton(AtLevel(40), f);
  }

  /** With every profession at level 1 exactly one slot is unlocked. */
  lemma UnlockedSlotsNoneActiveExample()
    ensures UnlockedSlots([AtLevel(1), AtLevel(1), AtLevel(1), AtLevel(1), AtLevel(1), AtLevel(1)]) == 1
  {
    var ps := [AtLevel(1), AtLevel(1), AtLevel(1), AtLevel(1), AtLevel(1), AtLevel(1)];
    assert forall p :: p in ps ==> !IsActive(p);
    assert ActiveProfessions(ps) == [];
  }

  // ---------------------------------------------------------------------
  // Advanced-profession prerequisite
  // ---------------------------------------------------------------------

  /** `professions.find(p => p.id === id)`: the first profession with that id. */
  function FindById(ps: seq<Profession>, id: string): (r: Option<Profession>)
    ensures r.None? <==> forall p :: p in ps ==> p.id != id
    ensures r.Some? ==> r.value in ps && r.value.id == id
  {
    if |ps| == 0 then None
    else if ps[0].id == id then Some(ps[0])
    else
      assert forall p :: p in ps ==> p == ps[0] || p in ps[1..];
      FindById(ps[1..], id)
  }

  /** What the search finds is the first profession with that id: every
      profession in front of it has another id. */
  lemma {:induction false} FindByIdIsFirst(ps: seq<Profession>, id: string)
    ensures var r := FindById(ps, id);
            r.Some? ==>
              exists i :: 0 <= i < |ps| && ps[i] == r.value && forall j :: 0 <= j < i ==> ps[j].id != id
    decreases |ps|
  {
    var r := FindById(ps, id);
    if |ps| > 0 && ps[0].id != id && r.Some? {
      var tail := ps[1..];
      FindByIdIsFirst(tail, id);
      var i :| 0 <= i < |tail| && tail[i] == r.value && forall j :: 0 <= j < i ==> tail[j].id != id;
      assert ps[i + 1] == r.value;
      assert forall j :: 1 <= j < i + 1 ==> ps[j] == tail[j - 1];
    } else if |ps| > 0 && ps[0].id == id {
      assert ps[0] == r.value;
    }
  }

  /** No two professions of the roster share an id. */
  predicate UniqueIds(ps: seq<Profession>)
  {
    forall i, j :: 0 <= i < |ps| && 0 <= j < |ps| && ps[i].id == ps[j].id ==> i == j
  }

  /** With unique ids the profession found is the only one with that id. */
  lemma FindByIdUnique(ps: seq<Profession>, p: Profession)
    requires UniqueIds(ps)
    requires p in ps
    ensures FindById(ps, p.id) == Some(p)
  {
    var r := FindById(ps, p.id);
    var i :| 0 <= i < |ps| && ps[i] == r.value;
    var k :| 0 <= k < |ps| && ps[k] == p;
    assert ps[i].id == ps[k].id;
  }

  /** `getRequiredCraftProfession`: the roster's profession for the crafting
      id the advanced profession is mapped to. An unmapped id looks up an
      undefined id, which no profession has. */
  function GetRequiredCraftProfession(smithmagicId: string, ps: seq<Profession>): (r: Option<Profession>)
    ensures r.Some? ==> smithmagicId in SMITHMAGUS_TO_CRAFT_MAPPING && r.value in ps &&
                        r.value.id == SMITHMAGUS_TO_CRAFT_MAPPING[smithmagicId]
    ensures r.None? <==> smithmagicId !in SMITHMAGUS_TO_CRAFT_MAPPING ||
                         forall p :: p in ps ==> p.id != SMITHMAGUS_TO_CRAFT_MAPPING[smithmagicId]
  {
    if smithmagicId in SMITHMAGUS_TO_CRAFT_MAPPING then
      FindById(ps, SMITHMAGUS_TO_CRAFT_MAPPING[smithmagicId])
    else None
  }

  /** `canLearnSmithmagic`: the required crafting profession is in the
      roster and has reached the required level. */
  predicate CanLearnSmithmagic(smithmagicId: string, ps: seq<Profession>)
  {
    var required := GetRequiredCraftProfession(smithmagicId, ps);
    required.Some? && required.value.currentLevel >= SMITHMAGIC_REQUIRED_LEVEL
  }

  /** Soundness: a learnable advanced profession has its mapped base
      profession in the roster at the required level. */
  lemma CanLearnSmithmagicSound(smithmagicId: string, ps: seq<Profession>)
    requires CanLearnSmithmagic(smithmagicId, ps)
    ensures smithmagicId in SMITHMAGUS_TO_CRAFT_MAPPING
    ensures exists p :: p in ps && p.id == SMITHMAGUS_TO_CRAFT_MAPPING[smithmagicId] &&
                        p.currentLevel >= SMITHMAGIC_REQUIRED_LEVEL
  {
    var p := GetRequiredCraftProfession(smithmagicId, ps).value;
    assert p in ps && p.id == SMITHMAGUS_TO_CRAFT_MAPPING[smithmagicId];
  }

  /** With unique ids the converse holds too: the advanced profession is
      learnable exactly when it is mapped and its base profession is in the
      roster at the required level. */
  lemma CanLearnSmithmagicIff(smithmagicId: string, ps: seq<Profession>)
    requires UniqueIds(ps)
    ensures CanLearnSmithmagic(smithmagicId, ps) <==>
              smithmagicId in SMITHMAGUS_TO_CRAFT_MAPPING &&
              exists p :: p in ps && p.id == SMITHMAGUS_TO_CRAFT_MAPPING[smithmagicId] &&
                          p.currentLevel >= SMITHMAGIC_REQUIRED_LEVEL
  {
    if CanLearnSmithmagic(smithmagicId, ps) {
      CanLearnSmithmagicSound(smithmagicId, ps);
    }
    if smithmagicId in SMITHMAGUS_TO_CRAFT_MAPPING &&
       exists p :: p in ps && p.id == SMITHMAGUS_TO_CRAFT_MAPPING[smithmagicId] &&
                   p.currentLevel >= SMITHMAGIC_REQUIRED_LEVEL {
      var p :| p in ps && p.id == SMITHMAGUS_TO_CRAFT_MAPPING[smithmagicId] &&
               p.currentLevel >= SMITHMAGIC_REQUIRED_LEVEL;
      FindByIdUnique(ps, p);
    }
  }

  // ---------------------------------------------------------------------
  // Edit eligibility
  // ---------------------------------------------------------------------

  /** `canModifyProfession`: an active profession may always be edited; an
      inactive advanced profession needs its prerequisite; the first active
      profession is free; after that an inactive profession needs a free
      slot. */
  function CanModifyProfession(profession: Profession, ps: seq<Profession>): (r: bool)
    ensures IsActive(profession) ==> r
    ensures (!IsActive(profession) && profession.category == Smithmagus &&
             !CanLearnSmithmagic(profession.id, ps)) ==> !r
    ensures !IsActive(profession) && (profession.category != Smithmagus || CanLearnSmithmagic(profession.id, ps)) ==>
              (r <==> |ActiveProfessions(ps)| == 0 || |ActiveProfessions(ps)| < UnlockedSlots(ps))
  {
    if IsActive(profession) then true
    else if profession.category == Smithmagus && !CanLearnSmithmagic(profession.id, ps) then false
    else
      var activeProfessions := ActiveProfessions(ps);
      if |activeProfessions| == 0 then true
      else |activeProfessions| < UnlockedSlots(ps)
  }

  /** Activating a permitted inactive profession never needs more slots
      than are unlocked, and an inactive advanced profession is only
      permitted once its base profession is in the roster at level 65. */
  lemma CanModifyRespectsPolicy(profession: Profession, ps: seq<Profession>)
    requires !IsActive(profession) && CanModifyProfession(profession, ps)
    ensures |ActiveProfessions(ps)| + 1 <= UnlockedSlots(ps) || |ActiveProfessions(ps)| == 0
    ensures profession.category == Smithmagus ==>
              SmithmagicRequirementMet(profession.id, ps)
  {
    if profession.category == Smithmagus {
      CanLearnSmithmagicSound(profession.id, ps);
    }
  }

  /** The jeweller, and its advanced variant, not yet learnt. */
  function Jeweler(level: int): Profession
  {
    Profession("jeweler", "Jeweler", Craft, level, 0, level, "")
  }

  const JEWELMAGUS: Profession := Profession("jewelmagus", "Jewelmagus", Smithmagus, 1, 0, 1, "")

  /** A jeweller at level 50 is short of the 65 the jewelmagus requires. */
  lemma CanModifyJewelmagusAtFiftyExample()
    ensures !CanModifyProfession(JEWELMAGUS, [Jeweler(50), JEWELMAGUS])
  {
    var ps := [Jeweler(50), JEWELMAGUS];
    assert SMITHMAGUS_TO_CRAFT_MAPPING["jewelmagus"] == "jeweler";
    assert FindById(ps, "jeweler") == Some(Jeweler(50));
  }

  /** At level 65 the jeweller unlocks a second slot, and the jewelmagus
      may take it. */
  lemma CanModifyJewelmagusAtSixtyFiveExample()
    ensures CanModifyProfession(JEWELMAGUS, [Jeweler(65), JEWELMAGUS])
  {
    var ps := [Jeweler(65), JEWELMAGUS];
    assert SMITHMAGUS_TO_CRAFT_MAPPING["jewelmagus"] == "jeweler";
    assert FindById(ps, "jeweler") == Some(Jeweler(65));
    assert ps == [Jeweler(65)] + [JEWELMAGUS];
    FilterAppend([Jeweler(65)], [JEWELMAGUS], IsActive);
    FilterSingleton(Jeweler(65), IsActive);
    FilterSingleton(JEWELMAGUS, IsActive);
    assert ActiveProfessions(ps) == [Jeweler(65)];
    UnlockedSlotsCount(ps);
    FilterAppend([Jeweler(65)], [JEWELMAGUS], ReachesSlotUnlock);
    FilterSingleton(Jeweler(65), ReachesSlotUnlock);
    FilterSingleton(JEWELMAGUS, ReachesSlotUnlock);
    assert UnlockedSlots(ps) == 2;
  }

  /** The advanced profession's mapped base is in the roster at the
      required level. */
  predicate SmithmagicRequirementMet(smithmagicId: string, ps: seq<Profession>)
  {
    smithmagicId in SMITHMAGUS_TO_CRAFT_MAPPING &&
    exists p :: p in ps && p.id == SMITHMAGUS_TO_CRAFT_MAPPING[smithmagicId] &&
                p.currentLevel >= SMITHMAGIC_REQUIRED_LEVEL
  }

  // ---------------------------------------------------------------------
  // Category display order
  // ---------------------------------------------------------------------

  /** The comparator of `sortProfessionsByLevel`: active before level 1,
      otherwise by descending level. Negative means `a` goes first. Its two
      special cases agree with plain descending order, so the comparator
      always has the sign of `b.currentLevel - a.currentLevel`. */
  function Compare(a: Profession, b: Profession): (r: int)
    ensures r < 0 <==> a.currentLevel > b.currentLevel
    ensures r == 0 <==> a.currentLevel == b.currentLevel
    ensures r > 0 <==> a.currentLevel < b.currentLevel
  {
    if a.currentLevel > 1 && b.currentLevel == 1 then -1
    else if a.currentLevel == 1 && b.currentLevel > 1 then 1
    else b.currentLevel - a.currentLevel
  }

  /** The comparator is consistent, as `Array.prototype.sort` requires:
      swapping its arguments negates it, and "goes no later than" is
      transitive. */
  lemma CompareIsConsistent(a: Profession, b: Profession, c: Profession)
    ensures Compare(a, b) == -Compare(b, a)
    ensures Compare(a, b) <= 0 && Compare(b, c) <= 0 ==> Compare(a, c) <= 0
  {
  }

  /** Ordered by non-increasing level. */
  predicate DescendingByLevel(s: seq<Profession>)
  {
    forall i, j :: 0 <= i < j < |s| ==> s[i].currentLevel >= s[j].currentLevel
  }

  /** Has level `v`. */
  function HasLevel(v: int): Profession -> bool
  {
    (p: Profession) => p.currentLevel == v
  }

  /** Putting a profession of at least the head's level in front of a
      descending sequence keeps it descending. */
  lemma ConsDescending(y: Profession, t: seq<Profession>)
    ensures DescendingByLevel(t) && (|t| == 0 || t[0].currentLevel <= y.currentLevel) ==>
              DescendingByLevel([y] + t)
  {
    if DescendingByLevel(t) && (|t| == 0 || t[0].currentLevel <= y.currentLevel) {
      var r := [y] + t;
      forall i, j | 0 <= i < j < |r| ensures r[i].currentLevel >= r[j].currentLevel {
        assert r[j] == t[j - 1];
        if i > 0 {
          assert r[i] == t[i - 1];
        } else {
          assert t[0].currentLevel >= t[j - 1].currentLevel;
        }
      }
    }
  }

  /** Stable insertion of `x` into a sequence sorted by `Compare`: `x` goes
      after every element that does not compare after it. */
  function Insert(x: Profession, s: seq<Profession>): (r: seq<Profession>)
    ensures DescendingByLevel(s) ==> DescendingByLevel(r)
    ensures multiset(r) == multiset(s) + multiset{x}
    ensures |r| == |s| + 1 && (r[0] == x || (|s| > 0 && r[0] == s[0]))
    decreases |s|
  {
    if |s| == 0 then [x]
    else
      if Compare(s[0], x) <= 0 then
        var rest := Insert(x, s[1..]);
        SplitHead(s);
        assert DescendingByLevel(s) && |s| > 1 ==> s[1..][0] == s[1] && s[1].currentLevel <= s[0].currentLevel;
        ConsDescending(s[0], rest);
        [s[0]] + rest
      else
        ConsDescending(x, s);
        [x] + s
  }

  /** Nothing survives a filter that rejects every element. */
  lemma {:induction false} FilterNone(s: seq<Profession>, f: Profession -> bool)
    requires forall i :: 0 <= i < |s| ==> !f(s[i])
    ensures Filter(s, f) == []
    decreases |s|
  {
    if |s| > 0 {
      assert forall i :: 0 <= i < |s[1..]| ==> s[1..][i] == s[i + 1];
      FilterNone(s[1..], f);
    }
  }

  /** Insertion is stable: `x` lands after every element of its own level. */
  lemma {:induction false} InsertKeepsLevelOrder(x: Profession, s: seq<Profession>, v: int)
    requires DescendingByLevel(s)
    ensures Filter(Insert(x, s), HasLevel(v)) == Filter(s, HasLevel(v)) + Filter([x], HasLevel(v))
    decreases |s|
  {
    var f := HasLevel(v);
    if |s| == 0 {
      assert Filter(s, f) == [];
    } else if Compare(s[0], x) <= 0 {
      InsertKeepsLevelOrder(x, s[1..], v);
      InsertBehindKeepsLevelOrder(x, s, v);
    } else {
      assert Insert(x, s) == [x] + s;
      InsertInFrontKeepsLevelOrder(x, s, v);
    }
  }

  /** The case where `x` goes behind the head: the head stays in front of
      the elements of its own level. */
  lemma InsertBehindKeepsLevelOrder(x: Profession, s: seq<Profession>, v: int)
    requires |s| > 0 && Compare(s[0], x) <= 0
    requires Filter(Insert(x, s[1..]), HasLevel(v)) == Filter(s[1..], HasLevel(v)) + Filter([x], HasLevel(v))
    ensures Filter(Insert(x, s), HasLevel(v)) == Filter(s, HasLevel(v)) + Filter([x], HasLevel(v))
  {
    var f := HasLevel(v);
    var rest := Insert(x, s[1..]);
    calc {
      Filter(Insert(x, s), f);
      Filter([s[0]] + rest, f);
      { FilterAppend([s[0]], rest, f); }
      Filter([s[0]], f) + Filter(rest, f);
      Filter([s[0]], f) + (Filter(s[1..], f) + Filter([x], f));
      { AppendAssoc(Filter([s[0]], f), Filter(s[1..], f), Filter([x], f)); }
      (Filter([s[0]], f) + Filter(s[1..], f)) + Filter([x], f);
      { FilterCons(s, f); }
      Filter(s, f) + Filter([x], f);
    }
  }

  /** The case where `x` goes in front: no element of `s` shares its level. */
  lemma InsertInFrontKeepsLevelOrder(x: Profession, s: seq<Profession>, v: int)
    requires DescendingByLevel(s)
    requires |s| > 0 && s[0].currentLevel < x.currentLevel
    ensures Filter([x] + s, HasLevel(v)) == Filter(s, HasLevel(v)) + Filter([x], HasLevel(v))
  {
    var f := HasLevel(v);
    FilterSingleton(x, f);
    FilterAppend([x], s, f);
    if x.currentLevel == v {
      assert forall i :: 0 <= i < |s| ==> s[i].currentLevel < v;
      FilterNone(s, f);
      assert Filter(s, f) + Filter([x], f) == [x];
    } else {
      assert Filter(s, f) + Filter([x], f) == Filter(s, f);
    }
  }

  /** Stable insertion sort by `Compare`, the order JavaScript's stable
      `Array.prototype.sort` produces with that comparator. */
  function InsertionSort(s: seq<Profession>): (r: seq<Profession>)
    ensures DescendingByLevel(r)
    ensures multiset(r) == multiset(s)
    decreases |s|
  {
    if |s| == 0 then []
    else
      SplitLast(s);
      Insert(s[|s| - 1], InsertionSort(s[..|s| - 1]))
  }

  /** The sort is stable: the professions of each level keep their order. */
  lemma {:induction false} InsertionSortIsStable(s: seq<Profession>, v: int)
    ensures Filter(InsertionSort(s), HasLevel(v)) == Filter(s, HasLevel(v))
    decreases |s|
  {
    if |s| > 0 {
      var init := s[..|s| - 1];
      InsertionSortIsStable(init, v);
      InsertKeepsLevelOrder(s[|s| - 1], InsertionSort(init), v);
      SplitLast(s);
      FilterAppend(init, [s[|s| - 1]], HasLevel(v));
    }
  }

  /** Belongs to `category`. */
  function OfCategory(category: ProfessionType): Profession -> bool
  {
    (p: Profession) => p.category == category
  }

  /** `sortProfessionsByLevel`: the roster's professions of one category,
      active ones first, by non-increasing level. */
  function SortProfessionsByLevel(ps: seq<Profession>, category: ProfessionType): (r: seq<Profession>)
    ensures multiset(r) == multiset(Filter(ps, OfCategory(category)))
    ensures forall p :: p in r <==> p in ps && p.category == category
    ensures DescendingByLevel(r)
    ensures forall i, j :: 0 <= i < j < |r| && IsActive(r[j]) ==> IsActive(r[i])
  {
    var ofCategory := Filter(ps, OfCategory(category));
    FilterMembers(ps, OfCategory(category));
    var r := InsertionSort(ofCategory);
    forall p
      ensures p in r <==> p in ps && p.category == category
    {
      assert p in r <==> p in multiset(r);
      assert p in ofCategory <==> p in multiset(ofCategory);
      assert OfCategory(category)(p) == (p.category == category);
    }
    r
  }

  /** Professions of equal level keep their roster order. */
  lemma SortProfessionsByLevelIsStable(ps: seq<Profession>, category: ProfessionType, v: int)
    ensures Filter(SortProfessionsByLevel(ps, category), HasLevel(v)) == Filter(Filter(ps, OfCategory(category)), HasLevel(v))
  {
    InsertionSortIsStable(Filter(ps, OfCategory(category)), v);
  }
}

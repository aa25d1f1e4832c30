/** Static gameplay data: the advanced-profession prerequisites and the
    level constants shared by the validation and slot policies. */
module ProfessionMappings {

  /** Each advanced ("smithmagus") profession and the crafting profession
      it requires. */
  const SMITHMAGUS_TO_CRAFT_MAPPING: map<string, string> := map[
    "sword_smithmagus" := "sword_smith",
    "hammer_smithmagus" := "hammer_smith",
    "axe_smithmagus" := "axe_smith",
    "dagger_smithmagus" := "dagger_smith",
    "shovel_smithmagus" := "shovel_smith",
    "bow_carvermage" := "bow_carver",
    "staff_carvermage" := "staff_carver",
    "wand_carvermage" := "wand_carver",
    "shoemagus" := "shoemaker",
    "jewelmagus" := "jeweler",
    "costumagus" := "tailor"
  ]

  const MIN_LEVEL: int := 1
  const MAX_LEVEL: int := 100
  /** Level an active profession must reach to unlock one more slot. */
  const SLOT_UNLOCK_LEVEL: int := 30
  /** Level the base profession must reach before its advanced variant can be learnt. */
  const SMITHMAGIC_REQUIRED_LEVEL: int := 65

  /** The thresholds lie inside the level range. */
  lemma ConstantsInRange()
    ensures MIN_LEVEL == 1 < MAX_LEVEL == 100
    ensures MIN_LEVEL <= SLOT_UNLOCK_LEVEL <= MAX_LEVEL
    ensures MIN_LEVEL <= SMITHMAGIC_REQUIRED_LEVEL <= MAX_LEVEL
  {
  }

  /** Eleven advanced professions are mapped. */
  lemma MappingSize()
    ensures |SMITHMAGUS_TO_CRAFT_MAPPING| == 11
  {
  }

  /** Distinct advanced professions require distinct base professions. */
  lemma MappingInjective()
    ensures forall a, b :: a in SMITHMAGUS_TO_CRAFT_MAPPING && b in SMITHMAGUS_TO_CRAFT_MAPPING && a != b
              ==> SMITHMAGUS_TO_CRAFT_MAPPING[a] != SMITHMAGUS_TO_CRAFT_MAPPING[b]
  {
  }

  /** No base profession is itself advanced, so prerequisites never chain. */
  lemma MappingDoesNotChain()
    ensures forall a :: a in SMITHMAGUS_TO_CRAFT_MAPPING ==> SMITHMAGUS_TO_CRAFT_MAPPING[a] !in SMITHMAGUS_TO_CRAFT_MAPPING
  {
  }
}

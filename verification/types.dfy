/** The records the progression engine and the cost calculator work on. */
module Types {

  /** The category of a profession: harvesting, crafting, or the advanced
      "smithmagus" variants that depend on a crafting profession. */
  datatype ProfessionType = Harvest | Craft | Smithmagus

  /** A profession of the player's fixed roster. `category` is the field
      the helpers read as `profession.type`. Levels and XP are integers;
      `currentXP` is the cumulative XP total. */
  datatype Profession = Profession(
    id: string,
    name: string,
    category: ProfessionType,
    currentLevel: int,
    currentXP: int,
    targetLevel: int,
    icon: string)

  /** A tradeable resource and its unit price in kamas. */
  datatype Resource = Resource(id: string, name: string, kind: string, unitPrice: int, quantity: int)

  /** One ingredient line of a recipe. */
  datatype RecipeResource = RecipeResource(resourceId: string, quantity: int)

  /** A craftable recipe with its selling prices. */
  datatype Recipe = Recipe(
    id: string,
    name: string,
    profession: string,
    level: int,
    resources: seq<RecipeResource>,
    xpGained: int,
    hdvPrice: int,
    merchantPrice: int)
}

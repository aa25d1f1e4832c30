/** The cost of a recipe from the resource price list, and its margin at
    either selling channel. */
module CraftCost {
  import opened Wrappers
  import opened Types

  /** `resources.find(r => r.id === id)`: the first resource with that id. */
  function FindResource(resources: seq<Resource>, id: string): (r: Option<Resource>)
    ensures r.None? <==> forall x :: x in resources ==> x.id != id
    ensures r.Some? ==> r.value in resources && r.value.id == id
  {
    if |resources| == 0 then None
    else if resources[0].id == id then Some(resources[0])
    else
      var r := FindResource(resources[1..], id);
      assert forall x :: x in resources ==> x == resources[0] || x in resources[1..];
      r
  }

  /** What the search finds is the first resource with that id: every
      resource in front of it has another id. */
  lemma {:induction false} FindResourceIsFirst(resources: seq<Resource>, id: string)
    ensures var r := FindResource(resources, id);
            r.Some? ==>
              exists i :: 0 <= i < |resources| && resources[i] == r.value &&
                          forall j :: 0 <= j < i ==> resources[j].id != id
    decreases |resources|
  {
    var r := FindResource(resources, id);
    if |resources| > 0 && resources[0].id != id && r.Some? {
      var tail := resources[1..];
      FindResourceIsFirst(tail, id);
      var i :| 0 <= i < |tail| && tail[i] == r.value &&
               forall j :: 0 <= j < i ==> tail[j].id != id;
      assert resources[i + 1] == r.value;
      assert forall j :: 1 <= j < i + 1 ==> resources[j] == tail[j - 1];
    } else if |resources| > 0 && resources[0].id == id {
      assert resources[0] == r.value;
    }
  }

  /** `resource?.unitPrice || 0`: a missing resource (and a zero price,
      which `||` also replaces) counts as 0. */
  function UnitPrice(resources: seq<Resource>, id: string): (r: int)
    ensures (forall x :: x in resources ==> x.id != id) ==> r == 0
    ensures (forall x :: x in resources ==> x.unitPrice >= 0) ==> r >= 0
    ensures forall j :: 0 <= j < |resources| && resources[j].id == id &&
                        (forall i :: 0 <= i < j ==> resources[i].id != id) ==>
                          r == resources[j].unitPrice
  {
    FindResourceIsFirst(resources, id);
    match FindResource(resources, id)
    case None => 0
    case Some(x) => x.unitPrice
  }

  /** What one ingredient line adds to the cost: the first matching
      resource's price times the quantity, and nothing for a missing
      resource. */
  function LineCost(resources: seq<Resource>, line: RecipeResource): (r: int)
    ensures (forall x :: x in resources ==> x.id != line.resourceId) ==> r == 0
    ensures (forall x :: x in resources ==> x.unitPrice >= 0) && line.quantity >= 0 ==> r >= 0
    ensures forall j :: 0 <= j < |resources| && resources[j].id == line.resourceId &&
                        (forall i :: 0 <= i < j ==> resources[i].id != line.resourceId) ==>
                          r == resources[j].unitPrice * line.quantity
  {
    UnitPrice(resources, line.resourceId) * line.quantity
  }

  /** The `reduce` of `calculateCraftCost`: a left fold from `total`. */
  function FoldCost(resources: seq<Resource>, lines: seq<RecipeResource>, total: int): int
    decreases |lines|
  {
    if |lines| == 0 then total
    else FoldCost(resources, lines[1..], total + LineCost(resources, lines[0]))
  }

  /** With non-negative line costs the fold never drops below its start. */
  lemma {:induction false} FoldCostAtLeastStart(resources: seq<Resource>, lines: seq<RecipeResource>, total: int)
    requires forall l :: l in lines ==> LineCost(resources, l) >= 0
    ensures FoldCost(resources, lines, total) >= total
    decreases |lines|
  {
    if |lines| > 0 {
      var first := LineCost(resources, lines[0]);
      assert lines[0] in lines;
      assert forall l :: l in lines[1..] ==> l in lines;
      FoldCostAtLeastStart(resources, lines[1..], total + first);
    }
  }

  /** `calculateCraftCost`: the fold over the recipe's ingredients from 0. */
  function CalculateCraftCost(resources: seq<Resource>, recipe: Recipe): (r: int)
    ensures |recipe.resources| == 0 ==> r == 0
  {
    FoldCost(resources, recipe.resources, 0)
  }

  /** Reference definition: the sum of the line costs. */
  function SumOfLines(resources: seq<Resource>, lines: seq<RecipeResource>): int
    decreases |lines|
  {
    if |lines| == 0 then 0
    else LineCost(resources, lines[0]) + SumOfLines(resources, lines[1..])
  }

  /** The sum splits over concatenation. */
  lemma {:induction false} SumOfLinesAppend(resources: seq<Resource>, a: seq<RecipeResource>, b: seq<RecipeResource>)
    ensures SumOfLines(resources, a + b) == SumOfLines(resources, a) + SumOfLines(resources, b)
    decreases |a|
  {
    if |a| == 0 {
      assert a + b == b;
    } else {
      assert (a + b)[0] == a[0];
      assert (a + b)[1..] == a[1..] + b;
      SumOfLinesAppend(resources, a[1..], b);
    }
  }

  /** The fold computes the sum: starting from `total` it adds every line. */
  lemma {:induction false} FoldIsSum(resources: seq<Resource>, lines: seq<RecipeResource>, total: int)
    ensures FoldCost(resources, lines, total) == total + SumOfLines(resources, lines)
    decreases |lines|
  {
    if |lines| > 0 {
      var first := LineCost(resources, lines[0]);
      FoldIsSum(resources, lines[1..], total + first);
      assert FoldCost(resources, lines, total) == FoldCost(resources, lines[1..], total + first);
      assert SumOfLines(resources, lines) == first + SumOfLines(resources, lines[1..]);
    }
  }

  /** The cost of a recipe is the sum of its line costs, so the cost of
      concatenated ingredient lists is the sum of their costs, and appending
      a line adds exactly that line's cost. */
  lemma CraftCostAdditive(resources: seq<Resource>, recipe: Recipe, a: seq<RecipeResource>, b: seq<RecipeResource>)
    requires recipe.resources == a + b
    ensures CalculateCraftCost(resources, recipe) ==
              CalculateCraftCost(resources, recipe.(resources := a)) +
              CalculateCraftCost(resources, recipe.(resources := b))
    ensures |b| == 1 ==>
              CalculateCraftCost(resources, recipe) ==
              CalculateCraftCost(resources, recipe.(resources := a)) + LineCost(resources, b[0])
  {
    FoldIsSum(resources, a + b, 0);
    FoldIsSum(resources, a, 0);
    FoldIsSum(resources, b, 0);
    SumOfLinesAppend(resources, a, b);
    if |b| == 1 {
      assert b[1..] == [];
    }
  }

  /** A line naming a resource that is not in the list adds nothing,
      wherever it stands. */
  lemma MissingResourceCostsNothing(resources: seq<Resource>, recipe: Recipe,
                                    a: seq<RecipeResource>, line: RecipeResource, b: seq<RecipeResource>)
    requires recipe.resources == a + [line] + b
    requires forall x :: x in resources ==> x.id != line.resourceId
    ensures CalculateCraftCost(resources, recipe) == CalculateCraftCost(resources, recipe.(resources := a + b))
  {
    FoldIsSum(resources, a + [line] + b, 0);
    FoldIsSum(resources, a + b, 0);
    SumOfLinesAppend(resources, a + [line], b);
    SumOfLinesAppend(resources, a, [line]);
    SumOfLinesAppend(resources, a, b);
    MissingLineSum(resources, line);
  }

  /** The one-line sum of a line whose resource is missing is 0. */
  lemma MissingLineSum(resources: seq<Resource>, line: RecipeResource)
    requires forall x :: x in resources ==> x.id != line.resourceId
    ensures SumOfLines(resources, [line]) == 0
  {
    assert [line][1..] == [];
    assert UnitPrice(resources, line.resourceId) == 0;
  }

  /** With non-negative prices and quantities the cost is non-negative. */
  lemma CraftCostNonNegative(resources: seq<Resource>, recipe: Recipe)
    requires forall x :: x in resources ==> x.unitPrice >= 0
    requires forall l :: l in recipe.resources ==> l.quantity >= 0
    ensures CalculateCraftCost(resources, recipe) >= 0
  {
    forall l | l in recipe.resources
      ensures LineCost(resources, l) >= 0
    {
      assert UnitPrice(resources, l.resourceId) >= 0;
    }
    FoldCostAtLeastStart(resources, recipe.resources, 0);
  }

  /** The two selling channels of `calculateMargin`. */
  datatype MarginKind = Hdv | Merchant

  /** `calculateMargin`: the channel's price minus the craft cost, that is
      minus the sum of the line costs. */
  function CalculateMargin(resources: seq<Resource>, recipe: Recipe, kind: MarginKind): (m: int)
    ensures kind == Hdv ==> m == recipe.hdvPrice - SumOfLines(resources, recipe.resources)
    ensures kind == Merchant ==> m == recipe.merchantPrice - SumOfLines(resources, recipe.resources)
  {
    var cost := CalculateCraftCost(resources, recipe);
    FoldIsSum(resources, recipe.resources, 0);
    var price := if kind == Hdv then recipe.hdvPrice else recipe.merchantPrice;
    price - cost
  }

  /** Adding an ingredient line lowers each margin by exactly that line's
      unit price times its quantity. */
  lemma MarginAppendLine(resources: seq<Resource>, recipe: Recipe, line: RecipeResource, kind: MarginKind)
    ensures CalculateMargin(resources, recipe.(resources := recipe.resources + [line]), kind) ==
              CalculateMargin(resources, recipe, kind) - UnitPrice(resources, line.resourceId) * line.quantity
  {
    SumOfLinesAppend(resources, recipe.resources, [line]);
    assert [line][1..] == [];
  }

  /** With non-negative prices and quantities no margin exceeds its sale
      price. */
  lemma MarginAtMostPrice(resources: seq<Resource>, recipe: Recipe)
    requires forall x :: x in resources ==> x.unitPrice >= 0
    requires forall l :: l in recipe.resources ==> l.quantity >= 0
    ensures CalculateMargin(resources, recipe, Hdv) <= recipe.hdvPrice
    ensures CalculateMargin(resources, recipe, Merchant) <= recipe.merchantPrice
  {
    CraftCostNonNegative(resources, recipe);
  }

  /** The two margins differ by the price gap alone, and a recipe without
      ingredients earns its full price. */
  lemma MarginLaws(resources: seq<Resource>, recipe: Recipe)
    ensures CalculateMargin(resources, recipe, Hdv) - CalculateMargin(resources, recipe, Merchant) ==
              recipe.hdvPrice - recipe.merchantPrice
    ensures |recipe.resources| == 0 ==>
              CalculateMargin(resources, recipe, Hdv) == recipe.hdvPrice &&
              CalculateMargin(resources, recipe, Merchant) == recipe.merchantPrice
  {
  }
}

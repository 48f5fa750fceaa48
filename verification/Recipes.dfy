/**
 * Recipe documents as the generator reads them, and the classifier that
 * decides whether one of them is the recipe that crafts or cuts a slab
 * (datagen.ts `processSlabRecipe` and its helpers).
 */
module Recipes {
  import opened Wrappers

  /**
   * An ingredient object. `item` is None when the object has no `item`
   * field (an ingredient given by tag, or a list of alternatives).
   */
  datatype Ingredient = Ingredient(item: Option<string>)

  /** A recipe result `{item, count}`; `count` is None when the field is absent. */
  datatype ItemStack = ItemStack(item: string, count: Option<int>)

  /**
   * A parsed recipe document, discriminated by its `type` field.
   * - `ShapedCrafting` (`minecraft:crafting_shaped`): pattern rows, the `key`
   *   object as its entries in property order, and the result.
   * - `Stonecutting` (`minecraft:stonecutting`): one ingredient, the result
   *   identifier (`result`, here `resultId`) and the top-level `count` (None when absent).
   * - `Unrecognized`: any other `type`, or none.
   */
  datatype Recipe =
    | ShapedCrafting(pattern: seq<string>, key: seq<(string, Ingredient)>, result: ItemStack)
    | Stonecutting(ingredient: Ingredient, resultId: string, count: Option<int>)
    | Unrecognized

  /** The (slab, block) relation one recipe establishes. */
  datatype SlabPair = SlabPair(slabId: string, blockId: string)

  /**
   * What classifying one document gives: no slab recipe (`null` in the
   * source), a slab recipe, or the TypeError raised when a shaped recipe with
   * a slab pattern has an empty `key` (`recipe.key[undefined].item`).
   */
  datatype Classification = NoMatch | Match(pair: SlabPair) | EmptyKeyError

  /** The `item` of an ingredient is truthy: present and not "". */
  predicate HasItem(ing: Ingredient)
  {
    ing.item.Some? && ing.item.value != ""
  }

  /** Every character of `row` from index `i` on equals `ch` (the loop of datagen.ts:167-171). */
  function SameFrom(row: string, ch: char, i: nat): (b: bool)
    requires i <= |row|
    ensures b <==> forall k :: i <= k < |row| ==> row[k] == ch
    decreases |row| - i
  {
    if i == |row| then true
    else row[i] == ch && SameFrom(row, ch, i + 1)
  }

  /**
   * The slab shape test (datagen.ts `isSlabPattern`): one row of three equal
   * characters. A row of three blanks passes; nothing here excludes ' '.
   */
  function IsSlabPattern(pattern: seq<string>): (b: bool)
    ensures b <==> |pattern| == 1 && |pattern[0]| == 3
                   && pattern[0][1] == pattern[0][0] && pattern[0][2] == pattern[0][0]
  {
    if |pattern| != 1 || |pattern[0]| != 3 then false
    else SameFrom(pattern[0], pattern[0][0], 1)
  }

  /** The blank row "   " counts as a slab pattern. */
  lemma BlankRowIsSlabPattern()
    ensures IsSlabPattern(["   "])
  {
  }

  /**
   * datagen.ts `processStoneCutterSlabRecipe`: a stonecutting recipe names a
   * slab when it yields two and its ingredient names an item.
   */
  function ProcessStoneCutterSlabRecipe(recipe: Recipe): (c: Classification)
    requires recipe.Stonecutting?
    ensures c != EmptyKeyError
    ensures c.Match? <==> recipe.count == Some(2) && HasItem(recipe.ingredient)
    ensures c.Match? ==> c.pair == SlabPair(recipe.resultId, recipe.ingredient.item.value)
  {
    if recipe.count != Some(2) then NoMatch
    else if !HasItem(recipe.ingredient) then NoMatch
    else Match(SlabPair(recipe.resultId, recipe.ingredient.item.value))
  }

  /**
   * datagen.ts `processCraftingSlabRecipe`: a shaped recipe names a slab when
   * its pattern is a slab pattern, the FIRST key entry names an item, and it
   * yields six. The first entry is taken whatever symbol the pattern uses.
   */
  function ProcessCraftingSlabRecipe(recipe: Recipe): (c: Classification)
    ensures c == EmptyKeyError <==>
              recipe.ShapedCrafting? && IsSlabPattern(recipe.pattern) && |recipe.key| == 0
    ensures c.Match? <==>
              && recipe.ShapedCrafting? && IsSlabPattern(recipe.pattern) && |recipe.key| > 0
              && HasItem(recipe.key[0].1) && recipe.result.count == Some(6)
    ensures c.Match? ==> c.pair == SlabPair(recipe.result.item, recipe.key[0].1.item.value)
  {
    if !recipe.ShapedCrafting? then NoMatch
    else if !IsSlabPattern(recipe.pattern) then NoMatch
    else if |recipe.key| == 0 then EmptyKeyError
    else
      var ing := recipe.key[0].1;
      if !HasItem(ing) then NoMatch
      else if recipe.result.count != Some(6) then NoMatch
      else Match(SlabPair(recipe.result.item, ing.item.value))
  }

  /**
   * The independent description of a slab recipe: which pairs a document
   * establishes, read off the document without the classifier's control flow.
   */
  ghost predicate Establishes(recipe: Recipe, p: SlabPair)
  {
    match recipe
    case Stonecutting(ing, result, count) =>
      count == Some(2) && ing.item == Some(p.blockId) && p.blockId != "" && result == p.slabId
    case ShapedCrafting(pattern, key, result) =>
      && |pattern| == 1 && |pattern[0]| == 3
      && (forall k :: 0 <= k < 3 ==> pattern[0][k] == pattern[0][0])
      && |key| > 0 && key[0].1.item == Some(p.blockId) && p.blockId != ""
      && result == ItemStack(p.slabId, Some(6))
    case Unrecognized => false
  }

  /**
   * datagen.ts `processSlabRecipe`: dispatch on the document type. The result
   * is a match exactly for the pairs the document establishes, and the only
   * failure is a shaped slab pattern with an empty key.
   */
  function ProcessSlabRecipe(recipe: Recipe): (c: Classification)
    ensures c.Match? ==> Establishes(recipe, c.pair)
    ensures forall p :: Establishes(recipe, p) ==> c == Match(p)
    ensures c == EmptyKeyError <==>
              recipe.ShapedCrafting? && IsSlabPattern(recipe.pattern) && |recipe.key| == 0
    ensures recipe.Unrecognized? ==> c == NoMatch
  {
    match recipe
    case ShapedCrafting(_, _, _) => ProcessCraftingSlabRecipe(recipe)
    case Stonecutting(_, _, _) => ProcessStoneCutterSlabRecipe(recipe)
    case Unrecognized => NoMatch
  }

  /** A document establishes at most one pair. */
  lemma EstablishesFunctional(recipe: Recipe, p: SlabPair, q: SlabPair)
    requires Establishes(recipe, p) && Establishes(recipe, q)
    ensures p == q
  {
    assert ProcessSlabRecipe(recipe) == Match(p);
  }

  /** The vanilla-style shaped slab recipe: `sym sym sym` over the block, yielding six. */
  function ShapedSlabRecipe(sym: char, p: SlabPair): Recipe
  {
    ShapedCrafting([[sym, sym, sym]], [([sym], Ingredient(Some(p.blockId)))], ItemStack(p.slabId, Some(6)))
  }

  /** The stonecutting slab recipe: the block cut into two slabs. */
  function StonecutSlabRecipe(p: SlabPair): Recipe
  {
    Stonecutting(Ingredient(Some(p.blockId)), p.slabId, Some(2))
  }

  /**
   * Writing a slab recipe and classifying it gives the pair back, for either
   * kind and any pattern symbol, blank included; a pair with an empty block
   * is never recovered.
   */
  lemma {:induction false} ClassifyWrittenSlabRecipe(sym: char, p: SlabPair)
    ensures ProcessSlabRecipe(ShapedSlabRecipe(sym, p)) == (if p.blockId != "" then Match(p) else NoMatch)
    ensures ProcessSlabRecipe(StonecutSlabRecipe(p)) == (if p.blockId != "" then Match(p) else NoMatch)
  {
    var r := ShapedSlabRecipe(sym, p);
    assert IsSlabPattern(r.pattern);
    if p.blockId != "" {
      assert Establishes(r, p);
      assert Establishes(StonecutSlabRecipe(p), p);
    }
  }

  /**
   * The block comes from the first key entry even when the pattern uses the
   * symbol of another entry.
   */
  lemma FirstKeyEntryWins(first: string, other: string, slab: string)
    requires first != ""
    ensures ProcessSlabRecipe(ShapedCrafting(["###"],
                                             [("X", Ingredient(Some(first))), ("#", Ingredient(Some(other)))],
                                             ItemStack(slab, Some(6))))
            == Match(SlabPair(slab, first))
  {
  }
}

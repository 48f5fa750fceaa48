/**
 * The output loop (datagen.ts:56-102): for each slab of the slab set that
 * has a block, one shaped recipe turning two slabs back into the block,
 * gated on the mods it needs.
 */
module Synthesis {
  import opened Wrappers
  import opened Ids
  import opened Recipes
  import opened RunContext

  /** One `forge:mod_loaded` condition. */
  datatype Condition = Condition(conditionType: string, modid: string)

  /**
   * The generated recipe document. `conditions` is None when the field is
   * left `undefined`, which `JSON.stringify` omits.
   */
  datatype SlabToBlockRecipe = SlabToBlockRecipe(
    recipeType: string,
    group: string,
    pattern: seq<string>,
    key: seq<(string, string)>,
    resultItem: string,
    resultCount: int,
    conditions: Option<seq<Condition>>)

  /** A file the run writes: its path under the output directory and its document. */
  datatype OutputFile = OutputFile(path: string, recipe: SlabToBlockRecipe)

  /**
   * The mods the recipe waits for (datagen.ts:64-73): the slab's mod unless it
   * is `minecraft`, then the block's mod unless it is `minecraft` or already
   * listed.
   */
  function ModsToGate(slabId: string, blockId: string): (mods: seq<string>)
    ensures "minecraft" !in mods
    ensures NoDup(mods)
    ensures |mods| <= 2
    ensures Members(mods) == {GetModId(slabId), GetModId(blockId)} - {"minecraft"}
    ensures GetModId(slabId) != "minecraft" ==> |mods| >= 1 && mods[0] == GetModId(slabId)
  {
    var slabMod, blockMod := GetModId(slabId), GetModId(blockId);
    var mods := if slabMod != "minecraft" then [slabMod] else [];
    if blockMod != "minecraft" && blockMod !in mods then mods + [blockMod] else mods
  }

  /** The mod ids a generated recipe is gated on. */
  function GatedMods(r: SlabToBlockRecipe): set<string>
  {
    if r.conditions.None? then {} else set c | c in r.conditions.value :: c.modid
  }

  /**
   * The recipe generated for a slab and its block (datagen.ts:75-96): two
   * slabs side by side give one block; the condition list, present only when
   * non-empty, holds one `forge:mod_loaded` entry per non-vanilla mod of the
   * slab and the block.
   */
  function BuildRecipe(slabId: string, blockId: string): (r: SlabToBlockRecipe)
    ensures r.recipeType == "minecraft:crafting_shaped" && r.group == "slab_to_block"
    ensures r.pattern == ["##"] && r.key == [("#", slabId)]
    ensures r.resultItem == blockId && r.resultCount == 1
    ensures r.conditions.Some? ==> |r.conditions.value| > 0
    ensures r.conditions.Some? ==> forall c :: c in r.conditions.value ==> c.conditionType == "forge:mod_loaded"
    ensures GatedMods(r) == {GetModId(slabId), GetModId(blockId)} - {"minecraft"}
    ensures r.conditions.None? <==> GetModId(slabId) == "minecraft" && GetModId(blockId) == "minecraft"
    ensures r.conditions.Some? ==> |r.conditions.value| <= 2
    ensures r.conditions.Some? ==>
              forall i, j :: 0 <= i < j < |r.conditions.value| ==> r.conditions.value[i].modid != r.conditions.value[j].modid
    ensures GetModId(slabId) != "minecraft" ==> r.conditions.Some? && r.conditions.value[0].modid == GetModId(slabId)
  {
    var mods := ModsToGate(slabId, blockId);
    SlabToBlockRecipe("minecraft:crafting_shaped", "slab_to_block", ["##"], [("#", slabId)],
                      blockId, 1, if |mods| == 0 then None else Some(ModLoadedConditions(mods)))
  }

  /** `mods.map(mod => ({type: 'forge:mod_loaded', modid: mod}))` (datagen.ts:90-95). */
  function ModLoadedConditions(mods: seq<string>): (cs: seq<Condition>)
    ensures |cs| == |mods|
    ensures forall i :: 0 <= i < |mods| ==> cs[i] == Condition("forge:mod_loaded", mods[i])
    ensures forall c :: c in cs ==> c.conditionType == "forge:mod_loaded"
    ensures (set c | c in cs :: c.modid) == Members(mods)
    decreases |mods|
  {
    if mods == [] then []
    else
      var rest := ModLoadedConditions(mods[1..]);
      var cs := [Condition("forge:mod_loaded", mods[0])] + rest;
      assert Members(mods) == {mods[0]} + Members(mods[1..]);
      assert (set c | c in cs :: c.modid) == {mods[0]} + (set c | c in rest :: c.modid);
      cs
  }

  /** The output path of a slab's recipe (datagen.ts:99-101). */
  function OutputPath(slabId: string): (path: string)
    ensures |path| > 27 && path[..27] == "data/slab-to-block/recipes/"
    ensures path[27..] == RecipeFileName(slabId) && path[|path| - 5..] == ".json"
  {
    "data/slab-to-block/recipes/" + RecipeFileName(slabId)
  }

  /** The file written for a slab and its block. */
  function FileFor(slabId: string, blockId: string): OutputFile
  {
    OutputFile(OutputPath(slabId), BuildRecipe(slabId, blockId))
  }

  /**
   * The block lookup of datagen.ts:57-59 succeeds: the slab has a truthy
   * block. When every stored block is non-empty this is plain membership.
   */
  function HasBlock(m: map<string, string>, slabId: string): (found: bool)
    ensures found ==> slabId in m && m[slabId] != ""
    ensures slabId !in m ==> !found
    ensures NonEmptyValues(m) ==> (found <==> slabId in m)
  {
    slabId in m && m[slabId] != ""
  }

  /** The slab a generated file turns back into its block: the item bound to '#'. */
  function SlabOf(f: OutputFile): string
    requires |f.recipe.key| > 0
  {
    f.recipe.key[0].1
  }

  /** What the output loop produces: the files in order and the slabs it reports. */
  datatype Synthesized = Synthesized(files: seq<OutputFile>, log: seq<Diagnostic>)

  /**
   * The output loop over the slab set in order. Every slab with a block gets
   * its file, every file belongs to such a slab, and every slab without one
   * is reported instead.
   */
  function Synthesize(slabs: seq<string>, m: map<string, string>): (r: Synthesized)
    ensures |r.files| + |r.log| == |slabs|
    ensures forall s :: s in slabs && HasBlock(m, s) ==> FileFor(s, m[s]) in r.files
    ensures forall f :: f in r.files ==>
              |f.recipe.key| > 0 && SlabOf(f) in slabs && HasBlock(m, SlabOf(f)) && f == FileFor(SlabOf(f), m[SlabOf(f)])
    ensures forall s :: s in slabs && !HasBlock(m, s) ==> NoBlockFor(s) in r.log
    ensures forall d :: d in r.log ==> d.NoBlockFor? && d.slabId in slabs && !HasBlock(m, d.slabId)
    decreases |slabs|
  {
    if slabs == [] then Synthesized([], [])
    else
      var rest := Synthesize(slabs[1..], m);
      var s := slabs[0];
      if HasBlock(m, s) then Synthesized([FileFor(s, m[s])] + rest.files, rest.log)
      else Synthesized(rest.files, [NoBlockFor(s)] + rest.log)
  }

  /** Distinct slabs whose mod ids hold no '_' are written to distinct paths. */
  lemma OutputPathInjective(a: string, b: string)
    requires ':' in a && ':' in b
    requires '_' !in GetModId(a) && '_' !in GetModId(b)
    requires a != b
    ensures OutputPath(a) != OutputPath(b)
  {
    var dir := "data/slab-to-block/recipes/";
    if OutputPath(a) == OutputPath(b) {
      assert (dir + RecipeFileName(a))[|dir|..] == RecipeFileName(a);
      assert (dir + RecipeFileName(b))[|dir|..] == RecipeFileName(b);
      FileNameInjective(a, b);
    }
  }

  /** No two files share a path. */
  predicate DistinctPaths(files: seq<OutputFile>)
  {
    forall i, j :: 0 <= i < j < |files| ==> files[i].path != files[j].path
  }

  /**
   * No generated file overwrites another, as long as the slab identifiers are
   * namespaced and their mod ids hold no '_' (see `FileNameCollision` for why
   * the restriction is needed).
   */
  lemma {:induction false} OutputPathsDistinct(slabs: seq<string>, m: map<string, string>)
    requires NoDup(slabs)
    requires forall s :: s in slabs ==> ':' in s && '_' !in GetModId(s)
    ensures DistinctPaths(Synthesize(slabs, m).files)
    decreases |slabs|
  {
    if slabs != [] {
      var rest := Synthesize(slabs[1..], m).files;
      OutputPathsDistinct(slabs[1..], m);
      var s0 := slabs[0];
      if HasBlock(m, s0) {
        var f0 := FileFor(s0, m[s0]);
        forall j | 0 <= j < |rest|
          ensures f0.path != rest[j].path
        {
          assert rest[j] in rest;
          var s := SlabOf(rest[j]);
          var k :| 0 <= k < |slabs[1..]| && slabs[1..][k] == s;
          assert slabs[k + 1] == s;
          OutputPathInjective(s0, s);
        }
        DistinctPathsCons(f0, rest);
      }
    }
  }

  /** Putting a file with a fresh path in front keeps the paths distinct. */
  lemma DistinctPathsCons(f0: OutputFile, rest: seq<OutputFile>)
    requires DistinctPaths(rest)
    requires forall j :: 0 <= j < |rest| ==> f0.path != rest[j].path
    ensures DistinctPaths([f0] + rest)
  {
    var files := [f0] + rest;
    forall i, j | 0 <= i < j < |files|
      ensures files[i].path != files[j].path
    {
      assert files[j] == rest[j - 1];
      if i > 0 {
        assert files[i] == rest[i - 1];
      }
    }
  }

  /** A generated recipe read back as an input document. */
  function AsInput(r: SlabToBlockRecipe): Recipe
  {
    ShapedCrafting(r.pattern, seq(|r.key|, i requires 0 <= i < |r.key| => (r.key[i].0, Ingredient(Some(r.key[i].1)))),
                   ItemStack(r.resultItem, Some(r.resultCount)))
  }

  /**
   * Generated recipes are inert to the classifier: fed back in as input they
   * name no slab, so running the generator over its own output maps nothing.
   */
  lemma GeneratedRecipeIsNotASlabRecipe(slabId: string, blockId: string)
    ensures ProcessSlabRecipe(AsInput(BuildRecipe(slabId, blockId))) == NoMatch
  {
    var r := AsInput(BuildRecipe(slabId, blockId));
    assert |r.pattern[0]| == 2;
  }
}

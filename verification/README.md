# Slab-to-block recipe generator, modelled in Dafny

The generator reads a directory of Minecraft mod archives. From each archive it
takes two things: the item tag `data/minecraft/tags/items/slabs.json`, which
lists the slab items, and the recipe files. From the recipes it infers which
block each slab is made from. It does this by recognising the recipes that
turn a block into slabs: a shaped `###` recipe yielding six, or a stonecutting
recipe yielding two. For every tagged slab that has a block, it then writes a
shaped recipe that turns two slabs back into one block. That recipe is gated
by `forge:mod_loaded` conditions on the non-vanilla mods involved.

This project models that logic as pure functions over immutable datatypes.
There are four parts:

- the recipe classifier;
- the reconciler, which folds classified pairs into the slab→block map with
  "first seen wins";
- the slab-set accumulation over the archives;
- the synthesiser, which builds the output documents and file names.

The run is one sequential fold: over archives, then over each archive's
members, then over the slab set.

Modules (one file each):

- `Wrappers`: `Option`, `Result`, `Members`, `NoDup`, and two small sequence lemmas.
- `Ids`: `indexOf`, `substr` and `replace` as JavaScript defines them for a
  one-character search string and a replacement without `$` patterns. Also the
  mod id of an identifier, the output file name, and the recipe-path regular
  expression.
- `Recipes`: parsed recipe documents and the classifier.
- `RunContext`: the run state (slab set, mapping, reports), reports and faults.
- `Reconciler`: one reconcile step and the per-archive recipe loop.
- `Archives`: tag handling and the archive loop.
- `Synthesis`: the gating list, the generated recipe, the output loop.
- `Datagen`: the whole run.

The classifier and the reconciler are checked against independent
descriptions:

- `Recipes.Establishes` states, without the classifier's control flow, which
  (slab, block) pair a document establishes.
- `Reconciler.FirstMatch` gives, for each slab, the block of the first
  recipe, in encounter order, that names it.

`Datagen.RunWritesFirstSeenBlocks` ties the whole run to these two
descriptions.

Behaviours of the code worth knowing, all of which the model keeps:

- The slab shape test does not reject a blank symbol: `"   "` passes.
- The crafting classifier takes the item of the first entry of `key` in
  property order. It does not look for the entry matching the pattern symbol.
- Tag values are copied verbatim. A `#` reference is not expanded.
- An identifier without `:` has mod id `""` (`substr(0, -1)`). It is not
  treated as vanilla, so the generated recipe is gated on a mod named `""`.
- Only slabs are handled: there are no stairs in the code.

The file-name rule replaces only the first `:` by `__`. Two distinct slab ids
can therefore share an output file: `a__b:c` and `a:b__c` both become
`a__b__c.json`, and the later write replaces the earlier one. See
`Ids.FileNameCollision`. An id without `:` collides too, even with no `_` in
any mod id: `a__b` (mod id `""`) and `a:b` both become `a__b.json`. See
`Ids.UnqualifiedFileNameCollision`. When slab ids are namespaced and their mod
ids hold no `_`, distinct slab ids always get distinct files: see
`Ids.FileNameInjective` and `Datagen.RunPathsDistinct`.

## Model

| member | source | states |
|---|---|---|
| `Ids.IndexOf` | datagen.ts:106 | The result is -1 exactly when the character is absent. Otherwise it is a position holding the character, with no earlier occurrence. |
| `Ids.Substr` | datagen.ts:107 | `substr(start, length)` gives the slice `[start, start+length)` when that slice is in range. A non-positive length gives `""`. |
| `Ids.GetModId` | datagen.ts:105-108 | The mod id is the prefix of the identifier that ends just before its first `:`, and it holds no `:`. An identifier without `:` gives `""`. |
| `Ids.ModIdOfNamespaced` | datagen.ts:105-108 | The mod id of `ns:name` is `ns`, whatever `name` holds. |
| `Ids.ReplaceFirst` | datagen.ts:99 | `replace(':', '__')` replaces only the first occurrence. Text without one is unchanged. |
| `Ids.RecipeFileName` | datagen.ts:99 | The file name is the mod id, `__`, the rest of the id after its first `:`, then `.json`. An id without `:` just gains `.json`. |
| `Ids.FileNameOfNamespaced` | datagen.ts:99 | The file name of `ns:name` is `ns__name.json`. |
| `Ids.FileNameInjective` | datagen.ts:99 | Two namespaced ids whose mod ids hold no `_` and that get the same file name are the same id. |
| `Ids.FileNameCollision` | datagen.ts:99 | Without that restriction the naming collides: `a__b:c` and `a:b__c` differ but share a file name. |
| `Ids.UnqualifiedFileNameCollision` | datagen.ts:99-108 | An id without `:` collides with a namespaced one even when no mod id holds `_`: `a__b` has mod id `""`, `a:b` has mod id `a`, and both get `a__b.json`. |
| `Ids.IsRecipePath` | datagen.ts:31 | An accepted member path is at least 21 characters long, the length of the shortest path the expression admits (`data/n/recipes/r.json`). |
| `Ids.AcceptedPathShape` | datagen.ts:31 | An accepted member path starts with `data/` and ends with `.json`. |
| `Ids.IsRecipePathMatchesPattern` | datagen.ts:31 | The deterministic path filter accepts a path exactly when `^data\/[^/]+\/recipes\/.+\.json$` matches it, with `.` excluding line terminators. |
| `Ids.AcceptedPathMatches` | datagen.ts:31 | Soundness direction: an accepted path splits into `data/`, a `/`-free non-empty namespace, `/recipes/`, a name `.+` matches, and `.json`. The lemma returns that namespace and name. |
| `Ids.MatchingPathAccepted` | datagen.ts:31 | Completeness direction: every path of that shape is accepted. |
| `Recipes.SameFrom` | datagen.ts:166-171 | The character loop holds exactly when every character from the start index on equals the first. |
| `Recipes.IsSlabPattern` | datagen.ts:160-174 | A pattern is a slab pattern iff it has one row, the row has length 3, and all three characters are equal. |
| `Recipes.BlankRowIsSlabPattern` | datagen.ts:160-174 | The blank row `"   "` is a slab pattern. |
| `Recipes.ProcessStoneCutterSlabRecipe` | datagen.ts:122-135 | A stonecutting recipe matches iff its count is 2 and its ingredient item is present and non-empty. The pair is then (result, ingredient item). It never throws. |
| `Recipes.ProcessCraftingSlabRecipe` | datagen.ts:137-158 | It throws iff the recipe is shaped, has a slab pattern and an empty key. It matches iff the recipe is shaped, has a slab pattern, the first key entry's item is present and non-empty, and the result count is 6. The pair is then (result item, first entry's item). |
| `Recipes.ProcessSlabRecipe` | datagen.ts:110-120 | The classifier matches exactly the pairs `Establishes` describes. It throws only on a shaped slab pattern with an empty key. Any other type gives no match. |
| `Recipes.EstablishesFunctional` | datagen.ts:110-158 | A document establishes at most one (slab, block) pair. |
| `Recipes.ClassifyWrittenSlabRecipe` | datagen.ts:110-158 | Round trip: a shaped `sss` recipe yielding six, or a stonecutting recipe yielding two, classifies back to its pair for any symbol, blank included. This holds iff the block is non-empty; otherwise there is no match. |
| `Recipes.FirstKeyEntryWins` | datagen.ts:146 | The block comes from the first key entry even when the pattern uses another entry's symbol. |
| `Reconciler.Classify` | datagen.ts:31-37 | A member outside the recipe filter never matches and never throws. It throws iff it passes the filter and its document is a shaped slab pattern with an empty key. |
| `Reconciler.ClassifyMatchesEstablished` | datagen.ts:31-37 | A member classifies as a given pair iff it passes the recipe filter and its document establishes that pair. |
| `Reconciler.Reconcile` | datagen.ts:42-52 | An unmapped slab is mapped to the new block. A mapped slab keeps its block. A report is emitted iff the blocks differ and the recipe is not stonecutting. No other key changes. |
| `Reconciler.ScanRecipes` | datagen.ts:33-53 | The recipe loop leaves the slab set alone and keeps every existing mapping. It keeps blocks non-empty. The log keeps every earlier report as its prefix. A failure is always the empty-key error of this archive. |
| `Reconciler.ScanRecipesFirstSeenWins` | datagen.ts:33-53 | After the loop, a previously mapped slab keeps its block. An unmapped slab is mapped iff some recipe file names it, and then to the block of the first such file. |
| `Reconciler.ScanRecipesFaultIff` | datagen.ts:33-53 | The loop aborts iff some member passes the recipe filter and its classification throws. |
| `Reconciler.AbsorbReports` | datagen.ts:42-52 | One absorbed slab recipe adds exactly one report when it is not stonecutting and its block differs from the one its slab ends with: `Conflict(slab, that block, its block)`. Otherwise it adds none. Its slab is mapped from then on. |
| `Reconciler.ConflictReportsExtend` | datagen.ts:42-52 | Once every recipe's slab is mapped, a later mapping that keeps every block judges the same conflicts. |
| `Reconciler.ScanRecipesReports` | datagen.ts:33-53 | The recipe loop's log is the earlier log followed by exactly one `Conflict` per non-stonecutting slab recipe whose block differs from its slab's final block, in member order. Nothing else is logged. |
| `Reconciler.FirstSeenIsFirstMatch` | datagen.ts:42-52 | The mapping `FirstSeen` builds from the members agrees, slab by slab, with the first-match reference definition. |
| `Archives.AssertsReplace` | datagen.ts:24 | Only a string `replace` can fail the assertion, and only the string `"true"` does. A boolean `true` passes. |
| `Archives.AddSlabs` | datagen.ts:26-28 | Adding the tag values keeps the set free of repeats and keeps earlier members in order. It adds exactly the values. |
| `Archives.ScanArchive` | datagen.ts:17-53 | A missing tag is reported and changes nothing else; its recipes are not read. A tag whose `replace` is the string `"true"` aborts the run. Otherwise the slab set grows by exactly the tag's values and existing mappings are kept. Earlier reports stay a prefix of the log. The step fails iff the archive is faulty. |
| `Archives.ScanArchives` | datagen.ts:13-54 | A finished archive loop has collected exactly the values of the tags present, without repeats. It never remaps a slab and keeps blocks non-empty. Earlier reports stay a prefix of the log. |
| `Archives.ScanArchivesFaultIff` | datagen.ts:13-54 | The archive loop aborts iff some archive is faulty: it has a slab tag, and that tag asserts replace or one of its recipe files throws. |
| `Archives.ScanArchivesFirstSeenWins` | datagen.ts:13-54 | First seen wins across archives: each unmapped slab ends up mapped to the block of the first slab recipe naming it, among the recipe files of tagged archives in order, or to nothing. |
| `Archives.ArchiveReportsExtend` | datagen.ts:42-52 | Across archives, a later mapping that keeps every block judges the same reports. |
| `Archives.ScanArchiveReports` | datagen.ts:17-53 | One archive logs its `MissingSlabTag` report when it has no slab tag. Otherwise it logs the conflicts of its recipe files, judged against any later mapping that keeps its blocks. |
| `Archives.ScanArchivesReports` | datagen.ts:13-54 | The archive loop's log is the earlier log followed by exactly the reports of each archive in order: a missing-tag report, or the recipe conflicts judged against the final mapping. |
| `Archives.ScanArchivesReportsMissingTags` | datagen.ts:17-19 | A finished archive loop has logged `MissingSlabTag` for every archive without the slab tag. |
| `Synthesis.ModsToGate` | datagen.ts:64-73 | The gating list never holds `minecraft`, has no repeats and at most two entries. It holds exactly the non-vanilla mod ids of the slab and the block, with the slab's mod first when it is not vanilla. |
| `Synthesis.ModLoadedConditions` | datagen.ts:90-95 | Element by element, the i-th condition is `forge:mod_loaded` for the i-th listed mod. So the list keeps the mods' order and length and names exactly the listed mods. |
| `Synthesis.BuildRecipe` | datagen.ts:75-96 | The output is a shaped recipe with pattern `["##"]`, `#` bound to the slab, and the block as result with count 1. The conditions are omitted exactly when both mods are `minecraft`. Otherwise the list has at most two entries, repeats no mod id, and lists the slab's mod first when that mod is not `minecraft`. It gates exactly on the non-vanilla mods of the slab and the block. |
| `Synthesis.Synthesize` | datagen.ts:56-62 | Each slab of the set with a truthy block gets its file. Every file belongs to such a slab. Every slab without one is reported instead. |
| `Synthesis.HasBlock` | datagen.ts:57-59 | The lookup succeeds only for a slab mapped to a non-empty block. When every stored block is non-empty, the falsy-block test is plain absence from the map. |
| `Synthesis.OutputPath` | datagen.ts:99-101 | The path is the file name under `data/slab-to-block/recipes/` and ends in `.json`. |
| `Synthesis.OutputPathInjective` | datagen.ts:99-101 | Distinct namespaced slabs whose mod ids hold no `_` get distinct output paths. |
| `Synthesis.OutputPathsDistinct` | datagen.ts:56-101 | Under that restriction, no two generated files share a path. |
| `Synthesis.GeneratedRecipeIsNotASlabRecipe` | datagen.ts:75-96 | A generated recipe, read back as input, is not classified as a slab recipe. |
| `Datagen.Run` | datagen.ts:8-103 | A run aborts, writing nothing, iff some archive is faulty. |
| `Datagen.RunWritesFirstSeenBlocks` | datagen.ts:8-103 | A finished run writes one file for each tagged slab that some read recipe names, carrying the first such recipe's block, and no other file. It reports each tagged slab that no recipe names. |
| `Datagen.RunReports` | datagen.ts:13-61 | A finished run's log starts with the reports read off the archives alone: each missing tag, and each conflict of a read recipe with the block first seen for its slab, in order. After them it holds only `NoBlockFor` reports, each for a tagged slab that no read recipe names. Every archive without the slab tag is reported. |
| `Datagen.RunPathsDistinct` | datagen.ts:56-101 | If every tagged slab is namespaced with a `_`-free mod id, no two written files share a path. |

## Left out

- Reading the mods directory and the zip archives, and writing the output files, are not modelled. An archive is a value: its name, its optional slab tag, and its members as (path, parsed document) pairs in archive order. The output is a list of (path, document) values, with the path relative to the script directory.
- `JSON.parse` and `JSON.stringify` with 2-space indentation are not modelled. Documents are already-parsed datatypes, and malformed JSON is outside the model.
- Documents that lack a field the code dereferences are not modelled: a tag without `values`, a stonecutting recipe without `ingredient`, a shaped recipe without `pattern`, `key` or `result`, or a `null` key value. In JavaScript these throw or misbehave, but the typed records here cannot express them. The one such crash the classifier can reach on well-typed data, an empty `key`, is modelled as a fault.
- JavaScript's ordering of integer-like object keys is not modelled. `Object.keys` lists such keys first, before the others. It belongs to parsing: the `key` sequence is taken to be in `Object.keys` order already.
- String lengths are counted in Unicode characters, not in UTF-16 code units as in JavaScript. A pattern row holding a character outside the Basic Multilingual Plane therefore has a different length here.
- Counts are integers. A missing count is `None`, and a fractional count is not representable.
- The async wrapper and promise sequencing are not modelled. Archives and members are processed strictly in order, as the code awaits each step.
- Report texts from `console.error` are not modelled. Reports are data (`MissingSlabTag`, `Conflict`, `NoBlockFor`). On an abort the model returns only the fault, not the reports printed before it.
- Stairs and recursive `#` tag resolution are not modelled, because the code does not have them.
- Tag values that are not strings are not modelled, for example `{"id": "mod:x_slab", "required": false}`. The code adds such an object itself to the slab set, and its lookup then never finds a block. So the object is always reported, even when a recipe names its `id`. Here `values` is a list of strings.
- A shaped recipe whose `result` has no `item` is not modelled. The code classifies it with slab id `undefined`. It then stores a block under that key and can report conflicts for it, but never writes a file for it. Here `ItemStack.item` is always a string.
- Datagen.RunPathsDistinct: paths are compared as the strings passed to `path.join`, before its normalisation of `./`, `../` and `//`. So `a:b/./c` and `a:b/c` have distinct path strings but write the same file.
- Synthesis.OutputPathsDistinct: likewise, it states that the path strings differ, not that the normalised file paths differ.
- Ids.Substr: its contract covers only in-range slices and non-positive lengths, the only cases `getModId` uses. Negative or overlong starts are computed by the body but not stated.
- Reconciler.ScanRecipes: on failure, its contract names the archive but not which member threw. `ScanRecipesFaultIff` states when it fails.
- Synthesis.Synthesize: its contract states which files are written and which slabs are reported, but not their order. The body keeps the order of the slab set.

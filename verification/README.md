# Spellbind scroll-recipe patcher, modelled in Dafny

The Spellbind patcher is a Synthesis patcher for Skyrim SE. For every book
winning override that teaches a spell, it looks for the first scroll whose
number of base effects equals the size of the spell's resolved effect set and
whose every base effect is in that set and resolves. It then adds a crafting recipe to the patch. The recipe makes
one of that scroll at the Spellbind scroll craft station. It consumes one paper
roll and 1 to 3 soul gem shards. The shard count comes from the highest minimum
skill level among the scroll's effects. The recipe is unlocked once the player
knows the spell.

This project models the body of `RunPatch` and the `ShardCosts` table as pure
functions over an immutable snapshot of the load order:

- `wrappers.dfy` (`Wrappers`): `Option` and `Result`. An exception becomes a
  `Failure`.
- `records.dfy` (`Records`): form keys, magic effects, spells, scrolls, books,
  the link cache and the recipe record. The link cache is one partial map per
  resolved record type (a set for misc items, where only presence is read).
  The file also holds the error kinds and the two Spellbind form keys.
- `effect_sets.dfy` (`EffectSets`): the `spellEffects` hash set, the scroll
  predicate as written, and the `FirstOrDefault` search.
- `shard_costs.dfy` (`ShardCosts`): `Max` over the scroll's effect levels, the
  unsigned floor to a multiple of 25, and the dictionary lookup.
- `editor_ids.dfy` (`EditorIds`): the editor id. This is the prefix
  `GN_CraftScroll_` plus `Regex.Replace(name + formKey, "[^A-z0-9_]+", "")`.
  The regex replacement is modelled run by run and proved equal to a
  per-character filter.
- `synthesis.dfy` (`Synthesis`): the effect of the loop over books as a fold,
  generic in what one book contributes. Recipes are appended in book order,
  and the first fatal outcome aborts the run.
- `patcher.dfy` (`Patcher`): one book's outcome, the recipe's fixed shape, the
  shard precondition, and `RunPatch` both as a function and as statements
  (the shard check, then a loop that runs one book's statements per
  iteration).
- `scenarios.dfy` (`Scenarios`): three worked runs over one-book snapshots.

Three behaviours of the code are worth knowing:

- The scroll predicate is neither set equality nor symmetric. It compares the
  scroll's raw effect count with the size of the spell's deduplicated set, then
  checks that each scroll effect is in that set and resolves. So a scroll that
  lists `E1` twice matches a spell with effects `{E1, E2}`, while swapping the
  two gives no match (`DuplicateScrollEffectMatches`). For a scroll without
  repeated effects, the predicate holds exactly when the scroll's effect set
  equals the spell's and every scroll effect resolves
  (`DistinctMatchIffSameEffects`).
- The character class `[A-z0-9_]` also keeps `[ \ ] ^` and the backtick, which
  lie between `Z` and `a` (`KeptClassBoundary`).
- The comment at `SpellbindPatcher/Program.cs:81` promises a cost of 1 when no
  level can be found. No code implements it. A matched scroll with no effects
  makes `Max` throw, which aborts the whole run, and the model says so.

## Model

| member | source | states |
|---|---|---|
| EffectSets.EffectSet | SpellbindPatcher/Program.cs:67-71 | a link is in the spell's effect set exactly when the spell lists it and it resolves; dangling links are dropped; no more elements than links |
| EffectSets.Matches | SpellbindPatcher/Program.cs:74-76 | the scroll predicate as written: the scroll's raw link count equals the size of the spell's effect set, and every scroll link is in that set and resolves; its meaning is given by DistinctMatchIffSameEffects and DuplicateScrollEffectMatches |
| EffectSets.FirstMatchIndex | SpellbindPatcher/Program.cs:73-76 | the index found is that of a matching scroll with no matching scroll before it; no index exactly when no scroll matches |
| EffectSets.FirstMatch | SpellbindPatcher/Program.cs:73-78 | `FirstOrDefault` gives no scroll exactly when none satisfies the predicate; otherwise the scroll satisfies it and occurs at a position with no earlier matching scroll |
| EffectSets.ResolveConjunctRedundant | SpellbindPatcher/Program.cs:74-76 | against an extracted effect set, the "resolves" conjunct adds nothing to the count and containment conjuncts |
| EffectSets.DistinctMatchIffSameEffects | SpellbindPatcher/Program.cs:74-76 | for a scroll without repeated links, the predicate holds iff the scroll's effect set equals the spell's and every scroll link resolves |
| EffectSets.DuplicateScrollEffectMatches | SpellbindPatcher/Program.cs:74-76 | a scroll listing E1 twice matches the spell set {E1, E2} although their effect sets differ; swapping the roles gives no match |
| EffectSets.DistinctCardinality | SpellbindPatcher/Program.cs:74 | a list of links without repetition has as many distinct links as entries, so the raw count equals the set size |
| ShardCosts.TierKey | SpellbindPatcher/Program.cs:84 | `(level / 25) * 25` is the largest multiple of 25 not above the level |
| ShardCosts.ShardCost | SpellbindPatcher/Program.cs:20-27 | the table lookup at line 84 succeeds exactly for levels below 125; it then gives 1 for 0-24, 2 for 25-74 and 3 for 75-124; otherwise it fails with the missing key, which is 125 or more |
| ShardCosts.ShardCostMonotone | SpellbindPatcher/Program.cs:20-27 | below 125, a higher level never gives a lower shard cost |
| ShardCosts.MaxLevel | SpellbindPatcher/Program.cs:82-83 | `Max` of the resolved levels succeeds exactly when the list is non-empty and every link resolves; the result is a level of one listed effect and no listed effect has a higher level; an empty list fails as `Max` does, and otherwise the failure names a dangling listed link |
| ShardCosts.ScrollCost | SpellbindPatcher/Program.cs:82-84 | the scroll's cost exists exactly when the scroll has effects, all resolving, all below level 125; it is the highest tier among the effects, between 1 and 3; no effects fails as `Max` does |
| ShardCosts.MatchedCostFailure | SpellbindPatcher/Program.cs:73-84 | after a match, `Resolve` inside `Max` cannot throw; the cost fails only for an empty scroll matched by an empty spell set, or for an effect at level 125 or more |
| EditorIds.Filter | SpellbindPatcher/Program.cs:98 | the filtered text is no longer than the input and holds only characters of `[A-z0-9_]` |
| EditorIds.FilterCounts | SpellbindPatcher/Program.cs:98 | every kept character occurs in the output as often as in the input, and no other character occurs |
| EditorIds.FilterIsSubsequence | SpellbindPatcher/Program.cs:98 | the output is obtained from the input by deleting characters (order is preserved) |
| EditorIds.ReplaceRuns | SpellbindPatcher/Program.cs:98 | `Regex.Replace` with `[^A-z0-9_]+`: the result is no longer than the input and holds only class characters; ReplaceRunsIsFilter shows it equals the per-character filter |
| EditorIds.ReplaceRunsIsFilter | SpellbindPatcher/Program.cs:98 | replacing each maximal run of excluded characters by the empty string equals deleting excluded characters one at a time |
| EditorIds.FilterConcat | SpellbindPatcher/Program.cs:98 | filtering name followed by form key is filtering each and concatenating |
| EditorIds.FilterFixedIffAllKept | SpellbindPatcher/Program.cs:98 | the filter leaves a text unchanged exactly when all its characters are in the class |
| EditorIds.FilterIdempotent | SpellbindPatcher/Program.cs:98 | filtering twice equals filtering once |
| EditorIds.KeptClassBoundary | SpellbindPatcher/Program.cs:98 | the characters between `Z` and `a` survive; space, colon, dot, dash and non-ASCII letters are removed |
| EditorIds.EditorId | SpellbindPatcher/Program.cs:95-98 | the editor id is the prefix followed by at most as many characters as the name and form key text together, every one of them in the class |
| EditorIds.EditorIdSanitised | SpellbindPatcher/Program.cs:95-98 | the editor id starts with `GN_CraftScroll_`, continues with the kept characters of the name (empty when absent) then those of the form key text, holds only class characters, and is a fixed point of the filter |
| Synthesis.Collect | SpellbindPatcher/Program.cs:51-138 | a completed loop adds at most one recipe per book |
| Synthesis.CollectSucceedsIff | SpellbindPatcher/Program.cs:51-138 | the loop completes exactly when no book's outcome is fatal |
| Synthesis.CollectAppendFailure | SpellbindPatcher/Program.cs:82-84 | a fatal outcome ends the run: books after it change nothing |
| Synthesis.CollectAppend | SpellbindPatcher/Program.cs:51-138 | the recipes of two runs of outcomes, one after the other, are those of the first run then those of the second, and an error in the second run is the result |
| Synthesis.CollectedFromOutcomes | SpellbindPatcher/Program.cs:96-138 | every appended recipe is the recipe of some book's outcome |
| Synthesis.CollectErrorIsFirst | SpellbindPatcher/Program.cs:82-84 | a failed run carries the error of the first fatal book, and every book before it completed |
| Synthesis.StepOutcome | SpellbindPatcher/Program.cs:51-138 | one more book either decides the run with its error or appends its recipe, if any, after the recipes so far |
| Synthesis.SynthesisInBookOrder | SpellbindPatcher/Program.cs:51 | recipes follow book order: the books `a + b` give the recipes of `a` followed by those of `b` |
| Synthesis.CollectAround | SpellbindPatcher/Program.cs:51-138 | in a completed loop, the recipe of book `j`, if any, lies between the recipes of the books before it and those after it |
| Patcher.BuildRecipe | SpellbindPatcher/Program.cs:96-136 | the recipe record built for a spell and its matched scroll at a given cost; its shape is stated by BookRecipeShape |
| Patcher.BookOutcome | SpellbindPatcher/Program.cs:53-136 | one book's contribution as an expression: nothing, a recipe, or a fatal cost error; characterised by BookSkippedIff, BookFailure and BookRecipeShape |
| Patcher.ProcessBook | SpellbindPatcher/Program.cs:53-136 | the statements of one loop iteration compute the book's outcome; a fatal outcome is always an empty-scroll or unknown-tier error |
| Patcher.AppendBookRecipes | SpellbindPatcher/Program.cs:51-138 | the `foreach` loop, running ProcessBook on each book, appends to the existing recipes exactly the collected recipes, or returns the first fatal error |
| Patcher.RunPatch | SpellbindPatcher/Program.cs:46-54 | no shard means failure before any recipe; on success the existing recipes are kept unchanged as a prefix, followed by at most one recipe per book |
| Patcher.BookSkippedIff | SpellbindPatcher/Program.cs:53-78 | a book yields nothing exactly when it teaches no spell, its spell does not resolve, or no scroll matches the spell's effect set |
| Patcher.BookFailure | SpellbindPatcher/Program.cs:82-84 | a book is fatal only when its spell's effect set is empty and it matched an empty scroll, or when a matching scroll has an effect at level 125 or more |
| Patcher.BookRecipeShape | SpellbindPatcher/Program.cs:96-136 | a recipe creates one of the first scroll matching the taught spell; its workbench is the scroll craft station; its items are one paper roll then the scroll's cost (1-3) in shards; its one condition is HasSpell(taught spell) on Subject, equal to 1; its editor id comes from the spell's name and form key |
| Patcher.RunPatchFailure | SpellbindPatcher/Program.cs:51-84 | with the shard present, a failed run fails on the first fatal book, with an empty-scroll or unknown-tier error |
| Patcher.RunPatchAddsBookRecipes | SpellbindPatcher/Program.cs:51-138 | every recipe after the existing ones is the recipe of one of the books |
| Patcher.RunPatchInBookOrder | SpellbindPatcher/Program.cs:51-138 | on success, every book completed, and book `j`'s recipe, if any, appears in the output right after the existing recipes and those of the books before `j`, followed by those of the books after it |
| Patcher.RunPatchLoop | SpellbindPatcher/Program.cs:44-141 | the statement form (shard check, then the `foreach`) computes exactly `RunPatch` |
| Scenarios.ExactMatchLowTierFirstScroll | SpellbindPatcher/Program.cs:73-84 | spell {E1, E2} at levels 10 and 5 with two matching scrolls: one recipe, for the first scroll, costing one shard |
| Scenarios.NoMatchingScroll | SpellbindPatcher/Program.cs:73-78 | spell {E1, E3} with only the scroll {E1, E2}: no recipe |
| Scenarios.DanglingEffectMasterTier | SpellbindPatcher/Program.cs:67-84 | a dangling spell effect is dropped, the scroll {E1} at level 100 matches, and the recipe costs three shards |

## Left out

- `Main`, the Synthesis pipeline setup and `CheckRunnability` (lines 29-42) are host plumbing over the Mutagen and Synthesis libraries, which are not part of this model.
- Winning-override merging and the link cache's internals: the books and scrolls arrive as sequences in priority order, and resolution is one partial map per record type (a set for misc items).
- `FormKey.ToString()` is a parameter (`Env.keyText`), and the paper roll's form key is a parameter (`Env.paperRoll`). Both come from code that is not part of this model.
- Link equality: a base-effect link equals a key of the effect set when their form keys are equal. A null link is a form key that the cache does not hold.
- The recipe's own form key is allocated by the patch mod's allocator (`new ConstructibleObject(state.PatchMod, ...)`). That allocation is host state and is not modelled. A recipe is identified by its editor id. Two books that teach the same spell therefore give two equal recipes.
- The patch's recipe list is modelled as the sequence of recipes that existed before the run. Mutation of the patch mod object is modelled as appending to that sequence.
- AppendBookRecipes, RunPatch and RunPatchLoop: a fatal book returns only the error. The recipes that line 138 had already added for earlier books are not carried in the `Failure`, because the exception ends the patcher run and its half-built patch is not the run's result. Which books completed before the error is stated by RunPatchFailure.
- The `Console.WriteLine` diagnostics (lines 56-60, 86-92, 139) are observability only.
- `ConditionFloat.ComparisonValue` is a float. It is held as the integer 1, and there is no float arithmetic.
- The comment at line 81 (cost 1 when no level is found) describes no code, so it is not modelled.
- .NET strings are UTF-16 while Dafny's `char` is a Unicode scalar value. A character outside the BMP is removed either way, so the editor id is the same.
- Determinism holds by construction: every operation is a function of the snapshot.

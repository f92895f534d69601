/** The patch body: the precondition on the shard ingredient, the per-book
    synthesis of at most one recipe, and the fold over the book winning
    overrides in priority order that appends recipes to the patch. */
module Patcher {
  import opened Wrappers
  import opened Records
  import opened EffectSets
  import opened ShardCosts
  import opened EditorIds
  import opened Synthesis

  /** What the patch body takes from outside the model: the paper roll's form
      key (from the game's generated key table) and the text rendering of a
      form key (`FormKey.ToString()`). */
  datatype Env = Env(paperRoll: FormKey, keyText: FormKey -> string)

  /** The recipe built for a spell (reached through `spellLink`) and its
      matched scroll at the given shard cost. */
  function BuildRecipe(spellLink: FormKey, spell: Spell, scroll: Scroll, cost: int, env: Env): Recipe
  {
    Recipe(
      EditorId(spell.name, env.keyText(spellLink)),
      scroll.key,
      1,
      ScrollCraftStationKey,
      [ContainerItem(env.paperRoll, 1), ContainerItem(SoulGemShard, cost)],
      [Condition(EqualTo, 1, HasSpell, spellLink, Subject)])
  }

  /** One iteration of the book loop: no recipe when the book teaches no
      resolvable spell or no scroll matches; a fatal error when the cost of
      the matched scroll cannot be computed. */
  function BookOutcome(snap: Snapshot, book: Book, env: Env): Result<Option<Recipe>, Error>
  {
    if !book.teaches.TeachesSpell? || book.teaches.spell !in snap.cache.spells then Success(None)
    else
      var link := book.teaches.spell;
      var spell := snap.cache.spells[link];
      var spellEffects := EffectSet(spell.effects, snap.cache.effects);
      match FirstMatch(spellEffects, snap.scrolls, snap.cache.effects)
      case None => Success(None)
      case Some(scroll) =>
        var cost :- ScrollCost(scroll, snap.cache.effects);
        Success(Some(BuildRecipe(link, spell, scroll, cost, env)))
  }

  /** The body of the book loop, statement by statement. */
  method ProcessBook(snap: Snapshot, book: Book, env: Env) returns (outcome: Outcome)
    ensures outcome == BookOutcome(snap, book, env)
    ensures outcome.Failure? ==> outcome.error.EmptyScroll? || outcome.error.UnknownCostTier?
  {
    if !book.teaches.TeachesSpell? {
      return Success(None);
    }
    var link := book.teaches.spell;
    if link !in snap.cache.spells {
      return Success(None);
    }
    var spell := snap.cache.spells[link];
    var spellEffects := EffectSet(spell.effects, snap.cache.effects);
    var matching := FirstMatch(spellEffects, snap.scrolls, snap.cache.effects);
    if matching.None? {
      return Success(None);
    }
    var cost := ScrollCost(matching.value, snap.cache.effects);
    if cost.Failure? {
      return Failure(cost.error);
    }
    return Success(Some(BuildRecipe(link, spell, matching.value, cost.value, env)));
  }

  /** The loop body as a function of the book. */
  function BookStep(snap: Snapshot, env: Env): Book -> Outcome
  {
    (book: Book) => BookOutcome(snap, book, env)
  }

  /** `RunPatch`: abort when the soul gem shard does not resolve; otherwise
      append the recipes of all books to the patch's existing recipes. */
  function RunPatch(snap: Snapshot, existing: seq<Recipe>, env: Env): (r: Result<seq<Recipe>, Error>)
    ensures SoulGemShard !in snap.cache.miscItems ==> r == Failure(MissingIngredient)
    ensures r.Success? ==>
      && |existing| <= |r.value| <= |existing| + |snap.books|
      && r.value[..|existing|] == existing
  {
    if SoulGemShard !in snap.cache.miscItems then Failure(MissingIngredient)
    else
      var made :- Collect(OutcomesOf(snap.books, BookStep(snap, env)));
      assert (existing + made)[..|existing|] == existing;
      Success(existing + made)
  }

  /** A book yields nothing exactly when it teaches no spell, its spell does
      not resolve, or no scroll matches the spell's effect set. */
  lemma BookSkippedIff(snap: Snapshot, book: Book, env: Env)
    ensures BookOutcome(snap, book, env) == Success(None) <==>
      || !book.teaches.TeachesSpell?
      || book.teaches.spell !in snap.cache.spells
      || forall j :: 0 <= j < |snap.scrolls| ==>
           !Matches(EffectSet(snap.cache.spells[book.teaches.spell].effects, snap.cache.effects),
                    snap.scrolls[j], snap.cache.effects)
  {
  }

  /** A book's outcome is fatal only through the cost of its matched scroll:
      either the spell has no resolvable effect and matched an empty scroll,
      or an effect of the matched scroll has a level of 125 or more. */
  lemma BookFailure(snap: Snapshot, book: Book, env: Env)
    requires BookOutcome(snap, book, env).Failure?
    ensures book.teaches.TeachesSpell? && book.teaches.spell in snap.cache.spells
    ensures var effects := snap.cache.effects;
            var target := EffectSet(snap.cache.spells[book.teaches.spell].effects, effects);
            var error := BookOutcome(snap, book, env).error;
            || (error == EmptyScroll && target == {})
            || (error.UnknownCostTier? && error.key >= 125 &&
                exists i :: 0 <= i < |snap.scrolls| && Matches(target, snap.scrolls[i], effects) &&
                  exists e :: e in snap.scrolls[i].effects && effects[e].minimumSkillLevel >= 125)
  {
    var link := book.teaches.spell;
    var effects := snap.cache.effects;
    var target := EffectSet(snap.cache.spells[link].effects, effects);
    var scroll := FirstMatch(target, snap.scrolls, effects).value;
    MatchedCostFailure(snap.cache.spells[link], scroll, effects);
    if scroll.effects != [] {
      var level := MaxLevel(scroll.effects, effects).value;
      assert ScrollCost(scroll, effects) == ShardCost(level);
    }
  }

  /** Every recipe has the same shape: it creates one of the first scroll
      that matches the taught spell, at the workbench of the scroll craft
      station, from one paper roll and as many shards as that scroll's cost,
      unlocked by the subject already having the spell. */
  lemma BookRecipeShape(snap: Snapshot, book: Book, env: Env, r: Recipe)
    requires BookOutcome(snap, book, env) == Success(Some(r))
    ensures book.teaches.TeachesSpell? && book.teaches.spell in snap.cache.spells
    ensures var link := book.teaches.spell;
            var spell := snap.cache.spells[link];
            var effects := snap.cache.effects;
            var target := EffectSet(spell.effects, effects);
            && r.createdObjectCount == 1
            && r.workbenchKeyword == ScrollCraftStationKey
            && |r.items| == 2
            && r.items[0] == ContainerItem(env.paperRoll, 1)
            && r.items[1].item == SoulGemShard
            && 1 <= r.items[1].count <= 3
            && r.conditions == [Condition(EqualTo, 1, HasSpell, link, Subject)]
            && r.editorId == EditorId(spell.name, env.keyText(link))
            && exists i :: 0 <= i < |snap.scrolls|
                 && r.createdObject == snap.scrolls[i].key
                 && Matches(target, snap.scrolls[i], effects)
                 && (forall j :: 0 <= j < i ==> !Matches(target, snap.scrolls[j], effects))
                 && ScrollCost(snap.scrolls[i], effects) == Success(r.items[1].count)
  {
    var link := book.teaches.spell;
    var spell := snap.cache.spells[link];
    var effects := snap.cache.effects;
    var target := EffectSet(spell.effects, effects);
    var i := FirstMatchIndex(target, snap.scrolls, effects).value;
    var cost := ScrollCost(snap.scrolls[i], effects).value;
    assert r == BuildRecipe(link, spell, snap.scrolls[i], cost, env);
  }

  /** A run that does not fail on the shard fails on the first book whose
      matched scroll has no cost. */
  lemma RunPatchFailure(snap: Snapshot, existing: seq<Recipe>, env: Env)
    requires RunPatch(snap, existing, env).Failure?
    requires SoulGemShard in snap.cache.miscItems
    ensures var error := RunPatch(snap, existing, env).error;
            && (error.EmptyScroll? || error.UnknownCostTier?)
            && exists j :: 0 <= j < |snap.books|
                 && BookOutcome(snap, snap.books[j], env) == Failure(error)
                 && forall k :: 0 <= k < j ==> BookOutcome(snap, snap.books[k], env).Success?
  {
    var outcomes := OutcomesOf(snap.books, BookStep(snap, env));
    CollectErrorIsFirst(outcomes);
    var j :| 0 <= j < |outcomes| && outcomes[j] == Failure(Collect(outcomes).error)
      && forall k :: 0 <= k < j ==> outcomes[k].Success?;
    BookFailure(snap, snap.books[j], env);
  }

  /** Every recipe a run adds is the recipe of one of the books. */
  lemma RunPatchAddsBookRecipes(snap: Snapshot, existing: seq<Recipe>, env: Env)
    requires RunPatch(snap, existing, env).Success?
    ensures forall i :: |existing| <= i < |RunPatch(snap, existing, env).value| ==>
      exists j :: 0 <= j < |snap.books| &&
        BookOutcome(snap, snap.books[j], env) == Success(Some(RunPatch(snap, existing, env).value[i]))
  {
    var outcomes := OutcomesOf(snap.books, BookStep(snap, env));
    var made := Collect(outcomes).value;
    CollectedFromOutcomes(outcomes);
    var out := RunPatch(snap, existing, env).value;
    assert out == existing + made;
    forall i | |existing| <= i < |out|
      ensures exists j :: 0 <= j < |snap.books| && BookOutcome(snap, snap.books[j], env) == Success(Some(out[i]))
    {
      assert out[i] == made[i - |existing|];
      assert Success(Some(out[i])) in outcomes;
    }
  }

  /** A successful run holds every book's recipe in book order: the recipe
      of book `j`, if any, comes right after the recipes of the books before
      it and right before those of the books after it. */
  lemma RunPatchInBookOrder(snap: Snapshot, existing: seq<Recipe>, env: Env, j: nat)
    requires RunPatch(snap, existing, env).Success?
    requires j < |snap.books|
    ensures var step := BookStep(snap, env);
            var before := Collect(OutcomesOf(snap.books[..j], step));
            var after := Collect(OutcomesOf(snap.books[j + 1..], step));
            var here := BookOutcome(snap, snap.books[j], env);
            && before.Success? && here.Success? && after.Success?
            && RunPatch(snap, existing, env).value == existing + before.value + Made(here.value) + after.value
            && (here.value.Some? ==> RunPatch(snap, existing, env).value[|existing| + |before.value|] == here.value.value)
  {
    var step := BookStep(snap, env);
    assert RunPatch(snap, existing, env).value == existing + Collect(OutcomesOf(snap.books, step)).value;
    PlacedAfterExisting(snap.books, step, j, existing);
    assert step(snap.books[j]) == BookOutcome(snap, snap.books[j], env);
  }

  /** The `foreach` loop over the books as statements: each iteration runs
      one book's statements, appends that book's recipe, if any, to the
      patch's recipe list, and a fatal outcome stops the loop. */
  method AppendBookRecipes(snap: Snapshot, existing: seq<Recipe>, env: Env) returns (r: Result<seq<Recipe>, Error>)
    ensures var run := Collect(OutcomesOf(snap.books, BookStep(snap, env)));
            && (run.Failure? ==> r == Failure(run.error))
            && (run.Success? ==> r == Success(existing + run.value))
  {
    ghost var outcomes := OutcomesOf(snap.books, BookStep(snap, env));
    ghost var made: seq<Recipe> := [];
    var output := existing;
    var i := 0;
    assert outcomes[..0] == [];
    while i < |snap.books|
      invariant 0 <= i <= |snap.books|
      invariant Collect(outcomes[..i]) == Success(made)
      invariant output == existing + made
    {
      StepOutcome(outcomes, i);
      var outcome := ProcessBook(snap, snap.books[i], env);
      assert outcome == outcomes[i];
      if outcome.Failure? {
        return Failure(outcome.error);
      }
      made := made + Made(outcome.value);
      if outcome.value.Some? {
        output := output + [outcome.value.value];
      }
      i := i + 1;
    }
    assert outcomes[..i] == outcomes;
    return Success(output);
  }

  /** `RunPatch` as statements: the shard check, then the loop over the books. */
  method RunPatchLoop(snap: Snapshot, existing: seq<Recipe>, env: Env) returns (r: Result<seq<Recipe>, Error>)
    ensures r == RunPatch(snap, existing, env)
  {
    if SoulGemShard !in snap.cache.miscItems {
      return Failure(MissingIngredient);
    }
    r := AppendBookRecipes(snap, existing, env);
  }
}

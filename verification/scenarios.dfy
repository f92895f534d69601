/** Worked runs over small snapshots: an exact match at the lowest tier with
    the priority tie-break, a spell without a matching scroll, and a dangling
    spell effect with a master-level scroll. */
module Scenarios {
  import opened Wrappers
  import opened Records
  import opened EffectSets
  import opened ShardCosts
  import opened Synthesis
  import opened Patcher

  const E1: FormKey := FormKey("Skyrim.esm", 0x1)
  const E2: FormKey := FormKey("Skyrim.esm", 0x2)
  const E3: FormKey := FormKey("Skyrim.esm", 0x3)
  const Dangling: FormKey := FormKey("Missing.esp", 0x4)
  const SpellLink: FormKey := FormKey("Skyrim.esm", 0x10)
  const ScrollKey1: FormKey := FormKey("Skyrim.esm", 0x20)
  const ScrollKey2: FormKey := FormKey("Skyrim.esm", 0x21)
  const BookKey: FormKey := FormKey("Skyrim.esm", 0x30)
  const PaperRoll: FormKey := FormKey("Skyrim.esm", 0x40)

  function TestEnv(): Env
  {
    Env(PaperRoll, (k: FormKey) => k.modKey)
  }

  function OneBook(spell: Spell, scrolls: seq<Scroll>, effects: map<FormKey, MagicEffect>): Snapshot
  {
    Snapshot([Book(BookKey, TeachesSpell(SpellLink))], scrolls,
             LinkCache(map[SpellLink := spell], effects, {SoulGemShard}))
  }

  /** A snapshot with a single book adds that book's recipe, if any. */
  lemma OneBookRun(snap: Snapshot, env: Env)
    requires |snap.books| == 1 && SoulGemShard in snap.cache.miscItems
    requires BookOutcome(snap, snap.books[0], env).Success?
    ensures RunPatch(snap, [], env) == Success(Made(BookOutcome(snap, snap.books[0], env).value))
  {
    var outcomes := OutcomesOf(snap.books, BookStep(snap, env));
    assert outcomes[1..] == [];
    assert Collect(outcomes[1..]) == Success([]);
    assert Made(outcomes[0].value) + [] == Made(outcomes[0].value);
    assert [] + Made(outcomes[0].value) == Made(outcomes[0].value);
  }

  const LowLevels: map<FormKey, MagicEffect> := map[E1 := MagicEffect(10), E2 := MagicEffect(5)]
  const Flames: Spell := Spell(Some("Flames"), [E1, E2])
  const FirstScroll: Scroll := Scroll(ScrollKey1, None, [E2, E1])
  const SecondScroll: Scroll := Scroll(ScrollKey2, None, [E1, E2])

  /** Spell {E1, E2} at levels 10 and 5; two scrolls list the same effects in
      other orders. One recipe, for the first scroll, costing one shard. */
  lemma ExactMatchLowTierFirstScroll()
    ensures RunPatch(OneBook(Flames, [FirstScroll, SecondScroll], LowLevels), [], TestEnv())
      == Success([BuildRecipe(SpellLink, Flames, FirstScroll, 1, TestEnv())])
  {
    var snap := OneBook(Flames, [FirstScroll, SecondScroll], LowLevels);
    var target := EffectSet(Flames.effects, LowLevels);
    assert target == {E1, E2};
    assert |target| == 2;
    assert Matches(target, FirstScroll, LowLevels);
    assert FirstMatchIndex(target, snap.scrolls, LowLevels) == Some(0);
    assert MaxLevel([E1], LowLevels) == Success(10);
    assert MaxLevel(FirstScroll.effects, LowLevels) == Success(10);
    assert ScrollCost(FirstScroll, LowLevels) == Success(1);
    assert BookOutcome(snap, snap.books[0], TestEnv())
      == Success(Some(BuildRecipe(SpellLink, Flames, FirstScroll, 1, TestEnv())));
    OneBookRun(snap, TestEnv());
  }

  const Unmatched: Spell := Spell(None, [E1, E3])
  const OtherScroll: Scroll := Scroll(ScrollKey1, None, [E1, E2])
  const ZeroLevels: map<FormKey, MagicEffect> := map[E1 := MagicEffect(0), E2 := MagicEffect(0), E3 := MagicEffect(0)]

  /** Spell {E1, E3} against the only scroll {E1, E2}: no recipe. */
  lemma NoMatchingScroll()
    ensures RunPatch(OneBook(Unmatched, [OtherScroll], ZeroLevels), [], TestEnv()) == Success([])
  {
    var snap := OneBook(Unmatched, [OtherScroll], ZeroLevels);
    var target := EffectSet(Unmatched.effects, ZeroLevels);
    assert E2 !in target;
    assert !Matches(target, OtherScroll, ZeroLevels);
    assert FirstMatch(target, snap.scrolls, ZeroLevels) == None;
    assert BookOutcome(snap, snap.books[0], TestEnv()) == Success(None);
    OneBookRun(snap, TestEnv());
  }

  const MasterLevels: map<FormKey, MagicEffect> := map[E1 := MagicEffect(100)]
  const HalfDangling: Spell := Spell(None, [E1, Dangling])
  const MasterScroll: Scroll := Scroll(ScrollKey1, None, [E1])

  /** Spell {E1, Dangling}: the dangling link is dropped, the scroll {E1} at
      level 100 matches, and the recipe costs three shards. */
  lemma DanglingEffectMasterTier()
    ensures RunPatch(OneBook(HalfDangling, [MasterScroll], MasterLevels), [], TestEnv())
      == Success([BuildRecipe(SpellLink, HalfDangling, MasterScroll, 3, TestEnv())])
  {
    var snap := OneBook(HalfDangling, [MasterScroll], MasterLevels);
    assert Dangling !in MasterLevels;
    assert HalfDangling.effects[1..] == [Dangling];
    assert EffectSet([Dangling], MasterLevels) == {};
    var target := EffectSet(HalfDangling.effects, MasterLevels);
    assert target == {E1};
    assert Matches(target, MasterScroll, MasterLevels);
    assert FirstMatchIndex(target, snap.scrolls, MasterLevels) == Some(0);
    assert MaxLevel(MasterScroll.effects, MasterLevels) == Success(100);
    assert ScrollCost(MasterScroll, MasterLevels) == Success(3);
    assert BookOutcome(snap, snap.books[0], TestEnv())
      == Success(Some(BuildRecipe(SpellLink, HalfDangling, MasterScroll, 3, TestEnv())));
    OneBookRun(snap, TestEnv());
  }
}

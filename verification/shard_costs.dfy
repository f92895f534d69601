/** The shard cost of a recipe: the highest minimum skill level among the
    matched scroll's effects, floored to a multiple of 25 and looked up in
    the five-entry cost table. */
module ShardCosts {
  import opened Wrappers
  import opened Records
  import opened EffectSets

  /** Bucketed skill level to number of soul gem shards. */
  const ShardCostTable: map<nat, int> := map[0 := 1, 25 := 2, 50 := 2, 75 := 3, 100 := 3]

  /** The tier a skill level belongs to, read independently of the table:
      Novice 1, Apprentice and Adept 2, Expert and Master 3. */
  function TierCost(level: nat): int
  {
    if level < 25 then 1 else if level < 75 then 2 else 3
  }

  /** Unsigned `(level / 25) * 25`: the largest multiple of 25 not above `level`. */
  function TierKey(level: uint32): (k: uint32)
    ensures k % 25 == 0
    ensures k <= level < k + 25
  {
    (level / 25) * 25
  }

  /** The dictionary indexer: a key outside the table throws. */
  function ShardCost(level: uint32): (r: Result<int, Error>)
    ensures r.Success? <==> level < 125
    ensures r.Success? ==> r.value == TierCost(level) && 1 <= r.value <= 3
    ensures r.Failure? ==> r.error == UnknownCostTier(TierKey(level)) && TierKey(level) >= 125
  {
    var key := TierKey(level);
    if key in ShardCostTable then Success(ShardCostTable[key]) else Failure(UnknownCostTier(key))
  }

  lemma ShardCostMonotone(a: uint32, b: uint32)
    requires a <= b < 125
    ensures ShardCost(a).value <= ShardCost(b).value
  {
  }

  /** `Max` of `Resolve(..).MinimumSkillLevel` over a scroll's effect links, in
      order: an empty list throws, and so does the first dangling link. */
  function MaxLevel(refs: seq<FormKey>, effects: map<FormKey, MagicEffect>): (r: Result<uint32, Error>)
    ensures r.Success? <==> refs != [] && forall e :: e in refs ==> e in effects
    ensures r.Success? ==>
      && (forall e :: e in refs ==> effects[e].minimumSkillLevel <= r.value)
      && exists e :: e in refs && effects[e].minimumSkillLevel == r.value
    ensures refs == [] ==> r == Failure(EmptyScroll)
    ensures r.Failure? && refs != [] ==>
      r.error.UnresolvedEffect? && r.error.link in refs && r.error.link !in effects
  {
    if refs == [] then Failure(EmptyScroll)
    else if refs[0] !in effects then Failure(UnresolvedEffect(refs[0]))
    else if |refs| == 1 then Success(effects[refs[0]].minimumSkillLevel)
    else
      var rest :- MaxLevel(refs[1..], effects);
      var here := effects[refs[0]].minimumSkillLevel;
      Success(if here < rest then rest else here)
  }

  /** The cost of crafting a scroll: the highest tier among its effects; it
      fails when the scroll has no effects, when a link dangles, or when some
      effect's level reaches 125. */
  function ScrollCost(scroll: Scroll, effects: map<FormKey, MagicEffect>): (r: Result<int, Error>)
    ensures r.Success? <==>
      && scroll.effects != []
      && forall e :: e in scroll.effects ==> e in effects && effects[e].minimumSkillLevel < 125
    ensures r.Success? ==>
      && 1 <= r.value <= 3
      && (forall e :: e in scroll.effects ==> TierCost(effects[e].minimumSkillLevel) <= r.value)
      && exists e :: e in scroll.effects && TierCost(effects[e].minimumSkillLevel) == r.value
    ensures scroll.effects == [] ==> r == Failure(EmptyScroll)
  {
    var level :- MaxLevel(scroll.effects, effects);
    ShardCost(level)
  }

  /** After a match, `Resolve` inside `Max` cannot throw: the only ways the
      cost fails are an empty scroll (matched by a spell whose effect set is
      empty) and a level of 125 or more. */
  lemma MatchedCostFailure(spell: Spell, scroll: Scroll, effects: map<FormKey, MagicEffect>)
    requires Matches(EffectSet(spell.effects, effects), scroll, effects)
    ensures ScrollCost(scroll, effects).Failure? <==>
      || (scroll.effects == [] && EffectSet(spell.effects, effects) == {})
      || exists e :: e in scroll.effects && effects[e].minimumSkillLevel >= 125
    ensures ScrollCost(scroll, effects).Failure? ==>
      ScrollCost(scroll, effects).error.EmptyScroll? || ScrollCost(scroll, effects).error.UnknownCostTier?
  {
    if scroll.effects != [] {
      assert MaxLevel(scroll.effects, effects).Success?;
    }
  }
}

/** Effect-set extraction and the scroll matcher (the `spellEffects` hash set
    and the `FirstOrDefault` search over scroll winning overrides). */
module EffectSets {
  import opened Wrappers
  import opened Records

  /** The set of base-effect links of `refs` that resolve, each once.
      Dangling links are dropped silently. */
  function EffectSet(refs: seq<FormKey>, effects: map<FormKey, MagicEffect>): (s: set<FormKey>)
    ensures forall k :: k in s <==> k in refs && k in effects
    ensures |s| <= |refs|
  {
    if refs == [] then {}
    else
      var rest := EffectSet(refs[1..], effects);
      if refs[0] in effects then {refs[0]} + rest else rest
  }

  /** The scroll predicate as written: the scroll's raw effect count equals the
      size of the spell's effect set, and every base effect of the scroll is
      in that set and resolves. */
  predicate Matches(spellEffects: set<FormKey>, scroll: Scroll, effects: map<FormKey, MagicEffect>)
  {
    && |spellEffects| == |scroll.effects|
    && forall e :: e in scroll.effects ==> e in spellEffects && e in effects
  }

  /** Position of the first scroll (in priority order) that matches. */
  function FirstMatchIndex(spellEffects: set<FormKey>, scrolls: seq<Scroll>, effects: map<FormKey, MagicEffect>): (r: Option<nat>)
    ensures r.Some? ==>
      && r.value < |scrolls|
      && Matches(spellEffects, scrolls[r.value], effects)
      && forall j :: 0 <= j < r.value ==> !Matches(spellEffects, scrolls[j], effects)
    ensures r.None? ==> forall j :: 0 <= j < |scrolls| ==> !Matches(spellEffects, scrolls[j], effects)
  {
    if scrolls == [] then None
    else if Matches(spellEffects, scrolls[0], effects) then Some(0)
    else
      match FirstMatchIndex(spellEffects, scrolls[1..], effects)
      case None => None
      case Some(i) => Some(i + 1)
  }

  /** `FirstOrDefault`: the first matching scroll, or none when no scroll matches. */
  function FirstMatch(spellEffects: set<FormKey>, scrolls: seq<Scroll>, effects: map<FormKey, MagicEffect>): (r: Option<Scroll>)
    ensures r.None? <==> forall j :: 0 <= j < |scrolls| ==> !Matches(spellEffects, scrolls[j], effects)
    ensures r.Some? ==>
      && Matches(spellEffects, r.value, effects)
      && exists i :: 0 <= i < |scrolls| && scrolls[i] == r.value
                     && forall j :: 0 <= j < i ==> !Matches(spellEffects, scrolls[j], effects)
  {
    match FirstMatchIndex(spellEffects, scrolls, effects)
    case None => None
    case Some(i) => Some(scrolls[i])
  }

  /** No base-effect link occurs twice. */
  predicate Distinct(s: seq<FormKey>)
  {
    forall i, j :: 0 <= i < j < |s| ==> s[i] != s[j]
  }

  lemma {:induction false} DistinctCardinality(s: seq<FormKey>)
    requires Distinct(s)
    ensures |set e | e in s| == |s|
  {
    if s != [] {
      assert Distinct(s[1..]) by {
        forall i, j | 0 <= i < j < |s[1..]| ensures s[1..][i] != s[1..][j] {
          assert s[1..][i] == s[i + 1] && s[1..][j] == s[j + 1];
        }
      }
      DistinctCardinality(s[1..]);
      assert s[0] !in s[1..] by {
        forall k | 0 <= k < |s[1..]| ensures s[1..][k] != s[0] {
          assert s[1..][k] == s[k + 1];
        }
      }
      assert (set e | e in s) == {s[0]} + (set e | e in s[1..]);
    }
  }

  lemma SubsetOfEqualSize(a: set<FormKey>, b: set<FormKey>)
    requires a <= b && |a| == |b|
    ensures a == b
  {
    assert |b - a| == |b| - |a| == 0;
  }

  /** The second conjunct of the predicate is implied by the first: every
      member of an extracted effect set resolves. */
  lemma ResolveConjunctRedundant(spell: Spell, scroll: Scroll, effects: map<FormKey, MagicEffect>)
    ensures Matches(EffectSet(spell.effects, effects), scroll, effects) <==>
      && |EffectSet(spell.effects, effects)| == |scroll.effects|
      && forall e :: e in scroll.effects ==> e in EffectSet(spell.effects, effects)
  {
  }

  /** For a scroll that lists no effect twice, the predicate is exactly
      equality of effect sets with every scroll link resolving. */
  lemma {:induction false} DistinctMatchIffSameEffects(spell: Spell, scroll: Scroll, effects: map<FormKey, MagicEffect>)
    requires Distinct(scroll.effects)
    ensures Matches(EffectSet(spell.effects, effects), scroll, effects) <==>
      && EffectSet(scroll.effects, effects) == EffectSet(spell.effects, effects)
      && forall e :: e in scroll.effects ==> e in effects
  {
    var target := EffectSet(spell.effects, effects);
    var mine := EffectSet(scroll.effects, effects);
    DistinctCardinality(scroll.effects);
    if (forall e :: e in scroll.effects ==> e in effects) {
      assert mine == set e | e in scroll.effects;
      if Matches(target, scroll, effects) {
        SubsetOfEqualSize(mine, target);
      }
    }
  }

  /** The predicate is not the set equality it approximates, nor symmetric:
      a scroll listing E1 twice matches a spell with effects {E1, E2}, while
      a spell listing E1 twice does not match a scroll listing E1 and E2. */
  lemma DuplicateScrollEffectMatches()
    ensures var e1 := FormKey("Skyrim.esm", 1);
            var e2 := FormKey("Skyrim.esm", 2);
            var effects := map[e1 := MagicEffect(0), e2 := MagicEffect(0)];
            var scroll := Scroll(FormKey("Skyrim.esm", 3), None, [e1, e1]);
            var mirrored := Scroll(FormKey("Skyrim.esm", 4), None, [e1, e2]);
            && Matches(EffectSet([e1, e2], effects), scroll, effects)
            && EffectSet(scroll.effects, effects) != EffectSet([e1, e2], effects)
            && !Matches(EffectSet([e1, e1], effects), mirrored, effects)
  {
    var e1 := FormKey("Skyrim.esm", 1);
    var e2 := FormKey("Skyrim.esm", 2);
    var effects := map[e1 := MagicEffect(0), e2 := MagicEffect(0)];
    assert EffectSet([e1, e2], effects) == {e1, e2};
    assert EffectSet([e1, e1], effects) == {e1};
    assert |{e1, e2}| == 2;
  }
}

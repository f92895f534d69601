/** The records of the game-data snapshot that the patcher reads, and the
    crafting recipe it writes. Input records are immutable views; the link
    cache is a set of partial maps from form keys to the records they name. */
module Records {
  import opened Wrappers

  /** Unsigned 32-bit integer, the width of a magic effect's minimum skill level. */
  type uint32 = x: int | 0 <= x < 0x1_0000_0000

  /** A record identity: the plugin that defines it and its local id. A null
      link is a form key that no map of the link cache contains. */
  datatype FormKey = FormKey(modKey: string, id: nat)

  /** The only attribute of a magic effect that the patcher reads. */
  datatype MagicEffect = MagicEffect(minimumSkillLevel: uint32)

  /** A spell: optional display name and the ordered base-effect links of its
      effect entries (duplicates and dangling links allowed). */
  datatype Spell = Spell(name: Option<string>, effects: seq<FormKey>)

  /** A scroll winning override: its own form key, name and base-effect links. */
  datatype Scroll = Scroll(key: FormKey, name: Option<string>, effects: seq<FormKey>)

  /** What a book teaches when read. Only a spell-teaching book yields a recipe. */
  datatype Teaching =
    | TeachesSpell(spell: FormKey)
    | TeachesSkill
    | TeachesPerk
    | TeachesNothing

  datatype Book = Book(key: FormKey, teaches: Teaching)

  /** Typed link resolution: one partial map per record type that is resolved. */
  datatype LinkCache = LinkCache(
    spells: map<FormKey, Spell>,
    effects: map<FormKey, MagicEffect>,
    miscItems: set<FormKey>)

  /** The load order as the patcher sees it: winning overrides of books and of
      scrolls in priority order, and the link cache over all plugins. */
  datatype Snapshot = Snapshot(books: seq<Book>, scrolls: seq<Scroll>, cache: LinkCache)

  /** One entry of a recipe's required items. */
  datatype ContainerItem = ContainerItem(item: FormKey, count: int)

  datatype CompareOperator =
    | EqualTo | NotEqualTo | GreaterThan | GreaterThanOrEqualTo | LessThan | LessThanOrEqualTo

  datatype RunOnType =
    | Subject | Target | Reference | CombatTarget | LinkedReference | QuestAlias | PackageData | EventData

  /** The condition function a recipe condition evaluates; only `HasSpell` is
      ever produced, every other function is summarised by its index. */
  datatype ConditionFunction = HasSpell | OtherFunction(index: nat)

  /** A float condition; the comparison value is held as the integer it always is here. */
  datatype Condition = Condition(
    compareOperator: CompareOperator,
    comparisonValue: int,
    conditionFunction: ConditionFunction,
    parameterOne: FormKey,
    runOn: RunOnType)

  /** A constructible-object record (crafting recipe). */
  datatype Recipe = Recipe(
    editorId: string,
    createdObject: FormKey,
    createdObjectCount: int,
    workbenchKeyword: FormKey,
    items: seq<ContainerItem>,
    conditions: seq<Condition>)

  /** The errors that abort a run (exceptions thrown out of the patch body). */
  datatype Error =
    | MissingIngredient          // the soul gem shard does not resolve
    | EmptyScroll                // `Max` over a scroll with no effects
    | UnresolvedEffect(link: FormKey) // `Resolve` of a dangling base-effect link
    | UnknownCostTier(key: nat)  // the bucketed level is not a key of the cost table

  const SpellbindMod: string := "Spellbind.esp"
  const SoulGemShard: FormKey := FormKey(SpellbindMod, 0x14ca1)
  const ScrollCraftStationKey: FormKey := FormKey(SpellbindMod, 0x0fb2e)
}

/** The recipe record the viewer loads, reduced to the fields the
    formatters, the scaler and the section renderers read. */
module RecipeData {
  import opened Options

  datatype Ingredient = Ingredient(
    item: string,
    quantity: Option<real>,
    quantityMax: Option<real>,
    unit: Option<string>,
    note: Option<string>,
    scalable: bool)

  datatype IngredientGroup = IngredientGroup(name: string, items: seq<Ingredient>)

  /** servings.base is a whole number of servings. */
  datatype ServingsSpec = ServingsSpec(base: Option<int>, unit: Option<string>)

  /** time.prep and time.cook, in minutes. */
  datatype TimeSpec = TimeSpec(prep: Option<int>, cook: Option<int>)

  /** A lab-notebook entry; the date is an abstract ordered key. */
  datatype LogEntry = LogEntry(date: int, entry: string)

  datatype Recipe = Recipe(
    servings: Option<ServingsSpec>,
    time: Option<TimeSpec>,
    ingredientGroups: seq<IngredientGroup>,
    notes: Option<seq<string>>,
    deviations: Option<seq<string>>,
    source: Option<string>,
    log: Option<seq<LogEntry>>)

  /** The (data-group, data-item) attributes of an ingredient row. */
  type RowKey = (nat, nat)

  predicate ValidKey(groups: seq<IngredientGroup>, k: RowKey)
  {
    k.0 < |groups| && k.1 < |groups[k.0].items|
  }

  function ItemAt(groups: seq<IngredientGroup>, k: RowKey): Ingredient
    requires ValidKey(groups, k)
  {
    groups[k.0].items[k.1]
  }

  /** The position of every item of every group. */
  function Keys(groups: seq<IngredientGroup>): (s: set<RowKey>)
    ensures forall k :: k in s <==> ValidKey(groups, k)
  {
    set g: nat, i: nat | g < |groups| && i < |groups[g].items| :: (g, i)
  }
}

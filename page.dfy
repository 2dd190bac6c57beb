/** The recipe page as a whole: the rows renderIngredients puts on the page
    are the rows the scaler later rewrites by their (group, item) keys. */
module RecipePage {
  import opened Options
  import opened RecipeData
  import Utils
  import Scaling
  import RecipeLoader

  /** All three copies of formatQuantity print the same text for a quantity
      and unit without a maximum. */
  lemma CopiesAgree(num: Option<real>, unit: Option<string>)
    ensures RecipeLoader.QuantityText(num, unit) == Scaling.QuantityText(num, unit)
    ensures Scaling.QuantityText(num, unit) == Utils.QuantityText(num, unit, None)
  {
    RecipeLoader.QuantityTextAgrees(num, unit);
    Scaling.QuantityTextAgrees(num, unit);
  }

  /** The display built from the rendered rows: every row's key is in it,
      holding that row's quantity text, and it holds no other key. */
  lemma InitialDisplayRows(groups: seq<IngredientGroup>)
    ensures var rows := RecipeLoader.AllRows(groups);
      forall j :: 0 <= j < |rows| ==>
        rows[j].key in RecipeLoader.InitialDisplay(groups) && RecipeLoader.InitialDisplay(groups)[rows[j].key] == rows[j].quantity
    ensures forall k :: k in RecipeLoader.InitialDisplay(groups) ==> ValidKey(groups, k)
  {
    RecipeLoader.AllRowsShape(groups);
    var rows := RecipeLoader.AllRows(groups);
    forall j | 0 <= j < |rows|
      ensures rows[j].key in RecipeLoader.InitialDisplay(groups) && RecipeLoader.InitialDisplay(groups)[rows[j].key] == rows[j].quantity
    {
      assert RecipeLoader.RowOfItem(groups, rows[j], |groups|);
    }
  }

  /** A display of the recipe's rows in which every row the scaler never
      touches still holds its initial text. */
  ghost predicate Consistent(groups: seq<IngredientGroup>, d: map<RowKey, string>)
  {
    && d.Keys == Keys(groups)
    && forall k :: k in d && !Scaling.Rescalable(ItemAt(groups, k)) ==> d[k] == RecipeLoader.InitialDisplay(groups)[k]
  }

  /** Rescaling a consistent display keeps it consistent, and leaves each
      rescalable row holding its quantity times the factor, formatted. */
  lemma Rescale(recipe: Recipe, d: map<RowKey, string>, factor: real)
    requires Consistent(recipe.ingredientGroups, d)
    ensures var groups := recipe.ingredientGroups;
      var next := d + Scaling.ScaleUpdates(Some(recipe), factor, d.Keys);
      && Consistent(groups, next)
      && forall k :: k in next && Scaling.Rescalable(ItemAt(groups, k)) ==>
           next[k] == RecipeLoader.QuantityText(Some(Scaling.ScaledQuantity(ItemAt(groups, k), factor)), ItemAt(groups, k).unit)
  {
    var groups := recipe.ingredientGroups;
    var next := d + Scaling.ScaleUpdates(Some(recipe), factor, d.Keys);
    Scaling.UpdatesKeys(groups, factor, d.Keys, |groups|, 0);
    assert next.Keys == d.Keys;
    forall k | k in next && Scaling.Rescalable(ItemAt(groups, k))
      ensures next[k] == RecipeLoader.QuantityText(Some(Scaling.ScaledQuantity(ItemAt(groups, k), factor)), ItemAt(groups, k).unit)
    {
      RescaleRow(recipe, d, factor, next, k);
    }
    forall k | k in next && !Scaling.Rescalable(ItemAt(groups, k))
      ensures next[k] == RecipeLoader.InitialDisplay(groups)[k]
    {
      RescaleRow(recipe, d, factor, next, k);
    }
  }

  /** One row of a rescaled display: its scaled text when its item is
      rescalable, its previous text otherwise. */
  lemma RescaleRow(recipe: Recipe, d: map<RowKey, string>, factor: real, next: map<RowKey, string>, k: RowKey)
    requires d.Keys == Keys(recipe.ingredientGroups) && k in d
    requires next == d + Scaling.ScaleUpdates(Some(recipe), factor, d.Keys)
    ensures k in next
    ensures Scaling.Rescalable(ItemAt(recipe.ingredientGroups, k)) ==>
      next[k] == RecipeLoader.QuantityText(Some(Scaling.ScaledQuantity(ItemAt(recipe.ingredientGroups, k), factor)), ItemAt(recipe.ingredientGroups, k).unit)
    ensures !Scaling.Rescalable(ItemAt(recipe.ingredientGroups, k)) ==> next[k] == d[k]
  {
    var groups := recipe.ingredientGroups;
    Scaling.ScaleUpdatesMeaning(Some(recipe), factor, d.Keys, k);
    var item := ItemAt(groups, k);
    if Scaling.Rescalable(item) {
      RecipeLoader.QuantityTextAgrees(Some(Scaling.ScaledQuantity(item, factor)), item.unit);
    }
  }

  /** Setting the factor back to 1 puts every row back to the text it was
      rendered with: the display is the initial one again. */
  lemma ReturnToBase(recipe: Recipe, d: map<RowKey, string>)
    requires Consistent(recipe.ingredientGroups, d)
    ensures d + Scaling.ScaleUpdates(Some(recipe), 1.0, d.Keys) == RecipeLoader.InitialDisplay(recipe.ingredientGroups)
  {
    var groups := recipe.ingredientGroups;
    var next := d + Scaling.ScaleUpdates(Some(recipe), 1.0, d.Keys);
    var initial := RecipeLoader.InitialDisplay(groups);
    Rescale(recipe, d, 1.0);
    forall k | k in next
      ensures next[k] == initial[k]
    {
      RowAtBase(groups, k, next, initial);
    }
  }

  /** A row holding its text at factor 1 holds its initial text. */
  lemma RowAtBase(groups: seq<IngredientGroup>, k: RowKey, next: map<RowKey, string>, initial: map<RowKey, string>)
    requires initial == RecipeLoader.InitialDisplay(groups)
    requires k in next && k in initial
    requires !Scaling.Rescalable(ItemAt(groups, k)) ==> next[k] == initial[k]
    requires Scaling.Rescalable(ItemAt(groups, k)) ==>
      next[k] == RecipeLoader.QuantityText(Some(Scaling.ScaledQuantity(ItemAt(groups, k), 1.0)), ItemAt(groups, k).unit)
    ensures next[k] == initial[k]
  {
    var item := ItemAt(groups, k);
    if Scaling.Rescalable(item) {
      assert Scaling.ScaledQuantity(item, 1.0) == item.quantity.value;
    }
  }

  /** A page just rendered, scaled up by one serving and back down again,
      shows the initial quantities and the base-recipe info text. */
  method ScaleUpAndBack(recipe: Recipe) returns (rows: map<RowKey, string>, info: string)
    requires Scaling.MIN_SERVINGS <= Scaling.BaseServings(recipe.servings) < Scaling.MAX_SERVINGS
    ensures rows == RecipeLoader.InitialDisplay(recipe.ingredientGroups)
    ensures info == Scaling.BaseInfo(Scaling.BaseServings(recipe.servings), recipe.servings)
  {
    var page := RecipeLoader.InitialDisplay(recipe.ingredientGroups);
    var scaler := new Scaling.Scaler(page);
    scaler.InitScaling(recipe);
    var base := scaler.baseServings;
    assert Scaling.Step(base, 1) == Some(base + 1);
    scaler.AdjustServings(1);
    ghost var up, upCount := scaler.rows, scaler.currentServings;
    assert upCount == base + 1;
    assert Scaling.Step(upCount, -1) == Some(base);
    scaler.AdjustServings(-1);
    UpAndBack(recipe, scaler.recipeData, page, up, scaler.rows, base, upCount, scaler.currentServings);
    rows, info := scaler.rows, scaler.info;
  }

  /** The page as first rendered is consistent. */
  lemma InitialConsistent(groups: seq<IngredientGroup>)
    ensures Consistent(groups, RecipeLoader.InitialDisplay(groups))
  {
  }

  /** Rescaling the rendered page by (base + 1) / base and then by base / base
      gives back the rendered page, and the info text is the base-recipe one. */
  lemma UpAndBack(recipe: Recipe, data: Option<Recipe>, page: map<RowKey, string>, up: map<RowKey, string>, back: map<RowKey, string>,
                   base: int, upCount: int, backCount: int)
    requires base != 0 && data == Some(recipe) && upCount == base + 1 && backCount == base
    requires page == RecipeLoader.InitialDisplay(recipe.ingredientGroups)
    requires up == page + Scaling.ScaleUpdates(data, Scaling.Factor(base, upCount), page.Keys)
    requires back == up + Scaling.ScaleUpdates(data, Scaling.Factor(base, backCount), up.Keys)
    ensures back == page
    ensures Scaling.InfoText(Scaling.Factor(base, backCount), base, backCount, recipe.servings) == Scaling.BaseInfo(base, recipe.servings)
  {
    var page := RecipeLoader.InitialDisplay(recipe.ingredientGroups);
    InitialConsistent(recipe.ingredientGroups);
    Rescale(recipe, page, Scaling.Factor(base, base + 1));
    assert Scaling.Factor(base, base) == 1.0;
    ReturnToBase(recipe, up);
  }
}

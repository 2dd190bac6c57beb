/** js/scaling.js: the serving scaler. Its module-level state (base and
    current servings, the loaded recipe) becomes a class, together with the
    two parts of the page it writes: the scaling-info text and the quantity
    text of each ingredient row. */
module Scaling {
  import opened Options
  import opened NumberText
  import Utils
  import opened RecipeData

  /** scaling.js keeps its own copy of the fraction table. */
  const FRACTIONS: Utils.FractionTable := [
    (0.125, "\U{215B}"),
    (0.25, "\U{00BC}"),
    (0.333, "\U{2153}"),
    (0.375, "\U{215C}"),
    (0.5, "\U{00BD}"),
    (0.625, "\U{215D}"),
    (0.666, "\U{2154}"),
    (0.75, "\U{00BE}"),
    (0.875, "\U{215E}")
  ]

  const DEFAULT_SERVINGS: int := 4
  const MIN_SERVINGS: int := 1
  const MAX_SERVINGS: int := 20

  // ---------------------------------------------------------------------
  // formatQuantity (the copy in scaling.js, without ranges)
  // ---------------------------------------------------------------------

  /** What formatQuantity prints for n before the unit. */
  function BareText(n: real): string
  {
    if IsInteger(n) then IntText(n.Floor)
    else
      var whole := n.Floor;
      match Utils.Nearest(FRACTIONS, n - whole as real)
      case Some(k) => if whole > 0 then IntText(whole) + FRACTIONS[k].1 else FRACTIONS[k].1
      case None => DecimalText(n)
  }

  function WithUnit(text: string, unit: Option<string>): string
  {
    if IsTruthy(unit) then text + " " + unit.value else text
  }

  function QuantityText(num: Option<real>, unit: Option<string>): string
  {
    if num.None? then "" else WithUnit(BareText(num.value), unit)
  }

  method FormatBare(n: real) returns (s: string)
    ensures s == BareText(n)
  {
    if IsInteger(n) {
      return IntText(n.Floor);
    }
    var whole := n.Floor;
    var frac := n - whole as real;
    var closest := Utils.ClosestFraction(FRACTIONS, frac);
    if closest.Some? {
      s := if whole > 0 then IntText(whole) + FRACTIONS[closest.value].1 else FRACTIONS[closest.value].1;
    } else {
      s := StripZeros(ToFixed2(n));
    }
  }

  method FormatQuantity(num: Option<real>, unit: Option<string>) returns (s: string)
    ensures s == QuantityText(num, unit)
  {
    if num.None? {
      return "";
    }
    s := FormatBare(num.value);
    if IsTruthy(unit) {
      s := s + " " + unit.value;
    }
  }

  /** This copy prints what the shared formatter prints without a maximum. */
  lemma QuantityTextAgrees(num: Option<real>, unit: Option<string>)
    ensures QuantityText(num, unit) == Utils.QuantityText(num, unit, None)
  {
    assert FRACTIONS == Utils.FRACTIONS;
  }

  // ---------------------------------------------------------------------
  // Serving counts and the info text
  // ---------------------------------------------------------------------

  /** recipe.servings?.base || 4 */
  function BaseServings(servings: Option<ServingsSpec>): (b: int)
    ensures b != 0
    ensures servings.Some? && servings.value.base.Some? && servings.value.base.value != 0 ==> b == servings.value.base.value
    ensures servings.None? || servings.value.base.None? || servings.value.base.value == 0 ==> b == DEFAULT_SERVINGS
  {
    if servings.Some? && servings.value.base.Some? && servings.value.base.value != 0 then servings.value.base.value
    else DEFAULT_SERVINGS
  }

  /** recipe.servings?.unit || 'servings' */
  function ServingsUnit(servings: Option<ServingsSpec>): string
  {
    OrElse(if servings.Some? then servings.value.unit else None, "servings")
  }

  predicate InRange(servings: int)
  {
    MIN_SERVINGS <= servings <= MAX_SERVINGS
  }

  /** The outcome of adjustServings(delta) from the current count: the new
      count, or None when it would leave [1, 20] and the call does nothing. */
  function Step(current: int, delta: int): Option<int>
  {
    var next := current + delta;
    if next < MIN_SERVINGS || next > MAX_SERVINGS then None else Some(next)
  }

  /** The count after a sequence of adjustServings calls. */
  function AfterSteps(current: int, deltas: seq<int>): int
    decreases |deltas|
  {
    if deltas == [] then current
    else
      match Step(current, deltas[0])
      case Some(next) => AfterSteps(next, deltas[1..])
      case None => AfterSteps(current, deltas[1..])
  }

  /** An accepted step lands in [1, 20] at current + delta; a rejected one is
      exactly one that would leave it. */
  lemma StepMeaning(current: int, delta: int)
    ensures Step(current, delta).Some? ==> InRange(Step(current, delta).value) && Step(current, delta).value == current + delta
    ensures Step(current, delta).None? <==> !InRange(current + delta)
  {
  }

  /** Starting inside [1, 20], no sequence of adjustments leaves it. */
  lemma {:induction false} AfterStepsInRange(current: int, deltas: seq<int>)
    requires InRange(current)
    ensures InRange(AfterSteps(current, deltas))
    decreases |deltas|
  {
    if deltas != [] {
      match Step(current, deltas[0])
      case Some(next) => AfterStepsInRange(next, deltas[1..]);
      case None => AfterStepsInRange(current, deltas[1..]);
    }
  }

  function Factor(base: int, current: int): real
    requires base != 0
  {
    current as real / base as real
  }

  function BaseInfo(base: int, servings: Option<ServingsSpec>): string
  {
    "Base recipe: " + IntText(base) + " " + ServingsUnit(servings)
  }

  /** The text updateScalingInfo(factor) writes. */
  function InfoText(factor: real, base: int, current: int, servings: Option<ServingsSpec>): string
  {
    if factor == 1.0 then BaseInfo(base, servings)
    else "Scaled " + (if factor > 1.0 then "up" else "down") + " from " + IntText(base) + " to " + IntText(current)
  }

  /** With a positive base the factor is 1 exactly at the base count and
      above 1 exactly above it. */
  lemma FactorCompare(base: int, current: int)
    requires base > 0
    ensures Factor(base, current) == 1.0 <==> current == base
    ensures Factor(base, current) > 1.0 <==> current > base
  {
    var f := Factor(base, current);
    assert f * base as real == current as real;
    if current == base {
      assert f == base as real / base as real == 1.0;
    }
  }

  /** The info text is the base-recipe form exactly at factor 1, and
      otherwise says "up" exactly when the factor is above 1. */
  lemma InfoTextShape(factor: real, base: int, current: int, servings: Option<ServingsSpec>)
    ensures var t := InfoText(factor, base, current, servings);
            && ("Base recipe: " <= t <==> factor == 1.0)
            && ("Scaled up " <= t <==> factor > 1.0)
            && ("Scaled down " <= t <==> factor < 1.0)
  {
    if factor == 1.0 {
      BaseInfoShape(base, servings);
    } else {
      ScaledInfoShape(factor > 1.0, IntText(base), IntText(current));
    }
  }

  lemma BaseInfoShape(base: int, servings: Option<ServingsSpec>)
    ensures var t := BaseInfo(base, servings);
            "Base recipe: " <= t && !("Scaled up " <= t) && !("Scaled down " <= t)
  {
    var t := BaseInfo(base, servings);
    assert t == "Base recipe: " + (IntText(base) + " " + ServingsUnit(servings));
    assert t[0] == 'B';
  }

  lemma ScaledInfoShape(up: bool, from: string, to: string)
    ensures var t := "Scaled " + (if up then "up" else "down") + " from " + from + " to " + to;
            && !("Base recipe: " <= t)
            && ("Scaled up " <= t <==> up)
            && ("Scaled down " <= t <==> !up)
  {
    var t := "Scaled " + (if up then "up" else "down") + " from " + from + " to " + to;
    var rest := "from " + from + " to " + to;
    if up {
      assert t == "Scaled up " + rest;
      OpeningShape("Scaled up ", rest);
    } else {
      assert t == "Scaled down " + rest;
      OpeningShape("Scaled down ", rest);
    }
  }

  lemma OpeningShape(opening: string, rest: string)
    requires opening == "Scaled up " || opening == "Scaled down "
    ensures var t := opening + rest;
            && opening <= t
            && !("Base recipe: " <= t)
            && (opening == "Scaled up " ==> !("Scaled down " <= t))
            && (opening == "Scaled down " ==> !("Scaled up " <= t))
  {
    var t := opening + rest;
    assert t[..|opening|] == opening;
    assert t[0] == 'S' && t[7] == opening[7];
  }

  /** With a positive base, the info text is the base-recipe form exactly
      when the count is the base, says "up" exactly when it is above the
      base, and "down" exactly when it is below. */
  lemma InfoTextDirection(base: int, current: int, servings: Option<ServingsSpec>)
    requires base > 0
    ensures var t := InfoText(Factor(base, current), base, current, servings);
            && ("Base recipe: " <= t <==> current == base)
            && ("Scaled up " <= t <==> current > base)
            && ("Scaled down " <= t <==> current < base)
  {
    FactorCompare(base, current);
    InfoTextShape(Factor(base, current), base, current, servings);
  }

  // ---------------------------------------------------------------------
  // scaleIngredients: which rows get which text
  // ---------------------------------------------------------------------

  /** `item.scalable && item.quantity`: scalable, with a non-null, non-zero quantity. */
  predicate Rescalable(item: Ingredient)
  {
    item.scalable && item.quantity.Some? && item.quantity.value != 0.0
  }

  /** `item.quantity * factor` */
  function ScaledQuantity(item: Ingredient, factor: real): real
    requires Rescalable(item)
  {
    item.quantity.value * factor
  }

  function ScaledText(item: Ingredient, factor: real): string
    requires Rescalable(item)
  {
    QuantityText(Some(ScaledQuantity(item, factor)), item.unit)
  }

  /** Row k comes before (g, i) in the order the nested loops visit rows. */
  predicate Before(k: RowKey, g: nat, i: nat)
  {
    k.0 < g || (k.0 == g && k.1 < i)
  }

  /** The texts the loops have written once they reach (g, i): one for each
      present row of a rescalable item visited so far. */
  function UpdatesBefore(groups: seq<IngredientGroup>, factor: real, present: set<RowKey>, g: nat, i: nat): map<RowKey, string>
  {
    map k | k in present && ValidKey(groups, k) && Rescalable(ItemAt(groups, k)) && Before(k, g, i)
      :: ScaledText(ItemAt(groups, k), factor)
  }

  /** The row texts scaleIngredients(factor) writes, given the rows present
      on the page: nothing when no recipe is loaded. */
  function ScaleUpdates(recipe: Option<Recipe>, factor: real, present: set<RowKey>): map<RowKey, string>
  {
    if recipe.None? then map[]
    else UpdatesBefore(recipe.value.ingredientGroups, factor, present, |recipe.value.ingredientGroups|, 0)
  }

  /** Exactly the present rows of rescalable items are rewritten, each with
      the scaled quantity of the item at its own (group, item) position;
      quantityMax takes no part. */
  lemma ScaleUpdatesMeaning(recipe: Option<Recipe>, factor: real, present: set<RowKey>, k: RowKey)
    ensures k in ScaleUpdates(recipe, factor, present) <==>
      && recipe.Some? && k in present && ValidKey(recipe.value.ingredientGroups, k)
      && Rescalable(ItemAt(recipe.value.ingredientGroups, k))
    ensures k in ScaleUpdates(recipe, factor, present) ==>
      var item := ItemAt(recipe.value.ingredientGroups, k);
      ScaleUpdates(recipe, factor, present)[k] == Utils.QuantityText(Some(ScaledQuantity(item, factor)), item.unit, None)
  {
    if k in ScaleUpdates(recipe, factor, present) {
      var item := ItemAt(recipe.value.ingredientGroups, k);
      QuantityTextAgrees(Some(ScaledQuantity(item, factor)), item.unit);
    }
  }

  /** Visiting row (g, i) adds its text exactly when it is present and rescalable. */
  lemma UpdatesStep(groups: seq<IngredientGroup>, factor: real, present: set<RowKey>, g: nat, i: nat)
    requires g < |groups| && i < |groups[g].items|
    ensures UpdatesBefore(groups, factor, present, g, i + 1) ==
      if (g, i) in present && Rescalable(groups[g].items[i])
      then UpdatesBefore(groups, factor, present, g, i)[(g, i) := ScaledText(groups[g].items[i], factor)]
      else UpdatesBefore(groups, factor, present, g, i)
  {
    assert ValidKey(groups, (g, i)) && ItemAt(groups, (g, i)) == groups[g].items[i];
  }

  /** After the last item of group g, the next group starts. */
  lemma UpdatesNextGroup(groups: seq<IngredientGroup>, factor: real, present: set<RowKey>, g: nat)
    requires g < |groups|
    ensures UpdatesBefore(groups, factor, present, g, |groups[g].items|) == UpdatesBefore(groups, factor, present, g + 1, 0)
  {
  }

  lemma UnionUpdate(m: map<RowKey, string>, u: map<RowKey, string>, k: RowKey, v: string)
    ensures (m + u)[k := v] == m + u[k := v]
  {
  }

  /** The loops rewrite rows but never add or remove one. */
  lemma UpdatesKeys(groups: seq<IngredientGroup>, factor: real, present: set<RowKey>, g: nat, i: nat)
    ensures UpdatesBefore(groups, factor, present, g, i).Keys <= present
  {
  }

  /** The quantity text scaleIngredients writes for one rescalable item. */
  method ScaleItem(item: Ingredient, factor: real) returns (text: string)
    requires Rescalable(item)
    ensures text == ScaledText(item, factor)
  {
    text := FormatQuantity(Some(ScaledQuantity(item, factor)), item.unit);
  }

  class Scaler {
    var baseServings: int
    var currentServings: int
    var recipeData: Option<Recipe>
    /** Text of the scaling-info element. */
    var info: string
    /** Text of the quantity span of each ingredient row on the page, by the
        row's (data-group, data-item); a row absent from the page is absent here. */
    var rows: map<RowKey, string>

    ghost predicate Valid()
      reads this
    {
      baseServings != 0
    }

    /** The state when the script loads, over the rows already rendered. */
    constructor(page: map<RowKey, string>)
      ensures Valid()
      ensures baseServings == DEFAULT_SERVINGS && currentServings == DEFAULT_SERVINGS
      ensures recipeData == None && info == "" && rows == page
    {
      baseServings := DEFAULT_SERVINGS;
      currentServings := DEFAULT_SERVINGS;
      recipeData := None;
      info := "";
      rows := page;
    }

    method InitScaling(recipe: Recipe)
      modifies this`baseServings, this`currentServings, this`recipeData, this`info
      ensures Valid()
      ensures recipeData == Some(recipe)
      ensures baseServings == BaseServings(recipe.servings) && currentServings == baseServings
      ensures info == BaseInfo(baseServings, recipe.servings)
      ensures rows == old(rows)
    {
      recipeData := Some(recipe);
      baseServings := BaseServings(recipe.servings);
      currentServings := baseServings;
      info := BaseInfo(baseServings, recipe.servings);
    }

    /** The source writes the servings input before anything else once a step
        is accepted, and that input exists only after initScaling. */
    method AdjustServings(delta: int)
      requires Valid()
      requires Step(currentServings, delta).Some? ==> recipeData.Some?
      modifies this`currentServings, this`info, this`rows
      ensures Valid() && baseServings == old(baseServings) && recipeData == old(recipeData)
      ensures Step(old(currentServings), delta).None? ==>
        currentServings == old(currentServings) && info == old(info) && rows == old(rows)
      ensures Step(old(currentServings), delta).Some? ==>
        && currentServings == old(currentServings) + delta
        && InRange(currentServings)
        && info == InfoText(Factor(baseServings, currentServings), baseServings, currentServings, recipeData.value.servings)
        && rows == old(rows) + ScaleUpdates(recipeData, Factor(baseServings, currentServings), old(rows).Keys)
    {
      var newServings := currentServings + delta;
      if newServings < MIN_SERVINGS || newServings > MAX_SERVINGS {
        return;
      }
      currentServings := newServings;
      var scaleFactor := currentServings as real / baseServings as real;
      UpdateScalingInfo(scaleFactor);
      ScaleIngredients(scaleFactor);
    }

    /** Only the base-recipe text reads the loaded recipe. */
    method UpdateScalingInfo(factor: real)
      requires factor == 1.0 ==> recipeData.Some?
      modifies this`info
      ensures info == InfoText(factor, baseServings, currentServings, if recipeData.Some? then recipeData.value.servings else None)
    {
      if factor == 1.0 {
        info := "Base recipe: " + IntText(baseServings) + " " + ServingsUnit(recipeData.value.servings);
      } else {
        info := "Scaled " + (if factor > 1.0 then "up" else "down") + " from " + IntText(baseServings) + " to " + IntText(currentServings);
      }
    }

    method ScaleIngredients(factor: real)
      modifies this`rows
      ensures rows == old(rows) + ScaleUpdates(recipeData, factor, old(rows).Keys)
    {
      if recipeData.None? {
        assert old(rows) + map[] == old(rows);
        return;
      }
      var groups := recipeData.value.ingredientGroups;
      ghost var start := rows;
      var g := 0;
      while g < |groups|
        invariant g <= |groups|
        invariant rows == start + UpdatesBefore(groups, factor, start.Keys, g, 0)
      {
        ScaleGroup(groups, g, factor, start);
        g := g + 1;
      }
    }

    /** The inner loop of scaleIngredients has reached item i of group g:
        the rows are the starting rows with the texts written so far. */
    ghost predicate Reached(groups: seq<IngredientGroup>, factor: real, start: map<RowKey, string>, g: nat, i: nat)
      reads this
    {
      g < |groups| && i <= |groups[g].items| && rows == start + UpdatesBefore(groups, factor, start.Keys, g, i)
    }

    /** The inner loop of scaleIngredients, over the items of group g. */
    method ScaleGroup(groups: seq<IngredientGroup>, g: nat, factor: real, ghost start: map<RowKey, string>)
      requires Reached(groups, factor, start, g, 0)
      modifies this`rows
      ensures rows == start + UpdatesBefore(groups, factor, start.Keys, g + 1, 0)
    {
      var i: nat := 0;
      while i < |groups[g].items|
        invariant Reached(groups, factor, start, g, i)
      {
        ScaleRow(groups, g, i, factor, start);
        i := i + 1;
      }
      UpdatesNextGroup(groups, factor, start.Keys, g);
    }

    /** One pass of the inner loop: rewrite row (g, i) when it is on the
        page and its item is rescalable. */
    method ScaleRow(groups: seq<IngredientGroup>, g: nat, i: nat, factor: real, ghost start: map<RowKey, string>)
      requires Reached(groups, factor, start, g, i) && i < |groups[g].items|
      modifies this`rows
      ensures Reached(groups, factor, start, g, i + 1)
    {
      ghost var done := UpdatesBefore(groups, factor, start.Keys, g, i);
      UpdatesKeys(groups, factor, start.Keys, g, i);
      UpdatesStep(groups, factor, start.Keys, g, i);
      assert (g, i) in rows <==> (g, i) in start;
      var item := groups[g].items[i];
      if (g, i) in rows && item.scalable && item.quantity.Some? && item.quantity.value != 0.0 {
        var text := ScaleItem(item, factor);
        UnionUpdate(start, done, (g, i), text);
        rows := rows[(g, i) := text];
      }
    }
  }
}

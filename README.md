# Recipe viewer core, modelled in Dafny

This project models the logic of a static, browser-based recipe viewer:

- `js/utils.js`:
  - the shared quantity formatter (`formatQuantity` with its inner `formatSingle` and the vulgar-fraction table);
  - the duration formatter `formatTime`;
  - the tag-colour hash `getTagColor`.
- `js/scaling.js`: the serving scaler. This is the module-level state `baseServings`, `currentServings` and `recipeData`, together with `initScaling`, `adjustServings`, `updateScalingInfo`, `scaleIngredients` and the scaler's own copy of `formatQuantity`.
- `js/recipe-loader.js`:
  - the loader's copy of `formatQuantity`;
  - the ingredient rows built by `renderIngredients`;
  - the total-time sum;
  - the newest-first order of the lab notebook;
  - the placeholder fallbacks of the notes, deviations and notebook panels.

Quantities are exact `real`s. JavaScript `null` and `undefined` are both `None`, and `IsTruthy` is JavaScript truthiness of an optional string. Integers are unbounded except where the source wraps: the `<<` in the tag hash goes through an explicit `ToInt32` (section 7.1.6 of ECMA-262).

Files and modules:

- `options.dfy` (`Options`): optional values and truthiness.
- `number_text.dfy` (`NumberText`):
  - how numbers print: integer digits, and `toFixed(2)` with the `/\.?0+$/` clean-up;
  - readers that parse that text back, used to state round trips.
- `utils.dfy` (`Utils`):
  - the fraction scan: a fold `ScanFrom` and the loop `ClosestFraction`;
  - the formatter with ranges;
  - `formatTime`;
  - `getTagColor`.
- `recipe_data.dfy` (`RecipeData`): the recipe record and the `(group, item)` row keys.
- `scaling.dfy` (`Scaling`):
  - the scaler's formatter copy;
  - the info text;
  - the map of row rewrites, `ScaleUpdates`;
  - the class `Scaler` holding the scaler's state and the two parts of the page it writes (the info text and the quantity text per row key).
- `recipe_loader.dfy` (`RecipeLoader`):
  - the loader's formatter copy;
  - the rendered rows;
  - the time line;
  - the notebook sort;
  - the panels.
- `page.dfy` (`RecipePage`): how the rendered rows and the scaler fit together. This includes the three formatter copies agreeing, rescaling keeping untouched rows, and a return to factor 1 restoring the rendered page.
- `examples.dfy` (`Examples`): concrete cases such as `230 → "3h 50m"`, `0.5 cup → "½ cup"` and `2–3 cup`.

Scaling details the model keeps:

- The scaler never scales or shows `quantityMax`, and neither do the initial ingredient rows.
- An item is rescaled only when its quantity is truthy, so a quantity of `0` is skipped as well as `null`.

## Model

| member | source | states |
|---|---|---|
| Utils.ScanFrom | js/utils.js:41-47 | the scan from entry i on chooses an entry of the table or keeps the earlier choice |
| Utils.Nearest | js/utils.js:38-47 | the scan started with minDiff = 1 and no choice returns an index into the table, if any |
| Utils.ScanFromIsNearest | js/utils.js:41-47 | from any consistent loop state, the scan ends at the earliest entry of minimal distance below 0.05, or at none when every entry is at least 0.05 away |
| Utils.NearestIsNearest | js/utils.js:38-47 | the chosen glyph is the nearest key strictly within 0.05, the earliest one on equal distance, and none is chosen when no key is within 0.05 |
| Utils.NearestIsUnique | js/utils.js:41-47 | that characterisation admits one answer only, so the tie-break fully determines the glyph |
| Utils.ClosestFraction | js/utils.js:38-47 | the loop that updates minDiff and closestFrac returns exactly the fold's answer, which is the nearest entry |
| Utils.SingleText | js/utils.js:30-54 | defines formatSingle: integer digits, else the fraction glyph after a positive whole part, else toFixed(2) cleaned; no contract of its own, its three cases are stated by IntegerQuantityText, GlyphQuantityText and DecimalQuantityText |
| Utils.QuantityText | js/utils.js:27-64 | defines formatQuantity: "" for null, an en-dash range when numMax is present and differs, and " unit" for a truthy unit; no contract of its own, stated by QuantityTextShape |
| Utils.FormatSingle | js/utils.js:30-54 | the imperative formatSingle prints SingleText(n) |
| Utils.FormatQuantity | js/utils.js:27-64 | the imperative formatQuantity prints QuantityText(num, unit, numMax) |
| Utils.IntegerQuantityText | js/utils.js:31-33 | an integer prints as exactly its decimal digits (after a minus sign when negative), with no glyph and no point, and reads back as the integer |
| Utils.GlyphQuantityText | js/utils.js:49-50 | when key k is the nearest within 0.05 (earliest on ties), the output is the whole part's digits then glyph k when the whole part is positive, else the glyph alone |
| Utils.DecimalQuantityText | js/utils.js:51-52 | when no key is within 0.05, the output is the hundredths-rounded value, which reads back as that value and has no trailing zero after a point and no trailing point |
| Utils.SingleTextHasNoSeparator | js/utils.js:30-54 | a single value's text contains neither a space nor an en dash |
| Utils.QuantityTextShape | js/utils.js:28-63 | a missing quantity gives ""; otherwise the text is the single value, or two values joined by an en dash exactly when a distinct maximum is given, then " unit" exactly once when the unit is truthy and nothing otherwise |
| Utils.RangeSeparators | js/utils.js:58 | the range text holds an en dash and no space |
| Utils.FormatTime | js/utils.js:69-75 | defines formatTime: "M min" below 60, else "Hh", with " Mm" when the remainder is not zero; no contract of its own, stated by FormatTimeShape and FormatTimeRoundTrip |
| Utils.FormatTimeShape | js/utils.js:69-75 | under 60 minutes the text is "M min"; otherwise it is "Hh", or "Hh Mm" with 0 < M < 60, where H >= 1 and H * 60 + M is the input |
| Utils.FormatTimeRoundTrip | js/utils.js:69-75 | every duration text reads back as its number of minutes, so distinct durations print differently |
| Utils.ReadMinutesText | js/utils.js:70 | "M min" reads back as M |
| Utils.ReadHoursText | js/utils.js:73 | "Hh" reads back as 60 * H |
| Utils.ReadHoursMinutesText | js/utils.js:74 | "Hh Mm" reads back as 60 * H + M |
| Utils.CodeUnits | js/utils.js:82-83 | every code unit lies in [0, 0xFFFF], and a string of Basic Multilingual Plane characters maps to its own code points, one unit per character |
| Utils.ToInt32 | js/utils.js:83 | ToInt32 lands in the signed 32-bit range and is congruent to its input modulo 2^32 |
| Utils.ShiftLeft5 | js/utils.js:83 | defines hash << 5: ToInt32 of the operand, shifted and wrapped to 32 bits; no contract of its own, its wrap is part of TagHashIsPolynomial |
| Utils.HashStep | js/utils.js:83 | defines one loop step, charCodeAt(i) + ((hash << 5) - hash), where only the shift wraps; no contract of its own, stated by TagHashIsPolynomial |
| Utils.TagHash | js/utils.js:81-84 | defines the hash left by the loop over the code units; no contract of its own, stated by TagHashIsPolynomial and computed by GetTagColor |
| Utils.TagColorIndex | js/utils.js:85 | the colour index is below the length of TAG_COLORS |
| Utils.GetTagColor | js/utils.js:80-86 | the loop's hash is the fold TagHash over the code units, and the colour is TAG_COLORS at its index, so always one of the ten colours and determined by the tag alone |
| Utils.TagHashIsPolynomial | js/utils.js:81-84 | although only the shift wraps, the hash agrees modulo 2^32 with the polynomial hash 31 * h + c at every step |
| NumberText.NatText | js/utils.js:32 | a natural number prints as a non-empty run of digits with no leading zero except for 0 itself |
| NumberText.IntText | js/utils.js:32 | an integer prints as digits, led by '-' exactly when it is negative |
| NumberText.IntTextRoundTrip | js/utils.js:32 | the printed integer reads back as itself |
| NumberText.ToFixed2 | js/utils.js:52 | defines toFixed(2): a minus sign for negative input, then the rounded hundredths of the magnitude with exactly two digits after the point; no contract of its own, stated by DecimalTextCanonical |
| NumberText.StripZeros | js/utils.js:52 | defines replace(/\.?0+$/, ''): the run of trailing zeros goes, with the point just before it; no contract of its own, stated by StripTwoDigits |
| NumberText.DecimalText | js/utils.js:52 | defines the decimal fallback, toFixed(2) followed by the clean-up; no contract of its own, stated by DecimalTextCanonical, DecimalTextValue and DecimalTextShape |
| NumberText.Hundredths | js/utils.js:52 | toFixed(2) rounds to the nearest hundredth, with halves rounded away from zero |
| NumberText.DecimalTextCanonical | js/utils.js:52 | toFixed(2) followed by the regex /\.?0+$/ is the sign followed by the canonical text of the rounded hundredths |
| NumberText.StripTwoDigits | js/utils.js:52 | on a text ending in a point and two digits, the regex /\.?0+$/ removes a final zero digit, both digits when both are zero, and the point with them, and nothing else |
| NumberText.DecimalTextValue | js/utils.js:52 | the decimal fallback reads back as the signed, hundredths-rounded value |
| NumberText.DecimalTextShape | js/utils.js:52 | the decimal fallback is never empty, never ends in a point, and has no trailing zero once it has a point |
| NumberText.HundredthsTextValue | js/utils.js:52 | the canonical hundredths text reads back as k / 100 |
| Scaling.FormatQuantity | js/scaling.js:78-111 | the scaler's imperative copy prints QuantityText(num, unit) |
| Scaling.BareText | js/scaling.js:81-108 | defines the scaler copy's text before the unit: digits, glyph or cleaned decimal; no contract of its own, stated by FormatBare and QuantityTextAgrees |
| Scaling.QuantityText | js/scaling.js:78-111 | defines the scaler's formatQuantity(num, unit); no contract of its own, stated by QuantityTextAgrees |
| Scaling.FormatBare | js/scaling.js:81-107 | the text before the unit is the digits, glyph or decimal that BareText gives |
| Scaling.QuantityTextAgrees | js/scaling.js:78-111 | the scaler's copy prints what the shared formatter prints without a maximum |
| Scaling.BaseServings | js/scaling.js:22 | the base is servings.base when that is truthy and 4 otherwise, so never 0 and the factor current / base is always defined |
| Scaling.Step | js/scaling.js:42-44 | defines the outcome of adjustServings: the new count, or none when it would leave [1, 20]; no contract of its own, stated by StepMeaning |
| Scaling.StepMeaning | js/scaling.js:42-45 | a step is accepted exactly when current + delta lies in [1, 20], and then the new count is current + delta |
| Scaling.AfterStepsInRange | js/scaling.js:41-45 | starting inside [1, 20], no sequence of adjustments leaves it |
| Scaling.FactorCompare | js/scaling.js:48 | with a positive base, the factor current / base is 1 exactly at the base and above 1 exactly above it |
| Scaling.InfoText | js/scaling.js:53-60 | defines the text updateScalingInfo writes: the base-recipe text at factor 1, else "Scaled up" or "Scaled down" from base to current; no contract of its own, stated by InfoTextShape and InfoTextDirection |
| Scaling.InfoTextShape | js/scaling.js:53-60 | the info text is the "Base recipe" form exactly at factor 1, and otherwise says "Scaled up" exactly when the factor exceeds 1 and "Scaled down" exactly when it is below |
| Scaling.InfoTextDirection | js/scaling.js:48-60 | with a positive base, "Base recipe" exactly when current = base, "Scaled up" exactly when current > base, "Scaled down" exactly when current < base |
| Scaling.Rescalable | js/scaling.js:70 | defines item.scalable && item.quantity: scalable with a non-null, non-zero quantity; no contract of its own, used by ScaleUpdatesMeaning |
| Scaling.ScaleUpdates | js/scaling.js:62-76 | defines the row texts scaleIngredients writes, nothing without a recipe; no contract of its own, stated by ScaleUpdatesMeaning and UpdatesKeys |
| Scaling.ScaleUpdatesMeaning | js/scaling.js:62-73 | exactly the present rows of scalable items with a non-zero quantity are rewritten, each with the formatted quantity times the factor of the item at its own (group, item) position; quantityMax takes no part, and nothing is rewritten without a recipe |
| Scaling.UpdatesStep | js/scaling.js:66-73 | visiting row (g, i) adds its text exactly when the row is present and the item rescalable |
| Scaling.UpdatesNextGroup | js/scaling.js:65-66 | after the last item of group g, the scan continues with the first item of group g + 1 |
| Scaling.UpdatesKeys | js/scaling.js:67-68 | the loops never create a row that is not on the page |
| Scaling.ScaleItem | js/scaling.js:71-72 | the text for one item is formatQuantity(quantity * factor, unit) |
| Scaling.Scaler.constructor | js/scaling.js:3-5 | the script starts with base 4, current 4 and no recipe |
| Scaling.Scaler.InitScaling | js/scaling.js:20-39 | base becomes servings.base when truthy, else 4; current equals base; the info text is the base-recipe form; no ingredient row changes |
| Scaling.Scaler.AdjustServings | js/scaling.js:41-51 | a step leaving [1, 20] changes nothing; an accepted step sets current to old current + delta, within [1, 20], keeps the base and the recipe, writes the info text for factor current / base and applies exactly ScaleUpdates to the rows |
| Scaling.Scaler.UpdateScalingInfo | js/scaling.js:53-60 | the info text becomes InfoText(factor, base, current, servings) |
| Scaling.Scaler.ScaleIngredients | js/scaling.js:62-76 | the rows become the old rows overridden by ScaleUpdates for the rows present on the page |
| Scaling.Scaler.ScaleGroup | js/scaling.js:66-74 | the inner loop over group g extends the rewrites to every row of that group |
| Scaling.Scaler.ScaleRow | js/scaling.js:67-73 | one row is rewritten when present and rescalable, and left alone otherwise |
| RecipeLoader.FormatQuantity | js/recipe-loader.js:241-282 | the loader's imperative copy prints QuantityText(num, unit) |
| RecipeLoader.BareText | js/recipe-loader.js:256-279 | defines the loader copy's text before the unit: digits, glyph or cleaned decimal; no contract of its own, stated by FormatBare and QuantityTextAgrees |
| RecipeLoader.QuantityText | js/recipe-loader.js:241-282 | defines the loader's formatQuantity(num, unit); no contract of its own, stated by QuantityTextAgrees and QuantityTextBasics |
| RecipeLoader.FormatBare | js/recipe-loader.js:256-279 | the text before the unit is the digits, glyph or decimal that BareText gives |
| RecipeLoader.QuantityTextAgrees | js/recipe-loader.js:240-282 | the loader's copy prints what the scaler's copy prints, for every input |
| RecipeLoader.QuantityTextBasics | js/recipe-loader.js:242-258 | a missing quantity gives ""; an integer gives "n unit" when the unit is truthy and "n" otherwise, where n reads back as the integer |
| RecipeLoader.ItemRow | js/recipe-loader.js:104-110 | defines one rendered row: the key, formatQuantity(quantity, unit), the item name and the note suffix; no contract of its own, stated by GroupRowsShape and RenderItem |
| RecipeLoader.Blocks | js/recipe-loader.js:100-114 | defines the rendered sections: per group, its titled rows; no contract of its own, stated by RenderIngredients and FlattenBlocks |
| RecipeLoader.RenderItem | js/recipe-loader.js:104-110 | a row carries its (group, item) key, formatQuantity(quantity, unit), the item name and the note suffix |
| RecipeLoader.RenderGroup | js/recipe-loader.js:101-113 | a group's section holds one row per item, in item order |
| RecipeLoader.RenderIngredients | js/recipe-loader.js:96-117 | the sections are the groups in order, each with its rows, and read section after section they are exactly the item rows in page order |
| RecipeLoader.FlattenBlocks | js/recipe-loader.js:100-114 | the first n rendered sections hold, section after section, exactly the rows of the first n groups in page order |
| RecipeLoader.OffsetMonotone | js/recipe-loader.js:100-104 | the rows of group g all come before the end of the first n groups' rows, for g < n |
| RecipeLoader.GroupRowsShape | js/recipe-loader.js:104-110 | row i of group g is item i's row and carries the key (g, i) |
| RecipeLoader.RowsUpToLength | js/recipe-loader.js:100-114 | the first n groups give one row per item |
| RecipeLoader.RowsUpToItems | js/recipe-loader.js:100-114 | every row is the row of the item its key names |
| RecipeLoader.RowsUpToOrdered | js/recipe-loader.js:100-114 | keys strictly increase, group first and then item, so no key repeats |
| RecipeLoader.RowsUpToPositions | js/recipe-loader.js:100-114 | item i of group g sits at position Offset(g) + i |
| RecipeLoader.AllRowsShape | js/recipe-loader.js:96-117 | renderIngredients emits exactly one row per item, in declaration order, each with its unique (group, item) key and the formatted quantity without quantityMax |
| RecipeLoader.InitialDisplay | js/recipe-loader.js:105-109 | the page's quantity texts are keyed by exactly the items' positions |
| RecipeLoader.TotalTime | js/recipe-loader.js:64 | the total is prep (0 when missing) plus cook (0 when missing) |
| RecipeLoader.Label | js/recipe-loader.js:66-67 | defines the logical-or fallback to '?': the digits of a non-zero number, else "?"; no contract of its own, stated by LabelRoundTrip |
| RecipeLoader.MetaLine | js/recipe-loader.js:63-69 | defines the meta line, shown only when the recipe has a time record; no contract of its own, stated by TotalMatchesLabels |
| RecipeLoader.TotalMatchesLabels | js/recipe-loader.js:63-69 | the total printed reads back as itself and equals the sum of what the prep and cook labels show, a "?" counting as 0 |
| RecipeLoader.LabelRoundTrip | js/recipe-loader.js:66-67 | a prep or cook label reads back as the value or 0, like the `|| 0` in the sum |
| RecipeLoader.OnDateConcat | js/recipe-loader.js:185-187 | the entries of one date in a concatenation are those of each part, in order |
| RecipeLoader.OnDateOlder | js/recipe-loader.js:185-187 | a sequence of strictly older entries has no entry of date d |
| RecipeLoader.Insert | js/recipe-loader.js:185-187 | defines one insertion step of the stable sort; no contract of its own, stated by InsertPermutes, InsertSorted and InsertOnDate |
| RecipeLoader.SortedLog | js/recipe-loader.js:185-187 | defines the stable newest-first sort of a copy of the log; no contract of its own, stated by SortedLogProps |
| RecipeLoader.InsertPermutes | js/recipe-loader.js:185-187 | inserting an entry adds exactly that entry |
| RecipeLoader.InsertSorted | js/recipe-loader.js:185-187 | inserting into a newest-first sequence keeps it newest first |
| RecipeLoader.InsertOnDate | js/recipe-loader.js:185-187 | the inserted entry goes after every entry of the same date already there |
| RecipeLoader.SortedLogProps | js/recipe-loader.js:185-187 | the sorted log is newest first, a permutation of the log, and keeps entries of equal date in their recorded order (a stable sort) |
| RecipeLoader.NotesPanel | js/recipe-loader.js:135-150 | defines the notes panel: the placeholder for a missing or empty list, else one "◆ Notes" section; no contract of its own, stated by PanelFallbacks |
| RecipeLoader.DeviationsPanel | js/recipe-loader.js:152-174 | defines the deviations panel and its optional source section; no contract of its own, stated by PanelFallbacks and SourceSection |
| RecipeLoader.LogPanel | js/recipe-loader.js:176-200 | defines the notebook panel: the placeholder, else one section of the sorted log; no contract of its own, stated by LogPanelOrder |
| RecipeLoader.PanelFallbacks | js/recipe-loader.js:135-182 | each of the notes, deviations and notebook panels shows its placeholder text exactly when its list is missing or empty, and otherwise shows the notes or deviations in order |
| RecipeLoader.SourceSection | js/recipe-loader.js:155-171 | the source section appears exactly when there are deviations and the source is truthy |
| RecipeLoader.LogPanelOrder | js/recipe-loader.js:176-199 | a non-empty notebook shows one "◆ Lab Notebook" section with the entries newest first, each exactly once, equal dates in recorded order |
| RecipePage.CopiesAgree | js/recipe-loader.js:240-282 | the loader's copy, the scaler's copy and the shared formatter without a maximum print the same text |
| RecipePage.InitialDisplayRows | js/recipe-loader.js:104-110 | the display the scaler starts from holds each rendered row's quantity text under that row's key, and no other key |
| RecipePage.Rescale | js/scaling.js:62-76 | rescaling keeps every untouched row at its rendered text, and puts the formatted quantity times the factor in every rescalable row |
| RecipePage.ReturnToBase | js/scaling.js:70-72 | at factor 1 every rescalable row gets back exactly its rendered text, formatQuantity(quantity, unit), so the page is the rendered one again |
| RecipePage.UpAndBack | js/scaling.js:41-51 | rescaling the rendered rows by (base + 1) / base and then by base / base (factor 1) gives back the rendered rows, and the info text at factor 1 is the base-recipe text |
| RecipePage.ScaleUpAndBack | js/scaling.js:41-60 | one serving up and one back down from the base restores the rendered quantities and the base-recipe info text |
| Examples.WholeQuantity | js/utils.js:31-33 | 4 with unit "cups" prints "4 cups" |
| Examples.NoQuantity | js/utils.js:28 | a missing quantity prints "" whatever the unit and maximum |
| Examples.HalfCup | js/utils.js:41-50 | 0.5 with unit "cup" prints "½ cup" |
| Examples.OneAndAHalf | js/utils.js:49-50 | 1.5 without a unit prints "1½" |
| Examples.WholeRange | js/utils.js:57-63 | 2 to 3 with unit "cup" prints "2–3 cup" |
| Examples.EmptyUnit | js/utils.js:63 | an empty-string unit adds no suffix: 4 prints "4" |
| Examples.NoGlyph | js/utils.js:52 | 0.19 is more than 0.05 from every key and prints "0.19" |
| Examples.Times | js/utils.js:67-75 | 45, 120 and 230 minutes print "45 min", "2h" and "3h 50m" |
| Examples.TagColors | js/utils.js:80-85 | the empty tag takes colour 0, and tag "a" (hash 97) colour 7 |
| Examples.ScaledUpInfo | js/scaling.js:53-60 | from base 4, five servings read "Scaled up from 4 to 5" and four read "Base recipe: 4 servings" |
| Examples.NotebookOrder | js/recipe-loader.js:185-187 | entries dated 1, 3, 1 sort to 3, 1, 1 with the two of date 1 in recorded order |

## Left out

- IEEE-754 doubles are not modelled. Quantities are exact reals, so the model differs from a browser at an exact 0.05 distance. For example, a double 0.2 lies just within 0.05 of 0.25, while the real 0.2 is exactly 0.05 away. `toFixed` rounds the real value half-up rather than the nearest double.
- `Number.prototype.toString` switches to exponent notation at 1e21 and above; an integer is always printed as plain digits here.
- The branch `n % 1 === 0 ? n.toString()` before `toFixed` can never be taken: integers return earlier. All three formatter copies model only the `toFixed` path.
- Negative quantities are modelled with floor semantics and need no precondition, but the examples cover only non-negative ones.
- DOM work is not modelled: `innerHTML` templates, element lookup, the tab wiring, the error dialog and the window title and header. A row "present on the page" is a key of the `rows` map; the scaling-info element is the `info` field.
- Scaling.Scaler.InitScaling: writes the info text without checking that the `scaling-controls` element exists. The source returns early when it is missing.
- Scaling.Scaler.AdjustServings: the write to the servings input is not modelled. The method therefore requires a loaded recipe when a step is accepted, since in the source that input comes into being with `initScaling`.
- Fetching, URL parsing and the asynchronous `init` flow are input/output and are left out.
- Dates are abstract integer keys. `new Date` parsing and `toLocaleDateString` are library calls.
- HTML escaping is not modelled, because the code does none.
- The theme system in `js/utils.js` is not modelled (local storage and DOM styling). Nor are `js/manifest.js` (static data) or the `window.*` exports.
- The three global `formatQuantity` definitions overwrite one another in a page, depending on script order. Which one wins is not modelled; RecipePage.CopiesAgree shows that it does not matter for two-argument calls.
- A fractional `servings.base` is not modelled: the base is a whole number.
- Durations are whole numbers of minutes.
- The tag hash is exact integer arithmetic except for the shift. In doubles the sum could only lose precision for tags of millions of code units, and that is not modelled.
- Tag markup (`recipe.tags`), directions, the title, the subtitle, the difficulty stamp and the canonical badge are plain templating and are not modelled.

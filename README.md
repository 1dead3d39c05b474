# Daily menu deck generator — Dafny model

The generator is a small web application. Staff pick up to 7 breakfast, 8 lunch and 8 dinner
items from a menu catalog. The application then fills a slide template. Placeholders such as
`{{date}}`, `{{breakfast_01}}`, `{{lunch_c_03}}` (calories) and `{{dinner_a_08}}` (allergens)
are replaced with the chosen items. An allergen text that is not the sentinel
`"Free / no allergic ingredients."` turns the run holding its placeholder red.

This project models the two parts of `app.py` that carry logic:

- **Selection resolution** (`index`, POST branch). The form's slot fields `<meal>_<i>` become
  three parallel lists per meal: item names, calories and allergen texts. Each list is looked
  up in the catalog, and the first row with that identifier wins. A missing, empty or unknown
  identifier gives `""`. This part is pure, so it is modelled with functions (module `Selection`).
- **Placeholder substitution** (`replace_text_in_pptx`). This part is imperative.
  - A paragraph is a list of `Run` objects (class `Slides.Run`). Their `text` and `color`
    fields are updated in place.
  - The joined paragraph text is rewritten by a sequence of `str.replace` steps: date, day,
    then each meal in order and each slot in order, with item, calories and allergen steps.
  - Runs whose original text holds a flagged allergen placeholder are coloured red.
  - Finally all the text is moved into run 0.
  - The methods are proved against value-level specifications (module `Substitution`):
    `Plan` is the list of steps, `ApplyAll` the resulting text, `Flagged` the placeholders that
    trigger colouring. Lemmas about these give the properties below.

`str.replace`, `in`, `str.split`/`join` and the number formatting `f"{i}"` / `f"{i:02}"` are
modelled in module `Text`.

The model keeps these behaviours of the code, and they are proved:

- Colour is decided on each run's own original text (`Substitution.SplitPlaceholderNotRed`).
- A red run may be one that the flatten then empties (`Slides.ReplaceInParagraph`).
- A run whose own text holds an allergen placeholder turns red when that slot's allergen text is not the sentinel (`Slides.AllergenRunTurnsRed`, `Slides.NutsAllergenTurnsRed`).
- Replacement values are scanned again by later steps (`Substitution.ValuesRescanned`).
- A placeholder with no matching meal or slot stays in the text and colours nothing (`Substitution.UnknownPlaceholderVerbatim`, `Substitution.UnknownPlaceholderKept`, `Substitution.SlotPastEndKept`).

Two facts about the code shape the model:

- The form is read for 7 breakfast slots (`range(1, 8)`) and 8 lunch and 8 dinner slots
  (`range(1, 9)`), so lunch and dinner placeholders numbered `09` or above are never replaced.
- A placeholder may be replaced more than once. Each step replaces every occurrence in the
  current text, including occurrences that earlier replacement values brought in.

## Model

| member | source | states |
|---|---|---|
| `Text.Contains` | app.py:47 | the `in` operator: `t` occurs somewhere in `s` as a contiguous piece (definition; its meaning is stated by `ContainsIff`) |
| `Text.ReplaceAll` | app.py:49 | `str.replace`: scanning left to right, each occurrence of `t` that does not overlap an earlier replaced one becomes `v`, and an empty `t` inserts `v` around every character (definition; partnered by `ReplaceIsSplitJoin`) |
| `Text.ContainsIff` | app.py:47 | `t in s` holds exactly when some position of `s` starts a copy of `t` |
| `Text.ReplaceAbsent` | app.py:47-57 | replacing a placeholder that is not in the text leaves the text unchanged, so the `if placeholder in full_text` guards have no effect on the text |
| `Text.ReplaceWhole` | app.py:38-39 | a text that is exactly the placeholder becomes exactly the value (the empty placeholder included) |
| `Text.JoinContains` | app.py:35 | every piece occurs in the text `sep.join(pieces)` |
| `Text.SplitJoin` | app.py:49 | splitting on `t` and joining with `t` gives back the text (partner of `str.replace`) |
| `Text.SplitPiecesFree` | app.py:49 | no piece of `s.split(t)` contains `t` |
| `Text.ReplaceIsSplitJoin` | app.py:38-57 | `s.replace(t, v) == v.join(s.split(t))`: every leftmost non-overlapping occurrence is replaced |
| `Text.ReplaceConcat` | app.py:49 | when no occurrence of the placeholder straddles the cut between `x` and `y`, `(x + y).replace(t, v)` is `x.replace(t, v) + y.replace(t, v)` |
| `Text.Decimal` | app.py:115-117 | the form-field slot number `f"{i}"` is one or more digits, with no leading zero |
| `Text.DecimalRoundTrip` | app.py:115-117 | reading back the digits of `i` gives `i` |
| `Text.Pad2` | app.py:43-45 | `f"{i:02}"` is at least two digits, exactly two below 100, and reads back as `i` |
| `Selection.FirstMatch` | app.py:122-124 | finds the first catalog row whose `index` equals the identifier, or reports that no row has it |
| `Selection.Lookup` | app.py:122-124 | no row for a missing, empty or unlisted identifier; otherwise the first row with that identifier (`.values[0]`) |
| `Selection.ResolveMeal` | app.py:121-125 | the three lists have one entry per slot; a blank slot gives three `""`; any other slot gives `items`/`calories`/`allergens` of the first matching row |
| `Selection.FieldName` | app.py:115-117 | the form-field name `f'{meal}_{i}'`: the meal name, `_`, then the slot number without padding (definition) |
| `Selection.FormGet` | app.py:115-117 | `request.form.get(name)`: the sent value, or `None` when the field was not sent (definition) |
| `Selection.SlotCount` | app.py:42 | the number of slots `zip(items, calories, allergens)` yields: no more than any of the three lists has, and exactly as many as the shortest one |
| `Selection.FormSlots` | app.py:115-117 | slot `i` reads form field `<meal>_<i>`; a field that was not sent gives `None` |
| `Selection.Resolve` | app.py:114-125 | meals breakfast, lunch and dinner in that order; 7, 8 and 8 slots; `zip` yields exactly that many slots; slot `i` is resolved from field `<meal>_<i>` |
| `Substitution.Braced` | app.py:43-45 | a placeholder: `{{`, the name, `}}` (definition; its properties are `BracedInjective`, `BracedContains`, `BracedHasBraces`) |
| `Substitution.Token` | app.py:43-45 | the placeholder of one slot field, `{{meal_NN}}`, `{{meal_c_NN}}` or `{{meal_a_NN}}` with the slot number padded to two digits (definition; `TokenInjective` shows it determines meal, field and slot) |
| `Substitution.Plan` | app.py:37-57 | the replace steps in the order the code does them: `{{date}}`, `{{day}}`, then each meal and each of its slots with item, calorie and allergen steps (definition; laid out by `PreludeApplied`, `MealPlanAt`, `MealsPlanTokens`) |
| `Substitution.ApplyAll` | app.py:38-57 | the working text after the steps, one `str.replace` after another (definition; `ApplyAllAppend`, `ApplyAllSnoc` and `NoTokensIdentity` state its behaviour) |
| `Substitution.Flagged` | app.py:55-63 | the allergen placeholders that trigger colouring, in step order (definition; characterised by `FlaggedIff`) |
| `Substitution.PreludeApplied` | app.py:37-39 | the first two steps replace `{{date}}` by the date text and then `{{day}}` by the day name, and never colour anything |
| `Substitution.ApplyAllAppend` | app.py:38-57 | doing the steps of `p` and then those of `q` is doing `p + q` |
| `Substitution.ApplyAllSnoc` | app.py:47-57 | one more step applies one more replace; the flags grow only by that step's placeholder, and only for a warning step whose placeholder is present |
| `Substitution.SlotsPlanExtend` | app.py:42 | the steps of slots `1..i` are those of `1..i-1` followed by slot `i` |
| `Substitution.MealsPlanExtend` | app.py:41 | the steps of meals `0..m` are those of `0..m-1` followed by meal `m` |
| `Substitution.FlaggedIff` | app.py:55-63 | a placeholder is flagged iff some allergen step with a non-sentinel value finds it in the working text at that step |
| `Substitution.RedIff` | app.py:55-63 | a run turns red iff its original text contains the placeholder of such a step |
| `Substitution.NoTokensIdentity` | app.py:35-57 | a text that contains none of the plan's placeholders comes out unchanged and flags nothing |
| `Substitution.SlotsPlanAt` | app.py:41-45 | step `k` of slots `1..n` is field `k % 3` (item, calories, allergen) of slot `k / 3 + 1` |
| `Substitution.MealPlanAt` | app.py:41-45 | a meal's steps visit slots `1..SlotCount` in order; each has the item, calorie and allergen placeholder `{{meal_NN}}`, `{{meal_c_NN}}`, `{{meal_a_NN}}` and the matching list value; only the third step of each slot is an allergen step |
| `Substitution.MealsPlanTokens` | app.py:41-45 | every meal step is for a slot `1..SlotCount` of one of the given meals |
| `Substitution.BracedContains` | app.py:43-45 | for brace-free names, one placeholder occurs inside another only if they are the same placeholder |
| `Substitution.BracedInjective` | app.py:43-45 | `{{a}}` and `{{b}}` are equal only if `a` and `b` are |
| `Substitution.SplitAtUnderscore` | app.py:43-45 | when the meal names have no `_`, `meal + "_" + rest` splits at the same place for both |
| `Substitution.FieldSuffixInjective` | app.py:43-45 | the part after the meal name determines the field and the slot number |
| `Substitution.TokenInjective` | app.py:43-45 | a slot placeholder determines its meal, field and slot number (so `01` and `10` never collide) |
| `Substitution.TokenBodyBraceFree` | app.py:43-45 | for a brace-free meal name, the text between the braces of a slot placeholder has no braces |
| `Substitution.UnknownPlaceholderVerbatim` | app.py:35-57 | a paragraph whose text is just a placeholder that names no step (an unknown meal or slot) comes out unchanged and colours nothing; `UnknownPlaceholderKept` covers any surrounding text |
| `Substitution.PlanStepOther` | app.py:38-45 | every step's placeholder is a placeholder with a different name from an unknown placeholder `{{x}}` |
| `Substitution.OverlapMismatch` | app.py:43-45 | two occurrences of different brace-free placeholders in one text never overlap |
| `Substitution.ReplaceKeepsPlaceholder` | app.py:47-57 | for brace-free names, a different placeholder that is in the text is still present after replacing one placeholder |
| `Substitution.ApplyAllKeeps` | app.py:38-57 | a placeholder that differs from every step's placeholder survives all the steps |
| `Substitution.UnknownPlaceholderKept` | app.py:35-63 | inside any paragraph text, a placeholder that names no step is still present after all the steps and is never flagged |
| `Substitution.PastEndUnknown` | app.py:114-118 | after resolution, the placeholder of a slot number past a meal's slot count is a placeholder that no step uses, neither `{{date}}` nor `{{day}}` |
| `Substitution.SlotPastEndKept` | app.py:114-118 | inside any paragraph text, such a past-the-end placeholder is still present after all the steps and is never flagged |
| `Substitution.MealNamesPlain` | app.py:114-118 | the three meal names have no `_` and no braces, and are told apart by their lengths |
| `Substitution.ResolvedSlotToken` | app.py:114-118 | after resolution, a placeholder of meal `q` that the plan uses has a slot number in `1 .. 7` for breakfast and `1 .. 8` for lunch and dinner |
| `Substitution.SlotPastEndVerbatim` | app.py:114-118 | after resolution, a paragraph whose text is just the placeholder of a slot number past a meal's slot count comes out unchanged; `SlotPastEndKept` covers any surrounding text |
| `Substitution.MealsPlanPrefix` | app.py:41 | the steps of the first `n` meals are the first steps of all meals |
| `Substitution.MealAllergenStep` | app.py:42-57 | step `3 * (i - 1) + 2` of a meal's steps is the allergen step of slot `i` (placeholder `{{meal_a_NN}}`, the slot's allergen text) |
| `Substitution.SlotsPlanPrefix` | app.py:42 | the steps of slots `1 .. i` are the first steps of those of slots `1 .. n` |
| `Substitution.PlanAtEarlierStep` | app.py:37-41 | the earlier meals' steps come right after `{{date}}` and `{{day}}` in the plan |
| `Substitution.PlanAtMealStep` | app.py:37-45 | after `{{date}}`, `{{day}}` and the earlier meals' steps, the plan holds meal `q`'s steps |
| `Substitution.PlanAllergenStep` | app.py:41-57 | the allergen step of slot `i` of meal `q` sits at that position in the plan |
| `Substitution.AllergenStep` | app.py:37-57 | slot `i` of meal `q` has an allergen step in the plan, and every step before it is for a different placeholder |
| `Substitution.AllergenPlaceholderTurnsRed` | app.py:47-63 | an allergen placeholder that is in the paragraph text and in a run's own text turns that run red when its slot's value is not the sentinel, because no earlier step removes it |
| `Substitution.FlaggedAreSlotTokens` | app.py:55-63 | only slot placeholders are flagged, never `{{date}}` or `{{day}}` |
| `Substitution.BracedHasBraces` | app.py:43-45 | every placeholder contains `{{` and `}}` |
| `Substitution.SplitPlaceholderNotRed` | app.py:61-63 | a run without `{{` or without `}}` (half of a placeholder split across runs) never turns red |
| `Substitution.ValuesRescanned` | app.py:38-39 | a date text reading `{{day}}` is turned into the day name by the next step |
| `Slides.ColourRuns` | app.py:61-63 | every run whose text contains the placeholder turns red; other runs and all texts are untouched |
| `Slides.ReplaceIfPresent` | app.py:47-53 | a guarded replace gives the same text as an unguarded `str.replace` |
| `Slides.ReplaceAllergen` | app.py:55-63 | the allergen step replaces its placeholder and, if it was present and the value is not the sentinel, colours the runs containing it |
| `Slides.ReplaceSlot` | app.py:42-63 | the three steps of one slot take the working text and the run colours to those of the plan extended by that slot |
| `Slides.ReplaceMeal` | app.py:41-63 | all slots of one meal, in order, take the text and colours to those of the plan extended by that meal |
| `Slides.ReplaceMeals` | app.py:41-63 | all meals, in order, take the text and colours to those of the plan extended by every meal's steps |
| `Slides.Flatten` | app.py:65-67 | every run is cleared and run 0 receives the full text; colours are kept |
| `Slides.FullText` | app.py:35 | `"".join(run.text for run in paragraph.runs)` (definition; partnered by `RunTextInFullText`) |
| `Slides.RunTextInFullText` | app.py:35 | each run's text occurs in the paragraph's joined text |
| `Slides.AllergenRunTurnsRed` | app.py:35-63 | after resolution, a run whose own text holds `{{meal_a_NN}}` for a slot of that meal turns red when the slot's allergen text is not the sentinel |
| `Slides.NutsAllergenTurnsRed` | app.py:55-63 | a run reading `{{breakfast_a_01}}`, with breakfast slot 1 set to an item whose allergen text is "Contains nuts.", turns red |
| `Slides.RewrittenRuns` | app.py:35-67 | the run states the paragraph ends in: run 0 holds the fully substituted text, the others `""`, the colour red where `RedIff` says so and kept elsewhere (the states the method contracts use; tied to `Rewritten` by `RewrittenRunsIff`) |
| `Slides.RewrittenRunsIff` | app.py:59-67 | the run states `RewrittenRuns` computes are exactly those in which run 0 holds the fully substituted text, every other run is `""`, and a run is red iff `RedIff` says so, its colour kept otherwise |
| `Slides.ReplaceInParagraph` | app.py:31-67 | a paragraph with no runs is untouched; otherwise the runs end in the states `RewrittenRuns` gives for their original states and the whole plan |
| `Slides.ReplaceInDocument` | app.py:26-102 | every paragraph of text frames and table cells ends as `ReplaceInParagraph` states, computed from its own original runs |
| `Slides.GenerateMenu` | app.py:113-127 | the POST branch: resolve the form, then rewrite every paragraph with the resolved meals |

## Left out

- Flask routing, `render_template`, `send_file` and the form listing on GET are web plumbing. The submitted form is a map from field name to value.
- Loading the sheet with pandas and `astype(str)` (for example a blank cell becoming `"nan"`) is spreadsheet I/O. The catalog is a given sequence of text rows.
- Opening the template, walking slides and shapes (`has_text_frame`, `has_table`), `prs.save` and the dated output file name are python-pptx and file I/O. A document is a flat sequence of paragraphs; text-frame and table-cell paragraphs get the same treatment.
- `datetime.today()` and `strftime` depend on the clock and the locale. The date text and the day name are parameters.
- The debug `print` calls have no effect on the result.
- python-pptx's escaping of control characters when a run's text is set is library behaviour. It is not modelled: run 0 receives the substituted text as is.
- Substitution.ReplaceKeepsPlaceholder: states that the other placeholder is still present after the step, not that each of its occurrences is kept.
- Slides.ReplaceInDocument: requires that no run object appears twice in the document. python-pptx gives each run its own XML element, so this holds for real documents.

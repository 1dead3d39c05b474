/**
 * `replace_text_in_pptx` on the document's paragraphs: the runs of each
 * paragraph are objects whose text and font colour are changed in place.
 * Free-text boxes and table cells get the same treatment, so a document is a
 * flat sequence of paragraphs.
 */
module Slides {
  import opened Text
  import opened Selection
  import opened Substitution

  /** A run's font colour: inherited from the theme, or an explicit RGB value. */
  datatype Color = Inherited | Rgb(red: nat, green: nat, blue: nat)

  /** `RGBColor(255, 0, 0)`. */
  const Red: Color := Rgb(255, 0, 0)

  /** A stretch of a paragraph's text sharing one font. */
  class Run {
    var text: string
    var color: Color

    constructor (text: string, color: Color)
      ensures this.text == text && this.color == color
    {
      this.text := text;
      this.color := color;
    }
  }

  /** A paragraph of a text frame or of a table cell; its list of runs never changes. */
  class Paragraph {
    const runs: seq<Run>

    constructor (runs: seq<Run>)
      ensures this.runs == runs
    {
      this.runs := runs;
    }
  }

  /** The text and colour of one run at some moment. */
  datatype RunState = RunState(text: string, color: Color)

  function Snapshot(runs: seq<Run>): (states: seq<RunState>)
    reads runs
    ensures |states| == |runs|
    ensures forall k :: 0 <= k < |runs| ==> states[k] == RunState(runs[k].text, runs[k].color)
  {
    seq(|runs|, k requires 0 <= k < |runs| reads runs => RunState(runs[k].text, runs[k].color))
  }

  function Texts(states: seq<RunState>): (texts: seq<string>)
    ensures |texts| == |states|
    ensures forall k :: 0 <= k < |states| ==> texts[k] == states[k].text
  {
    seq(|states|, k requires 0 <= k < |states| => states[k].text)
  }

  /** `"".join(run.text for run in paragraph.runs)`. */
  function FullText(states: seq<RunState>): string {
    Join(Texts(states), "")
  }

  /** Each run's text occurs in the paragraph's joined text. */
  lemma {:induction false} RunTextInFullText(states: seq<RunState>, k: nat)
    requires k < |states|
    ensures Contains(FullText(states), states[k].text)
  {
    JoinContains(Texts(states), "", k);
  }

  /**
   * After resolution, a run whose own text holds the allergen placeholder of
   * slot `i` of meal `q` turns red when that slot's allergen text is not the
   * sentinel.
   */
  lemma {:induction false} AllergenRunTurnsRed(catalog: seq<Row>, form: Form, todayDate: string, dayName: string,
                            before: seq<RunState>, k: nat, q: nat, i: nat)
    requires k < |before| && q < |MealNames| && 1 <= i <= MealSlots[q]
    requires Resolve(catalog, form)[q].allergens[i - 1] != FreeOfAllergens
    requires Contains(before[k].text, Token(MealNames[q], Allergen, i))
    ensures TurnsRed(before[k].text, FullText(before), Plan(Resolve(catalog, form), todayDate, dayName))
  {
    var data := Resolve(catalog, form);
    var token := Token(MealNames[q], Allergen, i);
    MealNamesPlain();
    assert PlainNames(data);
    RunTextInFullText(before, k);
    ContainsTransitive(FullText(before), before[k].text, token);
    AllergenPlaceholderTurnsRed(data, todayDate, dayName, before[k].text, FullText(before), q, i);
  }

  /** No run object appears twice in a paragraph. */
  predicate DistinctRuns(runs: seq<Run>) {
    forall i, j :: 0 <= i < j < |runs| ==> runs[i] != runs[j]
  }

  /** The two paragraphs have no run object in common. */
  predicate SharesNoRun(p: Paragraph, p': Paragraph) {
    forall r :: r in p.runs ==> r !in p'.runs
  }

  /** No run object appears twice in the document. */
  predicate DistinctDocumentRuns(doc: seq<Paragraph>) {
    && (forall q :: 0 <= q < |doc| ==> DistinctRuns(doc[q].runs))
    && (forall q, q' :: 0 <= q < |doc| && 0 <= q' < |doc| && q != q' ==> SharesNoRun(doc[q], doc[q']))
  }

  /**
   * The runs, now in state `after`, hold what `replace_text_in_pptx` leaves
   * in a paragraph whose runs were `before`: run 0 holds the joined text
   * after every step of `plan`, every other run is empty, and a run is red
   * exactly when its original text contains a flagged allergen placeholder,
   * its colour being kept otherwise. (A paragraph without runs has nothing
   * to hold.)
   */
  ghost predicate Rewritten(after: seq<RunState>, before: seq<RunState>, plan: seq<Replacement>)
    requires |before| == |after|
  {
    var full := FullText(before);
    && (|after| > 0 ==> after[0].text == ApplyAll(full, plan))
    && (forall k :: 0 < k < |after| ==> after[k].text == "")
    && (forall k :: 0 <= k < |after| ==>
          after[k].color == if TurnsRed(before[k].text, full, plan) then Red else before[k].color)
  }

  /**
   * A worked case: a run reading `{{breakfast_a_01}}`,
   * with breakfast slot 1 set to a catalog item whose allergen text is
   * "Contains nuts.", turns red.
   */
  lemma NutsAllergenTurnsRed(todayDate: string, dayName: string, color: Color)
    ensures TurnsRed("{{breakfast_a_01}}", "{{breakfast_a_01}}",
      Plan(Resolve([Row("b1", "Granola", "350", "Contains nuts.")], map["breakfast_1" := "b1"]), todayDate, dayName))
  {
    var catalog := [Row("b1", "Granola", "350", "Contains nuts.")];
    var form := map["breakfast_1" := "b1"];
    var before := [RunState("{{breakfast_a_01}}", color)];
    assert FieldName(MealNames[0], 1) == "breakfast_1";
    assert FormGet(form, "breakfast_1") == Some("b1");
    assert catalog[0].index == "b1";
    assert Listed(catalog, "b1") && FirstRowWith(catalog, "b1", 0);
    assert Resolve(catalog, form)[0].allergens[0] == "Contains nuts.";
    assert Pad2(1) == "01";
    assert Token(MealNames[0], Allergen, 1) == "{{breakfast_a_01}}";
    ContainsMiddle([], "{{breakfast_a_01}}", []);
    assert [] + ("{{breakfast_a_01}}" + []) == "{{breakfast_a_01}}";
    assert FullText(before) == "{{breakfast_a_01}}";
    AllergenRunTurnsRed(catalog, form, todayDate, dayName, before, 0, 0, 1);
  }

  /**
   * The run states `replace_text_in_pptx` leaves in a paragraph whose runs
   * were `before`. `Rewritten` above describes the same outcome run by run;
   * the method contracts use this function instead, so that the document
   * loop can compare whole paragraph states, and `RewrittenRunsIff` shows
   * the two agree.
   */
  ghost function RewrittenRuns(before: seq<RunState>, plan: seq<Replacement>): (after: seq<RunState>)
    ensures |after| == |before|
  {
    var full := FullText(before);
    seq(|before|, k requires 0 <= k < |before| =>
      RunState(if k == 0 then ApplyAll(full, plan) else "",
               if TurnsRed(before[k].text, full, plan) then Red else before[k].color))
  }

  /** `RewrittenRuns` is the one state that satisfies `Rewritten`. */
  lemma RewrittenRunsIff(after: seq<RunState>, before: seq<RunState>, plan: seq<Replacement>)
    requires |after| == |before|
    ensures Rewritten(after, before, plan) <==> after == RewrittenRuns(before, plan)
  {
    var expected := RewrittenRuns(before, plan);
    if Rewritten(after, before, plan) {
      forall k | 0 <= k < |after|
        ensures after[k] == expected[k]
      {
      }
    }
  }

  /**
   * Before the final flatten, the runs still hold their original text, and
   * exactly the runs whose text contains a placeholder in `flagged` have
   * been coloured red.
   */
  ghost predicate Marked(runs: seq<Run>, before: seq<RunState>, flagged: seq<string>)
    reads runs
  {
    && |before| == |runs|
    && (forall k :: 0 <= k < |runs| ==> runs[k].text == before[k].text)
    && (forall k :: 0 <= k < |runs| ==>
          runs[k].color == if Hits(before[k].text, flagged) then Red else before[k].color)
  }

  /** Sets the colour of every run whose text contains `token` to red. */
  method ColourRuns(runs: seq<Run>, token: string, ghost before: seq<RunState>, ghost flagged: seq<string>)
    requires DistinctRuns(runs) && Marked(runs, before, flagged)
    modifies runs
    ensures Marked(runs, before, flagged + [token])
  {
    for j := 0 to |runs|
      invariant forall k :: 0 <= k < |runs| ==> runs[k].text == before[k].text
      invariant forall k :: 0 <= k < j ==>
        runs[k].color == if Hits(before[k].text, flagged + [token]) then Red else before[k].color
      invariant forall k :: j <= k < |runs| ==>
        runs[k].color == if Hits(before[k].text, flagged) then Red else before[k].color
    {
      if Contains(runs[j].text, token) {
        runs[j].color := Red;
      }
      assert Hits(before[j].text, flagged + [token]) <==>
        Hits(before[j].text, flagged) || Contains(before[j].text, token);
    }
  }

  /** `if token in full_text: full_text = full_text.replace(token, value)`: the guard changes nothing. */
  method ReplaceIfPresent(fullText: string, token: string, value: string) returns (newText: string)
    ensures newText == ReplaceAll(fullText, token, value)
  {
    if Contains(fullText, token) {
      newText := ReplaceAll(fullText, token, value);
    } else {
      ReplaceAbsent(fullText, token, value);
      newText := fullText;
    }
  }

  /**
   * The allergen placeholder step: replaced if present, and if it was
   * present and the value is not the "free" sentinel, the runs containing
   * it turn red.
   */
  method ReplaceAllergen(runs: seq<Run>, fullText: string, token: string, allergen: string,
                         ghost before: seq<RunState>, ghost flagged: seq<string>)
    returns (newText: string)
    requires DistinctRuns(runs) && Marked(runs, before, flagged)
    modifies runs
    ensures newText == ReplaceAll(fullText, token, allergen)
    ensures Marked(runs, before,
      flagged + (if allergen != FreeOfAllergens && Contains(fullText, token) then [token] else []))
  {
    if Contains(fullText, token) {
      newText := ReplaceAll(fullText, token, allergen);
      if allergen != FreeOfAllergens {
        ColourRuns(runs, token, before, flagged);
      } else {
        assert flagged + [] == flagged;
      }
    } else {
      ReplaceAbsent(fullText, token, allergen);
      newText := fullText;
      assert flagged + [] == flagged;
    }
  }

  /** The three placeholders of slot `i` of `meal`, in the order item, calories, allergens. */
  method ReplaceSlot(runs: seq<Run>, fullText: string, meal: MealData, i: nat,
                     ghost original: string, ghost before: seq<RunState>, ghost done: seq<Replacement>)
    returns (newText: string)
    requires 1 <= i <= SlotCount(meal)
    requires DistinctRuns(runs) && Marked(runs, before, Flagged(original, done))
    requires fullText == ApplyAll(original, done)
    modifies runs
    ensures newText == ApplyAll(original, done + SlotPlan(meal, i))
    ensures Marked(runs, before, Flagged(original, done + SlotPlan(meal, i)))
  {
    ghost var slot := SlotPlan(meal, i);
    ghost var done1, done2 := done + [slot[0]], done + [slot[0]] + [slot[1]];
    ApplyAllSnoc(original, done, slot[0]);
    ApplyAllSnoc(original, done1, slot[1]);
    ApplyAllSnoc(original, done2, slot[2]);
    assert done2 + [slot[2]] == done + slot;

    newText := ReplaceIfPresent(fullText, Token(meal.name, Item, i), meal.items[i - 1]);
    newText := ReplaceIfPresent(newText, Token(meal.name, Calories, i), meal.calories[i - 1]);
    newText := ReplaceAllergen(runs, newText, Token(meal.name, Allergen, i), meal.allergens[i - 1],
                               before, Flagged(original, done2));
  }

  /** Slots `1 .. SlotCount(meal)` of one meal, in order. */
  method ReplaceMeal(runs: seq<Run>, fullText: string, meal: MealData,
                     ghost original: string, ghost before: seq<RunState>, ghost done: seq<Replacement>)
    returns (newText: string)
    requires DistinctRuns(runs) && Marked(runs, before, Flagged(original, done))
    requires fullText == ApplyAll(original, done)
    modifies runs
    ensures newText == ApplyAll(original, done + MealPlan(meal))
    ensures Marked(runs, before, Flagged(original, done + MealPlan(meal)))
  {
    var n := SlotCount(meal);
    newText := fullText;
    ghost var sofar := done;
    assert done + SlotsPlan(meal, 0) == done;
    var i := 1;
    while i <= n
      invariant 1 <= i <= n + 1
      invariant sofar == done + SlotsPlan(meal, i - 1)
      invariant newText == ApplyAll(original, sofar)
      invariant Marked(runs, before, Flagged(original, sofar))
    {
      newText := ReplaceSlot(runs, newText, meal, i, original, before, sofar);
      SlotsPlanExtend(done, meal, i);
      sofar := sofar + SlotPlan(meal, i);
      i := i + 1;
    }
  }

  /** Clears every run, then writes `fullText` into run 0; colours are left as they are. */
  method Flatten(runs: seq<Run>, fullText: string, ghost before: seq<RunState>, ghost flagged: seq<string>)
    requires |runs| > 0 && DistinctRuns(runs) && Marked(runs, before, flagged)
    modifies runs
    ensures runs[0].text == fullText
    ensures forall k :: 0 < k < |runs| ==> runs[k].text == ""
    ensures forall k :: 0 <= k < |runs| ==>
      runs[k].color == if Hits(before[k].text, flagged) then Red else before[k].color
  {
    for k := 0 to |runs|
      invariant forall k' :: 0 <= k' < k ==> runs[k'].text == ""
      invariant forall k' :: 0 <= k' < |runs| ==>
        runs[k'].color == if Hits(before[k'].text, flagged) then Red else before[k'].color
    {
      runs[k].text := "";
    }
    runs[0].text := fullText;
  }

  /** Every meal of `data`, in order. */
  method ReplaceMeals(runs: seq<Run>, fullText: string, data: seq<MealData>,
                      ghost original: string, ghost before: seq<RunState>, ghost done: seq<Replacement>)
    returns (newText: string)
    requires DistinctRuns(runs) && Marked(runs, before, Flagged(original, done))
    requires fullText == ApplyAll(original, done)
    modifies runs
    ensures newText == ApplyAll(original, done + MealsPlan(data))
    ensures Marked(runs, before, Flagged(original, done + MealsPlan(data)))
  {
    newText := fullText;
    ghost var sofar := done;
    assert done + MealsPlan(data[..0]) == done;
    var m := 0;
    while m < |data|
      invariant 0 <= m <= |data|
      invariant sofar == done + MealsPlan(data[..m])
      invariant newText == ApplyAll(original, sofar)
      invariant Marked(runs, before, Flagged(original, sofar))
    {
      newText := ReplaceMeal(runs, newText, data[m], original, before, sofar);
      MealsPlanExtend(done, data, m);
      sofar := sofar + MealPlan(data[m]);
      m := m + 1;
    }
    assert data[..m] == data;
  }

  /**
   * One paragraph: join the runs' text, replace `{{date}}` and `{{day}}`,
   * then every slot placeholder of every meal, colouring runs red for
   * allergen warnings, and finally move the whole text into run 0.
   */
  method ReplaceInParagraph(p: Paragraph, data: seq<MealData>, todayDate: string, dayName: string)
    requires DistinctRuns(p.runs)
    modifies p.runs
    ensures Snapshot(p.runs) == RewrittenRuns(old(Snapshot(p.runs)), Plan(data, todayDate, dayName))
  {
    var runs := p.runs;
    if |runs| == 0 {
      return;
    }
    ghost var before := Snapshot(runs);
    var fullText := FullText(Snapshot(runs));
    ghost var original := fullText;

    fullText := ReplaceAll(fullText, DateToken, todayDate);
    fullText := ReplaceAll(fullText, DayToken, dayName);
    ghost var prelude := Prelude(todayDate, dayName);
    PreludeApplied(original, todayDate, dayName);

    fullText := ReplaceMeals(runs, fullText, data, original, before, prelude);
    Flatten(runs, fullText, before, Flagged(original, Plan(data, todayDate, dayName)));
    RewrittenRunsIff(Snapshot(runs), before, Plan(data, todayDate, dayName));
  }

  /** All runs of the document. */
  ghost function DocumentRuns(doc: seq<Paragraph>): (rs: set<Run>)
    ensures forall q, r :: 0 <= q < |doc| && r in doc[q].runs ==> r in rs
  {
    set q, r | 0 <= q < |doc| && r in doc[q].runs :: r
  }

  /** Every paragraph of the document, each on its own. */
  method ReplaceInDocument(doc: seq<Paragraph>, data: seq<MealData>, todayDate: string, dayName: string)
    requires DistinctDocumentRuns(doc)
    modifies DocumentRuns(doc)
    ensures forall q :: 0 <= q < |doc| ==>
      Snapshot(doc[q].runs) == RewrittenRuns(old(Snapshot(doc[q].runs)), Plan(data, todayDate, dayName))
  {
    for q := 0 to |doc|
      invariant forall q' :: 0 <= q' < q ==>
        Snapshot(doc[q'].runs) == RewrittenRuns(old(Snapshot(doc[q'].runs)), Plan(data, todayDate, dayName))
      invariant forall q' :: q <= q' < |doc| ==> Snapshot(doc[q'].runs) == old(Snapshot(doc[q'].runs))
    {
      label Before:
      ReplaceInParagraph(doc[q], data, todayDate, dayName);
      forall q' | 0 <= q' < |doc| && q' != q
        ensures Snapshot(doc[q'].runs) == old@Before(Snapshot(doc[q'].runs))
      {
        var runs := doc[q'].runs;
        assert SharesNoRun(doc[q'], doc[q]);
        forall k | 0 <= k < |runs|
          ensures runs[k].text == old@Before(runs[k].text) && runs[k].color == old@Before(runs[k].color)
        {
          assert runs[k] in runs;
        }
      }
    }
  }

  /** The POST branch of `index`: resolve the form, then fill the template. */
  method GenerateMenu(catalog: seq<Row>, form: Form, doc: seq<Paragraph>, todayDate: string, dayName: string)
    requires DistinctDocumentRuns(doc)
    modifies DocumentRuns(doc)
    ensures forall q :: 0 <= q < |doc| ==>
      Snapshot(doc[q].runs) == RewrittenRuns(old(Snapshot(doc[q].runs)), Plan(Resolve(catalog, form), todayDate, dayName))
  {
    var data := Resolve(catalog, form);
    ReplaceInDocument(doc, data, todayDate, dayName);
  }
}

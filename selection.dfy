/**
 * Resolving the submitted form against the menu catalog (the POST branch of
 * the `index` route, before the deck is generated). The catalog is the menu
 * sheet with every cell turned into text; each meal's form fields
 * `<meal>_1 .. <meal>_N` become three parallel lists of item names, calorie
 * values and allergen texts.
 */
module Selection {
  import opened Text

  datatype Option<T> = None | Some(value: T)

  /** One row of the menu sheet: columns `index`, `items`, `calories`, `allergens`. */
  datatype Row = Row(index: string, items: string, calories: string, allergens: string)

  /** The submitted form: field name to value; a field that was not sent is absent. */
  type Form = map<string, string>

  /** What the generator is given for one meal: its name and three parallel lists. */
  datatype MealData = MealData(name: string, items: seq<string>, calories: seq<string>, allergens: seq<string>)

  /** The meals in the order the form is read (and the dictionary is iterated). */
  const MealNames: seq<string> := ["breakfast", "lunch", "dinner"]

  /** Slots per meal, from the loop bounds `range(1, 8)`, `range(1, 9)`, `range(1, 9)`. */
  const MealSlots: seq<nat> := [7, 8, 8]

  /** The identifier `id` appears in the catalog's `index` column. */
  ghost predicate Listed(catalog: seq<Row>, id: string) {
    exists j :: 0 <= j < |catalog| && catalog[j].index == id
  }

  /** Row `j` is the first row of the catalog whose identifier is `id`. */
  ghost predicate FirstRowWith(catalog: seq<Row>, id: string, j: int) {
    0 <= j < |catalog| && catalog[j].index == id
    && forall i :: 0 <= i < j ==> catalog[i].index != id
  }

  /** A slot whose identifier is missing, empty or not in the catalog. */
  ghost predicate Blank(catalog: seq<Row>, id: Option<string>) {
    id.None? || id.value == "" || !Listed(catalog, id.value)
  }

  /**
   * The slot with identifier `id` was resolved to `item`, `calories` and
   * `allergens`: all empty for a blank slot, otherwise the three cells of
   * the first catalog row with that identifier.
   */
  ghost predicate ResolvedFrom(catalog: seq<Row>, id: Option<string>, item: string, calories: string, allergens: string) {
    && (Blank(catalog, id) ==> item == "" && calories == "" && allergens == "")
    && (forall j :: !Blank(catalog, id) && FirstRowWith(catalog, id.value, j) ==>
          item == catalog[j].items && calories == catalog[j].calories && allergens == catalog[j].allergens)
  }

  /** Position of the first row with identifier `id`, or `|catalog|` when there is none. */
  function FirstMatch(catalog: seq<Row>, id: string): (j: nat)
    ensures j <= |catalog|
    ensures j < |catalog| ==> FirstRowWith(catalog, id, j)
    ensures j == |catalog| <==> !Listed(catalog, id)
  {
    if catalog == [] then 0
    else if catalog[0].index == id then 0
    else
      var j := FirstMatch(catalog[1..], id);
      assert forall i :: 1 <= i <= |catalog[1..]| ==> catalog[i] == catalog[1..][i - 1];
      1 + j
  }

  /** The row a slot resolves to: `idx and idx in index` selects `.values[0]`. */
  function Lookup(catalog: seq<Row>, id: Option<string>): (r: Option<Row>)
    ensures r.None? <==> Blank(catalog, id)
    ensures r.Some? ==> exists j :: FirstRowWith(catalog, id.value, j) && r.value == catalog[j]
  {
    if id.None? || id.value == "" then None
    else
      var j := FirstMatch(catalog, id.value);
      if j < |catalog| then Some(catalog[j]) else None
  }

  /** The first row with a given identifier is unique. */
  lemma FirstRowUnique(catalog: seq<Row>, id: string, j: int, k: int)
    requires FirstRowWith(catalog, id, j) && FirstRowWith(catalog, id, k)
    ensures j == k
  {
  }

  /** The three comprehensions of one meal: one entry per slot identifier. */
  function ResolveMeal(catalog: seq<Row>, name: string, ids: seq<Option<string>>): (m: MealData)
    ensures m.name == name
    ensures |m.items| == |ids| && |m.calories| == |ids| && |m.allergens| == |ids|
    ensures forall k :: 0 <= k < |ids| ==>
      ResolvedFrom(catalog, ids[k], m.items[k], m.calories[k], m.allergens[k])
  {
    var items := seq(|ids|, k requires 0 <= k < |ids| =>
      match Lookup(catalog, ids[k]) case Some(row) => row.items case None => "");
    var calories := seq(|ids|, k requires 0 <= k < |ids| =>
      match Lookup(catalog, ids[k]) case Some(row) => row.calories case None => "");
    var allergens := seq(|ids|, k requires 0 <= k < |ids| =>
      match Lookup(catalog, ids[k]) case Some(row) => row.allergens case None => "");
    var m := MealData(name, items, calories, allergens);
    assert forall k :: 0 <= k < |ids| ==> ResolvedFrom(catalog, ids[k], m.items[k], m.calories[k], m.allergens[k]) by {
      forall k | 0 <= k < |ids|
        ensures ResolvedFrom(catalog, ids[k], m.items[k], m.calories[k], m.allergens[k])
      {
        var r := Lookup(catalog, ids[k]);
        if r.Some? {
          forall j | FirstRowWith(catalog, ids[k].value, j)
            ensures r.value == catalog[j]
          {
            var j' :| FirstRowWith(catalog, ids[k].value, j') && r.value == catalog[j'];
            FirstRowUnique(catalog, ids[k].value, j, j');
          }
        }
      }
    }
    m
  }

  /** Form field for slot `i` of a meal: `f"{meal}_{i}"`, with no zero padding. */
  function FieldName(meal: string, i: nat): string {
    meal + "_" + Decimal(i)
  }

  /** `request.form.get(name)`: the value if the field was sent, `None` otherwise. */
  function FormGet(form: Form, name: string): Option<string> {
    if name in form then Some(form[name]) else None
  }

  /** The identifiers of slots `1 .. n` of one meal, read from the form. */
  function FormSlots(form: Form, meal: string, n: nat): (ids: seq<Option<string>>)
    ensures |ids| == n
    ensures forall i :: 1 <= i <= n ==> ids[i - 1] == FormGet(form, FieldName(meal, i))
  {
    seq(n, k requires 0 <= k < n => FormGet(form, FieldName(meal, k + 1)))
  }

  /**
   * Number of triples `zip(items, calories, allergens)` yields, i.e. the
   * slots that `enumerate(..., start=1)` numbers `1 .. SlotCount`.
   */
  function SlotCount(m: MealData): (n: nat)
    ensures n <= |m.items| && n <= |m.calories| && n <= |m.allergens|
    ensures n == |m.items| || n == |m.calories| || n == |m.allergens|
  {
    var n := if |m.items| <= |m.calories| then |m.items| else |m.calories|;
    if n <= |m.allergens| then n else |m.allergens|
  }

  /**
   * `selected_data` built from the form: breakfast, lunch and dinner in that
   * order, with 7, 8 and 8 slots; slot `i` of a meal is resolved from the
   * form field `<meal>_<i>`.
   */
  function Resolve(catalog: seq<Row>, form: Form): (data: seq<MealData>)
    ensures |data| == |MealNames|
    ensures forall q :: 0 <= q < |data| ==>
      data[q].name == MealNames[q] && SlotCount(data[q]) == MealSlots[q]
      && |data[q].items| == MealSlots[q] && |data[q].calories| == MealSlots[q] && |data[q].allergens| == MealSlots[q]
    ensures forall q, i :: 0 <= q < |data| && 1 <= i <= MealSlots[q] ==>
      ResolvedFrom(catalog, FormGet(form, FieldName(MealNames[q], i)),
                   data[q].items[i - 1], data[q].calories[i - 1], data[q].allergens[i - 1])
  {
    seq(|MealNames|, q requires 0 <= q < |MealNames| =>
      ResolveMeal(catalog, MealNames[q], FormSlots(form, MealNames[q], MealSlots[q])))
  }
}

/**
 * What `replace_text_in_pptx` does to the text of one paragraph, as values.
 *
 * The placeholders of a paragraph are replaced by a fixed sequence of
 * `str.replace` steps (the plan): `{{date}}`, `{{day}}`, then for every meal
 * in order and every slot `i` in order the item, calorie and allergen
 * placeholders. Allergen steps whose value is not the "free" sentinel and
 * whose placeholder is still present when the step is reached flag that
 * placeholder; runs whose original text contains a flagged placeholder are
 * coloured red.
 */
module Substitution {
  import opened Text
  import opened Selection

  /** The allergen text that does not turn a run red. */
  const FreeOfAllergens: string := "Free / no allergic ingredients."

  /** `{{body}}`. */
  function Braced(body: string): string {
    "{{" + body + "}}"
  }

  const DateToken: string := Braced("date")
  const DayToken: string := Braced("day")

  /** The three placeholders each slot has. */
  datatype Field = Item | Calories | Allergen

  function Infix(f: Field): string {
    match f
    case Item => ""
    case Calories => "c_"
    case Allergen => "a_"
  }

  /** What follows `meal_` in a placeholder: `NN`, `c_NN` or `a_NN`. */
  function Suffix(f: Field, i: nat): string {
    Infix(f) + Pad2(i)
  }

  function TokenBody(meal: string, f: Field, i: nat): string {
    meal + "_" + Suffix(f, i)
  }

  /** `{{meal_NN}}`, `{{meal_c_NN}}` or `{{meal_a_NN}}` for slot `i`. */
  function Token(meal: string, f: Field, i: nat): string {
    Braced(TokenBody(meal, f, i))
  }

  /** One `full_text.replace(token, value)` step; `allergen` marks allergen placeholders. */
  datatype Replacement = Replacement(token: string, value: string, allergen: bool)

  /** An allergen step whose value asks for the red warning colour. */
  predicate Warns(r: Replacement) {
    r.allergen && r.value != FreeOfAllergens
  }

  /** The date and weekday steps, done before any meal. */
  function Prelude(todayDate: string, dayName: string): seq<Replacement> {
    [Replacement(DateToken, todayDate, false), Replacement(DayToken, dayName, false)]
  }

  /** The three steps of slot `i` (1-based) of meal `m`. */
  function SlotPlan(m: MealData, i: nat): seq<Replacement>
    requires 1 <= i <= SlotCount(m)
  {
    [ Replacement(Token(m.name, Item, i), m.items[i - 1], false),
      Replacement(Token(m.name, Calories, i), m.calories[i - 1], false),
      Replacement(Token(m.name, Allergen, i), m.allergens[i - 1], true) ]
  }

  /** The steps of slots `1 .. n` of meal `m`. */
  function SlotsPlan(m: MealData, n: nat): seq<Replacement>
    requires n <= SlotCount(m)
  {
    if n == 0 then [] else SlotsPlan(m, n - 1) + SlotPlan(m, n)
  }

  /** The steps of one meal: every slot that `zip` yields. */
  function MealPlan(m: MealData): seq<Replacement> {
    SlotsPlan(m, SlotCount(m))
  }

  /** The steps of all meals, in the order the meals are given. */
  function MealsPlan(data: seq<MealData>): seq<Replacement> {
    if data == [] then [] else MealsPlan(data[..|data| - 1]) + MealPlan(data[|data| - 1])
  }

  /** Every step `replace_text_in_pptx` takes on a paragraph, in order. */
  function Plan(data: seq<MealData>, todayDate: string, dayName: string): seq<Replacement> {
    Prelude(todayDate, dayName) + MealsPlan(data)
  }

  /** The working text after the steps of `plan`, one `str.replace` after another. */
  function ApplyAll(s: string, plan: seq<Replacement>): string {
    if plan == [] then s
    else
      var last := plan[|plan| - 1];
      ReplaceAll(ApplyAll(s, plan[..|plan| - 1]), last.token, last.value)
  }

  /**
   * The allergen placeholders that trigger colouring, in step order: those
   * of warning steps whose placeholder is in the working text when reached.
   */
  function Flagged(s: string, plan: seq<Replacement>): seq<string> {
    if plan == [] then []
    else
      var init := plan[..|plan| - 1];
      var last := plan[|plan| - 1];
      Flagged(s, init)
      + (if Warns(last) && Contains(ApplyAll(s, init), last.token) then [last.token] else [])
  }

  /** `runText` contains one of `tokens`. */
  ghost predicate Hits(runText: string, tokens: seq<string>) {
    exists t :: t in tokens && Contains(runText, t)
  }

  /** A run whose original text is `runText` is coloured red. */
  ghost predicate TurnsRed(runText: string, s: string, plan: seq<Replacement>) {
    Hits(runText, Flagged(s, plan))
  }

  /** Step `j` of `plan` is a warning step whose placeholder `t` is present when it is reached. */
  ghost predicate FlagsAt(s: string, plan: seq<Replacement>, j: int, t: string) {
    0 <= j < |plan| && plan[j].token == t && Warns(plan[j])
    && Contains(ApplyAll(s, plan[..j]), t)
  }

  /** Doing `p` and then `q` is doing `p + q`. */
  lemma {:induction false} ApplyAllAppend(s: string, p: seq<Replacement>, q: seq<Replacement>)
    ensures ApplyAll(s, p + q) == ApplyAll(ApplyAll(s, p), q)
    decreases |q|
  {
    if q == [] {
      assert p + q == p;
    } else {
      assert (p + q)[..|p + q| - 1] == p + q[..|q| - 1];
      ApplyAllAppend(s, p, q[..|q| - 1]);
    }
  }

  /** One more step: the working text is replaced once more, and the flags grow by at most that step's placeholder. */
  lemma ApplyAllSnoc(s: string, done: seq<Replacement>, r: Replacement)
    ensures ApplyAll(s, done + [r]) == ReplaceAll(ApplyAll(s, done), r.token, r.value)
    ensures Flagged(s, done + [r]) ==
      Flagged(s, done) + (if Warns(r) && Contains(ApplyAll(s, done), r.token) then [r.token] else [])
  {
    assert (done + [r])[..|done|] == done;
  }

  /** The prelude replaces `{{date}}`, then `{{day}}`, and flags nothing. */
  lemma PreludeApplied(s: string, todayDate: string, dayName: string)
    ensures ApplyAll(s, Prelude(todayDate, dayName)) == ReplaceAll(ReplaceAll(s, DateToken, todayDate), DayToken, dayName)
    ensures Flagged(s, Prelude(todayDate, dayName)) == []
  {
    ApplyAllPair(s, Replacement(DateToken, todayDate, false), Replacement(DayToken, dayName, false));
  }

  lemma ApplyAllPair(s: string, a: Replacement, b: Replacement)
    requires !a.allergen && !b.allergen
    ensures ApplyAll(s, [a, b]) == ReplaceAll(ReplaceAll(s, a.token, a.value), b.token, b.value)
    ensures Flagged(s, [a, b]) == []
  {
    assert [a, b][..1] == [a];
    assert [a][..0] == [];
    assert ApplyAll(s, [a]) == ReplaceAll(s, a.token, a.value);
    assert Flagged(s, [a]) == [];
  }

  lemma SlotsPlanExtend(done: seq<Replacement>, m: MealData, i: nat)
    requires 1 <= i <= SlotCount(m)
    ensures done + SlotsPlan(m, i - 1) + SlotPlan(m, i) == done + SlotsPlan(m, i)
  {
    assert SlotsPlan(m, i) == SlotsPlan(m, i - 1) + SlotPlan(m, i);
  }

  lemma MealsPlanExtend(done: seq<Replacement>, data: seq<MealData>, m: nat)
    requires m < |data|
    ensures done + MealsPlan(data[..m]) + MealPlan(data[m]) == done + MealsPlan(data[..m + 1])
  {
    assert data[..m + 1][..m] == data[..m];
    assert MealsPlan(data[..m + 1]) == MealsPlan(data[..m]) + MealPlan(data[m]);
  }

  /** A placeholder is flagged exactly when some warning step finds it in the working text. */
  lemma {:induction false} FlaggedIff(s: string, plan: seq<Replacement>, t: string)
    ensures t in Flagged(s, plan) <==> exists j :: FlagsAt(s, plan, j, t)
    decreases |plan|
  {
    if plan != [] {
      var init := plan[..|plan| - 1];
      var last := plan[|plan| - 1];
      var step := if Warns(last) && Contains(ApplyAll(s, init), last.token) then [last.token] else [];
      assert Flagged(s, plan) == Flagged(s, init) + step;
      FlaggedIff(s, init, t);
      if t in Flagged(s, init) {
        var j :| FlagsAt(s, init, j, t);
        assert init[..j] == plan[..j];
        assert FlagsAt(s, plan, j, t);
      }
      if t in step {
        assert plan[..|plan| - 1] == init;
        assert FlagsAt(s, plan, |plan| - 1, t);
      }
      if exists j :: FlagsAt(s, plan, j, t) {
        var j :| FlagsAt(s, plan, j, t);
        if j < |plan| - 1 {
          assert init[..j] == plan[..j];
          assert FlagsAt(s, init, j, t);
          assert t in Flagged(s, init);
        } else {
          assert plan[..j] == init;
          assert t in step;
        }
      }
    }
  }

  /**
   * A run turns red iff its original text contains the placeholder of some
   * warning step, and that placeholder is in the working text when the step
   * is reached.
   */
  lemma RedIff(runText: string, s: string, plan: seq<Replacement>)
    ensures TurnsRed(runText, s, plan) <==>
      exists j :: 0 <= j < |plan| && FlagsAt(s, plan, j, plan[j].token) && Contains(runText, plan[j].token)
  {
    if TurnsRed(runText, s, plan) {
      var t :| t in Flagged(s, plan) && Contains(runText, t);
      FlaggedIff(s, plan, t);
      var j :| FlagsAt(s, plan, j, t);
      assert FlagsAt(s, plan, j, plan[j].token) && Contains(runText, plan[j].token);
    }
    if exists j :: 0 <= j < |plan| && FlagsAt(s, plan, j, plan[j].token) && Contains(runText, plan[j].token) {
      var j :| 0 <= j < |plan| && FlagsAt(s, plan, j, plan[j].token) && Contains(runText, plan[j].token);
      FlaggedIff(s, plan, plan[j].token);
    }
  }

  /** A text in which no placeholder of the plan occurs comes out unchanged and flags nothing. */
  lemma {:induction false} NoTokensIdentity(s: string, plan: seq<Replacement>)
    requires forall j :: 0 <= j < |plan| ==> !Contains(s, plan[j].token)
    ensures ApplyAll(s, plan) == s
    ensures Flagged(s, plan) == []
    decreases |plan|
  {
    if plan != [] {
      var init := plan[..|plan| - 1];
      NoTokensIdentity(s, init);
      ReplaceAbsent(s, plan[|plan| - 1].token, plan[|plan| - 1].value);
    }
  }

  /** Entry `k` of the plan for slots `1 .. n` is field `k % 3` of slot `k / 3 + 1`. */
  lemma {:induction false} SlotsPlanAt(m: MealData, n: nat)
    requires n <= SlotCount(m)
    ensures |SlotsPlan(m, n)| == 3 * n
    ensures forall k :: 0 <= k < 3 * n ==> SlotsPlan(m, n)[k] == SlotPlan(m, k / 3 + 1)[k % 3]
  {
    if n > 0 {
      SlotsPlanAt(m, n - 1);
      var p := SlotsPlan(m, n);
      forall k | 0 <= k < 3 * n
        ensures p[k] == SlotPlan(m, k / 3 + 1)[k % 3]
      {
        if k >= 3 * (n - 1) {
          assert k / 3 == n - 1;
          assert p[k] == SlotPlan(m, n)[k - 3 * (n - 1)];
        } else {
          assert p[k] == SlotsPlan(m, n - 1)[k];
        }
      }
    }
  }

  /** Step `k` of a meal's plan has placeholder `{{meal_..._NN}}` for `NN = k / 3 + 1`. */
  lemma MealPlanAt(m: MealData, k: nat)
    requires k < |MealPlan(m)|
    ensures |MealPlan(m)| == 3 * SlotCount(m)
    ensures 1 <= k / 3 + 1 <= SlotCount(m)
    ensures MealPlan(m)[k].token == Token(m.name, [Item, Calories, Allergen][k % 3], k / 3 + 1)
    ensures MealPlan(m)[k].value == [m.items, m.calories, m.allergens][k % 3][k / 3]
    ensures MealPlan(m)[k].allergen <==> k % 3 == 2
  {
    SlotsPlanAt(m, SlotCount(m));
  }

  /** `t` is the placeholder of some slot `1 .. SlotCount` of some meal of `data`. */
  ghost predicate IsSlotToken(data: seq<MealData>, t: string) {
    exists q, f, i :: 0 <= q < |data| && 1 <= i <= SlotCount(data[q]) && t == Token(data[q].name, f, i)
  }

  lemma SlotTokenOfPrefix(data: seq<MealData>, n: nat, t: string)
    requires n <= |data| && IsSlotToken(data[..n], t)
    ensures IsSlotToken(data, t)
  {
    var q, f, i :| 0 <= q < n && 1 <= i <= SlotCount(data[..n][q]) && t == Token(data[..n][q].name, f, i);
    assert data[..n][q] == data[q];
  }

  lemma MealPlanTokens(data: seq<MealData>, q: nat, k: nat)
    requires q < |data| && k < |MealPlan(data[q])|
    ensures IsSlotToken(data, MealPlan(data[q])[k].token)
  {
    MealPlanAt(data[q], k);
    var f, i := [Item, Calories, Allergen][k % 3], k / 3 + 1;
    assert 1 <= i <= SlotCount(data[q]) && MealPlan(data[q])[k].token == Token(data[q].name, f, i);
  }

  /** Every step of the meals' plan is for a slot of a meal of `data`. */
  lemma {:induction false} MealsPlanTokens(data: seq<MealData>)
    ensures forall k :: 0 <= k < |MealsPlan(data)| ==> IsSlotToken(data, MealsPlan(data)[k].token)
    decreases |data|
  {
    if data != [] {
      var n := |data| - 1;
      var init := data[..n];
      MealsPlanTokens(init);
      var p := MealsPlan(data);
      var pinit, plast := MealsPlan(init), MealPlan(data[n]);
      assert p == pinit + plast;
      forall k | 0 <= k < |p|
        ensures IsSlotToken(data, p[k].token)
      {
        if k < |pinit| {
          assert p[k] == pinit[k];
          SlotTokenOfPrefix(data, n, p[k].token);
        } else {
          assert p[k] == plast[k - |pinit|];
          MealPlanTokens(data, n, k - |pinit|);
        }
      }
    }
  }

  predicate BraceFree(s: string) {
    forall k :: 0 <= k < |s| ==> s[k] != '{' && s[k] != '}'
  }

  /** A placeholder occurs inside another placeholder only if they are the same placeholder. */
  lemma BracedContains(a: string, b: string)
    requires BraceFree(a) && BraceFree(b)
    ensures Contains(Braced(a), Braced(b)) <==> a == b
  {
    var A, B := Braced(a), Braced(b);
    ContainsIff(A, B);
    if Contains(A, B) {
      var i: nat :| OccursAt(A, B, i);
      assert A[i] == B[0] == '{';
      assert A[i + 1] == B[1] == '{';
      assert forall k :: 2 <= k < |A| - 2 ==> A[k] == a[k - 2];
      assert i == 0;
      assert A[|B| - 1] == B[|B| - 1] == '}';
      assert A[|B| - 2] == B[|B| - 2] == '}';
      assert |B| == |A|;
      assert A == B;
      assert A[2..|A| - 2] == a;
      assert B[2..|B| - 2] == b;
    }
    if a == b {
      assert OccursAt(A, B, 0);
    }
  }

  lemma BracedInjective(a: string, b: string)
    requires Braced(a) == Braced(b)
    ensures a == b
  {
    assert a == Braced(a)[2..|Braced(a)| - 2];
    assert b == Braced(b)[2..|Braced(b)| - 2];
  }

  /** In `m + "_" + r` with no `_` in `m`, the first `_` is at position `|m|`. */
  lemma FirstUnderscore(m: string, r: string)
    requires '_' !in m
    ensures (m + "_" + r)[|m|] == '_'
    ensures forall k :: 0 <= k < |m + "_" + r| && (m + "_" + r)[k] == '_' ==> k >= |m|
  {
    forall k | 0 <= k < |m|
      ensures (m + "_" + r)[k] != '_'
    {
      assert (m + "_" + r)[k] == m[k];
    }
  }

  /** Two strings `m + "_" + r` with no `_` in `m` split at the same place. */
  lemma SplitAtUnderscore(m: string, r: string, m': string, r': string)
    requires '_' !in m && '_' !in m'
    requires m + "_" + r == m' + "_" + r'
    ensures m == m' && r == r'
  {
    var body, body' := m + "_" + r, m' + "_" + r';
    FirstUnderscore(m, r);
    FirstUnderscore(m', r');
    assert body'[|m|] == '_';
    assert body[|m'|] == '_';
    assert |m| == |m'|;
    assert m == body[..|m|];
    assert m' == body'[..|m'|];
    assert r == body[|m| + 1..];
    assert r' == body'[|m'| + 1..];
  }

  lemma FieldSuffixInjective(f: Field, i: nat, f': Field, j: nat)
    requires Suffix(f, i) == Suffix(f', j)
    ensures f == f' && i == j
  {
    var p, p' := Pad2(i), Pad2(j);
    var rest, rest' := Infix(f) + p, Infix(f') + p';
    assert IsDigit(p[0]) && IsDigit(p'[0]);
    assert rest[0] == (if f == Item then p[0] else Infix(f)[0]);
    assert rest'[0] == (if f' == Item then p'[0] else Infix(f')[0]);
    assert f == f';
    assert p == rest[|Infix(f)|..];
    assert p' == rest'[|Infix(f)|..];
  }

  /** Placeholders of slots determine their meal, field and slot number. */
  lemma TokenInjective(m: string, f: Field, i: nat, m': string, f': Field, j: nat)
    requires '_' !in m && '_' !in m'
    requires Token(m, f, i) == Token(m', f', j)
    ensures m == m' && f == f' && i == j
  {
    BracedInjective(TokenBody(m, f, i), TokenBody(m', f', j));
    SplitAtUnderscore(m, Suffix(f, i), m', Suffix(f', j));
    FieldSuffixInjective(f, i, f', j);
  }

  /** The text between the braces of a slot placeholder has no braces if the meal name has none. */
  lemma TokenBodyBraceFree(m: string, f: Field, i: nat)
    requires BraceFree(m)
    ensures BraceFree(TokenBody(m, f, i))
  {
    var body := TokenBody(m, f, i);
    var p := Pad2(i);
    assert body == m + "_" + Infix(f) + p;
    forall k | 0 <= k < |body|
      ensures body[k] != '{' && body[k] != '}'
    {
      if k < |m| {
        assert body[k] == m[k];
      } else if k >= |body| - |p| {
        assert body[k] == p[k - (|body| - |p|)];
        assert IsDigit(p[k - (|body| - |p|)]);
      }
    }
  }

  /** `t` is a placeholder whose brace-free body differs from `x`. */
  ghost predicate OtherPlaceholder(t: string, x: string) {
    exists b :: BraceFree(b) && b != x && t == Braced(b)
  }

  /** Every step of the plan is for a placeholder other than one that names no step. */
  lemma PlanStepOther(data: seq<MealData>, todayDate: string, dayName: string, x: string, j: nat)
    requires forall q :: 0 <= q < |data| ==> BraceFree(data[q].name)
    requires Braced(x) != DateToken && Braced(x) != DayToken && !IsSlotToken(data, Braced(x))
    requires j < |Plan(data, todayDate, dayName)|
    ensures OtherPlaceholder(Plan(data, todayDate, dayName)[j].token, x)
  {
    var plan := Plan(data, todayDate, dayName);
    var meals := MealsPlan(data);
    assert plan == Prelude(todayDate, dayName) + meals;
    if j == 0 {
      assert BraceFree("date") && "date" != x && plan[j].token == Braced("date");
    } else if j == 1 {
      assert BraceFree("day") && "day" != x && plan[j].token == Braced("day");
    } else {
      assert plan[j] == meals[j - 2];
      MealsPlanTokens(data);
      SlotTokenOther(data, x, plan[j].token);
    }
  }

  lemma SlotTokenOther(data: seq<MealData>, x: string, t: string)
    requires forall q :: 0 <= q < |data| ==> BraceFree(data[q].name)
    requires IsSlotToken(data, t) && !IsSlotToken(data, Braced(x))
    ensures OtherPlaceholder(t, x)
  {
    var q, f, i :| 0 <= q < |data| && 1 <= i <= SlotCount(data[q]) && t == Token(data[q].name, f, i);
    var body := TokenBody(data[q].name, f, i);
    TokenBodyBraceFree(data[q].name, f, i);
    assert Braced(x) != Token(data[q].name, f, i);
    assert BraceFree(body) && body != x && t == Braced(body);
  }

  /** Step `j` of the plan does not find a placeholder that names no step. */
  lemma PlanTokenAbsent(data: seq<MealData>, todayDate: string, dayName: string, x: string, j: nat)
    requires forall q :: 0 <= q < |data| ==> BraceFree(data[q].name)
    requires BraceFree(x)
    requires Braced(x) != DateToken && Braced(x) != DayToken && !IsSlotToken(data, Braced(x))
    requires j < |Plan(data, todayDate, dayName)|
    ensures !Contains(Braced(x), Plan(data, todayDate, dayName)[j].token)
  {
    PlanStepOther(data, todayDate, dayName, x, j);
    var b :| BraceFree(b) && b != x && Plan(data, todayDate, dayName)[j].token == Braced(b);
    BracedContains(x, b);
  }

  /**
   * A placeholder that names no step of the plan (an unknown meal, or a slot
   * number past a meal's slots) is left verbatim and colours nothing.
   */
  lemma UnknownPlaceholderVerbatim(data: seq<MealData>, todayDate: string, dayName: string, x: string)
    requires forall q :: 0 <= q < |data| ==> BraceFree(data[q].name)
    requires BraceFree(x)
    requires Braced(x) != DateToken && Braced(x) != DayToken && !IsSlotToken(data, Braced(x))
    ensures ApplyAll(Braced(x), Plan(data, todayDate, dayName)) == Braced(x)
    ensures Flagged(Braced(x), Plan(data, todayDate, dayName)) == []
  {
    var plan := Plan(data, todayDate, dayName);
    forall j | 0 <= j < |plan|
      ensures !Contains(Braced(x), plan[j].token)
    {
      PlanTokenAbsent(data, todayDate, dayName, x, j);
    }
    NoTokensIdentity(Braced(x), plan);
  }

  /** The meal names have no `_` and no braces, and no two have the same length. */
  lemma MealNamesPlain()
    ensures forall r :: 0 <= r < |MealNames| ==> '_' !in MealNames[r] && BraceFree(MealNames[r]) && |MealNames[r]| >= 5
    ensures forall r, r' :: 0 <= r < |MealNames| && 0 <= r' < |MealNames| && |MealNames[r]| == |MealNames[r']| ==> r == r'
  {
  }

  /** After resolution, a slot placeholder of the plan is for meal `q`'s slots `1 .. MealSlots[q]`. */
  lemma ResolvedSlotToken(catalog: seq<Row>, form: Form, q: nat, f: Field, i: nat)
    requires q < |MealNames|
    requires IsSlotToken(Resolve(catalog, form), Token(MealNames[q], f, i))
    ensures 1 <= i <= MealSlots[q]
  {
    var data := Resolve(catalog, form);
    MealNamesPlain();
    var q', f', j :| 0 <= q' < |data| && 1 <= j <= SlotCount(data[q']) && Token(MealNames[q], f, i) == Token(data[q'].name, f', j);
    TokenInjective(MealNames[q], f, i, data[q'].name, f', j);
    assert |MealNames[q]| == |MealNames[q']|;
  }

  /** The placeholders of a resolved form for slot numbers past a meal's slot count stay verbatim. */
  lemma SlotPastEndVerbatim(catalog: seq<Row>, form: Form, todayDate: string, dayName: string, q: nat, f: Field, i: nat)
    requires q < |MealNames| && i > MealSlots[q]
    ensures ApplyAll(Token(MealNames[q], f, i), Plan(Resolve(catalog, form), todayDate, dayName)) == Token(MealNames[q], f, i)
  {
    MealNamesPlain();
    PastEndUnknown(catalog, form, q, f, i);
    UnknownPlaceholderVerbatim(Resolve(catalog, form), todayDate, dayName, TokenBody(MealNames[q], f, i));
  }

  /** Character `k` of `{{b}}`. */
  lemma BracedAt(b: string, k: nat)
    requires k < |Braced(b)|
    ensures Braced(b)[k] == if k < 2 then '{' else if k < |b| + 2 then b[k - 2] else '}'
  {
  }

  /**
   * Two different placeholders never overlap: an occurrence of `{{b}}` at
   * `j` cannot share a character with an occurrence of `{{a}}` at `i`.
   */
  lemma OverlapMismatch(s: string, a: string, b: string, i: nat, j: nat)
    requires BraceFree(a) && BraceFree(b) && a != b
    requires OccursAt(s, Braced(a), i)
    requires i < j + |Braced(b)| && j < i + |Braced(a)|
    ensures !OccursAt(s, Braced(b), j)
  {
    var A, B := Braced(a), Braced(b);
    if j + |B| <= |s| {
      var k: nat;
      if j < i {
        if i + 1 < j + |B| {
          k := i + 1 - j;
          OccursAtChar(s, A, i, 1);
          BracedAt(a, 1);
        } else {
          k := |B| - 1;
          OccursAtChar(s, A, i, 0);
          BracedAt(a, 0);
        }
      } else if j == i {
        if |A| == |B| {
          var d :| 0 <= d < |a| && a[d] != b[d];
          k := d + 2;
          OccursAtChar(s, A, i, k);
          BracedAt(a, k);
        } else if |A| < |B| {
          k := |A| - 2;
          OccursAtChar(s, A, i, k);
          BracedAt(a, k);
        } else {
          k := |B| - 2;
          OccursAtChar(s, A, i, k);
          BracedAt(a, k);
        }
      } else {
        k := if j + 1 < i + |A| then 1 else 0;
        OccursAtChar(s, A, i, j + k - i);
        BracedAt(a, j + k - i);
      }
      BracedAt(b, k);
      assert s[j + k] != B[k];
      assert s[j..j + |B|][k] == s[j + k];
    }
  }

  /** A text that starts with `{{a}}` keeps it when a different placeholder is replaced. */
  lemma ReplaceAfterPlaceholder(a: string, b: string, y: string, v: string)
    requires BraceFree(a) && BraceFree(b) && a != b
    ensures ReplaceAll(Braced(a) + y, Braced(b), v) == Braced(a) + ReplaceAll(y, Braced(b), v)
  {
    var A, B := Braced(a), Braced(b);
    assert OccursAt(A + y, A, 0);
    forall j | 0 <= j < |A| < j + |B|
      ensures !OccursAt(A + y, B, j)
    {
      OverlapMismatch(A + y, a, b, 0, j);
    }
    ReplaceConcat(A, y, B, v);
    BracedContains(a, b);
    ReplaceAbsent(A, B, v);
  }

  /** Replacing one placeholder never destroys an occurrence of a different one. */
  lemma ReplaceKeepsPlaceholder(s: string, a: string, b: string, v: string)
    requires BraceFree(a) && BraceFree(b) && a != b
    requires Contains(s, Braced(a))
    ensures Contains(ReplaceAll(s, Braced(b), v), Braced(a))
  {
    var A, B := Braced(a), Braced(b);
    ContainsIff(s, A);
    var i: nat :| OccursAt(s, A, i);
    var x, y := s[..i], s[i + |A|..];
    assert s == x + (A + y);
    forall j | 0 <= j < |x| < j + |B|
      ensures !OccursAt(x + (A + y), B, j)
    {
      OverlapMismatch(s, a, b, i, j);
    }
    ReplaceConcat(x, A + y, B, v);
    ReplaceAfterPlaceholder(a, b, y, v);
    ContainsMiddle(ReplaceAll(x, B, v), A, ReplaceAll(y, B, v));
  }

  /** A placeholder no step names survives every step. */
  lemma {:induction false} ApplyAllKeeps(s: string, plan: seq<Replacement>, x: string)
    requires BraceFree(x) && Contains(s, Braced(x))
    requires forall j :: 0 <= j < |plan| ==> OtherPlaceholder(plan[j].token, x)
    ensures Contains(ApplyAll(s, plan), Braced(x))
    decreases |plan|
  {
    if plan != [] {
      var init, last := plan[..|plan| - 1], plan[|plan| - 1];
      assert forall j :: 0 <= j < |init| ==> init[j] == plan[j];
      ApplyAllKeeps(s, init, x);
      assert OtherPlaceholder(last.token, x);
      var b :| BraceFree(b) && b != x && last.token == Braced(b);
      ReplaceKeepsPlaceholder(ApplyAll(s, init), x, b, last.value);
    }
  }

  /**
   * Inside any paragraph text, a placeholder that names no step of the plan
   * is still there after every step, and it is never flagged.
   */
  lemma UnknownPlaceholderKept(data: seq<MealData>, todayDate: string, dayName: string, x: string, s: string)
    requires forall q :: 0 <= q < |data| ==> BraceFree(data[q].name)
    requires BraceFree(x)
    requires Braced(x) != DateToken && Braced(x) != DayToken && !IsSlotToken(data, Braced(x))
    ensures Contains(s, Braced(x)) ==> Contains(ApplyAll(s, Plan(data, todayDate, dayName)), Braced(x))
    ensures Braced(x) !in Flagged(s, Plan(data, todayDate, dayName))
  {
    var plan := Plan(data, todayDate, dayName);
    forall j | 0 <= j < |plan|
      ensures OtherPlaceholder(plan[j].token, x)
    {
      PlanStepOther(data, todayDate, dayName, x, j);
    }
    if Contains(s, Braced(x)) {
      ApplyAllKeeps(s, plan, x);
    }
    forall t | t in Flagged(s, plan)
      ensures IsSlotToken(data, t)
    {
      FlaggedAreSlotTokens(s, data, todayDate, dayName, t);
    }
  }

  /** After resolution, a placeholder past a meal's slot count names no step of the plan. */
  lemma PastEndUnknown(catalog: seq<Row>, form: Form, q: nat, f: Field, i: nat)
    requires q < |MealNames| && i > MealSlots[q]
    ensures BraceFree(MealNames[q]) && BraceFree(TokenBody(MealNames[q], f, i))
    ensures Token(MealNames[q], f, i) != DateToken && Token(MealNames[q], f, i) != DayToken
    ensures !IsSlotToken(Resolve(catalog, form), Token(MealNames[q], f, i))
  {
    var x := TokenBody(MealNames[q], f, i);
    MealNamesPlain();
    TokenBodyBraceFree(MealNames[q], f, i);
    assert |Braced(x)| > |DateToken| && |Braced(x)| > |DayToken|;
    if IsSlotToken(Resolve(catalog, form), Braced(x)) {
      ResolvedSlotToken(catalog, form, q, f, i);
    }
  }

  /** Inside any paragraph text, a placeholder past a meal's slot count survives and is never flagged. */
  lemma SlotPastEndKept(catalog: seq<Row>, form: Form, todayDate: string, dayName: string,
                        q: nat, f: Field, i: nat, s: string)
    requires q < |MealNames| && i > MealSlots[q]
    ensures Contains(s, Token(MealNames[q], f, i)) ==>
      Contains(ApplyAll(s, Plan(Resolve(catalog, form), todayDate, dayName)), Token(MealNames[q], f, i))
    ensures Token(MealNames[q], f, i) !in Flagged(s, Plan(Resolve(catalog, form), todayDate, dayName))
  {
    MealNamesPlain();
    PastEndUnknown(catalog, form, q, f, i);
    UnknownPlaceholderKept(Resolve(catalog, form), todayDate, dayName, TokenBody(MealNames[q], f, i), s);
  }

  /** The meal names have no `_` and no braces, and no two meals share a name. */
  predicate PlainNames(data: seq<MealData>) {
    && (forall q :: 0 <= q < |data| ==> '_' !in data[q].name && BraceFree(data[q].name))
    && (forall q, q' :: 0 <= q < |data| && 0 <= q' < |data| && data[q].name == data[q'].name ==> q == q')
  }

  /** The steps of the first `n` meals are the first steps of all meals. */
  lemma {:induction false} MealsPlanPrefix(data: seq<MealData>, n: nat)
    requires n <= |data|
    ensures MealsPlan(data[..n]) <= MealsPlan(data)
    decreases |data|
  {
    if n < |data| {
      var init := data[..|data| - 1];
      MealsPlanPrefix(init, n);
      assert init[..n] == data[..n];
      PrefixConcat(MealsPlan(data[..n]), MealsPlan(init), MealPlan(data[|data| - 1]));
    } else {
      assert data[..n] == data;
    }
  }

  /** `{{date}}` and `{{day}}` are other placeholders than any allergen placeholder. */
  lemma {:induction false} PreludeOther(todayDate: string, dayName: string, meal: string, i: nat, j: nat)
    requires j < 2
    ensures OtherPlaceholder(Prelude(todayDate, dayName)[j].token, TokenBody(meal, Allergen, i))
  {
    var x := TokenBody(meal, Allergen, i);
    assert |x| >= 5;
    var b := if j == 0 then "date" else "day";
    assert BraceFree(b) && b != x && Prelude(todayDate, dayName)[j].token == Braced(b);
  }

  /** The steps of earlier meals are for other placeholders than meal `q`'s allergen placeholders. */
  lemma {:induction false} EarlierMealOther(data: seq<MealData>, q: nat, i: nat, t: string)
    requires PlainNames(data) && q < |data|
    requires IsSlotToken(data[..q], t)
    ensures OtherPlaceholder(t, TokenBody(data[q].name, Allergen, i))
  {
    var q', f, i' :| 0 <= q' < q && 1 <= i' <= SlotCount(data[..q][q']) && t == Token(data[..q][q'].name, f, i');
    assert data[..q][q'] == data[q'];
    var body := TokenBody(data[q'].name, f, i');
    TokenBodyBraceFree(data[q'].name, f, i');
    if body == TokenBody(data[q].name, Allergen, i) {
      TokenInjective(data[q'].name, f, i', data[q].name, Allergen, i);
    }
    assert body != TokenBody(data[q].name, Allergen, i);
    assert t == Braced(body);
  }

  /** Within a meal, the steps before slot `i`'s allergen step are for other placeholders. */
  lemma {:induction false} EarlierSlotOther(m: MealData, i: nat, k: nat)
    requires '_' !in m.name && BraceFree(m.name)
    requires 1 <= i <= SlotCount(m) && k < 3 * (i - 1) + 2
    ensures k < |MealPlan(m)|
    ensures OtherPlaceholder(MealPlan(m)[k].token, TokenBody(m.name, Allergen, i))
  {
    SlotsPlanAt(m, SlotCount(m));
    MealPlanAt(m, k);
    var r, j := k % 3, k / 3 + 1;
    assert k == 3 * (j - 1) + r;
    var f := [Item, Calories, Allergen][r];
    assert f != Allergen || j != i;
    var body := TokenBody(m.name, f, j);
    TokenBodyBraceFree(m.name, f, j);
    if body == TokenBody(m.name, Allergen, i) {
      TokenInjective(m.name, f, j, m.name, Allergen, i);
    }
    assert MealPlan(m)[k].token == Braced(body) && body != TokenBody(m.name, Allergen, i);
  }

  /** The steps of slots `1 .. n` are three per slot. */
  lemma {:induction false} SlotsPlanLength(m: MealData, n: nat)
    requires n <= SlotCount(m)
    ensures |SlotsPlan(m, n)| == 3 * n
  {
    if n > 0 {
      SlotsPlanLength(m, n - 1);
    }
  }

  /** The steps of slots `1 .. i` are the first steps of those of slots `1 .. n`. */
  lemma {:induction false} SlotsPlanPrefix(m: MealData, i: nat, n: nat)
    requires i <= n <= SlotCount(m)
    ensures SlotsPlan(m, i) <= SlotsPlan(m, n)
    decreases n
  {
    if i < n {
      SlotsPlanPrefix(m, i, n - 1);
      PrefixConcat(SlotsPlan(m, i), SlotsPlan(m, n - 1), SlotPlan(m, n));
    }
  }

  /** A prefix of `b` is a prefix of `b + c`. */
  lemma PrefixConcat<T>(a: seq<T>, b: seq<T>, c: seq<T>)
    requires a <= b
    ensures a <= b + c
  {
    assert (b + c)[..|a|] == b[..|a|];
  }

  /** Step `3 * (i - 1) + 2` of a meal's plan is the allergen step of slot `i`. */
  lemma {:induction false} MealAllergenStep(m: MealData, i: nat)
    requires 1 <= i <= SlotCount(m)
    ensures 3 * (i - 1) + 2 < |MealPlan(m)|
    ensures MealPlan(m)[3 * (i - 1) + 2] == SlotPlan(m, i)[2]
  {
    var k := 3 * (i - 1) + 2;
    SlotsPlanPrefix(m, i, SlotCount(m));
    SlotsPlanLength(m, i - 1);
    assert SlotsPlan(m, i) == SlotsPlan(m, i - 1) + SlotPlan(m, i);
    assert SlotsPlan(m, i)[k] == SlotPlan(m, i)[2];
  }

  /** Step `j` of the earlier meals' steps is step `2 + j` of the plan. */
  lemma {:induction false} PlanAtEarlierStep(data: seq<MealData>, todayDate: string, dayName: string, q: nat, j: nat)
    requires q <= |data| && j < |MealsPlan(data[..q])|
    ensures 2 + j < |Plan(data, todayDate, dayName)|
    ensures Plan(data, todayDate, dayName)[2 + j] == MealsPlan(data[..q])[j]
  {
    MealsPlanPrefix(data, q);
    assert MealsPlan(data[..q])[j] == MealsPlan(data)[j];
  }

  /** The steps of the first `q + 1` meals are those of the first `q` followed by meal `q`'s. */
  lemma MealsPlanTake(data: seq<MealData>, q: nat)
    requires q < |data|
    ensures MealsPlan(data[..q + 1]) == MealsPlan(data[..q]) + MealPlan(data[q])
  {
    assert data[..q + 1][..q] == data[..q];
  }

  /** Indexing behind a prefix `a + b` of `all`, itself behind `pre`. */
  lemma PrefixIndex<T>(pre: seq<T>, a: seq<T>, b: seq<T>, all: seq<T>, k: nat)
    requires a + b <= all && k < |b|
    ensures |pre| + |a| + k < |pre + all| && (pre + all)[|pre| + |a| + k] == b[k]
  {
    assert (a + b)[|a| + k] == b[k];
  }

  /** Step `k` of meal `q`'s steps follows the prelude and the earlier meals' steps in the plan. */
  lemma {:induction false} PlanAtMealStep(data: seq<MealData>, todayDate: string, dayName: string, q: nat, k: nat)
    requires q < |data| && k < |MealPlan(data[q])|
    ensures 2 + |MealsPlan(data[..q])| + k < |Plan(data, todayDate, dayName)|
    ensures Plan(data, todayDate, dayName)[2 + |MealsPlan(data[..q])| + k] == MealPlan(data[q])[k]
  {
    var pre, all := Prelude(todayDate, dayName), MealsPlan(data);
    var earlier, current := MealsPlan(data[..q]), MealPlan(data[q]);
    MealsPlanPrefix(data, q + 1);
    MealsPlanTake(data, q);
    PrefixIndex(pre, earlier, current, all, k);
    assert Plan(data, todayDate, dayName) == pre + all && |pre| == 2;
  }

  /** Step `j'` of the plan, before slot `i`'s allergen step of meal `q`, is for another placeholder. */
  lemma {:induction false} StepBeforeAllergenOther(data: seq<MealData>, todayDate: string, dayName: string, q: nat, i: nat, j': nat)
    requires PlainNames(data) && q < |data| && 1 <= i <= SlotCount(data[q])
    requires j' < 2 + |MealsPlan(data[..q])| + 3 * (i - 1) + 2
    ensures j' < |Plan(data, todayDate, dayName)|
    ensures OtherPlaceholder(Plan(data, todayDate, dayName)[j'].token, TokenBody(data[q].name, Allergen, i))
  {
    var plan := Plan(data, todayDate, dayName);
    var earlier := MealsPlan(data[..q]);
    var x := TokenBody(data[q].name, Allergen, i);
    if j' < 2 {
      MealAllergenStep(data[q], i);
      PlanAtMealStep(data, todayDate, dayName, q, 3 * (i - 1) + 2);
      PreludeOther(todayDate, dayName, data[q].name, i, j');
      assert plan[j'] == Prelude(todayDate, dayName)[j'];
    } else if j' < 2 + |earlier| {
      var e := j' - 2;
      PlanAtEarlierStep(data, todayDate, dayName, q, e);
      MealsPlanTokens(data[..q]);
      EarlierMealOther(data, q, i, earlier[e].token);
      assert plan[2 + e].token == earlier[e].token;
    } else {
      var k := j' - 2 - |earlier|;
      EarlierSlotOther(data[q], i, k);
      PlanAtMealStep(data, todayDate, dayName, q, k);
      assert plan[2 + |earlier| + k].token == MealPlan(data[q])[k].token;
    }
  }

  /** The allergen step of slot `i` of meal `q` in the plan. */
  lemma {:induction false} PlanAllergenStep(data: seq<MealData>, todayDate: string, dayName: string, q: nat, i: nat)
    requires q < |data| && 1 <= i <= SlotCount(data[q])
    ensures 2 + |MealsPlan(data[..q])| + (3 * (i - 1) + 2) < |Plan(data, todayDate, dayName)|
    ensures Plan(data, todayDate, dayName)[2 + |MealsPlan(data[..q])| + (3 * (i - 1) + 2)] == SlotPlan(data[q], i)[2]
  {
    var k := 3 * (i - 1) + 2;
    MealAllergenStep(data[q], i);
    PlanAtMealStep(data, todayDate, dayName, q, k);
    assert Plan(data, todayDate, dayName)[2 + |MealsPlan(data[..q])| + k] == MealPlan(data[q])[k];
  }

  /**
   * Slot `i` of meal `q` has an allergen step in the plan, and every step
   * before it is for another placeholder.
   */
  lemma {:induction false} AllergenStep(data: seq<MealData>, todayDate: string, dayName: string, q: nat, i: nat) returns (j: nat)
    requires PlainNames(data) && q < |data| && 1 <= i <= SlotCount(data[q])
    ensures j < |Plan(data, todayDate, dayName)|
    ensures Plan(data, todayDate, dayName)[j]
      == Replacement(Token(data[q].name, Allergen, i), data[q].allergens[i - 1], true)
    ensures forall j' :: 0 <= j' < j ==>
      OtherPlaceholder(Plan(data, todayDate, dayName)[j'].token, TokenBody(data[q].name, Allergen, i))
  {
    PlanAllergenStep(data, todayDate, dayName, q, i);
    j := 2 + |MealsPlan(data[..q])| + (3 * (i - 1) + 2);
    assert SlotPlan(data[q], i)[2] == Replacement(Token(data[q].name, Allergen, i), data[q].allergens[i - 1], true);
    forall j' | 0 <= j' < j
      ensures OtherPlaceholder(Plan(data, todayDate, dayName)[j'].token, TokenBody(data[q].name, Allergen, i))
    {
      StepBeforeAllergenOther(data, todayDate, dayName, q, i, j');
    }
  }

  /**
   * An allergen placeholder that is in the paragraph text and in a run's own
   * text turns that run red when its slot's value is not the sentinel:
   * no earlier step can remove it.
   */
  lemma {:induction false} AllergenPlaceholderTurnsRed(data: seq<MealData>, todayDate: string, dayName: string,
                                    runText: string, s: string, q: nat, i: nat)
    requires PlainNames(data) && q < |data| && 1 <= i <= SlotCount(data[q])
    requires data[q].allergens[i - 1] != FreeOfAllergens
    requires Contains(s, Token(data[q].name, Allergen, i)) && Contains(runText, Token(data[q].name, Allergen, i))
    ensures TurnsRed(runText, s, Plan(data, todayDate, dayName))
  {
    var plan := Plan(data, todayDate, dayName);
    var x := TokenBody(data[q].name, Allergen, i);
    var j := AllergenStep(data, todayDate, dayName, q, i);
    TokenBodyBraceFree(data[q].name, Allergen, i);
    assert forall j' :: 0 <= j' < |plan[..j]| ==> plan[..j][j'] == plan[j'];
    ApplyAllKeeps(s, plan[..j], x);
    assert FlagsAt(s, plan, j, plan[j].token) && Contains(runText, plan[j].token);
    RedIff(runText, s, plan);
  }

  /** Only slot placeholders are ever flagged: `{{date}}` and `{{day}}` are not allergen steps. */
  lemma FlaggedAreSlotTokens(s: string, data: seq<MealData>, todayDate: string, dayName: string, t: string)
    requires t in Flagged(s, Plan(data, todayDate, dayName))
    ensures IsSlotToken(data, t)
  {
    var plan := Plan(data, todayDate, dayName);
    FlaggedIff(s, plan, t);
    var j :| FlagsAt(s, plan, j, t);
    assert j >= 2;
    MealsPlanTokens(data);
    assert plan[j] == MealsPlan(data)[j - 2];
  }

  /** Every placeholder starts with `{{` and ends with `}}`. */
  lemma BracedHasBraces(body: string)
    ensures Contains(Braced(body), "{{") && Contains(Braced(body), "}}")
  {
    var t := Braced(body);
    assert OccursAt(t, "{{", 0);
    assert OccursAt(t, "}}", |t| - 2);
    ContainsIff(t, "{{");
    ContainsIff(t, "}}");
  }

  /**
   * Colour is decided on the runs' own text: a run that lacks `{{` or lacks
   * `}}` (for instance one holding half of a placeholder split across runs)
   * never turns red, whatever the paragraph's joined text contains.
   */
  lemma SplitPlaceholderNotRed(runText: string, s: string, data: seq<MealData>, todayDate: string, dayName: string)
    requires !Contains(runText, "{{") || !Contains(runText, "}}")
    ensures !TurnsRed(runText, s, Plan(data, todayDate, dayName))
  {
    var plan := Plan(data, todayDate, dayName);
    if TurnsRed(runText, s, plan) {
      var t :| t in Flagged(s, plan) && Contains(runText, t);
      FlaggedAreSlotTokens(s, data, todayDate, dayName, t);
      var q, f, i :| 0 <= q < |data| && 1 <= i <= SlotCount(data[q]) && t == Token(data[q].name, f, i);
      BracedHasBraces(TokenBody(data[q].name, f, i));
      if !Contains(runText, "{{") {
        ContainsTransitive(runText, t, "{{");
      } else {
        ContainsTransitive(runText, t, "}}");
      }
    }
  }

  /**
   * Replacement values are scanned by later steps: a date text that itself
   * reads `{{day}}` is turned into the day name by the next step.
   */
  lemma ValuesRescanned(dayName: string)
    ensures ApplyAll(DateToken, Prelude(DayToken, dayName)) == dayName
  {
    var plan := Prelude(DayToken, dayName);
    ApplyAllSnoc(DateToken, [], plan[0]);
    ApplyAllSnoc(DateToken, [plan[0]], plan[1]);
    assert [] + [plan[0]] == [plan[0]];
    assert [plan[0]] + [plan[1]] == plan;
    ReplaceWhole(DateToken, DayToken);
    ReplaceWhole(DayToken, dayName);
  }
}

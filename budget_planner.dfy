/**
 * The budget arithmetic of `tailwindcss4/src/components/BudgetPlanner.jsx`:
 * spending per category, the category list built from the stored budgets,
 * progress percentage and colour, the budgets map sent to the server, the
 * add / update / delete list updates and the summary totals.
 */
module BudgetPlanner {
  import opened Wrappers
  import opened JsonData
  import opened Text
  import opened Seqs
  import opened Ledger
  import opened Inputs
  import Backend

  /** A category id: one of the numbered defaults, or a random base-36 token. */
  datatype CategoryId = Preset(n: nat) | Generated(token: string)

  datatype Category = Category(id: CategoryId, name: string, budget: int, spent: nat, description: string)

  // ---------------------------------------------------------------------------
  // Spending per category

  /** `String(v)` for a value used as a property key. */
  function PropertyKey(v: Json): string
    decreases v
  {
    match v
    case JNull => "null"
    case JBool(b) => if b then "true" else "false"
    case JNum(n) => IntToString(n)
    case JStr(s) => s
    case JObj(_) => "[object Object]"
    case JArr(items) => Join(seq(|items|, i requires 0 <= i < |items| => if items[i] == JNull then "" else PropertyKey(items[i])))
  }

  /** `parts.join(",")` */
  function Join(parts: seq<string>): string {
    if parts == [] then "" else if |parts| == 1 then parts[0] else parts[0] + "," + Join(parts[1..])
  }

  /** The key `acc[t.category]` writes for a transaction object: an absent category is `"undefined"`. */
  function CategoryKey(t: Json): string {
    if t.JObj? && "category" in t.fields then PropertyKey(t.fields["category"]) else "undefined"
  }

  /** What one transaction adds to the spending of `name`: the magnitude of a negative numeric amount in that category. */
  function Contribution(t: Json, name: string): nat {
    var a := AmountOf(t);
    if a.Num? && a.value < 0 && CategoryKey(t) == name then -a.value else 0
  }

  /** The spending of category `name` over a list of transactions. */
  function Spent(txs: seq<Json>, name: string): nat {
    if txs == [] then 0 else Spent(txs[..|txs| - 1], name) + Contribution(txs[|txs| - 1], name)
  }

  /** Only negative numeric amounts count: a list without them has spent nothing anywhere. */
  lemma {:induction false} NoExpensesNoSpending(txs: seq<Json>, name: string)
    requires forall i :: 0 <= i < |txs| ==> !(AmountOf(txs[i]).Num? && AmountOf(txs[i]).value < 0)
    ensures Spent(txs, name) == 0
  {
    if txs != [] {
      NoExpensesNoSpending(txs[..|txs| - 1], name);
    }
  }

  /** The spending of a category adds up over concatenated lists. */
  lemma {:induction false} SpentAppend(xs: seq<Json>, ys: seq<Json>, name: string)
    ensures Spent(xs + ys, name) == Spent(xs, name) + Spent(ys, name)
    decreases |ys|
  {
    if ys != [] {
      var init := ys[..|ys| - 1];
      assert (xs + ys)[..|xs + ys| - 1] == xs + init;
      SpentAppend(xs, init, name);
    } else {
      assert xs + ys == xs;
    }
  }

  /**
   * The `spentMap` reduce: a key for every category with spending, holding
   * that spending.
   */
  method SpentByCategory(txs: seq<Json>) returns (spent: map<string, nat>)
    ensures forall name :: name in spent <==> Spent(txs, name) > 0
    ensures forall name :: name in spent ==> spent[name] == Spent(txs, name)
  {
    spent := map[];
    for i := 0 to |txs|
      invariant forall name :: name in spent <==> Spent(txs[..i], name) > 0
      invariant forall name :: name in spent ==> spent[name] == Spent(txs[..i], name)
    {
      var t := txs[i];
      assert txs[..i + 1][..i] == txs[..i];
      var a := AmountOf(t);
      if a.Num? && a.value < 0 {
        var key := CategoryKey(t);
        var before := if key in spent then spent[key] else 0;
        spent := spent[key := before + -a.value];
      }
    }
    assert txs[..|txs|] == txs;
  }

  /** `spentMap[name] || 0` */
  function SpentOr0(spent: map<string, nat>, name: string): nat {
    if name in spent then spent[name] else 0
  }

  // ---------------------------------------------------------------------------
  // Building the categories

  /** `Number(limit) || 0` for a stored budget limit. */
  function NumberOr0(limit: Json): int {
    match limit
    case JNum(n) => n
    case JBool(b) => if b then 1 else 0
    case JStr(s) => ParseInteger(Trim(s)).GetOr(0)
    case _ => 0
  }

  function DigitsValue(ds: string): nat
    requires forall i :: 0 <= i < |ds| ==> '0' <= ds[i] <= '9'
  {
    if ds == [] then 0 else DigitsValue(ds[..|ds| - 1]) * 10 + (ds[|ds| - 1] as int - '0' as int)
  }

  predicate AllDigits(ds: string) {
    ds != [] && forall i :: 0 <= i < |ds| ==> '0' <= ds[i] <= '9'
  }

  /** A decimal integer with an optional sign, as `Number` reads it from already trimmed text. */
  function ParseInteger(s: string): Option<int> {
    if AllDigits(s) then Some(DigitsValue(s))
    else if |s| >= 2 && s[0] == '+' && AllDigits(s[1..]) then Some(DigitsValue(s[1..]))
    else if |s| >= 2 && s[0] == '-' && AllDigits(s[1..]) then Some(-(DigitsValue(s[1..]) as int))
    else None
  }

  /** The four categories shown when the user has no budgets yet. */
  function Defaults(txs: seq<Json>): seq<Category> {
    [ Category(Preset(1), "Groceries", 8000, Spent(txs, "Groceries"), "Track your spending on groceries"),
      Category(Preset(2), "Transportation", 5000, Spent(txs, "Transportation"), "Track your spending on transportation"),
      Category(Preset(3), "Entertainment", 4000, Spent(txs, "Entertainment"), "Track your spending on entertainment"),
      Category(Preset(4), "Dining Out", 3500, Spent(txs, "Dining Out"), "Track your spending on dining out") ]
  }

  /** The category made from one budgets entry. */
  function FromEntry(entry: (string, Json), spent: nat, token: string): Category {
    Category(Generated(token), entry.0, NumberOr0(entry.1), spent, "Track your spending on " + entry.0)
  }

  /**
   * `buildCategoriesFromUser`: the stored budgets, as entries in their
   * enumeration order, and the stored transactions give the category list.
   * `token(i)` is the random id drawn for the i-th entry.
   */
  function Built(entries: seq<(string, Json)>, txs: seq<Json>, token: nat -> string): (r: seq<Category>)
    ensures entries == [] ==> r == Defaults(txs)
    ensures entries != [] ==> |r| == |entries|
    ensures entries != [] ==> forall i :: 0 <= i < |entries| ==>
      r[i].name == entries[i].0 && r[i].budget == NumberOr0(entries[i].1) && r[i].spent == Spent(txs, entries[i].0)
  {
    if entries == [] then Defaults(txs)
    else
      var r := seq(|entries|, i requires 0 <= i < |entries| => FromEntry(entries[i], Spent(txs, entries[i].0), token(i)));
      assert forall i :: 0 <= i < |entries| ==> r[i] == FromEntry(entries[i], Spent(txs, entries[i].0), token(i));
      r
  }

  method BuildCategories(entries: seq<(string, Json)>, txs: seq<Json>, token: nat -> string) returns (r: seq<Category>)
    ensures r == Built(entries, txs, token)
  {
    var spent := SpentByCategory(txs);
    assert forall name :: SpentOr0(spent, name) == Spent(txs, name);
    if entries == [] {
      r := [
        Category(Preset(1), "Groceries", 8000, SpentOr0(spent, "Groceries"), "Track your spending on groceries"),
        Category(Preset(2), "Transportation", 5000, SpentOr0(spent, "Transportation"), "Track your spending on transportation"),
        Category(Preset(3), "Entertainment", 4000, SpentOr0(spent, "Entertainment"), "Track your spending on entertainment"),
        Category(Preset(4), "Dining Out", 3500, SpentOr0(spent, "Dining Out"), "Track your spending on dining out")];
    } else {
      r := seq(|entries|, i requires 0 <= i < |entries| => FromEntry(entries[i], SpentOr0(spent, entries[i].0), token(i)));
    }
  }

  /** With no budgets the defaults are Groceries 8000, Transportation 5000, Entertainment 4000 and Dining Out 3500. */
  lemma DefaultBudgets(txs: seq<Json>, token: nat -> string)
    ensures |Built([], txs, token)| == 4
    ensures TotalBudget(Built([], txs, token)) == 20500
  {
    var d := Built([], txs, token);
    assert d[..3][..2][..1][..0] == [];
    assert d[..3][..2][..1] == d[..1];
    assert d[..3][..2] == d[..2];
    assert d[..4] == d;
    assert TotalBudget(d[..1]) == 8000;
    assert TotalBudget(d[..2]) == 13000;
    assert TotalBudget(d[..3]) == 17000;
  }

  /**
   * Saving the default categories unedited stores the four default limits,
   * whatever the ledger, and their spending is the ledger's spending in
   * those four categories.
   */
  lemma DefaultsSaved(txs: seq<Json>, token: nat -> string)
    ensures BudgetMap(Built([], txs, token)) ==
      map["Groceries" := 8000, "Transportation" := 5000, "Entertainment" := 4000, "Dining Out" := 3500]
    ensures TotalSpent(Built([], txs, token)) ==
      Spent(txs, "Groceries") + Spent(txs, "Transportation") + Spent(txs, "Entertainment") + Spent(txs, "Dining Out")
  {
    var d := Built([], txs, token);
    assert d[..3][..2][..1][..0] == [];
    assert d[..3][..2][..1] == d[..1];
    assert d[..3][..2] == d[..2];
    assert d[..4] == d;
    assert BudgetMap(d[..1]) == map["Groceries" := 8000];
    assert BudgetMap(d[..2]) == map["Groceries" := 8000, "Transportation" := 5000];
    assert BudgetMap(d[..3]) == map["Groceries" := 8000, "Transportation" := 5000, "Entertainment" := 4000];
    assert TotalSpent(d[..1]) == Spent(txs, "Groceries");
    assert TotalSpent(d[..2]) == Spent(txs, "Groceries") + Spent(txs, "Transportation");
    assert TotalSpent(d[..3]) == Spent(txs, "Groceries") + Spent(txs, "Transportation") + Spent(txs, "Entertainment");
  }

  // ---------------------------------------------------------------------------
  // Progress

  /**
   * `getProgressPercentage`: `Math.min(100, Math.round(spent / budget * 100))`
   * for a positive budget, 0 otherwise; rounding is half up, on exact values.
   */
  function ProgressPercentage(spent: int, budget: int): int {
    if budget <= 0 then 0
    else
      var rounded := (200 * spent + budget) / (2 * budget);
      if rounded < 100 then rounded else 100
  }

  /** Floor division reaches `k` exactly when the dividend reaches `k` times the divisor. */
  lemma DivAtLeast(n: int, d: int, k: int)
    requires d > 0
    ensures n / d >= k <==> n >= k * d
  {
    var q := n / d;
    assert n == q * d + n % d && 0 <= n % d < d;
    if q >= k {
      assert q * d >= k * d;
    } else {
      assert q * d <= (k - 1) * d;
    }
  }

  /** The percentage is 0 without a budget, never above 100, never negative for non-negative spending, and 100 exactly from 99.5 % on. */
  lemma ProgressBounds(spent: int, budget: int)
    ensures budget <= 0 ==> ProgressPercentage(spent, budget) == 0
    ensures ProgressPercentage(spent, budget) <= 100
    ensures spent >= 0 ==> ProgressPercentage(spent, budget) >= 0
    ensures ProgressPercentage(spent, budget) == 100 <==> budget > 0 && 200 * spent >= 199 * budget
  {
    if budget > 0 {
      DivAtLeast(200 * spent + budget, 2 * budget, 100);
      DivAtLeast(200 * spent + budget, 2 * budget, 0);
    }
  }

  /** Exactly the percentage of spending, rounded half up, while below the cap. */
  lemma ProgressRounds(spent: int, budget: int)
    requires budget > 0 && ProgressPercentage(spent, budget) < 100
    ensures 2 * budget * ProgressPercentage(spent, budget) <= 200 * spent + budget < 2 * budget * (ProgressPercentage(spent, budget) + 1)
  {
    var d := 2 * budget;
    var n := 200 * spent + budget;
    assert n / d * d <= n < n / d * d + d;
  }

  const Teal := "#0d9488"
  const Amber := "#f59e0b"
  const Red := "#ef4444"

  /** `getProgressColor` */
  function ProgressColor(percentage: int): string {
    if percentage < 50 then Teal else if percentage < 80 then Amber else Red
  }

  /** The colour bands: teal below 50, amber from 50 below 80, red from 80. */
  lemma ColorBands(percentage: int)
    ensures ProgressColor(percentage) == Teal <==> percentage < 50
    ensures ProgressColor(percentage) == Amber <==> 50 <= percentage < 80
    ensures ProgressColor(percentage) == Red <==> 80 <= percentage
  {
  }

  /** A category whose spending reached its positive budget shows red; one without spending shows teal. */
  lemma ColorOfSpending(spent: int, budget: int)
    ensures budget > 0 && spent >= budget ==> ProgressColor(ProgressPercentage(spent, budget)) == Red
    ensures spent == 0 ==> ProgressColor(ProgressPercentage(spent, budget)) == Teal
  {
    ProgressBounds(spent, budget);
    if budget > 0 && spent == 0 {
      assert (200 * spent + budget) / (2 * budget) == 0;
    }
  }

  // ---------------------------------------------------------------------------
  // The budgets map sent to the server

  /** `categories.forEach(cat => budgets[cat.name] = Number(cat.budget) || 0)` */
  function BudgetMap(cats: seq<Category>): map<string, int> {
    if cats == [] then map[]
    else BudgetMap(cats[..|cats| - 1])[cats[|cats| - 1].name := cats[|cats| - 1].budget]
  }

  /** The keys of the budgets map are exactly the category names. */
  lemma {:induction false} BudgetMapKeys(cats: seq<Category>)
    ensures forall name :: name in BudgetMap(cats) <==> exists i :: 0 <= i < |cats| && cats[i].name == name
  {
    if cats != [] {
      var init := cats[..|cats| - 1];
      BudgetMapKeys(init);
      forall name | name in BudgetMap(cats)
        ensures exists i :: 0 <= i < |cats| && cats[i].name == name
      {
        if name != cats[|cats| - 1].name {
          assert name in BudgetMap(init);
          var i :| 0 <= i < |init| && init[i].name == name;
          assert cats[i].name == name;
        }
      }
      forall name | exists i :: 0 <= i < |cats| && cats[i].name == name
        ensures name in BudgetMap(cats)
      {
        var i :| 0 <= i < |cats| && cats[i].name == name;
        if i < |init| {
          assert init[i].name == name;
        }
      }
    }
  }

  /** A name holds the budget of the last category with that name: a later duplicate overwrites. */
  lemma {:induction false} BudgetMapLastWins(cats: seq<Category>, i: nat)
    requires i < |cats|
    requires forall j :: i < j < |cats| ==> cats[j].name != cats[i].name
    ensures cats[i].name in BudgetMap(cats) && BudgetMap(cats)[cats[i].name] == cats[i].budget
  {
    if i < |cats| - 1 {
      var init := cats[..|cats| - 1];
      BudgetMapLastWins(init, i);
    }
  }

  method BudgetsFrom(cats: seq<Category>) returns (budgets: map<string, int>)
    ensures budgets == BudgetMap(cats)
  {
    budgets := map[];
    for i := 0 to |cats|
      invariant budgets == BudgetMap(cats[..i])
    {
      assert cats[..i + 1][..i] == cats[..i];
      budgets := budgets[cats[i].name := cats[i].budget];
    }
    assert cats[..|cats|] == cats;
  }

  /** The budgets map as JSON. */
  function BudgetsJson(budgets: map<string, int>): Json {
    JObj(map name | name in budgets :: JNum(budgets[name]))
  }

  /**
   * Saving right after building gives the server back the stored budgets, each
   * limit read as a number: entries have distinct names.
   */
  lemma SaveAfterBuild(entries: seq<(string, Json)>, txs: seq<Json>, token: nat -> string)
    requires entries != []
    requires forall i, j :: 0 <= i < j < |entries| ==> entries[i].0 != entries[j].0
    ensures forall name :: name in BudgetMap(Built(entries, txs, token)) <==>
      exists i :: 0 <= i < |entries| && entries[i].0 == name
    ensures forall i :: 0 <= i < |entries| ==>
      entries[i].0 in BudgetMap(Built(entries, txs, token)) &&
      BudgetMap(Built(entries, txs, token))[entries[i].0] == NumberOr0(entries[i].1)
  {
    var cats := Built(entries, txs, token);
    BudgetMapKeys(cats);
    forall i | 0 <= i < |entries|
      ensures entries[i].0 in BudgetMap(cats) && BudgetMap(cats)[entries[i].0] == NumberOr0(entries[i].1)
    {
      BudgetMapLastWins(cats, i);
    }
  }

  /**
   * A budgets-only save through PUT /user/:email replaces the budgets, keeps the
   * transactions, and leaves a consistent balance consistent.
   */
  lemma BudgetSaveKeepsLedger(stored: Doc, budgets: map<string, int>)
    requires Backend.BalanceConsistent(stored)
    requires JNull !in stored["transactions"].items
    ensures Backend.Merge(stored, map["budgets" := BudgetsJson(budgets)]).Done?
    ensures
      var v := Backend.Merge(stored, map["budgets" := BudgetsJson(budgets)]).value;
      && "budgets" in v && v["budgets"] == BudgetsJson(budgets)
      && "transactions" in v && v["transactions"] == stored["transactions"]
      && Backend.BalanceConsistent(v)
  {
    var body := map["budgets" := BudgetsJson(budgets)];
    assert stored + body == stored["budgets" := BudgetsJson(budgets)];
    assert Backend.MergedLedger(stored, body) == Some(stored["transactions"].items);
    Backend.MergeRecomputesBalance(stored, body);
    var r := Backend.Merge(stored, body);
    Backend.MergeFrame(stored, body, r);
    assert "transactions" !in Backend.MergeManaged && "budgets" !in Backend.MergeManaged;
  }

  // ---------------------------------------------------------------------------
  // List updates

  /**
   * `handleAddCategory`: rejected on an empty name or budget, or a budget that
   * is not positive; otherwise one category with nothing spent is appended.
   */
  function AddCategory(cats: seq<Category>, name: string, budget: NumberField, token: string): (r: Option<seq<Category>>)
    ensures r.None? <==> name == "" || budget.Blank? || budget.value <= 0
    ensures r.Some? ==>
      && |r.value| == |cats| + 1 && r.value[..|cats|] == cats
      && r.value[|cats|] == Category(Generated(token), name, budget.value, 0, "Track your spending on " + name)
  {
    if name == "" || budget.Blank? || budget.value <= 0 then None
    else Some(cats + [Category(Generated(token), name, budget.value, 0, "Track your spending on " + name)])
  }

  /** After an add the saved budgets map gains the new name with its budget and keeps every other name. */
  lemma AddCategorySaves(cats: seq<Category>, name: string, budget: NumberField, token: string)
    requires AddCategory(cats, name, budget, token).Some?
    ensures BudgetMap(AddCategory(cats, name, budget, token).value) == BudgetMap(cats)[name := budget.value]
  {
    var after := AddCategory(cats, name, budget, token).value;
    assert after[..|after| - 1] == cats;
  }

  /**
   * `handleUpdateBudget`: rejected unless the edit is a positive number;
   * otherwise only the budget of the categories with that id changes.
   */
  function UpdateBudget(cats: seq<Category>, id: CategoryId, edit: NumberField): (r: Option<seq<Category>>)
    ensures r.None? <==> edit.Blank? || edit.value <= 0
    ensures r.Some? ==> |r.value| == |cats| && forall i :: 0 <= i < |cats| ==>
      r.value[i] == if cats[i].id == id then cats[i].(budget := edit.value) else cats[i]
  {
    if edit.Blank? || edit.value <= 0 then None
    else Some(seq(|cats|, i requires 0 <= i < |cats| => if cats[i].id == id then cats[i].(budget := edit.value) else cats[i]))
  }

  /** An update leaves names and spending alone, so only the budget totals move. */
  lemma {:induction false} UpdateKeepsSpending(cats: seq<Category>, id: CategoryId, edit: NumberField)
    requires UpdateBudget(cats, id, edit).Some?
    ensures TotalSpent(UpdateBudget(cats, id, edit).value) == TotalSpent(cats)
    decreases |cats|
  {
    if cats != [] {
      var after := UpdateBudget(cats, id, edit).value;
      var init := cats[..|cats| - 1];
      assert UpdateBudget(init, id, edit).value == after[..|after| - 1];
      UpdateKeepsSpending(init, id, edit);
    }
  }

  /** `handleDeleteCategory`: `categories.filter(cat => cat.id !== id)` */
  function DeleteCategory(cats: seq<Category>, id: CategoryId): (r: seq<Category>)
    ensures forall c :: c in r <==> c in cats && c.id != id
    ensures forall c :: multiset(r)[c] == if c.id != id then multiset(cats)[c] else 0
    ensures IsSubsequence(r, cats)
  {
    FilterCounts(cats, (c: Category) => c.id != id);
    Filter(cats, (c: Category) => c.id != id)
  }

  /** Deleting an id no category carries leaves the list, and so the saved budgets, as they were. */
  lemma DeleteAbsentCategory(cats: seq<Category>, id: CategoryId)
    requires forall c :: c in cats ==> c.id != id
    ensures DeleteCategory(cats, id) == cats
  {
    FilterAll(cats, (c: Category) => c.id != id);
  }

  /** Deleting every category with an id and then saving leaves no budget for a name only they carried. */
  lemma {:induction false} DeletedNamesLeaveSave(cats: seq<Category>, id: CategoryId, name: string)
    requires forall c :: c in cats && c.name == name ==> c.id == id
    ensures name !in BudgetMap(DeleteCategory(cats, id))
  {
    BudgetMapKeys(DeleteCategory(cats, id));
  }

  // ---------------------------------------------------------------------------
  // Summary totals

  function TotalBudget(cats: seq<Category>): int {
    if cats == [] then 0 else TotalBudget(cats[..|cats| - 1]) + cats[|cats| - 1].budget
  }

  function TotalSpent(cats: seq<Category>): int {
    if cats == [] then 0 else TotalSpent(cats[..|cats| - 1]) + cats[|cats| - 1].spent
  }

  /** The remaining sum: `budget - spent` summed per category. */
  function Remaining(cats: seq<Category>): int {
    if cats == [] then 0 else Remaining(cats[..|cats| - 1]) + (cats[|cats| - 1].budget - cats[|cats| - 1].spent)
  }

  /** Remaining is total budget less total spent. */
  lemma {:induction false} RemainingIsDifference(cats: seq<Category>)
    ensures Remaining(cats) == TotalBudget(cats) - TotalSpent(cats)
  {
    if cats != [] {
      RemainingIsDifference(cats[..|cats| - 1]);
    }
  }
}

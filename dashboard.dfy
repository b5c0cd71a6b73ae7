/**
 * The ledger rules of the dashboard in `tailwindcss4/src/components/dashboard.jsx`:
 * the balance loop, quick-add with its sign rule, delete by id, clear, the
 * newest-first filtered view and the payload sent to PUT /user/:email.
 */
module Dashboard {
  import opened Wrappers
  import opened JsonData
  import opened Text
  import opened Seqs
  import opened Ledger
  import opened Inputs
  import Backend

  /** One ledger entry as the dashboard creates it; `id` is absent on entries made by the older dashboard. */
  datatype Tx = Tx(id: Option<int>, date: string, description: string, category: string, amount: int)

  /** The numeric amounts of a ledger, as the backend fold sees them. */
  function AmountsOf(ledger: seq<Tx>): (r: seq<Amount>)
    ensures |r| == |ledger|
    ensures forall i :: 0 <= i < |ledger| ==> r[i] == Num(ledger[i].amount)
  {
    seq(|ledger|, i requires 0 <= i < |ledger| => Num(ledger[i].amount))
  }

  /**
   * The balance effect: every positive amount goes to income, the magnitude of
   * every other amount to expenses, and the net is their difference.
   */
  method TallyBalance(ledger: seq<Tx>) returns (b: Balance)
    ensures b == Recompute(AmountsOf(ledger))
  {
    var totalIncome := 0;
    var totalExpenses := 0;
    for i := 0 to |ledger|
      invariant totalIncome == Income(AmountsOf(ledger[..i]))
      invariant totalExpenses == Expenses(AmountsOf(ledger[..i]))
    {
      var t := ledger[i];
      assert AmountsOf(ledger[..i + 1]) == AmountsOf(ledger[..i]) + [Num(t.amount)];
      RecomputeAppend(AmountsOf(ledger[..i]), Num(t.amount));
      if t.amount > 0 {
        totalIncome := totalIncome + t.amount;
      } else {
        totalExpenses := totalExpenses + Abs(t.amount);
      }
    }
    assert ledger[..|ledger|] == ledger;
    b := Balance(totalIncome, totalExpenses, totalIncome - totalExpenses);
  }

  function Abs(n: int): nat {
    if n < 0 then -n else n
  }

  // ---------------------------------------------------------------------------
  // Quick add

  /** The quick-add form: amount, category and date as entered. */
  datatype QuickAdd = QuickAdd(amount: NumberField, category: string, date: string)

  /** The categories whose amounts are recorded as positive. */
  predicate IsIncomeCategory(category: string) {
    category in ["Salary", "Freelance", "Investment"]
  }

  /** The amount the sign rule stores for a typed value. */
  function SignedAmount(category: string, value: int): (r: int)
    ensures IsIncomeCategory(category) ==> r == value
    ensures !IsIncomeCategory(category) ==> r == -value
  {
    if IsIncomeCategory(category) then value else -value
  }

  /** `handleAddTransaction`: rejected on an empty amount or category, else the new entry is appended. */
  function AddTransaction(ledger: seq<Tx>, form: QuickAdd, now: int): (r: Option<seq<Tx>>)
    ensures r.None? <==> form.amount.Blank? || form.category == ""
    ensures r.Some? ==>
      && |r.value| == |ledger| + 1
      && r.value[..|ledger|] == ledger
      && var t := r.value[|ledger|];
         t == Tx(Some(now), form.date, form.category, form.category, SignedAmount(form.category, form.amount.value))
  {
    if form.amount.Blank? || form.category == "" then None
    else
      var t := Tx(Some(now), form.date, form.category, form.category, SignedAmount(form.category, form.amount.value));
      Some(ledger + [t])
  }

  /**
   * After an add, an income category raises income by a positive typed value
   * and an expense category raises expenses by it: the balance changes by
   * exactly the new entry's contribution.
   */
  lemma AddMovesBalance(ledger: seq<Tx>, form: QuickAdd, now: int)
    requires AddTransaction(ledger, form, now).Some?
    ensures
      var after := AddTransaction(ledger, form, now).value;
      var x := Num(SignedAmount(form.category, form.amount.value));
      && Recompute(AmountsOf(after)).totalIncome == Recompute(AmountsOf(ledger)).totalIncome + Credit(x)
      && Recompute(AmountsOf(after)).totalExpenses == Recompute(AmountsOf(ledger)).totalExpenses + Debit(x)
      && Recompute(AmountsOf(after)).netBalance == Recompute(AmountsOf(ledger)).netBalance + x.value
  {
    var after := AddTransaction(ledger, form, now).value;
    var x := Num(SignedAmount(form.category, form.amount.value));
    assert after == ledger + [after[|ledger|]];
    assert AmountsOf(after) == AmountsOf(ledger) + [x];
    RecomputeAppend(AmountsOf(ledger), x);
  }

  // ---------------------------------------------------------------------------
  // Delete and clear

  /**
   * `transactions.filter(t => t.id !== id)`. The delete button of a row passes
   * that row's id, which is `None` (`undefined`) for an entry without one, and
   * then every entry without an id goes.
   */
  function DeleteById(ledger: seq<Tx>, id: Option<int>): (r: seq<Tx>)
    ensures forall t :: t in r <==> t in ledger && t.id != id
    ensures forall t :: multiset(r)[t] == if t.id != id then multiset(ledger)[t] else 0
    ensures IsSubsequence(r, ledger)
  {
    FilterCounts(ledger, (t: Tx) => t.id != id);
    Filter(ledger, (t: Tx) => t.id != id)
  }

  /** Deleting an id no entry carries leaves the ledger as it was. */
  lemma DeleteAbsentId(ledger: seq<Tx>, id: Option<int>)
    requires forall t :: t in ledger ==> t.id != id
    ensures DeleteById(ledger, id) == ledger
  {
    FilterAll(ledger, (t: Tx) => t.id != id);
  }

  /** Deleting twice by the same id is deleting once. */
  lemma DeleteIdempotent(ledger: seq<Tx>, id: Option<int>)
    ensures DeleteById(DeleteById(ledger, id), id) == DeleteById(ledger, id)
  {
    DeleteAbsentId(DeleteById(ledger, id), id);
  }

  // ---------------------------------------------------------------------------
  // The filtered, newest-first view

  const AllCategories := "All Categories"

  /** The category filter of the view. */
  predicate CategoryPasses(categoryFilter: string, t: Tx) {
    categoryFilter == AllCategories || t.category == categoryFilter
  }

  /**
   * The search filter of the view: an empty query lets everything through;
   * otherwise the lower-cased query must occur in the lower-cased description,
   * category or formatted date, or in the amount's decimal text.
   */
  predicate QueryPasses(query: string, dateLabel: string -> string, t: Tx) {
    query == [] ||
    var q := Lower(query);
    Includes(Lower(t.description), q) || Includes(Lower(t.category), q) ||
    Includes(Lower(dateLabel(t.date)), q) || Includes(IntToString(t.amount), q)
  }

  /** `filteredTransactions`: the ledger newest first, then the category filter, then the search. */
  function View(ledger: seq<Tx>, categoryFilter: string, query: string, dateLabel: string -> string): seq<Tx> {
    Filter(Filter(Reverse(ledger), (t: Tx) => CategoryPasses(categoryFilter, t)), (t: Tx) => QueryPasses(query, dateLabel, t))
  }

  /** The view is the newest-first ledger with entries left out, never reordered or invented. */
  lemma ViewIsSubsequence(ledger: seq<Tx>, categoryFilter: string, query: string, dateLabel: string -> string)
    ensures IsSubsequence(View(ledger, categoryFilter, query, dateLabel), Reverse(ledger))
    ensures forall t :: t in View(ledger, categoryFilter, query, dateLabel) <==>
      t in ledger && CategoryPasses(categoryFilter, t) && QueryPasses(query, dateLabel, t)
  {
    var p := (t: Tx) => CategoryPasses(categoryFilter, t);
    var q := (t: Tx) => QueryPasses(query, dateLabel, t);
    FilterFilter(Reverse(ledger), p, q);
    var rev := Reverse(ledger);
    forall t
      ensures t in rev <==> t in ledger
    {
      if t in rev {
        var i :| 0 <= i < |rev| && rev[i] == t;
        assert ledger[|ledger| - 1 - i] == t;
      }
      if t in ledger {
        var i :| 0 <= i < |ledger| && ledger[i] == t;
        assert rev[|ledger| - 1 - i] == t;
      }
    }
  }

  /** With no category chosen and no search text the view is the whole ledger, newest first. */
  lemma ViewUnfiltered(ledger: seq<Tx>, dateLabel: string -> string)
    ensures View(ledger, AllCategories, "", dateLabel) == Reverse(ledger)
  {
    var p := (t: Tx) => CategoryPasses(AllCategories, t);
    var q := (t: Tx) => QueryPasses("", dateLabel, t);
    FilterAll(Reverse(ledger), p);
    FilterAll(Reverse(ledger), q);
  }

  /** With a category chosen every entry shown has that category. */
  lemma ViewHonoursCategory(ledger: seq<Tx>, categoryFilter: string, query: string, dateLabel: string -> string)
    requires categoryFilter != AllCategories
    ensures forall t :: t in View(ledger, categoryFilter, query, dateLabel) ==> t.category == categoryFilter
  {
    ViewIsSubsequence(ledger, categoryFilter, query, dateLabel);
  }

  // ---------------------------------------------------------------------------
  // The payload of `updateUserOnServer`

  /** A ledger entry as it is serialised; an absent id is left out. */
  function TxJson(t: Tx): (r: Json)
    ensures r.JObj? && "amount" in r.fields && r.fields["amount"] == JNum(t.amount)
  {
    var fields := map[
      "date" := JStr(t.date),
      "description" := JStr(t.description),
      "category" := JStr(t.category),
      "amount" := JNum(t.amount)];
    JObj(if t.id.Some? then fields["id" := JNum(t.id.value)] else fields)
  }

  function LedgerJson(ledger: seq<Tx>): (r: seq<Json>)
    ensures |r| == |ledger|
    ensures forall i :: 0 <= i < |ledger| ==> r[i] == TxJson(ledger[i])
  {
    seq(|ledger|, i requires 0 <= i < |ledger| => TxJson(ledger[i]))
  }

  /** `{ ...currentStored, transactions: newTransactions }` */
  function UpdatePayload(cached: Doc, ledger: seq<Tx>): (r: Doc)
    ensures "transactions" in r && r["transactions"] == JArr(LedgerJson(ledger))
    ensures forall k :: k != "transactions" ==> (k in r <==> k in cached) && (k in r ==> r[k] == cached[k])
  {
    cached["transactions" := JArr(LedgerJson(ledger))]
  }

  /** Clear-all sends the cached user with an empty ledger. */
  function ClearPayload(cached: Doc): (r: Doc)
    ensures "transactions" in r && r["transactions"] == JArr([])
    ensures forall k :: k != "transactions" ==> (k in r <==> k in cached) && (k in r ==> r[k] == cached[k])
  {
    UpdatePayload(cached, [])
  }

  /** For a ledger of numbers the server fold and the dashboard loop agree. */
  lemma ServerFoldAgrees(ledger: seq<Tx>)
    ensures RecomputeFromTransactions(LedgerJson(ledger)) == Done(Recompute(AmountsOf(ledger)))
  {
    var js := LedgerJson(ledger);
    assert Amounts(js) == AmountsOf(ledger);
    assert JNull !in js by {
      forall i | 0 <= i < |js| ensures js[i] != JNull {
        assert js[i].JObj?;
      }
    }
  }

  /**
   * The balance the server stores after the dashboard's PUT is the balance the
   * dashboard shows for the same ledger, whenever the server can write it (a
   * dashboard that is absent or an object).
   */
  lemma ServerStoresShownBalance(stored: Doc, cached: Doc, ledger: seq<Tx>)
    requires
      var slot := SlotOf(stored + UpdatePayload(cached, ledger), "dashboard");
      slot.Fresh? || slot.Object?
    ensures Backend.Merge(stored, UpdatePayload(cached, ledger)).Done?
    ensures
      var v := Backend.Merge(stored, UpdatePayload(cached, ledger)).value;
      "dashboard" in v && v["dashboard"].JObj? && "balance" in v["dashboard"].fields &&
      v["dashboard"].fields["balance"] == BalanceJson(Recompute(AmountsOf(ledger)))
  {
    var body := UpdatePayload(cached, ledger);
    ServerFoldAgrees(ledger);
    assert Backend.MergedLedger(stored, body) == Some(LedgerJson(ledger));
    Backend.MergeRecomputesBalance(stored, body);
  }

  /** After clear-all the server stores the zero balance. */
  lemma ClearZeroesServerBalance(stored: Doc, cached: Doc)
    requires
      var slot := SlotOf(stored + ClearPayload(cached), "dashboard");
      slot.Fresh? || slot.Object?
    ensures Backend.Merge(stored, ClearPayload(cached)).Done?
    ensures
      var v := Backend.Merge(stored, ClearPayload(cached)).value;
      "dashboard" in v && v["dashboard"].JObj? && "balance" in v["dashboard"].fields &&
      v["dashboard"].fields["balance"] == BalanceJson(Balance(0, 0, 0))
  {
    ServerStoresShownBalance(stored, cached, []);
    assert AmountsOf([]) == [];
  }
}

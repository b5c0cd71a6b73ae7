/**
 * The older dashboard of `finance/tailwindcss4/src/components/dashboard.jsx`. Its
 * balance effect is the same loop as `Dashboard.TallyBalance`; quick-add makes
 * entries without an id, and the history table lists the ledger newest first.
 */
module LegacyDashboard {
  import opened Wrappers
  import opened Seqs
  import Dashboard

  /** `handleAddTransaction` of the older dashboard: the same checks and sign rule, no id. */
  function AddTransaction(ledger: seq<Dashboard.Tx>, form: Dashboard.QuickAdd): (r: Option<seq<Dashboard.Tx>>)
    ensures r.None? <==> form.amount.Blank? || form.category == ""
    ensures r.Some? ==>
      && |r.value| == |ledger| + 1
      && r.value[..|ledger|] == ledger
      && var t := r.value[|ledger|];
         && t.id.None? && t.description == form.category && t.category == form.category && t.date == form.date
         && t.amount == Dashboard.SignedAmount(form.category, form.amount.value)
  {
    if form.amount.Blank? || form.category == "" then None
    else
      var t := Dashboard.Tx(None, form.date, form.category, form.category,
                            Dashboard.SignedAmount(form.category, form.amount.value));
      Some(ledger + [t])
  }

  /** Both dashboards record the same entry for the same form, apart from the id. */
  lemma SameEntryAsDashboard(ledger: seq<Dashboard.Tx>, form: Dashboard.QuickAdd, now: int)
    ensures AddTransaction(ledger, form).None? <==> Dashboard.AddTransaction(ledger, form, now).None?
    ensures AddTransaction(ledger, form).Some? ==>
      var a := AddTransaction(ledger, form).value;
      var b := Dashboard.AddTransaction(ledger, form, now).value;
      |a| == |b| && a[..|ledger|] == b[..|ledger|] && a[|ledger|] == b[|ledger|].(id := None)
  {
  }

  /** Because ids do not enter the balance, the older dashboard shows the same balance after an add. */
  lemma SameBalanceAsDashboard(ledger: seq<Dashboard.Tx>, form: Dashboard.QuickAdd, now: int)
    requires AddTransaction(ledger, form).Some?
    ensures Dashboard.AmountsOf(AddTransaction(ledger, form).value) ==
            Dashboard.AmountsOf(Dashboard.AddTransaction(ledger, form, now).value)
  {
    SameEntryAsDashboard(ledger, form, now);
  }

  /** The rows of the history table, newest first. */
  function History(ledger: seq<Dashboard.Tx>): (r: seq<Dashboard.Tx>)
    ensures |r| == |ledger|
    ensures forall i :: 0 <= i < |ledger| ==> r[i] == ledger[|ledger| - 1 - i]
  {
    Reverse(ledger)
  }

  /** After an add the new entry heads the history and the older rows follow unchanged. */
  lemma {:induction false} AddHeadsHistory(ledger: seq<Dashboard.Tx>, form: Dashboard.QuickAdd)
    requires AddTransaction(ledger, form).Some?
    ensures
      var after := AddTransaction(ledger, form).value;
      History(after) == [after[|ledger|]] + History(ledger)
  {
    var after := AddTransaction(ledger, form).value;
    var h := History(after);
    var expected := [after[|ledger|]] + History(ledger);
    assert |h| == |expected|;
    forall i | 0 <= i < |h|
      ensures h[i] == expected[i]
    {
      if i > 0 {
        assert after[|after| - 1 - i] == ledger[|ledger| - 1 - (i - 1)];
      }
    }
  }
}

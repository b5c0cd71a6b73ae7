/**
 * The balance of a ledger: total income, total expenses and the net balance,
 * as the backend's `recomputeBalanceFromTransactions` and both dashboards compute it.
 */
module Ledger {
  import opened JsonData

  /** A transaction's `amount`: a JavaScript number, or anything else (`typeof amount !== 'number'`). */
  datatype Amount = Num(value: int) | NonNum

  /** What one amount adds to the total income: itself when it is a positive number, else nothing. */
  function Credit(a: Amount): nat {
    if a.Num? && a.value > 0 then a.value else 0
  }

  /** What one amount adds to the total expenses: its magnitude when it is a negative number, else nothing. */
  function Debit(a: Amount): nat {
    if a.Num? && a.value < 0 then -a.value else 0
  }

  /** The sum of the positive amounts. */
  function Income(xs: seq<Amount>): nat {
    if xs == [] then 0 else Credit(xs[0]) + Income(xs[1..])
  }

  /** The sum of the magnitudes of the negative amounts. */
  function Expenses(xs: seq<Amount>): nat {
    if xs == [] then 0 else Debit(xs[0]) + Expenses(xs[1..])
  }

  /** The sum of all numeric amounts, signs included. */
  function SignedSum(xs: seq<Amount>): int {
    if xs == [] then 0 else (if xs[0].Num? then xs[0].value else 0) + SignedSum(xs[1..])
  }

  datatype Balance = Balance(totalIncome: int, totalExpenses: int, netBalance: int)

  /** The balance of a ledger of amounts. */
  function Recompute(xs: seq<Amount>): (b: Balance)
    ensures b.totalIncome >= 0 && b.totalExpenses >= 0
    ensures b.netBalance == b.totalIncome - b.totalExpenses
  {
    var income := Income(xs);
    var expenses := Expenses(xs);
    Balance(income, expenses, income - expenses)
  }

  /** Appending one amount to the ledger adds exactly its own contribution to each total. */
  lemma {:induction false} RecomputeAppend(xs: seq<Amount>, x: Amount)
    ensures Income(xs + [x]) == Income(xs) + Credit(x)
    ensures Expenses(xs + [x]) == Expenses(xs) + Debit(x)
    ensures Recompute(xs + [x]).netBalance == Recompute(xs).netBalance + Credit(x) - Debit(x)
  {
    if xs != [] {
      assert (xs + [x])[1..] == xs[1..] + [x];
      RecomputeAppend(xs[1..], x);
    }
  }

  /** The net balance is the plain sum of the numeric amounts: zero and non-numbers count for nothing. */
  lemma {:induction false} NetIsSignedSum(xs: seq<Amount>)
    ensures Recompute(xs).netBalance == SignedSum(xs)
  {
    if xs != [] {
      NetIsSignedSum(xs[1..]);
    }
  }

  /** A ledger without numeric non-zero amounts has the zero balance. */
  lemma {:induction false} ZeroContributions(xs: seq<Amount>)
    requires forall i :: 0 <= i < |xs| ==> Credit(xs[i]) == 0 && Debit(xs[i]) == 0
    ensures Recompute(xs) == Balance(0, 0, 0)
  {
    if xs != [] {
      ZeroContributions(xs[1..]);
    }
  }

  /** `typeof t.amount === 'number'` for one element of a parsed `transactions` array. */
  function AmountOf(t: Json): Amount {
    match t
    case JObj(f) => if "amount" in f && f["amount"].JNum? then Num(f["amount"].n) else NonNum
    case _ => NonNum
  }

  function Amounts(ts: seq<Json>): (r: seq<Amount>)
    ensures |r| == |ts|
    ensures forall i :: 0 <= i < |ts| ==> r[i] == AmountOf(ts[i])
  {
    seq(|ts|, i requires 0 <= i < |ts| => AmountOf(ts[i]))
  }

  /** `{ totalIncome, totalExpenses, netBalance }` as stored in `dashboard.balance`. */
  function BalanceJson(b: Balance): Json {
    JObj(map[
      "totalIncome" := JNum(b.totalIncome),
      "totalExpenses" := JNum(b.totalExpenses),
      "netBalance" := JNum(b.netBalance)])
  }

  /**
   * `recomputeBalanceFromTransactions(transactions)` over a parsed array: reading
   * `t.amount` throws when an element is `null`; otherwise the two reductions
   * give the balance of the element amounts.
   */
  function RecomputeFromTransactions(ts: seq<Json>): (r: Eval<Balance>)
    ensures r.Throws? <==> JNull in ts
    ensures r.Done? ==> r.value.totalIncome == Income(Amounts(ts))
    ensures r.Done? ==> r.value.totalExpenses == Expenses(Amounts(ts))
    ensures r.Done? ==> r.value.netBalance == r.value.totalIncome - r.value.totalExpenses
  {
    if JNull in ts then Throws else Done(Recompute(Amounts(ts)))
  }
}

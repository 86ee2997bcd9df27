/** The derived figures: the sum of pocket balances and the income and
    expense totals, each a reduce over a list. */
module Totals {

  import opened Types
  import opened Seqs

  /** `pockets.reduce((acc, p) => acc + p.balance, 0)`. */
  function SumBalances(ps: seq<Pocket>): int {
    if ps == [] then 0 else ps[0].balance + SumBalances(ps[1..])
  }

  /** Replacing one pocket changes the sum by the difference of the two balances. */
  lemma {:induction false} SumBalancesUpdate(ps: seq<Pocket>, i: nat, p: Pocket)
    requires i < |ps|
    ensures SumBalances(ps[i := p]) == SumBalances(ps) - ps[i].balance + p.balance
  {
    if i > 0 {
      assert ps[i := p][1..] == ps[1..][i - 1 := p];
      SumBalancesUpdate(ps[1..], i - 1, p);
    }
  }

  /** `t => t.type === ty`. */
  function OfType(ty: TransactionType): Transaction -> bool {
    (t: Transaction) => t.txType == ty
  }

  function SumAmounts(ts: seq<Transaction>): int {
    if ts == [] then 0 else ts[0].amount + SumAmounts(ts[1..])
  }

  /** `transactions.filter(t => t.type === ty).reduce((acc, t) => acc + t.amount, 0)`. */
  function TotalOf(ts: seq<Transaction>, ty: TransactionType): int {
    SumAmounts(Filter(ts, OfType(ty)))
  }

  /** The net effect of a list of transactions: the sum of their signed amounts. */
  function NetOf(ts: seq<Transaction>): int {
    if ts == [] then 0 else Signed(ts[0].txType, ts[0].amount) + NetOf(ts[1..])
  }

  /** A transaction placed in front adds its amount to the total of its own
      type and nothing to the other. */
  lemma TotalPrepend(t: Transaction, ts: seq<Transaction>, ty: TransactionType)
    ensures TotalOf([t] + ts, ty) == TotalOf(ts, ty) + (if t.txType == ty then t.amount else 0)
  {
    var f := OfType(ty);
    assert f(t) == (t.txType == ty);
    assert ([t] + ts)[1..] == ts;
    assert Filter([t] + ts, f) == (if f(t) then [t] else []) + Filter(ts, f);
    var rest := Filter(ts, f);
    if f(t) {
      assert Filter([t] + ts, f) == [t] + rest;
      assert ([t] + rest)[1..] == rest;
      assert SumAmounts([t] + rest) == t.amount + SumAmounts(rest);
    } else {
      assert Filter([t] + ts, f) == rest;
    }
  }

  /** The totals of an empty list are zero. */
  lemma TotalsOfNothing(ty: TransactionType)
    ensures TotalOf([], ty) == 0 && NetOf([]) == 0
  {
  }

  /** The net effect is the income total minus the expense total. */
  lemma {:induction false} NetIsIncomeMinusExpense(ts: seq<Transaction>)
    ensures NetOf(ts) == TotalOf(ts, Income) - TotalOf(ts, Expense)
  {
    if ts != [] {
      NetIsIncomeMinusExpense(ts[1..]);
      assert ts == [ts[0]] + ts[1..];
      TotalPrepend(ts[0], ts[1..], Income);
      TotalPrepend(ts[0], ts[1..], Expense);
    }
  }
}

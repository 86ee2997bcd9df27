/** The local transaction provider: a list of transactions held in the
    provider, new ones placed first, deleted ones filtered out, and the
    income, expense and balance figures derived from the list. */
module TransactionContext {

  import opened Types
  import opened Seqs
  import opened Totals
  import opened Store

  function NotId(id: string): Transaction -> bool {
    (t: Transaction) => t.id != id
  }

  /** `prev.filter(t => t.id !== id)`. */
  function DeleteById(ts: seq<Transaction>, id: string): (r: seq<Transaction>)
    ensures forall t :: t in r ==> t.id != id
    ensures forall t :: t in ts && t.id != id ==> t in r
    ensures IsSubsequence(r, ts)
    ensures forall x :: multiset(r)[x] == if x.id != id then multiset(ts)[x] else 0
  {
    forall t | t in ts && t.id != id ensures t in Filter(ts, NotId(id)) {
      FilterKeeps(ts, NotId(id), t);
    }
    FilterIsSubsequence(ts, NotId(id));
    FilterMultiset(ts, NotId(id));
    Filter(ts, NotId(id))
  }

  /** Deleting an id that no transaction has leaves the list as it is. */
  lemma DeleteAbsent(ts: seq<Transaction>, id: string)
    requires forall t :: t in ts ==> t.id != id
    ensures DeleteById(ts, id) == ts
  {
    FilterAll(ts, NotId(id));
  }

  /** Deleting the same id twice is deleting it once. */
  lemma DeleteIdempotent(ts: seq<Transaction>, id: string)
    ensures DeleteById(DeleteById(ts, id), id) == DeleteById(ts, id)
  {
    FilterIdempotent(ts, NotId(id));
  }

  /** Keeping a sub-list keeps keys unique. */
  lemma {:induction false} FilterUniqueBy<T>(s: seq<T>, f: T -> bool, key: T -> string)
    requires UniqueBy(s, key)
    ensures UniqueBy(Filter(s, f), key)
  {
    if s != [] {
      FilterUniqueBy(s[1..], f, key);
      var rest := Filter(s[1..], f);
      if f(s[0]) {
        var r := [s[0]] + rest;
        forall i, j | 0 <= i < j < |r| ensures key(r[i]) != key(r[j]) {
          assert r[j] == rest[j - 1];
          assert r[j] in s[1..];
          if i == 0 {
            var k :| 0 <= k < |s[1..]| && s[1..][k] == r[j];
            assert s[k + 1] == r[j];
          } else {
            assert r[i] == rest[i - 1];
          }
        }
      }
    }
  }

  /** Deleting a freshly added transaction gives back the list it was
      added to. */
  lemma DeleteAfterAdd(t: Transaction, ts: seq<Transaction>)
    requires forall u :: u in ts ==> u.id != t.id
    ensures DeleteById([t] + ts, t.id) == ts
  {
    assert ([t] + ts)[1..] == ts;
    assert !NotId(t.id)(t);
    DeleteAbsent(ts, t.id);
  }

  class TransactionProvider {
    var transactions: seq<Transaction>

    ghost predicate Valid()
      reads this
    {
      UniqueBy(transactions, TransactionKey)
    }

    /** The provider starts with no transactions. */
    constructor ()
      ensures Valid() && transactions == []
    {
      transactions := [];
    }

    /** `totalIncome`: the signed sum with the expenses added back. */
    function TotalIncome(): (r: int)
      reads this
      ensures r == NetOf(transactions) + TotalOf(transactions, Expense)
    {
      NetIsIncomeMinusExpense(transactions);
      TotalOf(transactions, Income)
    }

    /** `totalExpense`: the income total less the signed sum. */
    function TotalExpense(): (r: int)
      reads this
      ensures r == TotalIncome() - NetOf(transactions)
    {
      NetIsIncomeMinusExpense(transactions);
      TotalOf(transactions, Expense)
    }

    /** `balance = totalIncome - totalExpense`, which is also the sum of the
        signed amounts. */
    function Balance(): (b: int)
      reads this
      ensures b == NetOf(transactions)
    {
      NetIsIncomeMinusExpense(transactions);
      TotalIncome() - TotalExpense()
    }

    /** Places the draft first under `freshId`, the random id the browser
        generates, here taken to be unused. */
    method AddTransaction(d: TxDraft, freshId: string)
      requires Valid() && !HasTransaction(transactions, freshId)
      modifies this
      ensures Valid()
      ensures transactions == [Stored(d, freshId)] + old(transactions)
      ensures |transactions| == |old(transactions)| + 1
      ensures TotalIncome() == old(TotalIncome()) + (if d.fields.txType == Income then d.fields.amount else 0)
      ensures TotalExpense() == old(TotalExpense()) + (if d.fields.txType == Expense then d.fields.amount else 0)
    {
      var t := Stored(d, freshId);
      TotalPrepend(t, transactions, Income);
      TotalPrepend(t, transactions, Expense);
      var r := [t] + transactions;
      forall i, j | 0 <= i < j < |r| ensures TransactionKey(r[i]) != TransactionKey(r[j]) {
        assert r[j] == transactions[j - 1];
        if i > 0 {
          assert r[i] == transactions[i - 1];
        }
      }
      transactions := r;
    }

    method DeleteTransaction(id: string)
      requires Valid()
      modifies this
      ensures Valid()
      ensures transactions == DeleteById(old(transactions), id)
    {
      FilterUniqueBy(transactions, NotId(id), TransactionKey);
      transactions := DeleteById(transactions, id);
    }
  }
}

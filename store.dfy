/** The persistent store: the four tables (users, pockets, transactions,
    plans) held in memory, with the uniqueness the database enforces. */
module Store {

  import opened Types
  import opened Seqs
  import opened Totals

  function UserKey(u: User): string { u.id }
  function UsernameKey(u: User): string { u.username }
  function PocketKey(p: Pocket): string { p.id }
  function TransactionKey(t: Transaction): string { t.id }
  function PlanKey(p: Plan): string { p.id }

  /** `p => p.id === id` on pockets. */
  function PocketWithId(id: string): Pocket -> bool {
    (p: Pocket) => p.id == id
  }

  /** `t => t.id === id` on transactions. */
  function TransactionWithId(id: string): Transaction -> bool {
    (t: Transaction) => t.id == id
  }

  /** `u => u.username === name` on users. */
  function UserNamed(name: string): User -> bool {
    (u: User) => u.username == name
  }

  /** The database's unique constraints: ids in every table, and usernames. */
  predicate TablesValid(users: seq<User>, pockets: seq<Pocket>,
                        transactions: seq<Transaction>, plans: seq<Plan>)
  {
    UniqueBy(users, UserKey) && UniqueBy(users, UsernameKey) &&
    UniqueBy(pockets, PocketKey) && UniqueBy(transactions, TransactionKey) &&
    UniqueBy(plans, PlanKey)
  }

  class Store {
    var users: seq<User>
    var pockets: seq<Pocket>
    var transactions: seq<Transaction>
    var plans: seq<Plan>

    ghost predicate Valid()
      reads this
    {
      TablesValid(users, pockets, transactions, plans)
    }

    /** A store holding the given rows. */
    constructor (users0: seq<User>, pockets0: seq<Pocket>,
                 transactions0: seq<Transaction>, plans0: seq<Plan>)
      requires TablesValid(users0, pockets0, transactions0, plans0)
      ensures Valid()
      ensures users == users0 && pockets == pockets0
      ensures transactions == transactions0 && plans == plans0
    {
      users, pockets, transactions, plans := users0, pockets0, transactions0, plans0;
    }
  }

  /** `balance: { increment: delta }` on the pocket with the given id; a list
      without such a pocket is returned as it is. */
  function Credit(ps: seq<Pocket>, id: string, delta: int): (r: seq<Pocket>)
    ensures |r| == |ps|
    ensures !HasPocket(ps, id) ==> r == ps
    ensures forall i :: 0 <= i < |ps| ==>
      r[i].id == ps[i].id && r[i].userId == ps[i].userId &&
      r[i].name == ps[i].name && r[i].pocketType == ps[i].pocketType && r[i].color == ps[i].color
  {
    FindPocket(ps, id);
    match FindFirst(ps, PocketWithId(id))
    case None => ps
    case Some(i) => ps[i := ps[i].(balance := ps[i].balance + delta)]
  }

  /** Crediting a pocket changes that pocket's balance by delta and leaves
      every other pocket, and every other field, as it was. */
  lemma CreditEffect(ps: seq<Pocket>, id: string, delta: int)
    requires UniqueBy(ps, PocketKey)
    ensures forall i :: 0 <= i < |ps| && ps[i].id == id ==>
      Credit(ps, id, delta)[i] == ps[i].(balance := ps[i].balance + delta)
    ensures forall i :: 0 <= i < |ps| && ps[i].id != id ==> Credit(ps, id, delta)[i] == ps[i]
  {
    var found := FindFirst(ps, PocketWithId(id));
    forall i | 0 <= i < |ps| && ps[i].id == id
      ensures found == Some(i)
    {
      assert PocketWithId(id)(ps[i]);
      assert found.Some?;
      assert PocketWithId(id)(ps[found.value]);
      assert PocketKey(ps[found.value]) == PocketKey(ps[i]);
    }
    if found.Some? {
      assert PocketWithId(id)(ps[found.value]);
    }
  }

  /** Crediting keeps the pocket ids, so it keeps them unique. */
  lemma CreditKeepsIds(ps: seq<Pocket>, id: string, delta: int)
    requires UniqueBy(ps, PocketKey)
    ensures UniqueBy(Credit(ps, id, delta), PocketKey)
    ensures forall i :: 0 <= i < |ps| ==> Credit(ps, id, delta)[i].id == ps[i].id
  {
    CreditEffect(ps, id, delta);
  }

  /** The sum of all balances moves by delta when a pocket has that id, and
      not at all otherwise. */
  lemma CreditSum(ps: seq<Pocket>, id: string, delta: int)
    ensures SumBalances(Credit(ps, id, delta)) ==
      SumBalances(ps) + (if HasPocket(ps, id) then delta else 0)
  {
    FindPocket(ps, id);
    var found := FindFirst(ps, PocketWithId(id));
    if found.Some? {
      var i := found.value;
      SumBalancesUpdate(ps, i, ps[i].(balance := ps[i].balance + delta));
    }
  }

  predicate HasPocket(ps: seq<Pocket>, id: string) {
    exists i :: 0 <= i < |ps| && ps[i].id == id
  }

  lemma FindPocket(ps: seq<Pocket>, id: string)
    ensures FindFirst(ps, PocketWithId(id)).Some? <==> HasPocket(ps, id)
  {
    if HasPocket(ps, id) {
      var i :| 0 <= i < |ps| && ps[i].id == id;
      assert PocketWithId(id)(ps[i]);
    }
    var found := FindFirst(ps, PocketWithId(id));
    if found.Some? {
      assert PocketWithId(id)(ps[found.value]);
    }
  }

  predicate HasTransaction(ts: seq<Transaction>, id: string) {
    exists i :: 0 <= i < |ts| && ts[i].id == id
  }

  lemma FindTransaction(ts: seq<Transaction>, id: string)
    ensures FindFirst(ts, TransactionWithId(id)).Some? <==> HasTransaction(ts, id)
  {
    if HasTransaction(ts, id) {
      var i :| 0 <= i < |ts| && ts[i].id == id;
      assert TransactionWithId(id)(ts[i]);
    }
    var found := FindFirst(ts, TransactionWithId(id));
    if found.Some? {
      assert TransactionWithId(id)(ts[found.value]);
    }
  }

  /** Appending a row whose id is not yet used keeps the ids unique. */
  lemma AppendFreshTransaction(ts: seq<Transaction>, t: Transaction)
    requires UniqueBy(ts, TransactionKey) && !HasTransaction(ts, t.id)
    ensures UniqueBy(ts + [t], TransactionKey)
  {
    var r := ts + [t];
    forall i, j | 0 <= i < j < |r| ensures TransactionKey(r[i]) != TransactionKey(r[j]) {
      if j == |ts| {
        assert r[i] == ts[i];
      } else {
        assert r[i] == ts[i] && r[j] == ts[j];
      }
    }
  }
}

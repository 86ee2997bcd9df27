/** The transactions endpoint: GET lists one user's transactions newest
    first, optionally of one type and at most `limit` of them; POST creates
    a transaction and moves its pocket's balance by the signed amount, both
    in one all-or-nothing unit of work. */
module TransactionsRoute {

  import opened Types
  import opened Http
  import opened Seqs
  import opened IsoDates
  import opened Sorting
  import opened Totals
  import opened Store

  function DateKey(t: Transaction): string { t.date }

  /** The where clause: the given owner and, unless the type parameter is
      empty or 'all', the given type. */
  predicate Listable(t: Transaction, userId: string, typeParam: string): (b: bool)
    ensures b ==> t.userId == userId
    ensures typeParam == "" || typeParam == "all" ==> (b <==> t.userId == userId)
    ensures typeParam == "income" ==> (b <==> t.userId == userId && t.txType == Income)
    ensures typeParam == "expense" ==> (b <==> t.userId == userId && t.txType == Expense)
    ensures typeParam != "" && typeParam != "all" && typeParam != "income" && typeParam != "expense" ==> !b
  {
    t.userId == userId && (typeParam == "" || typeParam == "all" || TypeName(t.txType) == typeParam)
  }

  function Matching(userId: string, typeParam: string): Transaction -> bool {
    (t: Transaction) => Listable(t, userId, typeParam)
  }

  /** `take`: the first n rows when a limit is given, all rows otherwise. */
  function Take<T>(s: seq<T>, limit: Option<nat>): (r: seq<T>)
    ensures limit.None? ==> r == s
    ensures limit.Some? ==> |r| == (if limit.value < |s| then limit.value else |s|)
    ensures r == s[..|r|]
  {
    match limit
    case None => s
    case Some(n) => if n < |s| then s[..n] else s
  }

  /** GET /api/transactions?userId&type&limit. A missing or empty parameter is
      the empty string. The ordering by date is the lexicographic order of the
      ISO date strings. */
  function Get(rows: seq<Transaction>, userId: string, typeParam: string, limit: Option<nat>)
    : (r: Response<seq<Transaction>>)
    ensures r.Err? <==> userId == ""
    ensures r.Err? ==> r.status == BAD_REQUEST && r.error == "UserId required"
    ensures r.Ok? ==> forall t :: t in r.body ==> t in rows && t.userId == userId
    ensures r.Ok? && typeParam != "" && typeParam != "all" ==>
      forall t :: t in r.body ==> TypeName(t.txType) == typeParam
    ensures r.Ok? ==> forall i, j :: 0 <= i < j < |r.body| ==> !LexLt(r.body[i].date, r.body[j].date)
    ensures r.Ok? && limit.None? ==>
      forall t :: multiset(r.body)[t] == if Listable(t, userId, typeParam) then multiset(rows)[t] else 0
    ensures r.Ok? && limit.Some? ==> |r.body| <= limit.value
  {
    if userId == "" then Err(BAD_REQUEST, "UserId required")
    else
      var matching := Filter(rows, Matching(userId, typeParam));
      FilterMultiset(rows, Matching(userId, typeParam));
      var sorted := SortBy(matching, DateKey, true);
      var body := Take(sorted, limit);
      forall t | t in body ensures t in matching {
        assert t in multiset(sorted);
      }
      Ok(body)
  }

  /** With a limit, the rows listed are the newest matching ones: the count is
      the limit or all matching rows if fewer, and no matching row left out is
      newer than a row listed. */
  lemma GetIsNewestFirst(rows: seq<Transaction>, userId: string, typeParam: string, n: nat)
    requires userId != ""
    ensures var r := Get(rows, userId, typeParam, Some(n));
      var matching := Filter(rows, Matching(userId, typeParam));
      r.Ok? &&
      |r.body| == (if n < |matching| then n else |matching|) &&
      multiset(r.body) <= multiset(matching) &&
      forall t, u :: t in multiset(matching) - multiset(r.body) && u in r.body ==> !LexLt(u.date, t.date)
  {
    var matching := Filter(rows, Matching(userId, typeParam));
    var sorted := SortBy(matching, DateKey, true);
    var body := Get(rows, userId, typeParam, Some(n)).body;
    assert body == sorted[..|body|];
    PrefixIsTop(sorted, |body|, DateKey, true);
  }

  /** POST /api/transactions. `newId` is the id the store generates; a clash
      with an existing id makes the insert fail like any other store error.
      Either both writes happen or neither does; a failure is answered 500. */
  method Post(store: Store, body: TxDraft, newId: string) returns (r: Response<Transaction>)
    requires store.Valid()
    modifies store
    ensures store.Valid()
    ensures store.users == old(store.users) && store.plans == old(store.plans)
    ensures r.Ok? <==>
      !HasTransaction(old(store.transactions), newId) &&
      (body.fields.pocketId == "" || HasPocket(old(store.pockets), body.fields.pocketId))
    ensures r.Ok? ==> r.body == Stored(body, newId)
    ensures r.Ok? ==> store.transactions == old(store.transactions) + [r.body]
    ensures r.Ok? && body.fields.pocketId == "" ==> store.pockets == old(store.pockets)
    ensures r.Ok? && body.fields.pocketId != "" ==>
      store.pockets == Credit(old(store.pockets), body.fields.pocketId,
                              Signed(body.fields.txType, body.fields.amount))
    ensures r.Ok? ==>
      SumBalances(store.pockets) == SumBalances(old(store.pockets)) +
        (if body.fields.pocketId == "" then 0 else Signed(body.fields.txType, body.fields.amount))
    ensures r.Err? ==> r.status == INTERNAL_ERROR && r.error == "Internal server error"
    ensures r.Err? ==> store.transactions == old(store.transactions) && store.pockets == old(store.pockets)
  {
    FindTransaction(store.transactions, newId);
    if FindFirst(store.transactions, TransactionWithId(newId)).Some? {
      // the insert violates the unique id: the unit aborts before any write
      return Err(INTERNAL_ERROR, "Internal server error");
    }
    var before := store.transactions;

    // 1. create the transaction row
    var created := Stored(body, newId);
    AppendFreshTransaction(store.transactions, created);
    store.transactions := store.transactions + [created];

    // 2. move the pocket balance by the signed amount
    var pocketId := body.fields.pocketId;
    if pocketId != "" {
      var amount := Signed(body.fields.txType, body.fields.amount);
      FindPocket(store.pockets, pocketId);
      var found := FindFirst(store.pockets, PocketWithId(pocketId));
      if found.None? {
        // the pocket update fails: the unit rolls back the insert
        store.transactions := before;
        return Err(INTERNAL_ERROR, "Internal server error");
      }
      var i := found.value;
      var credited := store.pockets[i := store.pockets[i].(balance := store.pockets[i].balance + amount)];
      assert credited == Credit(store.pockets, pocketId, amount);
      CreditKeepsIds(store.pockets, pocketId, amount);
      CreditSum(store.pockets, pocketId, amount);
      store.pockets := credited;
    }
    r := Ok(created);
  }

  /** The balance of the pocket named by a created transaction moves by
      +amount for income and -amount for expense; every other pocket keeps
      its balance. */
  lemma CreateMovesOnlyItsPocket(ps: seq<Pocket>, d: TxDraft)
    requires UniqueBy(ps, PocketKey) && d.fields.pocketId != ""
    ensures var after := Credit(ps, d.fields.pocketId, Signed(d.fields.txType, d.fields.amount));
      (forall i :: 0 <= i < |ps| && ps[i].id == d.fields.pocketId ==>
         after[i].balance == ps[i].balance + (if d.fields.txType == Income then d.fields.amount else -d.fields.amount)) &&
      (forall i :: 0 <= i < |ps| && ps[i].id != d.fields.pocketId ==> after[i] == ps[i])
  {
    CreditEffect(ps, d.fields.pocketId, Signed(d.fields.txType, d.fields.amount));
  }
}

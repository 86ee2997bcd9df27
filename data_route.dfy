/** GET /api/data: one user's whole dataset (pockets, transactions newest
    first, plans) in one response. */
module DataRoute {

  import opened Types
  import opened Http
  import opened Seqs
  import opened IsoDates
  import opened Sorting
  import TransactionsRoute

  datatype Snapshot = Snapshot(pockets: seq<Pocket>, transactions: seq<Transaction>, plans: seq<Plan>)

  function PocketOwnedBy(userId: string): Pocket -> bool { (p: Pocket) => p.userId == userId }
  function TransactionOwnedBy(userId: string): Transaction -> bool { (t: Transaction) => t.userId == userId }
  function PlanOwnedBy(userId: string): Plan -> bool { (p: Plan) => p.userId == userId }

  /** The three queries run together; `storeFails` stands for any error the
      store raises during them, which is answered 500 with no partial data.
      A missing or empty userId is the empty string. */
  function Get(pockets: seq<Pocket>, transactions: seq<Transaction>, plans: seq<Plan>,
               userId: string, storeFails: bool): (r: Response<Snapshot>)
    ensures r.Err? <==> userId == "" || storeFails
    ensures r.Err? && userId == "" ==> r.status == BAD_REQUEST && r.error == "UserId required"
    ensures r.Err? && userId != "" ==> r.status == INTERNAL_ERROR && r.error == "Internal server error"
    ensures r.Ok? ==> forall p :: multiset(r.body.pockets)[p] ==
                                 (if p.userId == userId then multiset(pockets)[p] else 0)
    ensures r.Ok? ==> forall t :: multiset(r.body.transactions)[t] ==
                                 (if t.userId == userId then multiset(transactions)[t] else 0)
    ensures r.Ok? ==> forall p :: multiset(r.body.plans)[p] ==
                                 (if p.userId == userId then multiset(plans)[p] else 0)
    ensures r.Ok? ==> forall i, j :: 0 <= i < j < |r.body.transactions| ==>
      !LexLt(r.body.transactions[i].date, r.body.transactions[j].date)
  {
    if userId == "" then Err(BAD_REQUEST, "UserId required")
    else if storeFails then Err(INTERNAL_ERROR, "Internal server error")
    else
      FilterMultiset(pockets, PocketOwnedBy(userId));
      FilterMultiset(transactions, TransactionOwnedBy(userId));
      FilterMultiset(plans, PlanOwnedBy(userId));
      var owned := Filter(transactions, TransactionOwnedBy(userId));
      Ok(Snapshot(
        Filter(pockets, PocketOwnedBy(userId)),
        SortBy(owned, TransactionsRoute.DateKey, true),
        Filter(plans, PlanOwnedBy(userId))))
  }

  /** Every row owned by the user is in the snapshot and every row in it is
      owned by the user. */
  lemma SnapshotIsExactlyTheUsersRows(pockets: seq<Pocket>, transactions: seq<Transaction>,
                                      plans: seq<Plan>, userId: string)
    requires userId != ""
    ensures var r := Get(pockets, transactions, plans, userId, false);
      r.Ok? &&
      (forall p :: p in r.body.pockets <==> p in pockets && p.userId == userId) &&
      (forall t :: t in r.body.transactions <==> t in transactions && t.userId == userId) &&
      (forall p :: p in r.body.plans <==> p in plans && p.userId == userId)
  {
    var r := Get(pockets, transactions, plans, userId, false);
    forall p ensures p in r.body.pockets <==> p in pockets && p.userId == userId {
      assert p in r.body.pockets <==> p in multiset(r.body.pockets);
    }
    forall t ensures t in r.body.transactions <==> t in transactions && t.userId == userId {
      assert t in r.body.transactions <==> t in multiset(r.body.transactions);
    }
    forall p ensures p in r.body.plans <==> p in plans && p.userId == userId {
      assert p in r.body.plans <==> p in multiset(r.body.plans);
    }
  }
}

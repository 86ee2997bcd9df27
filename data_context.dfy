/** The client-side data provider: the signed-in user's pockets,
    transactions and plans as last loaded, the figures derived from them,
    and the requests it sends to the server. A request is recorded in
    `sent` instead of being performed; the server's answers come in as
    parameters. */
module DataContext {

  import opened Types
  import opened Seqs
  import opened Totals
  import opened Store
  import DataRoute

  /** The fields a plan update carries: only the paid flag, or the full set
      the edit form sends (an empty pocket choice is sent as absent). */
  datatype PlanPatch =
    | PaidOnly(isPaid: bool)
    | FullEdit(title: string, amount: int, dueDate: string, category: Category,
               planType: Option<TransactionType>, isPaid: bool, pocketId: Option<string>)

  datatype Request =
    | GetData(userId: string)
    | PostTransaction(draft: TxDraft)
    | PutPlan(id: string, patch: PlanPatch)

  /** The plan update endpoint writes the given fields and keeps the rest. */
  function ApplyPatch(p: Plan, patch: PlanPatch): (q: Plan)
    ensures q.id == p.id && q.userId == p.userId && q.isPaid == patch.isPaid
    ensures patch.PaidOnly? ==> q == p.(isPaid := patch.isPaid)
    ensures patch.FullEdit? ==>
      q.title == patch.title && q.amount == patch.amount && q.dueDate == patch.dueDate &&
      q.category == patch.category
    ensures patch.FullEdit? && patch.planType.Some? ==> q.planType == patch.planType
    ensures patch.FullEdit? && patch.planType.None? ==> q.planType == p.planType
    ensures patch.FullEdit? && patch.pocketId.Some? ==> q.pocketId == patch.pocketId
    ensures patch.FullEdit? && patch.pocketId.None? ==> q.pocketId == p.pocketId
  {
    match patch
    case PaidOnly(paid) => p.(isPaid := paid)
    case FullEdit(title, amount, dueDate, category, planType, paid, pocketId) =>
      // an absent type or pocket leaves the stored value as it is
      p.(title := title, amount := amount, dueDate := dueDate, category := category,
         planType := if planType.Some? then planType else p.planType, isPaid := paid,
         pocketId := if pocketId.Some? then pocketId else p.pocketId)
  }

  function PlanWithId(id: string): Plan -> bool {
    (p: Plan) => p.id == id
  }

  /** `plans.find(p => p.id === id)`. */
  function PlanById(plans: seq<Plan>, id: string): (r: Option<Plan>)
    ensures r.None? <==> forall i :: 0 <= i < |plans| ==> plans[i].id != id
    ensures r.Some? ==> exists i :: 0 <= i < |plans| && plans[i] == r.value && plans[i].id == id &&
                                    forall j :: 0 <= j < i ==> plans[j].id != id
  {
    match FindFirst(plans, PlanWithId(id))
    case None =>
      assert forall i :: 0 <= i < |plans| ==> !PlanWithId(id)(plans[i]);
      None
    case Some(i) =>
      assert PlanWithId(id)(plans[i]);
      assert forall j :: 0 <= j < i ==> !PlanWithId(id)(plans[j]);
      Some(plans[i])
  }

  /** A pocket reference is truthy when present and not empty. */
  predicate NamesPocket(p: Plan) {
    p.pocketId.Some? && p.pocketId.value != ""
  }

  /** The plan's own pocket when it names one (no fallback when that pocket
      is missing), the first pocket otherwise. */
  function PocketToUse(p: Plan, pockets: seq<Pocket>): (r: Option<Pocket>)
    ensures NamesPocket(p) ==> (r.Some? <==> HasPocket(pockets, p.pocketId.value))
    ensures NamesPocket(p) && r.Some? ==> r.value.id == p.pocketId.value && r.value in pockets
    ensures !NamesPocket(p) ==> r == (if pockets == [] then None else Some(pockets[0]))
  {
    if NamesPocket(p) then
      FindPocket(pockets, p.pocketId.value);
      match FindFirst(pockets, PocketWithId(p.pocketId.value))
      case None => None
      case Some(i) =>
        assert PocketWithId(p.pocketId.value)(pockets[i]);
        Some(pockets[i])
    else if pockets == [] then None
    else Some(pockets[0])
  }

  const PAYMENT_PREFIX := "Plan Payment: "

  /** The transaction a plan's payment records. */
  function Payment(p: Plan, pocket: Pocket, now: string): (f: TxFields)
    ensures f.amount == p.amount && f.category == p.category && f.date == now
    ensures f.txType == (if p.planType.Some? then p.planType.value else Expense)
    ensures f.description == PAYMENT_PREFIX + p.title
    ensures f.pocketId == pocket.id
  {
    TxFields(p.amount, if p.planType.Some? then p.planType.value else Expense,
             p.category, PAYMENT_PREFIX + p.title, now, pocket.id)
  }

  /** The decision of `markPlanAsPaid`: the transaction to create, or None
      when the plan is missing, already paid, or no pocket is available.
      `now` is the current time as an ISO string. */
  function PaymentFor(plans: seq<Plan>, pockets: seq<Pocket>, id: string, now: string)
    : (r: Option<TxFields>)
    ensures (forall i :: 0 <= i < |plans| ==> plans[i].id != id) ==> r.None?
    ensures r.Some? ==>
      exists i :: 0 <= i < |plans| && plans[i].id == id && !plans[i].isPaid &&
                  r.value.amount == plans[i].amount && r.value.category == plans[i].category &&
                  r.value.description == PAYMENT_PREFIX + plans[i].title && r.value.date == now
    ensures r.Some? ==> exists j :: 0 <= j < |pockets| && pockets[j].id == r.value.pocketId
  {
    match PlanById(plans, id)
    case None => None
    case Some(p) =>
      if p.isPaid then None
      else
        match PocketToUse(p, pockets)
        case None => None
        case Some(pocket) => Some(Payment(p, pocket, now))
  }

  /** A missing or already paid plan produces no payment. */
  lemma PaidPlanIsNotPaidAgain(plans: seq<Plan>, pockets: seq<Pocket>, id: string, now: string, i: nat)
    requires i < |plans| && plans[i].id == id && (forall j :: 0 <= j < i ==> plans[j].id != id)
    requires plans[i].isPaid
    ensures PaymentFor(plans, pockets, id, now).None?
  {
    assert PlanById(plans, id) == Some(plans[i]);
  }

  /** A plan naming a pocket is paid from that pocket, or not at all when no
      pocket has that id, even if other pockets exist. */
  lemma PlanPaysFromItsOwnPocket(plans: seq<Plan>, pockets: seq<Pocket>, id: string, now: string, i: nat)
    requires i < |plans| && plans[i].id == id && (forall j :: 0 <= j < i ==> plans[j].id != id)
    requires !plans[i].isPaid && NamesPocket(plans[i])
    ensures var r := PaymentFor(plans, pockets, id, now);
      (r.Some? <==> HasPocket(pockets, plans[i].pocketId.value)) &&
      (r.Some? ==> exists k :: 0 <= k < |pockets| && pockets[k].id == plans[i].pocketId.value &&
                               r.value == Payment(plans[i], pockets[k], now))
  {
    assert PlanById(plans, id) == Some(plans[i]);
  }

  /** A plan naming no pocket is paid from the first pocket, or not at all
      when there are no pockets. */
  lemma PlanWithoutPocketUsesFirst(plans: seq<Plan>, pockets: seq<Pocket>, id: string, now: string, i: nat)
    requires i < |plans| && plans[i].id == id && (forall j :: 0 <= j < i ==> plans[j].id != id)
    requires !plans[i].isPaid && !NamesPocket(plans[i])
    ensures var r := PaymentFor(plans, pockets, id, now);
      (r.Some? <==> pockets != []) &&
      (r.Some? ==> r.value == Payment(plans[i], pockets[0], now))
  {
    assert PlanById(plans, id) == Some(plans[i]);
  }

  /** `pockets.find(p => p.id === pocketId)?.balance || 0`. */
  function PocketBalance(pockets: seq<Pocket>, id: string): (r: int)
    ensures !HasPocket(pockets, id) ==> r == 0
    ensures forall i :: 0 <= i < |pockets| && pockets[i].id == id && (forall j :: 0 <= j < i ==> pockets[j].id != id)
                        ==> r == pockets[i].balance
  {
    FindPocket(pockets, id);
    match FindFirst(pockets, PocketWithId(id))
    case None => 0
    case Some(i) =>
      assert PocketWithId(id)(pockets[i]);
      assert forall j :: 0 <= j < i ==> !PocketWithId(id)(pockets[j]);
      pockets[i].balance
  }

  /** With unique ids, the balance shown for an id is that pocket's balance. */
  lemma PocketBalanceOfUnique(pockets: seq<Pocket>, i: nat)
    requires UniqueBy(pockets, PocketKey) && i < |pockets|
    ensures PocketBalance(pockets, pockets[i].id) == pockets[i].balance
  {
    assert forall j :: 0 <= j < i ==> PocketKey(pockets[j]) != PocketKey(pockets[i]);
  }

  /** A pocket's shown balance moves by exactly what is credited to it, and
      no other pocket's does. */
  lemma PocketBalanceAfterCredit(pockets: seq<Pocket>, id: string, other: string, delta: int)
    requires UniqueBy(pockets, PocketKey)
    ensures PocketBalance(Credit(pockets, id, delta), id) ==
      PocketBalance(pockets, id) + (if HasPocket(pockets, id) then delta else 0)
    ensures other != id ==> PocketBalance(Credit(pockets, id, delta), other) == PocketBalance(pockets, other)
  {
    var after := Credit(pockets, id, delta);
    CreditEffect(pockets, id, delta);
    CreditKeepsIds(pockets, id, delta);
    if HasPocket(pockets, id) {
      var i :| 0 <= i < |pockets| && pockets[i].id == id;
      PocketBalanceOfUnique(pockets, i);
      PocketBalanceOfUnique(after, i);
    } else {
      assert !HasPocket(after, id);
    }
    if other != id {
      if HasPocket(pockets, other) {
        var i :| 0 <= i < |pockets| && pockets[i].id == other;
        PocketBalanceOfUnique(pockets, i);
        PocketBalanceOfUnique(after, i);
      } else {
        assert !HasPocket(after, other);
      }
    }
  }

  /** The data provider. `user` is the signed-in user's id, if any. */
  class DataProvider {
    var user: Option<string>
    var transactions: seq<Transaction>
    var pockets: seq<Pocket>
    var plans: seq<Plan>
    var isLoading: bool
    var sent: seq<Request>

    /** A provider starts with empty lists and nothing sent. */
    constructor (user0: Option<string>)
      ensures user == user0 && transactions == [] && pockets == [] && plans == []
      ensures !isLoading && sent == []
    {
      user := user0;
      transactions, pockets, plans := [], [], [];
      isLoading := false;
      sent := [];
    }

    /** The total balance: the sum of all pocket balances, which moves as
        CreditSum and SumBalancesUpdate say when a pocket changes. */
    function Balance(): (b: int)
      reads this
      ensures b == SumBalances(pockets)
      ensures pockets == [] ==> b == 0
    {
      SumBalances(pockets)
    }

    /** The income total: what is left of the signed sum once the expenses
        are added back. */
    function TotalIncome(): (r: int)
      reads this
      ensures r == NetOf(transactions) + TotalOf(transactions, Expense)
    {
      NetIsIncomeMinusExpense(transactions);
      TotalOf(transactions, Income)
    }

    /** The expense total: the income total less the signed sum. */
    function TotalExpense(): (r: int)
      reads this
      ensures r == TotalIncome() - NetOf(transactions)
    {
      NetIsIncomeMinusExpense(transactions);
      TotalOf(transactions, Expense)
    }

    /** Loads the user's data. Without a user the lists are emptied and
        nothing is requested. `reply` is the server's snapshot, None when the
        request fails or is answered with an error status; then the lists
        keep their values. */
    method FetchData(reply: Option<DataRoute.Snapshot>)
      modifies this
      ensures user == old(user)
      ensures old(user).None? ==> transactions == [] && pockets == [] && plans == [] && sent == old(sent)
      ensures old(user).None? ==> isLoading == old(isLoading)
      ensures old(user).Some? ==> !isLoading
      ensures old(user).Some? ==> sent == old(sent) + [GetData(old(user).value)]
      ensures old(user).Some? && reply.Some? ==>
        transactions == reply.value.transactions && pockets == reply.value.pockets &&
        plans == reply.value.plans
      ensures old(user).Some? && reply.None? ==>
        transactions == old(transactions) && pockets == old(pockets) && plans == old(plans)
    {
      if user.None? {
        transactions, pockets, plans := [], [], [];
        return;
      }
      isLoading := true;
      sent := sent + [GetData(user.value)];
      if reply.Some? {
        transactions := reply.value.transactions;
        pockets := reply.value.pockets;
        plans := reply.value.plans;
      }
      isLoading := false;
    }

    /** Sends a new transaction for the signed-in user; without a user
        nothing is sent. */
    method AddTransaction(fields: TxFields)
      modifies this
      ensures user == old(user) && transactions == old(transactions)
      ensures pockets == old(pockets) && plans == old(plans) && isLoading == old(isLoading)
      ensures sent == old(sent) + (if old(user).Some? then [PostTransaction(TxDraft(old(user).value, fields))] else [])
    {
      if user.None? {
        return;
      }
      sent := sent + [PostTransaction(TxDraft(user.value, fields))];
    }

    method UpdatePlan(id: string, patch: PlanPatch)
      modifies this
      ensures user == old(user) && transactions == old(transactions)
      ensures pockets == old(pockets) && plans == old(plans) && isLoading == old(isLoading)
      ensures sent == old(sent) + [PutPlan(id, patch)]
    {
      sent := sent + [PutPlan(id, patch)];
    }

    /** Pays a plan: creates its transaction, then marks it paid. A missing
        or paid plan, or one with no pocket to pay from, sends nothing. The
        plan is marked paid even when there is no user to create the
        transaction for. */
    method MarkPlanAsPaid(id: string, now: string)
      modifies this
      ensures user == old(user) && transactions == old(transactions)
      ensures pockets == old(pockets) && plans == old(plans) && isLoading == old(isLoading)
      ensures PaymentFor(plans, pockets, id, now).None? ==> sent == old(sent)
      ensures PaymentFor(plans, pockets, id, now).Some? ==>
        sent == old(sent) +
          (if user.Some? then [PostTransaction(TxDraft(user.value, PaymentFor(plans, pockets, id, now).value))] else []) +
          [PutPlan(id, PaidOnly(true))]
    {
      var plan := PlanById(plans, id);
      if plan.None? || plan.value.isPaid {
        return;
      }
      var pocketToUse := PocketToUse(plan.value, pockets);
      if pocketToUse.None? {
        return;
      }
      AddTransaction(Payment(plan.value, pocketToUse.value, now));
      UpdatePlan(id, PaidOnly(true));
    }
  }
}

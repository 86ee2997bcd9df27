/** The plans page: the new-plan form, the edit form, and the pay and
    delete confirmations, each a handler over the page's held state; and
    the plans listed by ascending due date. */
module PlansPage {

  import opened Types
  import opened IsoDates
  import opened Sorting
  import opened DataContext
  import opened CurrencyInput

  /** A new plan as the form sends it. */
  datatype PlanDraft = PlanDraft(title: string, amount: int, dueDate: string, category: Category,
                                 planType: TransactionType, isPaid: bool, pocketId: Option<string>)

  /** What the page asks the data provider to do. */
  datatype PlanCall =
    | AddPlan(draft: PlanDraft)
    | UpdatePlan(id: string, patch: PlanPatch)
    | MarkPlanAsPaid(id: string)
    | DeletePlan(id: string)

  /** An empty pocket choice is sent as absent. */
  function PocketChoice(pocketId: string): (r: Option<string>)
    ensures r.None? <==> pocketId == ""
    ensures r.Some? ==> r.value == pocketId
  {
    if pocketId == "" then None else Some(pocketId)
  }

  /** The plan the new-plan form submits: None when the title, amount or date
      is empty or zero, or the date cannot be converted. `amount` 0 stands
      for the empty field as well. */
  function NewPlan(title: string, amount: int, date: string, category: Category,
                   planType: TransactionType, pocketId: string): (r: Option<PlanDraft>)
    ensures title == "" || amount == 0 || date == "" ==> r.None?
    ensures r.Some? <==> title != "" && amount != 0 && IsDayString(date)
    ensures r.Some? ==> !r.value.isPaid && r.value.pocketId == PocketChoice(pocketId)
    ensures r.Some? ==> r.value.title == title && r.value.amount == amount &&
                        r.value.category == category && r.value.planType == planType
    ensures r.Some? ==> DatePart(r.value.dueDate) == date
  {
    if title == "" || amount == 0 || date == "" then None
    else match DateInputToIso(date)
      case None => None
      case Some(iso) => Some(PlanDraft(title, amount, iso, category, planType, false, PocketChoice(pocketId)))
  }

  /** The edit form starts from the plan with its due date cut to the day. */
  function OpenEdit(p: Plan): (e: Plan)
    ensures e.(dueDate := p.dueDate) == p
    ensures |e.dueDate| <= 10 && |e.dueDate| <= |p.dueDate| && e.dueDate == p.dueDate[..|e.dueDate|]
    ensures |p.dueDate| >= 10 ==> |e.dueDate| == 10
  {
    p.(dueDate := Prefix(p.dueDate, 10))
  }

  /** The update the edit form sends; None when its day cannot be converted. */
  function EditPatch(e: Plan): (r: Option<PlanPatch>)
    ensures r.Some? <==> IsDayString(e.dueDate)
    ensures r.Some? ==>
      r.value.FullEdit? && r.value.title == e.title && r.value.amount == e.amount &&
      r.value.category == e.category && r.value.planType == e.planType && r.value.isPaid == e.isPaid
    ensures r.Some? ==> (r.value.pocketId.None? <==> !NamesPocket(e))
    ensures r.Some? ==> r.value.dueDate == e.dueDate + MIDNIGHT_SUFFIX && DatePart(r.value.dueDate) == e.dueDate
  {
    match DateInputToIso(e.dueDate)
    case None => None
    case Some(iso) =>
      Some(FullEdit(e.title, e.amount, iso, e.category, e.planType, e.isPaid,
                    if NamesPocket(e) then e.pocketId else None))
  }

  /** Saving the edit form unchanged keeps the plan, but for its due time,
      which moves to midnight UTC of the same day. */
  lemma UnchangedEditKeepsPlan(p: Plan)
    requires IsDayString(Prefix(p.dueDate, 10))
    ensures var patch := EditPatch(OpenEdit(p));
      patch.Some? && ApplyPatch(p, patch.value) == p.(dueDate := Prefix(p.dueDate, 10) + MIDNIGHT_SUFFIX)
  {
  }

  function DueKey(p: Plan): string { p.dueDate }

  /** `[...plans].sort(...)` by due date: ascending, the same plans, and the
      list it copies is left as it was (a value here). */
  function SortedPlans(plans: seq<Plan>): (r: seq<Plan>)
    ensures forall i, j :: 0 <= i < j < |r| ==> !LexLt(r[j].dueDate, r[i].dueDate)
    ensures multiset(r) == multiset(plans)
  {
    SortBy(plans, DueKey, false)
  }

  /** The edit form's `required` fields: a title, an amount whose display is
      not empty, and a due day. */
  predicate EditFormFilled(e: Plan): (b: bool)
    ensures b <==> e.title != "" && e.amount != 0 && e.dueDate != ""
  {
    e.title != "" && !ShowsEmpty(e.amount) && e.dueDate != ""
  }

  class Page {
    var isAdding: bool
    var title: string
    var amount: int
    var date: string
    var category: Category
    var planType: TransactionType
    var pocketId: string
    var editing: Option<Plan>
    var deleteConfirmOpen: bool
    var planToDelete: Option<Plan>
    var payConfirmOpen: bool
    var planToPay: Option<Plan>
    var calls: seq<PlanCall>

    /** A confirmation dialog is only open with its plan chosen. */
    ghost predicate Valid()
      reads this
    {
      (payConfirmOpen ==> planToPay.Some?) && (deleteConfirmOpen ==> planToDelete.Some?)
    }

    /** The page's initial state: empty form, category Bills, type expense. */
    constructor ()
      ensures Valid()
      ensures !isAdding && title == "" && amount == 0 && date == "" && pocketId == ""
      ensures category == Bills && planType == Expense && editing.None?
      ensures !deleteConfirmOpen && planToDelete.None? && !payConfirmOpen && planToPay.None?
      ensures calls == []
    {
      isAdding := false;
      title, amount, date := "", 0, "";
      category, planType, pocketId := Bills, Expense, "";
      editing := None;
      deleteConfirmOpen, planToDelete := false, None;
      payConfirmOpen, planToPay := false, None;
      calls := [];
    }

    /** Submits the new-plan form and clears it (category and type are kept);
        a form the guard refuses changes nothing. */
    method HandleSubmit()
      requires Valid()
      modifies this
      ensures Valid()
      ensures var d := NewPlan(old(title), old(amount), old(date), old(category), old(planType), old(pocketId));
        (d.None? ==> calls == old(calls) && title == old(title) && amount == old(amount) &&
                     date == old(date) && pocketId == old(pocketId) && isAdding == old(isAdding)) &&
        (d.Some? ==> calls == old(calls) + [AddPlan(d.value)] && !isAdding &&
                     title == "" && amount == 0 && date == "" && pocketId == "")
      ensures category == old(category) && planType == old(planType) && editing == old(editing)
      ensures payConfirmOpen == old(payConfirmOpen) && planToPay == old(planToPay)
      ensures deleteConfirmOpen == old(deleteConfirmOpen) && planToDelete == old(planToDelete)
    {
      var d := NewPlan(title, amount, date, category, planType, pocketId);
      if d.Some? {
        calls := calls + [AddPlan(d.value)];
        isAdding := false;
        title, amount, date, pocketId := "", 0, "", "";
      }
    }

    method HandleOpenEdit(p: Plan)
      requires Valid()
      modifies this
      ensures Valid() && editing == Some(OpenEdit(p)) && calls == old(calls)
      ensures payConfirmOpen == old(payConfirmOpen) && planToPay == old(planToPay)
      ensures deleteConfirmOpen == old(deleteConfirmOpen) && planToDelete == old(planToDelete)
      ensures isAdding == old(isAdding) && title == old(title) && amount == old(amount) && date == old(date)
      ensures category == old(category) && planType == old(planType) && pocketId == old(pocketId)
    {
      editing := Some(OpenEdit(p));
    }

    /** Sends the edited plan and closes the form. A form with an empty
        required field is not submitted by the browser, and one whose day
        cannot be converted sends nothing; either way the form stays open. */
    method HandleEditSubmit()
      requires Valid()
      modifies this
      ensures Valid()
      ensures old(editing).Some? && EditFormFilled(old(editing).value) && EditPatch(old(editing).value).Some? ==>
        calls == old(calls) + [UpdatePlan(old(editing).value.id, EditPatch(old(editing).value).value)] &&
        editing.None?
      ensures !(old(editing).Some? && EditFormFilled(old(editing).value) && EditPatch(old(editing).value).Some?) ==>
        calls == old(calls) && editing == old(editing)
      ensures payConfirmOpen == old(payConfirmOpen) && planToPay == old(planToPay)
      ensures deleteConfirmOpen == old(deleteConfirmOpen) && planToDelete == old(planToDelete)
      ensures isAdding == old(isAdding) && title == old(title) && amount == old(amount) && date == old(date)
      ensures category == old(category) && planType == old(planType) && pocketId == old(pocketId)
    {
      if editing.None? || !EditFormFilled(editing.value) {
        return;
      }
      var patch := EditPatch(editing.value);
      if patch.None? {
        return;
      }
      calls := calls + [UpdatePlan(editing.value.id, patch.value)];
      editing := None;
    }

    /** A paid plan is marked unpaid (no transaction is removed); an unpaid
        one only opens the payment confirmation. */
    method TogglePaid(p: Plan)
      requires Valid()
      modifies this
      ensures Valid() && editing == old(editing)
      ensures deleteConfirmOpen == old(deleteConfirmOpen) && planToDelete == old(planToDelete)
      ensures p.isPaid ==> calls == old(calls) + [UpdatePlan(p.id, PaidOnly(false))] &&
                           payConfirmOpen == old(payConfirmOpen) && planToPay == old(planToPay)
      ensures !p.isPaid ==> calls == old(calls) && planToPay == Some(p) && payConfirmOpen
      ensures isAdding == old(isAdding) && title == old(title) && amount == old(amount) && date == old(date)
      ensures category == old(category) && planType == old(planType) && pocketId == old(pocketId)
    {
      if p.isPaid {
        calls := calls + [UpdatePlan(p.id, PaidOnly(false))];
      } else {
        planToPay := Some(p);
        payConfirmOpen := true;
      }
    }

    /** Pays the pending plan, then clears it and closes the dialog. */
    method ConfirmPayPlan()
      requires Valid()
      modifies this
      ensures Valid() && editing == old(editing)
      ensures deleteConfirmOpen == old(deleteConfirmOpen) && planToDelete == old(planToDelete)
      ensures old(planToPay).None? ==> calls == old(calls) && payConfirmOpen == old(payConfirmOpen) && planToPay.None?
      ensures old(planToPay).Some? ==>
        calls == old(calls) + [MarkPlanAsPaid(old(planToPay).value.id)] && planToPay.None? && !payConfirmOpen
      ensures old(payConfirmOpen) ==> calls == old(calls) + [MarkPlanAsPaid(old(planToPay).value.id)]
      ensures isAdding == old(isAdding) && title == old(title) && amount == old(amount) && date == old(date)
      ensures category == old(category) && planType == old(planType) && pocketId == old(pocketId)
    {
      if planToPay.None? {
        return;
      }
      calls := calls + [MarkPlanAsPaid(planToPay.value.id)];
      planToPay := None;
      payConfirmOpen := false;
    }

    /** Cancelling payment closes the dialog; the pending plan stays recorded. */
    method CancelPay()
      requires Valid()
      modifies this
      ensures Valid() && !payConfirmOpen && planToPay == old(planToPay) && calls == old(calls)
      ensures deleteConfirmOpen == old(deleteConfirmOpen) && planToDelete == old(planToDelete)
      ensures editing == old(editing)
      ensures isAdding == old(isAdding) && title == old(title) && amount == old(amount) && date == old(date)
      ensures category == old(category) && planType == old(planType) && pocketId == old(pocketId)
    {
      payConfirmOpen := false;
    }

    method PromptDeletePlan(p: Plan)
      requires Valid()
      modifies this
      ensures Valid() && planToDelete == Some(p) && deleteConfirmOpen && calls == old(calls)
      ensures payConfirmOpen == old(payConfirmOpen) && planToPay == old(planToPay)
      ensures editing == old(editing)
      ensures isAdding == old(isAdding) && title == old(title) && amount == old(amount) && date == old(date)
      ensures category == old(category) && planType == old(planType) && pocketId == old(pocketId)
    {
      planToDelete := Some(p);
      deleteConfirmOpen := true;
    }

    method ConfirmDeletePlan()
      requires Valid()
      modifies this
      ensures Valid() && editing == old(editing)
      ensures payConfirmOpen == old(payConfirmOpen) && planToPay == old(planToPay)
      ensures old(planToDelete).None? ==> calls == old(calls) && deleteConfirmOpen == old(deleteConfirmOpen) && planToDelete.None?
      ensures old(planToDelete).Some? ==>
        calls == old(calls) + [DeletePlan(old(planToDelete).value.id)] && planToDelete.None? && !deleteConfirmOpen
      ensures old(deleteConfirmOpen) ==> calls == old(calls) + [DeletePlan(old(planToDelete).value.id)]
      ensures isAdding == old(isAdding) && title == old(title) && amount == old(amount) && date == old(date)
      ensures category == old(category) && planType == old(planType) && pocketId == old(pocketId)
    {
      if planToDelete.None? {
        return;
      }
      calls := calls + [DeletePlan(planToDelete.value.id)];
      planToDelete := None;
      deleteConfirmOpen := false;
    }

    /** Cancelling delete clears the pending plan and deletes nothing. */
    method CancelDeletePlan()
      requires Valid()
      modifies this
      ensures Valid() && planToDelete.None? && !deleteConfirmOpen && calls == old(calls)
      ensures payConfirmOpen == old(payConfirmOpen) && planToPay == old(planToPay)
      ensures editing == old(editing)
      ensures isAdding == old(isAdding) && title == old(title) && amount == old(amount) && date == old(date)
      ensures category == old(category) && planType == old(planType) && pocketId == old(pocketId)
    {
      planToDelete := None;
      deleteConfirmOpen := false;
    }
  }
}

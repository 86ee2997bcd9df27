/** The add-transaction page: a form held in page state, submitted as one
    transaction record. */
module AddPage {

  import opened Types
  import opened IsoDates

  /** `pockets[0]?.id || ''`: the initial pocket selection. */
  function InitialPocket(pockets: seq<Pocket>): (id: string)
    ensures pockets == [] ==> id == ""
    ensures pockets != [] ==> id == pockets[0].id
  {
    if pockets == [] then "" else pockets[0].id
  }

  /** The record a submission sends: None when the amount is zero or empty
      (0 stands for both) or the day cannot be converted. */
  function Record(amount: int, description: string, txType: TransactionType, category: Category,
                  date: string, pocketId: string): (r: Option<TxFields>)
    ensures amount == 0 ==> r.None?
    ensures r.Some? <==> amount != 0 && IsDayString(date)
    ensures r.Some? ==>
      r.value.amount == amount && r.value.description == description && r.value.txType == txType &&
      r.value.category == category && r.value.pocketId == pocketId && DatePart(r.value.date) == date
  {
    if amount == 0 then None
    else match DateInputToIso(date)
      case None => None
      case Some(iso) => Some(TxFields(amount, txType, category, description, iso, pocketId))
  }

  /** The page's own category list: the shared categories, with Education
      and Housing in the opposite order. */
  const PAGE_CATEGORIES: seq<Category> :=
    [Food, Transport, Shopping, Entertainment, Bills, Health,
     Salary, Investment, Education, Housing, Other]

  /** The position of each category in the page's list. */
  function PageIndex(c: Category): (i: nat)
    ensures i < |PAGE_CATEGORIES| && PAGE_CATEGORIES[i] == c
  {
    match c
    case Education => 8
    case Housing => 9
    case _ => CategoryIndex(c)
  }

  /** The page offers every category exactly once, as the shared list does,
      but not in the shared order. */
  lemma PageCategoriesReorderShared()
    ensures |PAGE_CATEGORIES| == |CATEGORIES|
    ensures forall c: Category :: c in PAGE_CATEGORIES
    ensures forall i, j :: 0 <= i < j < |PAGE_CATEGORIES| ==> PAGE_CATEGORIES[i] != PAGE_CATEGORIES[j]
    ensures PAGE_CATEGORIES[8] == Education && CATEGORIES[8] == Housing
  {
    forall c: Category ensures c in PAGE_CATEGORIES {
      var i := PageIndex(c);
    }
  }

  /** The pocket a submission is evidently meant to carry: the selection, or
      the first pocket when nothing is selected. */
  function IntendedPocket(selected: string, pockets: seq<Pocket>): (id: string)
    ensures selected != "" ==> id == selected
    ensures selected == "" && pockets != [] ==> id == pockets[0].id
    ensures selected == "" && pockets == [] ==> id == ""
  {
    if selected == "" && pockets != [] then pockets[0].id else selected
  }

  /** The record built with the intended pocket. */
  function IntendedRecord(amount: int, description: string, txType: TransactionType, category: Category,
                          date: string, selected: string, pockets: seq<Pocket>): (r: Option<TxFields>)
    ensures r.Some? <==> amount != 0 && IsDayString(date)
    ensures r.Some? ==>
      r.value.amount == amount && r.value.description == description && r.value.txType == txType &&
      r.value.category == category && DatePart(r.value.date) == date &&
      r.value.pocketId == IntendedPocket(selected, pockets)
  {
    Record(amount, description, txType, category, date, IntendedPocket(selected, pockets))
  }

  /** With pockets available, a submitted intended record always names a
      pocket: the selected one, or the first. */
  lemma IntendedRecordNamesAPocket(amount: int, description: string, txType: TransactionType,
                                   category: Category, date: string, selected: string, pockets: seq<Pocket>)
    requires pockets != [] && pockets[0].id != ""
    ensures var r := IntendedRecord(amount, description, txType, category, date, selected, pockets);
      (r.Some? <==> amount != 0 && IsDayString(date)) &&
      (r.Some? ==> r.value.pocketId != "" &&
                   (r.value.pocketId == selected || r.value.pocketId == pockets[0].id))
  {
  }

  /** As written, a submission with nothing selected sends no pocket even
      when pockets exist, although the same call selects the first one. */
  lemma EmptySelectionSendsNoPocket(amount: int, description: string, txType: TransactionType,
                                    category: Category, date: string, pockets: seq<Pocket>)
    requires pockets != [] && pockets[0].id != "" && amount != 0 && IsDayString(date)
    ensures Record(amount, description, txType, category, date, "").Some?
    ensures Record(amount, description, txType, category, date, "").value.pocketId == ""
    ensures IntendedRecord(amount, description, txType, category, date, "", pockets).value.pocketId == pockets[0].id
  {
  }

  class Page {
    var amount: int
    var description: string
    var txType: TransactionType
    var category: Category
    var date: string
    var selectedPocketId: string
    var sent: seq<TxFields>
    var navigatedHome: bool

    /** The form's initial state: no amount, type expense, category Food,
        today's date, the first pocket. `nowIso` is the current time. */
    constructor (pockets: seq<Pocket>, nowIso: string)
      ensures amount == 0 && description == "" && txType == Expense && category == Food
      ensures date == DatePart(nowIso) && selectedPocketId == InitialPocket(pockets)
      ensures sent == [] && !navigatedHome
    {
      amount, description := 0, "";
      txType, category := Expense, Food;
      date := DatePart(nowIso);
      selectedPocketId := InitialPocket(pockets);
      sent, navigatedHome := [], false;
    }

    /** Submits the form and goes home. When no pocket is selected the
        selection is set to the first pocket, but the record built in the
        same call still carries the selection held when the call began. */
    method HandleSubmit(pockets: seq<Pocket>)
      modifies this
      ensures amount == old(amount) && description == old(description) && txType == old(txType)
      ensures category == old(category) && date == old(date)
      ensures old(amount) == 0 ==> sent == old(sent) && navigatedHome == old(navigatedHome) &&
                                   selectedPocketId == old(selectedPocketId)
      ensures old(amount) != 0 && old(selectedPocketId) == "" && pockets != [] ==> selectedPocketId == pockets[0].id
      ensures old(amount) != 0 && !(old(selectedPocketId) == "" && pockets != []) ==>
        selectedPocketId == old(selectedPocketId)
      ensures var r := Record(old(amount), old(description), old(txType), old(category), old(date), old(selectedPocketId));
        (r.Some? ==> sent == old(sent) + [r.value] && navigatedHome) &&
        (r.None? ==> sent == old(sent) && navigatedHome == old(navigatedHome))
    {
      if amount == 0 {
        return;
      }
      var chosen := selectedPocketId;
      if selectedPocketId == "" && |pockets| > 0 {
        selectedPocketId := pockets[0].id;
      }
      var r := Record(amount, description, txType, category, date, chosen);
      if r.None? {
        // the date conversion throws: nothing is sent
        return;
      }
      sent := sent + [r.value];
      navigatedHome := true;
    }
  }
}

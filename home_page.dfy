/** The home page: the greeting, the five most recent transactions, and the
    add-pocket and edit-pocket forms. */
module HomePage {

  import opened Types
  import opened Totals
  import opened CurrencyInput

  /** `getGreeting` for the hour of the local clock. */
  function Greeting(hour: int): (g: string)
    ensures g == "Good Morning" <==> hour < 12
    ensures g == "Good Afternoon" <==> 12 <= hour < 18
    ensures g == "Good Evening" <==> hour >= 18
  {
    if hour < 12 then "Good Morning"
    else if hour < 18 then "Good Afternoon"
    else "Good Evening"
  }

  const RECENT_COUNT := 5

  /** `transactions.slice(0, 5)`. */
  function Recent(ts: seq<Transaction>): (r: seq<Transaction>)
    ensures |r| == (if |ts| < RECENT_COUNT then |ts| else RECENT_COUNT)
    ensures r == ts[..|r|]
  {
    if |ts| < RECENT_COUNT then ts else ts[..RECENT_COUNT]
  }

  datatype PocketDraft = PocketDraft(name: string, balance: int, pocketType: PocketType, color: string)

  /** The fields the edit-pocket form sends. */
  datatype PocketEdit = PocketEdit(name: string, balance: int, color: string)

  datatype HomeCall =
    | AddPocket(draft: PocketDraft)
    | UpdatePocket(id: string, edit: PocketEdit)
    | DeletePocket(id: string)

  /** The pocket the add form submits; None for an empty name. The balance
      field is None when empty, which `Number(...) || 0` reads as 0. `color`
      is the randomly drawn colour. */
  function NewPocket(name: string, balanceField: Option<int>, color: string): (r: Option<PocketDraft>)
    ensures r.None? <==> name == ""
    ensures r.Some? ==> r.value.name == name && r.value.pocketType == Wallet && r.value.color == color
    ensures r.Some? && balanceField.None? ==> r.value.balance == 0
    ensures r.Some? && balanceField.Some? ==> r.value.balance == balanceField.value
  {
    if name == "" then None
    else Some(PocketDraft(name, if balanceField.Some? then balanceField.value else 0, Wallet, color))
  }

  /** The pocket update endpoint writes the sent fields over the pocket. */
  function ApplyPocketEdit(p: Pocket, e: PocketEdit): (q: Pocket)
    ensures q.id == p.id && q.userId == p.userId && q.pocketType == p.pocketType
    ensures q.name == e.name && q.balance == e.balance && q.color == e.color
  {
    p.(name := e.name, balance := e.balance, color := e.color)
  }

  /** An edit sets the balance outright: the total balance moves by the
      difference, whatever the pocket's transactions are. */
  lemma EditSetsBalance(ps: seq<Pocket>, i: nat, e: PocketEdit)
    requires i < |ps|
    ensures SumBalances(ps[i := ApplyPocketEdit(ps[i], e)]) == SumBalances(ps) - ps[i].balance + e.balance
  {
    SumBalancesUpdate(ps, i, ApplyPocketEdit(ps[i], e));
  }

  /** The edit form's `required` fields: a name, and a balance whose
      display is not empty, so a balance of 0 cannot be saved. */
  predicate PocketEditFilled(name: string, balance: int): (b: bool)
    ensures b <==> name != "" && balance != 0
  {
    name != "" && !ShowsEmpty(balance)
  }

  class Page {
    var isAddingPocket: bool
    var newPocketName: string
    var newPocketBalance: Option<int>
    var editingPocket: Option<Pocket>
    var calls: seq<HomeCall>

    constructor ()
      ensures !isAddingPocket && newPocketName == "" && newPocketBalance.None?
      ensures editingPocket.None? && calls == []
    {
      isAddingPocket := false;
      newPocketName, newPocketBalance := "", None;
      editingPocket := None;
      calls := [];
    }

    /** Adds the pocket and clears the form; an empty name does nothing. */
    method HandleAddPocket(color: string)
      modifies this
      ensures editingPocket == old(editingPocket)
      ensures var d := NewPocket(old(newPocketName), old(newPocketBalance), color);
        (d.None? ==> calls == old(calls) && isAddingPocket == old(isAddingPocket) &&
                     newPocketName == old(newPocketName) && newPocketBalance == old(newPocketBalance)) &&
        (d.Some? ==> calls == old(calls) + [AddPocket(d.value)] && !isAddingPocket &&
                     newPocketName == "" && newPocketBalance.None?)
    {
      var d := NewPocket(newPocketName, newPocketBalance, color);
      if d.None? {
        return;
      }
      calls := calls + [AddPocket(d.value)];
      isAddingPocket := false;
      newPocketName := "";
      newPocketBalance := None;
    }

    method OpenEditPocket(p: Pocket)
      modifies this
      ensures editingPocket == Some(p) && calls == old(calls)
      ensures isAddingPocket == old(isAddingPocket) && newPocketName == old(newPocketName)
      ensures newPocketBalance == old(newPocketBalance)
    {
      editingPocket := Some(p);
    }

    /** The edit form's submit: sends exactly its name, balance and colour
        for the pocket being edited, then closes the form. A form whose
        required name or balance is empty is not submitted by the browser:
        nothing is sent and the form stays open. */
    method SaveEditPocket(name: string, balance: int, color: string)
      modifies this
      ensures isAddingPocket == old(isAddingPocket) && newPocketName == old(newPocketName)
      ensures newPocketBalance == old(newPocketBalance)
      ensures old(editingPocket).None? || !PocketEditFilled(name, balance) ==>
        calls == old(calls) && editingPocket == old(editingPocket)
      ensures old(editingPocket).Some? && PocketEditFilled(name, balance) ==>
        calls == old(calls) + [UpdatePocket(old(editingPocket).value.id, PocketEdit(name, balance, color))] &&
        editingPocket.None?
    {
      if editingPocket.None? || !PocketEditFilled(name, balance) {
        return;
      }
      calls := calls + [UpdatePocket(editingPocket.value.id, PocketEdit(name, balance, color))];
      editingPocket := None;
    }

    /** The edit form's delete: deletes the pocket being edited and closes the form. */
    method DeleteEditedPocket()
      modifies this
      ensures isAddingPocket == old(isAddingPocket) && newPocketName == old(newPocketName)
      ensures newPocketBalance == old(newPocketBalance) && editingPocket.None?
      ensures old(editingPocket).None? ==> calls == old(calls)
      ensures old(editingPocket).Some? ==> calls == old(calls) + [DeletePocket(old(editingPocket).value.id)]
    {
      if editingPocket.None? {
        return;
      }
      calls := calls + [DeletePocket(editingPocket.value.id)];
      editingPocket := None;
    }

    method CloseEditModal()
      modifies this
      ensures editingPocket.None? && calls == old(calls)
      ensures isAddingPocket == old(isAddingPocket) && newPocketName == old(newPocketName)
      ensures newPocketBalance == old(newPocketBalance)
    {
      editingPocket := None;
    }
  }
}

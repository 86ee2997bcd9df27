# Financial Track — a Dafny model of the ledger core

Financial Track is a personal finance web application. A signed-in user
keeps **pockets** (bank accounts, wallets and e-wallets, each with a cached
balance), records **transactions** (income or expense, one category, an
optional pocket) and schedules **plans** (future incomes or expenses that
can be paid once). The server side is a set of HTTP handlers over four
tables (users, pockets, transactions, plans). The client side is a data
provider that loads one user's data and sends requests, plus the pages
that hold form and dialog state.

This project models that core in Dafny and proves what the code promises:

- **Store and handlers.** There is a `Store` class with the four tables as
  sequences and the database's unique constraints as its invariant.
  - Creating a transaction inserts the row and moves its pocket's balance
    by the signed amount, both or neither (`TransactionsRoute.Post`).
  - The read handlers are functions: the transaction list (owner filter,
    type filter, newest first, limit) and the per-user snapshot.
  - Registration, login and the user listing strip the password.
- **Client state.** Each stateful piece is a class whose methods update its
  fields.
  - The data provider records the requests it would send in `sent`.
  - The local transaction provider holds a list, with new rows in front.
  - The pages (transaction history, plans, add transaction, home) record
    the provider calls they make in `calls`.
- **Pure helpers.**
  - The currency input's digit parsing and id-ID display.
  - The transaction-history filter.
  - Grouping by day, with the newest day first.
  - The application shell's redirect and visibility rule.

Modelling conventions:

- Amounts and balances are unbounded integers.
- Every date is an ISO-8601 string. Ordering by date is the lexicographic
  order of these strings (`IsoDates.LexLt`), which is JavaScript's string
  `<`.
- A missing query parameter is the empty string, since both are falsy.
- A missing body field is `None`.
- Generated ids, the current time and the random pocket colour are
  parameters.
- A numeric form field that may be `''` holds `0` for `''`, because the
  code treats the two alike (`!amount`, `Number(amount)`, `Number(x) || 0`).
  The home page's new-pocket balance is kept as an `Option<int>`, where an
  empty field is `None`; `HomePage.NewPocket` turns both `None` and `0`
  into a balance of 0, as the code does.

The code and the type declarations disagree in one place. `Plan.type` is
declared mandatory (src/lib/types.ts:45). The payment code nevertheless
falls back to `'expense'` when it is absent (src/context/DataContext.tsx:167).
The model follows the code: `Plan.planType` is an `Option`.

## Model

| member | source | states |
|---|---|---|
| Types.TypeName | src/lib/types.ts:1 | "income" names exactly the income type and "expense" exactly the expense type, so a transaction type is one of the two |
| Types.CategoryIndex | src/lib/types.ts:3-5 | every category of the closed set has a position in CATEGORIES |
| Types.CategoriesListEachOnce | src/lib/types.ts:3-5 | CATEGORIES has 11 entries, names every category and names none twice |
| Types.PocketTypeName | src/lib/types.ts:23 | "bank", "wallet" and "ewallet" name exactly the three pocket types |
| Types.RoleName | src/lib/types.ts:7 | "admin" and "user" name exactly the two roles |
| Types.WithoutPassword | src/app/api/auth/register/route.ts:26-27 | the public record keeps id, username, name, role and avatar of the user, and has no password field |
| Types.Stored | src/app/api/transactions/route.ts:35-37 | the created row carries the new id, the owner and every field of the draft |
| Types.Signed | src/app/api/transactions/route.ts:41 | the balance effect is +amount for income and -amount for expense |
| IsoDates.DatePart | src/components/GroupedTransactionList.tsx:57 | `split('T')[0]` is a prefix of the string with no 'T' in it, ending at the first 'T' or at the end |
| IsoDates.DatePartOfTimestamp | src/app/transactions/page.tsx:195 | the day part of day + "T" + time is the day |
| IsoDates.DateInputToIso | src/app/transactions/page.tsx:207 | converting a date input succeeds exactly for a YYYY-MM-DD day, and the result is that day at midnight UTC (`T00:00:00.000Z`), whose day part is the day again |
| IsoDates.Prefix | src/app/plans/page.tsx:71 | `slice(0, 10)` is the first min(10, length) characters |
| IsoDates.IsoSliceRoundTrip | src/app/plans/page.tsx:71-81 | slicing the converted due date back to 10 characters gives the day that was entered |
| Sorting.SortBy | src/app/api/transactions/route.ts:21 | the sorted list is ordered by the key in the requested direction and is a permutation of the input |
| Sorting.SortDistinct | src/components/GroupedTransactionList.tsx:68-70 | sorting a list without repeats gives a list without repeats |
| Sorting.PrefixIsTop | src/app/api/transactions/route.ts:21-22 | taking the first k of a sorted list keeps the top k: no row left out is strictly ahead of a row kept |
| Totals.SumBalancesUpdate | src/context/DataContext.tsx:188 | replacing one pocket changes the balance total by the difference of the two balances |
| Totals.TotalPrepend | src/context/TransactionContext.tsx:61-67 | a transaction added in front adds its amount to its own type's total and nothing to the other |
| Totals.NetIsIncomeMinusExpense | src/context/TransactionContext.tsx:61-69 | income total minus expense total equals the sum of the signed amounts |
| Store.Credit | src/app/api/transactions/route.ts:42-47 | the increment keeps the number of pockets and every pocket's id, owner, name, type and colour; with no pocket of that id nothing changes |
| Store.CreditEffect | src/app/api/transactions/route.ts:42-47 | incrementing by id changes exactly that pocket's balance by delta; every other pocket and field stays as it was |
| Store.CreditKeepsIds | src/app/api/transactions/route.ts:42-47 | the increment keeps every pocket id, so ids stay unique |
| Store.CreditSum | src/app/api/transactions/route.ts:42-47 | the balance total moves by delta when the pocket exists and not at all otherwise |
| Store.AppendFreshTransaction | src/app/api/transactions/route.ts:35-37 | inserting a row under an unused id keeps transaction ids unique |
| TransactionsRoute.Take | src/app/api/transactions/route.ts:22 | `take` keeps the first min(limit, n) rows, or all rows without a limit |
| TransactionsRoute.Listable | src/app/api/transactions/route.ts:14-17 | a row is listed only for its owner; the type parameter '' or 'all' keeps every type, 'income' and 'expense' keep that type only, and any other value matches no row |
| TransactionsRoute.Get | src/app/api/transactions/route.ts:4-26 | no userId gives 400 "UserId required"; otherwise every listed row is a stored row of that user, of the given type unless the type is empty or 'all', newest first, at most `limit` rows, and without a limit exactly the matching rows |
| TransactionsRoute.GetIsNewestFirst | src/app/api/transactions/route.ts:19-23 | with a limit the list has min(limit, matching) rows, all of them matching rows, and no matching row left out is newer than a listed one |
| TransactionsRoute.Post | src/app/api/transactions/route.ts:28-58 | success exactly when the id is fresh and the pocket (if named) exists; then one row is appended and the named pocket, and only it, moves by the signed amount, so the balance total moves by exactly that; on failure 500 and neither table changes |
| TransactionsRoute.CreateMovesOnlyItsPocket | src/app/api/transactions/route.ts:40-48 | the named pocket gains +amount for income and loses amount for expense; every other pocket is unchanged |
| DataRoute.Get | src/app/api/data/route.ts:6-32 | no userId gives 400; a store failure gives 500 with no data; otherwise each table's rows of that user, each as often as stored, with transactions newest first |
| DataRoute.SnapshotIsExactlyTheUsersRows | src/app/api/data/route.ts:15-22 | a row is in the snapshot exactly when it is stored and owned by the user, with no limit |
| UsersRoute.List | src/app/api/users/route.ts:4-9 | one public entry per stored user, in the same order, with every non-password field unchanged |
| UsersRoute.ListKeepsUniqueness | src/app/api/users/route.ts:7 | unique ids and usernames in the table stay unique in the listing |
| UsersRoute.ListAppend | src/app/api/users/route.ts:7 | listing a table with one more user lists one more public entry at the end |
| RegisterRoute.RoleOrDefault | src/app/api/auth/register/route.ts:21 | an absent role becomes 'user'; a given one is kept |
| RegisterRoute.NewUser | src/app/api/auth/register/route.ts:16-24 | the created row holds the new id and the given username, password, name and avatar, with the role defaulted |
| RegisterRoute.AppendFreshUser | src/app/api/auth/register/route.ts:8-24 | adding a user with an unused id and username keeps both unique |
| RegisterRoute.Register | src/app/api/auth/register/route.ts:4-33 | a taken username gives 400 "Username already exists" and no change, and a 400 means exactly that; a missing field or an id clash gives 500 and no change; otherwise exactly one user is appended and the answer is that user without the password; usernames stay unique and the other tables are untouched |
| RegisterRoute.RegisterAddsOneUser | src/app/api/auth/register/route.ts:16-24 | after registering, the table has one more user, earlier users are unchanged, and exactly one user has the new username |
| LoginRoute.LoginAsWritten | src/app/api/auth/login/route.ts:8-17 | the handler as written: 401 "Invalid credentials" exactly when no user passes the filter in which an absent field matches everyone; otherwise the first user that passes it, without the password |
| LoginRoute.EmptyBodyLogsInAsFirstUser | src/app/api/auth/login/route.ts:8-13 | as written, a body with neither field logs in as the first stored user |
| LoginRoute.Login | src/app/api/auth/login/route.ts:4-25 | success exactly when some user matches both the given username and password, and the answer is such a user minus the password; otherwise 401 |
| LoginRoute.LoginAgreesWhenBothGiven | src/app/api/auth/login/route.ts:8-13 | with both fields present the handler as written and the intended one answer the same |
| LoginRoute.LoginAnswersTheListedUser | src/app/api/auth/login/route.ts:19-20 | with unique usernames, a successful login answers exactly the entry the user listing shows for that user |
| DataContext.ApplyPatch | src/context/DataContext.tsx:139-144 | a plan update (the plan item route, which stores the body it is sent) writes the sent fields and keeps id and owner; an absent type or pocket, dropped from the JSON body, keeps the stored one; a paid-flag update changes only `isPaid`, so after a payment's update the plan is paid |
| DataContext.PlanById | src/context/DataContext.tsx:149 | `find` returns the first plan with the id, or none when no plan has it |
| DataContext.PocketToUse | src/context/DataContext.tsx:154-162 | a plan naming a pocket uses that pocket, or none if it does not exist; otherwise the first pocket, or none when there are none |
| DataContext.Payment | src/context/DataContext.tsx:165-172 | the payment carries the plan's amount and category, the plan's type or 'expense', "Plan Payment: " + title, the current time and the chosen pocket's id |
| DataContext.PaymentFor | src/context/DataContext.tsx:148-176 | a payment is made only for an existing unpaid plan, from an existing pocket, with the plan's amount, category and prefixed title |
| DataContext.PaidPlanIsNotPaidAgain | src/context/DataContext.tsx:149-150 | an already paid plan produces no payment |
| DataContext.PlanPaysFromItsOwnPocket | src/context/DataContext.tsx:154-162 | a plan naming a pocket is paid from that pocket exactly when it exists, with no fallback to the first pocket |
| DataContext.PlanWithoutPocketUsesFirst | src/context/DataContext.tsx:154-162 | a plan naming no pocket is paid from the first pocket, and not at all when there are no pockets |
| DataContext.PocketBalance | src/context/DataContext.tsx:183-185 | the balance of the first pocket with the id, or 0 for an unknown id |
| DataContext.PocketBalanceOfUnique | src/context/DataContext.tsx:183-185 | with unique ids the shown balance is that pocket's balance |
| DataContext.PocketBalanceAfterCredit | src/context/DataContext.tsx:183-185 | after a create moves a pocket, its shown balance moves by exactly the delta and every other pocket's shown balance stays the same |
| DataContext.DataProvider.Balance | src/context/DataContext.tsx:188 | the total balance is the sum of the pocket balances, 0 with no pockets, so it moves as Store.CreditSum and Totals.SumBalancesUpdate say |
| DataContext.DataProvider.TotalIncome | src/context/DataContext.tsx:189-191 | the income total is the signed sum of the transactions plus the expense total |
| DataContext.DataProvider.TotalExpense | src/context/DataContext.tsx:192-194 | the expense total is the income total less the signed sum of the transactions |
| DataContext.DataProvider.constructor | src/context/DataContext.tsx:45-48 | the provider starts with empty lists, not loading, nothing sent |
| DataContext.DataProvider.FetchData | src/context/DataContext.tsx:50-74 | without a user the lists are emptied and nothing is requested; otherwise the user's data is requested, a good answer replaces the lists, a failed one keeps them, and loading ends |
| DataContext.DataProvider.AddTransaction | src/context/DataContext.tsx:81-89 | sends the transaction with the signed-in user's id, and nothing without a user |
| DataContext.DataProvider.UpdatePlan | src/context/DataContext.tsx:139-146 | sends the plan update as given |
| DataContext.DataProvider.MarkPlanAsPaid | src/context/DataContext.tsx:148-176 | when the payment decision yields nothing, nothing is sent; otherwise the payment transaction (when signed in) and then the paid-flag update are sent, in that order |
| TransactionContext.DeleteById | src/context/TransactionContext.tsx:58 | no row with the id remains, every other row remains with its full multiplicity, and the order is kept |
| TransactionContext.DeleteAbsent | src/context/TransactionContext.tsx:58 | deleting an id no row has leaves the list unchanged |
| TransactionContext.DeleteIdempotent | src/context/TransactionContext.tsx:58 | deleting the same id twice is the same as deleting it once |
| TransactionContext.DeleteAfterAdd | src/context/TransactionContext.tsx:49-59 | deleting a freshly added row gives back the earlier list |
| TransactionContext.TransactionProvider.TotalIncome | src/context/TransactionContext.tsx:61-63 | the income total is the signed sum plus the expense total |
| TransactionContext.TransactionProvider.TotalExpense | src/context/TransactionContext.tsx:65-67 | the expense total is the income total less the signed sum |
| TransactionContext.TransactionProvider.Balance | src/context/TransactionContext.tsx:61-69 | the balance is the sum of the signed amounts |
| TransactionContext.TransactionProvider.AddTransaction | src/context/TransactionContext.tsx:49-55 | the new row is placed first under its fresh id and the earlier rows follow in order; ids stay unique; its amount is added to its own type's total only |
| TransactionContext.TransactionProvider.DeleteTransaction | src/context/TransactionContext.tsx:57-59 | the list becomes the order-preserving delete of the id, and ids stay unique |
| CurrencyInput.DecimalValueNonNegative | src/components/ui/currency-input.tsx:22-25 | a string of digits reads as a non-negative number |
| CurrencyInput.ParseInt | src/components/ui/currency-input.tsx:15 | `parseInt` reads a digit string as its decimal value and fails on a string without digits |
| CurrencyInput.ShowsEmpty | src/components/ui/currency-input.tsx:12-13 | a number field shows nothing, and so fails the browser's `required` check, exactly when the number is 0 |
| CurrencyInput.FormatValue | src/components/ui/currency-input.tsx:12-18 | falsy values (0 or '') and unreadable strings display as ''; other values display grouped by '.' every three digits |
| CurrencyInput.HandleChange | src/components/ui/currency-input.tsx:20-26 | the reported value is never negative; no digits gives 0; otherwise the digits, in order, read as decimal |
| CurrencyInput.SeparatorIgnored | src/components/ui/currency-input.tsx:22 | a non-digit character anywhere in the input does not change the reported value |
| CurrencyInput.GroupedDigits | src/components/ui/currency-input.tsx:17 | the digits of the grouped display of n read back as n |
| CurrencyInput.FormatThenParse | src/components/ui/currency-input.tsx:12-26 | for every non-negative n, typing the displayed value of n reports n |
| CurrencyInput.FormatTenThousand | src/components/ui/currency-input.test.tsx:5-11 | 10000 displays as "10.000" |
| CurrencyInput.ReadTyped | src/components/ui/currency-input.test.tsx:21-24 | typing "12345" reports 12345 |
| CurrencyInput.ReadNoDigits | src/components/ui/currency-input.test.tsx:34-37 | typing "abc" reports 0 |
| CurrencyInput.ReadGrouped | src/components/ui/currency-input.tsx:22 | typing "10.000" reports 10000 |
| TransactionsPage.KeepAsWritten | src/app/transactions/page.tsx:33-37 | the code's row test: a kept row matches every active type, category and pocket choice and its whole date string lies lexicographically between the bounds; with no bounds a matching row is kept |
| TransactionsPage.Keep | src/app/transactions/page.tsx:33-37 | the intended row test compares the end bound with the day part of the date; it keeps every row the code's test keeps |
| TransactionsPage.Filtered | src/app/transactions/page.tsx:31-40 | the list as the code shows it: an order-preserving sub-list of the rows; each row kept matches every active choice and has start <= date <= end as strings; every row passing the code's test is kept |
| TransactionsPage.FilteredIntended | src/app/transactions/page.tsx:31-40 | the list meant to be shown: an order-preserving sub-list holding exactly the rows that pass the intended test, and a superset of what the code shows |
| TransactionsPage.EndDayRowsNotShown | src/app/transactions/page.tsx:37 | a row stamped on the end day is never in the shown list; the intended list keeps it when it passes the other filters and the start bound |
| TransactionsPage.NoFiltersKeepAll | src/app/transactions/page.tsx:33-38 | with every filter 'all' or empty nothing is removed, from the shown list or the intended one |
| TransactionsPage.EndDayExcludedAsWritten | src/app/transactions/page.tsx:37 | as written, every row stamped on the end day at any time is dropped |
| TransactionsPage.EndDayCounterexample | src/app/transactions/page.tsx:37 | a row at midnight of 2024-05-31 with end bound 2024-05-31 is dropped as written and kept as intended |
| TransactionsPage.DateBoundsAreInclusive | src/app/transactions/page.tsx:36-37 | with the intended test a row is kept by the date bounds exactly when start <= its day <= end |
| TransactionsPage.OpenEdit | src/app/transactions/page.tsx:191-196 | the edit form starts from the row's fields, with the date cut to the part before the first 'T' |
| TransactionsPage.EditFormFilled | src/app/transactions/page.tsx:233 | the edit form's one required field, the amount, is filled exactly when it is not 0 |
| TransactionsPage.SavedFields | src/app/transactions/page.tsx:199-211 | the form saves its fields with the day converted to an ISO time, and saves nothing when the day cannot be converted |
| TransactionsPage.EditKeepsDayResetsTime | src/app/transactions/page.tsx:195-207 | saving an unchanged form keeps every field and the day and moves the time to midnight UTC; a midnight row is saved as it was |
| TransactionsPage.Page.constructor | src/app/transactions/page.tsx:17-28 | filters start at 'all' and empty, with no edit and no delete pending |
| TransactionsPage.Page.ResetFilters | src/app/transactions/page.tsx:144-149 | type, category and pocket go back to 'all' and both dates to empty, and nothing else changes |
| TransactionsPage.Page.HandleDelete | src/app/transactions/page.tsx:42-45 | records the row to delete and opens the confirmation, deleting nothing |
| TransactionsPage.Page.ConfirmDelete | src/app/transactions/page.tsx:47-53 | with a pending non-empty id, deletes it, then clears it and closes the dialog; otherwise nothing happens |
| TransactionsPage.Page.CancelDelete | src/app/transactions/page.tsx:184 | closes the dialog and deletes nothing |
| TransactionsPage.Page.HandleEdit | src/app/transactions/page.tsx:55-57 | opens the edit form on the row |
| TransactionsPage.Page.CloseEdit | src/app/transactions/page.tsx:59-61 | closes the edit form |
| TransactionsPage.Page.SaveEdit | src/app/transactions/page.tsx:169-172 | sends the saved fields for the edited row and closes the form; a form whose required amount is empty (0), which the browser does not submit, or whose day cannot be converted sends nothing and stays open |
| GroupedList.Members | src/components/GroupedTransactionList.tsx:57-61 | a group holds rows of the input with its day only, in input order |
| GroupedList.FirstSeenKeys | src/components/GroupedTransactionList.tsx:55-65 | the group keys are distinct, and a day is a key exactly when some row has it |
| GroupedList.MembersSnoc | src/components/GroupedTransactionList.tsx:61 | one more row joins the group of its own day and no other |
| GroupedList.FirstSeenSnoc | src/components/GroupedTransactionList.tsx:58-60 | a row with a new day adds that day after the earlier keys, and a known day adds nothing |
| GroupedList.PushMembers | src/components/GroupedTransactionList.tsx:58-61 | after pushing a row, each list in the accumulator still holds exactly its day's rows seen so far |
| GroupedList.GroupStep | src/components/GroupedTransactionList.tsx:57-62 | one step of the reduce keeps the keys in first-seen order and each list equal to its day's rows seen so far |
| GroupedList.GroupByDay | src/components/GroupedTransactionList.tsx:55-65 | the reduce yields one list per day present, holding exactly that day's rows in input order |
| GroupedList.GroupingKeepsCount | src/components/GroupedTransactionList.tsx:55-65 | the groups together hold as many rows as the input |
| GroupedList.RowInItsOwnGroupOnly | src/components/GroupedTransactionList.tsx:57-61 | a row is in the group of its own day and in no other |
| GroupedList.SortedDays | src/components/GroupedTransactionList.tsx:68-70 | the sorted keys are the same distinct days, strictly newest first |
| GroupedList.GroupsFor | src/components/GroupedTransactionList.tsx:74-84 | one rendered group per sorted day, showing that day's list |
| GroupedList.GroupsCoverRows | src/components/GroupedTransactionList.tsx:74-84 | every row's day has a rendered group, and each group shows exactly its day's rows |
| GroupedList.Render | src/components/GroupedTransactionList.tsx:46-84 | no rows renders the empty state; otherwise one group per day, days strictly newest first, each with its day's rows in input order, covering every row |
| HomePage.Greeting | src/app/page.tsx:42-47 | "Good Morning" exactly before 12, "Good Afternoon" exactly from 12 to before 18, "Good Evening" exactly from 18 |
| HomePage.Recent | src/app/page.tsx:40 | the first min(5, n) transactions, in order |
| HomePage.NewPocket | src/app/page.tsx:51-58 | an empty name adds nothing; otherwise a wallet with the name, the colour and the entered balance, or 0 for an empty balance |
| HomePage.PocketEditFilled | src/app/page.tsx:276-293 | the edit form's required name and balance are filled exactly when the name is not empty and the balance is not 0 |
| HomePage.ApplyPocketEdit | src/app/page.tsx:243-247 | the pocket update (the pocket item route, which stores the body it is sent) writes the sent name, balance and colour and keeps id, owner and type |
| HomePage.EditSetsBalance | src/app/page.tsx:243-247 | an edit overwrites the balance, so the balance total moves by the new balance minus the old one |
| HomePage.Page.constructor | src/app/page.tsx:32-37 | the add form starts closed and empty, with no pocket being edited |
| HomePage.Page.HandleAddPocket | src/app/page.tsx:49-62 | an empty name does nothing; otherwise the pocket is added, then the form is closed and cleared |
| HomePage.Page.OpenEditPocket | src/app/page.tsx:163 | opens the edit form on the pocket |
| HomePage.Page.SaveEditPocket | src/app/page.tsx:240-249 | sends exactly the name, balance and colour for the edited pocket, then closes the form; with an empty name or a balance of 0, whose field shows empty, the browser does not submit the required fields, so nothing is sent and the form stays open |
| HomePage.Page.DeleteEditedPocket | src/app/page.tsx:211-214 | deletes the edited pocket, then closes the form |
| HomePage.Page.CloseEditModal | src/app/page.tsx:64-66 | closes the edit form and sends nothing |
| AddPage.InitialPocket | src/app/add/page.tsx:23 | the first pocket's id, or '' with no pockets |
| AddPage.PageIndex | src/app/add/page.tsx:12 | every category has a position in the page's category list |
| AddPage.PageCategoriesReorderShared | src/app/add/page.tsx:12 | the page lists every category once, but Education and Housing swap places against the shared list |
| AddPage.Record | src/app/add/page.tsx:28-38 | a zero or empty amount submits nothing; otherwise the record carries the form's fields, the converted day and the given pocket |
| AddPage.IntendedPocket | src/app/add/page.tsx:29 | the selection, or the first pocket when nothing is selected |
| AddPage.IntendedRecord | src/app/add/page.tsx:29-38 | the record built with the intended pocket |
| AddPage.IntendedRecordNamesAPocket | src/app/add/page.tsx:29-38 | with pockets available, a submitted intended record always names the selected or the first pocket |
| AddPage.EmptySelectionSendsNoPocket | src/app/add/page.tsx:29-38 | as written, with nothing selected the record names no pocket even though pockets exist |
| AddPage.Page.constructor | src/app/add/page.tsx:18-23 | no amount, type 'expense', category 'Food', today's date, the first pocket selected |
| AddPage.Page.HandleSubmit | src/app/add/page.tsx:25-41 | a zero amount does nothing; an empty selection is set to the first pocket, but the record sent carries the selection held when the call began; then the page goes home |
| PlansPage.OpenEdit | src/app/plans/page.tsx:68-73 | the edit form keeps every field of the plan but the due date, which becomes its first ten characters (all of it when shorter) |
| PlansPage.PocketChoice | src/app/plans/page.tsx:59 | an empty pocket choice is sent as absent, any other as given |
| PlansPage.NewPlan | src/app/plans/page.tsx:50-60 | an empty title, amount or date submits nothing; otherwise an unpaid plan with the form's fields, its due day the entered day |
| PlansPage.EditFormFilled | src/app/plans/page.tsx:345-368 | the edit form's required title, amount and due day are filled exactly when the title and day are not empty and the amount is not 0 |
| PlansPage.EditPatch | src/app/plans/page.tsx:78-86 | the edit sends the form's fields, with an empty pocket as absent and the entered day as midnight UTC of that day, or nothing when the day cannot be converted |
| PlansPage.UnchangedEditKeepsPlan | src/app/plans/page.tsx:68-88 | saving the edit form unchanged keeps the plan, except that the due time moves to midnight UTC of the same day |
| PlansPage.SortedPlans | src/app/plans/page.tsx:122 | the listed plans are ascending by due date and are the same plans; the held list is not reordered |
| PlansPage.Page.constructor | src/app/plans/page.tsx:18-35 | empty form with category 'Bills' and type 'expense', no dialogs open |
| PlansPage.Page.HandleSubmit | src/app/plans/page.tsx:48-66 | a refused form changes nothing; otherwise the plan is added and the form closed and cleared, keeping category and type |
| PlansPage.Page.HandleOpenEdit | src/app/plans/page.tsx:68-73 | opens the edit form on the plan with its due date cut to the day; sends nothing, and the new-plan form and both dialogs are unchanged |
| PlansPage.Page.HandleEditSubmit | src/app/plans/page.tsx:75-88 | sends the edit for the plan being edited and closes the form; with no form, an empty required title, amount (0) or day, which the browser does not submit, or a day that cannot be converted, nothing is sent and the form stays open; the new-plan form and both dialogs are unchanged |
| PlansPage.Page.TogglePaid | src/app/plans/page.tsx:90-98 | a paid plan sends only the unpaid flag; an unpaid plan changes no data and only opens the payment confirmation for it; the new-plan form, the edit form and the delete dialog are unchanged |
| PlansPage.Page.ConfirmPayPlan | src/app/plans/page.tsx:100-105 | with no pending plan nothing happens; otherwise it is paid, then cleared and the dialog closed, and an open dialog always pays its plan; the new-plan form, the edit form and the delete dialog are unchanged |
| PlansPage.Page.CancelPay | src/app/plans/page.tsx:423 | closes the payment dialog without paying; the pending plan stays recorded; nothing is sent, and the forms and the delete dialog are unchanged |
| PlansPage.Page.PromptDeletePlan | src/app/plans/page.tsx:107-110 | records the plan to delete and opens the confirmation; nothing is sent, and the forms and the payment dialog are unchanged |
| PlansPage.Page.ConfirmDeletePlan | src/app/plans/page.tsx:111-116 | with a pending plan, deletes it, then clears it and closes the dialog, and an open dialog always deletes its plan; otherwise nothing is sent and no plan is pending; the forms and the payment dialog are unchanged |
| PlansPage.Page.CancelDeletePlan | src/app/plans/page.tsx:117-120 | clears the pending plan and closes the dialog without deleting; the forms and the payment dialog are unchanged |
| AppShell.RedirectFor | src/components/AppShell.tsx:13-23 | no redirect while loading; to /login exactly when signed out off the login page; to / exactly when signed in on it |
| AppShell.ScreenFor | src/components/AppShell.tsx:25-41 | a spinner exactly while loading; nothing exactly when signed out off the login page; else the page, with the bottom navigation exactly when signed in off the login page |
| AppShell.GuardedPages | src/components/AppShell.tsx:17-40 | a signed-out visitor sees a page only on /login; a blank screen always comes with the redirect to /login; the bottom navigation shows exactly for a signed-in user off /login after loading |
| AppShell.LoginPathIsExact | src/components/AppShell.tsx:13 | only the exact path "/login" is the login page: "/login/" redirects a signed-out visitor |

## Left out

- The update and delete handlers of `/api/transactions/[id]` are not part of this model. No balance revert or reapply is modelled for them, and the client calls to them appear only as recorded requests.
- The pocket and plan collection routes (`/api/pockets`, `/api/plans`) are left out. They add nothing beyond the owner filter modelled in the data route.
- The single-item pocket and plan handlers are modelled only by their effect on one row (DataContext.ApplyPatch, HomePage.ApplyPocketEdit). Their 404 answer for an unknown id and the delete handlers are left out, because the client ignores those answers and refetches.
- Network and persistence plumbing is not modelled: `fetch`, the reload after every mutation, the `localStorage` session and cache, and the file-backed store of the seeding script. Requests are recorded in `sent` or `calls`. Answers are parameters.
- The database is an in-memory value. Concurrency, isolation and Prisma's own field validation are left out. A missing required field in a registration is assumed to make the create fail, answered 500.
- TransactionsRoute.Get does not model a failing store. That handler has no error handler, so the framework's default error answer is outside the model. A negative or non-numeric `limit` is outside the model too: the limit is a `nat` or absent.
- A request body that is not JSON is not modelled. Those handlers answer 500 from their catch blocks.
- Generated ids are parameters. `crypto.randomUUID` is assumed to give an unused id (TransactionContext.TransactionProvider.AddTransaction requires it), while a store id clash is an error path.
- The random pocket colour and the clock are parameters, and so is the local hour of the greeting.
- IsoDates.DateInputToIso: accepts any YYYY-MM-DD shape, such as "2024-13-45", where `new Date(...).toISOString()` would throw, because a browser date input only ever holds calendar-valid days; month and day ranges are not modelled.
- `Intl.NumberFormat('id-ID')` is modelled only for integers: '.' every three digits and a leading '-'. Fractions, negative zero and Unicode whitespace before `parseInt` are not modelled.
- JavaScript number precision and overflow are not modelled. Amounts are unbounded integers, and `Number(x)` of a held number is the number.
- Date ordering is the lexicographic order of the ISO strings, as JavaScript string `<` does. It agrees with `getTime()` ordering (plans, day keys) only for strings of one common ISO format. The model assumes that format.
- Sorting.SortBy proves ordering and permutation. It does not prove that rows with equal dates keep their input order, which the code's sort does.
- PlansPage.SortedPlans: plans with equal due dates are not proved to keep their list order, which the stable JavaScript sort of src/app/plans/page.tsx does; only ascending order and permutation are proved, through Sorting.SortBy.
- The edit-plan form cannot clear a pocket. An absent pocket in the update is ignored by the store, and the model does the same (DataContext.ApplyPatch).
- Browser form validation is modelled only as the `required` check: an empty text field fails it, and so does a CurrencyInput that shows nothing, which is the case for 0. The add-pocket, new-plan and add-transaction handlers have guards of their own that refuse the same inputs. Only the three edit forms take the check as a separate condition (HomePage.PocketEditFilled, PlansPage.EditFormFilled, TransactionsPage.EditFormFilled).
- Roles outside 'admin' and 'user' are not modelled, because the role is an enumeration. An empty role string counts as absent.
- Components that only render markup are left out: the bottom navigation, summary cards, dialogs, the layout, the login and admin pages, and the monthly chart, which depends on the clock and locale month names.
- The currency, date and day formatters and the class-name merger in `src/lib/utils.ts` are left out, because they depend on Intl and a styling library.

## Findings

| source | as written | input that shows it | evidently intended | confidence | as-written member | corrected member |
|---|---|---|---|---|---|---|
| src/app/api/auth/login/route.ts:8-13 | an absent username or password is an undefined filter value, which the store drops, so that field matches every user | the body `{}` with at least one stored user: it logs in as the first user | log in only when both fields are given and both match one user | medium, not executed | LoginRoute.LoginAsWritten, LoginRoute.EmptyBodyLogsInAsFirstUser | LoginRoute.Login |
| src/app/transactions/page.tsx:37 | the end bound compares the whole stored date, which carries a 'T' time suffix, with the picked day | a row dated "2024-05-31T00:00:00.000Z" with end day "2024-05-31": it is dropped | rows on the end day are kept, because the bound is inclusive as the start bound is | high, not executed | TransactionsPage.Filtered, TransactionsPage.EndDayRowsNotShown, TransactionsPage.EndDayCounterexample | TransactionsPage.FilteredIntended, TransactionsPage.DateBoundsAreInclusive |
| src/app/add/page.tsx:29-38 | when nothing is selected, the handler sets the selection to the first pocket, but the record built in the same call still reads the old empty selection | pockets exist but none was selected when the page opened: the record has pocketId "" and no balance moves | the record carries the first pocket's id | medium, not executed | AddPage.Record, AddPage.EmptySelectionSendsNoPocket | AddPage.IntendedRecord, AddPage.IntendedRecordNamesAPocket |

/** The four record kinds of the ledger (users, pockets, transactions, plans)
    and the closed enumerations they draw on. Amounts and balances are
    integers in the smallest currency unit; dates are ISO-8601 strings. */
module Types {

  datatype Option<T> = None | Some(value: T)

  /** A transaction is either income or expense; the type carries the sign. */
  datatype TransactionType = Income | Expense

  /** The wire name of a transaction type, as used in query strings. */
  function TypeName(t: TransactionType): (s: string)
    ensures s == "income" <==> t == Income
    ensures s == "expense" <==> t == Expense
  {
    match t
    case Income => "income"
    case Expense => "expense"
  }

  /** The closed set of transaction categories. */
  datatype Category =
    | Food | Transport | Shopping | Entertainment | Bills | Health
    | Salary | Investment | Housing | Education | Other

  /** The exported category list, in the order the application shows it. */
  const CATEGORIES: seq<Category> :=
    [Food, Transport, Shopping, Entertainment, Bills, Health,
     Salary, Investment, Housing, Education, Other]

  /** The position of each category in CATEGORIES. */
  function CategoryIndex(c: Category): (i: nat)
    ensures i < |CATEGORIES| && CATEGORIES[i] == c
  {
    match c
    case Food => 0
    case Transport => 1
    case Shopping => 2
    case Entertainment => 3
    case Bills => 4
    case Health => 5
    case Salary => 6
    case Investment => 7
    case Housing => 8
    case Education => 9
    case Other => 10
  }

  /** CATEGORIES has eleven entries, names every category, and names each once. */
  lemma CategoriesListEachOnce()
    ensures |CATEGORIES| == 11
    ensures forall c: Category :: c in CATEGORIES
    ensures forall i, j :: 0 <= i < j < |CATEGORIES| ==> CATEGORIES[i] != CATEGORIES[j]
  {
    forall c: Category ensures c in CATEGORIES {
      var i := CategoryIndex(c);
    }
  }

  datatype UserRole = Admin | RegularUser

  /** The stored name of a role. */
  function RoleName(r: UserRole): (s: string)
    ensures s == "admin" <==> r == Admin
    ensures s == "user" <==> r == RegularUser
  {
    match r
    case Admin => "admin"
    case RegularUser => "user"
  }

  datatype PocketType = Bank | Wallet | EWallet

  /** The stored name of a pocket type. */
  function PocketTypeName(t: PocketType): (s: string)
    ensures s == "bank" <==> t == Bank
    ensures s == "wallet" <==> t == Wallet
    ensures s == "ewallet" <==> t == EWallet
  {
    match t
    case Bank => "bank"
    case Wallet => "wallet"
    case EWallet => "ewallet"
  }

  /** A stored user. The password is kept in plain text by the system. */
  datatype User = User(
    id: string,
    username: string,
    password: string,
    name: string,
    role: UserRole,
    avatar: Option<string>)

  /** A user as every response shows it: all fields but the password. */
  datatype PublicUser = PublicUser(
    id: string,
    username: string,
    name: string,
    role: UserRole,
    avatar: Option<string>)

  /** Removes the password from a user record. */
  function WithoutPassword(u: User): (p: PublicUser)
    ensures p.id == u.id && p.username == u.username && p.name == u.name
    ensures p.role == u.role && p.avatar == u.avatar
  {
    PublicUser(u.id, u.username, u.name, u.role, u.avatar)
  }

  /** A money container with a cached signed balance. */
  datatype Pocket = Pocket(
    id: string,
    userId: string,
    name: string,
    balance: int,
    pocketType: PocketType,
    color: string)

  /** The user-chosen fields of a transaction: everything but id and owner.
      The pocket reference is always present (it may be the empty string). */
  datatype TxFields = TxFields(
    amount: int,
    txType: TransactionType,
    category: Category,
    description: string,
    date: string,
    pocketId: string)

  /** A transaction payload without an id, as sent to the create endpoint. */
  datatype TxDraft = TxDraft(userId: string, fields: TxFields)

  datatype Transaction = Transaction(
    id: string,
    userId: string,
    amount: int,
    txType: TransactionType,
    category: Category,
    description: string,
    date: string,
    pocketId: string)

  /** The row stored for a draft once it is given an id. */
  function Stored(d: TxDraft, id: string): (t: Transaction)
    ensures t.id == id && t.userId == d.userId && t.pocketId == d.fields.pocketId
    ensures t.amount == d.fields.amount && t.txType == d.fields.txType
    ensures t.category == d.fields.category && t.description == d.fields.description
    ensures t.date == d.fields.date
  {
    Transaction(id, d.userId, d.fields.amount, d.fields.txType, d.fields.category,
                d.fields.description, d.fields.date, d.fields.pocketId)
  }

  /** A scheduled income or expense. The pocket reference is optional. The
      type is declared mandatory, but the payment code guards against its
      absence, so the model keeps it optional. */
  datatype Plan = Plan(
    id: string,
    userId: string,
    title: string,
    amount: int,
    dueDate: string,
    category: Category,
    planType: Option<TransactionType>,
    isPaid: bool,
    pocketId: Option<string>)

  /** The effect of a transaction on a pocket balance: +amount for income,
      -amount for expense. */
  function Signed(t: TransactionType, amount: int): (d: int)
    ensures t == Income ==> d == amount
    ensures t == Expense ==> d == -amount
    ensures d == amount || d == -amount
  {
    if t == Income then amount else -amount
  }
}

/** Result shape shared by the HTTP handlers. */
module Http {

  /** A JSON response: a body with status 200, or an error status and message. */
  datatype Response<T> = Ok(body: T) | Err(status: int, error: string)

  const BAD_REQUEST := 400
  const UNAUTHORIZED := 401
  const INTERNAL_ERROR := 500
}

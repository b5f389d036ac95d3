/**
 * The records the importer passes around: the reference data fetched from the
 * finance service (accounts, categories, currencies), the raw transaction a
 * file loader produces, and the canonical transaction of the pipeline.
 * Dates are milliseconds since the epoch; amounts are integers in the
 * smallest currency unit.
 */
module Domain {
  import opened Wrappers

  /** uuid v4 strings are replaced by numbers drawn from an `IdSupply`. */
  type TransferId = nat

  datatype Account = Account(id: string, name: string, accType: string)
  datatype Category = Category(id: Option<string>, name: string)
  datatype Currency = Currency(id: string, code: string)

  datatype TxType = Deposit | Withdrawal | Transfer | Other

  /** The `account` of an import file's configuration (`name` and `type`). */
  datatype AccountConfig = AccountConfig(name: string, accType: Option<string>)

  /** The statement's account aggregate (BANKID, BRANCHID, ACCTID, ACCTTYPE). */
  datatype BankAccount = BankAccount(
    bankId: Option<string>, branchId: Option<string>,
    accountId: Option<string>, accountType: Option<string>)

  datatype RawId = RawId(
    fitId: Option<string>, checkNum: Option<string>, refNum: Option<string>,
    account: BankAccount)

  /**
   * A raw transaction as a file loader emits it (`OfxTransaction`).
   * `category` is set only by the wallet-export loader; `filename` is read
   * by the normaliser but set by no loader.
   */
  datatype RawTransaction = RawTransaction(
    account: AccountConfig,
    id: RawId,
    trnType: Option<string>,
    date: int,
    amount: int,
    currency: Option<string>,
    memo: string,
    category: Option<string>,
    filename: Option<string>)

  /** The canonical transaction; ledger records returned by the service share the shape. */
  datatype Transaction = Transaction(
    currency: Option<Currency>,
    sourceAccount: Option<Account>,
    destinationAccount: Option<Account>,
    amount: int,
    paymentType: Option<string>,
    description: string,
    date: int,
    state: string,
    reconciled: bool,
    ttype: TxType,
    tags: seq<Option<string>>,
    category: Option<Category>,
    transferId: Option<TransferId>)

  /** The fuzzy search over the ledger: most similar records first. */
  type Search = string -> seq<Transaction>

  const DayMs: int := 86_400_000

  /** `moment.diff(other, 'days')`: whole days between two instants, truncated toward zero. */
  function DaysDiff(a: int, b: int): (d: int)
    ensures a <= b ==> d <= 0
    ensures a >= b ==> d >= 0
    ensures d > 5 ==> a - b >= 6 * DayMs
    ensures a >= b ==> d * DayMs <= a - b < (d + 1) * DayMs
    ensures a < b ==> -d * DayMs <= b - a < (-d + 1) * DayMs
  {
    if a >= b then (a - b) / DayMs else -((b - a) / DayMs)
  }

  /** `moment(d).endOf('day')`, with days counted in UTC. */
  function EndOfDay(d: int): (e: int)
    ensures d <= e < d + DayMs
    ensures (e + 1) % DayMs == 0
  {
    d - d % DayMs + DayMs - 1
  }

  /** A supply of fresh transfer ids: the uuid generator of the source. */
  class IdSupply {
    var next: TransferId

    constructor (start: TransferId)
      ensures next == start
    {
      next := start;
    }

    method Fresh() returns (id: TransferId)
      modifies this
      ensures id == old(next) && next == old(next) + 1
    {
      id := next;
      next := next + 1;
    }
  }
}

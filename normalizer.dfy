/**
 * The normaliser of the importer: it maps each raw transaction to a
 * canonical transaction, resolving the account by exact name and the
 * currency by exact code; a failed lookup leaves the field absent.
 */
module Normalizer {
  import opened Wrappers
  import opened Domain
  import opened Lists

  function Abs(x: int): (r: int)
    ensures r >= 0 && (r == x || r == -x)
  {
    if x < 0 then -x else x
  }

  /** `getTransactionType`: the sign of the raw amount decides the type. */
  function TransactionTypeOf(amount: int): (t: TxType)
    ensures t == Deposit <==> amount > 0
    ensures t == Withdrawal <==> amount < 0
    ensures t == Other <==> amount == 0
    ensures t != Transfer
  {
    if amount > 0 then Deposit else if amount < 0 then Withdrawal else Other
  }

  /** `getPaymentType`: derived from the configured account type and the sign of the amount. */
  function PaymentType(accType: Option<string>, amount: int): (p: string)
    ensures accType == Some("credit_card") ==> p == (if amount > 0 then "transfer" else "credit_card")
    ensures accType == Some("checking") ==> p == (if amount > 0 then "transfer" else "debit_card")
    ensures accType == Some("investment") ==> p == "web_payment"
    ensures accType !in {Some("credit_card"), Some("checking"), Some("investment")} ==> p == "cash"
    ensures p == "transfer" ==> amount > 0
  {
    match accType
    case Some("credit_card") => if amount > 0 then "transfer" else "credit_card"
    case Some("checking") => if amount > 0 then "transfer" else "debit_card"
    case Some("investment") => "web_payment"
    case _ => "cash"
  }

  /** `accounts.find(acc => acc.name === name)`. */
  function FindAccount(accounts: seq<Account>, name: string): (r: Option<Account>)
    ensures r.None? <==> forall i :: 0 <= i < |accounts| ==> accounts[i].name != name
    ensures r.Some? ==> exists i :: 0 <= i < |accounts| && accounts[i] == r.value && r.value.name == name
                          && forall j :: 0 <= j < i ==> accounts[j].name != name
  {
    Find(accounts, (a: Account) => a.name == name)
  }

  /** `currencies.find(curr => curr.code === code)`; an undefined code matches nothing. */
  function FindCurrency(currencies: seq<Currency>, code: Option<string>): (r: Option<Currency>)
    ensures code.None? ==> r.None?
    ensures r.None? <==> code.None? || forall i :: 0 <= i < |currencies| ==> currencies[i].code != code.value
    ensures r.Some? ==> exists i :: 0 <= i < |currencies| && currencies[i] == r.value && r.value.code == code.value
                          && forall j :: 0 <= j < i ==> currencies[j].code != code.value
  {
    match code
    case None => None
    case Some(c) => Find(currencies, (cur: Currency) => cur.code == c)
  }

  /** The truthiness test `if (ofxTr.category)`: a present, non-empty hint. */
  predicate HasHint(raw: RawTransaction) {
    raw.category.Some? && raw.category.value != ""
  }

  /** The mapping applied by `convertToTransactions` to one raw transaction. */
  function Convert(raw: RawTransaction, accounts: seq<Account>, currencies: seq<Currency>): (t: Transaction)
    ensures t.amount == Abs(raw.amount) && t.ttype == TransactionTypeOf(raw.amount)
    ensures raw.amount > 0 ==> t.sourceAccount.None? && t.destinationAccount == FindAccount(accounts, raw.account.name)
    ensures raw.amount <= 0 ==> t.destinationAccount.None? && t.sourceAccount == FindAccount(accounts, raw.account.name)
    ensures t.currency == FindCurrency(currencies, raw.currency)
    ensures t.paymentType == Some(PaymentType(raw.account.accType, raw.amount))
    ensures t.category == if HasHint(raw) then Some(Category(None, raw.category.value)) else None
    ensures t.transferId.None? && t.description == raw.memo && t.date == raw.date
    ensures t.state == "cleared" && !t.reconciled
    ensures t.tags == [Some("Imported"), Some("Unverified"), raw.filename]
    // the invariants of a freshly normalised transaction
    ensures t.amount >= 0 && (t.ttype == Other <==> t.amount == 0)
    ensures t.ttype == Deposit ==> t.sourceAccount.None?
    ensures t.ttype != Deposit ==> t.destinationAccount.None?
  {
    var account := FindAccount(accounts, raw.account.name);
    Transaction(
      currency := FindCurrency(currencies, raw.currency),
      sourceAccount := if raw.amount > 0 then None else account,
      destinationAccount := if raw.amount > 0 then account else None,
      amount := Abs(raw.amount),
      paymentType := Some(PaymentType(raw.account.accType, raw.amount)),
      description := raw.memo,
      date := raw.date,
      state := "cleared",
      reconciled := false,
      ttype := TransactionTypeOf(raw.amount),
      tags := [Some("Imported"), Some("Unverified"), raw.filename],
      category := if HasHint(raw) then Some(Category(None, raw.category.value)) else None,
      transferId := None)
  }

  /** `convertToTransactions`: one transaction per raw transaction, in order. */
  function ConvertAll(raws: seq<RawTransaction>, accounts: seq<Account>, currencies: seq<Currency>)
    : (r: seq<Transaction>)
    ensures |r| == |raws|
    ensures forall i :: 0 <= i < |raws| ==> r[i] == Convert(raws[i], accounts, currencies)
    ensures forall i :: 0 <= i < |raws| ==> r[i].date == raws[i].date && r[i].amount >= 0 && r[i].transferId.None?
  {
    seq(|raws|, i requires 0 <= i < |raws| => Convert(raws[i], accounts, currencies))
  }

  /** An account name that matches nothing leaves both sides of the transaction absent, without error. */
  lemma UnresolvedAccount(raw: RawTransaction, accounts: seq<Account>, currencies: seq<Currency>)
    requires forall i :: 0 <= i < |accounts| ==> accounts[i].name != raw.account.name
    ensures Convert(raw, accounts, currencies).sourceAccount.None?
    ensures Convert(raw, accounts, currencies).destinationAccount.None?
  {
  }
}

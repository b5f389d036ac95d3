/**
 * The Firefly III side of the importer: the mapping between Firefly's
 * transaction type strings and the pipeline's types, and the outbound record
 * built for each transaction before it is posted.
 */
module Firefly {
  import opened Wrappers
  import opened Domain
  import opened Lists

  /** `toTransactionType`: the three known strings map to their types, anything else to OTHER. */
  function ToTransactionType(s: Option<string>): (t: TxType)
    ensures t == Withdrawal <==> s == Some("withdrawal")
    ensures t == Deposit <==> s == Some("deposit")
    ensures t == Transfer <==> s == Some("transfer")
    ensures t == Other <==> s !in {Some("withdrawal"), Some("deposit"), Some("transfer")}
  {
    match s
    case Some("withdrawal") => Withdrawal
    case Some("deposit") => Deposit
    case Some("transfer") => Transfer
    case _ => Other
  }

  /** `fromTransactionType`: the inverse mapping; OTHER has no string. */
  function FromTransactionType(t: TxType): (s: Option<string>)
    ensures s.None? <==> t == Other
    ensures s.Some? ==> s.value in {"withdrawal", "deposit", "transfer"}
  {
    match t
    case Withdrawal => Some("withdrawal")
    case Deposit => Some("deposit")
    case Transfer => Some("transfer")
    case Other => None
  }

  /** Reading back the string written for a type gives the type again, OTHER included. */
  lemma ToFromRoundTrip(t: TxType)
    ensures ToTransactionType(FromTransactionType(t)) == t
  {
  }

  /**
   * Writing the type read from a string gives the string again exactly for
   * the three known strings and for an absent type; "reconciliation" and
   * every other string are lost.
   */
  lemma FromToRoundTrip(s: Option<string>)
    ensures FromTransactionType(ToTransactionType(s)) == s <==>
      s in {None, Some("withdrawal"), Some("deposit"), Some("transfer")}
  {
  }

  /** The single split of an outbound Firefly transaction. Ids stay strings (their `parseInt` is not modelled). */
  datatype FireflySplit = FireflySplit(
    ttype: Option<string>,
    date: int,
    amount: int,
    description: string,
    currencyId: string,
    categoryName: string,
    reconciled: bool,
    tags: seq<Option<string>>,
    sourceId: Option<string>,
    destinationId: Option<string>)

  datatype FireflyTransaction = FireflyTransaction(
    errorIfDuplicateHash: bool,
    applyRules: bool,
    splits: seq<FireflySplit>)

  /** Reading `id` of an absent currency or `name` of an absent category throws. */
  datatype ConvertError = MissingCurrency | MissingCategory

  /** The record built for one transaction; the currency is read before the category. */
  function ConvertOne(t: Transaction): (r: Result<FireflyTransaction, ConvertError>)
    ensures r.Err? <==> t.currency.None? || t.category.None?
    ensures r.Err? ==> r.error == if t.currency.None? then MissingCurrency else MissingCategory
    ensures r.Ok? ==>
      && !r.value.errorIfDuplicateHash && !r.value.applyRules && |r.value.splits| == 1
      && var sp := r.value.splits[0];
      && ToTransactionType(sp.ttype) == t.ttype
      && sp.date == t.date && sp.amount == t.amount && sp.reconciled == t.reconciled && sp.tags == t.tags
      && sp.ttype == FromTransactionType(t.ttype)
      && sp.description == (if t.description == [] then "No description" else t.description)
      && sp.currencyId == t.currency.value.id && sp.categoryName == t.category.value.name
      && (sp.sourceId.Some? <==> t.sourceAccount.Some?)
      && (sp.destinationId.Some? <==> t.destinationAccount.Some?)
      && (t.sourceAccount.Some? ==> sp.sourceId == Some(t.sourceAccount.value.id))
      && (t.destinationAccount.Some? ==> sp.destinationId == Some(t.destinationAccount.value.id))
  {
    ToFromRoundTrip(t.ttype);
    if t.currency.None? then Err(MissingCurrency)
    else if t.category.None? then Err(MissingCategory)
    else
      var split := FireflySplit(
        ttype := FromTransactionType(t.ttype),
        date := t.date,
        amount := t.amount,
        description := if t.description == [] then "No description" else t.description,
        currencyId := t.currency.value.id,
        categoryName := t.category.value.name,
        reconciled := t.reconciled,
        tags := t.tags,
        sourceId := if t.sourceAccount.Some? then Some(t.sourceAccount.value.id) else None,
        destinationId := if t.destinationAccount.Some? then Some(t.destinationAccount.value.id) else None);
      Ok(FireflyTransaction(false, false, [split]))
  }

  /**
   * `convertToFireflyTransactions`: one record per transaction, in order; the
   * first transaction that cannot be converted aborts the whole list, so the
   * conversion fails exactly when some transaction lacks a currency or a
   * category.
   */
  function ConvertToFirefly(ts: seq<Transaction>): (r: Result<seq<FireflyTransaction>, ConvertError>)
    ensures r.Ok? <==> forall i :: 0 <= i < |ts| ==> ts[i].currency.Some? && ts[i].category.Some?
    ensures r.Ok? ==> |r.value| == |ts| && forall i :: 0 <= i < |ts| ==> ConvertOne(ts[i]) == Ok(r.value[i])
    ensures r.Err? ==> exists i :: 0 <= i < |ts| && ConvertOne(ts[i]) == Err(r.error)
                        && forall j :: 0 <= j < i ==> ConvertOne(ts[j]).Ok?
  {
    MapResult(ts, ConvertOne)
  }
}

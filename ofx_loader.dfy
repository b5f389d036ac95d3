/**
 * The OFX file loader: it walks the tree an OFX parser built for one
 * statement-download response and turns each STMTTRN of the credit-card
 * (CREDITCARDMSGSRSV1) and bank (BANKMSGSRSV1) statement responses into a
 * raw transaction. The legacy parser of the first version of the importer
 * has the same logic and is modelled by the same members.
 */
module OfxLoader {
  import opened Wrappers
  import opened Domain
  import opened Lists

  /** One STMTTRN aggregate, with DTPOSTED and TRNAMT already parsed. */
  datatype StmtTrn = StmtTrn(
    fitId: Option<string>, checkNum: Option<string>, refNum: Option<string>,
    trnType: Option<string>, posted: int, amount: int, memo: string)

  /** A BANKTRANLIST's STMTTRN as the parser delivers it: missing, one object, or an array. */
  datatype StmtTrnField = Missing | Single(trn: StmtTrn) | Many(trns: seq<StmtTrn>)

  /** A statement response: its account aggregate (CCACCTFROM or BANKACCTFROM), CURDEF and STMTTRN. */
  datatype Statement = Statement(acctFrom: BankAccount, curDef: Option<string>, stmtTrn: StmtTrnField)

  /** The OFX body: the credit-card and the bank statement responses, each possibly absent. */
  datatype OfxBody = OfxBody(creditCard: Option<Statement>, bank: Option<Statement>)

  /** A parsed file together with the account its import configuration names. */
  datatype OfxFile = OfxFile(account: AccountConfig, body: OfxBody)

  /** `reduce` without an initial value on an empty array throws a TypeError. */
  datatype LoadError = EmptyFileList

  /** The STMTTRN value normalised to a list: missing gives none, a single object one. */
  function Entries(f: StmtTrnField): (l: seq<StmtTrn>)
    ensures f.Missing? ==> l == []
    ensures f.Single? ==> l == [f.trn]
    ensures f.Many? ==> l == f.trns
  {
    match f
    case Missing => []
    case Single(t) => [t]
    case Many(ts) => ts
  }

  function FromStmtTrn(account: AccountConfig, acct: BankAccount, t: StmtTrn, currency: Option<string>): RawTransaction
  {
    RawTransaction(
      account := account,
      id := RawId(t.fitId, t.checkNum, t.refNum, acct),
      trnType := t.trnType,
      date := t.posted,
      amount := t.amount,
      currency := currency,
      memo := t.memo,
      category := None,
      filename := None)
  }

  /** `convertListOfOfxTransactions`: one raw transaction per STMTTRN entry, in order. */
  function ConvertList(account: AccountConfig, acct: BankAccount, f: StmtTrnField, currency: Option<string>)
    : (r: seq<RawTransaction>)
    ensures f.Missing? ==> r == []
    ensures f.Single? ==> r == [FromStmtTrn(account, acct, f.trn, currency)]
    ensures |r| == |Entries(f)|
    ensures forall i :: 0 <= i < |r| ==>
      var t := Entries(f)[i];
      && r[i].account == account && r[i].id.account == acct && r[i].currency == currency
      && r[i].id.fitId == t.fitId && r[i].id.checkNum == t.checkNum && r[i].id.refNum == t.refNum
      && r[i].trnType == t.trnType && r[i].memo == t.memo
      && r[i].date == t.posted && r[i].amount == t.amount
      && r[i].category.None? && r[i].filename.None?
  {
    var l := Entries(f);
    seq(|l|, i requires 0 <= i < |l| => FromStmtTrn(account, acct, l[i], currency))
  }

  function StatementEntries(account: AccountConfig, s: Option<Statement>): seq<RawTransaction>
  {
    match s
    case None => []
    case Some(st) => ConvertList(account, st.acctFrom, st.stmtTrn, st.curDef)
  }

  /**
   * `convertAllOfxTransactions`: the credit-card section's entries, then the
   * bank section's; an absent section contributes nothing.
   */
  function ConvertAll(file: OfxFile): seq<RawTransaction>
  {
    StatementEntries(file.account, file.body.creditCard) + StatementEntries(file.account, file.body.bank)
  }

  /**
   * The entries of a file: the credit-card section's come first, then the
   * bank section's, each with its section's account and currency, and all
   * with the file's configured account.
   */
  lemma ConvertAllSections(file: OfxFile)
    ensures var r := ConvertAll(file); var cc := file.body.creditCard; var bank := file.body.bank;
      && |r| == (if cc.Some? then |Entries(cc.value.stmtTrn)| else 0)
              + (if bank.Some? then |Entries(bank.value.stmtTrn)| else 0)
      && (forall i :: 0 <= i < |r| ==> r[i].account == file.account)
      && (cc.Some? ==> forall i :: 0 <= i < |Entries(cc.value.stmtTrn)| ==>
            r[i].id.account == cc.value.acctFrom && r[i].currency == cc.value.curDef)
      && (bank.Some? ==> forall i :: |r| - |Entries(bank.value.stmtTrn)| <= i < |r| ==>
            r[i].id.account == bank.value.acctFrom && r[i].currency == bank.value.curDef)
  {
  }

  /** `reduce((acc, value) => acc.concat(value))` from an accumulator, left to right. */
  function ConcatFrom<T>(acc: seq<T>, rest: seq<seq<T>>): seq<T>
    decreases |rest|
  {
    if rest == [] then acc else ConcatFrom(acc + rest[0], rest[1..])
  }

  lemma {:induction false} ConcatFromIsConcat<T>(acc: seq<T>, rest: seq<seq<T>>)
    ensures ConcatFrom(acc, rest) == acc + Concat(rest)
    decreases |rest|
  {
    if rest != [] {
      ConcatFromIsConcat(acc + rest[0], rest[1..]);
      assert acc + rest[0] + Concat(rest[1..]) == acc + (rest[0] + Concat(rest[1..]));
    }
  }

  /** `flat`: reduce without an initial value, so an empty list of files is an error. */
  function Flat<T>(lists: seq<seq<T>>): (r: Result<seq<T>, LoadError>)
    ensures r.Err? <==> lists == []
    ensures r.Ok? ==> r.value == Concat(lists)
  {
    if lists == [] then Err(EmptyFileList)
    else
      ConcatFromIsConcat(lists[0], lists[1..]);
      Ok(ConcatFrom(lists[0], lists[1..]))
  }

  function ConvertFiles(files: seq<OfxFile>): (r: seq<seq<RawTransaction>>)
    ensures |r| == |files| && forall i :: 0 <= i < |files| ==> r[i] == ConvertAll(files[i])
  {
    seq(|files|, i requires 0 <= i < |files| => ConvertAll(files[i]))
  }

  /** `loadTransactions`: the files' conversions concatenated in the order of `files`. */
  function LoadTransactions(files: seq<OfxFile>): (r: Result<seq<RawTransaction>, LoadError>)
    ensures files == [] ==> r == Err(EmptyFileList)
    ensures files != [] ==> r.Ok? && r.value == ConvertAll(files[0]) + Concat(ConvertFiles(files[1..]))
  {
    var lists := ConvertFiles(files);
    assert files != [] ==> lists[1..] == ConvertFiles(files[1..]);
    Flat(lists)
  }

  /** Loading a single file, as the importer always does, never fails and gives that file's entries. */
  lemma LoadSingleFile(file: OfxFile)
    ensures LoadTransactions([file]) == Ok(ConvertAll(file))
  {
    assert ConvertFiles([file][1..]) == [];
  }
}

/**
 * The loader for files exported from the Wallet finance manager: each
 * already-parsed CSV record becomes a raw transaction, numbered by one
 * counter that runs across all the files of one call.
 */
module WalletLoader {
  import opened Wrappers
  import opened Domain
  import opened Lists
  import Text

  /** The columns of an exported record the loader reads (amount and date already parsed). */
  datatype CsvRecord = CsvRecord(
    account: string, category: string, currency: string,
    amount: int, note: string, date: int)

  /** The raw transaction built for `rec` when the counter stands at `n`. */
  function FromRecord(rec: CsvRecord, n: nat): (t: RawTransaction)
    ensures t.account == AccountConfig(rec.account, None)
    ensures t.id.fitId == Some(Text.NatToString(n))
    ensures t.id.checkNum == Some("") && t.id.refNum == Some("")
    ensures t.id.account.accountId == Some(rec.account)
    ensures t.memo == rec.note && t.currency == Some(rec.currency) && t.category == Some(rec.category)
  {
    RawTransaction(
      account := AccountConfig(rec.account, None),
      id := RawId(Some(Text.NatToString(n)), Some(""), Some(""),
                  BankAccount(None, None, Some(rec.account), None)),
      trnType := None,
      date := rec.date,
      amount := rec.amount,
      currency := Some(rec.currency),
      memo := rec.note,
      category := Some(rec.category),
      filename := None)
  }

  /** Records numbered differently never share a `fitId`. */
  lemma FitIdsDiffer(a: CsvRecord, b: CsvRecord, n: nat, m: nat)
    requires n != m
    ensures FromRecord(a, n).id.fitId != FromRecord(b, m).id.fitId
  {
    if Text.NatToString(n) == Text.NatToString(m) {
      Text.NatToStringInjective(n, m);
    }
  }

  /**
   * `loadTransactions` over the parsed records of each file: files in order,
   * records in order, the k-th output (from 0) numbered k + 1.
   */
  method LoadTransactions(files: seq<seq<CsvRecord>>) returns (r: seq<RawTransaction>)
    ensures |r| == |Concat(files)|
    ensures forall k :: 0 <= k < |r| ==> r[k] == FromRecord(Concat(files)[k], k + 1)
    ensures forall i, j :: 0 <= i < j < |r| ==> r[i].id.fitId != r[j].id.fitId
  {
    var id := 1;
    r := [];
    var f := 0;
    while f < |files|
      invariant 0 <= f <= |files|
      invariant id == |r| + 1
      invariant |r| == |Concat(files[..f])|
      invariant forall k :: 0 <= k < |r| ==> r[k] == FromRecord(Concat(files[..f])[k], k + 1)
    {
      ghost var done := Concat(files[..f]);
      var records := files[f];
      var j := 0;
      while j < |records|
        invariant 0 <= j <= |records|
        invariant id == |r| + 1
        invariant |r| == |done| + j
        invariant forall k :: 0 <= k < |r| ==> r[k] == FromRecord((done + records[..j])[k], k + 1)
      {
        assert (done + records[..j + 1])[..|r|] == (done + records[..j]);
        r := r + [FromRecord(records[j], id)];
        id := id + 1;
        j := j + 1;
      }
      assert records[..j] == records;
      assert files[..f + 1] == files[..f] + [records];
      ConcatSnoc(files[..f], records);
      f := f + 1;
    }
    assert files[..f] == files;
    forall i, j | 0 <= i < j < |r|
      ensures r[i].id.fitId != r[j].id.fitId
    {
      FitIdsDiffer(Concat(files)[i], Concat(files)[j], i + 1, j + 1);
    }
  }
}

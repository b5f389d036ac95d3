/**
 * The two `import` entry points: the current importer (load every configured
 * file, sort and filter, normalise, detect transfers, fill in categories)
 * and the legacy OFX importer (parse, sort and filter, detect transfers,
 * convert to Wallet records).
 */
module Pipeline {
  import opened Wrappers
  import opened Domain
  import opened Lists
  import OfxLoader
  import WalletLoader
  import Ordering
  import Normalizer
  import TransferDetector
  import Categories
  import LegacyImporter
  import Text

  /** One configured input file, already parsed, tagged with its `format`. */
  datatype FileConfig =
    | Ofx(file: OfxLoader.OfxFile)
    | Wallet(records: seq<WalletLoader.CsvRecord>)
    | Unknown(format: string)

  /** `getFileLoader` throws on a format it does not know. */
  datatype ImportError = UnknownFormat(format: string)

  /** The wallet loader's output for one file on its own: the counter starts again at 1. */
  function WalletEntries(records: seq<WalletLoader.CsvRecord>): (r: seq<RawTransaction>)
    ensures |r| == |records|
    ensures forall k :: 0 <= k < |r| ==> r[k] == WalletLoader.FromRecord(records[k], k + 1)
  {
    seq(|records|, k requires 0 <= k < |records| => WalletLoader.FromRecord(records[k], k + 1))
  }

  /** `getFileLoader(file).loadTransactions([file])`; nothing for an unknown format. */
  function FileEntries(f: FileConfig): seq<RawTransaction>
  {
    match f
    case Ofx(file) => OfxLoader.ConvertAll(file)
    case Wallet(records) => WalletEntries(records)
    case Unknown(_) => []
  }

  /** What each configured file contributes, in configuration order. */
  function Parts(files: seq<FileConfig>): (p: seq<seq<RawTransaction>>)
    ensures |p| == |files| && forall i :: 0 <= i < |files| ==> p[i] == FileEntries(files[i])
  {
    seq(|files|, i requires 0 <= i < |files| => FileEntries(files[i]))
  }

  /**
   * What the loading loop of `import` collects: each file's transactions
   * appended in the order of the configuration, or the error of a file with
   * an unknown format.
   */
  function Loaded(files: seq<FileConfig>): Result<seq<RawTransaction>, ImportError>
    decreases |files|
  {
    if files == [] then Ok([])
    else
      match Loaded(files[..|files| - 1])
      case Err(e) => Err(e)
      case Ok(prefix) =>
        var last := files[|files| - 1];
        if last.Unknown? then Err(UnknownFormat(last.format)) else Ok(prefix + FileEntries(last))
  }

  /**
   * Loading succeeds exactly when every file has a known format, and then
   * yields every file's transactions, in configuration order.
   */
  lemma {:induction false} LoadedSpec(files: seq<FileConfig>)
    ensures Loaded(files).Ok? <==> forall i :: 0 <= i < |files| ==> !files[i].Unknown?
    ensures Loaded(files).Ok? ==> Loaded(files).value == Concat(Parts(files))
    decreases |files|
  {
    if files != [] {
      var init, last := files[..|files| - 1], files[|files| - 1];
      LoadedSpec(init);
      assert files == init + [last];
      assert Parts(files) == Parts(init) + [FileEntries(last)];
      ConcatSnoc(Parts(init), FileEntries(last));
    }
  }

  /** The import fails with the format of the first file whose format is unknown. */
  lemma {:induction false} LoadedFirstUnknown(files: seq<FileConfig>, i: nat)
    requires i < |files| && files[i].Unknown?
    requires forall j :: 0 <= j < i ==> !files[j].Unknown?
    ensures Loaded(files) == Err(UnknownFormat(files[i].format))
    decreases |files|
  {
    var init := files[..|files| - 1];
    if i == |files| - 1 {
      LoadedSpec(init);
    } else {
      LoadedFirstUnknown(init, i);
    }
  }

  /** One turn of the loading loop: the next file's transactions are appended. */
  lemma LoadedStep(files: seq<FileConfig>, f: nat, transactions: seq<RawTransaction>)
    requires f < |files| && !files[f].Unknown?
    requires Loaded(files[..f]) == Ok(transactions)
    ensures Loaded(files[..f + 1]) == Ok(transactions + FileEntries(files[f]))
  {
    assert files[..f + 1][..f] == files[..f];
  }

  /** `getFileLoader(file).loadTransactions([file])` for a file of a known format. */
  method LoadFile(file: FileConfig) returns (loaded: seq<RawTransaction>)
    requires !file.Unknown?
    ensures loaded == FileEntries(file)
  {
    match file {
      case Ofx(ofx) =>
        var res := OfxLoader.LoadTransactions([ofx]);
        OfxLoader.LoadSingleFile(ofx);
        loaded := res.value;
      case Wallet(records) =>
        loaded := WalletLoader.LoadTransactions([records]);
        assert Concat([records]) == records by {
          assert [records][1..] == [];
        }
    }
  }

  /**
   * The loop of `import` that loads the configured files one by one through
   * `getFileLoader`, stopping at the first unknown format.
   */
  method LoadAll(files: seq<FileConfig>) returns (r: Result<seq<RawTransaction>, ImportError>)
    ensures r == Loaded(files)
  {
    var transactions: seq<RawTransaction> := [];
    var f := 0;
    while f < |files|
      invariant 0 <= f <= |files|
      invariant Loaded(files[..f]) == Ok(transactions)
      invariant forall j :: 0 <= j < f ==> !files[j].Unknown?
    {
      var file := files[f];
      if file.Unknown? {
        LoadedFirstUnknown(files, f);
        return Err(UnknownFormat(file.format));
      }
      var loaded := LoadFile(file);
      LoadedStep(files, f, transactions);
      transactions := transactions + loaded;
      f := f + 1;
    }
    assert files[..f] == files;
    r := Ok(transactions);
  }

  /**
   * Two wallet files each number their records from 1, so the first records
   * of two non-empty wallet files share the FITID "1".
   */
  lemma WalletIdsRestartPerFile(a: seq<WalletLoader.CsvRecord>, b: seq<WalletLoader.CsvRecord>)
    requires a != [] && b != []
    ensures Loaded([Wallet(a), Wallet(b)]).Ok?
    ensures var l := Loaded([Wallet(a), Wallet(b)]).value;
      |l| == |a| + |b| && l[0].id.fitId == l[|a|].id.fitId == Some("1")
  {
    LoadedSpec([Wallet(a), Wallet(b)]);
    var parts := Parts([Wallet(a), Wallet(b)]);
    assert Concat(parts) == WalletEntries(a) + WalletEntries(b) by {
      assert parts[1..][1..] == [];
      assert Concat(parts[1..]) == WalletEntries(b) + Concat(parts[1..][1..]);
    }
    assert Text.NatToString(1) == "1";
  }

  /** The transactions that reach transfer detection, in the order they reach it. */
  function Prepared(raws: seq<RawTransaction>, maxDate: int, accounts: seq<Account>, currencies: seq<Currency>)
    : (r: seq<Transaction>)
    ensures TransferDetector.SortedTx(r)
    ensures forall t :: t in r ==> t.transferId.None? && t.amount >= 0
  {
    var kept := Ordering.SortAndFilter(raws, maxDate);
    Normalizer.ConvertAll(kept, accounts, currencies)
  }

  /** Each transaction reaching detection is the normalised form of a raw transaction that passed the filter. */
  lemma PreparedFromKept(raws: seq<RawTransaction>, maxDate: int, accounts: seq<Account>, currencies: seq<Currency>,
                         t: Transaction)
    requires t in Prepared(raws, maxDate, accounts, currencies)
    ensures exists raw :: raw in raws && Ordering.KeptForImport(raw, maxDate)
                          && t == Normalizer.Convert(raw, accounts, currencies)
  {
    var kept := Ordering.SortAndFilter(raws, maxDate);
    var r := Prepared(raws, maxDate, accounts, currencies);
    assert r == Normalizer.ConvertAll(kept, accounts, currencies);
    var i :| 0 <= i < |r| && r[i] == t;
    assert kept[i] in kept;
  }

  /**
   * On ascending input the five-day window never cuts the search short, so
   * detection in `import` pairs each leg with the first matching later leg.
   */
  lemma {:induction false} PreparedWindowNeverStops(raws: seq<RawTransaction>, maxDate: int, accounts: seq<Account>,
                                 currencies: seq<Currency>, x: nat, similar: Search)
    requires x < |Prepared(raws, maxDate, accounts, currencies)|
    ensures var s := Prepared(raws, maxDate, accounts, currencies);
      TransferDetector.FirstPartner(s, x, x + 1, similar) == TransferDetector.FirstMatch(s, x, x + 1, similar)
  {
    var s := Prepared(raws, maxDate, accounts, currencies);
    assert TransferDetector.SortedTx(s);
    TransferDetector.WindowNeverStops(s, x, x + 1, similar);
  }

  /**
   * `import` of the current importer, up to the point where the records are
   * written out and posted: the result is the detected list with every
   * missing category filled in, and fresh transfer ids are drawn from `ids`.
   */
  method Import(files: seq<FileConfig>, maxDate: int, accounts: seq<Account>, currencies: seq<Currency>,
                categories: seq<Category>, similar: Search, ids: IdSupply)
    returns (r: Result<seq<Transaction>, ImportError>)
    modifies ids
    ensures Loaded(files).Err? ==> r == Err(Loaded(files).error) && ids.next == old(ids.next)
    ensures Loaded(files).Ok? ==>
      var d := TransferDetector.Detect(Prepared(Loaded(files).value, maxDate, accounts, currencies), old(ids.next), similar);
      && r.Ok? && ids.next == d.next && |r.value| == |d.out|
      && forall i :: 0 <= i < |d.out| ==> r.value[i] == Categories.Categorized(d.out[i], categories, similar)
    ensures r.Ok? ==> forall i :: 0 <= i < |r.value| ==> r.value[i].category.Some?
  {
    var loaded := LoadAll(files);
    if loaded.Err? {
      return Err(loaded.error);
    }
    r := DetectAndCategorize(loaded.value, maxDate, accounts, currencies, categories, similar, ids);
  }

  /** The part of `import` after loading: sort, filter, normalise, detect transfers, categorise. */
  method DetectAndCategorize(transactions: seq<RawTransaction>, maxDate: int, accounts: seq<Account>,
                             currencies: seq<Currency>, categories: seq<Category>, similar: Search, ids: IdSupply)
    returns (r: Result<seq<Transaction>, ImportError>)
    modifies ids
    ensures var d := TransferDetector.Detect(Prepared(transactions, maxDate, accounts, currencies), old(ids.next), similar);
      && r.Ok? && ids.next == d.next && |r.value| == |d.out|
      && forall i :: 0 <= i < |d.out| ==> r.value[i] == Categories.Categorized(d.out[i], categories, similar)
    ensures forall i :: 0 <= i < |r.value| ==> r.value[i].category.Some?
  {
    var prepared := Prepared(transactions, maxDate, accounts, currencies);
    var a := new Transaction[|prepared|](i requires 0 <= i < |prepared| => prepared[i]);
    assert a[..] == prepared;
    var detected := TransferDetector.DetectTransfers(a, similar, ids);
    var b := new Transaction[|detected|](i requires 0 <= i < |detected| => detected[i]);
    Categories.AssignCategories(b, categories, similar);
    r := Ok(b[..]);
  }

  /**
   * The list the legacy detector works on: every parsed transaction dated no
   * later than the end of `maxDate`, in ascending date order, none marked.
   */
  function LegacyPrepared(raws: seq<RawTransaction>, maxDate: int): (r: seq<LegacyImporter.LegacyTx>)
    ensures forall i, j :: 0 <= i < j < |r| ==> r[i].raw.date <= r[j].raw.date
    ensures forall i :: 0 <= i < |r| ==> r[i].accountRef == i && r[i].transferId.None? && r[i].transfer.None?
  {
    var kept := Ordering.LegacySortAndFilter(raws, maxDate);
    var r := LegacyImporter.ToLegacy(kept);
    assert forall i :: 0 <= i < |r| ==> r[i].raw == kept[i];
    r
  }

  /** A parsed transaction reaches the legacy detector exactly when it is dated no later than the end of `maxDate`. */
  lemma LegacyPreparedKeeps(raws: seq<RawTransaction>, maxDate: int, t: RawTransaction)
    requires t in raws
    ensures t.date <= EndOfDay(maxDate) <==> exists i :: 0 <= i < |LegacyPrepared(raws, maxDate)| && LegacyPrepared(raws, maxDate)[i].raw == t
  {
    var kept := Ordering.LegacySortAndFilter(raws, maxDate);
    var r := LegacyPrepared(raws, maxDate);
    assert r == LegacyImporter.ToLegacy(kept);
    if t.date <= EndOfDay(maxDate) {
      var i :| 0 <= i < |kept| && kept[i] == t;
      assert r[i].raw == t;
    }
    if exists i :: 0 <= i < |r| && r[i].raw == t {
      var i :| 0 <= i < |r| && r[i].raw == t;
      assert kept[i] == t;
    }
  }

  /**
   * `import` of the legacy OFX importer, up to the point where the records
   * are written out and sent: parse, sort and filter by date alone, detect
   * transfers in place, convert to Wallet records.
   */
  method LegacyImport(files: seq<OfxLoader.OfxFile>, maxDate: int, accounts: seq<Account>, currencies: seq<Currency>,
                      categories: seq<LegacyImporter.WalletCategory>, similar: LegacyImporter.LegacySearch, ids: IdSupply)
    returns (r: Result<seq<LegacyImporter.WalletRecord>, LegacyImporter.LegacyError>)
    modifies ids
    ensures files == [] ==> r == Err(LegacyImporter.NoFiles) && ids.next == old(ids.next)
    ensures files != [] ==>
      var d := LegacyImporter.LegacyDetect(LegacyPrepared(OfxLoader.LoadTransactions(files).value, maxDate), old(ids.next), similar);
      && ids.next == d.next
      && r == LegacyImporter.ConvertToWalletRecords(d.legs, accounts, categories, currencies, similar)
  {
    var parsed := OfxLoader.LoadTransactions(files);
    if parsed.Err? {
      return Err(LegacyImporter.NoFiles);
    }
    r := LegacyDetectAndConvert(parsed.value, maxDate, accounts, currencies, categories, similar, ids);
  }

  /** The part of the legacy `import` after parsing: sort, filter, detect transfers in place, convert. */
  method LegacyDetectAndConvert(parsed: seq<RawTransaction>, maxDate: int, accounts: seq<Account>,
                                currencies: seq<Currency>, categories: seq<LegacyImporter.WalletCategory>,
                                similar: LegacyImporter.LegacySearch, ids: IdSupply)
    returns (r: Result<seq<LegacyImporter.WalletRecord>, LegacyImporter.LegacyError>)
    modifies ids
    ensures var d := LegacyImporter.LegacyDetect(LegacyPrepared(parsed, maxDate), old(ids.next), similar);
      && ids.next == d.next
      && r == LegacyImporter.ConvertToWalletRecords(d.legs, accounts, categories, currencies, similar)
  {
    var legs := LegacyPrepared(parsed, maxDate);
    var a := new LegacyImporter.LegacyTx[|legs|](i requires 0 <= i < |legs| => legs[i]);
    assert a[..] == legs;
    LegacyImporter.LegacyDetectTransfers(a, similar, ids);
    r := LegacyImporter.ConvertToWalletRecords(a[..], accounts, categories, currencies, similar);
  }
}

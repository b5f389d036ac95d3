# wallet-importer: the import pipeline, modelled in Dafny

This project models the core of wallet-importer. That tool reads bank
statements (OFX files and exports from the Wallet finance manager) and
imports them into a personal-finance ledger (Firefly III, or Wallet in the
legacy importer). The core modelled here is the import pipeline:

- **Loaders.** The OFX loader walks the tree a parser built for an OFX
  statement-download response. It normalises a missing, single or repeated
  STMTTRN and puts the credit-card section (CREDITCARDMSGSRSV1) before the
  bank section (BANKMSGSRSV1). The Wallet-export loader numbers records with
  one running counter.
- **Normaliser** (`convertToTransactions`). The sign of the raw amount
  decides the transaction type. The amount is stored as its absolute value.
  The account is resolved by exact name and the currency by exact code. A
  failed lookup leaves the field absent.
- **Sort and date filter** of both importers.
- **Transfer detector** (`detectTransfers`). A nested index scan over an
  array pairs a withdrawal with a deposit. It writes a shared fresh id and
  the reconciled accounts into both legs in place, and emits one merged
  transfer record in place of the pair.
- **Category fallback chain** (`getCategory`) and the loop of `import` that
  fills in only the categories that are absent.
- **Firefly III type mapping** and the outbound record built for each
  transaction.
- **Legacy OFX importer.** It marks pairs in place, without merging and
  without stopping after a match, and converts each transaction into a
  Wallet record.

Modules, one per file:

- `Wrappers`: `Option` and `Result`.
- `Text`: JavaScript's `trim` and `toLowerCase`, restricted to ASCII, and decimal rendering of a number.
- `Lists`: `find`, flattening, and a `map` whose callback may throw.
- `Domain`: the shared records, and the `IdSupply` class that stands in for uuid generation.
- `OfxLoader`, `WalletLoader`, `Normalizer`, `Ordering`, `TransferText` and `TransferDetector` (both in `transfers.dfy`), `Categories`, `Firefly`, `LegacyImporter` and `Pipeline`.

The imperative parts of the source are Dafny methods proved against
specification functions:

- `detectTransfers` of both importers: methods over an `array`, with nested `while` loops that write into the array.
- The category loop: a `for` loop over an array.
- The Wallet loader's counter: nested loops with a shared counter.
- The file-loading loop of `import`.

Each of these methods states that its final state equals a function of the
initial state. The properties of those functions are proved as lemmas.

Two files are line-for-line twins of others, and the same members model both
copies:

- `lib/ofx-parser.ts` and `lib/ofx-parser.js` copy `lib/ofx/ofx-file-loader.ts`:
  - `convertListOfOfxTransactions` is at ofx-parser.ts:16-46 and ofx-parser.js:6-36;
  - `convertAllOfxTransactions` is at ofx-parser.ts:48-69 and ofx-parser.js:38-59;
  - `flat` is at ofx-parser.ts:84-86 and ofx-parser.js:74-76;
  - `parseOfxFiles` is at ofx-parser.ts:7-13 and ofx-parser.js:78-86.
- `lib/ofx-importer.js` copies `lib/ofx-importer.ts`:
  - `getPaymentType` is at lines 10-21;
  - `getCategory` is at lines 27-41;
  - `convertToWalletRecords` is at lines 43-63;
  - `detectTransfers` is at lines 65-93;
  - the sort and filter are at lines 115-120.

Two behaviours of the code are worth stating plainly, because a reader of
the function names would expect otherwise:

- **The window test never fires.** `detectTransfers` breaks out of its inner
  scan when `t1.date.diff(t2.date, "days") > 5`
  (lib/financial-transactions-importer.ts:201). The list is sorted in
  ascending date order, and `t1` always comes before `t2`, so `t1 - t2` is
  never positive. The test therefore never fires, and legs any distance apart
  can pair (`TransferDetector.WindowNeverStops`). The legacy importer compares
  milliseconds the same way (lib/ofx-importer.ts:119), and its test never fires
  either (`LegacyImporter.InnerIsSweep`).
- **Linking copies one side and overwrites the other.** When a pair is
  confirmed (lib/financial-transactions-importer.ts:219-225), a `t1` without a
  source account takes `t2`'s source, and `t2`'s destination is overwritten by
  `t1`'s; otherwise `t1` takes `t2`'s destination and `t2`'s source is
  overwritten by `t1`'s. An unresolved withdrawal therefore erases its
  partner's account (`TransferDetector.UnresolvedWithdrawalLink`).

Dates are integers (milliseconds since the epoch). Amounts are integers.
The fuzzy search over the ledger is a function parameter `similar`, which
returns the most similar records first.

## Model

| member | source | states |
|---|---|---|
| Normalizer.TransactionTypeOf | lib/financial-transactions-importer.ts:164-174 | a positive amount gives DEPOSIT, a negative one WITHDRAWAL, zero OTHER (each an if-and-only-if); TRANSFER is never produced |
| Normalizer.PaymentType | lib/financial-transactions-importer.ts:91-102 | credit_card gives "transfer" for a positive amount, else "credit_card"; checking gives "transfer" or "debit_card"; investment gives "web_payment"; any other type "cash"; "transfer" only for a positive amount |
| Normalizer.Abs | lib/financial-transactions-importer.ts:147 | the stored amount is non-negative and equals the raw amount or its negation |
| Normalizer.FindAccount | lib/financial-transactions-importer.ts:135 | the account is the first one whose name equals the configured name exactly; absent exactly when no name matches |
| Normalizer.FindCurrency | lib/financial-transactions-importer.ts:144 | the currency is the first whose code equals the raw currency exactly; absent when the code is absent or nothing matches |
| Normalizer.Convert | lib/financial-transactions-importer.ts:134-161 | one raw transaction becomes a transaction with absolute amount, sign-derived type, the account on the destination side for a positive amount and the source side otherwise, looked-up currency, derived payment type, a category named by the hint only when a non-empty hint is present, no transfer id, "cleared", not reconciled, the three tags |
| Normalizer.ConvertAll | lib/financial-transactions-importer.ts:130-162 | same length and order as the input, element by element the conversion above, with dates kept, amounts non-negative and no transfer ids |
| Normalizer.UnresolvedAccount | lib/financial-transactions-importer.ts:135-142 | an account name that matches nothing leaves both source and destination absent, with no error |
| Ordering.SortByDate | lib/financial-transactions-importer.ts:39-41 | the result is sorted by ascending date and is a permutation (same multiset) of the input |
| Ordering.Filter | lib/financial-transactions-importer.ts:43-44 | exactly the elements satisfying the predicate are kept, and no more elements than were given |
| Ordering.FilterCounts | lib/financial-transactions-importer.ts:43-44 | every copy of a kept element survives and no copy of a dropped one: the multiplicity of each element is its input multiplicity when kept, zero otherwise |
| Ordering.FilterConcat | lib/financial-transactions-importer.ts:43-44 | filtering a concatenation is the concatenation of the filtered parts, so the kept elements keep their relative order |
| Ordering.FilterSorted | lib/financial-transactions-importer.ts:43-44 | filtering a date-ordered list leaves it date-ordered |
| Ordering.InsertSorted | lib/financial-transactions-importer.ts:39-41 | inserting one transaction into a date-ordered list leaves it date-ordered |
| Ordering.InsertFirstOfDate | lib/financial-transactions-importer.ts:39-41 | inserting a transaction puts it before every transaction of its own date that the list already holds, and leaves the order among the others of any date as it was |
| Ordering.SortByDateStable | lib/financial-transactions-importer.ts:39-41 | the sort is stable: the transactions of any one date come out in their input order |
| Ordering.SortAndFilter | lib/financial-transactions-importer.ts:39-44 | the result is date-ordered and holds exactly the inputs dated no later than the end of the maximum date's day or on a credit-card account |
| Ordering.SortAndFilterCounts | lib/financial-transactions-importer.ts:39-44 | each kept input appears as many times as in the input (duplicates are kept), each dropped one not at all |
| Ordering.LegacySortAndFilter | lib/ofx-importer.ts:17-21 | the result is date-ordered and holds exactly the inputs dated no later than the end of the maximum date's day, with no credit-card exemption |
| Ordering.LegacySortAndFilterCounts | lib/ofx-importer.ts:17-21 | each input dated no later than the end of the maximum date's day appears as many times as in the input, every other input not at all |
| Ordering.KeptForImport | lib/financial-transactions-importer.ts:42-44 | a definition with no contract of its own: dated no later than the end of the maximum date's day, or on a credit-card account; `SortAndFilter` and `SortAndFilterCounts` state what keeping by it does |
| Domain.DaysDiff | lib/financial-transactions-importer.ts:201 | the whole-day difference truncated toward zero: for a later first instant `d` whole days fit in the gap and `d + 1` do not, and symmetrically with a negative `d` for an earlier one; so it is above five only when the instants are at least six days apart |
| Domain.EndOfDay | lib/financial-transactions-importer.ts:42 | the end of the day is the last millisecond of the day containing the date, not earlier than the date |
| Domain.IdSupply.Fresh | lib/financial-transactions-importer.ts:216 | each call returns the current counter and advances it, so no id is handed out twice |
| TransferText.MergedDescription | lib/financial-transactions-importer.ts:176-184 | a definition with no contract of its own; its four cases are pinned down by `MergedDescriptionSame`, `MergedDescriptionJoined`, `MergedDescriptionFirstBlank` and `MergedDescriptionSecondBlank` |
| TransferText.MergedDescriptionSame | lib/financial-transactions-importer.ts:180-184 | legs with equal trimmed descriptions give the first leg's trimmed description alone |
| TransferText.MergedDescriptionJoined | lib/financial-transactions-importer.ts:180-184 | different non-empty trimmed descriptions give both, joined by a line feed |
| TransferText.MergedDescriptionFirstBlank | lib/financial-transactions-importer.ts:180-184 | a blank first description beside a non-blank second gives the second trimmed description, because the final trim drops the line feed |
| TransferText.MergedDescriptionSecondBlank | lib/financial-transactions-importer.ts:180-184 | a blank second description gives the first trimmed description |
| TransferDetector.CreateTransferRecord | lib/financial-transactions-importer.ts:176-188 | the merged record is the linked first leg with type TRANSFER, the absolute amount, the first leg's date and id, and the merged description; nothing else changes |
| TransferDetector.IsTransfer | lib/financial-transactions-importer.ts:238-242 | a definition with no contract of its own: payment type, category name or type says transfer; `NormalizedIsTransfer` states what it means on a normalised transaction |
| TransferDetector.TopIsTransfer | lib/financial-transactions-importer.ts:212-215 | a definition with no contract of its own: the most similar ledger record exists and passes the transfer test |
| TransferDetector.IsCandidate | lib/financial-transactions-importer.ts:204-211 | a definition with no contract of its own; `CandidateOfNormalized` states it on normalised legs |
| TransferDetector.Confirmed | lib/financial-transactions-importer.ts:212-215 | a definition with no contract of its own: both legs, or the top similar records of both legs, pass the transfer test |
| TransferDetector.Pairs | lib/financial-transactions-importer.ts:204-215 | a definition with no contract of its own: candidate and confirmed; used by `FirstPartnerIsFirst` |
| TransferDetector.FirstPartner | lib/financial-transactions-importer.ts:199-230 | its own contract gives only that a partner found is a later index in the list; `FirstPartnerIsFirst` and `FirstPartnerUnlinked` pin it down |
| TransferDetector.LinkFirst | lib/financial-transactions-importer.ts:216-225 | a definition with no contract of its own; `LinkedLegsAgree`, `MergedDirection` and `UnresolvedWithdrawalLink` state what linking does |
| TransferDetector.LinkSecond | lib/financial-transactions-importer.ts:216-225 | a definition with no contract of its own; pinned down by the same three lemmas as `LinkFirst` |
| TransferDetector.Step | lib/financial-transactions-importer.ts:193-233 | one turn of the outer loop: the list keeps its length, at most one record is appended to the output and nothing before it changes, and at most one id is drawn; `ScanAt` is proved against it and the `StepX` lemmas carry the scan invariants through it |
| TransferDetector.DetectFrom | lib/financial-transactions-importer.ts:191-236 | a definition with no contract of its own (the outer loop from index `x`); `DetectCount`, `DetectOutput`, `DetectEmits`, `DetectInIndexOrder` and `DetectKeepsOrder` pin it down through `Detect` |
| TransferDetector.Detect | lib/financial-transactions-importer.ts:191-236 | a definition with no contract of its own; pinned down by `DetectCount`, `DetectOutput`, `DetectEmits`, `DetectInIndexOrder` and `DetectKeepsOrder`, and `DetectTransfers` is proved against it |
| TransferDetector.FirstPartnerIsFirst | lib/financial-transactions-importer.ts:199-229 | a partner found is a later transaction that pairs (candidate and confirmed), no transaction between pairs, and the window test did not stop the scan before it; with no partner, every later transaction that would pair lies beyond a window stop |
| TransferDetector.FirstPartnerUnlinked | lib/financial-transactions-importer.ts:204 | a partner found carries no transfer id |
| TransferDetector.LinkedLegsAgree | lib/financial-transactions-importer.ts:216-225 | after linking, both legs carry the same id and the same source and destination accounts, and no other field changes |
| TransferDetector.CandidateOfNormalized | lib/financial-transactions-importer.ts:204-210 | on normalised legs the candidate test holds exactly when the second leg is unlinked, the types are a withdrawal and a deposit, the amounts are equal and the legs are on different accounts |
| TransferDetector.NormalizedIsTransfer | lib/financial-transactions-importer.ts:238-242 | on a normalised transaction the transfer test holds exactly for a deposit on a credit-card or checking account, or a hint equal to "transfer" in any case |
| TransferDetector.MergedDirection | lib/financial-transactions-importer.ts:219-225 | linking a withdrawal and a deposit moves the money from the withdrawal's account to the deposit's account, on both legs and on the merged record |
| TransferDetector.UnresolvedWithdrawalLink | lib/financial-transactions-importer.ts:219-221 | a withdrawal with no resolved account, linked to a deposit, wipes the deposit's destination, so neither leg nor the merged record keeps an account |
| TransferDetector.WindowNeverStops | lib/financial-transactions-importer.ts:199-203 | on a date-ordered list the window test never stops the inner scan: the partner is the first later transaction that pairs |
| TransferDetector.DetectCount | lib/financial-transactions-importer.ts:191-236 | every input without a transfer id is emitted alone or is one of the two legs of a merged record: output length plus pairs equals the number of unlinked inputs |
| TransferDetector.DetectOutput | lib/financial-transactions-importer.ts:226-233 | each emitted record is an unlinked input, unchanged, or a transfer record whose id was drawn during the scan; ids of emitted records are distinct and increasing |
| TransferDetector.DetectEmits | lib/financial-transactions-importer.ts:193-235 | the emitted records without an id are exactly the transactions left unlinked, in input order and unchanged from the input (so the second leg is never emitted); every other emitted record is `createTransferRecord` of the two legs carrying its id, the earlier leg first; on a date-ordered input the output is date-ordered |
| TransferDetector.DetectInIndexOrder | lib/financial-transactions-importer.ts:193-234 | the output is the index-order emission over the input and the final list: for each index, the transaction itself if it is left unlinked, the merged record of its pair if it was unlinked on input and is the first leg carrying its id, nothing otherwise; so each merged record stands at its first leg's position |
| TransferDetector.DetectKeepsOrder | lib/financial-transactions-importer.ts:216-225 | detection changes no date in the list, so a date-ordered list stays date-ordered |
| TransferDetector.LinkInPlace | lib/financial-transactions-importer.ts:217-225 | the in-place writes change exactly the two legs, as the linking functions say |
| TransferDetector.PairFrom | lib/financial-transactions-importer.ts:199-230 | the inner loop leaves the list and the id supply untouched when no partner exists, and otherwise links the first partner under one fresh id and returns the merged record |
| TransferDetector.DetectTransfers | lib/financial-transactions-importer.ts:191-236 | the emitted list, the legs mutated in place and the ids consumed are those of the scan function the lemmas above describe |
| TransferDetector.ScanAt | lib/financial-transactions-importer.ts:193-233 | one turn of the outer loop skips a linked transaction, or pairs the current one in place with its first partner and emits the merged record, or emits it alone, exactly as one step of the scan function |
| Categories.FindNamed | lib/financial-transactions-importer.ts:115-116 | the first category whose lower-cased name equals the given lower-case name; absent exactly when none does |
| Categories.FirstCategorized | lib/financial-transactions-importer.ts:111-112 | the first similar ledger record that has a category; absent exactly when none has one |
| Categories.GetCategory | lib/financial-transactions-importer.ts:109-128 | a hint keeps its name up to case and is the first category of the list that matches it, or the hint itself when none does; else a transfer gets the first category named "transfer" in any case, or a fresh "Transfer"; else the first similar record's category; else the first "others" category, or a fresh "Others" |
| Categories.Categorized | lib/financial-transactions-importer.ts:75-79 | afterwards the category is present; a transaction that had one is unchanged; no other field changes |
| Categories.CategorizedIdempotent | lib/financial-transactions-importer.ts:75-79 | categorising twice gives the same as categorising once |
| Categories.TransfersCategorizedAsTransfer | lib/financial-transactions-importer.ts:118-120 | a transfer leg or merged record without a category is put in the transfer category whatever the ledger holds |
| Categories.AssignCategories | lib/financial-transactions-importer.ts:75-79 | the loop categorises every element in place, and every element ends with a category |
| Pipeline.LoadedSpec | lib/financial-transactions-importer.ts:17-37 | loading succeeds exactly when no file has an unknown format, and yields each file's transactions concatenated in configuration order |
| Pipeline.Loaded | lib/financial-transactions-importer.ts:17-37 | a definition with no contract of its own; `LoadedSpec`, `LoadedFirstUnknown` and `LoadAll` pin it down |
| Pipeline.LoadFile | lib/financial-transactions-importer.ts:35-36 | a file of a known format, loaded alone through its loader, yields that file's entries |
| Pipeline.LoadedFirstUnknown | lib/financial-transactions-importer.ts:22-25 | the error names the format of the first file whose format is unknown |
| Pipeline.LoadAll | lib/financial-transactions-importer.ts:33-37 | the loading loop returns what the loading function describes |
| Pipeline.WalletIdsRestartPerFile | lib/financial-transactions-importer.ts:36 | each wallet file is loaded alone, so the first records of two wallet files both get FITID "1" |
| Pipeline.Prepared | lib/financial-transactions-importer.ts:39-69 | what reaches transfer detection is date-ordered, unlinked, and has non-negative amounts |
| Pipeline.PreparedFromKept | lib/financial-transactions-importer.ts:39-69 | each transaction reaching detection is the normalised form of a raw transaction that passed the filter |
| Pipeline.PreparedWindowNeverStops | lib/financial-transactions-importer.ts:199-203 | in the running importer every transaction's partner search is the plain first-match search |
| Pipeline.DetectAndCategorize | lib/financial-transactions-importer.ts:65-79 | the result is the detected list with every missing category filled in, and ids are drawn as detection says |
| Pipeline.Import | lib/financial-transactions-importer.ts:29-79 | an unknown format aborts with its error and draws no id; otherwise the result is load, sort and filter, normalise, detect, categorise, every element with a category |
| OfxLoader.Entries | lib/ofx-parser.ts:17-23 | a missing STMTTRN gives no entries, a single one a one-element list, an array itself |
| OfxLoader.FromStmtTrn | lib/ofx/ofx-file-loader.ts:50-70 | a definition with no contract of its own; `ConvertList` states each field it sets |
| OfxLoader.ConvertList | lib/ofx/ofx-file-loader.ts:40-71 | one raw transaction per STMTTRN entry, in order, with the configured account, the section's bank-account ids and CURDEF currency, and FITID, CHECKNUM, REFNUM, TRNTYPE, MEMO, date and amount copied |
| OfxLoader.ConvertAll | lib/ofx/ofx-file-loader.ts:73-94 | a definition with no contract of its own; `ConvertAllSections` states the order of the two sections and what each contributes |
| OfxLoader.ConvertAllSections | lib/ofx/ofx-file-loader.ts:73-94 | the credit-card section's entries come first, then the bank section's, each with its section's account and currency; an absent section contributes nothing |
| OfxLoader.ConcatFromIsConcat | lib/ofx-parser.js:74-76 | the concatenating reduce from an accumulator gives the accumulator followed by all lists in order |
| OfxLoader.Flat | lib/ofx/ofx-file-loader.ts:109-111 | flattening fails exactly on an empty list of files, and otherwise concatenates the lists in order |
| OfxLoader.ConvertFiles | lib/ofx-parser.ts:7-13 | one converted list per file, in file order |
| OfxLoader.LoadTransactions | lib/ofx/ofx-file-loader.ts:31-37 | loading fails on no files and otherwise yields the files' conversions concatenated in file order |
| OfxLoader.LoadSingleFile | lib/financial-transactions-importer.ts:36 | loading a single file, as the importer does, never fails and yields that file's entries |
| WalletLoader.FromRecord | lib/wallet/wallet-exported-file-loader.ts:31-50 | the account carries only the name, the account id equals it, FITID is the counter's decimal text, CHECKNUM and REFNUM are empty, and note, currency and category are copied |
| WalletLoader.FitIdsDiffer | lib/wallet/wallet-exported-file-loader.ts:37 | records numbered differently never share a FITID |
| WalletLoader.LoadTransactions | lib/wallet/wallet-exported-file-loader.ts:21-52 | one output per record, files then records in order, the k-th numbered k + 1 by one counter shared across files, and all FITIDs pairwise distinct |
| Firefly.ToTransactionType | lib/firefly-3/firefly-3-service.ts:187-196 | "withdrawal", "deposit" and "transfer" map to their types and everything else, absent included, to OTHER (each an if-and-only-if) |
| Firefly.FromTransactionType | lib/firefly-3/firefly-3-service.ts:198-207 | OTHER maps to absent, the other types to one of the three strings |
| Firefly.ToFromRoundTrip | lib/firefly-3/firefly-3-service.ts:187-207 | reading back the string written for any type gives the type again |
| Firefly.FromToRoundTrip | lib/firefly-3/firefly-3-service.ts:187-207 | writing back the type read from a string gives the string exactly for the three known strings and for an absent type |
| Firefly.ConvertOne | lib/firefly-3/firefly-3-service.ts:159-181 | one split with duplicate-hash check and rules off; the type is the string `fromTransactionType` gives (none for OTHER); date, amount, reconciled, tags, currency id and category name copied; the description is kept, or "No description" when empty; source and destination ids present exactly when the accounts are; a missing currency is an error, then a missing category |
| Firefly.ConvertToFirefly | lib/firefly-3/firefly-3-service.ts:158-185 | one record per transaction in order, failing exactly when some transaction lacks a currency or category, with the first such failure |
| LegacyImporter.ToLegacy | lib/ofx-parser.ts:32-37 | each parsed transaction gets its own `id.account` object identity and no transfer marks |
| LegacyImporter.Candidate | lib/ofx-importer.ts:123 | a definition with no contract of its own: the second leg is unmarked, the amounts sum to zero and the identities differ; `IdentityGuardVacuous` states what it reduces to |
| LegacyImporter.TopIsTransfer | lib/ofx-importer.ts:124-127 | a definition with no contract of its own: the most similar ledger record exists and has payment type "transfer" |
| LegacyImporter.Pairs | lib/ofx-importer.ts:123-127 | a definition with no contract of its own: candidate and both legs confirmed; `Matches` lists the indices it holds for |
| LegacyImporter.Inner | lib/ofx-importer.ts:117-136 | its own contract gives only the length; `InnerIsSweep`, `SweepMarksEveryMatch`, `SweepLastMatchWins`, `SweepKeepsEarlier`, `SweepKeepsUnmatched` and `InnerKeepsUnlinkable` pin it down |
| LegacyImporter.Outer | lib/ofx-importer.ts:110-138 | its own contract gives only the length; `OuterKeepsSkeleton` and `OuterKeepsUnlinkable` pin it down, and `LegacyDetectTransfers` is proved against it |
| LegacyImporter.LegacyDetect | lib/ofx-importer.ts:110-138 | a definition with no contract of its own (the outer scan from the first index); `LegacyDetectTransfers`, `DetectKeepsIdentitiesDistinct` and `LegacyUnpairedUnmarked` state what it does |
| LegacyImporter.LegacyDetectTransfers | lib/ofx-importer.ts:110-138 | the marks written in place and the ids consumed are those of the legacy scan function |
| LegacyImporter.OuterKeepsSkeleton | lib/ofx-importer.ts:110-138 | detection never reorders, removes or alters a transaction's parsed fields or identity; it only writes marks |
| LegacyImporter.IdentityGuardVacuous | lib/ofx-importer.ts:123 | with distinct identities the candidate test reduces to an unmarked second leg and amounts summing to zero |
| LegacyImporter.DetectKeepsIdentitiesDistinct | lib/ofx-importer.js:78 | the identities stay distinct through detection, so the identity guard never rejects a pair |
| LegacyImporter.Matches | lib/ofx-importer.ts:123-127 | every listed index is a later transaction that is a confirmed candidate for the first leg |
| LegacyImporter.MatchesAscending | lib/ofx-importer.ts:117 | the matches come in scan order |
| LegacyImporter.InnerIsSweep | lib/ofx-importer.ts:117-121 | when no later transaction is dated before the first leg, the millisecond window test never stops the inner scan |
| LegacyImporter.SweepCountsMatches | lib/ofx-importer.js:72-91 | the inner scan draws exactly one fresh id per match |
| LegacyImporter.SweepLastMatchWins | lib/ofx-importer.js:83-86 | after the scan the first leg carries the last match's id and points to the last match |
| LegacyImporter.SweepMarksEveryMatch | lib/ofx-importer.ts:128-133 | every match is marked, the j-th with the j-th id drawn |
| LegacyImporter.SweepKeepsEarlier | lib/ofx-importer.ts:117-136 | the inner scan from `y` leaves every transaction before `y` except the first leg as it was |
| LegacyImporter.SweepKeepsUnmatched | lib/ofx-importer.ts:128-133 | the inner scan leaves alone every later transaction that is not a match for the first leg |
| LegacyImporter.InnerKeepsUnlinkable | lib/ofx-importer.ts:117-136 | the inner scan leaves a transaction alone when it cannot pair with the first leg, and leaves the first leg alone when nothing after it can pair with it |
| LegacyImporter.OuterKeepsUnlinkable | lib/ofx-importer.ts:110-138 | a transaction that cannot pair with any other, in either role, ends the whole scan as it started |
| LegacyImporter.LegacyUnpairedUnmarked | lib/ofx-importer.ts:110-138 | a parsed transaction that pairs with no other ends legacy detection with no transfer id and no transfer link |
| LegacyImporter.FirstPartnerOrphaned | lib/ofx-importer.ts:117-136 | with two matches and no break, the first partner keeps an id the first leg no longer carries, and the first leg no longer points to it |
| LegacyImporter.CategoryId | lib/ofx-importer.js:33 | the id of the first category with exactly the given name; an error naming it when none exists |
| LegacyImporter.GetCategory | lib/ofx-importer.ts:72-86 | a marked leg gets the "Transfer" id; otherwise the first similar record with a category id; otherwise the "Others" id; a missing named category is the only error |
| LegacyImporter.ConvertRecord | lib/ofx-importer.ts:88-108 | a missing currency, then a missing account, then a missing category is an error, in that order; otherwise the record has the signed amount, "cleared", the transfer id, the note, the date, the looked-up ids and the payment type of lines 55-66 |
| LegacyImporter.ConvertToWalletRecords | lib/ofx-importer.js:43-63 | one record per transaction in order, failing exactly when some conversion fails, with the first failure |
| Pipeline.LegacyPrepared | lib/ofx-importer.js:115-120 | the legacy detector's input is date-ordered, each transaction with its own identity and no marks |
| Pipeline.LegacyPreparedKeeps | lib/ofx-importer.ts:20-21 | a parsed transaction reaches the legacy detector exactly when it is dated no later than the end of the maximum date's day |
| Pipeline.LegacyImport | lib/ofx-importer.ts:14-45 | no files is an error and draws no id; otherwise the result is what the detect-and-convert step gives for the parsed list |
| Pipeline.LegacyDetectAndConvert | lib/ofx-importer.ts:17-45 | the result is the Wallet conversion of the legs the legacy detector marks in place, with ids drawn as it says |
| Text.Trim | lib/financial-transactions-importer.ts:180 | the trimmed text neither starts nor ends with white space |
| Text.TrimIsInfix | lib/financial-transactions-importer.ts:180 | the trimmed text is the infix of the input between its leading and trailing white space |
| Text.NatToStringInjective | lib/wallet/wallet-exported-file-loader.ts:37 | different numbers have different decimal renderings |

## Left out

- The fuzzy search (Fuse.js, `getFuseSearch`) is not modelled. It is the parameter `similar`, an arbitrary function from a description to a ranked list of ledger records.
- uuid v4 generation is replaced by the `IdSupply` counter. The proofs use only the freshness of each id.
- moment parsing and formatting (`DTPOSTED` parsing, `toISOString`) and `parseFloat` are not modelled: dates and amounts arrive as integers. `endOf('day')` counts days in UTC, not in the local time zone.
- Floating-point amounts are not modelled: amounts are exact integers, so `t1.amount - t2.amount === 0` is plain equality.
- `fs.writeFile` snapshots, the logger and the console output are side effects only and are left out.
- The HTTP services are left out: fetching accounts, currencies, categories and ledger records, `createRecords`, pagination, and sending the records. Their results are parameters.
- Command-line parsing, `Banking.parseFile`, `csv-parse` and file reading are left out. The loaders start from the parsed OFX tree or the parsed CSV records.
- `Promise.all` and async/await are not modelled. Only the order of the per-file results is kept.
- Reference identity of account objects (`!==` at lib/financial-transactions-importer.ts:210) is modelled by value equality of the resolved accounts.
- In the legacy importer, `id.account` identity is the `accountRef` field. The parser gives each transaction its own object.
- A missing MEMO (an undefined description), a category without a name, and absent currency codes on the Wallet side are not modelled: these are strings.
- The `parseInt` of account ids in the Firefly record is left out. Ids stay strings.
- A raw transaction's `filename` tag is kept as an optional string. No loader sets it.
- `toLowerCase` and `trim` cover ASCII letters and ASCII white space only.
- The legacy `t1.transfer = t2` object reference is the index of `t2` in the list.
- The Firefly `reconciliation` type and the fields the record does not carry (foreign amounts, notes) are not modelled.

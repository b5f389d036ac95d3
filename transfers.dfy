/** The description `createTransferRecord` gives a merged transfer. */
module TransferText {
  import Text

  /** The description of a merged record: the first leg's trimmed text, then the second's when it differs. */
  function MergedDescription(d1: string, d2: string): string {
    Text.Trim(JoinDistinct(Text.Trim(d1), Text.Trim(d2)))
  }

  /** `a`, followed by a line feed and `b` when `b` differs from it. */
  function JoinDistinct(a: string, b: string): string {
    if b != a then a + "\n" + b else a
  }

  /** Equal trimmed texts: the first leg's alone. */
  lemma MergedDescriptionSame(d1: string, d2: string)
    requires Text.Trim(d1) == Text.Trim(d2)
    ensures MergedDescription(d1, d2) == Text.Trim(d1)
  {
    Text.TrimIdempotent(d1);
  }

  /** Different non-empty trimmed texts: both, joined by a line feed. */
  lemma MergedDescriptionJoined(d1: string, d2: string)
    requires Text.Trim(d1) != Text.Trim(d2) && Text.Trim(d1) != [] && Text.Trim(d2) != []
    ensures MergedDescription(d1, d2) == Text.Trim(d1) + "\n" + Text.Trim(d2)
  {
    Text.TrimIdempotent(d1);
    Text.TrimIdempotent(d2);
    Text.TrimJoined(Text.Trim(d1), Text.Trim(d2));
  }

  lemma JoinAfterBlank(a: string, b: string)
    requires a == [] && b != []
    ensures JoinDistinct(a, b) == "\n" + b
  {
    assert a + "\n" + b == "\n" + b;
  }

  lemma JoinBeforeBlank(a: string, b: string)
    requires a != [] && b == []
    ensures JoinDistinct(a, b) == a + "\n"
  {
    assert a + "\n" + b == a + "\n";
  }

  /**
   * A blank first leg beside a non-blank second leaves the second leg's
   * trimmed text: the final `trim()` drops the line feed. (Two blank legs
   * are a case of `MergedDescriptionSame`.)
   */
  lemma MergedDescriptionFirstBlank(d1: string, d2: string)
    requires Text.Trim(d1) == [] && Text.Trim(d2) != []
    ensures MergedDescription(d1, d2) == Text.Trim(d2)
  {
    JoinAfterBlank(Text.Trim(d1), Text.Trim(d2));
    Text.TrimIdempotent(d2);
    Text.TrimLeadingBreak(Text.Trim(d2));
  }

  /** A non-blank first leg beside a blank second leaves the first leg's trimmed text. */
  lemma MergedDescriptionSecondBlank(d1: string, d2: string)
    requires Text.Trim(d1) != [] && Text.Trim(d2) == []
    ensures MergedDescription(d1, d2) == Text.Trim(d1)
  {
    JoinBeforeBlank(Text.Trim(d1), Text.Trim(d2));
    Text.TrimIdempotent(d1);
    Text.TrimTrailingBreak(Text.Trim(d1));
  }
}

/**
 * The transfer detector of the importer. It scans the date-ordered list with
 * two indices, pairs a withdrawal with a deposit of the same amount that both
 * look like transfers, writes a shared id and the reconciled accounts into
 * both legs in place, and emits one merged transfer record in place of the pair.
 */
module TransferDetector {
  import opened Wrappers
  import opened Domain
  import Text
  import Normalizer
  import opened TransferText

  /** `isTransfer`: payment type or category name is "transfer" (any case), or the type is TRANSFER. */
  predicate IsTransfer(t: Transaction) {
    || (t.paymentType.Some? && Text.ToLower(t.paymentType.value) == "transfer")
    || (t.category.Some? && Text.ToLower(t.category.value.name) == "transfer")
    || t.ttype == Transfer
  }

  /** `isTransfer(records[0])`: a missing top record is not a transfer. */
  predicate TopIsTransfer(records: seq<Transaction>) {
    |records| > 0 && IsTransfer(records[0])
  }

  /** The early exit of the inner scan: `t1.date.diff(t2.date, "days") > 5`. */
  predicate WindowExceeded(t1: Transaction, t2: Transaction) {
    DaysDiff(t1.date, t2.date) > 5
  }

  predicate IsMovement(t: Transaction) {
    t.ttype == Withdrawal || t.ttype == Deposit
  }

  /** The conjunction that makes (t1, t2) a candidate pair. */
  predicate IsCandidate(t1: Transaction, t2: Transaction) {
    && t2.transferId.None?
    && IsMovement(t1) && IsMovement(t2) && t1.ttype != t2.ttype
    && t1.amount - t2.amount == 0
    && ((t1.sourceAccount.None? && t2.destinationAccount.None?)
        || (t1.destinationAccount.None? && t2.sourceAccount.None?))
    && (t1.sourceAccount != t2.destinationAccount || t1.destinationAccount != t2.sourceAccount)
  }

  /** A candidate is confirmed when both legs, or both legs' most similar ledger records, look like transfers. */
  predicate Confirmed(t1: Transaction, t2: Transaction, similar: Search) {
    || (IsTransfer(t1) && IsTransfer(t2))
    || (TopIsTransfer(similar(t1.description)) && TopIsTransfer(similar(t2.description)))
  }

  predicate Pairs(t1: Transaction, t2: Transaction, similar: Search) {
    IsCandidate(t1, t2) && Confirmed(t1, t2, similar)
  }

  /**
   * The inner scan for `t1 = s[x]` from index `y`: the first later transaction
   * that pairs with it, unless the window test stops the scan first.
   */
  function FirstPartner(s: seq<Transaction>, x: nat, y: nat, similar: Search): (r: Option<nat>)
    requires x < y <= |s|
    ensures r.Some? ==> y <= r.value < |s|
    decreases |s| - y
  {
    if y == |s| then None
    else if WindowExceeded(s[x], s[y]) then None
    else if Pairs(s[x], s[y], similar) then Some(y)
    else FirstPartner(s, x, y + 1, similar)
  }

  /**
   * The first confirmed later partner wins: nothing between `y` and it pairs,
   * and the window test does not stop the scan before it. Without a partner,
   * every later transaction that would pair lies beyond a window stop.
   */
  lemma {:induction false} FirstPartnerIsFirst(s: seq<Transaction>, x: nat, y: nat, similar: Search)
    requires x < y <= |s|
    ensures var r := FirstPartner(s, x, y, similar);
      && (r.Some? ==> y <= r.value < |s| && Pairs(s[x], s[r.value], similar))
      && (r.Some? ==> forall k :: y <= k <= r.value ==> !WindowExceeded(s[x], s[k]))
      && (r.Some? ==> forall k :: y <= k < r.value ==> !Pairs(s[x], s[k], similar))
      && (r.None? ==> forall k :: y <= k < |s| && Pairs(s[x], s[k], similar) ==>
                        exists j :: y <= j <= k && WindowExceeded(s[x], s[j]))
    decreases |s| - y
  {
    if y < |s| && !WindowExceeded(s[x], s[y]) && !Pairs(s[x], s[y], similar) {
      FirstPartnerIsFirst(s, x, y + 1, similar);
    }
  }

  /** A partner found by the scan is a later transaction without a transfer id. */
  lemma FirstPartnerUnlinked(s: seq<Transaction>, x: nat, y: nat, similar: Search)
    requires x < y <= |s|
    ensures var r := FirstPartner(s, x, y, similar);
      r.Some? ==> y <= r.value < |s| && s[r.value].transferId.None?
  {
    FirstPartnerIsFirst(s, x, y, similar);
  }

  /** The writes to the first leg `t1` on confirmation. */
  function LinkFirst(t1: Transaction, t2: Transaction, id: TransferId): Transaction {
    if t1.sourceAccount.None? then t1.(transferId := Some(id), sourceAccount := t2.sourceAccount)
    else t1.(transferId := Some(id), destinationAccount := t2.destinationAccount)
  }

  /** The writes to the second leg `t2` on confirmation. */
  function LinkSecond(t1: Transaction, t2: Transaction, id: TransferId): Transaction {
    if t1.sourceAccount.None? then t2.(transferId := Some(id), destinationAccount := t1.destinationAccount)
    else t2.(transferId := Some(id), sourceAccount := t1.sourceAccount)
  }

  /** After linking, both legs carry the same id and the same source and destination accounts. */
  lemma LinkedLegsAgree(t1: Transaction, t2: Transaction, id: TransferId)
    ensures var l1, l2 := LinkFirst(t1, t2, id), LinkSecond(t1, t2, id);
      && l1.transferId == l2.transferId == Some(id)
      && l1.sourceAccount == l2.sourceAccount
      && l1.destinationAccount == l2.destinationAccount
      && l1 == t1.(transferId := l1.transferId, sourceAccount := l1.sourceAccount,
                   destinationAccount := l1.destinationAccount)
      && l2 == t2.(transferId := l2.transferId, sourceAccount := l2.sourceAccount,
                   destinationAccount := l2.destinationAccount)
  {
  }

  /** `createTransferRecord`: a copy of the (already linked) first leg, turned into a transfer. */
  function CreateTransferRecord(t1: Transaction, t2: Transaction): (m: Transaction)
    ensures m.ttype == Transfer && m.amount == Normalizer.Abs(t1.amount) && m.amount >= 0
    ensures m.date == t1.date && m.transferId == t1.transferId
    ensures m.description == MergedDescription(t1.description, t2.description)
    ensures m.sourceAccount == t1.sourceAccount && m.destinationAccount == t1.destinationAccount
    ensures m.category == t1.category && m.currency == t1.currency
    ensures m == t1.(ttype := m.ttype, amount := m.amount, description := m.description)
  {
    t1.(ttype := Transfer, amount := Normalizer.Abs(t1.amount),
        description := MergedDescription(t1.description, t2.description))
  }

  /** The state of the scan: the (mutated) input list, the emitted records, the next fresh id. */
  datatype Scan = Scan(legs: seq<Transaction>, out: seq<Transaction>, next: TransferId)

  /** The number of transactions from index `x` on that are not yet a leg of a transfer. */
  function Unlinked(s: seq<Transaction>, x: nat): nat
    requires x <= |s|
    decreases |s| - x
  {
    if x == |s| then 0 else (if s[x].transferId.None? then 1 else 0) + Unlinked(s, x + 1)
  }

  /**
   * One pass of the outer loop at index `x`: a transaction that is already a
   * leg is skipped; one without a partner is emitted as it is; one with a
   * partner is linked with it and replaced by the merged record.
   */
  function Step(s: seq<Transaction>, x: nat, out: seq<Transaction>, next: TransferId, similar: Search): (st: Scan)
    requires x < |s|
    ensures |st.legs| == |s| && |out| <= |st.out| <= |out| + 1 && st.out[..|out|] == out
    ensures next <= st.next <= next + 1
  {
    if s[x].transferId.Some? then Scan(s, out, next)
    else match FirstPartner(s, x, x + 1, similar)
      case None => Scan(s, out + [s[x]], next)
      case Some(y) =>
        var l1, l2 := LinkFirst(s[x], s[y], next), LinkSecond(s[x], s[y], next);
        Scan(s[x := l1][y := l2], out + [CreateTransferRecord(l1, l2)], next + 1)
  }

  /** The outer loop of `detectTransfers` from index `x`, as a function of its state. */
  function DetectFrom(s: seq<Transaction>, x: nat, out: seq<Transaction>, next: TransferId, similar: Search): Scan
    requires x <= |s|
    decreases |s| - x
  {
    if x == |s| then Scan(s, out, next)
    else
      var st := Step(s, x, out, next, similar);
      DetectFrom(st.legs, x + 1, st.out, st.next, similar)
  }

  function Detect(s: seq<Transaction>, next: TransferId, similar: Search): Scan {
    DetectFrom(s, 0, [], next, similar)
  }

  /** Writing a record at an index before `x` does not change the count from `x`. */
  lemma {:induction false} UnlinkedUpdateBefore(s: seq<Transaction>, x: nat, i: nat, v: Transaction)
    requires i < x <= |s|
    ensures Unlinked(s[i := v], x) == Unlinked(s, x)
    decreases |s| - x
  {
    if x < |s| {
      UnlinkedUpdateBefore(s, x + 1, i, v);
    }
  }

  /** Linking an unlinked record at or after `x` lowers the count from `x` by one. */
  lemma {:induction false} UnlinkedUpdateLink(s: seq<Transaction>, x: nat, y: nat, v: Transaction)
    requires x <= y < |s| && s[y].transferId.None? && v.transferId.Some?
    ensures Unlinked(s[y := v], x) == Unlinked(s, x) - 1
    decreases |s| - x
  {
    if x < y {
      UnlinkedUpdateLink(s, x + 1, y, v);
    } else {
      UnlinkedUpdateBefore(s, x + 1, y, v);
    }
  }

  /** A step emits a record for, or consumes an id with, every unlinked transaction it removes from the count. */
  lemma StepCount(s: seq<Transaction>, x: nat, out: seq<Transaction>, next: TransferId, similar: Search)
    requires x < |s|
    ensures var st := Step(s, x, out, next, similar);
      && (|st.out| - |out|) + (st.next - next) + Unlinked(st.legs, x + 1) == Unlinked(s, x)
      && 2 * (st.next - next) + Unlinked(st.legs, x + 1) <= Unlinked(s, x)
  {
    if s[x].transferId.None? {
      FirstPartnerUnlinked(s, x, x + 1, similar);
      match FirstPartner(s, x, x + 1, similar) {
        case None =>
        case Some(y) =>
          var l1, l2 := LinkFirst(s[x], s[y], next), LinkSecond(s[x], s[y], next);
          UnlinkedUpdateBefore(s, x + 1, x, l1);
          UnlinkedUpdateLink(s[x := l1], x + 1, y, l2);
      }
    }
  }

  /**
   * Counting: every unlinked transaction from `x` on is either emitted alone
   * or is one of the two legs of a merged record, and each merged record
   * consumes one id.
   */
  lemma {:induction false} DetectFromCount(s: seq<Transaction>, x: nat, out: seq<Transaction>, next: TransferId, similar: Search)
    requires x <= |s|
    ensures var r := DetectFrom(s, x, out, next, similar);
      && r.next >= next && |r.legs| == |s| && |r.out| >= |out|
      && (|r.out| - |out|) + (r.next - next) == Unlinked(s, x)
      && 2 * (r.next - next) <= Unlinked(s, x)
    decreases |s| - x
  {
    if x < |s| {
      var st := Step(s, x, out, next, similar);
      StepCount(s, x, out, next, similar);
      DetectFromCount(st.legs, x + 1, st.out, st.next, similar);
    }
  }

  /** Detection on the whole list: the emitted records and the pairs found together account for every unlinked input. */
  lemma DetectCount(s: seq<Transaction>, next: TransferId, similar: Search)
    ensures var r := Detect(s, next, similar);
      && |r.legs| == |s| && r.next >= next
      && |r.out| + (r.next - next) == Unlinked(s, 0)
      && 2 * (r.next - next) <= Unlinked(s, 0)
  {
    DetectFromCount(s, 0, [], next, similar);
  }

  /** Every id carried by a record of `out` lies below `next`, and they increase along `out`. */
  predicate IdsFresh(out: seq<Transaction>, next: TransferId) {
    && (forall k :: 0 <= k < |out| && out[k].transferId.Some? ==> out[k].transferId.value < next)
    && (forall i, j :: 0 <= i < j < |out| && out[i].transferId.Some? && out[j].transferId.Some? ==>
          out[i].transferId.value < out[j].transferId.value)
  }

  /** A step emits either a record without an id or one carrying the id it draws. */
  lemma StepIds(s: seq<Transaction>, x: nat, out: seq<Transaction>, next: TransferId, similar: Search)
    requires x < |s|
    requires IdsFresh(out, next)
    ensures var st := Step(s, x, out, next, similar); IdsFresh(st.out, st.next)
  {
    var st := Step(s, x, out, next, similar);
    if |st.out| > |out| {
      var m := st.out[|out|];
      assert st.out == out + [m];
      assert m.transferId.None? || (m.transferId == Some(next) && st.next == next + 1);
      assert forall k :: 0 <= k < |out| ==> st.out[k] == out[k];
    }
  }

  /** The ids of the emitted records stay below the counter and increasing. */
  lemma {:induction false} DetectFromIds(s: seq<Transaction>, x: nat, out: seq<Transaction>, next: TransferId, similar: Search)
    requires x <= |s|
    requires IdsFresh(out, next)
    ensures var r := DetectFrom(s, x, out, next, similar); IdsFresh(r.out, r.next)
    decreases |s| - x
  {
    if x < |s| {
      var st := Step(s, x, out, next, similar);
      StepIds(s, x, out, next, similar);
      DetectFromIds(st.legs, x + 1, st.out, st.next, similar);
    }
  }

  /** The records already emitted are kept and the id counter never goes back. */
  lemma {:induction false} DetectFromPrefix(s: seq<Transaction>, x: nat, out: seq<Transaction>, next: TransferId, similar: Search)
    requires x <= |s|
    ensures var r := DetectFrom(s, x, out, next, similar);
      |out| <= |r.out| && r.out[..|out|] == out && next <= r.next
    decreases |s| - x
  {
    if x < |s| {
      var st := Step(s, x, out, next, similar);
      DetectFromPrefix(st.legs, x + 1, st.out, st.next, similar);
      var r := DetectFrom(st.legs, x + 1, st.out, st.next, similar);
      assert r.out[..|out|] == r.out[..|st.out|][..|out|];
    }
  }

  /** A record already emitted stays where it is. */
  lemma DetectFromKeepsEmitted(s: seq<Transaction>, x: nat, out: seq<Transaction>, next: TransferId, similar: Search, k: nat)
    requires x <= |s| && k < |out|
    ensures var r := DetectFrom(s, x, out, next, similar); k < |r.out| && r.out[k] == out[k]
  {
    DetectFromPrefix(s, x, out, next, similar);
    var r := DetectFrom(s, x, out, next, similar);
    assert r.out[..|out|][k] == r.out[k];
  }

  /** A step emits an unlinked transaction of the list unchanged or a transfer record carrying the drawn id. */
  lemma StepEmitOrigin(s: seq<Transaction>, x: nat, out: seq<Transaction>, next: TransferId, similar: Search)
    requires x < |s|
    ensures var st := Step(s, x, out, next, similar);
      |st.out| > |out| ==>
        || (st.out[|out|].transferId.None? && st.out[|out|] in s)
        || (st.out[|out|].ttype == Transfer && st.out[|out|].transferId == Some(next))
  {
    if s[x].transferId.None? {
      FirstPartnerUnlinked(s, x, x + 1, similar);
    }
  }

  /** Every transaction a step leaves unlinked was in the list before it. */
  lemma StepLegsOrigin(s: seq<Transaction>, x: nat, out: seq<Transaction>, next: TransferId, similar: Search)
    requires x < |s|
    ensures forall t :: t in Step(s, x, out, next, similar).legs && t.transferId.None? ==> t in s
  {
    if s[x].transferId.None? {
      FirstPartnerUnlinked(s, x, x + 1, similar);
      match FirstPartner(s, x, x + 1, similar) {
        case None =>
        case Some(y) =>
          var l1, l2 := LinkFirst(s[x], s[y], next), LinkSecond(s[x], s[y], next);
          var s' := s[x := l1][y := l2];
          forall t | t in s' && t.transferId.None? ensures t in s {
            var i :| 0 <= i < |s'| && s'[i] == t;
            assert s[i] == t;
          }
      }
    }
  }

  /**
   * Each record of `emitted` after the prefix `out` is either an unlinked
   * transaction of `s`, unchanged, or a transfer record whose id is at least
   * `next`.
   */
  predicate EmittedFrom(s: seq<Transaction>, out: seq<Transaction>, emitted: seq<Transaction>, next: TransferId) {
    forall k :: |out| <= k < |emitted| ==>
      || (emitted[k].transferId.None? && emitted[k] in s)
      || (emitted[k].ttype == Transfer && emitted[k].transferId.Some? && next <= emitted[k].transferId.value)
  }

  /**
   * What is emitted: each new record is either an unlinked input transaction,
   * unchanged, or a transfer record whose id was drawn during the scan.
   */
  lemma {:induction false} DetectFromOrigin(s: seq<Transaction>, x: nat, out: seq<Transaction>, next: TransferId, similar: Search)
    requires x <= |s|
    ensures EmittedFrom(s, out, DetectFrom(s, x, out, next, similar).out, next)
    decreases |s| - x
  {
    if x < |s| {
      var st := Step(s, x, out, next, similar);
      DetectFromOrigin(st.legs, x + 1, st.out, st.next, similar);
      StepThenOrigin(s, x, out, next, similar);
      DetectFromStep(s, x, out, next, similar);
    }
  }

  /** The scan from `x` is one step followed by the scan from `x + 1`. */
  lemma DetectFromStep(s: seq<Transaction>, x: nat, out: seq<Transaction>, next: TransferId, similar: Search)
    requires x < |s|
    ensures var st := Step(s, x, out, next, similar);
      DetectFrom(s, x, out, next, similar) == DetectFrom(st.legs, x + 1, st.out, st.next, similar)
  {
  }

  /** What one step emits, followed by what the rest of the scan emits, is of the two kinds `EmittedFrom` names. */
  lemma StepThenOrigin(s: seq<Transaction>, x: nat, out: seq<Transaction>, next: TransferId, similar: Search)
    requires x < |s|
    requires var st := Step(s, x, out, next, similar);
      EmittedFrom(st.legs, st.out, DetectFrom(st.legs, x + 1, st.out, st.next, similar).out, st.next)
    ensures var st := Step(s, x, out, next, similar);
      EmittedFrom(s, out, DetectFrom(st.legs, x + 1, st.out, st.next, similar).out, next)
  {
    var st := Step(s, x, out, next, similar);
    var e := DetectFrom(st.legs, x + 1, st.out, st.next, similar).out;
    forall k | |out| <= k < |e|
      ensures || (e[k].transferId.None? && e[k] in s)
              || (e[k].ttype == Transfer && e[k].transferId.Some? && next <= e[k].transferId.value)
    {
      StepThenOriginAt(s, x, out, next, similar, k);
    }
  }

  /** `StepThenOrigin` for the record at index `k`. */
  lemma StepThenOriginAt(s: seq<Transaction>, x: nat, out: seq<Transaction>, next: TransferId, similar: Search, k: nat)
    requires x < |s|
    requires var st := Step(s, x, out, next, similar);
      EmittedFrom(st.legs, st.out, DetectFrom(st.legs, x + 1, st.out, st.next, similar).out, st.next)
    requires var st := Step(s, x, out, next, similar);
      |out| <= k < |DetectFrom(st.legs, x + 1, st.out, st.next, similar).out|
    ensures var st := Step(s, x, out, next, similar);
      var e := DetectFrom(st.legs, x + 1, st.out, st.next, similar).out;
      || (e[k].transferId.None? && e[k] in s)
      || (e[k].ttype == Transfer && e[k].transferId.Some? && next <= e[k].transferId.value)
  {
    if k < |Step(s, x, out, next, similar).out| {
      StepRecordOrigin(s, x, out, next, similar, k);
    } else {
      LaterRecordOrigin(s, x, out, next, similar, k);
    }
  }

  /** The record the step itself emitted. */
  lemma StepRecordOrigin(s: seq<Transaction>, x: nat, out: seq<Transaction>, next: TransferId, similar: Search, k: nat)
    requires x < |s|
    requires |out| <= k < |Step(s, x, out, next, similar).out|
    ensures var st := Step(s, x, out, next, similar);
      var e := DetectFrom(st.legs, x + 1, st.out, st.next, similar).out;
      && k < |e|
      && (|| (e[k].transferId.None? && e[k] in s)
          || (e[k].ttype == Transfer && e[k].transferId.Some? && next <= e[k].transferId.value))
  {
    var st := Step(s, x, out, next, similar);
    var e := DetectFrom(st.legs, x + 1, st.out, st.next, similar).out;
    StepEmitOrigin(s, x, out, next, similar);
    DetectFromKeepsEmitted(st.legs, x + 1, st.out, st.next, similar, k);
    assert e[k] == st.out[|out|];
  }

  /** A record emitted after the step. */
  lemma LaterRecordOrigin(s: seq<Transaction>, x: nat, out: seq<Transaction>, next: TransferId, similar: Search, k: nat)
    requires x < |s|
    requires var st := Step(s, x, out, next, similar);
      EmittedFrom(st.legs, st.out, DetectFrom(st.legs, x + 1, st.out, st.next, similar).out, st.next)
    requires var st := Step(s, x, out, next, similar);
      |st.out| <= k < |DetectFrom(st.legs, x + 1, st.out, st.next, similar).out|
    ensures var st := Step(s, x, out, next, similar);
      var e := DetectFrom(st.legs, x + 1, st.out, st.next, similar).out;
      || (e[k].transferId.None? && e[k] in s)
      || (e[k].ttype == Transfer && e[k].transferId.Some? && next <= e[k].transferId.value)
  {
    var st := Step(s, x, out, next, similar);
    var e := DetectFrom(st.legs, x + 1, st.out, st.next, similar).out;
    assert || (e[k].transferId.None? && e[k] in st.legs)
           || (e[k].ttype == Transfer && e[k].transferId.Some? && st.next <= e[k].transferId.value);
    StepLegsOrigin(s, x, out, next, similar);
  }

  /** Detection on the whole list: the output consists of unlinked inputs and transfer records with distinct fresh ids. */
  lemma DetectOutput(s: seq<Transaction>, next: TransferId, similar: Search)
    ensures var r := Detect(s, next, similar);
      && IdsFresh(r.out, r.next)
      && forall k :: 0 <= k < |r.out| ==>
           || (r.out[k].transferId.None? && r.out[k] in s)
           || (r.out[k].ttype == Transfer && r.out[k].transferId.Some? && next <= r.out[k].transferId.value < r.next)
  {
    DetectFromIds(s, 0, [], next, similar);
    DetectFromOrigin(s, 0, [], next, similar);
  }

  /** `u` has the date, amount, type and description of `t`. */
  predicate SameMovement(u: Transaction, t: Transaction) {
    u.date == t.date && u.amount == t.amount && u.ttype == t.ttype && u.description == t.description
  }

  /** Linking two unlinked legs changes neither their movements nor any other transaction. */
  lemma LinkKeepsLegs(s: seq<Transaction>, x: nat, y: nat, next: TransferId)
    requires x < y < |s| && s[x].transferId.None? && s[y].transferId.None?
    ensures var s' := s[x := LinkFirst(s[x], s[y], next)][y := LinkSecond(s[x], s[y], next)];
      forall i :: 0 <= i < |s| ==> SameMovement(s'[i], s[i]) && (s[i].transferId.Some? ==> s'[i] == s[i])
  {
    LinkedLegsAgree(s[x], s[y], next);
  }

  /** A step changes no date, amount, type or description, and leaves every leg already linked as it was. */
  lemma StepKeepsLegs(s: seq<Transaction>, x: nat, out: seq<Transaction>, next: TransferId, similar: Search)
    requires x < |s|
    ensures var st := Step(s, x, out, next, similar);
      forall i :: 0 <= i < |s| ==> SameMovement(st.legs[i], s[i]) && (s[i].transferId.Some? ==> st.legs[i] == s[i])
  {
    if s[x].transferId.None? {
      var p := FirstPartner(s, x, x + 1, similar);
      if p.Some? {
        FirstPartnerUnlinked(s, x, x + 1, similar);
        LinkKeepsLegs(s, x, p.value, next);
      }
    }
  }

  /** Dates never decrease along the list. */
  predicate SortedTx(s: seq<Transaction>) {
    forall i, j :: 0 <= i < j < |s| ==> s[i].date <= s[j].date
  }

  /** The dates of a list, in order. */
  function Dates(s: seq<Transaction>): (d: seq<int>)
    ensures |d| == |s| && forall i :: 0 <= i < |s| ==> d[i] == s[i].date
  {
    seq(|s|, i requires 0 <= i < |s| => s[i].date)
  }

  lemma StepKeepsDates(s: seq<Transaction>, x: nat, out: seq<Transaction>, next: TransferId, similar: Search)
    requires x < |s|
    ensures Dates(Step(s, x, out, next, similar).legs) == Dates(s)
  {
    StepKeepsLegs(s, x, out, next, similar);
  }

  /** Detection leaves every date in place, so a date-ordered list stays date-ordered. */
  lemma {:induction false} DetectFromKeepsDates(s: seq<Transaction>, x: nat, out: seq<Transaction>, next: TransferId, similar: Search)
    requires x <= |s|
    ensures Dates(DetectFrom(s, x, out, next, similar).legs) == Dates(s)
    decreases |s| - x
  {
    if x < |s| {
      var st := Step(s, x, out, next, similar);
      StepKeepsDates(s, x, out, next, similar);
      DetectFromKeepsDates(st.legs, x + 1, st.out, st.next, similar);
    }
  }

  /** A date-ordered list stays date-ordered through detection. */
  lemma DetectKeepsOrder(s: seq<Transaction>, next: TransferId, similar: Search)
    requires SortedTx(s)
    ensures SortedTx(Detect(s, next, similar).legs)
  {
    var r := Detect(s, next, similar);
    DetectFromKeepsDates(s, 0, [], next, similar);
    forall i, j | 0 <= i < j < |r.legs| ensures r.legs[i].date <= r.legs[j].date {
      assert Dates(r.legs)[i] == Dates(s)[i] && Dates(r.legs)[j] == Dates(s)[j];
    }
  }

  /** The records of `q` that are not legs of a transfer, in their order. */
  function Unpaired(q: seq<Transaction>): seq<Transaction> {
    if q == [] then []
    else Unpaired(q[..|q| - 1]) + (if q[|q| - 1].transferId.None? then [q[|q| - 1]] else [])
  }

  lemma UnpairedSnoc(q: seq<Transaction>, t: Transaction)
    ensures Unpaired(q + [t]) == Unpaired(q) + (if t.transferId.None? then [t] else [])
  {
    assert (q + [t])[..|q|] == q;
  }

  /** `m` is the merged record of the legs `legs[i]` and `legs[j]`, `i < j`, which both carry its id. */
  predicate MergedAt(m: Transaction, legs: seq<Transaction>, i: int, j: int) {
    && 0 <= i < j < |legs| && legs[i].transferId == m.transferId && legs[j].transferId == m.transferId
    && m == CreateTransferRecord(legs[i], legs[j])
  }

  /** `m` is the merged record of two legs of `legs` that both carry its id. */
  predicate MergedFrom(m: Transaction, legs: seq<Transaction>) {
    exists i, j {:trigger MergedAt(m, legs, i, j)} :: 0 <= i < j < |legs| && MergedAt(m, legs, i, j)
  }

  /** The merged record of two linked legs survives any change that leaves linked legs alone. */
  lemma MergedFromKept(m: Transaction, s: seq<Transaction>, s': seq<Transaction>)
    requires |s'| == |s| && m.transferId.Some? && MergedFrom(m, s)
    requires forall i :: 0 <= i < |s| && s[i].transferId.Some? ==> s'[i] == s[i]
    ensures MergedFrom(m, s')
  {
    var i, j :| 0 <= i < j < |s| && MergedAt(m, s, i, j);
    assert s'[i] == s[i] && s'[j] == s[j];
    assert MergedAt(m, s', i, j);
  }

  /**
   * What the records emitted before index `x` are: the unlinked transactions
   * before `x`, in order, and a merged record for each pair linked so far.
   */
  predicate EmittedSoFar(s: seq<Transaction>, x: nat, out: seq<Transaction>)
    requires x <= |s|
  {
    && Unpaired(out) == Unpaired(s[..x])
    && forall k :: 0 <= k < |out| && out[k].transferId.Some? ==> MergedFrom(out[k], s)
  }

  /** A step changes only unlinked transactions, and only by linking them. */
  lemma StepKeepsUnlinked(s: seq<Transaction>, x: nat, out: seq<Transaction>, next: TransferId, similar: Search)
    requires x < |s|
    ensures var st := Step(s, x, out, next, similar);
      forall i :: 0 <= i < |s| && st.legs[i].transferId.None? ==> st.legs[i] == s[i]
  {
    if s[x].transferId.None? {
      var p := FirstPartner(s, x, x + 1, similar);
      if p.Some? {
        var y := p.value;
        var l1, l2 := LinkFirst(s[x], s[y], next), LinkSecond(s[x], s[y], next);
        LinkedLegsAgree(s[x], s[y], next);
        var s' := s[x := l1][y := l2];
        assert Step(s, x, out, next, similar).legs == s';
        forall i | 0 <= i < |s| && s'[i].transferId.None? ensures s'[i] == s[i] {
          assert i != x && i != y;
        }
      }
    }
  }

  /** An already linked transaction is skipped: nothing is emitted for it. */
  lemma EmitSkip(s: seq<Transaction>, x: nat, out: seq<Transaction>)
    requires x < |s| && s[x].transferId.Some? && EmittedSoFar(s, x, out)
    ensures EmittedSoFar(s, x + 1, out)
  {
    assert s[..x + 1] == s[..x] + [s[x]];
    UnpairedSnoc(s[..x], s[x]);
  }

  /** An unlinked transaction without a partner is emitted as it is. */
  lemma EmitAlone(s: seq<Transaction>, x: nat, out: seq<Transaction>)
    requires x < |s| && s[x].transferId.None? && EmittedSoFar(s, x, out)
    ensures EmittedSoFar(s, x + 1, out + [s[x]])
  {
    assert s[..x + 1] == s[..x] + [s[x]];
    UnpairedSnoc(s[..x], s[x]);
    UnpairedSnoc(out, s[x]);
    var out' := out + [s[x]];
    forall k | 0 <= k < |out'| && out'[k].transferId.Some? ensures MergedFrom(out'[k], s) {
      assert out'[k] == out[k];
    }
  }

  /** A confirmed pair is linked in place and its merged record is emitted. */
  lemma EmitPair(s: seq<Transaction>, x: nat, y: nat, out: seq<Transaction>, next: TransferId)
    requires x < y < |s| && s[x].transferId.None? && s[y].transferId.None? && EmittedSoFar(s, x, out)
    ensures var s' := s[x := LinkFirst(s[x], s[y], next)][y := LinkSecond(s[x], s[y], next)];
      EmittedSoFar(s', x + 1, out + [CreateTransferRecord(s'[x], s'[y])])
  {
    var l1, l2 := LinkFirst(s[x], s[y], next), LinkSecond(s[x], s[y], next);
    var s' := s[x := l1][y := l2];
    LinkedLegsAgree(s[x], s[y], next);
    assert s'[x] == l1 && s'[y] == l2;
    EmitPairUnpaired(s, x, y, l1, l2, out);
    EmitPairMerged(s, x, y, l1, l2, out);
  }

  /** Linking the pair adds no record without an id, on either side. */
  lemma EmitPairUnpaired(s: seq<Transaction>, x: nat, y: nat, l1: Transaction, l2: Transaction, out: seq<Transaction>)
    requires x < y < |s| && l1.transferId.Some? && l2.transferId.Some?
    requires Unpaired(out) == Unpaired(s[..x])
    ensures Unpaired(out + [CreateTransferRecord(l1, l2)]) == Unpaired(s[x := l1][y := l2][..x + 1])
  {
    UpdatePrefix(s, x, y, l1, l2);
    UnpairedSnoc(s[..x], l1);
    UnpairedSnoc(out, CreateTransferRecord(l1, l2));
  }

  /** After linking the pair every emitted record with an id, the new one included, is merged from two legs. */
  lemma EmitPairMerged(s: seq<Transaction>, x: nat, y: nat, l1: Transaction, l2: Transaction, out: seq<Transaction>)
    requires x < y < |s| && s[x].transferId.None? && s[y].transferId.None?
    requires l1.transferId.Some? && l2.transferId == l1.transferId
    requires forall k :: 0 <= k < |out| && out[k].transferId.Some? ==> MergedFrom(out[k], s)
    ensures var out' := out + [CreateTransferRecord(l1, l2)];
      forall k :: 0 <= k < |out'| && out'[k].transferId.Some? ==> MergedFrom(out'[k], s[x := l1][y := l2])
  {
    var s' := s[x := l1][y := l2];
    var out' := out + [CreateTransferRecord(l1, l2)];
    PairMergedFrom(s, x, y, l1, l2);
    KeptMergedFrom(s, x, y, l1, l2, out);
    MergedSnoc(out, CreateTransferRecord(l1, l2), s');
  }

  lemma MergedFromSame(m: Transaction, m': Transaction, s: seq<Transaction>)
    requires m == m' && MergedFrom(m, s)
    ensures MergedFrom(m', s)
  {
  }

  /** Appending a record merged from two legs keeps every record with an id merged from two legs. */
  lemma MergedSnoc(out: seq<Transaction>, m: Transaction, s: seq<Transaction>)
    requires forall k :: 0 <= k < |out| && out[k].transferId.Some? ==> MergedFrom(out[k], s)
    requires MergedFrom(m, s)
    ensures forall k :: 0 <= k < |out + [m]| && (out + [m])[k].transferId.Some? ==> MergedFrom((out + [m])[k], s)
  {
    forall k | 0 <= k < |out + [m]| && (out + [m])[k].transferId.Some? ensures MergedFrom((out + [m])[k], s) {
      var r := if k < |out| then out[k] else m;
      assert (out + [m])[k] == r;
      MergedFromSame(r, (out + [m])[k], s);
    }
  }

  /** The merged record of the pair is merged from its two legs in the updated list. */
  lemma PairMergedFrom(s: seq<Transaction>, x: nat, y: nat, l1: Transaction, l2: Transaction)
    requires x < y < |s| && l1.transferId.Some? && l2.transferId == l1.transferId
    ensures MergedFrom(CreateTransferRecord(l1, l2), s[x := l1][y := l2])
  {
    var s' := s[x := l1][y := l2];
    var m := CreateTransferRecord(l1, l2);
    assert s'[x] == l1 && s'[y] == l2;
    assert MergedAt(m, s', x, y);
  }

  /** Records merged from legs before the pair was linked are still merged from them. */
  lemma KeptMergedFrom(s: seq<Transaction>, x: nat, y: nat, l1: Transaction, l2: Transaction, out: seq<Transaction>)
    requires x < y < |s| && s[x].transferId.None? && s[y].transferId.None?
    requires forall k :: 0 <= k < |out| && out[k].transferId.Some? ==> MergedFrom(out[k], s)
    ensures forall k :: 0 <= k < |out| && out[k].transferId.Some? ==> MergedFrom(out[k], s[x := l1][y := l2])
  {
    LinkKeepsLinked(s, x, y, l1, l2);
    forall k | 0 <= k < |out| && out[k].transferId.Some? ensures MergedFrom(out[k], s[x := l1][y := l2]) {
      MergedFromKept(out[k], s, s[x := l1][y := l2]);
    }
  }

  /** Writing two later indices leaves the prefix up to the first one alone. */
  lemma UpdatePrefix<T>(s: seq<T>, x: nat, y: nat, a: T, b: T)
    requires x < y < |s|
    ensures s[x := a][y := b][..x + 1] == s[..x] + [a]
  {
  }

  /** Linking two unlinked transactions leaves every linked one as it was. */
  lemma LinkKeepsLinked(s: seq<Transaction>, x: nat, y: nat, l1: Transaction, l2: Transaction)
    requires x < y < |s| && s[x].transferId.None? && s[y].transferId.None?
    ensures forall i :: 0 <= i < |s| && s[i].transferId.Some? ==> s[x := l1][y := l2][i] == s[i]
  {
  }

  lemma StepEmits(s: seq<Transaction>, x: nat, out: seq<Transaction>, next: TransferId, similar: Search)
    requires x < |s| && EmittedSoFar(s, x, out)
    ensures var st := Step(s, x, out, next, similar); EmittedSoFar(st.legs, x + 1, st.out)
  {
    if s[x].transferId.Some? {
      EmitSkip(s, x, out);
    } else {
      var p := FirstPartner(s, x, x + 1, similar);
      if p.None? {
        EmitAlone(s, x, out);
      } else {
        FirstPartnerUnlinked(s, x, x + 1, similar);
        EmitPair(s, x, p.value, out, next);
      }
    }
  }

  lemma {:induction false} DetectFromEmits(s: seq<Transaction>, x: nat, out: seq<Transaction>, next: TransferId, similar: Search)
    requires x <= |s| && EmittedSoFar(s, x, out)
    ensures var r := DetectFrom(s, x, out, next, similar); |r.legs| == |s| && EmittedSoFar(r.legs, |s|, r.out)
    decreases |s| - x
  {
    if x < |s| {
      var st := Step(s, x, out, next, similar);
      StepEmits(s, x, out, next, similar);
      DetectFromEmits(st.legs, x + 1, st.out, st.next, similar);
    }
  }

  /** Every transaction of `s` that is unlinked is the transaction of `s0` at its index. */
  predicate UnlinkedAsIn(s0: seq<Transaction>, s: seq<Transaction>) {
    |s| == |s0| && forall i :: 0 <= i < |s| && s[i].transferId.None? ==> s[i] == s0[i]
  }

  lemma {:induction false} DetectFromKeepsUnlinked(s0: seq<Transaction>, s: seq<Transaction>, x: nat, out: seq<Transaction>, next: TransferId, similar: Search)
    requires x <= |s| && UnlinkedAsIn(s0, s)
    ensures UnlinkedAsIn(s0, DetectFrom(s, x, out, next, similar).legs)
    decreases |s| - x
  {
    if x < |s| {
      var st := Step(s, x, out, next, similar);
      StepUnlinkedAsIn(s0, s, x, out, next, similar);
      DetectFromKeepsUnlinked(s0, st.legs, x + 1, st.out, st.next, similar);
    }
  }

  /** A step keeps every transaction that is still unlinked as it was in the input. */
  lemma StepUnlinkedAsIn(s0: seq<Transaction>, s: seq<Transaction>, x: nat, out: seq<Transaction>, next: TransferId, similar: Search)
    requires x < |s| && UnlinkedAsIn(s0, s)
    ensures UnlinkedAsIn(s0, Step(s, x, out, next, similar).legs)
  {
    var legs := Step(s, x, out, next, similar).legs;
    StepKeepsUnlinked(s, x, out, next, similar);
    UnlinkedAsInTrans(s0, s, legs);
  }

  lemma UnlinkedAsInTrans(s0: seq<Transaction>, s: seq<Transaction>, s': seq<Transaction>)
    requires UnlinkedAsIn(s0, s) && |s'| == |s|
    requires forall i :: 0 <= i < |s| && s'[i].transferId.None? ==> s'[i] == s[i]
    ensures UnlinkedAsIn(s0, s')
  {
  }

  /**
   * The records emitted before index `x` are date-ordered, and none is later
   * than a transaction from `x` on.
   */
  predicate OrderedSoFar(s: seq<Transaction>, x: nat, out: seq<Transaction>)
    requires x <= |s|
  {
    && SortedTx(s) && SortedTx(out)
    && forall k, i :: 0 <= k < |out| && x <= i < |s| ==> out[k].date <= s[i].date
  }

  /** Emitting a record dated as `s[x]`, with no date of the list changed, keeps the order. */
  lemma OrderEmit(s: seq<Transaction>, x: nat, out: seq<Transaction>, m: Transaction, s': seq<Transaction>)
    requires x < |s| && OrderedSoFar(s, x, out) && m.date == s[x].date
    requires |s'| == |s| && forall i :: 0 <= i < |s| ==> s'[i].date == s[i].date
    ensures OrderedSoFar(s', x + 1, out + [m])
  {
  }

  lemma StepOrdered(s: seq<Transaction>, x: nat, out: seq<Transaction>, next: TransferId, similar: Search)
    requires x < |s| && OrderedSoFar(s, x, out)
    ensures var st := Step(s, x, out, next, similar); OrderedSoFar(st.legs, x + 1, st.out)
  {
    var st := Step(s, x, out, next, similar);
    if s[x].transferId.None? {
      StepKeepsLegs(s, x, out, next, similar);
      var p := FirstPartner(s, x, x + 1, similar);
      if p.None? {
        OrderEmit(s, x, out, s[x], s);
      } else {
        // the merged record carries the date of its first leg
        var m := st.out[|out|];
        assert st.out == out + [m] && m.date == s[x].date;
        OrderEmit(s, x, out, m, st.legs);
      }
    }
  }

  lemma {:induction false} DetectFromOrdered(s: seq<Transaction>, x: nat, out: seq<Transaction>, next: TransferId, similar: Search)
    requires x <= |s| && OrderedSoFar(s, x, out)
    ensures var r := DetectFrom(s, x, out, next, similar); |r.legs| == |s| && SortedTx(r.out)
    decreases |s| - x
  {
    if x < |s| {
      var st := Step(s, x, out, next, similar);
      StepOrdered(s, x, out, next, similar);
      DetectFromOrdered(st.legs, x + 1, st.out, st.next, similar);
    }
  }

  /**
   * Which records detection emits, and where. The emitted records without an
   * id are exactly the transactions left unlinked, unchanged from the input
   * and in input order, so the second leg of a pair is never emitted; every
   * other emitted record is the merged record of its two legs, the earlier
   * one first; and on a date-ordered list the records come out date-ordered.
   * Where each record stands is stated by `DetectInIndexOrder`.
   */
  lemma DetectEmits(s: seq<Transaction>, next: TransferId, similar: Search)
    ensures var r := Detect(s, next, similar);
      && |r.legs| == |s|
      && Unpaired(r.out) == Unpaired(r.legs)
      && (forall i :: 0 <= i < |s| && r.legs[i].transferId.None? ==> r.legs[i] == s[i])
      && (forall k :: 0 <= k < |r.out| && r.out[k].transferId.Some? ==> MergedFrom(r.out[k], r.legs))
      && (SortedTx(s) ==> SortedTx(r.out))
  {
    var r := Detect(s, next, similar);
    DetectFromEmits(s, 0, [], next, similar);
    assert r.legs[..|s|] == r.legs;
    DetectFromKeepsUnlinked(s, s, 0, [], next, similar);
    assert UnlinkedAsIn(s, r.legs);
    if SortedTx(s) {
      DetectFromOrdered(s, 0, [], next, similar);
    }
  }

  /** `legs[k]` was unlinked in the input `s0` and now carries the id of `legs[x]`. */
  predicate SameLeg(s0: seq<Transaction>, legs: seq<Transaction>, x: nat, k: nat)
    requires |s0| == |legs| && x < |legs| && k < |legs|
  {
    s0[k].transferId.None? && legs[k].transferId == legs[x].transferId
  }

  /** The first index from `j` on that is `SameLeg` with `x`: the later leg of `legs[x]`'s pair. */
  function OtherLeg(s0: seq<Transaction>, legs: seq<Transaction>, x: nat, j: nat): (r: Option<nat>)
    requires |s0| == |legs| && x < |legs| && j <= |legs|
    ensures r.Some? ==> j <= r.value < |legs| && SameLeg(s0, legs, x, r.value)
    ensures r.Some? ==> forall k :: j <= k < r.value ==> !SameLeg(s0, legs, x, k)
    ensures r.None? ==> forall k :: j <= k < |legs| ==> !SameLeg(s0, legs, x, k)
    decreases |legs| - j
  {
    if j == |legs| then None
    else if SameLeg(s0, legs, x, j) then Some(j)
    else OtherLeg(s0, legs, x, j + 1)
  }

  /**
   * What detection emits for index `x`, judged from the input `s0` and the
   * final list `legs`: a transaction left unlinked as it is; for the first
   * leg of a pair formed during the scan, the merged record of the pair;
   * nothing for a second leg or for a transaction linked before the scan.
   */
  function EmitAt(s0: seq<Transaction>, legs: seq<Transaction>, x: nat): seq<Transaction>
    requires |s0| == |legs| && x < |legs|
  {
    if legs[x].transferId.None? then [legs[x]]
    else if s0[x].transferId.Some? then []
    else match OtherLeg(s0, legs, x, x + 1)
      case Some(j) => [CreateTransferRecord(legs[x], legs[j])]
      case None => []
  }

  /** The records emitted for the indices below `n`, in index order. */
  function Emission(s0: seq<Transaction>, legs: seq<Transaction>, n: nat): seq<Transaction>
    requires |s0| == |legs| && n <= |legs|
  {
    if n == 0 then [] else Emission(s0, legs, n - 1) + EmitAt(s0, legs, n - 1)
  }

  /** A transaction linked in the input `s0` is still linked in `s`. */
  predicate KeptLinked(s0: seq<Transaction>, s: seq<Transaction>)
    requires |s0| == |s|
  {
    forall i :: 0 <= i < |s| && s0[i].transferId.Some? ==> s[i].transferId.Some?
  }

  /** `s[i]` carries an id written during the scan: it was unlinked in the input `s0`. */
  predicate WrittenId(s0: seq<Transaction>, s: seq<Transaction>, i: int)
    requires |s0| == |s|
  {
    0 <= i < |s| && s0[i].transferId.None? && s[i].transferId.Some?
  }

  /** Every id written into `s` over the input `s0` is below `next`. */
  predicate IdsBelow(s0: seq<Transaction>, s: seq<Transaction>, next: TransferId)
    requires |s0| == |s|
  {
    forall i {:trigger WrittenId(s0, s, i)} :: 0 <= i < |s| && WrittenId(s0, s, i) ==> s[i].transferId.value < next
  }

  /** From index `x` on, no two ids written into `s` over the input `s0` are equal. */
  predicate IdsDistinctFrom(s0: seq<Transaction>, s: seq<Transaction>, x: nat)
    requires |s0| == |s|
  {
    forall i, j {:trigger WrittenId(s0, s, i), WrittenId(s0, s, j)} ::
      x <= i < j < |s| && WrittenId(s0, s, i) && WrittenId(s0, s, j) ==> s[i].transferId != s[j].transferId
  }

  /**
   * The state of the scan before index `x`, measured against the input `s0`:
   * a transaction linked in the input stays linked; every id written during
   * the scan is below `next`; from `x` on no two legs written during the scan
   * share an id; and the records emitted so far are the emission of the
   * indices below `x`.
   */
  predicate ScanAgrees(s0: seq<Transaction>, s: seq<Transaction>, x: nat, out: seq<Transaction>, next: TransferId)
    requires |s0| == |s| && x <= |s|
  {
    KeptLinked(s0, s) && IdsBelow(s0, s, next) && IdsDistinctFrom(s0, s, x) && out == Emission(s0, s, x)
  }

  /**
   * `s'` is `s` with some unlinked transactions linked under `next`: linked
   * transactions are kept, and no other id is written.
   */
  predicate LinkedUnder(s: seq<Transaction>, s': seq<Transaction>, next: TransferId) {
    && |s'| == |s|
    && (forall k :: 0 <= k < |s| && s[k].transferId.Some? ==> s'[k] == s[k])
    && (forall k :: 0 <= k < |s| && s[k].transferId.None? ==> s'[k].transferId.None? || s'[k].transferId == Some(next))
  }

  /** The other leg of a linked index does not move when only unlinked indices are written, with another id. */
  lemma {:induction false} OtherLegFrame(s0: seq<Transaction>, s: seq<Transaction>, s': seq<Transaction>, x: nat, j: nat, v: TransferId)
    requires |s0| == |s| == |s'| && x < |s| && j <= |s|
    requires s[x].transferId == Some(v) && s'[x].transferId == Some(v)
    requires forall k :: 0 <= k < |s| && s[k].transferId.Some? ==> s'[k] == s[k]
    requires forall k :: 0 <= k < |s| && s[k].transferId.None? ==> s'[k].transferId != Some(v)
    ensures OtherLeg(s0, s', x, j) == OtherLeg(s0, s, x, j)
    decreases |s| - j
  {
    if j < |s| {
      assert SameLeg(s0, s', x, j) == SameLeg(s0, s, x, j);
      OtherLegFrame(s0, s, s', x, j + 1, v);
    }
  }

  /**
   * The emission for an index is untouched by a write that links unlinked
   * transactions under a new id `next`, above every id written so far.
   */
  lemma EmitAtFrame(s0: seq<Transaction>, s: seq<Transaction>, s': seq<Transaction>, i: nat, next: TransferId)
    requires |s0| == |s| && i < |s| && LinkedUnder(s, s', next) && s'[i] == s[i] && IdsBelow(s0, s, next)
    ensures EmitAt(s0, s', i) == EmitAt(s0, s, i)
  {
    if s[i].transferId.Some? && s0[i].transferId.None? {
      var v := s[i].transferId.value;
      assert WrittenId(s0, s, i);
      OtherLegFrame(s0, s, s', i, i + 1, v);
      match OtherLeg(s0, s, i, i + 1) {
        case None =>
        case Some(j) => assert s'[j] == s[j];
      }
    }
  }

  /** Two lists whose emissions agree index by index below `n` have the same emission below `n`. */
  lemma {:induction false} EmissionFrame(s0: seq<Transaction>, s: seq<Transaction>, s': seq<Transaction>, n: nat)
    requires |s0| == |s| == |s'| && n <= |s|
    requires forall i :: 0 <= i < n ==> EmitAt(s0, s', i) == EmitAt(s0, s, i)
    ensures Emission(s0, s', n) == Emission(s0, s, n)
    decreases n
  {
    if n > 0 {
      EmissionFrame(s0, s, s', n - 1);
      assert EmitAt(s0, s', n - 1) == EmitAt(s0, s, n - 1);
    }
  }

  /** A write under `next` that keeps the indices below `n` keeps their emission. */
  lemma EmitBelowFrame(s0: seq<Transaction>, s: seq<Transaction>, s': seq<Transaction>, n: nat, next: TransferId)
    requires |s0| == |s| && n <= |s| && LinkedUnder(s, s', next) && IdsBelow(s0, s, next)
    requires forall i :: 0 <= i < n ==> s'[i] == s[i]
    ensures Emission(s0, s', n) == Emission(s0, s, n)
  {
    forall i | 0 <= i < n ensures EmitAt(s0, s', i) == EmitAt(s0, s, i) {
      EmitAtFrame(s0, s, s', i, next);
    }
    EmissionFrame(s0, s, s', n);
  }

  /** A transaction already linked when the scan reaches it adds nothing. */
  lemma ScanSkip(s0: seq<Transaction>, s: seq<Transaction>, x: nat, out: seq<Transaction>, next: TransferId)
    requires |s0| == |s| && x < |s| && s[x].transferId.Some? && ScanAgrees(s0, s, x, out, next)
    ensures ScanAgrees(s0, s, x + 1, out, next)
  {
    if s0[x].transferId.None? {
      assert WrittenId(s0, s, x);
      forall k | x < k < |s| ensures !SameLeg(s0, s, x, k) {
        if s0[k].transferId.None? && s[k].transferId.Some? {
          assert WrittenId(s0, s, k);
        }
      }
      assert OtherLeg(s0, s, x, x + 1).None?;
    }
    assert EmitAt(s0, s, x) == [];
  }

  /** An unlinked transaction without a partner is emitted as it is. */
  lemma ScanAlone(s0: seq<Transaction>, s: seq<Transaction>, x: nat, out: seq<Transaction>, next: TransferId)
    requires |s0| == |s| && x < |s| && s[x].transferId.None? && ScanAgrees(s0, s, x, out, next)
    ensures ScanAgrees(s0, s, x + 1, out + [s[x]], next)
  {
    assert EmitAt(s0, s, x) == [s[x]];
  }

  /** After a pair is linked under `next`, the later leg is the other leg of the earlier one. */
  lemma PairOtherLeg(s0: seq<Transaction>, s: seq<Transaction>, s': seq<Transaction>, x: nat, y: nat, next: TransferId)
    requires |s0| == |s| == |s'| && x < y < |s| && s0[y].transferId.None?
    requires s'[x].transferId == Some(next) && s'[y].transferId == Some(next)
    requires forall k :: x < k < y ==> s'[k] == s[k]
    requires IdsBelow(s0, s, next)
    ensures OtherLeg(s0, s', x, x + 1) == Some(y)
  {
    assert SameLeg(s0, s', x, y);
    forall k | x < k < y ensures !SameLeg(s0, s', x, k) {
      assert s'[k] == s[k];
      if s0[k].transferId.None? && s[k].transferId.Some? {
        assert WrittenId(s0, s, k);
      }
    }
  }

  /** Linking a pair under `next` keeps the facts about ids the scan relies on. */
  lemma PairIds(s0: seq<Transaction>, s: seq<Transaction>, s': seq<Transaction>, x: nat, y: nat, next: TransferId)
    requires |s0| == |s| == |s'| && x < y < |s|
    requires s'[x].transferId == Some(next) && s'[y].transferId == Some(next)
    requires forall k :: 0 <= k < |s| && k != x && k != y ==> s'[k] == s[k]
    requires KeptLinked(s0, s) && IdsBelow(s0, s, next) && IdsDistinctFrom(s0, s, x)
    ensures KeptLinked(s0, s') && IdsBelow(s0, s', next + 1) && IdsDistinctFrom(s0, s', x + 1)
  {
    forall i | 0 <= i < |s| && WrittenId(s0, s', i) ensures s'[i].transferId.value < next + 1 {
      if i != x && i != y {
        assert WrittenId(s0, s, i);
      }
    }
    forall i, j | x + 1 <= i < j < |s| && WrittenId(s0, s', i) && WrittenId(s0, s', j)
      ensures s'[i].transferId != s'[j].transferId
    {
      if i != y && j != y {
        assert WrittenId(s0, s, i) && WrittenId(s0, s, j);
      } else if i == y {
        assert WrittenId(s0, s, j);
      } else {
        assert WrittenId(s0, s, i);
      }
    }
  }

  /** Linking an unlinked pair in place is a write under `next` that keeps every index other than the two. */
  lemma PairWrite(s: seq<Transaction>, x: nat, y: nat, next: TransferId)
    requires x < y < |s| && s[x].transferId.None? && s[y].transferId.None?
    ensures var s' := s[x := LinkFirst(s[x], s[y], next)][y := LinkSecond(s[x], s[y], next)];
      && LinkedUnder(s, s', next)
      && s'[x].transferId == Some(next) && s'[y].transferId == Some(next)
      && forall k :: 0 <= k < |s| && k != x && k != y ==> s'[k] == s[k]
  {
    LinkedLegsAgree(s[x], s[y], next);
  }

  /** A confirmed pair is linked in place and its merged record is emitted at the first leg's index. */
  lemma ScanPair(s0: seq<Transaction>, s: seq<Transaction>, x: nat, y: nat, out: seq<Transaction>, next: TransferId)
    requires |s0| == |s| && x < y < |s| && s[x].transferId.None? && s[y].transferId.None?
    requires ScanAgrees(s0, s, x, out, next)
    ensures var s' := s[x := LinkFirst(s[x], s[y], next)][y := LinkSecond(s[x], s[y], next)];
      ScanAgrees(s0, s', x + 1, out + [CreateTransferRecord(s'[x], s'[y])], next + 1)
  {
    var s' := s[x := LinkFirst(s[x], s[y], next)][y := LinkSecond(s[x], s[y], next)];
    PairWrite(s, x, y, next);
    assert s0[x].transferId.None? && s0[y].transferId.None?;
    PairIds(s0, s, s', x, y, next);
    PairEmission(s0, s, s', x, y, out, next);
  }

  /** Linking the pair at `x` and `y` appends its merged record to what the indices before `x` emit. */
  lemma PairEmission(s0: seq<Transaction>, s: seq<Transaction>, s': seq<Transaction>, x: nat, y: nat, out: seq<Transaction>, next: TransferId)
    requires |s0| == |s| && x < y < |s| && s0[x].transferId.None? && s0[y].transferId.None?
    requires LinkedUnder(s, s', next) && s'[x].transferId == Some(next) && s'[y].transferId == Some(next)
    requires forall k :: 0 <= k < |s| && k != x && k != y ==> s'[k] == s[k]
    requires IdsBelow(s0, s, next) && out == Emission(s0, s, x)
    ensures Emission(s0, s', x + 1) == out + [CreateTransferRecord(s'[x], s'[y])]
  {
    PairOtherLeg(s0, s, s', x, y, next);
    EmitFirstLeg(s0, s', x, y);
    EmitBelowFrame(s0, s, s', x, next);
  }

  /** The first leg of a pair formed by the scan emits the pair's merged record. */
  lemma EmitFirstLeg(s0: seq<Transaction>, legs: seq<Transaction>, x: nat, y: nat)
    requires |s0| == |legs| && x < y < |legs|
    requires legs[x].transferId.Some? && s0[x].transferId.None? && OtherLeg(s0, legs, x, x + 1) == Some(y)
    ensures EmitAt(s0, legs, x) == [CreateTransferRecord(legs[x], legs[y])]
  {
  }

  lemma StepAgrees(s0: seq<Transaction>, s: seq<Transaction>, x: nat, out: seq<Transaction>, next: TransferId, similar: Search)
    requires |s0| == |s| && x < |s| && ScanAgrees(s0, s, x, out, next)
    ensures var st := Step(s, x, out, next, similar);
      |st.legs| == |s| && ScanAgrees(s0, st.legs, x + 1, st.out, st.next)
  {
    if s[x].transferId.Some? {
      ScanSkip(s0, s, x, out, next);
    } else {
      var p := FirstPartner(s, x, x + 1, similar);
      if p.None? {
        ScanAlone(s0, s, x, out, next);
      } else {
        FirstPartnerUnlinked(s, x, x + 1, similar);
        ScanPair(s0, s, x, p.value, out, next);
      }
    }
  }

  /** One step of the scan leaves what the rest of it emits unchanged. */
  lemma DetectFromUnfold(s0: seq<Transaction>, s: seq<Transaction>, x: nat, out: seq<Transaction>, next: TransferId, similar: Search)
    requires |s0| == |s| && x < |s|
    requires var st := Step(s, x, out, next, similar);
      var r := DetectFrom(st.legs, x + 1, st.out, st.next, similar);
      |r.legs| == |st.legs| && r.out == Emission(s0, r.legs, |st.legs|)
    ensures var r := DetectFrom(s, x, out, next, similar);
      |r.legs| == |s| && r.out == Emission(s0, r.legs, |s|)
  {
  }

  /** At the end of the scan the records emitted so far are all of them. */
  lemma DetectFromEnd(s0: seq<Transaction>, s: seq<Transaction>, out: seq<Transaction>, next: TransferId, similar: Search)
    requires |s0| == |s| && out == Emission(s0, s, |s|)
    ensures var r := DetectFrom(s, |s|, out, next, similar);
      |r.legs| == |s| && r.out == Emission(s0, r.legs, |s|)
  {
  }

  /** The scan after one more step emits in index order (mutually recursive with `DetectFromAgrees`). */
  lemma {:induction false} DetectRestAgrees(s0: seq<Transaction>, s: seq<Transaction>, x: nat, out: seq<Transaction>, next: TransferId, similar: Search)
    requires |s0| == |s| && x < |s| && ScanAgrees(s0, s, x, out, next)
    ensures var st := Step(s, x, out, next, similar);
      var r := DetectFrom(st.legs, x + 1, st.out, st.next, similar);
      |r.legs| == |st.legs| && r.out == Emission(s0, r.legs, |st.legs|)
    decreases |s| - x, 0
  {
    var st := Step(s, x, out, next, similar);
    StepAgrees(s0, s, x, out, next, similar);
    DetectFromAgrees(s0, st.legs, x + 1, st.out, st.next, similar);
  }

  /** A scan from `x` on that starts in agreement with index-order emission ends in it. */
  lemma {:induction false} DetectFromAgrees(s0: seq<Transaction>, s: seq<Transaction>, x: nat, out: seq<Transaction>, next: TransferId, similar: Search)
    requires |s0| == |s| && x <= |s| && ScanAgrees(s0, s, x, out, next)
    ensures var r := DetectFrom(s, x, out, next, similar);
      |r.legs| == |s| && r.out == Emission(s0, r.legs, |s|)
    decreases |s| - x, 1
  {
    if x < |s| {
      DetectRestAgrees(s0, s, x, out, next, similar);
      DetectFromUnfold(s0, s, x, out, next, similar);
    } else {
      DetectFromEnd(s0, s, out, next, similar);
    }
  }

  /**
   * Detection emits in index order: for each index of the input, the
   * transaction itself if it is left unlinked, the merged record of its pair
   * if it is the first leg of a pair formed by the scan, and nothing if it is
   * a second leg or was linked before the scan. So each merged record stands
   * at the position of its first leg.
   */
  lemma DetectInIndexOrder(s: seq<Transaction>, next: TransferId, similar: Search)
    ensures var r := Detect(s, next, similar);
      |r.legs| == |s| && r.out == Emission(s, r.legs, |s|)
  {
    DetectFromAgrees(s, s, 0, [], next, similar);
  }

  /** The inner scan without the window test: the first later transaction that pairs. */
  function FirstMatch(s: seq<Transaction>, x: nat, y: nat, similar: Search): (r: Option<nat>)
    requires x < y <= |s|
    ensures r.Some? ==> y <= r.value < |s| && Pairs(s[x], s[r.value], similar)
    ensures r.Some? ==> forall k :: y <= k < r.value ==> !Pairs(s[x], s[k], similar)
    ensures r.None? ==> forall k :: y <= k < |s| ==> !Pairs(s[x], s[k], similar)
    decreases |s| - y
  {
    if y == |s| then None
    else if Pairs(s[x], s[y], similar) then Some(y)
    else FirstMatch(s, x, y + 1, similar)
  }

  /**
   * On a date-ordered list `t1` is never later than `t2`, so the difference
   * `t1 - t2` in days is never above five and the window test never stops
   * the scan: the partner is simply the first later transaction that pairs.
   */
  lemma {:induction false} WindowNeverStops(s: seq<Transaction>, x: nat, y: nat, similar: Search)
    requires x < y <= |s| && SortedTx(s)
    ensures FirstPartner(s, x, y, similar) == FirstMatch(s, x, y, similar)
    decreases |s| - y
  {
    if y < |s| {
      assert s[x].date <= s[y].date;
      assert !WindowExceeded(s[x], s[y]);
      WindowNeverStops(s, x, y + 1, similar);
    }
  }

  /** The account a freshly normalised transaction moves money from (withdrawal) or into (deposit). */
  function Side(t: Transaction): Option<Account> {
    if t.ttype == Deposit then t.destinationAccount else t.sourceAccount
  }

  /** The shape `Normalizer.Convert` gives: a deposit has no source account, anything else no destination. */
  predicate Normalized(t: Transaction) {
    && (t.ttype == Deposit ==> t.sourceAccount.None?)
    && (t.ttype != Deposit ==> t.destinationAccount.None?)
  }

  /**
   * On normalised transactions the account guards of the candidate test
   * reduce to: the two legs are on different accounts (two legs with no
   * resolved account never pair).
   */
  lemma CandidateOfNormalized(t1: Transaction, t2: Transaction)
    requires Normalized(t1) && Normalized(t2)
    ensures IsCandidate(t1, t2) <==>
      && t2.transferId.None?
      && ((t1.ttype == Withdrawal && t2.ttype == Deposit) || (t1.ttype == Deposit && t2.ttype == Withdrawal))
      && t1.amount == t2.amount
      && Side(t1) != Side(t2)
  {
  }

  /**
   * Linking two normalised legs of opposite types moves the money from the
   * withdrawal's account to the deposit's account, on both legs and on the
   * merged record.
   */
  lemma MergedDirection(t1: Transaction, t2: Transaction, id: TransferId)
    requires Normalized(t1) && Normalized(t2) && IsCandidate(t1, t2)
    requires t1.ttype == Deposit || t1.sourceAccount.Some?
    ensures var l1, l2 := LinkFirst(t1, t2, id), LinkSecond(t1, t2, id);
      && (t1.ttype == Deposit ==>
            l1.sourceAccount == l2.sourceAccount == t2.sourceAccount &&
            l1.destinationAccount == l2.destinationAccount == t1.destinationAccount)
      && (t1.ttype == Withdrawal ==>
            l1.sourceAccount == l2.sourceAccount == t1.sourceAccount &&
            l1.destinationAccount == l2.destinationAccount == t2.destinationAccount)
  {
  }

  /**
   * A withdrawal whose account was not resolved, paired with a later deposit,
   * takes the first branch of the account reconciliation: the deposit leg's
   * destination is overwritten by the withdrawal's empty one, so neither the
   * legs nor the merged record keep any account.
   */
  lemma UnresolvedWithdrawalLink(t1: Transaction, t2: Transaction, id: TransferId)
    requires Normalized(t1) && Normalized(t2) && IsCandidate(t1, t2)
    requires t1.ttype == Withdrawal && t1.sourceAccount.None?
    ensures t2.destinationAccount.Some?
    ensures var l1, l2 := LinkFirst(t1, t2, id), LinkSecond(t1, t2, id);
      && l2.destinationAccount.None? && l2.sourceAccount.None?
      && CreateTransferRecord(l1, l2).sourceAccount.None?
      && CreateTransferRecord(l1, l2).destinationAccount.None?
  {
  }

  /**
   * On a normalised transaction the transfer test holds exactly when the
   * payment type is "transfer" (a deposit on a credit-card or checking
   * account) or the category hint is "transfer" in any case.
   */
  lemma NormalizedIsTransfer(raw: RawTransaction, accounts: seq<Account>, currencies: seq<Currency>)
    ensures IsTransfer(Normalizer.Convert(raw, accounts, currencies)) <==>
      || (raw.amount > 0 && raw.account.accType in {Some("credit_card"), Some("checking")})
      || (Normalizer.HasHint(raw) && Text.ToLower(raw.category.value) == "transfer")
  {
    var t := Normalizer.Convert(raw, accounts, currencies);
    var p := Normalizer.PaymentType(raw.account.accType, raw.amount);
    assert Text.ToLower("transfer") == "transfer";
    assert p == "transfer" <==> raw.amount > 0 && raw.account.accType in {Some("credit_card"), Some("checking")};
    assert Text.ToLower(p) == "transfer" <==> p == "transfer" by {
      if p != "transfer" {
        assert |p| != 8 || p == "transfer";
      }
    }
  }

  /** The in-place writes of a confirmed pair: shared id, then the reconciled accounts. */
  method LinkInPlace(a: array<Transaction>, x: nat, y: nat, id: TransferId)
    requires x < y < a.Length
    modifies a
    ensures a[..] == old(a[..])[x := LinkFirst(old(a[x]), old(a[y]), id)][y := LinkSecond(old(a[x]), old(a[y]), id)]
  {
    a[x] := a[x].(transferId := Some(id));
    a[y] := a[y].(transferId := Some(id));
    if a[x].sourceAccount.None? {
      a[x] := a[x].(sourceAccount := a[y].sourceAccount);
      a[y] := a[y].(destinationAccount := a[x].destinationAccount);
    } else {
      a[x] := a[x].(destinationAccount := a[y].destinationAccount);
      a[y] := a[y].(sourceAccount := a[x].sourceAccount);
    }
  }

  /**
   * The inner loop of `detectTransfers` for `t1 = a[x]`: it scans the later
   * transactions until the window test stops it or a pair is confirmed, in
   * which case both legs are linked under a fresh id and the merged record is
   * returned.
   */
  method PairFrom(a: array<Transaction>, x: nat, similar: Search, ids: IdSupply) returns (merged: Option<Transaction>)
    requires x < a.Length
    modifies a, ids
    ensures FirstPartner(old(a[..]), x, x + 1, similar).None? ==>
      merged.None? && a[..] == old(a[..]) && ids.next == old(ids.next)
    ensures FirstPartner(old(a[..]), x, x + 1, similar).Some? ==>
      var y := FirstPartner(old(a[..]), x, x + 1, similar).value;
      var s' := old(a[..])[x := LinkFirst(old(a[x]), old(a[y]), old(ids.next))][y := LinkSecond(old(a[x]), old(a[y]), old(ids.next))];
      && a[..] == s' && ids.next == old(ids.next) + 1
      && merged == Some(CreateTransferRecord(s'[x], s'[y]))
  {
    ghost var s0 := a[..];
    var t1 := a[x];
    var y := x + 1;
    while y < a.Length
      invariant x < y <= a.Length
      invariant a[..] == s0 && t1 == s0[x] && ids.next == old(ids.next)
      invariant FirstPartner(s0, x, x + 1, similar) == FirstPartner(s0, x, y, similar)
    {
      var t2 := a[y];
      if DaysDiff(t1.date, t2.date) > 5 {
        return None;
      }
      if IsCandidate(t1, t2) && Confirmed(t1, t2, similar) {
        var id := ids.Fresh();
        LinkInPlace(a, x, y, id);
        return Some(CreateTransferRecord(a[x], a[y]));
      }
      y := y + 1;
    }
    return None;
  }

  /**
   * `detectTransfers` on the list held in `a`, drawing fresh ids from `ids`:
   * the emitted records, the legs mutated in place and the ids consumed are
   * those of `Detect`.
   */
  method DetectTransfers(a: array<Transaction>, similar: Search, ids: IdSupply) returns (out: seq<Transaction>)
    modifies a, ids
    ensures Scan(a[..], out, ids.next) == Detect(old(a[..]), old(ids.next), similar)
  {
    ghost var goal := Detect(a[..], ids.next, similar);
    out := [];
    var x := 0;
    while x < a.Length
      invariant 0 <= x <= a.Length
      invariant DetectFrom(a[..], x, out, ids.next, similar) == goal
    {
      DetectFromStep(a[..], x, out, ids.next, similar);
      out := ScanAt(a, x, out, similar, ids);
      x := x + 1;
    }
  }

  /**
   * One turn of the `detectTransfers` loop at index `x`: skip a linked
   * transaction, otherwise pair it in place with its first partner and emit
   * the merged record, or emit it alone.
   */
  method ScanAt(a: array<Transaction>, x: nat, out: seq<Transaction>, similar: Search, ids: IdSupply) returns (out': seq<Transaction>)
    requires x < a.Length
    modifies a, ids
    ensures Scan(a[..], out', ids.next) == Step(old(a[..]), x, out, old(ids.next), similar)
  {
    out' := out;
    if a[x].transferId.Some? {
      return;
    }
    var merged := PairFrom(a, x, similar, ids);
    if merged.Some? {
      out' := out' + [merged.value];
    }
    if a[x].transferId.None? {
      out' := out' + [a[x]];
    }
  }
}

/**
 * The legacy importer for the Wallet finance manager (the TypeScript
 * `lib/ofx-importer.ts` and its JavaScript twin `lib/ofx-importer.js`, whose
 * logic is the same). Parsed OFX transactions are marked as transfer legs in
 * place, without merging and without stopping after a match, and each is then
 * turned into a Wallet record.
 */
module LegacyImporter {
  import opened Wrappers
  import opened Domain
  import opened Lists
  import Normalizer

  /** The fields of a Wallet ledger record the legacy importer reads. */
  datatype LedgerRecord = LedgerRecord(paymentType: Option<string>, categoryId: Option<string>)

  /** The fuzzy search over the Wallet ledger, keyed on the record note. */
  type LegacySearch = string -> seq<LedgerRecord>

  /**
   * A parsed transaction as the legacy detector sees it. The parser builds a
   * fresh `id.account` object for every transaction; `accountRef` is the
   * identity of that object, which is what `!==` compares. `transfer` is the
   * index of the leg that `t1.transfer` points to.
   */
  datatype LegacyTx = LegacyTx(
    raw: RawTransaction, accountRef: nat,
    transferId: Option<TransferId>, transfer: Option<nat>)

  /** The parsed list, each transaction with its own `id.account` object and no transfer marks. */
  function ToLegacy(raws: seq<RawTransaction>): (r: seq<LegacyTx>)
    ensures |r| == |raws|
    ensures forall i :: 0 <= i < |r| ==> r[i] == LegacyTx(raws[i], i, None, None)
  {
    seq(|raws|, i requires 0 <= i < |raws| => LegacyTx(raws[i], i, None, None))
  }

  /** The early exit of the inner scan: a difference `t1 - t2` of more than five milliseconds. */
  predicate WindowExceeded(t1: LegacyTx, t2: LegacyTx) {
    t1.raw.date - t2.raw.date > 5
  }

  /** The candidate test: `t2` unmarked, amounts summing to zero, distinct `id.account` objects. */
  predicate Candidate(t1: LegacyTx, t2: LegacyTx) {
    t2.transferId.None? && t1.raw.amount + t2.raw.amount == 0 && t1.accountRef != t2.accountRef
  }

  /** A top similar record exists and its payment type is exactly "transfer". */
  predicate TopIsTransfer(records: seq<LedgerRecord>) {
    |records| > 0 && records[0].paymentType == Some("transfer")
  }

  predicate Pairs(t1: LegacyTx, t2: LegacyTx, similar: LegacySearch) {
    Candidate(t1, t2) && TopIsTransfer(similar(t1.raw.memo)) && TopIsTransfer(similar(t2.raw.memo))
  }

  /** The marks written on a confirmed pair: the shared id on both legs, and `t1.transfer = t2`. */
  function Mark(s: seq<LegacyTx>, x: nat, y: nat, id: TransferId): (s': seq<LegacyTx>)
    requires x < |s| && y < |s|
    ensures |s'| == |s|
  {
    s[x := s[x].(transferId := Some(id), transfer := Some(y))][y := s[y].(transferId := Some(id))]
  }

  datatype LScan = LScan(legs: seq<LegacyTx>, next: TransferId)

  /**
   * The inner loop for `t1 = s[x]` from index `y`: every confirmed candidate
   * is marked, there is no break. Its contract gives only the length; what it
   * computes is stated by `InnerIsSweep`, `SweepMarksEveryMatch`,
   * `SweepLastMatchWins`, `SweepKeepsEarlier` and `SweepKeepsUnmatched`.
   */
  function Inner(s: seq<LegacyTx>, x: nat, y: nat, next: TransferId, similar: LegacySearch): (r: LScan)
    requires x < y <= |s|
    ensures |r.legs| == |s|
    decreases |s| - y
  {
    if y == |s| then LScan(s, next)
    else if WindowExceeded(s[x], s[y]) then LScan(s, next)
    else if Pairs(s[x], s[y], similar) then Inner(Mark(s, x, y, next), x, y + 1, next + 1, similar)
    else Inner(s, x, y + 1, next, similar)
  }

  /**
   * The outer loop from index `x`: transactions already marked are skipped.
   * Its contract gives only the length; `OuterKeepsSkeleton` and
   * `DetectKeepsIdentitiesDistinct` state what it preserves.
   */
  function Outer(s: seq<LegacyTx>, x: nat, next: TransferId, similar: LegacySearch): (r: LScan)
    requires x <= |s|
    ensures |r.legs| == |s|
    decreases |s| - x
  {
    if x == |s| then LScan(s, next)
    else if s[x].transferId.Some? then Outer(s, x + 1, next, similar)
    else
      var r := Inner(s, x, x + 1, next, similar);
      Outer(r.legs, x + 1, r.next, similar)
  }

  function LegacyDetect(s: seq<LegacyTx>, next: TransferId, similar: LegacySearch): LScan {
    Outer(s, 0, next, similar)
  }

  /**
   * The legacy `detectTransfers` on the list held in `a`, drawing fresh ids
   * from `ids`: the marks written and the ids consumed are those of
   * `LegacyDetect`.
   */
  method LegacyDetectTransfers(a: array<LegacyTx>, similar: LegacySearch, ids: IdSupply)
    modifies a, ids
    ensures LScan(a[..], ids.next) == LegacyDetect(old(a[..]), old(ids.next), similar)
  {
    ghost var goal := LegacyDetect(a[..], ids.next, similar);
    var x := 0;
    while x < a.Length
      invariant 0 <= x <= a.Length
      invariant Outer(a[..], x, ids.next, similar) == goal
    {
      if a[x].transferId.Some? {
        x := x + 1;
        continue;
      }
      ghost var inner := Inner(a[..], x, x + 1, ids.next, similar);
      var y := x + 1;
      while y < a.Length
        invariant x < y <= a.Length
        invariant Inner(a[..], x, y, ids.next, similar) == inner
      {
        if a[x].raw.date - a[y].raw.date > 5 {
          break;
        }
        if a[y].transferId.None? && a[x].raw.amount + a[y].raw.amount == 0 && a[x].accountRef != a[y].accountRef {
          if TopIsTransfer(similar(a[x].raw.memo)) && TopIsTransfer(similar(a[y].raw.memo)) {
            var id := ids.Fresh();
            a[x] := a[x].(transferId := Some(id), transfer := Some(y));
            a[y] := a[y].(transferId := Some(id));
          }
        }
        y := y + 1;
      }
      x := x + 1;
    }
  }

  /** The parsed fields and the `id.account` identities of a list. */
  function Skeleton(s: seq<LegacyTx>): (k: seq<(RawTransaction, nat)>)
    ensures |k| == |s| && forall i :: 0 <= i < |s| ==> k[i] == (s[i].raw, s[i].accountRef)
  {
    seq(|s|, i requires 0 <= i < |s| => (s[i].raw, s[i].accountRef))
  }

  lemma {:induction false} InnerKeepsSkeleton(s: seq<LegacyTx>, x: nat, y: nat, next: TransferId, similar: LegacySearch)
    requires x < y <= |s|
    ensures Skeleton(Inner(s, x, y, next, similar).legs) == Skeleton(s)
    ensures Inner(s, x, y, next, similar).next >= next
    decreases |s| - y
  {
    if y < |s| && !WindowExceeded(s[x], s[y]) {
      if Pairs(s[x], s[y], similar) {
        assert Skeleton(Mark(s, x, y, next)) == Skeleton(s);
        InnerKeepsSkeleton(Mark(s, x, y, next), x, y + 1, next + 1, similar);
      } else {
        InnerKeepsSkeleton(s, x, y + 1, next, similar);
      }
    }
  }

  /**
   * Detection mutates in place and never reorders or removes: the list keeps
   * its length, every parsed field and every `id.account` identity.
   */
  lemma {:induction false} OuterKeepsSkeleton(s: seq<LegacyTx>, x: nat, next: TransferId, similar: LegacySearch)
    requires x <= |s|
    ensures Skeleton(Outer(s, x, next, similar).legs) == Skeleton(s)
    ensures Outer(s, x, next, similar).next >= next
    decreases |s| - x
  {
    if x < |s| {
      if s[x].transferId.Some? {
        OuterKeepsSkeleton(s, x + 1, next, similar);
      } else {
        var r := Inner(s, x, x + 1, next, similar);
        InnerKeepsSkeleton(s, x, x + 1, next, similar);
        OuterKeepsSkeleton(r.legs, x + 1, r.next, similar);
      }
    }
  }

  /**
   * Because every parsed transaction has its own `id.account` object, the
   * identity test never rejects a pair: two transactions of the same bank
   * account are candidates as readily as two of different accounts.
   */
  lemma IdentityGuardVacuous(s: seq<LegacyTx>, x: nat, y: nat)
    requires forall i, j :: 0 <= i < j < |s| ==> s[i].accountRef != s[j].accountRef
    requires x < y < |s|
    ensures Candidate(s[x], s[y]) <==> s[y].transferId.None? && s[x].raw.amount + s[y].raw.amount == 0
  {
  }

  /** The identities are distinct after parsing, and detection keeps them, so the guard stays vacuous throughout. */
  lemma DetectKeepsIdentitiesDistinct(raws: seq<RawTransaction>, next: TransferId, similar: LegacySearch)
    ensures var r := LegacyDetect(ToLegacy(raws), next, similar).legs;
      forall i, j :: 0 <= i < j < |r| ==> r[i].accountRef != r[j].accountRef
  {
    var s := ToLegacy(raws);
    var r := LegacyDetect(s, next, similar).legs;
    OuterKeepsSkeleton(s, 0, next, similar);
    forall i, j | 0 <= i < j < |r| ensures r[i].accountRef != r[j].accountRef {
      assert Skeleton(r)[i] == Skeleton(s)[i] && Skeleton(r)[j] == Skeleton(s)[j];
    }
  }

  /**
   * `t1` and `t2` would pair if `t2` were unmarked: their amounts sum to zero,
   * their `id.account` objects differ and both top similar records are
   * transfers. Marks never change these fields.
   */
  predicate Linkable(t1: LegacyTx, t2: LegacyTx, similar: LegacySearch) {
    && t1.raw.amount + t2.raw.amount == 0 && t1.accountRef != t2.accountRef
    && TopIsTransfer(similar(t1.raw.memo)) && TopIsTransfer(similar(t2.raw.memo))
  }

  /** `s[k]` pairs with no other transaction of `s`, in either role. */
  predicate PairsWithNothing(s: seq<LegacyTx>, k: nat, similar: LegacySearch)
    requires k < |s|
  {
    forall i :: 0 <= i < |s| && i != k ==> !Linkable(s[i], s[k], similar) && !Linkable(s[k], s[i], similar)
  }

  /** The inner scan for `t1 = s[x]` leaves `s[k]` alone when none of the transactions it visits links to `s[k]`'s role. */
  lemma {:induction false} InnerKeepsUnlinkable(s: seq<LegacyTx>, x: nat, y: nat, next: TransferId, similar: LegacySearch, k: nat)
    requires x < y <= |s| && k < |s|
    requires k == x ==> forall j :: y <= j < |s| ==> !Linkable(s[x], s[j], similar)
    requires k != x && y <= k ==> !Linkable(s[x], s[k], similar)
    ensures Inner(s, x, y, next, similar).legs[k] == s[k]
    decreases |s| - y
  {
    if y < |s| && !WindowExceeded(s[x], s[y]) {
      if Pairs(s[x], s[y], similar) {
        var s' := Mark(s, x, y, next);
        assert k != x && k != y;
        assert s'[k] == s[k] && s'[x].raw == s[x].raw && s'[x].accountRef == s[x].accountRef;
        InnerKeepsUnlinkable(s', x, y + 1, next + 1, similar, k);
      } else {
        InnerKeepsUnlinkable(s, x, y + 1, next, similar, k);
      }
    }
  }

  /** The outer scan from `x` leaves alone a transaction that pairs with nothing. */
  lemma {:induction false} OuterKeepsUnlinkable(s: seq<LegacyTx>, x: nat, next: TransferId, similar: LegacySearch, k: nat)
    requires x <= |s| && k < |s| && PairsWithNothing(s, k, similar)
    ensures Outer(s, x, next, similar).legs[k] == s[k]
    decreases |s| - x
  {
    if x < |s| {
      if s[x].transferId.Some? {
        OuterKeepsUnlinkable(s, x + 1, next, similar, k);
      } else {
        var r := Inner(s, x, x + 1, next, similar);
        InnerKeepsUnlinkable(s, x, x + 1, next, similar, k);
        InnerKeepsSkeleton(s, x, x + 1, next, similar);
        forall i | 0 <= i < |s| ensures r.legs[i].raw == s[i].raw && r.legs[i].accountRef == s[i].accountRef {
          assert Skeleton(r.legs)[i] == Skeleton(s)[i];
        }
        OuterKeepsUnlinkable(r.legs, x + 1, r.next, similar, k);
      }
    }
  }

  /** A transaction that pairs with no other one comes out of detection unmarked and unchanged. */
  lemma LegacyUnpairedUnmarked(raws: seq<RawTransaction>, next: TransferId, similar: LegacySearch, k: nat)
    requires k < |raws| && PairsWithNothing(ToLegacy(raws), k, similar)
    ensures var r := LegacyDetect(ToLegacy(raws), next, similar).legs;
      r[k] == ToLegacy(raws)[k] && r[k].transferId.None? && r[k].transfer.None?
  {
    OuterKeepsUnlinkable(ToLegacy(raws), 0, next, similar, k);
  }

  /** The indices from `y` on that pair with `s[x]`, in order. */
  function Matches(s: seq<LegacyTx>, x: nat, y: nat, similar: LegacySearch): (m: seq<nat>)
    requires x < y <= |s|
    ensures forall j :: 0 <= j < |m| ==> y <= m[j] < |s| && Pairs(s[x], s[m[j]], similar)
    decreases |s| - y
  {
    if y == |s| then []
    else (if Pairs(s[x], s[y], similar) then [y] else []) + Matches(s, x, y + 1, similar)
  }

  predicate Ascending(m: seq<nat>) {
    forall i, j :: 0 <= i < j < |m| ==> m[i] < m[j]
  }

  /** The matches come in increasing index order, the scan's order. */
  lemma {:induction false} MatchesAscending(s: seq<LegacyTx>, x: nat, y: nat, similar: LegacySearch)
    requires x < y <= |s|
    ensures Ascending(Matches(s, x, y, similar))
    decreases |s| - y
  {
    if y < |s| {
      var rest := Matches(s, x, y + 1, similar);
      MatchesAscending(s, x, y + 1, similar);
      var m := Matches(s, x, y, similar);
      if Pairs(s[x], s[y], similar) {
        assert m == [y] + rest;
        forall i, j | 0 <= i < j < |m| ensures m[i] < m[j] {
          assert m[j] == rest[j - 1] && y + 1 <= rest[j - 1];
          if i > 0 {
            assert m[i] == rest[i - 1];
          }
        }
      } else {
        assert m == rest;
      }
    }
  }

  /** The matches from `y` on depend only on `t1`'s parsed fields and identity and on the transactions from `y` on. */
  lemma {:induction false} MatchesFrame(s: seq<LegacyTx>, s': seq<LegacyTx>, x: nat, y: nat, similar: LegacySearch)
    requires x < y <= |s| == |s'|
    requires s'[x].raw == s[x].raw && s'[x].accountRef == s[x].accountRef
    requires forall k :: y <= k < |s| ==> s'[k] == s[k]
    ensures Matches(s', x, y, similar) == Matches(s, x, y, similar)
    decreases |s| - y
  {
    if y < |s| {
      MatchesFrame(s, s', x, y + 1, similar);
    }
  }

  /** No transaction from index `y` on is dated before `t1 = s[x]`. */
  predicate NotBefore(s: seq<LegacyTx>, x: nat, y: nat)
    requires x < |s|
  {
    forall k :: y <= k < |s| ==> s[x].raw.date <= s[k].raw.date
  }

  /** The inner scan with the window test taken out: every confirmed candidate from `y` on is marked. */
  function Sweep(s: seq<LegacyTx>, x: nat, y: nat, next: TransferId, similar: LegacySearch): (r: LScan)
    requires x < y <= |s|
    ensures |r.legs| == |s|
    decreases |s| - y
  {
    if y == |s| then LScan(s, next)
    else if Pairs(s[x], s[y], similar) then Sweep(Mark(s, x, y, next), x, y + 1, next + 1, similar)
    else Sweep(s, x, y + 1, next, similar)
  }

  /**
   * When no later transaction is dated before `t1` (as on the ascending list
   * `import` builds), the millisecond window test never stops the inner scan.
   */
  lemma {:induction false} InnerIsSweep(s: seq<LegacyTx>, x: nat, y: nat, next: TransferId, similar: LegacySearch)
    requires x < y <= |s| && NotBefore(s, x, y)
    ensures Inner(s, x, y, next, similar) == Sweep(s, x, y, next, similar)
    decreases |s| - y
  {
    if y < |s| {
      assert !WindowExceeded(s[x], s[y]);
      if Pairs(s[x], s[y], similar) {
        var s' := Mark(s, x, y, next);
        assert NotBefore(s', x, y + 1) by {
          forall k | y + 1 <= k < |s'| ensures s'[x].raw.date <= s'[k].raw.date {
            assert s'[k] == s[k];
          }
        }
        InnerIsSweep(s', x, y + 1, next + 1, similar);
      } else {
        InnerIsSweep(s, x, y + 1, next, similar);
      }
    }
  }

  /** The sweep only ever writes `t1` and the transactions from `y` on. */
  lemma {:induction false} SweepKeepsEarlier(s: seq<LegacyTx>, x: nat, y: nat, next: TransferId, similar: LegacySearch)
    requires x < y <= |s|
    ensures var r := Sweep(s, x, y, next, similar);
      forall i :: 0 <= i < y && i != x ==> r.legs[i] == s[i]
    decreases |s| - y
  {
    if y < |s| {
      if Pairs(s[x], s[y], similar) {
        SweepKeepsEarlier(Mark(s, x, y, next), x, y + 1, next + 1, similar);
      } else {
        SweepKeepsEarlier(s, x, y + 1, next, similar);
      }
    }
  }

  /** The sweep leaves alone every transaction from `y` on that does not pair with `t1`. */
  lemma {:induction false} SweepKeepsUnmatched(s: seq<LegacyTx>, x: nat, y: nat, next: TransferId, similar: LegacySearch, k: nat)
    requires x < y <= |s| && y <= k < |s| && k !in Matches(s, x, y, similar)
    ensures Sweep(s, x, y, next, similar).legs[k] == s[k]
    decreases |s| - y
  {
    if Pairs(s[x], s[y], similar) {
      MatchesAfterMark(s, x, y, next, similar);
      SweepKeepsUnmatched(Mark(s, x, y, next), x, y + 1, next + 1, similar, k);
    } else if k == y {
      SweepKeepsEarlier(s, x, y + 1, next, similar);
    } else {
      SweepKeepsUnmatched(s, x, y + 1, next, similar, k);
    }
  }

  /** A match at `y` heads the list of matches, and marking it leaves the later matches as they were. */
  lemma MatchesAfterMark(s: seq<LegacyTx>, x: nat, y: nat, next: TransferId, similar: LegacySearch)
    requires x < y < |s| && Pairs(s[x], s[y], similar)
    ensures Matches(s, x, y, similar) == [y] + Matches(Mark(s, x, y, next), x, y + 1, similar)
  {
    MatchesFrame(s, Mark(s, x, y, next), x, y + 1, similar);
  }

  /** The sweep draws one fresh id per match. */
  lemma {:induction false} SweepCountsMatches(s: seq<LegacyTx>, x: nat, y: nat, next: TransferId, similar: LegacySearch)
    requires x < y <= |s|
    ensures Sweep(s, x, y, next, similar).next == next + |Matches(s, x, y, similar)|
    decreases |s| - y
  {
    if y < |s| {
      if Pairs(s[x], s[y], similar) {
        MatchesAfterMark(s, x, y, next, similar);
        SweepCountsMatches(Mark(s, x, y, next), x, y + 1, next + 1, similar);
      } else {
        SweepCountsMatches(s, x, y + 1, next, similar);
      }
    }
  }

  /** With no match, the sweep writes nothing. */
  lemma {:induction false} SweepWithoutMatch(s: seq<LegacyTx>, x: nat, y: nat, next: TransferId, similar: LegacySearch)
    requires x < y <= |s|
    requires Matches(s, x, y, similar) == []
    ensures Sweep(s, x, y, next, similar).legs == s
    decreases |s| - y
  {
    if y < |s| {
      SweepWithoutMatch(s, x, y + 1, next, similar);
    }
  }

  /** `t1` ends with the id and the `transfer` link of the last match. */
  lemma {:induction false} SweepLastMatchWins(s: seq<LegacyTx>, x: nat, y: nat, next: TransferId, similar: LegacySearch)
    requires x < y <= |s|
    requires Matches(s, x, y, similar) != []
    ensures var r, m := Sweep(s, x, y, next, similar), Matches(s, x, y, similar);
      r.legs[x].transferId == Some(next + |m| - 1) && r.legs[x].transfer == Some(m[|m| - 1])
    decreases |s| - y, 1
  {
    if Pairs(s[x], s[y], similar) {
      LastMatchFromPair(s, x, y, next, similar);
    } else {
      assert Matches(s, x, y, similar) == Matches(s, x, y + 1, similar);
      assert Sweep(s, x, y, next, similar) == Sweep(s, x, y + 1, next, similar);
      SweepLastMatchWins(s, x, y + 1, next, similar);
    }
  }

  /** `SweepLastMatchWins` when `s[y]` itself pairs with `t1`. */
  lemma {:induction false} LastMatchFromPair(s: seq<LegacyTx>, x: nat, y: nat, next: TransferId, similar: LegacySearch)
    requires x < y < |s| && Pairs(s[x], s[y], similar)
    ensures var r, m := Sweep(s, x, y, next, similar), Matches(s, x, y, similar);
      |m| > 0 && r.legs[x].transferId == Some(next + |m| - 1) && r.legs[x].transfer == Some(m[|m| - 1])
    decreases |s| - y, 0
  {
    var r, m := Sweep(s, x, y, next, similar), Matches(s, x, y, similar);
    var s' := Mark(s, x, y, next);
    var m' := Matches(s', x, y + 1, similar);
    MatchesAfterMark(s, x, y, next, similar);
    assert m == [y] + m';
    assert r == Sweep(s', x, y + 1, next + 1, similar);
    if m' == [] {
      SweepWithoutMatch(s', x, y + 1, next + 1, similar);
      assert r.legs[x] == s[x].(transferId := Some(next), transfer := Some(y));
    } else {
      SweepLastMatchWins(s', x, y + 1, next + 1, similar);
      assert m[|m| - 1] == m'[|m'| - 1];
    }
  }

  /** The k-th index of `m` (from 0) carries the id `next + k`. */
  predicate MarkedInOrder(legs: seq<LegacyTx>, m: seq<nat>, next: TransferId) {
    forall j :: 0 <= j < |m| ==> m[j] < |legs| && legs[m[j]].transferId == Some(next + j)
  }

  /** The k-th match (from 0) is marked with the k-th fresh id. */
  lemma {:induction false} SweepMarksEveryMatch(s: seq<LegacyTx>, x: nat, y: nat, next: TransferId, similar: LegacySearch)
    requires x < y <= |s|
    ensures MarkedInOrder(Sweep(s, x, y, next, similar).legs, Matches(s, x, y, similar), next)
    decreases |s| - y, 1
  {
    if y < |s| {
      if Pairs(s[x], s[y], similar) {
        MarksFromPair(s, x, y, next, similar);
      } else {
        MarksAfterSkip(s, x, y, next, similar);
      }
    }
  }

  /** `SweepMarksEveryMatch` when `s[y]` does not pair with `t1`. */
  lemma {:induction false} MarksAfterSkip(s: seq<LegacyTx>, x: nat, y: nat, next: TransferId, similar: LegacySearch)
    requires x < y < |s| && !Pairs(s[x], s[y], similar)
    ensures MarkedInOrder(Sweep(s, x, y, next, similar).legs, Matches(s, x, y, similar), next)
    decreases |s| - y, 0
  {
    var legs, m := Sweep(s, x, y + 1, next, similar).legs, Matches(s, x, y + 1, similar);
    assert Sweep(s, x, y, next, similar).legs == legs;
    assert Matches(s, x, y, similar) == m by {
      assert Matches(s, x, y, similar) == [] + m;
    }
    SweepMarksEveryMatch(s, x, y + 1, next, similar);
  }

  /** `SweepMarksEveryMatch` when `s[y]` itself pairs with `t1`. */
  lemma {:induction false} MarksFromPair(s: seq<LegacyTx>, x: nat, y: nat, next: TransferId, similar: LegacySearch)
    requires x < y < |s| && Pairs(s[x], s[y], similar)
    ensures MarkedInOrder(Sweep(s, x, y, next, similar).legs, Matches(s, x, y, similar), next)
    decreases |s| - y, 0
  {
    var s' := Mark(s, x, y, next);
    var r' := Sweep(s', x, y + 1, next + 1, similar);
    MatchesAfterMark(s, x, y, next, similar);
    assert Sweep(s, x, y, next, similar) == r';
    SweepMarksEveryMatch(s', x, y + 1, next + 1, similar);
    SweepKeepsEarlier(s', x, y + 1, next + 1, similar);
    assert r'.legs[y] == s'[y];
    MarkedIdsShift(r'.legs, y, Matches(s', x, y + 1, similar), next);
  }

  /** Putting a match marked `next` in front of matches marked from `next + 1` gives matches marked from `next`. */
  lemma MarkedIdsShift(legs: seq<LegacyTx>, y: nat, m: seq<nat>, next: TransferId)
    requires y < |legs| && legs[y].transferId == Some(next)
    requires MarkedInOrder(legs, m, next + 1)
    ensures MarkedInOrder(legs, [y] + m, next)
  {
    var m' := [y] + m;
    forall j | 0 <= j < |m'| ensures m'[j] < |legs| && legs[m'[j]].transferId == Some(next + j) {
      if j > 0 { assert m'[j] == m[j - 1]; }
    }
  }

  /**
   * Without a break after a match, a second match overwrites `t1`'s id and
   * link: the first partner keeps an id that `t1` no longer carries, and
   * `t1.transfer` no longer points to it.
   */
  lemma FirstPartnerOrphaned(s: seq<LegacyTx>, x: nat, next: TransferId, similar: LegacySearch)
    requires x + 1 <= |s| && NotBefore(s, x, x + 1)
    requires |Matches(s, x, x + 1, similar)| >= 2
    ensures var r, m := Inner(s, x, x + 1, next, similar), Matches(s, x, x + 1, similar);
      && r.legs[m[0]].transferId.Some?
      && r.legs[m[0]].transferId != r.legs[x].transferId
      && r.legs[x].transfer != Some(m[0])
  {
    InnerIsSweep(s, x, x + 1, next, similar);
    SweepMarksEveryMatch(s, x, x + 1, next, similar);
    SweepLastMatchWins(s, x, x + 1, next, similar);
  }

  /** A category of the Wallet service. */
  datatype WalletCategory = WalletCategory(id: string, name: string)

  /** Reading `.id` of a lookup that found nothing throws. */
  datatype LegacyError = MissingCurrency | MissingAccount | MissingCategory(name: string) | NoFiles

  /** `walletCategories.find(c => c.name === name).id`, with the exact, case-sensitive name. */
  function CategoryId(categories: seq<WalletCategory>, name: string): (r: Result<string, LegacyError>)
    ensures r.Ok? <==> exists i :: 0 <= i < |categories| && categories[i].name == name
    ensures r.Ok? ==> exists i :: 0 <= i < |categories| && categories[i].name == name && categories[i].id == r.value
                        && forall j :: 0 <= j < i ==> categories[j].name != name
    ensures r.Err? ==> r.error == MissingCategory(name)
  {
    match Find(categories, (c: WalletCategory) => c.name == name)
    case None => Err(MissingCategory(name))
    case Some(c) => Ok(c.id)
  }

  /** The truthiness test `record.categoryId`. */
  predicate HasCategoryId(r: LedgerRecord) {
    r.categoryId.Some? && r.categoryId.value != ""
  }

  /**
   * The legacy `getCategory`: a transfer leg gets the id of the category named
   * "Transfer"; otherwise the first similar ledger record with a category id
   * supplies it; otherwise the id of "Others". A missing named category throws.
   */
  function GetCategory(t: LegacyTx, categories: seq<WalletCategory>, similar: LegacySearch): (r: Result<string, LegacyError>)
    ensures t.transferId.Some? ==> r == CategoryId(categories, "Transfer")
    ensures t.transferId.None? && FindIndex(similar(t.raw.memo), HasCategoryId).Some? ==>
      r.Ok? && Some(r.value) == similar(t.raw.memo)[FindIndex(similar(t.raw.memo), HasCategoryId).value].categoryId
    ensures t.transferId.None? && FindIndex(similar(t.raw.memo), HasCategoryId).None? ==>
      r == CategoryId(categories, "Others")
    ensures r.Err? ==> r.error in {MissingCategory("Transfer"), MissingCategory("Others")}
  {
    var withCategory := FindIndex(similar(t.raw.memo), HasCategoryId);
    if t.transferId.Some? then CategoryId(categories, "Transfer")
    else if withCategory.Some? then Ok(similar(t.raw.memo)[withCategory.value].categoryId.value)
    else CategoryId(categories, "Others")
  }

  /** The record posted to Wallet for one transaction. */
  datatype WalletRecord = WalletRecord(
    currencyId: string, accountId: string, categoryId: string,
    amount: int, paymentType: string, note: string, date: int,
    recordState: string, transferId: Option<TransferId>)

  /**
   * The record built for one transaction by `convertToWalletRecords`; the
   * currency, the account and the category are looked up in that order and
   * the first failed lookup throws.
   */
  function ConvertRecord(t: LegacyTx, accounts: seq<Account>, categories: seq<WalletCategory>,
                         currencies: seq<Currency>, similar: LegacySearch): (r: Result<WalletRecord, LegacyError>)
    ensures Normalizer.FindCurrency(currencies, t.raw.currency).None? ==> r == Err(MissingCurrency)
    ensures (Normalizer.FindCurrency(currencies, t.raw.currency).Some?
             && Normalizer.FindAccount(accounts, t.raw.account.name).None?) ==> r == Err(MissingAccount)
    ensures r.Ok? <==>
      && Normalizer.FindCurrency(currencies, t.raw.currency).Some?
      && Normalizer.FindAccount(accounts, t.raw.account.name).Some?
      && GetCategory(t, categories, similar).Ok?
    ensures (Normalizer.FindCurrency(currencies, t.raw.currency).Some?
             && Normalizer.FindAccount(accounts, t.raw.account.name).Some?
             && GetCategory(t, categories, similar).Err?) ==> r == Err(GetCategory(t, categories, similar).error)
    ensures r.Ok? ==>
      && r.value.amount == t.raw.amount && r.value.recordState == "cleared"
      && r.value.transferId == t.transferId && r.value.note == t.raw.memo && r.value.date == t.raw.date
      && r.value.currencyId == Normalizer.FindCurrency(currencies, t.raw.currency).value.id
      && r.value.accountId == Normalizer.FindAccount(accounts, t.raw.account.name).value.id
      && r.value.categoryId == GetCategory(t, categories, similar).value
      && r.value.paymentType == Normalizer.PaymentType(t.raw.account.accType, t.raw.amount)
  {
    var account := Normalizer.FindAccount(accounts, t.raw.account.name);
    match Normalizer.FindCurrency(currencies, t.raw.currency)
    case None => Err(MissingCurrency)
    case Some(currency) =>
      if account.None? then Err(MissingAccount)
      else match GetCategory(t, categories, similar)
        case Err(e) => Err(e)
        case Ok(categoryId) =>
          Ok(WalletRecord(
            currencyId := currency.id,
            accountId := account.value.id,
            categoryId := categoryId,
            amount := t.raw.amount,
            paymentType := Normalizer.PaymentType(t.raw.account.accType, t.raw.amount),
            note := t.raw.memo,
            date := t.raw.date,
            recordState := "cleared",
            transferId := t.transferId))
  }

  /** `convertToWalletRecords`: one record per transaction, in order, or the first lookup failure. */
  function ConvertToWalletRecords(ts: seq<LegacyTx>, accounts: seq<Account>, categories: seq<WalletCategory>,
                                  currencies: seq<Currency>, similar: LegacySearch)
    : (r: Result<seq<WalletRecord>, LegacyError>)
    ensures r.Ok? <==> forall i :: 0 <= i < |ts| ==> ConvertRecord(ts[i], accounts, categories, currencies, similar).Ok?
    ensures r.Ok? ==> |r.value| == |ts| && forall i :: 0 <= i < |ts| ==>
      ConvertRecord(ts[i], accounts, categories, currencies, similar) == Ok(r.value[i])
    ensures r.Err? ==> exists i :: (0 <= i < |ts|
      && ConvertRecord(ts[i], accounts, categories, currencies, similar) == Err(r.error)
      && forall j :: 0 <= j < i ==> ConvertRecord(ts[j], accounts, categories, currencies, similar).Ok?)
  {
    MapResult(ts, (t: LegacyTx) => ConvertRecord(t, accounts, categories, currencies, similar))
  }
}

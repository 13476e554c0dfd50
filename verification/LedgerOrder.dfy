/** Whose seconds a debit takes first, told from the lots' expiry and creation, and what the ledger's numbers count. */
module LedgerOrder {
  import opened Ledger

  /** Lot i goes first: it expires earlier, or expires with lot j (or neither does) and was created earlier, or agrees with it
      in both and was added earlier. */
  ghost predicate GoesFirst(lots: seq<Lot>, i: nat, j: nat)
    requires i < |lots| && j < |lots|
  {
    var a, b := lots[i], lots[j];
    if a.expiresAt == b.expiresAt then a.createdAt < b.createdAt || (a.createdAt == b.createdAt && i < j)
    else a.expiresAt.Some? && (b.expiresAt.None? || a.expiresAt.value < b.expiresAt.value)
  }

  /** Lot i is the wallet's and has not expired. */
  ghost predicate Usable(lots: seq<Lot>, w: WalletId, at: int, i: int) {
    0 <= i < |lots| && lots[i].wallet == w && (lots[i].expiresAt.None? || lots[i].expiresAt.value > at)
  }

  /** Between two states of the ledger, only usable lots have lost anything, and a lot has lost something only if every
      usable lot that goes first has nothing left. */
  ghost predicate DrainedInOrder(lots: seq<Lot>, was: seq<Entry>, entries: seq<Entry>, w: WalletId, at: int) {
    forall j :: 0 <= j < |lots| && Drained(was, entries, w, lots[j].id) ==>
      Usable(lots, w, at, j) && NothingBefore(lots, entries, w, at, j)
  }

  ghost predicate Drained(was: seq<Entry>, entries: seq<Entry>, w: WalletId, lot: LotId) {
    LotBalance(entries, w, lot) != LotBalance(was, w, lot)
  }

  ghost predicate NothingBefore(lots: seq<Lot>, entries: seq<Entry>, w: WalletId, at: int, j: nat)
    requires j < |lots|
  {
    forall i :: Usable(lots, w, at, i) && GoesFirst(lots, i, j) ==> LotBalance(entries, w, lots[i].id) <= 0
  }

  // ---------- The order is first to expire, then first in ----------

  /** One lot stands before the other. */
  ghost predicate Before(order: seq<Lot>, a: Lot, b: Lot) {
    exists p, q :: 0 <= p < q < |order| && order[p] == a && order[q] == b
  }

  lemma BeforeGrows(order: seq<Lot>, more: seq<Lot>, a: Lot, b: Lot)
    ensures Before(order, a, b) ==> Before(order + more, a, b)
  {
    if p, q :| 0 <= p < q < |order| && order[p] == a && order[q] == b {
      assert (order + more)[p] == a && (order + more)[q] == b;
    }
  }

  lemma {:induction false} LiveLotsInOrder(lots: seq<Lot>, w: WalletId, at: int, i: nat, j: nat)
    requires i < j < |lots| && Usable(lots, w, at, i) && Usable(lots, w, at, j)
    ensures Before(LiveLots(lots, w, at), lots[i], lots[j])
  {
    var n := |lots| - 1;
    var rest := LiveLots(lots[..n], w, at);
    if j < n {
      LiveLotsInOrder(lots[..n], w, at, i, j);
      BeforeGrows(rest, LiveLots(lots, w, at)[|rest|..], lots[i], lots[j]);
      assert LiveLots(lots, w, at) == rest + LiveLots(lots, w, at)[|rest|..];
    } else {
      LiveLotsAre(lots[..n], w, at);
      assert lots[..n][i] in rest;
      var p :| 0 <= p < |rest| && rest[p] == lots[i];
      assert (rest + [lots[j]])[p] == lots[i] && (rest + [lots[j]])[|rest|] == lots[j];
    }
  }

  lemma SpliceKeepsOrder(lots: seq<Lot>, l: Lot, n: nat, p: nat, q: nat)
    requires n <= |lots| && p < q < |lots|
    ensures Before(lots[..n] + [l] + lots[n..], lots[p], lots[q])
  {
    var after := lots[..n] + [l] + lots[n..];
    var p', q' := if p < n then p else p + 1, if q < n then q else q + 1;
    assert after[p'] == lots[p] && after[q'] == lots[q];
  }

  lemma SpliceIsBehind(lots: seq<Lot>, l: Lot, n: nat, p: nat)
    requires p < n <= |lots|
    ensures Before(lots[..n] + [l] + lots[n..], lots[p], l)
  {
    var after := lots[..n] + [l] + lots[n..];
    assert after[p] == lots[p] && after[n] == l;
  }

  /** An insertion keeps the order of the others and puts the lot behind whatever need not come after it. */
  lemma InsertKeepsOrder(lots: seq<Lot>, l: Lot, a: Lot, b: Lot, after: seq<Lot>)
    requires Sorted(lots) && after == InsertLot(lots, l)
    ensures Before(lots, a, b) ==> Before(after, a, b)
    ensures a in lots && a.Precedes(l) ==> Before(after, a, l)
  {
    var n := InsertLotAt(lots, l);
    if Before(lots, a, b) {
      var p, q :| 0 <= p < q < |lots| && lots[p] == a && lots[q] == b;
      SpliceKeepsOrder(lots, l, n, p, q);
    }
    if a in lots && a.Precedes(l) {
      var p :| 0 <= p < |lots| && lots[p] == a;
      SpliceIsBehind(lots, l, n, p);
    }
  }

  /** One more lot at the end, the last of the two or a third. */
  lemma OneMoreSorted(front: seq<Lot>, l: Lot, sorted: seq<Lot>, a: Lot, b: Lot)
    requires sorted == SortLots(front) && a in front
    requires Before(sorted, a, b) || (b == l && a.Precedes(l))
    ensures Before(InsertLot(sorted, l), a, b)
  {
    SortLotsSorts(front);
    SortLotsKeeps(front);
    InsertKeepsOrder(sorted, l, a, b, InsertLot(sorted, l));
  }

  /** The sort is stable. */
  lemma {:induction false} SortKeepsOrder(lots: seq<Lot>, p: nat, q: nat)
    requires p < q < |lots| && lots[p].Precedes(lots[q])
    ensures Before(SortLots(lots), lots[p], lots[q])
  {
    var n := |lots| - 1;
    var front := lots[..n];
    assert front[p] == lots[p];
    if q < n { SortKeepsOrder(front, p, q); }
    OneMoreSorted(front, lots[n], SortLots(front), lots[p], lots[q]);
  }

  lemma FirstIsBefore(lots: seq<Lot>, w: WalletId, at: int, i: nat, j: nat, order: seq<Lot>)
    requires DistinctLots(lots) && Usable(lots, w, at, i) && Usable(lots, w, at, j) && GoesFirst(lots, i, j)
    requires order == DebitOrder(lots, w, at)
    ensures Before(order, lots[i], lots[j])
  {
    DebitOrderIs(lots, w, at);
    if i < j {
      LiveLotsInOrder(lots, w, at, i, j);
      var live := LiveLots(lots, w, at);
      var p, q :| 0 <= p < q < |live| && live[p] == lots[i] && live[q] == lots[j];
      SortKeepsOrder(live, p, q);
    } else {
      assert lots[i] in order && lots[j] in order;
      var p :| 0 <= p < |order| && order[p] == lots[i];
      var q :| 0 <= q < |order| && order[q] == lots[j];
      assert q <= p ==> order[p] == order[q] || order[q].Precedes(order[p]);
    }
  }

  // ---------- And it is drained in that order ----------

  lemma {:induction false} MissingFalls(order: seq<Lot>, entries: seq<Entry>, w: WalletId, amount: nat, p: nat, q: nat)
    requires p <= q <= |order|
    ensures Missing(order[..q], entries, w, amount) <= Missing(order[..p], entries, w, amount)
  {
    if p < q {
      MissingFalls(order, entries, w, amount, p, q - 1);
      assert order[..q][..q - 1] == order[..q - 1];
    }
  }

  /** While something is still missing behind a lot, all of it has been taken. */
  lemma AllIsTaken(order: seq<Lot>, entries: seq<Entry>, w: WalletId, amount: nat, p: nat, q: nat)
    requires p < q < |order| && Taken(order, entries, w, amount, q) != 0
    ensures Taken(order, entries, w, amount, p) == Pos(LotBalance(entries, w, order[p].id))
  {
    MissingFalls(order, entries, w, amount, p + 1, q);
    assert order[..q + 1][..q] == order[..q] && order[..p + 1][..p] == order[..p];
  }

  lemma EarlierIsEmpty(order: seq<Lot>, entries: seq<Entry>, d: Debit, ids: nat -> LedgerId, plan: seq<Entry>, p: nat, q: nat)
    requires DistinctLots(order) && d.seconds >= 0 && p < q < |order| && plan == Plan(order, entries, d, ids)
    requires LotBalance(plan, d.wallet, order[q].id) != 0
    ensures LotBalance(entries + plan, d.wallet, order[p].id) <= 0
  {
    PlanTakes(order, entries, d, ids, p);
    PlanTakes(order, entries, d, ids, q);
    AllIsTaken(order, entries, d.wallet, d.seconds, p, q);
    LotBalanceAppend(entries, plan, d.wallet, order[p].id);
  }

  /** A debit's entries drain the wallet's lots first to expire and first in, first out. */
  lemma DebitGoesFirstInFirstOut(entries: seq<Entry>, lots: seq<Lot>, d: Debit, ids: nat -> LedgerId, order: seq<Lot>, plan: seq<Entry>)
    requires DistinctLots(lots) && d.seconds > 0
    requires order == DebitOrder(lots, d.wallet, d.at) && plan == Plan(order, entries, d, ids)
    ensures DrainedInOrder(lots, entries, entries + plan, d.wallet, d.at)
  {
    DebitOrderIs(lots, d.wallet, d.at);
    forall j | 0 <= j < |lots| && Drained(entries, entries + plan, d.wallet, lots[j].id)
      ensures Usable(lots, d.wallet, d.at, j) && NothingBefore(lots, entries + plan, d.wallet, d.at, j)
    {
      LotBalanceAppend(entries, plan, d.wallet, lots[j].id);
      var q := DrainedIsInOrder(lots, entries, d, ids, order, plan, j);
      forall i | Usable(lots, d.wallet, d.at, i) && GoesFirst(lots, i, j)
        ensures LotBalance(entries + plan, d.wallet, lots[i].id) <= 0
      {
        FirstIsBefore(lots, d.wallet, d.at, i, j, order);
        var p, r :| 0 <= p < r < |order| && order[p] == lots[i] && order[r] == lots[j];
        EarlierIsEmpty(order, entries, d, ids, plan, p, r);
      }
    }
  }

  lemma DrainedIsInOrder(lots: seq<Lot>, entries: seq<Entry>, d: Debit, ids: nat -> LedgerId, order: seq<Lot>, plan: seq<Entry>, j: nat)
    returns (q: nat)
    requires DistinctLots(lots) && d.seconds > 0 && j < |lots|
    requires order == DebitOrder(lots, d.wallet, d.at) && plan == Plan(order, entries, d, ids)
    requires LotBalance(plan, d.wallet, lots[j].id) != 0
    ensures q < |order| && order[q] == lots[j] && Usable(lots, d.wallet, d.at, j)
  {
    DebitOrderIs(lots, d.wallet, d.at);
    if forall k :: 0 <= k < |order| ==> order[k].id != lots[j].id {
      PlanOutside(order, entries, d, ids, lots[j].id);
      assert false;
    }
    q :| 0 <= q < |order| && order[q].id == lots[j].id;
    assert order[q] in order;
    var k :| 0 <= k < |lots| && lots[k] == order[q];
    assert k == j;
  }

  // ---------- What is counted ----------

  /** Some lot of the wallet with this id has run out. */
  ghost predicate RunOut(lots: seq<Lot>, w: WalletId, at: int, lot: LotId) {
    exists l :: l in lots && l.id == lot && l.wallet == w && l.expiresAt.Some? && l.expiresAt.value <= at
  }

  /** An entry counts in the balance of its wallet alone, and unless it names a lot of that wallet that has run out. */
  lemma BalanceCounts(entries: seq<Entry>, e: Entry, lots: seq<Lot>, w: WalletId, at: int)
    ensures Balance(entries + [e], lots, w, at) == Balance(entries, lots, w, at)
      + if e.wallet == w && !(e.lot.Some? && RunOut(lots, w, at, e.lot.value)) then e.seconds else 0
    ensures Balance([], lots, w, at) == 0
  {
    assert (entries + [e])[..|entries|] == entries;
    if e.lot.Some? {
      assert e.lot.value in ExpiredLots(lots, w, at) <==> RunOut(lots, w, at, e.lot.value);
    }
  }

  /** And in what is left of a lot exactly if it names both. */
  lemma LotBalanceCounts(entries: seq<Entry>, e: Entry, w: WalletId, lot: LotId)
    ensures LotBalance(entries + [e], w, lot) == LotBalance(entries, w, lot)
      + if e.wallet == w && e.lot == Some(lot) then e.seconds else 0
    ensures LotBalance([], w, lot) == 0
  {
    assert (entries + [e])[..|entries|] == entries;
  }

  /** Entry k of a debit, in full. */
  ghost predicate IsDebitEntry(e: Entry, d: Debit, ids: nat -> LedgerId, k: nat) {
    && e.id == ids(k) && e.wallet == d.wallet && e.kind == RideDebit && e.seconds < 0
    && e.key == EntryKey(d.key, k) && e.reason == d.reason && e.occurredAt == d.at
  }

  /** What was appended are the entries of this debit. */
  ghost predicate IsDebit(was: seq<Entry>, entries: seq<Entry>, d: Debit, ids: nat -> LedgerId) {
    && |was| <= |entries| && entries[..|was|] == was
    && forall i :: |was| <= i < |entries| ==> IsDebitEntry(entries[i], d, ids, i - |was|)
  }

  lemma {:induction false} PlanInFull(order: seq<Lot>, entries: seq<Entry>, d: Debit, ids: nat -> LedgerId, plan: seq<Entry>)
    requires d.seconds >= 0 && plan == Plan(order, entries, d, ids)
    ensures forall k :: 0 <= k < |plan| ==> IsDebitEntry(plan[k], d, ids, k)
    ensures IsDebit(entries, entries + plan, d, ids)
  {
    if order != [] {
      var n := |order| - 1;
      PlanInFull(order[..n], entries, d, ids, Plan(order[..n], entries, d, ids));
    }
  }

  /** What the digits mean. */
  function Decimal(s: string): int {
    if s == "" then 0 else 10 * Decimal(s[..|s| - 1]) + (s[|s| - 1] as int - '0' as int)
  }

  /** The entries of a debit are numbered in decimal, without leading zeros. */
  lemma {:induction false} DigitsAreDecimal(n: nat)
    ensures
      var s := Digits(n);
      && s != "" && Decimal(s) == n && (s[0] == '0' ==> s == "0")
      && forall i :: 0 <= i < |s| ==> '0' <= s[i] <= '9'
  {
    assert forall d: nat :: d < 10 ==> "0123456789"[d] as int == '0' as int + d;
    var s := Digits(n);
    if n >= 10 {
      DigitsAreDecimal(n / 10);
      assert s[..|s| - 1] == Digits(n / 10);
    } else {
      assert s[..|s| - 1] == "";
    }
  }
}

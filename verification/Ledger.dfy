/** The time ledger as values: lots, entries, balances, and the plan of a first-to-expire debit. */
module Ledger {

  type WalletId(==, !new)
  type LotId(==, !new)
  type LedgerId(==, !new)

  datatype Option<+T> = None | Some(value: T)

  datatype Kind = Purchase | SubscriptionCredit | Promotion | RideDebit | Compensation | AdminAdjustment | Expiry

  datatype Entry = Entry(id: LedgerId, wallet: WalletId, lot: Option<LotId>, kind: Kind, seconds: int,
                         key: string, reason: string, occurredAt: int)

  /** `createdAt` stands for the rank of the creation string in the locale order. */
  datatype Lot = Lot(id: LotId, wallet: WalletId, granted: int, expiresAt: Option<int>, createdAt: int)
  {
    predicate LiveAt(at: int) { expiresAt.None? || expiresAt.value > at }

    /** Which of two lots a debit drains first; equal lots stay in the order they were added. */
    predicate Precedes(other: Lot) {
      if expiresAt.None? then other.expiresAt.None? && createdAt <= other.createdAt
      else if other.expiresAt.None? then true
      else expiresAt.value < other.expiresAt.value
           || (expiresAt.value == other.expiresAt.value && createdAt <= other.createdAt)
    }
  }

  ghost predicate DistinctLots(lots: seq<Lot>) {
    forall i, j :: 0 <= i < j < |lots| ==> lots[i].id != lots[j].id
  }

  // ---------- Balances ----------

  function ExpiredLots(lots: seq<Lot>, w: WalletId, at: int): set<LotId> {
    set l | l in lots && l.wallet == w && !l.LiveAt(at) :: l.id
  }

  function SumOutside(entries: seq<Entry>, w: WalletId, expired: set<LotId>): int {
    if entries == [] then 0
    else
      var e := entries[|entries| - 1];
      SumOutside(entries[..|entries| - 1], w, expired)
      + if e.wallet == w && (e.lot.None? || e.lot.value !in expired) then e.seconds else 0
  }

  function Balance(entries: seq<Entry>, lots: seq<Lot>, w: WalletId, at: int): int {
    SumOutside(entries, w, ExpiredLots(lots, w, at))
  }

  function LotBalance(entries: seq<Entry>, w: WalletId, lot: LotId): int {
    if entries == [] then 0
    else
      var e := entries[|entries| - 1];
      LotBalance(entries[..|entries| - 1], w, lot) + if e.wallet == w && e.lot == Some(lot) then e.seconds else 0
  }

  lemma {:induction false} SumOutsideAppend(a: seq<Entry>, b: seq<Entry>, w: WalletId, expired: set<LotId>)
    ensures SumOutside(a + b, w, expired) == SumOutside(a, w, expired) + SumOutside(b, w, expired)
  {
    if b == [] {
      assert a + b == a;
    } else {
      var n := |b| - 1;
      SumOutsideAppend(a, b[..n], w, expired);
      assert (a + b)[..|a + b| - 1] == a + b[..n];
    }
  }

  lemma {:induction false} LotBalanceAppend(a: seq<Entry>, b: seq<Entry>, w: WalletId, lot: LotId)
    ensures LotBalance(a + b, w, lot) == LotBalance(a, w, lot) + LotBalance(b, w, lot)
  {
    if b == [] {
      assert a + b == a;
    } else {
      var n := |b| - 1;
      LotBalanceAppend(a, b[..n], w, lot);
      assert (a + b)[..|a + b| - 1] == a + b[..n];
    }
  }

  /** The seconds a list of lots still holds at a time, lot by lot. */
  function HeldAt(entries: seq<Entry>, w: WalletId, lots: seq<Lot>, at: int): int {
    if lots == [] then 0
    else
      var l := lots[|lots| - 1];
      HeldAt(entries, w, lots[..|lots| - 1], at) + if l.LiveAt(at) then LotBalance(entries, w, l.id) else 0
  }

  /** Every entry of the wallet names one of these lots. */
  ghost predicate Named(entries: seq<Entry>, w: WalletId, lots: seq<Lot>) {
    forall e :: e in entries && e.wallet == w ==> e.lot.Some? && exists l :: l in lots && l.id == e.lot.value
  }

  lemma {:induction false} HeldByNobody(e: Entry, w: WalletId, lots: seq<Lot>, at: int)
    requires e.wallet != w || e.lot.None? || forall l :: l in lots ==> l.id != e.lot.value
    ensures HeldAt([e], w, lots, at) == 0
  {
    if lots != [] {
      var l := lots[|lots| - 1];
      assert LotBalance([e], w, l.id) == 0;
      HeldByNobody(e, w, lots[..|lots| - 1], at);
    }
  }

  lemma {:induction false} HeldOnce(e: Entry, w: WalletId, lots: seq<Lot>, k: nat, at: int)
    requires DistinctLots(lots) && k < |lots| && e.wallet == w && e.lot == Some(lots[k].id)
    ensures HeldAt([e], w, lots, at) == if lots[k].LiveAt(at) then e.seconds else 0
  {
    var n := |lots| - 1;
    assert LotBalance([e], w, lots[n].id) == if lots[n].id == lots[k].id then e.seconds else 0 by {
      assert [e][..0] == [];
    }
    if k == n {
      HeldByNobody(e, w, lots[..n], at);
    } else {
      HeldOnce(e, w, lots[..n], k, at);
    }
  }

  lemma {:induction false} HeldAppend(a: seq<Entry>, b: seq<Entry>, w: WalletId, lots: seq<Lot>, at: int)
    ensures HeldAt(a + b, w, lots, at) == HeldAt(a, w, lots, at) + HeldAt(b, w, lots, at)
  {
    if lots != [] {
      var n := |lots| - 1;
      HeldAppend(a, b, w, lots[..n], at);
      LotBalanceAppend(a, b, w, lots[n].id);
    }
  }

  lemma {:induction false} HeldOfNothing(w: WalletId, lots: seq<Lot>, at: int)
    ensures HeldAt([], w, lots, at) == 0
  {
    if lots != [] { HeldOfNothing(w, lots[..|lots| - 1], at); }
  }

  /** The balance is the sum over the lots, once every entry names one of them and expiry agrees. */
  lemma {:induction false} BalanceByLots(entries: seq<Entry>, w: WalletId, lots: seq<Lot>, expired: set<LotId>, at: int)
    requires DistinctLots(lots) && Named(entries, w, lots)
    requires forall l :: l in lots ==> (l.id in expired <==> !l.LiveAt(at))
    ensures SumOutside(entries, w, expired) == HeldAt(entries, w, lots, at)
  {
    if entries == [] {
      HeldOfNothing(w, lots, at);
    } else {
      var n := |entries| - 1;
      var e := entries[n];
      BalanceByLots(entries[..n], w, lots, expired, at);
      assert entries == entries[..n] + [e];
      HeldAppend(entries[..n], [e], w, lots, at);
      assert e in entries;
      if e.wallet == w {
        var k :| 0 <= k < |lots| && lots[k].id == e.lot.value;
        HeldOnce(e, w, lots, k, at);
      } else {
        HeldByNobody(e, w, lots, at);
      }
    }
  }

  // ---------- The live lots in the order of the debit ----------

  function LiveLots(lots: seq<Lot>, w: WalletId, at: int): seq<Lot> {
    if lots == [] then []
    else
      var l := lots[|lots| - 1];
      LiveLots(lots[..|lots| - 1], w, at) + if l.wallet == w && l.LiveAt(at) then [l] else []
  }

  /** One step of a stable insertion: behind everything that does not come later. */
  function InsertLot(lots: seq<Lot>, l: Lot): seq<Lot> {
    if lots == [] || lots[|lots| - 1].Precedes(l) then lots + [l]
    else InsertLot(lots[..|lots| - 1], l) + [lots[|lots| - 1]]
  }

  function SortLots(lots: seq<Lot>): seq<Lot> {
    if lots == [] then [] else InsertLot(SortLots(lots[..|lots| - 1]), lots[|lots| - 1])
  }

  ghost predicate Sorted(lots: seq<Lot>) {
    forall i, j :: 0 <= i < j < |lots| ==> lots[i].Precedes(lots[j])
  }

  lemma {:induction false} InsertLotAt(lots: seq<Lot>, l: Lot) returns (p: nat)
    requires Sorted(lots)
    ensures p <= |lots| && InsertLot(lots, l) == lots[..p] + [l] + lots[p..]
    ensures forall i :: 0 <= i < p ==> lots[i].Precedes(l)
    ensures forall i :: p <= i < |lots| ==> l.Precedes(lots[i]) && !lots[i].Precedes(l)
  {
    if lots == [] || lots[|lots| - 1].Precedes(l) {
      p := |lots|;
      assert lots[..p] == lots;
    } else {
      var n := |lots| - 1;
      p := InsertLotAt(lots[..n], l);
      assert lots[p..] == lots[..n][p..] + [lots[n]];
    }
  }

  lemma {:induction false} SortLotsSorts(lots: seq<Lot>)
    ensures Sorted(SortLots(lots)) && multiset(SortLots(lots)) == multiset(lots)
  {
    if lots != [] {
      var n := |lots| - 1;
      SortLotsSorts(lots[..n]);
      InsertLotSorts(SortLots(lots[..n]), lots[n]);
      assert lots == lots[..n] + [lots[n]];
    }
  }

  lemma InsertLotSorts(lots: seq<Lot>, l: Lot)
    requires Sorted(lots)
    ensures Sorted(InsertLot(lots, l)) && multiset(InsertLot(lots, l)) == multiset(lots) + multiset{l}
  {
    var p := InsertLotAt(lots, l);
    SplicedIsSorted(lots, l, p);
    assert lots == lots[..p] + lots[p..];
  }

  lemma SplicedIsSorted(lots: seq<Lot>, l: Lot, p: nat)
    requires Sorted(lots) && p <= |lots|
    requires forall i :: 0 <= i < p ==> lots[i].Precedes(l)
    requires forall i :: p <= i < |lots| ==> l.Precedes(lots[i])
    ensures Sorted(lots[..p] + [l] + lots[p..])
  {
  }

  /** The sort neither loses, invents nor repeats a lot. */
  lemma {:induction false} SortLotsKeeps(lots: seq<Lot>)
    ensures forall l :: l in SortLots(lots) <==> l in lots
    ensures DistinctLots(lots) ==> DistinctLots(SortLots(lots))
  {
    if lots != [] {
      var n := |lots| - 1;
      var rest := SortLots(lots[..n]);
      SortLotsKeeps(lots[..n]);
      SortLotsSorts(lots[..n]);
      var p := InsertLotAt(rest, lots[n]);
      Inserted(rest, lots[n], p);
      assert lots == lots[..n] + [lots[n]];
      assert forall i :: 0 <= i < |rest| ==> rest[i] in lots[..n];
    }
  }

  lemma Inserted(lots: seq<Lot>, l: Lot, p: nat)
    requires p <= |lots|
    ensures forall x :: x in lots[..p] + [l] + lots[p..] <==> x in lots || x == l
    ensures DistinctLots(lots) && (forall x :: x in lots ==> x.id != l.id) ==> DistinctLots(lots[..p] + [l] + lots[p..])
  {
    assert lots == lots[..p] + lots[p..];
    assert forall i :: 0 <= i < |lots| ==> lots[i] in lots;
  }

  lemma {:induction false} LiveLotsAre(lots: seq<Lot>, w: WalletId, at: int)
    ensures forall l :: l in LiveLots(lots, w, at) <==> l in lots && l.wallet == w && l.LiveAt(at)
    ensures DistinctLots(lots) ==> DistinctLots(LiveLots(lots, w, at))
  {
    if lots != [] {
      var n := |lots| - 1;
      LiveLotsAre(lots[..n], w, at);
      assert lots == lots[..n] + [lots[n]];
      var rest := LiveLots(lots[..n], w, at);
      assert forall i :: 0 <= i < |rest| ==> rest[i] in lots[..n];
    }
  }

  function DebitOrder(lots: seq<Lot>, w: WalletId, at: int): seq<Lot> {
    SortLots(LiveLots(lots, w, at))
  }

  lemma DebitOrderIs(lots: seq<Lot>, w: WalletId, at: int)
    requires DistinctLots(lots)
    ensures var order := DebitOrder(lots, w, at);
      && Sorted(order) && DistinctLots(order)
      && forall l :: l in order <==> l in lots && l.wallet == w && l.LiveAt(at)
  {
    LiveLotsAre(lots, w, at);
    SortLotsSorts(LiveLots(lots, w, at));
    SortLotsKeeps(LiveLots(lots, w, at));
  }

  // ---------- The plan of a debit ----------

  function Pos(n: int): nat { if n > 0 then n else 0 }

  /** All the seconds that the first lots of the order can give. */
  function Supply(order: seq<Lot>, entries: seq<Entry>, w: WalletId): nat {
    if order == [] then 0
    else Supply(order[..|order| - 1], entries, w) + Pos(LotBalance(entries, w, order[|order| - 1].id))
  }

  /** The seconds still missing after draining the first lots of the order. */
  function Missing(order: seq<Lot>, entries: seq<Entry>, w: WalletId, amount: nat): nat {
    if order == [] then amount
    else
      var missing := Missing(order[..|order| - 1], entries, w, amount);
      var available := Pos(LotBalance(entries, w, order[|order| - 1].id));
      if available < missing then missing - available else 0
  }

  function Taken(order: seq<Lot>, entries: seq<Entry>, w: WalletId, amount: nat, i: nat): int
    requires i < |order|
  {
    Missing(order[..i], entries, w, amount) - Missing(order[..i + 1], entries, w, amount)
  }

  datatype Debit = Debit(wallet: WalletId, seconds: int, key: string, reason: string, at: int)

  function Digits(n: nat): string {
    var d := "0123456789"[n % 10];
    if n < 10 then [d] else Digits(n / 10) + [d]
  }

  function EntryKey(key: string, n: nat): string { key + ":" + Digits(n) }

  function DebitEntry(d: Debit, id: LedgerId, lot: LotId, taken: int, n: nat): Entry {
    Entry(id, d.wallet, Some(lot), RideDebit, -taken, EntryKey(d.key, n), d.reason, d.at)
  }

  /** The entries a debit appends: one for each lot it takes something from, numbered in order. */
  function Plan(order: seq<Lot>, entries: seq<Entry>, d: Debit, ids: nat -> LedgerId): seq<Entry>
    requires d.seconds >= 0
  {
    if order == [] then []
    else
      var n := |order| - 1;
      var before := Plan(order[..n], entries, d, ids);
      var taken := Missing(order[..n], entries, d.wallet, d.seconds) - Missing(order, entries, d.wallet, d.seconds);
      before + if taken == 0 then [] else [DebitEntry(d, ids(|before|), order[n].id, taken, |before|)]
  }

  lemma {:induction false} MissingIs(order: seq<Lot>, entries: seq<Entry>, w: WalletId, amount: nat)
    ensures Missing(order, entries, w, amount) == Pos(amount - Supply(order, entries, w))
  {
    if order != [] { MissingIs(order[..|order| - 1], entries, w, amount); }
  }

  lemma PlanStep(order: seq<Lot>, entries: seq<Entry>, d: Debit, ids: nat -> LedgerId)
    returns (before: seq<Entry>, tail: seq<Entry>)
    requires d.seconds >= 0 && order != []
    ensures var n := |order| - 1; var taken := Taken(order, entries, d.wallet, d.seconds, n);
      && order[..n + 1] == order && order == order[..n] + [order[n]]
      && before == Plan(order[..n], entries, d, ids) && Plan(order, entries, d, ids) == before + tail
      && taken == Missing(order[..n], entries, d.wallet, d.seconds) - Missing(order, entries, d.wallet, d.seconds)
      && tail == (if taken == 0 then [] else [DebitEntry(d, ids(|before|), order[n].id, taken, |before|)])
      && (forall lot :: LotBalance(tail, d.wallet, lot) == if lot == order[n].id then -taken else 0)
      && (forall expired :: order[n].id !in expired ==> SumOutside(tail, d.wallet, expired) == -taken)
  {
    var n := |order| - 1;
    assert order[..n + 1] == order;
    before := Plan(order[..n], entries, d, ids);
    var taken := Taken(order, entries, d.wallet, d.seconds, n);
    tail := if taken == 0 then [] else [DebitEntry(d, ids(|before|), order[n].id, taken, |before|)];
    assert taken != 0 ==> tail[..0] == [];
  }

  /** Entry k of a debit: of its wallet, with its numbered key, taking something from a lot of the order. */
  ghost predicate IsPart(e: Entry, order: seq<Lot>, d: Debit, k: nat) {
    && e.wallet == d.wallet && e.kind == RideDebit && e.seconds < 0 && e.key == EntryKey(d.key, k)
    && e.lot.Some? && exists l :: l in order && l.id == e.lot.value
  }

  lemma {:induction false} PlanEntries(order: seq<Lot>, entries: seq<Entry>, d: Debit, ids: nat -> LedgerId, plan: seq<Entry>)
    requires d.seconds >= 0 && plan == Plan(order, entries, d, ids)
    ensures forall k :: 0 <= k < |plan| ==> IsPart(plan[k], order, d, k)
  {
    if order != [] {
      var n := |order| - 1;
      var before := Plan(order[..n], entries, d, ids);
      PlanEntries(order[..n], entries, d, ids, before);
      forall k | 0 <= k < |plan|
        ensures IsPart(plan[k], order, d, k)
      {
        if k < |before| { assert plan[k] == before[k] && IsPart(before[k], order[..n], d, k); } else { assert order[n] in order; }
      }
    }
  }

  lemma {:induction false} PlanOutside(order: seq<Lot>, entries: seq<Entry>, d: Debit, ids: nat -> LedgerId, lot: LotId)
    requires d.seconds >= 0 && forall i :: 0 <= i < |order| ==> order[i].id != lot
    ensures LotBalance(Plan(order, entries, d, ids), d.wallet, lot) == 0
  {
    if order != [] {
      var n := |order| - 1;
      var before, tail := PlanStep(order, entries, d, ids);
      PlanOutside(order[..n], entries, d, ids, lot);
      LotBalanceAppend(before, tail, d.wallet, lot);
    }
  }

  /** What the plan takes from each lot. */
  lemma {:induction false} PlanTakes(order: seq<Lot>, entries: seq<Entry>, d: Debit, ids: nat -> LedgerId, i: nat)
    requires DistinctLots(order) && d.seconds >= 0 && i < |order|
    ensures LotBalance(Plan(order, entries, d, ids), d.wallet, order[i].id)
      == -Taken(order, entries, d.wallet, d.seconds, i)
  {
    var n := |order| - 1;
    var before, tail := PlanStep(order, entries, d, ids);
    LotBalanceAppend(before, tail, d.wallet, order[i].id);
    if i == n {
      PlanOutside(order[..n], entries, d, ids, order[n].id);
    } else {
      PlanTakes(order[..n], entries, d, ids, i);
      assert order[..n][..i] == order[..i] && order[..n][..i + 1] == order[..i + 1];
    }
  }

  /** No lot that had something is overdrawn, and an overdrawn lot is left alone. */
  lemma PlanSparesLots(order: seq<Lot>, entries: seq<Entry>, d: Debit, ids: nat -> LedgerId, i: nat)
    requires DistinctLots(order) && d.seconds >= 0 && i < |order|
    ensures var was := LotBalance(entries, d.wallet, order[i].id);
      var now_left := LotBalance(entries + Plan(order, entries, d, ids), d.wallet, order[i].id);
      if was > 0 then 0 <= now_left <= was else now_left == was
  {
    PlanTakes(order, entries, d, ids, i);
    LotBalanceAppend(entries, Plan(order, entries, d, ids), d.wallet, order[i].id);
    assert order[..i + 1][..i] == order[..i];
  }

  lemma {:induction false} PlanTotal(order: seq<Lot>, entries: seq<Entry>, d: Debit, ids: nat -> LedgerId, expired: set<LotId>)
    requires d.seconds >= 0 && forall l :: l in order ==> l.id !in expired
    ensures SumOutside(Plan(order, entries, d, ids), d.wallet, expired)
      == Missing(order, entries, d.wallet, d.seconds) - d.seconds
  {
    if order != [] {
      var n := |order| - 1;
      var before, tail := PlanStep(order, entries, d, ids);
      assert order[n] in order;
      PlanTotal(order[..n], entries, d, ids, expired);
      SumOutsideAppend(before, tail, d.wallet, expired);
    }
  }

  lemma {:induction false} SupplyCoversHeld(order: seq<Lot>, entries: seq<Entry>, w: WalletId, at: int)
    requires forall l :: l in order ==> l.LiveAt(at)
    ensures Supply(order, entries, w) >= HeldAt(entries, w, order, at)
  {
    if order != [] {
      SupplyCoversHeld(order[..|order| - 1], entries, w, at);
      assert order[|order| - 1] in order;
    }
  }

  ghost predicate LotsOf(lots: seq<Lot>, w: WalletId, part: seq<Lot>) {
    forall l :: l in part <==> l in lots && l.wallet == w
  }

  function WalletLots(lots: seq<Lot>, w: WalletId): seq<Lot> {
    if lots == [] then []
    else WalletLots(lots[..|lots| - 1], w) + if lots[|lots| - 1].wallet == w then [lots[|lots| - 1]] else []
  }

  lemma {:induction false} WalletLotsAre(lots: seq<Lot>, w: WalletId)
    ensures LotsOf(lots, w, WalletLots(lots, w))
    ensures DistinctLots(lots) ==> DistinctLots(WalletLots(lots, w))
  {
    if lots != [] {
      var n := |lots| - 1;
      WalletLotsAre(lots[..n], w);
      assert lots == lots[..n] + [lots[n]];
      var rest := WalletLots(lots[..n], w);
      assert forall i :: 0 <= i < |rest| ==> rest[i] in lots[..n];
    }
  }

  lemma {:induction false} HeldIgnoresDead(entries: seq<Entry>, lots: seq<Lot>, w: WalletId, at: int)
    ensures HeldAt(entries, w, WalletLots(lots, w), at) == HeldAt(entries, w, LiveLots(lots, w, at), at)
  {
    if lots != [] {
      var n := |lots| - 1;
      HeldIgnoresDead(entries, lots[..n], w, at);
      var l := lots[n];
      HeldSnoc(entries, WalletLots(lots[..n], w), l, w, at);
      HeldSnoc(entries, LiveLots(lots[..n], w, at), l, w, at);
    }
  }

  lemma HeldSnoc(entries: seq<Entry>, lots: seq<Lot>, l: Lot, w: WalletId, at: int)
    ensures HeldAt(entries, w, lots + [l], at)
      == HeldAt(entries, w, lots, at) + if l.LiveAt(at) then LotBalance(entries, w, l.id) else 0
    ensures lots + [] == lots
  {
    assert (lots + [l])[..|lots|] == lots;
  }

  lemma {:induction false} HeldInsert(entries: seq<Entry>, lots: seq<Lot>, l: Lot, w: WalletId, at: int)
    ensures HeldAt(entries, w, InsertLot(lots, l), at)
      == HeldAt(entries, w, lots, at) + if l.LiveAt(at) then LotBalance(entries, w, l.id) else 0
  {
    if lots == [] || lots[|lots| - 1].Precedes(l) {
      HeldSnoc(entries, lots, l, w, at);
    } else {
      var n := |lots| - 1;
      HeldInsert(entries, lots[..n], l, w, at);
      HeldSnoc(entries, InsertLot(lots[..n], l), lots[n], w, at);
    }
  }

  lemma {:induction false} HeldSort(entries: seq<Entry>, lots: seq<Lot>, w: WalletId, at: int)
    ensures HeldAt(entries, w, SortLots(lots), at) == HeldAt(entries, w, lots, at)
  {
    if lots != [] {
      var n := |lots| - 1;
      HeldSort(entries, lots[..n], w, at);
      HeldInsert(entries, SortLots(lots[..n]), lots[n], w, at);
    }
  }

  lemma ExpiredMeansDead(lots: seq<Lot>, w: WalletId, at: int, l: Lot)
    requires DistinctLots(lots) && l in lots && l.wallet == w
    ensures l.id in ExpiredLots(lots, w, at) <==> !l.LiveAt(at)
  {
    if l.id in ExpiredLots(lots, w, at) {
      var other :| other in lots && other.wallet == w && !other.LiveAt(at) && other.id == l.id;
      var i :| 0 <= i < |lots| && lots[i] == l;
      var j :| 0 <= j < |lots| && lots[j] == other;
      assert i == j;
    }
  }

  /** A wallet whose entries all name lots of the wallet holds no more than its live lots can give. */
  lemma BalanceIsCovered(entries: seq<Entry>, lots: seq<Lot>, w: WalletId, at: int)
    requires DistinctLots(lots) && Named(entries, w, WalletLots(lots, w))
    ensures Balance(entries, lots, w, at) <= Supply(DebitOrder(lots, w, at), entries, w)
  {
    WalletLotsAre(lots, w);
    forall l | l in WalletLots(lots, w)
      ensures l.id in ExpiredLots(lots, w, at) <==> !l.LiveAt(at)
    {
      ExpiredMeansDead(lots, w, at, l);
    }
    BalanceByLots(entries, w, WalletLots(lots, w), ExpiredLots(lots, w, at), at);
    HeldIgnoresDead(entries, lots, w, at);
    HeldSort(entries, LiveLots(lots, w, at), w, at);
    DebitOrderIs(lots, w, at);
    SupplyCoversHeld(DebitOrder(lots, w, at), entries, w, at);
  }

  // ---------- Exactness ----------

  /** A debit covers the amount exactly when the positive live lots can give it; what it appended then
      lowers the balance by exactly the amount. */
  lemma DebitIsExact(entries: seq<Entry>, lots: seq<Lot>, d: Debit, ids: nat -> LedgerId)
    requires DistinctLots(lots) && d.seconds > 0
    ensures var order := DebitOrder(lots, d.wallet, d.at);
      && (Missing(order, entries, d.wallet, d.seconds) == 0 <==> d.seconds <= Supply(order, entries, d.wallet))
      && Balance(entries + Plan(order, entries, d, ids), lots, d.wallet, d.at)
         == Balance(entries, lots, d.wallet, d.at) - (d.seconds - Missing(order, entries, d.wallet, d.seconds))
  {
    var order := DebitOrder(lots, d.wallet, d.at);
    OrderIsAlive(lots, d, order);
    MissingIs(order, entries, d.wallet, d.seconds);
    PlanLowers(order, entries, d, ids, ExpiredLots(lots, d.wallet, d.at));
  }

  lemma OrderIsAlive(lots: seq<Lot>, d: Debit, order: seq<Lot>)
    requires DistinctLots(lots) && order == DebitOrder(lots, d.wallet, d.at)
    ensures DistinctLots(order) && forall l :: l in order ==> l.id !in ExpiredLots(lots, d.wallet, d.at)
  {
    DebitOrderIs(lots, d.wallet, d.at);
    forall l | l in order
      ensures l.id !in ExpiredLots(lots, d.wallet, d.at)
    {
      ExpiredMeansDead(lots, d.wallet, d.at, l);
    }
  }

  lemma PlanLowers(order: seq<Lot>, entries: seq<Entry>, d: Debit, ids: nat -> LedgerId, expired: set<LotId>)
    requires DistinctLots(order) && d.seconds > 0 && forall l :: l in order ==> l.id !in expired
    ensures SumOutside(entries + Plan(order, entries, d, ids), d.wallet, expired)
      == SumOutside(entries, d.wallet, expired) - (d.seconds - Missing(order, entries, d.wallet, d.seconds))
  {
    PlanTotal(order, entries, d, ids, expired);
    SumOutsideAppend(entries, Plan(order, entries, d, ids), d.wallet, expired);
  }

  // ---------- Optimality ----------

  /** Another way to take the same seconds: entries of the wallet on its live lots that together take
      `d.seconds`, add to no lot, and take from no lot more than it has. */
  ghost predicate Alternative(other: seq<Entry>, entries: seq<Entry>, lots: seq<Lot>, d: Debit) {
    var order := DebitOrder(lots, d.wallet, d.at);
    && (forall e :: e in other ==> e.wallet == d.wallet)
    && Named(other, d.wallet, order)
    && Balance(other, lots, d.wallet, d.at) == -d.seconds
    && TakesWithin(other, entries, d.wallet, order)
  }

  predicate TakesFrom(other: seq<Entry>, entries: seq<Entry>, w: WalletId, lot: LotId) {
    0 <= -LotBalance(other, w, lot) <= Pos(LotBalance(entries, w, lot))
  }

  ghost predicate TakesWithin(other: seq<Entry>, entries: seq<Entry>, w: WalletId, order: seq<Lot>) {
    forall l :: l in order ==> TakesFrom(other, entries, w, l.id)
  }

  /** How many of the sorted lots have expired by a later time. */
  function DeadPrefix(order: seq<Lot>, at: int): nat {
    if order == [] then 0
    else DeadPrefix(order[..|order| - 1], at) + if order[|order| - 1].LiveAt(at) then 0 else 1
  }

  lemma {:induction false} DeadPrefixSplits(order: seq<Lot>, at: int)
    requires Sorted(order)
    ensures DeadPrefix(order, at) <= |order|
    ensures forall i :: 0 <= i < |order| ==> (order[i].LiveAt(at) <==> DeadPrefix(order, at) <= i)
  {
    if order != [] {
      var n := |order| - 1;
      DeadPrefixSplits(order[..n], at);
      if !order[n].LiveAt(at) {
        assert forall i :: 0 <= i < n ==> order[i].Precedes(order[n]) && !order[i].LiveAt(at);
      }
    }
  }

  /** Among the first lots, no alternative takes more than the plan, which takes all it can. */
  lemma {:induction false} PrefixDominates(order: seq<Lot>, other: seq<Entry>, entries: seq<Entry>, w: WalletId, at: int, p: nat)
    requires p <= |order| && forall l :: l in order ==> l.LiveAt(at)
    requires TakesWithin(other, entries, w, order)
    ensures 0 <= -HeldAt(other, w, order[..p], at) <= Supply(order[..p], entries, w)
    ensures HeldAt(other, w, order, at) <= HeldAt(other, w, order[..p], at)
    decreases |order|
  {
    if order == [] {
    } else {
      var n := |order| - 1;
      assert order[n] in order && TakesFrom(other, entries, w, order[n].id);
      if p <= n {
        PrefixDominates(order[..n], other, entries, w, at, p);
        assert order[..n][..p] == order[..p];
      } else {
        PrefixDominates(order[..n], other, entries, w, at, n);
        assert order[..n][..n] == order[..n] && order[..p] == order;
      }
    }
  }

  /** Later, exactly the lots behind the dead prefix still count. */
  lemma {:induction false} HeldLater(order: seq<Lot>, entries: seq<Entry>, w: WalletId, at: int, later: int, p: nat)
    requires p <= |order| && forall l :: l in order ==> l.LiveAt(at)
    requires forall i :: 0 <= i < |order| ==> (order[i].LiveAt(later) <==> p <= i)
    ensures HeldAt(entries, w, order, later) == HeldAt(entries, w, order, at) - HeldAt(entries, w, order[..p], at)
    decreases |order|
  {
    if order != [] {
      var n := |order| - 1;
      assert order[n] in order;
      if p <= n {
        HeldLater(order[..n], entries, w, at, later, p);
        assert order[..n][..p] == order[..p];
      } else {
        HeldLater(order[..n], entries, w, at, later, n);
        assert order[..n][..n] == order[..n] && order[..p] == order;
      }
    }
  }

  lemma LaterBalance(other: seq<Entry>, lots: seq<Lot>, w: WalletId, at: int, later: int)
    requires DistinctLots(lots) && at <= later && Named(other, w, DebitOrder(lots, w, at))
    ensures Balance(other, lots, w, later) == HeldAt(other, w, DebitOrder(lots, w, at), later)
  {
    var order := DebitOrder(lots, w, at);
    DebitOrderIs(lots, w, at);
    forall l | l in order
      ensures l.id in ExpiredLots(lots, w, later) <==> !l.LiveAt(later)
    {
      ExpiredMeansDead(lots, w, later, l);
    }
    BalanceByLots(other, w, order, ExpiredLots(lots, w, later), later);
  }

  lemma {:induction false} PlanPrefix(order: seq<Lot>, entries: seq<Entry>, d: Debit, ids: nat -> LedgerId, p: nat)
    requires DistinctLots(order) && d.seconds >= 0 && p <= |order| && forall l :: l in order ==> l.LiveAt(d.at)
    ensures HeldAt(Plan(order, entries, d, ids), d.wallet, order[..p], d.at)
      == Missing(order[..p], entries, d.wallet, d.seconds) - d.seconds
  {
    if p > 0 {
      PlanPrefix(order, entries, d, ids, p - 1);
      PlanTakes(order, entries, d, ids, p - 1);
      assert order[..p][..p - 1] == order[..p - 1];
      assert order[p - 1] in order;
    }
  }

  /** The order of a debit, and how many of its lots have expired by a later time. */
  ghost predicate Split(lots: seq<Lot>, w: WalletId, at: int, later: int, order: seq<Lot>, p: nat) {
    order == DebitOrder(lots, w, at) && p == DeadPrefix(order, later)
  }

  lemma SplitIs(lots: seq<Lot>, w: WalletId, at: int, later: int, order: seq<Lot>, p: nat)
    requires DistinctLots(lots) && Split(lots, w, at, later, order, p)
    ensures p <= |order| && DistinctLots(order) && forall l :: l in order ==> l.LiveAt(at)
    ensures forall i :: 0 <= i < |order| ==> (order[i].LiveAt(later) <==> p <= i)
  {
    DebitOrderIs(lots, w, at);
    DeadPrefixSplits(order, later);
  }

  /** What the plan costs later: only what the lots that have expired by then could not give. */
  lemma PlanCostsLater(entries: seq<Entry>, lots: seq<Lot>, d: Debit, ids: nat -> LedgerId, later: int, order: seq<Lot>, p: nat)
    requires DistinctLots(lots) && d.seconds > 0 && d.at <= later && Split(lots, d.wallet, d.at, later, order, p)
    requires Missing(order, entries, d.wallet, d.seconds) == 0
    ensures p <= |order|
    ensures Balance(Plan(order, entries, d, ids), lots, d.wallet, later) + Pos(d.seconds - Supply(order[..p], entries, d.wallet)) == 0
  {
    SplitIs(lots, d.wallet, d.at, later, order, p);
    PlanIsNamed(order, entries, d, ids);
    LaterBalance(Plan(order, entries, d, ids), lots, d.wallet, d.at, later);
    HeldByPlan(order, entries, d, ids, later, p);
  }

  lemma HeldByPlan(order: seq<Lot>, entries: seq<Entry>, d: Debit, ids: nat -> LedgerId, later: int, p: nat)
    requires DistinctLots(order) && d.seconds > 0 && p <= |order| && forall l :: l in order ==> l.LiveAt(d.at)
    requires forall i :: 0 <= i < |order| ==> (order[i].LiveAt(later) <==> p <= i)
    requires Missing(order, entries, d.wallet, d.seconds) == 0
    ensures HeldAt(Plan(order, entries, d, ids), d.wallet, order, later) + Pos(d.seconds - Supply(order[..p], entries, d.wallet)) == 0
  {
    HeldLater(order, Plan(order, entries, d, ids), d.wallet, d.at, later, p);
    PlanPrefix(order, entries, d, ids, p);
    PlanPrefix(order, entries, d, ids, |order|);
    assert order[..|order|] == order;
    MissingIs(order[..p], entries, d.wallet, d.seconds);
  }

  /** Any alternative costs at least that much. */
  lemma AlternativeCostsLater(entries: seq<Entry>, lots: seq<Lot>, d: Debit, other: seq<Entry>, later: int, order: seq<Lot>, p: nat)
    requires DistinctLots(lots) && d.seconds > 0 && d.at <= later && Split(lots, d.wallet, d.at, later, order, p)
    requires Alternative(other, entries, lots, d)
    ensures p <= |order|
    ensures Balance(other, lots, d.wallet, later) + Pos(d.seconds - Supply(order[..p], entries, d.wallet)) <= 0
  {
    SplitIs(lots, d.wallet, d.at, later, order, p);
    AlternativeTakes(entries, lots, d, other, order);
    WithinCostsLater(entries, lots, d, other, later, order, p);
  }

  lemma AlternativeTakes(entries: seq<Entry>, lots: seq<Lot>, d: Debit, other: seq<Entry>, order: seq<Lot>)
    requires DistinctLots(lots) && d.seconds > 0 && Alternative(other, entries, lots, d) && order == DebitOrder(lots, d.wallet, d.at)
    ensures Named(other, d.wallet, order) && TakesWithin(other, entries, d.wallet, order)
    ensures HeldAt(other, d.wallet, order, d.at) + d.seconds == 0
  {
    LaterBalance(other, lots, d.wallet, d.at, d.at);
  }

  lemma WithinCostsLater(entries: seq<Entry>, lots: seq<Lot>, d: Debit, other: seq<Entry>, later: int, order: seq<Lot>, p: nat)
    requires DistinctLots(lots) && d.seconds > 0 && d.at <= later && order == DebitOrder(lots, d.wallet, d.at) && p <= |order|
    requires forall l :: l in order ==> l.LiveAt(d.at)
    requires forall i :: 0 <= i < |order| ==> (order[i].LiveAt(later) <==> p <= i)
    requires Named(other, d.wallet, order) && TakesWithin(other, entries, d.wallet, order)
    requires HeldAt(other, d.wallet, order, d.at) + d.seconds == 0
    ensures Balance(other, lots, d.wallet, later) + Pos(d.seconds - Supply(order[..p], entries, d.wallet)) <= 0
  {
    LaterBalance(other, lots, d.wallet, d.at, later);
    HeldByAlternative(order, other, entries, d.wallet, d.at, later, p, d.seconds);
  }

  lemma HeldByAlternative(order: seq<Lot>, other: seq<Entry>, entries: seq<Entry>, w: WalletId, at: int, later: int,
                          p: nat, amount: nat)
    requires p <= |order| && forall l :: l in order ==> l.LiveAt(at)
    requires forall i :: 0 <= i < |order| ==> (order[i].LiveAt(later) <==> p <= i)
    requires TakesWithin(other, entries, w, order)
    requires HeldAt(other, w, order, at) + amount == 0
    ensures HeldAt(other, w, order, later) + Pos(amount - Supply(order[..p], entries, w)) <= 0
  {
    HeldLater(order, other, w, at, later, p);
    PrefixDominates(order, other, entries, w, at, p);
  }

  /** Main result: draining the lots that expire first is optimal at every later time at once. No other
      way of taking the same seconds from the live lots leaves a larger balance, however many lots have
      expired by then. */
  lemma FirstToExpireIsOptimal(entries: seq<Entry>, lots: seq<Lot>, d: Debit, ids: nat -> LedgerId,
                               other: seq<Entry>, later: int)
    requires DistinctLots(lots) && d.seconds > 0 && d.at <= later
    requires Missing(DebitOrder(lots, d.wallet, d.at), entries, d.wallet, d.seconds) == 0
    requires Alternative(other, entries, lots, d)
    ensures Balance(entries + Plan(DebitOrder(lots, d.wallet, d.at), entries, d, ids), lots, d.wallet, later)
      >= Balance(entries + other, lots, d.wallet, later)
  {
    var order := DebitOrder(lots, d.wallet, d.at);
    var p := DeadPrefix(order, later);
    PlanCostsLater(entries, lots, d, ids, later, order, p);
    AlternativeCostsLater(entries, lots, d, other, later, order, p);
    var plan := Plan(order, entries, d, ids);
    SumOutsideAppend(entries, plan, d.wallet, ExpiredLots(lots, d.wallet, later));
    SumOutsideAppend(entries, other, d.wallet, ExpiredLots(lots, d.wallet, later));
  }

  lemma PlanIsNamed(order: seq<Lot>, entries: seq<Entry>, d: Debit, ids: nat -> LedgerId)
    requires d.seconds >= 0
    ensures Named(Plan(order, entries, d, ids), d.wallet, order)
  {
    PlanEntries(order, entries, d, ids, Plan(order, entries, d, ids));
  }

  /** The plan is itself one of the ways it is compared with. */
  lemma PlanIsAlternative(entries: seq<Entry>, lots: seq<Lot>, d: Debit, ids: nat -> LedgerId)
    requires DistinctLots(lots) && d.seconds > 0
    requires Missing(DebitOrder(lots, d.wallet, d.at), entries, d.wallet, d.seconds) == 0
    ensures Alternative(Plan(DebitOrder(lots, d.wallet, d.at), entries, d, ids), entries, lots, d)
  {
    var order := DebitOrder(lots, d.wallet, d.at);
    DebitOrderIs(lots, d.wallet, d.at);
    PlanEntries(order, entries, d, ids, Plan(order, entries, d, ids));
    forall l | l in order
      ensures l.id !in ExpiredLots(lots, d.wallet, d.at)
    {
      ExpiredMeansDead(lots, d.wallet, d.at, l);
    }
    forall l | l in order
      ensures TakesFrom(Plan(order, entries, d, ids), entries, d.wallet, l.id)
    {
      var i :| 0 <= i < |order| && order[i] == l;
      TakenFrom(order, entries, d, ids, i);
    }
    PlanTotal(order, entries, d, ids, ExpiredLots(lots, d.wallet, d.at));
  }

  lemma TakenFrom(order: seq<Lot>, entries: seq<Entry>, d: Debit, ids: nat -> LedgerId, i: nat)
    requires DistinctLots(order) && d.seconds >= 0 && i < |order|
    ensures 0 <= -LotBalance(Plan(order, entries, d, ids), d.wallet, order[i].id) <= Pos(LotBalance(entries, d.wallet, order[i].id))
  {
    PlanTakes(order, entries, d, ids, i);
    assert order[..i + 1][..i] == order[..i];
  }
}

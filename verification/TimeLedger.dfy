/** The append-only ledger object: lots, entries and the idempotency index, with the debit's loop. */
module WalletLedger {
  import opened Ledger
  import opened LedgerOrder

  const MAX_SAFE_INTEGER: int := 9_007_199_254_740_991

  predicate Safe(n: int) { -MAX_SAFE_INTEGER <= n <= MAX_SAFE_INTEGER }

  datatype Error =
    | LotNotPositive | LotExists | BadSeconds | ReasonTooShort
    | BadDebit | InsufficientBalance | LotInvariantViolated

  datatype Result<+T> = Ok(value: T) | Err(error: Error)

  // ---------- Keys ----------

  predicate StartsWith(s: string, prefix: string) {
    |prefix| <= |s| && s[..|prefix|] == prefix
  }

  /** Whether an entry's key is this key extended by a colon. */
  predicate Extends(s: string, key: string) { StartsWith(s, key + ":") }

  /** The entries that a debit with this key takes for its own earlier run. */
  function Existing(entries: seq<Entry>, key: string): seq<Entry> {
    if entries == [] then []
    else
      var e := entries[|entries| - 1];
      Existing(entries[..|entries| - 1], key) + if Extends(e.key, key) then [e] else []
  }

  lemma {:induction false} DigitsPlain(n: nat)
    ensures Digits(n) != "" && forall i :: 0 <= i < |Digits(n)| ==> Digits(n)[i] in "0123456789"
  {
    if n >= 10 { DigitsPlain(n / 10); }
  }

  lemma {:induction false} DigitsInjective(a: nat, b: nat)
    requires Digits(a) == Digits(b)
    ensures a == b
  {
    var x, y := Digits(a), Digits(b);
    assert x[|x| - 1] == "0123456789"[a % 10] && y[|y| - 1] == "0123456789"[b % 10];
    assert a % 10 == b % 10;
    if a >= 10 {
      DigitsPlain(a / 10);
      assert x[..|x| - 1] == Digits(a / 10);
      if b >= 10 {
        assert y[..|y| - 1] == Digits(b / 10);
        DigitsInjective(a / 10, b / 10);
      }
    } else if b >= 10 {
      DigitsPlain(b / 10);
    }
  }

  lemma EntryKeyStarts(key: string, n: nat)
    ensures Extends(EntryKey(key, n), key)
    ensures forall m: nat :: EntryKey(key, m) == EntryKey(key, n) ==> m == n
  {
    assert EntryKey(key, n) == (key + ":") + Digits(n);
    forall m: nat | EntryKey(key, m) == EntryKey(key, n)
      ensures m == n
    {
      assert EntryKey(key, m)[|key| + 1..] == Digits(m) && EntryKey(key, n)[|key| + 1..] == Digits(n);
      DigitsInjective(m, n);
    }
  }

  /** Among the keys of debit entries: one debit's entry is taken for another debit's exactly when the keys are
      the same or the first key extends the second by a colon. */
  lemma DebitEntryIff(key: string, other: string, n: nat)
    ensures Extends(EntryKey(other, n), key) <==> other == key || Extends(other, key)
  {
    var s, prefix := EntryKey(other, n), key + ":";
    EntryKeyStarts(other, n);
    DigitsPlain(n);
    assert forall i :: 0 <= i < |other| ==> s[i] == other[i];
    assert s[|other|] == ':' && forall i :: |other| < i < |s| ==> s[i] == Digits(n)[i - |other| - 1];
    if StartsWith(s, prefix) {
      assert s[|key|] == prefix[|key|] == ':';
      assert |key| <= |other|;
      assert forall i :: 0 <= i < |key| ==> key[i] == prefix[i] == s[..|prefix|][i];
      if |key| == |other| {
        assert key == other;
      } else {
        assert other[..|prefix|] == prefix;
      }
    }
    if StartsWith(other, prefix) {
      assert s[..|prefix|] == other[..|prefix|];
    }
  }

  lemma {:induction false} ExistingAppend(a: seq<Entry>, b: seq<Entry>, key: string)
    ensures Existing(a + b, key) == Existing(a, key) + Existing(b, key)
  {
    if b == [] {
      assert a + b == a;
    } else {
      var n := |b| - 1;
      ExistingAppend(a, b[..n], key);
      assert (a + b)[..|a + b| - 1] == a + b[..n];
    }
  }

  lemma {:induction false} ExistingOfAll(entries: seq<Entry>, key: string)
    requires forall i :: 0 <= i < |entries| ==> Extends(entries[i].key, key)
    ensures Existing(entries, key) == entries
  {
    if entries != [] {
      ExistingOfAll(entries[..|entries| - 1], key);
    }
  }

  lemma {:induction false} ExistingOfNone(entries: seq<Entry>, key: string)
    ensures Existing(entries, key) == [] <==> forall i :: 0 <= i < |entries| ==> !Extends(entries[i].key, key)
  {
    if entries != [] {
      var n := |entries| - 1;
      ExistingOfNone(entries[..n], key);
      if Existing(entries, key) == [] {
        assert forall i :: 0 <= i < n ==> entries[..n][i] == entries[i];
      }
    }
  }

  /** The key is this key, a colon and something more. */
  predicate ExtendsBy(s: string, key: string, tail: string) { s == key + ":" + tail }

  lemma ExtendsMeans(s: string, key: string)
    ensures Extends(s, key) <==> exists tail :: ExtendsBy(s, key, tail)
  {
    var prefix := key + ":";
    if Extends(s, key) {
      assert s == s[..|prefix|] + s[|prefix|..];
      assert ExtendsBy(s, key, s[|prefix|..]);
    }
    if tail :| ExtendsBy(s, key, tail) {
      assert s[..|prefix|] == prefix;
    }
  }

  /** A debit is taken for one already done exactly when some entry, of any kind and any wallet, has a key that
      is the debit's, a colon and something more. */
  lemma TakenForDoneIff(entries: seq<Entry>, key: string)
    ensures Existing(entries, key) != [] <==> exists i, tail :: 0 <= i < |entries| && ExtendsBy(entries[i].key, key, tail)
  {
    ExistingOfNone(entries, key);
    forall i | 0 <= i < |entries|
      ensures Extends(entries[i].key, key) <==> exists tail :: ExtendsBy(entries[i].key, key, tail)
    {
      ExtendsMeans(entries[i].key, key);
    }
  }

  lemma PlanExists(entries: seq<Entry>, order: seq<Lot>, d: Debit, ids: nat -> LedgerId, more: seq<Entry>)
    requires d.seconds >= 0 && Existing(entries, d.key) == []
    ensures
      var plan := Plan(order, entries, d, ids);
      Existing(entries + plan + more, d.key) == plan + Existing(more, d.key)
  {
    var plan := Plan(order, entries, d, ids);
    PlanKeys(order, entries, d, ids, plan);
    ExistingOfThree(entries, plan, more, d.key);
  }

  lemma ExistingOfThree(a: seq<Entry>, b: seq<Entry>, c: seq<Entry>, key: string)
    requires Existing(a, key) == [] && forall i :: 0 <= i < |b| ==> Extends(b[i].key, key)
    ensures Existing(a + b + c, key) == b + Existing(c, key)
  {
    ExistingOfTwo(a, b, key);
    ExistingAppend(a + b, c, key);
  }

  lemma ExistingOfTwo(a: seq<Entry>, b: seq<Entry>, key: string)
    requires Existing(a, key) == [] && forall i :: 0 <= i < |b| ==> Extends(b[i].key, key)
    ensures Existing(a + b, key) == b
  {
    ExistingOfAll(b, key);
    ExistingAppend(a, b, key);
    assert [] + b == b;
  }

  /** Repeating a debit returns exactly its own entries if and only if nothing appended since, by whatever call,
      has a key that extends the debit's by a colon. */
  lemma RepeatReturnsSame(entries: seq<Entry>, order: seq<Lot>, d: Debit, ids: nat -> LedgerId, more: seq<Entry>)
    requires d.seconds >= 0 && Existing(entries, d.key) == []
    ensures
      var plan := Plan(order, entries, d, ids);
      Existing(entries + plan + more, d.key) == plan <==> forall i :: 0 <= i < |more| ==> !Extends(more[i].key, d.key)
  {
    PlanExists(entries, order, d, ids, more);
    ExistingOfNone(more, d.key);
  }

  /** In particular it does if only other debits came between, none of whose keys is this key or extends it. */
  lemma RepeatAfterOtherDebits(entries: seq<Entry>, order: seq<Lot>, d: Debit, ids: nat -> LedgerId, more: seq<Entry>,
                               keys: seq<string>, parts: seq<nat>)
    requires d.seconds >= 0 && Existing(entries, d.key) == [] && |more| == |keys| == |parts|
    requires forall i :: 0 <= i < |more| ==> more[i].key == EntryKey(keys[i], parts[i])
    requires forall i :: 0 <= i < |more| ==> keys[i] != d.key && !Extends(keys[i], d.key)
    ensures
      var plan := Plan(order, entries, d, ids);
      Existing(entries + plan + more, d.key) == plan
  {
    forall i | 0 <= i < |more|
      ensures !Extends(more[i].key, d.key)
    {
      DebitEntryIff(d.key, keys[i], parts[i]);
    }
    RepeatReturnsSame(entries, order, d, ids, more);
  }

  lemma PlanKeys(order: seq<Lot>, entries: seq<Entry>, d: Debit, ids: nat -> LedgerId, plan: seq<Entry>)
    requires d.seconds >= 0 && plan == Plan(order, entries, d, ids)
    ensures forall k :: 0 <= k < |plan| ==> Extends(plan[k].key, d.key)
    ensures forall k :: 0 <= k < |plan| ==> plan[k].key == EntryKey(d.key, k)
  {
    PlanEntries(order, entries, d, ids, plan);
    forall k | 0 <= k < |plan|
      ensures Extends(plan[k].key, d.key) && plan[k].key == EntryKey(d.key, k)
    {
      assert IsPart(plan[k], order, d, k);
      EntryKeyStarts(d.key, k);
    }
  }

  // Ways the promises fail outside their conditions. A credit that names no lot counts in the balance but
  // cannot be drained: the debit stops half-way with its first entries appended. And a debit whose key is
  // extended by another's, or by any credit's, is taken for done although nothing was debited.

  lemma UnassignedCreditTrapsDebit(w: WalletId, lot: LotId, id: LedgerId, ids: nat -> LedgerId)
    ensures var lots := [Lot(lot, w, 5, None, 0)];
      var entries := [Entry(id, w, Some(lot), Purchase, 5, "p", "", 0)] + [Entry(id, w, None, Compensation, 10, "c", "", 0)];
      var order := DebitOrder(lots, w, 0);
      && Balance(entries, lots, w, 0) == 15
      && Missing(order, entries, w, 12) == 7
      && Plan(order, entries, Debit(w, 12, "ride", "", 0), ids) != []
  {
    var l := Lot(lot, w, 5, None, 0);
    var bought, given := Entry(id, w, Some(lot), Purchase, 5, "p", "", 0), Entry(id, w, None, Compensation, 10, "c", "", 0);
    OneLiveLot(l);
    TwoCredits(bought, given, lot);
    FiveOfTwelve(l, [bought] + [given], Debit(w, 12, "ride", "", 0), ids);
  }

  lemma OneLiveLot(l: Lot)
    requires l.expiresAt.None?
    ensures DebitOrder([l], l.wallet, 0) == [l] && ExpiredLots([l], l.wallet, 0) == {}
  {
    assert [l][..0] == [];
    assert LiveLots([l], l.wallet, 0) == [l] && SortLots([l]) == [l];
  }

  lemma TwoCredits(bought: Entry, given: Entry, lot: LotId)
    requires bought.wallet == given.wallet && bought.lot == Some(lot) && given.lot.None?
    ensures SumOutside([bought] + [given], bought.wallet, {}) == bought.seconds + given.seconds
    ensures LotBalance([bought] + [given], bought.wallet, lot) == bought.seconds
  {
    assert [bought][..0] == [] && [given][..0] == [];
    SumOutsideAppend([bought], [given], bought.wallet, {});
    LotBalanceAppend([bought], [given], bought.wallet, lot);
  }

  lemma FiveOfTwelve(l: Lot, entries: seq<Entry>, d: Debit, ids: nat -> LedgerId)
    requires d.seconds == 12 && LotBalance(entries, d.wallet, l.id) == 5
    ensures Missing([l], entries, d.wallet, 12) == 7 && Plan([l], entries, d, ids) != []
  {
    assert [l][..0] == [];
    assert Missing([l][..0], entries, d.wallet, 12) == 12;
  }

  lemma ExtendedKeySwallowsDebit(e: Entry)
    requires e.key == EntryKey("ride:extra", 0)
    ensures Existing([e], "ride") != []
  {
    assert "ride:extra"[..5] == "ride" + ":";
    DebitEntryIff("ride", "ride:extra", 0);
    ExistingOfNone([e], "ride");
    assert [e][0] == e;
  }

  lemma ExtendedCreditSwallowsDebit(e: Entry)
    requires e.key == "ride:refund" && e.kind == Compensation
    ensures Existing([e], "ride") == [e]
  {
    assert ExtendsBy(e.key, "ride", "refund");
    TakenForDoneIff([e], "ride");
    ExistingOfAll([e], "ride");
  }

  // ---------- The object ----------

  predicate Blank(c: char) {
    c == ' ' || '\t' <= c <= '\r' || c == '\U{00A0}' || c == '\U{1680}'
    || c == '\U{2028}' || c == '\U{2029}' || c == '\U{202F}' || c == '\U{205F}' || c == '\U{3000}' || c == '\U{FEFF}'
    || '\U{2000}' <= c <= '\U{200A}'
  }

  function TrimStart(s: string): string {
    if s == "" || !Blank(s[0]) then s else TrimStart(s[1..])
  }

  function Trim(s: string): string {
    if s == "" || !Blank(s[|s| - 1]) then TrimStart(s) else Trim(s[..|s| - 1])
  }

  ghost predicate AllBlank(s: string) { forall i :: 0 <= i < |s| ==> Blank(s[i]) }

  ghost predicate NoBlankEnds(s: string) { s != "" ==> !Blank(s[0]) && !Blank(s[|s| - 1]) }

  /** What is left is the string between its blanks. */
  lemma {:induction false} TrimIsBetween(s: string, core: string) returns (before: string, behind: string)
    requires core == Trim(s)
    ensures s == before + core + behind && AllBlank(before) && AllBlank(behind) && NoBlankEnds(core)
  {
    if s == "" || !Blank(s[|s| - 1]) {
      before := TrimStartIs(s, core);
      behind := "";
      assert before + core + behind == before + core;
      LastStays(before, core);
    } else {
      var n := |s| - 1;
      before, behind := TrimIsBetween(s[..n], core);
      BlankBehind(behind, s[n]);
      assert s == s[..n] + [s[n]];
      assert (before + core + behind) + [s[n]] == before + core + (behind + [s[n]]);
      behind := behind + [s[n]];
    }
  }

  lemma LastStays(before: string, core: string)
    ensures core != "" ==> (before + core)[|before + core| - 1] == core[|core| - 1]
  {
  }

  lemma BlankBehind(s: string, c: char)
    requires AllBlank(s) && Blank(c)
    ensures AllBlank(s + [c]) && AllBlank([c] + s)
  {
  }

  lemma {:induction false} TrimStartIs(s: string, core: string) returns (before: string)
    requires core == TrimStart(s)
    ensures s == before + core && AllBlank(before) && (core != "" ==> !Blank(core[0]))
  {
    if s == "" || !Blank(s[0]) {
      before := "";
    } else {
      before := TrimStartIs(s[1..], core);
      BlankBehind(before, s[0]);
      assert s == [s[0]] + s[1..];
      before := [s[0]] + before;
    }
  }

  /** What one round of the debit's loop takes from one lot, given the entries so far. */
  ghost predicate Round(lot: Lot, d: Debit, ids: nat -> LedgerId, entries: seq<Entry>, passed: seq<Entry>, missing: nat,
                        result: seq<Entry>, remaining: nat)
  {
    var available := Pos(LotBalance(entries, d.wallet, lot.id));
    var taken := if available < missing then available else missing;
    && remaining == missing - taken
    && result == passed + if taken == 0 then [] else [DebitEntry(d, ids(|passed|), lot.id, taken, |passed|)]
  }

  class TimeLedger {
    var entries: seq<Entry>
    var lots: seq<Lot>
    var byKey: map<string, Entry>

    ghost predicate Valid()
      reads this
    {
      && DistinctLots(lots)
      && (forall l :: l in lots ==> l.granted > 0)
      && (forall e :: e in entries ==> e.key in byKey && byKey[e.key] == e)
      && (forall k :: k in byKey ==> byKey[k] in entries && byKey[k].key == k)
    }

    constructor ()
      ensures Valid() && entries == [] && lots == []
    {
      entries, lots, byKey := [], [], map[];
    }

    method AddLot(lot: Lot) returns (r: Result<Lot>)
      requires Valid()
      modifies this`lots
      ensures Valid()
      ensures r == if lot.granted <= 0 then Err(LotNotPositive)
                   else if exists l :: l in old(lots) && l.id == lot.id then Err(LotExists)
                   else Ok(lot)
      ensures lots == if r.Ok? then old(lots) + [lot] else old(lots)
    {
      if lot.granted <= 0 { return Err(LotNotPositive); }
      if exists l :: l in lots && l.id == lot.id { return Err(LotExists); }
      lots := lots + [lot];
      r := Ok(lot);
    }

    /** Appends once per key: a known key returns the entry it already stands for. */
    method Append(input: Entry) returns (r: Result<Entry>)
      requires Valid()
      modifies this`entries, this`byKey
      ensures Valid()
      ensures r == if input.key in old(byKey) then Ok(old(byKey)[input.key])
                   else if !Safe(input.seconds) || input.seconds == 0 then Err(BadSeconds)
                   else if input.kind == AdminAdjustment && |Trim(input.reason)| < 8 then Err(ReasonTooShort)
                   else Ok(input)
      ensures entries == if r.Ok? && input.key !in old(byKey) then old(entries) + [input] else old(entries)
      ensures byKey == if r.Ok? then old(byKey)[input.key := r.value] else old(byKey)
    {
      if input.key in byKey { return Ok(byKey[input.key]); }
      if !Safe(input.seconds) || input.seconds == 0 { return Err(BadSeconds); }
      if input.kind == AdminAdjustment && |Trim(input.reason)| < 8 { return Err(ReasonTooShort); }
      entries := entries + [input];
      byKey := byKey[input.key := input];
      r := Ok(input);
    }

    /** Takes the seconds from the lots that expire first. `ids` are the ids the factory hands out. */
    method DebitFifo(d: Debit, ids: nat -> LedgerId) returns (r: Result<seq<Entry>>)
      requires Valid()
      modifies this`entries, this`byKey
      ensures Valid()
      ensures var was := old(entries); var order := DebitOrder(lots, d.wallet, d.at);
        if Existing(was, d.key) != [] then r == Ok(Existing(was, d.key)) && entries == was
        else if d.seconds <= 0 || !Safe(d.seconds) then r == Err(BadDebit) && entries == was
        else if Balance(was, lots, d.wallet, d.at) < d.seconds then r == Err(InsufficientBalance) && entries == was
        else
          && entries == was + Plan(order, was, d, ids)
          && r == if d.seconds <= Supply(order, was, d.wallet) then Ok(Plan(order, was, d, ids)) else Err(LotInvariantViolated)
      ensures r.Ok? && Existing(old(entries), d.key) == [] ==>
        Balance(entries, lots, d.wallet, d.at) == Balance(old(entries), lots, d.wallet, d.at) - d.seconds
      ensures Named(old(entries), d.wallet, WalletLots(lots, d.wallet)) ==> r != Err(LotInvariantViolated)
      ensures DrainedInOrder(lots, old(entries), entries, d.wallet, d.at)
      ensures IsDebit(old(entries), entries, d, ids)
    {
      var existing := Existing(entries, d.key);
      if existing != [] { return Ok(existing); }
      if d.seconds <= 0 || !Safe(d.seconds) { return Err(BadDebit); }
      if Balance(entries, lots, d.wallet, d.at) < d.seconds { return Err(InsufficientBalance); }
      DebitIsExact(entries, lots, d, ids);
      if Named(entries, d.wallet, WalletLots(lots, d.wallet)) {
        BalanceIsCovered(entries, lots, d.wallet, d.at);
      }
      DebitOrderIs(lots, d.wallet, d.at);
      ghost var was, order := entries, DebitOrder(lots, d.wallet, d.at);
      DebitGoesFirstInFirstOut(was, lots, d, ids, order, Plan(order, was, d, ids));
      PlanInFull(order, was, d, ids, Plan(order, was, d, ids));
      var result, remaining := Drain(DebitOrder(lots, d.wallet, d.at), d, ids);
      if remaining != 0 { return Err(LotInvariantViolated); }
      r := Ok(result);
    }

    method Drain(order: seq<Lot>, d: Debit, ids: nat -> LedgerId) returns (result: seq<Entry>, remaining: nat)
      requires Valid() && DistinctLots(order) && 0 < d.seconds && Safe(d.seconds) && Existing(entries, d.key) == []
      modifies this`entries, this`byKey
      ensures Valid() && result == Plan(order, old(entries), d, ids) && entries == old(entries) + result
      ensures remaining == Missing(order, old(entries), d.wallet, d.seconds)
    {
      ghost var was := entries;
      result, remaining := [], d.seconds;
      for i := 0 to |order|
        invariant Valid() && entries == was + result
        invariant result == Plan(order[..i], was, d, ids)
        invariant remaining == Missing(order[..i], was, d.wallet, d.seconds) <= d.seconds
      {
        if remaining == 0 {
          MissingStaysZero(order, was, d, ids, i);
          return;
        }
        NextKeyIsNew(was, result, d, order[..i], ids);
        ghost var passed, missing := result, remaining;
        result, remaining := DrainLot(order[i], d, ids, result, remaining);
        RoundIsPlanned(order, was, d, ids, i, passed, missing, result, remaining);
      }
      assert order[..|order|] == order;
    }

    /** One round of the loop: what one lot still has, as far as it is needed. */
    method DrainLot(lot: Lot, d: Debit, ids: nat -> LedgerId, passed: seq<Entry>, missing: nat)
      returns (result: seq<Entry>, remaining: nat)
      requires Valid() && 0 < missing && Safe(missing) && EntryKey(d.key, |passed|) !in byKey
      modifies this`entries, this`byKey
      ensures Valid()
      ensures Round(lot, d, ids, old(entries), passed, missing, result, remaining)
      ensures old(entries) + result[|passed|..] == entries
    {
      var available := LotBalance(entries, d.wallet, lot.id);
      if available <= 0 { return passed, missing; }
      var taken := if available < missing then available else missing;
      var appended := Append(DebitEntry(d, ids(|passed|), lot.id, taken, |passed|));
      result := passed + [appended.value];
      remaining := missing - taken;
    }
  }

  // ---------- Lemmas for the loop ----------

  lemma {:induction false} MissingStaysZero(order: seq<Lot>, entries: seq<Entry>, d: Debit, ids: nat -> LedgerId, i: nat)
    requires d.seconds >= 0 && i <= |order| && Missing(order[..i], entries, d.wallet, d.seconds) == 0
    ensures Missing(order, entries, d.wallet, d.seconds) == 0
    ensures Plan(order, entries, d, ids) == Plan(order[..i], entries, d, ids)
    decreases |order|
  {
    if i == |order| {
      assert order[..i] == order;
    } else {
      var n := |order| - 1;
      assert order[..n][..i] == order[..i];
      MissingStaysZero(order[..n], entries, d, ids, i);
      var before, tail := PlanStep(order, entries, d, ids);
    }
  }

  lemma AvailableIsUntouched(order: seq<Lot>, entries: seq<Entry>, d: Debit, ids: nat -> LedgerId, i: nat)
    requires DistinctLots(order) && d.seconds >= 0 && i < |order|
    ensures LotBalance(entries + Plan(order[..i], entries, d, ids), d.wallet, order[i].id)
      == LotBalance(entries, d.wallet, order[i].id)
  {
    LotBalanceAppend(entries, Plan(order[..i], entries, d, ids), d.wallet, order[i].id);
    PlanOutside(order[..i], entries, d, ids, order[i].id);
  }

  lemma RoundIsPlanned(order: seq<Lot>, entries: seq<Entry>, d: Debit, ids: nat -> LedgerId, i: nat,
                       passed: seq<Entry>, missing: nat, result: seq<Entry>, remaining: nat)
    requires DistinctLots(order) && d.seconds >= 0 && i < |order|
    requires passed == Plan(order[..i], entries, d, ids) && missing == Missing(order[..i], entries, d.wallet, d.seconds)
    requires Round(order[i], d, ids, entries + passed, passed, missing, result, remaining)
    ensures result == Plan(order[..i + 1], entries, d, ids)
    ensures remaining == Missing(order[..i + 1], entries, d.wallet, d.seconds)
    ensures entries + passed + result[|passed|..] == entries + result
  {
    AvailableIsUntouched(order, entries, d, ids, i);
    assert order[..i + 1][..i] == order[..i];
    var available := Pos(LotBalance(entries, d.wallet, order[i].id));
    RoundOf(order[..i + 1], d, ids, entries, passed, missing, if available < missing then available else missing);
    assert result == passed + result[|passed|..];
  }

  /** The last lot of a prefix gives what it has, as far as it is needed. */
  lemma RoundOf(upto: seq<Lot>, d: Debit, ids: nat -> LedgerId, entries: seq<Entry>, passed: seq<Entry>, missing: nat, taken: nat)
    requires d.seconds >= 0 && upto != []
    requires passed == Plan(upto[..|upto| - 1], entries, d, ids)
    requires missing == Missing(upto[..|upto| - 1], entries, d.wallet, d.seconds)
    requires var available := Pos(LotBalance(entries, d.wallet, upto[|upto| - 1].id));
      taken == if available < missing then available else missing
    ensures Missing(upto, entries, d.wallet, d.seconds) == missing - taken
    ensures Plan(upto, entries, d, ids)
      == passed + if taken == 0 then [] else [DebitEntry(d, ids(|passed|), upto[|upto| - 1].id, taken, |passed|)]
  {
  }

  lemma NextKeyIsNew(entries: seq<Entry>, result: seq<Entry>, d: Debit, order: seq<Lot>, ids: nat -> LedgerId)
    requires d.seconds >= 0 && Existing(entries, d.key) == [] && result == Plan(order, entries, d, ids)
    ensures forall e :: e in entries + result ==> e.key != EntryKey(d.key, |result|)
  {
    ExistingOfNone(entries, d.key);
    EntryKeyStarts(d.key, |result|);
    PlanKeys(order, entries, d, ids, result);
  }
}

/**
 * The balance ledger of src/utils.rs as functions on host state.
 *
 * The state is what the ledger's pointers see: `balances`, the balance
 * slots behind the atomic pointer, and `lists`, the append-only lists written
 * through plain index pointers (the per-holder inventory), keyed by the
 * list's key. Every balance write is a 16-byte `set_value::<u128>`, so a slot
 * is either absent (reads as 0) or holds one u128 (possibly 0); the slots are
 * kept typed. A failed call's balance writes are discarded by the host; its
 * `lists` appends are not (see `Committed`).
 */
module LedgerModel {
  import opened Encoding
  import opened Support
  import opened Storage

  const ALKANES_KW: seq<byte> := Ascii("/alkanes/")
  const BALANCES_KW: seq<byte> := Ascii("/balances/")
  const INVENTORY_ROOT: seq<byte> := Ascii("/alkanes")
  const INVENTORY_KW: seq<byte> := Ascii("/inventory/")
  const STORAGE_KW: seq<byte> := Ascii("/storage/")

  datatype LedgerState = LedgerState(balances: map<seq<byte>, u128>, lists: map<seq<byte>, seq<seq<byte>>>)

  type Step = Outcome<(), LedgerState>

  /* ---------------------------------------------------------------- keys */

  /** The balance slot of `who` for asset `what`: "/alkanes/" ++ what ++ "/balances/" ++ who. */
  function BalanceKey(who: AlkaneId, what: AlkaneId): (k: seq<byte>)
    ensures |k| == 83
  {
    ALKANES_KW + IdBytes(what) + BALANCES_KW + IdBytes(who)
  }

  /** The inventory list of `who`: "/alkanes" ++ who ++ "/inventory/". */
  function InventoryKey(who: AlkaneId): (k: seq<byte>)
    ensures |k| == 51
  {
    INVENTORY_ROOT + IdBytes(who) + INVENTORY_KW
  }

  /** Distinct (holder, asset) pairs have distinct balance slots. */
  lemma {:induction false} BalanceKeyInjective(who1: AlkaneId, what1: AlkaneId, who2: AlkaneId, what2: AlkaneId)
    requires BalanceKey(who1, what1) == BalanceKey(who2, what2)
    ensures who1 == who2 && what1 == what2
  {
    var k1, k2 := BalanceKey(who1, what1), BalanceKey(who2, what2);
    assert IdBytes(what1) == k1[9..41] == k2[9..41] == IdBytes(what2);
    assert IdBytes(who1) == k1[51..] == k2[51..] == IdBytes(who2);
    IdBytesInjective(what1, what2);
    IdBytesInjective(who1, who2);
  }

  /** Distinct holders have distinct inventory lists. */
  lemma {:induction false} InventoryKeyInjective(who1: AlkaneId, who2: AlkaneId)
    requires InventoryKey(who1) == InventoryKey(who2)
    ensures who1 == who2
  {
    assert IdBytes(who1) == InventoryKey(who1)[8..40] == InventoryKey(who2)[8..40] == IdBytes(who2);
    IdBytesInjective(who1, who2);
  }

  /* ------------------------------------------------------- observations */

  /** `get_value::<u128>` on a balance slot: 0 when the slot is empty. */
  function Balance(st: LedgerState, who: AlkaneId, what: AlkaneId): u128
  {
    var k := BalanceKey(who, what);
    if k in st.balances then st.balances[k] else 0
  }

  /** The balance slot holds bytes (possibly an encoded zero). */
  predicate Present(st: LedgerState, who: AlkaneId, what: AlkaneId)
  {
    BalanceKey(who, what) in st.balances
  }

  /** `set_value::<u128>` on a balance slot. */
  function SetBalance(st: LedgerState, who: AlkaneId, what: AlkaneId, v: u128): LedgerState
  {
    st.(balances := st.balances[BalanceKey(who, what) := v])
  }

  function Inventory(st: LedgerState, who: AlkaneId): seq<seq<byte>>
  {
    var k := InventoryKey(who);
    if k in st.lists then st.lists[k] else []
  }

  /** Outside `keys`, `m'` holds exactly what `m` holds. */
  ghost predicate OnlyWrites<V>(m: map<seq<byte>, V>, m': map<seq<byte>, V>, keys: set<seq<byte>>)
  {
    forall key :: key !in keys ==> SameAt(m, m', key)
  }

  /** `key` is present in both maps with the same value, or in neither. */
  predicate SameAt<V(==)>(m: map<seq<byte>, V>, m': map<seq<byte>, V>, key: seq<byte>)
  {
    (key in m' <==> key in m) && (key in m ==> m'[key] == m[key])
  }

  /** The balance slots of `who` for the assets listed in `ts`. */
  function BalanceKeys(who: AlkaneId, ts: seq<Transfer>): set<seq<byte>>
  {
    set i | 0 <= i < |ts| :: BalanceKey(who, ts[i].id)
  }

  /** The total of the amounts of asset `a` in `ts`. */
  function AmountFor(ts: seq<Transfer>, a: AlkaneId): nat
  {
    if ts == [] then 0 else (if ts[0].id == a then ts[0].value else 0) + AmountFor(ts[1..], a)
  }

  lemma AmountForCons(t: Transfer, ts: seq<Transfer>, a: AlkaneId)
    ensures AmountFor([t] + ts, a) == (if t.id == a then t.value else 0) + AmountFor(ts, a)
  {
    assert ([t] + ts)[1..] == ts;
  }

  /* ------------------------------------------------------ balance_pointer */

  /**
   * The side effect of `balance_pointer(who, what)`: when the balance slot
   * already holds bytes, `what` is appended to `who`'s inventory, every time.
   */
  function Lookup(st: LedgerState, who: AlkaneId, what: AlkaneId): LedgerState
  {
    if Present(st, who, what)
    then st.(lists := st.lists[InventoryKey(who) := Inventory(st, who) + [IdBytes(what)]])
    else st
  }

  /**
   * A lookup changes no balance slot; it appends `what` to `who`'s inventory
   * exactly when the slot is non-empty, with no de-duplication, and touches
   * no other holder's inventory.
   */
  lemma LookupEffect(st: LedgerState, who: AlkaneId, what: AlkaneId, holder: AlkaneId)
    ensures Lookup(st, who, what).balances == st.balances
    ensures Inventory(Lookup(st, who, what), holder)
         == Inventory(st, holder) + (if holder == who && Present(st, who, what) then [IdBytes(what)] else [])
  {
    if holder != who && InventoryKey(holder) == InventoryKey(who) {
      InventoryKeyInjective(holder, who);
    }
  }

  /* ------------------------------------------------------ credit_balances */

  /** One iteration of `credit_balances`: checked add of `t.value` to `to`'s balance of `t.id`. */
  function CreditOne(st: LedgerState, to: AlkaneId, t: Transfer): Step
  {
    var st1 := Lookup(st, to, t.id);
    var sum := t.value + Balance(st1, to, t.id);
    if sum >= U128_LIMIT then Outcome(Err(Overflow), st1)
    else Outcome(Ok(()), SetBalance(st1, to, t.id, sum))
  }

  /** `credit_balances`: the entries in order, stopping at the first overflow. */
  function Credit(st: LedgerState, to: AlkaneId, runes: seq<Transfer>): Step
    decreases |runes|
  {
    if runes == [] then Outcome(Ok(()), st)
    else
      var o := CreditOne(st, to, runes[0]);
      if o.result.Err? then o else Credit(o.state, to, runes[1..])
  }

  /** Writing `v` to one balance slot changes that balance to `v` and no other. */
  lemma SetBalanceEffect(st: LedgerState, who: AlkaneId, what: AlkaneId, v: u128)
    ensures var st' := SetBalance(st, who, what, v);
      && OnlyWrites(st.balances, st'.balances, {BalanceKey(who, what)})
      && forall h, a :: Balance(st', h, a) == if h == who && a == what then v else Balance(st, h, a)
  {
    forall h, a | BalanceKey(h, a) == BalanceKey(who, what) ensures h == who && a == what {
      BalanceKeyInjective(h, a, who, what);
    }
  }

  /** One credit fails with Overflow exactly when the sum leaves u128; otherwise it adds the amount to that one balance. */
  lemma CreditOneEffect(st: LedgerState, to: AlkaneId, t: Transfer)
    ensures var o := CreditOne(st, to, t);
      && (o.result.Ok? <==> Balance(st, to, t.id) + t.value < U128_LIMIT)
      && (o.result.Err? ==> o.result.error == Overflow && o.state.balances == st.balances)
      && (o.result.Ok? ==> OnlyWrites(st.balances, o.state.balances, {BalanceKey(to, t.id)}))
      && (o.result.Ok? ==>
            forall h, a :: Balance(o.state, h, a) == Balance(st, h, a) + (if h == to && a == t.id then t.value else 0))
  {
    var st1 := Lookup(st, to, t.id);
    if Balance(st, to, t.id) + t.value < U128_LIMIT {
      SetBalanceEffect(st1, to, t.id, Balance(st, to, t.id) + t.value);
    }
  }

  lemma BalanceKeysCons(who: AlkaneId, ts: seq<Transfer>)
    requires ts != []
    ensures BalanceKeys(who, ts) == {BalanceKey(who, ts[0].id)} + BalanceKeys(who, ts[1..])
  {
    forall key | key in BalanceKeys(who, ts[1..]) ensures key in BalanceKeys(who, ts) {
      var i :| 0 <= i < |ts| - 1 && key == BalanceKey(who, ts[1..][i].id);
      assert key == BalanceKey(who, ts[i + 1].id);
    }
    forall key | key in BalanceKeys(who, ts) ensures key in {BalanceKey(who, ts[0].id)} + BalanceKeys(who, ts[1..]) {
      var i :| 0 <= i < |ts| && key == BalanceKey(who, ts[i].id);
      if i > 0 {
        assert key == BalanceKey(who, ts[1..][i - 1].id);
      }
    }
  }

  lemma {:induction false} CreditBalanceAt(st: LedgerState, to: AlkaneId, runes: seq<Transfer>, h: AlkaneId, a: AlkaneId)
    requires Credit(st, to, runes).result.Ok?
    ensures Balance(Credit(st, to, runes).state, h, a) == Balance(st, h, a) + (if h == to then AmountFor(runes, a) else 0)
    decreases |runes|
  {
    if runes != [] {
      var o := CreditOne(st, to, runes[0]);
      assert o.result.Ok? && Credit(st, to, runes) == Credit(o.state, to, runes[1..]);
      CreditOneEffect(st, to, runes[0]);
      assert Balance(o.state, h, a) == Balance(st, h, a) + (if h == to && a == runes[0].id then runes[0].value else 0);
      CreditBalanceAt(o.state, to, runes[1..], h, a);
      assert AmountFor(runes, a) == (if runes[0].id == a then runes[0].value else 0) + AmountFor(runes[1..], a);
    }
  }

  lemma {:induction false} CreditWritesAt(st: LedgerState, to: AlkaneId, runes: seq<Transfer>, key: seq<byte>)
    requires Credit(st, to, runes).result.Ok?
    requires key !in BalanceKeys(to, runes)
    ensures SameAt(st.balances, Credit(st, to, runes).state.balances, key)
    decreases |runes|
  {
    if runes != [] {
      var o := CreditOne(st, to, runes[0]);
      BalanceKeysCons(to, runes);
      CreditOneEffect(st, to, runes[0]);
      CreditWritesAt(o.state, to, runes[1..], key);
    }
  }

  /**
   * A successful `credit_balances` raises `to`'s balance of every asset by the
   * total listed for it, leaves every other balance as it was, and writes no
   * slot other than the listed ones.
   */
  lemma CreditAddsAmounts(st: LedgerState, to: AlkaneId, runes: seq<Transfer>)
    requires Credit(st, to, runes).result.Ok?
    ensures var st' := Credit(st, to, runes).state;
      && OnlyWrites(st.balances, st'.balances, BalanceKeys(to, runes))
      && forall h, a :: Balance(st', h, a) == Balance(st, h, a) + (if h == to then AmountFor(runes, a) else 0)
  {
    forall key | key !in BalanceKeys(to, runes) ensures SameAt(st.balances, Credit(st, to, runes).state.balances, key) {
      CreditWritesAt(st, to, runes, key);
    }
    forall h, a ensures Balance(Credit(st, to, runes).state, h, a) == Balance(st, h, a) + (if h == to then AmountFor(runes, a) else 0) {
      CreditBalanceAt(st, to, runes, h, a);
    }
  }

  /** The overflow check passes at entry `i`: the balance plus the running total for that asset fits in u128. */
  predicate CreditFitsAt(st: LedgerState, to: AlkaneId, runes: seq<Transfer>, i: nat)
    requires i < |runes|
  {
    Balance(st, to, runes[i].id) + AmountFor(runes[..i + 1], runes[i].id) < U128_LIMIT
  }

  /** After a successful first credit, the check at entry j of the rest is the check at entry j + 1 of the whole list. */
  lemma CreditFitsShift(st: LedgerState, to: AlkaneId, runes: seq<Transfer>, j: nat)
    requires runes != [] && CreditOne(st, to, runes[0]).result.Ok?
    requires j < |runes| - 1
    ensures CreditFitsAt(CreditOne(st, to, runes[0]).state, to, runes[1..], j) <==> CreditFitsAt(st, to, runes, j + 1)
  {
    var r, rest, x := runes[0], runes[1..], runes[j + 1].id;
    assert rest[j].id == x;
    assert Balance(CreditOne(st, to, r).state, to, x) == Balance(st, to, x) + (if x == r.id then r.value else 0) by {
      CreditOneEffect(st, to, r);
    }
    assert runes[..j + 2] == [r] + rest[..j + 1];
    AmountForCons(r, rest[..j + 1], x);
  }

  /** `credit_balances` succeeds exactly when no running total overflows, and otherwise fails with Overflow. */
  lemma {:induction false} CreditSucceedsIff(st: LedgerState, to: AlkaneId, runes: seq<Transfer>)
    ensures Credit(st, to, runes).result.Ok? <==> forall i :: 0 <= i < |runes| ==> CreditFitsAt(st, to, runes, i)
    ensures Credit(st, to, runes).result.Err? ==> Credit(st, to, runes).result.error == Overflow
    decreases |runes|
  {
    if runes != [] {
      var r, rest := runes[0], runes[1..];
      var o := CreditOne(st, to, r);
      CreditOneEffect(st, to, r);
      assert runes[..1] == [r] + [];
      AmountForCons(r, [], r.id);
      if o.result.Ok? {
        CreditSucceedsIff(o.state, to, rest);
        forall j | 0 <= j < |rest| ensures CreditFitsAt(o.state, to, rest, j) <==> CreditFitsAt(st, to, runes, j + 1) {
          CreditFitsShift(st, to, runes, j);
        }
        if forall i :: 0 <= i < |runes| ==> CreditFitsAt(st, to, runes, i) {
          forall j | 0 <= j < |rest| ensures CreditFitsAt(o.state, to, rest, j) {
            assert CreditFitsAt(st, to, runes, j + 1);
          }
        }
        if forall j :: 0 <= j < |rest| ==> CreditFitsAt(o.state, to, rest, j) {
          forall i | 0 <= i < |runes| ensures CreditFitsAt(st, to, runes, i) {
            if i > 0 {
              assert CreditFitsAt(o.state, to, rest, i - 1);
            }
          }
        }
      } else {
        assert !CreditFitsAt(st, to, runes, 0);
      }
    }
  }

  /* ------------------------------------------------------- debit_balances */

  /**
   * One iteration of `debit_balances`. A holder that is not the asset needs
   * the whole amount; the asset itself, debiting its own balance, keeps its
   * balance unchanged on a shortfall, without error.
   */
  function DebitOne(st: LedgerState, to: AlkaneId, t: Transfer): Step
  {
    var st1 := Lookup(st, to, t.id);
    var bal := Balance(st1, to, t.id);
    if to != t.id && bal < t.value then Outcome(Err(Underflow), st1)
    else
      var v := if bal >= t.value then bal - t.value else bal;
      Outcome(Ok(()), SetBalance(st1, to, t.id, v))
  }

  /** `debit_balances`: the entries in order, stopping at the first underflow. */
  function Debit(st: LedgerState, to: AlkaneId, runes: seq<Transfer>): Step
    decreases |runes|
  {
    if runes == [] then Outcome(Ok(()), st)
    else
      var o := DebitOne(st, to, runes[0]);
      if o.result.Err? then o else Debit(o.state, to, runes[1..])
  }

  /**
   * One debit: with enough balance it drops by the amount; on a shortfall a
   * non-issuer fails with Underflow, while the issuer succeeds with its
   * balance unchanged. Only that one slot is written.
   */
  lemma DebitOneEffect(st: LedgerState, to: AlkaneId, t: Transfer)
    ensures var o := DebitOne(st, to, t); var bal := Balance(st, to, t.id);
      && (o.result.Err? <==> to != t.id && bal < t.value)
      && (o.result.Err? ==> o.result.error == Underflow && o.state.balances == st.balances)
      && (o.result.Ok? ==> OnlyWrites(st.balances, o.state.balances, {BalanceKey(to, t.id)}))
      && (o.result.Ok? ==> Balance(o.state, to, t.id) == if bal >= t.value then bal - t.value else bal)
      && (o.result.Ok? ==> forall h, a :: (h != to || a != t.id) ==> Balance(o.state, h, a) == Balance(st, h, a))
  {
    var st1 := Lookup(st, to, t.id);
    var bal := Balance(st, to, t.id);
    if to == t.id || bal >= t.value {
      SetBalanceEffect(st1, to, t.id, if bal >= t.value then bal - t.value else bal);
    }
  }

  lemma {:induction false} DebitBalanceAt(st: LedgerState, to: AlkaneId, runes: seq<Transfer>, h: AlkaneId, a: AlkaneId)
    requires forall i :: 0 <= i < |runes| ==> runes[i].id != to
    requires Debit(st, to, runes).result.Ok?
    ensures Balance(Debit(st, to, runes).state, h, a) + (if h == to then AmountFor(runes, a) else 0) == Balance(st, h, a)
    decreases |runes|
  {
    if runes != [] {
      var o := DebitOne(st, to, runes[0]);
      assert o.result.Ok? && Debit(st, to, runes) == Debit(o.state, to, runes[1..]);
      DebitOneEffect(st, to, runes[0]);
      assert Balance(o.state, h, a) + (if h == to && a == runes[0].id then runes[0].value else 0) == Balance(st, h, a);
      DebitBalanceAt(o.state, to, runes[1..], h, a);
      assert AmountFor(runes, a) == (if runes[0].id == a then runes[0].value else 0) + AmountFor(runes[1..], a);
    }
  }

  lemma {:induction false} DebitWritesAt(st: LedgerState, to: AlkaneId, runes: seq<Transfer>, key: seq<byte>)
    requires Debit(st, to, runes).result.Ok?
    requires key !in BalanceKeys(to, runes)
    ensures SameAt(st.balances, Debit(st, to, runes).state.balances, key)
    decreases |runes|
  {
    if runes != [] {
      var o := DebitOne(st, to, runes[0]);
      BalanceKeysCons(to, runes);
      DebitOneEffect(st, to, runes[0]);
      DebitWritesAt(o.state, to, runes[1..], key);
    }
  }

  /** The shortfall check passes at entry `i`: the running total for that asset is covered by the balance. */
  predicate DebitFitsAt(st: LedgerState, to: AlkaneId, runes: seq<Transfer>, i: nat)
    requires i < |runes|
  {
    AmountFor(runes[..i + 1], runes[i].id) <= Balance(st, to, runes[i].id)
  }

  /** After a successful first debit from a holder that is none of the assets, the check at entry j of the rest is the check at entry j + 1 of the whole list. */
  lemma DebitFitsShift(st: LedgerState, to: AlkaneId, runes: seq<Transfer>, j: nat)
    requires runes != [] && runes[0].id != to && DebitOne(st, to, runes[0]).result.Ok?
    requires j < |runes| - 1
    ensures DebitFitsAt(DebitOne(st, to, runes[0]).state, to, runes[1..], j) <==> DebitFitsAt(st, to, runes, j + 1)
  {
    var r, rest, x := runes[0], runes[1..], runes[j + 1].id;
    assert rest[j].id == x;
    assert Balance(DebitOne(st, to, r).state, to, x) + (if x == r.id then r.value else 0) == Balance(st, to, x) by {
      DebitOneEffect(st, to, r);
    }
    assert runes[..j + 2] == [r] + rest[..j + 1];
    AmountForCons(r, rest[..j + 1], x);
  }

  /** For a holder that is none of the debited assets, `debit_balances` succeeds exactly when no running total exceeds the balance, and otherwise fails with Underflow. */
  lemma {:induction false} DebitSucceedsIff(st: LedgerState, to: AlkaneId, runes: seq<Transfer>)
    requires forall i :: 0 <= i < |runes| ==> runes[i].id != to
    ensures Debit(st, to, runes).result.Ok? <==> forall i :: 0 <= i < |runes| ==> DebitFitsAt(st, to, runes, i)
    ensures Debit(st, to, runes).result.Err? ==> Debit(st, to, runes).result.error == Underflow
    decreases |runes|
  {
    if runes != [] {
      var r, rest := runes[0], runes[1..];
      var o := DebitOne(st, to, r);
      assert (o.result.Ok? <==> r.value <= Balance(st, to, r.id)) && (o.result.Err? ==> o.result.error == Underflow) by {
        DebitOneEffect(st, to, r);
      }
      assert runes[..1] == [r] + [];
      AmountForCons(r, [], r.id);
      if o.result.Ok? {
        assert Debit(st, to, runes) == Debit(o.state, to, rest);
        DebitSucceedsIff(o.state, to, rest);
        forall j | 0 <= j < |rest| ensures DebitFitsAt(o.state, to, rest, j) <==> DebitFitsAt(st, to, runes, j + 1) {
          DebitFitsShift(st, to, runes, j);
        }
        if forall i :: 0 <= i < |runes| ==> DebitFitsAt(st, to, runes, i) {
          forall j | 0 <= j < |rest| ensures DebitFitsAt(o.state, to, rest, j) {
            assert DebitFitsAt(st, to, runes, j + 1);
          }
        }
        if forall j :: 0 <= j < |rest| ==> DebitFitsAt(o.state, to, rest, j) {
          forall i | 0 <= i < |runes| ensures DebitFitsAt(st, to, runes, i) {
            if i > 0 {
              assert DebitFitsAt(o.state, to, rest, i - 1);
            }
          }
        }
      } else {
        assert !DebitFitsAt(st, to, runes, 0);
      }
    }
  }

  /**
   * For a holder that is none of the debited assets, a successful
   * `debit_balances` lowers each balance by the total listed for it, changes
   * no other balance and writes no slot other than the listed ones.
   */
  lemma DebitSubtractsAmounts(st: LedgerState, to: AlkaneId, runes: seq<Transfer>)
    requires forall i :: 0 <= i < |runes| ==> runes[i].id != to
    requires Debit(st, to, runes).result.Ok?
    ensures var st' := Debit(st, to, runes).state;
      && OnlyWrites(st.balances, st'.balances, BalanceKeys(to, runes))
      && forall h, a :: Balance(st', h, a) + (if h == to then AmountFor(runes, a) else 0) == Balance(st, h, a)
  {
    forall key | key !in BalanceKeys(to, runes) ensures SameAt(st.balances, Debit(st, to, runes).state.balances, key) {
      DebitWritesAt(st, to, runes, key);
    }
    forall h, a ensures Balance(Debit(st, to, runes).state, h, a) + (if h == to then AmountFor(runes, a) else 0) == Balance(st, h, a) {
      DebitBalanceAt(st, to, runes, h, a);
    }
  }

  /* -------------------------------------------------------- transfer_from */

  /**
   * The first half of one `transfer_from` iteration: read `from`'s balance;
   * on a shortfall the asset itself is treated as holding exactly the amount,
   * anyone else fails with Underflow; then write back balance minus amount.
   */
  function TakeFrom(st: LedgerState, from: AlkaneId, t: Transfer): Step
  {
    var st1 := Lookup(st, from, t.id);
    var bal := Balance(st1, from, t.id);
    if bal < t.value && t.id != from then Outcome(Err(Underflow), st1)
    else
      var avail := if bal < t.value then t.value else bal;
      Outcome(Ok(()), SetBalance(st1, from, t.id, avail - t.value))
  }

  /** The unchecked `+` on `to`'s balance does not overflow (read after `from`'s write). */
  predicate TransferOneFits(st: LedgerState, from: AlkaneId, to: AlkaneId, t: Transfer)
  {
    var o := TakeFrom(st, from, t);
    o.result.Ok? ==> Balance(o.state, to, t.id) + t.value < U128_LIMIT
  }

  /** One iteration of `transfer_from`: take from `from`, then re-read and add to `to`. */
  function TransferOne(st: LedgerState, from: AlkaneId, to: AlkaneId, t: Transfer): Step
    requires TransferOneFits(st, from, to, t)
  {
    var o := TakeFrom(st, from, t);
    if o.result.Err? then o
    else
      var st3 := Lookup(o.state, to, t.id);
      Outcome(Ok(()), SetBalance(st3, to, t.id, Balance(st3, to, t.id) + t.value))
  }

  /** No iteration of `transfer_from` reaches its unchecked `+` with an overflowing sum. */
  predicate TransferFits(st: LedgerState, from: AlkaneId, to: AlkaneId, parcel: seq<Transfer>)
    decreases |parcel|
  {
    parcel != [] ==>
      && TransferOneFits(st, from, to, parcel[0])
      && var o := TransferOne(st, from, to, parcel[0]);
         o.result.Ok? ==> TransferFits(o.state, from, to, parcel[1..])
  }

  /** `transfer_from`: the parcel's entries in order, stopping at the first underflow. */
  function TransferFrom(st: LedgerState, parcel: seq<Transfer>, from: AlkaneId, to: AlkaneId): Step
    requires TransferFits(st, from, to, parcel)
    decreases |parcel|
  {
    if parcel == [] then Outcome(Ok(()), st)
    else
      var o := TransferOne(st, from, to, parcel[0]);
      if o.result.Err? then o else TransferFrom(o.state, parcel[1..], from, to)
  }

  /**
   * Taking from `from`: a non-issuer source short of the amount fails with
   * Underflow; otherwise `from`'s balance drops by the amount, or ends at 0
   * for an issuer source short of it. Only that slot is written.
   */
  lemma TakeFromEffect(st: LedgerState, from: AlkaneId, t: Transfer)
    ensures var o := TakeFrom(st, from, t); var bf := Balance(st, from, t.id);
      && (o.result.Err? <==> bf < t.value && t.id != from)
      && (o.result.Err? ==> o.result.error == Underflow && o.state.balances == st.balances)
      && (o.result.Ok? ==> OnlyWrites(st.balances, o.state.balances, {BalanceKey(from, t.id)}))
      && (o.result.Ok? ==> Balance(o.state, from, t.id) == if bf >= t.value then bf - t.value else 0)
      && (o.result.Ok? ==> forall h, a :: (h != from || a != t.id) ==> Balance(o.state, h, a) == Balance(st, h, a))
  {
    var st1 := Lookup(st, from, t.id);
    var bf := Balance(st, from, t.id);
    if bf >= t.value || t.id == from {
      SetBalanceEffect(st1, from, t.id, (if bf < t.value then t.value else bf) - t.value);
    }
  }

  /** The second half of a successful transfer entry: re-read `to`'s balance and add the amount. */
  lemma TransferOneThen(st: LedgerState, from: AlkaneId, to: AlkaneId, t: Transfer)
    requires TransferOneFits(st, from, to, t)
    requires TakeFrom(st, from, t).result.Ok?
    ensures var mid := TakeFrom(st, from, t).state; var o := TransferOne(st, from, to, t);
      && o.result.Ok?
      && OnlyWrites(mid.balances, o.state.balances, {BalanceKey(to, t.id)})
      && forall h, a :: Balance(o.state, h, a) == if h == to && a == t.id then Balance(mid, to, t.id) + t.value else Balance(mid, h, a)
  {
    var mid := TakeFrom(st, from, t).state;
    var st3 := Lookup(mid, to, t.id);
    assert st3.balances == mid.balances;
    SetBalanceEffect(st3, to, t.id, Balance(st3, to, t.id) + t.value);
  }

  /** A transfer entry fails, with Underflow and no balance written, exactly when a non-issuer source is short. */
  lemma TransferOneFails(st: LedgerState, from: AlkaneId, to: AlkaneId, t: Transfer)
    requires TransferOneFits(st, from, to, t)
    ensures var o := TransferOne(st, from, to, t);
      && (o.result.Err? <==> Balance(st, from, t.id) < t.value && t.id != from)
      && (o.result.Err? ==> o.result.error == Underflow && o.state.balances == st.balances)
  {
    TakeFromEffect(st, from, t);
  }

  /** A successful transfer entry writes no slot but `from`'s and `to`'s balance of the asset. */
  lemma TransferOneWrites(st: LedgerState, from: AlkaneId, to: AlkaneId, t: Transfer)
    requires TransferOneFits(st, from, to, t)
    requires TransferOne(st, from, to, t).result.Ok?
    ensures OnlyWrites(st.balances, TransferOne(st, from, to, t).state.balances, {BalanceKey(from, t.id), BalanceKey(to, t.id)})
  {
    TakeFromEffect(st, from, t);
    TransferOneThen(st, from, to, t);
  }

  /**
   * One transfer entry, seen from balance (h, a). `from` drops by the amount
   * and `to` rises by it; an issuer source short of the amount ends at 0
   * while `to` still receives the full amount. When `from == to` the balance
   * is unchanged, except after an issuer shortfall, which leaves exactly the
   * amount. No other balance changes.
   */
  lemma TransferOneBalances(st: LedgerState, from: AlkaneId, to: AlkaneId, t: Transfer, h: AlkaneId, a: AlkaneId)
    requires TransferOneFits(st, from, to, t)
    requires TransferOne(st, from, to, t).result.Ok?
    ensures var b', bf, bt := Balance(TransferOne(st, from, to, t).state, h, a), Balance(st, from, t.id), Balance(st, to, t.id);
      && (from != to && h == from && a == t.id ==> b' == if bf >= t.value then bf - t.value else 0)
      && (from != to && h == to && a == t.id ==> b' == bt + t.value)
      && (from == to && h == from && a == t.id ==> b' == if bf >= t.value then bf else t.value)
      && ((h != from && h != to) || a != t.id ==> b' == Balance(st, h, a))
  {
    var mid := TakeFrom(st, from, t).state;
    assert Balance(mid, h, a) == (if h == from && a == t.id then (if Balance(st, from, t.id) >= t.value then Balance(st, from, t.id) - t.value else 0) else Balance(st, h, a))
    by {
      TakeFromEffect(st, from, t);
    }
    assert Balance(mid, to, t.id) == (if to == from then (if Balance(st, from, t.id) >= t.value then Balance(st, from, t.id) - t.value else 0) else Balance(st, to, t.id))
    by {
      TakeFromEffect(st, from, t);
    }
    TransferOneThen(st, from, to, t);
  }

  /** Between distinct holders with a non-issuer source, a successful entry moves exactly its amount from `from` to `to`. */
  lemma TransferOneMoves(st: LedgerState, from: AlkaneId, to: AlkaneId, t: Transfer, h: AlkaneId, a: AlkaneId)
    requires TransferOneFits(st, from, to, t)
    requires from != to && t.id != from
    requires TransferOne(st, from, to, t).result.Ok?
    ensures var b', moved := Balance(TransferOne(st, from, to, t).state, h, a), if t.id == a then t.value else 0;
      && (h == from ==> b' + moved == Balance(st, h, a))
      && (h == to ==> b' == Balance(st, h, a) + moved)
      && (h != from && h != to ==> b' == Balance(st, h, a))
  {
    TransferOneFails(st, from, to, t);
    TransferOneBalances(st, from, to, t, h, a);
  }

  /** `transfer_from` on a non-empty parcel: its first entry, then, if that succeeded, the rest. */
  lemma TransferStep(st: LedgerState, parcel: seq<Transfer>, from: AlkaneId, to: AlkaneId)
    requires TransferFits(st, from, to, parcel) && parcel != []
    ensures TransferOneFits(st, from, to, parcel[0])
    ensures var o := TransferOne(st, from, to, parcel[0]);
      && (o.result.Err? ==> TransferFrom(st, parcel, from, to) == o)
      && (o.result.Ok? ==> TransferFits(o.state, from, to, parcel[1..])
                           && TransferFrom(st, parcel, from, to) == TransferFrom(o.state, parcel[1..], from, to))
  {
  }

  /** The first entry of a successful transfer succeeds, leaves the rest to succeed from its state, and moves its own amount. */
  lemma TransferHead(st: LedgerState, parcel: seq<Transfer>, from: AlkaneId, to: AlkaneId, h: AlkaneId, a: AlkaneId)
    requires TransferFits(st, from, to, parcel) && parcel != []
    requires from != to && parcel[0].id != from
    requires TransferFrom(st, parcel, from, to).result.Ok?
    ensures TransferOneFits(st, from, to, parcel[0])
    ensures var o, moved := TransferOne(st, from, to, parcel[0]), if parcel[0].id == a then parcel[0].value else 0;
      && o.result.Ok?
      && TransferFits(o.state, from, to, parcel[1..])
      && TransferFrom(o.state, parcel[1..], from, to) == TransferFrom(st, parcel, from, to)
      && AmountFor(parcel, a) == moved + AmountFor(parcel[1..], a)
      && (h == from ==> Balance(o.state, h, a) + moved == Balance(st, h, a))
      && (h == to ==> Balance(o.state, h, a) == Balance(st, h, a) + moved)
      && (h != from && h != to ==> Balance(o.state, h, a) == Balance(st, h, a))
  {
    TransferStep(st, parcel, from, to);
    TransferOneMoves(st, from, to, parcel[0], h, a);
    assert parcel == [parcel[0]] + parcel[1..];
    AmountForCons(parcel[0], parcel[1..], a);
  }

  /** Seen from one balance (h, a): a successful transfer between distinct holders, from a source that is none of the moved assets, moves each asset's total. */
  lemma {:induction false} TransferBalanceAt(st: LedgerState, parcel: seq<Transfer>, from: AlkaneId, to: AlkaneId, h: AlkaneId, a: AlkaneId)
    requires TransferFits(st, from, to, parcel)
    requires from != to
    requires forall i :: 0 <= i < |parcel| ==> parcel[i].id != from
    requires TransferFrom(st, parcel, from, to).result.Ok?
    ensures var b' := Balance(TransferFrom(st, parcel, from, to).state, h, a);
      && (h == from ==> b' + AmountFor(parcel, a) == Balance(st, h, a))
      && (h == to ==> b' == Balance(st, h, a) + AmountFor(parcel, a))
      && (h != from && h != to ==> b' == Balance(st, h, a))
    decreases |parcel|
  {
    if parcel != [] {
      TransferHead(st, parcel, from, to, h, a);
      var o := TransferOne(st, from, to, parcel[0]);
      TransferBalanceAt(o.state, parcel[1..], from, to, h, a);
    }
  }

  /**
   * Conservation: a successful `transfer_from` between two distinct holders,
   * with a source that is none of the moved assets, lowers `from` and raises
   * `to` by the total of each asset, so their sum per asset is unchanged; no
   * other balance changes.
   */
  lemma TransferConserves(st: LedgerState, parcel: seq<Transfer>, from: AlkaneId, to: AlkaneId)
    requires TransferFits(st, from, to, parcel)
    requires from != to
    requires forall i :: 0 <= i < |parcel| ==> parcel[i].id != from
    requires TransferFrom(st, parcel, from, to).result.Ok?
    ensures var st' := TransferFrom(st, parcel, from, to).state;
      && (forall a :: Balance(st', from, a) + AmountFor(parcel, a) == Balance(st, from, a))
      && (forall a :: Balance(st', to, a) == Balance(st, to, a) + AmountFor(parcel, a))
      && (forall a :: Balance(st', from, a) + Balance(st', to, a) == Balance(st, from, a) + Balance(st, to, a))
      && (forall h, a :: h != from && h != to ==> Balance(st', h, a) == Balance(st, h, a))
  {
    var st' := TransferFrom(st, parcel, from, to).state;
    forall h, a ensures && (h == from ==> Balance(st', h, a) + AmountFor(parcel, a) == Balance(st, h, a))
                        && (h == to ==> Balance(st', h, a) == Balance(st, h, a) + AmountFor(parcel, a))
                        && (h != from && h != to ==> Balance(st', h, a) == Balance(st, h, a))
    {
      TransferBalanceAt(st, parcel, from, to, h, a);
    }
    forall a ensures Balance(st', from, a) + AmountFor(parcel, a) == Balance(st, from, a)
                  && Balance(st', to, a) == Balance(st, to, a) + AmountFor(parcel, a)
    {
      TransferBalanceAt(st, parcel, from, to, from, a);
      TransferBalanceAt(st, parcel, from, to, to, a);
    }
  }

  /* ------------------------------------------------ inventory per call */

  /** The 32-byte ids of the assets a parcel names. */
  function ParcelIds(ts: seq<Transfer>): set<seq<byte>>
  {
    set i | 0 <= i < |ts| :: IdBytes(ts[i].id)
  }

  lemma ParcelIdsCons(ts: seq<Transfer>)
    requires ts != []
    ensures IdBytes(ts[0].id) in ParcelIds(ts)
    ensures ParcelIds(ts[1..]) <= ParcelIds(ts)
  {
    forall x | x in ParcelIds(ts[1..]) ensures x in ParcelIds(ts) {
      var i :| 0 <= i < |ts[1..]| && x == IdBytes(ts[1..][i].id);
      assert x == IdBytes(ts[i + 1].id);
    }
  }

  /** `after` is `before` with entries drawn from `ids` appended: nothing is removed or reordered. */
  predicate Extends(before: seq<seq<byte>>, after: seq<seq<byte>>, ids: set<seq<byte>>)
  {
    && |before| <= |after|
    && after[..|before|] == before
    && forall k :: |before| <= k < |after| ==> after[k] in ids
  }

  lemma ExtendsChain(a: seq<seq<byte>>, b: seq<seq<byte>>, c: seq<seq<byte>>, ab: set<seq<byte>>, bc: set<seq<byte>>, ids: set<seq<byte>>)
    requires Extends(a, b, ab) && Extends(b, c, bc)
    requires ab <= ids && bc <= ids
    ensures Extends(a, c, ids)
  {
    assert c[..|a|] == c[..|b|][..|a|];
    forall k | |a| <= k < |c| ensures c[k] in ids {
      if k < |b| {
        assert c[k] == c[..|b|][k];
      }
    }
  }

  /**
   * One lookup, seen from holder h's inventory: only `who`'s list changes,
   * and only by appending `what`.
   */
  lemma LookupInventory(st: LedgerState, who: AlkaneId, what: AlkaneId, h: AlkaneId)
    ensures h != who ==> Inventory(Lookup(st, who, what), h) == Inventory(st, h)
    ensures Extends(Inventory(st, h), Inventory(Lookup(st, who, what), h), {IdBytes(what)})
  {
    LookupEffect(st, who, what, h);
    assert Inventory(st, h) + [] == Inventory(st, h);
  }

  /** One credit entry, seen from h's inventory: it changes only `to`'s list, by at most the entry's asset. */
  lemma CreditOneInventory(st: LedgerState, to: AlkaneId, t: Transfer, h: AlkaneId)
    ensures h != to ==> Inventory(CreditOne(st, to, t).state, h) == Inventory(st, h)
    ensures Extends(Inventory(st, h), Inventory(CreditOne(st, to, t).state, h), {IdBytes(t.id)})
  {
    assert CreditOne(st, to, t).state.lists == Lookup(st, to, t.id).lists;
    LookupInventory(st, to, t.id, h);
  }

  /**
   * `credit_balances`, seen from holder h's inventory, whether it succeeds
   * or not: no holder but `to` has its list changed, and `to`'s list only
   * grows, by ids of assets the parcel names.
   */
  lemma {:induction false} CreditInventory(st: LedgerState, to: AlkaneId, runes: seq<Transfer>, h: AlkaneId)
    ensures h != to ==> Inventory(Credit(st, to, runes).state, h) == Inventory(st, h)
    ensures Extends(Inventory(st, h), Inventory(Credit(st, to, runes).state, h), ParcelIds(runes))
    decreases |runes|
  {
    var before := Inventory(st, h);
    if runes == [] {
      assert before[..|before|] == before;
    } else {
      var o := CreditOne(st, to, runes[0]);
      CreditOneInventory(st, to, runes[0], h);
      ParcelIdsCons(runes);
      if o.result.Ok? {
        CreditInventory(o.state, to, runes[1..], h);
        ExtendsChain(before, Inventory(o.state, h), Inventory(Credit(st, to, runes).state, h),
                     {IdBytes(runes[0].id)}, ParcelIds(runes[1..]), ParcelIds(runes));
      }
    }
  }

  /** One debit entry, seen from h's inventory: it changes only `to`'s list, by at most the entry's asset. */
  lemma DebitOneInventory(st: LedgerState, to: AlkaneId, t: Transfer, h: AlkaneId)
    ensures h != to ==> Inventory(DebitOne(st, to, t).state, h) == Inventory(st, h)
    ensures Extends(Inventory(st, h), Inventory(DebitOne(st, to, t).state, h), {IdBytes(t.id)})
  {
    assert DebitOne(st, to, t).state.lists == Lookup(st, to, t.id).lists;
    LookupInventory(st, to, t.id, h);
  }

  /**
   * `debit_balances`, seen from holder h's inventory, whether it succeeds
   * or not: no holder but `to` has its list changed, and `to`'s list only
   * grows, by ids of assets the parcel names.
   */
  lemma {:induction false} DebitInventory(st: LedgerState, to: AlkaneId, runes: seq<Transfer>, h: AlkaneId)
    ensures h != to ==> Inventory(Debit(st, to, runes).state, h) == Inventory(st, h)
    ensures Extends(Inventory(st, h), Inventory(Debit(st, to, runes).state, h), ParcelIds(runes))
    decreases |runes|
  {
    var before := Inventory(st, h);
    if runes == [] {
      assert before[..|before|] == before;
    } else {
      var o := DebitOne(st, to, runes[0]);
      DebitOneInventory(st, to, runes[0], h);
      ParcelIdsCons(runes);
      if o.result.Ok? {
        DebitInventory(o.state, to, runes[1..], h);
        ExtendsChain(before, Inventory(o.state, h), Inventory(Debit(st, to, runes).state, h),
                     {IdBytes(runes[0].id)}, ParcelIds(runes[1..]), ParcelIds(runes));
      }
    }
  }

  /** One transfer entry, seen from h's inventory: it changes only the lists of `from` and `to`, by at most the entry's asset each. */
  lemma TransferOneInventory(st: LedgerState, from: AlkaneId, to: AlkaneId, t: Transfer, h: AlkaneId)
    requires TransferOneFits(st, from, to, t)
    ensures h != from && h != to ==> Inventory(TransferOne(st, from, to, t).state, h) == Inventory(st, h)
    ensures Extends(Inventory(st, h), Inventory(TransferOne(st, from, to, t).state, h), {IdBytes(t.id)})
  {
    var mid := TakeFrom(st, from, t);
    assert mid.state.lists == Lookup(st, from, t.id).lists;
    LookupInventory(st, from, t.id, h);
    if mid.result.Ok? {
      var st3 := Lookup(mid.state, to, t.id);
      assert TransferOne(st, from, to, t).state.lists == st3.lists;
      LookupInventory(mid.state, to, t.id, h);
      ExtendsChain(Inventory(st, h), Inventory(mid.state, h), Inventory(st3, h),
                   {IdBytes(t.id)}, {IdBytes(t.id)}, {IdBytes(t.id)});
    }
  }

  /**
   * `transfer_from`, seen from holder h's inventory, whether it succeeds or
   * not: no holder but `from` and `to` has its list changed, and their lists
   * only grow, by ids of assets the parcel names.
   */
  lemma {:induction false} TransferInventory(st: LedgerState, parcel: seq<Transfer>, from: AlkaneId, to: AlkaneId, h: AlkaneId)
    requires TransferFits(st, from, to, parcel)
    ensures h != from && h != to ==> Inventory(TransferFrom(st, parcel, from, to).state, h) == Inventory(st, h)
    ensures Extends(Inventory(st, h), Inventory(TransferFrom(st, parcel, from, to).state, h), ParcelIds(parcel))
    decreases |parcel|
  {
    var before := Inventory(st, h);
    if parcel == [] {
      assert before[..|before|] == before;
    } else {
      TransferStep(st, parcel, from, to);
      var o := TransferOne(st, from, to, parcel[0]);
      TransferOneInventory(st, from, to, parcel[0], h);
      ParcelIdsCons(parcel);
      if o.result.Ok? {
        TransferInventory(o.state, parcel[1..], from, to, h);
        ExtendsChain(before, Inventory(o.state, h), Inventory(TransferFrom(st, parcel, from, to).state, h),
                     {IdBytes(parcel[0].id)}, ParcelIds(parcel[1..]), ParcelIds(parcel));
      }
    }
  }

  /* --------------------------------------------------- pipe_storagemap_to */

  /** The slot `pipe_storagemap_to` writes for map key `k`: base ++ "/storage/" ++ k. */
  function StorageKey(base: seq<byte>, k: seq<byte>): seq<byte>
  {
    base + STORAGE_KW + k
  }

  lemma StorageKeyInjective(base: seq<byte>, k1: seq<byte>, k2: seq<byte>)
    requires StorageKey(base, k1) == StorageKey(base, k2)
    ensures k1 == k2
  {
    var n := |base + STORAGE_KW|;
    assert k1 == StorageKey(base, k1)[n..];
    assert k2 == StorageKey(base, k2)[n..];
  }

  function StorageKeys(base: seq<byte>, m: map<seq<byte>, seq<byte>>): set<seq<byte>>
  {
    set k | k in m :: StorageKey(base, k)
  }

  /** The pairs of `m`, each moved to its derived key. */
  function PipedPairs(base: seq<byte>, m: map<seq<byte>, seq<byte>>): (r: Store)
    ensures forall k :: k in m ==> StorageKey(base, k) in r && r[StorageKey(base, k)] == m[k]
    ensures forall key :: key in r ==> key in StorageKeys(base, m)
  {
    assert forall k1, k2 | k1 in m && k2 in m && StorageKey(base, k1) == StorageKey(base, k2) :: k1 == k2 by {
      forall k1, k2 | k1 in m && k2 in m && StorageKey(base, k1) == StorageKey(base, k2) ensures k1 == k2 {
        StorageKeyInjective(base, k1, k2);
      }
    }
    map k | k in m :: StorageKey(base, k) := m[k]
  }

  /** The store after every pair of `m` has been written under `base`. */
  function Piped(kv: Store, base: seq<byte>, m: map<seq<byte>, seq<byte>>): Store
  {
    kv + PipedPairs(base, m)
  }

  /** Piping one more pair is one more write on top of the pairs already piped. */
  lemma PipedAdd(kv: Store, base: seq<byte>, done: map<seq<byte>, seq<byte>>, k: seq<byte>, v: seq<byte>)
    requires k !in done
    ensures Piped(kv, base, done[k := v]) == Piped(kv, base, done)[StorageKey(base, k) := v]
  {
    PipedPairsAdd(base, done, k, v);
    MergeUpdate(kv, PipedPairs(base, done), StorageKey(base, k), v);
  }

  /** Writing a key after a merge is the same as writing it into the right-hand side first. */
  lemma MergeUpdate(a: Store, b: Store, x: seq<byte>, v: seq<byte>)
    ensures a + b[x := v] == (a + b)[x := v]
  {
  }

  lemma PipedPairsAdd(base: seq<byte>, done: map<seq<byte>, seq<byte>>, k: seq<byte>, v: seq<byte>)
    requires k !in done
    ensures PipedPairs(base, done[k := v]) == PipedPairs(base, done)[StorageKey(base, k) := v]
  {
    var p, q := PipedPairs(base, done[k := v]), PipedPairs(base, done)[StorageKey(base, k) := v];
    forall key | key in p ensures key in q && p[key] == q[key] {
      PipedAddOld(base, done, k, v, key);
    }
    forall key | key in q ensures key in p {
      PipedAddNew(base, done, k, v, key);
    }
  }

  lemma PipedAddOld(base: seq<byte>, done: map<seq<byte>, seq<byte>>, k: seq<byte>, v: seq<byte>, key: seq<byte>)
    requires k !in done && key in PipedPairs(base, done[k := v])
    ensures var q := PipedPairs(base, done)[StorageKey(base, k) := v];
      key in q && PipedPairs(base, done[k := v])[key] == q[key]
  {
    var k' :| k' in done[k := v] && key == StorageKey(base, k');
    if k' != k && key == StorageKey(base, k) {
      StorageKeyInjective(base, k', k);
    }
  }

  lemma PipedAddNew(base: seq<byte>, done: map<seq<byte>, seq<byte>>, k: seq<byte>, v: seq<byte>, key: seq<byte>)
    requires key in PipedPairs(base, done)[StorageKey(base, k) := v]
    ensures key in PipedPairs(base, done[k := v])
  {
    if key != StorageKey(base, k) {
      var k' :| k' in done && key == StorageKey(base, k');
      assert k' in done[k := v];
    }
  }

  /** Piping writes each value of the map at its derived key and writes nothing else. */
  lemma PipedWritesExactly(kv: Store, base: seq<byte>, m: map<seq<byte>, seq<byte>>)
    ensures forall k :: k in m ==> Get(Piped(kv, base, m), StorageKey(base, k)) == m[k]
    ensures OnlyWrites(kv, Piped(kv, base, m), StorageKeys(base, m))
  {
    forall k | k in m ensures Get(Piped(kv, base, m), StorageKey(base, k)) == m[k] {
      var p := PipedPairs(base, m);
      assert StorageKey(base, k) in p;
      forall k' | k' in m && StorageKey(base, k') == StorageKey(base, k) ensures k' == k {
        StorageKeyInjective(base, k', k);
      }
    }
  }

  /* ------------------------------------------------------- host rollback */

  /**
   * What the host keeps of a ledger call: everything on success; on failure
   * the atomic batch is discarded, but inventory appends made through plain
   * index pointers stay.
   */
  function Committed(before: LedgerState, o: Step): LedgerState
  {
    if o.result.Ok? then o.state else LedgerState(before.balances, o.state.lists)
  }

  /**
   * A credit that overflows still leaves the inventory entry its lookup
   * appended: a holder with a full balance of asset `a` gets `a` listed again
   * even though the call fails and no balance changes.
   */
  lemma FailedCreditKeepsInventoryAppend(st: LedgerState, to: AlkaneId, a: AlkaneId)
    requires Balance(st, to, a) == U128_LIMIT - 1
    ensures var kept := Committed(st, Credit(st, to, [Transfer(a, 1)]));
      && Credit(st, to, [Transfer(a, 1)]).result == Err(Overflow)
      && kept.balances == st.balances
      && Inventory(kept, to) == Inventory(st, to) + [IdBytes(a)]
  {
    var t := Transfer(a, 1);
    CreditOneEffect(st, to, t);
    LookupEffect(st, to, a, to);
  }
}

/**
 * The balance ledger of src/utils.rs as the source runs it: loops that read
 * and rewrite balance slots in place through a storage pointer. Each method
 * is proved to leave exactly the state that its specification function in
 * `LedgerModel` describes, so the lemmas proved there hold of it.
 */
module Ledger {
  import opened Encoding
  import opened Support
  import opened Storage
  import opened LedgerModel

  /**
   * What an `AtomicPointer` over the ledger sees: the balance slots, and the
   * inventory lists that `balance_pointer` appends to.
   */
  class LedgerStore {
    var balances: map<seq<byte>, u128>
    var lists: map<seq<byte>, seq<seq<byte>>>

    constructor (st: LedgerState)
      ensures State() == st
    {
      balances := st.balances;
      lists := st.lists;
    }

    function State(): LedgerState
      reads this
    {
      LedgerState(balances, lists)
    }

    /** `get_value::<u128>` on a slot: 0 when it is empty. */
    function ValueAt(key: seq<byte>): (v: u128)
      reads this
      ensures key in balances ==> v == balances[key]
      ensures key !in balances ==> v == 0
    {
      if key in balances then balances[key] else 0
    }

    /**
     * `balance_pointer`: the slot of `who`'s balance of `what`; looking it up
     * appends `what` to `who`'s inventory when the slot already holds bytes.
     */
    method BalancePointer(who: AlkaneId, what: AlkaneId) returns (key: seq<byte>)
      modifies this
      ensures key == BalanceKey(who, what)
      ensures State() == Lookup(old(State()), who, what)
    {
      key := BalanceKey(who, what);
      if key in balances {
        var inventory := InventoryKey(who);
        var listed := if inventory in lists then lists[inventory] else [];
        lists := lists[inventory := listed + [IdBytes(what)]];
      }
    }

    /** One iteration of `credit_balances`: checked add of `rune.value` to `to`'s balance. */
    method CreditEntry(to: AlkaneId, rune: Transfer) returns (r: Result<()>)
      modifies this
      ensures Outcome(r, State()) == CreditOne(old(State()), to, rune)
    {
      var key := BalancePointer(to, rune.id);
      ghost var looked := State();
      var current := ValueAt(key);
      assert current == Balance(looked, to, rune.id);
      if rune.value + current >= U128_LIMIT {
        return Err(Overflow);
      }
      balances := balances[key := rune.value + current];
      assert State() == SetBalance(looked, to, rune.id, rune.value + current);
      return Ok(());
    }

    /** `credit_balances`: checked add of every entry, stopping at the first overflow. */
    method CreditBalances(to: AlkaneId, runes: seq<Transfer>) returns (r: Result<()>)
      modifies this
      ensures Outcome(r, State()) == Credit(old(State()), to, runes)
    {
      var i := 0;
      while i < |runes|
        invariant 0 <= i <= |runes|
        invariant Credit(old(State()), to, runes) == Credit(State(), to, runes[i..])
      {
        assert runes[i..][0] == runes[i] && runes[i..][1..] == runes[i + 1..];
        r := CreditEntry(to, runes[i]);
        if r.Err? {
          return;
        }
        i := i + 1;
      }
      return Ok(());
    }

    /**
     * One iteration of `debit_balances`: checked subtract of `rune.value`
     * from `to`'s balance; the asset debiting itself keeps its balance on a
     * shortfall.
     */
    method DebitEntry(to: AlkaneId, rune: Transfer) returns (r: Result<()>)
      modifies this
      ensures Outcome(r, State()) == DebitOne(old(State()), to, rune)
    {
      var key := BalancePointer(to, rune.id);
      ghost var looked := State();
      var current := ValueAt(key);
      assert current == Balance(looked, to, rune.id);
      var v;
      if to == rune.id {
        v := if current >= rune.value then current - rune.value else current;
      } else {
        if current < rune.value {
          return Err(Underflow);
        }
        v := current - rune.value;
      }
      balances := balances[key := v];
      assert State() == SetBalance(looked, to, rune.id, v);
      return Ok(());
    }

    /** `debit_balances`: every entry in order, stopping at the first shortfall. */
    method DebitBalances(to: AlkaneId, runes: seq<Transfer>) returns (r: Result<()>)
      modifies this
      ensures Outcome(r, State()) == Debit(old(State()), to, runes)
    {
      var i := 0;
      while i < |runes|
        invariant 0 <= i <= |runes|
        invariant Debit(old(State()), to, runes) == Debit(State(), to, runes[i..])
      {
        assert runes[i..][0] == runes[i] && runes[i..][1..] == runes[i + 1..];
        r := DebitEntry(to, runes[i]);
        if r.Err? {
          return;
        }
        i := i + 1;
      }
      return Ok(());
    }

    /**
     * The first half of `transfer_from`'s loop body: take the amount from
     * `from`; an asset sending itself is topped up to the amount on a
     * shortfall.
     */
    method TakeEntry(transfer: Transfer, from: AlkaneId) returns (r: Result<()>)
      modifies this
      ensures Outcome(r, State()) == TakeFrom(old(State()), from, transfer)
    {
      var fromKey := BalancePointer(from, transfer.id);
      ghost var lookedFrom := State();
      var balance := ValueAt(fromKey);
      assert balance == Balance(lookedFrom, from, transfer.id);
      if balance < transfer.value {
        if transfer.id == from {
          balance := transfer.value;
        } else {
          return Err(Underflow);
        }
      }
      balances := balances[fromKey := balance - transfer.value];
      assert State() == SetBalance(lookedFrom, from, transfer.id, balance - transfer.value);
      return Ok(());
    }

    /**
     * The body of `transfer_from`'s loop for one entry: take the amount from
     * `from`, then re-read `to`'s balance and add the amount.
     */
    method TransferEntry(transfer: Transfer, from: AlkaneId, to: AlkaneId) returns (r: Result<()>)
      requires TransferOneFits(State(), from, to, transfer)
      modifies this
      ensures Outcome(r, State()) == TransferOne(old(State()), from, to, transfer)
    {
      r := TakeEntry(transfer, from);
      if r.Err? {
        return;
      }
      ghost var taken := State();
      var toKey := BalancePointer(to, transfer.id);
      ghost var looked := State();
      assert ValueAt(toKey) == Balance(looked, to, transfer.id) == Balance(taken, to, transfer.id);
      balances := balances[toKey := ValueAt(toKey) + transfer.value];
      assert State() == SetBalance(looked, to, transfer.id, Balance(looked, to, transfer.id) + transfer.value);
    }

    /**
     * `transfer_from`: every entry in order, stopping at the first shortfall.
     * The unchecked `+` on `to`'s balance is kept within u128 by `TransferFits`.
     */
    method TransferFrom(parcel: seq<Transfer>, from: AlkaneId, to: AlkaneId) returns (r: Result<()>)
      requires TransferFits(State(), from, to, parcel)
      modifies this
      ensures Outcome(r, State()) == LedgerModel.TransferFrom(old(State()), parcel, from, to)
    {
      var i := 0;
      while i < |parcel|
        invariant 0 <= i <= |parcel|
        invariant TransferFits(State(), from, to, parcel[i..])
        invariant LedgerModel.TransferFrom(old(State()), parcel, from, to)
               == LedgerModel.TransferFrom(State(), parcel[i..], from, to)
      {
        assert parcel[i..][0] == parcel[i] && parcel[i..][1..] == parcel[i + 1..];
        TransferStep(State(), parcel[i..], from, to);
        r := TransferEntry(parcel[i], from, to);
        if r.Err? {
          return;
        }
        i := i + 1;
      }
      return Ok(());
    }
  }

  /**
   * A key-value pointer rooted at `base`, as `pipe_storagemap_to` writes
   * through it.
   */
  class StoragePointer {
    const base: seq<byte>
    var kv: Store

    constructor (base: seq<byte>, kv: Store)
      ensures this.base == base && this.kv == kv
    {
      this.base := base;
      this.kv := kv;
    }

    /** `pipe_storagemap_to`: write every pair of `m` at base ++ "/storage/" ++ key. */
    method PipeStorageMapTo(m: map<seq<byte>, seq<byte>>)
      modifies this
      ensures kv == Piped(old(kv), base, m)
    {
      var remaining := m.Keys;
      while remaining != {}
        invariant remaining <= m.Keys
        invariant kv == Piped(old(kv), base, m - remaining)
        decreases remaining
      {
        var k :| k in remaining;
        kv := kv[StorageKey(base, k) := m[k]];
        RemoveOneMore(m, remaining, k);
        PipedAdd(old(kv), base, m - remaining, k, m[k]);
        remaining := remaining - {k};
      }
      assert m - remaining == m;
    }
  }

  /** Taking one key out of the removed set puts its entry back. */
  lemma RemoveOneMore(m: map<seq<byte>, seq<byte>>, remaining: set<seq<byte>>, k: seq<byte>)
    requires k in remaining && k in m
    ensures k !in m - remaining
    ensures m - (remaining - {k}) == (m - remaining)[k := m[k]]
  {
  }
}

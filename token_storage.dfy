/**
 * The two storage slots both token contracts keep under the same keywords:
 * the `u128` supply counter at "/totalsupply" and the initialize-once flag
 * at "/initialized", with the accessors each contract defines over them in
 * the same way.
 */
module TokenStorage {
  import opened Encoding
  import opened Storage

  const TOTAL_SUPPLY_KEY: seq<byte> := Ascii("/totalsupply")
  const INITIALIZED_KEY: seq<byte> := Ascii("/initialized")

  /** `total_supply`: the counter, 0 before the first write. */
  function TotalSupply(s: Store): u128
  {
    GetValue(s, TOTAL_SUPPLY_KEY)
  }

  /** The initialize-once flag is set: its slot holds some bytes. */
  predicate Initialized(s: Store)
  {
    |Get(s, INITIALIZED_KEY)| != 0
  }

  /** `set_total_supply(v)`: the 16-byte encoding of `v` at the counter's slot. */
  function SetTotalSupply(s: Store, v: u128): Store
  {
    SetValue(s, TOTAL_SUPPLY_KEY, v)
  }

  /**
   * What the counter means: 0 when its slot was never written, and the
   * number whose 16-byte encoding the slot holds when it holds 16 bytes.
   */
  lemma TotalSupplyReads(s: Store)
    ensures TOTAL_SUPPLY_KEY !in s ==> TotalSupply(s) == 0
    ensures TOTAL_SUPPLY_KEY in s && |s[TOTAL_SUPPLY_KEY]| == 16
      ==> U128Bytes(TotalSupply(s)) == s[TOTAL_SUPPLY_KEY]
  {
    if TOTAL_SUPPLY_KEY in s && |s[TOTAL_SUPPLY_KEY]| == 16 {
      U128BytesOfValue(s[TOTAL_SUPPLY_KEY]);
    }
  }

  /** Setting the supply reads back as `v`, and no other slot changes: in particular the flag does not. */
  lemma SetTotalSupplyEffect(s: Store, v: u128)
    ensures TotalSupply(SetTotalSupply(s, v)) == v
    ensures forall k :: k != TOTAL_SUPPLY_KEY ==> Get(SetTotalSupply(s, v), k) == Get(s, k)
    ensures Initialized(SetTotalSupply(s, v)) == Initialized(s)
  {
    assert TOTAL_SUPPLY_KEY[1] != INITIALIZED_KEY[1];
    GetSetValue(s, TOTAL_SUPPLY_KEY, v, INITIALIZED_KEY);
  }

  /** Setting the flag leaves the counter alone. */
  lemma SetFlagKeepsSupply(s: Store)
    ensures Initialized(SetMarker(s, INITIALIZED_KEY))
    ensures TotalSupply(SetMarker(s, INITIALIZED_KEY)) == TotalSupply(s)
  {
    assert TOTAL_SUPPLY_KEY[1] != INITIALIZED_KEY[1];
    assert Get(SetMarker(s, INITIALIZED_KEY), TOTAL_SUPPLY_KEY) == Get(s, TOTAL_SUPPLY_KEY);
  }
}

/**
 * The value types the core exchanges with its callers: identities, value
 * transfers, the call context, the call response, error kinds, and the
 * outcome of an operation on host state.
 */
module Support {
  import opened Encoding

  /** An identity: a holder account or an asset, or both (an asset acting as its own issuer). */
  datatype AlkaneId = AlkaneId(block: u128, tx: u128)

  /** The fixed-width serialisation of an identity: `block` then `tx`, 16 little-endian bytes each. */
  function IdBytes(id: AlkaneId): (r: seq<byte>)
    ensures |r| == 32
  {
    U128Bytes(id.block) + U128Bytes(id.tx)
  }

  /** Distinct identities have distinct serialisations. */
  lemma {:induction false} IdBytesInjective(a: AlkaneId, b: AlkaneId)
    requires IdBytes(a) == IdBytes(b)
    ensures a == b
  {
    assert U128Bytes(a.block) == IdBytes(a)[..16] == IdBytes(b)[..16] == U128Bytes(b.block);
    assert U128Bytes(a.tx) == IdBytes(a)[16..] == IdBytes(b)[16..] == U128Bytes(b.tx);
    U128BytesInjective(a.block, b.block);
    U128BytesInjective(a.tx, b.tx);
  }

  /** An amount of one asset (`AlkaneTransfer`, and `RuneTransfer` once its id is converted). */
  datatype Transfer = Transfer(id: AlkaneId, value: u128)

  /** The error kinds the core tells apart; message text is not modelled. */
  datatype Error =
    | Overflow            // a checked 128-bit addition overflowed
    | Underflow           // a non-issuer balance is smaller than the amount taken from it
    | AlreadyMinted       // the block hash is already in the seen set
    | AlreadyInitialized  // the initialized flag is already set
    | SupplyReached       // the stored supply has reached the ceiling
    | UnknownOpcode       // no handler for the opcode
    | MissingOpcode       // the call has no inputs to take the opcode from
    | MalformedBlock      // the host's block bytes did not parse
    | PremineUnavailable  // the chain configuration gave no premine

  datatype Result<T> = Ok(value: T) | Err(error: Error)

  datatype Option<T> = None | Some(value: T)

  /** What an operation returns together with the host state it leaves behind. */
  datatype Outcome<T, S> = Outcome(result: Result<T>, state: S)

  /** The call context the host hands a contract. */
  datatype Context = Context(myself: AlkaneId, inputs: seq<u128>, incoming: seq<Transfer>)

  /** A contract's reply: outgoing transfers and an optional data payload. */
  datatype Response = Response(alkanes: seq<Transfer>, data: seq<byte>)

  /** `CallResponse::forward`: hand the incoming transfers back, with no data. */
  function Forward(incoming: seq<Transfer>): (r: Response)
    ensures r.alkanes == incoming && r.data == []
  {
    Response(incoming, [])
  }
}

/**
 * The host key-value store as a storage pointer sees it: reading an absent
 * key gives no bytes, numbers are stored little-endian at their full width.
 */
module Storage {
  import opened Encoding

  type Store = map<seq<byte>, seq<byte>>

  /** `get`: the bytes at a key, empty when the key was never written. */
  function Get(s: Store, key: seq<byte>): seq<byte>
  {
    if key in s then s[key] else []
  }

  /** `get_value::<u128>`: 0 for an empty slot, otherwise the little-endian value of its first 16 bytes. */
  function GetValue(s: Store, key: seq<byte>): u128
  {
    var b := Get(s, key);
    var w := if |b| <= 16 then b else b[..16];
    Pow256Monotone(|w|, 16);
    Pow256Sixteen();
    LeValue(w)
  }

  /** `set_value::<u128>`: the 16-byte little-endian encoding of `v` at `key`. */
  function SetValue(s: Store, key: seq<byte>, v: u128): Store
  {
    s[key := U128Bytes(v)]
  }

  /** `set_value::<u32>(1)`: the 4-byte marker 1 at `key`. */
  function SetMarker(s: Store, key: seq<byte>): (s': Store)
    ensures Get(s', key) == [1, 0, 0, 0]
  {
    s[key := LeBytes(1, 4)]
  }

  /** A value written with `SetValue` reads back unchanged, and no other slot changes. */
  lemma GetSetValue(s: Store, key: seq<byte>, v: u128, other: seq<byte>)
    ensures GetValue(SetValue(s, key, v), key) == v
    ensures other != key ==> Get(SetValue(s, key, v), other) == Get(s, other)
  {
    assert Get(SetValue(s, key, v), key) == U128Bytes(v);
  }
}

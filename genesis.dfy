/**
 * The genesis token contract of crates/alkanes-std-genesis-alkane/src/lib.rs
 * as the source runs it: methods that read a storage slot and then write it.
 * Each method is proved to leave exactly the storage, and to answer exactly
 * the result, that its function in `GenesisModel` describes, so the gates,
 * the supply facts and the run lemmas proved there hold of it.
 */
module Genesis {
  import opened Encoding
  import opened Support
  import opened Storage
  import opened TokenStorage
  import opened GenesisModel

  /** The contract's view of its own storage. */
  class GenesisAlkane {
    var storage: Store

    constructor (storage: Store)
      ensures this.storage == storage
    {
      this.storage := storage;
    }

    /**
     * `total_supply`: 0 before the counter's first write, and otherwise the
     * number whose 16-byte encoding the slot holds. The last clause names the
     * function the rest of the model reasons about.
     */
    method TotalSupplyValue() returns (v: u128)
      ensures TOTAL_SUPPLY_KEY !in storage ==> v == 0
      ensures TOTAL_SUPPLY_KEY in storage && |storage[TOTAL_SUPPLY_KEY]| == 16
        ==> U128Bytes(v) == storage[TOTAL_SUPPLY_KEY]
      ensures v == TotalSupply(storage)
    {
      v := GetValue(storage, TOTAL_SUPPLY_KEY);
      TotalSupplyReads(storage);
    }

    /** `set_total_supply`: overwrite the counter. */
    method SetTotalSupply(v: u128)
      modifies this
      ensures storage == TokenStorage.SetTotalSupply(old(storage), v)
    {
      storage := SetValue(storage, TOTAL_SUPPLY_KEY, v);
    }

    /** `increase_total_supply`: checked add to the counter. */
    method IncreaseTotalSupply(v: u128) returns (r: Result<()>)
      modifies this
      ensures Outcome(r, storage) == GenesisModel.IncreaseTotalSupply(old(storage), v)
    {
      var current := TotalSupplyValue();
      if current + v >= U128_LIMIT {
        return Err(Overflow);
      }
      SetTotalSupply(current + v);
      r := Ok(());
    }

    /** `observe_mint`: mark the hash seen, failing when it already is. */
    method ObserveMint(hash: seq<byte>) returns (r: Result<()>)
      modifies this
      ensures Outcome(r, storage) == GenesisModel.ObserveMint(old(storage), hash)
    {
      var key := SeenKey(hash);
      if |Get(storage, key)| == 0 {
        storage := SetMarker(storage, key);
        r := Ok(());
      } else {
        r := Err(AlreadyMinted);
      }
    }

    /** `observe_mint(&self.block()?)`: a block that does not parse fails before any write. */
    method ObserveBlock(chain: Chain) returns (r: Result<()>)
      modifies this
      ensures Outcome(r, storage) == GenesisModel.ObserveBlock(old(storage), chain)
    {
      if chain.blockHash.None? {
        return Err(MalformedBlock);
      }
      r := ObserveMint(chain.blockHash.value);
    }

    /** `observe_initialization`: the block gate, then set the flag unless it is already set. */
    method ObserveInitialization(chain: Chain) returns (r: Result<()>)
      modifies this
      ensures Outcome(r, storage) == GenesisModel.ObserveInitialization(old(storage), chain)
    {
      r := ObserveBlock(chain);
      if r.Err? {
        return;
      }
      if |Get(storage, INITIALIZED_KEY)| == 0 {
        storage := SetMarker(storage, INITIALIZED_KEY);
        r := Ok(());
      } else {
        r := Err(AlreadyInitialized);
      }
    }

    /** `mint`, with the supply ceiling as a parameter. */
    method Mint(chain: Chain, ceiling: u128, myself: AlkaneId) returns (r: Result<Transfer>)
      requires MintFits(storage, ceiling, chain.reward)
      modifies this
      ensures Outcome(r, storage) == GenesisModel.Mint(old(storage), chain, ceiling, myself)
    {
      var observed := ObserveBlock(chain);
      if observed.Err? {
        return Err(observed.error);
      }
      ObserveBlockEffect(old(storage), chain);
      var supply := TotalSupplyValue();
      if supply >= ceiling {
        return Err(SupplyReached);
      }
      SetTotalSupply(supply + chain.reward);
      r := Ok(Transfer(myself, chain.reward));
    }

    /** `execute`: dispatch on the first input. */
    method Execute(chain: Chain, ceiling: u128, ctx: Context) returns (r: Result<Response>)
      requires ExecuteFits(storage, chain, ceiling, ctx)
      modifies this
      ensures Outcome(r, storage) == GenesisModel.Execute(old(storage), chain, ceiling, ctx)
    {
      var response := Forward(ctx.incoming);
      if ctx.inputs == [] {
        return Err(MissingOpcode);
      }
      var opcode := ctx.inputs[0];
      if opcode == 0 {
        var initialized := ObserveInitialization(chain);
        if initialized.Err? {
          return Err(initialized.error);
        }
        if chain.premine.None? {
          return Err(PremineUnavailable);
        }
        var premine := chain.premine.value;
        response := response.(alkanes := response.alkanes + [Transfer(ctx.myself, premine)]);
        var increased := IncreaseTotalSupply(premine);
        if increased.Err? {
          return Err(increased.error);
        }
      } else if opcode == 77 {
        var minted := Mint(chain, ceiling, ctx.myself);
        if minted.Err? {
          return Err(minted.error);
        }
        response := response.(alkanes := response.alkanes + [minted.value]);
      } else if opcode == 99 || opcode == 100 {
        response := response.(data := NAME);
      } else if opcode == 101 {
        var supply := TotalSupplyValue();
        response := response.(data := U128Bytes(supply));
      } else {
        return Err(UnknownOpcode);
      }
      r := Ok(response);
    }
  }
}

/**
 * The orbital NFT contract of crates/alkanes-std-orbital/src/lib.rs as the
 * source runs it: methods that read and write its storage slots. Each method
 * is proved to leave exactly the storage, and to answer exactly the result,
 * that its function in `OrbitalModel` describes.
 */
module Orbital {
  import opened Encoding
  import opened Support
  import opened Storage
  import opened TokenStorage
  import opened OrbitalModel

  /** The contract's view of its own storage. */
  class Orbital {
    var storage: Store

    constructor (storage: Store)
      ensures this.storage == storage
    {
      this.storage := storage;
    }

    /**
     * `total_supply`: 0 before the counter's first write, and otherwise the
     * number whose 16-byte encoding the slot holds. The last clause names the
     * function the rest of the model reasons about.
     */
    method TotalSupplyValue() returns (v: u128)
      ensures TOTAL_SUPPLY_KEY !in storage ==> v == 0
      ensures TOTAL_SUPPLY_KEY in storage && |storage[TOTAL_SUPPLY_KEY]| == 16
        ==> U128Bytes(v) == storage[TOTAL_SUPPLY_KEY]
      ensures v == TotalSupply(storage)
    {
      v := GetValue(storage, TOTAL_SUPPLY_KEY);
      TotalSupplyReads(storage);
    }

    /** `set_total_supply`: overwrite the counter. */
    method SetTotalSupply(v: u128)
      modifies this
      ensures storage == TokenStorage.SetTotalSupply(old(storage), v)
    {
      storage := SetValue(storage, TOTAL_SUPPLY_KEY, v);
    }

    /** `observe_initialization`: set the flag unless it is already set. */
    method ObserveInitialization() returns (r: Result<()>)
      modifies this
      ensures Outcome(r, storage) == OrbitalModel.ObserveInitialization(old(storage))
    {
      if |Get(storage, INITIALIZED_KEY)| == 0 {
        storage := SetMarker(storage, INITIALIZED_KEY);
        r := Ok(());
      } else {
        r := Err(AlreadyInitialized);
      }
    }

    /** `execute`: dispatch on the first input. */
    method Execute(ctx: Context) returns (r: Result<Response>)
      modifies this
      ensures Outcome(r, storage) == OrbitalModel.Execute(old(storage), ctx)
    {
      var response := Forward(ctx.incoming);
      if ctx.inputs == [] {
        return Err(MissingOpcode);
      }
      var opcode := ctx.inputs[0];
      if opcode == 0 {
        var initialized := ObserveInitialization();
        if initialized.Err? {
          return Err(initialized.error);
        }
        SetTotalSupply(1);
        response := response.(alkanes := response.alkanes + [Transfer(ctx.myself, 1)]);
      } else if opcode == 99 || opcode == 100 {
        response := response.(data := NAME);
      } else if opcode == 101 {
        var supply := TotalSupplyValue();
        response := response.(data := U128Bytes(supply));
      } else if opcode == 1000 {
        response := response.(data := Data());
      } else {
        return Err(UnknownOpcode);
      }
      r := Ok(response);
    }
  }
}

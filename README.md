# Alkanes balance ledger, genesis token and orbital NFT in Dafny

This project models three pieces of the alkanes indexer's consensus accounting.

- **The balance ledger** (`src/utils.rs`).
  - Each balance lives at `"/alkanes/" ++ asset ++ "/balances/" ++ holder`.
  - `credit_balances` adds with an overflow check. `debit_balances` subtracts with an underflow check; an asset debiting its own balance keeps it unchanged on a shortfall.
  - `transfer_from` moves amounts between holders. An asset sending itself is topped up to the amount on a shortfall.
  - Each holder has an inventory list. `balance_pointer` appends to it on every lookup of a non-empty slot.
  - `pipe_storagemap_to` writes a map under a `"/storage/"` prefix.
- **The genesis token, DIESEL** (`crates/alkanes-std-genesis-alkane/src/lib.rs`).
  - The block reward halves every epoch.
  - A per-block "seen" gate allows one mint per block hash.
  - An initialize-once gate guards the premine.
  - A total-supply counter checks a ceiling before each mint.
  - Opcodes 0, 77, 99, 100 and 101 are dispatched.
- **The orbital NFT** (`crates/alkanes-std-orbital/src/lib.rs`). It has an initialize-once gate that sets the supply to exactly 1 and sends one unit. It answers constant metadata and a fixed 1×1 PNG.

Each source file is modelled in two layers.

- **A pure specification.** Modules `LedgerModel`, `GenesisModel` and `OrbitalModel` hold functions over the store and lemmas about them.
- **An imperative layer.** Modules `Ledger`, `Genesis` and `Orbital` hold classes whose methods read and rewrite storage as the source does: loops over the parcel, read-then-write on slots. Each method is proved to leave exactly the state, and return exactly the result, that its specification function gives. Every lemma about the specification therefore holds of the methods.

A failed call's writes are discarded by the host. `GenesisModel.Call` and `OrbitalModel.Call` model that rollback, and `LedgerModel.Committed` models it for the ledger. On top of these, runs of calls are sequences of invocations, answers and stores (`IsRun`), and lemmas over runs state what holds across many calls: one mint per block, one initialization, and the orbital supply always matching its flag.

Shared modules:
- `Encoding`: bytes, u128, little-endian encoding, ASCII.
- `Support`: alkane ids and their 32-byte encoding, transfers, errors, results, call contexts and responses.
- `Storage`: the host key-value store as a storage pointer reads and writes it.
- `TokenStorage`: the supply counter at "/totalsupply" and the initialize-once flag at "/initialized", which both token contracts keep under the same keywords and read and write in the same way.

**Balance slots.** Every write to a balance slot is a 16-byte `set_value::<u128>`. The ledger therefore keeps balances as typed slots (`map<seq<byte>, u128>`). A slot is either absent, reading 0, or holds one u128. A present slot holding 0 still counts as non-empty for the inventory.

**Behaviours of the code the model keeps:**
- The inventory is appended to on every lookup of a non-empty slot, including a stored zero. It is not a set, so there is no de-duplication.
- The inventory appends go through a plain index pointer, outside the atomic batch. A failed call therefore keeps them (`LedgerModel.FailedCreditKeepsInventoryAppend`).
- The premine is not checked against the supply ceiling.
- The ceiling is checked only before the unchecked add. A mint can therefore leave the supply above the ceiling, by less than one reward.
- The premine and the mint reward go to the contract itself (`context.myself`).

## Model

| member | source | states |
|---|---|---|
| Support.IdBytesInjective | src/utils.rs:31-32 | distinct alkane ids have distinct 32-byte encodings |
| LedgerModel.BalanceKeyInjective | src/utils.rs:31-38 | distinct (holder, asset) pairs get distinct balance slots |
| LedgerModel.InventoryKeyInjective | src/utils.rs:45-51 | distinct holders get distinct inventory lists |
| LedgerModel.LookupEffect | src/utils.rs:39-41 | a lookup changes no balance. It appends `what` to the holder's inventory exactly when the slot is present, even holding 0, and again on every lookup. It touches no other holder's list |
| Ledger.LedgerStore.BalancePointer | src/utils.rs:26-43 | returns the derived balance slot and leaves exactly the lookup's effect |
| LedgerModel.CreditOneEffect | src/utils.rs:73-79 | one credit fails with Overflow, writing no balance, exactly when the sum leaves u128. Otherwise it adds the amount to that one balance and writes no other slot |
| LedgerModel.CreditSucceedsIff | src/utils.rs:67-82 | `credit_balances` succeeds exactly when no running per-asset total overflows, and otherwise fails with Overflow |
| LedgerModel.CreditBalanceAt | src/utils.rs:72-80 | after a successful credit, every balance of `to` rose by the total listed for that asset, and no other holder's balance changed |
| LedgerModel.CreditWritesAt | src/utils.rs:72-80 | a successful credit leaves every slot outside the listed ones as it was |
| LedgerModel.CreditAddsAmounts | src/utils.rs:67-82 | a successful credit raises each listed balance by its total, changes no other balance and writes only the listed slots |
| Ledger.LedgerStore.CreditEntry | src/utils.rs:73-79 | one loop iteration leaves exactly the result and state of `LedgerModel.CreditOne` |
| Ledger.LedgerStore.CreditBalances | src/utils.rs:67-82 | the loop leaves exactly the result and state of `LedgerModel.Credit` |
| LedgerModel.DebitOneEffect | src/utils.rs:90-105 | one debit fails with Underflow exactly when a holder that is not the asset is short. The asset itself keeps its balance on a shortfall. Otherwise the balance drops by the amount, and only that slot is written |
| LedgerModel.DebitSucceedsIff | src/utils.rs:101-103 | for a holder that is none of the assets, `debit_balances` succeeds exactly when each running total is covered, and otherwise fails with Underflow |
| LedgerModel.DebitBalanceAt | src/utils.rs:89-106 | after a successful debit by a non-issuer, each balance of `to` dropped by the total listed for that asset, and no other holder's balance changed |
| LedgerModel.DebitWritesAt | src/utils.rs:89-106 | a successful debit leaves every slot outside the listed ones as it was |
| LedgerModel.DebitSubtractsAmounts | src/utils.rs:84-108 | a successful non-issuer debit lowers each listed balance by its total, changes no other balance and writes only the listed slots |
| Ledger.LedgerStore.DebitEntry | src/utils.rs:90-105 | one loop iteration leaves exactly the result and state of `LedgerModel.DebitOne` |
| Ledger.LedgerStore.DebitBalances | src/utils.rs:84-108 | the loop leaves exactly the result and state of `LedgerModel.Debit` |
| LedgerModel.TakeFromEffect | src/utils.rs:117-127 | taking from `from` fails with Underflow exactly for a short non-issuer source. Otherwise `from` drops by the amount, or ends at 0 for a short issuer, and only that slot is written |
| LedgerModel.TransferOneFails | src/utils.rs:120-125 | a transfer entry fails with Underflow, writing no balance, exactly when a non-issuer source is short |
| LedgerModel.TransferOneWrites | src/utils.rs:117-130 | a successful entry writes only `from`'s and `to`'s slots of the asset |
| LedgerModel.TransferOneBalances | src/utils.rs:117-130 | per balance: `from` drops by the amount, or ends at 0 after an issuer shortfall, while `to` gains the full amount. When `from == to` the balance is unchanged, or equals the amount after an issuer shortfall, because `to` is re-read after the `from` write. Every other balance is unchanged |
| LedgerModel.TransferOneMoves | src/utils.rs:117-130 | between distinct holders with a non-issuer source, one entry moves exactly its amount |
| LedgerModel.TransferHead | src/utils.rs:116-131 | in a successful parcel between distinct holders, the first entry succeeds, moves exactly its amount from `from` to `to`, and leaves the rest of the parcel to succeed |
| LedgerModel.TransferBalanceAt | src/utils.rs:110-133 | a successful parcel between distinct holders, from a source that is none of the assets, moves each asset's total from `from` to `to` and changes no other balance |
| LedgerModel.TransferConserves | src/utils.rs:110-133 | for such a parcel, `from` + `to` is conserved per asset and every other holder's balances are unchanged |
| Ledger.LedgerStore.TakeEntry | src/utils.rs:117-127 | the first half of a loop iteration leaves exactly the result and state of `LedgerModel.TakeFrom` |
| Ledger.LedgerStore.TransferEntry | src/utils.rs:116-131 | one loop iteration leaves exactly the result and state of `LedgerModel.TransferOne` |
| Ledger.LedgerStore.TransferFrom | src/utils.rs:110-133 | the loop leaves exactly the result and state of `LedgerModel.TransferFrom`, stopping at the first underflow |
| LedgerModel.StorageKeyInjective | src/utils.rs:136-138 | distinct map keys are written to distinct slots under one base |
| LedgerModel.PipedAdd | src/utils.rs:135-140 | piping one more pair is one more write on top of the pairs already piped, whatever the iteration order |
| LedgerModel.PipedWritesExactly | src/utils.rs:134-141 | piping writes each map value at base ++ "/storage/" ++ key and writes nothing else |
| Ledger.StoragePointer.PipeStorageMapTo | src/utils.rs:134-141 | the loop leaves exactly the store `LedgerModel.Piped` describes |
| LedgerModel.LookupInventory | src/utils.rs:39-41 | one lookup changes only `who`'s inventory, and only by appending the id of `what` |
| LedgerModel.CreditOneInventory | src/utils.rs:73 | one credit entry changes only `to`'s inventory, and only by appending the entry's asset id |
| LedgerModel.CreditInventory | src/utils.rs:67-82 | whether it succeeds or fails, `credit_balances` changes no inventory but `to`'s. `to`'s list keeps its old entries in place and only gains ids of assets the parcel names |
| LedgerModel.DebitOneInventory | src/utils.rs:90 | one debit entry changes only `to`'s inventory, and only by appending the entry's asset id |
| LedgerModel.DebitInventory | src/utils.rs:84-108 | whether it succeeds or fails, `debit_balances` changes no inventory but `to`'s. `to`'s list keeps its old entries in place and only gains ids of assets the parcel names |
| LedgerModel.TransferOneInventory | src/utils.rs:117-129 | one transfer entry changes only the inventories of `from` and `to`, each only by appending the entry's asset id |
| LedgerModel.TransferInventory | src/utils.rs:110-133 | whether it succeeds or fails, `transfer_from` changes no inventory but those of `from` and `to`. Their lists keep their old entries in place and only gain ids of assets the parcel names |
| LedgerModel.FailedCreditKeepsInventoryAppend | src/utils.rs:39-41 | a credit that overflows fails and changes no balance once rolled back, yet leaves the asset appended to the holder's inventory |
| GenesisModel.BlockReward | crates/alkanes-std-genesis-alkane/src/lib.rs:39-41 | the halving reward never exceeds the base reward |
| GenesisModel.RewardWithinEpoch | crates/alkanes-std-genesis-alkane/src/lib.rs:39-41 | throughout epoch e the reward is base / 2^e, so it is constant within an epoch |
| GenesisModel.RewardNonIncreasing | crates/alkanes-std-genesis-alkane/src/lib.rs:40 | the reward never grows with the height |
| GenesisModel.RewardHalvesAtBoundary | crates/alkanes-std-genesis-alkane/src/lib.rs:40 | one epoch later the reward is the earlier reward halved, rounded down |
| GenesisModel.BitcoinRewardEnds | crates/alkanes-std-genesis-alkane/src/lib.rs:55-57 | with 50e8 halving every 210000 blocks, the reward is 1 in epoch 32 and 0 from epoch 33 on |
| GenesisModel.SlotsDistinct | crates/alkanes-std-genesis-alkane/src/lib.rs:137-145 | no seen slot is the supply counter or the initialized flag, and those two differ |
| GenesisModel.SeenKeyInjective | crates/alkanes-std-genesis-alkane/src/lib.rs:137-139 | distinct block hashes have distinct seen slots |
| TokenStorage.TotalSupplyReads | crates/alkanes-std-genesis-alkane/src/lib.rs:143-148 | the counter reads 0 when its slot was never written and, when its slot holds 16 bytes, the number they encode in little-endian order |
| TokenStorage.SetTotalSupplyEffect | crates/alkanes-std-genesis-alkane/src/lib.rs:153-155 | the counter reads back as the value written, and no other slot changes, the flag included |
| TokenStorage.SetFlagKeepsSupply | crates/alkanes-std-orbital/src/lib.rs:31-33 | setting the flag leaves it set and the counter unchanged |
| Encoding.LeValueRoundTrip | crates/alkanes-std-genesis-alkane/src/lib.rs:146-148 | re-encoding the little-endian value of any bytes at their own width gives the same bytes back |
| GenesisModel.SetTotalSupplyKeepsMarks | crates/alkanes-std-genesis-alkane/src/lib.rs:153-155 | the counter reads back as the value written, and the flag and every seen slot are unchanged |
| GenesisModel.IncreaseTotalSupplyEffect | crates/alkanes-std-genesis-alkane/src/lib.rs:149-152 | the checked add fails with Overflow, writing nothing, exactly when the sum leaves u128. Otherwise the counter rises by the amount |
| GenesisModel.ObserveMintEffect | crates/alkanes-std-genesis-alkane/src/lib.rs:156-168 | succeeds exactly for an unseen hash and marks it seen. On a seen hash it fails with AlreadyMinted and writes nothing. No other hash, the counter and the flag are untouched |
| GenesisModel.ObserveBlockEffect | crates/alkanes-std-genesis-alkane/src/lib.rs:170 | an unparsable block fails with MalformedBlock before any write. A parsed one passes the seen gate as above |
| GenesisModel.ObserveInitializationEffect | crates/alkanes-std-genesis-alkane/src/lib.rs:183-192 | succeeds exactly for a parsed unseen block on an uninitialized store. It then sets the flag and marks the block, and an unseen block on an initialized store fails with AlreadyInitialized |
| GenesisModel.MintSucceedsIff | crates/alkanes-std-genesis-alkane/src/lib.rs:169-176 | a mint succeeds exactly for a parsed unseen block while the stored supply is below the ceiling. Past the block gate it otherwise fails with SupplyReached |
| GenesisModel.MintEffect | crates/alkanes-std-genesis-alkane/src/lib.rs:169-182 | a successful mint pays {myself, reward}, raises the supply by exactly the reward to below ceiling + reward, and marks its block seen. A failed mint leaves the supply unchanged |
| GenesisModel.MintAsWrittenNeverMints | crates/alkanes-std-genesis-alkane/src/lib.rs:173-175 | with the guard comparing the stored counter with itself, every mint fails, with SupplyReached once past the block gate |
| GenesisModel.ExecuteInitializes | crates/alkanes-std-genesis-alkane/src/lib.rs:201-209 | opcode 0 succeeds exactly for a parsed unseen block on an uninitialized store with a premine that fits. It then sends exactly one {myself, premine} transfer and raises the supply by the premine, with no ceiling check |
| GenesisModel.ExecuteMints | crates/alkanes-std-genesis-alkane/src/lib.rs:210-212 | opcode 77 succeeds exactly when the mint does, appends {myself, reward} to the forwarded transfers and raises the supply by the reward |
| GenesisModel.ExecuteQueries | crates/alkanes-std-genesis-alkane/src/lib.rs:213-221 | opcodes 99 and 100 answer "DIESEL", and 101 the 16 little-endian bytes of the stored supply. None of them writes anything |
| GenesisModel.ExecuteRejects | crates/alkanes-std-genesis-alkane/src/lib.rs:200-224 | no inputs gives MissingOpcode and any other opcode gives UnknownOpcode, each writing nothing |
| GenesisModel.Call | crates/alkanes-std-genesis-alkane/src/lib.rs:196-227 | the host answers what `execute` answers, and a failed call leaves the store unchanged |
| GenesisModel.CallKeepsMarks | crates/alkanes-std-genesis-alkane/src/lib.rs:156-192 | no call unmarks a seen block, clears the flag or lowers the supply |
| GenesisModel.CallMarksItsBlock | crates/alkanes-std-genesis-alkane/src/lib.rs:169-192 | a successful opcode 0 or 77 call is for a parsed block unseen before it and leaves that block seen |
| GenesisModel.RunGrows | crates/alkanes-std-genesis-alkane/src/lib.rs:156-192 | along any run, seen blocks, the flag and the supply only ever grow |
| GenesisModel.NoDoubleMint | crates/alkanes-std-genesis-alkane/src/lib.rs:156-168 | two successful minting calls of a run are for different block hashes |
| GenesisModel.InitializeOnce | crates/alkanes-std-genesis-alkane/src/lib.rs:183-192 | after a successful opcode 0, every later opcode 0 of the run fails |
| GenesisModel.CeilingStopsMinting | crates/alkanes-std-genesis-alkane/src/lib.rs:173-176 | once the supply reaches the ceiling, every later opcode 77 of the run fails |
| Genesis.GenesisAlkane.TotalSupplyValue | crates/alkanes-std-genesis-alkane/src/lib.rs:146-148 | returns 0 when the counter was never written and, when its slot holds 16 bytes, the number they encode in little-endian order |
| Genesis.GenesisAlkane.SetTotalSupply | crates/alkanes-std-genesis-alkane/src/lib.rs:153-155 | leaves exactly `TokenStorage.SetTotalSupply` |
| Genesis.GenesisAlkane.IncreaseTotalSupply | crates/alkanes-std-genesis-alkane/src/lib.rs:149-152 | leaves exactly the result and store of `GenesisModel.IncreaseTotalSupply` |
| Genesis.GenesisAlkane.ObserveMint | crates/alkanes-std-genesis-alkane/src/lib.rs:156-168 | leaves exactly the result and store of `GenesisModel.ObserveMint` |
| Genesis.GenesisAlkane.ObserveBlock | crates/alkanes-std-genesis-alkane/src/lib.rs:170 | leaves exactly the result and store of `GenesisModel.ObserveBlock` |
| Genesis.GenesisAlkane.ObserveInitialization | crates/alkanes-std-genesis-alkane/src/lib.rs:183-192 | leaves exactly the result and store of `GenesisModel.ObserveInitialization` |
| Genesis.GenesisAlkane.Mint | crates/alkanes-std-genesis-alkane/src/lib.rs:169-182 | leaves exactly the result and store of `GenesisModel.Mint` |
| Genesis.GenesisAlkane.Execute | crates/alkanes-std-genesis-alkane/src/lib.rs:196-227 | leaves exactly the result and store of `GenesisModel.Execute` |
| Encoding.U128Bytes | crates/alkanes-std-genesis-alkane/src/lib.rs:220 | `to_le_bytes` gives 16 bytes whose little-endian value is the number |
| OrbitalModel.Data | crates/alkanes-std-orbital/src/lib.rs:39-43 | the image is 95 bytes. It starts with the PNG signature and an IHDR chunk for 1×1 pixels, and ends with the IEND chunk |
| OrbitalModel.ObserveInitializationEffect | crates/alkanes-std-orbital/src/lib.rs:30-38 | succeeds exactly when the flag is unset and then sets it. Otherwise it fails with AlreadyInitialized and writes nothing. The supply is never touched |
| OrbitalModel.ExecuteInitializes | crates/alkanes-std-orbital/src/lib.rs:52-59 | opcode 0 succeeds exactly on an uninitialized store. It overwrites the supply with exactly 1 and appends exactly one {myself, 1} transfer; otherwise it fails with AlreadyInitialized, writing nothing |
| OrbitalModel.ExecuteMetadata | crates/alkanes-std-orbital/src/lib.rs:60-69 | opcodes 99 and 100 answer "NFT" and 1000 the image, all writing nothing |
| OrbitalModel.ExecuteSupply | crates/alkanes-std-orbital/src/lib.rs:66-68 | opcode 101 answers the 16 little-endian bytes of the stored supply and writes nothing |
| OrbitalModel.ExecuteRejects | crates/alkanes-std-orbital/src/lib.rs:51-70 | no inputs gives MissingOpcode and any other opcode gives UnknownOpcode, each writing nothing |
| OrbitalModel.Call | crates/alkanes-std-orbital/src/lib.rs:47-73 | the host answers what `execute` answers, and a failed call leaves the store unchanged |
| OrbitalModel.EmptyConsistent | crates/alkanes-std-orbital/src/lib.rs:24-26 | a fresh store is uninitialized and its supply reads 0 |
| OrbitalModel.CallKeepsConsistent | crates/alkanes-std-orbital/src/lib.rs:52-59 | every call keeps the supply at 1 when initialized and 0 before |
| OrbitalModel.CallKeepsFlag | crates/alkanes-std-orbital/src/lib.rs:30-38 | no call clears the flag |
| OrbitalModel.RunConsistent | crates/alkanes-std-orbital/src/lib.rs:52-59 | a run from a consistent store stays consistent at every step |
| OrbitalModel.RunKeepsFlag | crates/alkanes-std-orbital/src/lib.rs:30-38 | once set, the flag stays set for the rest of a run |
| OrbitalModel.InitializeOnce | crates/alkanes-std-orbital/src/lib.rs:30-38 | after a successful opcode 0, every later opcode 0 of the run fails |
| OrbitalModel.SupplyAnswer | crates/alkanes-std-orbital/src/lib.rs:66-68 | on a fresh contract, opcode 101 answers the bytes of 0 before initialization and of 1 after |
| Orbital.Orbital.TotalSupplyValue | crates/alkanes-std-orbital/src/lib.rs:24-26 | returns 0 when the counter was never written and, when its slot holds 16 bytes, the number they encode in little-endian order |
| Orbital.Orbital.SetTotalSupply | crates/alkanes-std-orbital/src/lib.rs:27-29 | leaves exactly `TokenStorage.SetTotalSupply` |
| Orbital.Orbital.ObserveInitialization | crates/alkanes-std-orbital/src/lib.rs:30-38 | leaves exactly the result and store of `OrbitalModel.ObserveInitialization` |
| Orbital.Orbital.Execute | crates/alkanes-std-orbital/src/lib.rs:47-73 | leaves exactly the result and store of `OrbitalModel.Execute` |

## Left out

- Block parsing and hashing (`AuxpowBlock::parse`, `to_consensus`, `block_hash`) are foreign consensus code. The block hash is an input, `None` when the block does not parse.
- `chain.rs` is not part of this model. `current_block_reward`, `premine` and `CONTEXT_HANDLE` become inputs (`GenesisModel.Chain`).
- The dogecoin, fractal, luckycoin and bellscoin configurations are covered only through the `Flat` and `Halving` reward schedules and the ceiling parameter. Their float literals are not modelled.
- `genesis_block` and `average_payout_from_genesis` are not used by the modelled operations.
- `from_protobuf` (protobuf unwrapping) and `alkane_id_to_outpoint` (Bitcoin consensus decoding) are outside the ledger core.
- The WASM glue (`declare_alkane!`, `__execute`, `to_arraybuffer_layout`, `to_passback_ptr`) is not modelled. Neither is a failing `self.context()`.
- `AtomicPointer` commit and rollback internals are modelled only by their effect (`Call`, `Committed`). The inventory list is modelled as a sequence rather than through the `IndexPointer::append` encoding.
- `AlkaneId` byte serialisation is modelled as 16 little-endian bytes of block, then 16 of tx. Only its injectivity is relied on.
- Error message text, including `hex::encode` of the hash, is reduced to error kinds.
- The iteration order of `pipe_storagemap_to`'s hash map is not modelled. The loop picks any remaining key, and the result is proved independent of the order.
- A balance slot written by something other than `set_value::<u128>` is not modelled. Balances are typed u128 slots.
- TokenStorage.TotalSupplyReads: says nothing about a counter slot holding other than 16 bytes, because only `set_value::<u128>` writes that slot. The function it describes still reads the first 16 bytes of any slot.
- `GenesisModel.BlockReward`: a height whose epoch is 128 or more is excluded by `ShiftFits`. There `1u128 << epoch` overflows the shift.
- `LedgerModel.TransferFrom`: the unchecked `+` on `to`'s balance is excluded by the precondition `TransferFits` rather than modelled as a wrap-around or a panic.
- `LedgerModel.TransferOne`: the same unchecked `+` is excluded by `TransferOneFits`.
- `GenesisModel.Mint`: the unchecked `+` of the reward past the ceiling check is excluded by `MintFits`. `GenesisModel.Execute` carries it as `ExecuteFits` for opcode 77.
- `LedgerModel.DebitSucceedsIff` and `LedgerModel.DebitSubtractsAmounts` are stated for holders that are none of the debited assets. The issuer case is covered per entry by `LedgerModel.DebitOneEffect`.
- `LedgerModel.TransferConserves` is stated for distinct holders and a source that is none of the moved assets. The other cases are covered per entry by `LedgerModel.TransferOneBalances`.

## Findings

| source | as written | input that shows it | evidently intended | confidence | as-written member | corrected member |
|---|---|---|---|---|---|---|
| crates/alkanes-std-genesis-alkane/src/lib.rs:174 | `self.total_supply()` resolves to the inherent method at lines 146-148, so the guard compares the stored counter with itself and `total_supply >= total_supply` always holds | any opcode-77 call for a parsed, unseen block: it fails with "total supply has been reached" whatever the supply | compare with the configured ceiling, `ChainConfiguration::total_supply` (131250000000000 at line 49) | not executed | GenesisModel.MintAsWritten, GenesisModel.MintAsWrittenNeverMints | GenesisModel.Mint, GenesisModel.MintSucceedsIff |

/**
 * The genesis token contract of crates/alkanes-std-genesis-alkane/src/lib.rs
 * as functions on its storage: the halving block reward, the once-per-block
 * mint gate, the initialize-once gate, the total-supply counter and the
 * opcode dispatch; then the host's rollback of a failed call and what holds
 * over any sequence of calls.
 */
module GenesisModel {
  import opened Encoding
  import opened Support
  import opened Storage
  import opened TokenStorage

  /* ------------------------------------------------------ block reward */

  type Interval = x: int | x >= 1 witness 1

  /** A chain's issuance: `base / 2^(n / interval)` at height n, or the same amount at every height. */
  datatype Schedule = Halving(base: u128, interval: Interval) | Flat(amount: u128)

  /** The reward of the regtest and mainnet configurations: 50e8, halving every 210000 blocks. */
  const BITCOIN_SCHEDULE: Schedule := Halving(5_000_000_000, 210000)

  /** The supply ceiling the regtest and mainnet configurations declare. */
  const SUPPLY_CEILING: u128 := 131250000000000

  /** The shift `1u128 << (n / interval)` stays inside 128 bits. */
  predicate ShiftFits(s: Schedule, n: u64)
  {
    s.Halving? ==> n / s.interval < 128
  }

  /** `block_reward(n)`. */
  function BlockReward(s: Schedule, n: u64): (r: u128)
    requires ShiftFits(s, n)
    ensures s.Halving? ==> r <= s.base
  {
    match s
    case Halving(base, interval) => Quotient(base, Pow2(n / interval))
    case Flat(amount) => amount
  }

  /** `x / d` on u128 operands. */
  function Quotient(x: u128, d: nat): (q: u128)
    requires d >= 1
    ensures q <= x
  {
    DivAtMost(x, d);
    x / d
  }

  lemma MulLe(d: nat, a: nat, b: nat)
    requires a <= b
    ensures d * a <= d * b
  {
  }

  lemma DivAtMost(x: nat, d: nat)
    requires d > 0
    ensures x / d <= x
  {
    MulLe(x / d, 1, d);
  }

  /** Any `q` with `q * d <= x` is at most `x / d`. */
  lemma DivLowerBound(x: nat, d: nat, q: nat)
    requires d > 0 && q * d <= x
    ensures q <= x / d
  {
    if q > x / d {
      MulLe(d, x / d + 1, q);
      assert false;
    }
  }

  /** Division is determined by any quotient and remainder that reassemble `x`. */
  lemma DivUnique(x: nat, d: nat, q: nat, r: nat)
    requires d > 0 && r < d && x == d * q + r
    ensures x / d == q
  {
    DivLowerBound(x, d, q);
    if x / d > q {
      MulLe(d, q + 1, x / d);
      assert false;
    }
  }

  lemma DivDivisorMonotone(x: nat, a: nat, b: nat)
    requires 0 < a <= b
    ensures x / b <= x / a
  {
    MulLe(x / b, a, b);
    DivLowerBound(x, a, x / b);
  }

  lemma DivNumeratorMonotone(x: nat, y: nat, d: nat)
    requires x <= y && d > 0
    ensures x / d <= y / d
  {
    DivLowerBound(y, d, x / d);
  }

  /** Halving the quotient is dividing by twice the divisor. */
  lemma DivHalf(x: nat, p: nat)
    requires p > 0
    ensures (x / p) / 2 == x / (2 * p)
  {
    var q, r := x / p, x % p;
    var h, b := q / 2, q % 2;
    assert x == p * (2 * h + b) + r;
    assert x == (2 * p) * h + (p * b + r);
    DivUnique(x, 2 * p, h, p * b + r);
  }

  /** Throughout epoch `e`, that is heights e * interval up to (e + 1) * interval - 1, the reward is base / 2^e. */
  lemma RewardWithinEpoch(s: Schedule, n: u64, e: nat)
    requires s.Halving? && e < 128
    requires e * s.interval <= n < e * s.interval + s.interval
    ensures ShiftFits(s, n) && BlockReward(s, n) == s.base / Pow2(e)
  {
    DivUnique(n, s.interval, e, n - e * s.interval);
  }

  /** The reward never grows with the height. */
  lemma RewardNonIncreasing(s: Schedule, n: u64, m: u64)
    requires n <= m && ShiftFits(s, m)
    ensures ShiftFits(s, n) && BlockReward(s, m) <= BlockReward(s, n)
  {
    if s.Halving? {
      DivNumeratorMonotone(n, m, s.interval);
      Pow2Monotone(n / s.interval, m / s.interval);
      DivDivisorMonotone(s.base, Pow2(n / s.interval), Pow2(m / s.interval));
    }
  }

  /** One epoch later the reward is halved, rounding down. */
  lemma RewardHalvesAtBoundary(s: Schedule, n: u64, m: u64)
    requires s.Halving? && m == n + s.interval
    requires ShiftFits(s, m)
    ensures ShiftFits(s, n) && BlockReward(s, m) == BlockReward(s, n) / 2
  {
    var e, r := n / s.interval, n % s.interval;
    assert m == s.interval * (e + 1) + r;
    DivUnique(m, s.interval, e + 1, r);
    DivHalf(s.base, Pow2(e));
  }

  lemma Pow2ThirtyTwo()
    ensures Pow2(32) == 4294967296 && Pow2(33) == 8589934592
  {
    assert Pow2(8) == 256;
    Pow2Add(8, 8);
    Pow2Add(16, 16);
  }

  /**
   * The regtest and mainnet reward is 1 throughout epoch 32 and 0 from epoch
   * 33 on: issuance by block reward ends there.
   */
  lemma BitcoinRewardEnds(n: u64)
    requires ShiftFits(BITCOIN_SCHEDULE, n)
    ensures n / 210000 == 32 ==> BlockReward(BITCOIN_SCHEDULE, n) == 1
    ensures n / 210000 >= 33 ==> BlockReward(BITCOIN_SCHEDULE, n) == 0
  {
    var e := n / 210000;
    Pow2ThirtyTwo();
    if e == 32 {
      DivUnique(5_000_000_000, Pow2(32), 1, 705032704);
    } else if e >= 33 {
      Pow2Monotone(33, e);
      DivUnique(5_000_000_000, Pow2(e), 0, 5_000_000_000);
    }
  }

  /* -------------------------------------------------------------- slots */

  const SEEN_KW: seq<byte> := Ascii("/seen/")

  /** The token's name and symbol, both "DIESEL". */
  const NAME: seq<byte> := Ascii("DIESEL")

  /** `seen_pointer(hash)`: "/seen/" ++ hash. */
  function SeenKey(hash: seq<byte>): seq<byte>
  {
    SEEN_KW + hash
  }

  /** No seen slot is the supply counter or the initialized flag, and those two differ. */
  lemma SlotsDistinct(hash: seq<byte>)
    ensures SeenKey(hash) != TOTAL_SUPPLY_KEY && SeenKey(hash) != INITIALIZED_KEY
    ensures TOTAL_SUPPLY_KEY != INITIALIZED_KEY
  {
    assert SeenKey(hash)[1] == 115;
    assert TOTAL_SUPPLY_KEY[1] == 116;
    assert INITIALIZED_KEY[1] == 105;
  }

  /** Distinct hashes have distinct seen slots. */
  lemma SeenKeyInjective(h1: seq<byte>, h2: seq<byte>)
    requires SeenKey(h1) == SeenKey(h2)
    ensures h1 == h2
  {
    assert h1 == SeenKey(h1)[6..];
    assert h2 == SeenKey(h2)[6..];
  }

  /** A mint or an initialization already happened for this block. */
  predicate Seen(s: Store, hash: seq<byte>)
  {
    |Get(s, SeenKey(hash))| != 0
  }

  /* --------------------------------------------------------- supply */

  /** Setting the supply reads back as `v` and leaves the seen slots and the initialized flag alone. */
  lemma SetTotalSupplyKeepsMarks(s: Store, v: u128)
    ensures TotalSupply(SetTotalSupply(s, v)) == v
    ensures Initialized(SetTotalSupply(s, v)) == Initialized(s)
    ensures forall h :: Seen(SetTotalSupply(s, v), h) == Seen(s, h)
  {
    SetTotalSupplyEffect(s, v);
    forall h ensures Seen(SetTotalSupply(s, v), h) == Seen(s, h) {
      SlotsDistinct(h);
    }
  }

  /** `increase_total_supply(v)`: checked add to the counter. */
  function IncreaseTotalSupply(s: Store, v: u128): Outcome<(), Store>
  {
    var sum := TotalSupply(s) + v;
    if sum >= U128_LIMIT then Outcome(Err(Overflow), s)
    else Outcome(Ok(()), SetTotalSupply(s, sum))
  }

  /** Raising the supply fails with Overflow, writing nothing, exactly when the sum leaves u128; otherwise the counter rises by `v`. */
  lemma IncreaseTotalSupplyEffect(s: Store, v: u128)
    ensures var o := IncreaseTotalSupply(s, v);
      && (o.result.Ok? <==> TotalSupply(s) + v < U128_LIMIT)
      && (o.result.Err? ==> o.result.error == Overflow && o.state == s)
      && (o.result.Ok? ==> TotalSupply(o.state) == TotalSupply(s) + v)
      && Initialized(o.state) == Initialized(s)
      && forall h :: Seen(o.state, h) == Seen(s, h)
  {
    if TotalSupply(s) + v < U128_LIMIT {
      SetTotalSupplyKeepsMarks(s, TotalSupply(s) + v);
    }
  }

  /* ------------------------------------------------------------- gates */

  /** `observe_mint(hash)`: the first call for a hash marks it seen; any later one fails. */
  function ObserveMint(s: Store, hash: seq<byte>): Outcome<(), Store>
  {
    if !Seen(s, hash) then Outcome(Ok(()), SetMarker(s, SeenKey(hash)))
    else Outcome(Err(AlreadyMinted), s)
  }

  /**
   * Observing a hash succeeds exactly when it was not seen before and then
   * marks it seen; it fails with AlreadyMinted writing nothing otherwise. It
   * marks no other hash and leaves the counter and the flag alone.
   */
  lemma ObserveMintEffect(s: Store, hash: seq<byte>)
    ensures var o := ObserveMint(s, hash);
      && (o.result.Ok? <==> !Seen(s, hash))
      && (o.result.Err? ==> o.result.error == AlreadyMinted && o.state == s)
      && Seen(o.state, hash)
      && (forall h :: h != hash ==> Seen(o.state, h) == Seen(s, h))
      && TotalSupply(o.state) == TotalSupply(s)
      && Initialized(o.state) == Initialized(s)
  {
    if !Seen(s, hash) {
      var s' := SetMarker(s, SeenKey(hash));
      SlotsDistinct(hash);
      assert Get(s', TOTAL_SUPPLY_KEY) == Get(s, TOTAL_SUPPLY_KEY);
      assert Get(s', INITIALIZED_KEY) == Get(s, INITIALIZED_KEY);
      forall h | h != hash ensures Seen(s', h) == Seen(s, h) {
        if SeenKey(h) == SeenKey(hash) {
          SeenKeyInjective(h, hash);
        }
      }
    }
  }

  /**
   * What the contract learns from the host for one call: the hash of the
   * current block (None when its bytes do not parse), the current block
   * reward and the premine (None when the configuration has none).
   */
  datatype Chain = Chain(blockHash: Option<seq<byte>>, reward: u128, premine: Option<u128>)

  /** `observe_mint(&self.block()?)`: the block must parse, then its hash passes the seen gate. */
  function ObserveBlock(s: Store, chain: Chain): Outcome<(), Store>
  {
    match chain.blockHash
    case None => Outcome(Err(MalformedBlock), s)
    case Some(hash) => ObserveMint(s, hash)
  }

  lemma ObserveBlockEffect(s: Store, chain: Chain)
    ensures var o := ObserveBlock(s, chain);
      && (o.result.Ok? <==> chain.blockHash.Some? && !Seen(s, chain.blockHash.value))
      && (o.result.Err? ==> o.state == s)
      && (o.result.Err? && chain.blockHash.None? ==> o.result.error == MalformedBlock)
      && (o.result.Err? && chain.blockHash.Some? ==> o.result.error == AlreadyMinted)
      && (chain.blockHash.Some? ==> Seen(o.state, chain.blockHash.value))
      && (forall h :: chain.blockHash != Some(h) ==> Seen(o.state, h) == Seen(s, h))
      && TotalSupply(o.state) == TotalSupply(s)
      && Initialized(o.state) == Initialized(s)
  {
    if chain.blockHash.Some? {
      ObserveMintEffect(s, chain.blockHash.value);
    }
  }

  /** `observe_initialization`: the block gate, then the first call sets the flag and any later one fails. */
  function ObserveInitialization(s: Store, chain: Chain): Outcome<(), Store>
  {
    var o := ObserveBlock(s, chain);
    if o.result.Err? then o
    else if !Initialized(o.state) then Outcome(Ok(()), SetMarker(o.state, INITIALIZED_KEY))
    else Outcome(Err(AlreadyInitialized), o.state)
  }

  /**
   * Initialization succeeds exactly for a parsed, unseen block on a store not
   * yet initialized; it then sets the flag and marks the block seen, and
   * leaves the counter alone. A second initialization fails.
   */
  lemma ObserveInitializationEffect(s: Store, chain: Chain)
    ensures var o := ObserveInitialization(s, chain);
      && (o.result.Ok? <==> chain.blockHash.Some? && !Seen(s, chain.blockHash.value) && !Initialized(s))
      && (o.result.Err? && chain.blockHash.Some? && !Seen(s, chain.blockHash.value) ==> o.result.error == AlreadyInitialized)
      && (o.result.Ok? ==> Initialized(o.state) && Seen(o.state, chain.blockHash.value))
      && (Initialized(s) ==> Initialized(o.state))
      && (forall h :: Seen(s, h) ==> Seen(o.state, h))
      && (forall h :: chain.blockHash != Some(h) ==> Seen(o.state, h) == Seen(s, h))
      && TotalSupply(o.state) == TotalSupply(s)
  {
    var o := ObserveBlock(s, chain);
    ObserveBlockEffect(s, chain);
    if o.result.Ok? && !Initialized(o.state) {
      var s' := SetMarker(o.state, INITIALIZED_KEY);
      SlotsDistinct([]);
      assert Get(s', TOTAL_SUPPLY_KEY) == Get(o.state, TOTAL_SUPPLY_KEY);
      forall h ensures Seen(s', h) == Seen(o.state, h) {
        SlotsDistinct(h);
      }
    }
  }

  /* -------------------------------------------------------------- mint */

  /** The unchecked `+` of a mint past the ceiling check does not overflow. */
  predicate MintFits(s: Store, ceiling: u128, reward: u128)
  {
    TotalSupply(s) < ceiling ==> TotalSupply(s) + reward < U128_LIMIT
  }

  /**
   * `mint` with the supply ceiling as a parameter: the block gate, then a
   * stored supply at or above the ceiling fails; otherwise the supply rises
   * by the block reward and the reward goes to the contract itself.
   */
  function Mint(s: Store, chain: Chain, ceiling: u128, myself: AlkaneId): Outcome<Transfer, Store>
    requires MintFits(s, ceiling, chain.reward)
  {
    var o := ObserveBlock(s, chain);
    if o.result.Err? then Outcome(Err(o.result.error), o.state)
    else
      ObserveBlockEffect(s, chain);
      var supply := TotalSupply(o.state);
      if supply >= ceiling then Outcome(Err(SupplyReached), o.state)
      else Outcome(Ok(Transfer(myself, chain.reward)), SetTotalSupply(o.state, supply + chain.reward))
  }

  /**
   * `mint` as the source resolves it: the guard's right-hand side,
   * `self.total_supply()`, is the inherent method reading the same counter,
   * not the configured ceiling.
   */
  function MintAsWritten(s: Store, chain: Chain, myself: AlkaneId): Outcome<Transfer, Store>
  {
    Mint(s, chain, TotalSupply(s), myself)
  }

  /** As resolved, `mint` never succeeds: past the block gate it always fails with SupplyReached. */
  lemma MintAsWrittenNeverMints(s: Store, chain: Chain, myself: AlkaneId)
    ensures MintAsWritten(s, chain, myself).result.Err?
    ensures chain.blockHash.Some? && !Seen(s, chain.blockHash.value)
        ==> MintAsWritten(s, chain, myself).result.error == SupplyReached
  {
    ObserveBlockEffect(s, chain);
  }

  /**
   * A mint succeeds exactly for a parsed, unseen block while the stored
   * supply is below the ceiling; a failure past the block gate is
   * SupplyReached.
   */
  lemma MintSucceedsIff(s: Store, chain: Chain, ceiling: u128, myself: AlkaneId)
    requires MintFits(s, ceiling, chain.reward)
    ensures var o := Mint(s, chain, ceiling, myself);
      && (o.result.Ok? <==> chain.blockHash.Some? && !Seen(s, chain.blockHash.value) && TotalSupply(s) < ceiling)
      && (o.result.Err? && chain.blockHash.Some? && !Seen(s, chain.blockHash.value) ==> o.result.error == SupplyReached)
  {
    ObserveBlockEffect(s, chain);
  }

  /**
   * A successful mint marks its block seen, raises the supply by exactly the
   * reward, possibly past the ceiling by less than one reward, and pays the
   * reward to the contract; a failed one leaves the supply as it was. No
   * mint clears a seen block or the flag.
   */
  lemma MintEffect(s: Store, chain: Chain, ceiling: u128, myself: AlkaneId)
    requires MintFits(s, ceiling, chain.reward)
    ensures var o := Mint(s, chain, ceiling, myself);
      && (o.result.Ok? ==> o.result.value == Transfer(myself, chain.reward))
      && (o.result.Ok? ==> TotalSupply(o.state) == TotalSupply(s) + chain.reward < ceiling + chain.reward)
      && (o.result.Ok? ==> Seen(o.state, chain.blockHash.value))
      && (o.result.Err? ==> TotalSupply(o.state) == TotalSupply(s))
      && Initialized(o.state) == Initialized(s)
      && (forall h :: Seen(s, h) ==> Seen(o.state, h))
  {
    var o := ObserveBlock(s, chain);
    ObserveBlockEffect(s, chain);
    if o.result.Ok? && TotalSupply(o.state) < ceiling {
      SetTotalSupplyKeepsMarks(o.state, TotalSupply(o.state) + chain.reward);
    }
  }

  /* ----------------------------------------------------------- execute */

  /** A call whose opcode is 77 meets `MintFits`. */
  predicate ExecuteFits(s: Store, chain: Chain, ceiling: u128, ctx: Context)
  {
    ctx.inputs != [] && ctx.inputs[0] == 77 ==> MintFits(s, ceiling, chain.reward)
  }

  /** `execute`: dispatch on the first input, answering with the incoming transfers plus what the opcode adds. */
  function Execute(s: Store, chain: Chain, ceiling: u128, ctx: Context): Outcome<Response, Store>
    requires ExecuteFits(s, chain, ceiling, ctx)
  {
    var response := Forward(ctx.incoming);
    if ctx.inputs == [] then Outcome(Err(MissingOpcode), s)
    else
      var opcode := ctx.inputs[0];
      if opcode == 0 then
        var o := ObserveInitialization(s, chain);
        if o.result.Err? then Outcome(Err(o.result.error), o.state)
        else if chain.premine.None? then Outcome(Err(PremineUnavailable), o.state)
        else
          var premine := chain.premine.value;
          var o' := IncreaseTotalSupply(o.state, premine);
          if o'.result.Err? then Outcome(Err(o'.result.error), o'.state)
          else Outcome(Ok(response.(alkanes := response.alkanes + [Transfer(ctx.myself, premine)])), o'.state)
      else if opcode == 77 then
        var m := Mint(s, chain, ceiling, ctx.myself);
        if m.result.Err? then Outcome(Err(m.result.error), m.state)
        else Outcome(Ok(response.(alkanes := response.alkanes + [m.result.value])), m.state)
      else if opcode == 99 || opcode == 100 then Outcome(Ok(response.(data := NAME)), s)
      else if opcode == 101 then Outcome(Ok(response.(data := U128Bytes(TotalSupply(s)))), s)
      else Outcome(Err(UnknownOpcode), s)
  }

  /** Opcodes 99, 100 and 101 write nothing and answer the name, the symbol, or the supply's 16 little-endian bytes. */
  lemma ExecuteQueries(s: Store, chain: Chain, ceiling: u128, ctx: Context)
    requires ctx.inputs != [] && ctx.inputs[0] in {99, 100, 101}
    ensures var o := Execute(s, chain, ceiling, ctx);
      && o.result.Ok? && o.state == s
      && o.result.value.alkanes == ctx.incoming
      && (ctx.inputs[0] != 101 ==> o.result.value.data == NAME)
      && (ctx.inputs[0] == 101 ==> |o.result.value.data| == 16 && LeValue(o.result.value.data) == TotalSupply(s))
  {
  }

  /** A call without inputs, or with an opcode outside 0, 77, 99, 100 and 101, fails and writes nothing. */
  lemma ExecuteRejects(s: Store, chain: Chain, ceiling: u128, ctx: Context)
    requires ctx.inputs == [] || ctx.inputs[0] !in {0, 77, 99, 100, 101}
    ensures var o := Execute(s, chain, ceiling, ctx);
      && o.state == s
      && o.result == Err(if ctx.inputs == [] then MissingOpcode else UnknownOpcode)
  {
  }

  /**
   * Opcode 0 succeeds exactly when initialization succeeds, a premine is
   * configured and it fits on top of the supply; it then pays the premine to
   * the contract, once, and raises the supply by it. The premine is not held
   * against the ceiling.
   */
  lemma ExecuteInitializes(s: Store, chain: Chain, ceiling: u128, ctx: Context)
    requires ctx.inputs != [] && ctx.inputs[0] == 0
    ensures var o := Execute(s, chain, ceiling, ctx);
      && (o.result.Ok? <==>
            && chain.blockHash.Some? && !Seen(s, chain.blockHash.value) && !Initialized(s)
            && chain.premine.Some? && TotalSupply(s) + chain.premine.value < U128_LIMIT)
      && (o.result.Ok? ==>
            && o.result.value.alkanes == ctx.incoming + [Transfer(ctx.myself, chain.premine.value)]
            && o.result.value.data == []
            && TotalSupply(o.state) == TotalSupply(s) + chain.premine.value
            && Initialized(o.state) && Seen(o.state, chain.blockHash.value))
  {
    var o := ObserveInitialization(s, chain);
    ObserveInitializationEffect(s, chain);
    if o.result.Ok? && chain.premine.Some? {
      IncreaseTotalSupplyEffect(o.state, chain.premine.value);
    }
  }

  /**
   * Opcode 77 succeeds exactly when the mint does; it then pays the block
   * reward to the contract and raises the supply by it.
   */
  lemma ExecuteMints(s: Store, chain: Chain, ceiling: u128, ctx: Context)
    requires ctx.inputs != [] && ctx.inputs[0] == 77
    requires MintFits(s, ceiling, chain.reward)
    ensures var o := Execute(s, chain, ceiling, ctx);
      && (o.result.Ok? <==> chain.blockHash.Some? && !Seen(s, chain.blockHash.value) && TotalSupply(s) < ceiling)
      && (o.result.Ok? ==>
            && o.result.value.alkanes == ctx.incoming + [Transfer(ctx.myself, chain.reward)]
            && TotalSupply(o.state) == TotalSupply(s) + chain.reward
            && Seen(o.state, chain.blockHash.value))
  {
    MintSucceedsIff(s, chain, ceiling, ctx.myself);
    MintEffect(s, chain, ceiling, ctx.myself);
  }

  /* ---------------------------------------------------- host and traces */

  /** The host runs `execute` and keeps its writes only when it succeeds. */
  function Call(s: Store, chain: Chain, ceiling: u128, ctx: Context): (o: Outcome<Response, Store>)
    requires ExecuteFits(s, chain, ceiling, ctx)
    ensures o.result == Execute(s, chain, ceiling, ctx).result
    ensures o.result.Err? ==> o.state == s
  {
    var o := Execute(s, chain, ceiling, ctx);
    if o.result.Ok? then o else Outcome(o.result, s)
  }

  /** One call of the contract by the host. */
  datatype Invocation = Invocation(chain: Chain, context: Context)

  /** Opcode 0 or 77: the calls that pass the block gate. */
  predicate Mints(inv: Invocation)
  {
    inv.context.inputs != [] && (inv.context.inputs[0] == 0 || inv.context.inputs[0] == 77)
  }

  /** `after` keeps every block `before` had seen, its flag and at least its supply. */
  ghost predicate Grows(before: Store, after: Store)
  {
    && (forall h :: Seen(before, h) ==> Seen(after, h))
    && (Initialized(before) ==> Initialized(after))
    && TotalSupply(before) <= TotalSupply(after)
  }

  /** Call `k`, made on `states[k]`, answers `results[k]` and leaves `states[k + 1]`. */
  ghost predicate Stepped(ceiling: u128, calls: seq<Invocation>, results: seq<Result<Response>>, states: seq<Store>, k: nat)
    requires k < |calls| == |results| && |states| == |calls| + 1
  {
    && ExecuteFits(states[k], calls[k].chain, ceiling, calls[k].context)
    && var o := Call(states[k], calls[k].chain, ceiling, calls[k].context);
       results[k] == o.result && states[k + 1] == o.state
  }

  /** A sequence of host calls, from `states[0]` on: the answers it gets and the stores it passes through. */
  ghost predicate IsRun(ceiling: u128, calls: seq<Invocation>, results: seq<Result<Response>>, states: seq<Store>)
  {
    && |results| == |calls|
    && |states| == |calls| + 1
    && forall k: nat | k < |calls| :: Stepped(ceiling, calls, results, states, k)
  }

  /** No call unmarks a seen block, clears the flag or lowers the supply. */
  lemma CallKeepsMarks(s: Store, chain: Chain, ceiling: u128, ctx: Context)
    requires ExecuteFits(s, chain, ceiling, ctx)
    ensures var s' := Call(s, chain, ceiling, ctx).state;
      && (forall h :: Seen(s, h) ==> Seen(s', h))
      && (Initialized(s) ==> Initialized(s'))
      && TotalSupply(s) <= TotalSupply(s')
  {
    var o := Execute(s, chain, ceiling, ctx);
    if o.result.Ok? && ctx.inputs != [] {
      if ctx.inputs[0] == 0 {
        var o1 := ObserveInitialization(s, chain);
        ObserveInitializationEffect(s, chain);
        IncreaseTotalSupplyEffect(o1.state, chain.premine.value);
      } else if ctx.inputs[0] == 77 {
        MintEffect(s, chain, ceiling, ctx.myself);
      }
    }
  }

  /** A successful minting call was made for a parsed block unseen before it, and leaves that block seen. */
  lemma CallMarksItsBlock(s: Store, inv: Invocation, ceiling: u128)
    requires ExecuteFits(s, inv.chain, ceiling, inv.context) && Mints(inv)
    requires Call(s, inv.chain, ceiling, inv.context).result.Ok?
    ensures inv.chain.blockHash.Some?
    ensures !Seen(s, inv.chain.blockHash.value)
    ensures Seen(Call(s, inv.chain, ceiling, inv.context).state, inv.chain.blockHash.value)
  {
    if inv.context.inputs[0] == 0 {
      ExecuteInitializes(s, inv.chain, ceiling, inv.context);
    } else {
      ExecuteMints(s, inv.chain, ceiling, inv.context);
    }
  }

  /** No step of a run unmarks a seen block, clears the flag or lowers the supply. */
  lemma StepGrows(ceiling: u128, calls: seq<Invocation>, results: seq<Result<Response>>, states: seq<Store>, k: nat)
    requires IsRun(ceiling, calls, results, states) && k < |calls|
    ensures Grows(states[k], states[k + 1])
  {
    assert Stepped(ceiling, calls, results, states, k);
    CallKeepsMarks(states[k], calls[k].chain, ceiling, calls[k].context);
  }

  lemma GrowsTransitive(a: Store, b: Store, c: Store)
    requires Grows(a, b) && Grows(b, c)
    ensures Grows(a, c)
  {
  }

  /** Along stores each of which grows into the next, any earlier store grows into any later one. */
  lemma {:induction false} GrowsAlong(states: seq<Store>, i: nat, j: nat)
    requires forall k: nat :: k + 1 < |states| ==> Grows(states[k], states[k + 1])
    requires i <= j < |states|
    ensures Grows(states[i], states[j])
    decreases j - i
  {
    if i < j {
      GrowsAlong(states, i, j - 1);
      GrowsTransitive(states[i], states[j - 1], states[j]);
    }
  }

  /** Seen blocks, the flag and the supply only ever grow along a run. */
  lemma RunGrows(ceiling: u128, calls: seq<Invocation>, results: seq<Result<Response>>, states: seq<Store>, i: nat, j: nat)
    requires IsRun(ceiling, calls, results, states) && i <= j <= |calls|
    ensures Grows(states[i], states[j])
  {
    forall k: nat | k + 1 < |states| ensures Grows(states[k], states[k + 1]) {
      StepGrows(ceiling, calls, results, states, k);
    }
    GrowsAlong(states, i, j);
  }

  /** A successful minting step of a run is for a parsed block unseen before it, and leaves it seen. */
  lemma StepMarksItsBlock(ceiling: u128, calls: seq<Invocation>, results: seq<Result<Response>>, states: seq<Store>, k: nat)
    requires IsRun(ceiling, calls, results, states) && k < |calls|
    requires Mints(calls[k]) && results[k].Ok?
    ensures calls[k].chain.blockHash.Some?
    ensures !Seen(states[k], calls[k].chain.blockHash.value)
    ensures Seen(states[k + 1], calls[k].chain.blockHash.value)
  {
    assert Stepped(ceiling, calls, results, states, k);
    CallMarksItsBlock(states[k], calls[k], ceiling);
  }

  /** An initializing step of a run succeeds only on an uninitialized store, and leaves it initialized. */
  lemma StepInitializes(ceiling: u128, calls: seq<Invocation>, results: seq<Result<Response>>, states: seq<Store>, k: nat)
    requires IsRun(ceiling, calls, results, states) && k < |calls|
    requires calls[k].context.inputs != [] && calls[k].context.inputs[0] == 0
    ensures results[k].Ok? ==> !Initialized(states[k]) && Initialized(states[k + 1])
  {
    assert Stepped(ceiling, calls, results, states, k);
    ExecuteInitializes(states[k], calls[k].chain, ceiling, calls[k].context);
  }

  /** No block is minted twice: two successful minting calls of a run are for different blocks. */
  lemma NoDoubleMint(ceiling: u128, calls: seq<Invocation>, results: seq<Result<Response>>, states: seq<Store>, i: nat, j: nat)
    requires IsRun(ceiling, calls, results, states) && i < j < |calls|
    requires Mints(calls[i]) && Mints(calls[j])
    requires results[i].Ok? && results[j].Ok?
    ensures calls[i].chain.blockHash != calls[j].chain.blockHash
  {
    StepMarksItsBlock(ceiling, calls, results, states, i);
    RunGrows(ceiling, calls, results, states, i + 1, j);
    StepMarksItsBlock(ceiling, calls, results, states, j);
  }

  /** At most one call of a run initializes the contract. */
  lemma InitializeOnce(ceiling: u128, calls: seq<Invocation>, results: seq<Result<Response>>, states: seq<Store>, i: nat, j: nat)
    requires IsRun(ceiling, calls, results, states) && i < j < |calls|
    requires calls[i].context.inputs != [] && calls[i].context.inputs[0] == 0
    requires calls[j].context.inputs != [] && calls[j].context.inputs[0] == 0
    requires results[i].Ok?
    ensures results[j].Err?
  {
    StepInitializes(ceiling, calls, results, states, i);
    RunGrows(ceiling, calls, results, states, i + 1, j);
    StepInitializes(ceiling, calls, results, states, j);
  }

  /** Once the supply has reached the ceiling, every later mint of the run fails. */
  lemma CeilingStopsMinting(ceiling: u128, calls: seq<Invocation>, results: seq<Result<Response>>, states: seq<Store>, i: nat, j: nat)
    requires IsRun(ceiling, calls, results, states) && i <= j < |calls|
    requires TotalSupply(states[i]) >= ceiling
    requires calls[j].context.inputs != [] && calls[j].context.inputs[0] == 77
    ensures results[j].Err?
  {
    RunGrows(ceiling, calls, results, states, i, j);
    assert Stepped(ceiling, calls, results, states, j);
    ExecuteMints(states[j], calls[j].chain, ceiling, calls[j].context);
  }
}

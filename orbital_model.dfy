/**
 * The orbital NFT contract of crates/alkanes-std-orbital/src/lib.rs as
 * functions on its storage: an initialize-once gate that sets the supply to
 * exactly one, constant metadata and a fixed image; then the host's rollback
 * of a failed call and what holds over any sequence of calls.
 */
module OrbitalModel {
  import opened Encoding
  import opened Support
  import opened Storage
  import opened TokenStorage

  /* ------------------------------------------------------------ slots */

  /** The token's name and symbol. */
  const NAME: seq<byte> := Ascii("NFT")

  /** The eight bytes every PNG file starts with. */
  const PNG_SIGNATURE: seq<byte> := [137, 80, 78, 71, 13, 10, 26, 10]

  /** A PNG chunk: the body's length as four big-endian bytes, the four-letter kind, the body and its checksum. */
  function Chunk(kind: seq<byte>, body: seq<byte>, crc: seq<byte>): (r: seq<byte>)
    requires |kind| == 4 && |body| < 256 && |crc| == 4
    ensures |r| == 12 + |body|
    ensures r[..4] == [0, 0, 0, |body| as byte] && r[4..8] == kind && r[8..8 + |body|] == body
  {
    [0, 0, 0, |body| as byte] + kind + body + crc
  }

  /** The header chunk: 1 pixel wide, 1 pixel high, 1 bit per pixel, palette colour. */
  function Header(): (r: seq<byte>)
    ensures |r| == 25 && r[4..8] == Ascii("IHDR") && r[8..16] == [0, 0, 0, 1, 0, 0, 0, 1]
  {
    Chunk(Ascii("IHDR"), [0, 0, 0, 1, 0, 0, 0, 1, 1, 3, 0, 0, 0], [37, 219, 86, 202])
  }

  /** The image's remaining chunks: a one-colour palette, its transparency, the pixel data and the end marker. */
  function Body(): (r: seq<byte>)
    ensures |r| == 62 && r[|r| - 8..|r| - 4] == Ascii("IEND")
  {
    Chunk(Ascii("PLTE"), [0, 0, 0], [167, 122, 61, 218])
    + Chunk(Ascii("tRNS"), [0], [64, 230, 216, 102])
    + Chunk(Ascii("IDAT"), [8, 215, 99, 96, 0, 0, 0, 2, 0, 1], [226, 33, 188, 51])
    + Chunk(Ascii("IEND"), [], [174, 66, 96, 130])
  }

  /** `data`: a one-pixel-by-one-pixel PNG image of 95 bytes. */
  function Data(): (r: seq<byte>)
    ensures |r| == 95
    ensures r[..8] == PNG_SIGNATURE
    ensures r[12..16] == Ascii("IHDR") && r[16..24] == [0, 0, 0, 1, 0, 0, 0, 1]
    ensures r[|r| - 8..|r| - 4] == Ascii("IEND")
  {
    var h := Header();
    var b := Body();
    assert (PNG_SIGNATURE + h)[..8] == PNG_SIGNATURE;
    PNG_SIGNATURE + h + b
  }

  /** `observe_initialization`: the first call sets the flag; any later one fails. */
  function ObserveInitialization(s: Store): Outcome<(), Store>
  {
    if !Initialized(s) then Outcome(Ok(()), SetMarker(s, INITIALIZED_KEY))
    else Outcome(Err(AlreadyInitialized), s)
  }

  /**
   * Initialization succeeds exactly on a store whose flag is unset, and then
   * sets it; otherwise it fails with AlreadyInitialized and writes nothing.
   * It never touches the supply.
   */
  lemma ObserveInitializationEffect(s: Store)
    ensures var o := ObserveInitialization(s);
      && (o.result.Ok? <==> !Initialized(s))
      && (o.result.Err? ==> o.result.error == AlreadyInitialized && o.state == s)
      && Initialized(o.state)
      && TotalSupply(o.state) == TotalSupply(s)
  {
    if !Initialized(s) {
      SetFlagKeepsSupply(s);
    }
  }

  /* ----------------------------------------------------------- execute */

  /** `execute`: dispatch on the first input, answering with the incoming transfers plus what the opcode adds. */
  function Execute(s: Store, ctx: Context): Outcome<Response, Store>
  {
    var response := Forward(ctx.incoming);
    if ctx.inputs == [] then Outcome(Err(MissingOpcode), s)
    else
      var opcode := ctx.inputs[0];
      if opcode == 0 then Initialize(s, ctx)
      else if opcode == 99 || opcode == 100 then Outcome(Ok(response.(data := NAME)), s)
      else if opcode == 101 then Outcome(Ok(response.(data := U128Bytes(TotalSupply(s)))), s)
      else if opcode == 1000 then Outcome(Ok(response.(data := Data())), s)
      else Outcome(Err(UnknownOpcode), s)
  }

  /** Opcode 0: initialize, set the supply to 1 and send one unit of the contract itself. */
  function Initialize(s: Store, ctx: Context): Outcome<Response, Store>
  {
    var response := Forward(ctx.incoming);
    var o := ObserveInitialization(s);
    if o.result.Err? then Outcome(Err(o.result.error), o.state)
    else Outcome(Ok(response.(alkanes := response.alkanes + [Transfer(ctx.myself, 1)])), SetTotalSupply(o.state, 1))
  }

  /**
   * Opcode 0 succeeds exactly on an uninitialized store. It then sets the
   * flag, overwrites the supply with exactly 1 whatever it held, and adds
   * exactly one transfer of one unit of the contract itself. Otherwise it
   * fails with AlreadyInitialized and writes nothing.
   */
  lemma ExecuteInitializes(s: Store, ctx: Context)
    requires ctx.inputs != [] && ctx.inputs[0] == 0
    ensures var o := Execute(s, ctx);
      && (o.result.Ok? <==> !Initialized(s))
      && (o.result.Ok? ==>
            && o.result.value.alkanes == ctx.incoming + [Transfer(ctx.myself, 1)]
            && o.result.value.data == []
            && Initialized(o.state) && TotalSupply(o.state) == 1)
      && (o.result.Err? ==> o.result.error == AlreadyInitialized && o.state == s)
  {
    assert Execute(s, ctx) == Initialize(s, ctx);
    var o := ObserveInitialization(s);
    ObserveInitializationEffect(s);
    if o.result.Ok? {
      SetTotalSupplyEffect(o.state, 1);
    }
  }

  /** Opcodes 99, 100 and 1000 write nothing and answer the name, the symbol or the image. */
  lemma ExecuteMetadata(s: Store, ctx: Context)
    requires ctx.inputs != [] && ctx.inputs[0] in {99, 100, 1000}
    ensures var o := Execute(s, ctx);
      && o.result.Ok? && o.state == s
      && o.result.value.alkanes == ctx.incoming
      && o.result.value.data == (if ctx.inputs[0] == 1000 then Data() else NAME)
  {
  }

  /** Opcode 101 writes nothing and answers the supply's 16 little-endian bytes. */
  lemma ExecuteSupply(s: Store, ctx: Context)
    requires ctx.inputs != [] && ctx.inputs[0] == 101
    ensures var o := Execute(s, ctx);
      && o.result.Ok? && o.state == s
      && o.result.value.alkanes == ctx.incoming
      && |o.result.value.data| == 16 && LeValue(o.result.value.data) == TotalSupply(s)
  {
  }

  /** A call without inputs, or with an opcode outside 0, 99, 100, 101 and 1000, fails and writes nothing. */
  lemma ExecuteRejects(s: Store, ctx: Context)
    requires ctx.inputs == [] || ctx.inputs[0] !in {0, 99, 100, 101, 1000}
    ensures var o := Execute(s, ctx);
      && o.state == s
      && o.result == Err(if ctx.inputs == [] then MissingOpcode else UnknownOpcode)
  {
  }

  /* ---------------------------------------------------- host and traces */

  /** The host runs `execute` and keeps its writes only when it succeeds. */
  function Call(s: Store, ctx: Context): (o: Outcome<Response, Store>)
    ensures o.result == Execute(s, ctx).result
    ensures o.result.Err? ==> o.state == s
  {
    var o := Execute(s, ctx);
    if o.result.Ok? then o else Outcome(o.result, s)
  }

  /** The supply is 1 once the flag is set and 0 before. */
  predicate Consistent(s: Store)
  {
    TotalSupply(s) == if Initialized(s) then 1 else 0
  }

  /** A fresh contract's empty storage is consistent. */
  lemma EmptyConsistent()
    ensures Consistent(map[])
    ensures !Initialized(map[])
  {
    assert Get(map[], TOTAL_SUPPLY_KEY) == [];
    assert LeValue([]) == 0;
  }

  /** Every call keeps the supply in step with the flag. */
  lemma CallKeepsConsistent(s: Store, ctx: Context)
    requires Consistent(s)
    ensures Consistent(Call(s, ctx).state)
  {
    if ctx.inputs != [] && ctx.inputs[0] == 0 {
      ExecuteInitializes(s, ctx);
    }
  }

  /** No call clears the flag. */
  lemma CallKeepsFlag(s: Store, ctx: Context)
    requires Initialized(s)
    ensures Initialized(Call(s, ctx).state)
  {
    if ctx.inputs != [] && ctx.inputs[0] == 0 {
      ExecuteInitializes(s, ctx);
    }
  }

  /** Call `k`, made on `states[k]`, answers `results[k]` and leaves `states[k + 1]`. */
  ghost predicate Stepped(calls: seq<Context>, results: seq<Result<Response>>, states: seq<Store>, k: nat)
    requires k < |calls| == |results| && |states| == |calls| + 1
  {
    var o := Call(states[k], calls[k]);
    results[k] == o.result && states[k + 1] == o.state
  }

  /** A sequence of host calls, from `states[0]` on: the answers it gets and the stores it passes through. */
  ghost predicate IsRun(calls: seq<Context>, results: seq<Result<Response>>, states: seq<Store>)
  {
    && |results| == |calls|
    && |states| == |calls| + 1
    && forall k: nat | k < |calls| :: Stepped(calls, results, states, k)
  }

  /** A step of a run that starts consistent ends consistent. */
  lemma StepKeepsConsistent(calls: seq<Context>, results: seq<Result<Response>>, states: seq<Store>, k: nat)
    requires IsRun(calls, results, states) && k < |calls|
    requires Consistent(states[k])
    ensures Consistent(states[k + 1])
  {
    assert Stepped(calls, results, states, k);
    CallKeepsConsistent(states[k], calls[k]);
  }

  /** A step of a run never clears the flag. */
  lemma StepKeepsFlag(calls: seq<Context>, results: seq<Result<Response>>, states: seq<Store>, k: nat)
    requires IsRun(calls, results, states) && k < |calls|
    requires Initialized(states[k])
    ensures Initialized(states[k + 1])
  {
    assert Stepped(calls, results, states, k);
    CallKeepsFlag(states[k], calls[k]);
  }

  /** A run from a consistent store stays consistent. */
  lemma {:induction false} RunConsistent(calls: seq<Context>, results: seq<Result<Response>>, states: seq<Store>, j: nat)
    requires IsRun(calls, results, states) && j <= |calls|
    requires Consistent(states[0])
    ensures Consistent(states[j])
  {
    if j > 0 {
      RunConsistent(calls, results, states, j - 1);
      StepKeepsConsistent(calls, results, states, j - 1);
    }
  }

  /** Once set, the flag stays set for the rest of a run. */
  lemma {:induction false} RunKeepsFlag(calls: seq<Context>, results: seq<Result<Response>>, states: seq<Store>, i: nat, j: nat)
    requires IsRun(calls, results, states) && i <= j <= |calls|
    requires Initialized(states[i])
    ensures Initialized(states[j])
    decreases j - i
  {
    if i < j {
      RunKeepsFlag(calls, results, states, i, j - 1);
      StepKeepsFlag(calls, results, states, j - 1);
    }
  }

  /** An initializing step of a run succeeds only on an uninitialized store. */
  lemma StepInitializes(calls: seq<Context>, results: seq<Result<Response>>, states: seq<Store>, k: nat)
    requires IsRun(calls, results, states) && k < |calls|
    requires calls[k].inputs != [] && calls[k].inputs[0] == 0
    ensures results[k].Ok? <==> !Initialized(states[k])
    ensures results[k].Ok? ==> Initialized(states[k + 1])
  {
    assert Stepped(calls, results, states, k);
    ExecuteInitializes(states[k], calls[k]);
  }

  /** At most one opcode-0 call of a run succeeds. */
  lemma InitializeOnce(calls: seq<Context>, results: seq<Result<Response>>, states: seq<Store>, i: nat, j: nat)
    requires IsRun(calls, results, states) && i < j < |calls|
    requires calls[i].inputs != [] && calls[i].inputs[0] == 0
    requires calls[j].inputs != [] && calls[j].inputs[0] == 0
    requires results[i].Ok?
    ensures results[j].Err?
  {
    StepInitializes(calls, results, states, i);
    RunKeepsFlag(calls, results, states, i + 1, j);
    StepInitializes(calls, results, states, j);
  }

  /** An opcode-101 step of a run answers the supply of the store it runs on. */
  lemma StepSupply(calls: seq<Context>, results: seq<Result<Response>>, states: seq<Store>, k: nat)
    requires IsRun(calls, results, states) && k < |calls|
    requires calls[k].inputs != [] && calls[k].inputs[0] == 101
    ensures results[k] == Ok(Response(calls[k].incoming, U128Bytes(TotalSupply(states[k]))))
  {
    assert Stepped(calls, results, states, k);
  }

  /**
   * On a fresh contract, opcode 101 answers the 16 little-endian bytes of 0
   * before the contract is initialized and of 1 after.
   */
  lemma SupplyAnswer(calls: seq<Context>, results: seq<Result<Response>>, states: seq<Store>, k: nat)
    requires IsRun(calls, results, states) && states[0] == map[] && k < |calls|
    requires calls[k].inputs != [] && calls[k].inputs[0] == 101
    ensures results[k] == Ok(Response(calls[k].incoming, U128Bytes(if Initialized(states[k]) then 1 else 0)))
  {
    EmptyConsistent();
    RunConsistent(calls, results, states, k);
    StepSupply(calls, results, states, k);
  }
}

/** The block loop: decoding checks, signature, nonce, gas, execution and the end of the block. */
module Lifecycle {
  import opened ByteStrings
  import opened Codec
  import opened Keys
  import opened Engine
  import opened Records
  import opened Nonce
  import opened CapGraph
  import opened CapOrigins
  import opened CapSweep
  import opened CapHandlers
  import opened CapInvariant
  import opened CapSteps
  import opened DagValidate
  import opened Weave
  import opened WeaveRuns
  import opened Aap
  import opened Fiat
  import opened FiatRuns
  import opened Locality
  import opened Router

  /** What the module, action and payload of an envelope ask for. Modules without a model of their own
      here appear as OtherCall. */
  datatype TxCall =
    | CapCall(cap: CapOp) | WeaveCall(weave: WeaveOp) | FiatCall(fiat: FiatOp)
    | OtherCall(other: ModuleName, payload: Bytes) | UnknownAction(of: ModuleName) | UnknownModule

  datatype Envelope = Envelope(
    sender: Bytes, nonce: u64, gasLimit: u64, named: bool, call: TxCall, payloadLen: nat,
    signature: Bytes, memoLen: nat, timeoutHeight: int)

  /** A transaction as it arrives: decoded, or not decodable. */
  type RawTx = Option<Envelope>

  datatype Block = Block(height: int, now: int, stamp: Bytes, txs: seq<RawTx>)

  /** The parts of the machine that are parameters: hash, signature check, unmodelled handlers. */
  datatype Host = Host(
    digest: Bytes -> Id, verify: Envelope -> bool, foreign: (State, Envelope) -> (State, Outcome))

  const CODE_DECODE: nat := 1
  const CODE_SIGNATURE: nat := 2
  const CODE_MODULE: nat := 3
  const CODE_NONCE: nat := 4
  const CODE_GAS: nat := 5

  function ModuleOf(c: TxCall): Option<ModuleName> {
    match c
    case CapCall(_) => Some(CapMod)
    case WeaveCall(_) => Some(WeaveMod)
    case FiatCall(_) => Some(FiatMod)
    case OtherCall(m, _) => Some(m)
    case UnknownAction(m) => Some(m)
    case UnknownModule => None
  }

  predicate ValidateBasic(e: Envelope) {
    |e.sender| == 32 && e.gasLimit > 0 && e.named && e.call != UnknownModule && |e.signature| == 64 && e.memoLen <= 256
  }

  function CtxOf(host: Host, b: Block): Ctx { Ctx(b.now, b.stamp, host.digest) }

  predicate Modelled(o: Owner) { o == Owner.Cap || o == Owner.Weave || o == Owner.Fiat || o == Owner.Acc }

  /** A handler outside the model leaves the modelled parts of the tree and the nonces alone, and files
      tasks under their ids. */
  ghost predicate ForeignOk(host: Host) {
    forall data, e :: ForeignStep(data, host.foreign(data, e).0)
  }

  ghost predicate ForeignStep(data: State, d: State) {
    && (forall o :: Modelled(o) ==> SameOwned(data, d, o))
    && (TasksKeyed(data) ==> TasksKeyed(d))
  }

  ghost function ExecuteSpec(host: Host, ctx: Ctx, mods: set<ModuleName>, data: State, e: Envelope): (State, Outcome) {
    if ModuleOf(e.call).None? || ModuleOf(e.call).value !in mods then (data, Fail(CODE_MODULE))
    else match e.call
      case CapCall(op) => CapSpec(data, ctx, e.sender, e.nonce, op)
      case WeaveCall(op) => WeaveSpec(data, ctx, e.sender, op)
      case FiatCall(op) => FiatSpec(data, ctx, e.sender, op)
      case OtherCall(m, _) => if m in {CapMod, WeaveMod, FiatMod} then (data, Fail(CODE_MODULE)) else host.foreign(data, e)
      case UnknownAction(_) => (data, Fail(CODE_MODULE))
  }

  /** Well formed, signed, at the stored nonce, in time and able to pay for its size. */
  predicate Admissible(host: Host, b: Block, e: Envelope, stored: nat) {
    && host.verify(e) && |e.sender| == 32 && |e.signature| == 64 && e.named && e.memoLen <= 256 && e.gasLimit > 0
    && e.call != UnknownModule && e.nonce == stored && !(e.timeoutHeight > 0 && b.height > e.timeoutHeight)
    && 1000 + (e.payloadLen + 1023) / 1024 * 10 <= e.gasLimit
  }

  /** d and r are what executing e makes of data: exactly when its handler succeeds, so does the
      transaction, its sender's nonce moves on, and the size is paid for on top of the handler's gas. */
  ghost predicate Acts(host: Host, b: Block, mods: set<ModuleName>, data: State, e: Envelope, d: State, r: Outcome) {
    var (x, o) := ExecuteSpec(host, CtxOf(host, b), mods, data, e);
    if o.Ok? then
      d == WithNonce(x, e.sender, e.nonce + 1) && r == Ok(o.gas + 1000 + (e.payloadLen + 1023) / 1024 * 10, o.events)
    else d == x && r == o
  }

  /** Gas charged before execution. */
  function BaseGas(e: Envelope): nat { 1000 + (e.payloadLen + 1023) / 1024 * 10 }

  /** Why a transaction is turned away before it is executed. */
  function Refusal(host: Host, height: int, data: State, raw: RawTx): Option<nat> {
    if raw.None? || !ValidateBasic(raw.value) then Some(CODE_DECODE)
    else
      var e := raw.value;
      if e.timeoutHeight > 0 && height > e.timeoutHeight then Some(CODE_DECODE)
      else if !host.verify(e) then Some(CODE_SIGNATURE)
      else if e.nonce != NonceOf(data, e.sender) then Some(CODE_NONCE)
      else if BaseGas(e) > e.gasLimit then Some(CODE_GAS)
      else None
  }

  /** One transaction: refused ones change nothing; a successful one advances its sender's nonce. */
  ghost function DeliverSpec(host: Host, b: Block, mods: set<ModuleName>, data: State, raw: RawTx): (State, Outcome) {
    var refusal := Refusal(host, b.height, data, raw);
    if refusal.Some? then (data, Fail(refusal.value))
    else
      var e := raw.value;
      var (d, r) := ExecuteSpec(host, CtxOf(host, b), mods, data, e);
      match r
      case Fail(_) => (d, r)
      case Ok(gas, events) => (WithNonce(d, e.sender, NonceOf(data, e.sender) + 1), Ok(gas + BaseGas(e), events))
  }

  ghost function DeliverAll(host: Host, b: Block, mods: set<ModuleName>, data: State, txs: seq<RawTx>): (r: (State, seq<Outcome>))
    ensures |r.1| == |txs|
    decreases |txs|
  {
    if txs == [] then (data, [])
    else
      var (d, rs) := DeliverAll(host, b, mods, data, txs[..|txs| - 1]);
      var (e, r) := DeliverSpec(host, b, mods, d, txs[|txs| - 1]);
      (e, rs + [r])
  }

  ghost function AfterBlock(host: Host, mods: set<ModuleName>, data: State, b: Block): State {
    Merged(DeliverAll(host, b, mods, data, b.txs).0, mods, b.now)
  }

  // ----- the invariant of the whole machine

  ghost predicate ChainInv(host: Host, pres: set<Bytes>, data: State) {
    CapInv(data) && OriginsOk(data, host.digest, pres) && WeaveInv(data) && FiatInv(data) && TasksKeyed(data)
  }

  /** pres holds what the transaction hashes to make a token id. */
  predicate Hashed(pres: set<Bytes>, raw: RawTx) {
    raw.Some? && raw.value.call.CapCall? && MakesToken(raw.value.call.cap) ==>
      Preimage(NewOrigin(raw.value.sender, raw.value.nonce, raw.value.call.cap)) in pres
  }

  ghost predicate NonceRoom(data: State, n: nat) {
    forall s :: NonceOf(data, s) + n < TWO64
  }
}

/** The records stored in the shared state tree. Each JSON document is one typed value. */
module Records {
  import opened ByteStrings
  import opened Codec
  import opened Engine

  // ----- capability tokens

  /** A token id: sixteen hexadecimal characters. */
  predicate IsId(b: Bytes) {
    |b| == 16 && forall i :: 0 <= i < |b| ==> b[i] != SLASH && b[i] != BAR
  }

  type Id = b: Bytes | IsId(b)
    witness seq(16, i => 48 as byte)

  datatype TokenStatus = Unspent | Spent | Revoked | Expired

  datatype Token = Token(
    id: Bytes, issuer: Bytes, holder: Bytes, capType: Bytes, capVersion: Bytes, scopes: seq<Bytes>,
    issuedAt: int, expiresAt: int, maxUses: u32, usedCount: u32, delegatable: bool,
    maxDepth: u32, curDepth: u32, parent: Bytes, status: TokenStatus)

  // ----- task graphs

  datatype NodeStatus = NodeUnset | NodePending | NodeReady | NodeRunning | NodeCompleted | NodeSkipped | NodeOther(name: Bytes)

  datatype DagNode = DagNode(
    id: Bytes, kind: Bytes, status: NodeStatus, startedAt: int, finishedAt: int, outputRef: Bytes)

  datatype Edge = Edge(from: Bytes, to: Bytes, condition: Bytes)

  datatype DagStatus = DagPending | DagRunning | DagCompleted | DagFailed | DagCanceled

  datatype Dag = Dag(
    id: Bytes, rootTask: Bytes, orchestrator: Bytes, nodes: seq<DagNode>, edges: seq<Edge>,
    status: DagStatus, createdAt: int, startedAt: int, finishedAt: int, timeoutSec: u64)

  // ----- tasks, as far as the end-of-block heartbeat check reads them

  datatype TaskStatus = TaskExecuting | TaskFailed | TaskOther(name: Bytes)

  datatype Task = Task(id: Bytes, status: TaskStatus, lastHeartbeat: int, rest: Bytes)

  // ----- money

  datatype Currency = Usd | OtherCurrency(name: Bytes)

  datatype Money = Money(currency: Currency, amount: real)

  datatype EscrowStatus = EscrowPending | EscrowFunded | EscrowLocked | EscrowReleasing | EscrowReleased | EscrowRefunded

  datatype Escrow = Escrow(
    id: Bytes, orderId: Bytes, consumer: Bytes, provider: Bytes, total: Money, fee: Money,
    commission: Money, bps: u32, status: EscrowStatus, createdAt: int, fundedAt: int, releasedAt: int)

  datatype Tier = Starter | Pro | Enterprise

  datatype Deposit = Deposit(
    provider: Bytes, currency: Currency, deposited: real, available: real, slashed: real,
    lastDepositAt: int, lastWithdrawAt: int, tier: Tier)

  datatype Pool = Pool(balanceCny: real, balanceUsd: real, totalIncome: real, maxSinglePayout: real, safetyBps: u32)

  // ----- marketplace

  datatype ListingStatus = ListingActive | ListingPaused | ListingDelisted

  /** A decimal string: the rational it denotes, or one that does not parse. */
  datatype Price = Rational(value: real) | Malformed

  datatype Listing = Listing(
    id: Bytes, provider: Bytes, title: Bytes, caps: seq<Bytes>, currency: Bytes, price: Price,
    status: ListingStatus, createdAt: int, updatedAt: int)

  datatype OrderStatus = OrderMatched | OrderFailed | OrderOther(name: Bytes)

  datatype Order = Order(
    id: Bytes, listingId: Bytes, consumer: Bytes, provider: Bytes, price: real, commission: real,
    escrowId: Bytes, status: OrderStatus, createdAt: int, updatedAt: int)

  // ----- the tree

  datatype Value =
    | TokenV(token: Token) | DagV(dag: Dag) | TaskV(task: Task) | EscrowV(escrow: Escrow)
    | DepositV(deposit: Deposit) | PoolV(pool: Pool) | ListingV(listing: Listing) | OrderV(order: Order)
    | Mark | Word(word: Bytes) | Raw(raw: Bytes)

  type State = map<Bytes, Value>

  type Store = MemoryEngine<Value>

  // ----- execution

  datatype EventKind =
    | CapabilityExpired | DagFailedEvent | DagCompletedEvent | TaskFailedEvent | PoolBelowSafety
    | DepositSlashed | OrderMatchedEvent | OrderFailedEvent | ForeignEvent(name: Bytes)

  datatype Event = Event(kind: EventKind, subject: Bytes)

  datatype Outcome = Ok(gas: nat, events: seq<Event>) | Fail(code: nat)

  /** Block time in seconds, the hexadecimal nanosecond stamp used for default ids, and the
      truncated hash that ids are made with. */
  datatype Ctx = Ctx(now: int, stamp: Bytes, digest: Bytes -> Id)

  /** Go's conversion of an unsigned 64-bit integer to a signed one. */
  function AsInt64(x: u64): int {
    if x < TWO64 / 2 then x else x - TWO64
  }
}

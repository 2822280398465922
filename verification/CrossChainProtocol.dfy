/**
 * The cross-chain fill as a step system: swapper, fillers, the backend's table, both watchers, the
 * relayer and two chains. A run is any sequence of steps; a step that a contract or the service
 * would reject changes nothing (escrowDstWatcher.ts, escrowSrcWatcher.ts, escrowAuthenticity.ts,
 * crosschainService.ts under backend/src).
 */
module CrossChainProtocol {
  import opened Wrappers
  import opened CrossChainStore

  // ---------------------------------------------------------------- the two chains

  datatype Settlement = Open | Paid | Returned

  /** EscrowSrc: pays the filler (Paid) until auth.t1, the swapper (Returned) after it. */
  datatype SrcEscrow = SrcEscrow(auth: Auth, filler: Address, state: Settlement)

  /** EscrowDst: pays the recipient until expiry, the filler after it. */
  datatype DstEscrow = DstEscrow(recipient: Address, token: nat, amount: nat, expiry: int, state: Settlement,
                                 claimTx: nat)

  /** Logs of the source chain; any contract can emit the last two shapes. */
  datatype SrcEvent =
    | Filled(orderHash: nat, hashlock: Hashlock, filler: Address, escrow: Address)
    | Withdrawn(emitter: Address, secret: nat)
    | Cancelled(emitter: Address)

  /** Logs of a destination factory. */
  datatype DstEvent = EscrowCreated(chain: nat, escrow: Address, filler: Address, hashlock: Hashlock)

  /** `reserved` is what the source factory holds back of each order: filled slots less cancelled ones. */
  datatype Chains = Chains(src: map<Address, SrcEscrow>, dst: map<Address, DstEscrow>, srcLog: set<SrcEvent>,
                           dstLog: set<DstEvent>, reserved: map<nat, nat>, srcNow: int, dstNow: int)

  // ---------------------------------------------------------------- the whole system

  /** A claim in flight in the relayer's memory; tx is set once it is mined. */
  datatype Job = Job(orderHash: nat, hashlock: Hashlock, secret: nat, escrow: Address, tx: Option<nat>)

  datatype State = State(orders: map<nat, Order>, fills: seq<Fill>, sigs: set<Signature>, chains: Chains,
                         jobs: map<nat, Job>, nextTx: nat)

  datatype Step =
    // swapper and filler, through the service
    | CreateIntent(orderHash: nat, order: Order)
    | SignOrder(orderHash: nat)
    | QuoteFill(orderHash: nat, quote: Quote)
    | SignFill(fillId: nat, t1: int)
    | SubmitSig(fillId: nat, sig: Signature, newT1: Option<real>, now: int)
    // contracts, called by anyone
    | DeployDst(chain: nat, hashlock: Hashlock, filler: Address, recipient: Address, token: nat, amount: nat,
                expiry: int)
    | FillSlot(sig: Signature, filler: Address)
    | Withdraw(escrow: Address, secret: nat)
    | Cancel(escrow: Address)
    | Claim(escrow: Address, secret: nat)
    | Refund(escrow: Address)
    | ForeignLog(e: SrcEvent)
    | Tick(srcNow: int, dstNow: int)
    // watchers: any event already logged, in any order, any number of times; row is the one the lookup returned
    | SeeCreated(created: DstEvent, row: nat)
    | SeeFilled(e: SrcEvent)
    | SeeEscrowLog(e: SrcEvent, row: nat)
    // relayer
    | RelayRead(job: nat, row: nat, now: int)
    | RelaySend(job: nat)
    | RelayRecord(job: nat)
    | RelayDrop(job: nat)
    | Crash

  function Initial(srcNow: int, dstNow: int): State {
    State(map[], [], {}, Chains(map[], map[], {}, {}, map[], srcNow, dstNow), map[], 0)
  }

  /** The swapper signs only terms of a row whose destination escrow was verified, never a later deadline. */
  predicate HonestAuth(s: State, row: nat, t1: int) {
    row < |s.fills| && s.fills[row].status == DstFunded && t1 <= s.fills[row].t1
  }

  function SwapperSignature(s: State, row: nat, t1: int): Signature
    requires row < |s.fills| && s.fills[row].orderHash in s.orders
  {
    var f := s.fills[row];
    Signature(s.orders[f.orderHash].swapper, Auth(f.orderHash, f.hashlock, f.fillAmount, t1, f.t2))
  }

  predicate HashOpens(hashlock: Hashlock, secret: nat) {
    hashlock == HashOf(secret)
  }

  // ---------------------------------------------------------------- contracts

  predicate CanDeploy(c: Chains, chain: nat, hashlock: Hashlock, filler: Address, amount: nat, expiry: int) {
    DstClone(chain, hashlock, filler) !in c.dst && c.dstNow < expiry && amount > 0
  }

  function DeployedDst(c: Chains, chain: nat, hashlock: Hashlock, filler: Address, e: DstEscrow): Chains {
    var escrow := DstClone(chain, hashlock, filler);
    c.(dst := c.dst[escrow := e], dstLog := c.dstLog + {EscrowCreated(chain, escrow, filler, hashlock)})
  }

  function Reserved(c: Chains, orderHash: nat): nat {
    if orderHash in c.reserved then c.reserved[orderHash] else 0
  }

  /**
   * fillSlot: both signatures, the deadline checks, an amount the order still has and a fresh CREATE2 salt. The
   * sender's bond and the swapper's allowance are taken as given.
   */
  predicate CanFillSlot(s: State, sig: Signature) {
    var auth := sig.auth;
    && sig in s.sigs && auth.orderHash in s.orders
    && s.orders[auth.orderHash].signed && sig.signer == s.orders[auth.orderHash].swapper
    && s.chains.srcNow <= s.orders[auth.orderHash].deadlineBase && auth.t1 <= s.orders[auth.orderHash].deadlineBase
    && auth.t1 < auth.t2 && s.chains.srcNow < auth.t1 && auth.fillAmount > 0
    && Reserved(s.chains, auth.orderHash) + auth.fillAmount <= s.orders[auth.orderHash].inputAmount
    && SrcClone(auth.orderHash, auth.hashlock) !in s.chains.src
  }

  function FilledSlot(c: Chains, auth: Auth, filler: Address): Chains {
    var escrow := SrcClone(auth.orderHash, auth.hashlock);
    c.(src := c.src[escrow := SrcEscrow(auth, filler, Open)],
       srcLog := c.srcLog + {Filled(auth.orderHash, auth.hashlock, filler, escrow)},
       reserved := c.reserved[auth.orderHash := Reserved(c, auth.orderHash) + auth.fillAmount])
  }

  predicate CanWithdraw(c: Chains, escrow: Address, secret: nat) {
    && escrow in c.src && c.src[escrow].state == Open && c.srcNow <= c.src[escrow].auth.t1
    && HashOpens(c.src[escrow].auth.hashlock, secret)
  }

  predicate CanCancel(c: Chains, escrow: Address) {
    escrow in c.src && c.src[escrow].state == Open && c.srcNow > c.src[escrow].auth.t1
  }

  predicate CanClaim(c: Chains, escrow: Address, secret: nat) {
    && escrow in c.dst && c.dst[escrow].state == Open && c.dstNow <= c.dst[escrow].expiry
    && escrow.DstClone? && HashOpens(escrow.hashlock, secret)
  }

  predicate CanRefund(c: Chains, escrow: Address) {
    escrow in c.dst && c.dst[escrow].state == Open && c.dstNow > c.dst[escrow].expiry
  }

  /** What is reserved after a cancelled fill gives its amount back. */
  function GivenBack(c: Chains, auth: Auth): map<nat, nat> {
    var before := Reserved(c, auth.orderHash);
    c.reserved[auth.orderHash := if before < auth.fillAmount then 0 else before - auth.fillAmount]
  }

  function SettleSrc(c: Chains, escrow: Address, state: Settlement, e: SrcEvent): Chains
    requires escrow in c.src
  {
    c.(src := c.src[escrow := c.src[escrow].(state := state)], srcLog := c.srcLog + {e},
       reserved := if state == Returned then GivenBack(c, c.src[escrow].auth) else c.reserved)
  }

  function SettleDst(c: Chains, escrow: Address, state: Settlement, tx: nat): Chains
    requires escrow in c.dst
  {
    c.(dst := c.dst[escrow := c.dst[escrow].(state := state, claimTx := tx)])
  }

  predicate ForeignEmitter(e: SrcEvent) {
    match e
    case Filled(_, _, _, _) => false
    case Withdrawn(emitter, _) => emitter.Account?
    case Cancelled(emitter) => emitter.Account?
  }

  // ---------------------------------------------------------------- watchers and relayer

  /** assertGenuineDstClone: CREATE2 address, code present, and the committed terms. */
  predicate GenuineDst(c: Chains, e: DstEvent, o: Order, f: Fill) {
    && e.escrow == DstClone(e.chain, e.hashlock, e.filler) && e.escrow in c.dst
    && c.dst[e.escrow].recipient == o.swapper && c.dst[e.escrow].token == o.outputToken
    && f.fillAmount <= c.dst[e.escrow].amount && c.dst[e.escrow].expiry == f.t2
  }

  /** handleEscrowCreated; row is the quoted row the lookup by hashlock returned first. */
  function HandleEscrowCreated(s: State, e: DstEvent, row: nat): seq<Fill> {
    if row >= |s.fills| || s.fills[row].hashlock != e.hashlock || s.fills[row].status != Quoted
       || s.fills[row].orderHash !in s.orders then s.fills
    else
      var f := s.fills[row];
      var o := s.orders[f.orderHash];
      if o.dstChain != e.chain || !GenuineDst(s.chains, e, o, f) then s.fills
      else Record(s.fills, f.orderHash, e.hashlock, DstVerified(e.escrow))
  }

  /** handleFilled, behind assertGenuineSrcClone. */
  function HandleFilled(s: State, e: SrcEvent): seq<Fill>
    requires e.Filled?
  {
    if e.escrow != SrcClone(e.orderHash, e.hashlock) || e.escrow !in s.chains.src then s.fills
    else Record(s.fills, e.orderHash, e.hashlock, SrcFilled(e.escrow, e.filler))
  }

  /** handleSrcEscrowLog; row is the one whose escrow_src_addr emitted the log. */
  function HandleSrcEscrowLog(s: State, e: SrcEvent, row: nat): seq<Fill>
    requires !e.Filled?
  {
    if row >= |s.fills| || s.fills[row].srcAddr != Some(e.emitter) then s.fills
    else
      var f := s.fills[row];
      Record(s.fills, f.orderHash, f.hashlock, if e.Withdrawn? then SecretOut(e.secret) else SrcCancelled)
  }

  /** One row of a relay pass: revealed, escrow known, not past t2 by the local clock, not settled on chain. */
  predicate Relays(s: State, row: nat, now: int) {
    && row < |s.fills| && s.fills[row].status == Revealed && s.fills[row].dstAddr.Some? && s.fills[row].secret.Some?
    && now <= s.fills[row].t2
    && s.fills[row].dstAddr.value in s.chains.dst && s.chains.dst[s.fills[row].dstAddr.value].state == Open
  }

  function JobFor(f: Fill): Job
    requires f.secret.Some? && f.dstAddr.Some?
  {
    Job(f.orderHash, f.hashlock, f.secret.value, f.dstAddr.value, None)
  }

  /** The relayer's claim is mined. */
  function Mined(s: State, job: nat, tx: nat): State
    requires job in s.jobs && s.jobs[job].escrow in s.chains.dst
  {
    s.(chains := SettleDst(s.chains, s.jobs[job].escrow, Paid, tx), jobs := s.jobs[job := s.jobs[job].(tx := Some(tx))])
  }

  // ---------------------------------------------------------------- steps and runs

  /** What the service, the contracts and the environment let happen; skew bounds how far the two clocks drift apart. */
  predicate Accepted(s: State, step: Step, skew: nat) {
    match step
    case CreateIntent(orderHash, _) => orderHash !in s.orders
    case SignOrder(orderHash) => orderHash in s.orders
    case QuoteFill(orderHash, quote) => CreateFillQuote(s.orders, s.fills, orderHash, quote).Ok?
    case SignFill(row, t1) => HonestAuth(s, row, t1) && s.fills[row].orderHash in s.orders
    case SubmitSig(row, sig, newT1, now) =>
      sig in s.sigs && SetFillSwapperSig(s.orders, s.fills, row, sig, newT1, now).Ok?
    case DeployDst(chain, hashlock, filler, _, _, amount, expiry) =>
      CanDeploy(s.chains, chain, hashlock, filler, amount, expiry)
    case FillSlot(sig, _) => CanFillSlot(s, sig)
    case Withdraw(escrow, secret) => CanWithdraw(s.chains, escrow, secret)
    case Cancel(escrow) => CanCancel(s.chains, escrow)
    case Claim(escrow, secret) => CanClaim(s.chains, escrow, secret)
    case Refund(escrow) => CanRefund(s.chains, escrow)
    case ForeignLog(e) => ForeignEmitter(e)
    case Tick(srcNow, dstNow) =>
      s.chains.srcNow <= srcNow <= dstNow + skew && s.chains.dstNow <= dstNow <= srcNow + skew
    case SeeCreated(created, _) => created in s.chains.dstLog
    case SeeFilled(e) => e in s.chains.srcLog && e.Filled?
    case SeeEscrowLog(e, _) => e in s.chains.srcLog && !e.Filled?
    case RelayRead(job, row, now) => job !in s.jobs && Relays(s, row, now)
    case RelaySend(job) =>
      job in s.jobs && s.jobs[job].tx.None? && CanClaim(s.chains, s.jobs[job].escrow, s.jobs[job].secret)
    case RelayRecord(job) => job in s.jobs && s.jobs[job].tx.Some?
    case RelayDrop(_) => true
    case Crash => true
  }

  function Effect(s: State, step: Step, skew: nat): State
    requires Accepted(s, step, skew)
  {
    match step
    case CreateIntent(orderHash, o) => s.(orders := s.orders[orderHash := o.(signed := false)])
    case SignOrder(orderHash) => s.(orders := s.orders[orderHash := s.orders[orderHash].(signed := true)])
    case QuoteFill(orderHash, quote) => s.(fills := CreateFillQuote(s.orders, s.fills, orderHash, quote).value)
    case SignFill(row, t1) => s.(sigs := s.sigs + {SwapperSignature(s, row, t1)})
    case SubmitSig(row, sig, newT1, now) =>
      s.(fills := SetFillSwapperSig(s.orders, s.fills, row, sig, newT1, now).value)
    case DeployDst(chain, hashlock, filler, recipient, token, amount, expiry) =>
      s.(chains := DeployedDst(s.chains, chain, hashlock, filler, DstEscrow(recipient, token, amount, expiry, Open, 0)))
    case FillSlot(sig, filler) => s.(chains := FilledSlot(s.chains, sig.auth, filler))
    case Withdraw(escrow, secret) => s.(chains := SettleSrc(s.chains, escrow, Paid, Withdrawn(escrow, secret)))
    case Cancel(escrow) => s.(chains := SettleSrc(s.chains, escrow, Returned, Cancelled(escrow)))
    case Claim(escrow, _) => s.(chains := SettleDst(s.chains, escrow, Paid, s.nextTx), nextTx := s.nextTx + 1)
    case Refund(escrow) => s.(chains := SettleDst(s.chains, escrow, Returned, s.nextTx), nextTx := s.nextTx + 1)
    case ForeignLog(e) => s.(chains := s.chains.(srcLog := s.chains.srcLog + {e}))
    case Tick(srcNow, dstNow) => s.(chains := s.chains.(srcNow := srcNow, dstNow := dstNow))
    case SeeCreated(created, row) => s.(fills := HandleEscrowCreated(s, created, row))
    case SeeFilled(e) => s.(fills := HandleFilled(s, e))
    case SeeEscrowLog(e, row) => s.(fills := HandleSrcEscrowLog(s, e, row))
    case RelayRead(job, row, _) => s.(jobs := s.jobs[job := JobFor(s.fills[row])])
    case RelaySend(job) => Mined(s, job, s.nextTx).(nextTx := s.nextTx + 1)
    case RelayRecord(job) =>
      s.(fills := Record(s.fills, s.jobs[job].orderHash, s.jobs[job].hashlock, ClaimSent(s.jobs[job].tx.value)),
         jobs := s.jobs - {job})
    case RelayDrop(job) => s.(jobs := s.jobs - {job})
    case Crash => s.(jobs := map[])
  }

  function Apply(s: State, step: Step, skew: nat): State {
    if Accepted(s, step, skew) then Effect(s, step, skew) else s
  }

  function Run(s: State, steps: seq<Step>, skew: nat): State
    decreases |steps|
  {
    if steps == [] then s else Run(Apply(s, steps[0], skew), steps[1..], skew)
  }
}

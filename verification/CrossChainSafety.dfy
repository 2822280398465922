/**
 * What every run of the cross-chain protocol keeps, and what it means for the swapper and the filler.
 */
module CrossChainSafety {
  import opened Wrappers
  import opened CrossChainStore
  import opened CrossChainProtocol

  // ---------------------------------------------------------------- how the system moves

  ghost predicate OrdersGrow(before: map<nat, Order>, after: map<nat, Order>) {
    forall h :: h in before ==> h in after && (after[h] == before[h] || after[h] == before[h].(signed := true))
  }

  ghost predicate Settles(before: Settlement, after: Settlement) {
    before == Open || after == before
  }

  /** Deployed escrows keep their terms, settle once, and time goes forward. */
  ghost predicate ChainsGrow(c: Chains, d: Chains) {
    && (forall a :: a in c.src ==> a in d.src && d.src[a].auth == c.src[a].auth && d.src[a].filler == c.src[a].filler
                                   && Settles(c.src[a].state, d.src[a].state))
    && (forall a :: a in c.dst ==>
          a in d.dst && SameTerms(c.dst[a], d.dst[a]) && (c.dst[a].state != Open ==> d.dst[a] == c.dst[a]))
    && c.srcNow <= d.srcNow && c.dstNow <= d.dstNow
  }

  ghost predicate SameTerms(e: DstEscrow, f: DstEscrow) {
    e.recipient == f.recipient && e.token == f.token && e.amount == f.amount && e.expiry == f.expiry
  }

  ghost predicate Advances(s: State, s': State) {
    && OrdersGrow(s.orders, s'.orders) && TableEvolves(s.fills, s'.fills) && ChainsGrow(s.chains, s'.chains)
    && s.sigs <= s'.sigs
  }

  lemma AdvancesTransitive(a: State, b: State, c: State)
    requires Advances(a, b) && Advances(b, c)
    ensures Advances(a, c)
  {
  }

  // ---------------------------------------------------------------- the invariant

  /** The row names a verified destination escrow with the committed terms. */
  ghost predicate FundedAsCommitted(o: Order, c: Chains, f: Fill) {
    && f.dstAddr.Some? && f.dstAddr.value.DstClone? && f.dstAddr.value in c.dst
    && f.dstAddr.value.chain == o.dstChain && f.dstAddr.value.hashlock == f.hashlock
    && c.dst[f.dstAddr.value].recipient == o.swapper && c.dst[f.dstAddr.value].token == o.outputToken
    && f.fillAmount <= c.dst[f.dstAddr.value].amount && c.dst[f.dstAddr.value].expiry == f.t2
  }

  /** The row names its own source escrow, filled by its own filler, settled as stated. */
  ghost predicate LockedBy(c: Chains, f: Fill) {
    && f.srcAddr == Some(SrcClone(f.orderHash, f.hashlock)) && f.srcAddr.value in c.src
    && c.src[f.srcAddr.value].filler == f.filler
    && (f.status == Slashed ==> c.src[f.srcAddr.value].state == Returned)
    && (f.secret.Some? ==> HashOpens(f.hashlock, f.secret.value) && c.src[f.srcAddr.value].state == Paid)
  }

  /** The signature that lets this row's filler lock the source on exactly the row's terms. */
  function Authorizes(swapper: Address, f: Fill): Signature {
    Signature(swapper, Auth(f.orderHash, f.hashlock, f.fillAmount, f.t1, f.t2))
  }

  ghost predicate RowOk(orders: map<nat, Order>, c: Chains, f: Fill) {
    && f.orderHash in orders && orders[f.orderHash].signed
    && (f.swapperSig.Some? ==> f.swapperSig.value == Authorizes(orders[f.orderHash].swapper, f))
    && f.t1 < f.t2 && f.t1 <= orders[f.orderHash].deadlineBase
    && EvidenceFitsStatus(f)
    && (f.status != Quoted ==> FundedAsCommitted(orders[f.orderHash], c, f))
    && (f.status == Slashed ==> f.srcAddr.Some?)
    && (f.srcAddr.Some? ==> LockedBy(c, f))
    && (f.claimTx.Some? ==> c.dst[f.dstAddr.value].state == Paid && c.dst[f.dstAddr.value].claimTx == f.claimTx.value)
  }

  ghost predicate RowsOk(s: State) {
    Unique(s.fills) && forall i :: 0 <= i < |s.fills| ==> RowOk(s.orders, s.chains, s.fills[i])
  }

  /** The swapper saw this row funded before signing these terms. */
  ghost predicate Backs(f: Fill, auth: Auth) {
    Matches(f, auth.orderHash, auth.hashlock) && f.fillAmount == auth.fillAmount && f.t2 == auth.t2
      && f.status != Quoted
  }

  ghost predicate Backed(s: State, auth: Auth) {
    exists i :: 0 <= i < |s.fills| && Backs(s.fills[i], auth)
  }

  ghost predicate SigsOk(s: State) {
    forall sig :: sig in s.sigs ==> Backed(s, sig.auth)
  }

  ghost predicate SrcOk(s: State) {
    forall a :: a in s.chains.src ==>
      a == SrcClone(s.chains.src[a].auth.orderHash, s.chains.src[a].auth.hashlock) && Backed(s, s.chains.src[a].auth)
  }

  ghost predicate DstOk(c: Chains) {
    forall a :: a in c.dst ==> a.DstClone? && (c.dst[a].state == Returned ==> c.dst[a].expiry < c.dstNow)
  }

  ghost predicate EventOk(c: Chains, e: SrcEvent) {
    match e
    case Filled(orderHash, hashlock, filler, escrow) =>
      escrow == SrcClone(orderHash, hashlock) && escrow in c.src && c.src[escrow].filler == filler
    case Withdrawn(emitter, secret) =>
      emitter.Account? || (emitter.SrcClone? && emitter in c.src && c.src[emitter].state == Paid
                           && HashOpens(emitter.hashlock, secret))
    case Cancelled(emitter) =>
      emitter.Account? || (emitter.SrcClone? && emitter in c.src && c.src[emitter].state == Returned)
  }

  ghost predicate LogsOk(c: Chains) {
    forall e :: e in c.srcLog ==> EventOk(c, e)
  }

  ghost predicate JobOf(c: Chains, f: Fill, t: Job) {
    && Matches(f, t.orderHash, t.hashlock) && (f.status == Revealed || f.status == Claimed)
    && f.secret == Some(t.secret) && f.dstAddr == Some(t.escrow) && t.escrow in c.dst
    && (t.tx.Some? ==> c.dst[t.escrow].state == Paid && c.dst[t.escrow].claimTx == t.tx.value)
  }

  ghost predicate JobOk(s: State, t: Job) {
    exists i :: 0 <= i < |s.fills| && JobOf(s.chains, s.fills[i], t)
  }

  ghost predicate JobsOk(s: State) {
    forall id :: id in s.jobs ==> JobOk(s, s.jobs[id])
  }

  ghost predicate Inv(s: State) {
    RowsOk(s) && SigsOk(s) && SrcOk(s) && DstOk(s.chains) && LogsOk(s.chains) && JobsOk(s)
  }

  // ---------------------------------------------------------------- moving forward keeps what is known

  lemma BackedStays(s: State, s': State, auth: Auth)
    requires TableEvolves(s.fills, s'.fills) && Backed(s, auth)
    ensures Backed(s', auth)
  {
  }

  lemma SameRowsStayOk(s: State, s': State)
    requires RowsOk(s) && OrdersGrow(s.orders, s'.orders) && ChainsGrow(s.chains, s'.chains) && s'.fills == s.fills
    ensures RowsOk(s')
  {
  }

  /** Whatever moves forward keeps the facts that rows alone support. */
  lemma SupportStays(s: State, s': State)
    requires Inv(s) && Advances(s, s') && RowsOk(s')
    requires s'.sigs == s.sigs && s'.chains.src == s.chains.src
    ensures SigsOk(s') && SrcOk(s')
  {
  }

  lemma JobsStay(s: State, s': State)
    requires Inv(s) && Advances(s, s') && RowsOk(s')
    requires forall id :: id in s'.jobs ==> id in s.jobs && s'.jobs[id] == s.jobs[id]
    ensures JobsOk(s')
  {
  }

  // ---------------------------------------------------------------- steps that only touch the table

  lemma TableStep(s: State, fills: seq<Fill>)
    requires Inv(s) && TableEvolves(s.fills, fills) && RowsOk(s.(fills := fills))
    ensures Inv(s.(fills := fills)) && Advances(s, s.(fills := fills))
  {
    SupportStays(s, s.(fills := fills));
    JobsStay(s, s.(fills := fills));
  }

  lemma RecordStep(s: State, orderHash: nat, hashlock: Hashlock, e: Evidence)
    requires Inv(s)
    requires forall f :: f in s.fills && Matches(f, orderHash, hashlock) && Accepts(f, e) ==>
               RowOk(s.orders, s.chains, With(f, e))
    ensures var s' := s.(fills := Record(s.fills, orderHash, hashlock, e)); Inv(s') && Advances(s, s')
  {
    var rows := Record(s.fills, orderHash, hashlock, e);
    RecordKeepsUnique(s.fills, orderHash, hashlock, e);
    forall i | 0 <= i < |rows|
      ensures Evolves(s.fills[i], rows[i]) && RowOk(s.orders, s.chains, rows[i])
    {
      assert RowOk(s.orders, s.chains, s.fills[i]);
      UpdateEvolves(s.fills[i], orderHash, hashlock, e);
      assert s.fills[i] in s.fills;
    }
    TableStep(s, rows);
  }

  lemma QuoteStep(s: State, orderHash: nat, q: Quote)
    requires Inv(s) && CreateFillQuote(s.orders, s.fills, orderHash, q).Ok?
    ensures var s' := s.(fills := CreateFillQuote(s.orders, s.fills, orderHash, q).value); Inv(s') && Advances(s, s')
  {
    var rows := CreateFillQuote(s.orders, s.fills, orderHash, q).value;
    QuoteKeepsUnique(s.orders, s.fills, orderHash, q);
    forall i | 0 <= i < |rows|
      ensures RowOk(s.orders, s.chains, rows[i])
    {
      if i < |s.fills| {
        assert rows[i] == s.fills[i];
      }
    }
    TableStep(s, rows);
  }

  lemma SubmitStep(s: State, row: nat, sig: Signature, newT1: Option<real>, now: int)
    requires Inv(s) && SetFillSwapperSig(s.orders, s.fills, row, sig, newT1, now).Ok?
    ensures var s' := s.(fills := SetFillSwapperSig(s.orders, s.fills, row, sig, newT1, now).value);
            Inv(s') && Advances(s, s')
  {
    var rows := SetFillSwapperSig(s.orders, s.fills, row, sig, newT1, now).value;
    assert RowOk(s.orders, s.chains, s.fills[row]);
    forall i | 0 <= i < |rows|
      ensures RowOk(s.orders, s.chains, rows[i]) && Evolves(s.fills[i], rows[i])
    {
      assert RowOk(s.orders, s.chains, s.fills[i]);
    }
    forall i, j | 0 <= i < j < |rows|
      ensures !Matches(rows[i], rows[j].orderHash, rows[j].hashlock)
    {
      assert !Matches(s.fills[i], s.fills[j].orderHash, s.fills[j].hashlock);
    }
    TableStep(s, rows);
  }

  /** The only row with this key. */
  lemma OnlyRow(fills: seq<Fill>, row: nat, f: Fill)
    requires Unique(fills) && row < |fills| && f in fills && Matches(f, fills[row].orderHash, fills[row].hashlock)
    ensures f == fills[row]
  {
  }

  lemma CreatedStep(s: State, e: DstEvent, row: nat)
    requires Inv(s)
    ensures var s' := s.(fills := HandleEscrowCreated(s, e, row)); Inv(s') && Advances(s, s')
  {
    var rows := HandleEscrowCreated(s, e, row);
    if rows == s.fills {
      TableStep(s, rows);
    } else {
      var g := s.fills[row];
      assert RowOk(s.orders, s.chains, g);
      forall f | f in s.fills && Matches(f, g.orderHash, e.hashlock) && Accepts(f, DstVerified(e.escrow))
        ensures RowOk(s.orders, s.chains, With(f, DstVerified(e.escrow)))
      {
        OnlyRow(s.fills, row, f);
      }
      RecordStep(s, g.orderHash, e.hashlock, DstVerified(e.escrow));
    }
  }

  lemma FilledStep(s: State, e: SrcEvent)
    requires Inv(s) && e.Filled? && e in s.chains.srcLog
    ensures var s' := s.(fills := HandleFilled(s, e)); Inv(s') && Advances(s, s')
  {
    assert EventOk(s.chains, e);
    var seen := SrcFilled(e.escrow, e.filler);
    forall f | f in s.fills && Matches(f, e.orderHash, e.hashlock) && Accepts(f, seen)
      ensures RowOk(s.orders, s.chains, With(f, seen))
    {
      assert RowOk(s.orders, s.chains, f);
    }
    RecordStep(s, e.orderHash, e.hashlock, seen);
  }

  /** A log of the row's own escrow is evidence the row can carry. */
  lemma EscrowLogFits(orders: map<nat, Order>, c: Chains, f: Fill, e: SrcEvent)
    requires RowOk(orders, c, f) && !e.Filled? && EventOk(c, e) && f.srcAddr == Some(e.emitter)
    ensures var seen := if e.Withdrawn? then SecretOut(e.secret) else SrcCancelled;
            Accepts(f, seen) ==> RowOk(orders, c, With(f, seen))
  {
  }

  lemma EscrowLogStep(s: State, e: SrcEvent, row: nat)
    requires Inv(s) && !e.Filled? && e in s.chains.srcLog
    ensures var s' := s.(fills := HandleSrcEscrowLog(s, e, row)); Inv(s') && Advances(s, s')
  {
    if row >= |s.fills| || s.fills[row].srcAddr != Some(e.emitter) {
      TableStep(s, s.fills);
    } else {
      assert EventOk(s.chains, e);
      var g := s.fills[row];
      assert RowOk(s.orders, s.chains, g);
      var seen := if e.Withdrawn? then SecretOut(e.secret) else SrcCancelled;
      EscrowLogFits(s.orders, s.chains, g, e);
      forall f | f in s.fills && Matches(f, g.orderHash, g.hashlock) && Accepts(f, seen)
        ensures f == g
      {
        OnlyRow(s.fills, row, f);
      }
      RecordStep(s, g.orderHash, g.hashlock, seen);
    }
  }

  lemma RelayRecordStep(s: State, job: nat)
    requires Inv(s) && job in s.jobs && s.jobs[job].tx.Some?
    ensures var t := s.jobs[job];
            var s' := s.(fills := Record(s.fills, t.orderHash, t.hashlock, ClaimSent(t.tx.value)));
            Inv(s') && Advances(s, s')
  {
    var t := s.jobs[job];
    assert JobOk(s, t);
    var i :| 0 <= i < |s.fills| && JobOf(s.chains, s.fills[i], t);
    MinedClaimFits(s, i, t);
    RecordStep(s, t.orderHash, t.hashlock, ClaimSent(t.tx.value));
  }

  lemma MinedClaimFits(s: State, i: nat, t: Job)
    requires RowsOk(s) && i < |s.fills| && JobOf(s.chains, s.fills[i], t) && t.tx.Some?
    ensures forall f :: f in s.fills && Matches(f, t.orderHash, t.hashlock) && Accepts(f, ClaimSent(t.tx.value))
              ==> RowOk(s.orders, s.chains, With(f, ClaimSent(t.tx.value)))
  {
  }

  // ---------------------------------------------------------------- steps that only touch the chains

  /** Same rows, same signatures; the chains moved forward and their own facts hold. */
  lemma ChainStep(s: State, c: Chains)
    requires Inv(s) && ChainsGrow(s.chains, c) && DstOk(c) && LogsOk(c)
    requires forall a :: a in c.src ==>
               a == SrcClone(c.src[a].auth.orderHash, c.src[a].auth.hashlock) && Backed(s, c.src[a].auth)
    ensures Inv(s.(chains := c)) && Advances(s, s.(chains := c))
  {
    var s' := s.(chains := c);
    SameRowsStayOk(s, s');
    forall sig | sig in s'.sigs
      ensures Backed(s', sig.auth)
    {
      BackedStays(s, s', sig.auth);
    }
    forall a | a in c.src
      ensures Backed(s', c.src[a].auth)
    {
      BackedStays(s, s', c.src[a].auth);
    }
    JobsStay(s, s');
  }

  lemma LogsStay(c: Chains, d: Chains, e: SrcEvent)
    requires LogsOk(c) && ChainsGrow(c, d) && d.srcLog == c.srcLog + {e} && EventOk(d, e)
    ensures LogsOk(d)
  {
  }

  lemma QuietLogsStay(c: Chains, d: Chains)
    requires LogsOk(c) && ChainsGrow(c, d) && d.srcLog == c.srcLog
    ensures LogsOk(d)
  {
  }

  lemma FillSlotGrows(s: State, sig: Signature, filler: Address)
    requires CanFillSlot(s, sig)
    ensures ChainsGrow(s.chains, FilledSlot(s.chains, sig.auth, filler))
  {
  }

  lemma FillSlotStep(s: State, sig: Signature, filler: Address)
    requires Inv(s) && CanFillSlot(s, sig)
    ensures var s' := s.(chains := FilledSlot(s.chains, sig.auth, filler)); Inv(s') && Advances(s, s')
  {
    var c, d := s.chains, FilledSlot(s.chains, sig.auth, filler);
    FillSlotGrows(s, sig, filler);
    LogsStay(c, d,
             Filled(sig.auth.orderHash, sig.auth.hashlock, filler, SrcClone(sig.auth.orderHash, sig.auth.hashlock)));
    ChainStep(s, d);
  }

  lemma SettleSrcGrows(c: Chains, escrow: Address, state: Settlement, e: SrcEvent)
    requires escrow in c.src && c.src[escrow].state == Open
    ensures ChainsGrow(c, SettleSrc(c, escrow, state, e))
  {
  }

  lemma SettleSrcStep(s: State, escrow: Address, state: Settlement, e: SrcEvent)
    requires Inv(s) && escrow in s.chains.src && s.chains.src[escrow].state == Open
    requires EventOk(SettleSrc(s.chains, escrow, state, e), e)
    ensures var s' := s.(chains := SettleSrc(s.chains, escrow, state, e)); Inv(s') && Advances(s, s')
  {
    var c, d := s.chains, SettleSrc(s.chains, escrow, state, e);
    SettleSrcGrows(c, escrow, state, e);
    LogsStay(c, d, e);
    forall a | a in d.src
      ensures a == SrcClone(d.src[a].auth.orderHash, d.src[a].auth.hashlock) && Backed(s, d.src[a].auth)
    {
      assert d.src[a].auth == c.src[a].auth;
    }
    ChainStep(s, d);
  }

  lemma SettleDstStep(s: State, escrow: Address, state: Settlement, tx: nat)
    requires Inv(s) && escrow in s.chains.dst && s.chains.dst[escrow].state == Open
    requires state == Returned ==> s.chains.dst[escrow].expiry < s.chains.dstNow
    ensures var s' := s.(chains := SettleDst(s.chains, escrow, state, tx)); Inv(s') && Advances(s, s')
  {
    var c, d := s.chains, SettleDst(s.chains, escrow, state, tx);
    assert ChainsGrow(c, d);
    QuietLogsStay(c, d);
    ChainStep(s, d);
  }

  lemma DeployStep(s: State, chain: nat, hashlock: Hashlock, filler: Address, e: DstEscrow)
    requires Inv(s) && e.state == Open && DstClone(chain, hashlock, filler) !in s.chains.dst
    ensures var s' := s.(chains := DeployedDst(s.chains, chain, hashlock, filler, e)); Inv(s') && Advances(s, s')
  {
    var c, d := s.chains, DeployedDst(s.chains, chain, hashlock, filler, e);
    assert ChainsGrow(c, d);
    QuietLogsStay(c, d);
    ChainStep(s, d);
  }

  lemma ClockStep(s: State, srcNow: int, dstNow: int)
    requires Inv(s) && s.chains.srcNow <= srcNow && s.chains.dstNow <= dstNow
    ensures var s' := s.(chains := s.chains.(srcNow := srcNow, dstNow := dstNow)); Inv(s') && Advances(s, s')
  {
    var d := s.chains.(srcNow := srcNow, dstNow := dstNow);
    QuietLogsStay(s.chains, d);
    ChainStep(s, d);
  }

  lemma ForeignStep(s: State, e: SrcEvent)
    requires Inv(s) && ForeignEmitter(e)
    ensures var s' := s.(chains := s.chains.(srcLog := s.chains.srcLog + {e})); Inv(s') && Advances(s, s')
  {
    var d := s.chains.(srcLog := s.chains.srcLog + {e});
    LogsStay(s.chains, d, e);
    ChainStep(s, d);
  }

  // ---------------------------------------------------------------- the remaining steps

  lemma OrdersStep(s: State, orders: map<nat, Order>)
    requires Inv(s) && OrdersGrow(s.orders, orders)
    ensures Inv(s.(orders := orders)) && Advances(s, s.(orders := orders))
  {
  }

  lemma NewSigBacked(s: State, row: nat, t1: int)
    requires HonestAuth(s, row, t1) && s.fills[row].orderHash in s.orders
    ensures Backed(s, SwapperSignature(s, row, t1).auth)
  {
    assert Backs(s.fills[row], SwapperSignature(s, row, t1).auth);
  }

  /** Facts about rows and chains are the same in a state that has the same rows and chains. */
  lemma SameSupport(s: State, s': State)
    requires s'.fills == s.fills && s'.chains == s.chains && s'.orders == s.orders
    ensures RowsOk(s) ==> RowsOk(s')
    ensures SrcOk(s) ==> SrcOk(s')
    ensures forall auth :: Backed(s, auth) ==> Backed(s', auth)
    ensures forall t :: JobOk(s, t) ==> JobOk(s', t)
  {
  }

  lemma SameIsForward(s: State, s': State)
    requires s'.fills == s.fills && s'.chains == s.chains && s'.orders == s.orders && s.sigs <= s'.sigs
    ensures Advances(s, s')
  {
  }

  lemma SigsStay(s: State, s': State)
    requires s'.fills == s.fills && s'.chains == s.chains && s'.orders == s.orders && SigsOk(s)
    requires forall sig :: sig in s'.sigs ==> sig in s.sigs || Backed(s, sig.auth)
    ensures SigsOk(s')
  {
    SameSupport(s, s');
  }

  lemma SignStep(s: State, row: nat, t1: int)
    requires Inv(s) && HonestAuth(s, row, t1) && s.fills[row].orderHash in s.orders
    ensures var s' := s.(sigs := s.sigs + {SwapperSignature(s, row, t1)}); Inv(s') && Advances(s, s')
  {
    var s' := s.(sigs := s.sigs + {SwapperSignature(s, row, t1)});
    NewSigBacked(s, row, t1);
    SameSupport(s, s');
    SigsStay(s, s');
    SameIsForward(s, s');
    JobsStay(s, s');
  }

  /** The relayer's memory changed, and what it holds is right. */
  lemma JobsStep(s: State, jobs: map<nat, Job>)
    requires Inv(s) && JobsOk(s.(jobs := jobs))
    ensures Inv(s.(jobs := jobs)) && Advances(s, s.(jobs := jobs))
  {
    var s' := s.(jobs := jobs);
    SameSupport(s, s');
    SigsStay(s, s');
    SameIsForward(s, s');
  }

  lemma RelayReadStep(s: State, job: nat, row: nat, now: int)
    requires Inv(s) && Relays(s, row, now)
    ensures var s' := s.(jobs := s.jobs[job := JobFor(s.fills[row])]); Inv(s') && Advances(s, s')
  {
    ReadJobOk(s, row, now);
    SameSupport(s, s.(jobs := s.jobs[job := JobFor(s.fills[row])]));
    JobsStep(s, s.jobs[job := JobFor(s.fills[row])]);
  }

  lemma ReadJobOk(s: State, row: nat, now: int)
    requires RowsOk(s) && Relays(s, row, now)
    ensures JobOk(s, JobFor(s.fills[row]))
  {
  }

  lemma MinedJobOk(s: State, t: Job, tx: nat)
    requires JobOk(s, t) && t.escrow in s.chains.dst && s.chains.dst[t.escrow].state == Paid
             && s.chains.dst[t.escrow].claimTx == tx
    ensures JobOk(s, t.(tx := Some(tx)))
  {
  }

  lemma MinedJobsOk(s: State, job: nat, tx: nat)
    requires JobsOk(s) && job in s.jobs && s.jobs[job].escrow in s.chains.dst
    requires s.chains.dst[s.jobs[job].escrow].state == Paid && s.chains.dst[s.jobs[job].escrow].claimTx == tx
    ensures JobsOk(s.(jobs := s.jobs[job := s.jobs[job].(tx := Some(tx))]))
  {
    assert JobOk(s, s.jobs[job]);
    MinedJobOk(s, s.jobs[job], tx);
    SameSupport(s, s.(jobs := s.jobs[job := s.jobs[job].(tx := Some(tx))]));
  }

  lemma MinedJobStep(s: State, job: nat, tx: nat)
    requires Inv(s) && job in s.jobs && s.jobs[job].escrow in s.chains.dst
    requires s.chains.dst[s.jobs[job].escrow].state == Paid && s.chains.dst[s.jobs[job].escrow].claimTx == tx
    ensures var s' := s.(jobs := s.jobs[job := s.jobs[job].(tx := Some(tx))]); Inv(s') && Advances(s, s')
  {
    MinedJobsOk(s, job, tx);
    JobsStep(s, s.jobs[job := s.jobs[job].(tx := Some(tx))]);
  }

  lemma RelaySendStep(s: State, job: nat, tx: nat)
    requires Inv(s) && job in s.jobs && s.jobs[job].tx.None?
             && CanClaim(s.chains, s.jobs[job].escrow, s.jobs[job].secret)
    ensures Inv(Mined(s, job, tx)) && Advances(s, Mined(s, job, tx))
  {
    var escrow := s.jobs[job].escrow;
    SettleDstStep(s, escrow, Paid, tx);
    var mid := s.(chains := SettleDst(s.chains, escrow, Paid, tx));
    MinedJobStep(mid, job, tx);
    AdvancesTransitive(s, mid, Mined(s, job, tx));
  }

  lemma FewerJobsStep(s: State, jobs: map<nat, Job>)
    requires Inv(s) && forall id :: id in jobs ==> id in s.jobs && jobs[id] == s.jobs[id]
    ensures Inv(s.(jobs := jobs)) && Advances(s, s.(jobs := jobs))
  {
    SameSupport(s, s.(jobs := jobs));
    JobsStep(s, jobs);
  }

  // ---------------------------------------------------------------- steps made of two

  /** Numbering transactions changes nothing else. */
  lemma CounterStep(s: State, nextTx: nat)
    requires Inv(s)
    ensures Inv(s.(nextTx := nextTx)) && Advances(s, s.(nextTx := nextTx))
  {
    var s' := s.(nextTx := nextTx);
    SameRowsStayOk(s, s');
    SupportStays(s, s');
    JobsStay(s, s');
  }

  lemma CountedSettleDst(s: State, escrow: Address, state: Settlement, tx: nat)
    requires Inv(s) && escrow in s.chains.dst && s.chains.dst[escrow].state == Open
    requires state == Returned ==> s.chains.dst[escrow].expiry < s.chains.dstNow
    ensures var s' := s.(chains := SettleDst(s.chains, escrow, state, tx), nextTx := tx + 1); Inv(s') && Advances(s, s')
  {
    SettleDstStep(s, escrow, state, tx);
    var mid := s.(chains := SettleDst(s.chains, escrow, state, tx));
    CounterStep(mid, tx + 1);
    AdvancesTransitive(s, mid, mid.(nextTx := tx + 1));
  }

  lemma CountedRelaySend(s: State, job: nat, tx: nat)
    requires Inv(s) && job in s.jobs && s.jobs[job].tx.None?
             && CanClaim(s.chains, s.jobs[job].escrow, s.jobs[job].secret)
    ensures var s' := Mined(s, job, tx).(nextTx := tx + 1); Inv(s') && Advances(s, s')
  {
    RelaySendStep(s, job, tx);
    var mid := Mined(s, job, tx);
    CounterStep(mid, tx + 1);
    AdvancesTransitive(s, mid, mid.(nextTx := tx + 1));
  }

  lemma RelayRecordDone(s: State, job: nat)
    requires Inv(s) && job in s.jobs && s.jobs[job].tx.Some?
    ensures var t := s.jobs[job];
            var s' := s.(fills := Record(s.fills, t.orderHash, t.hashlock, ClaimSent(t.tx.value)),
                         jobs := s.jobs - {job});
            Inv(s') && Advances(s, s')
  {
    var t := s.jobs[job];
    RelayRecordStep(s, job);
    var mid := s.(fills := Record(s.fills, t.orderHash, t.hashlock, ClaimSent(t.tx.value)));
    FewerJobsStep(mid, s.jobs - {job});
    AdvancesTransitive(s, mid, mid.(jobs := s.jobs - {job}));
  }

  // ---------------------------------------------------------------- every step, every run

  /** s' is a state the protocol may reach from s. */
  ghost predicate Moves(s: State, s': State) {
    Inv(s') && Advances(s, s')
  }

  lemma ServiceEffect(s: State, step: Step, skew: nat)
    requires Inv(s) && (step.CreateIntent? || step.SignOrder? || step.QuoteFill? || step.SignFill? || step.SubmitSig?)
    requires Accepted(s, step, skew)
    ensures Moves(s, Effect(s, step, skew))
  {
    match step {
      case CreateIntent(orderHash, o) => OrdersStep(s, s.orders[orderHash := o.(signed := false)]);
      case SignOrder(orderHash) => OrdersStep(s, s.orders[orderHash := s.orders[orderHash].(signed := true)]);
      case QuoteFill(orderHash, quote) => QuoteStep(s, orderHash, quote);
      case SignFill(row, t1) => SignStep(s, row, t1);
      case SubmitSig(row, sig, newT1, now) => SubmitStep(s, row, sig, newT1, now);
    }
  }

  lemma SourceEffect(s: State, step: Step, skew: nat)
    requires Inv(s) && (step.FillSlot? || step.Withdraw? || step.Cancel? || step.ForeignLog?)
    requires Accepted(s, step, skew)
    ensures Moves(s, Effect(s, step, skew))
  {
    match step {
      case FillSlot(sig, filler) => FillSlotStep(s, sig, filler);
      case Withdraw(escrow, secret) =>
        assert escrow.SrcClone? && escrow.hashlock == s.chains.src[escrow].auth.hashlock;
        SettleSrcStep(s, escrow, Paid, Withdrawn(escrow, secret));
      case Cancel(escrow) =>
        assert escrow.SrcClone?;
        SettleSrcStep(s, escrow, Returned, Cancelled(escrow));
      case ForeignLog(e) => ForeignStep(s, e);
    }
  }

  lemma DestinationEffect(s: State, step: Step, skew: nat)
    requires Inv(s) && (step.DeployDst? || step.Claim? || step.Refund? || step.Tick?)
    requires Accepted(s, step, skew)
    ensures Moves(s, Effect(s, step, skew))
  {
    match step {
      case DeployDst(chain, hashlock, filler, recipient, token, amount, expiry) =>
        DeployStep(s, chain, hashlock, filler, DstEscrow(recipient, token, amount, expiry, Open, 0));
      case Claim(escrow, _) => CountedSettleDst(s, escrow, Paid, s.nextTx);
      case Refund(escrow) => CountedSettleDst(s, escrow, Returned, s.nextTx);
      case Tick(srcNow, dstNow) => ClockStep(s, srcNow, dstNow);
    }
  }

  lemma WatcherEffect(s: State, step: Step, skew: nat)
    requires Inv(s) && (step.SeeCreated? || step.SeeFilled? || step.SeeEscrowLog?)
    requires Accepted(s, step, skew)
    ensures Moves(s, Effect(s, step, skew))
  {
    match step {
      case SeeCreated(created, row) => CreatedStep(s, created, row);
      case SeeFilled(e) => FilledStep(s, e);
      case SeeEscrowLog(e, row) => EscrowLogStep(s, e, row);
    }
  }

  lemma RelayEffect(s: State, step: Step, skew: nat)
    requires Inv(s) && (step.RelayRead? || step.RelaySend? || step.RelayRecord? || step.RelayDrop? || step.Crash?)
    requires Accepted(s, step, skew)
    ensures Moves(s, Effect(s, step, skew))
  {
    match step {
      case RelayRead(job, row, now) => RelayReadStep(s, job, row, now);
      case RelaySend(job) => CountedRelaySend(s, job, s.nextTx);
      case RelayRecord(job) => RelayRecordDone(s, job);
      case RelayDrop(job) => FewerJobsStep(s, s.jobs - {job});
      case Crash => FewerJobsStep(s, map[]);
    }
  }

  lemma EffectKeepsInv(s: State, step: Step, skew: nat)
    requires Inv(s) && Accepted(s, step, skew)
    ensures Moves(s, Effect(s, step, skew))
  {
    match step {
      case CreateIntent(_, _) | SignOrder(_) | QuoteFill(_, _) | SignFill(_, _) | SubmitSig(_, _, _, _) =>
        ServiceEffect(s, step, skew);
      case FillSlot(_, _) | Withdraw(_, _) | Cancel(_) | ForeignLog(_) => SourceEffect(s, step, skew);
      case DeployDst(_, _, _, _, _, _, _) | Claim(_, _) | Refund(_) | Tick(_, _) => DestinationEffect(s, step, skew);
      case SeeCreated(_, _) | SeeFilled(_) | SeeEscrowLog(_, _) => WatcherEffect(s, step, skew);
      case RelayRead(_, _, _) | RelaySend(_) | RelayRecord(_) | RelayDrop(_) | Crash => RelayEffect(s, step, skew);
    }
  }

  lemma StandsStill(s: State)
    ensures Advances(s, s)
  {
  }

  lemma StepKeepsInv(s: State, step: Step, skew: nat)
    requires Inv(s)
    ensures Moves(s, Apply(s, step, skew))
  {
    if Accepted(s, step, skew) {
      EffectKeepsInv(s, step, skew);
    } else {
      StandsStill(s);
    }
  }

  lemma InitialInv(srcNow: int, dstNow: int)
    ensures Inv(Initial(srcNow, dstNow))
  {
  }

  lemma {:induction false} RunKeepsInv(s: State, steps: seq<Step>, skew: nat)
    requires Inv(s)
    ensures Moves(s, Run(s, steps, skew))
    decreases |steps|
  {
    if steps == [] {
      StandsStill(s);
    } else {
      var next := Apply(s, steps[0], skew);
      StepKeepsInv(s, steps[0], skew);
      RunKeepsInv(next, steps[1..], skew);
      AdvancesTransitive(s, next, Run(s, steps, skew));
    }
  }

  lemma RunEvolves(s: State, steps: seq<Step>, skew: nat, i: nat)
    requires Inv(s) && i < |s.fills|
    ensures i < |Run(s, steps, skew).fills| && Evolves(s.fills[i], Run(s, steps, skew).fills[i])
  {
    RunKeepsInv(s, steps, skew);
  }
}

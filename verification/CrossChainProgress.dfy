/**
 * What each step writes, field by field, and that the protocol gets somewhere: a quoted row can be carried to
 * claimed, with both legs paid out (backend/src/services/crosschainService.ts, chain/escrowSrcWatcher.ts,
 * chain/escrowDstWatcher.ts).
 */
module CrossChainProgress {
  import opened Wrappers
  import opened CrossChainStore
  import opened CrossChainProtocol
  import opened CrossChainSafety
  import opened CrossChainOutcomes
  import opened CrossChainSharing
  import opened CrossChainLocks

  // ---------------------------------------------------------------- what each step writes

  /** This row becomes g; every other row, and everything outside the table, stays. */
  function Replaced(s: State, i: nat, g: Fill): State
    requires i < |s.fills|
  {
    s.(fills := s.fills[i := g])
  }

  lemma OneRowRecord(fills: seq<Fill>, i: nat, e: Evidence)
    requires Unique(fills) && i < |fills|
    ensures Record(fills, fills[i].orderHash, fills[i].hashlock, e)
         == if Accepts(fills[i], e) then fills[i := With(fills[i], e)] else fills
  {
    var rows := Record(fills, fills[i].orderHash, fills[i].hashlock, e);
    forall j | 0 <= j < |fills| && j != i
      ensures rows[j] == fills[j]
    {
      KeysDiffer(fills, i, j);
      KeysDiffer(fills, j, i);
    }
  }

  lemma SeenLog(s: State, e: SrcEvent, row: nat, skew: nat)
    requires e in s.chains.srcLog && !e.Filled?
    ensures Apply(s, SeeEscrowLog(e, row), skew)
         == if row < |s.fills| && s.fills[row].srcAddr == Some(e.emitter)
            then s.(fills := Record(s.fills, s.fills[row].orderHash, s.fills[row].hashlock,
                                    if e.Withdrawn? then SecretOut(e.secret) else SrcCancelled))
            else s
  {
  }

  lemma OwnLog(s: State, row: nat, emitter: Address)
    requires Inv(s) && row < |s.fills| && s.fills[row].status == SrcLocked
    ensures s.fills[row].srcAddr == Some(emitter)
       <==> emitter == SrcClone(s.fills[row].orderHash, s.fills[row].hashlock)
  {
    assert RowOk(s.orders, s.chains, s.fills[row]);
  }

  lemma UnlockedHasNoLog(s: State, row: nat)
    requires Inv(s) && row < |s.fills| && s.fills[row].srcAddr.Some? && s.fills[row].status != SrcLocked
    ensures forall secret :: !Accepts(s.fills[row], SecretOut(secret))
    ensures !Accepts(s.fills[row], SrcCancelled)
  {
    assert RowOk(s.orders, s.chains, s.fills[row]);
  }

  /**
   * A log of an escrow, seen for a row: a locked row whose own escrow emitted it takes the secret and is revealed, or
   * is slashed. Any other row, and any other emitter, leaves the state as it was.
   */
  lemma EscrowLogWrites(s: State, e: SrcEvent, row: nat, skew: nat)
    requires Inv(s) && e in s.chains.srcLog && !e.Filled?
    ensures var s' := Apply(s, SeeEscrowLog(e, row), skew);
            if row < |s.fills| && s.fills[row].status == SrcLocked
               && e.emitter == SrcClone(s.fills[row].orderHash, s.fills[row].hashlock)
            then match e
                 case Withdrawn(_, secret) =>
                   s' == Replaced(s, row, s.fills[row].(status := Revealed, secret := Some(secret)))
                 case Cancelled(_) => s' == Replaced(s, row, s.fills[row].(status := Slashed))
            else s' == s
  {
    SeenLog(s, e, row, skew);
    if row < |s.fills| && s.fills[row].srcAddr == Some(e.emitter) {
      OneRowRecord(s.fills, row, if e.Withdrawn? then SecretOut(e.secret) else SrcCancelled);
      if s.fills[row].status == SrcLocked {
        OwnLog(s, row, e.emitter);
      } else {
        UnlockedHasNoLog(s, row);
      }
    } else if row < |s.fills| && s.fills[row].status == SrcLocked {
      OwnLog(s, row, e.emitter);
    }
  }

  /** The row a lock log speaks about: authorized, with this key, quoted by the filler that locked. */
  ghost predicate AwaitsLock(fills: seq<Fill>, i: nat, e: SrcEvent)
    requires e.Filled?
  {
    && i < |fills| && fills[i].status == Authorized
    && fills[i].orderHash == e.orderHash && fills[i].hashlock == e.hashlock && fills[i].filler == e.filler
  }

  lemma LoggedLockIsGenuine(s: State, e: SrcEvent)
    requires Inv(s) && e in s.chains.srcLog && e.Filled?
    ensures e.escrow == SrcClone(e.orderHash, e.hashlock) && e.escrow in s.chains.src
  {
    assert EventOk(s.chains, e);
  }

  lemma SeenLock(s: State, e: SrcEvent, skew: nat)
    requires e in s.chains.srcLog && e.Filled?
    requires e.escrow == SrcClone(e.orderHash, e.hashlock) && e.escrow in s.chains.src
    ensures Apply(s, SeeFilled(e), skew)
         == s.(fills :=
               Record(s.fills, e.orderHash, e.hashlock, SrcFilled(SrcClone(e.orderHash, e.hashlock), e.filler)))
  {
  }

  lemma AwaitingRowIsLocked(fills: seq<Fill>, i: nat, e: SrcEvent)
    requires Unique(fills) && e.Filled? && AwaitsLock(fills, i, e)
    ensures Record(fills, e.orderHash, e.hashlock, SrcFilled(SrcClone(e.orderHash, e.hashlock), e.filler))
         == fills[i := fills[i].(status := SrcLocked, srcAddr := Some(SrcClone(e.orderHash, e.hashlock)))]
  {
    OneRowRecord(fills, i, SrcFilled(SrcClone(e.orderHash, e.hashlock), e.filler));
  }

  lemma NoneAwaits(fills: seq<Fill>, e: SrcEvent)
    requires e.Filled? && forall i: nat :: !AwaitsLock(fills, i, e)
    ensures Record(fills, e.orderHash, e.hashlock, SrcFilled(SrcClone(e.orderHash, e.hashlock), e.filler)) == fills
  {
    var rows := Record(fills, e.orderHash, e.hashlock, SrcFilled(SrcClone(e.orderHash, e.hashlock), e.filler));
    forall i | 0 <= i < |fills|
      ensures rows[i] == fills[i]
    {
      assert !AwaitsLock(fills, i, e);
    }
  }

  /** A lock log: the authorized row of that key and filler takes the clone and is locked; without one, nothing. */
  lemma LockLogWrites(s: State, e: SrcEvent, skew: nat)
    requires Inv(s) && e in s.chains.srcLog && e.Filled?
    ensures forall i: nat :: AwaitsLock(s.fills, i, e) ==>
              Apply(s, SeeFilled(e), skew)
              == Replaced(s, i, s.fills[i].(status := SrcLocked, srcAddr := Some(SrcClone(e.orderHash, e.hashlock))))
    ensures (forall i: nat :: !AwaitsLock(s.fills, i, e)) ==> Apply(s, SeeFilled(e), skew) == s
  {
    LoggedLockIsGenuine(s, e);
    SeenLock(s, e, skew);
    if i: nat :| AwaitsLock(s.fills, i, e) {
      forall i: nat | AwaitsLock(s.fills, i, e)
        ensures Apply(s, SeeFilled(e), skew)
             == Replaced(s, i, s.fills[i].(status := SrcLocked, srcAddr := Some(SrcClone(e.orderHash, e.hashlock))))
      {
        AwaitingRowIsLocked(s.fills, i, e);
      }
    } else {
      NoneAwaits(s.fills, e);
    }
  }

  /** The escrow the log announces is deployed, on the order's chain, with everything the row committed to. */
  ghost predicate Delivers(s: State, row: nat, e: DstEvent) {
    && row < |s.fills| && s.fills[row].orderHash in s.orders && s.fills[row].hashlock == e.hashlock
    && e.escrow == DstClone(e.chain, e.hashlock, e.filler) && e.escrow in s.chains.dst
    && var o, terms := s.orders[s.fills[row].orderHash], s.chains.dst[e.escrow];
       && e.chain == o.dstChain && terms.recipient == o.swapper && terms.token == o.outputToken
       && s.fills[row].fillAmount <= terms.amount && terms.expiry == s.fills[row].t2
  }

  /** A creation log: a quoted row is funded by an escrow that delivers what it committed to, and by no other. */
  lemma CreationWrites(s: State, e: DstEvent, row: nat, skew: nat)
    requires Inv(s) && e in s.chains.dstLog
    ensures Apply(s, SeeCreated(e, row), skew)
         == if Delivers(s, row, e) && s.fills[row].status == Quoted
            then Replaced(s, row, s.fills[row].(status := DstFunded, dstAddr := Some(e.escrow)))
            else s
  {
    if row < |s.fills| && s.fills[row].hashlock == e.hashlock {
      OneRowRecord(s.fills, row, DstVerified(e.escrow));
    }
  }

  /** What the swapper must have signed to authorize the row at this deadline. */
  ghost predicate SignsRow(s: State, row: nat, sig: Signature, t1: int) {
    && row < |s.fills| && s.fills[row].orderHash in s.orders && sig.signer == s.orders[s.fills[row].orderHash].swapper
    && sig.auth == Auth(s.fills[row].orderHash, s.fills[row].hashlock, s.fills[row].fillAmount, t1, s.fills[row].t2)
  }

  /** The deadline that is kept, or an earlier whole second still ahead. */
  ghost predicate MayShorten(newT1: Option<real>, t1: int, now: int, signedT1: int) {
    if newT1.None? || newT1.value == t1 as real then signedT1 == t1
    else newT1.value == signedT1 as real && now < signedT1 < t1
  }

  /** A submitted signature: a funded row is authorized for the signed deadline exactly when the swapper signed it. */
  lemma SignatureWrites(s: State, row: nat, sig: Signature, newT1: Option<real>, now: int, skew: nat)
    ensures var s' := Apply(s, SubmitSig(row, sig, newT1, now), skew);
            if sig in s.sigs && SignsRow(s, row, sig, sig.auth.t1) && s.fills[row].status == DstFunded
               && MayShorten(newT1, s.fills[row].t1, now, sig.auth.t1)
            then s' == Replaced(s, row, s.fills[row].(status := Authorized, t1 := sig.auth.t1, swapperSig := Some(sig)))
            else s' == s
  {
  }

  /** A quote is taken exactly when its order is signed, its two deadlines are in order and its key is new. */
  lemma QuoteWrites(s: State, orderHash: nat, q: Quote, skew: nat)
    ensures var s' := Apply(s, QuoteFill(orderHash, q), skew);
            if orderHash in s.orders && s.orders[orderHash].signed
               && q.t1 < q.t2 && q.t1 <= s.orders[orderHash].deadlineBase
               && (forall i :: 0 <= i < |s.fills| ==>
                     !(s.fills[i].orderHash == orderHash && s.fills[i].hashlock == q.hashlock))
            then s' == s.(fills := s.fills + [Fill(orderHash, q.filler, q.fillAmount, q.hashlock, q.t1, q.t2, Quoted,
                                                   None, None, None, None, None)])
            else s' == s
  {
    if f :| f in s.fills && Matches(f, orderHash, q.hashlock) {
      var i :| 0 <= i < |s.fills| && s.fills[i] == f;
      assert Matches(s.fills[i], orderHash, q.hashlock);
    }
    forall i | 0 <= i < |s.fills|
      ensures Matches(s.fills[i], orderHash, q.hashlock) ==>
                exists f :: f in s.fills && Matches(f, orderHash, q.hashlock)
    {
      assert s.fills[i] in s.fills;
    }
  }

  /** A mined claim: the revealed row it was read from is claimed with its transaction, and the job is done. */
  lemma ClaimWrites(s: State, job: nat, skew: nat) returns (i: nat)
    requires Inv(s) && job in s.jobs && s.jobs[job].tx.Some?
    ensures i < |s.fills| && s.fills[i].orderHash == s.jobs[job].orderHash
            && s.fills[i].hashlock == s.jobs[job].hashlock
    ensures Rank(s.fills[i].status) >= Rank(Revealed)
    ensures Apply(s, RelayRecord(job), skew)
         == Replaced(s, i, s.fills[i].(status := Claimed, claimTx := s.jobs[job].tx)).(jobs := s.jobs - {job})
  {
    i := MinedJobRow(s, job);
    RecordedClaim(s, job, skew);
    PendingWrites(s.fills, i, s.jobs[job]);
    PendingIsLate(s, job, i);
  }

  lemma RecordedClaim(s: State, job: nat, skew: nat)
    requires job in s.jobs && s.jobs[job].tx.Some?
    ensures Apply(s, RelayRecord(job), skew)
         == s.(fills := Record(s.fills, s.jobs[job].orderHash, s.jobs[job].hashlock, ClaimSent(s.jobs[job].tx.value)),
               jobs := s.jobs - {job})
  {
  }

  lemma PendingIsLate(s: State, job: nat, i: nat)
    requires ClaimPending(s, job, i)
    ensures Rank(s.fills[i].status) >= Rank(Revealed)
  {
  }

  lemma PendingWrites(fills: seq<Fill>, i: nat, t: Job)
    requires Unique(fills) && i < |fills| && Matches(fills[i], t.orderHash, t.hashlock) && t.tx.Some?
    requires fills[i].status == Revealed || (fills[i].status == Claimed && fills[i].claimTx == t.tx)
    ensures Record(fills, t.orderHash, t.hashlock, ClaimSent(t.tx.value))
         == fills[i := fills[i].(status := Claimed, claimTx := t.tx)]
  {
    OneRowRecord(fills, i, ClaimSent(t.tx.value));
  }

  /**
   * An open source escrow settles in one of two ways, never both: by its secret up to t1, paying its filler, or by
   * anyone after t1, paying the swapper back and freeing the amount; either way once, and logged.
   */
  lemma LockSettles(s: State, a: Address, secret: nat, skew: nat)
    requires a in s.chains.src
    ensures var e := s.chains.src[a];
            && (Accepted(s, Withdraw(a, secret), skew)
                <==> e.state == Open && s.chains.srcNow <= e.auth.t1 && e.auth.hashlock == HashOf(secret))
            && (Accepted(s, Cancel(a), skew) <==> e.state == Open && e.auth.t1 < s.chains.srcNow)
            && (Accepted(s, Withdraw(a, secret), skew) ==>
                  Apply(s, Withdraw(a, secret), skew)
                  == s.(chains := s.chains.(src := s.chains.src[a := e.(state := Paid)],
                                            srcLog := s.chains.srcLog + {Withdrawn(a, secret)})))
            && (Accepted(s, Cancel(a), skew) ==>
                  var c := Apply(s, Cancel(a), skew).chains;
                  && Apply(s, Cancel(a), skew) == s.(chains := c)
                  && c == s.chains.(src := s.chains.src[a := e.(state := Returned)],
                                    srcLog := s.chains.srcLog + {Cancelled(a)}, reserved := c.reserved))
  {
  }

  /**
   * A destination escrow is deployed once per filler, funded and with its expiry ahead; open, it settles by its secret
   * up to its expiry, paying its recipient, or after it, paying the filler back.
   */
  lemma LegSettles(s: State, a: Address, secret: nat, skew: nat)
    requires a in s.chains.dst && a.DstClone?
    ensures var e := s.chains.dst[a];
            && (Accepted(s, Claim(a, secret), skew)
                <==> e.state == Open && s.chains.dstNow <= e.expiry && a.hashlock == HashOf(secret))
            && (Accepted(s, Refund(a), skew) <==> e.state == Open && e.expiry < s.chains.dstNow)
            && (Accepted(s, Claim(a, secret), skew) ==>
                  Apply(s, Claim(a, secret), skew)
                  == s.(chains := s.chains.(dst := s.chains.dst[a := e.(state := Paid, claimTx := s.nextTx)]),
                        nextTx := s.nextTx + 1))
            && (Accepted(s, Refund(a), skew) ==>
                  Apply(s, Refund(a), skew)
                  == s.(chains := s.chains.(dst := s.chains.dst[a := e.(state := Returned, claimTx := s.nextTx)]),
                        nextTx := s.nextTx + 1))
            && !Accepted(s, DeployDst(a.chain, a.hashlock, a.filler, e.recipient, e.token, e.amount, e.expiry), skew)
  {
  }

  // ---------------------------------------------------------------- from quoted to claimed

  /** The source chain, the orders, the relayer and both clocks are as they were. */
  ghost predicate SourceAsBefore(s: State, s': State) {
    && s'.orders == s.orders && s'.chains.src == s.chains.src && s'.chains.reserved == s.chains.reserved
    && s'.chains.srcNow == s.chains.srcNow && s'.chains.dstNow == s.chains.dstNow
  }

  lemma FundingDeploys(s: State, skew: nat, i: nat, id: nat)
    requires Inv(s) && i < |s.fills| && s.fills[i].orderHash in s.orders
    requires s.chains.dstNow < s.fills[i].t2 && 0 < s.fills[i].fillAmount
    requires DstClone(s.orders[s.fills[i].orderHash].dstChain, s.fills[i].hashlock, Account(id)) !in s.chains.dst
    ensures var f, o := s.fills[i], s.orders[s.fills[i].orderHash];
            var s1 := Apply(s, DeployDst(o.dstChain, f.hashlock, Account(id), o.swapper, o.outputToken, f.fillAmount,
                                         f.t2), skew);
            && s1.fills == s.fills && SourceAsBefore(s, s1)
            && Delivers(s1, i, Creation(DstClone(o.dstChain, f.hashlock, Account(id))))
            && Creation(DstClone(o.dstChain, f.hashlock, Account(id))) in s1.chains.dstLog
            && s1.chains.dst[DstClone(o.dstChain, f.hashlock, Account(id))].state == Open
  {
  }

  /** A quoted row can be funded while t2 is ahead: some account deploys what it committed to. */
  lemma QuotedCanBeFunded(s: State, skew: nat, i: nat) returns (steps: seq<Step>, escrow: Address)
    requires Inv(s) && i < |s.fills| && s.fills[i].status == Quoted
    requires s.chains.dstNow < s.fills[i].t2 && 0 < s.fills[i].fillAmount
    ensures var s' := Run(s, steps, skew);
            && s'.fills == s.fills[i := s.fills[i].(status := DstFunded, dstAddr := Some(escrow))]
            && SourceAsBefore(s, s') && escrow in s'.chains.dst && s'.chains.dst[escrow].state == Open
  {
    assert RowOk(s.orders, s.chains, s.fills[i]);
    var f, o := s.fills[i], s.orders[s.fills[i].orderHash];
    var id := FreshFiller(s.chains);
    escrow := DstClone(o.dstChain, f.hashlock, Account(id));
    steps := [DeployDst(o.dstChain, f.hashlock, Account(id), o.swapper, o.outputToken, f.fillAmount, f.t2),
              SeeCreated(Creation(escrow), i)];
    FundingDeploys(s, skew, i, id);
    StepKeepsInv(s, steps[0], skew);
    CreationWrites(Apply(s, steps[0], skew), Creation(escrow), i, skew);
    RunTwo(s, steps, skew);
  }

  /** A funded row can always be authorized: the swapper signs its terms. */
  lemma FundedCanBeAuthorized(s: State, skew: nat, i: nat) returns (steps: seq<Step>, sig: Signature)
    requires Inv(s) && i < |s.fills| && s.fills[i].status == DstFunded
    ensures Run(s, steps, skew)
         == Replaced(s, i, s.fills[i].(status := Authorized, swapperSig := Some(sig))).(sigs := s.sigs + {sig})
  {
    assert RowOk(s.orders, s.chains, s.fills[i]);
    sig := SwapperSignature(s, i, s.fills[i].t1);
    steps := [SignFill(i, s.fills[i].t1), SubmitSig(i, sig, None, s.chains.srcNow)];
    var s1 := s.(sigs := s.sigs + {sig});
    assert Apply(s, steps[0], skew) == s1;
    StepKeepsInv(s, steps[0], skew);
    SignatureWrites(s1, i, sig, None, s.chains.srcNow, skew);
    RunTwo(s, steps, skew);
  }

  /** The order still has the row's amount, and the row's lock deadline is ahead. */
  ghost predicate CanStillLock(s: State, i: nat) {
    && i < |s.fills| && s.fills[i].orderHash in s.orders && s.chains.srcNow < s.fills[i].t1 && 0 < s.fills[i].fillAmount
    && Reserved(s.chains, s.fills[i].orderHash) + s.fills[i].fillAmount <= s.orders[s.fills[i].orderHash].inputAmount
  }

  /** Locked by the row's own filler, with the secret not out yet. */
  ghost predicate LockedOpen(s: State, i: nat) {
    && i < |s.fills| && s.fills[i].status == SrcLocked && LockedFor(s, i, s.fills[i].filler)
    && s.chains.src[SlotOf(s.fills[i])].state == Open && s.chains.srcNow <= s.chains.src[SlotOf(s.fills[i])].auth.t1
    && s.chains.src[SlotOf(s.fills[i])].auth.hashlock == s.fills[i].hashlock
  }

  lemma SlotFills(s: State, skew: nat, i: nat)
    requires Inv(s) && CanStillLock(s, i) && s.fills[i].status == Authorized
    requires s.fills[i].swapperSig.Some? && s.fills[i].swapperSig.value in s.sigs
    requires SlotOf(s.fills[i]) !in s.chains.src
    ensures Apply(s, FillSlot(s.fills[i].swapperSig.value, s.fills[i].filler), skew)
         == s.(chains := FilledSlot(s.chains, s.fills[i].swapperSig.value.auth, s.fills[i].filler))
    ensures s.fills[i].swapperSig.value == Authorizes(s.orders[s.fills[i].orderHash].swapper, s.fills[i])
  {
    assert RowOk(s.orders, s.chains, s.fills[i]);
  }

  /** An authorized row whose slot is free can be locked by its own filler, and shows it. */
  lemma AuthorizedCanBeLocked(s: State, skew: nat, i: nat) returns (steps: seq<Step>)
    requires Inv(s) && CanStillLock(s, i) && s.fills[i].status == Authorized
    requires s.fills[i].swapperSig.Some? && s.fills[i].swapperSig.value in s.sigs
    requires SlotOf(s.fills[i]) !in s.chains.src
    ensures var s' := Run(s, steps, skew);
            && s'.fills == s.fills[i := s.fills[i].(status := SrcLocked, srcAddr := Some(SlotOf(s.fills[i])))]
            && LockedOpen(s', i) && s'.chains.dst == s.chains.dst && s'.chains.dstNow == s.chains.dstNow
  {
    var f := s.fills[i];
    var e := Filled(f.orderHash, f.hashlock, f.filler, SlotOf(f));
    steps := [FillSlot(f.swapperSig.value, f.filler), SeeFilled(e)];
    var s1 := Apply(s, steps[0], skew);
    SlotFills(s, skew, i);
    StepKeepsInv(s, steps[0], skew);
    LockLogWrites(s1, e, skew);
    assert AwaitsLock(s1.fills, i, e);
    RunTwo(s, steps, skew);
  }

  /** A locked row can be revealed by whoever holds the secret, up to its deadline; the lock pays the filler. */
  lemma LockedCanBeRevealed(s: State, skew: nat, i: nat, secret: nat) returns (steps: seq<Step>)
    requires Inv(s) && LockedOpen(s, i) && s.fills[i].hashlock == HashOf(secret)
    ensures var s' := Run(s, steps, skew);
            && s'.fills == s.fills[i := s.fills[i].(status := Revealed, secret := Some(secret))]
            && s'.chains.dst == s.chains.dst && s'.chains.dstNow == s.chains.dstNow
            && s'.chains.src == s.chains.src[SlotOf(s.fills[i]) := s.chains.src[SlotOf(s.fills[i])].(state := Paid)]
  {
    var slot := SlotOf(s.fills[i]);
    var e := Withdrawn(slot, secret);
    steps := [Withdraw(slot, secret), SeeEscrowLog(e, i)];
    LockWithdraws(s, skew, i, secret);
    StepKeepsInv(s, steps[0], skew);
    EscrowLogWrites(s.(chains := SettleSrc(s.chains, slot, Paid, e)), e, i, skew);
    RunTwo(s, steps, skew);
  }

  lemma LockWithdraws(s: State, skew: nat, i: nat, secret: nat)
    requires LockedOpen(s, i) && s.fills[i].hashlock == HashOf(secret)
    ensures var slot := SlotOf(s.fills[i]);
            Apply(s, Withdraw(slot, secret), skew)
            == s.(chains := SettleSrc(s.chains, slot, Paid, Withdrawn(slot, secret)))
  {
  }

  /** Claimed, the source paid to the row's filler and the destination to the swapper. */
  ghost predicate Completed(s: State, i: nat) {
    && i < |s.fills| && s.fills[i].status == Claimed && s.fills[i].orderHash in s.orders
    && LockedFor(s, i, s.fills[i].filler) && s.chains.src[SlotOf(s.fills[i])].state == Paid
    && s.fills[i].dstAddr.Some? && s.fills[i].dstAddr.value in s.chains.dst
    && var o, leg := s.orders[s.fills[i].orderHash], s.chains.dst[s.fills[i].dstAddr.value];
       && leg.state == Paid && leg.recipient == o.swapper && leg.token == o.outputToken
       && s.fills[i].fillAmount <= leg.amount && s.fills[i].claimTx == Some(leg.claimTx)
  }

  lemma ClaimedIsCompleted(s: State, i: nat)
    requires Inv(s) && i < |s.fills| && s.fills[i].status == Claimed
    ensures Completed(s, i)
  {
    assert RowOk(s.orders, s.chains, s.fills[i]);
  }

  lemma RevealedCanBeClaimed(s: State, skew: nat, i: nat) returns (steps: seq<Step>)
    requires Inv(s) && i < |s.fills| && s.fills[i].status == Revealed && s.chains.dstNow <= s.fills[i].t2
    requires s.fills[i].dstAddr.Some? && s.fills[i].dstAddr.value in s.chains.dst
    requires s.chains.dst[s.fills[i].dstAddr.value].state == Open
    ensures Completed(Run(s, steps, skew), i)
  {
    var job := FreshId(s.jobs.Keys);
    steps := [RelayRead(job, i, s.chains.dstNow)] + [RelaySend(job), RelayRecord(job)];
    FreshPassClaims(s, skew, i, job);
    RunKeepsInv(s, steps, skew);
    ClaimedIsCompleted(Run(s, steps, skew), i);
  }

  /** Nobody can have taken the slot of a row the swapper has not signed for. */
  lemma QuotedSlotIsFree(s: State, i: nat)
    requires Inv(s) && i < |s.fills| && s.fills[i].status == Quoted
    ensures SlotOf(s.fills[i]) !in s.chains.src
  {
    if SlotOf(s.fills[i]) in s.chains.src {
      assert Backed(s, s.chains.src[SlotOf(s.fills[i])].auth);
      var j :| 0 <= j < |s.fills| && Backs(s.fills[j], s.chains.src[SlotOf(s.fills[i])].auth);
      OnlyRow(s.fills, i, s.fills[j]);
    }
  }

  /** A quoted row whose deadlines are ahead and whose amount is left can be carried to the end, both legs paid. */
  lemma QuotedCanBeCompleted(s: State, skew: nat, i: nat) returns (steps: seq<Step>)
    requires Inv(s) && CanStillLock(s, i) && s.fills[i].status == Quoted && s.chains.dstNow < s.fills[i].t2
    ensures Completed(Run(s, steps, skew), i)
  {
    QuotedSlotIsFree(s, i);
    var a, escrow := QuotedCanBeFunded(s, skew, i);
    var s1 := Run(s, a, skew);
    RunKeepsInv(s, a, skew);
    var b, sig := FundedCanBeAuthorized(s1, skew, i);
    var s2 := Run(s1, b, skew);
    RunKeepsInv(s1, b, skew);
    var c := AuthorizedCanBeCompleted(s2, skew, i);
    RunConcat(s1, b, c, skew);
    RunConcat(s, a, b + c, skew);
    steps := a + (b + c);
  }

  lemma AuthorizedCanBeCompleted(s: State, skew: nat, i: nat) returns (steps: seq<Step>)
    requires Inv(s) && CanStillLock(s, i) && s.fills[i].status == Authorized
    requires s.fills[i].swapperSig.Some? && s.fills[i].swapperSig.value in s.sigs
    requires SlotOf(s.fills[i]) !in s.chains.src && s.chains.dstNow <= s.fills[i].t2
    requires s.fills[i].dstAddr.Some? && s.fills[i].dstAddr.value in s.chains.dst
    requires s.chains.dst[s.fills[i].dstAddr.value].state == Open
    ensures Completed(Run(s, steps, skew), i)
  {
    var a := AuthorizedCanBeLocked(s, skew, i);
    var s1 := Run(s, a, skew);
    RunKeepsInv(s, a, skew);
    var b := LockedCanBeRevealed(s1, skew, i, s1.fills[i].hashlock.preimage);
    var s2 := Run(s1, b, skew);
    RunKeepsInv(s1, b, skew);
    var c := RevealedCanBeClaimed(s2, skew, i);
    RunConcat(s1, b, c, skew);
    RunConcat(s, a, b + c, skew);
    steps := a + (b + c);
  }

  // ---------------------------------------------------------------- exactly when

  /** Once the slot is taken, it was taken after this time, for an amount the order has. */
  ghost predicate TimelyLock(s: State, since: int, slot: Address) {
    && since <= s.chains.srcNow
    && (slot in s.chains.src ==>
          && since < s.chains.src[slot].auth.t1 && s.chains.src[slot].auth.orderHash in s.orders
          && 0 < s.chains.src[slot].auth.fillAmount
             <= s.orders[s.chains.src[slot].auth.orderHash].inputAmount)
  }

  lemma StepKeepsTimely(s: State, step: Step, skew: nat, since: int, slot: Address)
    requires Inv(s) && TimelyLock(s, since, slot)
    ensures TimelyLock(Apply(s, step, skew), since, slot)
  {
    StepKeepsInv(s, step, skew);
    if Accepted(s, step, skew) && step.FillSlot? {
      FillSlotIsTimely(s, step.sig, step.filler, skew, since, slot);
    } else {
      SrcAfterOther(s, step, skew, slot);
    }
  }

  lemma FillSlotIsTimely(s: State, sig: Signature, filler: Address, skew: nat, since: int, slot: Address)
    requires TimelyLock(s, since, slot) && CanFillSlot(s, sig)
    ensures TimelyLock(Apply(s, FillSlot(sig, filler), skew), since, slot)
  {
    assert Apply(s, FillSlot(sig, filler), skew) == s.(chains := FilledSlot(s.chains, sig.auth, filler));
  }

  lemma SrcAfterOther(s: State, step: Step, skew: nat, slot: Address)
    requires !(Accepted(s, step, skew) && step.FillSlot?)
    ensures var c := Apply(s, step, skew).chains;
            slot in c.src ==> slot in s.chains.src && c.src[slot].auth == s.chains.src[slot].auth
  {
  }

  lemma {:induction false} RunKeepsTimely(s: State, steps: seq<Step>, skew: nat, since: int, slot: Address)
    requires Inv(s) && TimelyLock(s, since, slot)
    ensures TimelyLock(Run(s, steps, skew), since, slot)
    decreases |steps|
  {
    if steps != [] {
      StepKeepsTimely(s, steps[0], skew, since, slot);
      StepKeepsInv(s, steps[0], skew);
      RunKeepsTimely(Apply(s, steps[0], skew), steps[1..], skew, since, slot);
    }
  }

  /** The terms the row's slot was locked for are the row's. */
  lemma LockIsForTheRow(s: State, i: nat)
    requires Inv(s) && i < |s.fills| && SlotOf(s.fills[i]) in s.chains.src
    ensures s.chains.src[SlotOf(s.fills[i])].auth.fillAmount == s.fills[i].fillAmount
    ensures s.chains.src[SlotOf(s.fills[i])].auth.orderHash == s.fills[i].orderHash
    ensures s.chains.src[SlotOf(s.fills[i])].auth.hashlock == s.fills[i].hashlock
  {
    var auth := s.chains.src[SlotOf(s.fills[i])].auth;
    assert Backed(s, auth);
    var j :| 0 <= j < |s.fills| && Backs(s.fills[j], auth);
    OnlyRow(s.fills, i, s.fills[j]);
  }

  lemma CompletedNeeds(s: State, steps: seq<Step>, skew: nat, i: nat)
    requires Inv(s) && i < |s.fills| && s.fills[i].status == Quoted && Completed(Run(s, steps, skew), i)
    requires forall escrow :: !Fits(s, i, escrow)
    ensures s.fills[i].orderHash in s.orders
    ensures s.chains.srcNow < s.fills[i].t1 && s.chains.dstNow < s.fills[i].t2
    ensures 0 < s.fills[i].fillAmount <= s.orders[s.fills[i].orderHash].inputAmount
  {
    var s', slot := Run(s, steps, skew), SlotOf(s.fills[i]);
    assert RowOk(s.orders, s.chains, s.fills[i]);
    RunKeepsInv(s, steps, skew);
    RunEvolves(s, steps, skew, i);
    QuotedSlotIsFree(s, i);
    RunKeepsTimely(s, steps, skew, s.chains.srcNow, slot);
    LockIsForTheRow(s', i);
    QuotedRowIsUnsigned(s, i);
    DeadlineRun(s, steps, skew, i, s.fills[i].t1);
    FitsBefore(s, s', i);
    DeployedInTime(s, steps, skew, s'.fills[i].dstAddr.value);
  }

  ghost predicate Completes(s: State, steps: seq<Step>, skew: nat, i: nat) {
    Completed(Run(s, steps, skew), i)
  }

  /**
   * In every state of every run: a quoted row of an order with nothing reserved, and with no escrow deployed that fits
   * it, can be completed exactly when t1 and t2 are both ahead and its amount is positive and within the order.
   */
  lemma QuotedCompletesIff(s: State, skew: nat, i: nat)
    requires Inv(s) && i < |s.fills| && s.fills[i].status == Quoted
    requires forall escrow :: !Fits(s, i, escrow)
    requires Reserved(s.chains, s.fills[i].orderHash) == 0
    ensures s.fills[i].orderHash in s.orders
    ensures (exists steps :: Completes(s, steps, skew, i))
        <==> s.chains.srcNow < s.fills[i].t1 && s.chains.dstNow < s.fills[i].t2
             && 0 < s.fills[i].fillAmount <= s.orders[s.fills[i].orderHash].inputAmount
  {
    assert RowOk(s.orders, s.chains, s.fills[i]);
    if s.chains.srcNow < s.fills[i].t1 && s.chains.dstNow < s.fills[i].t2
       && 0 < s.fills[i].fillAmount <= s.orders[s.fills[i].orderHash].inputAmount {
      var steps := QuotedCanBeCompleted(s, skew, i);
      assert Completes(s, steps, skew, i);
    }
    if steps :| Completes(s, steps, skew, i) {
      CompletedNeeds(s, steps, skew, i);
    }
  }

  // ---------------------------------------------------------------- from nothing

  /** An order is created, signed and quoted. */
  function Opening(orderHash: nat, o: Order, q: Quote): seq<Step> {
    [CreateIntent(orderHash, o), SignOrder(orderHash)] + [QuoteFill(orderHash, q)]
  }

  lemma OpeningQuotes(srcNow: int, dstNow: int, orderHash: nat, o: Order, q: Quote, skew: nat)
    requires q.t1 < q.t2 && q.t1 <= o.deadlineBase
    ensures Run(Initial(srcNow, dstNow), Opening(orderHash, o, q), skew)
         == Initial(srcNow, dstNow).(orders := map[orderHash := o.(signed := true)],
                                     fills := [Fill(orderHash, q.filler, q.fillAmount, q.hashlock, q.t1, q.t2, Quoted,
                                                    None, None, None, None, None)])
  {
    var s0 := Initial(srcNow, dstNow);
    var first := [CreateIntent(orderHash, o), SignOrder(orderHash)];
    RunTwo(s0, first, skew);
    var s1 := s0.(orders := map[orderHash := o.(signed := true)]);
    assert Run(s0, first, skew) == s1;
    QuoteWrites(s1, orderHash, q, skew);
    RunOne(s1, QuoteFill(orderHash, q), skew);
    RunConcat(s0, first, [QuoteFill(orderHash, q)], skew);
  }

  /**
   * From nothing, for every order and every quote the service takes: some run that opens with them ends with the row
   * claimed, the filler paid on the source and the swapper on the destination, exactly when the lock deadline and the
   * expiry are ahead and the amount is positive and within the order.
   */
  lemma QuoteCompletesIff(srcNow: int, dstNow: int, orderHash: nat, o: Order, q: Quote, skew: nat)
    requires q.t1 < q.t2 && q.t1 <= o.deadlineBase
    ensures (exists more :: Completes(Initial(srcNow, dstNow), Opening(orderHash, o, q) + more, skew, 0))
        <==> srcNow < q.t1 && dstNow < q.t2 && 0 < q.fillAmount <= o.inputAmount
  {
    var s0, opening := Initial(srcNow, dstNow), Opening(orderHash, o, q);
    var s := Run(s0, opening, skew);
    OpeningQuotes(srcNow, dstNow, orderHash, o, q, skew);
    InitialInv(srcNow, dstNow);
    RunKeepsInv(s0, opening, skew);
    QuotedCompletesIff(s, skew, 0);
    forall more
      ensures Completes(s0, opening + more, skew, 0) <==> Completes(s, more, skew, 0)
    {
      RunConcat(s0, opening, more, skew);
    }
  }

  // ---------------------------------------------------------------- a crash of the relayer

  /** What the relayer remembers no more: all of it after a crash, one job after giving that one up. */
  function Forgotten(s: State, step: Step): map<nat, Job>
    requires step.Crash? || step.RelayDrop?
  {
    if step.Crash? then map[] else s.jobs - {step.job}
  }

  /**
   * A relayer that crashes, or gives a job up, between a mined claim and its recording loses the transaction for good:
   * unless another job that mined a claim for the row is left, it stays revealed in every continuation, although the
   * swapper was paid.
   */
  lemma ForgettingStrandsMinedClaim(s: State, i: nat, step: Step, more: seq<Step>, skew: nat)
    requires Inv(s) && i < |s.fills| && s.fills[i].status == Revealed && (step.Crash? || step.RelayDrop?)
    requires s.fills[i].dstAddr.Some? && s.fills[i].dstAddr.value in s.chains.dst
    requires s.chains.dst[s.fills[i].dstAddr.value].state != Open && NoneMined(s.fills[i], Forgotten(s, step))
    ensures !Completes(s, [step] + more, skew, i)
  {
    ForgettingStrands(s, i, step, skew);
    StepKeepsInv(s, step, skew);
    var s1 := Apply(s, step, skew);
    StrandedNeverClaims(s1, skew, i);
    assert !ReachesClaimed(s1, more, skew, i);
    RunReads(s, s1, step, more, skew);
  }

  lemma ForgettingStrands(s: State, i: nat, step: Step, skew: nat)
    requires i < |s.fills| && s.fills[i].status == Revealed && (step.Crash? || step.RelayDrop?)
    requires s.fills[i].dstAddr.Some? && s.fills[i].dstAddr.value in s.chains.dst
    requires s.chains.dst[s.fills[i].dstAddr.value].state != Open && NoneMined(s.fills[i], Forgotten(s, step))
    ensures Stranded(Apply(s, step, skew), i)
  {
    assert Apply(s, step, skew) == s.(jobs := Forgotten(s, step));
  }
}

/**
 * What the protocol invariant gives the two parties: terms are fixed, a revealed secret always finds
 * the destination escrow open, claims are recorded once, and which rows never reach claimed.
 */
module CrossChainOutcomes {
  import opened Wrappers
  import opened CrossChainStore
  import opened CrossChainProtocol
  import opened CrossChainSafety

  function Reached(srcNow: int, dstNow: int, steps: seq<Step>, skew: nat): State {
    Run(Initial(srcNow, dstNow), steps, skew)
  }

  /** Every row of every run: terms in order, evidence matching status, escrows genuine and with the committed terms. */
  lemma EveryRowIsOk(srcNow: int, dstNow: int, steps: seq<Step>, skew: nat, row: nat)
    requires row < |Reached(srcNow, dstNow, steps, skew).fills|
    ensures var s := Reached(srcNow, dstNow, steps, skew); RowOk(s.orders, s.chains, s.fills[row])
  {
    InitialInv(srcNow, dstNow);
    RunKeepsInv(Initial(srcNow, dstNow), steps, skew);
  }

  /**
   * Rank never falls, t1 never grows, t2 and the other terms stay, recorded evidence stays; and the gap t2 - t1 never
   * shrinks.
   */
  lemma RowsOnlyMoveForward(srcNow: int, dstNow: int, before: seq<Step>, more: seq<Step>, skew: nat, row: nat)
    requires row < |Reached(srcNow, dstNow, before, skew).fills|
    ensures var s := Reached(srcNow, dstNow, before, skew);
            var s' := Run(s, more, skew);
            && row < |s'.fills| && Evolves(s.fills[row], s'.fills[row])
            && s.fills[row].t2 - s.fills[row].t1 <= s'.fills[row].t2 - s'.fills[row].t1
  {
    InitialInv(srcNow, dstNow);
    RunKeepsInv(Initial(srcNow, dstNow), before, skew);
    RunEvolves(Reached(srcNow, dstNow, before, skew), more, skew, row);
  }

  lemma FinalIsFinal(f: Fill, g: Fill)
    requires Evolves(f, g) && (f.status == Claimed || f.status == Slashed)
    ensures g == f
  {
  }

  /** Claimed and slashed rows never change again; in particular a claim is recorded at most once. */
  lemma FinalRowsStay(s: State, steps: seq<Step>, skew: nat, i: nat)
    requires Inv(s) && i < |s.fills| && (s.fills[i].status == Claimed || s.fills[i].status == Slashed)
    ensures i < |Run(s, steps, skew).fills| && Run(s, steps, skew).fills[i] == s.fills[i]
  {
    RunEvolves(s, steps, skew, i);
    FinalIsFinal(s.fills[i], Run(s, steps, skew).fills[i]);
  }

  // ---------------------------------------------------------------- the status diagram

  /** One arrow of the status diagram. */
  predicate Arrow(a: Status, b: Status) {
    match a
    case Quoted => b == DstFunded
    case DstFunded => b == Authorized
    case Authorized => b == SrcLocked
    case SrcLocked => b == Revealed || b == Slashed
    case Revealed => b == Claimed
    case _ => false
  }

  /** At most one arrow at a time; the deadline moves only with the swapper's signature, and only down. */
  predicate Follows(f: Fill, g: Fill) {
    && (g.status == f.status || Arrow(f.status, g.status))
    && (g.t1 == f.t1 || (f.status == DstFunded && g.status == Authorized && g.t1 <= f.t1))
  }

  /** The table after a step. */
  function TableAfter(s: State, step: Step): seq<Fill> {
    match step
    case QuoteFill(orderHash, quote) =>
      var r := CreateFillQuote(s.orders, s.fills, orderHash, quote);
      if r.Ok? then r.value else s.fills
    case SubmitSig(row, sig, newT1, now) =>
      var r := SetFillSwapperSig(s.orders, s.fills, row, sig, newT1, now);
      if sig in s.sigs && r.Ok? then r.value else s.fills
    case SeeCreated(created, row) =>
      if created in s.chains.dstLog then HandleEscrowCreated(s, created, row) else s.fills
    case SeeFilled(e) => if e in s.chains.srcLog && e.Filled? then HandleFilled(s, e) else s.fills
    case SeeEscrowLog(e, row) => if e in s.chains.srcLog && !e.Filled? then HandleSrcEscrowLog(s, e, row) else s.fills
    case RelayRecord(job) =>
      if job in s.jobs && s.jobs[job].tx.Some?
      then Record(s.fills, s.jobs[job].orderHash, s.jobs[job].hashlock, ClaimSent(s.jobs[job].tx.value)) else s.fills
    case _ => s.fills
  }

  lemma TableAfterStep(s: State, step: Step, skew: nat)
    ensures Apply(s, step, skew).fills == TableAfter(s, step)
  {
  }

  lemma SlashNeedsLock(s: State, e: SrcEvent, row: nat, i: nat)
    requires RowsOk(s) && !e.Filled? && i < |s.fills|
    ensures Follows(s.fills[i], HandleSrcEscrowLog(s, e, row)[i])
  {
  }

  lemma SubmitFollows(s: State, row: nat, sig: Signature, newT1: Option<real>, now: int, i: nat)
    requires i < |s.fills| && SetFillSwapperSig(s.orders, s.fills, row, sig, newT1, now).Ok?
    ensures var rows := SetFillSwapperSig(s.orders, s.fills, row, sig, newT1, now).value;
            i < |rows| && Follows(s.fills[i], rows[i])
  {
  }

  /** Every step moves a row along at most one arrow: no watcher slashes a row that is merely authorized. */
  lemma StepFollowsDiagram(s: State, step: Step, skew: nat, i: nat)
    requires RowsOk(s) && i < |s.fills|
    ensures i < |Apply(s, step, skew).fills| && Follows(s.fills[i], Apply(s, step, skew).fills[i])
  {
    TableAfterStep(s, step, skew);
    match step {
      case SubmitSig(row, sig, newT1, now) =>
        if SetFillSwapperSig(s.orders, s.fills, row, sig, newT1, now).Ok? {
          SubmitFollows(s, row, sig, newT1, now, i);
        }
      case SeeEscrowLog(e, row) =>
        if !e.Filled? {
          SlashNeedsLock(s, e, row, i);
        }
      case _ =>
    }
  }

  // ---------------------------------------------------------------- a revealed secret finds the escrow open

  ghost predicate SkewOk(c: Chains, skew: nat) {
    c.srcNow <= c.dstNow + skew && c.dstNow <= c.srcNow + skew
  }

  lemma StepKeepsSkew(s: State, step: Step, skew: nat)
    requires SkewOk(s.chains, skew)
    ensures SkewOk(Apply(s, step, skew).chains, skew)
  {
  }

  lemma {:induction false} RunKeepsSkew(s: State, steps: seq<Step>, skew: nat)
    requires SkewOk(s.chains, skew)
    ensures SkewOk(Run(s, steps, skew).chains, skew)
    decreases |steps|
  {
    if steps != [] {
      StepKeepsSkew(s, steps[0], skew);
      RunKeepsSkew(Apply(s, steps[0], skew), steps[1..], skew);
    }
  }

  /** The row behind a source escrow, and its destination escrow with the committed terms. */
  ghost predicate Behind(s: State, f: Fill, escrow: Address) {
    && escrow == SrcClone(f.orderHash, f.hashlock) && escrow in s.chains.src && s.chains.src[escrow].auth.t2 == f.t2
    && f.orderHash in s.orders && FundedAsCommitted(s.orders[f.orderHash], s.chains, f)
  }

  /** The swapper's leg is safe: paid already, or claimable with the secret right now. */
  ghost predicate LegOpen(c: Chains, destination: Address, secret: nat) {
    && destination in c.dst && c.dstNow <= c.dst[destination].expiry
    && c.dst[destination].state != Returned
    && (c.dst[destination].state == Open ==> CanClaim(c, destination, secret))
  }

  lemma EscrowHasRow(s: State, escrow: Address)
    requires Inv(s) && escrow in s.chains.src
    ensures exists i :: 0 <= i < |s.fills| && Behind(s, s.fills[i], escrow)
  {
  }

  /** The row of a source escrow that exists is the one it was made for, funded with its terms. */
  lemma SourceIsBacked(s: State, i: nat)
    requires Inv(s) && i < |s.fills| && SrcClone(s.fills[i].orderHash, s.fills[i].hashlock) in s.chains.src
    ensures Behind(s, s.fills[i], SrcClone(s.fills[i].orderHash, s.fills[i].hashlock))
  {
    var source := SrcClone(s.fills[i].orderHash, s.fills[i].hashlock);
    EscrowHasRow(s, source);
    var j :| 0 <= j < |s.fills| && Behind(s, s.fills[j], source);
    OnlyRow(s.fills, i, s.fills[j]);
  }

  lemma WithdrawalLeavesLegOpen(s: State, skew: nat, escrow: Address, secret: nat, f: Fill)
    requires DstOk(s.chains) && SkewOk(s.chains, skew) && CanWithdraw(s.chains, escrow, secret) && Behind(s, f, escrow)
    requires s.chains.src[escrow].auth.hashlock == f.hashlock
    requires skew <= s.chains.src[escrow].auth.t2 - s.chains.src[escrow].auth.t1
    ensures LegOpen(s.chains, f.dstAddr.value, secret)
  {
  }

  /**
   * Whenever a source withdrawal is accepted, the row behind it names a destination escrow paying the
   * swapper the committed amount; with clocks no further apart than the gap t2 - t1 that escrow has not
   * expired, was not refunded, and if it is still open the revealed secret claims it there and then.
   */
  lemma RevealFindsEscrowOpen(srcNow: int, dstNow: int, steps: seq<Step>, skew: nat, escrow: Address, secret: nat)
    requires SkewOk(Initial(srcNow, dstNow).chains, skew)
    requires CanWithdraw(Reached(srcNow, dstNow, steps, skew).chains, escrow, secret)
    requires var auth := Reached(srcNow, dstNow, steps, skew).chains.src[escrow].auth; skew <= auth.t2 - auth.t1
    ensures var s := Reached(srcNow, dstNow, steps, skew);
            exists i ::
              0 <= i < |s.fills| && Behind(s, s.fills[i], escrow) && LegOpen(s.chains, s.fills[i].dstAddr.value, secret)
  {
    var s := Reached(srcNow, dstNow, steps, skew);
    InitialInv(srcNow, dstNow);
    RunKeepsInv(Initial(srcNow, dstNow), steps, skew);
    RunKeepsSkew(Initial(srcNow, dstNow), steps, skew);
    EscrowHasRow(s, escrow);
    var i :| 0 <= i < |s.fills| && Behind(s, s.fills[i], escrow);
    WithdrawalLeavesLegOpen(s, skew, escrow, secret, s.fills[i]);
  }

  // ---------------------------------------------------------------- the gap a quote fixes is the gap that counts

  /** No deadline later than q is in play for this row: in the table, in a signature or in an escrow. */
  ghost predicate DeadlineAtMost(s: State, i: nat, q: int) {
    && i < |s.fills| && s.fills[i].t1 <= q
    && (forall sig :: sig in s.sigs && Matches(s.fills[i], sig.auth.orderHash, sig.auth.hashlock) ==> sig.auth.t1 <= q)
    && (forall a ::
          a in s.chains.src && Matches(s.fills[i], s.chains.src[a].auth.orderHash, s.chains.src[a].auth.hashlock)
          ==> s.chains.src[a].auth.t1 <= q)
  }

  lemma SigsAfterStep(s: State, step: Step, skew: nat, sig: Signature)
    requires sig in Apply(s, step, skew).sigs && sig !in s.sigs
    ensures step.SignFill? && HonestAuth(s, step.fillId, step.t1) && s.fills[step.fillId].orderHash in s.orders
            && sig == SwapperSignature(s, step.fillId, step.t1)
  {
  }

  lemma SrcAfterStep(s: State, step: Step, skew: nat, a: Address)
    requires a in Apply(s, step, skew).chains.src
    ensures var auth := Apply(s, step, skew).chains.src[a].auth;
            (a in s.chains.src && s.chains.src[a].auth == auth) || exists sig :: sig in s.sigs && sig.auth == auth
  {
    if step.FillSlot? && a !in s.chains.src {
      assert step.sig in s.sigs;
    }
  }

  lemma DeadlineStep(s: State, step: Step, skew: nat, i: nat, q: int)
    requires RowsOk(s) && DeadlineAtMost(s, i, q)
    ensures DeadlineAtMost(Apply(s, step, skew), i, q)
  {
    StepFollowsDiagram(s, step, skew, i);
    var s' := Apply(s, step, skew);
    KeyStays(s, step, skew, i);
    forall sig | sig in s'.sigs && Matches(s.fills[i], sig.auth.orderHash, sig.auth.hashlock)
      ensures sig.auth.t1 <= q
    {
      if sig !in s.sigs {
        SigsAfterStep(s, step, skew, sig);
        OnlyRow(s.fills, step.fillId, s.fills[i]);
      }
    }
    forall a | a in s'.chains.src
      && Matches(s.fills[i], s'.chains.src[a].auth.orderHash, s'.chains.src[a].auth.hashlock)
      ensures s'.chains.src[a].auth.t1 <= q
    {
      SrcAfterStep(s, step, skew, a);
    }
  }

  lemma KeyStays(s: State, step: Step, skew: nat, i: nat)
    requires i < |s.fills|
    ensures i < |Apply(s, step, skew).fills|
    ensures Apply(s, step, skew).fills[i].orderHash == s.fills[i].orderHash
            && Apply(s, step, skew).fills[i].hashlock == s.fills[i].hashlock
  {
    TableAfterStep(s, step, skew);
  }

  lemma {:induction false} DeadlineRun(s: State, steps: seq<Step>, skew: nat, i: nat, q: int)
    requires Inv(s) && DeadlineAtMost(s, i, q)
    ensures DeadlineAtMost(Run(s, steps, skew), i, q)
    decreases |steps|
  {
    if steps != [] {
      DeadlineStep(s, steps[0], skew, i, q);
      StepKeepsInv(s, steps[0], skew);
      DeadlineRun(Apply(s, steps[0], skew), steps[1..], skew, i, q);
    }
  }

  /** Before the destination is verified nobody holds a signature or an escrow for the row. */
  lemma QuotedRowIsUnsigned(s: State, i: nat)
    requires Inv(s) && i < |s.fills| && s.fills[i].status == Quoted
    ensures DeadlineAtMost(s, i, s.fills[i].t1)
  {
    forall auth | Backed(s, auth)
      ensures !Matches(s.fills[i], auth.orderHash, auth.hashlock)
    {
      var j :| 0 <= j < |s.fills| && Backs(s.fills[j], auth);
      KeysDiffer(s.fills, i, j);
    }
  }

  lemma KeysDiffer(fills: seq<Fill>, i: nat, j: nat)
    requires Unique(fills) && i < |fills| && j < |fills|
    ensures i != j ==> !Matches(fills[i], fills[j].orderHash, fills[j].hashlock)
  {
    assert Matches(fills[i], fills[j].orderHash, fills[j].hashlock)
      <==> Matches(fills[j], fills[i].orderHash, fills[i].hashlock);
  }

  /**
   * A quote whose gap covers the clock skew protects the swapper for good: in every continuation, whatever is
   * signed, shortened, replayed or crashed, an accepted withdrawal of the row's source escrow finds the
   * destination escrow paid or claimable with the revealed secret. That escrow is the row's alone unless another
   * row has the same hashlock (CrossChainSharing says when two rows name one escrow).
   */
  lemma QuotedGapProtects(s: State, steps: seq<Step>, skew: nat, i: nat, secret: nat)
    requires Inv(s) && SkewOk(s.chains, skew) && i < |s.fills| && s.fills[i].status == Quoted
    requires skew <= s.fills[i].t2 - s.fills[i].t1
    ensures var s' := Run(s, steps, skew);
            CanWithdraw(s'.chains, SrcClone(s.fills[i].orderHash, s.fills[i].hashlock), secret) ==>
              i < |s'.fills| && Behind(s', s'.fills[i], SrcClone(s.fills[i].orderHash, s.fills[i].hashlock))
              && LegOpen(s'.chains, s'.fills[i].dstAddr.value, secret)
              && forall j :: 0 <= j < |s'.fills| && s'.fills[j].hashlock != s.fills[i].hashlock ==>
                   s'.fills[j].dstAddr != s'.fills[i].dstAddr
  {
    var s', source := Run(s, steps, skew), SrcClone(s.fills[i].orderHash, s.fills[i].hashlock);
    QuotedRowIsUnsigned(s, i);
    DeadlineRun(s, steps, skew, i, s.fills[i].t1);
    RunKeepsSkew(s, steps, skew);
    RunEvolves(s, steps, skew, i);
    RunKeepsInv(s, steps, skew);
    if CanWithdraw(s'.chains, source, secret) {
      GapFindsLegOpen(s', skew, i, s.fills[i].t1, source, secret);
      forall j | 0 <= j < |s'.fills| && s'.fills[j].hashlock != s.fills[i].hashlock
        ensures s'.fills[j].dstAddr != s'.fills[i].dstAddr
      {
        OwnEscrow(s', i, j);
      }
    }
  }

  /** A verified escrow carries its row's hashlock in its address. */
  lemma OwnEscrow(s: State, i: nat, j: nat)
    requires RowsOk(s) && i < |s.fills| && j < |s.fills| && s.fills[i].hashlock != s.fills[j].hashlock
    ensures s.fills[i].dstAddr.Some? ==> s.fills[j].dstAddr != s.fills[i].dstAddr
  {
    assert RowOk(s.orders, s.chains, s.fills[i]) && RowOk(s.orders, s.chains, s.fills[j]);
  }

  /** The filler has withdrawn the row's source, and the swapper's leg is paid or claimable. */
  ghost predicate Secured(s: State, i: nat) {
    && i < |s.fills|
    && var source := SrcClone(s.fills[i].orderHash, s.fills[i].hashlock);
       && source in s.chains.src && s.chains.src[source].state == Paid
       && s.fills[i].dstAddr.Some? && LegOpen(s.chains, s.fills[i].dstAddr.value, s.fills[i].hashlock.preimage)
  }

  /**
   * After a withdrawal the swapper's leg stays paid or claimable in every continuation in which the destination
   * clock advances by no more than what the gap leaves beyond the skew.
   */
  lemma LegStaysOpen(s: State, skew: nat, i: nat, secret: nat, more: seq<Step>)
    requires Inv(s) && SkewOk(s.chains, skew) && i < |s.fills|
    requires CanWithdraw(s.chains, SrcClone(s.fills[i].orderHash, s.fills[i].hashlock), secret)
    ensures var source := SrcClone(s.fills[i].orderHash, s.fills[i].hashlock);
            var slack := s.chains.src[source].auth.t2 - s.chains.src[source].auth.t1 - skew;
            var s' := Run(Apply(s, Withdraw(source, secret), skew), more, skew);
            s'.chains.dstNow <= s.chains.dstNow + slack ==> Secured(s', i)
  {
    var source := SrcClone(s.fills[i].orderHash, s.fills[i].hashlock);
    var s1 := Apply(s, Withdraw(source, secret), skew);
    var s' := Run(s1, more, skew);
    SourceIsBacked(s, i);
    WithdrawalPays(s, skew, source, secret);
    StepKeepsInv(s, Withdraw(source, secret), skew);
    RunKeepsInv(s1, more, skew);
    RunEvolves(s1, more, skew, i);
    EarlyLegIsOpen(s', s.fills[i].dstAddr.value, s.fills[i].hashlock.preimage);
    EscrowStays(s1.chains, s'.chains, source, s.fills[i].dstAddr.value);
  }

  lemma WithdrawalPays(s: State, skew: nat, source: Address, secret: nat)
    requires CanWithdraw(s.chains, source, secret)
    ensures var s1 := Apply(s, Withdraw(source, secret), skew);
            && s1.fills == s.fills && s1.chains.dst == s.chains.dst && s1.chains.dstNow == s.chains.dstNow
            && source in s1.chains.src && s1.chains.src[source].state == Paid
  {
  }

  lemma EarlyLegIsOpen(s: State, destination: Address, secret: nat)
    requires DstOk(s.chains) && destination.DstClone? && destination.hashlock == HashOf(secret)
    ensures destination in s.chains.dst && s.chains.dstNow <= s.chains.dst[destination].expiry ==>
              LegOpen(s.chains, destination, secret)
  {
  }

  lemma EscrowStays(c: Chains, d: Chains, source: Address, destination: Address)
    requires ChainsGrow(c, d) && source in c.src && c.src[source].state == Paid && destination in c.dst
    ensures source in d.src && d.src[source].state == Paid
    ensures destination in d.dst && d.dst[destination].expiry == c.dst[destination].expiry
  {
  }

  lemma GapFindsLegOpen(s: State, skew: nat, i: nat, q: int, source: Address, secret: nat)
    requires Inv(s) && SkewOk(s.chains, skew) && DeadlineAtMost(s, i, q) && skew <= s.fills[i].t2 - q
    requires source == SrcClone(s.fills[i].orderHash, s.fills[i].hashlock) && CanWithdraw(s.chains, source, secret)
    ensures Behind(s, s.fills[i], source) && LegOpen(s.chains, s.fills[i].dstAddr.value, secret)
  {
    SourceIsBacked(s, i);
    assert source == SrcClone(s.chains.src[source].auth.orderHash, s.chains.src[source].auth.hashlock);
    WithdrawalLeavesLegOpen(s, skew, source, secret, s.fills[i]);
  }

  /** Both legs lost to the filler: the destination was refunded and the source can still be withdrawn. */
  ghost predicate BothLegs(c: Chains, source: Address, destination: Address) {
    && source in c.src && CanWithdraw(c, source, c.src[source].auth.hashlock.preimage)
    && destination in c.dst && c.dst[destination].state == Returned
  }

  ghost predicate LosesBoth(s: State, steps: seq<Step>, skew: nat, source: Address, destination: Address) {
    BothLegs(Run(s, steps, skew).chains, source, destination)
  }

  /** Let the source reach t1 while the destination is already past t2, then refund. */
  function WaitAndRefund(s: State, source: Address, destination: Address): seq<Step>
    requires source in s.chains.src && destination in s.chains.dst
  {
    var auth := s.chains.src[source].auth;
    [Tick(auth.t1, if s.chains.dstNow <= auth.t2 then auth.t2 + 1 else s.chains.dstNow), Refund(destination)]
  }

  lemma WideSkewLosesTheLeg(s: State, skew: nat, source: Address, f: Fill)
    requires SkewOk(s.chains, skew) && Behind(s, f, source)
    requires s.chains.src[source].state == Open
             && s.chains.srcNow <= s.chains.src[source].auth.t1 < s.chains.src[source].auth.t2
    requires s.chains.dst[f.dstAddr.value].state == Open
             && s.chains.src[source].auth.t2 - s.chains.src[source].auth.t1 < skew
    ensures BothLegs(Run(s, WaitAndRefund(s, source, f.dstAddr.value), skew).chains, source, f.dstAddr.value)
  {
    var steps := WaitAndRefund(s, source, f.dstAddr.value);
    var ticked := Apply(s, steps[0], skew);
    assert CanRefund(ticked.chains, f.dstAddr.value);
    RunTwo(s, steps, skew);
  }

  lemma RunTwo(s: State, steps: seq<Step>, skew: nat)
    requires |steps| == 2
    ensures Run(s, steps, skew) == Apply(Apply(s, steps[0], skew), steps[1], skew)
  {
    assert steps[1..] == [steps[1]];
    assert Run(Apply(s, steps[0], skew), [steps[1]], skew)
      == Run(Apply(Apply(s, steps[0], skew), steps[1], skew), [], skew);
  }

  /**
   * While both escrows are open and the source has not passed t1, this pair of legs cannot both go to the filler
   * exactly when the gap covers the skew.
   */
  lemma GapMustCoverSkew(s: State, skew: nat, source: Address, f: Fill)
    requires Inv(s) && SkewOk(s.chains, skew) && f in s.fills && Behind(s, f, source)
    requires s.chains.src[source].state == Open
             && s.chains.srcNow <= s.chains.src[source].auth.t1 < s.chains.src[source].auth.t2
    requires s.chains.dst[f.dstAddr.value].state == Open
    ensures (exists steps :: LosesBoth(s, steps, skew, source, f.dstAddr.value))
        <==> s.chains.src[source].auth.t2 - s.chains.src[source].auth.t1 < skew
  {
    if s.chains.src[source].auth.t2 - s.chains.src[source].auth.t1 < skew {
      WideSkewLosesTheLeg(s, skew, source, f);
      assert LosesBoth(s, WaitAndRefund(s, source, f.dstAddr.value), skew, source, f.dstAddr.value);
    } else if steps :| LosesBoth(s, steps, skew, source, f.dstAddr.value) {
      NarrowSkewKeepsTheLeg(s, steps, skew, source, f);
    }
  }

  lemma NarrowSkewKeepsTheLeg(s: State, steps: seq<Step>, skew: nat, source: Address, f: Fill)
    requires Inv(s) && SkewOk(s.chains, skew) && f in s.fills && Behind(s, f, source)
    requires skew <= s.chains.src[source].auth.t2 - s.chains.src[source].auth.t1
    ensures !BothLegs(Run(s, steps, skew).chains, source, f.dstAddr.value)
  {
    RunKeepsInv(s, steps, skew);
    RunKeepsSkew(s, steps, skew);
    var c := Run(s, steps, skew).chains;
    assert c.src[source].auth == s.chains.src[source].auth;
    assert SameTerms(s.chains.dst[f.dstAddr.value], c.dst[f.dstAddr.value]);
  }

  // ---------------------------------------------------------------- the relayer

  lemma JobRow(s: State, t: Job) returns (i: nat)
    requires RowsOk(s) && JobOk(s, t)
    ensures i < |s.fills| && JobOf(s.chains, s.fills[i], t)
            && (t.tx.Some? && s.fills[i].status == Claimed ==> s.fills[i].claimTx == t.tx)
  {
    i :| 0 <= i < |s.fills| && JobOf(s.chains, s.fills[i], t);
    assert RowOk(s.orders, s.chains, s.fills[i]);
  }

  lemma MinedJobRow(s: State, job: nat) returns (i: nat)
    requires RowsOk(s) && JobsOk(s) && job in s.jobs && s.jobs[job].tx.Some?
    ensures ClaimPending(s, job, i)
  {
    i := JobRow(s, s.jobs[job]);
  }

  ghost predicate ClaimPending(s: State, job: nat, i: nat) {
    && job in s.jobs && s.jobs[job].tx.Some? && i < |s.fills|
    && Matches(s.fills[i], s.jobs[job].orderHash, s.jobs[job].hashlock)
    && (s.fills[i].status == Revealed || (s.fills[i].status == Claimed && s.fills[i].claimTx == s.jobs[job].tx))
  }

  /** The row is claimed, with this transaction. */
  ghost predicate ClaimedWith(fills: seq<Fill>, i: nat, t: Job) {
    i < |fills| && Matches(fills[i], t.orderHash, t.hashlock) && fills[i].status == Claimed && fills[i].claimTx == t.tx
  }

  lemma PendingIsRecorded(s: State, job: nat, skew: nat, i: nat)
    requires ClaimPending(s, job, i)
    ensures ClaimedWith(Apply(s, RelayRecord(job), skew).fills, i, s.jobs[job])
  {
  }

  /**
   * A pass that read the row revealed and unsettled, and whose claim was mined, takes the row to claimed
   * with that transaction, whatever happened in between.
   */
  lemma MinedClaimIsRecorded(s: State, job: nat, skew: nat) returns (i: nat)
    requires Inv(s) && job in s.jobs && s.jobs[job].tx.Some?
    ensures ClaimedWith(Apply(s, RelayRecord(job), skew).fills, i, s.jobs[job])
  {
    i := MinedJobRow(s, job);
    PendingIsRecorded(s, job, skew, i);
  }

  /** Two passes over one row never mine claims under different transactions. */
  lemma ClaimsAgree(s: State, a: nat, b: nat)
    requires Inv(s) && a in s.jobs && b in s.jobs && s.jobs[a].tx.Some? && s.jobs[b].tx.Some?
    requires s.jobs[a].orderHash == s.jobs[b].orderHash && s.jobs[a].hashlock == s.jobs[b].hashlock
    ensures s.jobs[a].tx == s.jobs[b].tx
  {
    var i := JobRow(s, s.jobs[a]);
    var j := JobRow(s, s.jobs[b]);
    OnlyRow(s.fills, i, s.fills[j]);
  }

  // ---------------------------------------------------------------- rows that stay revealed

  /**
   * The row is revealed, its destination escrow settled or expired, and no job that mined a claim for it is left in
   * memory.
   */
  ghost predicate Stranded(s: State, i: nat) {
    && i < |s.fills| && s.fills[i].status == Revealed
    && s.fills[i].dstAddr.Some? && s.fills[i].dstAddr.value in s.chains.dst
    && !StillClaimable(s.chains, s.fills[i].dstAddr.value)
    && NoneMined(s.fills[i], s.jobs)
  }

  ghost predicate StillClaimable(c: Chains, escrow: Address)
    requires escrow in c.dst
  {
    c.dst[escrow].state == Open && c.dstNow <= c.dst[escrow].expiry
  }

  ghost predicate NoneMined(f: Fill, jobs: map<nat, Job>) {
    forall id :: id in jobs && Matches(f, jobs[id].orderHash, jobs[id].hashlock) ==> jobs[id].tx.None?
  }

  /** A revealed row changes only when a mined claim for it is recorded. */
  lemma RevealedRowMoves(s: State, step: Step, i: nat)
    requires RowsOk(s) && i < |s.fills| && s.fills[i].status == Revealed && NoneMined(s.fills[i], s.jobs)
    ensures i < |TableAfter(s, step)| && TableAfter(s, step)[i] == s.fills[i]
  {
  }

  /** Jobs in memory after a step: kept, newly read, or mined by this very step while the escrow was open. */
  lemma JobsAfterStep(s: State, step: Step, skew: nat, id: nat)
    requires id in Apply(s, step, skew).jobs
    ensures var t := Apply(s, step, skew).jobs[id];
            || (id in s.jobs && t == s.jobs[id])
            || t.tx.None?
            || (id in s.jobs && t.orderHash == s.jobs[id].orderHash && t.hashlock == s.jobs[id].hashlock
                && CanClaim(s.chains, s.jobs[id].escrow, s.jobs[id].secret))
  {
  }

  lemma JobEscrow(s: State, id: nat, i: nat)
    requires Inv(s) && id in s.jobs && i < |s.fills| && Matches(s.fills[i], s.jobs[id].orderHash, s.jobs[id].hashlock)
    ensures s.fills[i].dstAddr == Some(s.jobs[id].escrow)
  {
    var j := JobRow(s, s.jobs[id]);
    OnlyRow(s.fills, j, s.fills[i]);
  }

  lemma NoneMinedStays(s: State, step: Step, skew: nat, i: nat)
    requires Inv(s) && Stranded(s, i)
    ensures NoneMined(s.fills[i], Apply(s, step, skew).jobs)
  {
    forall id | id in Apply(s, step, skew).jobs
             && Matches(s.fills[i], Apply(s, step, skew).jobs[id].orderHash, Apply(s, step, skew).jobs[id].hashlock)
      ensures Apply(s, step, skew).jobs[id].tx.None?
    {
      JobsAfterStep(s, step, skew, id);
      if id in s.jobs && Matches(s.fills[i], s.jobs[id].orderHash, s.jobs[id].hashlock) {
        JobEscrow(s, id, i);
      }
    }
  }

  lemma StrandedStep(s: State, step: Step, skew: nat, i: nat)
    requires Inv(s) && Stranded(s, i)
    ensures Stranded(Apply(s, step, skew), i) && Apply(s, step, skew).fills[i] == s.fills[i]
  {
    RevealedRowMoves(s, step, i);
    TableAfterStep(s, step, skew);
    NoneMinedStays(s, step, skew, i);
    StepAdvances(s, step, skew);
    ClosedStays(s.chains, Apply(s, step, skew).chains, s.fills[i].dstAddr.value);
  }

  lemma ClosedStays(c: Chains, d: Chains, escrow: Address)
    requires ChainsGrow(c, d) && escrow in c.dst && !StillClaimable(c, escrow)
    ensures escrow in d.dst && !StillClaimable(d, escrow)
  {
  }

  lemma StepAdvances(s: State, step: Step, skew: nat)
    requires Inv(s)
    ensures ChainsGrow(s.chains, Apply(s, step, skew).chains)
  {
    StepKeepsInv(s, step, skew);
  }

  /**
   * A crash between mining the claim and recording it, a claim by the swapper itself, or the expiry of the escrow
   * leaves the row revealed in every continuation: each later pass skips it or has its claim rejected.
   */
  lemma {:induction false} StrandedForever(s: State, steps: seq<Step>, skew: nat, i: nat)
    requires Inv(s) && Stranded(s, i)
    ensures Stranded(Run(s, steps, skew), i) && Run(s, steps, skew).fills[i] == s.fills[i]
    decreases |steps|
  {
    if steps != [] {
      StrandedStep(s, steps[0], skew, i);
      StepKeepsInv(s, steps[0], skew);
      StrandedForever(Apply(s, steps[0], skew), steps[1..], skew, i);
    }
  }

  ghost predicate ReachesClaimed(s: State, steps: seq<Step>, skew: nat, i: nat) {
    i < |Run(s, steps, skew).fills| && Run(s, steps, skew).fills[i].status == Claimed
  }

  lemma FreshPassClaims(s: State, skew: nat, i: nat, job: nat)
    requires Inv(s) && i < |s.fills| && s.fills[i].status == Revealed && job !in s.jobs && s.fills[i].dstAddr.Some?
    requires s.fills[i].dstAddr.value in s.chains.dst && s.chains.dst[s.fills[i].dstAddr.value].state == Open
    requires s.chains.dstNow <= s.fills[i].t2
    ensures ReachesClaimed(s, [RelayRead(job, i, s.chains.dstNow)] + [RelaySend(job), RelayRecord(job)], skew, i)
  {
    var s1 := s.(jobs := s.jobs[job := JobFor(s.fills[i])]);
    OpenEscrowClaims(s, i);
    ReadStarts(s, skew, i, job);
    SendAndRecord(s1, skew, i, job);
    RunReads(s, s1, RelayRead(job, i, s.chains.dstNow), [RelaySend(job), RelayRecord(job)], skew);
  }

  lemma OpenEscrowClaims(s: State, i: nat)
    requires RowsOk(s) && i < |s.fills| && s.fills[i].status == Revealed && s.chains.dstNow <= s.fills[i].t2
    requires s.fills[i].dstAddr.Some? && s.fills[i].dstAddr.value in s.chains.dst
    requires s.chains.dst[s.fills[i].dstAddr.value].state == Open
    ensures s.fills[i].secret.Some? && CanClaim(s.chains, s.fills[i].dstAddr.value, s.fills[i].secret.value)
    ensures Relays(s, i, s.chains.dstNow)
  {
  }

  lemma ReadStarts(s: State, skew: nat, i: nat, job: nat)
    requires job !in s.jobs && Relays(s, i, s.chains.dstNow)
    ensures Apply(s, RelayRead(job, i, s.chains.dstNow), skew) == s.(jobs := s.jobs[job := JobFor(s.fills[i])])
  {
  }

  lemma RunReads(s: State, s1: State, step: Step, rest: seq<Step>, skew: nat)
    requires Apply(s, step, skew) == s1
    ensures Run(s, [step] + rest, skew) == Run(s1, rest, skew)
  {
  }

  lemma SendAndRecord(s: State, skew: nat, i: nat, job: nat)
    requires i < |s.fills| && s.fills[i].status == Revealed && job in s.jobs && s.jobs[job].tx.None?
    requires Matches(s.fills[i], s.jobs[job].orderHash, s.jobs[job].hashlock)
    requires CanClaim(s.chains, s.jobs[job].escrow, s.jobs[job].secret)
    ensures ReachesClaimed(s, [RelaySend(job), RelayRecord(job)], skew, i)
  {
    var s1 := Apply(s, RelaySend(job), skew);
    assert ClaimPending(s1, job, i);
    PendingIsRecorded(s1, job, skew, i);
    RunTwo(s, [RelaySend(job), RelayRecord(job)], skew);
  }

  lemma StrandedNeverClaims(s: State, skew: nat, i: nat)
    requires Inv(s) && Stranded(s, i)
    ensures forall steps :: !ReachesClaimed(s, steps, skew, i)
  {
    forall steps
      ensures !ReachesClaimed(s, steps, skew, i)
    {
      StrandedForever(s, steps, skew, i);
    }
  }

  /** A claim for the row was mined and its job is still in memory. */
  ghost predicate MinedInMemory(s: State, i: nat) {
    i < |s.fills| && !NoneMined(s.fills[i], s.jobs)
  }

  /**
   * A revealed row can still become claimed exactly when it is not stranded: when a mined claim for it is in the
   * relayer's memory, or its destination escrow is open and its expiry t2 not past.
   */
  lemma ClaimableIffNotStranded(s: State, skew: nat, i: nat)
    requires Inv(s) && i < |s.fills| && s.fills[i].status == Revealed
    ensures s.fills[i].dstAddr.Some? && s.fills[i].dstAddr.value in s.chains.dst
    ensures (exists steps :: ReachesClaimed(s, steps, skew, i))
        <==> MinedInMemory(s, i)
             || (s.chains.dst[s.fills[i].dstAddr.value].state == Open && s.chains.dstNow <= s.fills[i].t2)
    ensures (exists steps :: ReachesClaimed(s, steps, skew, i)) <==> !Stranded(s, i)
  {
    RevealedRowIsFunded(s, i);
    if Stranded(s, i) {
      StrandedNeverClaims(s, skew, i);
    } else {
      var steps := UnstrandedClaims(s, skew, i);
    }
  }

  lemma {:induction false} FreshId(ids: set<nat>) returns (id: nat)
    ensures forall other :: other in ids ==> other < id
  {
    if ids == {} {
      id := 0;
    } else {
      var one :| one in ids;
      var above := FreshId(ids - {one});
      id := if one < above then above else one + 1;
      forall other | other in ids
        ensures other < id
      {
        assert other == one || other in ids - {one};
      }
    }
  }

  lemma UnstrandedClaims(s: State, skew: nat, i: nat) returns (steps: seq<Step>)
    requires Inv(s) && i < |s.fills| && s.fills[i].status == Revealed && !Stranded(s, i)
    ensures ReachesClaimed(s, steps, skew, i)
  {
    RevealedRowIsFunded(s, i);
    if StillClaimable(s.chains, s.fills[i].dstAddr.value) {
      var job := FreshId(s.jobs.Keys);
      FreshPassClaims(s, skew, i, job);
      steps := [RelayRead(job, i, s.chains.dstNow)] + [RelaySend(job), RelayRecord(job)];
    } else {
      var id :| id in s.jobs && Matches(s.fills[i], s.jobs[id].orderHash, s.jobs[id].hashlock) && s.jobs[id].tx.Some?;
      PendingRow(s, i, id);
      RecordReaches(s, skew, i, id);
      steps := [RelayRecord(id)];
    }
  }

  lemma PendingRow(s: State, i: nat, id: nat)
    requires RowsOk(s) && i < |s.fills| && s.fills[i].status == Revealed && id in s.jobs && s.jobs[id].tx.Some?
    requires Matches(s.fills[i], s.jobs[id].orderHash, s.jobs[id].hashlock)
    ensures ClaimPending(s, id, i)
  {
  }

  lemma RevealedRowIsFunded(s: State, i: nat)
    requires RowsOk(s) && i < |s.fills| && s.fills[i].status == Revealed
    ensures s.fills[i].dstAddr.Some? && s.fills[i].dstAddr.value in s.chains.dst
    ensures s.chains.dst[s.fills[i].dstAddr.value].expiry == s.fills[i].t2
  {
  }

  lemma RecordReaches(s: State, skew: nat, i: nat, id: nat)
    requires ClaimPending(s, id, i)
    ensures ReachesClaimed(s, [RelayRecord(id)], skew, i)
  {
  }
}

/**
 * Who locks the source slot: fillSlot takes any sender with the two signatures, and the escrow pays that sender
 * (contract/src/crosschain/EscrowSrcFactory.sol, EscrowSrc.sol), while the table lets only the row's own filler
 * advance it (backend/src/services/crosschainService.ts).
 */
module CrossChainLocks {
  import opened Wrappers
  import opened CrossChainStore
  import opened CrossChainProtocol
  import opened CrossChainSafety
  import opened CrossChainOutcomes

  function SlotOf(f: Fill): Address {
    SrcClone(f.orderHash, f.hashlock)
  }

  /** The row's slot is taken, by this account. */
  predicate LockedFor(s: State, i: nat, filler: Address) {
    && i < |s.fills| && SlotOf(s.fills[i]) in s.chains.src
    && s.chains.src[SlotOf(s.fills[i])].filler == filler
  }

  // ---------------------------------------------------------------- two more facts of every run

  /** Signatures in the table were given by the swapper. */
  ghost predicate SigsGiven(s: State) {
    forall i :: 0 <= i < |s.fills| && s.fills[i].swapperSig.Some? ==> s.fills[i].swapperSig.value in s.sigs
  }

  /** The factory logs each clone with the filler it pays. */
  ghost predicate LocksLogged(c: Chains) {
    forall a :: a in c.src ==> a.SrcClone? && Filled(a.orderHash, a.hashlock, c.src[a].filler, a) in c.srcLog
  }

  lemma StepKeepsSigsGiven(s: State, step: Step, skew: nat)
    requires SigsGiven(s)
    ensures SigsGiven(Apply(s, step, skew))
  {
    TableAfterStep(s, step, skew);
  }

  lemma StepKeepsLocksLogged(s: State, step: Step, skew: nat)
    requires LocksLogged(s.chains)
    ensures LocksLogged(Apply(s, step, skew).chains)
  {
  }

  lemma {:induction false} RunKeepsBoth(s: State, steps: seq<Step>, skew: nat)
    requires SigsGiven(s) && LocksLogged(s.chains)
    ensures SigsGiven(Run(s, steps, skew)) && LocksLogged(Run(s, steps, skew).chains)
    decreases |steps|
  {
    if steps != [] {
      StepKeepsSigsGiven(s, steps[0], skew);
      StepKeepsLocksLogged(s, steps[0], skew);
      RunKeepsBoth(Apply(s, steps[0], skew), steps[1..], skew);
    }
  }

  lemma ReachedFacts(srcNow: int, dstNow: int, steps: seq<Step>, skew: nat)
    ensures var s := Reached(srcNow, dstNow, steps, skew); Inv(s) && SigsGiven(s) && LocksLogged(s.chains)
  {
    InitialInv(srcNow, dstNow);
    RunKeepsInv(Initial(srcNow, dstNow), steps, skew);
    RunKeepsBoth(Initial(srcNow, dstNow), steps, skew);
  }

  // ---------------------------------------------------------------- anyone can take the slot

  /**
   * In every run, for every account: it can lock an authorized row's slot with the row's stored signature exactly
   * when the slot is free, t1 is ahead and the order still has the amount; the escrow then pays that account.
   */
  lemma AnyoneCanLockIff(srcNow: int, dstNow: int, before: seq<Step>, skew: nat, i: nat, who: Address)
    requires i < |Reached(srcNow, dstNow, before, skew).fills|
    requires Reached(srcNow, dstNow, before, skew).fills[i].status == Authorized
    ensures var s := Reached(srcNow, dstNow, before, skew);
            && s.fills[i].swapperSig.Some? && s.fills[i].orderHash in s.orders
            && var step := FillSlot(s.fills[i].swapperSig.value, who);
               && (Accepted(s, step, skew)
                   <==> SlotOf(s.fills[i]) !in s.chains.src && s.chains.srcNow < s.fills[i].t1
                        && 0 < s.fills[i].fillAmount
                        && Reserved(s.chains, s.fills[i].orderHash) + s.fills[i].fillAmount
                           <= s.orders[s.fills[i].orderHash].inputAmount)
               && (Accepted(s, step, skew) ==> LockedFor(Apply(s, step, skew), i, who))
  {
    var s := Reached(srcNow, dstNow, before, skew);
    ReachedFacts(srcNow, dstNow, before, skew);
    assert RowOk(s.orders, s.chains, s.fills[i]);
  }

  // ---------------------------------------------------------------- what it does to the row

  /** Authorized, with its slot taken by another account than the row's filler. */
  ghost predicate TakenByOther(s: State, i: nat) {
    && i < |s.fills| && s.fills[i].status == Authorized && SlotOf(s.fills[i]) in s.chains.src
    && s.chains.src[SlotOf(s.fills[i])].filler != s.fills[i].filler
  }

  lemma LockLogLeaves(s: State, e: SrcEvent, i: nat)
    requires LogsOk(s.chains) && TakenByOther(s, i) && e in s.chains.srcLog && e.Filled?
    ensures HandleFilled(s, e)[i] == s.fills[i]
  {
    assert EventOk(s.chains, e);
  }

  lemma EscrowLogLeaves(s: State, e: SrcEvent, row: nat, i: nat)
    requires Unique(s.fills) && TakenByOther(s, i) && EvidenceFitsStatus(s.fills[i]) && !e.Filled?
    ensures HandleSrcEscrowLog(s, e, row)[i] == s.fills[i]
  {
    if row < |s.fills| && row != i {
      KeysDiffer(s.fills, row, i);
      KeysDiffer(s.fills, i, row);
    }
  }

  lemma SubmitLeaves(s: State, row: nat, sig: Signature, newT1: Option<real>, now: int, i: nat)
    requires i < |s.fills| && s.fills[i].status == Authorized
    ensures var r := SetFillSwapperSig(s.orders, s.fills, row, sig, newT1, now);
            r.Ok? ==> i < |r.value| && r.value[i] == s.fills[i]
  {
  }

  lemma CreationLeaves(s: State, created: DstEvent, row: nat, i: nat)
    requires i < |s.fills| && s.fills[i].status == Authorized
    ensures HandleEscrowCreated(s, created, row)[i] == s.fills[i]
  {
  }

  /** The table does not move such a row: every guard asks for another status, or for the row's own filler. */
  lemma TakenRowStays(s: State, step: Step, i: nat)
    requires Unique(s.fills) && LogsOk(s.chains) && TakenByOther(s, i) && EvidenceFitsStatus(s.fills[i])
    ensures i < |TableAfter(s, step)| && TableAfter(s, step)[i] == s.fills[i]
  {
    match step {
      case SubmitSig(row, sig, newT1, now) => SubmitLeaves(s, row, sig, newT1, now, i);
      case SeeCreated(created, row) => CreationLeaves(s, created, row, i);
      case SeeFilled(e) =>
        if e in s.chains.srcLog && e.Filled? {
          LockLogLeaves(s, e, i);
        }
      case SeeEscrowLog(e, row) =>
        if e in s.chains.srcLog && !e.Filled? {
          EscrowLogLeaves(s, e, row, i);
        }
      case _ =>
    }
  }

  lemma TakenStep(s: State, step: Step, skew: nat, i: nat)
    requires Inv(s) && TakenByOther(s, i)
    ensures TakenByOther(Apply(s, step, skew), i) && Apply(s, step, skew).fills[i] == s.fills[i]
  {
    assert RowOk(s.orders, s.chains, s.fills[i]);
    TakenRowStays(s, step, i);
    TableAfterStep(s, step, skew);
    StepAdvances(s, step, skew);
  }

  /** The row stays authorized, and its slot with the other account, in every continuation. */
  lemma {:induction false} OthersLockStrands(s: State, steps: seq<Step>, skew: nat, i: nat)
    requires Inv(s) && TakenByOther(s, i)
    ensures TakenByOther(Run(s, steps, skew), i) && Run(s, steps, skew).fills[i] == s.fills[i]
    decreases |steps|
  {
    if steps != [] {
      TakenStep(s, steps[0], skew, i);
      StepKeepsInv(s, steps[0], skew);
      OthersLockStrands(Apply(s, steps[0], skew), steps[1..], skew, i);
    }
  }

  ghost predicate ReachesLocked(s: State, steps: seq<Step>, skew: nat, i: nat) {
    i < |Run(s, steps, skew).fills| && Rank(Run(s, steps, skew).fills[i].status) >= Rank(SrcLocked)
  }

  lemma OwnLockShows(s: State, skew: nat, i: nat)
    requires LocksLogged(s.chains) && i < |s.fills| && s.fills[i].status == Authorized
    requires LockedFor(s, i, s.fills[i].filler)
    ensures ReachesLocked(s, [SeeFilled(Filled(s.fills[i].orderHash, s.fills[i].hashlock, s.fills[i].filler,
                                               SlotOf(s.fills[i])))], skew, i)
  {
    var e := Filled(s.fills[i].orderHash, s.fills[i].hashlock, s.fills[i].filler, SlotOf(s.fills[i]));
    assert Apply(s, SeeFilled(e), skew).fills[i].status == SrcLocked;
    assert Run(s, [SeeFilled(e)], skew) == Run(Apply(s, SeeFilled(e), skew), [], skew);
  }

  lemma OthersLockNeverShows(s: State, skew: nat, i: nat)
    requires Inv(s) && TakenByOther(s, i)
    ensures forall steps :: !ReachesLocked(s, steps, skew, i)
  {
    forall steps
      ensures !ReachesLocked(s, steps, skew, i)
    {
      OthersLockStrands(s, steps, skew, i);
    }
  }

  /**
   * In every run: once an authorized row's slot is taken, the row can come to show it locked exactly when its own
   * filler holds the slot. So waiting for `src_locked` before revealing is a safe and sufficient check.
   */
  lemma LockShowsIff(srcNow: int, dstNow: int, before: seq<Step>, skew: nat, i: nat)
    requires i < |Reached(srcNow, dstNow, before, skew).fills|
    requires Reached(srcNow, dstNow, before, skew).fills[i].status == Authorized
    requires SlotOf(Reached(srcNow, dstNow, before, skew).fills[i]) in Reached(srcNow, dstNow, before, skew).chains.src
    ensures var s := Reached(srcNow, dstNow, before, skew);
            (exists steps :: ReachesLocked(s, steps, skew, i)) <==> LockedFor(s, i, s.fills[i].filler)
  {
    var s := Reached(srcNow, dstNow, before, skew);
    ReachedFacts(srcNow, dstNow, before, skew);
    if LockedFor(s, i, s.fills[i].filler) {
      OwnLockShows(s, skew, i);
    } else {
      OthersLockNeverShows(s, skew, i);
    }
  }

  // ---------------------------------------------------------------- whom a withdrawal pays

  /** The source escrow paid this account, the destination escrow its recipient. */
  ghost predicate PaidOut(c: Chains, source: Address, payee: Address, destination: Address) {
    && source in c.src && c.src[source].state == Paid && c.src[source].filler == payee
    && destination in c.dst && c.dst[destination].state == Paid
  }

  lemma WithdrawThenClaim(s: State, skew: nat, source: Address, destination: Address, secret: nat)
    requires CanWithdraw(s.chains, source, secret) && CanClaim(s.chains, destination, secret)
    ensures PaidOut(Run(s, [Withdraw(source, secret), Claim(destination, secret)], skew).chains, source,
                    s.chains.src[source].filler, destination)
  {
    RunTwo(s, [Withdraw(source, secret), Claim(destination, secret)], skew);
  }

  /**
   * Revealing against another account's lock: the source pays that account, and the published secret claims the
   * destination escrow, while the row stays authorized for good.
   */
  lemma RevealPaysTheOther(s: State, skew: nat, i: nat, secret: nat)
    requires Inv(s) && TakenByOther(s, i) && CanWithdraw(s.chains, SlotOf(s.fills[i]), secret)
    requires s.fills[i].dstAddr.Some? && CanClaim(s.chains, s.fills[i].dstAddr.value, secret)
    ensures var slot, after := SlotOf(s.fills[i]), Run(s, [Withdraw(SlotOf(s.fills[i]), secret),
                                                           Claim(s.fills[i].dstAddr.value, secret)], skew);
            && PaidOut(after.chains, slot, s.chains.src[slot].filler, s.fills[i].dstAddr.value)
            && TakenByOther(after, i) && after.fills[i] == s.fills[i]
  {
    var slot, destination := SlotOf(s.fills[i]), s.fills[i].dstAddr.value;
    WithdrawThenClaim(s, skew, slot, destination, secret);
    OthersLockStrands(s, [Withdraw(slot, secret), Claim(destination, secret)], skew, i);
  }

  /** A row that shows the lock is locked by its own filler, in every run: its withdrawal pays that filler. */
  lemma ShownLockIsOwn(srcNow: int, dstNow: int, steps: seq<Step>, skew: nat, i: nat)
    requires i < |Reached(srcNow, dstNow, steps, skew).fills|
    requires Rank(Reached(srcNow, dstNow, steps, skew).fills[i].status) >= Rank(SrcLocked)
    ensures var s := Reached(srcNow, dstNow, steps, skew); LockedFor(s, i, s.fills[i].filler)
  {
    ReachedFacts(srcNow, dstNow, steps, skew);
    var s := Reached(srcNow, dstNow, steps, skew);
    assert RowOk(s.orders, s.chains, s.fills[i]);
  }
}

/**
 * What the source factory holds back of an order: remainingInput falls with every lock and rises again with every
 * cancelled one (contract/src/crosschain/EscrowSrcFactory.sol).
 */
module CrossChainReserve {
  import opened CrossChainStore
  import opened CrossChainProtocol
  import opened CrossChainOutcomes

  /** What one lock takes of an order: its amount, unless it was given back to the swapper. */
  function Share(e: SrcEscrow, orderHash: nat): nat {
    if e.auth.orderHash == orderHash && e.state != Returned then e.auth.fillAmount else 0
  }

  /** The amounts of an order's locks that are open or were paid to their fillers. */
  ghost function Held(src: map<Address, SrcEscrow>, locks: set<Address>, orderHash: nat): nat
    requires locks <= src.Keys
  {
    if locks == {} then 0
    else
      var a :| a in locks;
      Share(src[a], orderHash) + Held(src, locks - {a}, orderHash)
  }

  /** Any lock can be counted first. */
  lemma {:induction false} CountFirst(src: map<Address, SrcEscrow>, locks: set<Address>, orderHash: nat, a: Address)
    requires locks <= src.Keys && a in locks
    ensures Held(src, locks, orderHash) == Share(src[a], orderHash) + Held(src, locks - {a}, orderHash)
    decreases |locks|
  {
    var b :| b in locks
             && Held(src, locks, orderHash) == Share(src[b], orderHash) + Held(src, locks - {b}, orderHash);
    if b != a {
      CountFirst(src, locks - {b}, orderHash, a);
      CountFirst(src, locks - {a}, orderHash, b);
      assert locks - {a} - {b} == locks - {b} - {a};
    }
  }

  /** Only what the counted locks share matters. */
  lemma {:induction false} SameShares(src: map<Address, SrcEscrow>, src': map<Address, SrcEscrow>, locks: set<Address>,
                                      orderHash: nat)
    requires locks <= src.Keys && locks <= src'.Keys
    requires forall a :: a in locks ==> Share(src'[a], orderHash) == Share(src[a], orderHash)
    ensures Held(src', locks, orderHash) == Held(src, locks, orderHash)
    decreases |locks|
  {
    if locks != {} {
      var a :| a in locks;
      CountFirst(src, locks, orderHash, a);
      CountFirst(src', locks, orderHash, a);
      SameShares(src, src', locks - {a}, orderHash);
    }
  }

  /** One lock changed or came in: what is held moves by its share. */
  lemma OneLockMoves(src: map<Address, SrcEscrow>, a: Address, e: SrcEscrow, orderHash: nat)
    ensures Held(src[a := e], src[a := e].Keys, orderHash) + (if a in src then Share(src[a], orderHash) else 0)
         == Held(src, src.Keys, orderHash) + Share(e, orderHash)
  {
    var src', others := src[a := e], src.Keys - {a};
    assert src'.Keys - {a} == others;
    CountFirst(src', src'.Keys, orderHash, a);
    SameShares(src, src', others, orderHash);
    if a in src {
      CountFirst(src, src.Keys, orderHash, a);
    } else {
      assert others == src.Keys;
    }
  }

  ghost predicate ReservedIsHeld(c: Chains) {
    forall orderHash :: Reserved(c, orderHash) == Held(c.src, c.src.Keys, orderHash)
  }

  ghost predicate WithinOrders(s: State) {
    forall orderHash ::
      Reserved(s.chains, orderHash) <= if orderHash in s.orders then s.orders[orderHash].inputAmount else 0
  }

  lemma FillSlotReserves(s: State, sig: Signature, filler: Address)
    requires CanFillSlot(s, sig) && ReservedIsHeld(s.chains)
    ensures ReservedIsHeld(FilledSlot(s.chains, sig.auth, filler))
  {
    var c, auth := s.chains, sig.auth;
    var d := FilledSlot(c, auth, filler);
    forall orderHash
      ensures Reserved(d, orderHash) == Held(d.src, d.src.Keys, orderHash)
    {
      OneLockMoves(c.src, SrcClone(auth.orderHash, auth.hashlock), SrcEscrow(auth, filler, Open), orderHash);
    }
  }

  lemma SettleReserves(c: Chains, escrow: Address, state: Settlement, e: SrcEvent)
    requires ReservedIsHeld(c) && escrow in c.src && c.src[escrow].state == Open && state != Open
    ensures ReservedIsHeld(SettleSrc(c, escrow, state, e))
  {
    var d := SettleSrc(c, escrow, state, e);
    forall orderHash
      ensures Reserved(d, orderHash) == Held(d.src, d.src.Keys, orderHash)
    {
      OneLockMoves(c.src, escrow, c.src[escrow].(state := state), orderHash);
      CountFirst(c.src, c.src.Keys, orderHash, escrow);
    }
  }

  /** Every other step leaves the locks and the reservations as they are. */
  lemma OthersKeepLocks(s: State, step: Step, skew: nat)
    requires !step.FillSlot? && !step.Withdraw? && !step.Cancel?
    ensures var c := Apply(s, step, skew).chains; c.src == s.chains.src && c.reserved == s.chains.reserved
  {
  }

  lemma StepReserves(s: State, step: Step, skew: nat)
    requires ReservedIsHeld(s.chains)
    ensures ReservedIsHeld(Apply(s, step, skew).chains)
  {
    if Accepted(s, step, skew) {
      match step {
        case FillSlot(sig, filler) => FillSlotReserves(s, sig, filler);
        case Withdraw(escrow, secret) => SettleReserves(s.chains, escrow, Paid, Withdrawn(escrow, secret));
        case Cancel(escrow) => SettleReserves(s.chains, escrow, Returned, Cancelled(escrow));
        case _ => OthersKeepLocks(s, step, skew);
      }
    }
  }

  lemma StepStaysWithin(s: State, step: Step, skew: nat)
    requires WithinOrders(s)
    ensures WithinOrders(Apply(s, step, skew))
  {
  }

  lemma {:induction false} RunReserves(s: State, steps: seq<Step>, skew: nat)
    requires ReservedIsHeld(s.chains) && WithinOrders(s)
    ensures ReservedIsHeld(Run(s, steps, skew).chains) && WithinOrders(Run(s, steps, skew))
    decreases |steps|
  {
    if steps != [] {
      StepReserves(s, steps[0], skew);
      StepStaysWithin(s, steps[0], skew);
      RunReserves(Apply(s, steps[0], skew), steps[1..], skew);
    }
  }

  /**
   * In every run, for every order: what the factory holds back is exactly the sum of its locks that are open or were
   * paid, never more than the order; so all its fillers together are never paid more than its input, and a cancelled
   * lock's amount can be filled again.
   */
  lemma ReservedIsWhatLocksHold(srcNow: int, dstNow: int, steps: seq<Step>, skew: nat, orderHash: nat)
    ensures var s := Reached(srcNow, dstNow, steps, skew);
            && Reserved(s.chains, orderHash) == Held(s.chains.src, s.chains.src.Keys, orderHash)
            && Held(s.chains.src, s.chains.src.Keys, orderHash)
               <= if orderHash in s.orders then s.orders[orderHash].inputAmount else 0
  {
    RunReserves(Initial(srcNow, dstNow), steps, skew);
  }

  /** A cancellation gives the whole amount back: clamping the remainder at the order's total never takes effect. */
  lemma CancelGivesBackAll(srcNow: int, dstNow: int, steps: seq<Step>, skew: nat, escrow: Address)
    requires CanCancel(Reached(srcNow, dstNow, steps, skew).chains, escrow)
    ensures var s := Reached(srcNow, dstNow, steps, skew);
            var auth := s.chains.src[escrow].auth;
            && auth.fillAmount <= Reserved(s.chains, auth.orderHash)
            && Reserved(Apply(s, Cancel(escrow), skew).chains, auth.orderHash)
               == Reserved(s.chains, auth.orderHash) - auth.fillAmount
  {
    RunReserves(Initial(srcNow, dstNow), steps, skew);
    var s := Reached(srcNow, dstNow, steps, skew);
    CountFirst(s.chains.src, s.chains.src.Keys, s.chains.src[escrow].auth.orderHash, escrow);
    CancelReserves(s, escrow, skew);
  }

  lemma CancelReserves(s: State, escrow: Address, skew: nat)
    requires CanCancel(s.chains, escrow)
    ensures Apply(s, Cancel(escrow), skew).chains.reserved == GivenBack(s.chains, s.chains.src[escrow].auth)
  {
  }

  // ---------------------------------------------------------------- when a lock pays whom

  /** Paid only against its published secret, given back only after its deadline. */
  ghost predicate SettledRightly(c: Chains, a: Address)
    requires a in c.src
  {
    && (c.src[a].state == Paid ==> Withdrawn(a, c.src[a].auth.hashlock.preimage) in c.srcLog)
    && (c.src[a].state == Returned ==> c.src[a].auth.t1 < c.srcNow && Cancelled(a) in c.srcLog)
  }

  ghost predicate LocksSettledRightly(c: Chains) {
    forall a :: a in c.src ==> SettledRightly(c, a)
  }

  lemma StepSettlesRightly(s: State, step: Step, skew: nat)
    requires LocksSettledRightly(s.chains)
    ensures LocksSettledRightly(Apply(s, step, skew).chains)
  {
  }

  lemma {:induction false} RunSettlesRightly(s: State, steps: seq<Step>, skew: nat)
    requires LocksSettledRightly(s.chains)
    ensures LocksSettledRightly(Run(s, steps, skew).chains)
    decreases |steps|
  {
    if steps != [] {
      StepSettlesRightly(s, steps[0], skew);
      RunSettlesRightly(Apply(s, steps[0], skew), steps[1..], skew);
    }
  }

  /**
   * In every run, of every source escrow: its filler was paid only if its secret is public, and its swapper was paid
   * back only after t1; so until t1 nothing but the secret moves the lock.
   */
  lemma LockPaysTheSecretUntilT1(srcNow: int, dstNow: int, steps: seq<Step>, skew: nat, a: Address)
    requires a in Reached(srcNow, dstNow, steps, skew).chains.src
    ensures var c := Reached(srcNow, dstNow, steps, skew).chains;
            && (c.src[a].state == Paid ==> exists secret ::
                  c.src[a].auth.hashlock == HashOf(secret) && Withdrawn(a, secret) in c.srcLog)
            && (c.src[a].state == Returned ==> c.src[a].auth.t1 < c.srcNow)
  {
    RunSettlesRightly(Initial(srcNow, dstNow), steps, skew);
    var c := Reached(srcNow, dstNow, steps, skew).chains;
    assert SettledRightly(c, a);
    if c.src[a].state == Paid {
      assert c.src[a].auth.hashlock == HashOf(c.src[a].auth.hashlock.preimage);
    }
  }
}

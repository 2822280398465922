/**
 * Two rows and one destination escrow: the watcher finds rows by hashlock, and a hashlock is unique only within an
 * order, so a creation seen twice can fund two rows (backend/src/chain/escrowDstWatcher.ts).
 */
module CrossChainSharing {
  import opened Wrappers
  import opened CrossChainStore
  import opened CrossChainProtocol
  import opened CrossChainSafety
  import opened CrossChainOutcomes

  // ---------------------------------------------------------------- every clone was announced

  function Creation(escrow: Address): DstEvent
    requires escrow.DstClone?
  {
    EscrowCreated(escrow.chain, escrow, escrow.filler, escrow.hashlock)
  }

  /** Factories log each clone they deploy. */
  ghost predicate Announced(c: Chains) {
    forall a :: a in c.dst ==> a.DstClone? && Creation(a) in c.dstLog
  }

  lemma StepKeepsAnnounced(s: State, step: Step, skew: nat)
    requires Announced(s.chains)
    ensures Announced(Apply(s, step, skew).chains)
  {
  }

  lemma {:induction false} RunKeepsAnnounced(s: State, steps: seq<Step>, skew: nat)
    requires Announced(s.chains)
    ensures Announced(Run(s, steps, skew).chains)
    decreases |steps|
  {
    if steps != [] {
      StepKeepsAnnounced(s, steps[0], skew);
      RunKeepsAnnounced(Apply(s, steps[0], skew), steps[1..], skew);
    }
  }

  // ---------------------------------------------------------------- when two rows can name one escrow

  /** The escrow exists with the terms this row commits to. */
  ghost predicate Fits(s: State, i: nat, escrow: Address) {
    && i < |s.fills| && s.fills[i].orderHash in s.orders
    && FundedAsCommitted(s.orders[s.fills[i].orderHash], s.chains, s.fills[i].(dstAddr := Some(escrow)))
  }

  /** One destination escrow could serve both rows. */
  ghost predicate SameDestination(s: State, i: nat, j: nat) {
    && i < |s.fills| && j < |s.fills| && s.fills[i].orderHash in s.orders && s.fills[j].orderHash in s.orders
    && s.fills[i].hashlock == s.fills[j].hashlock && s.fills[i].t2 == s.fills[j].t2
    && var o, p := s.orders[s.fills[i].orderHash], s.orders[s.fills[j].orderHash];
       o.swapper == p.swapper && o.outputToken == p.outputToken && o.dstChain == p.dstChain
  }

  ghost predicate Shares(s: State, i: nat, j: nat) {
    i < |s.fills| && j < |s.fills| && s.fills[i].dstAddr.Some? && s.fills[i].dstAddr == s.fills[j].dstAddr
  }

  ghost predicate ReachesShared(s: State, steps: seq<Step>, skew: nat, i: nat, j: nat) {
    Shares(Run(s, steps, skew), i, j)
  }

  lemma SeeingFunds(s: State, skew: nat, i: nat, escrow: Address)
    requires Announced(s.chains) && Fits(s, i, escrow) && s.fills[i].status == Quoted
    ensures Apply(s, SeeCreated(Creation(escrow), i), skew)
         == s.(fills := Record(s.fills, s.fills[i].orderHash, s.fills[i].hashlock, DstVerified(escrow)))
  {
  }

  lemma TwoSightingsShare(s: State, skew: nat, i: nat, j: nat, escrow: Address)
    requires Announced(s.chains) && Unique(s.fills) && Fits(s, i, escrow) && Fits(s, j, escrow) && i != j
    requires s.fills[i].status == Quoted && s.fills[j].status == Quoted
    ensures ReachesShared(s, [SeeCreated(Creation(escrow), i), SeeCreated(Creation(escrow), j)], skew, i, j)
  {
    var steps := [SeeCreated(Creation(escrow), i), SeeCreated(Creation(escrow), j)];
    KeysDiffer(s.fills, i, j);
    KeysDiffer(s.fills, j, i);
    SeeingFunds(s, skew, i, escrow);
    var s1 := Apply(s, steps[0], skew);
    assert s1.fills[j] == s.fills[j] && s1.fills[i] == With(s.fills[i], DstVerified(escrow));
    SeeingFunds(s1, skew, j, escrow);
    RunTwo(s, steps, skew);
  }

  function FillerIds(c: Chains): set<nat> {
    set a | a in c.dst && a.DstClone? && a.filler.Account? :: a.filler.id
  }

  lemma FreshFiller(c: Chains) returns (id: nat)
    ensures forall a :: a in c.dst && a.DstClone? && a.filler.Account? ==> a.filler.id < id
  {
    id := FreshId(FillerIds(c));
    forall a | a in c.dst && a.DstClone? && a.filler.Account?
      ensures a.filler.id < id
    {
      assert a.filler.id in FillerIds(c);
    }
  }

  lemma DeployThenShare(s: State, skew: nat, i: nat, j: nat) returns (steps: seq<Step>)
    requires Announced(s.chains) && Unique(s.fills) && SameDestination(s, i, j) && i != j
    requires s.fills[i].status == Quoted && s.fills[j].status == Quoted && s.chains.dstNow < s.fills[i].t2
    ensures ReachesShared(s, steps, skew, i, j)
  {
    var f, g, o := s.fills[i], s.fills[j], s.orders[s.fills[i].orderHash];
    var id := FreshFiller(s.chains);
    var escrow := DstClone(o.dstChain, f.hashlock, Account(id));
    assert escrow !in s.chains.dst;
    var amount := 1 + f.fillAmount + g.fillAmount;
    var deploy := DeployDst(o.dstChain, f.hashlock, Account(id), o.swapper, o.outputToken, amount, f.t2);
    var s1 := Apply(s, deploy, skew);
    assert s1 == s.(chains := DeployedDst(s.chains, o.dstChain, f.hashlock, Account(id),
                                          DstEscrow(o.swapper, o.outputToken, amount, f.t2, Open, 0)));
    StepKeepsAnnounced(s, deploy, skew);
    TwoSightingsShare(s1, skew, i, j, escrow);
    var rest := [SeeCreated(Creation(escrow), i), SeeCreated(Creation(escrow), j)];
    RunReads(s, s1, deploy, rest, skew);
    steps := [deploy] + rest;
  }

  /** An escrow deployed during a run was deployed before its expiry. */
  lemma {:induction false} DeployedInTime(s: State, steps: seq<Step>, skew: nat, escrow: Address)
    requires Inv(s) && escrow !in s.chains.dst && escrow in Run(s, steps, skew).chains.dst
    ensures s.chains.dstNow < Run(s, steps, skew).chains.dst[escrow].expiry
    decreases |steps|
  {
    var s1 := Apply(s, steps[0], skew);
    StepKeepsInv(s, steps[0], skew);
    if escrow in s1.chains.dst {
      DeployedNow(s, steps[0], skew, escrow);
      RunKeepsInv(s1, steps[1..], skew);
    } else {
      DeployedInTime(s1, steps[1..], skew, escrow);
    }
  }

  lemma DeployedNow(s: State, step: Step, skew: nat, escrow: Address)
    requires escrow !in s.chains.dst && escrow in Apply(s, step, skew).chains.dst
    ensures s.chains.dstNow < Apply(s, step, skew).chains.dst[escrow].expiry
  {
  }

  /** The terms a row commits to do not change, so an escrow that fits later and exists now fits now. */
  lemma FitsBefore(s: State, s': State, i: nat)
    requires RowsOk(s) && RowsOk(s') && Advances(s, s') && i < |s.fills| && s'.fills[i].dstAddr.Some?
    ensures Fits(s', i, s'.fills[i].dstAddr.value)
    ensures s'.fills[i].dstAddr.value in s.chains.dst ==> Fits(s, i, s'.fills[i].dstAddr.value)
  {
    assert RowOk(s.orders, s.chains, s.fills[i]) && RowOk(s'.orders, s'.chains, s'.fills[i]);
    assert Evolves(s.fills[i], s'.fills[i]);
  }

  lemma SharedTermsAgree(s: State, s': State, i: nat, j: nat)
    requires RowsOk(s) && RowsOk(s') && Advances(s, s') && i < |s.fills| && j < |s.fills| && Shares(s', i, j)
    ensures SameDestination(s, i, j)
  {
    FitsBefore(s, s', i);
    FitsBefore(s, s', j);
    assert RowOk(s.orders, s.chains, s.fills[i]) && RowOk(s.orders, s.chains, s.fills[j]);
    assert Evolves(s.fills[i], s'.fills[i]) && Evolves(s.fills[j], s'.fills[j]);
  }

  lemma SharedNeeds(s: State, steps: seq<Step>, skew: nat, i: nat, j: nat)
    requires Inv(s) && i < |s.fills| && j < |s.fills| && ReachesShared(s, steps, skew, i, j)
    ensures SameDestination(s, i, j)
    ensures s.chains.dstNow < s.fills[i].t2 || exists escrow :: Fits(s, i, escrow) && Fits(s, j, escrow)
  {
    var s' := Run(s, steps, skew);
    RunKeepsInv(s, steps, skew);
    SharedTermsAgree(s, s', i, j);
    FitsBefore(s, s', i);
    FitsBefore(s, s', j);
    RunEvolves(s, steps, skew, i);
    var escrow := s'.fills[i].dstAddr.value;
    if escrow !in s.chains.dst {
      DeployedInTime(s, steps, skew, escrow);
    }
  }

  /**
   * In every run: two quoted rows can come to name one destination escrow exactly when they agree on hashlock, t2,
   * swapper, output token and destination chain, and either t2 is still ahead, so that an escrow large enough can be
   * deployed, or one that covers each of the two amounts exists.
   */
  lemma RowsCanShareIff(srcNow: int, dstNow: int, before: seq<Step>, skew: nat, i: nat, j: nat)
    requires i < |Reached(srcNow, dstNow, before, skew).fills| && j < |Reached(srcNow, dstNow, before, skew).fills|
    requires i != j && Reached(srcNow, dstNow, before, skew).fills[i].status == Quoted
    requires Reached(srcNow, dstNow, before, skew).fills[j].status == Quoted
    ensures var s := Reached(srcNow, dstNow, before, skew);
            (exists steps :: ReachesShared(s, steps, skew, i, j))
            <==> SameDestination(s, i, j)
                 && (s.chains.dstNow < s.fills[i].t2 || exists escrow :: Fits(s, i, escrow) && Fits(s, j, escrow))
  {
    var s := Reached(srcNow, dstNow, before, skew);
    InitialInv(srcNow, dstNow);
    RunKeepsInv(Initial(srcNow, dstNow), before, skew);
    RunKeepsAnnounced(Initial(srcNow, dstNow), before, skew);
    if steps :| ReachesShared(s, steps, skew, i, j) {
      SharedNeeds(s, steps, skew, i, j);
    } else if SameDestination(s, i, j) && s.chains.dstNow < s.fills[i].t2 {
      var steps := DeployThenShare(s, skew, i, j);
    } else if escrow :| Fits(s, i, escrow) && Fits(s, j, escrow) {
      TwoSightingsShare(s, skew, i, j, escrow);
    }
  }

  // ---------------------------------------------------------------- distinct hashlocks are paid in full

  ghost predicate AllSecured(s: State, rows: seq<nat>) {
    forall k :: 0 <= k < |rows| ==>
      rows[k] < |s.fills| && s.fills[rows[k]].dstAddr.Some? && Secured(s, rows[k])
  }

  ghost predicate DistinctHashlocks(s: State, rows: seq<nat>)
    requires AllSecured(s, rows)
  {
    forall k, l :: 0 <= k < l < |rows| ==> s.fills[rows[k]].hashlock != s.fills[rows[l]].hashlock
  }

  /** What the fillers withdrew on the source chain for these rows. */
  ghost function Withdrawals(s: State, rows: seq<nat>): nat
    requires AllSecured(s, rows)
  {
    if rows == [] then 0
    else
      var f := s.fills[rows[0]];
      s.chains.src[SrcClone(f.orderHash, f.hashlock)].auth.fillAmount + Withdrawals(s, rows[1..])
  }

  /** The destination escrows these rows name. */
  ghost function Destinations(s: State, rows: seq<nat>): (escrows: seq<Address>)
    requires AllSecured(s, rows)
    ensures |escrows| == |rows| && forall k :: 0 <= k < |rows| ==> Some(escrows[k]) == s.fills[rows[k]].dstAddr
  {
    seq(|rows|, k requires 0 <= k < |rows| => s.fills[rows[k]].dstAddr.value)
  }

  /** What these escrows pay the swappers. */
  ghost function Payouts(c: Chains, escrows: seq<Address>): nat
    requires forall k :: 0 <= k < |escrows| ==> escrows[k] in c.dst
  {
    if escrows == [] then 0 else c.dst[escrows[0]].amount + Payouts(c, escrows[1..])
  }

  lemma SecuredRowIsCovered(s: State, i: nat)
    requires Inv(s) && Secured(s, i)
    ensures var f := s.fills[i];
            && s.chains.src[SrcClone(f.orderHash, f.hashlock)].auth.fillAmount == f.fillAmount
            && f.fillAmount <= s.chains.dst[f.dstAddr.value].amount
  {
    var f := s.fills[i];
    var source := SrcClone(f.orderHash, f.hashlock);
    SourceIsBacked(s, i);
    var j :| 0 <= j < |s.fills| && Backs(s.fills[j], s.chains.src[source].auth);
    assert source == SrcClone(s.chains.src[source].auth.orderHash, s.chains.src[source].auth.hashlock);
    OnlyRow(s.fills, i, s.fills[j]);
  }

  lemma DestinationsExist(s: State, rows: seq<nat>)
    requires AllSecured(s, rows)
    ensures forall k :: 0 <= k < |rows| ==> Destinations(s, rows)[k] in s.chains.dst
  {
  }

  lemma TailIsSecured(s: State, rows: seq<nat>)
    requires AllSecured(s, rows) && rows != []
    ensures Secured(s, rows[0]) && Some(Destinations(s, rows)[0]) == s.fills[rows[0]].dstAddr
    ensures AllSecured(s, rows[1..]) && Destinations(s, rows)[1..] == Destinations(s, rows[1..])
  {
  }

  lemma {:induction false} PayoutsCover(s: State, rows: seq<nat>)
    requires Inv(s) && AllSecured(s, rows)
    ensures forall k :: 0 <= k < |rows| ==> Destinations(s, rows)[k] in s.chains.dst
    ensures Withdrawals(s, rows) <= Payouts(s.chains, Destinations(s, rows))
  {
    DestinationsExist(s, rows);
    if rows != [] {
      TailIsSecured(s, rows);
      SecuredRowIsCovered(s, rows[0]);
      PayoutsCover(s, rows[1..]);
    }
  }

  /**
   * Rows with distinct hashlocks whose sources were withdrawn and whose legs are paid or claimable name distinct
   * escrows, and together these pay the swappers at least what was withdrawn.
   */
  lemma DistinctHashlocksPayInFull(s: State, rows: seq<nat>)
    requires Inv(s) && AllSecured(s, rows)
    requires DistinctHashlocks(s, rows)
    ensures forall k :: 0 <= k < |rows| ==> Destinations(s, rows)[k] in s.chains.dst
    ensures forall k, l :: 0 <= k < l < |rows| ==> Destinations(s, rows)[k] != Destinations(s, rows)[l]
    ensures Withdrawals(s, rows) <= Payouts(s.chains, Destinations(s, rows))
  {
    PayoutsCover(s, rows);
    forall k, l | 0 <= k < l < |rows|
      ensures Destinations(s, rows)[k] != Destinations(s, rows)[l]
    {
      OwnEscrow(s, rows[k], rows[l]);
    }
  }

  // ---------------------------------------------------------------- one escrow for two rows

  const SECRET: nat := 5
  const LOCK := HashOf(SECRET)
  const SWAPPER := Account(1)
  const FILLER := Account(9)
  const SHARED := DstClone(2, LOCK, FILLER)

  /** Two orders of one swapper, quoted by one filler under one hashlock, deadlines 1 and 1 + gap. */
  function TwoOrders(amount: nat): map<nat, Order> {
    map[1 := Order(SWAPPER, 7, amount, 100, 1, 2, true), 2 := Order(SWAPPER, 7, amount, 100, 1, 2, true)]
  }

  function OneQuote(amount: nat, gap: nat): Quote {
    Quote(FILLER, LOCK, amount, 1, 1 + gap)
  }

  function Terms(orderHash: nat, amount: nat, gap: nat): Auth {
    Auth(orderHash, LOCK, amount, 1, 1 + gap)
  }

  function Signed(orderHash: nat, amount: nat, gap: nat): Signature {
    Signature(SWAPPER, Terms(orderHash, amount, gap))
  }

  /** The escrow is deployed for one amount; both rows are quoted. */
  function Deployed(amount: nat, gap: nat): State {
    State(TwoOrders(amount), [NewFill(1, OneQuote(amount, gap)), NewFill(2, OneQuote(amount, gap))], {},
          Chains(map[], map[SHARED := DstEscrow(SWAPPER, 7, amount, 1 + gap, Open, 0)], {}, {Creation(SHARED)}, map[],
                 0, 0),
          map[], 0)
  }

  function Funded(orderHash: nat, amount: nat, gap: nat): Fill {
    With(NewFill(orderHash, OneQuote(amount, gap)), DstVerified(SHARED))
  }

  function SignedRow(orderHash: nat, amount: nat, gap: nat): Fill {
    Funded(orderHash, amount, gap).(swapperSig := Some(Signed(orderHash, amount, gap)), status := Authorized)
  }

  /** Both rows name the escrow and are signed. */
  function BothSigned(amount: nat, gap: nat): State {
    Deployed(amount, gap).(fills := [SignedRow(1, amount, gap), SignedRow(2, amount, gap)],
                           sigs := {Signed(1, amount, gap), Signed(2, amount, gap)})
  }

  lemma {:induction false} RunConcat(s: State, a: seq<Step>, b: seq<Step>, skew: nat)
    ensures Run(s, a + b, skew) == Run(Run(s, a, skew), b, skew)
    decreases |a|
  {
    if a == [] {
      assert a + b == b;
    } else {
      assert (a + b)[1..] == a[1..] + b;
      RunConcat(Apply(s, a[0], skew), a[1..], b, skew);
    }
  }

  lemma RunOne(s: State, step: Step, skew: nat)
    ensures Run(s, [step], skew) == Apply(s, step, skew)
  {
    assert Run(Apply(s, step, skew), [], skew) == Apply(s, step, skew);
  }

  lemma OrdersAreOpened(amount: nat, skew: nat)
    ensures var o := Order(SWAPPER, 7, amount, 100, 1, 2, false);
            Run(Initial(0, 0), [CreateIntent(1, o), CreateIntent(2, o)] + [SignOrder(1), SignOrder(2)], skew)
            == Initial(0, 0).(orders := TwoOrders(amount))
  {
    var o := Order(SWAPPER, 7, amount, 100, 1, 2, false);
    var a, b := [CreateIntent(1, o), CreateIntent(2, o)], [SignOrder(1), SignOrder(2)];
    RunConcat(Initial(0, 0), a, b, skew);
    RunTwo(Initial(0, 0), a, skew);
    var s := Run(Initial(0, 0), a, skew);
    assert s == Initial(0, 0).(orders := map[1 := o, 2 := o]);
    RunTwo(s, b, skew);
  }

  lemma QuotesAndDeployment(amount: nat, gap: nat, skew: nat)
    requires amount > 0 && gap > 0
    ensures var steps := [QuoteFill(1, OneQuote(amount, gap)), QuoteFill(2, OneQuote(amount, gap))]
                         + [DeployDst(2, LOCK, FILLER, SWAPPER, 7, amount, 1 + gap)];
            Run(Initial(0, 0).(orders := TwoOrders(amount)), steps, skew) == Deployed(amount, gap)
  {
    var s0 := Initial(0, 0).(orders := TwoOrders(amount));
    var q := OneQuote(amount, gap);
    var a, b := [QuoteFill(1, q), QuoteFill(2, q)], [DeployDst(2, LOCK, FILLER, SWAPPER, 7, amount, 1 + gap)];
    RunConcat(s0, a, b, skew);
    RunTwo(s0, a, skew);
    var s1 := Apply(s0, QuoteFill(1, q), skew);
    assert s1 == s0.(fills := [NewFill(1, q)]);
    var s2 := Apply(s1, QuoteFill(2, q), skew);
    assert s2 == s0.(fills := [NewFill(1, q), NewFill(2, q)]);
    RunOne(s2, b[0], skew);
  }

  lemma BothAreFunded(amount: nat, gap: nat, skew: nat)
    ensures Run(Deployed(amount, gap), [SeeCreated(Creation(SHARED), 0), SeeCreated(Creation(SHARED), 1)], skew)
         == Deployed(amount, gap).(fills := [Funded(1, amount, gap), Funded(2, amount, gap)])
  {
    var s0 := Deployed(amount, gap);
    var s1 := Apply(s0, SeeCreated(Creation(SHARED), 0), skew);
    assert s1.fills == [Funded(1, amount, gap), s0.fills[1]];
    var s2 := Apply(s1, SeeCreated(Creation(SHARED), 1), skew);
    assert s2.fills == [Funded(1, amount, gap), Funded(2, amount, gap)];
    RunTwo(s0, [SeeCreated(Creation(SHARED), 0), SeeCreated(Creation(SHARED), 1)], skew);
  }

  lemma BothAreSigned(amount: nat, gap: nat, skew: nat)
    ensures var s := Deployed(amount, gap).(fills := [Funded(1, amount, gap), Funded(2, amount, gap)]);
            Run(s, [SignFill(0, 1), SignFill(1, 1)]
                   + [SubmitSig(0, Signed(1, amount, gap), None, 0), SubmitSig(1, Signed(2, amount, gap), None, 0)],
                     skew)
            == BothSigned(amount, gap)
  {
    var s0 := Deployed(amount, gap).(fills := [Funded(1, amount, gap), Funded(2, amount, gap)]);
    var a := [SignFill(0, 1), SignFill(1, 1)];
    var b := [SubmitSig(0, Signed(1, amount, gap), None, 0), SubmitSig(1, Signed(2, amount, gap), None, 0)];
    RunConcat(s0, a, b, skew);
    RunTwo(s0, a, skew);
    var s2 := Run(s0, a, skew);
    assert s2 == s0.(sigs := {Signed(1, amount, gap), Signed(2, amount, gap)});
    var s3 := Apply(s2, b[0], skew);
    assert s3.fills == [SignedRow(1, amount, gap), Funded(2, amount, gap)];
    var s4 := Apply(s3, b[1], skew);
    assert s4.fills == [SignedRow(1, amount, gap), SignedRow(2, amount, gap)];
    RunTwo(s2, b, skew);
  }

  /** Both sources were withdrawn; the one destination escrow, the only one, paid once. */
  ghost predicate PaidOnceForTwo(s: State, amount: nat) {
    && |s.fills| == 2 && Secured(s, 0) && Secured(s, 1) && Shares(s, 0, 1)
    && s.chains.dst.Keys == {s.fills[0].dstAddr.value} && s.chains.dst[s.fills[0].dstAddr.value].state == Paid
    && s.chains.dst[s.fills[0].dstAddr.value].amount == amount
    && s.chains.src[SrcClone(s.fills[0].orderHash, s.fills[0].hashlock)].auth.fillAmount == amount
    && s.chains.src[SrcClone(s.fills[1].orderHash, s.fills[1].hashlock)].auth.fillAmount == amount
  }

  function Settlements(amount: nat, gap: nat): seq<Step> {
    [FillSlot(Signed(1, amount, gap), FILLER), FillSlot(Signed(2, amount, gap), FILLER)]
    + ([Withdraw(SrcClone(1, LOCK), SECRET), Withdraw(SrcClone(2, LOCK), SECRET)] + [Claim(SHARED, SECRET)])
  }

  /** Both source escrows exist, in this state; the rest is as before. */
  ghost predicate BothLocked(s: State, amount: nat, gap: nat, state: Settlement) {
    && s.fills == BothSigned(amount, gap).fills && s.chains.dst == BothSigned(amount, gap).chains.dst
    && s.chains.srcNow == 0 && s.chains.dstNow == 0
    && SrcClone(1, LOCK) in s.chains.src && SrcClone(2, LOCK) in s.chains.src
    && s.chains.src[SrcClone(1, LOCK)] == SrcEscrow(Terms(1, amount, gap), FILLER, state)
    && s.chains.src[SrcClone(2, LOCK)] == SrcEscrow(Terms(2, amount, gap), FILLER, state)
  }

  lemma BothAreLocked(amount: nat, gap: nat, skew: nat)
    requires amount > 0 && gap > 0
    ensures var steps := [FillSlot(Signed(1, amount, gap), FILLER), FillSlot(Signed(2, amount, gap), FILLER)];
            BothLocked(Run(BothSigned(amount, gap), steps, skew), amount, gap, Open)
  {
    var s0 := BothSigned(amount, gap);
    var steps := [FillSlot(Signed(1, amount, gap), FILLER), FillSlot(Signed(2, amount, gap), FILLER)];
    RunTwo(s0, steps, skew);
    var s1 := Apply(s0, steps[0], skew);
    assert s1.chains.src == map[SrcClone(1, LOCK) := SrcEscrow(Terms(1, amount, gap), FILLER, Open)];
  }

  lemma BothArePaid(s: State, amount: nat, gap: nat, skew: nat)
    requires BothLocked(s, amount, gap, Open)
    ensures var steps := [Withdraw(SrcClone(1, LOCK), SECRET), Withdraw(SrcClone(2, LOCK), SECRET)];
            BothLocked(Run(s, steps, skew), amount, gap, Paid)
  {
    RunTwo(s, [Withdraw(SrcClone(1, LOCK), SECRET), Withdraw(SrcClone(2, LOCK), SECRET)], skew);
  }

  lemma OneIsClaimed(s: State, amount: nat, gap: nat, skew: nat)
    requires BothLocked(s, amount, gap, Paid) && gap > 0
    ensures PaidOnceForTwo(Run(s, [Claim(SHARED, SECRET)], skew), amount)
  {
    RunOne(s, Claim(SHARED, SECRET), skew);
  }

  lemma BothAreWithdrawn(amount: nat, gap: nat, skew: nat)
    requires amount > 0 && gap > 0
    ensures PaidOnceForTwo(Run(BothSigned(amount, gap), Settlements(amount, gap), skew), amount)
  {
    var s0 := BothSigned(amount, gap);
    var a := [FillSlot(Signed(1, amount, gap), FILLER), FillSlot(Signed(2, amount, gap), FILLER)];
    var b, c := [Withdraw(SrcClone(1, LOCK), SECRET), Withdraw(SrcClone(2, LOCK), SECRET)], [Claim(SHARED, SECRET)];
    RunConcat(s0, a, b + c, skew);
    BothAreLocked(amount, gap, skew);
    var s2 := Run(s0, a, skew);
    RunConcat(s2, b, c, skew);
    BothArePaid(s2, amount, gap, skew);
    OneIsClaimed(Run(s2, b, skew), amount, gap, skew);
  }

  function Preparations(amount: nat, gap: nat): seq<Step> {
    var o, q := Order(SWAPPER, 7, amount, 100, 1, 2, false), OneQuote(amount, gap);
    [CreateIntent(1, o), CreateIntent(2, o)] + [SignOrder(1), SignOrder(2)]
    + ([QuoteFill(1, q), QuoteFill(2, q)] + [DeployDst(2, LOCK, FILLER, SWAPPER, 7, amount, 1 + gap)]
       + ([SeeCreated(Creation(SHARED), 0), SeeCreated(Creation(SHARED), 1)]
          + ([SignFill(0, 1), SignFill(1, 1)]
             + [SubmitSig(0, Signed(1, amount, gap), None, 0), SubmitSig(1, Signed(2, amount, gap), None, 0)])))
  }

  lemma BothArePrepared(amount: nat, gap: nat, skew: nat)
    requires amount > 0 && gap > 0
    ensures Run(Initial(0, 0), Preparations(amount, gap), skew) == BothSigned(amount, gap)
  {
    var o, q := Order(SWAPPER, 7, amount, 100, 1, 2, false), OneQuote(amount, gap);
    var a := [CreateIntent(1, o), CreateIntent(2, o)] + [SignOrder(1), SignOrder(2)];
    var b := [QuoteFill(1, q), QuoteFill(2, q)] + [DeployDst(2, LOCK, FILLER, SWAPPER, 7, amount, 1 + gap)];
    var c := [SeeCreated(Creation(SHARED), 0), SeeCreated(Creation(SHARED), 1)];
    var d := [SignFill(0, 1), SignFill(1, 1)]
             + [SubmitSig(0, Signed(1, amount, gap), None, 0), SubmitSig(1, Signed(2, amount, gap), None, 0)];
    OrdersAreOpened(amount, skew);
    QuotesAndDeployment(amount, gap, skew);
    BothAreFunded(amount, gap, skew);
    BothAreSigned(amount, gap, skew);
    RunConcat(Initial(0, 0), a, b + (c + d), skew);
    RunConcat(Run(Initial(0, 0), a, skew), b, c + d, skew);
    RunConcat(Deployed(amount, gap), c, d, skew);
  }

  /**
   * However wide the gap and small the skew: one filler withdraws two fills of one swapper, and the swapper is paid
   * once, because both rows were funded by the same creation.
   */
  lemma SharedEscrowPaysOnce(amount: nat, gap: nat, skew: nat)
    requires amount > 0 && gap > 0
    ensures exists steps :: PaidOnceForTwo(Reached(0, 0, steps, skew), amount)
  {
    BothArePrepared(amount, gap, skew);
    BothAreWithdrawn(amount, gap, skew);
    RunConcat(Initial(0, 0), Preparations(amount, gap), Settlements(amount, gap), skew);
    assert PaidOnceForTwo(Reached(0, 0, Preparations(amount, gap) + Settlements(amount, gap), skew), amount);
  }
}

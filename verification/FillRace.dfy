/**
 * Several executors, and others, filling one order through the reactor: what each remembers, what the contracts
 * hold, and when a remembered registration can still be used (filler/CoWFiller/src/execution/executor.ts,
 * contract/src/PartialFillReactor.sol, contract/src/FillAuction.sol).
 */
module FillRace {
  import opened Arith
  import opened Wrappers
  import opened Auction
  import opened Settlement
  import opened Executors
  import Strategy

  /** A fill the reactor accepted: by whom, how much, and what that executor had registered in memory. */
  datatype Execution = Execution(who: nat, amount: nat, registered: nat)

  /** A registration as the auction contract holds it; not live once filled or released. There is one per filler. */
  datatype Commitment = Commitment(amount: nat, live: bool)

  /** A block callback in flight: what it read, and the block it was called for. */
  datatype View = View(remaining: nat, block: int)

  /** `closed`: cancelled, its nonce invalidated, or handed to the fallback. `sales` is history. */
  datatype Race = Race(order: OrderInfo, block: int, ledger: Ledger, closed: bool, sales: seq<Sale>, byOthers: nat,
                       slots: seq<Slot>, views: seq<Option<View>>, commitments: seq<Option<Commitment>>,
                       fills: seq<Execution>)

  datatype Move =
    | ReadRemaining(who: nat)             // a callback starts
    | Act(who: nat, a: Answer)            // the rest of that callback, any number of blocks later
    | OthersFill(amount: nat)
    | Close
    | Tick(block: int)
    | Restart(who: nat)                   // memory is lost
    | Watch(who: nat, fills: seq<Fill>)   // the poller finds the order, with the fills the backend lists

  function Started(order: OrderInfo, block: int, executors: nat): Race {
    Race(order, block, Opened(order), false, [], 0, seq(executors, _ => DROPPED), seq(executors, _ => None),
         seq(executors, _ => None), [])
  }

  predicate Present(r: Race, who: nat) {
    r.order.inputAmount > 0 && who < |r.slots| && who < |r.views| && who < |r.commitments|
  }

  // ---------------------------------------------------------------- what the outside can answer

  /** Everything the contracts check of a chunk at the current block. */
  predicate Admits(r: Race, who: nat, amount: nat)
    requires Present(r, who)
  {
    && !r.closed && r.commitments[who].Some? && r.commitments[who].value.live
    && amount <= r.commitments[who].value.amount
    && Settles(r.order, r.ledger, Sale(r.block, amount))
  }

  /** Both strategies refuse what their common checks refuse, and decide on some but no more than the order. */
  predicate Plausible(order: OrderInfo, block: int, d: Decision) {
    d.shouldFill ==> Strategy.Screen(order, block, true).None? && 0 < d.fillAmount <= order.inputAmount
  }

  /** The order as the executor sees it: the backend may list other fills than the chain. */
  function Seen(r: Race, who: nat, a: Answer): OrderInfo
    requires Present(r, who)
  {
    if a.fetched.Some? then r.order.(fills := a.fetched.value.fills)
    else if r.slots[who].order.Some? then r.slots[who].order.value else r.order
  }

  /** What the chain and the strategy can answer: a second registration, or a fill not admitted, is refused. */
  function Landing(r: Race, who: nat, a: Answer): Answer
    requires Present(r, who) && r.views[who].Some?
  {
    var view := r.views[who].value;
    var fetched := if a.fetched.Some? then Some(Seen(r, who, a)) else None;
    var remaining := if a.remaining.Some? then Some(view.remaining) else None;
    var cancelled := if a.cancelled.Some? then Some(a.cancelled.value && r.closed) else None;
    var decision :=
      if a.decision.Some? && !Plausible(Seen(r, who, a), view.block, a.decision.value) then Some(Decision(false, 0))
      else a.decision;
    var register :=
      if a.register == Sent(Failed) then a.register
      else if r.commitments[who].Some? then AlreadyRegistered
      else if a.register == AlreadyRegistered then Sent(Confirmed) else a.register;
    var executed :=
      if r.slots[who].reg.Some? && !Admits(r, who, Min(r.slots[who].reg.value.fillAmount, view.remaining)) then Failed
      else a.executed;
    Answer(fetched, remaining, cancelled, decision, a.stakeKnown, register, a.approved, executed)
  }

  // ---------------------------------------------------------------- moves and runs

  /** The chain after a transaction of this executor, given its outcome. */
  function Outcome(r: Race, who: nat, effect: Effect, answer: Answer): Race
    requires Present(r, who)
  {
    match effect
    case Register(amount) =>
      if answer.register == Sent(Confirmed) || answer.register == Sent(Unseen)
      then r.(commitments := r.commitments[who := Some(Commitment(amount, true))]) else r
    case Release => Used(r, who)
    case Execute(amount) =>
      if answer.executed == Failed || !Admits(r, who, amount) || r.slots[who].reg.None? then r
      else Sold(Used(r, who), amount)
             .(fills := r.fills + [Execution(who, amount, r.slots[who].reg.value.fillAmount)])
  }

  /** The registration is used up or given back. */
  function Used(r: Race, who: nat): Race
    requires Present(r, who)
  {
    if r.commitments[who].None? then r
    else r.(commitments := r.commitments[who := Some(r.commitments[who].value.(live := false))])
  }

  function Sold(r: Race, amount: nat): Race
    requires r.order.inputAmount > 0 && Settles(r.order, r.ledger, Sale(r.block, amount))
  {
    r.(ledger := After(r.order, r.ledger, Sale(r.block, amount)), sales := r.sales + [Sale(r.block, amount)])
  }

  function Play(r: Race, m: Move, registerAt: nat): Race {
    match m
    case ReadRemaining(who) =>
      if who < |r.views| then r.(views := r.views[who := Some(View(r.ledger.remaining, r.block))]) else r
    case OthersFill(amount) =>
      if r.order.inputAmount > 0 && !r.closed && Settles(r.order, r.ledger, Sale(r.block, amount))
      then Sold(r, amount).(byOthers := r.byOthers + amount) else r
    case Close => r.(closed := true)
    case Tick(block) => if r.block <= block then r.(block := block) else r
    case Restart(who) =>
      if who < |r.slots| && who < |r.views| then r.(slots := r.slots[who := DROPPED], views := r.views[who := None])
      else r
    case Watch(who, fills) =>
      if who < |r.slots| && r.slots[who].order.None?
      then r.(slots := r.slots[who := Slot(Some(r.order.(fills := fills)), None)]) else r
    case Act(who, a) =>
      if !Present(r, who) || r.views[who].None? then r
      else
        var answer := Landing(r, who, a);
        var (slot, sent) := AfterBlock(r.slots[who], r.views[who].value.block, registerAt, answer);
        var after := if |sent| == 1 then Outcome(r, who, sent[0], answer) else r;
        after.(slots := r.slots[who := slot], views := r.views[who := None])
  }

  function Run(r: Race, moves: seq<Move>, registerAt: nat): Race
    decreases |moves|
  {
    if moves == [] then r else Run(Play(r, moves[0], registerAt), moves[1..], registerAt)
  }

  function Sum(fills: seq<Execution>): nat {
    if fills == [] then 0 else Sum(fills[..|fills| - 1]) + fills[|fills| - 1].amount
  }

  // ---------------------------------------------------------------- the invariant

  /** Within the amount in memory and within the filler's own, now used up, registration. */
  ghost predicate FillOk(r: Race, f: Execution) {
    && f.who < |r.commitments| && r.commitments[f.who].Some? && !r.commitments[f.who].value.live
    && f.amount <= f.registered && f.amount <= r.commitments[f.who].value.amount
  }

  /** Memory holds registrations of this order that exist on chain, and reads no smaller than what remains. */
  ghost predicate SlotOk(r: Race, who: nat)
    requires Present(r, who)
  {
    && (r.slots[who].order.Some? ==> r.slots[who].order.value == r.order.(fills := r.slots[who].order.value.fills))
    && (r.slots[who].reg.Some? ==>
          r.slots[who].order.Some? && r.commitments[who].Some? && 0 < r.slots[who].reg.value.fillAmount)
    && (r.views[who].Some? ==>
          r.ledger.remaining <= r.views[who].value.remaining && r.views[who].value.block <= r.block)
  }

  /** The ledger is the one the accepted sales leave, and no sale lies ahead. */
  ghost predicate Kept(r: Race)
    requires r.order.inputAmount > 0
  {
    SettleAll(r.order, r.sales) == Some(r.ledger) && NotBefore(r.ledger, r.block)
  }

  ghost predicate Inv(r: Race) {
    && r.order.inputAmount > 0 && |r.views| == |r.slots| && |r.commitments| == |r.slots| && Kept(r)
    && Sum(r.fills) + r.byOthers + r.ledger.remaining == r.order.inputAmount
    && (forall i :: 0 <= i < |r.fills| ==> FillOk(r, r.fills[i]))
    && (forall i, j :: 0 <= i < j < |r.fills| ==> r.fills[i].who != r.fills[j].who)
    && forall who: nat :: who < |r.slots| ==> SlotOk(r, who)
  }

  lemma SumOfAppend(fills: seq<Execution>, f: Execution)
    ensures Sum(fills + [f]) == Sum(fills) + f.amount
  {
    assert (fills + [f])[..|fills|] == fills;
  }

  lemma SoldIsKept(r: Race, amount: nat)
    requires r.order.inputAmount > 0 && Kept(r) && Settles(r.order, r.ledger, Sale(r.block, amount))
    ensures Kept(Sold(r, amount)) && Sold(r, amount).ledger.remaining + amount == r.ledger.remaining
  {
    var sales := Sold(r, amount).sales;
    assert sales[..|sales| - 1] == r.sales;
  }

  /** One block on one order: what is sent, and what memory says of it afterwards. */
  lemma BlockFacts(slot: Slot, block: int, registerAt: nat, a: Answer)
    requires slot.reg.Some? ==> slot.order.Some?
    ensures var (after, sent) := AfterBlock(slot, block, registerAt, a);
            && |sent| <= 1 && (after.reg.Some? ==> after.order.Some?)
            && (after.order.Some? ==> after.order == slot.order || after.order == a.fetched)
            && (after.reg.Some? ==>
                  after.reg == slot.reg
                  || (sent == [Register(after.reg.value.fillAmount)] && slot.reg.None? && Remembered(a.register)
                      && a.decision.Some? && a.decision.value.shouldFill && a.remaining.Some? && a.remaining.value > 0
                      && after.reg.value.fillAmount == Min(a.decision.value.fillAmount, a.remaining.value)))
  {
  }

  lemma ExecuteFacts(slot: Slot, block: int, registerAt: nat, a: Answer)
    requires slot.reg.Some? ==> slot.order.Some?
    ensures var (after, sent) := AfterBlock(slot, block, registerAt, a);
            |sent| == 1 && sent[0].Execute? ==>
              && slot.reg.Some? && a.remaining.Some? && a.decision.Some? && a.decision.value.shouldFill
              && slot.order.value.deadline - block <= registerAt * 3
              && sent[0].fillAmount == Min(slot.reg.value.fillAmount, a.remaining.value)
  {
  }

  /** What one transaction may do to the chain: at most one new fill, by this executor. */
  ghost predicate Evolves(r: Race, s: Race, who: nat) {
    && s.order == r.order && s.block == r.block && s.closed == r.closed && s.byOthers == r.byOthers
    && s.slots == r.slots && s.views == r.views
    && |s.commitments| == |r.commitments| && who < |r.commitments|
    && (forall w: nat :: w < |r.commitments| && w != who ==> s.commitments[w] == r.commitments[w])
    && (r.commitments[who].Some? ==>
          && s.commitments[who].Some? && s.commitments[who].value.amount == r.commitments[who].value.amount
          && (!r.commitments[who].value.live ==> !s.commitments[who].value.live))
    && ((s.fills == r.fills && s.ledger == r.ledger && s.sales == r.sales) || OneMore(r, s, who))
  }

  ghost predicate OneMore(r: Race, s: Race, who: nat) {
    && Present(r, who) && who < |s.commitments| && s.fills != []
    && var f := s.fills[|s.fills| - 1];
       && s.fills == r.fills + [f] && f.who == who && Admits(r, who, f.amount) && FillOk(s, f)
       && s.ledger == Sold(r, f.amount).ledger && s.sales == Sold(r, f.amount).sales
  }

  lemma ExecuteEvolves(r: Race, who: nat, amount: nat, answer: Answer)
    requires Present(r, who) && r.slots[who].reg.Some? && amount <= r.slots[who].reg.value.fillAmount
    ensures Evolves(r, Outcome(r, who, Execute(amount), answer), who)
  {
    if answer.executed != Failed && Admits(r, who, amount) {
      var s := Outcome(r, who, Execute(amount), answer);
      assert s.fills[|s.fills| - 1] == Execution(who, amount, r.slots[who].reg.value.fillAmount);
      assert OneMore(r, s, who);
    }
  }

  lemma OtherEvolves(r: Race, who: nat, effect: Effect, a: Answer)
    requires Present(r, who) && r.views[who].Some? && !effect.Execute?
    ensures Evolves(r, Outcome(r, who, effect, Landing(r, who, a)), who)
    ensures effect.Register? && Remembered(Landing(r, who, a).register) ==>
              Outcome(r, who, effect, Landing(r, who, a)).commitments[who].Some?
  {
  }

  lemma OldFillsStay(r: Race, s: Race, who: nat)
    requires Inv(r) && Evolves(r, s, who)
    ensures forall i :: 0 <= i < |r.fills| ==> FillOk(s, r.fills[i])
    ensures OneMore(r, s, who) ==> forall i :: 0 <= i < |r.fills| ==> r.fills[i].who != who
  {
    forall i | 0 <= i < |r.fills|
      ensures FillOk(s, r.fills[i]) && (OneMore(r, s, who) ==> r.fills[i].who != who)
    {
      assert FillOk(r, r.fills[i]);
    }
  }

  lemma FillsStayOk(r: Race, s: Race, who: nat)
    requires Inv(r) && Evolves(r, s, who)
    ensures forall i :: 0 <= i < |s.fills| ==> FillOk(s, s.fills[i])
    ensures forall i, j :: 0 <= i < j < |s.fills| ==> s.fills[i].who != s.fills[j].who
  {
    OldFillsStay(r, s, who);
  }

  lemma FillsAddUp(r: Race, s: Race, who: nat)
    requires Inv(r) && Evolves(r, s, who)
    ensures Kept(s) && s.ledger.remaining <= r.ledger.remaining
    ensures Sum(s.fills) + s.byOthers + s.ledger.remaining == s.order.inputAmount
  {
    if OneMore(r, s, who) {
      var f := s.fills[|s.fills| - 1];
      SoldIsKept(r, f.amount);
      SumOfAppend(r.fills, f);
    }
  }

  /** A callback as a whole, before memory and its own read are updated. */
  function Transacted(r: Race, who: nat, a: Answer, registerAt: nat): Race
    requires Present(r, who) && r.views[who].Some?
  {
    var answer := Landing(r, who, a);
    var sent := AfterBlock(r.slots[who], r.views[who].value.block, registerAt, answer).1;
    if |sent| == 1 then Outcome(r, who, sent[0], answer) else r
  }

  function SlotAfter(r: Race, who: nat, a: Answer, registerAt: nat): Slot
    requires Present(r, who) && r.views[who].Some?
  {
    AfterBlock(r.slots[who], r.views[who].value.block, registerAt, Landing(r, who, a)).0
  }

  lemma ActEvolves(r: Race, who: nat, a: Answer, registerAt: nat)
    requires Inv(r) && Present(r, who) && r.views[who].Some?
    ensures Evolves(r, Transacted(r, who, a, registerAt), who)
    ensures SlotAfter(r, who, a, registerAt).reg.Some? ==> Transacted(r, who, a, registerAt).commitments[who].Some?
  {
    assert SlotOk(r, who);
    var answer := Landing(r, who, a);
    BlockFacts(r.slots[who], r.views[who].value.block, registerAt, answer);
    ExecuteFacts(r.slots[who], r.views[who].value.block, registerAt, answer);
    var sent := AfterBlock(r.slots[who], r.views[who].value.block, registerAt, answer).1;
    if |sent| == 1 {
      if sent[0].Execute? {
        ExecuteEvolves(r, who, sent[0].fillAmount, answer);
      } else {
        OtherEvolves(r, who, sent[0], a);
      }
    }
  }

  lemma SlotAfterOk(r: Race, who: nat, a: Answer, registerAt: nat)
    requires Inv(r) && Present(r, who) && r.views[who].Some?
    ensures var slot := SlotAfter(r, who, a, registerAt);
            && (slot.order.Some? ==> slot.order.value == r.order.(fills := slot.order.value.fills))
            && (slot.reg.Some? ==> slot.order.Some? && 0 < slot.reg.value.fillAmount)
  {
    assert SlotOk(r, who);
    BlockFacts(r.slots[who], r.views[who].value.block, registerAt, Landing(r, who, a));
  }

  lemma ActKeepsInv(r: Race, who: nat, a: Answer, registerAt: nat)
    requires Inv(r) && Present(r, who) && r.views[who].Some?
    ensures Inv(Play(r, Act(who, a), registerAt))
  {
    var s, after := Transacted(r, who, a, registerAt), Play(r, Act(who, a), registerAt);
    ActEvolves(r, who, a, registerAt);
    FillsStayOk(r, s, who);
    FillsAddUp(r, s, who);
    SlotAfterOk(r, who, a, registerAt);
    assert after == s.(slots := r.slots[who := SlotAfter(r, who, a, registerAt)], views := r.views[who := None]);
    forall i | 0 <= i < |after.fills|
      ensures FillOk(after, after.fills[i])
    {
      assert FillOk(s, s.fills[i]);
    }
    forall w: nat | w < |after.slots|
      ensures SlotOk(after, w)
    {
      assert SlotOk(r, w);
    }
  }

  lemma OthersKeepInv(r: Race, amount: nat, registerAt: nat)
    requires Inv(r) && !r.closed && Settles(r.order, r.ledger, Sale(r.block, amount))
    ensures Inv(Play(r, OthersFill(amount), registerAt))
  {
    var after := Play(r, OthersFill(amount), registerAt);
    SoldIsKept(r, amount);
    SameMemoryStaysOk(r, after);
  }

  lemma SameMemoryStaysOk(r: Race, after: Race)
    requires Inv(r) && after.slots == r.slots && after.views == r.views && after.commitments == r.commitments
    requires after.order == r.order && after.fills == r.fills
    requires r.block <= after.block && after.ledger.remaining <= r.ledger.remaining
    ensures forall who: nat :: who < |after.slots| ==> SlotOk(after, who)
    ensures forall i :: 0 <= i < |after.fills| ==> FillOk(after, after.fills[i])
  {
    forall w: nat | w < |after.slots|
      ensures SlotOk(after, w)
    {
      assert SlotOk(r, w);
    }
    forall i | 0 <= i < |after.fills|
      ensures FillOk(after, after.fills[i])
    {
      assert FillOk(r, r.fills[i]);
    }
  }

  lemma MemoryKeepsInv(r: Race, after: Race)
    requires Inv(r) && |after.slots| == |r.slots| && |after.views| == |r.views|
    requires after == r.(slots := after.slots, views := after.views)
    requires forall who: nat :: who < |r.slots| ==> SlotOk(after, who)
    ensures Inv(after)
  {
    forall i | 0 <= i < |after.fills|
      ensures FillOk(after, after.fills[i])
    {
      assert FillOk(r, r.fills[i]);
    }
  }

  lemma SlotsStayOk(r: Race, m: Move, registerAt: nat)
    requires Inv(r) && (m.ReadRemaining? || m.Restart? || m.Watch?)
    ensures var after := Play(r, m, registerAt);
            && |after.slots| == |r.slots| && |after.views| == |r.views|
            && after == r.(slots := after.slots, views := after.views)
            && forall who: nat :: who < |r.slots| ==> SlotOk(after, who)
  {
    var after := Play(r, m, registerAt);
    forall w: nat | w < |after.slots|
      ensures SlotOk(after, w)
    {
      assert SlotOk(r, w);
    }
  }

  lemma OutsideKeepsInv(r: Race, m: Move, registerAt: nat)
    requires Inv(r) && (m.Close? || m.Tick?)
    ensures Inv(Play(r, m, registerAt)) && Play(r, m, registerAt).order == r.order
  {
    SameMemoryStaysOk(r, Play(r, m, registerAt));
  }

  lemma OwnReadKeepsInv(r: Race, m: Move, registerAt: nat)
    requires Inv(r) && (m.ReadRemaining? || m.Restart? || m.Watch?)
    ensures Inv(Play(r, m, registerAt)) && Play(r, m, registerAt).order == r.order
  {
    SlotsStayOk(r, m, registerAt);
    MemoryKeepsInv(r, Play(r, m, registerAt));
  }

  lemma PlayKeepsInv(r: Race, m: Move, registerAt: nat)
    requires Inv(r)
    ensures Inv(Play(r, m, registerAt)) && Play(r, m, registerAt).order == r.order
  {
    match m {
      case Act(who, a) =>
        if Present(r, who) && r.views[who].Some? {
          ActKeepsInv(r, who, a, registerAt);
        }
      case OthersFill(amount) =>
        if !r.closed && Settles(r.order, r.ledger, Sale(r.block, amount)) {
          OthersKeepInv(r, amount, registerAt);
        }
      case Close => OutsideKeepsInv(r, m, registerAt);
      case Tick(_) => OutsideKeepsInv(r, m, registerAt);
      case _ => OwnReadKeepsInv(r, m, registerAt);
    }
  }

  lemma StartedInv(order: OrderInfo, block: int, executors: nat)
    requires order.inputAmount > 0
    ensures Inv(Started(order, block, executors))
  {
  }

  /**
   * Whatever the executors read, however late they act on it and however often they restart: executed amounts, fills
   * by others and the remainder add up to the order, whose ledger is that of the accepted sales; an executor fills an
   * order at most once, and no more than it registered, in memory and on chain; registered implies watched.
   */
  lemma {:induction false} RaceConserves(r: Race, moves: seq<Move>, registerAt: nat)
    requires Inv(r)
    ensures Inv(Run(r, moves, registerAt)) && Run(r, moves, registerAt).order == r.order
    decreases |moves|
  {
    if moves != [] {
      PlayKeepsInv(r, moves[0], registerAt);
      RaceConserves(Play(r, moves[0], registerAt), moves[1..], registerAt);
    }
  }

  /** A sent fill counts when the contracts admit it, and leaves memory when that is also confirmed. */
  lemma MemoryFollowsReactor(r: Race, who: nat, a: Answer, registerAt: nat)
    requires Inv(r) && Present(r, who) && r.views[who].Some? && r.slots[who].reg.Some?
    ensures var after := Play(r, Act(who, a), registerAt);
            var amount := Min(r.slots[who].reg.value.fillAmount, r.views[who].value.remaining);
            var sent := AfterBlock(r.slots[who], r.views[who].value.block, registerAt, Landing(r, who, a)).1;
            |sent| == 1 && sent[0].Execute? ==>
              && sent[0].fillAmount == amount
              && (after.fills == r.fills + [Execution(who, amount, r.slots[who].reg.value.fillAmount)]
                  <==> Admits(r, who, amount) && a.executed != Failed)
              && (after.slots[who] == DROPPED <==> Admits(r, who, amount) && a.executed == Confirmed)
  {
    assert SlotOk(r, who);
    ExecuteFacts(r.slots[who], r.views[who].value.block, registerAt, Landing(r, who, a));
  }

  // ---------------------------------------------------------------- when a remembered registration still serves

  /** Only this executor reads and handles blocks, while time passes. */
  ghost predicate OwnMove(m: Move, who: nat) {
    m.Tick? || (m.ReadRemaining? && m.who == who) || (m.Act? && m.who == who)
  }

  ghost predicate FillsAlone(r: Race, who: nat, moves: seq<Move>, registerAt: nat) {
    (forall i :: 0 <= i < |moves| ==> OwnMove(moves[i], who)) && Run(r, moves, registerAt).fills != r.fills
  }

  /** The first block at which a callback starting from now is close enough to the deadline to look at the order. */
  function FirstBlock(r: Race, registerAt: nat): int {
    Max(r.block, r.order.deadline - registerAt * 3)
  }

  /** What it sends on a fresh read. */
  function Sending(r: Race, who: nat): nat
    requires Present(r, who) && r.slots[who].reg.Some?
  {
    Min(r.slots[who].reg.value.fillAmount, r.ledger.remaining)
  }

  /** The callback in flight would send the same, and was called in time. */
  predicate InFlight(r: Race, who: nat, registerAt: nat)
    requires Present(r, who) && r.slots[who].reg.Some?
  {
    && r.views[who].Some?
    && r.views[who].value.block + 5 <= r.order.deadline <= r.views[who].value.block + registerAt * 3
    && Min(r.slots[who].reg.value.fillAmount, r.views[who].value.remaining) == Sending(r, who)
  }

  /**
   * Something is left and open; the strategy can be called in time; and the contracts take what the executor would
   * send at the first block it can: within a live registration, at least the minimum or all of the rest, and paying
   * the floors.
   */
  predicate Serves(r: Race, who: nat, registerAt: nat)
    requires Present(r, who) && r.slots[who].reg.Some?
  {
    && r.ledger.remaining > 0 && !r.closed && r.order.startPrice > 0
    && (FirstBlock(r, registerAt) + 5 <= r.order.deadline || InFlight(r, who, registerAt))
    && r.commitments[who].Some? && r.commitments[who].value.live
    && Sending(r, who) <= r.commitments[who].value.amount
    && Settles(r.order, r.ledger, Sale(FirstBlock(r, registerAt), Sending(r, who)))
  }

  /** Whatever view it was sent on, an admitted amount is what a fresh read would send. */
  lemma AdmittedIsSending(r: Race, who: nat)
    requires Inv(r) && Present(r, who) && r.slots[who].reg.Some? && r.views[who].Some?
    requires Admits(r, who, Min(r.slots[who].reg.value.fillAmount, r.views[who].value.remaining))
    ensures Min(r.slots[who].reg.value.fillAmount, r.views[who].value.remaining) == Sending(r, who)
  {
    assert SlotOk(r, who);
  }

  lemma ScreenedInTime(order: OrderInfo, block: int)
    requires Strategy.Screen(order, block, true).None?
    ensures block + 5 <= order.deadline && order.startPrice > 0
  {
  }

  lemma ExecutesOnlyOnSome(slot: Slot, block: int, registerAt: nat, a: Answer)
    requires slot.reg.Some? ==> slot.order.Some?
    ensures var sent := AfterBlock(slot, block, registerAt, a).1;
            |sent| == 1 && sent[0].Execute? ==> a.remaining.Some? && a.remaining.value > 0
  {
  }

  /** A fill by the executor happens only where its registration serves. */
  lemma FillsWhereServing(r: Race, who: nat, a: Answer, registerAt: nat)
    requires Inv(r) && Present(r, who) && r.views[who].Some? && r.slots[who].reg.Some?
    requires Transacted(r, who, a, registerAt).fills != r.fills
    ensures Serves(r, who, registerAt)
  {
    var view, answer := r.views[who].value, Landing(r, who, a);
    assert SlotOk(r, who);
    ExecuteFacts(r.slots[who], view.block, registerAt, answer);
    ExecutesOnlyOnSome(r.slots[who], view.block, registerAt, answer);
    AdmittedIsSending(r, who);
    ScreenedInTime(Seen(r, who, a), view.block);
  }

  /** The executor remembers this amount, or nothing any more. */
  ghost predicate Remembers(r: Race, who: nat, amount: nat) {
    && Present(r, who)
    && (r.slots[who] == DROPPED || (r.slots[who].reg.Some? && r.slots[who].reg.value.fillAmount == amount))
  }

  ghost predicate NeverServes(r: Race, who: nat, amount: nat, registerAt: nat) {
    Remembers(r, who, amount) && (r.slots[who].reg.Some? ==> !Serves(r, who, registerAt))
  }

  lemma DroppedStays(r: Race, who: nat, a: Answer, registerAt: nat)
    requires Present(r, who) && r.views[who].Some? && r.slots[who] == DROPPED
    ensures Play(r, Act(who, a), registerAt) == r.(views := r.views[who := None])
  {
    assert r.slots[who := DROPPED] == r.slots;
  }

  lemma RegistrationStays(slot: Slot, block: int, registerAt: nat, a: Answer)
    requires slot.reg.Some? && slot.order.Some?
    ensures AfterBlock(slot, block, registerAt, a).0 == DROPPED
            || AfterBlock(slot, block, registerAt, a).0.reg == slot.reg
  {
  }

  lemma ActNeverServes(r: Race, who: nat, a: Answer, amount: nat, registerAt: nat)
    requires Inv(r) && NeverServes(r, who, amount, registerAt) && r.views[who].Some?
    ensures var after := Play(r, Act(who, a), registerAt);
            NeverServes(after, who, amount, registerAt) && after.fills == r.fills
  {
    if r.slots[who] == DROPPED {
      DroppedStays(r, who, a, registerAt);
    } else {
      assert SlotOk(r, who);
      RegistrationStays(r.slots[who], r.views[who].value.block, registerAt, Landing(r, who, a));
      ActEvolves(r, who, a, registerAt);
      if Transacted(r, who, a, registerAt).fills != r.fills {
        FillsWhereServing(r, who, a, registerAt);
      }
      LessNeverServes(r, Play(r, Act(who, a), registerAt), who, amount, registerAt);
    }
  }

  /** Without a fill, an answered callback can only lose what serving needs. */
  lemma LessNeverServes(r: Race, after: Race, who: nat, amount: nat, registerAt: nat)
    requires NeverServes(r, who, amount, registerAt) && r.slots[who].reg.Some? && Remembers(after, who, amount)
    requires after.order == r.order && after.block == r.block && after.closed == r.closed && after.ledger == r.ledger
    requires after.views[who].None?
    requires after.commitments[who].Some? && after.commitments[who].value.live ==>
               r.commitments[who].None? || after.commitments[who] == r.commitments[who]
    requires r.commitments[who].Some?
    ensures NeverServes(after, who, amount, registerAt)
  {
  }

  lemma ReadNeverServes(r: Race, who: nat, amount: nat, registerAt: nat)
    requires Inv(r) && NeverServes(r, who, amount, registerAt)
    ensures NeverServes(Play(r, ReadRemaining(who), registerAt), who, amount, registerAt)
  {
  }

  lemma TickNeverServes(r: Race, who: nat, block: int, amount: nat, registerAt: nat)
    requires Inv(r) && NeverServes(r, who, amount, registerAt)
    ensures NeverServes(Play(r, Tick(block), registerAt), who, amount, registerAt)
  {
    var after := Play(r, Tick(block), registerAt);
    if r.slots[who].reg.Some? && Serves(after, who, registerAt) {
      EarlierSettles(r.order, r.ledger, Sending(r, who), FirstBlock(r, registerAt), FirstBlock(after, registerAt));
    }
  }

  lemma {:induction false} NeverServesStays(r: Race, who: nat, amount: nat, moves: seq<Move>, registerAt: nat)
    requires Inv(r) && NeverServes(r, who, amount, registerAt)
    requires forall i :: 0 <= i < |moves| ==> OwnMove(moves[i], who)
    ensures Run(r, moves, registerAt).fills == r.fills
    decreases |moves|
  {
    if moves != [] {
      var m := moves[0];
      assert OwnMove(m, who);
      match m {
        case Act(_, a) =>
          if r.views[who].Some? {
            ActNeverServes(r, who, a, amount, registerAt);
          }
        case ReadRemaining(_) => ReadNeverServes(r, who, amount, registerAt);
        case Tick(block) => TickNeverServes(r, who, block, amount, registerAt);
      }
      PlayKeepsInv(r, m, registerAt);
      assert forall i :: 0 <= i < |moves[1..]| ==> moves[1..][i] == moves[i + 1];
      NeverServesStays(Play(r, m, registerAt), who, amount, moves[1..], registerAt);
    }
  }

  /** Every call answers, and the strategy is for it. */
  function AllWell(r: Race): Answer {
    Answer(Some(r.order.(fills := [])), Some(0), Some(false), Some(Decision(true, 1)), true, Sent(Failed), true,
           Confirmed)
  }

  lemma AllWellFills(r: Race, who: nat, registerAt: nat)
    requires Inv(r) && Present(r, who) && r.slots[who].reg.Some? && InFlight(r, who, registerAt)
    requires Serves(r, who, registerAt)
    ensures Play(r, Act(who, AllWell(r)), registerAt).fills != r.fills
  {
    assert SlotOk(r, who);
    assert FirstBlock(r, registerAt) == r.block;
    assert Admits(r, who, Sending(r, who));
  }

  lemma WaitAndFill(r: Race, who: nat, registerAt: nat)
    requires Inv(r) && Present(r, who) && r.slots[who].reg.Some? && Serves(r, who, registerAt)
    requires FirstBlock(r, registerAt) + 5 <= r.order.deadline
    ensures FillsAlone(r, who, [Tick(FirstBlock(r, registerAt)), ReadRemaining(who), Act(who, AllWell(r))], registerAt)
  {
    var moves := [Tick(FirstBlock(r, registerAt)), ReadRemaining(who), Act(who, AllWell(r))];
    var r1 := Play(r, moves[0], registerAt);
    PlayKeepsInv(r, moves[0], registerAt);
    var r2 := Play(r1, moves[1], registerAt);
    PlayKeepsInv(r1, moves[1], registerAt);
    assert Serves(r2, who, registerAt) && InFlight(r2, who, registerAt);
    AllWellFills(r2, who, registerAt);
    RunThree(r, moves, registerAt);
  }

  lemma RunThree(r: Race, moves: seq<Move>, registerAt: nat)
    requires |moves| == 3
    ensures Run(r, moves, registerAt)
         == Play(Play(Play(r, moves[0], registerAt), moves[1], registerAt), moves[2], registerAt)
  {
    var r2 := Play(Play(r, moves[0], registerAt), moves[1], registerAt);
    assert moves[1..][1..] == [moves[2]] && moves[1..][0] == moves[1];
    assert Run(r2, [moves[2]], registerAt) == Run(Play(r2, moves[2], registerAt), [], registerAt);
  }

  lemma RunOne(r: Race, m: Move, registerAt: nat)
    ensures Run(r, [m], registerAt) == Play(r, m, registerAt)
  {
    assert Run(Play(r, m, registerAt), [], registerAt) == Play(r, m, registerAt);
  }

  /**
   * An executor that remembers a registration can still fill, while nobody else does, exactly when it serves. One
   * recovered through "already registered" with an older, smaller amount, one used by a fill that was mined unseen,
   * or one below the order's minimum is refused at every block until the order expires; the executor then drops it
   * without a release (DropIsAccountedFor).
   */
  lemma CanStillFillIff(r: Race, who: nat, registerAt: nat)
    requires Inv(r) && Present(r, who) && r.slots[who].reg.Some?
    ensures (exists moves :: FillsAlone(r, who, moves, registerAt)) <==> Serves(r, who, registerAt)
  {
    if !Serves(r, who, registerAt) {
      if moves :| FillsAlone(r, who, moves, registerAt) {
        NeverServesStays(r, who, r.slots[who].reg.value.fillAmount, moves, registerAt);
      }
    } else if FirstBlock(r, registerAt) + 5 <= r.order.deadline {
      WaitAndFill(r, who, registerAt);
    } else {
      AllWellFills(r, who, registerAt);
      RunOne(r, Act(who, AllWell(r)), registerAt);
      assert FillsAlone(r, who, [Act(who, AllWell(r))], registerAt);
    }
  }

  // ---------------------------------------------------------------- registrations below the minimum

  /** A registration below the order's minimum and below what remains does not serve. */
  lemma UndersizedDoesNotServe(r: Race, who: nat, registerAt: nat)
    requires Present(r, who) && r.slots[who].reg.Some?
    requires r.slots[who].reg.value.fillAmount < Min(MinFill(r.order), r.ledger.remaining)
    ensures !Serves(r, who, registerAt)
  {
  }

  /** The answers with which an executor registers this amount. */
  ghost predicate Registers(r: Race, who: nat, a: Answer, amount: nat, registerAt: nat)
    requires Present(r, who) && r.views[who].Some?
  {
    && r.slots[who].order.Some? && r.slots[who].reg.None? && r.commitments[who].None?
    && 0 <= r.order.deadline - r.views[who].value.block <= registerAt
    && a.remaining.Some? && a.stakeKnown && a.register == Sent(Confirmed)
    && a.decision == Some(Decision(true, amount))
    && Plausible(Seen(r, who, a), r.views[who].value.block, a.decision.value)
  }

  /**
   * `register` does not ask for the order's minimum, so a decision below it and below what remains is registered and
   * staked; from then on the executor's fills are refused for as long as nobody else fills.
   */
  lemma UndersizedIsRegisteredAndStuck(r: Race, who: nat, a: Answer, amount: nat, registerAt: nat)
    requires Inv(r) && Present(r, who) && r.views[who].Some? && Registers(r, who, a, amount, registerAt)
    requires amount < Min(MinFill(r.order), r.ledger.remaining)
    ensures var after := Play(r, Act(who, a), registerAt);
            && Inv(after) && after.commitments[who] == Some(Commitment(amount, true))
            && after.slots[who].reg.Some? && after.slots[who].reg.value.fillAmount == amount
            && !exists moves :: FillsAlone(after, who, moves, registerAt)
  {
    var after := Play(r, Act(who, a), registerAt);
    assert SlotOk(r, who);
    ActKeepsInv(r, who, a, registerAt);
    assert after.ledger == r.ledger && after.order == r.order;
    UndersizedDoesNotServe(after, who, registerAt);
    CanStillFillIff(after, who, registerAt);
  }

  /** An executor that has just read what remains of an order it watches. */
  function Looking(order: OrderInfo, block: int): Race {
    Started(order, block, 1).(slots := [Slot(Some(order.(fills := [])), None)],
                              views := [Some(View(order.inputAmount, block))])
  }

  lemma WatchAndRead(order: OrderInfo, block: int, registerAt: nat)
    requires order.inputAmount > 0
    ensures Run(Started(order, block, 1), [Watch(0, []), ReadRemaining(0)], registerAt) == Looking(order, block)
            && Inv(Looking(order, block))
  {
    var moves := [Watch(0, []), ReadRemaining(0)];
    var start := Started(order, block, 1);
    StartedInv(order, block, 1);
    var r1 := Play(start, moves[0], registerAt);
    PlayKeepsInv(start, moves[0], registerAt);
    PlayKeepsInv(r1, moves[1], registerAt);
    assert moves[1..] == [ReadRemaining(0)];
    RunOne(r1, ReadRemaining(0), registerAt);
    assert r1.slots == Looking(order, block).slots;
    assert Play(r1, moves[1], registerAt).views == Looking(order, block).views;
  }

  /** From the start: an executor told to fill less than the minimum registers that, and is stuck with it. */
  lemma SmallDecisionIsStuck(order: OrderInfo, block: int, amount: nat, registerAt: nat)
    requires 0 < amount < Min(MinFill(order), order.inputAmount)
    requires 0 <= order.deadline - block <= registerAt && Strategy.Screen(order.(fills := []), block, true).None?
    ensures exists r :: FromStart(order, block, r, registerAt) && r.commitments == [Some(Commitment(amount, true))]
                        && !exists moves :: FillsAlone(r, 0, moves, registerAt)
  {
    var a := AllWell(Looking(order, block)).(decision := Some(Decision(true, amount)), register := Sent(Confirmed));
    WatchAndRead(order, block, registerAt);
    UndersizedIsRegisteredAndStuck(Looking(order, block), 0, a, amount, registerAt);
    var r := Play(Looking(order, block), Act(0, a), registerAt);
    RunAppendOne(Started(order, block, 1), [Watch(0, []), ReadRemaining(0)], Act(0, a), registerAt);
    assert Run(Started(order, block, 1), [Watch(0, []), ReadRemaining(0)] + [Act(0, a)], registerAt) == r;
    assert r.commitments == [Some(Commitment(amount, true))];
  }

  /** Some run of one executor leads here. */
  ghost predicate FromStart(order: OrderInfo, block: int, r: Race, registerAt: nat) {
    exists moves :: Run(Started(order, block, 1), moves, registerAt) == r
  }

  lemma {:induction false} RunAppendOne(r: Race, moves: seq<Move>, m: Move, registerAt: nat)
    ensures Run(r, moves + [m], registerAt) == Play(Run(r, moves, registerAt), m, registerAt)
    decreases |moves|
  {
    if moves == [] {
      assert moves + [m] == [m];
      RunOne(r, m, registerAt);
    } else {
      assert (moves + [m])[1..] == moves[1..] + [m];
      RunAppendOne(Play(r, moves[0], registerAt), moves[1..], m, registerAt);
    }
  }

  // ---------------------------------------------------------------- after a restart

  /** What a restarted executor is answered when it tries to register again and the chain already has it. */
  function Again(d: Decision): Answer {
    Answer(None, Some(0), Some(false), Some(d), true, AlreadyRegistered, true, Confirmed)
  }

  lemma RestartForgets(r: Race, who: nat, fills: seq<Fill>, registerAt: nat)
    requires Present(r, who)
    ensures var r1 := Play(r, Restart(who), registerAt);
            && r1 == r.(slots := r.slots[who := Slot(None, None)], views := r.views[who := None])
            && Play(r1, Watch(who, fills), registerAt)
               == r.(slots := r.slots[who := Slot(Some(r.order.(fills := fills)), None)],
                     views := r.views[who := None])
  {
    var r1 := Play(r, Restart(who), registerAt);
    assert r.slots[who := DROPPED][who := Slot(Some(r.order.(fills := fills)), None)]
        == r.slots[who := Slot(Some(r.order.(fills := fills)), None)];
  }

  lemma AgainRecovers(r: Race, who: nat, d: Decision, registerAt: nat)
    requires Present(r, who) && r.commitments[who].Some? && r.views[who] == Some(View(r.ledger.remaining, r.block))
    requires r.slots[who].order.Some? && r.slots[who].reg.None? && r.ledger.remaining > 0
    requires r.slots[who].order.value.deadline == r.order.deadline
    requires 0 <= r.order.deadline - r.block <= registerAt
    requires d.shouldFill && Plausible(r.slots[who].order.value, r.block, d)
    ensures var s := Play(r, Act(who, Again(d)), registerAt);
            && s.commitments == r.commitments && s.ledger == r.ledger
            && s.slots[who].reg == Some(Registration(Min(d.fillAmount, r.ledger.remaining), r.block))
  {
  }

  /**
   * A restart forgets the registration but not the stake behind it: watching again and trying to register near the
   * deadline, the executor finds it is registered and remembers a registration again, for what the strategy now wants
   * and what is left, which need not be what the chain holds it to.
   */
  lemma RestartRecovers(r: Race, who: nat, fills: seq<Fill>, d: Decision, registerAt: nat)
    requires Present(r, who) && r.commitments[who].Some? && r.ledger.remaining > 0
    requires 0 <= r.order.deadline - r.block <= registerAt
    requires d.shouldFill && Plausible(r.order.(fills := fills), r.block, d)
    ensures var s :=
              Run(r, [Restart(who), Watch(who, fills)] + [ReadRemaining(who), Act(who, Again(d))], registerAt);
            && s.commitments == r.commitments && s.ledger == r.ledger && who < |s.slots|
            && s.slots[who].reg == Some(Registration(Min(d.fillAmount, r.ledger.remaining), r.block))
  {
    var r1 := Play(r, Restart(who), registerAt);
    var r2 := Play(r1, Watch(who, fills), registerAt);
    RestartForgets(r, who, fills, registerAt);
    var r3 := r2.(views := r2.views[who := Some(View(r.ledger.remaining, r.block))]);
    assert Play(r2, ReadRemaining(who), registerAt) == r3;
    AgainRecovers(r3, who, d, registerAt);
    RunFour(r, Restart(who), Watch(who, fills), ReadRemaining(who), Act(who, Again(d)), registerAt);
  }

  lemma RunFour(r: Race, a: Move, b: Move, c: Move, d: Move, registerAt: nat)
    ensures Run(r, [a, b] + [c, d], registerAt)
         == Play(Play(Play(Play(r, a, registerAt), b, registerAt), c, registerAt), d, registerAt)
  {
    var moves := [a, b] + [c, d];
    assert moves[1..] == [b, c, d];
    RunThree(Play(r, a, registerAt), [b, c, d], registerAt);
  }

  // ---------------------------------------------------------------- cancelled, or lost to others

  lemma ClosedStep(r: Race, m: Move, registerAt: nat)
    requires Inv(r) && r.closed
    ensures var after := Play(r, m, registerAt);
            after.closed && after.sales == r.sales && after.fills == r.fills && after.ledger == r.ledger
  {
    if m.Act? && Present(r, m.who) && r.views[m.who].Some? {
      ActEvolves(r, m.who, m.a, registerAt);
    }
  }

  /** Once an order is cancelled or handed to the fallback nothing more of it is sold, whatever anyone still tries. */
  lemma ClosedSellsNothing(r: Race, moves: seq<Move>, registerAt: nat)
    requires Inv(r)
    ensures var after := Run(Play(r, Close, registerAt), moves, registerAt);
            after.sales == r.sales && after.fills == r.fills && after.ledger == r.ledger
  {
    PlayKeepsInv(r, Close, registerAt);
    ClosedStays(Play(r, Close, registerAt), moves, registerAt);
  }

  lemma {:induction false} ClosedStays(r: Race, moves: seq<Move>, registerAt: nat)
    requires Inv(r) && r.closed
    ensures var after := Run(r, moves, registerAt);
            after.sales == r.sales && after.fills == r.fills && after.ledger == r.ledger
    decreases |moves|
  {
    if moves != [] {
      ClosedStep(r, moves[0], registerAt);
      PlayKeepsInv(r, moves[0], registerAt);
      ClosedStays(Play(r, moves[0], registerAt), moves[1..], registerAt);
    }
  }

  lemma ReadsNothingLeft(r: Race, who: nat, a: Answer, registerAt: nat)
    requires Present(r, who) && r.slots[who].reg.Some? && r.slots[who].order.Some? && r.commitments[who].Some?
    requires r.views[who] == Some(View(0, r.block)) && a.remaining.Some?
    requires 0 <= r.slots[who].order.value.deadline - r.block <= registerAt * 3
    ensures Play(r, Act(who, a), registerAt)
         == r.(slots := r.slots[who := DROPPED], views := r.views[who := None],
               commitments := r.commitments[who := Some(r.commitments[who].value.(live := false))])
  {
  }

  /**
   * Losing the race: when others buy all that is left, the executor's next callback takes its registration back on
   * chain and forgets the order; nothing of its own is sold.
   */
  lemma LosingReleases(r: Race, who: nat, a: Answer, registerAt: nat)
    requires Inv(r) && Present(r, who) && r.slots[who].reg.Some? && !r.closed && a.remaining.Some?
    requires Settles(r.order, r.ledger, Sale(r.block, r.ledger.remaining))
    requires r.order.deadline - r.block <= registerAt * 3
    ensures var after := Run(r, [OthersFill(r.ledger.remaining), ReadRemaining(who), Act(who, a)], registerAt);
            && after.ledger.remaining == 0 && after.byOthers == r.byOthers + r.ledger.remaining
            && after.fills == r.fills && who < |after.slots| && who < |after.commitments|
            && after.slots[who] == DROPPED
            && after.commitments[who].Some? && !after.commitments[who].value.live
  {
    var moves := [OthersFill(r.ledger.remaining), ReadRemaining(who), Act(who, a)];
    assert SlotOk(r, who);
    SoldIsKept(r, r.ledger.remaining);
    var r1 := Play(r, moves[0], registerAt);
    var r2 := Play(r1, moves[1], registerAt);
    assert r2 == r1.(views := r1.views[who := Some(View(0, r1.block))]);
    ReadsNothingLeft(r2, who, a, registerAt);
    RunThree(r, moves, registerAt);
  }
}

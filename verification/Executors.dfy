/** The register-then-execute loop of a filler (filler/CoWFiller/src/execution/executor.ts). */
module Executors {
  import opened Arith
  import opened Wrappers
  import opened Auction

  datatype Registration = Registration(fillAmount: nat, registeredAt: int)

  datatype Decision = Decision(shouldFill: bool, fillAmount: nat)

  /** A transaction that was mined and confirmed, that failed, or that was mined although waiting for it threw. */
  datatype TxResult = Confirmed | Failed | Unseen

  datatype RegisterResult = Sent(tx: TxResult) | AlreadyRegistered

  /** What the outside answers while one order is handled; None where the call throws. */
  datatype Answer = Answer(fetched: Option<OrderInfo>, remaining: Option<nat>, cancelled: Option<bool>,
                           decision: Option<Decision>, stakeKnown: bool, register: RegisterResult, approved: bool,
                           executed: TxResult)

  /** Transactions the executor sends. */
  datatype Effect = Release | Register(fillAmount: nat) | Execute(fillAmount: nat)

  /** One order as an executor holds it. */
  datatype Slot = Slot(order: Option<OrderInfo>, reg: Option<Registration>)

  const DROPPED := Slot(None, None)

  // ---------------------------------------------------------------- one order, one block

  /** Every error but "already registered" makes the executor forget the registration it just noted. */
  predicate Remembered(result: RegisterResult) {
    result == Sent(Confirmed) || result == AlreadyRegistered
  }

  function AfterTryFill(slot: Slot, block: int, registerAt: nat, a: Answer): (Slot, seq<Effect>)
    requires slot.order.Some?
  {
    var order := if a.fetched.Some? then a.fetched.value else slot.order.value;
    var kept := slot.(order := Some(order));
    if a.remaining.None? then (kept, [])
    else if a.remaining.value == 0 then (DROPPED, if slot.reg.Some? then [Release] else [])
    else if slot.reg.Some? && a.cancelled.None? then (kept, [])
    else if slot.reg.Some? && a.cancelled.value then (DROPPED, [Release])
    else if slot.reg.None? && order.deadline - block <= registerAt then
      if a.decision.None? || !a.decision.value.shouldFill || !a.stakeKnown then (kept, [])
      else
        var fill := Min(a.decision.value.fillAmount, a.remaining.value);
        (if Remembered(a.register) then kept.(reg := Some(Registration(fill, block))) else kept, [Register(fill)])
    else if slot.reg.Some? then
      if a.decision.None? || !a.decision.value.shouldFill || !a.approved then (kept, [])
      else (if a.executed == Confirmed then DROPPED else kept,
            [Execute(Min(slot.reg.value.fillAmount, a.remaining.value))])
    else (kept, [])
  }

  function AfterBlock(slot: Slot, block: int, registerAt: nat, a: Answer): (Slot, seq<Effect>) {
    if slot.order.None? then (slot, [])
    else if block > slot.order.value.deadline then (DROPPED, [])
    else if slot.order.value.deadline - block > registerAt * 3 then (slot, [])
    else AfterTryFill(slot, block, registerAt, a)
  }

  // ---------------------------------------------------------------- the executor

  class Executor {
    const registerAt: nat
    var watching: map<nat, OrderInfo>
    var registered: map<nat, Registration>

    ghost predicate Valid()
      reads this
    {
      registered.Keys <= watching.Keys
    }

    function At(hash: nat): Slot
      reads this
    {
      Slot(if hash in watching then Some(watching[hash]) else None,
           if hash in registered then Some(registered[hash]) else None)
    }

    constructor (registerAt: nat)
      ensures Valid() && watching == map[] && this.registerAt == registerAt
    {
      this.registerAt := registerAt;
      watching, registered := map[], map[];
    }

    method Watch(hash: nat, order: OrderInfo)
      requires Valid()
      modifies this
      ensures Valid() && registered == old(registered)
      ensures watching == if hash in old(watching) then old(watching) else old(watching)[hash := order]
    {
      if hash in watching {
        return;
      }
      watching := watching[hash := order];
    }

    method ReclaimStake(hash: nat) returns (sent: seq<Effect>)
      ensures sent == if hash in registered then [Release] else []
    {
      if hash !in registered {
        return [];
      }
      return [Release];
    }

    method Drop(hash: nat)
      modifies this
      ensures watching == old(watching) - {hash} && registered == old(registered) - {hash}
    {
      watching := watching - {hash};
      registered := registered - {hash};
    }

    method TryFill(hash: nat, block: int, a: Answer) returns (sent: seq<Effect>)
      requires Valid() && hash in watching
      modifies this
      ensures Valid() && forall h :: h != hash ==> At(h) == old(At(h))
      ensures (At(hash), sent) == AfterTryFill(old(At(hash)), block, registerAt, a)
    {
      var order := watching[hash];
      if a.fetched.Some? {
        order := a.fetched.value;
        watching := watching[hash := order];
      }
      if a.remaining.None? {
        return [];
      }
      if a.remaining.value == 0 {
        sent := ReclaimStake(hash);
        Drop(hash);
        return;
      }
      if hash in registered {
        if a.cancelled.None? {
          return [];
        }
        if a.cancelled.value {
          sent := ReclaimStake(hash);
          Drop(hash);
          return;
        }
      }
      var blocksLeft := order.deadline - block;
      if hash !in registered && blocksLeft <= registerAt {
        if a.decision.None? || !a.decision.value.shouldFill || !a.stakeKnown {
          return [];
        }
        var fillAmount := Min(a.decision.value.fillAmount, a.remaining.value);
        registered := registered[hash := Registration(fillAmount, block)];
        sent := [Register(fillAmount)];
        if !Remembered(a.register) {
          registered := registered - {hash};
        }
        return;
      }
      if hash in registered {
        var fillAmount := Min(registered[hash].fillAmount, a.remaining.value);
        if a.decision.None? || !a.decision.value.shouldFill || !a.approved {
          return [];
        }
        sent := [Execute(fillAmount)];
        if a.executed == Confirmed {
          Drop(hash);
        }
        return;
      }
      return [];
    }

    method HandleOrder(hash: nat, block: int, a: Answer) returns (sent: seq<Effect>)
      requires Valid() && hash in watching
      modifies this
      ensures Valid() && forall h :: h != hash ==> At(h) == old(At(h))
      ensures (At(hash), sent) == AfterBlock(old(At(hash)), block, registerAt, a)
    {
      var order := watching[hash];
      sent := [];
      if block > order.deadline {
        Drop(hash);
        return;
      }
      if order.deadline - block > registerAt * 3 {
        return;
      }
      sent := TryFill(hash, block, a);
    }

    /** visit lists the watched orders as the map yields them; one list of transactions per order. */
    method OnBlock(block: int, visit: seq<nat>, answers: map<nat, Answer>) returns (sent: seq<seq<Effect>>)
      requires Valid() && (forall h :: h in visit <==> h in watching) && (forall h :: h in visit ==> h in answers)
      requires forall i, j :: 0 <= i < j < |visit| ==> visit[i] != visit[j]
      modifies this
      ensures Valid() && |sent| == |visit|
      ensures forall h :: h in old(watching) ==>
                h in answers && At(h) == AfterBlock(old(At(h)), block, registerAt, answers[h]).0
      ensures forall i :: 0 <= i < |visit| ==>
                sent[i] == AfterBlock(old(At(visit[i])), block, registerAt, answers[visit[i]]).1
      ensures forall h :: h !in old(watching) ==> At(h) == old(At(h))
    {
      sent := [];
      for i := 0 to |visit|
        invariant Valid() && |sent| == i
        invariant forall j :: 0 <= j < i ==>
                    At(visit[j]) == AfterBlock(old(At(visit[j])), block, registerAt, answers[visit[j]]).0
        invariant forall j :: 0 <= j < i ==>
                    sent[j] == AfterBlock(old(At(visit[j])), block, registerAt, answers[visit[j]]).1
        invariant forall h :: h !in visit[..i] ==> At(h) == old(At(h))
      {
        var hash := visit[i];
        assert hash !in visit[..i];
        assert At(hash) == old(At(hash));
        assert hash in visit && old(At(hash)).order.Some?;
        var effects := HandleOrder(hash, block, answers[hash]);
        sent := sent + [effects];
      }
      assert visit[..|visit|] == visit;
    }
  }

  // ---------------------------------------------------------------- stakes are not forgotten

  /** A registered order that leaves memory was executed, or a release was sent first, or it had expired. */
  lemma DropIsAccountedFor(slot: Slot, block: int, registerAt: nat, a: Answer)
    requires slot.order.Some? && slot.reg.Some?
    ensures var (after, sent) := AfterBlock(slot, block, registerAt, a);
            after.reg.None? ==>
              (block > slot.order.value.deadline && sent == [])
              || (block <= slot.order.value.deadline && sent == [Release])
              || (block <= slot.order.value.deadline && a.executed == Confirmed && |sent| == 1 && sent[0].Execute?)
  {
  }

  /** Filled by others or cancelled: the release is sent exactly when the executor still holds a registration. */
  lemma LostRaceReleases(slot: Slot, block: int, registerAt: nat, a: Answer)
    requires slot.order.Some? && block <= slot.order.value.deadline
             && slot.order.value.deadline - block <= registerAt * 3
    requires a.remaining == Some(0) || (slot.reg.Some? && a.remaining.Some? && a.cancelled == Some(true))
    ensures var (after, sent) := AfterBlock(slot, block, registerAt, a);
            after == DROPPED && (Release in sent <==> slot.reg.Some?)
  {
  }

  /** A registration starts only near the deadline, for as much as both the strategy wants and the reactor has left. */
  lemma RegistersWithinBounds(slot: Slot, block: int, registerAt: nat, a: Answer)
    requires slot.order.Some? && slot.reg.None?
    ensures var (after, sent) := AfterBlock(slot, block, registerAt, a);
            var order := if a.fetched.Some? then a.fetched.value else slot.order.value;
            after.reg.Some? ==>
              && a.remaining.Some? && a.decision.Some? && a.decision.value.shouldFill && Remembered(a.register)
              && block <= slot.order.value.deadline && order.deadline - block <= registerAt
              && after.order == Some(order)
              && sent == [Register(after.reg.value.fillAmount)] && after.reg.value.registeredAt == block
              && after.reg.value.fillAmount <= a.remaining.value
              && after.reg.value.fillAmount <= a.decision.value.fillAmount
              && (after.reg.value.fillAmount == a.remaining.value
                  || after.reg.value.fillAmount == a.decision.value.fillAmount)
  {
  }

  // ---------------------------------------------------------------- exactly when

  /** Not expired, near enough to the deadline, and the reactor says what is left of the order. */
  predicate Tried(slot: Slot, block: int, registerAt: nat, a: Answer)
    requires slot.order.Some?
  {
    var deadline := slot.order.value.deadline;
    block <= deadline && deadline - block <= 3 * registerAt && a.remaining.Some?
  }

  predicate Wants(a: Answer) {
    a.decision.Some? && a.decision.value.shouldFill
  }

  /**
   * A watched order leaves memory exactly when it has expired, when nothing of it remains, when it is registered and
   * cancelled, or when the execution of its registration was confirmed; any call that throws leaves it watched.
   */
  lemma LeavesMemoryIff(slot: Slot, block: int, registerAt: nat, a: Answer)
    requires slot.order.Some?
    ensures AfterBlock(slot, block, registerAt, a).0.order.None?
        <==> block > slot.order.value.deadline
             || (Tried(slot, block, registerAt, a)
                 && (|| a.remaining.value == 0
                     || (slot.reg.Some? && a.cancelled == Some(true))
                     || (slot.reg.Some? && a.cancelled == Some(false) && Wants(a) && a.approved
                         && a.executed == Confirmed)))
    ensures AfterBlock(slot, block, registerAt, a).0.order.None? ==> AfterBlock(slot, block, registerAt, a).0.reg.None?
  {
  }

  /** What stays in memory: the order as last fetched, and its registration until it leaves. */
  lemma StaysInMemory(slot: Slot, block: int, registerAt: nat, a: Answer)
    requires slot.order.Some?
    ensures var deadline, after := slot.order.value.deadline, AfterBlock(slot, block, registerAt, a).0;
            after.order.Some? ==>
              && after.order
                 == (if deadline - block <= 3 * registerAt && a.fetched.Some? then a.fetched else slot.order)
              && (slot.reg.Some? ==> after.reg == slot.reg)
              && (slot.reg.None? && after.reg.Some? ==> Tried(slot, block, registerAt, a))
  {
  }

  /**
   * At most one transaction a block. A release goes out exactly for a registered order with nothing left or cancelled;
   * a registration exactly for an unregistered one the strategy wants near the deadline, at the lesser of its amount
   * and what is left; an execution exactly for a registered one it still wants, at the lesser of the registered amount
   * and what is left.
   */
  lemma SendsIff(slot: Slot, block: int, registerAt: nat, a: Answer, amount: nat)
    requires slot.order.Some?
    ensures var sent := AfterBlock(slot, block, registerAt, a).1;
            var deadline := if a.fetched.Some? then a.fetched.value.deadline else slot.order.value.deadline;
            && |sent| <= 1
            && (Release in sent
                <==> slot.reg.Some? && Tried(slot, block, registerAt, a)
                     && (a.remaining.value == 0 || a.cancelled == Some(true)))
            && (Register(amount) in sent
                <==> slot.reg.None? && Tried(slot, block, registerAt, a) && a.remaining.value > 0
                     && deadline - block <= registerAt && Wants(a) && a.stakeKnown
                     && amount == Min(a.decision.value.fillAmount, a.remaining.value))
            && (Execute(amount) in sent
                <==> slot.reg.Some? && Tried(slot, block, registerAt, a) && a.remaining.value > 0
                     && a.cancelled == Some(false) && Wants(a) && a.approved
                     && amount == Min(slot.reg.value.fillAmount, a.remaining.value))
  {
  }

  /** A registration that was sent is remembered exactly when it was confirmed or the chain already had it. */
  lemma RegistrationIsRemembered(slot: Slot, block: int, registerAt: nat, a: Answer, amount: nat)
    requires slot.order.Some? && Register(amount) in AfterBlock(slot, block, registerAt, a).1
    ensures AfterBlock(slot, block, registerAt, a).0.reg
         == if a.register == Sent(Confirmed) || a.register == AlreadyRegistered
            then Some(Registration(amount, block)) else None
  {
  }
}

/**
 * Block callbacks of the fill indexer that overlap: a handler inserts, reads and updates in three queries, and any
 * number of handlers may be between theirs (backend/src/indexer/eventIndexer.ts).
 */
module FillOverlap {
  import opened FillIndexer

  datatype Phase = Inserting | Reading | Updating(status: Status, readAt: nat) | Finished

  datatype Handler = Handler(row: Row, phase: Phase)

  /** `lastRead` is history: the step whose read the last landed update of an order wrote back. */
  datatype Indexing = Indexing(tables: Tables, handlers: seq<Handler>, lastRead: map<nat, nat>)

  datatype Step =
    | Arrive(row: Row)     // a callback comes to this log, for the first time or again
    | Advance(i: nat)      // the next query of one handler
    | Fail(i: nat)         // that query throws, or its process stops
    | Other(event: Event)  // a cancellation or a fallback is handled

  /** One query of handler i, at step n of the run. */
  function Query(s: Indexing, i: nat, n: nat): Indexing
    requires i < |s.handlers|
  {
    var Handler(row, phase) := s.handlers[i];
    var h := row.orderHash;
    match phase
    case Inserting =>
      if h !in s.tables.orders then s.(handlers := s.handlers[i := Handler(row, Finished)])
      else s.(tables := s.tables.(fills := Insert(s.tables.fills, row)),
              handlers := s.handlers[i := Handler(row, Reading)])
    case Reading =>
      var status := if h in s.tables.orders then Derived(s.tables.fills, h, s.tables.orders[h].inputAmount) else Active;
      s.(handlers := s.handlers[i := Handler(row, Updating(status, n))])
    case Updating(status, readAt) =>
      s.(tables := s.tables.(orders := SetStatus(s.tables.orders, h, status)),
         handlers := s.handlers[i := Handler(row, Finished)],
         lastRead := if h in s.tables.orders then s.lastRead[h := readAt] else s.lastRead)
    case Finished => s
  }

  function Apply(s: Indexing, step: Step, n: nat): Indexing {
    match step
    case Arrive(row) => s.(handlers := s.handlers + [Handler(row, Inserting)])
    case Advance(i) => if i < |s.handlers| then Query(s, i, n) else s
    case Fail(i) =>
      if i < |s.handlers| then s.(handlers := s.handlers[i := Handler(s.handlers[i].row, Finished)]) else s
    case Other(event) =>
      if event.PartialFill? then s
      else
        var tables := Handle(s.tables, event);
        s.(tables := tables, lastRead := map h | h in s.lastRead && Same(s.tables, tables, h) :: s.lastRead[h])
  }

  predicate Same(before: Tables, after: Tables, h: nat) {
    h in before.orders && h in after.orders && before.orders[h] == after.orders[h]
  }

  /** Any interleaving, from these tables. */
  function Run(t: Tables, steps: seq<Step>): Indexing {
    if steps == [] then Indexing(t, [], map[])
    else
      var n := |steps| - 1;
      Apply(Run(t, steps[..n]), steps[n], n)
  }

  lemma RunAppend(t: Tables, steps: seq<Step>, step: Step)
    ensures Run(t, steps + [step]) == Apply(Run(t, steps), step, |steps|)
  {
    assert (steps + [step])[..|steps|] == steps;
  }

  // ---------------------------------------------------------------- what a run keeps

  /** What the fills of an order add up to after the first k steps. */
  ghost function FilledAt(t: Tables, steps: seq<Step>, k: nat, h: nat): nat
    requires k <= |steps|
  {
    Total(Run(t, steps[..k]).tables.fills, h)
  }

  ghost predicate SameOrder(o: Order, o': Order) {
    o' == o.(status := o'.status)
  }

  lemma {:induction false} OrdersStay(t: Tables, steps: seq<Step>)
    ensures Run(t, steps).tables.orders.Keys == t.orders.Keys
    ensures forall h :: h in t.orders ==>
              h in Run(t, steps).tables.orders && SameOrder(t.orders[h], Run(t, steps).tables.orders[h])
  {
    if steps != [] {
      OrdersStay(t, steps[..|steps| - 1]);
    }
  }

  lemma {:induction false} LastReadIsKnown(t: Tables, steps: seq<Step>, h: nat)
    requires h in Run(t, steps).lastRead
    ensures h in t.orders
  {
    var n := |steps| - 1;
    OrdersStay(t, steps[..n]);
    if h in Run(t, steps[..n]).lastRead {
      LastReadIsKnown(t, steps[..n], h);
    }
  }

  lemma StepFillsMore(s: Indexing, step: Step, n: nat, h: nat)
    ensures Total(s.tables.fills, h) <= Total(Apply(s, step, n).tables.fills, h)
  {
  }

  lemma {:induction false} FillsOnlyGrow(t: Tables, steps: seq<Step>, k: nat, m: nat, h: nat)
    requires k <= m <= |steps|
    ensures FilledAt(t, steps, k, h) <= FilledAt(t, steps, m, h)
    decreases m - k
  {
    if k < m {
      FillsOnlyGrow(t, steps, k, m - 1, h);
      assert steps[..m][..m - 1] == steps[..m - 1];
      StepFillsMore(Run(t, steps[..m - 1]), steps[m - 1], m - 1, h);
    }
  }

  /** Step k is the read of a handler of this order. */
  ghost predicate ReadsAt(t: Tables, steps: seq<Step>, k: nat, h: nat) {
    && k < |steps| && steps[k].Advance? && steps[k].i < |Run(t, steps[..k]).handlers|
    && var handler := Run(t, steps[..k]).handlers[steps[k].i];
       handler.phase.Reading? && handler.row.orderHash == h
  }

  /** The status was read at step k. */
  ghost predicate ReadThen(t: Tables, steps: seq<Step>, k: nat, h: nat, status: Status)
    requires h in t.orders
  {
    ReadsAt(t, steps, k, h)
      && (status == if FilledAt(t, steps, k, h) >= t.orders[h].inputAmount then Filled else Active)
  }

  lemma ReadThenExtends(t: Tables, steps: seq<Step>, k: nat, h: nat, status: Status)
    requires steps != [] && h in t.orders && ReadThen(t, steps[..|steps| - 1], k, h, status)
    ensures ReadThen(t, steps, k, h, status)
  {
    assert steps[..|steps| - 1][..k] == steps[..k];
  }

  ghost predicate HandlerHonest(t: Tables, steps: seq<Step>, handler: Handler) {
    handler.phase.Updating? && handler.row.orderHash in t.orders ==>
      ReadThen(t, steps, handler.phase.readAt, handler.row.orderHash, handler.phase.status)
  }

  lemma ReadIsHonest(t: Tables, steps: seq<Step>, i: nat)
    requires steps != [] && steps[|steps| - 1] == Advance(i)
    requires i < |Run(t, steps[..|steps| - 1]).handlers| && Run(t, steps[..|steps| - 1]).handlers[i].phase.Reading?
    ensures i < |Run(t, steps).handlers| && HandlerHonest(t, steps, Run(t, steps).handlers[i])
  {
    var n := |steps| - 1;
    var s := Run(t, steps[..n]);
    OrdersStay(t, steps[..n]);
    var h := s.handlers[i].row.orderHash;
    if h in t.orders {
      var status := Derived(s.tables.fills, h, s.tables.orders[h].inputAmount);
      assert Run(t, steps).handlers[i] == Handler(s.handlers[i].row, Updating(status, n));
      assert ReadThen(t, steps, n, h, status);
    }
  }

  /** A handler about to write holds what it read at the step it remembers. */
  lemma {:induction false} HandlersRemember(t: Tables, steps: seq<Step>, i: nat)
    requires i < |Run(t, steps).handlers|
    ensures HandlerHonest(t, steps, Run(t, steps).handlers[i])
  {
    if steps != [] {
      var n := |steps| - 1;
      var s := Run(t, steps[..n]);
      if i < |s.handlers| && s.handlers[i] == Run(t, steps).handlers[i] {
        HandlersRemember(t, steps[..n], i);
        var handler := s.handlers[i];
        if handler.phase.Updating? && handler.row.orderHash in t.orders {
          ReadThenExtends(t, steps, handler.phase.readAt, handler.row.orderHash, handler.phase.status);
        }
      } else if steps[n] == Advance(i) && s.handlers[i].phase.Reading? {
        ReadIsHonest(t, steps, i);
      }
    }
  }

  /** The status an update left is the one its read found. */
  lemma {:induction false} StatusWasRead(t: Tables, steps: seq<Step>, h: nat)
    requires h in t.orders && h in Run(t, steps).lastRead
    ensures h in Run(t, steps).tables.orders
    ensures ReadThen(t, steps, Run(t, steps).lastRead[h], h, Run(t, steps).tables.orders[h].status)
  {
    var n := |steps| - 1;
    var s, s' := Run(t, steps[..n]), Run(t, steps);
    OrdersStay(t, steps);
    OrdersStay(t, steps[..n]);
    if steps[n].Advance? && steps[n].i < |s.handlers| && s.handlers[steps[n].i].phase.Updating?
       && s.handlers[steps[n].i].row.orderHash == h {
      HandlersRemember(t, steps[..n], steps[n].i);
      ReadThenExtends(t, steps, s'.lastRead[h], h, s'.tables.orders[h].status);
    } else {
      assert h in s.lastRead && s'.lastRead[h] == s.lastRead[h];
      StatusWasRead(t, steps[..n], h);
      assert s'.tables.orders[h] == s.tables.orders[h];
      ReadThenExtends(t, steps, s.lastRead[h], h, s.tables.orders[h].status);
    }
  }

  // ---------------------------------------------------------------- when the status is right

  /** Step n is the insert that makes the fills of the order reach its input. */
  ghost predicate CompletesAt(t: Tables, steps: seq<Step>, n: nat, h: nat) {
    && h in t.orders && n < |steps|
    && FilledAt(t, steps, n, h) < t.orders[h].inputAmount <= FilledAt(t, steps, n + 1, h)
  }

  lemma {:induction false} SomeStepCompletes(t: Tables, steps: seq<Step>, k: nat, m: nat, h: nat) returns (n: nat)
    requires h in t.orders && k <= m <= |steps|
    requires FilledAt(t, steps, k, h) < t.orders[h].inputAmount <= FilledAt(t, steps, m, h)
    ensures k <= n < m && CompletesAt(t, steps, n, h)
    decreases m - k
  {
    if FilledAt(t, steps, m - 1, h) < t.orders[h].inputAmount {
      n := m - 1;
    } else {
      n := SomeStepCompletes(t, steps, k, m - 1, h);
    }
  }

  lemma CompletionBounds(t: Tables, steps: seq<Step>, k: nat, h: nat, n: nat)
    requires k <= |steps| && CompletesAt(t, steps, n, h)
    ensures t.orders[h].inputAmount <= FilledAt(t, steps, |steps|, h)
    ensures t.orders[h].inputAmount <= FilledAt(t, steps, k, h) ==> n < k
  {
    FillsOnlyGrow(t, steps, n + 1, |steps|, h);
    if k <= n {
      FillsOnlyGrow(t, steps, k, n, h);
    }
  }

  /**
   * In every run, once a fill's update has landed on an order and no cancellation or fallback has changed it since:
   * its status agrees with its fills exactly when the read behind that update came after the insert that completed
   * the order, or no insert has.
   */
  lemma StatusIsRightIff(t: Tables, steps: seq<Step>, h: nat)
    requires h in Run(t, steps).lastRead
    ensures h in t.orders && h in Run(t, steps).tables.orders && ReadsAt(t, steps, Run(t, steps).lastRead[h], h)
    ensures var s := Run(t, steps);
            s.tables.orders[h].status == Derived(s.tables.fills, h, t.orders[h].inputAmount)
            <==> forall n :: CompletesAt(t, steps, n, h) ==> n < s.lastRead[h]
  {
    var s, m := Run(t, steps), |steps|;
    LastReadIsKnown(t, steps, h);
    StatusWasRead(t, steps, h);
    var k := s.lastRead[h];
    assert steps[..m] == steps;
    FillsOnlyGrow(t, steps, k, m, h);
    if FilledAt(t, steps, k, h) < t.orders[h].inputAmount <= FilledAt(t, steps, m, h) {
      var n := SomeStepCompletes(t, steps, k, m, h);
    } else {
      forall n | CompletesAt(t, steps, n, h)
        ensures n < k
      {
        CompletionBounds(t, steps, k, h, n);
      }
    }
  }

  // ---------------------------------------------------------------- one handler alone, and two that overlap

  lemma ThreeQueries(s: Indexing, row: Row, n: nat)
    ensures var next := Advance(|s.handlers|);
            Apply(Apply(Apply(Apply(s, Arrive(row), n), next, n + 1), next, n + 2), next, n + 3).tables
            == Handle(s.tables, PartialFill(row))
  {
    var i, h := |s.handlers|, row.orderHash;
    var s1 := Apply(s, Arrive(row), n);
    assert s1.handlers[i] == Handler(row, Inserting) && s1.tables == s.tables;
    var s2 := Apply(s1, Advance(i), n + 1);
    if h !in s.tables.orders {
      assert s2.handlers[i] == Handler(row, Finished) && s2.tables == s.tables;
    } else {
      var fills := Insert(s.tables.fills, row);
      assert s2.handlers[i] == Handler(row, Reading) && s2.tables == s.tables.(fills := fills);
      var s3 := Apply(s2, Advance(i), n + 2);
      var status := Derived(fills, h, s.tables.orders[h].inputAmount);
      assert s3.handlers[i] == Handler(row, Updating(status, n + 2)) && s3.tables == s2.tables;
    }
  }

  /** A handler that nothing comes between does what `Handle` does. */
  lemma AloneIsHandle(t: Tables, steps: seq<Step>, row: Row)
    ensures var s := Run(t, steps);
            var next := Advance(|s.handlers|);
            Run(t, steps + [Arrive(row), next, next, next]).tables == Handle(s.tables, PartialFill(row))
  {
    var s, n := Run(t, steps), |steps|;
    var next := Advance(|s.handlers|);
    ThreeQueries(s, row, n);
    RunFour(t, steps, Arrive(row), next, next, next);
  }

  lemma RunFour(t: Tables, steps: seq<Step>, a: Step, b: Step, c: Step, d: Step)
    ensures var n := |steps|;
            Run(t, steps + [a, b, c, d])
            == Apply(Apply(Apply(Apply(Run(t, steps), a, n), b, n + 1), c, n + 2), d, n + 3)
  {
    var r1 := steps + [a];
    var r2 := r1 + [b];
    var r3 := r2 + [c];
    RunAppend(t, steps, a);
    RunAppend(t, r1, b);
    RunAppend(t, r2, c);
    RunAppend(t, r3, d);
    assert steps + [a, b, c, d] == r3 + [d];
  }

  ghost predicate ActiveThoughComplete(t: Tables, steps: seq<Step>, h: nat) {
    var s := Run(t, steps);
    && h in s.tables.orders && s.tables.orders[h].status == Active
    && Total(s.tables.fills, h) >= s.tables.orders[h].inputAmount
    && forall i :: 0 <= i < |s.handlers| ==> s.handlers[i].phase.Finished?
  }

  /**
   * Two callbacks at the last two fills of an order: when the update of the first, read before the second insert,
   * lands last, both are done and the order stays active although its fills reach the input.
   */
  lemma OverlappingUpdatesLoseFilled(t: Tables, first: Row, second: Row)
    requires first.orderHash == second.orderHash && first.orderHash in t.orders && first.id != second.id
    requires !HasId(t.fills, first.id) && !HasId(t.fills, second.id)
    requires var h := first.orderHash;
             && Total(t.fills, h) + first.fillAmount < t.orders[h].inputAmount
             && t.orders[h].inputAmount <= Total(t.fills, h) + first.fillAmount + second.fillAmount
    ensures exists steps :: ActiveThoughComplete(t, steps, first.orderHash)
  {
    var h, fills := first.orderHash, t.fills + [first];
    var steps := [Arrive(first), Arrive(second), Advance(0), Advance(0)];
    RunFour(t, [], steps[0], steps[1], steps[2], steps[3]);
    assert [] + steps == steps;
    var s1 := Apply(Indexing(t, [], map[]), Arrive(first), 0);
    assert s1 == Indexing(t, [Handler(first, Inserting)], map[]);
    var s2 := Apply(s1, Arrive(second), 1);
    assert s2 == Indexing(t, [Handler(first, Inserting), Handler(second, Inserting)], map[]);
    var s3 := Apply(s2, Advance(0), 2);
    assert s3 == Indexing(t.(fills := fills), [Handler(first, Reading), Handler(second, Inserting)], map[]);
    var s4 := Apply(s3, Advance(0), 3);
    assert Derived(fills, h, t.orders[h].inputAmount) == Active;
    assert s4 == Indexing(t.(fills := fills), [Handler(first, Updating(Active, 3)), Handler(second, Inserting)], map[]);
    SecondThenFirst(t, steps, first, second);
  }

  lemma SecondThenFirst(t: Tables, steps: seq<Step>, first: Row, second: Row)
    requires first.orderHash == second.orderHash && first.orderHash in t.orders && !HasId(t.fills + [first], second.id)
    requires t.orders[first.orderHash].inputAmount <= Total(t.fills + [first] + [second], first.orderHash)
    requires Run(t, steps) == Indexing(t.(fills := t.fills + [first]),
                                       [Handler(first, Updating(Active, 3)), Handler(second, Inserting)], map[])
    ensures exists steps :: ActiveThoughComplete(t, steps, first.orderHash)
  {
    var h, n, fills := first.orderHash, |steps|, t.fills + [first] + [second];
    var waiting := Handler(first, Updating(Active, 3));
    RunFour(t, steps, Advance(1), Advance(1), Advance(1), Advance(0));
    var s1 := Apply(Run(t, steps), Advance(1), n);
    assert s1 == Indexing(t.(fills := fills), [waiting, Handler(second, Reading)], map[]);
    var s2 := Apply(s1, Advance(1), n + 1);
    assert s2 == Indexing(t.(fills := fills), [waiting, Handler(second, Updating(Filled, n + 1))], map[]);
    var s3 := Apply(s2, Advance(1), n + 2);
    assert s3.tables.fills == fills && s3.tables.orders[h] == t.orders[h].(status := Filled);
    assert s3.handlers == [waiting, Handler(second, Finished)];
    var s4 := Apply(s3, Advance(0), n + 3);
    assert s4.tables.fills == fills && s4.tables.orders[h] == t.orders[h].(status := Active);
    assert ActiveThoughComplete(t, steps + [Advance(1), Advance(1), Advance(1), Advance(0)], h);
  }

  /** A handler whose query failed writes nothing more. */
  lemma FailedIsSilent(s: Indexing, i: nat, n: nat, m: nat)
    requires i < |s.handlers|
    ensures var failed := Apply(s, Fail(i), n);
            failed == s.(handlers := failed.handlers) && Apply(failed, Advance(i), m) == failed
  {
    var failed := Apply(s, Fail(i), n);
    assert failed.handlers[i].phase == Finished;
  }
}

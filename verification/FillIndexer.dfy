/**
 * The indexer of reactor fills, cancellations and fallbacks (backend/src/indexer/eventIndexer.ts).
 */
module FillIndexer {

  datatype Status = Pending | Active | Filled | Cancelled | Expired

  datatype Order = Order(inputAmount: nat, swapper: nat, nonce: nat, status: Status)

  /** A row of fills; its id is the transaction hash and log index. */
  datatype Row = Row(id: (nat, nat), orderHash: nat, filler: nat, fillAmount: nat, outputAmount: nat, block: nat)

  datatype Event =
    | PartialFill(row: Row)
    | NonceInvalidated(swapper: nat, nonce: nat)
    | FallbackExecuted(orderHash: nat)

  datatype Tables = Tables(fills: seq<Row>, orders: map<nat, Order>)

  predicate HasId(fills: seq<Row>, id: (nat, nat)) {
    exists r :: r in fills && r.id == id
  }

  /** INSERT ... ON CONFLICT (id) DO NOTHING. */
  function Insert(fills: seq<Row>, row: Row): seq<Row> {
    if HasId(fills, row.id) then fills else fills + [row]
  }

  /** SUM(fill_amount) of one order. */
  function Total(fills: seq<Row>, orderHash: nat): nat {
    if fills == [] then 0
    else
      var last := fills[|fills| - 1];
      Total(fills[..|fills| - 1], orderHash) + (if last.orderHash == orderHash then last.fillAmount else 0)
  }

  /** Status a partial fill leaves behind. */
  function Derived(fills: seq<Row>, orderHash: nat, inputAmount: nat): Status {
    if Total(fills, orderHash) >= inputAmount then Filled else Active
  }

  function SetStatus(orders: map<nat, Order>, orderHash: nat, status: Status): map<nat, Order> {
    if orderHash in orders then orders[orderHash := orders[orderHash].(status := status)] else orders
  }

  predicate Open(o: Order) {
    o.status.Pending? || o.status.Active?
  }

  function Invalidate(orders: map<nat, Order>, swapper: nat, nonce: nat): map<nat, Order> {
    map h | h in orders ::
      if orders[h].swapper == swapper && orders[h].nonce == nonce && Open(orders[h])
      then orders[h].(status := Cancelled) else orders[h]
  }

  function Handle(t: Tables, e: Event): Tables {
    match e
    case PartialFill(row) =>
      // a fill of an unknown order violates the foreign key of fills.order_hash
      if row.orderHash !in t.orders then t
      else
        var fills := Insert(t.fills, row);
        var status := Derived(fills, row.orderHash, t.orders[row.orderHash].inputAmount);
        Tables(fills, SetStatus(t.orders, row.orderHash, status))
    case NonceInvalidated(swapper, nonce) => t.(orders := Invalidate(t.orders, swapper, nonce))
    case FallbackExecuted(orderHash) => t.(orders := SetStatus(t.orders, orderHash, Filled))
  }

  function HandleAll(t: Tables, events: seq<Event>): Tables
    decreases |events|
  {
    if events == [] then t else HandleAll(Handle(t, events[0]), events[1..])
  }

  /** The handlers over their two tables. */
  class Indexer {
    var fills: seq<Row>
    var orders: map<nat, Order>

    constructor (orders: map<nat, Order>)
      ensures fills == [] && this.orders == orders
    {
      fills, this.orders := [], orders;
    }

    method HandlePartialFill(row: Row)
      modifies this
      ensures Tables(fills, orders) == Handle(old(Tables(fills, orders)), PartialFill(row))
    {
      if row.orderHash !in orders {
        return;
      }
      var known := FindId(row.id);
      if !known {
        fills := fills + [row];
      }
      var total := SumFills(row.orderHash);
      var status := if total >= orders[row.orderHash].inputAmount then Filled else Active;
      orders := orders[row.orderHash := orders[row.orderHash].(status := status)];
    }

    method FindId(id: (nat, nat)) returns (known: bool)
      ensures known == HasId(fills, id)
    {
      for i := 0 to |fills|
        invariant forall r :: r in fills[..i] ==> r.id != id
      {
        if fills[i].id == id {
          return true;
        }
      }
      assert fills[..|fills|] == fills;
      return false;
    }

    method SumFills(orderHash: nat) returns (total: nat)
      ensures total == Total(fills, orderHash)
    {
      total := 0;
      for i := 0 to |fills|
        invariant total == Total(fills[..i], orderHash)
      {
        assert fills[..i + 1][..i] == fills[..i];
        if fills[i].orderHash == orderHash {
          total := total + fills[i].fillAmount;
        }
      }
      assert fills[..|fills|] == fills;
    }

    method HandleNonceInvalidated(swapper: nat, nonce: nat)
      modifies this
      ensures Tables(fills, orders) == Handle(old(Tables(fills, orders)), NonceInvalidated(swapper, nonce))
      ensures fills == old(fills) && orders.Keys == old(orders).Keys
      ensures forall h :: h in orders ==> orders[h] == old(orders)[h].(status := orders[h].status)
      // cancelled afterwards: what already was, and what was pending or active under this swapper and nonce
      ensures forall h :: h in orders ==>
                (orders[h].status.Cancelled? <==>
                  || old(orders)[h].status.Cancelled?
                  || ((old(orders)[h].swapper, old(orders)[h].nonce) == (swapper, nonce)
                      && !old(orders)[h].status.Filled? && !old(orders)[h].status.Expired?))
      ensures forall h :: h in orders && !orders[h].status.Cancelled? ==> orders[h] == old(orders)[h]
    {
      orders := Invalidate(orders, swapper, nonce);
    }

    method HandleFallbackExecuted(orderHash: nat)
      modifies this
      ensures Tables(fills, orders) == Handle(old(Tables(fills, orders)), FallbackExecuted(orderHash))
      ensures fills == old(fills) && orders.Keys == old(orders).Keys
      // filled afterwards: this order, whatever its fills and status were, and what already was
      ensures forall h :: h in orders ==>
                (orders[h].status.Filled? <==> h == orderHash || old(orders)[h].status.Filled?)
      ensures forall h :: h in orders && h != orderHash ==> orders[h] == old(orders)[h]
      ensures forall h :: h in orders ==> orders[h] == old(orders)[h].(status := orders[h].status)
    {
      if orderHash in orders {
        orders := orders[orderHash := orders[orderHash].(status := Filled)];
      }
    }
  }

  // ---------------------------------------------------------------- the sum does not depend on the order

  function Without(fills: seq<Row>, i: nat): seq<Row>
    requires i < |fills|
  {
    fills[..i] + fills[i + 1..]
  }

  lemma Removing(fills: seq<Row>, i: nat)
    requires i < |fills|
    ensures multiset(Without(fills, i)) == multiset(fills) - multiset{fills[i]}
  {
    assert fills == fills[..i] + ([fills[i]] + fills[i + 1..]);
  }

  lemma {:induction false} TotalOfConcat(a: seq<Row>, b: seq<Row>, orderHash: nat)
    ensures Total(a + b, orderHash) == Total(a, orderHash) + Total(b, orderHash)
    decreases |b|
  {
    if b == [] {
      assert a + b == a;
    } else {
      var init := b[..|b| - 1];
      assert (a + b)[..|a + b| - 1] == a + init;
      TotalOfConcat(a, init, orderHash);
    }
  }

  lemma TotalWithout(fills: seq<Row>, i: nat, orderHash: nat)
    requires i < |fills|
    ensures Total(fills, orderHash) == Total(Without(fills, i), orderHash) + Total([fills[i]], orderHash)
  {
    var before, after := fills[..i], fills[i + 1..];
    assert fills == before + ([fills[i]] + after);
    TotalOfConcat(before, [fills[i]] + after, orderHash);
    TotalOfConcat([fills[i]], after, orderHash);
    TotalOfConcat(before, after, orderHash);
  }

  lemma MemberOf(fills: seq<Row>, a: seq<Row>) returns (i: nat)
    requires multiset(a) == multiset(fills) && a != []
    ensures i < |fills| && fills[i] == a[|a| - 1]
  {
    assert a[|a| - 1] in multiset(fills);
    i :| 0 <= i < |fills| && fills[i] == a[|a| - 1];
  }

  lemma {:induction false} TotalOfMultiset(a: seq<Row>, b: seq<Row>, orderHash: nat)
    requires multiset(a) == multiset(b)
    ensures Total(a, orderHash) == Total(b, orderHash)
    decreases |a|
  {
    if a == [] {
      assert |b| == |multiset(b)| == 0;
    } else {
      var last := |a| - 1;
      var i := MemberOf(b, a);
      Removing(a, last);
      Removing(b, i);
      TotalWithout(a, last, orderHash);
      TotalWithout(b, i, orderHash);
      TotalOfMultiset(Without(a, last), Without(b, i), orderHash);
    }
  }

  // ---------------------------------------------------------------- convergence

  ghost predicate DistinctIds(fills: seq<Row>) {
    forall i, j :: 0 <= i < j < |fills| ==> fills[i].id != fills[j].id
  }

  /** One row per id, as on one chain. */
  ghost predicate OneRowPerId(events: set<Event>) {
    forall e, f :: e in events && f in events && e.PartialFill? && f.PartialFill? && e.row.id == f.row.id ==> e == f
  }

  ghost function Elements(events: seq<Event>): set<Event> {
    set e | e in events
  }

  ghost predicate Touches(seen: set<Event>, h: nat) {
    exists e :: e in seen && e.PartialFill? && e.row.orderHash == h
  }

  /** A cancellation of the order's swapper and nonce. */
  ghost predicate Cancels(seen: set<Event>, o: Order) {
    NonceInvalidated(o.swapper, o.nonce) in seen
  }

  ghost predicate FallsBack(seen: set<Event>, h: nat) {
    FallbackExecuted(h) in seen
  }

  /** What cancellations and fallbacks make of an order without fills, in any order and number. */
  ghost function WithoutFills(o: Order, h: nat, seen: set<Event>): Status {
    if FallsBack(seen, h) then Filled else if Cancels(seen, o) && Open(o) then Cancelled else o.status
  }

  /** What is known of an order's status once these events have been seen, however often and in whichever order. */
  ghost predicate Fits(o: Order, h: nat, seen: set<Event>, fills: seq<Row>, status: Status) {
    && (Touches(seen, h) && Total(fills, h) >= o.inputAmount ==> status == Filled)
    && (Touches(seen, h) && Total(fills, h) < o.inputAmount && !Cancels(seen, o) && !FallsBack(seen, h)
        ==> status == Active)
    && (!Touches(seen, h) ==> status == WithoutFills(o, h, seen))
  }

  ghost predicate HoldsRows(orders: map<nat, Order>, seen: set<Event>, fills: seq<Row>) {
    DistinctIds(fills) && forall r :: r in fills <==> PartialFill(r) in seen && r.orderHash in orders
  }

  ghost predicate OrderFits(orders: map<nat, Order>, seen: set<Event>, t: Tables, h: nat)
    requires h in orders
  {
    && h in t.orders && t.orders[h] == orders[h].(status := t.orders[h].status)
    && Fits(orders[h], h, seen, t.fills, t.orders[h].status)
  }

  ghost predicate Indexed(orders: map<nat, Order>, seen: set<Event>, t: Tables) {
    && HoldsRows(orders, seen, t.fills) && t.orders.Keys == orders.Keys
    && forall h :: h in orders ==> OrderFits(orders, seen, t, h)
  }

  lemma TotalOfOthers(fills: seq<Row>, row: Row, h: nat)
    requires row.orderHash != h
    ensures Total(Insert(fills, row), h) == Total(fills, h)
  {
  }

  lemma InsertHoldsRows(orders: map<nat, Order>, seen: set<Event>, fills: seq<Row>, row: Row)
    requires OneRowPerId(seen + {PartialFill(row)}) && HoldsRows(orders, seen, fills) && row.orderHash in orders
    ensures HoldsRows(orders, seen + {PartialFill(row)}, Insert(fills, row))
  {
    forall r
      ensures r in Insert(fills, row) <==> PartialFill(r) in seen + {PartialFill(row)} && r.orderHash in orders
    {
      if HasId(fills, row.id) {
        var x :| x in fills && x.id == row.id;
        assert PartialFill(x) in seen + {PartialFill(row)} && PartialFill(row) in seen + {PartialFill(row)};
      }
    }
  }

  lemma TouchesMore(seen: set<Event>, e: Event, h: nat)
    ensures Touches(seen + {e}, h) <==> Touches(seen, h) || (e.PartialFill? && e.row.orderHash == h)
  {
    if x :| x in seen && x.PartialFill? && x.row.orderHash == h {
      assert x in seen + {e};
    }
    if e.PartialFill? && e.row.orderHash == h {
      assert e in seen + {e};
    }
  }

  lemma FillFitsOwn(orders: map<nat, Order>, seen: set<Event>, t: Tables, row: Row)
    requires t.orders.Keys == orders.Keys && row.orderHash in orders && OrderFits(orders, seen, t, row.orderHash)
    ensures OrderFits(orders, seen + {PartialFill(row)}, Handle(t, PartialFill(row)), row.orderHash)
  {
    var h := row.orderHash;
    var t' := Handle(t, PartialFill(row));
    TouchesMore(seen, PartialFill(row), h);
    assert t'.orders[h].status == Derived(t'.fills, h, orders[h].inputAmount);
  }

  lemma FillFitsOther(orders: map<nat, Order>, seen: set<Event>, t: Tables, row: Row, h: nat)
    requires t.orders.Keys == orders.Keys && h in orders && OrderFits(orders, seen, t, h) && h != row.orderHash
    ensures OrderFits(orders, seen + {PartialFill(row)}, Handle(t, PartialFill(row)), h)
  {
    TouchesMore(seen, PartialFill(row), h);
    TotalOfOthers(t.fills, row, h);
    var t' := Handle(t, PartialFill(row));
    assert t'.orders[h] == t.orders[h] && Total(t'.fills, h) == Total(t.fills, h);
  }

  lemma OtherFits(orders: map<nat, Order>, seen: set<Event>, t: Tables, e: Event, h: nat)
    requires !e.PartialFill? && t.orders.Keys == orders.Keys && h in orders && OrderFits(orders, seen, t, h)
    ensures OrderFits(orders, seen + {e}, Handle(t, e), h)
  {
    TouchesMore(seen, e, h);
  }

  lemma HandleIndexes(orders: map<nat, Order>, seen: set<Event>, t: Tables, e: Event)
    requires OneRowPerId(seen + {e}) && Indexed(orders, seen, t)
    ensures Indexed(orders, seen + {e}, Handle(t, e))
  {
    if e.PartialFill? && e.row.orderHash in orders {
      InsertHoldsRows(orders, seen, t.fills, e.row);
    }
    forall h | h in orders
      ensures OrderFits(orders, seen + {e}, Handle(t, e), h)
    {
      if e.PartialFill? && e.row.orderHash == h {
        FillFitsOwn(orders, seen, t, e.row);
      } else if e.PartialFill? {
        FillFitsOther(orders, seen, t, e.row, h);
      } else {
        OtherFits(orders, seen, t, e, h);
      }
    }
  }

  lemma {:induction false} HandleAllIndexes(orders: map<nat, Order>, seen: set<Event>, t: Tables, events: seq<Event>)
    requires OneRowPerId(seen + Elements(events)) && Indexed(orders, seen, t)
    ensures Indexed(orders, seen + Elements(events), HandleAll(t, events))
    decreases |events|
  {
    if events == [] {
      assert seen + Elements(events) == seen;
    } else {
      assert seen + Elements(events) == seen + {events[0]} + Elements(events[1..]);
      HandleIndexes(orders, seen, t, events[0]);
      HandleAllIndexes(orders, seen + {events[0]}, Handle(t, events[0]), events[1..]);
    }
  }

  lemma AllIndexed(orders: map<nat, Order>, events: seq<Event>)
    requires OneRowPerId(Elements(events))
    ensures Indexed(orders, Elements(events), HandleAll(Tables([], orders), events))
  {
    assert {} + Elements(events) == Elements(events);
    assert Indexed(orders, {}, Tables([], orders));
    HandleAllIndexes(orders, {}, Tables([], orders), events);
  }

  lemma SameRows(a: seq<Row>, b: seq<Row>)
    requires DistinctIds(a) && DistinctIds(b) && forall r :: r in a <==> r in b
    ensures multiset(a) == multiset(b)
  {
    forall r
      ensures multiset(a)[r] == multiset(b)[r]
    {
      CountsOne(a, r);
      CountsOne(b, r);
    }
  }

  lemma {:induction false} CountsOne(a: seq<Row>, r: Row)
    requires DistinctIds(a)
    ensures multiset(a)[r] == if r in a then 1 else 0
    decreases |a|
  {
    if a != [] {
      var init, last := a[..|a| - 1], a[|a| - 1];
      assert a == init + [last];
      CountsOne(init, r);
      forall i | 0 <= i < |init|
        ensures init[i] != last
      {
        assert a[i].id != a[|a| - 1].id;
      }
    }
  }

  /**
   * Any order, any duplicates: the same set of fill events leaves the same fills (up to row order) and the
   * same orders, an order being filled exactly when its fills add up to its input.
   */
  lemma FillsConverge(orders: map<nat, Order>, a: seq<Event>, b: seq<Event>)
    requires Elements(a) == Elements(b) && OneRowPerId(Elements(a)) && forall e :: e in a ==> e.PartialFill?
    ensures var ta, tb := HandleAll(Tables([], orders), a), HandleAll(Tables([], orders), b);
            && multiset(ta.fills) == multiset(tb.fills) && ta.orders == tb.orders
            && forall h :: h in orders && Touches(Elements(a), h) ==>
                 h in ta.orders && (ta.orders[h].status == Filled <==> Total(ta.fills, h) >= orders[h].inputAmount)
  {
    var ta, tb := HandleAll(Tables([], orders), a), HandleAll(Tables([], orders), b);
    AllIndexed(orders, a);
    AllIndexed(orders, b);
    SameRows(ta.fills, tb.fills);
    forall h | h in orders
      ensures ta.orders[h] == tb.orders[h]
      ensures Touches(Elements(a), h) ==>
                (ta.orders[h].status == Filled <==> Total(ta.fills, h) >= orders[h].inputAmount)
    {
      TotalOfMultiset(ta.fills, tb.fills, h);
      assert OrderFits(orders, Elements(a), ta, h) && OrderFits(orders, Elements(b), tb, h);
      assert NonceInvalidated(orders[h].swapper, orders[h].nonce) !in a && FallbackExecuted(h) !in a;
    }
  }

  // ---------------------------------------------------------------- fills beside cancellations and fallbacks

  /** The amount a log without duplicates fills of one order. */
  ghost function LogTotal(log: seq<Event>, h: nat): nat {
    if log == [] then 0
    else
      var last := log[|log| - 1];
      LogTotal(log[..|log| - 1], h)
      + (if last.PartialFill? && last.row.orderHash == h then last.row.fillAmount else 0)
  }

  ghost predicate NoDuplicates(log: seq<Event>) {
    forall i, j :: 0 <= i < j < |log| ==> log[i] != log[j]
  }

  /** The log fills the order only in part, and also cancels it or reports its fallback. */
  ghost predicate Contested(orders: map<nat, Order>, log: seq<Event>, h: nat) {
    && h in orders && Touches(Elements(log), h) && LogTotal(log, h) < orders[h].inputAmount
    && (Cancels(Elements(log), orders[h]) || FallsBack(Elements(log), h))
  }

  /** Handling every event of the log, in some order and each as often as it comes. */
  ghost predicate Handles(events: seq<Event>, log: seq<Event>) {
    Elements(events) == Elements(log)
  }

  /** Where an order ends that the log does not contest. */
  ghost function Settled(o: Order, log: seq<Event>, h: nat): Order {
    if Touches(Elements(log), h) then o.(status := if LogTotal(log, h) >= o.inputAmount then Filled else Active)
    else o.(status := WithoutFills(o, h, Elements(log)))
  }

  /** The log's rows of known orders. */
  ghost function Rows(orders: map<nat, Order>, log: seq<Event>): seq<Row> {
    if log == [] then []
    else
      var last := log[|log| - 1];
      Rows(orders, log[..|log| - 1])
      + (if last.PartialFill? && last.row.orderHash in orders then [last.row] else [])
  }

  lemma {:induction false} RowsAreOfLog(orders: map<nat, Order>, log: seq<Event>, r: Row)
    ensures r in Rows(orders, log) <==> PartialFill(r) in log && r.orderHash in orders
  {
    if log != [] {
      var init, last := log[..|log| - 1], log[|log| - 1];
      assert log == init + [last];
      RowsAreOfLog(orders, init, r);
    }
  }

  lemma PrefixOneRow(log: seq<Event>)
    requires log != [] && OneRowPerId(Elements(log)) && NoDuplicates(log)
    ensures OneRowPerId(Elements(log[..|log| - 1])) && NoDuplicates(log[..|log| - 1])
  {
    var init := log[..|log| - 1];
    assert forall e :: e in Elements(init) ==> e in Elements(log);
  }

  lemma {:induction false} RowsAreDistinct(orders: map<nat, Order>, log: seq<Event>)
    requires OneRowPerId(Elements(log)) && NoDuplicates(log)
    ensures DistinctIds(Rows(orders, log))
  {
    if log != [] {
      var init, last := log[..|log| - 1], log[|log| - 1];
      PrefixOneRow(log);
      RowsAreDistinct(orders, init);
      var before := Rows(orders, init);
      forall i | 0 <= i < |before|
        ensures last.PartialFill? ==> before[i].id != last.row.id
      {
        RowsAreOfLog(orders, init, before[i]);
        var k :| 0 <= k < |init| && init[k] == PartialFill(before[i]);
        assert log[k] != log[|log| - 1];
        assert log[k] in Elements(log) && last in Elements(log);
      }
    }
  }

  lemma {:induction false} RowsTotal(orders: map<nat, Order>, log: seq<Event>, h: nat)
    requires h in orders
    ensures Total(Rows(orders, log), h) == LogTotal(log, h)
  {
    if log != [] {
      var init, last := log[..|log| - 1], log[|log| - 1];
      RowsTotal(orders, init, h);
      if last.PartialFill? && last.row.orderHash in orders {
        assert Rows(orders, log)[..|Rows(orders, log)| - 1] == Rows(orders, init);
      } else {
        assert Rows(orders, log) == Rows(orders, init);
      }
    }
  }

  /** Whatever the order of handling, the table adds up to what the log fills. */
  lemma HandledTotal(orders: map<nat, Order>, log: seq<Event>, fills: seq<Row>, h: nat)
    requires OneRowPerId(Elements(log)) && NoDuplicates(log) && h in orders
    requires HoldsRows(orders, Elements(log), fills)
    ensures Total(fills, h) == LogTotal(log, h)
  {
    forall r
      ensures r in fills <==> r in Rows(orders, log)
    {
      RowsAreOfLog(orders, log, r);
    }
    RowsAreDistinct(orders, log);
    SameRows(fills, Rows(orders, log));
    TotalOfMultiset(fills, Rows(orders, log), h);
    RowsTotal(orders, log, h);
  }

  /** An uncontested order ends in one place, however the log is handled. */
  lemma UncontestedSettles(orders: map<nat, Order>, log: seq<Event>, events: seq<Event>, h: nat)
    requires OneRowPerId(Elements(log)) && NoDuplicates(log) && Handles(events, log)
    requires h in orders && !Contested(orders, log, h)
    ensures var t := HandleAll(Tables([], orders), events);
            h in t.orders && t.orders[h] == Settled(orders[h], log, h)
  {
    var t := HandleAll(Tables([], orders), events);
    AllIndexed(orders, events);
    HandledTotal(orders, log, t.fills, h);
    assert OrderFits(orders, Elements(log), t, h);
  }

  lemma {:induction false} HandleAllAppend(t: Tables, events: seq<Event>, e: Event)
    ensures HandleAll(t, events + [e]) == Handle(HandleAll(t, events), e)
    decreases |events|
  {
    if events == [] {
      assert events + [e] == [e];
    } else {
      assert (events + [e])[1..] == events[1..] + [e];
      HandleAllAppend(Handle(t, events[0]), events[1..], e);
    }
  }

  /** A contested order is left active by a last fill, and not by a cancellation or fallback after it. */
  lemma ContestedDiverges(orders: map<nat, Order>, log: seq<Event>, h: nat) returns (a: seq<Event>, b: seq<Event>)
    requires OneRowPerId(Elements(log)) && NoDuplicates(log) && Contested(orders, log, h)
    ensures Handles(a, log) && Handles(b, log)
    ensures HandleAll(Tables([], orders), a).orders != HandleAll(Tables([], orders), b).orders
  {
    var fill :| fill in Elements(log) && fill.PartialFill? && fill.row.orderHash == h;
    var o := orders[h];
    var other := if FallsBack(Elements(log), h) then FallbackExecuted(h) else NonceInvalidated(o.swapper, o.nonce);
    a, b := log + [fill], log + [fill] + [other];
    assert Elements(a) == Elements(log) && Elements(b) == Elements(log);
    var start := Tables([], orders);
    var ta := HandleAll(start, a);
    HandleAllAppend(start, log, fill);
    HandleAllAppend(start, a, other);
    AllIndexed(orders, log);
    AllIndexed(orders, a);
    HandledTotal(orders, log, ta.fills, h);
    assert OrderFits(orders, Elements(a), ta, h);
    assert ta.orders[h].status == Active;
  }

  /**
   * A log of fills, cancellations and fallbacks ends in the same orders, in any order of handling and with any
   * duplicates, exactly when it contests no order; each order then ends where `Settled` says.
   */
  lemma MixedLogConvergesIff(orders: map<nat, Order>, log: seq<Event>)
    requires OneRowPerId(Elements(log)) && NoDuplicates(log)
    ensures (forall a, b :: Handles(a, log) && Handles(b, log) ==>
               HandleAll(Tables([], orders), a).orders == HandleAll(Tables([], orders), b).orders)
        <==> (forall h :: !Contested(orders, log, h))
    ensures (forall h :: !Contested(orders, log, h)) ==>
            forall a, h :: Handles(a, log) && h in orders ==>
              h in HandleAll(Tables([], orders), a).orders
              && HandleAll(Tables([], orders), a).orders[h] == Settled(orders[h], log, h)
  {
    if h :| Contested(orders, log, h) {
      var a, b := ContestedDiverges(orders, log, h);
    } else {
      forall a, h | Handles(a, log) && h in orders
        ensures h in HandleAll(Tables([], orders), a).orders
        ensures HandleAll(Tables([], orders), a).orders[h] == Settled(orders[h], log, h)
      {
        UncontestedSettles(orders, log, a, h);
      }
      forall a, b | Handles(a, log) && Handles(b, log)
        ensures HandleAll(Tables([], orders), a).orders == HandleAll(Tables([], orders), b).orders
      {
        AllIndexed(orders, a);
        AllIndexed(orders, b);
      }
    }
  }

  /** A partly filled order that was cancelled becomes active again when one of its fills is seen again. */
  lemma ReplayRevivesCancelled(t: Tables, row: Row)
    requires row in t.fills && row.orderHash in t.orders && t.orders[row.orderHash].status == Active
    requires Total(t.fills, row.orderHash) < t.orders[row.orderHash].inputAmount
    ensures var o := t.orders[row.orderHash];
            var cancelled := Handle(t, NonceInvalidated(o.swapper, o.nonce));
            && cancelled.orders[row.orderHash].status == Cancelled
            && Handle(cancelled, PartialFill(row)).orders[row.orderHash].status == Active
  {
  }
}

/**
 * Selling an order chunk by chunk through the reactor: its size gates, the floor of each chunk, and the floor of
 * the whole order that the completing chunk must clear (contract/src/PartialFillReactor.sol, executePartialChunk).
 */
module Settlement {
  import opened Arith
  import opened Wrappers
  import opened Auction

  datatype Sale = Sale(block: int, amount: nat)

  /** What the reactor stores about an order; no cursor before the first fill. */
  datatype Ledger = Ledger(remaining: nat, paid: nat, cursor: Option<Cursor>)

  function Opened(order: OrderInfo): Ledger {
    Ledger(order.inputAmount, 0, None)
  }

  predicate NotBefore(l: Ledger, block: int) {
    l.cursor.Some? ==> l.cursor.value.lastResetBlock <= block
  }

  function PriceNow(order: OrderInfo, l: Ledger, block: int): nat
    requires NotBefore(l, block)
  {
    if l.cursor.None? then order.startPrice else PriceAt(l.cursor.value, order.decayPerBlock, block)
  }

  function Output(order: OrderInfo, l: Ledger, sale: Sale): nat
    requires NotBefore(l, sale.block)
  {
    MulDiv(sale.amount, PriceNow(order, l, sale.block), WAD)
  }

  /** The checks of executePartialChunk that depend on the order's state. */
  predicate Settles(order: OrderInfo, l: Ledger, sale: Sale)
    requires order.inputAmount > 0
  {
    && NotBefore(l, sale.block) && sale.block <= order.deadline
    && (l.cursor.None? ==> order.minOutput <= MulDiv(order.inputAmount, order.startPrice, WAD))
    && ClearsSizeGate(order, l.remaining, sale.amount)
    && MulDiv(order.minOutput, sale.amount, order.inputAmount) <= Output(order, l, sale)
    && (sale.amount == l.remaining ==> order.minOutput <= l.paid + Output(order, l, sale))
  }

  function After(order: OrderInfo, l: Ledger, sale: Sale): Ledger
    requires order.inputAmount > 0 && Settles(order, l, sale)
  {
    Ledger(l.remaining - sale.amount, l.paid + Output(order, l, sale),
           Some(Cursor(PriceNow(order, l, sale.block), sale.block)))
  }

  /** The ledger after these sales, or None when one of them reverts. */
  function SettleAll(order: OrderInfo, sales: seq<Sale>): Option<Ledger>
    requires order.inputAmount > 0
  {
    if sales == [] then Some(Opened(order))
    else
      var l := SettleAll(order, sales[..|sales| - 1]);
      if l.Some? && Settles(order, l.value, sales[|sales| - 1])
      then Some(After(order, l.value, sales[|sales| - 1])) else None
  }

  function Blocks(sales: seq<Sale>): (blocks: seq<int>)
    ensures |blocks| == |sales| && forall i :: 0 <= i < |sales| ==> blocks[i] == sales[i].block
  {
    seq(|sales|, i requires 0 <= i < |sales| => sales[i].block)
  }

  function Amounts(sales: seq<Sale>): (amounts: seq<nat>)
    ensures |amounts| == |sales| && forall i :: 0 <= i < |sales| ==> amounts[i] == sales[i].amount
  {
    seq(|sales|, i requires 0 <= i < |sales| => sales[i].amount)
  }

  // ---------------------------------------------------------------- the ledger and the sales it records

  lemma {:induction false} TotalOfAppend(parts: seq<nat>, last: nat)
    ensures Total(parts + [last]) == Total(parts) + last
  {
    if parts == [] {
      assert parts + [last] == [last];
    } else {
      assert (parts + [last])[1..] == parts[1..] + [last];
      TotalOfAppend(parts[1..], last);
    }
  }

  lemma {:induction false} PaidOfAppend(chunks: seq<nat>, prices: seq<nat>, chunk: nat, price: nat)
    requires |chunks| == |prices|
    ensures Paid(chunks + [chunk], prices + [price]) == Paid(chunks, prices) + chunk * price / WAD
  {
    if chunks == [] {
      assert chunks + [chunk] == [chunk] && prices + [price] == [price];
      assert Paid([chunk], [price]) == chunk * price / WAD + Paid([], []);
    } else {
      assert (chunks + [chunk])[1..] == chunks[1..] + [chunk] && (prices + [price])[1..] == prices[1..] + [price];
      PaidOfAppend(chunks[1..], prices[1..], chunk, price);
    }
  }

  /** The sales come in block order, none after this block. */
  ghost predicate InOrder(sales: seq<Sale>, block: int) {
    Ascending(Blocks(sales)) && (sales != [] ==> sales[|sales| - 1].block <= block)
  }

  /** The chain's price for the next sale. */
  ghost function NextPrice(order: OrderInfo, sales: seq<Sale>, block: int): nat
    requires InOrder(sales, block)
  {
    ChainPrice(order, Blocks(sales), block)
  }

  /** Blocks are in order, and the cursor is the one those blocks leave. */
  ghost predicate Remembers(order: OrderInfo, sales: seq<Sale>, l: Ledger) {
    && Ascending(Blocks(sales)) && (l.cursor.None? <==> sales == [])
    && (sales != [] ==> l.cursor.value == CursorAfter(order.startPrice, order.decayPerBlock, Blocks(sales)))
  }

  lemma PriceOfLedger(order: OrderInfo, sales: seq<Sale>, l: Ledger, block: int)
    requires Remembers(order, sales, l) && NotBefore(l, block)
    ensures InOrder(sales, block) && PriceNow(order, l, block) == NextPrice(order, sales, block)
  {
    if sales != [] {
      assert Blocks(sales)[|sales| - 1] == sales[|sales| - 1].block;
    }
  }

  lemma AppendInOrder(sales: seq<Sale>, last: Sale)
    requires InOrder(sales, last.block)
    ensures Blocks(sales + [last]) == Blocks(sales) + [last.block] && Ascending(Blocks(sales + [last]))
  {
    assert Blocks(sales + [last]) == Blocks(sales) + [last.block];
  }

  lemma SaleIsRemembered(order: OrderInfo, init: seq<Sale>, l: Ledger, last: Sale)
    requires order.inputAmount > 0 && Remembers(order, init, l) && Settles(order, l, last)
    ensures Remembers(order, init + [last], After(order, l, last))
  {
    PriceOfLedger(order, init, l, last.block);
    AppendInOrder(init, last);
    var blocks := Blocks(init + [last]);
    assert blocks[..|init|] == Blocks(init);
  }

  lemma {:induction false} LedgerRemembers(order: OrderInfo, sales: seq<Sale>)
    requires order.inputAmount > 0 && SettleAll(order, sales).Some?
    ensures Remembers(order, sales, SettleAll(order, sales).value)
  {
    if sales == [] {
      assert Blocks(sales) == [];
    } else {
      var n := |sales| - 1;
      LedgerRemembers(order, sales[..n]);
      SaleIsRemembered(order, sales[..n], SettleAll(order, sales[..n]).value, sales[n]);
      assert sales[..n] + [sales[n]] == sales;
    }
  }

  lemma PricesExtend(order: OrderInfo, blocks: seq<int>, block: int)
    requires Ascending(blocks + [block])
    ensures Ascending(blocks) && (blocks != [] ==> blocks[|blocks| - 1] <= block)
    ensures SalePrices(order, blocks + [block]) == SalePrices(order, blocks) + [ChainPrice(order, blocks, block)]
  {
    OrderOfPrefix(blocks, block);
    var wider := blocks + [block];
    assert wider[..|blocks|] == blocks;
    forall i | 0 <= i < |blocks|
      ensures SalePrices(order, wider)[i] == SalePrices(order, blocks)[i]
    {
      assert wider[..i] == blocks[..i];
    }
  }

  lemma OrderOfPrefix(blocks: seq<int>, block: int)
    requires Ascending(blocks + [block])
    ensures Ascending(blocks) && (blocks != [] ==> blocks[|blocks| - 1] <= block)
  {
    var wider := blocks + [block];
    assert forall i :: 0 <= i < |blocks| ==> wider[i] == blocks[i];
    assert wider[|blocks|] == block;
  }

  /** What was taken and paid, from the list of sales alone. */
  ghost predicate AddsUp(order: OrderInfo, sales: seq<Sale>, l: Ledger)
    requires Ascending(Blocks(sales))
  {
    && l.remaining + Total(Amounts(sales)) == order.inputAmount
    && l.paid == Paid(Amounts(sales), SalePrices(order, Blocks(sales)))
  }

  lemma SaleAddsUp(order: OrderInfo, init: seq<Sale>, l: Ledger, last: Sale)
    requires order.inputAmount > 0 && Remembers(order, init, l) && Settles(order, l, last) && AddsUp(order, init, l)
    ensures Ascending(Blocks(init + [last])) && AddsUp(order, init + [last], After(order, l, last))
  {
    PriceOfLedger(order, init, l, last.block);
    AppendInOrder(init, last);
    PricesExtend(order, Blocks(init), last.block);
    assert Amounts(init + [last]) == Amounts(init) + [last.amount];
    TotalOfAppend(Amounts(init), last.amount);
    PaidOfAppend(Amounts(init), SalePrices(order, Blocks(init)), last.amount, NextPrice(order, init, last.block));
  }

  /** The ledger follows from the list of sales: what is left, what was paid at the chain's prices, and the cursor. */
  lemma {:induction false} LedgerTracksSales(order: OrderInfo, sales: seq<Sale>)
    requires order.inputAmount > 0 && SettleAll(order, sales).Some?
    ensures Remembers(order, sales, SettleAll(order, sales).value)
    ensures AddsUp(order, sales, SettleAll(order, sales).value)
  {
    LedgerRemembers(order, sales);
    if sales == [] {
      assert Blocks(sales) == [] && Amounts(sales) == [];
    } else {
      var n := |sales| - 1;
      LedgerTracksSales(order, sales[..n]);
      assert sales[..n] + [sales[n]] == sales;
      SaleAddsUp(order, sales[..n], SettleAll(order, sales[..n]).value, sales[n]);
    }
  }

  /** A completed order has paid its minimum, whatever rounding cost on the way. */
  lemma CompletedPaysTheMinimum(order: OrderInfo, sales: seq<Sale>)
    requires order.inputAmount > 0 && SettleAll(order, sales).Some? && SettleAll(order, sales).value.remaining == 0
    ensures order.minOutput <= SettleAll(order, sales).value.paid
  {
  }

  // ---------------------------------------------------------------- when the completing chunk is accepted

  /**
   * For every order and every history: the chunk that takes the rest is accepted exactly when it arrives in time
   * and its output reaches the bar the fallback check reports for the same state.
   */
  lemma CompletingChunkIff(order: OrderInfo, sales: seq<Sale>, block: int)
    requires order.inputAmount > 0 && SettleAll(order, sales).Some? && NotBefore(SettleAll(order, sales).value, block)
    requires SettleAll(order, sales).value.remaining > 0
    ensures InOrder(sales, block)
    ensures var l := SettleAll(order, sales).value;
            Settles(order, l, Sale(block, l.remaining))
            <==> && block <= order.deadline
                 && CheckFallbackRoute(order.minOutput, order.inputAmount, l.remaining, l.paid).requiredMinOutput
                    <= l.remaining * NextPrice(order, sales, block) / WAD
  {
    var l := SettleAll(order, sales).value;
    LedgerRemembers(order, sales);
    PriceOfLedger(order, sales, l, block);
    if sales == [] {
      WholeShare(order.minOutput, order.inputAmount);
    }
  }

  lemma WholeShare(a: nat, b: nat)
    requires b > 0
    ensures MulDiv(a, b, b) == a && a * b / b == a
  {
    QuotientAtLeast(a, a * b, b);
    Distribute(a, 1, b);
    QuotientBelow(a + 1, a * b, b);
  }

  /** Prices only fall, so a chunk taken at a block would have been taken at any earlier one. */
  lemma EarlierSettles(order: OrderInfo, l: Ledger, amount: nat, earlier: int, block: int)
    requires order.inputAmount > 0 && earlier <= block && NotBefore(l, earlier)
    requires Settles(order, l, Sale(block, amount))
    ensures Settles(order, l, Sale(earlier, amount))
  {
    if l.cursor.Some? {
      MulMono(earlier - l.cursor.value.lastResetBlock, block - l.cursor.value.lastResetBlock, order.decayPerBlock);
    }
    var low, high := PriceNow(order, l, block), PriceNow(order, l, earlier);
    MulMono(low, high, amount);
    DivMono(amount * low, amount * high, WAD);
  }

  /** One chunk can take the rest at this block or later exactly when it can take it now. */
  lemma OneChunkNowOrNever(order: OrderInfo, sales: seq<Sale>, block: int)
    requires order.inputAmount > 0 && SettleAll(order, sales).Some? && NotBefore(SettleAll(order, sales).value, block)
    ensures var l := SettleAll(order, sales).value;
            (exists later :: block <= later && Settles(order, l, Sale(later, l.remaining)))
            <==> Settles(order, l, Sale(block, l.remaining))
  {
    var l := SettleAll(order, sales).value;
    if later :| block <= later && Settles(order, l, Sale(later, l.remaining)) {
      EarlierSettles(order, l, l.remaining, block, later);
    }
  }

  // ---------------------------------------------------------------- orders with a suggested sweep

  /** The order carries the suggested decay and minimum, and the sale happens inside the window and in time. */
  ghost predicate InSweep(order: OrderInfo, floorPrice: nat, deadlineBlocks: int, sales: seq<Sale>, block: int) {
    && order.inputAmount > 0 && order.startPrice >= floorPrice && deadlineBlocks > 0
    && order.decayPerBlock == SuggestedDecay(order.startPrice, floorPrice, deadlineBlocks)
    && order.minOutput == MinOutput(order.inputAmount, floorPrice)
    && SettleAll(order, sales).Some? && NotBefore(SettleAll(order, sales).value, block)
    && block <= order.deadline && (sales != [] ==> block <= sales[0].block + deadlineBlocks)
  }

  lemma SweepPrice(order: OrderInfo, floorPrice: nat, deadlineBlocks: int, sales: seq<Sale>, block: int)
    requires InSweep(order, floorPrice, deadlineBlocks, sales, block)
    ensures InOrder(sales, block)
    ensures floorPrice <= NextPrice(order, sales, block) == PriceNow(order, SettleAll(order, sales).value, block)
  {
    LedgerRemembers(order, sales);
    PriceOfLedger(order, sales, SettleAll(order, sales).value, block);
    SweepKeepsTheFloor(order, floorPrice, deadlineBlocks);
    assert InWindow(Blocks(sales), block, deadlineBlocks);
  }

  /**
   * In the sweep every admissible chunk clears its own floor; only the completing one can be refused, and only for what
   * is still owed.
   */
  lemma SweepChunkIff(order: OrderInfo, floorPrice: nat, deadlineBlocks: int, sales: seq<Sale>, block: int, amount: nat)
    requires InSweep(order, floorPrice, deadlineBlocks, sales, block)
    requires ClearsSizeGate(order, SettleAll(order, sales).value.remaining, amount)
    ensures InOrder(sales, block)
    ensures var l := SettleAll(order, sales).value;
            Settles(order, l, Sale(block, amount))
            <==> (amount == l.remaining ==>
                    CheckFallbackRoute(order.minOutput, order.inputAmount, l.remaining, l.paid).remainingOutputOwed
                    <= amount * NextPrice(order, sales, block) / WAD)
  {
    SweepPrice(order, floorPrice, deadlineBlocks, sales, block);
    var price := NextPrice(order, sales, block);
    ChunkClearsItsFloor(order.inputAmount, floorPrice, amount, price);
    MulMono(floorPrice, order.startPrice, order.inputAmount);
    DivMono(order.inputAmount * floorPrice, order.inputAmount * order.startPrice, WAD);
  }

  /** Enough margin above the floor always completes: one unit for each earlier fill. */
  lemma MarginCompletes(order: OrderInfo, floorPrice: nat, deadlineBlocks: int, sales: seq<Sale>, block: int)
    requires InSweep(order, floorPrice, deadlineBlocks, sales, block)
    ensures InOrder(sales, block)
    ensures var l := SettleAll(order, sales).value;
            |sales| * WAD <= l.remaining * (NextPrice(order, sales, block) - floorPrice)
            ==> Settles(order, l, Sale(block, l.remaining))
  {
    var l := SettleAll(order, sales).value;
    SweepPrice(order, floorPrice, deadlineBlocks, sales, block);
    SweepChunkIff(order, floorPrice, deadlineBlocks, sales, block, l.remaining);
    var price := NextPrice(order, sales, block);
    if |sales| * WAD <= l.remaining * (price - floorPrice) {
      OwedInSweep(order, floorPrice, deadlineBlocks, sales, block);
      MarginInUnits(l.remaining, price, floorPrice, |sales|);
    }
  }

  lemma MarginInUnits(rem: nat, price: nat, floorPrice: nat, n: nat)
    requires floorPrice <= price && n * WAD <= rem * (price - floorPrice)
    ensures rem * floorPrice / WAD + n <= rem * price / WAD
  {
    DivBounds(rem * floorPrice, WAD);
    assert rem * (price - floorPrice) == rem * price - rem * floorPrice;
    QuotientAtLeast(rem * floorPrice / WAD + n, rem * price, WAD);
  }

  /** What is owed in the sweep exceeds the floor's worth of the rest by at most one unit a fill. */
  lemma OwedInSweep(order: OrderInfo, floorPrice: nat, deadlineBlocks: int, sales: seq<Sale>, block: int)
    requires InSweep(order, floorPrice, deadlineBlocks, sales, block)
    ensures var l := SettleAll(order, sales).value;
            order.minOutput <= l.paid + l.remaining * floorPrice / WAD + |sales|
  {
    var l, filled := SettleAll(order, sales).value, Total(Amounts(sales));
    SweepPrice(order, floorPrice, deadlineBlocks, sales, block);
    TakenIsTotal(order, sales);
    FloorOfBoth(filled, l.remaining, floorPrice);
    if sales != [] {
      PaidInSweep(order, floorPrice, deadlineBlocks, sales, block);
    }
  }

  lemma TakenIsTotal(order: OrderInfo, sales: seq<Sale>)
    requires order.inputAmount > 0 && SettleAll(order, sales).Some?
    ensures SettleAll(order, sales).value.remaining + Total(Amounts(sales)) == order.inputAmount
  {
    LedgerTracksSales(order, sales);
  }

  lemma FloorOfBoth(filled: nat, rem: nat, floorPrice: nat)
    ensures MinOutput(filled + rem, floorPrice) <= filled * floorPrice / WAD + rem * floorPrice / WAD + 1
    ensures filled == 0 ==> MinOutput(filled + rem, floorPrice) == rem * floorPrice / WAD
  {
    Distribute(filled, rem, floorPrice);
    SplitQuotient(filled * floorPrice, rem * floorPrice, WAD);
  }

  lemma PaidInSweep(order: OrderInfo, floorPrice: nat, deadlineBlocks: int, sales: seq<Sale>, block: int)
    requires InSweep(order, floorPrice, deadlineBlocks, sales, block) && InOrder(sales, block) && sales != []
    ensures Total(Amounts(sales)) * floorPrice / WAD <= SettleAll(order, sales).value.paid + |sales| - 1
  {
    LedgerTracksSales(order, sales);
    var amounts, blocks := Amounts(sales), Blocks(sales);
    SweepPricesKeepFloor(order, floorPrice, deadlineBlocks, blocks);
    PaidAtLeastFloor(amounts, SalePrices(order, blocks), floorPrice);
    RoundedSumBounds(amounts, floorPrice, WAD);
  }

  // ---------------------------------------------------------------- waiting or splitting never helps

  /** From this block on no sale is priced above p. */
  ghost predicate PricedAtMost(order: OrderInfo, l: Ledger, block: int, p: nat) {
    forall later :: block <= later && NotBefore(l, later) ==> PriceNow(order, l, later) <= p
  }

  /** What the ledger holds and could still earn at price p. */
  function Potential(l: Ledger, p: nat): nat {
    l.paid + MulDiv(l.remaining, p, WAD)
  }

  lemma EarnsNoMore(chunk: nat, rest: nat, price: nat, p: nat)
    requires price <= p
    ensures MulDiv(chunk, price, WAD) + MulDiv(rest, p, WAD) <= MulDiv(chunk + rest, p, WAD)
  {
    MulMono(price, p, chunk);
    DivMono(chunk * price, chunk * p, WAD);
    Distribute(chunk, rest, p);
    SplitQuotient(chunk * p, rest * p, WAD);
  }

  lemma SaleLosesPotential(order: OrderInfo, l: Ledger, sale: Sale, block: int, p: nat)
    requires order.inputAmount > 0 && Settles(order, l, sale) && block <= sale.block && PricedAtMost(order, l, block, p)
    ensures Potential(After(order, l, sale), p) <= Potential(l, p)
  {
    EarnsNoMore(sale.amount, l.remaining - sale.amount, PriceNow(order, l, sale.block), p);
  }

  lemma SaleKeepsPrices(order: OrderInfo, l: Ledger, sale: Sale, block: int, p: nat)
    requires order.inputAmount > 0 && Settles(order, l, sale) && block <= sale.block && PricedAtMost(order, l, block, p)
    ensures PricedAtMost(order, After(order, l, sale), block, p)
  {
    DecayOnlyLowers(order, After(order, l, sale), block, PriceNow(order, l, sale.block));
  }

  lemma DecayOnlyLowers(order: OrderInfo, l: Ledger, block: int, price: nat)
    requires l.cursor.Some? && l.cursor.value.currentStartPrice <= price
    ensures PricedAtMost(order, l, block, price)
  {
    forall later | block <= later && NotBefore(l, later)
      ensures PriceNow(order, l, later) <= price
    {
      MulMono(0, later - l.cursor.value.lastResetBlock, order.decayPerBlock);
    }
  }

  lemma PriceFalls(order: OrderInfo, l: Ledger, block: int)
    requires NotBefore(l, block)
    ensures PricedAtMost(order, l, block, PriceNow(order, l, block))
  {
    forall later | block <= later && NotBefore(l, later)
      ensures PriceNow(order, l, later) <= PriceNow(order, l, block)
    {
      if l.cursor.Some? {
        MulMono(block - l.cursor.value.lastResetBlock, later - l.cursor.value.lastResetBlock, order.decayPerBlock);
      }
    }
  }

  /** Every later sale keeps or lowers what the order can end up paying. */
  lemma {:induction false} SalesLosePotential(order: OrderInfo, sales: seq<Sale>, more: seq<Sale>, block: int, p: nat)
    requires order.inputAmount > 0 && SettleAll(order, sales).Some? && SettleAll(order, sales + more).Some?
    requires PricedAtMost(order, SettleAll(order, sales).value, block, p)
    requires forall i :: 0 <= i < |more| ==> block <= more[i].block
    ensures Potential(SettleAll(order, sales + more).value, p) <= Potential(SettleAll(order, sales).value, p)
    ensures PricedAtMost(order, SettleAll(order, sales + more).value, block, p)
    decreases |more|
  {
    if more == [] {
      assert sales + more == sales;
    } else {
      var n := |more| - 1;
      assert (sales + more)[..|sales + more| - 1] == sales + more[..n];
      SalesLosePotential(order, sales, more[..n], block, p);
      SaleLosesPotential(order, SettleAll(order, sales + more[..n]).value, more[n], block, p);
      SaleKeepsPrices(order, SettleAll(order, sales + more[..n]).value, more[n], block, p);
    }
  }

  /** These later sales, none before the block, complete the order. */
  ghost predicate Completes(order: OrderInfo, sales: seq<Sale>, more: seq<Sale>, block: int)
    requires order.inputAmount > 0
  {
    && (forall i :: 0 <= i < |more| ==> block <= more[i].block)
    && SettleAll(order, sales + more).Some? && SettleAll(order, sales + more).value.remaining == 0
  }

  /** For every order: what cannot be paid for in one chunk now cannot be paid for by any later chunks. */
  lemma CompletionNeedsPotential(order: OrderInfo, sales: seq<Sale>, more: seq<Sale>, block: int)
    requires order.inputAmount > 0 && SettleAll(order, sales).Some? && NotBefore(SettleAll(order, sales).value, block)
    requires SettleAll(order, sales).value.remaining > 0 && Completes(order, sales, more, block)
    ensures var l := SettleAll(order, sales).value; order.minOutput <= Potential(l, PriceNow(order, l, block))
  {
    var l := SettleAll(order, sales).value;
    PriceFalls(order, l, block);
    SalesLosePotential(order, sales, more, block, PriceNow(order, l, block));
    CompletedPaysTheMinimum(order, sales + more);
  }

  lemma OneChunkCompletes(order: OrderInfo, sales: seq<Sale>, sale: Sale)
    requires order.inputAmount > 0 && SettleAll(order, sales).Some?
             && sale.amount == SettleAll(order, sales).value.remaining
    requires Settles(order, SettleAll(order, sales).value, sale)
    ensures Completes(order, sales, [sale], sale.block)
  {
    assert (sales + [sale])[..|sales + [sale]| - 1] == sales;
  }

  lemma OwedAsPotential(order: OrderInfo, l: Ledger, price: nat)
    requires order.inputAmount > 0
    ensures CheckFallbackRoute(order.minOutput, order.inputAmount, l.remaining, l.paid).remainingOutputOwed
            <= l.remaining * price / WAD
        <==> order.minOutput <= Potential(l, price)
  {
    DivBounds(l.remaining * price, WAD);
  }

  /**
   * In the sweep the order can still be completed, now or by any later chunks, exactly when one chunk can
   * complete it now: when what is still owed is no more than the rest earns at the current price.
   */
  lemma CompletableIff(order: OrderInfo, floorPrice: nat, deadlineBlocks: int, sales: seq<Sale>, block: int)
    requires InSweep(order, floorPrice, deadlineBlocks, sales, block) && SettleAll(order, sales).value.remaining > 0
    ensures InOrder(sales, block)
    ensures var l := SettleAll(order, sales).value;
            (exists more :: Completes(order, sales, more, block))
            <==> CheckFallbackRoute(order.minOutput, order.inputAmount, l.remaining, l.paid).remainingOutputOwed
                 <= l.remaining * NextPrice(order, sales, block) / WAD
  {
    var l := SettleAll(order, sales).value;
    SweepPrice(order, floorPrice, deadlineBlocks, sales, block);
    OwedAsPotential(order, l, NextPrice(order, sales, block));
    if more :| Completes(order, sales, more, block) {
      CompletionNeedsPotential(order, sales, more, block);
    } else if order.minOutput <= Potential(l, NextPrice(order, sales, block)) {
      SweepChunkIff(order, floorPrice, deadlineBlocks, sales, block, l.remaining);
      OneChunkCompletes(order, sales, Sale(block, l.remaining));
    }
  }

  /** A chunk at a price that covers the order's own rate clears its floor. */
  lemma RateClearsFloor(order: OrderInfo, chunk: nat, price: nat)
    requires order.inputAmount > 0 && order.minOutput * WAD <= order.inputAmount * price
    ensures order.minOutput * chunk / order.inputAmount <= chunk * price / WAD
  {
    var share := order.minOutput * chunk / order.inputAmount;
    DivBounds(order.minOutput * chunk, order.inputAmount);
    MulMono(share * order.inputAmount, order.minOutput * chunk, WAD);
    MulMono(order.minOutput * WAD, order.inputAmount * price, chunk);
    Rearrange(order.minOutput, chunk, WAD);
    Rearrange(order.inputAmount, price, chunk);
    Rearrange(share, order.inputAmount, WAD);
    CancelFactor(share * WAD, price * chunk, order.inputAmount);
    QuotientAtLeast(share, chunk * price, WAD);
  }

  /** The block is in time and the price there covers minOutput over inputAmount. */
  ghost predicate AtRate(order: OrderInfo, sales: seq<Sale>, block: int) {
    && order.inputAmount > 0 && SettleAll(order, sales).Some? && NotBefore(SettleAll(order, sales).value, block)
    && block <= order.deadline
    && order.minOutput * WAD <= order.inputAmount * PriceNow(order, SettleAll(order, sales).value, block)
  }

  lemma RateReachesMinimum(order: OrderInfo)
    requires order.minOutput * WAD <= order.inputAmount * order.startPrice
    ensures order.minOutput <= MulDiv(order.inputAmount, order.startPrice, WAD)
  {
    QuotientAtLeast(order.minOutput, order.inputAmount * order.startPrice, WAD);
  }

  /**
   * Any order, not only a sweep: while the price covers the order's own rate, some later chunks complete it exactly
   * when one chunk does now, when what is still owed is no more than the rest earns.
   */
  lemma CompletableAtRateIff(order: OrderInfo, sales: seq<Sale>, block: int)
    requires AtRate(order, sales, block) && SettleAll(order, sales).value.remaining > 0
    ensures InOrder(sales, block)
    ensures var l := SettleAll(order, sales).value;
            (exists more :: Completes(order, sales, more, block))
            <==> CheckFallbackRoute(order.minOutput, order.inputAmount, l.remaining, l.paid).remainingOutputOwed
                 <= l.remaining * NextPrice(order, sales, block) / WAD
  {
    var l := SettleAll(order, sales).value;
    LedgerRemembers(order, sales);
    PriceOfLedger(order, sales, l, block);
    var price := NextPrice(order, sales, block);
    OwedAsPotential(order, l, price);
    if more :| Completes(order, sales, more, block) {
      CompletionNeedsPotential(order, sales, more, block);
    } else if order.minOutput <= Potential(l, price) {
      RateClearsFloor(order, l.remaining, price);
      if l.cursor.None? {
        RateReachesMinimum(order);
      }
      OneChunkCompletes(order, sales, Sale(block, l.remaining));
    }
  }

  lemma SaleSettles(order: OrderInfo, sales: seq<Sale>, l: Ledger, sale: Sale)
    requires order.inputAmount > 0 && SettleAll(order, sales) == Some(l) && Settles(order, l, sale)
    ensures SettleAll(order, sales + [sale]) == Some(After(order, l, sale))
  {
    assert (sales + [sale])[..|sales|] == sales;
  }

  /** Four units for at least two, at a price that is gone after one block. */
  ghost predicate Fading(order: OrderInfo) {
    && order.inputAmount == 4 && order.minOutput == 2 && order.startPrice == WAD && order.decayPerBlock == WAD
    && order.deadline >= 1 && order.minFillBps == 0
  }

  lemma FadingAmounts()
    ensures MulDiv(4, WAD, WAD) == 4 && MulDiv(2, WAD, WAD) == 2 && MulDiv(2, 0, WAD) == 0 && MulDiv(1, 0, WAD) == 0
    ensures MulDiv(2, 2, 4) == 1 && MulDiv(2, 1, 4) == 0
  {
  }

  lemma FirstFadingSale(order: OrderInfo)
    requires Fading(order)
    ensures Settles(order, Opened(order), Sale(0, 2))
            && After(order, Opened(order), Sale(0, 2)) == Ledger(2, 2, Some(Cursor(WAD, 0)))
  {
    FadingAmounts();
  }

  lemma LaterFadingSale(order: OrderInfo, l: Ledger)
    requires Fading(order) && l.paid == 2 && l.remaining >= 1
    requires l.cursor == Some(Cursor(WAD, 0)) || l.cursor == Some(Cursor(0, 1))
    ensures Settles(order, l, Sale(1, 1))
            && After(order, l, Sale(1, 1)) == Ledger(l.remaining - 1, 2, Some(Cursor(0, 1)))
    ensures l.remaining == 2 ==> !Settles(order, l, Sale(1, 2))
  {
    FadingAmounts();
    assert PriceNow(order, l, 1) == 0;
  }

  /** Below that rate several chunks can complete what one cannot: their floors round down one by one. */
  lemma SplitCompletesWhereOneCannot(order: OrderInfo)
    requires Fading(order)
    ensures var sales := [Sale(0, 2)];
            && SettleAll(order, sales).Some? && SettleAll(order, sales).value.remaining == 2
            && !Settles(order, SettleAll(order, sales).value, Sale(1, 2))
            && Completes(order, sales, [Sale(1, 1), Sale(1, 1)], 1)
  {
    var none: seq<Sale> := [];
    var sales, two := none + [Sale(0, 2)], none + [Sale(0, 2)] + [Sale(1, 1)];
    var l, l' := Ledger(2, 2, Some(Cursor(WAD, 0))), Ledger(1, 2, Some(Cursor(0, 1)));
    FirstFadingSale(order);
    SaleSettles(order, none, Opened(order), Sale(0, 2));
    LaterFadingSale(order, l);
    SaleSettles(order, sales, l, Sale(1, 1));
    LaterFadingSale(order, l');
    SaleSettles(order, two, l', Sale(1, 1));
    assert sales == [Sale(0, 2)] && two + [Sale(1, 1)] == [Sale(0, 2)] + [Sale(1, 1), Sale(1, 1)];
  }

  /** Half of one unit sold at the floor earns nothing, and then no chunks can ever complete the order. */
  lemma HalfSoldIsStuck(deadline: int, block: int)
    requires 0 <= block <= 10 && block <= deadline
    ensures var order := OrderInfo(WAD, MinOutput(WAD, 1), 1, SuggestedDecay(1, 1, 10), deadline, 5_000, []);
            var sales := [Sale(0, WAD / 2)];
            && SettleAll(order, sales) == Some(Ledger(WAD / 2, 0, Some(Cursor(1, 0))))
            && !exists more :: Completes(order, sales, more, block)
  {
    var order := OrderInfo(WAD, MinOutput(WAD, 1), 1, SuggestedDecay(1, 1, 10), deadline, 5_000, []);
    var sales := [Sale(0, WAD / 2)];
    assert sales[..0] == [];
    assert order.minOutput == 1;
    assert InSweep(order, 1, 10, sales, block);
    CompletableIff(order, 1, 10, sales, block);
    ResetsDoNotMoveThePrice(1, 0, Blocks(sales), block);
  }
}

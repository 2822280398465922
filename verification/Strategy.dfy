/**
 * The two fillers' decisions (filler/WhaleFiller/src/strategy/strategy.ts,
 * filler/CoWFiller/src/strategy/strategy.ts) and their aggregation over the registered fillers
 * (backend/src/services/fillerSim.ts).
 */
module Strategy {
  import opened Arith
  import opened Wrappers
  import opened Matcher
  import opened Auction

  const FAKE_MARKET_PREMIUM_BPS: nat := 100
  const MIN_SPREAD_BPS: nat := 10
  const MAX_INVENTORY_USE_BPS: nat := 5000
  const MIN_PROFIT_RAW: int := 0

  datatype SkipReason =
    | Expired | TooCloseToDeadline | PriceDecayedToZero | UnsupportedPair
    | NotProfitableYet | SpreadTooSmall | ZeroInventory | InventoryTooSmall | BelowMinFill
    | NoOrderbook | BestBidTooLow | BookTooThin | ProfitTooSmall

  datatype Decision = Skip(reason: SkipReason) | Take(fillAmount: nat, price: nat)

  /** Checks both strategies make first; None when the order passes them. */
  function Screen(order: OrderInfo, currentBlock: int, supported: bool): Option<SkipReason> {
    var blocksLeft := order.deadline - currentBlock;
    if blocksLeft <= 0 then Some(Expired)
    else if blocksLeft < 5 then Some(TooCloseToDeadline)
    else if CurrentPrice(order, currentBlock) == 0 then Some(PriceDecayedToZero)
    else if !supported then Some(UnsupportedPair)
    else None
  }

  /** Input token the usable half of the output balance pays for. */
  function Capacity(outputBalance: nat, price: nat): nat
    requires price > 0
  {
    outputBalance * MAX_INVENTORY_USE_BPS / 10_000 * WAD / price
  }

  function WhaleDecide(order: OrderInfo, currentBlock: int, supported: bool, outputBalance: nat): Decision {
    match Screen(order, currentBlock, supported)
    case Some(reason) => Skip(reason)
    case None =>
      var price := CurrentPrice(order, currentBlock);
      var refPrice := order.startPrice * (10_000 + FAKE_MARKET_PREMIUM_BPS) / 10_000;
      if price >= refPrice then Skip(NotProfitableYet)
      else if (refPrice - price) * 10_000 / refPrice < MIN_SPREAD_BPS then Skip(SpreadTooSmall)
      else if outputBalance == 0 then Skip(ZeroInventory)
      else
        var capacity := Capacity(outputBalance, price);
        if capacity == 0 then Skip(InventoryTooSmall)
        else
          var fillAmount := if capacity < order.inputAmount then capacity else order.inputAmount;
          if fillAmount < MinFill(order) then Skip(BelowMinFill) else Take(fillAmount, price)
  }

  ghost function CowDecide(order: OrderInfo, currentBlock: int, supported: bool,
                           book: Option<seq<BidLevel>>, outputBalance: nat): Decision
  {
    match Screen(order, currentBlock, supported)
    case Some(reason) => Skip(reason)
    case None =>
      var price := CurrentPrice(order, currentBlock);
      if book.None? then Skip(NoOrderbook)
      else if outputBalance == 0 then Skip(ZeroInventory)
      else
        var capacity := Capacity(outputBalance, price);
        var available := if capacity < order.inputAmount then capacity else order.inputAmount;
        match Matched(price, available, book.value)
        case None => Skip(BestBidTooLow)
        case Some(result) =>
          if result.fillAmount < available then Skip(BookTooThin)
          else if result.estimatedProfit < MIN_PROFIT_RAW then Skip(ProfitTooSmall)
          else Take(result.fillAmount, price)
  }

  /** The CoW filler takes all it can afford exactly when the bids above the auction price absorb it. */
  lemma CowFillsOnlyFullMatches(order: OrderInfo, currentBlock: int, supported: bool, bids: seq<BidLevel>,
                                outputBalance: nat)
    requires Descending(bids) && Screen(order, currentBlock, supported).None? && outputBalance > 0
    ensures var price := CurrentPrice(order, currentBlock);
            var available := Min(Capacity(outputBalance, price), order.inputAmount);
            CowDecide(order, currentBlock, supported, Some(bids), outputBalance)
            == if 0 < available <= Depth(bids, price) then Take(available, price)
               else if available == 0 || Depth(bids, price) == 0 then Skip(BestBidTooLow)
               else Skip(BookTooThin)
  {
    var price := CurrentPrice(order, currentBlock);
    var available := Min(Capacity(outputBalance, price), order.inputAmount);
    MatchIsBest(price, available, bids);
  }

  /** What a decision to fill commits: at the current price, no more than the usable half of the output balance. */
  ghost predicate WithinMeans(d: Decision, order: OrderInfo, currentBlock: int, outputBalance: nat) {
    d.Take? ==>
      && d.price == CurrentPrice(order, currentBlock) > 0
      && 0 <= d.fillAmount <= order.inputAmount && d.fillAmount * d.price / WAD <= outputBalance / 2
      && order.deadline - currentBlock >= 5
  }

  lemma CapacityIsAffordable(amount: nat, price: nat, outputBalance: nat)
    requires price > 0 && amount <= Capacity(outputBalance, price)
    ensures amount * price / WAD <= outputBalance / 2
  {
    var usable := outputBalance * MAX_INVENTORY_USE_BPS / 10_000;
    assert usable == outputBalance / 2;
    DivBounds(usable * WAD, price);
    MulMono(amount, usable * WAD / price, price);
    QuotientBelow(usable + 1, amount * price, WAD);
  }

  /** Neither filler commits to more than it can pay; the whale also respects the minimum and its spread. */
  lemma FillersStayWithinMeans(order: OrderInfo, currentBlock: int, supported: bool, book: Option<seq<BidLevel>>,
                               outputBalance: nat)
    ensures WithinMeans(WhaleDecide(order, currentBlock, supported, outputBalance), order, currentBlock, outputBalance)
    ensures WithinMeans(CowDecide(order, currentBlock, supported, book, outputBalance), order, currentBlock,
                        outputBalance)
    ensures var whale := WhaleDecide(order, currentBlock, supported, outputBalance);
            whale.Take? ==> MinFill(order) <= whale.fillAmount && whale.price < order.startPrice * 101 / 100
  {
    var price := CurrentPrice(order, currentBlock);
    if price > 0 {
      var available := Min(Capacity(outputBalance, price), order.inputAmount);
      CapacityIsAffordable(available, price, outputBalance);
      if book.Some? {
        assert Feasible(Greedy(price, available, book.value), available, book.value);
      }
    }
  }

  lemma SpreadIsWide(refPrice: nat, price: nat)
    requires 0 < price < refPrice
    ensures (refPrice - price) * 10_000 / refPrice >= MIN_SPREAD_BPS <==> 1000 * price <= 999 * refPrice
  {
    if 1000 * price <= 999 * refPrice {
      QuotientAtLeast(MIN_SPREAD_BPS, (refPrice - price) * 10_000, refPrice);
    } else {
      QuotientBelow(MIN_SPREAD_BPS, (refPrice - price) * 10_000, refPrice);
    }
  }

  /**
   * The whale takes an order exactly when five blocks are left, the pair is supported, the price is positive and at
   * most 99.9% of the start price with its 1% premium, and what it can afford is positive and meets the minimum.
   */
  lemma WhaleTakesIff(order: OrderInfo, currentBlock: int, supported: bool, outputBalance: nat)
    ensures var d, price := WhaleDecide(order, currentBlock, supported, outputBalance),
                            CurrentPrice(order, currentBlock);
            && (d.Take? <==>
                  && currentBlock <= order.deadline - 5 && supported
                  && 0 < 1000 * price <= 999 * (order.startPrice * 101 / 100)
                  && 0 < Capacity(outputBalance, price)
                  && MinFill(order) <= Min(Capacity(outputBalance, price), order.inputAmount))
            && (d.Take? ==>
                  d.price == price > 0 && d.fillAmount == Min(Capacity(outputBalance, price), order.inputAmount))
  {
    var price, refPrice := CurrentPrice(order, currentBlock), order.startPrice * 10_100 / 10_000;
    assert refPrice == order.startPrice * 101 / 100;
    if price > 0 {
      if outputBalance == 0 {
        NoCapacity(price);
      }
      if price < refPrice {
        SpreadIsWide(refPrice, price);
      }
    }
  }

  lemma NoCapacity(price: nat)
    requires price > 0
    ensures Capacity(0, price) == 0
  {
  }

  // ---------------------------------------------------------------- the reactor's minimum

  /**
   * A decision is capped by what remains before it is registered and again before it is executed. The whale's always
   * passes the reactor's size gate; the CoW filler's does exactly when it takes all that remains or its capacity
   * reaches the minimum.
   */
  lemma CappedDecisionClears(order: OrderInfo, currentBlock: int, supported: bool, book: Option<seq<BidLevel>>,
                             outputBalance: nat, remaining: nat)
    requires remaining <= order.inputAmount
    ensures var whale := WhaleDecide(order, currentBlock, supported, outputBalance);
            whale.Take? ==> ClearsSizeGate(order, remaining, Min(whale.fillAmount, remaining))
    ensures var cow := CowDecide(order, currentBlock, supported, book, outputBalance);
            cow.Take? ==>
              CurrentPrice(order, currentBlock) > 0
              && var available := Min(Capacity(outputBalance, CurrentPrice(order, currentBlock)), order.inputAmount);
                 && cow.fillAmount == available
                 && (ClearsSizeGate(order, remaining, Min(available, remaining))
                     <==> remaining <= available || MinFill(order) <= available)
  {
    var price := CurrentPrice(order, currentBlock);
    if price > 0 && book.Some? {
      var available := Min(Capacity(outputBalance, price), order.inputAmount);
      assert Feasible(Greedy(price, available, book.value), available, book.value);
    }
  }

  /** A full match of what the CoW filler can afford, one unit of an order of a hundred that asks for fifty. */
  lemma CowMatchCanMissTheMinimum()
    ensures var order := OrderInfo(100, 0, WAD, 0, 1000, 5000, []);
            && CowDecide(order, 950, true, Some([BidLevel(2 * WAD, 100)]), 2) == Take(1, WAD)
            && MinFill(order) == 50 && !ClearsSizeGate(order, order.inputAmount, 1)
  {
    var order, bids := OrderInfo(100, 0, WAD, 0, 1000, 5000, []), [BidLevel(2 * WAD, 100)];
    assert CurrentPrice(order, 950) == WAD && Capacity(2, WAD) == 1;
    assert bids[1..] == [];
    assert Depth(bids, WAD) == 100;
    CowFillsOnlyFullMatches(order, 950, true, bids, 2);
  }

  // ---------------------------------------------------------------- simulation

  /** A registered filler and what its quote depends on besides the order. */
  datatype Filler =
    | Whale(supported: bool, outputBalance: nat)
    | Cow(supported: bool, book: Option<seq<BidLevel>>, outputBalance: nat)
    | Unreachable

  /** Amount a filler's quote adds to the simulation. */
  ghost function Quoted(filler: Filler, order: OrderInfo, currentBlock: int): nat {
    var decision := match filler
      case Whale(supported, balance) => WhaleDecide(order, currentBlock, supported, balance)
      case Cow(supported, book, balance) => CowDecide(order, currentBlock, supported, book, balance)
      case Unreachable => Skip(Expired);
    if decision.Take? then decision.fillAmount else 0
  }

  ghost function TotalQuoted(fillers: seq<Filler>, order: OrderInfo, currentBlock: int): nat {
    if fillers == [] then 0
    else Quoted(fillers[0], order, currentBlock) + TotalQuoted(fillers[1..], order, currentBlock)
  }

  /** What the fillers would fill together, no more than the order. */
  ghost function TotalFill(fillers: seq<Filler>, order: OrderInfo, currentBlock: int): nat {
    var totalRaw := TotalQuoted(fillers, order, currentBlock);
    if totalRaw > order.inputAmount then order.inputAmount else totalRaw
  }

  ghost function CoverageBps(fillers: seq<Filler>, order: OrderInfo, currentBlock: int): nat {
    var total := TotalFill(fillers, order, currentBlock);
    if order.inputAmount > 0 then total * 10_000 / order.inputAmount else 0
  }

  lemma MinFillOnlyGates(filler: Filler, order: OrderInfo, currentBlock: int, minFillBps: nat)
    requires order.minFillBps <= minFillBps
    ensures Quoted(filler, order.(minFillBps := minFillBps), currentBlock) <= Quoted(filler, order, currentBlock)
  {
    var raised := order.(minFillBps := minFillBps);
    assert CurrentPrice(raised, currentBlock) == CurrentPrice(order, currentBlock);
    MulMono(order.minFillBps, minFillBps, order.inputAmount);
    DivMono(order.inputAmount * order.minFillBps, order.inputAmount * minFillBps, 10_000);
  }

  lemma {:induction false} TotalIsAntitone(fillers: seq<Filler>, order: OrderInfo, currentBlock: int, minFillBps: nat)
    requires order.minFillBps <= minFillBps
    ensures TotalQuoted(fillers, order.(minFillBps := minFillBps), currentBlock)
            <= TotalQuoted(fillers, order, currentBlock)
  {
    if fillers != [] {
      MinFillOnlyGates(fillers[0], order, currentBlock, minFillBps);
      TotalIsAntitone(fillers[1..], order, currentBlock, minFillBps);
    }
  }

  /** A higher minimum never raises the projected coverage, whichever fillers are registered. */
  lemma CoverageIsAntitone(fillers: seq<Filler>, order: OrderInfo, currentBlock: int, minFillBps: nat)
    requires order.minFillBps <= minFillBps
    ensures CoverageBps(fillers, order.(minFillBps := minFillBps), currentBlock)
            <= CoverageBps(fillers, order, currentBlock)
    ensures CoverageBps(fillers, order, currentBlock) <= 10_000
  {
    TotalIsAntitone(fillers, order, currentBlock, minFillBps);
    if order.inputAmount > 0 {
      var raised := order.(minFillBps := minFillBps);
      var low := Min(TotalQuoted(fillers, raised, currentBlock), order.inputAmount);
      var high := Min(TotalQuoted(fillers, order, currentBlock), order.inputAmount);
      DivMono(low * 10_000, high * 10_000, order.inputAmount);
      QuotientBelow(10_001, high * 10_000, order.inputAmount);
    }
  }

  // ---------------------------------------------------------------- what coverage means

  /** Each filler's own quote, in order. */
  ghost function Quotes(fillers: seq<Filler>, order: OrderInfo, currentBlock: int): seq<nat> {
    seq(|fillers|, i requires 0 <= i < |fillers| => Quoted(fillers[i], order, currentBlock))
  }

  lemma {:induction false} TotalQuotedIsSum(fillers: seq<Filler>, order: OrderInfo, currentBlock: int)
    ensures TotalQuoted(fillers, order, currentBlock) == Total(Quotes(fillers, order, currentBlock))
  {
    if fillers != [] {
      assert Quotes(fillers, order, currentBlock)[1..] == Quotes(fillers[1..], order, currentBlock);
      TotalQuotedIsSum(fillers[1..], order, currentBlock);
    }
  }

  /** Basis points of a whole, rounded down: all of them only for the whole. */
  lemma ShareOfWhole(part: nat, whole: nat)
    requires part <= whole && whole > 0
    ensures 0 <= part * 10_000 / whole <= 10_000
    ensures part * 10_000 / whole == 10_000 <==> part == whole
  {
    QuotientAtLeast(0, part * 10_000, whole);
    QuotientBelow(10_001, part * 10_000, whole);
    if part < whole {
      QuotientBelow(10_000, part * 10_000, whole);
    } else {
      QuotientIs(10_000, whole * 10_000, whole);
    }
  }

  /**
   * Coverage is the share of the order that all the quotes together make up, each counted in full and the sum capped at
   * the order, in basis points rounded down; it is complete exactly when they add up to the order.
   */
  lemma CoverageIsShareOfSum(fillers: seq<Filler>, order: OrderInfo, currentBlock: int)
    requires order.inputAmount > 0
    ensures var sum := Total(Quotes(fillers, order, currentBlock));
            && CoverageBps(fillers, order, currentBlock) == 10_000 * Min(order.inputAmount, sum) / order.inputAmount
            && (CoverageBps(fillers, order, currentBlock) == 10_000 <==> sum >= order.inputAmount)
  {
    TotalQuotedIsSum(fillers, order, currentBlock);
    ShareOfWhole(TotalFill(fillers, order, currentBlock), order.inputAmount);
  }

  lemma {:induction false} TotalQuotedAppend(fillers: seq<Filler>, more: seq<Filler>, order: OrderInfo,
                                             currentBlock: int)
    ensures TotalQuoted(fillers + more, order, currentBlock)
         == TotalQuoted(fillers, order, currentBlock) + TotalQuoted(more, order, currentBlock)
  {
    if fillers == [] {
      assert [] + more == more;
    } else {
      assert (fillers + more)[1..] == fillers[1..] + more;
      TotalQuotedAppend(fillers[1..], more, order, currentBlock);
    }
  }

  /** One filler more adds what it quotes, up to what the others leave. */
  lemma OneMoreFiller(fillers: seq<Filler>, filler: Filler, order: OrderInfo, currentBlock: int)
    ensures var before := TotalFill(fillers, order, currentBlock);
            && before <= order.inputAmount
            && TotalFill(fillers + [filler], order, currentBlock)
               == before + Min(Quoted(filler, order, currentBlock), order.inputAmount - before)
    ensures TotalFill([], order, currentBlock) == 0
  {
    TotalQuotedAppend(fillers, [filler], order, currentBlock);
    assert TotalQuoted([filler], order, currentBlock) == Quoted(filler, order, currentBlock)
      by {
      assert [filler][1..] == [];
    }
  }

  lemma FirstElsewhere(a: seq<Filler>, b: seq<Filler>) returns (i: nat)
    requires a != [] && multiset(a) == multiset(b)
    ensures i < |b| && b[i] == a[0] && multiset(a[1..]) == multiset(b[..i] + b[i + 1..])
  {
    assert a[0] in multiset(b);
    i :| 0 <= i < |b| && b[i] == a[0];
    assert a == [a[0]] + a[1..];
    assert b == b[..i] + [b[i]] + b[i + 1..];
    assert multiset(a[1..]) == multiset(a) - multiset{a[0]};
    assert multiset(b[..i] + b[i + 1..]) == multiset(b) - multiset{b[i]};
  }

  /** The registry's order does not matter. */
  lemma {:induction false} CoverageIgnoresOrder(a: seq<Filler>, b: seq<Filler>, order: OrderInfo, currentBlock: int)
    requires multiset(a) == multiset(b)
    ensures TotalQuoted(a, order, currentBlock) == TotalQuoted(b, order, currentBlock)
    ensures CoverageBps(a, order, currentBlock) == CoverageBps(b, order, currentBlock)
    decreases |a|
  {
    if a == [] {
      assert |b| == |multiset(b)| == 0;
    } else {
      var i := FirstElsewhere(a, b);
      CoverageIgnoresOrder(a[1..], b[..i] + b[i + 1..], order, currentBlock);
      assert b == b[..i] + ([b[i]] + b[i + 1..]);
      assert ([b[i]] + b[i + 1..])[1..] == b[i + 1..];
      TotalQuotedAppend(b[..i], [b[i]] + b[i + 1..], order, currentBlock);
      TotalQuotedAppend(b[..i], b[i + 1..], order, currentBlock);
    }
  }

  /** The capacity is the most input whose price half the balance covers. */
  lemma CapacityIsExact(amount: nat, price: nat, outputBalance: nat)
    requires price > 0
    ensures amount <= Capacity(outputBalance, price) <==> amount * price <= outputBalance / 2 * WAD
  {
    var usable := outputBalance * MAX_INVENTORY_USE_BPS / 10_000;
    assert usable == outputBalance / 2;
    if amount * price <= usable * WAD {
      QuotientAtLeast(amount, usable * WAD, price);
    } else {
      QuotientBelow(amount, usable * WAD, price);
    }
  }
}

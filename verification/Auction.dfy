/**
 * Dutch-auction arithmetic of one order: the price the reactor charges, the price the filler
 * estimates (filler/CoWFiller/src/fill/partialFill.ts), the suggested sweep
 * (backend/src/routes/suggest.ts) and the fallback's output floors
 * (backend/src/watcher/fallbackWatcher.ts).
 */
module Auction {
  import opened Arith
  import opened Wrappers

  /** A recorded fill; the block is missing until the transaction is indexed. */
  datatype Fill = Fill(amount: nat, output: nat, block: Option<int>)

  /** Fills come newest first, as the order endpoint returns them. */
  datatype OrderInfo = OrderInfo(inputAmount: nat, minOutput: nat, startPrice: nat, decayPerBlock: nat,
                                 deadline: int, minFillBps: nat, fills: seq<Fill>)

  // ---------------------------------------------------------------- prices

  /** The reactor's decay cursor: reset to the current price on every fill. */
  datatype Cursor = Cursor(currentStartPrice: nat, lastResetBlock: int)

  function PriceAt(cursor: Cursor, decayPerBlock: nat, block: int): nat
    requires block >= cursor.lastResetBlock
  {
    var decayed := (block - cursor.lastResetBlock) * decayPerBlock;
    if decayed >= cursor.currentStartPrice then 0 else cursor.currentStartPrice - decayed
  }

  ghost predicate Ascending(blocks: seq<int>) {
    forall i, j :: 0 <= i < j < |blocks| ==> blocks[i] <= blocks[j]
  }

  /** The cursor after fills at these blocks: initialised by the first, reset by each later one. */
  ghost function CursorAfter(startPrice: nat, decayPerBlock: nat, blocks: seq<int>): (c: Cursor)
    requires blocks != [] && Ascending(blocks)
    ensures c.lastResetBlock == blocks[|blocks| - 1]
  {
    var last := |blocks| - 1;
    if last == 0 then Cursor(startPrice, blocks[0])
    else
      assert blocks[..last][last - 1] == blocks[last - 1];
      Cursor(PriceAt(CursorAfter(startPrice, decayPerBlock, blocks[..last]), decayPerBlock, blocks[last]), blocks[last])
  }

  /** Resets leave no trace in the price: only the first fill's block counts. */
  lemma {:induction false} ResetsDoNotMoveThePrice(startPrice: nat, decayPerBlock: nat, blocks: seq<int>, block: int)
    requires blocks != [] && Ascending(blocks) && block >= blocks[|blocks| - 1]
    ensures PriceAt(CursorAfter(startPrice, decayPerBlock, blocks), decayPerBlock, block)
         == Max(0, startPrice - (block - blocks[0]) * decayPerBlock)
  {
    var last := |blocks| - 1;
    if last > 0 {
      ResetsDoNotMoveThePrice(startPrice, decayPerBlock, blocks[..last], blocks[last]);
      Distribute(blocks[last] - blocks[0], block - blocks[last], decayPerBlock);
      MulMono(0, block - blocks[last], decayPerBlock);
    }
  }

  /** The block the filler counts from: the last entry of the fill list. */
  function ReferenceBlock(order: OrderInfo, currentBlock: int): int {
    if order.fills == [] then currentBlock
    else match order.fills[|order.fills| - 1].block
      case Some(block) => block
      case None => currentBlock
  }

  function Decayed(order: OrderInfo, currentBlock: int): nat {
    Max(0, currentBlock - ReferenceBlock(order, currentBlock)) * order.decayPerBlock
  }

  /** Price used by both strategies and the order view: 0 once it has decayed away. */
  function CurrentPrice(order: OrderInfo, currentBlock: int): nat {
    if order.startPrice > Decayed(order, currentBlock) then order.startPrice - Decayed(order, currentBlock) else 0
  }

  /** Price used to fund a manual fill: never below 1. */
  function EstimateAuctionPrice(order: OrderInfo, currentBlock: int): nat {
    if order.startPrice > Decayed(order, currentBlock) then order.startPrice - Decayed(order, currentBlock) else 1
  }

  /** What the next fill at `block` would be charged, given the blocks of the earlier ones. */
  ghost function ChainPrice(order: OrderInfo, blocks: seq<int>, block: int): nat
    requires Ascending(blocks) && (blocks != [] ==> block >= blocks[|blocks| - 1])
  {
    if blocks == [] then order.startPrice
    else PriceAt(CursorAfter(order.startPrice, order.decayPerBlock, blocks), order.decayPerBlock, block)
  }

  /** Listed fills are the chain's; any of them may be missing, and so may some block numbers. */
  ghost predicate Records(fills: seq<Fill>, blocks: seq<int>) {
    forall i :: 0 <= i < |fills| ==> fills[i].block == None || fills[i].block.value in blocks
  }

  /** The filler never under-estimates, and is exact once the oldest fill is listed last with its block number. */
  lemma EstimateNeverUnder(order: OrderInfo, blocks: seq<int>, block: int)
    requires Ascending(blocks) && (blocks != [] ==> block >= blocks[|blocks| - 1])
    requires Records(order.fills, blocks)
    ensures ChainPrice(order, blocks, block) <= CurrentPrice(order, block)
    ensures EstimateAuctionPrice(order, block) == Max(1, CurrentPrice(order, block))
    ensures blocks == [] || (order.fills != [] && order.fills[|order.fills| - 1].block == Some(blocks[0])) ==>
              CurrentPrice(order, block) == ChainPrice(order, blocks, block)
  {
    if blocks != [] {
      var reference := ReferenceBlock(order, block);
      ResetsDoNotMoveThePrice(order.startPrice, order.decayPerBlock, blocks, block);
      assert blocks[0] <= reference <= block by {
        ReferenceIsListed(order, blocks, block);
      }
      MulMono(0, block - blocks[0], order.decayPerBlock);
      MulMono(block - reference, block - blocks[0], order.decayPerBlock);
    }
  }

  lemma ReferenceIsListed(order: OrderInfo, blocks: seq<int>, block: int)
    requires blocks != [] && Ascending(blocks) && block >= blocks[|blocks| - 1] && Records(order.fills, blocks)
    ensures blocks[0] <= ReferenceBlock(order, block) <= block
  {
    var last := |order.fills| - 1;
    if order.fills != [] && order.fills[last].block.Some? {
      var k :| 0 <= k < |blocks| && blocks[k] == order.fills[last].block.value;
      assert blocks[0] <= blocks[k] <= blocks[|blocks| - 1];
    }
  }

  // ---------------------------------------------------------------- sums of rounded parts

  ghost function RoundedSum(parts: seq<nat>, num: nat, den: nat): nat
    requires den > 0
  {
    if parts == [] then 0 else parts[0] * num / den + RoundedSum(parts[1..], num, den)
  }

  lemma SplitQuotient(a: nat, b: nat, den: nat)
    requires den > 0
    ensures a / den + b / den <= (a + b) / den <= a / den + b / den + 1
  {
    DivBounds(a, den);
    DivBounds(b, den);
    Distribute(a / den, b / den, den);
    QuotientAtLeast(a / den + b / den, a + b, den);
    Distribute(a / den + b / den, 2, den);
    QuotientBelow(a / den + b / den + 2, a + b, den);
  }

  /** Cutting a total into n parts loses at most n - 1 to rounding. */
  lemma {:induction false} RoundedSumBounds(parts: seq<nat>, num: nat, den: nat)
    requires den > 0 && parts != []
    ensures RoundedSum(parts, num, den) <= Total(parts) * num / den
    ensures Total(parts) * num / den <= RoundedSum(parts, num, den) + |parts| - 1
  {
    if |parts| > 1 {
      RoundedSumBounds(parts[1..], num, den);
      Distribute(parts[0], Total(parts[1..]), num);
      SplitQuotient(parts[0] * num, Total(parts[1..]) * num, den);
    } else {
      assert Total(parts) == parts[0] && RoundedSum(parts, num, den) == parts[0] * num / den;
    }
  }

  // ---------------------------------------------------------------- the suggested sweep

  const UINT32_MAX: nat := 4_294_967_295

  /** Sweep from the ask to the floor over the window, clamped to what the contract can store. */
  function SuggestedDecay(startPrice: nat, floorPrice: nat, deadlineBlocks: int): nat
    requires deadlineBlocks != 0
  {
    var decay := TruncDiv(startPrice - floorPrice, deadlineBlocks);
    if decay < 0 then 0 else if decay > UINT32_MAX then UINT32_MAX else decay
  }

  function MinOutput(inputAmount: nat, floorPrice: nat): nat {
    inputAmount * floorPrice / WAD
  }

  /** The suggested minimum is the most output the floor price promises for the whole input. */
  lemma MinOutputIsFloor(inputAmount: nat, floorPrice: nat, output: nat)
    ensures output <= MinOutput(inputAmount, floorPrice) <==> output * WAD <= inputAmount * floorPrice
  {
    if output * WAD <= inputAmount * floorPrice {
      QuotientAtLeast(output, inputAmount * floorPrice, WAD);
    } else {
      QuotientBelow(output, inputAmount * floorPrice, WAD);
    }
  }

  lemma DecayFitsTheWindow(startPrice: nat, floorPrice: nat, deadlineBlocks: int, elapsed: nat)
    requires startPrice >= floorPrice && elapsed <= deadlineBlocks && 0 < deadlineBlocks
    ensures elapsed * SuggestedDecay(startPrice, floorPrice, deadlineBlocks) <= startPrice - floorPrice
    ensures SuggestedDecay(startPrice, floorPrice, deadlineBlocks) <= UINT32_MAX
  {
    var decay := SuggestedDecay(startPrice, floorPrice, deadlineBlocks);
    var full := (startPrice - floorPrice) / deadlineBlocks;
    MulMono(elapsed, deadlineBlocks, decay);
    MulMono(decay, full, deadlineBlocks);
    DivBounds(startPrice - floorPrice, deadlineBlocks);
  }

  /**
   * The order never sells below the floor inside the window, whatever the fills, exactly when the
   * ask is not below the floor.
   */
  lemma SweepKeepsTheFloor(order: OrderInfo, floorPrice: nat, deadlineBlocks: int)
    requires deadlineBlocks > 0
    requires order.decayPerBlock == SuggestedDecay(order.startPrice, floorPrice, deadlineBlocks)
    ensures order.startPrice >= floorPrice <==>
            forall blocks, block ::
              InWindow(blocks, block, deadlineBlocks) ==> floorPrice <= ChainPrice(order, blocks, block)
  {
    if order.startPrice >= floorPrice {
      forall blocks, block | InWindow(blocks, block, deadlineBlocks)
        ensures floorPrice <= ChainPrice(order, blocks, block)
      {
        if blocks != [] {
          ResetsDoNotMoveThePrice(order.startPrice, order.decayPerBlock, blocks, block);
          DecayFitsTheWindow(order.startPrice, floorPrice, deadlineBlocks, block - blocks[0]);
        }
      }
    } else {
      assert InWindow([], 0, deadlineBlocks) && ChainPrice(order, [], 0) == order.startPrice;
    }
  }

  ghost predicate InWindow(blocks: seq<int>, block: int, deadlineBlocks: int) {
    && Ascending(blocks)
    && (blocks != [] ==> blocks[|blocks| - 1] <= block <= blocks[0] + deadlineBlocks)
  }

  /** Unless the decay was clamped, the sweep ends within one window length above the floor. */
  lemma SweepReachesTheFloor(startPrice: nat, floorPrice: nat, deadlineBlocks: int)
    requires startPrice >= floorPrice && deadlineBlocks > 0
    requires (startPrice - floorPrice) / deadlineBlocks <= UINT32_MAX
    ensures floorPrice
            <= startPrice - deadlineBlocks * SuggestedDecay(startPrice, floorPrice, deadlineBlocks)
            < floorPrice + deadlineBlocks
  {
  }

  /** What the reactor pays out for chunks sold at these prices. */
  ghost function Paid(chunks: seq<nat>, prices: seq<nat>): nat
    requires |chunks| == |prices|
  {
    if chunks == [] then 0 else chunks[0] * prices[0] / WAD + Paid(chunks[1..], prices[1..])
  }

  lemma {:induction false} PaidAtLeastFloor(chunks: seq<nat>, prices: seq<nat>, floorPrice: nat)
    requires |chunks| == |prices| && forall i :: 0 <= i < |prices| ==> floorPrice <= prices[i]
    ensures RoundedSum(chunks, floorPrice, WAD) <= Paid(chunks, prices)
  {
    if chunks != [] {
      MulMono(floorPrice, prices[0], chunks[0]);
      DivMono(chunks[0] * floorPrice, chunks[0] * prices[0], WAD);
      PaidAtLeastFloor(chunks[1..], prices[1..], floorPrice);
    }
  }

  /** The i-th chunk is sold at block i of `blocks`, at the price the earlier ones left. */
  ghost function SalePrices(order: OrderInfo, blocks: seq<int>): (prices: seq<nat>)
    requires Ascending(blocks)
    ensures |prices| == |blocks|
    ensures forall i :: 0 <= i < |blocks| ==> prices[i] == ChainPrice(order, blocks[..i], blocks[i])
  {
    seq(|blocks|, i requires 0 <= i < |blocks| => ChainPrice(order, blocks[..i], blocks[i]))
  }

  lemma SweepPricesKeepFloor(order: OrderInfo, floorPrice: nat, deadlineBlocks: int, blocks: seq<int>)
    requires order.startPrice >= floorPrice && deadlineBlocks > 0
    requires order.decayPerBlock == SuggestedDecay(order.startPrice, floorPrice, deadlineBlocks)
    requires Ascending(blocks) && blocks != [] && blocks[|blocks| - 1] <= blocks[0] + deadlineBlocks
    ensures forall i :: 0 <= i < |blocks| ==> floorPrice <= SalePrices(order, blocks)[i]
  {
    SweepKeepsTheFloor(order, floorPrice, deadlineBlocks);
    forall i | 0 <= i < |blocks|
      ensures floorPrice <= SalePrices(order, blocks)[i]
    {
      assert InWindow(blocks[..i], blocks[i], deadlineBlocks);
    }
  }

  /** However the order is split over the window, n chunks pay the promised minimum but for n - 1 units. */
  lemma AnySplitPaysTheMinimum(order: OrderInfo, floorPrice: nat, deadlineBlocks: int, chunks: seq<nat>,
                               blocks: seq<int>)
    requires order.startPrice >= floorPrice && deadlineBlocks > 0
    requires order.decayPerBlock == SuggestedDecay(order.startPrice, floorPrice, deadlineBlocks)
    requires |chunks| == |blocks| > 0 && Total(chunks) == order.inputAmount
    requires Ascending(blocks) && blocks[|blocks| - 1] <= blocks[0] + deadlineBlocks
    ensures MinOutput(order.inputAmount, floorPrice) - (|chunks| - 1) <= Paid(chunks, SalePrices(order, blocks))
  {
    var prices := SalePrices(order, blocks);
    SweepPricesKeepFloor(order, floorPrice, deadlineBlocks, blocks);
    PaidAtLeastFloor(chunks, prices, floorPrice);
    RoundedSumBounds(chunks, floorPrice, WAD);
  }

  /** A chunk sold at or above the floor price always clears the reactor's own per-chunk floor. */
  lemma ChunkClearsItsFloor(inputAmount: nat, floorPrice: nat, chunk: nat, price: nat)
    requires inputAmount > 0 && floorPrice <= price
    ensures MinOutput(inputAmount, floorPrice) * chunk / inputAmount <= chunk * price / WAD
  {
    var minOutput := MinOutput(inputAmount, floorPrice);
    var share := minOutput * chunk / inputAmount;
    // share * inputAmount * WAD <= minOutput * WAD * chunk <= inputAmount * floorPrice * chunk
    DivBounds(minOutput * chunk, inputAmount);
    DivBounds(inputAmount * floorPrice, WAD);
    MulMono(share * inputAmount, minOutput * chunk, WAD);
    MulMono(minOutput * WAD, inputAmount * floorPrice, chunk);
    Rearrange(minOutput, chunk, WAD);
    Rearrange(inputAmount, floorPrice, chunk);
    Rearrange(share, inputAmount, WAD);
    assert share * WAD * inputAmount <= floorPrice * chunk * inputAmount;
    CancelFactor(share * WAD, floorPrice * chunk, inputAmount);
    MulMono(floorPrice, price, chunk);
    QuotientAtLeast(share, chunk * price, WAD);
  }

  lemma Rearrange(x: int, y: int, z: int)
    ensures x * y * z == x * z * y == y * z * x
  {
  }

  lemma CancelFactor(x: int, y: int, k: int)
    requires k > 0 && x * k <= y * k
    ensures x <= y
  {
  }

  // ---------------------------------------------------------------- sizing a manual fill

  function MinFill(order: OrderInfo): nat {
    order.inputAmount * order.minFillBps / 10_000
  }

  /** The amount `fill` submits, or None when nothing is left (it throws). */
  function FillAmount(order: OrderInfo, totalFilled: nat, fillBps: nat): Option<nat> {
    var remaining := order.inputAmount - totalFilled;
    if remaining <= 0 then None
    else
      var requested := remaining * fillBps / 10_000;
      var bumped := if requested < MinFill(order) then MinFill(order) else requested;
      Some(if bumped > remaining then remaining else bumped)
  }

  /** The reactor's size gates: not more than what is left, and a minimum unless it completes the order. */
  predicate ClearsSizeGate(order: OrderInfo, remaining: nat, amount: nat) {
    amount <= remaining && (amount == remaining || amount >= MinFill(order))
  }

  /** A fill is always submitted at a size the reactor accepts, the least one reaching the request. */
  lemma FillIsLeastAdmissible(order: OrderInfo, totalFilled: nat, fillBps: nat)
    requires totalFilled < order.inputAmount
    ensures var remaining := order.inputAmount - totalFilled;
            var requested := Min(remaining * fillBps / 10_000, remaining);
            var amount := FillAmount(order, totalFilled, fillBps);
            && amount.Some? && ClearsSizeGate(order, remaining, amount.value) && requested <= amount.value
            && forall other: nat :: ClearsSizeGate(order, remaining, other) && requested <= other ==>
                 amount.value <= other
  {
  }

  // ---------------------------------------------------------------- fallback floors

  datatype FallbackFloors = FallbackFloors(proRataFloor: nat, remainingOutputOwed: nat, requiredMinOutput: nat)

  function CheckFallbackRoute(minOutputTotal: nat, inputAmount: nat, rem: nat, paidSoFar: nat): FallbackFloors
    requires inputAmount > 0
  {
    var proRataFloor := minOutputTotal * rem / inputAmount;
    var owed := if paidSoFar >= minOutputTotal then 0 else minOutputTotal - paidSoFar;
    var required := if proRataFloor > owed then proRataFloor else owed;
    if rem == 0 then FallbackFloors(0, owed, 0) else FallbackFloors(proRataFloor, owed, required)
  }

  /** The two on-chain requirements a fallback leg of `amountOut` meets. */
  ghost predicate ClearsBothGates(minOutputTotal: nat, inputAmount: nat, rem: nat, paidSoFar: nat, amountOut: nat)
    requires inputAmount > 0
  {
    minOutputTotal * rem / inputAmount <= amountOut && minOutputTotal <= paidSoFar + amountOut
  }

  /** The reported bar is exactly the on-chain one, unless nothing is left to route while output is still owed. */
  lemma RequiredIsExact(minOutputTotal: nat, inputAmount: nat, rem: nat, paidSoFar: nat)
    requires inputAmount > 0
    ensures (forall amountOut: nat ::
               ClearsBothGates(minOutputTotal, inputAmount, rem, paidSoFar, amountOut)
               <==> CheckFallbackRoute(minOutputTotal, inputAmount, rem, paidSoFar).requiredMinOutput <= amountOut)
            <==> rem > 0 || paidSoFar >= minOutputTotal
  {
    if rem == 0 {
      assert minOutputTotal * rem / inputAmount == 0;
      assert CheckFallbackRoute(minOutputTotal, inputAmount, rem, paidSoFar).requiredMinOutput <= 0;
      assert ClearsBothGates(minOutputTotal, inputAmount, rem, paidSoFar, 0) <==> paidSoFar >= minOutputTotal;
    }
  }

  /** When every earlier fill met its own floor, rounding leaves at most one unit a fill for the fallback. */
  lemma OwedIsBounded(minOutputTotal: nat, inputAmount: nat, rem: nat, fills: seq<nat>, outputs: seq<nat>)
    requires inputAmount > 0 && |fills| == |outputs|
    requires Total(fills) + rem == inputAmount
    requires forall i :: 0 <= i < |fills| ==> fills[i] * minOutputTotal / inputAmount <= outputs[i]
    ensures CheckFallbackRoute(minOutputTotal, inputAmount, rem, Total(outputs)).remainingOutputOwed
            <= minOutputTotal * rem / inputAmount + |fills|
  {
    SumOfFloors(fills, outputs, minOutputTotal, inputAmount);
    Distribute(Total(fills), rem, minOutputTotal);
    SplitQuotient(Total(fills) * minOutputTotal, rem * minOutputTotal, inputAmount);
    QuotientAtLeast(minOutputTotal, inputAmount * minOutputTotal, inputAmount);
    if fills != [] {
      RoundedSumBounds(fills, minOutputTotal, inputAmount);
    }
    assert minOutputTotal * rem == rem * minOutputTotal;
  }

  lemma {:induction false} SumOfFloors(fills: seq<nat>, outputs: seq<nat>, num: nat, den: nat)
    requires den > 0 && |fills| == |outputs|
    requires forall i :: 0 <= i < |fills| ==> fills[i] * num / den <= outputs[i]
    ensures RoundedSum(fills, num, den) <= Total(outputs)
  {
    if fills != [] {
      assert fills[0] * num / den <= outputs[0];
      SumOfFloors(fills[1..], outputs[1..], num, den);
    }
  }

  /** One unit short for one fill is attained: 1 + 1 units for a total of 1 pays 0 twice. */
  lemma OwedCanExceedProRata()
    ensures CheckFallbackRoute(1, 2, 1, 0) == FallbackFloors(0, 1, 1)
  {
  }
}

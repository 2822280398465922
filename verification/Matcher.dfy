/** Greedy order-book matching (filler/CoWFiller/src/matching/matcher.ts). */
module Matcher {
  import opened Arith
  import opened Wrappers

  datatype BidLevel = BidLevel(price: nat, size: nat)

  datatype MatchResult = MatchResult(fillAmount: nat, estimatedProfit: int, matchedLevels: nat)

  /** How a book is handed to the matcher: best price first. */
  ghost predicate Descending(bids: seq<BidLevel>) {
    forall i, j :: 0 <= i < j < |bids| ==> bids[i].price >= bids[j].price
  }

  // ---------------------------------------------------------------- allocations

  /** An allocation sells alloc[i] raw input token to bids[i]. */
  ghost predicate Feasible(alloc: seq<nat>, available: nat, bids: seq<BidLevel>) {
    && |alloc| == |bids|
    && Total(alloc) <= available
    && forall i :: 0 <= i < |bids| ==> alloc[i] <= bids[i].size
  }

  /** Profit of an allocation before any rounding, scaled by 1e18. */
  ghost function ExactProfit(alloc: seq<nat>, bids: seq<BidLevel>, auctionPrice: nat): int
    requires |alloc| == |bids|
  {
    if bids == [] then 0
    else alloc[0] * (bids[0].price - auctionPrice) + ExactProfit(alloc[1..], bids[1..], auctionPrice)
  }

  /** Profit of an allocation with revenue and cost rounded down at each level. */
  ghost function RoundedProfit(alloc: seq<nat>, bids: seq<BidLevel>, auctionPrice: nat): int
    requires |alloc| == |bids|
  {
    if bids == [] then 0
    else MulDiv(alloc[0], bids[0].price, WAD) - MulDiv(alloc[0], auctionPrice, WAD)
         + RoundedProfit(alloc[1..], bids[1..], auctionPrice)
  }

  /** Input token the bids priced above the auction can absorb. */
  ghost function Depth(bids: seq<BidLevel>, auctionPrice: nat): nat {
    if bids == [] then 0
    else (if bids[0].price > auctionPrice then bids[0].size else 0) + Depth(bids[1..], auctionPrice)
  }

  // ---------------------------------------------------------------- greedy

  function Take(bid: BidLevel, available: nat): nat {
    if bid.size < available then bid.size else available
  }

  /** The allocation the greedy walk makes; levels it never reaches get 0. */
  ghost function Greedy(auctionPrice: nat, available: nat, bids: seq<BidLevel>): (alloc: seq<nat>)
    ensures Feasible(alloc, available, bids)
  {
    if bids == [] then []
    else if bids[0].price <= auctionPrice then Nothing(bids)
    else
      var take := Take(bids[0], available);
      [take] + Greedy(auctionPrice, available - take, bids[1..])
  }

  ghost function Nothing(bids: seq<BidLevel>): (alloc: seq<nat>)
    ensures |alloc| == |bids| && Total(alloc) == 0
    ensures forall i :: 0 <= i < |bids| ==> alloc[i] == 0
  {
    if bids == [] then [] else [0] + Nothing(bids[1..])
  }

  /** Levels the walk visits: it also stops at a level that uses up `available`. */
  ghost function Levels(auctionPrice: nat, available: nat, bids: seq<BidLevel>): nat {
    if bids == [] || bids[0].price <= auctionPrice then 0
    else if Take(bids[0], available) == available then 1
    else 1 + Levels(auctionPrice, available - Take(bids[0], available), bids[1..])
  }

  ghost function Matched(auctionPrice: nat, available: nat, bids: seq<BidLevel>): Option<MatchResult> {
    var alloc := Greedy(auctionPrice, available, bids);
    if Total(alloc) == 0 then None
    else Some(MatchResult(Total(alloc), RoundedProfit(alloc, bids, auctionPrice),
                          Levels(auctionPrice, available, bids)))
  }

  /** The loop's variables. */
  datatype Walk = Walk(remaining: nat, fillAmount: nat, revenue: nat, cost: nat, levels: nat)

  /** One iteration at a bid priced above the auction. */
  function Visit(w: Walk, auctionPrice: nat, bid: BidLevel): Walk {
    var take := Take(bid, w.remaining);
    Walk(w.remaining - take, w.fillAmount + take, w.revenue + MulDiv(take, bid.price, WAD),
         w.cost + MulDiv(take, auctionPrice, WAD), w.levels + 1)
  }

  /** The loop as a function: where it ends when it continues from `w` over `bids`. */
  ghost function Run(w: Walk, auctionPrice: nat, bids: seq<BidLevel>): Walk
    decreases |bids|
  {
    if bids == [] || bids[0].price <= auctionPrice then w
    else
      var w' := Visit(w, auctionPrice, bids[0]);
      if w'.remaining == 0 then w' else Run(w', auctionPrice, bids[1..])
  }

  /** How the first visited level splits off the greedy allocation. */
  lemma GreedyHead(auctionPrice: nat, available: nat, bids: seq<BidLevel>)
    requires bids != [] && bids[0].price > auctionPrice
    ensures var take, alloc := Take(bids[0], available), Greedy(auctionPrice, available, bids);
            var rest := Greedy(auctionPrice, available - take, bids[1..]);
            && alloc[0] == take && alloc[1..] == rest
            && Total(alloc) == take + Total(rest)
            && RoundedProfit(alloc, bids, auctionPrice)
               == MulDiv(take, bids[0].price, WAD) - MulDiv(take, auctionPrice, WAD)
                  + RoundedProfit(rest, bids[1..], auctionPrice)
  {
  }

  /** The walk continued from `w` ends with what the greedy allocation of the rest adds. */
  ghost predicate Adds(w: Walk, end: Walk, sold: nat, profit: int, levels: nat) {
    && end.fillAmount == w.fillAmount + sold
    && end.revenue - end.cost == w.revenue - w.cost + profit
    && end.levels == w.levels + levels
  }

  lemma VisitAdds(w: Walk, auctionPrice: nat, bid: BidLevel)
    requires bid.price > auctionPrice
    ensures var take := Take(bid, w.remaining);
            && Adds(w, Visit(w, auctionPrice, bid), take,
                    MulDiv(take, bid.price, WAD) - MulDiv(take, auctionPrice, WAD), 1)
            && Visit(w, auctionPrice, bid).remaining == w.remaining - take
  {
  }

  lemma {:induction false} RunIsGreedy(w: Walk, auctionPrice: nat, bids: seq<BidLevel>)
    ensures var alloc := Greedy(auctionPrice, w.remaining, bids);
            Adds(w, Run(w, auctionPrice, bids), Total(alloc), RoundedProfit(alloc, bids, auctionPrice),
                 Levels(auctionPrice, w.remaining, bids))
    decreases |bids|
  {
    if bids == [] {
    } else if bids[0].price <= auctionPrice {
      NothingEarnsNothing(bids, auctionPrice);
    } else {
      GreedyHead(auctionPrice, w.remaining, bids);
      VisitAdds(w, auctionPrice, bids[0]);
      var w', rest := Visit(w, auctionPrice, bids[0]), bids[1..];
      if w'.remaining == 0 {
        ExhaustedEarnsNothing(rest, auctionPrice);
      } else {
        RunIsGreedy(w', auctionPrice, rest);
      }
    }
  }

  method Match(auctionPrice: nat, available: nat, bids: seq<BidLevel>) returns (r: Option<MatchResult>)
    ensures r == Matched(auctionPrice, available, bids)
  {
    var remaining: nat, fillAmount: nat, totalRevenue: nat, totalCost: nat, matchedLevels: nat := available, 0, 0, 0, 0;
    ghost var end := Run(Walk(available, 0, 0, 0, 0), auctionPrice, bids);
    var i := 0;
    while i < |bids|
      invariant 0 <= i <= |bids|
      invariant end == Run(Walk(remaining, fillAmount, totalRevenue, totalCost, matchedLevels), auctionPrice, bids[i..])
    {
      var bid := bids[i];
      assert bids[i..][0] == bid && bids[i..][1..] == bids[i + 1..];
      if bid.price <= auctionPrice {
        break;
      }
      var take := if bid.size < remaining then bid.size else remaining;
      var revenue := MulDiv(take, bid.price, WAD);
      var cost := MulDiv(take, auctionPrice, WAD);
      fillAmount := fillAmount + take;
      totalRevenue := totalRevenue + revenue;
      totalCost := totalCost + cost;
      remaining := remaining - take;
      matchedLevels := matchedLevels + 1;
      i := i + 1;
      if remaining == 0 {
        break;
      }
    }
    assert end == Walk(remaining, fillAmount, totalRevenue, totalCost, matchedLevels);
    RunIsGreedy(Walk(available, 0, 0, 0, 0), auctionPrice, bids);
    if fillAmount == 0 {
      return None;
    }
    return Some(MatchResult(fillAmount, totalRevenue - totalCost, matchedLevels));
  }

  lemma NothingEarnsNothing(bids: seq<BidLevel>, auctionPrice: nat)
    ensures RoundedProfit(Nothing(bids), bids, auctionPrice) == 0
    ensures ExactProfit(Nothing(bids), bids, auctionPrice) == 0
  {
  }

  lemma ExhaustedEarnsNothing(bids: seq<BidLevel>, auctionPrice: nat)
    ensures Greedy(auctionPrice, 0, bids) == Nothing(bids)
    ensures Total(Greedy(auctionPrice, 0, bids)) == 0
    ensures RoundedProfit(Greedy(auctionPrice, 0, bids), bids, auctionPrice) == 0
  {
    if bids != [] && bids[0].price > auctionPrice {
      ExhaustedEarnsNothing(bids[1..], auctionPrice);
    }
    NothingEarnsNothing(bids, auctionPrice);
  }

  // ---------------------------------------------------------------- what greedy achieves

  ghost function GreedyProfit(auctionPrice: nat, available: nat, bids: seq<BidLevel>): int {
    if bids == [] || bids[0].price <= auctionPrice then 0
    else
      var take := Take(bids[0], available);
      take * (bids[0].price - auctionPrice) + GreedyProfit(auctionPrice, available - take, bids[1..])
  }

  lemma {:induction false} GreedyProfitIsExact(auctionPrice: nat, available: nat, bids: seq<BidLevel>)
    ensures GreedyProfit(auctionPrice, available, bids)
         == ExactProfit(Greedy(auctionPrice, available, bids), bids, auctionPrice)
  {
    if bids != [] {
      if bids[0].price <= auctionPrice {
        NothingEarnsNothing(bids, auctionPrice);
      } else {
        var take := Take(bids[0], available);
        GreedyHead(auctionPrice, available, bids);
        GreedyProfitIsExact(auctionPrice, available - take, bids[1..]);
      }
    }
  }

  /** Trading `gain` more at margin p costs the rest of the book at most gain * margin. */
  lemma ExtraTake(take: nat, gain: nat, extra: nat, p: int, margin: nat, v: int, v': int)
    requires gain <= extra && p <= margin && v' <= v + (extra - gain) * margin
    ensures (take + gain) * p + v' <= take * p + v + extra * margin
  {
  }

  /** One more unit of input earns at most the best margin left in the book. */
  lemma {:induction false} MoreInputEarnsAtMost(auctionPrice: nat, available: nat, extra: nat, bids: seq<BidLevel>,
                                                margin: nat)
    requires forall i :: 0 <= i < |bids| ==> bids[i].price - auctionPrice <= margin
    ensures GreedyProfit(auctionPrice, available + extra, bids)
            <= GreedyProfit(auctionPrice, available, bids) + extra * margin
  {
    if bids == [] || bids[0].price <= auctionPrice {
      MulMono(0, extra, margin);
    } else {
      var rest := bids[1..];
      var take, take' := Take(bids[0], available), Take(bids[0], available + extra);
      var gain := take' - take;
      MoreInputEarnsAtMost(auctionPrice, available - take, extra - gain, rest, margin);
      assert available - take + (extra - gain) == available + extra - take';
      ExtraTake(take, gain, extra, bids[0].price - auctionPrice, margin,
                GreedyProfit(auctionPrice, available - take, rest),
                GreedyProfit(auctionPrice, available + extra - take', rest));
    }
  }

  /** Exchange argument: no other way of selling at most `available` earns more. */
  lemma {:induction false} GreedyIsOptimal(auctionPrice: nat, available: nat, bids: seq<BidLevel>, alloc: seq<nat>)
    requires Descending(bids)
    requires Feasible(alloc, available, bids)
    ensures ExactProfit(alloc, bids, auctionPrice) <= GreedyProfit(auctionPrice, available, bids)
  {
    if bids != [] {
      var x, rest, margin := alloc[0], bids[1..], bids[0].price - auctionPrice;
      RestIsFeasible(available, bids, alloc);
      GreedyIsOptimal(auctionPrice, available - x, rest, alloc[1..]);
      if margin > 0 {
        var take := Take(bids[0], available);
        MoreInputEarnsAtMost(auctionPrice, available - take, take - x, rest, margin);
        Distribute(x, take - x, margin);
      } else {
        MulMono(margin, 0, x);
      }
    }
  }

  lemma RestIsFeasible(available: nat, bids: seq<BidLevel>, alloc: seq<nat>)
    requires bids != [] && Feasible(alloc, available, bids)
    ensures alloc[0] <= Take(bids[0], available)
    ensures Feasible(alloc[1..], available - alloc[0], bids[1..])
  {
  }

  /** Greedy sells as much as pays: everything available, or all the depth above the auction price. */
  lemma {:induction false} GreedyTakesWhatPays(auctionPrice: nat, available: nat, bids: seq<BidLevel>)
    requires Descending(bids)
    ensures Total(Greedy(auctionPrice, available, bids)) == Min(available, Depth(bids, auctionPrice))
  {
    if bids != [] {
      var rest := bids[1..];
      assert forall i :: 0 <= i < |rest| ==> rest[i] == bids[i + 1];
      if bids[0].price > auctionPrice {
        var take := Take(bids[0], available);
        GreedyTakesWhatPays(auctionPrice, available - take, rest);
        GreedyHead(auctionPrice, available, bids);
      } else {
        NoDepthBelow(bids, auctionPrice);
      }
    }
  }

  lemma {:induction false} NoDepthBelow(bids: seq<BidLevel>, auctionPrice: nat)
    requires forall i :: 0 <= i < |bids| ==> bids[i].price <= auctionPrice
    ensures Depth(bids, auctionPrice) == 0
  {
    if bids != [] {
      assert bids[0].price <= auctionPrice;
      NoDepthBelow(bids[1..], auctionPrice);
    }
  }

  /** One level: both floors together move its profit by less than one unit, and not below zero. */
  lemma LevelError(take: nat, price: nat, auctionPrice: nat)
    requires auctionPrice <= price
    ensures var rounded := take * price / WAD - take * auctionPrice / WAD;
            0 <= rounded && -(WAD - 1) <= rounded * WAD - take * (price - auctionPrice) <= WAD - 1
  {
    MulMono(auctionPrice, price, take);
    DivMono(take * auctionPrice, take * price, WAD);
    assert take * (price - auctionPrice) == take * price - take * auctionPrice;
  }

  /** The rounded profit is not negative and off by less than one unit a level. */
  ghost predicate Near(rounded: int, exact: int, levels: nat) {
    rounded >= 0 && -(levels * (WAD - 1)) <= rounded * WAD - exact <= levels * (WAD - 1)
  }

  lemma NearAdds(rounded: int, exact: int, more: int, exactMore: int, levels: nat)
    requires Near(rounded, exact, 1) && Near(more, exactMore, levels)
    ensures Near(rounded + more, exact + exactMore, levels + 1)
  {
  }

  ghost function GreedyRounded(auctionPrice: nat, available: nat, bids: seq<BidLevel>): int {
    if bids == [] || bids[0].price <= auctionPrice then 0
    else
      var take := Take(bids[0], available);
      take * bids[0].price / WAD - take * auctionPrice / WAD + GreedyRounded(auctionPrice, available - take, bids[1..])
  }

  lemma {:induction false} GreedyRoundedIsRounded(auctionPrice: nat, available: nat, bids: seq<BidLevel>)
    ensures GreedyRounded(auctionPrice, available, bids)
         == RoundedProfit(Greedy(auctionPrice, available, bids), bids, auctionPrice)
  {
    if bids != [] {
      if bids[0].price <= auctionPrice {
        NothingEarnsNothing(bids, auctionPrice);
      } else {
        GreedyHead(auctionPrice, available, bids);
        GreedyRoundedIsRounded(auctionPrice, available - Take(bids[0], available), bids[1..]);
      }
    }
  }

  lemma {:induction false} NothingLeftEarnsNothing(auctionPrice: nat, bids: seq<BidLevel>)
    ensures GreedyRounded(auctionPrice, 0, bids) == 0 && GreedyProfit(auctionPrice, 0, bids) == 0
  {
    if bids != [] && bids[0].price > auctionPrice {
      NothingLeftEarnsNothing(auctionPrice, bids[1..]);
    }
  }

  lemma {:induction false} WalkIsNear(auctionPrice: nat, available: nat, bids: seq<BidLevel>)
    ensures Near(GreedyRounded(auctionPrice, available, bids), GreedyProfit(auctionPrice, available, bids),
                 Levels(auctionPrice, available, bids))
  {
    if bids != [] && bids[0].price > auctionPrice {
      var take, rest := Take(bids[0], available), bids[1..];
      LevelError(take, bids[0].price, auctionPrice);
      if take == available {
        NothingLeftEarnsNothing(auctionPrice, rest);
      } else {
        WalkIsNear(auctionPrice, available - take, rest);
        NearAdds(take * bids[0].price / WAD - take * auctionPrice / WAD, take * (bids[0].price - auctionPrice),
                 GreedyRounded(auctionPrice, available - take, rest),
                 GreedyProfit(auctionPrice, available - take, rest),
                 Levels(auctionPrice, available - take, rest));
      }
    }
  }

  /** Rounding each level down moves the reported profit by less than one unit a level, and never below 0. */
  lemma RoundingError(auctionPrice: nat, available: nat, bids: seq<BidLevel>)
    ensures var alloc := Greedy(auctionPrice, available, bids);
            Near(RoundedProfit(alloc, bids, auctionPrice), ExactProfit(alloc, bids, auctionPrice),
                 Levels(auctionPrice, available, bids))
  {
    WalkIsNear(auctionPrice, available, bids);
    GreedyRoundedIsRounded(auctionPrice, available, bids);
    GreedyProfitIsExact(auctionPrice, available, bids);
  }

  /** What a caller of the matcher learns from its answer on a sorted book. */
  lemma MatchIsBest(auctionPrice: nat, available: nat, bids: seq<BidLevel>)
    requires Descending(bids)
    ensures var r := Matched(auctionPrice, available, bids);
            && (r.None? <==> available == 0 || Depth(bids, auctionPrice) == 0)
            && (r.Some? ==>
                  exists alloc :: Feasible(alloc, available, bids) && Total(alloc) == r.value.fillAmount
                    && Best(alloc, auctionPrice, available, bids)
                    && r.value.fillAmount == Min(available, Depth(bids, auctionPrice))
                    && r.value.estimatedProfit >= 0
                    && 0 < r.value.matchedLevels
                    && Abs(r.value.estimatedProfit * WAD - ExactProfit(alloc, bids, auctionPrice))
                       < r.value.matchedLevels * WAD)
  {
    var alloc := Greedy(auctionPrice, available, bids);
    GreedyTakesWhatPays(auctionPrice, available, bids);
    RoundingError(auctionPrice, available, bids);
    forall other | Feasible(other, available, bids)
      ensures ExactProfit(other, bids, auctionPrice) <= ExactProfit(alloc, bids, auctionPrice)
    {
      GreedyProfitIsExact(auctionPrice, available, bids);
      GreedyIsOptimal(auctionPrice, available, bids, other);
    }
    assert Best(alloc, auctionPrice, available, bids);
  }

  ghost predicate Best(alloc: seq<nat>, auctionPrice: nat, available: nat, bids: seq<BidLevel>)
    requires |alloc| == |bids|
  {
    forall other | Feasible(other, available, bids) ::
      ExactProfit(other, bids, auctionPrice) <= ExactProfit(alloc, bids, auctionPrice)
  }

  lemma DepthOfPrefix(bids: seq<BidLevel>, k: nat, auctionPrice: nat)
    requires 1 <= k <= |bids| && bids[0].price > auctionPrice
    ensures Depth(bids[..k], auctionPrice) == bids[0].size + Depth(bids[1..][..k - 1], auctionPrice)
  {
    assert bids[..k][1..] == bids[1..][..k - 1];
  }

  /** The visited levels pay, and all but the last could not absorb the input alone. */
  lemma {:induction false} LevelsAbsorb(auctionPrice: nat, available: nat, bids: seq<BidLevel>)
    requires Descending(bids) && available > 0
    ensures var m := Levels(auctionPrice, available, bids);
            && m <= |bids|
            && (forall i :: 0 <= i < m ==> bids[i].price > auctionPrice)
            && (m > 0 ==> Depth(bids[..m - 1], auctionPrice) < available)
            && (m < |bids| && bids[m].price > auctionPrice ==> available <= Depth(bids[..m], auctionPrice))
  {
    if bids != [] && bids[0].price > auctionPrice {
      var take, rest := Take(bids[0], available), bids[1..];
      if take != available {
        LevelsAbsorb(auctionPrice, available - take, rest);
        var m := Levels(auctionPrice, available, bids);
        if m - 1 > 0 {
          DepthOfPrefix(bids, m - 1, auctionPrice);
        }
        DepthOfPrefix(bids, m, auctionPrice);
      } else {
        DepthOfPrefix(bids, 1, auctionPrice);
      }
    }
  }

  /** What the greedy walk sells. */
  ghost function Sold(auctionPrice: nat, available: nat, bids: seq<BidLevel>): (sold: nat)
    ensures sold <= available
  {
    if bids == [] || bids[0].price <= auctionPrice then 0
    else Take(bids[0], available) + Sold(auctionPrice, available - Take(bids[0], available), bids[1..])
  }

  lemma {:induction false} SoldIsTotal(auctionPrice: nat, available: nat, bids: seq<BidLevel>)
    ensures Sold(auctionPrice, available, bids) == Total(Greedy(auctionPrice, available, bids))
  {
    if bids != [] && bids[0].price > auctionPrice {
      GreedyHead(auctionPrice, available, bids);
      SoldIsTotal(auctionPrice, available - Take(bids[0], available), bids[1..]);
    }
  }

  /** The first m levels cover what was sold, and one fewer would exactly when the last of them is empty. */
  ghost predicate Covers(bids: seq<BidLevel>, auctionPrice: nat, m: nat, sold: nat) {
    && m <= |bids| && sold <= Depth(bids[..m], auctionPrice)
    && (m > 0 ==> (Depth(bids[..m - 1], auctionPrice) < sold <==> bids[m - 1].size > 0))
  }

  lemma CoversNone(bids: seq<BidLevel>, auctionPrice: nat)
    ensures Covers(bids, auctionPrice, 0, 0)
  {
  }

  lemma CoversOne(bids: seq<BidLevel>, auctionPrice: nat, sold: nat)
    requires bids != [] && bids[0].price > auctionPrice && 0 < sold <= bids[0].size
    ensures Covers(bids, auctionPrice, 1, sold)
  {
    DepthOfPrefix(bids, 1, auctionPrice);
  }

  lemma CoversMore(bids: seq<BidLevel>, auctionPrice: nat, m: nat, sold: nat)
    requires bids != [] && bids[0].price > auctionPrice && Covers(bids[1..], auctionPrice, m, sold)
    ensures Covers(bids, auctionPrice, m + 1, bids[0].size + sold)
  {
    DepthOfPrefix(bids, m + 1, auctionPrice);
    if m > 0 {
      DepthOfPrefix(bids, m, auctionPrice);
    }
  }

  lemma {:induction false} LevelsCoverSold(auctionPrice: nat, available: nat, bids: seq<BidLevel>)
    requires available > 0
    ensures Covers(bids, auctionPrice, Levels(auctionPrice, available, bids), Sold(auctionPrice, available, bids))
  {
    if bids == [] || bids[0].price <= auctionPrice {
      CoversNone(bids, auctionPrice);
    } else {
      var take, rest := Take(bids[0], available), bids[1..];
      if take == available {
        CoversOne(bids, auctionPrice, available);
      } else {
        LevelsCoverSold(auctionPrice, available - take, rest);
        CoversMore(bids, auctionPrice, Levels(auctionPrice, available - take, rest),
                   Sold(auctionPrice, available - take, rest));
      }
    }
  }

  /**
   * The visited levels cover the amount sold, and are the fewest that do exactly when the last of them is not
   * empty: a walk that runs out of paying levels also counts an empty one at its end.
   */
  lemma LevelsAreNeeded(auctionPrice: nat, available: nat, bids: seq<BidLevel>)
    requires Descending(bids) && available > 0
    ensures var m, sold := Levels(auctionPrice, available, bids), Total(Greedy(auctionPrice, available, bids));
            && m <= |bids|
            && (forall i :: 0 <= i < m ==> bids[i].price > auctionPrice)
            && (m > 0 ==> Depth(bids[..m - 1], auctionPrice) < available)
            && (m < |bids| && bids[m].price > auctionPrice ==> available <= Depth(bids[..m], auctionPrice))
            && sold <= Depth(bids[..m], auctionPrice)
            && (m > 0 ==> (Depth(bids[..m - 1], auctionPrice) < sold <==> bids[m - 1].size > 0))
  {
    LevelsAbsorb(auctionPrice, available, bids);
    LevelsCoverSold(auctionPrice, available, bids);
    SoldIsTotal(auctionPrice, available, bids);
  }
}

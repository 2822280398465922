/** Choosing minFillBps by binary search over projected coverage (backend/src/routes/suggest.ts). */
module Suggest {
  import opened Arith
  import opened Wrappers
  import opened Auction
  import opened Matcher
  import opened Strategy

  const MIN_FILL_CANDIDATES: seq<nat> := [100, 250, 500, 1000, 2000, 3000, 5000, 7000, 10000]

  /** The order every filler is asked about: at the floor price, ten blocks before the deadline. */
  function ProbeOrder(inputAmount: nat, floorPrice: nat, deadline: int, minFillBps: nat): OrderInfo {
    OrderInfo(inputAmount, 0, floorPrice, 0, deadline, minFillBps, [])
  }

  /** Coverage each candidate projects. */
  ghost function Coverage(fillers: seq<Filler>, inputAmount: nat, floorPrice: nat, deadline: int,
                          minFillBps: nat): nat {
    CoverageBps(fillers, ProbeOrder(inputAmount, floorPrice, deadline, minFillBps), deadline - 10)
  }

  ghost predicate StrictlyAscending(s: seq<nat>) {
    forall i, j :: 0 <= i < j < |s| ==> s[i] < s[j]
  }

  /** At the probe the whale's price gate is open once the floor price is worth a 1% premium. */
  lemma ProbeOpensThePriceGate(inputAmount: nat, floorPrice: nat, deadline: int, minFillBps: nat, outputBalance: nat)
    requires outputBalance > 0 && floorPrice > 0
    ensures var order := ProbeOrder(inputAmount, floorPrice, deadline, minFillBps);
            var capacity := Capacity(outputBalance, floorPrice);
            WhaleDecide(order, deadline - 10, true, outputBalance).Take?
            <==> floorPrice >= 100 && capacity > 0 && MinFill(order) <= Min(capacity, inputAmount)
  {
    var order := ProbeOrder(inputAmount, floorPrice, deadline, minFillBps);
    var refPrice := floorPrice * 10_100 / 10_000;
    assert refPrice == floorPrice + floorPrice / 100;
    assert CurrentPrice(order, deadline - 10) == floorPrice;
    if floorPrice >= 100 {
      QuotientAtLeast(MIN_SPREAD_BPS, (refPrice - floorPrice) * 10_000, refPrice);
    }
  }

  // ---------------------------------------------------------------- what is offered at the probe

  /** All the filler can afford of the order, counting half its balance. */
  function Affordable(inputAmount: nat, floorPrice: nat, balance: nat): nat
    requires floorPrice > 0
  {
    Min(balance / 2 * WAD / floorPrice, inputAmount)
  }

  /**
   * What a filler contributes at the probe: all it can afford, if the pair is supported and, for the whale, the floor
   * price is worth its 1% premium and the minimum is met, for the CoW filler, the bids above the floor absorb it.
   */
  ghost function Offer(filler: Filler, inputAmount: nat, floorPrice: nat, minFillBps: nat): nat {
    if floorPrice == 0 then 0
    else
      match filler
      case Whale(supported, balance) =>
        var amount := Affordable(inputAmount, floorPrice, balance);
        var capacity := balance / 2 * WAD / floorPrice;
        if supported && floorPrice >= 100 && capacity > 0 && inputAmount * minFillBps / 10_000 <= amount
        then amount else 0
      case Cow(supported, book, balance) =>
        var amount := Affordable(inputAmount, floorPrice, balance);
        if supported && book.Some? && amount <= Depth(book.value, floorPrice) then amount else 0
      case Unreachable => 0
  }

  ghost function Offers(fillers: seq<Filler>, inputAmount: nat, floorPrice: nat, minFillBps: nat): seq<nat> {
    seq(|fillers|, i requires 0 <= i < |fillers| => Offer(fillers[i], inputAmount, floorPrice, minFillBps))
  }

  ghost predicate BooksDescend(fillers: seq<Filler>) {
    forall f :: f in fillers && f.Cow? && f.book.Some? ==> Descending(f.book.value)
  }

  /** At the probe the price is the floor, and only it and the pair can screen the order out. */
  lemma ProbeScreens(order: OrderInfo, deadline: int, supported: bool)
    requires order.decayPerBlock == 0 && order.fills == [] && order.deadline == deadline
    ensures CurrentPrice(order, deadline - 10) == order.startPrice
    ensures Screen(order, deadline - 10, supported).None? <==> order.startPrice > 0 && supported
  {
  }

  lemma CapacityIsHalf(balance: nat, price: nat)
    requires price > 0
    ensures Capacity(balance, price) == balance / 2 * WAD / price
  {
    assert balance * MAX_INVENTORY_USE_BPS / 10_000 == balance / 2;
  }

  lemma WhaleOffers(supported: bool, balance: nat, inputAmount: nat, floorPrice: nat, deadline: int, minFillBps: nat)
    ensures Quoted(Whale(supported, balance), ProbeOrder(inputAmount, floorPrice, deadline, minFillBps), deadline - 10)
         == Offer(Whale(supported, balance), inputAmount, floorPrice, minFillBps)
  {
    var order := ProbeOrder(inputAmount, floorPrice, deadline, minFillBps);
    ProbeScreens(order, deadline, supported);
    if floorPrice > 0 && supported {
      CapacityIsHalf(balance, floorPrice);
      WhaleTakesIff(order, deadline - 10, supported, balance);
      if balance == 0 {
        NoCapacity(floorPrice);
      } else {
        ProbeOpensThePriceGate(inputAmount, floorPrice, deadline, minFillBps, balance);
      }
    }
  }

  lemma NoBalanceNoMatch(order: OrderInfo, currentBlock: int, supported: bool, book: Option<seq<BidLevel>>)
    ensures CowDecide(order, currentBlock, supported, book, 0).Skip?
  {
  }

  lemma CowOffers(supported: bool, book: Option<seq<BidLevel>>, balance: nat, inputAmount: nat, floorPrice: nat,
                  deadline: int, minFillBps: nat)
    requires book.Some? ==> Descending(book.value)
    ensures Quoted(Cow(supported, book, balance), ProbeOrder(inputAmount, floorPrice, deadline, minFillBps),
                   deadline - 10)
         == Offer(Cow(supported, book, balance), inputAmount, floorPrice, minFillBps)
  {
    var order := ProbeOrder(inputAmount, floorPrice, deadline, minFillBps);
    ProbeScreens(order, deadline, supported);
    if floorPrice > 0 && book.Some? && supported {
      CapacityIsHalf(balance, floorPrice);
      if balance == 0 {
        NoCapacity(floorPrice);
        NoBalanceNoMatch(order, deadline - 10, supported, book);
      } else {
        CowFillsOnlyFullMatches(order, deadline - 10, supported, book.value, balance);
      }
    }
  }

  /**
   * The coverage a minimum projects is the share of the order that the fillers' offers add up to, capped at the order
   * and rounded down: their capacities decide it.
   */
  lemma CoverageIsOffered(fillers: seq<Filler>, inputAmount: nat, floorPrice: nat, deadline: int, minFillBps: nat)
    requires BooksDescend(fillers) && inputAmount > 0
    ensures var offers := Offers(fillers, inputAmount, floorPrice, minFillBps);
            && Coverage(fillers, inputAmount, floorPrice, deadline, minFillBps)
               == 10_000 * Min(inputAmount, Total(offers)) / inputAmount
            && (Coverage(fillers, inputAmount, floorPrice, deadline, minFillBps) == 10_000
                <==> Total(offers) >= inputAmount)
  {
    var order := ProbeOrder(inputAmount, floorPrice, deadline, minFillBps);
    var offers := Offers(fillers, inputAmount, floorPrice, minFillBps);
    forall i | 0 <= i < |fillers|
      ensures Quoted(fillers[i], order, deadline - 10) == offers[i]
    {
      match fillers[i] {
        case Whale(supported, balance) =>
          WhaleOffers(supported, balance, inputAmount, floorPrice, deadline, minFillBps);
        case Cow(supported, book, balance) =>
          CowOffers(supported, book, balance, inputAmount, floorPrice, deadline, minFillBps);
        case Unreachable =>
      }
    }
    assert Quotes(fillers, order, deadline - 10) == offers;
    CoverageIsShareOfSum(fillers, order, deadline - 10);
  }

  // ---------------------------------------------------------------- halving

  function Log2(n: nat): nat
    requires n > 0
  {
    if n == 1 then 0 else 1 + Log2(n / 2)
  }

  function Pow2(n: nat): nat {
    if n == 0 then 1 else 2 * Pow2(n - 1)
  }

  lemma {:induction false} Log2IsFloor(n: nat)
    requires n > 0
    ensures Pow2(Log2(n)) <= n < Pow2(Log2(n) + 1)
  {
    if n > 1 {
      Log2IsFloor(n / 2);
    }
  }

  /** Probes left when n candidates remain. */
  function Probes(n: nat): nat {
    if n == 0 then 0 else 1 + Log2(n)
  }

  lemma {:induction false} ProbesMono(m: nat, n: nat)
    requires m <= n
    ensures Probes(m) <= Probes(n)
  {
    if 1 < m {
      ProbesMono(m / 2, n / 2);
    }
  }

  lemma HalvingSpendsOneProbe(m: nat, n: nat)
    requires 0 < n && m <= n / 2
    ensures 1 + Probes(m) <= Probes(n)
  {
    ProbesMono(m, n / 2);
  }

  // ---------------------------------------------------------------- the search

  /** The largest candidate on target, or the smallest candidate when none is. */
  ghost predicate IsBest(candidates: seq<nat>, simulated: map<nat, nat>, target: int, chosen: nat)
    requires Answered(candidates, simulated)
  {
    && chosen in candidates
    && if exists c :: c in candidates && simulated[c] >= target
       then simulated[chosen] >= target && forall c :: c in candidates && simulated[c] >= target ==> c <= chosen
       else chosen == candidates[0]
  }

  ghost predicate Answered(candidates: seq<nat>, simulated: map<nat, nat>) {
    forall i :: 0 <= i < |candidates| ==> candidates[i] in simulated
  }

  ghost predicate Falls(candidates: seq<nat>, simulated: map<nat, nat>)
    requires Answered(candidates, simulated)
  {
    forall i, j :: 0 <= i < j < |candidates| ==> simulated[candidates[j]] <= simulated[candidates[i]]
  }

  /** Coverage falls along the candidates, so the last one on target is the largest on target. */
  lemma BoundaryIsBest(candidates: seq<nat>, simulated: map<nat, nat>, target: int, best: int)
    requires candidates != [] && StrictlyAscending(candidates) && -1 <= best < |candidates|
    requires Answered(candidates, simulated) && Falls(candidates, simulated)
    requires best >= 0 ==> simulated[candidates[best]] >= target
    requires best + 1 < |candidates| ==> simulated[candidates[best + 1]] < target
    ensures IsBest(candidates, simulated, target, candidates[if best >= 0 then best else 0])
  {
  }

  /** The request's memo; `simulated` is what simulating each minimum answers. */
  class CoverageCache {
    const simulated: map<nat, nat>
    var cache: map<nat, nat>
    var simulations: nat  // simulateOrder calls made

    constructor (simulated: map<nat, nat>)
      ensures Valid() && cache == map[] && simulations == 0 && this.simulated == simulated
    {
      this.simulated, cache, simulations := simulated, map[], 0;
    }

    /** Every remembered coverage is the simulated one. */
    ghost predicate Valid()
      reads this
    {
      forall bps :: bps in cache ==> bps in simulated && cache[bps] == simulated[bps]
    }

    method CoverageAt(minFillBps: nat) returns (coverage: nat)
      requires Valid() && minFillBps in simulated
      modifies this
      ensures Valid()
      ensures coverage == simulated[minFillBps]
      ensures cache == old(cache)[minFillBps := coverage]
      ensures simulations == old(simulations) + (if minFillBps in old(cache) then 0 else 1)
    {
      if minFillBps in cache {
        assert cache == cache[minFillBps := cache[minFillBps]];
        return cache[minFillBps];
      }
      simulations := simulations + 1;
      coverage := simulated[minFillBps];
      cache := cache[minFillBps := coverage];
    }

    /** Stops at the boundary: on target at `best`, off target just above it, both simulated. */
    method Search(candidates: seq<nat>, target: int) returns (best: int)
      requires Valid() && cache == map[] && simulations == 0 && candidates != [] && Answered(candidates, simulated)
      modifies this
      ensures Valid() && -1 <= best < |candidates|
      ensures best >= 0 ==> candidates[best] in cache && simulated[candidates[best]] >= target
      ensures best + 1 < |candidates| ==> candidates[best + 1] in cache && simulated[candidates[best + 1]] < target
      ensures simulations <= Log2(|candidates|) + 1
      ensures Pow2(Log2(|candidates|)) <= |candidates| < Pow2(Log2(|candidates|) + 1)
    {
      var lo, hi := 0, |candidates| - 1;
      best := -1;
      while lo <= hi
        invariant Valid()
        invariant 0 <= lo <= hi + 1 <= |candidates|
        invariant best == lo - 1
        invariant best >= 0 ==> candidates[best] in cache && simulated[candidates[best]] >= target
        invariant hi + 1 < |candidates| ==> candidates[hi + 1] in cache && simulated[candidates[hi + 1]] < target
        invariant simulations + Probes(hi - lo + 1) <= Probes(|candidates|)
      {
        var mid := (lo + hi) / 2;
        var coverage := CoverageAt(candidates[mid]);
        if coverage >= target {
          best := mid;
          HalvingSpendsOneProbe(hi - mid, hi - lo + 1);
          lo := mid + 1;
        } else {
          HalvingSpendsOneProbe(mid - lo, hi - lo + 1);
          hi := mid - 1;
        }
      }
      Log2IsFloor(|candidates|);
    }

    /** The whole choice; the last read is a hit, so it never simulates again. */
    method Choose(candidates: seq<nat>, target: int) returns (chosen: nat, projected: nat, meetsTarget: bool)
      requires Valid() && cache == map[] && simulations == 0 && candidates != []
      requires StrictlyAscending(candidates) && Answered(candidates, simulated) && Falls(candidates, simulated)
      modifies this
      ensures Valid() && IsBest(candidates, simulated, target, chosen)
      ensures projected == simulated[chosen]
      ensures meetsTarget <==> projected >= target
      ensures simulations <= Log2(|candidates|) + 1
    {
      var best := Search(candidates, target);
      BoundaryIsBest(candidates, simulated, target, best);
      chosen := if best >= 0 then candidates[best] else candidates[0];
      projected := CoverageAt(chosen);
      meetsTarget := projected >= target;
    }
  }

  // ---------------------------------------------------------------- end to end

  /** `simulated` answers every candidate as the registered fillers would. */
  ghost predicate Projects(candidates: seq<nat>, simulated: map<nat, nat>, fillers: seq<Filler>,
                           inputAmount: nat, floorPrice: nat, deadline: int)
  {
    forall i :: 0 <= i < |candidates| ==>
      candidates[i] in simulated
      && simulated[candidates[i]] == Coverage(fillers, inputAmount, floorPrice, deadline, candidates[i])
  }

  lemma ProjectionsFall(candidates: seq<nat>, simulated: map<nat, nat>, fillers: seq<Filler>,
                        inputAmount: nat, floorPrice: nat, deadline: int)
    requires StrictlyAscending(candidates)
    requires Projects(candidates, simulated, fillers, inputAmount, floorPrice, deadline)
    ensures Answered(candidates, simulated) && Falls(candidates, simulated)
  {
    forall i, j | 0 <= i < j < |candidates|
      ensures simulated[candidates[j]] <= simulated[candidates[i]]
    {
      var probe := ProbeOrder(inputAmount, floorPrice, deadline, candidates[i]);
      CoverageIsAntitone(fillers, probe, deadline - 10, candidates[j]);
    }
  }

  /** The suggested minimum, for any fillers and any order, in at most four simulations. */
  method SuggestMinFill(simulated: map<nat, nat>, ghost fillers: seq<Filler>, inputAmount: nat,
                        floorPrice: nat, deadline: int, targetCoverageBps: int)
    returns (minFillBps: nat, projected: nat, meetsTarget: bool, simulations: nat)
    requires Projects(MIN_FILL_CANDIDATES, simulated, fillers, inputAmount, floorPrice, deadline)
    ensures Answered(MIN_FILL_CANDIDATES, simulated)
    ensures IsBest(MIN_FILL_CANDIDATES, simulated, targetCoverageBps, minFillBps)
    ensures projected == Coverage(fillers, inputAmount, floorPrice, deadline, minFillBps)
    ensures BooksDescend(fillers) && inputAmount > 0 ==>
              projected
              == 10_000 * Min(inputAmount, Total(Offers(fillers, inputAmount, floorPrice, minFillBps))) / inputAmount
    ensures meetsTarget <==> projected >= targetCoverageBps
    ensures simulations <= 4
  {
    FourSimulationsSuffice();
    ProjectionsFall(MIN_FILL_CANDIDATES, simulated, fillers, inputAmount, floorPrice, deadline);
    var search := new CoverageCache(simulated);
    minFillBps, projected, meetsTarget := search.Choose(MIN_FILL_CANDIDATES, targetCoverageBps);
    simulations := search.simulations;
    if BooksDescend(fillers) && inputAmount > 0 {
      CoverageIsOffered(fillers, inputAmount, floorPrice, deadline, minFillBps);
    }
  }

  /** The shipped candidates are ascending, so at most four simulations serve a request. */
  lemma FourSimulationsSuffice()
    ensures StrictlyAscending(MIN_FILL_CANDIDATES)
    ensures Log2(|MIN_FILL_CANDIDATES|) + 1 == 4
  {
  }
}

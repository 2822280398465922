/** Turning sell offers into bids on the other side (filler/CoWFiller/src/orderbook/liveOrderbook.ts). */
module OrderBook {
  import opened Arith
  import opened Wrappers
  import opened Matcher

  /** An exchange ask: `price` raw stablecoin per whole unit of output token, `size` raw output token. */
  datatype Ask = Ask(price: nat, size: nat)

  function Pow10(n: nat): (p: nat)
    ensures p > 0
  {
    if n == 0 then 1 else 10 * Pow10(n - 1)
  }

  function Invert(ask: Ask, outDecimals: nat): BidLevel
    requires ask.price > 0
  {
    BidLevel(MulDiv(Pow10(outDecimals + 18), 1, ask.price), MulDiv(ask.size, ask.price, Pow10(outDecimals)))
  }

  /** None when an ask is priced at zero: the division throws and the static book is used instead. */
  function InvertAsks(asks: seq<Ask>, outDecimals: nat): Option<seq<BidLevel>> {
    if asks == [] then Some([])
    else if asks[0].price == 0 then None
    else match InvertAsks(asks[1..], outDecimals)
      case None => None
      case Some(rest) => Some([Invert(asks[0], outDecimals)] + rest)
  }

  lemma {:induction false} InvertAt(asks: seq<Ask>, outDecimals: nat)
    ensures InvertAsks(asks, outDecimals).Some? <==> forall i :: 0 <= i < |asks| ==> asks[i].price > 0
    ensures InvertAsks(asks, outDecimals).Some? ==>
              var bids := InvertAsks(asks, outDecimals).value;
              && |bids| == |asks|
              && forall i :: 0 <= i < |asks| ==> asks[i].price > 0 && bids[i] == Invert(asks[i], outDecimals)
  {
    if asks != [] {
      InvertAt(asks[1..], outDecimals);
      if forall i :: 0 <= i < |asks| ==> asks[i].price > 0 {
        assert forall i :: 0 <= i < |asks[1..]| ==> asks[1..][i] == asks[i + 1];
      } else if asks[0].price > 0 {
        var i :| 0 <= i < |asks| && asks[i].price == 0;
        assert asks[1..][i - 1].price == 0;
      }
    }
  }

  /** Asks listed cheapest first become bids listed best first, which is what the matcher needs. */
  lemma InvertedBookIsDescending(asks: seq<Ask>, outDecimals: nat)
    requires forall i, j :: 0 <= i < j < |asks| ==> asks[i].price <= asks[j].price
    requires InvertAsks(asks, outDecimals).Some?
    ensures Descending(InvertAsks(asks, outDecimals).value)
  {
    InvertAt(asks, outDecimals);
    var bids := InvertAsks(asks, outDecimals).value;
    forall i, j | 0 <= i < j < |bids|
      ensures bids[i].price >= bids[j].price
    {
      DivAntitone(Pow10(outDecimals + 18), asks[i].price, asks[j].price);
    }
  }

  lemma DivAntitone(a: nat, b: nat, b': nat)
    requires 0 < b <= b'
    ensures a / b >= a / b'
  {
    DivBounds(a, b');
    MulMono(b, b', a / b');
    assert a / b' * b <= a / b' * b';
    QuotientAtLeast(a / b', a, b);
  }

  lemma Pow10Wad(n: nat)
    ensures Pow10(n + 18) == Pow10(n) * WAD
  {
    Pow10Add(n, 18);
    assert Pow10(18) == WAD by {
      assert Pow10(9) == 1_000_000_000;
      Pow10Add(9, 9);
    }
  }

  lemma {:induction false} Pow10Add(m: nat, n: nat)
    ensures Pow10(m + n) == Pow10(m) * Pow10(n)
  {
    if n > 0 {
      Pow10Add(m, n - 1);
      Product(Pow10(m), Pow10(n - 1));
    }
  }

  lemma Product(x: int, y: int)
    ensures 10 * (x * y) == x * (10 * y)
  {
  }

  /** An inverted bid never promises more output token than the ask behind it holds. */
  lemma InvertedBidIsBacked(ask: Ask, outDecimals: nat, take: nat)
    requires ask.price > 0 && take <= Invert(ask, outDecimals).size
    ensures take * Invert(ask, outDecimals).price / WAD <= ask.size
  {
    var bid := Invert(ask, outDecimals);
    InvertedBidIsTight(ask, outDecimals);
    MulMono(take, bid.size, bid.price);
    DivMono(take * bid.price, ask.size * WAD, WAD);
    assert ask.size * WAD / WAD == ask.size;
  }

  /**
   * The bid's price and size are the exact quotients rounded down, and together they offer the whole ask but for what
   * rounding one unit of either costs.
   */
  lemma InvertedBidIsTight(ask: Ask, outDecimals: nat)
    requires ask.price > 0
    ensures var bid := Invert(ask, outDecimals);
            && bid.price * ask.price <= Pow10(outDecimals) * WAD < (bid.price + 1) * ask.price
            && bid.size * Pow10(outDecimals) <= ask.size * ask.price < (bid.size + 1) * Pow10(outDecimals)
            && bid.size * bid.price <= ask.size * WAD <= bid.size * bid.price + bid.size + bid.price
  {
    var bid, unit := Invert(ask, outDecimals), Pow10(outDecimals);
    Pow10Wad(outDecimals);
    DivBounds(unit * WAD, ask.price);
    DivBounds(ask.size * ask.price, unit);
    Distribute(bid.price, 1, ask.price);
    Distribute(bid.size, 1, unit);
    Backed(bid.size, bid.price, ask.size, ask.price, unit);
    Tight(bid.size, bid.price, ask.size, ask.price, unit);
  }

  lemma Backed(size: nat, price: nat, askSize: nat, askPrice: nat, unit: nat)
    requires unit > 0 && askPrice > 0 && size * unit <= askSize * askPrice && price * askPrice <= unit * WAD
    ensures size * price <= askSize * WAD
  {
    ProductMono(size * unit, askSize * askPrice, price * askPrice, unit * WAD);
    Regroup(size, unit, price, askPrice);
    Regroup(askSize, askPrice, WAD, unit);
    MulMono(1, unit, askPrice);
    Cancel(size * price, askSize * WAD, unit * askPrice);
  }

  lemma Tight(size: nat, price: nat, askSize: nat, askPrice: nat, unit: nat)
    requires unit > 0 && askPrice > 0
    requires askSize * askPrice < (size + 1) * unit && unit * WAD < (price + 1) * askPrice
    ensures askSize * WAD <= size * price + size + price
  {
    ProductMono(askSize * askPrice + 1, (size + 1) * unit, unit * WAD, (price + 1) * askPrice);
    Distribute(askSize * askPrice, 1, unit * WAD);
    Regroup(size + 1, unit, price + 1, askPrice);
    Regroup(askSize, askPrice, WAD, unit);
    MulMono(1, unit, askPrice);
    MulMono(1, unit, WAD);
    CancelStrict(askSize * WAD, (size + 1) * (price + 1), unit * askPrice);
    assert (size + 1) * (price + 1) == size * price + size + price + 1;
  }

  lemma CancelStrict(x: int, y: int, k: int)
    requires k > 0 && x * k < y * k
    ensures x < y
  {
    if x >= y {
      MulMono(y, x, k);
    }
  }

  lemma ProductMono(x: nat, x': nat, y: nat, y': nat)
    requires x <= x' && y <= y'
    ensures x * y <= x' * y'
  {
  }

  lemma Regroup(a: nat, b: nat, c: nat, d: nat)
    ensures (a * b) * (c * d) == (a * c) * (b * d)
    ensures (a * b) * (d * c) == (a * c) * (d * b)
  {
  }

  lemma Cancel(x: int, y: int, k: int)
    requires k > 0 && x * k <= y * k
    ensures x <= y
  {
  }
}

/** The conversions between selling and paying amounts, and what their rounding guarantees. */
module Rounding {
  import opened Types
  import opened Sums

  /**
    * How many selling coins `coin` paying coins buy at `price`, rounded down.
    * The SDK panics on a zero price; every stored price is positive, so zero only makes the function total.
    */
  function ToSelling(coin: nat, price: Dec): nat {
    if price == 0 then 0 else coin * ONE / price
  }

  /** What `amount` selling coins cost at `price`, rounded up. */
  function ToPaying(amount: nat, price: Dec): nat {
    DivUp(amount * price)
  }

  function DivUp(n: nat): nat {
    (n + ONE - 1) / ONE
  }

  /** The amount is the largest whose price the coins cover. */
  lemma ToSellingBounds(coin: nat, price: Dec)
    requires 0 < price
    ensures ToSelling(coin, price) * price <= coin * ONE < (ToSelling(coin, price) + 1) * price
  {
    DivBounds(coin * ONE, price);
  }

  /** The coins are the fewest that cover the price. */
  lemma ToPayingBounds(amount: nat, price: Dec)
    ensures amount * price <= ToPaying(amount, price) * ONE < amount * price + ONE
  {
    assert 0 <= amount * price;
  }

  lemma DivBounds(n: nat, d: nat)
    requires 0 < d
    ensures n / d * d <= n < (n / d + 1) * d
  {
    assert n == n / d * d + n % d;
    assert (n / d + 1) * d == n / d * d + d;
  }

  lemma Distribute(a: int, b: int, c: int)
    ensures (a + b) * c == a * c + b * c
  {
  }

  lemma MulMono(a: nat, b: nat, c: nat, d: nat)
    requires a <= b && c <= d
    ensures a * c <= b * d
  {
    assert b * d == a * c + a * (d - c) + (b - a) * d;
  }

  /** A lower price never buys fewer coins. */
  lemma ToSellingMono(coin: nat, p: Dec, q: Dec)
    requires 0 < p <= q
    ensures ToSelling(coin, q) <= ToSelling(coin, p)
  {
    var a, b := ToSelling(coin, p), ToSelling(coin, q);
    ToSellingBounds(coin, p);
    ToSellingBounds(coin, q);
    if a < b {
      MulMono(a + 1, b, p, q);
    }
  }

  lemma ToPayingMono(a: nat, b: nat, p: Dec, q: Dec)
    requires a <= b && p <= q
    ensures ToPaying(a, p) <= ToPaying(b, q)
  {
    MulMono(a, b, p, q);
    assert 0 <= a * p <= b * q;
  }

  /** Buying back no more than a worth bid affords costs at most what it reserved, although the cost is rounded up. */
  lemma WorthCoversCharge(coin: nat, p: Dec, amount: nat)
    requires 0 < p
    requires amount <= ToSelling(coin, p)
    ensures ToPaying(amount, p) <= coin
  {
    ToSellingBounds(coin, p);
    ToPayingBounds(amount, p);
    MulMono(amount, ToSelling(coin, p), p, p);
  }

  /** `Bid.ConvertToSellingAmount`. */
  function SellingAmount(b: Bid, payingDenom: Denom): nat {
    if b.coin.denom == payingDenom then ToSelling(b.coin.amount, b.price) else b.coin.amount
  }

  /** `Bid.ConvertToPayingAmount`. */
  function PayingAmount(b: Bid, payingDenom: Denom): nat {
    if b.coin.denom == payingDenom then b.coin.amount else ToPaying(b.coin.amount, b.price)
  }

  /** Paying coins buy the most that they cover at the bid's price; selling coins cost the least that covers them. */
  lemma BidConverts(b: Bid, payingDenom: Denom)
    requires 0 < b.price
    ensures var sold, paid := SellingAmount(b, payingDenom), PayingAmount(b, payingDenom);
            if b.coin.denom == payingDenom then
              paid == b.coin.amount && sold * b.price <= paid * ONE < (sold + 1) * b.price
            else
              sold == b.coin.amount && sold * b.price <= paid * ONE < sold * b.price + ONE
  {
    ToSellingBounds(b.coin.amount, b.price);
    ToPayingBounds(b.coin.amount, b.price);
  }

  function Selling(payingDenom: Denom): Bid -> nat {
    (b: Bid) => SellingAmount(b, payingDenom)
  }

  function Paying(payingDenom: Denom): Bid -> nat {
    (b: Bid) => PayingAmount(b, payingDenom)
  }

  /** Every bid reserves at least its own price for the coins it converts to. */
  lemma BidReservesItsPrice(b: Bid, payingDenom: Denom)
    requires 0 < b.price
    ensures SellingAmount(b, payingDenom) * b.price <= PayingAmount(b, payingDenom) * ONE
  {
    ToSellingBounds(b.coin.amount, b.price);
    ToPayingBounds(b.coin.amount, b.price);
  }

  /** Bids at one common price reserve together at least that price for all coins sold to them. */
  lemma {:induction false} ReservesCoverPrice(bids: seq<Bid>, payingDenom: Denom, price: Dec)
    requires 0 < price
    requires forall b :: b in bids ==> b.price == price
    ensures SumBy(bids, Selling(payingDenom)) * price <= SumBy(bids, Paying(payingDenom)) * ONE
  {
    if bids != [] {
      var n, b := |bids| - 1, bids[|bids| - 1];
      ReservesCoverPrice(bids[..n], payingDenom, price);
      BidReservesItsPrice(b, payingDenom);
      Distribute(SumBy(bids[..n], Selling(payingDenom)), SellingAmount(b, payingDenom), price);
    }
  }
}

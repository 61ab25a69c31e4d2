/**
  * What a match means: capped demand defined without any walk over the bids, its monotonicity in the price,
  * and the guarantees on allocations and charges.
  */
module Demand {
  import opened Types
  import opened Sums
  import opened Rounding
  import opened Matching

  /** Everything bidder `a` asks for at price `p`, over all bids at or above it. */
  function Wanted(bids: seq<Bid>, a: Text, p: Dec): nat {
    if bids == [] then 0 else
      var b := bids[|bids| - 1];
      Wanted(bids[..|bids| - 1], a, p) + if b.bidder == a && p <= b.price then AmountAt(b, p) else 0
  }

  lemma {:induction false} WantedIsSum(bids: seq<Bid>, a: Text, p: Dec)
    ensures Wanted(bids, a, p) == SumBy(bids, Above(p, Only(a, Amount(p))))
  {
    if bids != [] {
      WantedIsSum(bids[..|bids| - 1], a, p);
    }
  }

  function Capped(bids: seq<Bid>, p: Dec, caps: map<Text, nat>): map<Text, nat> {
    map a | a in caps :: Min(caps[a], Wanted(bids, a, p))
  }

  /** Total capped demand at price `p`. */
  ghost function TotalDemand(bids: seq<Bid>, p: Dec, caps: map<Text, nat>): nat {
    SumMap(Capped(bids, p, caps))
  }

  function MatchedOf(byBidder: map<Text, BidderMatch>, a: Text): nat {
    if a in byBidder then byBidder[a].matched else 0
  }

  function ChargeOf(byBidder: map<Text, BidderMatch>, a: Text): nat {
    if a in byBidder then byBidder[a].paying else 0
  }

  function Charges(byBidder: map<Text, BidderMatch>): map<Text, nat> {
    map a | a in byBidder :: byBidder[a].paying
  }

  ghost function TotalCharge(byBidder: map<Text, BidderMatch>): nat {
    SumMap(Charges(byBidder))
  }

  /** The bids a batch auction stores: a positive price, and the coin denom that goes with the bid type. */
  predicate BatchBid(b: Bid, payingDenom: Denom) {
    && 0 < b.price
    && ((b.typ == BatchWorth && b.coin.denom == payingDenom) || (b.typ == BatchMany && b.coin.denom != payingDenom))
  }

  // ----- The walk computes capped demand

  /** What bidder `a` asks for in the bids visited so far, all of them at or above the price. */
  function Asked(visit: seq<Bid>, a: Text, p: Dec): nat {
    if visit == [] then 0 else
      var b := visit[|visit| - 1];
      Asked(visit[..|visit| - 1], a, p) + if b.bidder == a then AmountAt(b, p) else 0
  }

  lemma {:induction false} AskedIsSum(visit: seq<Bid>, a: Text, p: Dec)
    ensures Asked(visit, a, p) == SumBy(visit, Only(a, Amount(p)))
  {
    if visit != [] {
      AskedIsSum(visit[..|visit| - 1], a, p);
    }
  }

  function CappedIn(visit: seq<Bid>, p: Dec, caps: map<Text, nat>): map<Text, nat> {
    map a | a in caps :: Min(caps[a], Asked(visit, a, p))
  }

  lemma AskedIsWanted(bids: seq<Bid>, a: Text, p: Dec)
    ensures Asked(Visited(p, bids), a, p) == Wanted(bids, a, p)
  {
    AskedIsSum(Visited(p, bids), a, p);
    VisitedSum(p, bids, Only(a, Amount(p)));
    WantedIsSum(bids, a, p);
  }

  lemma {:induction false} FillBidder(p: Dec, visit: seq<Bid>, caps: map<Text, nat>, a: Text)
    ensures var t, taken := Fill(p, visit, caps), Min(Get(caps, a), Asked(visit, a, p));
            Get(t.left, a) == Get(caps, a) - taken && MatchedOf(t.byBidder, a) == taken
  {
    if visit != [] {
      FillBidder(p, visit[..|visit| - 1], caps, a);
    }
  }

  /** One more bid changes the capped demand of its own bidder only, and a stranger's none. */
  lemma CappedSnoc(visit: seq<Bid>, p: Dec, caps: map<Text, nat>)
    requires visit != []
    ensures var before, after := CappedIn(visit[..|visit| - 1], p, caps), CappedIn(visit, p, caps);
            var b := visit[|visit| - 1].bidder;
            after == if b in caps then before[b := after[b]] else before
  {
  }

  lemma {:induction false} FillTotal(p: Dec, visit: seq<Bid>, caps: map<Text, nat>)
    ensures Fill(p, visit, caps).total == SumMap(CappedIn(visit, p, caps))
  {
    if visit == [] {
      SumMapZero(CappedIn(visit, p, caps));
    } else {
      var init, b := visit[..|visit| - 1], visit[|visit| - 1].bidder;
      FillTotal(p, init, caps);
      FillBidder(p, init, caps, b);
      FillBidder(p, visit, caps, b);
      TakeTotal(p, Fill(p, init, caps), visit[|visit| - 1]);
      CappedSnoc(visit, p, caps);
      if b in caps {
        SumMapUpdate(CappedIn(init, p, caps), b, CappedIn(visit, p, caps)[b]);
      }
    }
  }

  lemma TakeTotal(p: Dec, t: Tally, b: Bid)
    ensures Take(p, t, b).total - t.total
         == MatchedOf(Take(p, t, b).byBidder, b.bidder) - MatchedOf(t.byBidder, b.bidder)
  {
  }

  lemma MatchTotal(p: Dec, bids: seq<Bid>, caps: map<Text, nat>)
    ensures Fill(p, Visited(p, bids), caps).total == TotalDemand(bids, p, caps)
  {
    VisitedMembers(p, bids);
    FillTotal(p, Visited(p, bids), caps);
    forall a | a in caps ensures CappedIn(Visited(p, bids), p, caps)[a] == Capped(bids, p, caps)[a] {
      AskedIsWanted(bids, a, p);
    }
    assert CappedIn(Visited(p, bids), p, caps) == Capped(bids, p, caps);
  }

  lemma MatchedAmount(p: Dec, bids: seq<Bid>, caps: map<Text, nat>, a: Text)
    ensures MatchedOf(Fill(p, Visited(p, bids), caps).byBidder, a) == Min(Get(caps, a), Wanted(bids, a, p))
  {
    FillBidder(p, Visited(p, bids), caps, a);
    AskedIsWanted(bids, a, p);
  }

  /**
    * `Match` succeeds exactly when the capped demand is positive and fits the supply; it then sells just that
    * demand, and each bidder receives the cap or everything asked for. Nothing here mentions the order of the bids.
    */
  lemma MatchMeetsDemand(p: Dec, bids: seq<Bid>, caps: map<Text, nat>, supply: nat, a: Text)
    ensures var t := Fill(p, Visited(p, bids), caps);
            && (0 < t.total <= supply <==> 0 < TotalDemand(bids, p, caps) <= supply)
            && t.total == TotalDemand(bids, p, caps)
            && MatchedOf(t.byBidder, a) == Min(Get(caps, a), Wanted(bids, a, p))
  {
    MatchTotal(p, bids, caps);
    MatchedAmount(p, bids, caps, a);
  }

  /** Every bid counted by a match is at or above the match price and comes from the book. */
  lemma {:induction false} FillBids(p: Dec, visit: seq<Bid>, caps: map<Text, nat>)
    ensures forall b :: b in Fill(p, visit, caps).bids ==> b in visit
    ensures |Fill(p, visit, caps).bids| <= |visit|
  {
    if visit != [] {
      FillBids(p, visit[..|visit| - 1], caps);
    }
  }

  /** No bid below the match price is part of a match, and each matched bid was in the book. */
  lemma MatchedBidsAbovePrice(p: Dec, bids: seq<Bid>, caps: map<Text, nat>)
    ensures forall b :: b in Fill(p, Visited(p, bids), caps).bids ==> b in bids && p <= b.price
  {
    FillBids(p, Visited(p, bids), caps);
    VisitedMembers(p, bids);
  }

  /** Demand never rises with the price. */
  lemma DemandMono(bids: seq<Bid>, p: Dec, q: Dec, caps: map<Text, nat>)
    requires 0 < p <= q
    ensures TotalDemand(bids, q, caps) <= TotalDemand(bids, p, caps)
  {
    forall a | a in caps ensures Wanted(bids, a, q) <= Wanted(bids, a, p) {
      WantedMono(bids, a, p, q);
    }
    SumMapLe(Capped(bids, q, caps), Capped(bids, p, caps));
  }

  lemma {:induction false} WantedMono(bids: seq<Bid>, a: Text, p: Dec, q: Dec)
    requires 0 < p <= q
    ensures Wanted(bids, a, q) <= Wanted(bids, a, p)
  {
    if bids != [] {
      WantedMono(bids[..|bids| - 1], a, p, q);
      ToSellingMono(bids[|bids| - 1].coin.amount, p, q);
    }
  }

  lemma WantedPerm(bids: seq<Bid>, order: seq<Bid>, a: Text, p: Dec)
    requires multiset(bids) == multiset(order)
    ensures Wanted(bids, a, p) == Wanted(order, a, p)
  {
    WantedIsSum(bids, a, p);
    WantedIsSum(order, a, p);
    SumPerm(bids, order, Above(p, Only(a, Amount(p))));
  }

  lemma DemandPerm(bids: seq<Bid>, order: seq<Bid>, p: Dec, caps: map<Text, nat>)
    requires multiset(bids) == multiset(order)
    ensures TotalDemand(bids, p, caps) == TotalDemand(order, p, caps)
  {
    forall a | a in caps ensures Wanted(bids, a, p) == Wanted(order, a, p) {
      WantedPerm(bids, order, a, p);
    }
    assert Capped(bids, p, caps) == Capped(order, p, caps);
  }

  lemma PermMembers<T>(s: seq<T>, t: seq<T>)
    requires multiset(s) == multiset(t)
    ensures forall x :: x in s <==> x in t
  {
    assert forall x :: x in s <==> x in multiset(s);
    assert forall x :: x in t <==> x in multiset(t);
  }

  /**
    * However the sort arranges the bids, a match succeeds or fails alike, sells the same total and gives
    * each bidder the same amount.
    */
  lemma OrderDoesNotMatter(p: Dec, bids: seq<Bid>, order: seq<Bid>, caps: map<Text, nat>)
    requires multiset(bids) == multiset(order)
    ensures Fill(p, Visited(p, bids), caps).total == Fill(p, Visited(p, order), caps).total
    ensures forall a ::
              MatchedOf(Fill(p, Visited(p, bids), caps).byBidder, a)
              == MatchedOf(Fill(p, Visited(p, order), caps).byBidder, a)
  {
    MatchTotal(p, bids, caps);
    MatchTotal(p, order, caps);
    DemandPerm(bids, order, p, caps);
    forall a
      ensures MatchedOf(Fill(p, Visited(p, bids), caps).byBidder, a)
           == MatchedOf(Fill(p, Visited(p, order), caps).byBidder, a)
    {
      MatchedAmount(p, bids, caps, a);
      MatchedAmount(p, order, caps, a);
      WantedPerm(bids, order, a, p);
    }
  }

  /**
    * The charges and the number of matched bids do depend on that order: at price 1.5 a bidder capped at two coins
    * pays 4 for bids of one and two coins, but 3 for a single matched bid when the larger one comes first.
    */
  lemma ChargesDependOnOrder(p: Dec, x: Bid, y: Bid, a: Text, caps: map<Text, nat>)
    requires p == 3 * ONE / 2 && a in caps && caps[a] == 2
    requires x.bidder == y.bidder == a && x.typ == y.typ == BatchMany && x.price == y.price == p
    requires x.coin.amount == 1 && y.coin.amount == 2
    ensures var t, t' := Fill(p, Visited(p, [x, y]), caps), Fill(p, Visited(p, [y, x]), caps);
            && ChargeOf(t.byBidder, a) == 4 && |t.bids| == 2
            && ChargeOf(t'.byBidder, a) == 3 && |t'.bids| == 1
  {
    HalfPrices(p);
    TwoBids(p, x, y, a, caps);
    TwoBids(p, y, x, a, caps);
  }

  lemma HalfPrices(p: Dec)
    requires p == 3 * ONE / 2
    ensures ToPaying(0, p) == 0 && ToPaying(1, p) == 2 && ToPaying(2, p) == 3
  {
  }

  lemma TwoBids(p: Dec, x: Bid, y: Bid, a: Text, caps: map<Text, nat>)
    requires x.price == y.price >= p && a in caps
    requires x.bidder == y.bidder == a && x.typ == y.typ == BatchMany
    ensures var t, first := Fill(p, Visited(p, [x, y]), caps), Min(x.coin.amount, caps[a]);
            var second := Min(y.coin.amount, caps[a] - first);
            && ChargeOf(t.byBidder, a) == ToPaying(first, p) + ToPaying(second, p)
            && |t.bids| == (if first > 0 then 1 else 0) + (if second > 0 then 1 else 0)
  {
    assert [x, y][..1] == [x] && [x][..0] == [];
    assert Book([]) == map[] && Levels([]) == [];
    assert Book([x]) == map[][x.price := Lookup(map[], x.price) + [x]] by {
      assert Book([x]) == Book([x][..0])[x.price := Lookup(Book([x][..0]), x.price) + [x]];
    }
    assert Lookup(Book([x]), x.price) == [x];
    assert Book([x, y]) == Book([x])[x.price := Lookup(Book([x]), x.price) + [y]];
    assert Levels([x]) == [x.price] && Levels([x, y]) == [x.price];
    assert Visit(p, [x.price], Book([x, y])) == [x, y] + Visit(p, [], Book([x, y]));
    assert Visited(p, [x, y]) == [x, y];
    var t0 := Tally(caps, 0, [], map[]);
    assert Fill(p, [], caps) == t0;
    assert Fill(p, [x], caps) == Take(p, Fill(p, [x][..0], caps), x);
    assert Fill(p, [x, y], caps) == Take(p, Take(p, t0, x), y);
  }

  // ----- Charges

  /** At a match price no higher than its own, a bid is charged no more than it reserved. */
  lemma BidCoversCharge(b: Bid, p: Dec, amount: nat, payingDenom: Denom)
    requires BatchBid(b, payingDenom) && 0 < p <= b.price
    requires amount <= AmountAt(b, p)
    ensures ToPaying(amount, p) <= PayingAmount(b, payingDenom)
  {
    if b.typ == BatchWorth {
      WorthCoversCharge(b.coin.amount, p, amount);
    } else {
      ToPayingMono(amount, b.coin.amount, p, b.price);
    }
  }

  lemma {:induction false} FillCharges(p: Dec, visit: seq<Bid>, caps: map<Text, nat>, a: Text, payingDenom: Denom)
    requires 0 < p
    requires forall b :: b in visit ==> BatchBid(b, payingDenom) && p <= b.price
    ensures ChargeOf(Fill(p, visit, caps).byBidder, a) <= SumBy(visit, Only(a, Paying(payingDenom)))
  {
    if visit != [] {
      var n, b := |visit| - 1, visit[|visit| - 1];
      FillCharges(p, visit[..n], caps, a, payingDenom);
      var amount := Min(AmountAt(b, p), Get(Fill(p, visit[..n], caps).left, b.bidder));
      BidCoversCharge(b, p, amount, payingDenom);
    }
  }

  /** No bidder is charged more than all of that bidder's bids reserved, so no refund is negative. */
  lemma ChargesWithinReserves(p: Dec, bids: seq<Bid>, caps: map<Text, nat>, a: Text, payingDenom: Denom)
    requires 0 < p
    requires forall b :: b in bids ==> BatchBid(b, payingDenom)
    ensures ChargeOf(Fill(p, Visited(p, bids), caps).byBidder, a) <= SumBy(bids, Only(a, Paying(payingDenom)))
  {
    VisitedMembers(p, bids);
    FillCharges(p, Visited(p, bids), caps, a, payingDenom);
    VisitedSum(p, bids, Only(a, Paying(payingDenom)));
    SumLe(bids, Above(p, Only(a, Paying(payingDenom))), Only(a, Paying(payingDenom)));
  }

  lemma ChargeStep(total: nat, charge: nat, bids: nat, amount: nat, p: Dec)
    requires total * p <= charge * ONE <= total * p + bids * (ONE - 1)
    ensures (total + amount) * p <= (charge + ToPaying(amount, p)) * ONE
    ensures (charge + ToPaying(amount, p)) * ONE
            <= (total + amount) * p + (bids + if amount > 0 then 1 else 0) * (ONE - 1)
  {
    Distribute(total, amount, p);
    var c := ToPaying(amount, p);
    ToPayingBounds(amount, p);
    assert amount * p <= c * ONE <= amount * p + ONE - 1;
    assert amount == 0 ==> c == 0;
  }

  /** Rounding favours the auctioneer, by less than one paying coin per matched bid. */
  lemma {:induction false} ChargesNearPrice(p: Dec, visit: seq<Bid>, caps: map<Text, nat>)
    ensures var t := Fill(p, visit, caps);
            t.total * p <= TotalCharge(t.byBidder) * ONE <= t.total * p + |t.bids| * (ONE - 1)
  {
    if visit == [] {
      SumMapZero(Charges(Fill(p, visit, caps).byBidder));
    } else {
      var t0, b := Fill(p, visit[..|visit| - 1], caps), visit[|visit| - 1];
      ChargesNearPrice(p, visit[..|visit| - 1], caps);
      TakeCharge(p, t0, b);
      ChargeStep(t0.total, TotalCharge(t0.byBidder), |t0.bids|, Min(AmountAt(b, p), Get(t0.left, b.bidder)), p);
    }
  }

  lemma TakeCharge(p: Dec, t: Tally, b: Bid)
    ensures TotalCharge(Take(p, t, b).byBidder)
         == TotalCharge(t.byBidder) + ToPaying(Min(AmountAt(b, p), Get(t.left, b.bidder)), p)
  {
    var t', charge := Take(p, t, b), ToPaying(Min(AmountAt(b, p), Get(t.left, b.bidder)), p);
    var before, after := Charges(t.byBidder), Charges(t'.byBidder);
    assert after == before[b.bidder := Get(before, b.bidder) + charge];
    SumMapUpdate(before, b.bidder, Get(before, b.bidder) + charge);
  }
}

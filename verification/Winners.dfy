/**
  * Who is matched, for how much and at what charge, bid by bid. Everything is stated over the list of visited bids and
  * what each bidder asked for earlier in it, without the walk's running tally.
  */
module Winners {
  import opened Types
  import opened Sums
  import opened Rounding
  import opened Matching
  import opened Demand

  /** What a bid asks for at a price: the most coins a worth bid pays for there, or the coins a many bid names. */
  lemma AsksAtPrice(b: Bid, p: Dec)
    requires 0 < p
    ensures b.typ == BatchWorth ==> AmountAt(b, p) * p <= b.coin.amount * ONE < (AmountAt(b, p) + 1) * p
    ensures b.typ == BatchMany ==> AmountAt(b, p) == b.coin.amount
  {
    ToSellingBounds(b.coin.amount, p);
  }

  // ----- The order of the visit

  /** The bids at one price, in their order. */
  function AtLevel(bids: seq<Bid>, q: Dec): seq<Bid> {
    if bids == [] then [] else
      var b := bids[|bids| - 1];
      AtLevel(bids[..|bids| - 1], q) + if b.price == q then [b] else []
  }

  lemma {:induction false} BookIsLevels(bids: seq<Bid>, q: Dec)
    ensures Lookup(Book(bids), q) == AtLevel(bids, q)
  {
    if bids != [] {
      BookIsLevels(bids[..|bids| - 1], q);
    }
  }

  lemma {:induction false} AtLevelConcat(s: seq<Bid>, t: seq<Bid>, q: Dec)
    ensures AtLevel(s + t, q) == AtLevel(s, q) + AtLevel(t, q)
  {
    if t == [] {
      assert s + t == s;
    } else {
      var n := |t| - 1;
      assert (s + t)[..|s| + n] == s + t[..n];
      AtLevelConcat(s, t[..n], q);
    }
  }

  lemma {:induction false} AtOneLevel(bids: seq<Bid>, p: Dec, q: Dec)
    ensures AtLevel(AtLevel(bids, p), q) == if p == q then AtLevel(bids, p) else []
    ensures forall b :: b in AtLevel(bids, p) ==> b.price == p
  {
    if bids != [] {
      var n, b := |bids| - 1, bids[|bids| - 1];
      AtOneLevel(bids[..n], p, q);
      var here := if b.price == p then [b] else [];
      AtLevelConcat(AtLevel(bids[..n], p), here, q);
      assert AtLevel([b][..0], q) == [];
      assert AtLevel([b], q) == if b.price == q then [b] else [];
    }
  }

  lemma {:induction false} VisitLevel(p: Dec, prices: seq<Dec>, bids: seq<Bid>, q: Dec)
    requires Descending(prices)
    ensures AtLevel(Visit(p, prices, Book(bids)), q) == if q in prices && p <= q then AtLevel(bids, q) else []
  {
    if prices != [] && prices[0] >= p {
      VisitLevel(p, prices[1..], bids, q);
      BookIsLevels(bids, prices[0]);
      AtOneLevel(bids, prices[0], q);
      AtLevelConcat(AtLevel(bids, prices[0]), Visit(p, prices[1..], Book(bids)), q);
      assert forall r :: r in prices <==> r == prices[0] || r in prices[1..];
    }
  }

  lemma {:induction false} AtLevelEmpty(bids: seq<Bid>, q: Dec)
    requires forall b :: b in bids ==> b.price != q
    ensures AtLevel(bids, q) == []
  {
    if bids != [] {
      var n := |bids| - 1;
      assert bids == bids[..n] + [bids[n]];
      AtLevelEmpty(bids[..n], q);
    }
  }

  predicate PricesFall(bids: seq<Bid>) {
    forall i, j :: 0 <= i < j < |bids| ==> bids[i].price >= bids[j].price
  }

  lemma {:induction false} VisitFalls(p: Dec, prices: seq<Dec>, bids: seq<Bid>)
    requires Descending(prices)
    ensures PricesFall(Visit(p, prices, Book(bids)))
    ensures forall b :: b in Visit(p, prices, Book(bids)) ==> prices != [] && p <= b.price <= prices[0]
  {
    if prices != [] && prices[0] >= p {
      VisitFalls(p, prices[1..], bids);
      BookIsLevels(bids, prices[0]);
      AtOneLevel(bids, prices[0], p);
      var level, rest := Lookup(Book(bids), prices[0]), Visit(p, prices[1..], Book(bids));
      var all: seq<Bid> := level + rest;
      forall i, j | 0 <= i < j < |all| ensures all[i].price >= all[j].price {
        if i < |level| {
          assert level[i] in level;
          if j < |level| {
            assert level[j] in level;
          } else {
            assert rest[j - |level|] in rest;
          }
        }
      }
    }
  }

  /** The visit takes the bids at or above the price, highest price first, each price in the order of the bids. */
  lemma VisitOrder(p: Dec, bids: seq<Bid>, q: Dec)
    ensures PricesFall(Visited(p, bids))
    ensures AtLevel(Visited(p, bids), q) == if p <= q then AtLevel(bids, q) else []
  {
    LevelsSorted(bids);
    VisitFalls(p, Levels(bids), bids);
    VisitLevel(p, Levels(bids), bids, q);
    if q !in Levels(bids) {
      AtLevelEmpty(bids, q);
    }
  }

  // ----- Which bids are matched

  /** What the `k`-th visited bid gets: what it asks for, as far as its bidder's earlier asks left the cap unused. */
  function Share(visit: seq<Bid>, k: nat, p: Dec, caps: map<Text, nat>): nat
    requires k < |visit|
  {
    var a := visit[k].bidder;
    var earlier := Asked(visit[..k], a, p);
    if Get(caps, a) <= earlier then 0 else Min(AmountAt(visit[k], p), Get(caps, a) - earlier)
  }

  /** The visited bids that get something, in the order of the visit. */
  function Winning(visit: seq<Bid>, p: Dec, caps: map<Text, nat>): seq<Bid> {
    if visit == [] then [] else
      var n := |visit| - 1;
      Winning(visit[..n], p, caps) + if Share(visit, n, p, caps) > 0 then [visit[n]] else []
  }

  /** What bidder `a` is charged: each bid's coins at the match price, rounded up bid by bid. */
  function ChargeFor(visit: seq<Bid>, p: Dec, caps: map<Text, nat>, a: Text): nat {
    if visit == [] then 0 else
      var n := |visit| - 1;
      ChargeFor(visit[..n], p, caps, a) + if visit[n].bidder == a then ToPaying(Share(visit, n, p, caps), p) else 0
  }

  /** The bid that is taken next takes its share. */
  lemma TakesShare(p: Dec, visit: seq<Bid>, caps: map<Text, nat>)
    requires visit != []
    ensures var n := |visit| - 1;
            Min(AmountAt(visit[n], p), Get(Fill(p, visit[..n], caps).left, visit[n].bidder)) == Share(visit, n, p, caps)
  {
    var n := |visit| - 1;
    FillBidder(p, visit[..n], caps, visit[n].bidder);
  }

  /** The matched bids are exactly those that get something, and every bidder is charged for just them. */
  lemma {:induction false} MatchedAre(p: Dec, visit: seq<Bid>, caps: map<Text, nat>, a: Text)
    ensures Fill(p, visit, caps).bids == Winning(visit, p, caps)
    ensures ChargeOf(Fill(p, visit, caps).byBidder, a) == ChargeFor(visit, p, caps, a)
  {
    if visit != [] {
      MatchedAre(p, visit[..|visit| - 1], caps, a);
      TakesShare(p, visit, caps);
    }
  }

  /** A bid is among them exactly when it asks for something and finds some of the cap unused. */
  lemma {:induction false} WinningIff(visit: seq<Bid>, p: Dec, caps: map<Text, nat>, b: Bid)
    ensures b in Winning(visit, p, caps)
       <==> exists k :: 0 <= k < |visit| && visit[k] == b
                        && 0 < AmountAt(b, p) && Asked(visit[..k], b.bidder, p) < Get(caps, b.bidder)
  {
    if visit != [] {
      var n := |visit| - 1;
      WinningIff(visit[..n], p, caps, b);
      forall k | 0 <= k < n ensures visit[..n][k] == visit[k] && visit[..n][..k] == visit[..k] {
      }
      if visit[n] == b && Share(visit, n, p, caps) > 0 {
        assert 0 < AmountAt(b, p) && Asked(visit[..n], b.bidder, p) < Get(caps, b.bidder);
      }
    }
  }

  function One(a: Text): Bid -> nat {
    Only(a, _ => 1)
  }

  lemma ShareAdds(visit: seq<Bid>, p: Dec, caps: map<Text, nat>, a: Text)
    requires visit != []
    ensures var n := |visit| - 1;
            Min(Get(caps, a), Asked(visit, a, p))
            == Min(Get(caps, a), Asked(visit[..n], a, p)) + if visit[n].bidder == a then Share(visit, n, p, caps) else 0
  {
  }

  lemma WinAdds(visit: seq<Bid>, p: Dec, caps: map<Text, nat>, a: Text)
    requires visit != []
    ensures var n := |visit| - 1;
            SumBy(Winning(visit, p, caps), One(a))
            == SumBy(Winning(visit[..n], p, caps), One(a))
               + if visit[n].bidder == a && Share(visit, n, p, caps) > 0 then 1 else 0
  {
    SumSnoc(Winning(visit[..|visit| - 1], p, caps), visit[|visit| - 1], One(a));
    assert Winning(visit[..|visit| - 1], p, caps) + [] == Winning(visit[..|visit| - 1], p, caps);
  }

  lemma ChargeAdds(visit: seq<Bid>, p: Dec, caps: map<Text, nat>, a: Text)
    requires visit != []
    ensures var n := |visit| - 1;
            ChargeFor(visit, p, caps, a)
            == ChargeFor(visit[..n], p, caps, a)
               + if visit[n].bidder == a then ToPaying(Share(visit, n, p, caps), p) else 0
  {
  }

  ghost predicate NearPrice(amount: nat, charge: nat, wins: nat, p: Dec) {
    amount * p <= charge * ONE <= amount * p + wins * (ONE - 1)
  }

  lemma NearPriceStep(amount: nat, charge: nat, wins: nat, share: nat, p: Dec)
    requires NearPrice(amount, charge, wins, p)
    ensures NearPrice(amount + share, charge + ToPaying(share, p), wins + if share > 0 then 1 else 0, p)
  {
    ChargeStep(amount, charge, wins, share, p);
  }

  /** A bidder pays the match price for what the bidder gets, and less than one coin more per matched bid. */
  lemma {:induction false} ChargeNearPrice(p: Dec, visit: seq<Bid>, caps: map<Text, nat>, a: Text)
    ensures NearPrice(Min(Get(caps, a), Asked(visit, a, p)), ChargeFor(visit, p, caps, a),
                      SumBy(Winning(visit, p, caps), One(a)), p)
  {
    if visit != [] {
      var n := |visit| - 1;
      ChargeNearPrice(p, visit[..n], caps, a);
      ShareAdds(visit, p, caps, a);
      ChargeAdds(visit, p, caps, a);
      WinAdds(visit, p, caps, a);
      if visit[n].bidder == a {
        NearPriceStep(Min(Get(caps, a), Asked(visit[..n], a, p)), ChargeFor(visit[..n], p, caps, a),
          SumBy(Winning(visit[..n], p, caps), One(a)), Share(visit, n, p, caps), p);
      }
    }
  }
}

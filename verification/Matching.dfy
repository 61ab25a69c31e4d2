/**
  * Uniform-price matching of a batch auction at one candidate price (types/match.go) over the
  * bids grouped by price level (types/utils.go).
  */
module Matching {
  import opened Types
  import opened Sums
  import opened Rounding

  datatype BidderMatch = BidderMatch(paying: nat, matched: nat)

  datatype MatchResult = MatchResult(
    price: Option<Dec>, amount: nat, bids: seq<Bid>, byBidder: map<Text, BidderMatch>)

  // ----- Price levels

  predicate Descending(prices: seq<Dec>) {
    forall i, j :: 0 <= i < j < |prices| ==> prices[i] > prices[j]
  }

  function Lookup(byPrice: map<Dec, seq<Bid>>, price: Dec): seq<Bid> {
    if price in byPrice then byPrice[price] else []
  }

  /** The bids grouped by price, each group in the order of `bids`. */
  function Book(bids: seq<Bid>): map<Dec, seq<Bid>> {
    if bids == [] then map[] else
      var m, b := Book(bids[..|bids| - 1]), bids[|bids| - 1];
      m[b.price := Lookup(m, b.price) + [b]]
  }

  function InsertDescending(prices: seq<Dec>, p: Dec): seq<Dec> {
    if prices == [] || prices[0] < p then [p] + prices
    else if prices[0] == p then prices
    else [prices[0]] + InsertDescending(prices[1..], p)
  }

  /** The distinct prices of `bids`, highest first. */
  function Levels(bids: seq<Bid>): seq<Dec> {
    if bids == [] then [] else InsertDescending(Levels(bids[..|bids| - 1]), bids[|bids| - 1].price)
  }

  lemma ConsDescending(p: Dec, prices: seq<Dec>)
    requires Descending(prices)
    requires forall q :: q in prices ==> q < p
    ensures Descending([p] + prices)
  {
    assert forall i :: 0 <= i < |prices| ==> prices[i] in prices;
  }

  lemma {:induction false} InsertDescendingSorts(prices: seq<Dec>, p: Dec)
    requires Descending(prices)
    ensures Descending(InsertDescending(prices, p))
    ensures forall q :: q in InsertDescending(prices, p) <==> q in prices || q == p
  {
    if prices == [] || prices[0] < p {
    } else if prices[0] == p {
    } else {
      InsertDescendingSorts(prices[1..], p);
      assert forall q :: q in prices <==> q == prices[0] || q in prices[1..];
      var rest := InsertDescending(prices[1..], p);
      ConsDescending(prices[0], rest);
    }
  }

  lemma {:induction false} LevelsSorted(bids: seq<Bid>)
    ensures Descending(Levels(bids))
    ensures forall p :: p in Levels(bids) <==> exists b :: b in bids && b.price == p
  {
    if bids != [] {
      var n, x := |bids| - 1, bids[|bids| - 1];
      LevelsSorted(bids[..n]);
      InsertDescendingSorts(Levels(bids[..n]), x.price);
      assert bids == bids[..n] + [x];
      forall p ensures p in Levels(bids) <==> exists b :: b in bids && b.price == p {
        if p == x.price {
          assert x in bids;
        } else {
          assert forall b :: b in bids && b.price == p ==> b in bids[..n];
        }
      }
    }
  }

  lemma HeadIn(ps: seq<Dec>)
    ensures ps != [] ==> ps[0] in ps
  {
  }

  /** A descending list is determined by its members, so sorting the distinct prices has one outcome. */
  lemma {:induction false} DescendingUnique(ps: seq<Dec>, qs: seq<Dec>)
    requires Descending(ps) && Descending(qs)
    requires forall p :: p in ps <==> p in qs
    ensures ps == qs
  {
    HeadIn(ps);
    HeadIn(qs);
    if ps != [] && qs != [] {
      assert ps[0] in qs;
      assert qs[0] in ps;
      assert ps[0] == qs[0];
      forall p ensures p in ps[1..] <==> p in qs[1..] {
        assert p in ps <==> p == ps[0] || p in ps[1..];
        assert p in qs <==> p == qs[0] || p in qs[1..];
      }
      DescendingUnique(ps[1..], qs[1..]);
    }
  }

  /** The bids `Match` visits: level by level from the highest price, stopping below `p`. */
  function Visit(p: Dec, prices: seq<Dec>, byPrice: map<Dec, seq<Bid>>): seq<Bid> {
    if prices == [] || prices[0] < p then []
    else Lookup(byPrice, prices[0]) + Visit(p, prices[1..], byPrice)
  }

  function Visited(p: Dec, bids: seq<Bid>): seq<Bid> {
    Visit(p, Levels(bids), Book(bids))
  }

  function AtPrice(p: Dec, f: Bid -> nat): Bid -> nat {
    (b: Bid) => if b.price == p then f(b) else 0
  }

  function Above(p: Dec, f: Bid -> nat): Bid -> nat {
    (b: Bid) => if b.price >= p then f(b) else 0
  }

  function Within(p: Dec, prices: seq<Dec>, f: Bid -> nat): Bid -> nat {
    (b: Bid) => if b.price in prices && b.price >= p then f(b) else 0
  }

  lemma {:induction false} BookLevel(bids: seq<Bid>, p: Dec, f: Bid -> nat)
    ensures SumBy(Lookup(Book(bids), p), f) == SumBy(bids, AtPrice(p, f))
    ensures forall b :: b in Lookup(Book(bids), p) <==> b in bids && b.price == p
  {
    if bids != [] {
      var n, x := |bids| - 1, bids[|bids| - 1];
      BookLevel(bids[..n], p, f);
      assert bids == bids[..n] + [x];
      SumSnoc(Lookup(Book(bids[..n]), p), x, f);
    }
  }

  lemma {:induction false} VisitSum(p: Dec, prices: seq<Dec>, bids: seq<Bid>, f: Bid -> nat)
    requires Descending(prices)
    ensures SumBy(Visit(p, prices, Book(bids)), f) == SumBy(bids, Within(p, prices, f))
  {
    if prices == [] || prices[0] < p {
      SumZero(bids, Within(p, prices, f));
    } else {
      VisitSum(p, prices[1..], bids, f);
      SumConcat(Lookup(Book(bids), prices[0]), Visit(p, prices[1..], Book(bids)), f);
      BookLevel(bids, prices[0], f);
      assert forall q :: q in prices <==> q == prices[0] || q in prices[1..];
      SumAdd(bids, AtPrice(prices[0], f), Within(p, prices[1..], f), Within(p, prices, f));
    }
  }

  /** Grouping and sorting lose and repeat nothing: a sum over the visited bids is one over the bids at or above `p`. */
  lemma VisitedSum(p: Dec, bids: seq<Bid>, f: Bid -> nat)
    ensures SumBy(Visited(p, bids), f) == SumBy(bids, Above(p, f))
  {
    LevelsSorted(bids);
    VisitSum(p, Levels(bids), bids, f);
    forall i | 0 <= i < |bids| ensures Within(p, Levels(bids), f)(bids[i]) == Above(p, f)(bids[i]) {
      assert bids[i] in bids;
    }
    SumSame(bids, bids, Within(p, Levels(bids), f), Above(p, f));
  }

  lemma {:induction false} VisitMembers(p: Dec, prices: seq<Dec>, bids: seq<Bid>)
    requires Descending(prices)
    ensures forall b :: b in Visit(p, prices, Book(bids)) <==> b in bids && b.price in prices && b.price >= p
  {
    if prices != [] {
      assert forall q :: q in prices <==> q == prices[0] || q in prices[1..];
      if prices[0] >= p {
        VisitMembers(p, prices[1..], bids);
        BookLevel(bids, prices[0], _ => 0);
      }
    }
  }

  lemma VisitedMembers(p: Dec, bids: seq<Bid>)
    ensures forall b :: b in Visited(p, bids) <==> b in bids && b.price >= p
  {
    LevelsSorted(bids);
    VisitMembers(p, Levels(bids), bids);
  }

  /** `types.BidsByPrice`, after `SortBids` left the bids in the order `bids`. */
  method BidsByPrice(bids: seq<Bid>) returns (prices: seq<Dec>, byPrice: map<Dec, seq<Bid>>)
    ensures prices == Levels(bids) && byPrice == Book(bids)
  {
    byPrice := map[];
    for i := 0 to |bids|
      invariant byPrice == Book(bids[..i])
    {
      var b := bids[i];
      assert bids[..i + 1][..i] == bids[..i];
      byPrice := byPrice[b.price := Lookup(byPrice, b.price) + [b]];
    }
    assert bids[..|bids|] == bids;
    prices := SortDescending(byPrice.Keys);
    LevelsSorted(bids);
    BookKeys(bids);
    DescendingUnique(prices, Levels(bids));
  }

  lemma {:induction false} BookKeys(bids: seq<Bid>)
    ensures forall p :: p in Book(bids) <==> exists b :: b in bids && b.price == p
  {
    if bids != [] {
      var n, x := |bids| - 1, bids[|bids| - 1];
      BookKeys(bids[..n]);
      assert bids == bids[..n] + [x];
      forall p ensures p in Book(bids) <==> exists b :: b in bids && b.price == p {
        if p == x.price {
          assert x in bids;
        } else {
          assert forall b :: b in bids && b.price == p ==> b in bids[..n];
        }
      }
    }
  }

  /** Stands for sorting the map's keys with a library sort. */
  method SortDescending(keys: set<Dec>) returns (prices: seq<Dec>)
    ensures Descending(prices)
    ensures forall p :: p in prices <==> p in keys
  {
    prices := [];
    var todo := keys;
    while todo != {}
      invariant todo <= keys
      invariant Descending(prices)
      invariant forall p :: p in prices <==> p in keys - todo
    {
      var p :| p in todo;
      ghost var sofar := prices;
      InsertDescendingSorts(sofar, p);
      prices := InsertDescending(prices, p);
      todo := todo - {p};
    }
  }

  // ----- Filling the visited bids

  /** What a bid asks for when every unit costs `p`. */
  function AmountAt(b: Bid, p: Dec): nat {
    match b.typ
    case BatchWorth => ToSelling(b.coin.amount, p)
    case BatchMany => b.coin.amount
    case FixedPrice => 0
  }

  function Amount(p: Dec): Bid -> nat {
    (b: Bid) => AmountAt(b, p)
  }

  /** The running state of `Match`: what each bidder may still take, and what was taken so far. */
  datatype Tally = Tally(left: map<Text, nat>, total: nat, bids: seq<Bid>, byBidder: map<Text, BidderMatch>)

  function Take(p: Dec, t: Tally, b: Bid): Tally {
    var amount := Min(AmountAt(b, p), Get(t.left, b.bidder));
    var prev := if b.bidder in t.byBidder then t.byBidder[b.bidder] else BidderMatch(0, 0);
    var byBidder := t.byBidder[b.bidder := BidderMatch(prev.paying + ToPaying(amount, p), prev.matched + amount)];
    if amount > 0 then
      Tally(t.left[b.bidder := Get(t.left, b.bidder) - amount], t.total + amount, t.bids + [b], byBidder)
    else
      t.(byBidder := byBidder)
  }

  function Fill(p: Dec, visit: seq<Bid>, caps: map<Text, nat>): Tally {
    if visit == [] then Tally(caps, 0, [], map[])
    else Take(p, Fill(p, visit[..|visit| - 1], caps), visit[|visit| - 1])
  }

  function ResultOf(p: Dec, t: Tally): MatchResult {
    MatchResult(Some(p), t.total, t.bids, t.byBidder)
  }

  lemma {:induction false} FillMono(p: Dec, visit: seq<Bid>, caps: map<Text, nat>, k: nat)
    requires k <= |visit|
    ensures Fill(p, visit[..k], caps).total <= Fill(p, visit, caps).total
  {
    if k == |visit| {
      assert visit[..k] == visit;
    } else {
      FillMono(p, visit[..|visit| - 1], caps, k);
      assert visit[..|visit| - 1][..k] == visit[..k];
    }
  }

  lemma {:induction false} FillSomething(p: Dec, visit: seq<Bid>, caps: map<Text, nat>)
    ensures Fill(p, visit, caps).total == 0 <==> Fill(p, visit, caps).bids == []
  {
    if visit != [] {
      FillSomething(p, visit[..|visit| - 1], caps);
    }
  }

  /**
    * The walk over `visit` comes, before the supply is exceeded, to a bid under a text that is on no allowed entry.
    * The bidder's amount is then missing, and taking the minimum with it panics.
    */
  ghost predicate MeetsStranger(p: Dec, visit: seq<Bid>, caps: map<Text, nat>, supply: nat) {
    exists k :: 0 <= k < |visit| && visit[k].bidder !in caps && Fill(p, visit[..k], caps).total <= supply
  }

  predicate CapsKnown(bids: seq<Bid>, caps: map<Text, nat>) {
    forall i :: 0 <= i < |bids| ==> bids[i].bidder in caps
  }

  lemma KnownMeetNoStranger(p: Dec, visit: seq<Bid>, caps: map<Text, nat>, supply: nat)
    requires CapsKnown(visit, caps)
    ensures !MeetsStranger(p, visit, caps, supply)
  {
  }

  /** What is met early is met in the end, and once the supply is exceeded nobody else is met. */
  lemma StrangerInPrefix(p: Dec, done: seq<Bid>, all: seq<Bid>, caps: map<Text, nat>, supply: nat)
    requires done <= all
    ensures MeetsStranger(p, done, caps, supply) ==> MeetsStranger(p, all, caps, supply)
    ensures Fill(p, done, caps).total > supply ==>
              (MeetsStranger(p, all, caps, supply) ==> MeetsStranger(p, done, caps, supply))
  {
    if k :| 0 <= k < |done| && done[k].bidder !in caps && Fill(p, done[..k], caps).total <= supply {
      assert all[..k] == done[..k];
    }
    if k :| 0 <= k < |all| && all[k].bidder !in caps && Fill(p, all[..k], caps).total <= supply {
      if k < |done| {
        assert all[..k] == done[..k];
      } else {
        FillPrefix(p, done, all[..k], caps);
      }
    }
  }

  lemma WalkEnds(p: Dec, done: seq<Bid>, all: seq<Bid>, caps: map<Text, nat>, supply: nat)
    requires done <= all && (MeetsStranger(p, done, caps, supply) || Fill(p, done, caps).total > supply)
    ensures MeetsStranger(p, all, caps, supply) <==> MeetsStranger(p, done, caps, supply)
    ensures !MeetsStranger(p, done, caps, supply) ==> Fill(p, all, caps).total > supply
  {
    StrangerInPrefix(p, done, all, caps, supply);
    FillPrefix(p, done, all, caps);
  }

  predicate NoFixedPrice(bids: seq<Bid>) {
    forall i :: 0 <= i < |bids| ==> bids[i].typ != FixedPrice
  }

  /** The walk before its `i`-th level: it has met the bids `done` and no stranger among them. */
  ghost predicate Walked(p: Dec, prices: seq<Dec>, byPrice: map<Dec, seq<Bid>>, i: nat, done: seq<Bid>,
                         caps: map<Text, nat>)
  {
    && i <= |prices|
    && Visit(p, prices, byPrice) == done + Visit(p, prices[i..], byPrice)
    && CapsKnown(done, caps)
  }

  lemma WalkStep(p: Dec, prices: seq<Dec>, byPrice: map<Dec, seq<Bid>>, i: nat, done: seq<Bid>, caps: map<Text, nat>)
    requires Walked(p, prices, byPrice, i, done, caps) && i < |prices| && prices[i] >= p
    ensures var done' := done + Lookup(byPrice, prices[i]);
            && done' <= Visit(p, prices, byPrice)
            && (CapsKnown(done', caps) ==> Walked(p, prices, byPrice, i + 1, done', caps))
    ensures NoFixedPrice(Visit(p, prices, byPrice)) ==> NoFixedPrice(Lookup(byPrice, prices[i]))
  {
    assert prices[i..][1..] == prices[i + 1..];
    var all, level := Visit(p, prices, byPrice), Lookup(byPrice, prices[i]);
    assert all == (done + level) + Visit(p, prices[i + 1..], byPrice);
    assert forall j :: 0 <= j < |level| ==> level[j] == all[|done| + j];
  }

  /** The walk that met no stranger and did not exceed the supply has met every bid. */
  lemma WalkComplete(p: Dec, prices: seq<Dec>, byPrice: map<Dec, seq<Bid>>, i: nat, done: seq<Bid>,
                     caps: map<Text, nat>, supply: nat)
    requires Walked(p, prices, byPrice, i, done, caps) && (i < |prices| ==> prices[i] < p)
    ensures var all := Visit(p, prices, byPrice);
            && all == done && !MeetsStranger(p, all, caps, supply)
            && (Fill(p, all, caps).total > 0 <==> Fill(p, all, caps).bids != [])
  {
    assert Visit(p, prices[i..], byPrice) == [];
    assert Visit(p, prices, byPrice) == done;
    FillSomething(p, done, caps);
  }

  /**
    * `types.Match`. The walk gives up as soon as the supply would be exceeded; the contract says that this
    * loses nothing, since the complete tally would exceed it as well. It panics exactly on meeting a stranger.
    */
  method Match(p: Dec, prices: seq<Dec>, byPrice: map<Dec, seq<Bid>>, sellingAmt: nat, caps: map<Text, nat>)
    returns (res: MatchResult, matched: bool, panicked: bool)
    requires 0 < p && NoFixedPrice(Visit(p, prices, byPrice))
    ensures panicked <==> MeetsStranger(p, Visit(p, prices, byPrice), caps, sellingAmt)
    ensures var t := Fill(p, Visit(p, prices, byPrice), caps);
            && (!panicked ==> (matched <==> 0 < t.total <= sellingAmt))
            && (matched ==> !panicked && res == ResultOf(p, t))
  {
    ghost var done: seq<Bid> := [];
    var t := Tally(caps, 0, [], map[]);
    res, matched, panicked := ResultOf(p, t), false, false;
    var i := 0;
    while i < |prices| && prices[i] >= p
      invariant Walked(p, prices, byPrice, i, done, caps)
      invariant t == Fill(p, done, caps) && t.total <= sellingAmt && !panicked
    {
      var level := Lookup(byPrice, prices[i]);
      WalkStep(p, prices, byPrice, i, done, caps);
      var exceeded;
      t, exceeded, panicked := MatchLevel(p, level, sellingAmt, t, done, caps);
      done := done + level;
      if panicked || exceeded {
        WalkEnds(p, done, Visit(p, prices, byPrice), caps, sellingAmt);
        return;
      }
      i := i + 1;
    }
    WalkComplete(p, prices, byPrice, i, done, caps, sellingAmt);
    res, matched := ResultOf(p, t), t.bids != [];
  }

  lemma FillPrefix(p: Dec, done: seq<Bid>, all: seq<Bid>, caps: map<Text, nat>)
    requires done <= all
    ensures Fill(p, done, caps).total <= Fill(p, all, caps).total
  {
    assert all[..|done|] == done;
    FillMono(p, all, caps, |done|);
  }

  /** The loop over one level's bids, entered after the bids `done`. */
  method MatchLevel(p: Dec, level: seq<Bid>, sellingAmt: nat, t: Tally, ghost done: seq<Bid>, caps: map<Text, nat>)
    returns (t': Tally, exceeded: bool, panicked: bool)
    requires t == Fill(p, done, caps) && t.total <= sellingAmt && CapsKnown(done, caps)
    requires NoFixedPrice(level)
    ensures panicked <==> MeetsStranger(p, done + level, caps, sellingAmt)
    ensures !panicked ==> (exceeded <==> Fill(p, done + level, caps).total > sellingAmt)
    ensures !panicked && !exceeded ==> t' == Fill(p, done + level, caps) && CapsKnown(done + level, caps)
  {
    t', exceeded, panicked := t, false, false;
    assert done + level[..0] == done;
    for j := 0 to |level|
      invariant !exceeded && !panicked && CapsKnown(done + level[..j], caps)
      invariant t' == Fill(p, done + level[..j], caps) && t'.total <= sellingAmt
    {
      FillLevelStep(p, done, level, j, caps);
      t', exceeded, panicked := MatchBid(p, level[j], sellingAmt, t');
      LevelStranger(p, done, level, j, caps, sellingAmt);
      if panicked || exceeded {
        return;
      }
    }
    assert level[..|level|] == level;
    KnownMeetNoStranger(p, done + level, caps, sellingAmt);
  }

  /** Whether a stranger is met, decided at the bid that ends the walk. */
  lemma LevelStranger(p: Dec, done: seq<Bid>, level: seq<Bid>, j: nat, caps: map<Text, nat>, supply: nat)
    requires j < |level| && CapsKnown(done + level[..j], caps) && Fill(p, done + level[..j], caps).total <= supply
    ensures level[j].bidder !in caps ==> MeetsStranger(p, done + level, caps, supply)
    ensures level[j].bidder in caps ==> CapsKnown(done + level[..j + 1], caps)
    ensures level[j].bidder in caps && Fill(p, done + level[..j + 1], caps).total > supply ==>
              !MeetsStranger(p, done + level, caps, supply)
  {
    var all, n := done + level, |done| + j;
    assert all[..n] == done + level[..j] && all[n] == level[j];
    var next := done + level[..j + 1];
    assert next <= all;
    StrangerInPrefix(p, next, all, caps, supply);
    if level[j].bidder in caps {
      assert CapsKnown(next, caps) by {
        forall i | 0 <= i < |next| ensures next[i].bidder in caps {
          if i < n { assert next[i] == (done + level[..j])[i]; }
        }
      }
      KnownMeetNoStranger(p, next, caps, supply);
    }
  }

  lemma FillSnoc(p: Dec, visit: seq<Bid>, b: Bid, caps: map<Text, nat>)
    ensures Fill(p, visit + [b], caps) == Take(p, Fill(p, visit, caps), b)
  {
    assert (visit + [b])[..|visit|] == visit;
  }

  lemma FillLevelStep(p: Dec, done: seq<Bid>, level: seq<Bid>, j: nat, caps: map<Text, nat>)
    requires j < |level|
    ensures Fill(p, done + level[..j + 1], caps) == Take(p, Fill(p, done + level[..j], caps), level[j])
    ensures Fill(p, done + level[..j], caps).left.Keys == caps.Keys
    ensures Fill(p, done + level[..j + 1], caps).total <= Fill(p, done + level, caps).total
  {
    assert done + level[..j + 1] == (done + level[..j]) + [level[j]];
    FillSnoc(p, done + level[..j], level[j], caps);
    FillKeys(p, done + level[..j], caps);
    assert done + level[..j + 1] <= done + level;
    FillPrefix(p, done + level[..j + 1], done + level, caps);
  }

  /** The body of the loop over one level's bids; the minimum with a missing amount panics. */
  method MatchBid(p: Dec, bid: Bid, sellingAmt: nat, t: Tally) returns (t': Tally, exceeded: bool, panicked: bool)
    requires bid.typ != FixedPrice
    ensures panicked <==> bid.bidder !in t.left
    ensures !panicked ==> (exceeded <==> Take(p, t, bid).total > sellingAmt)
    ensures t' == if panicked || exceeded then t else Take(p, t, bid)
  {
    t', exceeded, panicked := t, false, false;
    var bidAmt := if bid.typ == BatchWorth then ToSelling(bid.coin.amount, p) else bid.coin.amount;
    if bid.bidder !in t.left {
      panicked := true;
      return;
    }
    var biddable := t.left[bid.bidder];
    var matchAmt := Min(bidAmt, biddable);
    if t.total + matchAmt > sellingAmt {
      exceeded := true;
      return;
    }
    var bidderRes := if bid.bidder in t.byBidder then t.byBidder[bid.bidder] else BidderMatch(0, 0);
    bidderRes := bidderRes.(matched := bidderRes.matched + matchAmt);
    bidderRes := bidderRes.(paying := bidderRes.paying + ToPaying(matchAmt, p));
    t' := t'.(byBidder := t.byBidder[bid.bidder := bidderRes]);
    if matchAmt > 0 {
      t' := t'.(left := t.left[bid.bidder := biddable - matchAmt], bids := t.bids + [bid], total := t.total + matchAmt);
    }
  }

  lemma {:induction false} FillKeys(p: Dec, visit: seq<Bid>, caps: map<Text, nat>)
    ensures Fill(p, visit, caps).left.Keys == caps.Keys
    ensures forall a :: a in Fill(p, visit, caps).byBidder <==> exists b :: b in visit && b.bidder == a
  {
    if visit != [] {
      var n, x := |visit| - 1, visit[|visit| - 1];
      FillKeys(p, visit[..n], caps);
      assert visit == visit[..n] + [x];
      forall a ensures a in Fill(p, visit, caps).byBidder <==> exists b :: b in visit && b.bidder == a {
        if a == x.bidder {
          assert x in visit;
        } else {
          assert forall b :: b in visit && b.bidder == a ==> b in visit[..n];
        }
      }
    }
  }
}

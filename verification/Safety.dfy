/**
  * Solvency: in every reachable state each reserve account covers what it owes, so no transfer of a block ever fails.
  * With `exact` the same invariant says that the reserves hold precisely what they owe, which is so as long as
  * nobody sends coins to a reserve account from outside.
  */
module Safety {
  import opened Types
  import opened Sums
  import opened Rounding
  import opened Matching
  import opened Demand
  import opened Bank
  import opened Vesting
  import opened Auctions

  // ----- The invariant

  function OwedSelling(l: Listing): nat {
    if l.auction.status in {StandBy, Started} then l.auction.sellingCoin.amount else 0
  }

  function OwedPaying(l: Listing): nat {
    if l.auction.status == Started then SumBy(l.bids, Paying(l.auction.payingDenom)) else 0
  }

  function OwedVesting(l: Listing): nat {
    if l.auction.status == InVesting then QueueSum(l.queues, Unreleased) else 0
  }

  predicate Covers(have: nat, owed: nat, exact: bool) {
    owed <= have && (exact ==> have == owed)
  }

  predicate Backed(b: Bank, l: Listing, exact: bool) {
    var a := l.auction;
    && Covers(Bal(b, Reserve(SellingReserve, a.id), a.sellingCoin.denom), OwedSelling(l), exact)
    && Covers(Bal(b, Reserve(PayingReserve, a.id), a.payingDenom), OwedPaying(l), exact)
    && Covers(Bal(b, Reserve(VestingReserve, a.id), a.payingDenom), OwedVesting(l), exact)
  }

  predicate TermsOk(a: Auction) {
    && a.sellingCoin.denom != a.payingDenom
    && 0 < a.startPrice
    && 0 < a.sellingCoin.amount
    && 0 < |a.endTimes|
    && SchedulesValid(a.schedules, a.endTimes[0])
    && (forall i, j :: 0 <= i <= j < |a.endTimes| ==> a.endTimes[i] <= a.endTimes[j])
    && match a.kind
       case FixedPriceAuction(_) => |a.endTimes| == 1
       case BatchAuction(minPrice, rounds, rate) => 0 < minPrice && 0 < rate && |a.endTimes| <= rounds + 1
  }

  predicate BidOk(a: Auction, b: Bid) {
    if a.kind.BatchAuction? then BatchBid(b, a.payingDenom)
    else b.typ == FixedPrice && b.price == a.startPrice
  }

  predicate BidsOk(l: Listing) {
    forall i :: 0 <= i < |l.bids| ==>
      && l.bids[i].id == i + 1 && l.bids[i].auctionId == l.auction.id
      && ValidAddr(l.bids[i].bidder.addr) && l.bids[i].bidder.addr in l.allowed && BidOk(l.auction, l.bids[i])
  }

  /** One queue per schedule once the auction is closed; it is finished exactly when all of them are released. */
  predicate QueuesOk(l: Listing) {
    var a := l.auction;
    if a.status in {InVesting, Finished} then
      && |l.queues| == |a.schedules|
      && (forall i :: 0 <= i < |l.queues| ==> l.queues[i].releaseTime == a.schedules[i].releaseTime)
      && (forall i, j :: 0 <= i < j < |l.queues| && l.queues[j].released ==> l.queues[i].released)
      && (a.status == Finished <==> forall i :: 0 <= i < |l.queues| ==> l.queues[i].released)
    else l.queues == []
  }

  /** Coins left for sale and coins sold are together what was offered. */
  predicate RemainingOk(l: Listing) {
    l.auction.kind.FixedPriceAuction? && l.auction.status != Cancelled ==>
      l.auction.kind.remaining + SumBy(l.bids, Selling(l.auction.payingDenom)) == l.auction.sellingCoin.amount
  }

  predicate Shape(l: Listing, id: nat) {
    && l.auction.id == id
    && TermsOk(l.auction)
    && BidsOk(l)
    && QueuesOk(l)
    && RemainingOk(l)
    && (l.auction.status in {StandBy, Cancelled} ==> l.bids == [])
  }

  ghost predicate NothingAhead(b: Bank, n: nat) {
    forall x: Account, d {:trigger Bal(b, x, d)} :: x.Reserve? && x.auction > n ==> Bal(b, x, d) == 0
  }

  ghost predicate Inv(s: State, exact: bool) {
    && (forall i :: 0 <= i < |s.listings| ==> Shape(s.listings[i], i + 1) && Backed(s.bank, s.listings[i], exact))
    && (exact ==> NothingAhead(s.bank, |s.listings|))
  }

  // ----- Framing: what one auction does leaves the others' reserves alone

  ghost predicate OthersKept(b: Bank, b': Bank, id: nat) {
    forall x: Account, d {:trigger Bal(b', x, d)} :: x.Reserve? && x.auction != id ==> Bal(b', x, d) == Bal(b, x, d)
  }

  lemma UpdateKeepsInv(s: State, b': Bank, i: nat, l': Listing, exact: bool)
    requires Inv(s, exact) && i < |s.listings|
    requires OthersKept(s.bank, b', i + 1) && Shape(l', i + 1) && Backed(b', l', exact)
    ensures Inv(s.(bank := b', listings := s.listings[i := l']), exact)
  {
    forall j | 0 <= j < |s.listings| && j != i ensures Backed(b', s.listings[j], exact) {
      assert Shape(s.listings[j], j + 1);
    }
  }

  // ----- Messages

  lemma AppendKeepsInv(s: State, b': Bank, l: Listing, exact: bool)
    requires Inv(s, exact) && OthersKept(s.bank, b', |s.listings| + 1)
    requires Shape(l, |s.listings| + 1) && Backed(b', l, exact)
    ensures Inv(s.(bank := b', listings := s.listings + [l]), exact)
  {
    forall j | 0 <= j < |s.listings| ensures Backed(b', s.listings[j], exact) {
      assert Shape(s.listings[j], j + 1);
    }
  }

  /** A create message is accepted as valid exactly when it would open an auction with sound terms, and in order. */
  lemma ValidCreateIff(m: CreateMsg, id: nat, now: Time)
    ensures CreateBasic(m).Ok?
       <==> ValidAddr(m.auctioneer) && m.startTime < m.endTime && TermsOk(NewListing(m, id, now).auction)
  {
  }

  lemma NewListingShape(m: CreateMsg, id: nat, now: Time)
    requires CreateBasic(m).Ok?
    ensures Shape(NewListing(m, id, now), id)
  {
  }

  /** The fee leaves the reserves alone, and the offered coins then back the new auction. */
  lemma OfferReserved(b: Bank, b1: Bank, b2: Bank, m: CreateMsg, id: nat, now: Time, exact: bool)
    requires 0 < id && (exact ==> NothingAhead(b, id - 1)) && m.sellingCoin.denom != m.payingDenom
    requires forall x: Account, d {:trigger Bal(b1, x, d)} :: x.Reserve? ==> Bal(b1, x, d) == Bal(b, x, d)
    requires var src, dst := User(m.auctioneer), Reserve(SellingReserve, id);
             Send(b1, src, dst, m.sellingCoin.denom, m.sellingCoin.amount) == Ok(b2)
    ensures Backed(b2, NewListing(m, id, now), exact) && OthersKept(b, b2, id)
  {
  }

  lemma CreateKeepsInv(s: State, m: CreateMsg, exact: bool)
    requires Inv(s, exact) && CreateAuction(s, m).Ok?
    ensures Inv(CreateAuction(s, m).value, exact) && Conserves(s.bank, CreateAuction(s, m).value.bank)
  {
    var id, from, fee := |s.listings| + 1, User(m.auctioneer), s.params.creationFee;
    var b1, b2 := SendAll(s.bank, from, CommunityPool, fee).value, CreateAuction(s, m).value.bank;
    SendAllEffect(s.bank, from, CommunityPool, fee);
    SendConserves(b1, from, Reserve(SellingReserve, id), m.sellingCoin.denom, m.sellingCoin.amount);
    NewListingShape(m, id, s.now);
    OfferReserved(s.bank, b1, b2, m, id, s.now, exact);
    AppendKeepsInv(s, b2, NewListing(m, id, s.now), exact);
  }

  lemma CancelledListing(b: Bank, l: Listing, id: nat, kind: Kind, exact: bool)
    requires Shape(l, id) && Backed(b, l, exact) && l.auction.status == StandBy
    requires kind == if l.auction.kind.FixedPriceAuction? then FixedPriceAuction(0) else l.auction.kind
    ensures var l' := l.(auction := l.auction.(kind := kind, status := Cancelled));
            var b' := SendRest(b, Reserve(SellingReserve, id), User(l.auction.auctioneer), l.auction.sellingCoin.denom);
            Shape(l', id) && Backed(b', l', exact) && OthersKept(b, b', id) && Conserves(b, b')
  {
    var src, d := Reserve(SellingReserve, id), l.auction.sellingCoin.denom;
    SendConserves(b, src, User(l.auction.auctioneer), d, Bal(b, src, d));
  }

  lemma CancelKeepsInv(s: State, auctioneer: Text, id: nat, exact: bool)
    requires Inv(s, exact) && CancelAuction(s, auctioneer, id).Ok?
    ensures Inv(CancelAuction(s, auctioneer, id).value, exact)
    ensures Conserves(s.bank, CancelAuction(s, auctioneer, id).value.bank)
  {
    var s', l := CancelAuction(s, auctioneer, id).value, s.listings[id - 1];
    assert Shape(l, id);
    CancelledListing(s.bank, l, id, s'.listings[id - 1].auction.kind, exact);
    UpdateKeepsInv(s, s'.bank, id - 1, s'.listings[id - 1], exact);
  }

  lemma {:induction false} AllowGrows(allowed: map<Addr, Allowance>, supply: nat, bidders: seq<AllowedBidder>, k: nat)
    requires k <= |bidders| && Allow(allowed, supply, bidders, k).Ok?
    ensures allowed.Keys <= Allow(allowed, supply, bidders, k).value.Keys
  {
    if k > 0 {
      AllowGrows(allowed, supply, bidders, k - 1);
    }
  }

  lemma AllowKeepsInv(s: State, id: nat, allowed: map<Addr, Allowance>, exact: bool)
    requires Inv(s, exact) && 1 <= id <= |s.listings|
    requires s.listings[id - 1].allowed.Keys <= allowed.Keys
    ensures Inv(s.(listings := s.listings[id - 1 := s.listings[id - 1].(allowed := allowed)]), exact)
  {
    var l := s.listings[id - 1];
    assert Shape(l, id);
    UpdateKeepsInv(s, s.bank, id - 1, l.(allowed := allowed), exact);
  }

  lemma AddAllowedKeepsInv(s: State, id: nat, bidders: seq<AllowedBidder>, exact: bool)
    requires Inv(s, exact) && AllowBidders(s, id, bidders).Ok?
    ensures Inv(AllowBidders(s, id, bidders).value, exact)
  {
    var l := s.listings[id - 1];
    var allowed := Allow(l.allowed, l.auction.sellingCoin.amount, bidders, |bidders|).value;
    AllowGrows(l.allowed, l.auction.sellingCoin.amount, bidders, |bidders|);
    AllowKeepsInv(s, id, allowed, exact);
  }

  lemma UpdateAllowedKeepsInv(s: State, id: nat, bidder: Addr, maxBidAmount: int, exact: bool)
    requires Inv(s, exact) && UpdateBidder(s, id, bidder, maxBidAmount).Ok?
    ensures Inv(UpdateBidder(s, id, bidder, maxBidAmount).value, exact)
  {
    AllowKeepsInv(s, id, UpdateBidder(s, id, bidder, maxBidAmount).value.listings[id - 1].allowed, exact);
  }

  lemma BidsOkSnoc(l: Listing, l': Listing, b: Bid)
    requires BidsOk(l) && l'.bids == l.bids + [b] && l'.allowed == l.allowed
    requires l'.auction == l.auction.(kind := l'.auction.kind)
    requires l'.auction.kind.BatchAuction? == l.auction.kind.BatchAuction?
    requires b.id == |l.bids| + 1 && b.auctionId == l.auction.id && BidOk(l.auction, b)
    requires ValidAddr(b.bidder.addr) && b.bidder.addr in l.allowed
    ensures BidsOk(l')
  {
  }

  /** What storing an accepted bid does to the listing. */
  lemma AddBidStores(books: seq<seq<Bid>>, l: Listing, bid: Bid)
    requires CheckBid(books, l, bid).Ok? && 0 < bid.price && l.auction.sellingCoin.denom != l.auction.payingDenom
    ensures var d, l' := l.auction.payingDenom, AddBid(l, bid);
            var stored := bid.(isMatched := bid.typ == FixedPrice || bid.isMatched);
            && l' == l.(auction := l.auction.(kind := l'.auction.kind), bids := l.bids + [stored])
            && BidOk(l.auction, stored) && (bid.typ == FixedPrice <==> l.auction.kind.FixedPriceAuction?)
            && (if l.auction.kind.BatchAuction? then l'.auction.kind == l.auction.kind
                else SellingAmount(bid, d) <= l.auction.kind.remaining
                     && l'.auction.kind == FixedPriceAuction(l.auction.kind.remaining - SellingAmount(bid, d)))
  {
  }

  /**
    * An accepted batch bid is of the type and denom that a match expects, and asks at its own price, in the match's
    * terms, for no more than the bidder's cap; so a match at that price never cuts it alone.
    */
  lemma AcceptedBidWithinCap(books: seq<seq<Bid>>, l: Listing, bid: Bid)
    requires CheckBid(books, l, bid).Ok? && l.auction.kind.BatchAuction?
    requires 0 < bid.price && l.auction.sellingCoin.denom != l.auction.payingDenom
    ensures BatchBid(bid, l.auction.payingDenom) && AmountAt(bid, bid.price) <= MaxFor(l.allowed, bid.bidder.addr)
  {
  }

  lemma AddBidShape(books: seq<seq<Bid>>, l: Listing, id: nat, bid: Bid)
    requires Shape(l, id) && l.auction.status == Started
    requires bid.id == |l.bids| + 1 && bid.auctionId == id && 0 < bid.price
    requires ValidAddr(bid.bidder.addr) && bid.bidder.addr in l.allowed && CheckBid(books, l, bid).Ok?
    ensures Shape(AddBid(l, bid), id)
    ensures OwedPaying(AddBid(l, bid)) == OwedPaying(l) + PayingAmount(bid, l.auction.payingDenom)
  {
    var d, l' := l.auction.payingDenom, AddBid(l, bid);
    var stored := bid.(isMatched := bid.typ == FixedPrice || bid.isMatched);
    AddBidStores(books, l, bid);
    BidsOkSnoc(l, l', stored);
    SumSnoc(l.bids, stored, Selling(d));
    SumSnoc(l.bids, stored, Paying(d));
    SameTerms(bid, stored, d);
  }

  lemma SameTerms(b: Bid, c: Bid, d: Denom)
    requires c == b.(isMatched := c.isMatched)
    ensures Selling(d)(c) == SellingAmount(b, d) && Paying(d)(c) == PayingAmount(b, d)
  {
  }

  /** A started auction whose bids come to owe `n` more stays backed when `n` coins enter its paying reserve. */
  lemma PaidIn(b: Bank, b': Bank, src: Account, l: Listing, l': Listing, n: nat, exact: bool)
    requires Backed(b, l, exact) && !src.Reserve?
    requires l.auction.status == Started
    requires l'.auction == l.auction.(kind := l'.auction.kind) && OwedPaying(l') == OwedPaying(l) + n
    requires Send(b, src, Reserve(PayingReserve, l.auction.id), l.auction.payingDenom, n) == Ok(b')
    ensures Backed(b', l', exact) && OthersKept(b, b', l.auction.id) && Conserves(b, b')
  {
    SendConserves(b, src, Reserve(PayingReserve, l.auction.id), l.auction.payingDenom, n);
  }

  lemma FeePaid(b: Bank, b': Bank, payer: Addr, fee: seq<Coin>, l: Listing, exact: bool)
    requires Backed(b, l, exact) && SendAll(b, User(payer), CommunityPool, fee) == Ok(b')
    ensures Backed(b', l, exact) && OthersKept(b, b', l.auction.id) && Conserves(b, b')
  {
    SendAllEffect(b, User(payer), CommunityPool, fee);
  }

  lemma KeptTwice(b: Bank, b1: Bank, b2: Bank, id: nat)
    requires OthersKept(b, b1, id) && OthersKept(b1, b2, id) && Conserves(b, b1) && Conserves(b1, b2)
    ensures OthersKept(b, b2, id) && Conserves(b, b2)
  {
  }

  /** An accepted bid: the fee is paid, the bid's reserve moved, and the listing with the bid stored. */
  lemma AcceptedBid(b: Bank, b1: Bank, b2: Bank, books: seq<seq<Bid>>, l: Listing, id: nat, bid: Bid, fee: seq<Coin>,
                    exact: bool)
    requires Shape(l, id) && Backed(b, l, exact) && l.auction.status == Started
    requires bid.id == |l.bids| + 1 && bid.auctionId == id && 0 < bid.price
    requires ValidAddr(bid.bidder.addr) && bid.bidder.addr in l.allowed
    requires SendAll(b, User(bid.bidder.addr), CommunityPool, fee) == Ok(b1)
    requires AcceptBid(b1, books, l, bid).Ok? && AcceptBid(b1, books, l, bid).value.0 == b2
    ensures Shape(AddBid(l, bid), id) && Backed(b2, AddBid(l, bid), exact) && OthersKept(b, b2, id) && Conserves(b, b2)
  {
    FeePaid(b, b1, bid.bidder.addr, fee, l, exact);
    AddBidShape(books, l, id, bid);
    PaidIn(b1, b2, User(bid.bidder.addr), l, AddBid(l, bid), PayingAmount(bid, l.auction.payingDenom), exact);
    KeptTwice(b, b1, b2, id);
  }

  /** What an accepted place-bid message did. */
  lemma PlaceUnfold(s: State, id: nat, bidder: Text, typ: BidType, price: Dec, coin: Coin, bid: Bid)
    requires PlaceNewBid(s, id, bidder, typ, price, coin).Ok?
    requires 1 <= id <= |s.listings| && bid == Bid(id, |s.listings[id - 1].bids| + 1, bidder, typ, price, coin, false)
    ensures 0 < price && ValidAddr(bidder.addr)
    ensures var l, b1 := s.listings[id - 1], SendAll(s.bank, User(bidder.addr), CommunityPool, s.params.bidFee);
            && l.auction.status == Started && bidder.addr in l.allowed
            && b1.Ok? && AcceptBid(b1.value, Books(s.listings), l, bid).Ok?
            && PlaceNewBid(s, id, bidder, typ, price, coin).value
               == s.(bank := AcceptBid(b1.value, Books(s.listings), l, bid).value.0,
                     listings := s.listings[id - 1 := AddBid(l, bid)])
  {
  }

  lemma PlaceEffect(s: State, id: nat, bidder: Text, typ: BidType, price: Dec, coin: Coin, bid: Bid, exact: bool)
    requires PlaceNewBid(s, id, bidder, typ, price, coin).Ok? && 1 <= id <= |s.listings|
    requires bid == Bid(id, |s.listings[id - 1].bids| + 1, bidder, typ, price, coin, false)
    requires Shape(s.listings[id - 1], id) && Backed(s.bank, s.listings[id - 1], exact)
    ensures var s' := PlaceNewBid(s, id, bidder, typ, price, coin).value;
            && s' == s.(bank := s'.bank, listings := s.listings[id - 1 := AddBid(s.listings[id - 1], bid)])
            && Shape(AddBid(s.listings[id - 1], bid), id) && Backed(s'.bank, AddBid(s.listings[id - 1], bid), exact)
            && OthersKept(s.bank, s'.bank, id) && Conserves(s.bank, s'.bank)
  {
    PlaceUnfold(s, id, bidder, typ, price, coin, bid);
    AcceptedBid(s.bank, SendAll(s.bank, User(bidder.addr), CommunityPool, s.params.bidFee).value,
      PlaceNewBid(s, id, bidder, typ, price, coin).value.bank, Books(s.listings), s.listings[id - 1], id, bid,
      s.params.bidFee, exact);
  }

  lemma UpdatedInv(s: State, s': State, id: nat, l': Listing, exact: bool)
    requires Inv(s, exact) && 1 <= id <= |s.listings| && OthersKept(s.bank, s'.bank, id)
    requires s' == s.(bank := s'.bank, listings := s.listings[id - 1 := l'])
    requires Shape(l', id) && Backed(s'.bank, l', exact)
    ensures Inv(s', exact)
  {
    UpdateKeepsInv(s, s'.bank, id - 1, l', exact);
  }

  lemma PlaceIdOk(s: State, id: nat, bidder: Text, typ: BidType, price: Dec, coin: Coin)
    requires PlaceNewBid(s, id, bidder, typ, price, coin).Ok?
    ensures 1 <= id <= |s.listings|
  {
  }

  lemma PlaceKeepsInv(s: State, id: nat, bidder: Text, typ: BidType, price: Dec, coin: Coin, exact: bool)
    requires Inv(s, exact) && PlaceNewBid(s, id, bidder, typ, price, coin).Ok?
    ensures Inv(PlaceNewBid(s, id, bidder, typ, price, coin).value, exact)
    ensures Conserves(s.bank, PlaceNewBid(s, id, bidder, typ, price, coin).value.bank)
  {
    PlaceIdOk(s, id, bidder, typ, price, coin);
    var l, s' := s.listings[id - 1], PlaceNewBid(s, id, bidder, typ, price, coin).value;
    var bid := Bid(id, |l.bids| + 1, bidder, typ, price, coin, false);
    assert Shape(l, id) && Backed(s.bank, l, exact);
    PlaceEffect(s, id, bidder, typ, price, coin, bid, exact);
    UpdatedInv(s, s', id, AddBid(l, bid), exact);
  }

  /** A modified bid's reserve grows by exactly the coins that are moved for it. */
  lemma ModifiedBid(a: Auction, bid: Bid, bid': Bid)
    requires BatchBid(bid, a.payingDenom) && bid' == bid.(price := bid'.price, coin := bid'.coin)
    requires bid.coin.denom == bid'.coin.denom && bid.price <= bid'.price && bid.coin.amount <= bid'.coin.amount
    ensures BatchBid(bid', a.payingDenom) && 0 <= ExtraReserve(bid, bid')
    ensures PayingAmount(bid', a.payingDenom) == PayingAmount(bid, a.payingDenom) + ExtraReserve(bid, bid')
  {
    ToPayingMono(bid.coin.amount, bid'.coin.amount, bid.price, bid'.price);
  }

  lemma ModifyShape(l: Listing, id: nat, i: nat, bid': Bid)
    requires Shape(l, id) && l.auction.status == Started && l.auction.kind.BatchAuction? && i < |l.bids|
    requires BatchBid(bid', l.auction.payingDenom) && bid' == l.bids[i].(price := bid'.price, coin := bid'.coin)
    ensures Shape(l.(bids := l.bids[i := bid']), id)
  {
  }

  lemma RaisedBidKeepsInv(s: State, id: nat, i: nat, bid': Bid, b': Bank, exact: bool)
    requires Inv(s, exact) && 1 <= id <= |s.listings| && i < |s.listings[id - 1].bids|
    requires var l := s.listings[id - 1];
             var bid := l.bids[i];
             && l.auction.status == Started && l.auction.kind.BatchAuction?
             && bid' == bid.(price := bid'.price, coin := bid'.coin)
             && bid.coin.denom == bid'.coin.denom && bid.price <= bid'.price && bid.coin.amount <= bid'.coin.amount
             && Send(s.bank, User(bid.bidder.addr), Reserve(PayingReserve, id), l.auction.payingDenom,
                     if ExtraReserve(bid, bid') > 0 then ExtraReserve(bid, bid') else 0) == Ok(b')
    ensures var l := s.listings[id - 1];
            Inv(s.(bank := b', listings := s.listings[id - 1 := l.(bids := l.bids[i := bid'])]), exact)
    ensures Conserves(s.bank, b')
  {
    var l := s.listings[id - 1];
    assert Shape(l, id) && Backed(s.bank, l, exact);
    var bid, l' := l.bids[i], l.(bids := l.bids[i := bid']);
    ModifiedBid(l.auction, bid, bid');
    ModifyShape(l, id, i, bid');
    SumUpdate(l.bids, i, bid', Paying(l.auction.payingDenom));
    PaidIn(s.bank, b', User(bid.bidder.addr), l, l', ExtraReserve(bid, bid'), exact);
    UpdateKeepsInv(s, b', id - 1, l', exact);
  }

  lemma ModifyKeepsInv(s: State, id: nat, bidder: Addr, bidId: nat, price: Dec, coin: Coin, exact: bool)
    requires Inv(s, exact) && ModifyOldBid(s, id, bidder, bidId, price, coin).Ok?
    ensures Inv(ModifyOldBid(s, id, bidder, bidId, price, coin).value, exact)
    ensures Conserves(s.bank, ModifyOldBid(s, id, bidder, bidId, price, coin).value.bank)
  {
    RaisedBidKeepsInv(s, id, bidId - 1, s.listings[id - 1].bids[bidId - 1].(price := price, coin := coin),
      ModifyOldBid(s, id, bidder, bidId, price, coin).value.bank, exact);
  }

  lemma DepositKeepsInv(s: State, sender: Addr, dst: Account, coin: Coin, exact: bool)
    requires Inv(s, exact) && Send(s.bank, User(sender), dst, coin.denom, coin.amount).Ok?
    requires exact ==> !dst.Reserve?
    ensures var b' := Send(s.bank, User(sender), dst, coin.denom, coin.amount).value;
            Inv(s.(bank := b'), exact) && Conserves(s.bank, b')
  {
    var b' := Send(s.bank, User(sender), dst, coin.denom, coin.amount).value;
    SendConserves(s.bank, User(sender), dst, coin.denom, coin.amount);
    forall i | 0 <= i < |s.listings| ensures Backed(b', s.listings[i], exact) {
      assert Backed(s.bank, s.listings[i], exact);
    }
  }
}

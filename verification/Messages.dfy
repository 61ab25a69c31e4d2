/**
  * When each message is accepted, as conditions on the state it meets, and everything it then changes: the listing it
  * touches and the balance of every account. A message that is not accepted changes nothing.
  */
module Messages {
  import opened Types
  import opened Sums
  import opened Rounding
  import opened BidIndex
  import opened Bank
  import opened Vesting
  import opened Auctions
  import opened Safety

  /** A rejected message leaves the state as it was; an accepted one has its effect. */
  lemma MessageStep(s: State, a: Action)
    requires !a.BeginBlock?
    ensures Step(s, a) == if Handle(s, a).Ok? then Handle(s, a) else Ok(s)
  {
  }

  /** A user has the fee, and `n` coins of `d` besides. */
  ghost predicate Affords(b: Bank, x: Addr, fee: seq<Coin>, d: Denom, n: nat) {
    HasAll(b, User(x), fee) && CoinsIn(fee, d) + n <= Bal(b, User(x), d)
  }

  /** The user has paid the fee to the community pool and `n` coins of `d` to `dst`; no other balance has changed. */
  ghost predicate Paid(b: Bank, b': Bank, x: Addr, fee: seq<Coin>, dst: Account, d: Denom, n: nat) {
    forall y: Account, e {:trigger Bal(b', y, e)} ::
      Bal(b', y, e) == Bal(b, y, e)
        - (if y == User(x) then CoinsIn(fee, e) + (if e == d then n else 0) else 0)
        + (if y == CommunityPool then CoinsIn(fee, e) else 0)
        + (if y == dst && e == d then n else 0)
  }

  lemma FeeThenSend(b: Bank, x: Addr, fee: seq<Coin>, dst: Account, d: Denom, n: nat)
    requires dst.Reserve?
    ensures var r := SendAll(b, User(x), CommunityPool, fee);
            && (r.Ok? && Send(r.value, User(x), dst, d, n).Ok? <==> Affords(b, x, fee, d, n))
            && (r.Ok? && Send(r.value, User(x), dst, d, n).Ok? ==>
                  Paid(b, Send(r.value, User(x), dst, d, n).value, x, fee, dst, d, n))
  {
    SendAllIff(b, User(x), CommunityPool, fee);
    var r := SendAll(b, User(x), CommunityPool, fee);
    if r.Ok? {
      assert Bal(r.value, User(x), d) == Bal(b, User(x), d) - CoinsIn(fee, d);
    }
  }

  // ----- Creating an auction

  function Weight(s: VestingSchedule): nat {
    if s.weight > 0 then s.weight else 0
  }

  /** Vesting starts after the end time, goes on in order, and its weights make up the whole. */
  predicate VestsAfter(schedules: seq<VestingSchedule>, endTime: Time) {
    schedules != [] ==>
      && (forall i :: 0 <= i < |schedules| ==> 0 < schedules[i].weight)
      && (forall i :: 0 <= i < |schedules| ==>
            endTime < schedules[i].releaseTime && ZERO_TIME < schedules[i].releaseTime)
      && (forall i, j :: 0 <= i < j < |schedules| ==> schedules[i].releaseTime < schedules[j].releaseTime)
      && SumBy(schedules, Weight) == 1_000_000_000_000_000_000
  }

  lemma {:induction false} WeightsAdd(schedules: seq<VestingSchedule>)
    ensures TotalWeight(schedules) == SumBy(schedules, Weight)
  {
    if schedules != [] {
      WeightsAdd(schedules[..|schedules| - 1]);
    }
  }

  ghost predicate OfferAccepted(s: State, m: CreateMsg) {
    && 0 < |m.auctioneer| <= 255
    && 0 < m.startPrice && 0 < m.sellingCoin.amount && m.sellingCoin.denom != m.payingDenom
    && m.startTime < m.endTime && s.now <= m.endTime
    && |m.schedules| <= 100 && VestsAfter(m.schedules, m.endTime)
    && (m.kind.BatchAuction? ==>
          0 < m.kind.minBidPrice && 0 < m.kind.extendedRoundRate && m.kind.maxExtendedRound <= 30)
    && Affords(s.bank, m.auctioneer, s.params.creationFee, m.sellingCoin.denom, m.sellingCoin.amount)
  }

  /** The auction has the terms of the message, is open at once if its start time has come, and holds no bids yet. */
  predicate OpensAs(m: CreateMsg, id: nat, now: Time, l: Listing) {
    && l.auction.id == id && l.auction.auctioneer == m.auctioneer && l.auction.startPrice == m.startPrice
    && l.auction.sellingCoin == m.sellingCoin && l.auction.payingDenom == m.payingDenom
    && l.auction.schedules == m.schedules && l.auction.startTime == m.startTime && l.auction.endTimes == [m.endTime]
    && (l.auction.status == Started <==> m.startTime <= now) && (l.auction.status == StandBy <==> now < m.startTime)
    && (if m.kind.BatchAuction? then l.auction.kind == m.kind
        else l.auction.kind.FixedPriceAuction? && l.auction.kind.remaining == m.sellingCoin.amount)
    && l.allowed == map[] && l.bids == [] && l.matchedLen == 0 && l.queues == []
  }

  lemma BasicIff(m: CreateMsg)
    ensures CreateBasic(m).Ok?
       <==> && 0 < |m.auctioneer| <= 255
            && 0 < m.startPrice && 0 < m.sellingCoin.amount && m.sellingCoin.denom != m.payingDenom
            && m.startTime < m.endTime && VestsAfter(m.schedules, m.endTime)
            && (m.kind.BatchAuction? ==> 0 < m.kind.minBidPrice && 0 < m.kind.extendedRoundRate)
  {
    WeightsAdd(m.schedules);
  }

  /** Whose coins an accepted offer moves, and the auction it opens. */
  lemma CreateIff(s: State, m: CreateMsg)
    ensures Handle(s, Create(m)).Ok? <==> OfferAccepted(s, m)
    ensures OfferAccepted(s, m) ==>
              var s', id := Handle(s, Create(m)).value, |s.listings| + 1;
              && |s'.listings| == id && s' == s.(bank := s'.bank, listings := s.listings + [s'.listings[id - 1]])
              && OpensAs(m, id, s.now, s'.listings[id - 1])
              && Paid(s.bank, s'.bank, m.auctioneer, s.params.creationFee,
                      Reserve(SellingReserve, id), m.sellingCoin.denom, m.sellingCoin.amount)
  {
    BasicIff(m);
    FeeThenSend(s.bank, m.auctioneer, s.params.creationFee, Reserve(SellingReserve, |s.listings| + 1),
      m.sellingCoin.denom, m.sellingCoin.amount);
  }

  // ----- Cancelling

  ghost predicate CancelAccepted(s: State, auctioneer: Text, id: nat) {
    && 0 < |auctioneer.addr| <= 255 && 1 <= id <= |s.listings|
    && s.listings[id - 1].auction.auctioneer == auctioneer.addr && !auctioneer.upper
    && s.listings[id - 1].auction.status == StandBy
  }

  /** Everything `src` had of `d` is now with `dst`; no other balance has changed. */
  ghost predicate Emptied(b: Bank, b': Bank, src: Account, dst: Account, d: Denom) {
    forall y: Account, e {:trigger Bal(b', y, e)} ::
      Bal(b', y, e) == Bal(b, y, e) - (if y == src && e == d then Bal(b, src, d) else 0)
                                    + (if y == dst && e == d then Bal(b, src, d) else 0)
  }

  /** Only the auctioneer, named in lower case, cancels, and only in stand-by; the whole selling reserve goes back. */
  lemma CancelIff(s: State, auctioneer: Text, id: nat)
    ensures Handle(s, Cancel(auctioneer, id)).Ok? <==> CancelAccepted(s, auctioneer, id)
    ensures CancelAccepted(s, auctioneer, id) ==>
              var s', l := Handle(s, Cancel(auctioneer, id)).value, s.listings[id - 1];
              var a := l.auction;
              var kind := if a.kind.BatchAuction? then a.kind else FixedPriceAuction(0);
              var l' := l.(auction := a.(kind := kind, status := Cancelled));
              && s' == s.(bank := s'.bank, listings := s.listings[id - 1 := l'])
              && Emptied(s.bank, s'.bank, Reserve(SellingReserve, a.id), User(auctioneer.addr), a.sellingCoin.denom)
  {
  }

  // ----- Allowed bidders

  predicate EntryOk(ab: AllowedBidder, supply: nat) {
    0 < |ab.bidder.addr| <= 255 && 0 < ab.maxBidAmount <= supply
  }

  predicate EntriesOk(bidders: seq<AllowedBidder>, supply: nat) {
    forall i :: 0 <= i < |bidders| ==> EntryOk(bidders[i], supply)
  }

  /** The last entry for an address. */
  function LastEntry(bidders: seq<AllowedBidder>, a: Addr): Option<AllowedBidder> {
    if bidders == [] then None
    else if bidders[|bidders| - 1].bidder.addr == a then Some(bidders[|bidders| - 1])
    else LastEntry(bidders[..|bidders| - 1], a)
  }

  /** An address has its last entry's cap and text case; one without an entry keeps what it had. */
  predicate StoredEntry(allowed: map<Addr, Allowance>, bidders: seq<AllowedBidder>, allowed': map<Addr, Allowance>,
                        a: Addr)
  {
    var e := LastEntry(bidders, a);
    if e.Some? then
      a in allowed' && allowed'[a].max == e.value.maxBidAmount && allowed'[a].upper == e.value.bidder.upper
    else
      (a in allowed' <==> a in allowed) && (a in allowed ==> allowed'[a] == allowed[a])
  }

  ghost predicate StoredEntries(allowed: map<Addr, Allowance>, bidders: seq<AllowedBidder>,
                                allowed': map<Addr, Allowance>)
  {
    forall a :: StoredEntry(allowed, bidders, allowed', a)
  }

  lemma {:induction false} AllowIff(allowed: map<Addr, Allowance>, supply: nat, bidders: seq<AllowedBidder>, k: nat)
    requires k <= |bidders|
    ensures Allow(allowed, supply, bidders, k).Ok? <==> forall i :: 0 <= i < k ==> EntryOk(bidders[i], supply)
    ensures Allow(allowed, supply, bidders, k).Ok? ==>
              StoredEntries(allowed, bidders[..k], Allow(allowed, supply, bidders, k).value)
  {
    if k > 0 {
      AllowIff(allowed, supply, bidders, k - 1);
      assert bidders[..k][..k - 1] == bidders[..k - 1];
      if Allow(allowed, supply, bidders, k).Ok? {
        forall a ensures StoredEntry(allowed, bidders[..k], Allow(allowed, supply, bidders, k).value, a) {
          assert StoredEntry(allowed, bidders[..k - 1], Allow(allowed, supply, bidders, k - 1).value, a);
        }
      }
    }
  }

  /** Entries are added exactly when there is one and all of them are in order; nothing but the entries changes. */
  lemma AddAllowedIff(s: State, id: nat, bidders: seq<AllowedBidder>)
    ensures Handle(s, AddAllowedBidders(id, bidders)).Ok?
       <==> && bidders != [] && 1 <= id <= |s.listings|
            && EntriesOk(bidders, s.listings[id - 1].auction.sellingCoin.amount)
    ensures Handle(s, AddAllowedBidders(id, bidders)).Ok? ==>
              var s', l := Handle(s, AddAllowedBidders(id, bidders)).value, s.listings[id - 1];
              && |s'.listings| == |s.listings|
              && s' == s.(listings := s.listings[id - 1 := l.(allowed := s'.listings[id - 1].allowed)])
              && StoredEntries(l.allowed, bidders, s'.listings[id - 1].allowed)
  {
    if 1 <= id <= |s.listings| {
      AllowIff(s.listings[id - 1].allowed, s.listings[id - 1].auction.sellingCoin.amount, bidders, |bidders|);
      assert bidders[..|bidders|] == bidders;
    }
  }

  /** Only a known bidder's cap is changed, to any positive amount; the entry's text becomes the lower case one. */
  lemma UpdateAllowedIff(s: State, id: nat, x: Addr, amount: int)
    ensures Handle(s, Action.UpdateAllowedBidder(id, x, amount)).Ok?
       <==> 1 <= id <= |s.listings| && x in s.listings[id - 1].allowed && 0 < |x| <= 255 && 0 < amount
    ensures Handle(s, Action.UpdateAllowedBidder(id, x, amount)).Ok? ==>
              var s', l := Handle(s, Action.UpdateAllowedBidder(id, x, amount)).value, s.listings[id - 1];
              s' == s.(listings := s.listings[id - 1 := l.(allowed := l.allowed[x := Allowance(false, amount)])])
  {
  }

  // ----- Placing a bid

  /** What a bid asks the auction for, and what it has to offer for it, by the type of the bid. */
  predicate BidFits(books: seq<seq<Bid>>, l: Listing, bid: Bid)
    requires bid.bidder.addr in l.allowed
  {
    var a, sold := l.auction, SellingAmount(bid, l.auction.payingDenom);
    match bid.typ
    case FixedPrice =>
      && a.kind.FixedPriceAuction? && bid.price == a.startPrice
      && bid.coin.denom in {a.payingDenom, a.sellingCoin.denom}
      && sold <= a.kind.remaining
      && IndexTotal(books, a.id, bid.bidder.addr, a.payingDenom) + sold <= l.allowed[bid.bidder.addr].max
    case BatchWorth =>
      a.kind.BatchAuction? && a.kind.minBidPrice <= bid.price && bid.coin.denom == a.payingDenom
      && sold <= l.allowed[bid.bidder.addr].max
    case BatchMany =>
      a.kind.BatchAuction? && a.kind.minBidPrice <= bid.price && bid.coin.denom == a.sellingCoin.denom
      && sold <= l.allowed[bid.bidder.addr].max
  }

  ghost predicate BidAccepted(s: State, id: nat, bid: Bid) {
    && 0 < |bid.bidder.addr| <= 255 && 0 < bid.price && 0 < bid.coin.amount && 1 <= id <= |s.listings|
    && var l, d := s.listings[id - 1], s.listings[id - 1].auction.payingDenom;
       && l.auction.status == Started && bid.bidder.addr in l.allowed && BidFits(Books(s.listings), l, bid)
       && Affords(s.bank, bid.bidder.addr, s.params.bidFee, d, PayingAmount(bid, d))
  }

  /** The listing with the bid stored; a fixed price bid counts as matched and uses up coins left for sale. */
  predicate BidStored(l: Listing, bid: Bid, l': Listing) {
    && l'.bids == l.bids + [if bid.typ == FixedPrice then bid.(isMatched := true) else bid]
    && l' == l.(auction := l.auction.(kind := l'.auction.kind), bids := l'.bids)
    && (if bid.typ == FixedPrice
        then && l'.auction.kind.FixedPriceAuction? && l.auction.kind.FixedPriceAuction?
             && l'.auction.kind.remaining + SellingAmount(bid, l.auction.payingDenom) == l.auction.kind.remaining
        else l'.auction.kind == l.auction.kind)
  }

  lemma CheckBidIff(books: seq<seq<Bid>>, l: Listing, bid: Bid)
    requires bid.bidder.addr in l.allowed
    requires l.auction.kind.BatchAuction? ==> l.auction.kind.minBidPrice <= bid.price
    ensures CheckBid(books, l, bid).Ok? <==> BidFits(books, l, bid)
    ensures CheckBid(books, l, bid).Ok? ==> BidStored(l, bid, AddBid(l, bid))
  {
  }

  lemma PlaceOkIff(s: State, id: nat, bidder: Text, typ: BidType, price: Dec, coin: Coin, bid: Bid)
    requires 1 <= id <= |s.listings| && bid == Bid(id, |s.listings[id - 1].bids| + 1, bidder, typ, price, coin, false)
    ensures PlaceNewBid(s, id, bidder, typ, price, coin).Ok? <==> BidAccepted(s, id, bid)
  {
    var l := s.listings[id - 1];
    if bidder.addr in l.allowed && (l.auction.kind.BatchAuction? ==> l.auction.kind.minBidPrice <= price) {
      PayForBidIff(s.bank, Books(s.listings), l, bid, s.params.bidFee);
    }
  }

  /** The checks on the bid itself, the fee and the reserve. */
  lemma PayForBidIff(b: Bank, books: seq<seq<Bid>>, l: Listing, bid: Bid, fee: seq<Coin>)
    requires bid.bidder.addr in l.allowed
    requires l.auction.kind.BatchAuction? ==> l.auction.kind.minBidPrice <= bid.price
    ensures var b1, d := SendAll(b, User(bid.bidder.addr), CommunityPool, fee), l.auction.payingDenom;
            b1.Ok? && AcceptBid(b1.value, books, l, bid).Ok?
            <==> BidFits(books, l, bid) && Affords(b, bid.bidder.addr, fee, d, PayingAmount(bid, d))
  {
    var d := l.auction.payingDenom;
    CheckBidIff(books, l, bid);
    FeeThenSend(b, bid.bidder.addr, fee, Reserve(PayingReserve, bid.auctionId), d, PayingAmount(bid, d));
  }

  /** What an accepted place-bid message changes. */
  ghost predicate PlaceDone(s: State, id: nat, bid: Bid, s': State) {
    && 1 <= id <= |s.listings| == |s'.listings|
    && s' == s.(bank := s'.bank, listings := s.listings[id - 1 := s'.listings[id - 1]])
    && BidStored(s.listings[id - 1], bid, s'.listings[id - 1])
    && var d := s.listings[id - 1].auction.payingDenom;
       Paid(s.bank, s'.bank, bid.bidder.addr, s.params.bidFee, Reserve(PayingReserve, id), d, PayingAmount(bid, d))
  }

  lemma PlaceHas(s: State, id: nat, bidder: Text, typ: BidType, price: Dec, coin: Coin, bid: Bid)
    requires 1 <= id <= |s.listings| && bid == Bid(id, |s.listings[id - 1].bids| + 1, bidder, typ, price, coin, false)
    requires BidAccepted(s, id, bid) && PlaceNewBid(s, id, bidder, typ, price, coin).Ok?
    ensures PlaceDone(s, id, bid, PlaceNewBid(s, id, bidder, typ, price, coin).value)
  {
    var l, d := s.listings[id - 1], s.listings[id - 1].auction.payingDenom;
    PlaceUnfold(s, id, bidder, typ, price, coin, bid);
    CheckBidIff(Books(s.listings), l, bid);
    FeeThenSend(s.bank, bidder.addr, s.params.bidFee, Reserve(PayingReserve, id), d, PayingAmount(bid, d));
  }

  /** When a bid is accepted, the bid that is stored, and who pays for it. */
  lemma PlaceIff(s: State, id: nat, bidder: Text, typ: BidType, price: Dec, coin: Coin, bid: Bid)
    requires 1 <= id <= |s.listings| ==> bid == Bid(id, |s.listings[id - 1].bids| + 1, bidder, typ, price, coin, false)
    ensures var r := Handle(s, PlaceBid(id, bidder, typ, price, coin));
            && (r.Ok? <==> 1 <= id <= |s.listings| && BidAccepted(s, id, bid))
            && (r.Ok? ==> PlaceDone(s, id, bid, r.value))
  {
    if 1 <= id <= |s.listings| {
      PlaceOkIff(s, id, bidder, typ, price, coin, bid);
      if BidAccepted(s, id, bid) {
        PlaceHas(s, id, bidder, typ, price, coin, bid);
      }
    }
  }

  // ----- Modifying a bid

  /** A started batch auction's bid is raised by its own bidder, who can pay for the growth of what it reserves. */
  ghost predicate RaiseAccepted(s: State, id: nat, x: Addr, bidId: nat, price: Dec, coin: Coin) {
    && 0 < |x| <= 255 && 0 < price && 0 < coin.amount && 1 <= id <= |s.listings|
    && var l := s.listings[id - 1];
       && l.auction.status == Started && l.auction.kind.BatchAuction? && 1 <= bidId <= |l.bids|
       && var bid := l.bids[bidId - 1];
          && bid.bidder.addr == x && l.auction.kind.minBidPrice <= price
          && coin.denom == bid.coin.denom && bid.price <= price && bid.coin.amount <= coin.amount
          && (bid.price < price || bid.coin.amount < coin.amount)
          && Growth(l, bid, price, coin) <= Bal(s.bank, User(x), l.auction.payingDenom)
  }

  function Growth(l: Listing, bid: Bid, price: Dec, coin: Coin): int {
    var d := l.auction.payingDenom;
    PayingAmount(bid.(price := price, coin := coin), d) - PayingAmount(bid, d)
  }

  /** `n` coins of `d` went from a user to a reserve, and no other balance has changed. */
  ghost predicate Moves(b: Bank, b': Bank, x: Addr, dst: Account, d: Denom, n: int) {
    forall y: Account, e {:trigger Bal(b', y, e)} ::
      Bal(b', y, e) == Bal(b, y, e) - (if y == User(x) && e == d then n else 0) + (if y == dst && e == d then n else 0)
  }

  /** When a raise is accepted: the bid's own bidder sent it. The bidder, and nobody else, pays just the growth. */
  lemma ModifyIff(s: State, id: nat, x: Addr, bidId: nat, price: Dec, coin: Coin)
    requires Inv(s, false)
    ensures Handle(s, Action.ModifyBid(id, x, bidId, price, coin)).Ok? <==> RaiseAccepted(s, id, x, bidId, price, coin)
    ensures RaiseAccepted(s, id, x, bidId, price, coin) ==>
              var s', l := Handle(s, Action.ModifyBid(id, x, bidId, price, coin)).value, s.listings[id - 1];
              var bid, d := l.bids[bidId - 1], l.auction.payingDenom;
              && s' == s.(bank := s'.bank, listings := s.listings[id - 1 :=
                            l.(bids := l.bids[bidId - 1 := bid.(price := price, coin := coin)])])
              && Moves(s.bank, s'.bank, x, Reserve(PayingReserve, id), d, Growth(l, bid, price, coin))
  {
    if && 1 <= id <= |s.listings| && 1 <= bidId <= |s.listings[id - 1].bids|
       && s.listings[id - 1].auction.kind.BatchAuction? {
      var l := s.listings[id - 1];
      var bid := l.bids[bidId - 1];
      assert Shape(l, id);
      if coin.denom == bid.coin.denom && bid.price <= price && bid.coin.amount <= coin.amount {
        ModifiedBid(l.auction, bid, bid.(price := price, coin := coin));
      }
    }
  }

  // ----- The rest

  /** Parameters are always replaced, and nothing else. */
  lemma SetParamsIff(s: State, params: Params)
    ensures Handle(s, SetParams(params)).Ok? && Handle(s, SetParams(params)).value.params == params
    ensures Handle(s, SetParams(params)).value == s.(params := params)
  {
  }

  /** A deposit needs just the coins. */
  lemma DepositIff(s: State, x: Addr, dst: Account, coin: Coin)
    requires dst != User(x)
    ensures Handle(s, Deposit(x, dst, coin)).Ok? <==> coin.amount <= Bal(s.bank, User(x), coin.denom)
    ensures Handle(s, Deposit(x, dst, coin)).Ok? ==>
              var s' := Handle(s, Deposit(x, dst, coin)).value;
              s' == s.(bank := s'.bank) && Moves(s.bank, s'.bank, x, dst, coin.denom, coin.amount)
  {
  }
}

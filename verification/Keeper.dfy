/** The keeper itself: fields updated in place, method by method as in x/fundraising/keeper and abci.go. */
module FundraisingKeeper {
  import opened Types
  import opened Sums
  import opened BidIndex
  import opened Rounding
  import opened Batch
  import opened Bank
  import opened Vesting
  import opened Auctions
  import opened Safety
  import opened Closing
  import opened Runs

  lemma {:induction false} SendAllStuck(b: Bank, src: Account, dst: Account, coins: seq<Coin>, k: nat)
    requires k <= |coins| && SendAll(b, src, dst, coins[..k]).Err?
    ensures SendAll(b, src, dst, coins) == SendAll(b, src, dst, coins[..k])
  {
    if k == |coins| {
      assert coins[..k] == coins;
    } else {
      assert coins[..|coins| - 1][..k] == coins[..k];
      SendAllStuck(b, src, dst, coins[..|coins| - 1], k);
    }
  }

  lemma {:induction false} AllowStuck(allowed: map<Addr, Allowance>, supply: nat, bidders: seq<AllowedBidder>, k: nat,
                                      n: nat)
    requires k <= n <= |bidders| && Allow(allowed, supply, bidders, k).Err?
    ensures Allow(allowed, supply, bidders, n) == Allow(allowed, supply, bidders, k)
  {
    if k < n {
      AllowStuck(allowed, supply, bidders, k, n - 1);
    }
  }

  lemma DebitedSoFar(amounts: map<Text, nat>, todo: set<Text>, a: Text)
    requires a in todo && todo <= amounts.Keys
    ensures SumMap(amounts - (todo - {a})) == SumMap(amounts - todo) + amounts[a] <= SumMap(amounts)
  {
    assert amounts - (todo - {a}) == (amounts - todo)[a := amounts[a]];
    SumMapUpdate(amounts - todo, a, amounts[a]);
    SumMapLe(amounts - (todo - {a}), amounts);
  }

  lemma CreditedSoFar(l: Ledger, amounts: map<Text, nat>, todo: set<Text>, a: Text)
    requires a in todo && todo <= amounts.Keys
    ensures var before, after := CreditUsers(l, amounts - todo), CreditUsers(l, amounts - (todo - {a}));
            after == if amounts[a] > 0 then before[User(a.addr) := Get(before, User(a.addr)) + amounts[a]] else before
  {
    var done := amounts - (todo - {a});
    assert done - {a} == amounts - todo;
    if amounts[a] > 0 {
      CreditOneMore(l, done, a);
    } else {
      CreditNothing(l, done, a);
    }
  }

  lemma TwiceAt(listings: seq<Listing>, i: nat, l: Listing, l': Listing)
    requires i < |listings|
    ensures listings[i := l][i := l'] == listings[i := l']
  {
  }

  lemma SameAt(listings: seq<Listing>, i: nat)
    requires i < |listings|
    ensures listings == listings[i := listings[i]]
  {
  }

  /** The ledger when the texts in `todo` have not had their turn. */
  ghost predicate Credited(l: Ledger, amounts: map<Text, nat>, todo: set<Text>, ledger: Ledger) {
    ledger == CreditUsers(l, amounts - todo)
  }

  lemma CreditedNone(l: Ledger, amounts: map<Text, nat>)
    ensures Credited(l, amounts, amounts.Keys, l)
  {
    assert amounts - amounts.Keys == map[];
  }

  lemma CreditedNext(l: Ledger, amounts: map<Text, nat>, todo: set<Text>, a: Text, before: Ledger, after: Ledger)
    requires a in todo && todo <= amounts.Keys && Credited(l, amounts, todo, before)
    requires after == if amounts[a] > 0 then before[User(a.addr) := Get(before, User(a.addr)) + amounts[a]] else before
    ensures Credited(l, amounts, todo - {a}, after)
  {
    CreditedSoFar(l, amounts, todo, a);
  }

  lemma CreditedAll(l: Ledger, amounts: map<Text, nat>, ledger: Ledger)
    requires Credited(l, amounts, {}, ledger)
    ensures ledger == CreditUsers(l, amounts)
  {
    assert amounts - {} == amounts;
  }

  lemma PutTwice(b: Bank, x: Account, d: Denom, m: nat, n: nat)
    ensures Put(Put(b, x, d, m), x, d, n) == Put(b, x, d, n)
  {
    var once: Ledger := LedgerOf(b, d)[x := m];
    assert once[x := n] == LedgerOf(b, d)[x := n];
  }

  class Keeper {
    var params: Params
    var bank: Bank
    var now: Time
    var listings: seq<Listing>

    function View(): State
      reads this
    {
      State(params, bank, now, listings)
    }

    constructor (params: Params, bank: Bank, now: Time)
      ensures View() == State(params, bank, now, [])
    {
      this.params, this.bank, this.now, this.listings := params, bank, now, [];
    }

    // ----- Moving coins

    method SendCoins(src: Account, dst: Account, d: Denom, n: nat) returns (r: Result<()>)
      modifies this`bank
      ensures r.Ok? ==> Send(old(bank), src, dst, d, n) == Ok(bank)
      ensures r.Err? ==> Send(old(bank), src, dst, d, n) == Err(r.error) && bank == old(bank)
    {
      if n == 0 {
        return Ok(());
      }
      if Bal(bank, src, d) < n {
        return Err(InsufficientFunds);
      }
      bank := Put(bank, src, d, Bal(bank, src, d) - n);
      bank := Put(bank, dst, d, Bal(bank, dst, d) + n);
      r := Ok(());
    }

    /** `PayCreationFee` and `PayPlaceBidFee`. */
    method FundCommunityPool(fee: seq<Coin>, payer: Addr) returns (r: Result<()>)
      modifies this`bank
      ensures r.Ok? ==> SendAll(old(bank), User(payer), CommunityPool, fee) == Ok(bank)
      ensures r.Err? ==> SendAll(old(bank), User(payer), CommunityPool, fee) == Err(r.error)
    {
      for i := 0 to |fee|
        invariant SendAll(old(bank), User(payer), CommunityPool, fee[..i]) == Ok(bank)
      {
        assert fee[..i + 1][..i] == fee[..i];
        r := SendCoins(User(payer), CommunityPool, fee[i].denom, fee[i].amount);
        if r.Err? {
          SendAllStuck(old(bank), User(payer), CommunityPool, fee, i + 1);
          return;
        }
      }
      assert fee[..|fee|] == fee;
      r := Ok(());
    }

    /** The inputs of `InputOutputCoins`: one debit per text that is owed something, in any order. */
    method DebitInputs(src: Account, d: Denom, amounts: map<Text, nat>) returns (r: Result<()>)
      modifies this`bank
      ensures r.Ok? <==> SumMap(amounts) <= Bal(old(bank), src, d)
      ensures r.Err? ==> r.error == InsufficientFunds
      ensures r.Ok? ==> bank == if SumMap(amounts) == 0 then old(bank)
                                else Put(old(bank), src, d, Bal(old(bank), src, d) - SumMap(amounts))
    {
      ghost var b0 := bank;
      var todo := amounts.Keys;
      assert amounts - todo == map[];
      while todo != {}
        invariant todo <= amounts.Keys
        invariant SumMap(amounts - todo) <= Bal(b0, src, d)
        invariant bank == if SumMap(amounts - todo) == 0 then b0
                          else Put(b0, src, d, Bal(b0, src, d) - SumMap(amounts - todo))
      {
        var a :| a in todo;
        DebitedSoFar(amounts, todo, a);
        if amounts[a] > 0 {
          if Bal(bank, src, d) < amounts[a] {
            return Err(InsufficientFunds);
          }
          PutTwice(b0, src, d, Bal(b0, src, d) - SumMap(amounts - todo), Bal(bank, src, d) - amounts[a]);
          bank := Put(bank, src, d, Bal(bank, src, d) - amounts[a]);
        }
        todo := todo - {a};
      }
      assert amounts - todo == amounts;
      r := Ok(());
    }

    /** The outputs of `InputOutputCoins`. */
    method CreditOutputs(d: Denom, amounts: map<Text, nat>)
      requires d in bank
      modifies this`bank
      ensures bank == old(bank)[d := CreditUsers(old(bank)[d], amounts)]
    {
      ghost var l := bank[d];
      var ledger: Ledger := bank[d];
      var todo := amounts.Keys;
      CreditedNone(l, amounts);
      while todo != {}
        invariant todo <= amounts.Keys && bank == old(bank)
        invariant Credited(l, amounts, todo, ledger)
      {
        var a :| a in todo;
        ghost var before := ledger;
        if amounts[a] > 0 {
          ledger := ledger[User(a.addr) := Get(ledger, User(a.addr)) + amounts[a]];
        }
        CreditedNext(l, amounts, todo, a, before, ledger);
        todo := todo - {a};
      }
      CreditedAll(l, amounts, ledger);
      bank := bank[d := ledger];
    }

    method InputOutputCoins(src: Account, d: Denom, amounts: map<Text, nat>) returns (r: Result<()>)
      requires !src.User?
      modifies this`bank
      ensures r.Ok? ==> PayOut(old(bank), src, d, amounts) == Ok(bank)
      ensures r.Err? ==> PayOut(old(bank), src, d, amounts) == Err(r.error)
    {
      r := DebitInputs(src, d, amounts);
      if r.Ok? {
        SumMapZero(amounts);
        if exists a :: a in amounts && amounts[a] > 0 {
          ghost var b1 := bank;
          CreditOutputs(d, amounts);
          assert bank == old(bank)[d := CreditUsers(b1[d], amounts)];
        }
      }
    }

    // ----- Messages

    /** The `ValidateBasic` of the two create messages. */
    method ValidateCreate(m: CreateMsg) returns (r: Result<()>)
      ensures r == CreateBasic(m)
      ensures r.Ok? <==> ValidAddr(m.auctioneer) && m.startTime < m.endTime && TermsOk(NewListing(m, 1, now).auction)
    {
      if !ValidAddr(m.auctioneer) { return Err(InvalidAddress); }
      if m.startPrice == 0 || (m.kind.BatchAuction? && m.kind.minBidPrice == 0) { return Err(InvalidRequest); }
      if m.sellingCoin.amount == 0 || m.sellingCoin.denom == m.payingDenom { return Err(InvalidRequest); }
      if m.endTime <= m.startTime { return Err(InvalidRequest); }
      r := ValidateVestingSchedules(m.schedules, m.endTime);
      if r.Err? { return; }
      if m.kind.BatchAuction? && m.kind.extendedRoundRate == 0 { return Err(InvalidRequest); }
    }

    method StoreNewAuction(m: CreateMsg)
      modifies this`listings
      ensures listings == old(listings) + [NewListing(m, |old(listings)| + 1, now)]
    {
      var kind := if m.kind.FixedPriceAuction? then FixedPriceAuction(m.sellingCoin.amount) else m.kind;
      var auction := Auction(|listings| + 1, kind, m.auctioneer, m.startPrice, m.sellingCoin, m.payingDenom,
                             m.schedules, m.startTime, [m.endTime], StandBy);
      if auction.startTime <= now {
        auction := auction.(status := Started);
      }
      listings := listings + [Listing(auction, map[], [], 0, [])];
    }

    /** `CreateFixedPriceAuction` and `CreateBatchAuction`. */
    method CreateAuction(m: CreateMsg) returns (r: Result<()>)
      modifies this
      ensures r.Ok? ==> Auctions.CreateAuction(old(View()), m) == Ok(View())
      ensures r.Err? ==> Auctions.CreateAuction(old(View()), m) == Err(r.error)
    {
      r := ValidateCreate(m);
      if r.Err? { return; }
      if now > m.endTime { return Err(InvalidRequest); }
      if |m.schedules| > MAX_VESTING_SCHEDULES { return Err(InvalidRequest); }
      if m.kind.BatchAuction? && m.kind.maxExtendedRound > MAX_EXTENDED_ROUND { return Err(InvalidRequest); }
      r := FundCommunityPool(params.creationFee, m.auctioneer);
      if r.Err? { return; }
      var reserve := Reserve(SellingReserve, |listings| + 1);
      r := SendCoins(User(m.auctioneer), reserve, m.sellingCoin.denom, m.sellingCoin.amount);
      if r.Err? { return; }
      StoreNewAuction(m);
    }

    method CancelAuction(auctioneer: Text, auctionId: nat) returns (r: Result<()>)
      modifies this
      ensures r.Ok? ==> Auctions.CancelAuction(old(View()), auctioneer, auctionId) == Ok(View())
      ensures r.Err? ==> Auctions.CancelAuction(old(View()), auctioneer, auctionId) == Err(r.error)
    {
      if !ValidAddr(auctioneer.addr) { return Err(InvalidAddress); }
      if !(1 <= auctionId <= |listings|) { return Err(NotFound); }
      var l := listings[auctionId - 1];
      if Canonical(l.auction.auctioneer) != auctioneer { return Err(Unauthorized); }
      if l.auction.status != StandBy { return Err(InvalidAuctionStatus); }
      var src, d := Reserve(SellingReserve, l.auction.id), l.auction.sellingCoin.denom;
      r := SendCoins(src, User(l.auction.auctioneer), d, Bal(bank, src, d));
      var auction := l.auction;
      if auction.kind.FixedPriceAuction? {
        auction := auction.(kind := FixedPriceAuction(0));
      }
      auction := auction.(status := Cancelled);
      listings := listings[auctionId - 1 := l.(auction := auction)];
    }

    /** Entries are stored one by one; an invalid one stops the loop with the earlier ones already stored. */
    method AddAllowedBidders(auctionId: nat, bidders: seq<AllowedBidder>) returns (r: Result<()>)
      modifies this`listings
      ensures r.Ok? ==> AllowBidders(old(View()), auctionId, bidders) == Ok(View())
      ensures r.Err? ==> AllowBidders(old(View()), auctionId, bidders) == Err(r.error)
      ensures r.Err? && r.error !in {EmptyAllowedBidders, NotFound} ==>
                && 1 <= auctionId <= |old(listings)| == |listings|
                && var l := old(listings)[auctionId - 1];
                   && listings == old(listings)[auctionId - 1 := l.(allowed := listings[auctionId - 1].allowed)]
                   && exists k :: 0 <= k < |bidders|
                        && Allow(l.allowed, l.auction.sellingCoin.amount, bidders, k)
                           == Ok(listings[auctionId - 1].allowed)
    {
      if |bidders| == 0 { return Err(EmptyAllowedBidders); }
      if !(1 <= auctionId <= |listings|) { return Err(NotFound); }
      var l := listings[auctionId - 1];
      var supply := l.auction.sellingCoin.amount;
      for i := 0 to |bidders|
        invariant |listings| == |old(listings)|
        invariant listings == old(listings)[auctionId - 1 := l.(allowed := listings[auctionId - 1].allowed)]
        invariant Allow(l.allowed, supply, bidders, i) == Ok(listings[auctionId - 1].allowed)
      {
        var ab := bidders[i];
        if !ValidAddr(ab.bidder.addr) || ab.maxBidAmount <= 0 || ab.maxBidAmount > supply {
          r := Err(if !ValidAddr(ab.bidder.addr) then InvalidAddress
                   else if ab.maxBidAmount <= 0 then InvalidMaxBidAmount else InsufficientRemainingAmount);
          AllowStuck(l.allowed, supply, bidders, i + 1, |bidders|);
          return;
        }
        var stored := listings[auctionId - 1];
        var entry := Allowance(ab.bidder.upper, ab.maxBidAmount);
        listings := listings[auctionId - 1 := stored.(allowed := stored.allowed[ab.bidder.addr := entry])];
      }
      r := Ok(());
    }

    method UpdateAllowedBidder(auctionId: nat, bidder: Addr, maxBidAmount: int) returns (r: Result<()>)
      modifies this`listings
      ensures r.Ok? ==> UpdateBidder(old(View()), auctionId, bidder, maxBidAmount) == Ok(View())
      ensures r.Err? ==> UpdateBidder(old(View()), auctionId, bidder, maxBidAmount) == Err(r.error)
      ensures r.Err? ==> View() == old(View())
    {
      if !(1 <= auctionId <= |listings|) { return Err(NotFound); }
      var l := listings[auctionId - 1];
      if bidder !in l.allowed { return Err(NotFound); }
      if !ValidAddr(bidder) { return Err(InvalidAddress); }
      if maxBidAmount <= 0 { return Err(InvalidMaxBidAmount); }
      var entry := Allowance(Canonical(bidder).upper, maxBidAmount);
      listings := listings[auctionId - 1 := l.(allowed := l.allowed[bidder := entry])];
      r := Ok(());
    }

    /** What one auction's bids add to a bidder's total: each of the bidder's index entries is parsed and looked up. */
    method TotalInBook(book: seq<Bid>, auctionId: nat, a: Addr, payingDenom: Denom) returns (total: nat)
      ensures total == SumBy(book, From(a, Reread(Books(listings), InAuction(auctionId, Selling(payingDenom)))))
    {
      var books := Books(listings);
      total := 0;
      for j := 0 to |book|
        invariant total == SumBy(book[..j], From(a, Reread(books, InAuction(auctionId, Selling(payingDenom)))))
      {
        assert book[..j + 1][..j] == book[..j];
        if book[j].bidder.addr == a {
          var found := ReadBack(books, book[j]);
          if found.auctionId == auctionId {
            total := total + SellingAmount(found, payingDenom);
          }
        }
      }
      assert book[..|book|] == book;
    }

    /** The loop over `GetBidsByBidder`: index keys are ordered by auction and bid id. */
    method TotalBidAmount(auctionId: nat, a: Addr, payingDenom: Denom) returns (total: nat)
      ensures total == IndexTotal(Books(listings), auctionId, a, payingDenom)
    {
      ghost var books := Books(listings);
      ghost var f := From(a, Reread(books, InAuction(auctionId, Selling(payingDenom))));
      total := 0;
      for i := 0 to |listings|
        invariant total == SumBy(Flatten(books[..i]), f)
      {
        assert books[..i + 1][..i] == books[..i];
        SumConcat(Flatten(books[..i]), books[i], f);
        var t := TotalInBook(listings[i].bids, auctionId, a, payingDenom);
        total := total + t;
      }
      assert books[..|books|] == books;
    }

    method ValidateFixedPriceBid(l: Listing, bid: Bid) returns (r: Result<()>)
      ensures r == CheckFixedPriceBid(Books(listings), l, bid)
    {
      var a := l.auction;
      if !a.kind.FixedPriceAuction? { return Err(IncorrectAuctionType); }
      if bid.coin.denom != a.payingDenom && bid.coin.denom != a.sellingCoin.denom { return Err(IncorrectCoinDenom); }
      if bid.price != a.startPrice { return Err(InvalidStartPrice); }
      var amount := SellingAmount(bid, a.payingDenom);
      if a.kind.remaining < amount { return Err(InsufficientRemainingAmount); }
      var total := TotalBidAmount(a.id, bid.bidder.addr, a.payingDenom);
      total := total + amount;
      r := if total > MaxFor(l.allowed, bid.bidder.addr) then Err(OverMaxBidAmountLimit) else Ok(());
    }

    /** `ValidateBatchWorthBid` and `ValidateBatchManyBid`. */
    method ValidateBatchBid(l: Listing, bid: Bid, denom: Denom) returns (r: Result<()>)
      ensures r == CheckBatchBid(l, bid, denom)
    {
      if !l.auction.kind.BatchAuction? { return Err(IncorrectAuctionType); }
      if bid.coin.denom != denom { return Err(IncorrectCoinDenom); }
      var amount := SellingAmount(bid, l.auction.payingDenom);
      r := if amount > MaxFor(l.allowed, bid.bidder.addr) then Err(OverMaxBidAmountLimit) else Ok(());
    }

    method PlaceBid(auctionId: nat, bidder: Text, typ: BidType, price: Dec, coin: Coin) returns (r: Result<()>)
      modifies this
      ensures r.Ok? ==> PlaceNewBid(old(View()), auctionId, bidder, typ, price, coin) == Ok(View())
      ensures r.Err? ==> PlaceNewBid(old(View()), auctionId, bidder, typ, price, coin) == Err(r.error)
    {
      if !ValidAddr(bidder.addr) { return Err(InvalidAddress); }
      if price == 0 || coin.amount == 0 { return Err(InvalidRequest); }
      if !(1 <= auctionId <= |listings|) { return Err(NotFound); }
      var l := listings[auctionId - 1];
      if l.auction.status != Started { return Err(InvalidAuctionStatus); }
      if l.auction.kind.BatchAuction? && price < l.auction.kind.minBidPrice { return Err(InsufficientMinBidPrice); }
      if bidder.addr !in l.allowed { return Err(NotAllowedBidder); }
      r := FundCommunityPool(params.bidFee, bidder.addr);
      if r.Err? { return; }
      var bid := Bid(auctionId, |l.bids| + 1, bidder, typ, price, coin, false);
      r := ReserveBid(auctionId - 1, bid);
    }

    /** The part of `PlaceBid` that depends on the bid type, and the writes. */
    method ReserveBid(i: nat, bid: Bid) returns (r: Result<()>)
      requires i < |listings|
      modifies this`bank, this`listings
      ensures |listings| == |old(listings)| && listings == old(listings)[i := listings[i]]
      ensures r.Ok? ==> AcceptBid(old(bank), Books(old(listings)), old(listings)[i], bid) == Ok((bank, listings[i]))
      ensures r.Err? ==> AcceptBid(old(bank), Books(old(listings)), old(listings)[i], bid) == Err(r.error)
    {
      var l := listings[i];
      var d := l.auction.payingDenom;
      if bid.typ == FixedPrice {
        r := ValidateFixedPriceBid(l, bid);
        if r.Err? { return; }
        r := SendCoins(User(bid.bidder.addr), Reserve(PayingReserve, bid.auctionId), d, PayingAmount(bid, d));
        if r.Err? { return; }
        var kind := FixedPriceAuction(l.auction.kind.remaining - SellingAmount(bid, d));
        listings := listings[i := l.(auction := l.auction.(kind := kind), bids := l.bids + [bid.(isMatched := true)])];
      } else {
        r := ValidateBatchBid(l, bid, if bid.typ == BatchWorth then d else l.auction.sellingCoin.denom);
        if r.Err? { return; }
        var reserve := if bid.typ == BatchWorth then bid.coin.amount else PayingAmount(bid, d);
        r := SendCoins(User(bid.bidder.addr), Reserve(PayingReserve, bid.auctionId), d, reserve);
        if r.Err? { return; }
        listings := listings[i := l.(bids := l.bids + [bid])];
      }
    }

    method ModifyBid(auctionId: nat, bidder: Addr, bidId: nat, price: Dec, coin: Coin) returns (r: Result<()>)
      modifies this
      ensures r.Ok? ==> ModifyOldBid(old(View()), auctionId, bidder, bidId, price, coin) == Ok(View())
      ensures r.Err? ==> ModifyOldBid(old(View()), auctionId, bidder, bidId, price, coin) == Err(r.error)
    {
      if !ValidAddr(bidder) { return Err(InvalidAddress); }
      if price == 0 || coin.amount == 0 { return Err(InvalidRequest); }
      if !(1 <= auctionId <= |listings|) { return Err(NotFound); }
      var l := listings[auctionId - 1];
      if l.auction.status != Started { return Err(InvalidAuctionStatus); }
      if !l.auction.kind.BatchAuction? { return Err(IncorrectAuctionType); }
      if !(1 <= bidId <= |l.bids|) { return Err(NotFound); }
      var bid := l.bids[bidId - 1];
      if bid.bidder.addr != bidder { return Err(Unauthorized); }
      if price < l.auction.kind.minBidPrice { return Err(InsufficientMinBidPrice); }
      if bid.coin.denom != coin.denom { return Err(IncorrectCoinDenom); }
      if price < bid.price || coin.amount < bid.coin.amount { return Err(InvalidRequest); }
      if price == bid.price && coin.amount == bid.coin.amount { return Err(InvalidRequest); }
      var diff: int := 0;
      match bid.typ {
        case BatchWorth => diff := coin.amount - bid.coin.amount;
        case BatchMany => diff := ToPaying(coin.amount, price) - ToPaying(bid.coin.amount, bid.price);
        case FixedPrice =>
      }
      if diff > 0 {
        r := SendCoins(User(bidder), Reserve(PayingReserve, auctionId), l.auction.payingDenom, diff);
        if r.Err? { return; }
      }
      bid := bid.(price := price, coin := coin);
      listings := listings[auctionId - 1 := l.(bids := l.bids[bidId - 1 := bid])];
      r := Ok(());
    }

    // ----- Closing

    method AllocateSellingCoin(a: Auction, allocation: map<Text, nat>) returns (r: Result<()>)
      modifies this`bank
      ensures r.Ok? ==> PayOut(old(bank), SellingRes(a), a.sellingCoin.denom, allocation) == Ok(bank)
      ensures r.Err? ==> PayOut(old(bank), SellingRes(a), a.sellingCoin.denom, allocation) == Err(r.error)
    {
      r := InputOutputCoins(SellingRes(a), a.sellingCoin.denom, allocation);
    }

    method RefundRemainingSellingCoin(a: Auction) returns (r: Result<()>)
      modifies this`bank
      ensures r.Ok? && bank == SendRest(old(bank), SellingRes(a), User(a.auctioneer), a.sellingCoin.denom)
    {
      var d := a.sellingCoin.denom;
      r := SendCoins(SellingRes(a), User(a.auctioneer), d, Bal(bank, SellingRes(a), d));
    }

    /** A negative refund cannot be made into a coin: the SDK panics. */
    method RefundPayingCoin(a: Auction, refund: map<Text, int>) returns (r: Result<()>)
      modifies this`bank
      ensures r.Ok? ==> && (forall x :: x in refund ==> 0 <= refund[x])
                        && PayOut(old(bank), PayingRes(a), a.payingDenom, Clip(refund)) == Ok(bank)
      ensures r.Err? ==> || (r.error == Panic && exists x :: x in refund && refund[x] < 0)
                         || (&& (forall x :: x in refund ==> 0 <= refund[x])
                             && PayOut(old(bank), PayingRes(a), a.payingDenom, Clip(refund)) == Err(r.error))
    {
      var amounts: map<Text, nat> := map[];
      var todo := refund.Keys;
      while todo != {}
        invariant todo <= refund.Keys && amounts.Keys == refund.Keys - todo
        invariant forall x :: x in amounts ==> 0 <= refund[x] == amounts[x]
      {
        var x :| x in todo;
        if refund[x] < 0 {
          return Err(Panic);
        }
        amounts, todo := amounts[x := refund[x]], todo - {x};
      }
      assert amounts == Clip(refund);
      r := InputOutputCoins(PayingRes(a), a.payingDenom, amounts);
    }

    method ApplyVestingSchedules(i: nat) returns (r: Result<()>)
      requires i < |listings|
      modifies this`bank, this`listings
      ensures |listings| == |old(listings)| && listings == old(listings)[i := listings[i]]
      ensures r.Ok? ==> ApplyVesting(old(bank), old(listings)[i]) == Ok((bank, listings[i]))
      ensures r.Err? ==> ApplyVesting(old(bank), old(listings)[i]) == Err(r.error)
    {
      var l := listings[i];
      var a := l.auction;
      var reserve := Bal(bank, PayingRes(a), a.payingDenom);
      if |a.schedules| == 0 {
        r := SendCoins(PayingRes(a), User(a.auctioneer), a.payingDenom, reserve);
        listings := listings[i := l.(auction := a.(status := Finished))];
      } else {
        r := SendCoins(PayingRes(a), Reserve(VestingReserve, a.id), a.payingDenom, reserve);
        var queues := FillQueues(l.queues, reserve, a.schedules);
        if queues.Err? {
          return Err(queues.error);
        }
        listings := listings[i := l.(auction := a.(status := InVesting), queues := queues.value)];
      }
    }

    method CloseFixedPriceAuction(i: nat) returns (r: Result<()>)
      requires i < |listings|
      modifies this`bank, this`listings
      ensures |listings| == |old(listings)| && listings == old(listings)[i := listings[i]]
      ensures r.Ok? ==> CloseFixed(old(bank), old(listings)[i]) == Ok((bank, listings[i]))
      ensures r.Err? ==> CloseFixed(old(bank), old(listings)[i]) == Err(r.error)
    {
      var l := listings[i];
      var info := CalculateFixedPriceAllocation(l.bids, l.auction.startPrice, l.auction.payingDenom);
      r := AllocateSellingCoin(l.auction, info.allocation);
      if r.Err? { return; }
      r := RefundRemainingSellingCoin(l.auction);
      r := ApplyVestingSchedules(i);
    }

    method FinishBatchAuction(i: nat, info: MatchingInfo) returns (r: Result<()>)
      requires i < |listings|
      modifies this`bank, this`listings
      ensures |listings| == |old(listings)| && listings == old(listings)[i := listings[i]]
      ensures r.Ok? ==> SettleBatch(old(bank), old(listings)[i], info) == Ok((bank, listings[i]))
      ensures r.Err? ==> SettleBatch(old(bank), old(listings)[i], info) == Err(r.error)
    {
      var a := listings[i].auction;
      r := AllocateSellingCoin(a, info.allocation);
      if r.Err? { return; }
      r := RefundRemainingSellingCoin(a);
      r := RefundPayingCoin(a, info.refund);
      if r.Err? { return; }
      r := ApplyVestingSchedules(i);
    }

    /** The loop that stores the matched bids with their flag set. */
    method StoreMatched(bids: seq<Bid>, matched: seq<Bid>) returns (bids': seq<Bid>)
      ensures bids' == MarkMatched(bids, matched)
      ensures (forall i :: 0 <= i < |bids| ==> bids[i].id == i + 1) && (forall b :: b in matched ==> b in bids) ==>
                && |bids'| == |bids|
                && forall i :: 0 <= i < |bids| ==>
                     bids'[i] == bids[i].(isMatched := bids[i].isMatched || bids[i] in matched)
    {
      bids' := bids;
      for j := 0 to |matched|
        invariant bids' == MarkMatched(bids, matched[..j])
      {
        var b := matched[j].(isMatched := true);
        assert matched[..j + 1][..j] == matched[..j];
        if 1 <= b.id <= |bids'| {
          bids' := bids'[b.id - 1 := b];
        }
      }
      assert matched[..|matched|] == matched;
      if (forall i :: 0 <= i < |bids| ==> bids[i].id == i + 1) && (forall b :: b in matched ==> b in bids) {
        MarkSetsFlags(bids, matched);
      }
    }

    /** Calculates the allocation and stores the matched bids and their number, unless the matching panics. */
    method RecordMatch(i: nat, hint: seq<Bid>) returns (info: MatchingInfo, panicked: bool)
      requires i < |listings| && BatchBook(listings[i].bids, listings[i].auction.payingDenom)
      modifies this`listings
      ensures var l := old(listings)[i];
              && (panicked <==> Stranger(l, hint))
              && (panicked ==> listings == old(listings))
              && (!panicked ==>
                    && info == BatchInfo(l, hint).0
                    && |listings| == |old(listings)| && listings[i] == RecordMatched(l, BatchInfo(l, hint).1)
                    && listings == old(listings)[i := listings[i]])
    {
      var l := listings[i];
      var matched;
      info, matched, panicked :=
        CalculateBatchAllocation(l.bids, hint, l.auction.sellingCoin.amount, l.auction.payingDenom, Caps(l.allowed));
      if !panicked {
        var bids := StoreMatched(l.bids, matched);
        listings := listings[i := l.(bids := bids, matchedLen := info.matchedLen)];
      }
    }

    method CloseBatchAuction(i: nat, hint: seq<Bid>) returns (r: Result<()>)
      requires i < |listings| && listings[i].auction.kind.BatchAuction? && listings[i].auction.endTimes != []
      requires BatchBook(listings[i].bids, listings[i].auction.payingDenom)
      modifies this`bank, this`listings
      ensures |listings| == |old(listings)| && listings == old(listings)[i := listings[i]]
      ensures r.Ok? ==> CloseBatch(old(bank), params.extendedPeriod, old(listings)[i], hint) == Ok((bank, listings[i]))
      ensures r.Err? ==> CloseBatch(old(bank), params.extendedPeriod, old(listings)[i], hint) == Err(r.error)
    {
      var l := listings[i];
      var info, panicked := RecordMatch(i, hint);
      RoundGoesOn(bank, params.extendedPeriod, l, hint, panicked, info, listings[i]);
      if panicked {
        SameAt(listings, i);
        return Err(Panic);
      }
      ghost var l1 := listings[i];
      r := CloseOrExtend(i, l.matchedLen, info);
      TwiceAt(old(listings), i, l1, listings[i]);
    }

    method CloseOrExtend(i: nat, lastMatchedLen: nat, info: MatchingInfo) returns (r: Result<()>)
      requires i < |listings| && listings[i].auction.kind.BatchAuction? && listings[i].auction.endTimes != []
      modifies this`bank, this`listings
      ensures |listings| == |old(listings)| && listings == old(listings)[i := listings[i]]
      ensures var l := old(listings)[i];
              EndRound(old(bank), params.extendedPeriod, l, lastMatchedLen, info)
              == if r.Ok? then Ok((bank, listings[i])) else Err(r.error)
    {
      var again := NeedsRound(listings[i].auction, lastMatchedLen, info.matchedLen);
      if again {
        var l := listings[i];
        var ends := l.auction.endTimes;
        var nextEndTime := ends[|ends| - 1] + params.extendedPeriod * NANOS_PER_DAY;
        listings := listings[i := l.(auction := l.auction.(endTimes := ends + [nextEndTime]))];
        r := Ok(());
      } else {
        r := FinishBatchAuction(i, info);
      }
    }

    /** The three tests that decide between another round and closing. */
    method NeedsRound(a: Auction, lastMatchedLen: nat, matchedLen: nat) returns (again: bool)
      requires a.kind.BatchAuction?
      ensures again <==> a.kind.maxExtendedRound + 1 != |a.endTimes|
                         && ShouldExtend(lastMatchedLen, matchedLen, a.kind.extendedRoundRate)
    {
      if a.kind.maxExtendedRound + 1 == |a.endTimes| {
        return false;
      }
      if lastMatchedLen == 0 {
        return true;
      }
      var diff := ONE - RoundHalfEven(matchedLen * ONE * ONE / lastMatchedLen);
      again := diff >= a.kind.extendedRoundRate;
    }

    /** The queues are read once; each due one is paid, stored as released, and the last one ends the auction. */
    method ReleaseVestingPayingCoin(i: nat, time: Time) returns (r: Result<()>)
      requires i < |listings|
      modifies this`bank, this`listings
      ensures |listings| == |old(listings)| && listings == old(listings)[i := listings[i]]
      ensures var l := old(listings)[i];
              && (r.Ok? ==> ReleaseUpTo(old(bank), l, time, |l.queues|) == Ok((bank, listings[i])))
              && (r.Err? ==> ReleaseUpTo(old(bank), l, time, |l.queues|) == Err(r.error))
    {
      var l := listings[i];
      var a := l.auction;
      for k := 0 to |l.queues|
        invariant |listings| == |old(listings)| && listings == old(listings)[i := listings[i]]
        invariant ReleaseUpTo(old(bank), l, time, k) == Ok((bank, listings[i]))
      {
        var q := l.queues[k];
        if ShouldRelease(q, time) {
          r := SendCoins(Reserve(VestingReserve, a.id), User(a.auctioneer), a.payingDenom, q.amount);
          if r.Err? {
            ReleaseStuck(old(bank), l, time, k + 1, |l.queues|);
            return;
          }
          var m := listings[i];
          m := m.(queues := PutQueue(m.queues, q.(released := true)));
          if k == |l.queues| - 1 {
            m := m.(auction := m.auction.(status := Finished));
          }
          listings := listings[i := m];
        }
      }
      r := Ok(());
    }

    /** One auction's turn in a block: `ExecuteStandByStatus`, `ExecuteStartedStatus` or `ExecuteVestingStatus`. */
    method ExecuteStatus(i: nat, time: Time, hint: seq<Bid>) returns (r: Result<()>)
      requires i < |listings| && Shape(listings[i], i + 1) && Backed(bank, listings[i], false)
      modifies this`bank, this`listings
      ensures |listings| == |old(listings)| && listings == old(listings)[i := listings[i]]
      ensures var step := StepListing(old(bank), params.extendedPeriod, old(listings)[i], time, hint);
              step == if r.Ok? then Ok((bank, listings[i])) else Err(r.error)
    {
      var l := listings[i];
      r := Ok(());
      match l.auction.status {
        case StandBy =>
          if l.auction.startTime <= time {
            listings := listings[i := l.(auction := l.auction.(status := Started))];
          }
        case Started =>
          if l.auction.endTimes[|l.auction.endTimes| - 1] <= time {
            match l.auction.kind {
              case FixedPriceAuction(_) =>
                r := CloseFixedPriceAuction(i);
              case BatchAuction(_, _, _) =>
                ListingBook(l, i + 1);
                r := CloseBatchAuction(i, hint);
            }
          }
        case InVesting =>
          r := ReleaseVestingPayingCoin(i, time);
        case Finished =>
        case Cancelled =>
      }
    }

    /** The loop over all auctions. */
    method ExecuteAuctions(time: Time, hints: seq<seq<Bid>>) returns (panicked: bool)
      requires Inv(View(), false)
      modifies this
      ensures panicked <==> BlockUpTo(old(View()), time, hints, |old(listings)|).Err?
      ensures !panicked ==> BlockUpTo(old(View()), time, hints, |old(listings)|) == Ok(View())
    {
      ghost var s := View();
      now := time;
      panicked := false;
      for i := 0 to |listings|
        invariant |listings| == |s.listings| && params == s.params && !panicked
        invariant BlockAt(s, time, hints, i, View())
      {
        ghost var v := View();
        BlockReady(s, time, hints, i);
        var r := ExecuteStatus(i, time, HintFor(hints, i));
        BlockGoesOn(s, time, hints, i, v, r, View());
        if r.Err? {
          panicked := true;
          return;
        }
      }
    }

    /** `BeginBlocker`. An error or panic of any step stops the chain, which happens exactly when an auction trips. */
    method BeginBlocker(time: Time, hints: seq<seq<Bid>>) returns (panicked: bool)
      requires Inv(View(), false)
      modifies this
      ensures panicked <==> BlockTrips(old(View()), time, hints)
      ensures !panicked ==> Step(old(View()), BeginBlock(time, hints)) == Ok(View()) && Inv(View(), false)
    {
      ghost var s := View();
      BlockOkIff(s, time, hints);
      panicked := ExecuteAuctions(time, hints);
      if !panicked {
        BlockSafe(s, time, hints, |s.listings|, false);
      }
    }

    // ----- Transactions and runs

    method Dispatch(a: Action) returns (r: Result<()>)
      requires !a.BeginBlock?
      modifies this
      ensures r.Ok? ==> Handle(old(View()), a) == Ok(View())
      ensures r.Err? ==> Handle(old(View()), a) == Err(r.error)
    {
      match a {
        case Create(m) => r := CreateAuction(m);
        case Cancel(auctioneer, id) => r := CancelAuction(auctioneer, id);
        case AddAllowedBidders(id, bidders) => r := AddAllowedBidders(id, bidders);
        case UpdateAllowedBidder(id, bidder, amount) => r := UpdateAllowedBidder(id, bidder, amount);
        case PlaceBid(id, bidder, typ, price, coin) => r := PlaceBid(id, bidder, typ, price, coin);
        case ModifyBid(id, bidder, bidId, price, coin) => r := ModifyBid(id, bidder, bidId, price, coin);
        case Deposit(sender, dst, coin) => r := SendCoins(User(sender), dst, coin.denom, coin.amount);
        case SetParams(p) => params := p; r := Ok(());
      }
    }

    /** Any sequence of messages and blocks; a failed message is rolled back, and a block that panics ends the run. */
    method Execute(actions: seq<Action>) returns (panicked: bool)
      requires Inv(View(), false)
      modifies this
      ensures panicked <==> Run(old(View()), actions).Err?
      ensures !panicked ==> Run(old(View()), actions) == Ok(View()) && Inv(View(), false)
    {
      panicked := false;
      ghost var s := View();
      for i := 0 to |actions|
        invariant Run(s, actions[..i]) == Ok(View()) && Inv(View(), false) && !panicked
      {
        ghost var s1 := View();
        StepOkIff(s1, actions[i]);
        assert actions[..i + 1][..i] == actions[..i];
        RunNext(s, actions[..i + 1]);
        panicked := Perform(actions[i]);
        if panicked {
          RunStuck(s, actions, i + 1);
          return;
        }
      }
      assert actions[..|actions|] == actions;
    }

    /** One block, or one message as a transaction. */
    method Perform(a: Action) returns (panicked: bool)
      requires Inv(View(), false)
      modifies this
      ensures panicked <==> Panics(old(View()), a)
      ensures !panicked ==> Step(old(View()), a) == Ok(View()) && Inv(View(), false)
    {
      ghost var s := View();
      if a.BeginBlock? {
        panicked := BeginBlocker(a.time, a.hints);
      } else {
        panicked := false;
        var params0, bank0, now0, listings0 := params, bank, now, listings;
        var r := Dispatch(a);
        if r.Err? {
          params, bank, now, listings := params0, bank0, now0, listings0;
        }
        assert Step(s, a) == Ok(View());
        StepSafe(s, a, false);
      }
    }

    // ----- The registered invariants

    method SellingPoolReserveAmountInvariant() returns (broken: bool)
      ensures broken <==> exists i :: 0 <= i < |listings| && !SellingReserveOk(bank, listings[i])
    {
      var count := 0;
      for i := 0 to |listings|
        invariant 0 <= count
        invariant count != 0 <==> exists j :: 0 <= j < i && !SellingReserveOk(bank, listings[j])
      {
        var a := listings[i].auction;
        if a.status == Started {
          if Bal(bank, SellingRes(a), a.sellingCoin.denom) < a.sellingCoin.amount {
            count := count + 1;
          }
        }
      }
      broken := count != 0;
    }

    method PayingPoolReserveAmountInvariant() returns (broken: bool)
      ensures broken <==> exists i :: 0 <= i < |listings| && !PayingReserveOk(bank, listings[i])
    {
      var count := 0;
      for i := 0 to |listings|
        invariant 0 <= count
        invariant count != 0 <==> exists j :: 0 <= j < i && !PayingReserveOk(bank, listings[j])
      {
        var l := listings[i];
        var total := 0;
        if l.auction.status == Started {
          for j := 0 to |l.bids|
            invariant total == SumBy(l.bids[..j], Paying(l.auction.payingDenom))
          {
            assert l.bids[..j + 1][..j] == l.bids[..j];
            total := total + PayingAmount(l.bids[j], l.auction.payingDenom);
          }
          assert l.bids[..|l.bids|] == l.bids;
        }
        if Bal(bank, PayingRes(l.auction), l.auction.payingDenom) < total {
          count := count + 1;
        }
      }
      broken := count != 0;
    }

    method VestingPoolReserveAmountInvariant() returns (broken: bool)
      ensures broken <==> exists i :: 0 <= i < |listings| && !VestingReserveOk(bank, listings[i])
    {
      var count := 0;
      for i := 0 to |listings|
        invariant 0 <= count
        invariant count != 0 <==> exists j :: 0 <= j < i && !VestingReserveOk(bank, listings[j])
      {
        var l := listings[i];
        var total := 0;
        if l.auction.status == InVesting {
          for j := 0 to |l.queues|
            invariant total == QueueSum(l.queues[..j], Unreleased)
          {
            assert l.queues[..j + 1][..j] == l.queues[..j];
            if !l.queues[j].released {
              total := total + l.queues[j].amount;
            }
          }
          assert l.queues[..|l.queues|] == l.queues;
        }
        if Bal(bank, Reserve(VestingReserve, l.auction.id), l.auction.payingDenom) < total {
          count := count + 1;
        }
      }
      broken := count != 0;
    }
  }

  lemma RoundGoesOn(b: Bank, period: nat, l: Listing, hint: seq<Bid>, panicked: bool, info: MatchingInfo, l1: Listing)
    requires l.auction.kind.BatchAuction? && l.auction.endTimes != [] && (panicked <==> Stranger(l, hint))
    requires !panicked ==> info == BatchInfo(l, hint).0 && l1 == RecordMatched(l, BatchInfo(l, hint).1)
    ensures panicked ==> CloseBatch(b, period, l, hint) == Err(Panic)
    ensures !panicked ==> l1.auction == l.auction
    ensures !panicked ==> CloseBatch(b, period, l, hint) == EndRound(b, period, l1, l.matchedLen, info)
  {
    CloseBatchIs(b, period, l, hint, BatchInfo(l, hint).0, RecordMatched(l, BatchInfo(l, hint).1));
  }

  ghost predicate BlockAt(s: State, time: Time, hints: seq<seq<Bid>>, i: nat, v: State)
    requires i <= |s.listings|
  {
    BlockUpTo(s, time, hints, i) == Ok(v)
  }

  /** What an auction's turn, done by the keeper, says about the block. */
  lemma BlockGoesOn(s: State, time: Time, hints: seq<seq<Bid>>, i: nat, v: State, r: Result<()>, v': State)
    requires i < |s.listings| == |v.listings| == |v'.listings| && BlockAt(s, time, hints, i, v)
    requires v' == v.(bank := v'.bank, listings := v.listings[i := v'.listings[i]])
    requires StepListing(v.bank, s.params.extendedPeriod, v.listings[i], time, HintFor(hints, i))
          == if r.Ok? then Ok((v'.bank, v'.listings[i])) else Err(r.error)
    ensures r.Ok? ==> BlockAt(s, time, hints, i + 1, v')
    ensures r.Err? ==> BlockUpTo(s, time, hints, |s.listings|).Err?
  {
    BlockNext(s, time, hints, i + 1, v);
    if r.Err? {
      BlockStuck(s, time, hints, i + 1, |s.listings|);
    }
  }

  lemma {:induction false} BlockStuck(s: State, time: Time, hints: seq<seq<Bid>>, k: nat, n: nat)
    requires k <= n <= |s.listings| && BlockUpTo(s, time, hints, k).Err?
    ensures BlockUpTo(s, time, hints, n).Err?
  {
    if k < n {
      BlockStuck(s, time, hints, k, n - 1);
    }
  }

  lemma RunStuck(s: State, actions: seq<Action>, k: nat)
    requires k <= |actions| && Run(s, actions[..k]).Err?
    ensures Run(s, actions).Err?
  {
    if Run(s, actions).Ok? {
      RunPrefix(s, actions, k);
    }
  }

  lemma {:induction false} ReleaseStuck(bank: Bank, l: Listing, now: Time, k: nat, n: nat)
    requires k <= n <= |l.queues| && ReleaseUpTo(bank, l, now, k).Err?
    ensures ReleaseUpTo(bank, l, now, n) == ReleaseUpTo(bank, l, now, k)
  {
    if k < n {
      ReleaseStuck(bank, l, now, k, n - 1);
    }
  }
}

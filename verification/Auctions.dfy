/**
  * The auction state machine: what every message and every block does to auctions, bids, queues and balances.
  * A message that fails is rolled back; an error inside a block makes the chain panic.
  */
module Auctions {
  import opened Types
  import opened Sums
  import opened Rounding
  import opened BidIndex
  import opened Batch
  import opened Bank
  import opened Vesting

  const MAX_VESTING_SCHEDULES := 100
  const MAX_EXTENDED_ROUND := 30
  const NANOS_PER_DAY: Time := 86_400_000_000_000

  datatype Status = StandBy | Started | InVesting | Finished | Cancelled

  datatype Kind =
    | FixedPriceAuction(remaining: nat)
    | BatchAuction(minBidPrice: Dec, maxExtendedRound: nat, extendedRoundRate: Dec)

  datatype Auction = Auction(
    id: nat, kind: Kind, auctioneer: Addr, startPrice: Dec, sellingCoin: Coin, payingDenom: Denom,
    schedules: seq<VestingSchedule>, startTime: Time, endTimes: seq<Time>, status: Status)

  /** An allowed bidder's entry, stored under the address: the case of the text it was sent with, and the cap. */
  datatype Allowance = Allowance(upper: bool, max: nat)

  /** The caps as a match sees them, by the texts of the entries. */
  function Caps(allowed: map<Addr, Allowance>): map<Text, nat> {
    map a | a in allowed :: Text(a, allowed[a].upper) := allowed[a].max
  }

  function MaxFor(allowed: map<Addr, Allowance>, a: Addr): nat {
    if a in allowed then allowed[a].max else 0
  }

  /** Everything the store holds under one auction id; bid `i` of the sequence has id `i + 1`. */
  datatype Listing = Listing(
    auction: Auction, allowed: map<Addr, Allowance>, bids: seq<Bid>, matchedLen: nat, queues: seq<VestingQueue>)

  datatype Params = Params(creationFee: seq<Coin>, bidFee: seq<Coin>, extendedPeriod: nat)

  /** Auction ids count up from 1, so listing `i` belongs to auction `i + 1`. */
  datatype State = State(params: Params, bank: Bank, now: Time, listings: seq<Listing>)

  /** The stored bids of all auctions. */
  function Books(listings: seq<Listing>): (books: seq<seq<Bid>>)
    ensures |books| == |listings| && forall i :: 0 <= i < |listings| ==> books[i] == listings[i].bids
  {
    seq(|listings|, i requires 0 <= i < |listings| => listings[i].bids)
  }

  /** The two create messages; `kind` holds what they do not share, a fixed price auction's remaining coin unset. */
  datatype CreateMsg = CreateMsg(
    auctioneer: Addr, startPrice: Dec, sellingCoin: Coin, payingDenom: Denom,
    schedules: seq<VestingSchedule>, startTime: Time, endTime: Time, kind: Kind)

  /** Texts where their case can matter, and addresses where they are only decoded. */
  datatype Action =
    | Create(msg: CreateMsg)
    | Cancel(auctioneer: Text, auctionId: nat)
    | AddAllowedBidders(auctionId: nat, bidders: seq<AllowedBidder>)
    | UpdateAllowedBidder(auctionId: nat, addr: Addr, maxBidAmount: int)
    | PlaceBid(auctionId: nat, bidder: Text, typ: BidType, price: Dec, coin: Coin)
    | ModifyBid(auctionId: nat, addr: Addr, bidId: nat, price: Dec, coin: Coin)
    | Deposit(sender: Addr, dst: Account, coin: Coin)
    | SetParams(params: Params)
    | BeginBlock(time: Time, hints: seq<seq<Bid>>)

  // ----- Messages

  function CreateBasic(m: CreateMsg): Result<()> {
    var batch := m.kind.BatchAuction?;
    :- Need(ValidAddr(m.auctioneer), InvalidAddress);
    :- Need(0 < m.startPrice, InvalidRequest);
    :- Need(batch ==> 0 < m.kind.minBidPrice, InvalidRequest);
    :- Need(0 < m.sellingCoin.amount, InvalidRequest);
    :- Need(m.sellingCoin.denom != m.payingDenom, InvalidRequest);
    :- Need(m.startTime < m.endTime, InvalidRequest);
    :- Need(SchedulesValid(m.schedules, m.endTime), InvalidVestingSchedules);
    :- Need(batch ==> 0 < m.kind.extendedRoundRate, InvalidRequest);
    Ok(())
  }

  function NewListing(m: CreateMsg, id: nat, now: Time): Listing {
    var kind := if m.kind.FixedPriceAuction? then FixedPriceAuction(m.sellingCoin.amount) else m.kind;
    Listing(
      Auction(id, kind, m.auctioneer, m.startPrice, m.sellingCoin, m.payingDenom, m.schedules,
              m.startTime, [m.endTime], if m.startTime <= now then Started else StandBy),
      map[], [], 0, [])
  }

  function CreateAuction(s: State, m: CreateMsg): Result<State> {
    var _ :- CreateBasic(m);
    :- Need(s.now <= m.endTime, InvalidRequest);
    :- Need(|m.schedules| <= MAX_VESTING_SCHEDULES, InvalidRequest);
    :- Need(m.kind.BatchAuction? ==> m.kind.maxExtendedRound <= MAX_EXTENDED_ROUND, InvalidRequest);
    var id := |s.listings| + 1;
    var b1 :- SendAll(s.bank, User(m.auctioneer), CommunityPool, s.params.creationFee);
    var b2 :- Send(b1, User(m.auctioneer), Reserve(SellingReserve, id), m.sellingCoin.denom, m.sellingCoin.amount);
    Ok(s.(bank := b2, listings := s.listings + [NewListing(m, id, s.now)]))
  }

  function SendRest(b: Bank, src: Account, dst: Account, d: Denom): (b': Bank)
    ensures forall x, e {:trigger Bal(b', x, e)} ::
              Bal(b', x, e) == Bal(b, x, e) - At(x, e, src, d, Bal(b, src, d)) + At(x, e, dst, d, Bal(b, src, d))
  {
    Send(b, src, dst, d, Bal(b, src, d)).value
  }

  function CancelAuction(s: State, auctioneer: Text, auctionId: nat): Result<State> {
    var n := |s.listings|;
    :- Need(ValidAddr(auctioneer.addr), InvalidAddress);
    :- Need(1 <= auctionId <= n, NotFound);
    var l := s.listings[auctionId - 1];
    :- Need(Canonical(l.auction.auctioneer) == auctioneer, Unauthorized);
    :- Need(l.auction.status == StandBy, InvalidAuctionStatus);
    var src, d := Reserve(SellingReserve, l.auction.id), l.auction.sellingCoin.denom;
    var bank := SendRest(s.bank, src, User(auctioneer.addr), d);
    var kind := if l.auction.kind.FixedPriceAuction? then FixedPriceAuction(0) else l.auction.kind;
    Ok(s.(bank := bank,
          listings := s.listings[auctionId - 1 := l.(auction := l.auction.(kind := kind, status := Cancelled))]))
  }

  /** The allowed list after the first `k` new entries were stored, in order, each overwriting an older one. */
  function Allow(allowed: map<Addr, Allowance>, supply: nat, bidders: seq<AllowedBidder>, k: nat)
    : Result<map<Addr, Allowance>>
    requires k <= |bidders|
  {
    if k == 0 then Ok(allowed) else
      var m :- Allow(allowed, supply, bidders, k - 1);
      var ab := bidders[k - 1];
      :- Need(ValidAddr(ab.bidder.addr), InvalidAddress);
      :- Need(0 < ab.maxBidAmount, InvalidMaxBidAmount);
      :- Need(ab.maxBidAmount <= supply, InsufficientRemainingAmount);
      Ok(m[ab.bidder.addr := Allowance(ab.bidder.upper, ab.maxBidAmount)])
  }

  function AllowBidders(s: State, auctionId: nat, bidders: seq<AllowedBidder>): Result<State> {
    var n := |s.listings|;
    :- Need(bidders != [], EmptyAllowedBidders);
    :- Need(1 <= auctionId <= n, NotFound);
    var l := s.listings[auctionId - 1];
    var allowed :- Allow(l.allowed, l.auction.sellingCoin.amount, bidders, |bidders|);
    Ok(s.(listings := s.listings[auctionId - 1 := l.(allowed := allowed)]))
  }

  /** `UpdateAllowedBidder`; the new entry carries the text the SDK writes for the address. */
  function UpdateBidder(s: State, auctionId: nat, bidder: Addr, maxBidAmount: int): Result<State> {
    var n := |s.listings|;
    :- Need(1 <= auctionId <= n, NotFound);
    var l := s.listings[auctionId - 1];
    :- Need(bidder in l.allowed, NotFound);
    :- Need(ValidAddr(bidder), InvalidAddress);
    :- Need(0 < maxBidAmount, InvalidMaxBidAmount);
    var allowed := l.allowed[bidder := Allowance(Canonical(bidder).upper, maxBidAmount)];
    Ok(s.(listings := s.listings[auctionId - 1 := l.(allowed := allowed)]))
  }

  /** `ValidateFixedPriceBid`; the bidder's earlier bids are looked up in the index. */
  function CheckFixedPriceBid(books: seq<seq<Bid>>, l: Listing, bid: Bid): Result<()> {
    var a := l.auction;
    :- Need(a.kind.FixedPriceAuction?, IncorrectAuctionType);
    :- Need(bid.coin.denom == a.payingDenom || bid.coin.denom == a.sellingCoin.denom, IncorrectCoinDenom);
    :- Need(bid.price == a.startPrice, InvalidStartPrice);
    var amount := SellingAmount(bid, a.payingDenom);
    :- Need(amount <= a.kind.remaining, InsufficientRemainingAmount);
    var total := IndexTotal(books, a.id, bid.bidder.addr, a.payingDenom) + amount;
    :- Need(total <= MaxFor(l.allowed, bid.bidder.addr), OverMaxBidAmountLimit);
    Ok(())
  }

  /** `ValidateBatchWorthBid` and `ValidateBatchManyBid`, which differ in the denom they demand. */
  function CheckBatchBid(l: Listing, bid: Bid, denom: Denom): Result<()> {
    var a := l.auction;
    :- Need(a.kind.BatchAuction?, IncorrectAuctionType);
    :- Need(bid.coin.denom == denom, IncorrectCoinDenom);
    :- Need(SellingAmount(bid, a.payingDenom) <= MaxFor(l.allowed, bid.bidder.addr), OverMaxBidAmountLimit);
    Ok(())
  }

  function CheckBid(books: seq<seq<Bid>>, l: Listing, bid: Bid): Result<()> {
    match bid.typ
    case FixedPrice => CheckFixedPriceBid(books, l, bid)
    case BatchWorth => CheckBatchBid(l, bid, l.auction.payingDenom)
    case BatchMany => CheckBatchBid(l, bid, l.auction.sellingCoin.denom)
  }

  /** The listing once an accepted bid is stored; a fixed price bid counts as matched and uses up remaining coins. */
  function AddBid(l: Listing, bid: Bid): Listing {
    var a := l.auction;
    var sold := SellingAmount(bid, a.payingDenom);
    if bid.typ == FixedPrice && a.kind.FixedPriceAuction? && sold <= a.kind.remaining then
      l.(auction := a.(kind := FixedPriceAuction(a.kind.remaining - sold)), bids := l.bids + [bid.(isMatched := true)])
    else
      l.(bids := l.bids + [bid])
  }

  /** Validates a new bid, reserves what it may cost and stores it. */
  function AcceptBid(bank: Bank, books: seq<seq<Bid>>, l: Listing, bid: Bid): Result<(Bank, Listing)> {
    var _ :- CheckBid(books, l, bid);
    var d := l.auction.payingDenom;
    var b :- Send(bank, User(bid.bidder.addr), Reserve(PayingReserve, bid.auctionId), d, PayingAmount(bid, d));
    Ok((b, AddBid(l, bid)))
  }

  /** The bidder is looked up by address; the bid keeps the text as sent. */
  function PlaceNewBid(s: State, auctionId: nat, bidder: Text, typ: BidType, price: Dec, coin: Coin): Result<State> {
    var n := |s.listings|;
    :- Need(ValidAddr(bidder.addr), InvalidAddress);
    :- Need(0 < price && 0 < coin.amount, InvalidRequest);
    :- Need(1 <= auctionId <= n, NotFound);
    var l := s.listings[auctionId - 1];
    :- Need(l.auction.status == Started, InvalidAuctionStatus);
    :- Need(l.auction.kind.BatchAuction? ==> l.auction.kind.minBidPrice <= price, InsufficientMinBidPrice);
    :- Need(bidder.addr in l.allowed, NotAllowedBidder);
    var b1 :- SendAll(s.bank, User(bidder.addr), CommunityPool, s.params.bidFee);
    var (b2, l') :- AcceptBid(b1, Books(s.listings), l, Bid(auctionId, |l.bids| + 1, bidder, typ, price, coin, false));
    Ok(s.(bank := b2, listings := s.listings[auctionId - 1 := l']))
  }

  /** What a modified bid reserves in addition; the subtraction is on integers, and only a positive result is moved. */
  function ExtraReserve(before: Bid, after: Bid): int {
    match before.typ
    case BatchWorth => after.coin.amount - before.coin.amount
    case BatchMany => ToPaying(after.coin.amount, after.price) - ToPaying(before.coin.amount, before.price)
    case FixedPrice => 0
  }

  function ModifyOldBid(s: State, auctionId: nat, bidder: Addr, bidId: nat, price: Dec, coin: Coin): Result<State> {
    var n := |s.listings|;
    :- Need(ValidAddr(bidder), InvalidAddress);
    :- Need(0 < price && 0 < coin.amount, InvalidRequest);
    :- Need(1 <= auctionId <= n, NotFound);
    var l := s.listings[auctionId - 1];
    :- Need(l.auction.status == Started, InvalidAuctionStatus);
    :- Need(l.auction.kind.BatchAuction?, IncorrectAuctionType);
    :- Need(1 <= bidId <= |l.bids|, NotFound);
    var bid := l.bids[bidId - 1];
    :- Need(bid.bidder.addr == bidder, Unauthorized);
    :- Need(l.auction.kind.minBidPrice <= price, InsufficientMinBidPrice);
    :- Need(bid.coin.denom == coin.denom, IncorrectCoinDenom);
    :- Need(bid.price <= price && bid.coin.amount <= coin.amount, InvalidRequest);
    :- Need(bid.price != price || bid.coin.amount != coin.amount, InvalidRequest);
    var bid' := bid.(price := price, coin := coin);
    var extra := ExtraReserve(bid, bid');
    var bank :- Send(s.bank, User(bidder), Reserve(PayingReserve, auctionId), l.auction.payingDenom,
                     if extra > 0 then extra else 0);
    Ok(s.(bank := bank, listings := s.listings[auctionId - 1 := l.(bids := l.bids[bidId - 1 := bid'])]))
  }

  // ----- Blocks

  function ApplyVesting(bank: Bank, l: Listing): Result<(Bank, Listing)> {
    var a := l.auction;
    var src := Reserve(PayingReserve, a.id);
    var reserve := Bal(bank, src, a.payingDenom);
    if a.schedules == [] then
      Ok((SendRest(bank, src, User(a.auctioneer), a.payingDenom), l.(auction := a.(status := Finished))))
    else
      var queues :- Enqueue(l.queues, reserve, a.schedules, |a.schedules|);
      Ok((SendRest(bank, src, Reserve(VestingReserve, a.id), a.payingDenom),
          l.(auction := a.(status := InVesting), queues := queues)))
  }

  /** `AllocateSellingCoin` followed by `RefundRemainingSellingCoin`. */
  ghost function Allocate(bank: Bank, a: Auction, allocation: map<Text, nat>): Result<Bank> {
    var src := Reserve(SellingReserve, a.id);
    var b1 :- PayOut(bank, src, a.sellingCoin.denom, allocation);
    Ok(SendRest(b1, src, User(a.auctioneer), a.sellingCoin.denom))
  }

  ghost function CloseFixed(bank: Bank, l: Listing): Result<(Bank, Listing)> {
    var b1 :- Allocate(bank, l.auction, Group(l.bids, Selling(l.auction.payingDenom)));
    ApplyVesting(b1, l)
  }

  /** `SetBid` on the matched bids, with their flag set; the bid id is the store key. */
  function MarkMatched(bids: seq<Bid>, matched: seq<Bid>): seq<Bid> {
    if matched == [] then bids else
      var before, b := MarkMatched(bids, matched[..|matched| - 1]), matched[|matched| - 1];
      if 1 <= b.id <= |before| then before[b.id - 1 := b.(isMatched := true)] else before
  }

  /** Rounds a number with twice the precision to the nearest one, ties to the even neighbour. */
  function RoundHalfEven(x: nat): (n: nat)
    ensures 2 * n * ONE - ONE <= 2 * x <= 2 * n * ONE + ONE
    ensures 2 * x == 2 * n * ONE - ONE || 2 * x == 2 * n * ONE + ONE ==> n % 2 == 0
  {
    var q, r := x / ONE, x % ONE;
    if 2 * r < ONE || (2 * r == ONE && q % 2 == 0) then q else q + 1
  }

  /** Whether too many matched bids were lost since the last round; there is nothing to compare with at first. */
  function ShouldExtend(last: nat, curr: nat, rate: Dec): bool {
    last == 0 || ONE - RoundHalfEven(curr * ONE * ONE / last) >= rate
  }

  function ExtendRound(l: Listing, period: nat): Listing
    requires l.auction.endTimes != []
  {
    var ends := l.auction.endTimes;
    l.(auction := l.auction.(endTimes := ends + [ends[|ends| - 1] + period * NANOS_PER_DAY]))
  }

  ghost function SettleBatch(bank: Bank, l: Listing, info: MatchingInfo): Result<(Bank, Listing)> {
    var b1 :- Allocate(bank, l.auction, info.allocation);
    :- Need(forall a :: a in info.refund ==> 0 <= info.refund[a], Panic);
    var b2 :- PayOut(b1, Reserve(PayingReserve, l.auction.id), l.auction.payingDenom, Clip(info.refund));
    ApplyVesting(b2, l)
  }

  ghost function BatchInfo(l: Listing, hint: seq<Bid>): (MatchingInfo, seq<Bid>) {
    var order := Arrange(l.bids, hint);
    var res := SearchResult(order, l.auction.sellingCoin.amount, Caps(l.allowed));
    (InfoOf(order, l.auction.payingDenom, res), res.bids)
  }

  /** The end of a round, after its matching was recorded in `l`: extend the auction or settle it. */
  ghost function EndRound(bank: Bank, period: nat, l: Listing, lastLen: nat, info: MatchingInfo)
    : Result<(Bank, Listing)>
    requires l.auction.kind.BatchAuction? && l.auction.endTimes != []
  {
    if l.auction.kind.maxExtendedRound + 1 != |l.auction.endTimes|
       && ShouldExtend(lastLen, info.matchedLen, l.auction.kind.extendedRoundRate)
    then Ok((bank, ExtendRound(l, period)))
    else SettleBatch(bank, l, info)
  }

  function RecordMatched(l: Listing, matched: seq<Bid>): Listing {
    l.(bids := MarkMatched(l.bids, matched), matchedLen := |matched|)
  }

  /** The end of a round of a batch auction; a bid under a text that was not allowed makes the matching panic. */
  ghost function CloseBatch(bank: Bank, period: nat, l: Listing, hint: seq<Bid>): Result<(Bank, Listing)>
    requires l.auction.kind.BatchAuction? && l.auction.endTimes != []
  {
    var stranger := SearchMeetsStranger(Arrange(l.bids, hint), l.auction.sellingCoin.amount, Caps(l.allowed));
    :- Need(!stranger, Panic);
    var (info, matched) := BatchInfo(l, hint);
    EndRound(bank, period, RecordMatched(l, matched), l.matchedLen, info)
  }

  /** `ReleaseVestingPayingCoin` after its first `k` queues; the last queue's release finishes the auction. */
  function ReleaseUpTo(bank: Bank, l: Listing, now: Time, k: nat): Result<(Bank, Listing)>
    requires k <= |l.queues|
  {
    if k == 0 then Ok((bank, l)) else
      var (b, m) :- ReleaseUpTo(bank, l, now, k - 1);
      var q := l.queues[k - 1];
      if !ShouldRelease(q, now) then Ok((b, m)) else
        var src, dst := Reserve(VestingReserve, l.auction.id), User(l.auction.auctioneer);
        var b' :- Send(b, src, dst, l.auction.payingDenom, q.amount);
        var m' := m.(queues := PutQueue(m.queues, q.(released := true)));
        Ok((b', if k == |l.queues| then m'.(auction := m'.auction.(status := Finished)) else m'))
  }

  /** One auction's part of a block. */
  ghost function StepListing(bank: Bank, period: nat, l: Listing, now: Time, hint: seq<Bid>): Result<(Bank, Listing)> {
    match l.auction.status
    case StandBy => Ok((bank, if l.auction.startTime <= now then l.(auction := l.auction.(status := Started)) else l))
    case Started =>
      :- Need(l.auction.endTimes != [], Panic);
      if l.auction.endTimes[|l.auction.endTimes| - 1] > now then Ok((bank, l))
      else if l.auction.kind.FixedPriceAuction? then CloseFixed(bank, l)
      else CloseBatch(bank, period, l, hint)
    case InVesting => ReleaseUpTo(bank, l, now, |l.queues|)
    case Finished => Ok((bank, l))
    case Cancelled => Ok((bank, l))
  }

  function HintFor(hints: seq<seq<Bid>>, i: nat): seq<Bid> {
    if i < |hints| then hints[i] else []
  }

  /** `BeginBlocker` after the first `k` auctions. */
  ghost function BlockUpTo(s: State, time: Time, hints: seq<seq<Bid>>, k: nat): (r: Result<State>)
    requires k <= |s.listings|
    ensures r.Ok? ==> |r.value.listings| == |s.listings|
  {
    if k == 0 then Ok(s.(now := time)) else
      var s1 :- BlockUpTo(s, time, hints, k - 1);
      var (bank, l) :- StepListing(s1.bank, s.params.extendedPeriod, s1.listings[k - 1], time, HintFor(hints, k - 1));
      Ok(s1.(bank := bank, listings := s1.listings[k - 1 := l]))
  }

  // ----- Runs

  function Handle(s: State, a: Action): Result<State> {
    match a
    case Create(m) => CreateAuction(s, m)
    case Cancel(auctioneer, id) => CancelAuction(s, auctioneer, id)
    case AddAllowedBidders(id, bidders) => AllowBidders(s, id, bidders)
    case UpdateAllowedBidder(id, bidder, amount) => UpdateBidder(s, id, bidder, amount)
    case PlaceBid(id, bidder, typ, price, coin) => PlaceNewBid(s, id, bidder, typ, price, coin)
    case ModifyBid(id, bidder, bidId, price, coin) => ModifyOldBid(s, id, bidder, bidId, price, coin)
    case Deposit(sender, dst, coin) =>
      var bank :- Send(s.bank, User(sender), dst, coin.denom, coin.amount);
      Ok(s.(bank := bank))
    case SetParams(params) => Ok(s.(params := params))
    case BeginBlock(_, _) => Err(InvalidRequest)
  }

  /** A block may panic; a message that fails leaves the state as it was. */
  ghost function Step(s: State, a: Action): Result<State> {
    if a.BeginBlock? then BlockUpTo(s, a.time, a.hints, |s.listings|)
    else if Handle(s, a).Ok? then Handle(s, a)
    else Ok(s)
  }

  ghost function Run(s: State, actions: seq<Action>): Result<State> {
    if actions == [] then Ok(s) else
      var s1 :- Run(s, actions[..|actions| - 1]);
      Step(s1, actions[|actions| - 1])
  }
}

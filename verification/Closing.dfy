/** Closing an auction settles it: where every coin of its reserves goes, and that nothing can fail on the way. */
module Closing {
  import opened Types
  import opened Sums
  import opened Rounding
  import opened Matching
  import opened Demand
  import opened Batch
  import opened Bank
  import opened Vesting
  import opened Auctions
  import opened Safety

  function SellingRes(a: Auction): Account {
    Reserve(SellingReserve, a.id)
  }

  function PayingRes(a: Auction): Account {
    Reserve(PayingReserve, a.id)
  }

  /** Who receives the proceeds: the auctioneer at once, or the vesting reserve. */
  function ProceedsTo(a: Auction): Account {
    if a.schedules == [] then User(a.auctioneer) else Reserve(VestingReserve, a.id)
  }

  /**
    * The balance every account must have after a settlement: both reserves are emptied, bidders get their
    * allocations and refunds, the auctioneer the unsold coins, and the proceeds go where the schedules say.
    */
  ghost function SettledBal(b: Bank, a: Auction, allocation: map<Text, nat>, refund: map<Text, nat>,
                            x: Account, e: Denom): int
  {
    var sell, pay := a.sellingCoin.denom, a.payingDenom;
    var stock, paid := Bal(b, SellingRes(a), sell), Bal(b, PayingRes(a), pay);
    Bal(b, x, e)
    - At(x, e, SellingRes(a), sell, stock) - At(x, e, PayingRes(a), pay, paid)
    + (if e == sell then OwedTo(allocation, x) else 0)
    + (if x == User(a.auctioneer) && e == sell then stock - SumMap(allocation) else 0)
    + (if e == pay then OwedTo(refund, x) else 0)
    + (if x == ProceedsTo(a) && e == pay then paid - SumMap(refund) else 0)
  }

  ghost predicate Settled(b: Bank, b': Bank, a: Auction, allocation: map<Text, nat>, refund: map<Text, nat>) {
    forall x: Account, e {:trigger Bal(b', x, e)} :: Bal(b', x, e) == SettledBal(b, a, allocation, refund, x, e)
  }

  /** What the listing looks like once its proceeds of `reserve` coins were handed over. */
  predicate Closed(l: Listing, l': Listing, reserve: int) {
    if l.auction.schedules == [] then
      l' == l.(auction := l.auction.(status := Finished))
    else
      && l' == l.(auction := l.auction.(status := InVesting), queues := l'.queues)
      && |l'.queues| == |l.auction.schedules|
      && (forall i :: 0 <= i < |l'.queues| ==>
            l'.queues[i].releaseTime == l.auction.schedules[i].releaseTime && !l'.queues[i].released)
      && QueueSum(l'.queues, All) == reserve
  }

  lemma ApplyVestingEffect(b: Bank, l: Listing)
    requires TermsOk(l.auction) && l.queues == []
    ensures var r, a := ApplyVesting(b, l), l.auction;
            && r.Ok?
            && r.value.0 == SendRest(b, PayingRes(a), ProceedsTo(a), a.payingDenom)
            && Closed(l, r.value.1, Bal(b, PayingRes(a), a.payingDenom))
            && Conserves(b, r.value.0)
  {
    var a := l.auction;
    var reserve := Bal(b, PayingRes(a), a.payingDenom);
    SendConserves(b, PayingRes(a), ProceedsTo(a), a.payingDenom, reserve);
    if a.schedules != [] {
      SplitIsExact(reserve, a.schedules, a.endTimes[0]);
    }
  }

  ghost predicate Allocated(b: Bank, b': Bank, a: Auction, allocation: map<Text, nat>) {
    var d, stock := a.sellingCoin.denom, Bal(b, SellingRes(a), a.sellingCoin.denom);
    forall x: Account, e {:trigger Bal(b', x, e)} ::
      Bal(b', x, e) == Bal(b, x, e) - At(x, e, SellingRes(a), d, stock)
        + (if e == d then OwedTo(allocation, x) else 0)
        + (if x == User(a.auctioneer) && e == d then stock - SumMap(allocation) else 0)
  }

  lemma AllocateEffect(b: Bank, a: Auction, allocation: map<Text, nat>)
    requires SumMap(allocation) <= Bal(b, SellingRes(a), a.sellingCoin.denom)
    ensures var r := Allocate(b, a, allocation);
            r.Ok? && Conserves(b, r.value) && Allocated(b, r.value, a, allocation)
  {
    var d := a.sellingCoin.denom;
    var b1 := PayOut(b, SellingRes(a), d, allocation).value;
    PayOutConserves(b, SellingRes(a), d, allocation);
    SendConserves(b1, SellingRes(a), User(a.auctioneer), d, Bal(b1, SellingRes(a), d));
  }

  ghost function Settle(b: Bank, l: Listing, allocation: map<Text, nat>, refund: map<Text, nat>)
    : Result<(Bank, Listing)>
  {
    var b1 :- Allocate(b, l.auction, allocation);
    var b2 :- PayOut(b1, PayingRes(l.auction), l.auction.payingDenom, refund);
    ApplyVesting(b2, l)
  }

  lemma ComposeSettled(b: Bank, b1: Bank, a: Auction, allocation: map<Text, nat>, refund: map<Text, nat>)
    requires a.sellingCoin.denom != a.payingDenom
    requires Allocated(b, b1, a, allocation)
    requires PayOut(b1, PayingRes(a), a.payingDenom, refund).Ok?
    ensures var b2 := PayOut(b1, PayingRes(a), a.payingDenom, refund).value;
            Settled(b, SendRest(b2, PayingRes(a), ProceedsTo(a), a.payingDenom), a, allocation, refund)
  {
    var pay := a.payingDenom;
    var b2 := PayOut(b1, PayingRes(a), pay, refund).value;
    var b3 := SendRest(b2, PayingRes(a), ProceedsTo(a), pay);
    assert Bal(b1, PayingRes(a), pay) == Bal(b, PayingRes(a), pay);
    assert Bal(b2, PayingRes(a), pay) == Bal(b, PayingRes(a), pay) - SumMap(refund);
    forall x: Account, e ensures Bal(b3, x, e) == SettledBal(b, a, allocation, refund, x, e) {
      assert Bal(b3, x, e) == Bal(b2, x, e) - At(x, e, PayingRes(a), pay, Bal(b2, PayingRes(a), pay))
                              + At(x, e, ProceedsTo(a), pay, Bal(b2, PayingRes(a), pay));
    }
  }

  lemma SettleEffect(b: Bank, l: Listing, allocation: map<Text, nat>, refund: map<Text, nat>)
    requires TermsOk(l.auction) && l.queues == []
    requires SumMap(allocation) <= Bal(b, SellingRes(l.auction), l.auction.sellingCoin.denom)
    requires SumMap(refund) <= Bal(b, PayingRes(l.auction), l.auction.payingDenom)
    ensures var r, a := Settle(b, l, allocation, refund), l.auction;
            && r.Ok?
            && Settled(b, r.value.0, a, allocation, refund)
            && Closed(l, r.value.1, Bal(b, PayingRes(a), a.payingDenom) - SumMap(refund))
            && Conserves(b, r.value.0)
  {
    var a := l.auction;
    AllocateEffect(b, a, allocation);
    var b1 := Allocate(b, a, allocation).value;
    assert Bal(b1, PayingRes(a), a.payingDenom) == Bal(b, PayingRes(a), a.payingDenom);
    var b2 := PayOut(b1, PayingRes(a), a.payingDenom, refund).value;
    PayOutConserves(b1, PayingRes(a), a.payingDenom, refund);
    ComposeSettled(b, b1, a, allocation, refund);
    ApplyVestingEffect(b2, l);
  }

  // ----- A settled listing keeps the invariant

  lemma ClosedShape(l: Listing, l': Listing, id: nat, reserve: nat)
    requires Shape(l, id) && l.auction.status == Started && Closed(l, l', reserve)
    ensures Shape(l', id)
    ensures OwedVesting(l') == if l.auction.schedules == [] then 0 else reserve
  {
    if l.auction.schedules != [] {
      QueueSumSame(l'.queues, l'.queues, Unreleased, All);
      assert !l'.queues[0].released;
    }
  }

  lemma ClosedBalances(b: Bank, b': Bank, l: Listing, id: nat, allocation: map<Text, nat>, refund: map<Text, nat>)
    requires l.auction.id == id && l.auction.sellingCoin.denom != l.auction.payingDenom
    requires Settled(b, b', l.auction, allocation, refund)
    ensures OthersKept(b, b', id)
    ensures var a := l.auction;
            && Bal(b', SellingRes(a), a.sellingCoin.denom) == 0
            && Bal(b', PayingRes(a), a.payingDenom) == 0
            && Bal(b', Reserve(VestingReserve, id), a.payingDenom)
               == Bal(b, Reserve(VestingReserve, id), a.payingDenom)
                  + if a.schedules == [] then 0 else Bal(b, PayingRes(a), a.payingDenom) - SumMap(refund)
  {
  }

  lemma ClosedBacked(b: Bank, b': Bank, l: Listing, l': Listing, id: nat,
                     allocation: map<Text, nat>, refund: map<Text, nat>, exact: bool)
    requires Shape(l, id) && Backed(b, l, exact) && l.auction.status == Started
    requires SumMap(refund) <= Bal(b, PayingRes(l.auction), l.auction.payingDenom)
    requires Settled(b, b', l.auction, allocation, refund)
    requires Closed(l, l', Bal(b, PayingRes(l.auction), l.auction.payingDenom) - SumMap(refund))
    ensures Shape(l', id) && Backed(b', l', exact) && OthersKept(b, b', id)
  {
    ClosedShape(l, l', id, Bal(b, PayingRes(l.auction), l.auction.payingDenom) - SumMap(refund));
    ClosedBalances(b, b', l, id, allocation, refund);
  }

  /** A fixed price auction closes without fail, sells what was bid and refunds nothing. */
  lemma CloseFixedSettles(b: Bank, l: Listing, id: nat, exact: bool)
    requires Shape(l, id) && Backed(b, l, exact) && l.auction.status == Started && l.auction.kind.FixedPriceAuction?
    ensures var r, sold := CloseFixed(b, l), Group(l.bids, Selling(l.auction.payingDenom));
            && r.Ok? && Settled(b, r.value.0, l.auction, sold, map[]) && Conserves(b, r.value.0)
            && Closed(l, r.value.1, Bal(b, PayingRes(l.auction), l.auction.payingDenom))
            && SumMap(sold) == l.auction.sellingCoin.amount - l.auction.kind.remaining
            && Shape(r.value.1, id) && Backed(r.value.0, r.value.1, exact) && OthersKept(b, r.value.0, id)
  {
    var sold := Group(l.bids, Selling(l.auction.payingDenom));
    GroupSum(l.bids, Selling(l.auction.payingDenom));
    SettleEffect(b, l, sold, map[]);
    assert CloseFixed(b, l) == Settle(b, l, sold, map[]);
    var (b', l') := CloseFixed(b, l).value;
    ClosedBacked(b, b', l, l', id, sold, map[], exact);
  }

  // ----- Batch auctions

  /** Marking sets the flag of the matched bids and changes nothing else. */
  lemma {:induction false} MarkSetsFlags(bids: seq<Bid>, matched: seq<Bid>)
    requires forall i :: 0 <= i < |bids| ==> bids[i].id == i + 1
    requires forall b :: b in matched ==> b in bids
    ensures |MarkMatched(bids, matched)| == |bids|
    ensures forall i :: 0 <= i < |bids| ==>
              MarkMatched(bids, matched)[i] == bids[i].(isMatched := bids[i].isMatched || bids[i] in matched)
  {
    if matched != [] {
      var n, b := |matched| - 1, matched[|matched| - 1];
      MarkSetsFlags(bids, matched[..n]);
      assert matched == matched[..n] + [b] && b in matched;
      var i :| 0 <= i < |bids| && bids[i] == b;
      assert bids[b.id - 1] == b;
    }
  }

  lemma MarkShape(l: Listing, id: nat, matched: seq<Bid>)
    requires Shape(l, id) && l.auction.kind.BatchAuction? && l.auction.status == Started
    requires forall b :: b in matched ==> b in l.bids
    ensures Shape(RecordMatched(l, matched), id) && OwedPaying(RecordMatched(l, matched)) == OwedPaying(l)
  {
    MarkSetsFlags(l.bids, matched);
    var d := l.auction.payingDenom;
    SumSame(MarkMatched(l.bids, matched), l.bids, Paying(d), Paying(d));
  }

  lemma ListingBook(l: Listing, id: nat)
    requires Shape(l, id) && l.auction.kind.BatchAuction?
    ensures BatchBook(l.bids, l.auction.payingDenom)
  {
    forall b | b in l.bids ensures BatchBid(b, l.auction.payingDenom) {
      var i :| 0 <= i < |l.bids| && l.bids[i] == b;
    }
  }

  /** Allocations fit the supply, and refunds and charges are together what the bids reserved. */
  ghost predicate InfoFits(info: MatchingInfo, l: Listing) {
    && SumMap(info.allocation) == info.totalMatched <= l.auction.sellingCoin.amount
    && (forall a :: a in info.refund ==> 0 <= info.refund[a])
    && SumMap(Clip(info.refund)) + SumMap(info.charged) == OwedPaying(l)
  }

  /** What a round's matching promises, for any arrangement of the bids: supply and reserves are never overdrawn. */
  lemma BatchInfoFits(l: Listing, id: nat, hint: seq<Bid>)
    requires Shape(l, id) && l.auction.kind.BatchAuction? && l.auction.status == Started
    ensures var (info, matched) := BatchInfo(l, hint);
            && InfoFits(info, l)
            && info.matchedLen == |matched|
            && forall b :: b in matched ==> b in l.bids
  {
    InfoOfFits(l, id, Arrange(l.bids, hint));
    MatchedInBook(l, id, Arrange(l.bids, hint));
  }

  lemma InfoOfFits(l: Listing, id: nat, order: seq<Bid>)
    requires Shape(l, id) && l.auction.kind.BatchAuction? && l.auction.status == Started
    requires multiset(order) == multiset(l.bids)
    ensures var res := SearchResult(order, l.auction.sellingCoin.amount, Caps(l.allowed));
            InfoFits(InfoOf(order, l.auction.payingDenom, res), l)
  {
    var d, supply, caps := l.auction.payingDenom, l.auction.sellingCoin.amount, Caps(l.allowed);
    ListingBook(l, id);
    BookPerm(l.bids, order, d);
    SumPerm(order, l.bids, Paying(d));
    MapsFit(order, supply, d, caps, InfoOf(order, d, SearchResult(order, supply, caps)), l);
  }

  lemma MapsFit(order: seq<Bid>, supply: nat, d: Denom, caps: map<Text, nat>, info: MatchingInfo, l: Listing)
    requires BatchBook(order, d) && info == InfoOf(order, d, SearchResult(order, supply, caps))
    requires supply == l.auction.sellingCoin.amount && SumBy(order, Paying(d)) == OwedPaying(l)
    ensures InfoFits(info, l)
  {
    AllocationsFit(order, supply, d, caps);
    RefundsBalance(order, supply, d, caps);
  }

  lemma MatchedInBook(l: Listing, id: nat, order: seq<Bid>)
    requires Shape(l, id) && l.auction.kind.BatchAuction? && multiset(order) == multiset(l.bids)
    ensures forall b :: b in SearchResult(order, l.auction.sellingCoin.amount, Caps(l.allowed)).bids ==> b in l.bids
  {
    var d, supply, caps := l.auction.payingDenom, l.auction.sellingCoin.amount, Caps(l.allowed);
    PermMembers(order, l.bids);
    ListingBook(l, id);
    BookPerm(l.bids, order, d);
    SearchResultIsMatch(order, supply, d, caps);
    var res := SearchResult(order, supply, caps);
    if res != NO_MATCH {
      FillBids(res.price.value, Visited(res.price.value, order), caps);
      VisitedMembers(res.price.value, order);
    }
  }

  /** A batch auction settles without fail: allocations, refunds and proceeds add up to its reserves. */
  lemma SettleBatchSettles(b: Bank, l: Listing, id: nat, info: MatchingInfo, exact: bool)
    requires Shape(l, id) && Backed(b, l, exact) && l.auction.status == Started && InfoFits(info, l)
    ensures var r := SettleBatch(b, l, info);
            && r.Ok? && Settled(b, r.value.0, l.auction, info.allocation, Clip(info.refund)) && Conserves(b, r.value.0)
            && Closed(l, r.value.1, Bal(b, PayingRes(l.auction), l.auction.payingDenom) - SumMap(Clip(info.refund)))
            && Shape(r.value.1, id) && Backed(r.value.0, r.value.1, exact) && OthersKept(b, r.value.0, id)
  {
    SettleEffect(b, l, info.allocation, Clip(info.refund));
    assert SettleBatch(b, l, info) == Settle(b, l, info.allocation, Clip(info.refund));
    var (b', l') := SettleBatch(b, l, info).value;
    ClosedBacked(b, b', l, l', id, info.allocation, Clip(info.refund), exact);
  }

  lemma ExtendShape(l: Listing, id: nat, period: nat)
    requires Shape(l, id) && l.auction.kind.BatchAuction? && l.auction.status == Started
    requires |l.auction.endTimes| <= l.auction.kind.maxExtendedRound
    ensures Shape(ExtendRound(l, period), id)
  {
    var ends, next := l.auction.endTimes, ExtendRound(l, period).auction.endTimes;
    assert 0 <= period * NANOS_PER_DAY;
    forall i, j | 0 <= i <= j < |next| ensures next[i] <= next[j] {
      if j == |ends| && i < j {
        assert ends[i] <= ends[|ends| - 1];
      }
    }
  }

  lemma EndRoundSafe(b: Bank, period: nat, l: Listing, id: nat, lastLen: nat, info: MatchingInfo, exact: bool)
    requires Shape(l, id) && Backed(b, l, exact) && l.auction.kind.BatchAuction? && l.auction.status == Started
    requires InfoFits(info, l)
    ensures var r := EndRound(b, period, l, lastLen, info);
            && r.Ok? && Conserves(b, r.value.0)
            && Shape(r.value.1, id) && Backed(r.value.0, r.value.1, exact) && OthersKept(b, r.value.0, id)
  {
    if l.auction.kind.maxExtendedRound + 1 != |l.auction.endTimes|
       && ShouldExtend(lastLen, info.matchedLen, l.auction.kind.extendedRoundRate) {
      ExtendShape(l, id, period);
    } else {
      SettleBatchSettles(b, l, id, info, exact);
    }
  }

  /** The matching of this round comes to a bid under a text that was not allowed. */
  ghost predicate Stranger(l: Listing, hint: seq<Bid>) {
    SearchMeetsStranger(Arrange(l.bids, hint), l.auction.sellingCoin.amount, Caps(l.allowed))
  }

  /** With the matching of this round recorded, the listing is in order, backed, and ready for `EndRound`. */
  lemma RoundRecorded(b: Bank, l: Listing, id: nat, hint: seq<Bid>, info: MatchingInfo, l1: Listing, exact: bool)
    requires Shape(l, id) && Backed(b, l, exact) && l.auction.kind.BatchAuction? && l.auction.status == Started
    requires info == BatchInfo(l, hint).0 && l1 == RecordMatched(l, BatchInfo(l, hint).1)
    ensures Shape(l1, id) && Backed(b, l1, exact) && InfoFits(info, l1)
    ensures l1.auction == l.auction && OwedPaying(l1) == OwedPaying(l)
  {
    BatchInfoFits(l, id, hint);
    MarkShape(l, id, BatchInfo(l, hint).1);
  }

  lemma CloseBatchIs(b: Bank, period: nat, l: Listing, hint: seq<Bid>, info: MatchingInfo, l1: Listing)
    requires l.auction.kind.BatchAuction? && l.auction.endTimes != []
    requires info == BatchInfo(l, hint).0 && l1 == RecordMatched(l, BatchInfo(l, hint).1)
    ensures l1.auction == l.auction
    ensures CloseBatch(b, period, l, hint)
         == if Stranger(l, hint) then Err(Panic) else EndRound(b, period, l1, l.matchedLen, info)
  {
  }

  /** The end of a round fails exactly when its matching meets a stranger; otherwise every reserve stays covered. */
  lemma CloseBatchSafe(b: Bank, period: nat, l: Listing, id: nat, hint: seq<Bid>, exact: bool)
    requires Shape(l, id) && Backed(b, l, exact) && l.auction.kind.BatchAuction? && l.auction.status == Started
    ensures var r := CloseBatch(b, period, l, hint);
            && (r.Ok? <==> !Stranger(l, hint))
            && (r.Ok? ==> && Conserves(b, r.value.0) && OthersKept(b, r.value.0, id)
                          && Shape(r.value.1, id) && Backed(r.value.0, r.value.1, exact))
  {
    var (info, matched) := BatchInfo(l, hint);
    var l1 := RecordMatched(l, matched);
    RoundRecorded(b, l, id, hint, info, l1, exact);
    CloseBatchIs(b, period, l, hint, info, l1);
    EndRoundSafe(b, period, l1, id, l.matchedLen, info, exact);
  }

  // ----- What a closed auction has paid

  /**
    * The reserves of a closed auction are empty in its denoms. Had they held exactly what was owed, the auctioneer
    * got back what was not sold, and `proceeds` went to the auctioneer or into the vesting queues. The auctioneer
    * may be one of the bidders.
    */
  ghost predicate Settlement(b: Bank, b': Bank, a: Auction, l': Listing, sold: nat, proceeds: nat,
                             allocation: map<Text, nat>, refund: map<Text, nat>, exact: bool)
  {
    var x := User(a.auctioneer);
    && Bal(b', SellingRes(a), a.sellingCoin.denom) == 0
    && Bal(b', PayingRes(a), a.payingDenom) == 0
    && l'.auction.status == (if a.schedules == [] then Finished else InVesting)
    && (exact ==>
          && Bal(b', x, a.sellingCoin.denom)
             == Bal(b, x, a.sellingCoin.denom) + OwedTo(allocation, x) + a.sellingCoin.amount - sold
          && Bal(b', ProceedsTo(a), a.payingDenom)
             == Bal(b, ProceedsTo(a), a.payingDenom) + OwedTo(refund, ProceedsTo(a)) + proceeds
          && (a.schedules != [] ==> QueueSum(l'.queues, All) == proceeds))
  }

  lemma SettledSettlement(b: Bank, b': Bank, l: Listing, l': Listing, sold: nat, proceeds: nat,
                          allocation: map<Text, nat>, refund: map<Text, nat>, exact: bool)
    requires Backed(b, l, exact) && l.auction.status == Started && l.auction.sellingCoin.denom != l.auction.payingDenom
    requires Settled(b, b', l.auction, allocation, refund)
    requires SumMap(allocation) == sold && SumMap(refund) + proceeds == OwedPaying(l)
    requires Closed(l, l', Bal(b, PayingRes(l.auction), l.auction.payingDenom) - SumMap(refund))
    ensures Settlement(b, b', l.auction, l', sold, proceeds, allocation, refund, exact)
  {
  }

  /** A batch auction that closes is settled with the maps of this round's matching. */
  lemma BatchSettled(b: Bank, period: nat, l: Listing, id: nat, hint: seq<Bid>)
    requires Shape(l, id) && Backed(b, l, false) && l.auction.kind.BatchAuction? && l.auction.status == Started
    requires var r := CloseBatch(b, period, l, hint); r.Ok? && r.value.1.auction.status != Started
    ensures var (b', l') := CloseBatch(b, period, l, hint).value;
            var (info, matched) := BatchInfo(l, hint);
            && InfoFits(info, l)
            && Settled(b, b', l.auction, info.allocation, Clip(info.refund))
            && Closed(RecordMatched(l, matched), l', Bal(b, PayingRes(l.auction), l.auction.payingDenom)
                                                     - SumMap(Clip(info.refund)))
  {
    var (info, matched) := BatchInfo(l, hint);
    var l1 := RecordMatched(l, matched);
    BatchInfoFits(l, id, hint);
    RoundRecorded(b, l, id, hint, info, l1, false);
    CloseBatchIs(b, period, l, hint, info, l1);
    EndRoundSettled(b, period, l1, id, l.matchedLen, info);
  }

  lemma EndRoundSettled(b: Bank, period: nat, l: Listing, id: nat, lastLen: nat, info: MatchingInfo)
    requires Shape(l, id) && Backed(b, l, false) && l.auction.kind.BatchAuction? && l.auction.status == Started
    requires InfoFits(info, l)
    requires var r := EndRound(b, period, l, lastLen, info); r.Ok? && r.value.1.auction.status != Started
    ensures var (b', l') := EndRound(b, period, l, lastLen, info).value;
            && Settled(b, b', l.auction, info.allocation, Clip(info.refund))
            && Closed(l, l', Bal(b, PayingRes(l.auction), l.auction.payingDenom) - SumMap(Clip(info.refund)))
  {
    SettleBatchSettles(b, l, id, info, false);
  }

  /** A batch auction that closes has sold the matched total, and its proceeds are the charges of the match. */
  lemma BatchSettlement(b: Bank, period: nat, l: Listing, id: nat, hint: seq<Bid>, exact: bool)
    requires Shape(l, id) && Backed(b, l, exact) && l.auction.kind.BatchAuction? && l.auction.status == Started
    requires var r := CloseBatch(b, period, l, hint); r.Ok? && r.value.1.auction.status != Started
    ensures var (b', l') := CloseBatch(b, period, l, hint).value;
            var info := BatchInfo(l, hint).0;
            Settlement(b, b', l.auction, l', info.totalMatched, SumMap(info.charged),
              info.allocation, Clip(info.refund), exact)
  {
    var (info, matched) := BatchInfo(l, hint);
    var (b', l') := CloseBatch(b, period, l, hint).value;
    var l1 := RecordMatched(l, matched);
    RoundRecorded(b, l, id, hint, info, l1, exact);
    BatchSettled(b, period, l, id, hint);
    SettledSettlement(b, b', l1, l', info.totalMatched, SumMap(info.charged),
      info.allocation, Clip(info.refund), exact);
  }

  /** A fixed price auction that closes has sold the offer less what is left, and its proceeds are all that was bid. */
  lemma FixedSettlement(b: Bank, l: Listing, id: nat, exact: bool)
    requires Shape(l, id) && Backed(b, l, exact) && l.auction.status == Started && l.auction.kind.FixedPriceAuction?
    ensures CloseFixed(b, l).Ok?
    ensures var (b', l') := CloseFixed(b, l).value;
            Settlement(b, b', l.auction, l', l.auction.sellingCoin.amount - l.auction.kind.remaining,
              SumBy(l.bids, Paying(l.auction.payingDenom)), Group(l.bids, Selling(l.auction.payingDenom)), map[], exact)
  {
    CloseFixedSettles(b, l, id, exact);
    var (b', l') := CloseFixed(b, l).value;
    SettledSettlement(b, b', l, l', l.auction.sellingCoin.amount - l.auction.kind.remaining,
      SumBy(l.bids, Paying(l.auction.payingDenom)), Group(l.bids, Selling(l.auction.payingDenom)), map[], exact);
  }
}

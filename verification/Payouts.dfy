/** What every account has from a closed auction: coins, charge and refund of one user, under whichever text. */
module Payouts {
  import opened Types
  import opened Sums
  import opened Rounding
  import opened Matching
  import opened Demand
  import opened Winners
  import opened BidIndex
  import opened Batch
  import opened Bank
  import opened Vesting
  import opened Auctions
  import opened Safety
  import opened Closing

  /** The text on a user's allowed entry. */
  function EntryText(allowed: map<Addr, Allowance>, x: Addr): Text {
    Text(x, x in allowed && allowed[x].upper)
  }

  /** A match sees a cap under the text of its entry and under no other. */
  lemma CapUnderText(allowed: map<Addr, Allowance>, t: Text)
    ensures t in Caps(allowed) <==> t.addr in allowed && t == EntryText(allowed, t.addr)
    ensures Get(Caps(allowed), t) == if t == EntryText(allowed, t.addr) then MaxFor(allowed, t.addr) else 0
  {
  }

  lemma {:induction false} NoCapNoCharge(visit: seq<Bid>, p: Dec, caps: map<Text, nat>, a: Text)
    requires Get(caps, a) == 0
    ensures ChargeFor(visit, p, caps, a) == 0
  {
    if visit != [] {
      NoCapNoCharge(visit[..|visit| - 1], p, caps, a);
    }
  }

  lemma BothTexts(bids: seq<Bid>, t: Text, f: Bid -> nat)
    ensures SumBy(bids, From(t.addr, f)) == SumBy(bids, Only(t, f)) + SumBy(bids, Only(Text(t.addr, !t.upper), f))
  {
    SumAdd(bids, Only(t, f), Only(Text(t.addr, !t.upper), f), From(t.addr, f));
  }

  lemma RefundOf(order: seq<Bid>, supply: nat, d: Denom, caps: map<Text, nat>, a: Text)
    requires BatchBook(order, d)
    ensures var info := InfoOf(order, d, SearchResult(order, supply, caps));
            Get(Clip(info.refund), a)
            == SumBy(order, Only(a, Paying(d))) - ChargeAt(order, caps, KeptPrice(order, supply, caps), a)
  {
    BidderOutcome(order, supply, d, caps, a);
    RefundsBalance(order, supply, d, caps);
    GroupGet(order, Paying(d), a);
  }

  lemma OwedTexts(m: map<Text, nat>, t: Text, n: int, k: int)
    requires Get(m, t) == n && Get(m, Text(t.addr, !t.upper)) == k
    ensures OwedTo(m, User(t.addr)) == n + k
  {
  }

  /** What the maps of a matching hold for one text. */
  ghost predicate Outcome(order: seq<Bid>, d: Denom, caps: map<Text, nat>, price: Option<Dec>, info: MatchingInfo,
                          t: Text)
  {
    && Get(info.allocation, t) == ShareAt(order, caps, price, t)
    && Get(Clip(info.refund), t) == SumBy(order, Only(t, Paying(d))) - ChargeAt(order, caps, price, t)
  }

  lemma OutcomeOf(order: seq<Bid>, supply: nat, d: Denom, caps: map<Text, nat>, t: Text)
    requires BatchBook(order, d)
    ensures var price, info := KeptPrice(order, supply, caps), InfoOf(order, d, SearchResult(order, supply, caps));
            Outcome(order, d, caps, price, info, t)
  {
    BidderOutcome(order, supply, d, caps, t);
    RefundOf(order, supply, d, caps, t);
  }

  lemma OtherText(order: seq<Bid>, allowed: map<Addr, Allowance>, price: Option<Dec>, x: Addr)
    ensures var other := Text(x, !EntryText(allowed, x).upper);
            ShareAt(order, Caps(allowed), price, other) == 0 == ChargeAt(order, Caps(allowed), price, other)
  {
    var other := Text(x, !EntryText(allowed, x).upper);
    CapUnderText(allowed, other);
    if price.Some? {
      NoCapNoCharge(Visited(price.value, order), price.value, Caps(allowed), other);
    }
  }

  /** What a user is owed by those maps: only the text on the allowed entry gets or pays anything. */
  lemma OwedByMatching(order: seq<Bid>, d: Denom, allowed: map<Addr, Allowance>, x: Addr, price: Option<Dec>,
                       info: MatchingInfo)
    requires forall t :: Outcome(order, d, Caps(allowed), price, info, t)
    ensures var t := EntryText(allowed, x);
            && OwedTo(info.allocation, User(x)) == ShareAt(order, Caps(allowed), price, t)
            && OwedTo(Clip(info.refund), User(x))
               == SumBy(order, From(x, Paying(d))) - ChargeAt(order, Caps(allowed), price, t)
  {
    var caps, t, other := Caps(allowed), EntryText(allowed, x), Text(x, !EntryText(allowed, x).upper);
    assert Outcome(order, d, caps, price, info, t) && Outcome(order, d, caps, price, info, other);
    OtherText(order, allowed, price, x);
    BothTexts(order, t, Paying(d));
    OwedTexts(info.allocation, t, ShareAt(order, caps, price, t), 0);
    OwedTexts(Clip(info.refund), t, SumBy(order, Only(t, Paying(d))) - ChargeAt(order, caps, price, t),
      SumBy(order, Only(other, Paying(d))));
  }

  /** What a user gets of a closed batch auction: the cap, or all that the bids under the allowed text ask for. */
  ghost function Won(l: Listing, hint: seq<Bid>, x: Addr): nat {
    var price := MatchPrice(l, hint);
    if price.None? then 0 else Min(MaxFor(l.allowed, x), Wanted(l.bids, EntryText(l.allowed, x), price.value))
  }

  ghost function MatchPrice(l: Listing, hint: seq<Bid>): Option<Dec> {
    KeptPrice(Arrange(l.bids, hint), l.auction.sellingCoin.amount, Caps(l.allowed))
  }

  /** What the user is charged for it. */
  ghost function Charged(l: Listing, hint: seq<Bid>, x: Addr): nat {
    ChargeAt(Arrange(l.bids, hint), Caps(l.allowed), MatchPrice(l, hint), EntryText(l.allowed, x))
  }

  lemma WonAndCharged(l: Listing, id: nat, hint: seq<Bid>, x: Addr)
    requires Shape(l, id) && l.auction.kind.BatchAuction?
    ensures var info := BatchInfo(l, hint).0;
            && OwedTo(info.allocation, User(x)) == Won(l, hint, x)
            && OwedTo(Clip(info.refund), User(x))
               == SumBy(l.bids, From(x, Paying(l.auction.payingDenom))) - Charged(l, hint, x)
  {
    var d, order := l.auction.payingDenom, Arrange(l.bids, hint);
    ListingBook(l, id);
    BookPerm(l.bids, order, d);
    forall t ensures Outcome(order, d, Caps(l.allowed), MatchPrice(l, hint), BatchInfo(l, hint).0, t) {
      OutcomeOf(order, l.auction.sellingCoin.amount, d, Caps(l.allowed), t);
    }
    OwedByMatching(order, d, l.allowed, x, MatchPrice(l, hint), BatchInfo(l, hint).0);
    SumPerm(order, l.bids, From(x, Paying(d)));
    CapUnderText(l.allowed, EntryText(l.allowed, x));
    if MatchPrice(l, hint).Some? {
      WantedPerm(l.bids, order, EntryText(l.allowed, x), MatchPrice(l, hint).value);
    }
  }

  /** The charge is the match price for the coins won, and less than one coin more per matched bid. */
  lemma ChargedNearPrice(l: Listing, hint: seq<Bid>, x: Addr)
    ensures var price := MatchPrice(l, hint);
            price.Some? ==>
              var wins := SumBy(MatchedAt(Arrange(l.bids, hint), Caps(l.allowed), price), One(EntryText(l.allowed, x)));
              Won(l, hint, x) * price.value <= Charged(l, hint, x) * ONE
                <= Won(l, hint, x) * price.value + wins * (ONE - 1)
    ensures MatchPrice(l, hint).None? ==> Charged(l, hint, x) == 0
  {
    var price, order := MatchPrice(l, hint), Arrange(l.bids, hint);
    if price.Some? {
      BidderPaysPrice(order, Caps(l.allowed), price.value, EntryText(l.allowed, x));
      CapUnderText(l.allowed, EntryText(l.allowed, x));
      WantedPerm(l.bids, order, EntryText(l.allowed, x), price.value);
    }
  }

  lemma SettledUser(b: Bank, b': Bank, a: Auction, allocation: map<Text, nat>, refund: map<Text, nat>,
                    x: Addr, e: Denom)
    requires Settled(b, b', a, allocation, refund) && a.sellingCoin.denom != a.payingDenom
    ensures Bal(b', User(x), e) == Bal(b, User(x), e)
      + (if e == a.sellingCoin.denom
         then OwedTo(allocation, User(x))
              + (if x == a.auctioneer then Bal(b, SellingRes(a), e) - SumMap(allocation) else 0) else 0)
      + (if e == a.payingDenom
         then OwedTo(refund, User(x))
              + (if x == a.auctioneer && a.schedules == [] then Bal(b, PayingRes(a), e) - SumMap(refund) else 0) else 0)
  {
  }

  /**
    * A closed batch auction, user by user: everyone gets the coins won, and back what the own bids reserved less the
    * own charge; the auctioneer gets besides the coins that were not sold and, without vesting, the proceeds.
    */
  lemma BatchPaysUser(b: Bank, period: nat, l: Listing, id: nat, hint: seq<Bid>, x: Addr, e: Denom)
    requires Shape(l, id) && Backed(b, l, false) && l.auction.kind.BatchAuction? && l.auction.status == Started
    requires var r := CloseBatch(b, period, l, hint); r.Ok? && r.value.1.auction.status != Started
    ensures var b', a, info := CloseBatch(b, period, l, hint).value.0, l.auction, BatchInfo(l, hint).0;
            var unsold := Bal(b, SellingRes(a), a.sellingCoin.denom) - info.totalMatched;
            var proceeds := Bal(b, PayingRes(a), a.payingDenom) - OwedPaying(l) + SumMap(info.charged);
            Bal(b', User(x), e) == Bal(b, User(x), e)
              + (if e == a.sellingCoin.denom then Won(l, hint, x) + (if x == a.auctioneer then unsold else 0) else 0)
              + (if e == a.payingDenom
                 then SumBy(l.bids, From(x, Paying(e))) - Charged(l, hint, x)
                      + (if x == a.auctioneer && a.schedules == [] then proceeds else 0)
                 else 0)
  {
    BatchSettled(b, period, l, id, hint);
    WonAndCharged(l, id, hint, x);
    var info := BatchInfo(l, hint).0;
    SettledUser(b, CloseBatch(b, period, l, hint).value.0, l.auction, info.allocation, Clip(info.refund), x, e);
  }

  lemma GroupOwed(bids: seq<Bid>, f: Bid -> nat, x: Addr)
    ensures OwedTo(Group(bids, f), User(x)) == SumBy(bids, From(x, f))
  {
    GroupGet(bids, f, Text(x, false));
    GroupGet(bids, f, Text(x, true));
    BothTexts(bids, Text(x, false), f);
  }

  /** A closed fixed price auction, user by user: everyone gets what the own bids bought. */
  lemma FixedPaysUser(b: Bank, l: Listing, id: nat, x: Addr, e: Denom)
    requires Shape(l, id) && Backed(b, l, false) && l.auction.status == Started && l.auction.kind.FixedPriceAuction?
    ensures CloseFixed(b, l).Ok?
    ensures var b', a := CloseFixed(b, l).value.0, l.auction;
            var unsold := Bal(b, SellingRes(a), a.sellingCoin.denom) - (a.sellingCoin.amount - a.kind.remaining);
            Bal(b', User(x), e) == Bal(b, User(x), e)
              + (if e == a.sellingCoin.denom
                 then SumBy(l.bids, From(x, Selling(a.payingDenom))) + (if x == a.auctioneer then unsold else 0) else 0)
              + (if e == a.payingDenom && x == a.auctioneer && a.schedules == []
                 then Bal(b, PayingRes(a), a.payingDenom) else 0)
  {
    CloseFixedSettles(b, l, id, false);
    GroupOwed(l.bids, Selling(l.auction.payingDenom), x);
    SumMapZero<Text>(map[]);
  }

  /** Every queue but the last holds its weight of the whole, rounded down, and the last the rest. */
  ghost predicate ProperSplit(queues: seq<VestingQueue>, schedules: seq<VestingSchedule>) {
    && |queues| == |schedules|
    && forall i :: 0 <= i < |queues| - 1 ==> queues[i].amount == QueueSum(queues, All) * schedules[i].weight / ONE
  }

  lemma VestingSplit(b: Bank, l: Listing)
    requires TermsOk(l.auction) && l.queues == [] && l.auction.schedules != []
    ensures ApplyVesting(b, l).Ok? && ProperSplit(ApplyVesting(b, l).value.1.queues, l.auction.schedules)
  {
    var a := l.auction;
    SplitIsExact(Bal(b, PayingRes(a), a.payingDenom), a.schedules, a.endTimes[0]);
  }

  lemma SettleBatchSplit(b: Bank, l: Listing, info: MatchingInfo)
    requires TermsOk(l.auction) && l.queues == [] && l.auction.schedules != [] && SettleBatch(b, l, info).Ok?
    ensures ProperSplit(SettleBatch(b, l, info).value.1.queues, l.auction.schedules)
  {
    var b1 := Allocate(b, l.auction, info.allocation).value;
    VestingSplit(PayOut(b1, PayingRes(l.auction), l.auction.payingDenom, Clip(info.refund)).value, l);
  }

  lemma EndRoundSplit(b: Bank, period: nat, l: Listing, lastLen: nat, info: MatchingInfo)
    requires TermsOk(l.auction) && l.queues == [] && l.auction.kind.BatchAuction? && l.auction.status == Started
    requires var r := EndRound(b, period, l, lastLen, info); r.Ok? && r.value.1.auction.status == InVesting
    ensures ProperSplit(EndRound(b, period, l, lastLen, info).value.1.queues, l.auction.schedules)
  {
    SettleBatchSplit(b, l, info);
  }

  /** The proceeds of a closed batch auction are split by the weights of its schedules. */
  lemma BatchSplit(b: Bank, period: nat, l: Listing, id: nat, hint: seq<Bid>)
    requires Shape(l, id) && l.auction.kind.BatchAuction? && l.auction.status == Started
    requires var r := CloseBatch(b, period, l, hint); r.Ok? && r.value.1.auction.status == InVesting
    ensures ProperSplit(CloseBatch(b, period, l, hint).value.1.queues, l.auction.schedules)
  {
    var (info, matched) := BatchInfo(l, hint);
    CloseBatchIs(b, period, l, hint, info, RecordMatched(l, matched));
    EndRoundSplit(b, period, RecordMatched(l, matched), l.matchedLen, info);
  }

  /** So are those of a closed fixed price auction. */
  lemma FixedSplit(b: Bank, l: Listing, id: nat)
    requires Shape(l, id) && l.auction.status == Started && l.auction.schedules != [] && CloseFixed(b, l).Ok?
    ensures ProperSplit(CloseFixed(b, l).value.1.queues, l.auction.schedules)
  {
    VestingSplit(Allocate(b, l.auction, Group(l.bids, Selling(l.auction.payingDenom))).value, l);
  }
}

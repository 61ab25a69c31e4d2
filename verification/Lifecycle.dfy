/** How auctions develop over a run: the order of their states, the number of rounds, the pay-out of vested coins. */
module Lifecycle {
  import opened Types
  import opened Rounding
  import opened Batch
  import opened Bank
  import opened Vesting
  import opened Auctions
  import opened Safety
  import opened Closing
  import opened Runs

  // ----- States only move forward

  predicate Edge(x: Status, y: Status) {
    || x == y
    || (x == StandBy && y in {Started, Cancelled})
    || (x == Started && y in {InVesting, Finished})
    || (x == InVesting && y == Finished)
  }

  /** Where a sequence of edges can lead. */
  predicate Forward(x: Status, y: Status) {
    x == y || x == StandBy || (x == Started && y in {InVesting, Finished}) || (x == InVesting && y == Finished)
  }

  /** Two versions of one bid. */
  predicate SameBid(b: Bid, c: Bid) {
    c == b.(price := c.price, coin := c.coin, isMatched := c.isMatched)
  }

  /** Later bids of an auction: none is withdrawn, lowered or handed to another bidder. */
  predicate BidsGrow(bids: seq<Bid>, bids': seq<Bid>) {
    && |bids| <= |bids'|
    && forall i :: 0 <= i < |bids| ==>
         && SameBid(bids[i], bids'[i])
         && bids[i].coin.denom == bids'[i].coin.denom
         && bids[i].price <= bids'[i].price && bids[i].coin.amount <= bids'[i].coin.amount
  }

  /** Later queues of an auction: their amounts and times stay, and a released queue stays released. */
  predicate QueuesGrow(queues: seq<VestingQueue>, queues': seq<VestingQueue>) {
    queues != [] ==>
      && |queues'| == |queues|
      && forall i :: 0 <= i < |queues| ==>
           queues'[i] == queues[i].(released := queues'[i].released) && (queues[i].released ==> queues'[i].released)
  }

  predicate Continues(l: Listing, l': Listing) {
    && l'.auction == l.auction.(kind := l'.auction.kind, endTimes := l'.auction.endTimes, status := l'.auction.status)
    && (if l.auction.kind.BatchAuction? then l'.auction.kind == l.auction.kind
        else l'.auction.kind.FixedPriceAuction? && l'.auction.kind.remaining <= l.auction.kind.remaining)
    && l.auction.endTimes <= l'.auction.endTimes
    && Forward(l.auction.status, l'.auction.status)
    && l.allowed.Keys <= l'.allowed.Keys
    && BidsGrow(l.bids, l'.bids)
    && QueuesGrow(l.queues, l'.queues)
  }

  lemma ContinuesTrans(l: Listing, m: Listing, n: Listing)
    requires Continues(l, m) && Continues(m, n)
    ensures Continues(l, n)
  {
    assert BidsGrow(l.bids, n.bids) by {
      forall i | 0 <= i < |l.bids|
        ensures && SameBid(l.bids[i], n.bids[i])
                && l.bids[i].coin.denom == n.bids[i].coin.denom
                && l.bids[i].price <= n.bids[i].price && l.bids[i].coin.amount <= n.bids[i].coin.amount
      {
        assert SameBid(l.bids[i], m.bids[i]) && SameBid(m.bids[i], n.bids[i]);
      }
    }
    assert QueuesGrow(l.queues, n.queues);
  }

  lemma SettledListing(b: Bank, l: Listing, info: MatchingInfo)
    requires SettleBatch(b, l, info).Ok?
    ensures var l' := SettleBatch(b, l, info).value.1;
            l' == l.(auction := l.auction.(status := l'.auction.status), queues := l'.queues)
            && l'.auction.status in {InVesting, Finished}
  {
  }

  lemma MarkContinues(l: Listing, id: nat, matched: seq<Bid>)
    requires Shape(l, id) && forall b :: b in matched ==> b in l.bids
    ensures Continues(l, RecordMatched(l, matched))
  {
    MarkSetsFlags(l.bids, matched);
  }

  /** A round ends with one more end time or with the auction closed; the last round, or no loss of matches, closes. */
  lemma RoundOutcome(b: Bank, period: nat, l: Listing, lastLen: nat, info: MatchingInfo)
    requires l.auction.kind.BatchAuction? && l.auction.status == Started && l.auction.endTimes != [] && l.queues == []
    requires EndRound(b, period, l, lastLen, info).Ok?
    ensures var l' := EndRound(b, period, l, lastLen, info).value.1;
            && Continues(l, l') && Edge(l.auction.status, l'.auction.status) && l'.matchedLen == l.matchedLen
            && (l'.auction.status == Started ==>
                  && l' == ExtendRound(l, period)
                  && l.auction.kind.maxExtendedRound + 1 != |l.auction.endTimes|
                  && ShouldExtend(lastLen, info.matchedLen, l.auction.kind.extendedRoundRate))
  {
    if SettleBatch(b, l, info).Ok? {
      SettledListing(b, l, info);
    }
  }

  lemma CloseBatchContinues(b: Bank, period: nat, l: Listing, id: nat, hint: seq<Bid>)
    requires Shape(l, id) && l.auction.kind.BatchAuction? && l.auction.status == Started
    requires CloseBatch(b, period, l, hint).Ok?
    ensures var l' := CloseBatch(b, period, l, hint).value.1;
            Continues(l, l') && Edge(l.auction.status, l'.auction.status)
  {
    BatchInfoFits(l, id, hint);
    var (info, matched) := BatchInfo(l, hint);
    var l1 := RecordMatched(l, matched);
    MarkContinues(l, id, matched);
    RoundOutcome(b, period, l1, l.matchedLen, info);
    ContinuesTrans(l, l1, EndRound(b, period, l1, l.matchedLen, info).value.1);
  }

  lemma StepListingContinues(b: Bank, period: nat, l: Listing, id: nat, now: Time, hint: seq<Bid>)
    requires Shape(l, id) && Backed(b, l, false)
    requires StepListing(b, period, l, now, hint).Ok?
    ensures var l' := StepListing(b, period, l, now, hint).value.1;
            Continues(l, l') && Edge(l.auction.status, l'.auction.status)
  {
    match l.auction.status
    case StandBy =>
    case Started =>
      var ends := l.auction.endTimes;
      if ends[|ends| - 1] <= now && l.auction.kind.BatchAuction? {
        CloseBatchContinues(b, period, l, id, hint);
      }
    case InVesting => ReleaseSafe(b, l, id, now, false);
    case Finished =>
    case Cancelled =>
  }

  /** The bids that an auction's turn marks: the matched ones, when a round of a batch auction ends. */
  ghost function TurnMatched(l: Listing, now: Time, hint: seq<Bid>): seq<Bid> {
    if DueToClose(l.auction, now) && l.auction.kind.BatchAuction? then BatchInfo(l, hint).1 else []
  }

  lemma TurnMatchedBids(l: Listing, id: nat, now: Time, hint: seq<Bid>)
    requires Shape(l, id)
    ensures forall b :: b in TurnMatched(l, now, hint) ==> b in l.bids
  {
    if DueToClose(l.auction, now) && l.auction.kind.BatchAuction? {
      BatchInfoFits(l, id, hint);
    }
  }

  /** An auction's turn leaves the allowed bidders alone, and marks the matched bids when a round ends. */
  lemma TurnKeeps(b: Bank, period: nat, l: Listing, id: nat, now: Time, hint: seq<Bid>)
    requires Shape(l, id) && Backed(b, l, false) && StepListing(b, period, l, now, hint).Ok?
    ensures var l' := StepListing(b, period, l, now, hint).value.1;
            l'.allowed == l.allowed && l'.bids == MarkMatched(l.bids, TurnMatched(l, now, hint))
  {
    if l.auction.status == InVesting {
      ReleaseSafe(b, l, id, now, false);
    } else if DueToClose(l.auction, now) && l.auction.kind.BatchAuction? {
      RoundKeeps(b, period, l, id, hint);
    }
  }

  lemma RoundKeeps(b: Bank, period: nat, l: Listing, id: nat, hint: seq<Bid>)
    requires Shape(l, id) && l.auction.kind.BatchAuction? && l.auction.status == Started
    requires CloseBatch(b, period, l, hint).Ok?
    ensures var l' := CloseBatch(b, period, l, hint).value.1;
            l'.allowed == l.allowed && l'.bids == MarkMatched(l.bids, BatchInfo(l, hint).1)
  {
    var (info, matched) := BatchInfo(l, hint);
    var l1 := RecordMatched(l, matched);
    CloseBatchIs(b, period, l, hint, info, l1);
    EndRoundKeeps(b, period, l1, l.matchedLen, info);
  }

  lemma EndRoundKeeps(b: Bank, period: nat, l: Listing, lastLen: nat, info: MatchingInfo)
    requires l.auction.kind.BatchAuction? && l.auction.endTimes != [] && EndRound(b, period, l, lastLen, info).Ok?
    ensures var l' := EndRound(b, period, l, lastLen, info).value.1;
            l'.allowed == l.allowed && l'.bids == l.bids
  {
    if SettleBatch(b, l, info).Ok? {
      SettledListing(b, l, info);
    }
  }

  /** A block treats auction `i` as a single step from some bank that still backs it. */
  lemma {:induction false} BlockListing(s: State, time: Time, hints: seq<seq<Bid>>, k: nat, i: nat) returns (b: Bank)
    requires Inv(s, false) && i < k <= |s.listings| && BlockUpTo(s, time, hints, k).Ok?
    ensures Shape(s.listings[i], i + 1) && Backed(b, s.listings[i], false)
    ensures var step := StepListing(b, s.params.extendedPeriod, s.listings[i], time, HintFor(hints, i));
            step.Ok? && step.value.1 == BlockUpTo(s, time, hints, k).value.listings[i]
  {
    BlockPrefix(s, time, hints, k);
    if i == k - 1 {
      BlockReady(s, time, hints, i);
      b := BlockUpTo(s, time, hints, k - 1).value.bank;
    } else {
      b := BlockListing(s, time, hints, k - 1, i);
    }
  }

  lemma BlockContinues(s: State, time: Time, hints: seq<seq<Bid>>, i: nat)
    requires Inv(s, false) && i < |s.listings| && BlockUpTo(s, time, hints, |s.listings|).Ok?
    ensures var l, l' := s.listings[i], BlockUpTo(s, time, hints, |s.listings|).value.listings[i];
            Continues(l, l') && Edge(l.auction.status, l'.auction.status)
  {
    var b := BlockListing(s, time, hints, |s.listings|, i);
    StepListingContinues(b, s.params.extendedPeriod, s.listings[i], i + 1, time, HintFor(hints, i));
  }

  /** What a message may do to a listing: cancel it before it starts, or carry it on in its state and round. */
  predicate Carries(l: Listing, l': Listing) {
    && Continues(l, l') && l'.auction.endTimes == l.auction.endTimes && l'.queues == l.queues
    && (l'.auction.status == l.auction.status || (l.auction.status == StandBy && l'.auction.status == Cancelled))
  }

  predicate CarriesAll(s: State, s': State) {
    |s.listings| <= |s'.listings| && forall i :: 0 <= i < |s.listings| ==> Carries(s.listings[i], s'.listings[i])
  }

  lemma CarriesOne(s: State, s': State, i: nat)
    requires i < |s.listings| == |s'.listings| && s'.listings == s.listings[i := s'.listings[i]]
    requires Carries(s.listings[i], s'.listings[i])
    ensures CarriesAll(s, s')
  {
  }

  lemma PlaceCarries(s: State, id: nat, bidder: Text, typ: BidType, price: Dec, coin: Coin)
    requires PlaceNewBid(s, id, bidder, typ, price, coin).Ok?
    ensures CarriesAll(s, PlaceNewBid(s, id, bidder, typ, price, coin).value)
  {
    CarriesOne(s, PlaceNewBid(s, id, bidder, typ, price, coin).value, id - 1);
  }

  lemma ModifyCarries(s: State, id: nat, bidder: Addr, bidId: nat, price: Dec, coin: Coin)
    requires ModifyOldBid(s, id, bidder, bidId, price, coin).Ok?
    ensures CarriesAll(s, ModifyOldBid(s, id, bidder, bidId, price, coin).value)
  {
    CarriesOne(s, ModifyOldBid(s, id, bidder, bidId, price, coin).value, id - 1);
  }

  lemma CancelCarries(s: State, auctioneer: Text, id: nat)
    requires CancelAuction(s, auctioneer, id).Ok?
    ensures CarriesAll(s, CancelAuction(s, auctioneer, id).value)
  {
    CarriesOne(s, CancelAuction(s, auctioneer, id).value, id - 1);
  }

  lemma AllowCarries(s: State, id: nat, bidders: seq<AllowedBidder>)
    requires AllowBidders(s, id, bidders).Ok?
    ensures CarriesAll(s, AllowBidders(s, id, bidders).value)
  {
    var l := s.listings[id - 1];
    AllowGrows(l.allowed, l.auction.sellingCoin.amount, bidders, |bidders|);
    CarriesOne(s, AllowBidders(s, id, bidders).value, id - 1);
  }

  lemma MessageCarries(s: State, a: Action)
    requires Handle(s, a).Ok?
    ensures CarriesAll(s, Handle(s, a).value)
  {
    match a
    case Create(_) =>
    case Cancel(auctioneer, id) => CancelCarries(s, auctioneer, id);
    case AddAllowedBidders(id, bidders) => AllowCarries(s, id, bidders);
    case UpdateAllowedBidder(id, _, _) => CarriesOne(s, Handle(s, a).value, id - 1);
    case PlaceBid(id, bidder, typ, price, coin) => PlaceCarries(s, id, bidder, typ, price, coin);
    case ModifyBid(id, bidder, bidId, price, coin) => ModifyCarries(s, id, bidder, bidId, price, coin);
    case Deposit(_, _, _) =>
    case SetParams(_) =>
  }

  /** One action takes an auction along at most one edge, and never undoes anything. */
  lemma StepContinues(s: State, a: Action, i: nat)
    requires Inv(s, false) && i < |s.listings| && Step(s, a).Ok?
    ensures i < |Step(s, a).value.listings|
    ensures var l, l' := s.listings[i], Step(s, a).value.listings[i];
            Continues(l, l') && Edge(l.auction.status, l'.auction.status)
  {
    if a.BeginBlock? {
      BlockContinues(s, a.time, a.hints, i);
    } else if Handle(s, a).Ok? {
      MessageCarries(s, a);
    }
  }

  lemma {:induction false} RunContinues(s: State, actions: seq<Action>, i: nat)
    requires Inv(s, false) && i < |s.listings| && Run(s, actions).Ok?
    ensures Inv(Run(s, actions).value, false) && i < |Run(s, actions).value.listings|
    ensures Continues(s.listings[i], Run(s, actions).value.listings[i])
  {
    if actions != [] {
      var n := |actions| - 1;
      RunNext(s, actions);
      RunContinues(s, actions[..n], i);
      var s1 := Run(s, actions[..n]).value;
      StepSafe(s1, actions[n], false);
      StepContinues(s1, actions[n], i);
      ContinuesTrans(s.listings[i], s1.listings[i], Step(s1, actions[n]).value.listings[i]);
    }
  }

  // ----- Rounds of a batch auction

  /** A count of matched bids that did not fall never asks for another round. */
  lemma NoLossNoRound(last: nat, curr: nat, rate: Dec)
    requires 0 < last <= curr && 0 < rate
    ensures !ShouldExtend(last, curr, rate)
  {
    var x := curr * ONE * ONE / last;
    DivBounds(curr * ONE * ONE, last);
    MulMono(last, curr, ONE * ONE, ONE * ONE);
    if x < ONE * ONE {
      MulMono(x + 1, ONE * ONE, last, last);
    }
    assert RoundHalfEven(x) >= ONE;
  }

  /**
    * Another round is asked for when the share of matched bids lost since the last round reaches the rate. The
    * quotient is rounded, so it may also be asked for when the share falls short of the rate by less than 10^-18.
    */
  lemma ExtendsOnLoss(last: nat, curr: nat, rate: Dec)
    requires 0 < last
    ensures (last - curr) * ONE >= rate * last ==> ShouldExtend(last, curr, rate)
    ensures ShouldExtend(last, curr, rate) ==> (last - curr) * ONE > (rate - 1) * last
  {
    var y := curr * ONE;
    var x := y * ONE / last;
    DivBounds(y * ONE, last);
    QuotientNear(last, y, x, RoundHalfEven(x));
    LossReaches(last, y, RoundHalfEven(x), rate);
  }

  lemma LossReaches(last: nat, y: nat, q: int, rate: int)
    requires (q - 1) * last < y < (q + 1) * last
    ensures last * ONE - y >= rate * last ==> ONE - q >= rate
    ensures ONE - q >= rate ==> last * ONE - y > (rate - 1) * last
  {
    if ONE - q >= rate {
      IntMulMono(q + 1, ONE - rate + 1, last);
    } else {
      IntMulMono(ONE - rate, q - 1, last);
    }
  }

  lemma IntMulMono(a: int, b: int, n: nat)
    requires a <= b
    ensures a * n <= b * n
  {
    assert 0 <= (b - a) * n;
  }

  /** The rounded quotient is less than one unit away from the exact one. */
  lemma QuotientNear(last: nat, y: nat, x: nat, q: nat)
    requires 0 < last && x * last <= y * ONE < (x + 1) * last
    requires 2 * q * ONE - ONE <= 2 * x <= 2 * q * ONE + ONE
    ensures (q - 1) * last < y < (q + 1) * last
  {
    IntMulMono(x + 1, (q + 1) * ONE, last);
    assert (q + 1) * ONE * last == (q + 1) * last * ONE;
    IntMulMono((q - 1) * ONE + 1, x, last);
    assert ((q - 1) * ONE + 1) * last == (q - 1) * last * ONE + last;
  }

  /** A block that finds a batch auction due closes it or adds exactly one round; the last round closes it. */
  lemma DueBatchStep(b: Bank, period: nat, l: Listing, id: nat, hint: seq<Bid>)
    requires Shape(l, id) && l.auction.kind.BatchAuction? && l.auction.status == Started
    requires CloseBatch(b, period, l, hint).Ok?
    ensures var l' := CloseBatch(b, period, l, hint).value.1;
            && (l'.auction.status == Started ==> |l'.auction.endTimes| == |l.auction.endTimes| + 1)
            && (|l.auction.endTimes| == l.auction.kind.maxExtendedRound + 1 ==> l'.auction.status != Started)
            && (0 < l.matchedLen <= l'.matchedLen ==> l'.auction.status != Started)
  {
    var (info, matched) := BatchInfo(l, hint);
    var l1 := RecordMatched(l, matched);
    BatchInfoFits(l, id, hint);
    CloseBatchIs(b, period, l, hint, info, l1);
    RoundEnds(b, period, l1, l.matchedLen, info);
  }

  lemma RoundEnds(b: Bank, period: nat, l: Listing, lastLen: nat, info: MatchingInfo)
    requires TermsOk(l.auction) && l.auction.kind.BatchAuction? && l.auction.status == Started && l.queues == []
    requires l.matchedLen == info.matchedLen && EndRound(b, period, l, lastLen, info).Ok?
    ensures var l' := EndRound(b, period, l, lastLen, info).value.1;
            && (l'.auction.status == Started ==> |l'.auction.endTimes| == |l.auction.endTimes| + 1)
            && (|l.auction.endTimes| == l.auction.kind.maxExtendedRound + 1 ==> l'.auction.status != Started)
            && (0 < lastLen <= l'.matchedLen ==> l'.auction.status != Started)
  {
    if 0 < lastLen <= info.matchedLen {
      NoLossNoRound(lastLen, info.matchedLen, l.auction.kind.extendedRoundRate);
    }
    RoundOutcome(b, period, l, lastLen, info);
  }

  /**
    * `q` is the share of the earlier matches that is left, to 18 decimals: the SDK truncates the quotient at twice that
    * precision and rounds it to the nearest, ties to the even neighbour.
    */
  predicate ShareKept(last: nat, curr: nat, q: nat)
    requires 0 < last
  {
    var x := 2 * (curr * ONE * ONE / last);
    && 2 * q * ONE - ONE <= x <= 2 * q * ONE + ONE
    && (x == 2 * q * ONE - ONE || x == 2 * q * ONE + ONE ==> q % 2 == 0)
  }

  /** The share lost, one less the share kept, reaches the rate. */
  ghost predicate LosesRate(last: nat, curr: nat, rate: Dec)
    requires 0 < last
  {
    exists q: nat :: ShareKept(last, curr, q) && rate <= ONE - q
  }

  lemma OneShareKept(last: nat, curr: nat, q: nat, r: nat)
    requires 0 < last && ShareKept(last, curr, q) && ShareKept(last, curr, r)
    ensures q == r
  {
  }

  lemma LosesRateIff(last: nat, curr: nat, rate: Dec)
    requires 0 < last
    ensures LosesRate(last, curr, rate) <==> ShouldExtend(last, curr, rate)
  {
    var q := RoundHalfEven(curr * ONE * ONE / last);
    assert ShareKept(last, curr, q);
    if r: nat :| ShareKept(last, curr, r) && rate <= ONE - r {
      OneShareKept(last, curr, q, r);
    }
  }

  /** With that rounding: losing the rate or more always counts, and losing less by 10^-18 or more never does. */
  lemma LossNearRate(last: nat, curr: nat, rate: Dec)
    requires 0 < last
    ensures (last - curr) * ONE >= rate * last ==> LosesRate(last, curr, rate)
    ensures LosesRate(last, curr, rate) ==> (last - curr) * ONE > (rate - 1) * last
  {
    LosesRateIff(last, curr, rate);
    ExtendsOnLoss(last, curr, rate);
  }

  /** The bids this round matches. */
  ghost function RoundMatches(l: Listing, hint: seq<Bid>): seq<Bid> {
    var order, caps := Arrange(l.bids, hint), Caps(l.allowed);
    MatchedAt(order, caps, KeptPrice(order, l.auction.sellingCoin.amount, caps))
  }

  /**
    * What the end of a round leaves behind. The auction stays open exactly when a round is left, and there was no count
    * of matched bids to compare with or too large a share of it was lost; it then has one more end time, the given
    * number of days after the last. In any case this round's matched bids are counted.
    */
  ghost predicate RoundLeaves(l: Listing, period: nat, matched: seq<Bid>, l': Listing)
    requires l.auction.kind.BatchAuction? && l.auction.endTimes != []
  {
    var ends := l.auction.endTimes;
    && (l'.auction.status == Started
        <==> && |ends| <= l.auction.kind.maxExtendedRound
             && (l.matchedLen == 0 || LosesRate(l.matchedLen, |matched|, l.auction.kind.extendedRoundRate)))
    && (l'.auction.status == Started ==>
          l'.auction == l.auction.(endTimes := ends + [ends[|ends| - 1] + period * 86_400_000_000_000]))
    && l'.matchedLen == |matched|
  }

  /** Exactly when the end of a round leaves a batch auction open; no coin has then moved. */
  lemma RoundStaysOpenIff(b: Bank, period: nat, l: Listing, id: nat, hint: seq<Bid>)
    requires Shape(l, id) && l.auction.kind.BatchAuction? && l.auction.status == Started
    requires CloseBatch(b, period, l, hint).Ok?
    ensures var (b', l') := CloseBatch(b, period, l, hint).value;
            RoundLeaves(l, period, RoundMatches(l, hint), l') && (l'.auction.status == Started ==> b' == b)
  {
    var (info, matched) := BatchInfo(l, hint);
    var l1 := RecordMatched(l, matched);
    RoundMatchesAre(l, hint);
    CloseBatchIs(b, period, l, hint, info, l1);
    EndRoundIff(b, period, l1, l.matchedLen, info);
  }

  lemma RoundMatchesAre(l: Listing, hint: seq<Bid>)
    ensures var (info, matched) := BatchInfo(l, hint);
            matched == RoundMatches(l, hint) && info.matchedLen == |matched|
  {
    SearchMatches(Arrange(l.bids, hint), l.auction.sellingCoin.amount, l.auction.payingDenom, Caps(l.allowed));
  }

  /** The end of a round sets the flag of the bids it matched, and changes nothing else about the bids. */
  lemma RoundMarks(b: Bank, period: nat, l: Listing, id: nat, hint: seq<Bid>)
    requires Shape(l, id) && l.auction.kind.BatchAuction? && l.auction.status == Started
    requires CloseBatch(b, period, l, hint).Ok?
    ensures var bids', matched := CloseBatch(b, period, l, hint).value.1.bids, RoundMatches(l, hint);
            && |bids'| == |l.bids|
            && forall i :: 0 <= i < |l.bids| ==>
                 bids'[i] == l.bids[i].(isMatched := l.bids[i].isMatched || l.bids[i] in matched)
  {
    RoundMatchesAre(l, hint);
    BatchInfoFits(l, id, hint);
    MarkSetsFlags(l.bids, RoundMatches(l, hint));
    RoundKeeps(b, period, l, id, hint);
  }

  lemma EndRoundIff(b: Bank, period: nat, l: Listing, lastLen: nat, info: MatchingInfo)
    requires l.auction.kind.BatchAuction? && l.auction.status == Started
    requires 0 < |l.auction.endTimes| <= l.auction.kind.maxExtendedRound + 1
    requires EndRound(b, period, l, lastLen, info).Ok?
    ensures var (b', l') := EndRound(b, period, l, lastLen, info).value;
            var ends := l.auction.endTimes;
            && (l'.auction.status == Started
                <==> && |ends| <= l.auction.kind.maxExtendedRound
                     && (lastLen == 0 || LosesRate(lastLen, info.matchedLen, l.auction.kind.extendedRoundRate)))
            && (l'.auction.status == Started ==>
                  && b' == b
                  && l'.auction == l.auction.(endTimes := ends + [ends[|ends| - 1] + period * 86_400_000_000_000]))
            && l'.matchedLen == l.matchedLen
  {
    if lastLen > 0 {
      LosesRateIff(lastLen, info.matchedLen, l.auction.kind.extendedRoundRate);
    }
    if SettleBatch(b, l, info).Ok? {
      SettledListing(b, l, info);
    }
  }

  /** A block ends the round of every batch auction that is due, with the extended period of the parameters. */
  lemma DueBlockIff(s: State, time: Time, hints: seq<seq<Bid>>, i: nat)
    requires Inv(s, false) && i < |s.listings| && BlockUpTo(s, time, hints, |s.listings|).Ok?
    requires s.listings[i].auction.kind.BatchAuction? && DueToClose(s.listings[i].auction, time)
    ensures var l, l' := s.listings[i], BlockUpTo(s, time, hints, |s.listings|).value.listings[i];
            RoundLeaves(l, s.params.extendedPeriod, RoundMatches(l, HintFor(hints, i)), l')
  {
    var b := BlockListing(s, time, hints, |s.listings|, i);
    DueTurnIff(b, s.params.extendedPeriod, s.listings[i], i + 1, time, HintFor(hints, i));
  }

  lemma DueTurnIff(b: Bank, period: nat, l: Listing, id: nat, now: Time, hint: seq<Bid>)
    requires Shape(l, id) && l.auction.kind.BatchAuction? && DueToClose(l.auction, now)
    requires StepListing(b, period, l, now, hint).Ok?
    ensures RoundLeaves(l, period, RoundMatches(l, hint), StepListing(b, period, l, now, hint).value.1)
  {
    RoundStaysOpenIff(b, period, l, id, hint);
  }

  /** Before it is closed, a batch auction gains an end time in every block that finds it due and in no other action. */
  lemma RoundsInStep(s: State, x: Action, i: nat)
    requires Inv(s, false) && i < |s.listings| && Step(s, x).Ok? && s.listings[i].auction.kind.BatchAuction?
    requires i < |Step(s, x).value.listings| && Step(s, x).value.listings[i].auction.status in {StandBy, Started}
    ensures var a, a' := s.listings[i].auction, Step(s, x).value.listings[i].auction;
            |a'.endTimes| == |a.endTimes| + if x.BeginBlock? && DueToClose(a, x.time) then 1 else 0
  {
    var l := s.listings[i];
    StepContinues(s, x, i);
    if x.BeginBlock? {
      var b := BlockListing(s, x.time, x.hints, |s.listings|, i);
      if DueToClose(l.auction, x.time) {
        DueBatchStep(b, s.params.extendedPeriod, l, i + 1, HintFor(x.hints, i));
      }
    } else if Handle(s, x).Ok? {
      MessageCarries(s, x);
    }
  }

  /** How many blocks of a run find auction `i` due, in the states they start from. */
  ghost function DueBlocks(s: State, actions: seq<Action>, i: nat): nat {
    if actions == [] then 0 else
      var n := |actions| - 1;
      var before := Run(s, actions[..n]);
      DueBlocks(s, actions[..n], i) +
      if && before.Ok? && i < |before.value.listings| && actions[n].BeginBlock?
         && DueToClose(before.value.listings[i].auction, actions[n].time)
      then 1 else 0
  }

  /**
    * Over every run that leaves a batch auction open, each block that found it due added one round and nothing else
    * did. So at most `maxExtendedRound` blocks can find it due and leave it open.
    */
  lemma {:induction false} EveryDueBlockUsesARound(s: State, actions: seq<Action>, i: nat)
    requires Inv(s, false) && i < |s.listings| && s.listings[i].auction.kind.BatchAuction?
    requires Run(s, actions).Ok? && i < |Run(s, actions).value.listings|
    requires Run(s, actions).value.listings[i].auction.status in {StandBy, Started}
    ensures var a, a' := s.listings[i].auction, Run(s, actions).value.listings[i].auction;
            |a'.endTimes| == |a.endTimes| + DueBlocks(s, actions, i) <= a.kind.maxExtendedRound + 1
  {
    RunContinues(s, actions, i);
    assert Shape(Run(s, actions).value.listings[i], i + 1);
    if actions != [] {
      var n := |actions| - 1;
      RunNext(s, actions);
      RunContinues(s, actions[..n], i);
      var s1 := Run(s, actions[..n]).value;
      StepContinues(s1, actions[n], i);
      EveryDueBlockUsesARound(s, actions[..n], i);
      RoundsInStep(s1, actions[n], i);
    }
  }

  // ----- When an auction starts, and when a fixed price auction closes

  /** What a turn does to an auction that is not closed, settled or released in it. */
  lemma QuietTurn(b: Bank, period: nat, l: Listing, now: Time, hint: seq<Bid>)
    requires l.auction.status == Started ==> l.auction.endTimes != []
    ensures var r, a := StepListing(b, period, l, now, hint), l.auction;
            && (a.status == StandBy ==>
                  r == Ok((b, if a.startTime <= now then l.(auction := a.(status := Started)) else l)))
            && (a.status == Started && now < a.endTimes[|a.endTimes| - 1] ==> r == Ok((b, l)))
            && (a.status in {Finished, Cancelled} ==> r == Ok((b, l)))
  {
  }

  /** Some block of the run reached a time. */
  predicate Reached(time: Time, times: seq<Time>) {
    exists t :: t in times && time <= t
  }

  lemma ReachedSnoc(time: Time, times: seq<Time>, now: Time)
    ensures Reached(time, times + [now]) <==> Reached(time, times) || time <= now
  {
    assert now in times + [now];
    if t :| t in times && time <= t {
      assert t in times + [now];
    }
  }

  lemma ReachedNext(time: Time, actions: seq<Action>)
    requires actions != []
    ensures var n := |actions| - 1;
            Reached(time, Times(actions))
            <==> Reached(time, Times(actions[..n])) || (actions[n].BeginBlock? && time <= actions[n].time)
  {
    var n := |actions| - 1;
    if actions[n].BeginBlock? {
      ReachedSnoc(time, Times(actions[..n]), actions[n].time);
    } else {
      assert Times(actions) == Times(actions[..n]);
    }
  }

  /** One action takes an auction out of stand-by exactly if it is a block at or after the start time, or cancels it. */
  lemma StartStep(s: State, x: Action, i: nat)
    requires Inv(s, false) && i < |s.listings| && Step(s, x).Ok? && s.listings[i].auction.status == StandBy
    ensures i < |Step(s, x).value.listings|
    ensures var a, a' := s.listings[i].auction, Step(s, x).value.listings[i].auction;
            && (a'.status == Started <==> x.BeginBlock? && a.startTime <= x.time)
            && a'.status in {StandBy, Started, Cancelled}
            && (a'.status == Cancelled ==> x.Cancel?)
  {
    StepContinues(s, x, i);
    if x.BeginBlock? {
      var b := BlockListing(s, x.time, x.hints, |s.listings|, i);
    } else if Handle(s, x).Ok? {
      MessageCarries(s, x);
      if !x.Cancel? {
        OnlyCancelCancels(s, x, i);
      }
    }
  }

  /** No other message changes an auction's status. */
  lemma OnlyCancelCancels(s: State, x: Action, i: nat)
    requires Handle(s, x).Ok? && !x.Cancel? && i < |s.listings|
    ensures i < |Handle(s, x).value.listings|
    ensures Handle(s, x).value.listings[i].auction.status == s.listings[i].auction.status
  {
    if x.PlaceBid? {
      var stored := PlacedListing(s, x.auctionId, x.bidder, x.typ, x.price, x.coin);
    }
  }

  lemma PlacedListing(s: State, id: nat, bidder: Text, typ: BidType, price: Dec, coin: Coin) returns (l': Listing)
    requires PlaceNewBid(s, id, bidder, typ, price, coin).Ok?
    ensures 1 <= id <= |s.listings| && l'.auction.status == s.listings[id - 1].auction.status
    ensures PlaceNewBid(s, id, bidder, typ, price, coin).value.listings == s.listings[id - 1 := l']
  {
    PlaceIdOk(s, id, bidder, typ, price, coin);
    var bid := Bid(id, |s.listings[id - 1].bids| + 1, bidder, typ, price, coin, false);
    PlaceUnfold(s, id, bidder, typ, price, coin, bid);
    l' := AddBid(s.listings[id - 1], bid);
  }

  /**
    * Over every run: an auction that waited and was not cancelled has left stand-by exactly when some block reached
    * its start time.
    */
  lemma {:induction false} StartRun(s: State, actions: seq<Action>, i: nat)
    requires Inv(s, false) && i < |s.listings| && Run(s, actions).Ok? && s.listings[i].auction.status == StandBy
    requires i < |Run(s, actions).value.listings| && Run(s, actions).value.listings[i].auction.status != Cancelled
    ensures Run(s, actions).value.listings[i].auction.status != StandBy
       <==> Reached(s.listings[i].auction.startTime, Times(actions))
  {
    if actions != [] {
      var n := |actions| - 1;
      RunNext(s, actions);
      RunContinues(s, actions[..n], i);
      var s1 := Run(s, actions[..n]).value;
      StepContinues(s1, actions[n], i);
      StartRun(s, actions[..n], i);
      ReachedNext(s.listings[i].auction.startTime, actions);
      if s1.listings[i].auction.status == StandBy {
        StartStep(s1, actions[n], i);
      }
    }
  }

  lemma FixedTurn(b: Bank, period: nat, l: Listing, id: nat, now: Time, hint: seq<Bid>)
    requires Shape(l, id) && Backed(b, l, false) && l.auction.status == Started && l.auction.kind.FixedPriceAuction?
    ensures var r := StepListing(b, period, l, now, hint);
            r.Ok? && (r.value.1.auction.status != Started <==> l.auction.endTimes[0] <= now)
  {
    if l.auction.endTimes[0] <= now {
      FixedSettlement(b, l, id, false);
    } else {
      QuietTurn(b, period, l, now, hint);
    }
  }

  /** One action closes a fixed price auction exactly if it is a block at or after the end time. */
  lemma FixedCloseStep(s: State, x: Action, i: nat)
    requires Inv(s, false) && i < |s.listings| && Step(s, x).Ok?
    requires s.listings[i].auction.status == Started && s.listings[i].auction.kind.FixedPriceAuction?
    ensures i < |Step(s, x).value.listings|
    ensures var a, a' := s.listings[i].auction, Step(s, x).value.listings[i].auction;
            a.endTimes != [] && (a'.status != Started <==> x.BeginBlock? && a.endTimes[0] <= x.time)
  {
    var l := s.listings[i];
    StepContinues(s, x, i);
    assert Shape(l, i + 1);
    if x.BeginBlock? {
      var b := BlockListing(s, x.time, x.hints, |s.listings|, i);
      FixedTurn(b, s.params.extendedPeriod, l, i + 1, x.time, HintFor(x.hints, i));
    } else if Handle(s, x).Ok? {
      MessageCarries(s, x);
    }
  }

  /** Over every run: a started fixed price auction has closed exactly when some block reached its end time. */
  lemma {:induction false} FixedCloseRun(s: State, actions: seq<Action>, i: nat)
    requires Inv(s, false) && i < |s.listings| && Run(s, actions).Ok?
    requires s.listings[i].auction.status == Started && s.listings[i].auction.kind.FixedPriceAuction?
    ensures s.listings[i].auction.endTimes != [] && i < |Run(s, actions).value.listings|
    ensures Run(s, actions).value.listings[i].auction.status != Started
       <==> Reached(s.listings[i].auction.endTimes[0], Times(actions))
  {
    assert Shape(s.listings[i], i + 1);
    RunContinues(s, actions, i);
    if actions != [] {
      var n := |actions| - 1;
      RunNext(s, actions);
      RunContinues(s, actions[..n], i);
      var s1 := Run(s, actions[..n]).value;
      FixedCloseRun(s, actions[..n], i);
      StepContinues(s1, actions[n], i);
      ReachedNext(s.listings[i].auction.endTimes[0], actions);
      if s1.listings[i].auction.status == Started {
        FixedCloseStep(s1, actions[n], i);
      }
    }
  }

  // ----- The pay-out of vested coins

  /** The times of a run's blocks. */
  function Times(actions: seq<Action>): seq<Time> {
    if actions == [] then [] else
      var last := actions[|actions| - 1];
      Times(actions[..|actions| - 1]) + if last.BeginBlock? then [last.time] else []
  }

  predicate Due(q: VestingQueue, times: seq<Time>) {
    q.released || exists t :: t in times && q.releaseTime <= t
  }

  lemma DueSnoc(q: VestingQueue, times: seq<Time>, now: Time)
    ensures Due(q, times + [now]) <==> Due(q, times) || q.releaseTime <= now
  {
    assert now in times + [now];
    if Due(q, times) && !q.released {
      var t :| t in times && q.releaseTime <= t;
      assert t in times + [now];
    }
  }

  /** The queues whose time was reached are released; the auction is finished exactly when these are all. */
  predicate PaidUpTo(l: Listing, times: seq<Time>, l': Listing) {
    && |l'.queues| == |l.queues|
    && (forall j :: 0 <= j < |l.queues| ==> l'.queues[j] == l.queues[j].(released := Due(l.queues[j], times)))
    && l'.auction.status in {InVesting, Finished}
    && (l'.auction.status == Finished <==> forall j :: 0 <= j < |l.queues| ==> Due(l.queues[j], times))
  }

  lemma PaidUpToBlock(l: Listing, times: seq<Time>, l1: Listing, id: nat, b: Bank, period: nat, now: Time,
                      hint: seq<Bid>)
    requires Shape(l1, id) && Backed(b, l1, false) && PaidUpTo(l, times, l1)
    requires StepListing(b, period, l1, now, hint).Ok?
    ensures PaidUpTo(l, times + [now], StepListing(b, period, l1, now, hint).value.1)
  {
    var l2 := StepListing(b, period, l1, now, hint).value.1;
    forall j | 0 <= j < |l.queues|
      ensures Due(l.queues[j], times + [now]) <==> Due(l.queues[j], times) || l.queues[j].releaseTime <= now
    {
      DueSnoc(l.queues[j], times, now);
    }
    if l1.auction.status == InVesting {
      ReleaseSafe(b, l1, id, now, false);
      assert QueuesOk(l2);
      forall j | 0 <= j < |l.queues| ensures l2.queues[j] == l.queues[j].(released := Due(l.queues[j], times + [now])) {
        assert l2.queues[j] == After(l1.queues[j], now);
      }
    }
  }

  /** What one action does to a vesting auction's queues. */
  lemma PaidUpToStep(s: State, a: Action, i: nat, l: Listing, times: seq<Time>)
    requires Inv(s, false) && i < |s.listings| && Step(s, a).Ok? && PaidUpTo(l, times, s.listings[i])
    ensures i < |Step(s, a).value.listings|
    ensures PaidUpTo(l, if a.BeginBlock? then times + [a.time] else times, Step(s, a).value.listings[i])
  {
    StepContinues(s, a, i);
    if a.BeginBlock? {
      var b := BlockListing(s, a.time, a.hints, |s.listings|, i);
      PaidUpToBlock(l, times, s.listings[i], i + 1, b, s.params.extendedPeriod, a.time, HintFor(a.hints, i));
    } else if Handle(s, a).Ok? {
      MessageCarries(s, a);
    }
  }

  /**
    * Over every run, whatever else happens in it and in whatever order its block times come: a queue is released
    * exactly when some block reached its time, and the auction is finished exactly when every queue's time was reached.
    */
  lemma {:induction false} VestingRun(s: State, actions: seq<Action>, i: nat)
    requires Inv(s, false) && i < |s.listings| && Run(s, actions).Ok? && s.listings[i].auction.status == InVesting
    ensures i < |Run(s, actions).value.listings|
    ensures PaidUpTo(s.listings[i], Times(actions), Run(s, actions).value.listings[i])
  {
    if actions == [] {
      assert Shape(s.listings[i], i + 1);
    } else {
      var n := |actions| - 1;
      RunNext(s, actions);
      VestingRun(s, actions[..n], i);
      RunSafe(s, actions[..n], false);
      PaidUpToStep(Run(s, actions[..n]).value, actions[n], i, s.listings[i], Times(actions[..n]));
    }
  }

  /** In a block just what the newly released queues hold goes from the vesting reserve to the auctioneer. */
  lemma VestingTurn(s: State, time: Time, hints: seq<seq<Bid>>, i: nat)
    requires Inv(s, false) && i < |s.listings| && s.listings[i].auction.status == InVesting
    requires BlockUpTo(s, time, hints, i + 1).Ok?
    ensures BlockUpTo(s, time, hints, i).Ok?
    ensures var b, s' := BlockUpTo(s, time, hints, i).value.bank, BlockUpTo(s, time, hints, i + 1).value;
            var a, paid := s.listings[i].auction, PaidBy(s.listings[i].queues, s'.listings[i].queues);
            0 <= paid && Moved(b, s'.bank, Reserve(VestingReserve, i + 1), User(a.auctioneer), a.payingDenom, paid)
  {
    BlockPrefix(s, time, hints, i + 1);
    BlockReady(s, time, hints, i);
    ReleaseSafe(BlockUpTo(s, time, hints, i).value.bank, s.listings[i], i + 1, time, false);
  }

  /** What the vesting reserve of auction `i` holds. */
  function Vested(s: State, i: nat): nat
    requires i < |s.listings|
  {
    Bal(s.bank, Reserve(VestingReserve, i + 1), s.listings[i].auction.payingDenom)
  }

  /**
    * Without outside deposits the vesting reserve pays over every run just the queues whose time was reached, each
    * once; when the auction is finished all that was vested has been paid.
    */
  lemma VestingPaysOut(s: State, actions: seq<Action>, i: nat)
    requires Inv(s, true) && i < |s.listings| && Run(s, actions).Ok? && s.listings[i].auction.status == InVesting
    requires forall a :: a in actions ==> !Donates(a)
    ensures i < |Run(s, actions).value.listings|
    ensures var s' := Run(s, actions).value;
            var l, l' := s.listings[i], s'.listings[i];
            && Vested(s', i) == Vested(s, i) - PaidBy(l.queues, l'.queues)
            && (l'.auction.status == Finished ==> PaidBy(l.queues, l'.queues) == Vested(s, i))
  {
    RunSafe(s, actions, true);
    RunContinues(s, actions, i);
    VestingRun(s, actions, i);
    var s' := Run(s, actions).value;
    var l, l' := s.listings[i], s'.listings[i];
    assert Shape(l, i + 1) && Backed(s.bank, l, true) && Shape(l', i + 1) && Backed(s'.bank, l', true);
    VestedExactly(s.bank, l, i + 1, s'.bank, l', Times(actions));
  }

  lemma VestedExactly(b: Bank, l: Listing, id: nat, b': Bank, l': Listing, times: seq<Time>)
    requires Shape(l, id) && Backed(b, l, true) && l.auction.status == InVesting
    requires Shape(l', id) && Backed(b', l', true) && l'.auction.payingDenom == l.auction.payingDenom
    requires PaidUpTo(l, times, l')
    ensures var have, have' := Bal(b, Reserve(VestingReserve, id), l.auction.payingDenom),
                               Bal(b', Reserve(VestingReserve, id), l.auction.payingDenom);
            have' == have - PaidBy(l.queues, l'.queues) && (l'.auction.status == Finished ==> have' == 0)
  {
    ReleasedPlusUnreleased(l.queues);
    ReleasedPlusUnreleased(l'.queues);
    QueueSumSame(l.queues, l'.queues, All, All);
    if l'.auction.status == Finished {
      AllReleased(l'.queues);
    }
  }
}

/**
  * Which texts make a block panic. Bidders are allowed by address, but a match finds their caps by text: where every
  * account is named by one text no block panics, and a bid under the other text of an allowed address can make one
  * panic.
  */
module Names {
  import opened Types
  import opened Rounding
  import opened Matching
  import opened Demand
  import opened Batch
  import opened Bank
  import opened Auctions
  import opened Safety
  import opened Closing
  import opened Runs
  import opened Lifecycle

  /** The texts of the action are those that `upper` gives to their addresses. */
  predicate Spelled(a: Action, upper: Addr -> bool) {
    match a
    case PlaceBid(_, bidder, _, _, _) => bidder.upper == upper(bidder.addr)
    case AddAllowedBidders(_, bidders) =>
      forall i :: 0 <= i < |bidders| ==> bidders[i].bidder.upper == upper(bidders[i].bidder.addr)
    case UpdateAllowedBidder(_, addr, _) => Canonical(addr).upper == upper(addr)
    case _ => true
  }

  predicate AllowedSpelled(allowed: map<Addr, Allowance>, upper: Addr -> bool) {
    forall a :: a in allowed ==> allowed[a].upper == upper(a)
  }

  predicate BidsSpelled(bids: seq<Bid>, upper: Addr -> bool) {
    forall i :: 0 <= i < |bids| ==> bids[i].bidder.upper == upper(bids[i].bidder.addr)
  }

  predicate SpelledListing(l: Listing, upper: Addr -> bool) {
    AllowedSpelled(l.allowed, upper) && BidsSpelled(l.bids, upper)
  }

  predicate SpelledAll(listings: seq<Listing>, upper: Addr -> bool) {
    forall i :: 0 <= i < |listings| ==> SpelledListing(listings[i], upper)
  }

  predicate SpelledState(s: State, upper: Addr -> bool) {
    SpelledAll(s.listings, upper)
  }

  /** Where allowed entries and bids agree on the texts, no match meets a stranger. */
  lemma SpelledMeetsNoStranger(l: Listing, id: nat, hint: seq<Bid>, upper: Addr -> bool)
    requires Shape(l, id) && SpelledListing(l, upper)
    ensures !Stranger(l, hint)
  {
    var order, caps := Arrange(l.bids, hint), Caps(l.allowed);
    PermMembers(order, l.bids);
    forall i | 0 <= i < |order| ensures order[i].bidder in caps {
      assert order[i] in l.bids;
      var j :| 0 <= j < |l.bids| && l.bids[j] == order[i];
      var a := l.bids[j].bidder.addr;
      assert Text(a, l.allowed[a].upper) in caps;
    }
    KnownBookIsFine(order, l.auction.sellingCoin.amount, caps);
  }

  lemma SpelledBlockIsFine(s: State, time: Time, hints: seq<seq<Bid>>, upper: Addr -> bool)
    requires Inv(s, false) && SpelledState(s, upper)
    ensures !BlockTrips(s, time, hints)
  {
    forall i | 0 <= i < |s.listings| ensures !Trips(s.listings[i], time, HintFor(hints, i)) {
      assert Shape(s.listings[i], i + 1);
      SpelledMeetsNoStranger(s.listings[i], i + 1, HintFor(hints, i), upper);
    }
  }

  // ----- One text per account is kept by every action

  lemma {:induction false} AllowSpelled(allowed: map<Addr, Allowance>, supply: nat, bidders: seq<AllowedBidder>, k: nat,
                                        upper: Addr -> bool)
    requires k <= |bidders| && Allow(allowed, supply, bidders, k).Ok? && AllowedSpelled(allowed, upper)
    requires forall i :: 0 <= i < |bidders| ==> bidders[i].bidder.upper == upper(bidders[i].bidder.addr)
    ensures AllowedSpelled(Allow(allowed, supply, bidders, k).value, upper)
  {
    if k > 0 {
      AllowSpelled(allowed, supply, bidders, k - 1, upper);
    }
  }

  lemma SpelledUpdate(s: State, i: nat, l: Listing, upper: Addr -> bool)
    requires SpelledState(s, upper) && i < |s.listings| && SpelledListing(l, upper)
    ensures SpelledAll(s.listings[i := l], upper)
  {
  }

  lemma PlaceSpelled(s: State, id: nat, bidder: Text, typ: BidType, price: Dec, coin: Coin, upper: Addr -> bool)
    requires PlaceNewBid(s, id, bidder, typ, price, coin).Ok? && SpelledState(s, upper)
    requires bidder.upper == upper(bidder.addr)
    ensures SpelledState(PlaceNewBid(s, id, bidder, typ, price, coin).value, upper)
  {
    PlaceIdOk(s, id, bidder, typ, price, coin);
    var l := s.listings[id - 1];
    var bid := Bid(id, |l.bids| + 1, bidder, typ, price, coin, false);
    PlaceUnfold(s, id, bidder, typ, price, coin, bid);
    SpelledUpdate(s, id - 1, AddBid(l, bid), upper);
  }

  lemma ModifySpelled(s: State, id: nat, addr: Addr, bidId: nat, price: Dec, coin: Coin, upper: Addr -> bool)
    requires ModifyOldBid(s, id, addr, bidId, price, coin).Ok? && SpelledState(s, upper)
    ensures SpelledState(ModifyOldBid(s, id, addr, bidId, price, coin).value, upper)
  {
    SpelledUpdate(s, id - 1, ModifyOldBid(s, id, addr, bidId, price, coin).value.listings[id - 1], upper);
  }

  lemma AllowBiddersSpelled(s: State, id: nat, bidders: seq<AllowedBidder>, upper: Addr -> bool)
    requires AllowBidders(s, id, bidders).Ok? && SpelledState(s, upper)
    requires forall i :: 0 <= i < |bidders| ==> bidders[i].bidder.upper == upper(bidders[i].bidder.addr)
    ensures SpelledState(AllowBidders(s, id, bidders).value, upper)
  {
    var l := s.listings[id - 1];
    AllowSpelled(l.allowed, l.auction.sellingCoin.amount, bidders, |bidders|, upper);
    SpelledUpdate(s, id - 1, AllowBidders(s, id, bidders).value.listings[id - 1], upper);
  }

  lemma MessageSpelled(s: State, a: Action, upper: Addr -> bool)
    requires Handle(s, a).Ok? && SpelledState(s, upper) && Spelled(a, upper)
    ensures SpelledState(Handle(s, a).value, upper)
  {
    match a
    case Create(_) =>
    case Cancel(_, id) => SpelledUpdate(s, id - 1, Handle(s, a).value.listings[id - 1], upper);
    case AddAllowedBidders(id, bidders) => AllowBiddersSpelled(s, id, bidders, upper);
    case UpdateAllowedBidder(id, _, _) => SpelledUpdate(s, id - 1, Handle(s, a).value.listings[id - 1], upper);
    case PlaceBid(id, bidder, typ, price, coin) => PlaceSpelled(s, id, bidder, typ, price, coin, upper);
    case ModifyBid(id, addr, bidId, price, coin) => ModifySpelled(s, id, addr, bidId, price, coin, upper);
    case Deposit(_, _, _) =>
    case SetParams(_) =>
  }

  lemma SameTextsSpelled(l: Listing, l': Listing, upper: Addr -> bool)
    requires SpelledListing(l, upper) && l'.allowed == l.allowed && BidsGrow(l.bids, l'.bids) && |l'.bids| == |l.bids|
    ensures SpelledListing(l', upper)
  {
    assert forall j :: 0 <= j < |l.bids| ==> l'.bids[j].bidder == l.bids[j].bidder;
  }

  lemma TurnSpelled(s: State, time: Time, hints: seq<seq<Bid>>, i: nat, upper: Addr -> bool)
    requires Inv(s, false) && i < |s.listings| && BlockUpTo(s, time, hints, |s.listings|).Ok?
    requires SpelledListing(s.listings[i], upper)
    ensures SpelledListing(BlockUpTo(s, time, hints, |s.listings|).value.listings[i], upper)
  {
    var l := s.listings[i];
    var b := BlockListing(s, time, hints, |s.listings|, i);
    TurnKeeps(b, s.params.extendedPeriod, l, i + 1, time, HintFor(hints, i));
    TurnKeepsTexts(b, s.params.extendedPeriod, l, i + 1, time, HintFor(hints, i));
    SameTextsSpelled(l, StepListing(b, s.params.extendedPeriod, l, time, HintFor(hints, i)).value.1, upper);
  }

  lemma TurnKeepsTexts(b: Bank, period: nat, l: Listing, id: nat, now: Time, hint: seq<Bid>)
    requires Shape(l, id) && Backed(b, l, false) && StepListing(b, period, l, now, hint).Ok?
    ensures var l' := StepListing(b, period, l, now, hint).value.1;
            BidsGrow(l.bids, l'.bids) && |l'.bids| == |l.bids|
  {
    StepListingContinues(b, period, l, id, now, hint);
    TurnKeeps(b, period, l, id, now, hint);
    TurnMatchedBids(l, id, now, hint);
    MarkSetsFlags(l.bids, TurnMatched(l, now, hint));
  }

  lemma BlockSpelled(s: State, time: Time, hints: seq<seq<Bid>>, upper: Addr -> bool)
    requires Inv(s, false) && SpelledState(s, upper) && BlockUpTo(s, time, hints, |s.listings|).Ok?
    ensures SpelledState(BlockUpTo(s, time, hints, |s.listings|).value, upper)
  {
    forall i | 0 <= i < |s.listings|
      ensures SpelledListing(BlockUpTo(s, time, hints, |s.listings|).value.listings[i], upper)
    {
      TurnSpelled(s, time, hints, i, upper);
    }
  }

  lemma StepSpelled(s: State, a: Action, upper: Addr -> bool)
    requires Inv(s, false) && SpelledState(s, upper) && Spelled(a, upper)
    ensures Step(s, a).Ok? && SpelledState(Step(s, a).value, upper)
  {
    StepOkIff(s, a);
    if a.BeginBlock? {
      SpelledBlockIsFine(s, a.time, a.hints, upper);
      BlockSpelled(s, a.time, a.hints, upper);
    } else if Handle(s, a).Ok? {
      MessageSpelled(s, a, upper);
    }
  }

  lemma {:induction false} RunSpelled(s: State, actions: seq<Action>, upper: Addr -> bool)
    requires Inv(s, false) && SpelledState(s, upper) && forall a :: a in actions ==> Spelled(a, upper)
    ensures Run(s, actions).Ok? && Inv(Run(s, actions).value, false) && SpelledState(Run(s, actions).value, upper)
  {
    if actions != [] {
      var n := |actions| - 1;
      RunNext(s, actions);
      RunSpelled(s, actions[..n], upper);
      assert actions[n] in actions;
      StepSpelled(Run(s, actions[..n]).value, actions[n], upper);
      StepSafe(Run(s, actions[..n]).value, actions[n], false);
    }
  }

  /**
    * From a chain without auctions: no sequence of messages, deposits, parameter changes and blocks in which every
    * account is named by one text, whichever it is, makes a block panic. All three registered invariants hold in the
    * state reached, and no coin is made or lost.
    */
  lemma NeverPanics(s: State, actions: seq<Action>, upper: Addr -> bool)
    requires s.listings == [] && forall a :: a in actions ==> Spelled(a, upper)
    ensures var r := Run(s, actions);
            r.Ok? && Conserves(s.bank, r.value.bank) && ReservesOk(r.value)
  {
    RunSpelled(s, actions, upper);
    PanicsIff(s, actions);
  }

  // ----- A second text

  /** A due batch auction whose highest bids are all under texts that were not allowed stops the chain. */
  lemma StrangersPanic(s: State, i: nat, time: Time, hints: seq<seq<Bid>>)
    requires Inv(s, false) && i < |s.listings|
    requires DueToClose(s.listings[i].auction, time) && s.listings[i].auction.kind.BatchAuction?
    requires var l := s.listings[i];
             && Levels(l.bids) != []
             && forall b :: b in l.bids && b.price == Levels(l.bids)[0] ==> b.bidder !in Caps(l.allowed)
    ensures Step(s, BeginBlock(time, hints)).Err?
  {
    var l := s.listings[i];
    var order := Arrange(l.bids, HintFor(hints, i));
    LevelsPerm(order, l.bids);
    PermMembers(order, l.bids);
    StrangersOnTop(order, l.auction.sellingCoin.amount, Caps(l.allowed));
    assert Trips(l, time, HintFor(hints, i));
    StepOkIff(s, BeginBlock(time, hints));
  }

  const SELLER: Addr := [1]
  const BUYER: Addr := [2]

  /** One account has a coin to sell, another a coin to pay with. */
  function Fresh(): State {
    State(Params([], [], 1), map["sell" := map[User(SELLER) := 1], "pay" := map[User(BUYER) := 1]], 0, [])
  }

  const OFFER := CreateMsg(SELLER, ONE, Coin("sell", 1), "pay", [], 0, 10, BatchAuction(ONE, 0, ONE))

  /** An auction is opened, a bidder allowed, and a bid placed by that bidder under the text `bidder`. */
  function Opening(bidder: Text): seq<Action> {
    [Create(OFFER), AddAllowedBidders(1, [AllowedBidder(Canonical(BUYER), 1)]),
     PlaceBid(1, bidder, BatchMany, ONE, Coin("sell", 1))]
  }

  function Open(bids: seq<Bid>): Listing {
    NewListing(OFFER, 1, 0).(allowed := map[BUYER := Allowance(false, 1)], bids := bids)
  }

  lemma Offered()
    ensures var r := Step(Fresh(), Create(OFFER));
            && r.Ok? && r.value.listings == [NewListing(OFFER, 1, 0)] && r.value.params == Fresh().params
            && Bal(r.value.bank, User(BUYER), "pay") == 1
  {
    var b := Fresh().bank;
    assert SendAll(b, User(SELLER), CommunityPool, []) == Ok(b);
    assert Bal(b, User(SELLER), "sell") == 1 && Bal(b, User(BUYER), "pay") == 1;
  }

  lemma BuyerAllowed(s: State)
    requires s.listings == [NewListing(OFFER, 1, 0)]
    ensures Step(s, AddAllowedBidders(1, [AllowedBidder(Canonical(BUYER), 1)])) == Ok(s.(listings := [Open([])]))
  {
    var bidders := [AllowedBidder(Canonical(BUYER), 1)];
    assert Allow(map[], 1, bidders, 0) == Ok(map[]);
    assert Allow(map[], 1, bidders, 1) == Ok(map[BUYER := Allowance(false, 1)]);
    assert s.listings[0 := Open([])] == [Open([])];
  }

  lemma BidPlaced(s: State, bidder: Text)
    requires s.listings == [Open([])] && s.params == Fresh().params && Bal(s.bank, User(BUYER), "pay") == 1
    requires bidder.addr == BUYER
    ensures var r := Step(s, PlaceBid(1, bidder, BatchMany, ONE, Coin("sell", 1)));
            r.Ok? && r.value.listings == [Open([Bid(1, 1, bidder, BatchMany, ONE, Coin("sell", 1), false)])]
  {
    var bid := Bid(1, 1, bidder, BatchMany, ONE, Coin("sell", 1), false);
    assert SendAll(s.bank, User(BUYER), CommunityPool, []) == Ok(s.bank);
    assert PayingAmount(bid, "pay") == 1 && SellingAmount(bid, "pay") == 1;
    assert CheckBid(Books(s.listings), Open([]), bid).Ok?;
    assert AddBid(Open([]), bid) == Open([bid]) by {
      assert [] + [bid] == [bid];
    }
    assert s.listings[0 := Open([bid])] == [Open([bid])];
  }

  lemma Opened(bidder: Text)
    requires bidder.addr == BUYER
    ensures var r := Run(Fresh(), Opening(bidder));
            r.Ok? && r.value.listings == [Open([Bid(1, 1, bidder, BatchMany, ONE, Coin("sell", 1), false)])]
  {
    var actions := Opening(bidder);
    Offered();
    var s1 := Step(Fresh(), actions[0]).value;
    assert Run(Fresh(), actions[..0]) == Ok(Fresh());
    assert actions[..1][..0] == actions[..0] && actions[..2][..1] == actions[..1] && actions[..3] == actions;
    RunNext(Fresh(), actions[..1]);
    BuyerAllowed(s1);
    RunNext(Fresh(), actions[..2]);
    BidPlaced(s1.(listings := [Open([])]), bidder);
    RunNext(Fresh(), actions);
  }

  /**
    * The same bid, by the same allowed account, in the same auction: under the text on the allowed entry the closing
    * block goes well, under the account's other text it panics.
    */
  lemma SecondTextPanics(hints: seq<seq<Bid>>)
    ensures Run(Fresh(), Opening(Text(BUYER, false)) + [BeginBlock(10, hints)]).Ok?
    ensures Run(Fresh(), Opening(Text(BUYER, true)) + [BeginBlock(10, hints)]).Err?
  {
    var close := [BeginBlock(10, hints)];
    NeverPanics(Fresh(), Opening(Text(BUYER, false)) + close, _ => false);
    var actions, bidder := Opening(Text(BUYER, true)), Text(BUYER, true);
    Opened(bidder);
    var s := Run(Fresh(), actions).value;
    RunSafe(Fresh(), actions, false);
    var bid := Bid(1, 1, bidder, BatchMany, ONE, Coin("sell", 1), false);
    OneLevel(bid);
    StrangersPanic(s, 0, 10, hints);
    assert (actions + close)[..|actions|] == actions;
    RunNext(Fresh(), actions + close);
  }

  lemma OneLevel(b: Bid)
    ensures Levels([b]) == [b.price]
  {
    assert [b][..0] == [];
    assert Levels([b]) == InsertDescending(Levels([b][..0]), b.price);
  }
}

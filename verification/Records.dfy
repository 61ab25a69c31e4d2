/**
  * The bid store over a run: every write of the keeper takes the store of the bids before to the store of the bids
  * after, so store and bidder index agree in every state, and the total of a fixed price bidder is the one it finds.
  */
module Records {
  import opened Types
  import opened Sums
  import opened Rounding
  import opened Keys
  import opened BidIndex
  import opened Auctions
  import opened Safety
  import opened Closing
  import opened Runs
  import opened Lifecycle
  import opened Messages

  /** No counter has run out of its 64 bits. */
  predicate Numbered(s: State) {
    IsUint64(|s.listings|) && forall i :: 0 <= i < |s.listings| ==> IsUint64(|s.listings[i].bids|)
  }

  lemma ReachableBooks(s: State)
    requires Inv(s, false) && Numbered(s)
    ensures BooksOk(Books(s.listings))
  {
    var books: seq<seq<Bid>> := Books(s.listings);
    forall i, j | 0 <= i < |books| && 0 <= j < |books[i]|
      ensures books[i][j].auctionId == i + 1 && books[i][j].id == j + 1 && Storable(books[i][j])
    {
      assert Shape(s.listings[i], i + 1);
      assert books[i] == s.listings[i].bids;
    }
  }

  lemma NumberedBefore(s: State, a: Action)
    requires Inv(s, false) && Step(s, a).Ok? && Numbered(Step(s, a).value)
    ensures Numbered(s)
  {
    if s.listings != [] {
      CountsGrow(s, a, |s.listings| - 1);
    }
    forall i | 0 <= i < |s.listings| ensures IsUint64(|s.listings[i].bids|) {
      CountsGrow(s, a, i);
    }
  }

  lemma CountsGrow(s: State, a: Action, i: nat)
    requires Inv(s, false) && Step(s, a).Ok? && Numbered(Step(s, a).value) && i < |s.listings|
    ensures IsUint64(i + 1) && IsUint64(|s.listings[i].bids|)
  {
    StepContinues(s, a, i);
  }

  // ----- What every action writes

  /** `SetBid` on the matched bids, one after the other, with their flag set. */
  function SetAll(store: Store, matched: seq<Bid>): Store {
    if matched == [] then store else
      var st, b := SetAll(store, matched[..|matched| - 1]), matched[|matched| - 1].(isMatched := true);
      if Storable(b) then SetIn(st, b) else st
  }

  /** The store after the first `k` auctions' turns in a block. */
  ghost function BlockStore(store: Store, s: State, time: Time, hints: seq<seq<Bid>>, k: nat): Store
    requires k <= |s.listings|
  {
    if k == 0 then store
    else SetAll(BlockStore(store, s, time, hints, k - 1), TurnMatched(s.listings[k - 1], time, HintFor(hints, k - 1)))
  }

  /** The bid a message writes: the new one, or the modified one. */
  function BidWritten(s: State, a: Action): Option<Bid> {
    var r := Handle(s, a);
    if r.Err? || !(a.PlaceBid? || a.ModifyBid?) then None else
      var id := a.auctionId;
      if !(1 <= id <= |r.value.listings|) then None else
        var bids := r.value.listings[id - 1].bids;
        var n := if a.PlaceBid? then |bids| else a.bidId;
        if 1 <= n <= |bids| then Some(bids[n - 1]) else None
  }

  ghost function StepStore(store: Store, s: State, a: Action): Store {
    if a.BeginBlock? then BlockStore(store, s, a.time, a.hints, |s.listings|) else
      var written := BidWritten(s, a);
      if written.Some? && Storable(written.value) then SetIn(store, written.value) else store
  }

  ghost function RunStore(store: Store, s: State, actions: seq<Action>): Store {
    if actions == [] then store else
      var n := |actions| - 1;
      var before := Run(s, actions[..n]);
      if before.Err? then store else StepStore(RunStore(store, s, actions[..n]), before.value, actions[n])
  }

  // ----- Messages

  lemma HoldsSame(store: Store, books: seq<seq<Bid>>, books': seq<seq<Bid>>)
    requires Holds(store, books) && (books' == books || books' == books + [[]])
    ensures Holds(store, books')
  {
    forall a: nat, i: nat {:trigger Find(store, a, i)} | IsUint64(a) && IsUint64(i)
      ensures Find(store, a, i) == BidAt(books', a, i)
    {
      assert Find(store, a, i) == BidAt(books, a, i);
    }
  }

  lemma BooksUpdate(listings: seq<Listing>, i: nat, l: Listing)
    requires i < |listings|
    ensures Books(listings[i := l]) == Books(listings)[i := l.bids]
  {
  }

  lemma WrittenIs(books: seq<seq<Bid>>, i: nat, book: seq<Bid>, b: Bid)
    requires Writes(books, b) && i < |books| && b.auctionId == i + 1
    requires book == if b.id <= |books[i]| then books[i][b.id - 1 := b] else books[i] + [b]
    ensures Written(books, b) == books[i := book]
  {
  }

  /** A write to one listing's bids, of the next bid or of another version of one. */
  lemma WriteOne(store: Store, listings: seq<Listing>, i: nat, l: Listing, b: Bid)
    requires BooksOk(Books(listings)) && Holds(store, Books(listings)) && i < |listings|
    requires Writes(Books(listings), b) && b.auctionId == i + 1
    requires l.bids == if b.id <= |listings[i].bids| then listings[i].bids[b.id - 1 := b] else listings[i].bids + [b]
    ensures Holds(SetIn(store, b), Books(listings[i := l]))
  {
    SetKeepsBooks(store, Books(listings), b);
    BooksUpdate(listings, i, l);
    WrittenIs(Books(listings), i, l.bids, b);
  }

  /** The bid that an accepted place-bid message stores. */
  lemma PlacedBid(s: State, id: nat, bidder: Text, typ: BidType, price: Dec, coin: Coin) returns (stored: Bid)
    requires PlaceNewBid(s, id, bidder, typ, price, coin).Ok?
    ensures 1 <= id <= |s.listings| && stored.auctionId == id && stored.id == |s.listings[id - 1].bids| + 1
    ensures stored.bidder == bidder && ValidAddr(bidder.addr)
    ensures var s' := PlaceNewBid(s, id, bidder, typ, price, coin).value;
            && |s'.listings| == |s.listings| && s'.listings == s.listings[id - 1 := s'.listings[id - 1]]
            && s'.listings[id - 1].bids == s.listings[id - 1].bids + [stored]
  {
    PlaceIdOk(s, id, bidder, typ, price, coin);
    var l := s.listings[id - 1];
    var bid := Bid(id, |l.bids| + 1, bidder, typ, price, coin, false);
    PlaceUnfold(s, id, bidder, typ, price, coin, bid);
    stored := AddBid(l, bid).bids[|l.bids|];
  }

  lemma PlaceWritten(s: State, a: Action, stored: Bid)
    requires a.PlaceBid? && Handle(s, a).Ok? && 1 <= a.auctionId <= |Handle(s, a).value.listings|
    requires var bids := Handle(s, a).value.listings[a.auctionId - 1].bids; 0 < |bids| && bids[|bids| - 1] == stored
    ensures BidWritten(s, a) == Some(stored)
  {
  }

  lemma PlaceWrites(s: State, a: Action, store: Store)
    requires a.PlaceBid? && Handle(s, a).Ok? && Numbered(Handle(s, a).value)
    requires BooksOk(Books(s.listings)) && Holds(store, Books(s.listings))
    ensures Holds(StepStore(store, s, a), Books(Handle(s, a).value.listings))
  {
    var stored := PlacedBid(s, a.auctionId, a.bidder, a.typ, a.price, a.coin);
    PlaceWritten(s, a, stored);
    WriteOne(store, s.listings, a.auctionId - 1, Handle(s, a).value.listings[a.auctionId - 1], stored);
  }

  /** The version of a bid that an accepted modify-bid message stores. */
  lemma ModifiedVersion(s: State, a: Action) returns (bid: Bid)
    requires a.ModifyBid? && Handle(s, a).Ok?
    ensures 1 <= a.auctionId <= |s.listings| && 1 <= a.bidId <= |s.listings[a.auctionId - 1].bids|
    ensures bid == s.listings[a.auctionId - 1].bids[a.bidId - 1].(price := a.price, coin := a.coin)
    ensures var l := s.listings[a.auctionId - 1];
            Handle(s, a).value.listings == s.listings[a.auctionId - 1 := l.(bids := l.bids[a.bidId - 1 := bid])]
    ensures BidWritten(s, a) == Some(bid)
  {
    bid := s.listings[a.auctionId - 1].bids[a.bidId - 1].(price := a.price, coin := a.coin);
  }

  lemma ModifyWrites(s: State, a: Action, store: Store)
    requires a.ModifyBid? && Handle(s, a).Ok?
    requires BooksOk(Books(s.listings)) && Holds(store, Books(s.listings))
    ensures Holds(StepStore(store, s, a), Books(Handle(s, a).value.listings))
  {
    var bid := ModifiedVersion(s, a);
    var l := s.listings[a.auctionId - 1];
    assert Books(s.listings)[a.auctionId - 1] == l.bids;
    assert Books(s.listings)[a.auctionId - 1][a.bidId - 1].auctionId == a.auctionId;
    WriteOne(store, s.listings, a.auctionId - 1, l.(bids := l.bids[a.bidId - 1 := bid]), bid);
  }

  lemma MessageWrites(s: State, a: Action, store: Store)
    requires Inv(s, false) && Handle(s, a).Ok? && Numbered(Handle(s, a).value)
    requires BooksOk(Books(s.listings)) && Holds(store, Books(s.listings))
    ensures Holds(StepStore(store, s, a), Books(Handle(s, a).value.listings))
  {
    if a.PlaceBid? {
      PlaceWrites(s, a, store);
    } else if a.ModifyBid? {
      ModifyWrites(s, a, store);
    } else {
      OtherWritesNone(s, a);
      HoldsSame(store, Books(s.listings), Books(Handle(s, a).value.listings));
    }
  }

  lemma OtherWritesNone(s: State, a: Action)
    requires Handle(s, a).Ok? && !a.PlaceBid? && !a.ModifyBid?
    ensures var books, books' := Books(s.listings), Books(Handle(s, a).value.listings);
            books' == books || books' == books + [[]]
  {
    var books, books' := Books(s.listings), Books(Handle(s, a).value.listings);
    if a.Create? {
      assert books' == books + [[]];
    } else {
      assert books' == books;
    }
  }

  // ----- Blocks

  lemma MarkOne(store: Store, books: seq<seq<Bid>>, i: nat, b: Bid)
    requires BooksOk(books) && Holds(store, books) && i < |books| && b.auctionId == i + 1 && Storable(b)
    requires 1 <= b.id <= |books[i]| && books[i][b.id - 1].bidder == b.bidder
    ensures var books' := books[i := books[i][b.id - 1 := b]];
            BooksOk(books') && Holds(SetIn(store, b), books')
  {
    SetKeepsBooks(store, books, b);
    WrittenIs(books, i, books[i][b.id - 1 := b], b);
  }

  lemma MarkNext(bids: seq<Bid>, matched: seq<Bid>)
    requires matched != [] && forall i :: 0 <= i < |bids| ==> bids[i].id == i + 1
    requires forall b :: b in matched ==> b in bids
    ensures var before, b := MarkMatched(bids, matched[..|matched| - 1]), matched[|matched| - 1];
            && b in bids && 1 <= b.id <= |bids| == |before| && before[b.id - 1].bidder == b.bidder
            && MarkMatched(bids, matched) == before[b.id - 1 := b.(isMatched := true)]
  {
    var b := matched[|matched| - 1];
    MarkSetsFlags(bids, matched[..|matched| - 1]);
    assert b in matched;
    var j :| 0 <= j < |bids| && bids[j] == b;
  }

  /** One more matched bid is written. */
  lemma MarkLast(store: Store, books: seq<seq<Bid>>, i: nat, matched: seq<Bid>, before: seq<Bid>)
    requires matched != [] && BooksOk(books) && i < |books| && forall b :: b in matched ==> b in books[i]
    requires before == MarkMatched(books[i], matched[..|matched| - 1])
    requires BooksOk(books[i := before]) && Holds(SetAll(store, matched[..|matched| - 1]), books[i := before])
    ensures var books' := books[i := MarkMatched(books[i], matched)];
            BooksOk(books') && Holds(SetAll(store, matched), books')
  {
    var b := matched[|matched| - 1];
    MarkNext(books[i], matched);
    var j :| 0 <= j < |books[i]| && books[i][j] == b;
    MarkOne(SetAll(store, matched[..|matched| - 1]), books[i := before], i, b.(isMatched := true));
    UpdatedTwice(books, i, before, MarkMatched(books[i], matched));
  }

  lemma UpdatedTwice(books: seq<seq<Bid>>, i: nat, x: seq<Bid>, y: seq<Bid>)
    requires i < |books|
    ensures books[i := x][i := y] == books[i := y]
  {
  }

  lemma {:induction false} MarkWrites(store: Store, books: seq<seq<Bid>>, i: nat, matched: seq<Bid>)
    requires BooksOk(books) && Holds(store, books) && i < |books| && forall b :: b in matched ==> b in books[i]
    ensures var books' := books[i := MarkMatched(books[i], matched)];
            BooksOk(books') && Holds(SetAll(store, matched), books')
  {
    if matched == [] {
      assert books[i := books[i]] == books;
    } else {
      MarkWrites(store, books, i, matched[..|matched| - 1]);
      MarkLast(store, books, i, matched, MarkMatched(books[i], matched[..|matched| - 1]));
    }
  }

  /** What the `k`-th auction's turn does to the bids. */
  lemma TurnBooks(s: State, time: Time, hints: seq<seq<Bid>>, k: nat, s1: State, matched: seq<Bid>)
    requires Inv(s, false) && 0 < k <= |s.listings| && BlockUpTo(s, time, hints, k).Ok?
    requires BlockUpTo(s, time, hints, k - 1) == Ok(s1)
    requires matched == TurnMatched(s.listings[k - 1], time, HintFor(hints, k - 1))
    ensures s1.listings[k - 1] == s.listings[k - 1] && forall b :: b in matched ==> b in s.listings[k - 1].bids
    ensures Books(BlockUpTo(s, time, hints, k).value.listings)
         == Books(s1.listings)[k - 1 := MarkMatched(s.listings[k - 1].bids, matched)]
  {
    BlockPrefix(s, time, hints, k);
    BlockReady(s, time, hints, k - 1);
    var step := StepListing(s1.bank, s.params.extendedPeriod, s.listings[k - 1], time, HintFor(hints, k - 1));
    TurnKeeps(s1.bank, s.params.extendedPeriod, s.listings[k - 1], k, time, HintFor(hints, k - 1));
    TurnMatchedBids(s.listings[k - 1], k, time, HintFor(hints, k - 1));
    BooksUpdate(s1.listings, k - 1, step.value.1);
  }

  /** The books are numbered as they should be, and the store holds them. */
  ghost predicate Filed(store: Store, books: seq<seq<Bid>>) {
    BooksOk(books) && Holds(store, books)
  }

  lemma MarkFiled(store: Store, books: seq<seq<Bid>>, i: nat, bids: seq<Bid>, matched: seq<Bid>,
                  store': Store, books': seq<seq<Bid>>)
    requires Filed(store, books) && i < |books| && books[i] == bids && forall b :: b in matched ==> b in bids
    requires store' == SetAll(store, matched) && books' == books[i := MarkMatched(bids, matched)]
    ensures Filed(store', books')
  {
    MarkWrites(store, books, i, matched);
  }

  lemma BlockStoreNext(store: Store, s: State, time: Time, hints: seq<seq<Bid>>, k: nat, matched: seq<Bid>)
    requires 0 < k <= |s.listings| && matched == TurnMatched(s.listings[k - 1], time, HintFor(hints, k - 1))
    ensures BlockStore(store, s, time, hints, k) == SetAll(BlockStore(store, s, time, hints, k - 1), matched)
  {
  }

  lemma TurnFiled(store: Store, s: State, time: Time, hints: seq<seq<Bid>>, k: nat, st: Store, s1: State, s2: State)
    requires Inv(s, false) && 0 < k <= |s.listings| && BlockStore(store, s, time, hints, k - 1) == st
    requires BlockUpTo(s, time, hints, k - 1) == Ok(s1) && BlockUpTo(s, time, hints, k) == Ok(s2)
    requires Filed(st, Books(s1.listings))
    ensures Filed(BlockStore(store, s, time, hints, k), Books(s2.listings))
  {
    var matched := TurnMatched(s.listings[k - 1], time, HintFor(hints, k - 1));
    TurnBooks(s, time, hints, k, s1, matched);
    BlockStoreNext(store, s, time, hints, k, matched);
    MarkFiled(st, Books(s1.listings), k - 1, s.listings[k - 1].bids, matched,
      BlockStore(store, s, time, hints, k), Books(s2.listings));
  }

  lemma {:induction false} BlockWrites(store: Store, s: State, time: Time, hints: seq<seq<Bid>>, k: nat)
    requires Inv(s, false) && k <= |s.listings| && BlockUpTo(s, time, hints, k).Ok? && Filed(store, Books(s.listings))
    ensures Filed(BlockStore(store, s, time, hints, k), Books(BlockUpTo(s, time, hints, k).value.listings))
  {
    if k > 0 {
      BlockBegan(s, time, hints, k);
      BlockWrites(store, s, time, hints, k - 1);
      TurnFiled(store, s, time, hints, k, BlockStore(store, s, time, hints, k - 1),
        BlockUpTo(s, time, hints, k - 1).value, BlockUpTo(s, time, hints, k).value);
    }
  }

  lemma StepWrites(s: State, a: Action, store: Store)
    requires Inv(s, false) && Step(s, a).Ok? && Numbered(Step(s, a).value) && Numbered(s)
    requires Holds(store, Books(s.listings))
    ensures Holds(StepStore(store, s, a), Books(Step(s, a).value.listings))
  {
    ReachableBooks(s);
    if a.BeginBlock? {
      BlockWrites(store, s, a.time, a.hints, |s.listings|);
    } else if Handle(s, a).Ok? {
      MessageWrites(s, a, store);
    }
  }

  /**
    * From an empty store, over every run: the store holds exactly the bids of the auctions, each under its own key, and
    * its bidder index has one entry for each of them and no others.
    */
  lemma {:induction false} StoreOverRun(s: State, actions: seq<Action>)
    requires s.listings == [] && Run(s, actions).Ok? && Numbered(Run(s, actions).value)
    ensures Holds(RunStore(Store(map[], {}), s, actions), Books(Run(s, actions).value.listings))
  {
    if actions != [] {
      var n := |actions| - 1;
      RunNext(s, actions);
      RunSafe(s, actions[..n], false);
      var s1 := Run(s, actions[..n]).value;
      NumberedBefore(s1, actions[n]);
      StoreOverRun(s, actions[..n]);
      StepWrites(s1, actions[n], RunStore(Store(map[], {}), s, actions[..n]));
    }
  }

  // ----- The cap of a fixed price bidder

  /** For addresses up to 245 bytes an accepted fixed price bid keeps the bidder's total within the cap. */
  lemma FixedPriceCap(s: State, id: nat, bidder: Text, price: Dec, coin: Coin)
    requires Inv(s, false) && Numbered(s) && |bidder.addr| <= 245
    requires PlaceNewBid(s, id, bidder, FixedPrice, price, coin).Ok?
    ensures 1 <= id <= |s.listings| && bidder.addr in s.listings[id - 1].allowed
    ensures var l, l' := s.listings[id - 1], PlaceNewBid(s, id, bidder, FixedPrice, price, coin).value.listings[id - 1];
            TrueTotal(l'.bids, bidder.addr, l.auction.payingDenom) <= l.allowed[bidder.addr].max
  {
    PlaceIdOk(s, id, bidder, FixedPrice, price, coin);
    var l := s.listings[id - 1];
    var bid := Bid(id, |l.bids| + 1, bidder, FixedPrice, price, coin, false);
    PlaceUnfold(s, id, bidder, FixedPrice, price, coin, bid);
    assert Shape(l, id);
    ReachableBooks(s);
    ShortTotal(Books(s.listings), id, bidder.addr, l.auction.payingDenom);
    SumSnoc(l.bids, bid.(isMatched := true), From(bidder.addr, Selling(l.auction.payingDenom)));
  }

  /**
    * Up to 245 address bytes a fixed price bid fits exactly when it names the start price and one of the two denoms, is
    * not for more than is left, and keeps the bidder's total in the auction within the cap.
    */
  lemma FixedBidFitsIff(s: State, id: nat, bid: Bid)
    requires Inv(s, false) && Numbered(s) && 1 <= id <= |s.listings| && bid.typ == FixedPrice
    requires |bid.bidder.addr| <= 245 && bid.bidder.addr in s.listings[id - 1].allowed
    ensures var l, a := s.listings[id - 1], s.listings[id - 1].auction;
            var sold := SellingAmount(bid, a.payingDenom);
            BidFits(Books(s.listings), l, bid)
            <==> && a.kind.FixedPriceAuction? && bid.price == a.startPrice
                 && bid.coin.denom in {a.payingDenom, a.sellingCoin.denom} && sold <= a.kind.remaining
                 && TrueTotal(l.bids, bid.bidder.addr, a.payingDenom) + sold <= l.allowed[bid.bidder.addr].max
  {
    assert Shape(s.listings[id - 1], id);
    ReachableBooks(s);
    ShortTotal(Books(s.listings), id, bid.bidder.addr, s.listings[id - 1].auction.payingDenom);
  }

  /**
    * For a longer address the check compares each bid alone with the cap, as long as the auction has no bid with the
    * wrapped id: a bid within the cap is then accepted whatever the bidder has bid before.
    */
  lemma LongAddressCap(s: State, id: nat, bid: Bid)
    requires Inv(s, false) && Numbered(s) && 1 <= id <= |s.listings|
    requires ValidAddr(bid.bidder.addr) && |bid.bidder.addr| > 245
    requires BidAt(Books(s.listings), id, WrappedBidId(bid.bidder.addr)).None?
    requires var a := s.listings[id - 1].auction;
             && a.kind.FixedPriceAuction? && bid.price == a.startPrice
             && (bid.coin.denom == a.payingDenom || bid.coin.denom == a.sellingCoin.denom)
             && SellingAmount(bid, a.payingDenom) <= a.kind.remaining
    ensures var l := s.listings[id - 1];
            CheckFixedPriceBid(Books(s.listings), l, bid).Ok?
            <==> SellingAmount(bid, l.auction.payingDenom) <= MaxFor(l.allowed, bid.bidder.addr)
  {
    ReachableBooks(s);
    assert Shape(s.listings[id - 1], id);
    LongTotalMisses(Books(s.listings), id, bid.bidder.addr, s.listings[id - 1].auction.payingDenom);
  }
}

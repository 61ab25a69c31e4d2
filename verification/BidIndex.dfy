/**
  * The bid store and its bidder index (keeper/store.go), keyed by bytes, and what a bidder's total in a fixed
  * price auction, collected through the index, amounts to.
  */
module BidIndex {
  import opened Types
  import opened Sums
  import opened Rounding
  import opened Keys

  datatype Store = Store(primary: map<Key, Bid>, index: set<Key>)

  /** What an unsuccessful lookup returns. */
  const NO_BID := Bid(0, 0, Text([], false), FixedPrice, 0, Coin("", 0), false)

  predicate Storable(b: Bid) {
    IsUint64(b.auctionId) && IsUint64(b.id) && ValidAddr(b.bidder.addr)
  }

  function PrimaryKey(b: Bid): Key {
    BidKey(b.auctionId, b.id)
  }

  function IndexKey(b: Bid): Key
    requires Storable(b)
  {
    BidIndexKey(b.bidder.addr, b.auctionId, b.id)
  }

  /** Every bid sits under its own key, and the index has one entry for each stored bid and no others. */
  ghost predicate Agree(s: Store) {
    && (forall k :: k in s.primary ==> Storable(s.primary[k]) && k == PrimaryKey(s.primary[k]))
    && (forall k :: k in s.primary ==> IndexKey(s.primary[k]) in s.index)
    && (forall i :: i in s.index ==> exists k :: k in s.primary && i == IndexKey(s.primary[k]))
  }

  function SetIn(s: Store, b: Bid): Store
    requires Storable(b)
  {
    Store(s.primary[PrimaryKey(b) := b], s.index + {IndexKey(b)})
  }

  function Find(s: Store, auctionId: nat, bidId: nat): Option<Bid> {
    var key := BidKey(auctionId, bidId);
    if key in s.primary then Some(s.primary[key]) else None
  }

  /** A stored bid is found under its ids, and every other bid is found as before. */
  lemma SetThenGet(s: Store, b: Bid, auctionId: nat, bidId: nat)
    requires Storable(b) && IsUint64(auctionId) && IsUint64(bidId)
    ensures Find(SetIn(s, b), auctionId, bidId)
         == if auctionId == b.auctionId && bidId == b.id then Some(b) else Find(s, auctionId, bidId)
  {
    if BidKey(auctionId, bidId) == PrimaryKey(b) {
      BidKeyInjective(auctionId, bidId, b.auctionId, b.id);
    }
  }

  lemma IndexKeyTells(b: Bid, c: Bid)
    requires Storable(b) && Storable(c) && IndexKey(b) == IndexKey(c)
    ensures b.bidder.addr == c.bidder.addr && b.auctionId == c.auctionId && b.id == c.id
  {
    IndexPrefixSelects(b.bidder.addr, c.bidder.addr, c.auctionId, c.id);
    assert BidIndexPrefix(b.bidder.addr) <= IndexKey(b);
    var n := |BidIndexPrefix(b.bidder.addr)|;
    assert IndexKey(b)[n..n + 8] == Uint64(b.auctionId) && IndexKey(b)[n + 8..] == Uint64(b.id);
    assert IndexKey(c)[n..n + 8] == Uint64(c.auctionId) && IndexKey(c)[n + 8..] == Uint64(c.id);
    Uint64Injective(b.auctionId, c.auctionId);
    Uint64Injective(b.id, c.id);
  }

  predicate TakesOver(s: Store, b: Bid) {
    PrimaryKey(b) in s.primary && s.primary[PrimaryKey(b)].bidder.addr != b.bidder.addr
  }

  /** Taking over another bidder's bid leaves that bidder an index entry that leads to no bid of theirs. */
  lemma TakeoverBreaksAgreement(s: Store, b: Bid)
    requires Agree(s) && Storable(b) && TakesOver(s, b)
    ensures !Agree(SetIn(s, b))
  {
    var s', before := SetIn(s, b), s.primary[PrimaryKey(b)];
    if Agree(s') {
      var k :| k in s'.primary && IndexKey(before) == IndexKey(s'.primary[k]);
      IndexKeyTells(before, s'.primary[k]);
    }
  }

  lemma SetKeepsAgreement(s: Store, b: Bid)
    requires Agree(s) && Storable(b) && !TakesOver(s, b)
    ensures Agree(SetIn(s, b))
  {
    var s', key := SetIn(s, b), PrimaryKey(b);
    forall i | i in s'.index ensures exists k :: k in s'.primary && i == IndexKey(s'.primary[k]) {
      if i == IndexKey(b) {
        assert key in s'.primary && s'.primary[key] == b;
      } else {
        var k :| k in s.primary && i == IndexKey(s.primary[k]);
        if k == key {
          BidKeyInjective(s.primary[k].auctionId, s.primary[k].id, b.auctionId, b.id);
        }
        assert k in s'.primary && s'.primary[k] == s.primary[k];
      }
    }
  }

  /** Writing a bid keeps index and store in step exactly when it does not take over another bidder's bid. */
  lemma SetKeepsAgreementIff(s: Store, b: Bid)
    requires Agree(s) && Storable(b)
    ensures Agree(SetIn(s, b)) <==> !TakesOver(s, b)
  {
    if TakesOver(s, b) {
      TakeoverBreaksAgreement(s, b);
    } else {
      SetKeepsAgreement(s, b);
    }
  }

  // ----- The bids of all auctions

  /** The bids of auction `i + 1` are `books[i]`, and the bid with id `j + 1` among them is `books[i][j]`. */
  predicate BooksOk(books: seq<seq<Bid>>) {
    forall i, j :: 0 <= i < |books| && 0 <= j < |books[i]| ==>
      books[i][j].auctionId == i + 1 && books[i][j].id == j + 1 && Storable(books[i][j])
  }

  function BidAt(books: seq<seq<Bid>>, auctionId: nat, bidId: nat): Option<Bid> {
    if 1 <= auctionId <= |books| && 1 <= bidId <= |books[auctionId - 1]| then Some(books[auctionId - 1][bidId - 1])
    else None
  }

  /** The store, with an index that agrees, holds just these bids. */
  ghost predicate Holds(s: Store, books: seq<seq<Bid>>) {
    Agree(s) && forall a: nat, i: nat {:trigger Find(s, a, i)} ::
      IsUint64(a) && IsUint64(i) ==> Find(s, a, i) == BidAt(books, a, i)
  }

  lemma HeldBids(s: Store, books: seq<seq<Bid>>, b: Bid)
    requires BooksOk(books) && Holds(s, books)
    ensures b in s.primary.Values <==> Storable(b) && BidAt(books, b.auctionId, b.id) == Some(b)
  {
    if b in s.primary.Values {
      var k :| k in s.primary && s.primary[k] == b;
      assert Find(s, b.auctionId, b.id) == Some(b);
    }
    if Storable(b) && BidAt(books, b.auctionId, b.id) == Some(b) {
      assert Find(s, b.auctionId, b.id) == Some(b);
    }
  }

  /** `b` is the next bid of its book, or another version of one of its bids by the same bidder. */
  predicate Writes(books: seq<seq<Bid>>, b: Bid) {
    && Storable(b) && 1 <= b.auctionId <= |books| && 1 <= b.id <= |books[b.auctionId - 1]| + 1
    && (b.id <= |books[b.auctionId - 1]| ==> books[b.auctionId - 1][b.id - 1].bidder.addr == b.bidder.addr)
  }

  function Written(books: seq<seq<Bid>>, b: Bid): seq<seq<Bid>>
    requires Writes(books, b)
  {
    var i, j := b.auctionId - 1, b.id - 1;
    books[i := if j < |books[i]| then books[i][j := b] else books[i] + [b]]
  }

  lemma WrittenAt(books: seq<seq<Bid>>, b: Bid, auctionId: nat, bidId: nat)
    requires Writes(books, b)
    ensures BidAt(Written(books, b), auctionId, bidId)
         == if auctionId == b.auctionId && bidId == b.id then Some(b) else BidAt(books, auctionId, bidId)
  {
  }

  lemma WrittenBooks(books: seq<seq<Bid>>, b: Bid)
    requires BooksOk(books) && Writes(books, b)
    ensures BooksOk(Written(books, b))
  {
  }

  /** Such a write takes the store of the books to the store of the new books, index included. */
  lemma SetKeepsBooks(s: Store, books: seq<seq<Bid>>, b: Bid)
    requires BooksOk(books) && Holds(s, books) && Writes(books, b)
    ensures BooksOk(Written(books, b)) && Holds(SetIn(s, b), Written(books, b))
  {
    assert Find(s, b.auctionId, b.id) == BidAt(books, b.auctionId, b.id);
    SetKeepsAgreement(s, b);
    WrittenBooks(books, b);
    forall a: nat, i: nat {:trigger Find(SetIn(s, b), a, i)} | IsUint64(a) && IsUint64(i)
      ensures Find(SetIn(s, b), a, i) == BidAt(Written(books, b), a, i)
    {
      SetThenGet(s, b, a, i);
      WrittenAt(books, b, a, i);
      assert Find(s, a, i) == BidAt(books, a, i);
    }
  }

  // ----- A bidder's total

  /** What the index entry of a bid leads to. */
  function ReadBack(books: seq<seq<Bid>>, b: Bid): Bid {
    if !ValidAddr(b.bidder.addr) then NO_BID else
      var ids := ParseBidIndexKey(BidIndexKey(b.bidder.addr, b.auctionId, b.id));
      if ids.None? then NO_BID else OrNoBid(BidAt(books, ids.value.0, ids.value.1))
  }

  function OrNoBid(found: Option<Bid>): Bid {
    if found.Some? then found.value else NO_BID
  }

  function InAuction(auctionId: nat, f: Bid -> nat): Bid -> nat {
    (b: Bid) => if b.auctionId == auctionId then f(b) else 0
  }

  function From(a: Addr, f: Bid -> nat): Bid -> nat {
    (b: Bid) => if b.bidder.addr == a then f(b) else 0
  }

  function Reread(books: seq<seq<Bid>>, f: Bid -> nat): Bid -> nat {
    (b: Bid) => f(ReadBack(books, b))
  }

  function Flatten(books: seq<seq<Bid>>): seq<Bid> {
    if books == [] then [] else Flatten(books[..|books| - 1]) + books[|books| - 1]
  }

  /** A bidder's total in one auction, as the index gives it: a sum over what the entries of all their bids lead to. */
  function IndexTotal(books: seq<seq<Bid>>, auctionId: nat, a: Addr, payingDenom: Denom): nat {
    SumBy(Flatten(books), From(a, Reread(books, InAuction(auctionId, Selling(payingDenom)))))
  }

  /** A bidder's total in one auction. */
  function TrueTotal(book: seq<Bid>, a: Addr, payingDenom: Denom): nat {
    SumBy(book, From(a, Selling(payingDenom)))
  }

  lemma {:induction false} FlattenMembers(books: seq<seq<Bid>>, n: nat, b: Bid)
    requires BooksOk(books) && n <= |books|
    ensures b in Flatten(books[..n]) <==> b.auctionId <= n && BidAt(books, b.auctionId, b.id) == Some(b)
  {
    if n > 0 {
      FlattenMembers(books, n - 1, b);
      assert books[..n][..n - 1] == books[..n - 1];
      if b in books[n - 1] {
        var j :| 0 <= j < |books[n - 1]| && books[n - 1][j] == b;
      }
    }
  }

  lemma InBooks(books: seq<seq<Bid>>, b: Bid)
    requires BooksOk(books)
    ensures b in Flatten(books) <==> BidAt(books, b.auctionId, b.id) == Some(b)
    ensures b in Flatten(books) ==> Storable(b)
  {
    FlattenMembers(books, |books|, b);
    assert books[..|books|] == books;
  }

  lemma {:induction false} OneAuction(books: seq<seq<Bid>>, auctionId: nat, f: Bid -> nat, n: nat)
    requires BooksOk(books) && n <= |books|
    ensures SumBy(Flatten(books[..n]), InAuction(auctionId, f))
         == if 1 <= auctionId <= n then SumBy(books[auctionId - 1], f) else 0
  {
    if n > 0 {
      OneAuction(books, auctionId, f, n - 1);
      var book := books[n - 1];
      assert books[..n][..n - 1] == books[..n - 1];
      SumConcat(Flatten(books[..n - 1]), book, InAuction(auctionId, f));
      if auctionId == n {
        SumSame(book, book, InAuction(auctionId, f), f);
      } else {
        forall b | b in book ensures InAuction(auctionId, f)(b) == 0 {
          var j :| 0 <= j < |book| && book[j] == b;
        }
        SumZero(book, InAuction(auctionId, f));
      }
    }
  }

  lemma ReadBackShort(books: seq<seq<Bid>>, b: Bid)
    requires BooksOk(books) && b in Flatten(books) && |b.bidder.addr| <= 245
    ensures ValidAddr(b.bidder.addr) && ReadBack(books, b) == b
  {
    InBooks(books, b);
    ParseInverts(b.bidder.addr, b.auctionId, b.id);
  }

  /** For addresses up to 245 bytes the index misses none of the bidder's bids in the auction, and adds none. */
  lemma ShortTotal(books: seq<seq<Bid>>, auctionId: nat, a: Addr, payingDenom: Denom)
    requires BooksOk(books) && 1 <= auctionId <= |books| && |a| <= 245
    ensures IndexTotal(books, auctionId, a, payingDenom) == TrueTotal(books[auctionId - 1], a, payingDenom)
  {
    var f := Selling(payingDenom);
    var g, h := From(a, Reread(books, InAuction(auctionId, f))), InAuction(auctionId, From(a, f));
    var all := Flatten(books);
    forall i | 0 <= i < |all| ensures g(all[i]) == h(all[i]) {
      if all[i].bidder.addr == a {
        assert all[i] in all;
        ReadBackShort(books, all[i]);
      }
    }
    SumSame(all, all, g, h);
    OneAuction(books, auctionId, From(a, f), |books|);
    assert books[..|books|] == books;
  }

  /** What every entry of a bidder with a longer address leads to, whichever of the bidder's bids it was made for. */
  function LongRead(books: seq<seq<Bid>>, a: Addr, auctionId: nat): Bid
    requires ValidAddr(a) && |a| > 245
  {
    OrNoBid(BidAt(books, WrappedAuctionId(a, auctionId), WrappedBidId(a)))
  }

  lemma ReadBackLong(books: seq<seq<Bid>>, b: Bid)
    requires ValidAddr(b.bidder.addr) && |b.bidder.addr| > 245 && IsUint64(b.auctionId)
    ensures ReadBack(books, b) == LongRead(books, b.bidder.addr, b.auctionId)
  {
    ParseLong(b.bidder.addr, b.auctionId, b.id);
  }

  /**
    * From 246 bytes on the total is wrong: it is zero in an auction that has no bid with the wrapped id, so that a
    * bidder's cap is then applied to every bid on its own.
    */
  lemma LongTotalMisses(books: seq<seq<Bid>>, auctionId: nat, a: Addr, payingDenom: Denom)
    requires BooksOk(books) && 1 <= auctionId <= |books|
    requires ValidAddr(a) && |a| > 245 && BidAt(books, auctionId, WrappedBidId(a)).None?
    ensures IndexTotal(books, auctionId, a, payingDenom) == 0
  {
    var g := From(a, Reread(books, InAuction(auctionId, Selling(payingDenom))));
    forall b | b in Flatten(books) ensures g(b) == 0 {
      if b.bidder.addr == a {
        InBooks(books, b);
        ReadBackLong(books, b);
      }
    }
    SumZero(Flatten(books), g);
  }

  lemma TwoBidBook(x: Bid, y: Bid)
    requires ValidAddr(x.bidder.addr) && ValidAddr(y.bidder.addr)
    requires x.auctionId == y.auctionId == 1 && x.id == 1 && y.id == 2
    ensures BooksOk([[x, y]]) && Flatten([[x, y]]) == [x, y]
  {
    assert IsUint64(1) && IsUint64(2);
    var books := [[x, y]];
    assert books[..0] == [] && Flatten(books[..0]) == [];
    forall i, j | 0 <= i < |books| && 0 <= j < |books[i]|
      ensures books[i][j].auctionId == i + 1 && books[i][j].id == j + 1 && Storable(books[i][j])
    {
      assert i == 0 && (j == 0 || j == 1);
    }
  }

  lemma LongTotalEven(books: seq<seq<Bid>>, auctionId: nat, a: Addr, x: Bid, y: Bid, payingDenom: Denom)
    requires ValidAddr(a) && |a| > 245 && x.bidder.addr == y.bidder.addr == a
    requires Flatten(books) == [x, y] && x.auctionId == y.auctionId && IsUint64(x.auctionId)
    ensures IndexTotal(books, auctionId, a, payingDenom) % 2 == 0
  {
    ReadBackLong(books, x);
    ReadBackLong(books, y);
    SumTwo(x, y, From(a, Reread(books, InAuction(auctionId, Selling(payingDenom)))));
  }

  /** Two bids of one and two coins make a total of three, but every address over 245 bytes gets an even number. */
  lemma LongTotalWrong(a: Addr, x: Bid, y: Bid)
    requires ValidAddr(a) && |a| > 245 && x.bidder.addr == y.bidder.addr == a
    requires x.auctionId == y.auctionId == 1 && x.id == 1 && y.id == 2
    requires x.coin == Coin("sell", 1) && y.coin == Coin("sell", 2)
    ensures BooksOk([[x, y]]) && IndexTotal([[x, y]], 1, a, "pay") != TrueTotal([x, y], a, "pay")
  {
    TwoBidBook(x, y);
    assert IsUint64(1);
    LongTotalEven([[x, y]], 1, a, x, y, "pay");
    SumTwo(x, y, From(a, Selling("pay")));
  }

  lemma SumTwo(x: Bid, y: Bid, f: Bid -> nat)
    ensures SumBy([x, y], f) == f(x) + f(y)
  {
    assert [x, y][..1] == [x] && [x][..0] == [];
    assert SumBy([x], f) == SumBy([x][..0], f) + f(x);
  }

  /** The total the index gives is the bidder's total, whatever the bids, exactly for addresses up to 245 bytes. */
  lemma IndexTotalIff(a: Addr)
    requires ValidAddr(a)
    ensures (forall books, auctionId, d {:trigger IndexTotal(books, auctionId, a, d)} ::
               BooksOk(books) && 1 <= auctionId <= |books| ==>
               IndexTotal(books, auctionId, a, d) == TrueTotal(books[auctionId - 1], a, d))
       <==> |a| <= 245
  {
    if |a| <= 245 {
      forall books, auctionId, d {:trigger IndexTotal(books, auctionId, a, d)}
        | BooksOk(books) && 1 <= auctionId <= |books|
        ensures IndexTotal(books, auctionId, a, d) == TrueTotal(books[auctionId - 1], a, d)
      {
        ShortTotal(books, auctionId, a, d);
      }
    } else {
      var x := Bid(1, 1, Canonical(a), FixedPrice, ONE, Coin("sell", 1), true);
      LongTotalWrong(a, x, x.(id := 2, coin := Coin("sell", 2)));
    }
  }

  ghost predicate Distinct<T(!new)>(s: seq<T>) {
    forall i, j :: 0 <= i < j < |s| ==> s[i] != s[j]
  }

  lemma {:induction false} FlattenDistinct(books: seq<seq<Bid>>, n: nat)
    requires BooksOk(books) && n <= |books|
    ensures Distinct(Flatten(books[..n]))
    ensures forall b :: b in Flatten(books[..n]) ==> b.auctionId <= n
  {
    if n > 0 {
      FlattenDistinct(books, n - 1);
      assert books[..n][..n - 1] == books[..n - 1];
      var init, book := Flatten(books[..n - 1]), books[n - 1];
      forall i, j | 0 <= i < j < |init + book| ensures (init + book)[i] != (init + book)[j] {
        if i < |init| <= j {
          assert init[i] in init;
        }
      }
    }
  }

  class BidStore {
    var primary: map<Key, Bid>
    var index: set<Key>

    function View(): Store
      reads this
    {
      Store(primary, index)
    }

    constructor ()
      ensures Holds(View(), [])
    {
      primary, index := map[], {};
    }

    method SetBid(bid: Bid)
      requires Storable(bid)
      modifies this
      ensures View() == SetIn(old(View()), bid)
    {
      primary := primary[PrimaryKey(bid) := bid];
      index := index + {IndexKey(bid)};
    }

    method GetBid(auctionId: nat, bidId: nat) returns (bid: Option<Bid>)
      ensures bid == Find(View(), auctionId, bidId)
    {
      var key := BidKey(auctionId, bidId);
      bid := if key in primary then Some(primary[key]) else None;
    }

    /**
      * `GetBidsByBidder`: the iteration visits the index entries that start with the bidder's prefix, one for each of
      * the bidder's bids, and collects what they lead to. Up to 245 address bytes that is the bid itself.
      */
    method GetBidsByBidder(bidder: Addr, ghost books: seq<seq<Bid>>) returns (bids: seq<Bid>)
      requires BooksOk(books) && Holds(View(), books) && ValidAddr(bidder)
      ensures |bidder| <= 245 ==>
                Distinct(bids) && forall b :: b in bids <==> b in primary.Values && b.bidder.addr == bidder
      ensures |bidder| > 245 ==> forall b :: b in bids ==> exists a :: b == LongRead(books, bidder, a)
      ensures exists own :: ReadFrom(View(), books, bidder, own, bids)
    {
      bids := [];
      ghost var own: seq<Bid> := [];
      var todo := index;
      while todo != {}
        invariant todo <= index && ReadSoFar(View(), books, bidder, todo, own, bids)
      {
        var key :| key in todo;
        ghost var bid := ReadNext(View(), books, bidder, todo, key, own, bids);
        if BidIndexPrefix(bidder) <= key {
          var ids := ParseBidIndexKey(key);
          var found := GetBid(ids.value.0, ids.value.1);
          bids := bids + [OrNoBid(found)];
          own := own + [bid];
        }
        todo := todo - {key};
      }
      ReadComplete(View(), books, bidder, own, bids);
      ReadFromOwn(View(), books, bidder, own, bids);
    }

    /** The total in `ValidateFixedPriceBid`, collected over the bidder's bids in all auctions. */
    method TotalBidAmount(bidder: Addr, auctionId: nat, payingDenom: Denom, ghost books: seq<seq<Bid>>)
      returns (total: nat)
      requires BooksOk(books) && Holds(View(), books) && ValidAddr(bidder)
      ensures total == IndexTotal(books, auctionId, bidder, payingDenom)
    {
      var found := GetBidsByBidder(bidder, books);
      ghost var own :| ReadFrom(View(), books, bidder, own, found);
      total := SumInAuction(found, auctionId, payingDenom);
      OwnTotal(View(), books, bidder, own, found, InAuction(auctionId, Selling(payingDenom)));
    }
  }

  method SumInAuction(bids: seq<Bid>, auctionId: nat, payingDenom: Denom) returns (total: nat)
    ensures total == SumBy(bids, InAuction(auctionId, Selling(payingDenom)))
  {
    total := 0;
    for i := 0 to |bids|
      invariant total == SumBy(bids[..i], InAuction(auctionId, Selling(payingDenom)))
    {
      assert bids[..i + 1][..i] == bids[..i];
      if bids[i].auctionId == auctionId {
        total := total + SellingAmount(bids[i], payingDenom);
      }
    }
    assert bids[..|bids|] == bids;
  }

  /** The parsed ids are again 64-bit numbers. */
  lemma ParsesIds(b: Bid)
    requires Storable(b)
    ensures var ids := ParseBidIndexKey(IndexKey(b));
            ids.Some? && IsUint64(ids.value.0) && IsUint64(ids.value.1)
  {
    var a := b.bidder.addr;
    if |a| <= 245 {
      ParseInverts(a, b.auctionId, b.id);
    } else {
      ParseLong(a, b.auctionId, b.id);
      NumberBound(BidIndexPrefix(a)[|a| - 246..|a| - 238]);
      if |a| > 253 {
        NumberBound(BidIndexPrefix(a)[|a| - 254..|a| - 246]);
      }
    }
  }

  lemma {:induction false} NumberBound(key: Key)
    ensures Number(key) < Pow256(|key|)
  {
    if key != [] {
      NumberBound(key[..|key| - 1]);
    }
  }

  /** `own` are the bidder's bids, each once, and `found` is what their index entries lead to. */
  ghost predicate ReadFrom(s: Store, books: seq<seq<Bid>>, bidder: Addr, own: seq<Bid>, found: seq<Bid>) {
    && Distinct(own)
    && (forall b :: b in own <==> b in s.primary.Values && b.bidder.addr == bidder)
    && |found| == |own| && (forall i :: 0 <= i < |own| ==> found[i] == ReadBack(books, own[i]))
  }

  /** The same for the bidder's bids whose index entries were visited. */
  ghost predicate ReadSoFar(s: Store, books: seq<seq<Bid>>, bidder: Addr, todo: set<Key>, own: seq<Bid>,
                            found: seq<Bid>)
    requires Agree(s)
  {
    && Collected(s, bidder, todo, own)
    && |found| == |own| && (forall i :: 0 <= i < |own| ==> found[i] == ReadBack(books, own[i]))
  }

  /** One more entry: it is the bidder's exactly when it has the bidder's prefix, and is then parsed and looked up. */
  lemma ReadNext(s: Store, books: seq<seq<Bid>>, bidder: Addr, todo: set<Key>, key: Key, own: seq<Bid>, found: seq<Bid>)
    returns (bid: Bid)
    requires BooksOk(books) && Holds(s, books) && ValidAddr(bidder) && key in todo && todo <= s.index
    requires ReadSoFar(s, books, bidder, todo, own, found)
    ensures !(BidIndexPrefix(bidder) <= key) ==> ReadSoFar(s, books, bidder, todo - {key}, own, found)
    ensures BidIndexPrefix(bidder) <= key ==>
              var ids := ParseBidIndexKey(key);
              && ids.Some?
              && ReadSoFar(s, books, bidder, todo - {key}, own + [bid],
                           found + [OrNoBid(Find(s, ids.value.0, ids.value.1))])
  {
    bid := BidUnder(s, key);
    CollectOne(s, bidder, todo, bid, own);
    IndexPrefixSelects(bidder, bid.bidder.addr, bid.auctionId, bid.id);
    ParsesIds(bid);
  }

  lemma ReadComplete(s: Store, books: seq<seq<Bid>>, bidder: Addr, own: seq<Bid>, found: seq<Bid>)
    requires Agree(s) && ReadSoFar(s, books, bidder, {}, own, found)
    ensures ReadFrom(s, books, bidder, own, found)
  {
  }

  lemma OwnReadBack(s: Store, books: seq<seq<Bid>>, b: Bid)
    requires BooksOk(books) && Holds(s, books) && b in s.primary.Values
    ensures ValidAddr(b.bidder.addr)
    ensures ReadBack(books, b) == if |b.bidder.addr| <= 245 then b else LongRead(books, b.bidder.addr, b.auctionId)
  {
    HeldBids(s, books, b);
    InBooks(books, b);
    if |b.bidder.addr| <= 245 {
      ReadBackShort(books, b);
    } else {
      ReadBackLong(books, b);
    }
  }

  lemma ReadFromOwn(s: Store, books: seq<seq<Bid>>, bidder: Addr, own: seq<Bid>, found: seq<Bid>)
    requires BooksOk(books) && Holds(s, books) && ValidAddr(bidder) && ReadFrom(s, books, bidder, own, found)
    ensures |bidder| <= 245 ==> found == own
    ensures |bidder| > 245 ==> forall b :: b in found ==> exists a :: b == LongRead(books, bidder, a)
  {
    forall i | 0 <= i < |own|
      ensures found[i] == if |bidder| <= 245 then own[i] else LongRead(books, bidder, own[i].auctionId)
    {
      assert own[i] in own;
      OwnReadBack(s, books, own[i]);
    }
  }

  lemma OwnTotal(s: Store, books: seq<seq<Bid>>, a: Addr, own: seq<Bid>, found: seq<Bid>, f: Bid -> nat)
    requires BooksOk(books) && Holds(s, books) && ValidAddr(a) && ReadFrom(s, books, a, own, found)
    ensures SumBy(found, f) == SumBy(Flatten(books), From(a, Reread(books, f)))
  {
    var g := From(a, Reread(books, f));
    assert forall i :: 0 <= i < |own| ==> own[i] in own;
    SumSame(found, own, f, g);
    forall b: Bid | b.bidder.addr == a ensures b in own <==> b in Flatten(books) {
      HeldBids(s, books, b);
      InBooks(books, b);
    }
    assert books[..|books|] == books;
    FlattenDistinct(books, |books|);
    SumDistinct(own, Flatten(books), g, g);
  }

  /** Two lists without repetition have the same sum if whatever weighs something is in both and weighs the same. */
  lemma {:induction false} SumDistinct(s: seq<Bid>, t: seq<Bid>, f: Bid -> nat, g: Bid -> nat)
    requires Distinct(s) && Distinct(t)
    requires forall x :: x in s && f(x) > 0 ==> x in t && g(x) == f(x)
    requires forall x :: x in t && g(x) > 0 ==> x in s && f(x) == g(x)
    ensures SumBy(s, f) == SumBy(t, g)
  {
    if s == [] {
      SumZero(t, g);
    } else {
      var n, x := |s| - 1, s[|s| - 1];
      assert s == s[..n] + [x] && x in s && x !in s[..n];
      if f(x) == 0 {
        SumDistinct(s[..n], t, f, g);
      } else {
        var i :| 0 <= i < |t| && t[i] == x;
        Without(t, i, g);
        SumDistinct(s[..n], t[..i] + t[i + 1..], f, g);
      }
    }
  }

  lemma Without(t: seq<Bid>, i: nat, g: Bid -> nat)
    requires Distinct(t) && i < |t|
    ensures var u := t[..i] + t[i + 1..];
            && Distinct(u) && SumBy(t, g) == SumBy(u, g) + g(t[i])
            && forall y :: y in u <==> y in t && y != t[i]
  {
    assert t == t[..i] + [t[i]] + t[i + 1..];
    SumConcat(t[..i], t[i + 1..], g);
    SumSnoc(t[..i], t[i], g);
    SumConcat(t[..i] + [t[i]], t[i + 1..], g);
  }

  lemma BidUnder(s: Store, key: Key) returns (bid: Bid)
    requires Agree(s) && key in s.index
    ensures Storable(bid) && key == IndexKey(bid) && PrimaryKey(bid) in s.primary && s.primary[PrimaryKey(bid)] == bid
  {
    var k :| k in s.primary && key == IndexKey(s.primary[k]);
    bid := s.primary[k];
  }

  /** The bidder's bids whose index entries were visited, each once. */
  ghost predicate Collected(s: Store, bidder: Addr, todo: set<Key>, bids: seq<Bid>)
    requires Agree(s)
  {
    && (forall b :: b in bids <==> b in s.primary.Values && b.bidder.addr == bidder && IndexKey(b) !in todo)
    && Distinct(bids)
  }

  lemma CollectOne(s: Store, bidder: Addr, todo: set<Key>, bid: Bid, bids: seq<Bid>)
    requires Agree(s) && Collected(s, bidder, todo, bids)
    requires bid in s.primary.Values && IndexKey(bid) in todo
    ensures Collected(s, bidder, todo - {IndexKey(bid)}, if bid.bidder.addr == bidder then bids + [bid] else bids)
  {
    OnlyBidUnder(s, IndexKey(bid), bid);
    assert bid !in bids;
  }

  lemma OnlyBidUnder(s: Store, key: Key, bid: Bid)
    requires Agree(s) && bid in s.primary.Values && key == IndexKey(bid)
    ensures forall b :: b in s.primary.Values ==> (IndexKey(b) == key <==> b == bid)
  {
    forall b | b in s.primary.Values && IndexKey(b) == key ensures b == bid {
      IndexKeyTells(b, bid);
    }
  }
}

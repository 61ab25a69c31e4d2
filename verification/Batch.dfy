/** Allocation of a whole auction: `CalculateBatchAllocation` and `CalculateFixedPriceAllocation` (keeper/match.go). */
module Batch {
  import opened Types
  import opened Sums
  import opened Rounding
  import opened Matching
  import opened Demand
  import opened Winners
  import opened Search

  datatype MatchingInfo = MatchingInfo(
    matchedLen: nat,
    matchedPrice: Option<Dec>,
    totalMatched: nat,
    allocation: map<Text, nat>,
    charged: map<Text, nat>,
    refund: map<Text, int>)

  const NO_MATCH := MatchResult(None, 0, [], map[])

  /** What the sort leaves behind: any arrangement of the bids, here proposed by `hint`. */
  function Arrange(bids: seq<Bid>, hint: seq<Bid>): (order: seq<Bid>)
    ensures multiset(order) == multiset(bids)
    ensures multiset(hint) == multiset(bids) ==> order == hint
  {
    if multiset(hint) == multiset(bids) then hint else bids
  }

  /** The price levels, numbered from the lowest. */
  function PriceAt(order: seq<Bid>, i: nat): Dec
    requires i < |Levels(order)|
  {
    Levels(order)[|Levels(order)| - 1 - i]
  }

  /** The demand at each price, the lowest price first. */
  ghost function DemandsAt(prices: seq<Dec>, order: seq<Bid>, caps: map<Text, nat>): (r: seq<nat>)
    ensures |r| == |prices|
  {
    if prices == [] then [] else DemandsAt(prices[1..], order, caps) + [TotalDemand(order, prices[0], caps)]
  }

  ghost function Demands(order: seq<Bid>, caps: map<Text, nat>): seq<nat> {
    DemandsAt(Levels(order), order, caps)
  }

  lemma {:induction false} DemandAtPrice(prices: seq<Dec>, order: seq<Bid>, caps: map<Text, nat>, i: nat)
    requires i < |prices|
    ensures DemandsAt(prices, order, caps)[i] == TotalDemand(order, prices[|prices| - 1 - i], caps)
  {
    if i < |prices| - 1 {
      DemandAtPrice(prices[1..], order, caps, i);
    }
  }

  /** The price at a level found by a search. */
  function LevelPrice(order: seq<Bid>, level: Option<nat>): Option<Dec> {
    if level.Some? && level.value < |Levels(order)| then Some(PriceAt(order, level.value)) else None
  }

  /** The match at that price, or no match. */
  function MatchFor(order: seq<Bid>, caps: map<Text, nat>, price: Option<Dec>): MatchResult {
    if price.None? then NO_MATCH else ResultOf(price.value, Fill(price.value, Visited(price.value, order), caps))
  }

  ghost function KeptPrice(order: seq<Bid>, supply: nat, caps: map<Text, nat>): Option<Dec> {
    LevelPrice(order, Kept(Demands(order, caps), supply, 0, |Levels(order)|, None))
  }

  ghost function LowestPrice(order: seq<Bid>, supply: nat, caps: map<Text, nat>): Option<Dec> {
    LevelPrice(order, Lowest(Demands(order, caps), supply, 0, |Levels(order)|))
  }

  /** What the binary search leaves in its closure. */
  ghost function SearchResult(order: seq<Bid>, supply: nat, caps: map<Text, nat>): MatchResult {
    MatchFor(order, caps, KeptPrice(order, supply, caps))
  }

  /** What the search is for: the match at the lowest price whose demand can be met. */
  ghost function LowestResult(order: seq<Bid>, supply: nat, caps: map<Text, nat>): MatchResult {
    MatchFor(order, caps, LowestPrice(order, supply, caps))
  }

  function InfoOf(order: seq<Bid>, payingDenom: Denom, res: MatchResult): MatchingInfo {
    var reserved := Group(order, Paying(payingDenom));
    var bidders := reserved.Keys + res.byBidder.Keys;
    MatchingInfo(
      |res.bids|, res.price, res.amount,
      map a | a in bidders :: MatchedOf(res.byBidder, a),
      map a | a in bidders :: ChargeOf(res.byBidder, a),
      map a | a in bidders :: Get(reserved, a) - ChargeOf(res.byBidder, a))
  }

  predicate BatchBook(bids: seq<Bid>, payingDenom: Denom) {
    forall b :: b in bids ==> BatchBid(b, payingDenom)
  }

  lemma BookPerm(bids: seq<Bid>, order: seq<Bid>, payingDenom: Denom)
    requires BatchBook(bids, payingDenom) && multiset(bids) == multiset(order)
    ensures BatchBook(order, payingDenom)
  {
    PermMembers(bids, order);
  }

  lemma LevelPositive(order: seq<Bid>, payingDenom: Denom)
    requires BatchBook(order, payingDenom)
    ensures forall i :: 0 <= i < |Levels(order)| ==> 0 < Levels(order)[i]
  {
    LevelsSorted(order);
    forall i | 0 <= i < |Levels(order)| ensures 0 < Levels(order)[i] {
      assert Levels(order)[i] in Levels(order);
    }
  }

  lemma DemandsNonIncreasing(order: seq<Bid>, payingDenom: Denom, caps: map<Text, nat>)
    requires BatchBook(order, payingDenom)
    ensures NonIncreasing(Demands(order, caps))
  {
    forall i, j | 0 <= i <= j < |Demands(order, caps)| ensures Demands(order, caps)[i] >= Demands(order, caps)[j] {
      LowerPriceMoreDemand(order, payingDenom, caps, i, j);
    }
  }

  lemma LowerPriceMoreDemand(order: seq<Bid>, payingDenom: Denom, caps: map<Text, nat>, i: nat, j: nat)
    requires BatchBook(order, payingDenom) && i <= j < |Levels(order)|
    ensures Demands(order, caps)[i] >= Demands(order, caps)[j]
  {
    var prices := Levels(order);
    LevelsSorted(order);
    LevelPositive(order, payingDenom);
    DemandAtPrice(prices, order, caps, i);
    DemandAtPrice(prices, order, caps, j);
    DemandMono(order, prices[|prices| - 1 - i], prices[|prices| - 1 - j], caps);
  }

  /**
    * Lowest price or not: the search sells at the lowest price whose demand can be met exactly when no price
    * fits, or the first probed price whose demand does not exceed the supply has some demand.
    */
  lemma SearchIsLowestIff(order: seq<Bid>, supply: nat, payingDenom: Denom, caps: map<Text, nat>)
    requires BatchBook(order, payingDenom)
    ensures SearchResult(order, supply, caps) == LowestResult(order, supply, caps)
       <==> || LowestPrice(order, supply, caps).None?
            || var probe := FirstProbeWithin(Demands(order, caps), supply, 0);
               probe.Some? && Demands(order, caps)[probe.value] > 0
  {
    var demand := Demands(order, caps);
    DemandsNonIncreasing(order, payingDenom, caps);
    SearchFindsLowestIff(demand, supply, 0);
    KeptFits(demand, supply, 0, |demand|, None);
    LowestIsLowest(demand, supply, 0, |demand|);
    PricesTellLevelsApart(order, Kept(demand, supply, 0, |demand|, None), Lowest(demand, supply, 0, |demand|));
    PriceTellsMatch(order, caps, KeptPrice(order, supply, caps));
    PriceTellsMatch(order, caps, LowestPrice(order, supply, caps));
  }

  lemma PriceTellsMatch(order: seq<Bid>, caps: map<Text, nat>, price: Option<Dec>)
    ensures MatchFor(order, caps, price).price == price
  {
  }

  lemma PricesTellLevelsApart(order: seq<Bid>, k: Option<nat>, l: Option<nat>)
    requires k.Some? ==> k.value < |Levels(order)|
    requires l.Some? ==> l.value < |Levels(order)|
    ensures LevelPrice(order, k) == LevelPrice(order, l) <==> k == l
  {
    LevelsSorted(order);
    if k.Some? && l.Some? && k != l {
      assert PriceAt(order, k.value) != PriceAt(order, l.value);
    }
  }

  /** With positive demand at the highest price the search always finds the lowest price that fits. */
  lemma SearchIsLowest(order: seq<Bid>, supply: nat, payingDenom: Denom, caps: map<Text, nat>)
    requires BatchBook(order, payingDenom)
    requires Levels(order) != [] ==> TotalDemand(order, Levels(order)[0], caps) > 0
    ensures SearchResult(order, supply, caps) == LowestResult(order, supply, caps)
  {
    var demand := Demands(order, caps);
    DemandsNonIncreasing(order, payingDenom, caps);
    if Levels(order) != [] {
      DemandAtPrice(Levels(order), order, caps, |demand| - 1);
    }
    PositiveDemand(demand, supply, 0, |demand|, None);
  }

  /** At one of the prices it probes, the search comes to a bid under a text that is on no allowed entry. */
  ghost predicate SearchMeetsStranger(order: seq<Bid>, supply: nat, caps: map<Text, nat>) {
    exists h :: 0 <= h < |Levels(order)| && h in Probes(Demands(order, caps), supply, 0, |Levels(order)|)
                && LevelMeetsStranger(order, supply, caps, h)
  }

  ghost predicate LevelMeetsStranger(order: seq<Bid>, supply: nat, caps: map<Text, nat>, h: nat)
    requires h < |Levels(order)|
  {
    MeetsStranger(PriceAt(order, h), Visited(PriceAt(order, h), order), caps, supply)
  }

  /** With every bid under an allowed text no stranger is met. */
  lemma KnownBookIsFine(order: seq<Bid>, supply: nat, caps: map<Text, nat>)
    requires CapsKnown(order, caps)
    ensures !SearchMeetsStranger(order, supply, caps)
  {
    forall h | 0 <= h < |Levels(order)| ensures !LevelMeetsStranger(order, supply, caps, h) {
      var p := PriceAt(order, h);
      VisitedMembers(p, order);
      var visit := Visited(p, order);
      forall i | 0 <= i < |visit| ensures visit[i].bidder in caps {
        assert visit[i] in order;
      }
      KnownMeetNoStranger(p, visit, caps, supply);
    }
  }

  /** A book whose highest bids are all under unknown texts is met with a stranger at once, however it is arranged. */
  lemma StrangersOnTop(order: seq<Bid>, supply: nat, caps: map<Text, nat>)
    requires Levels(order) != [] && forall b :: b in order && b.price == Levels(order)[0] ==> b.bidder !in caps
    ensures SearchMeetsStranger(order, supply, caps)
  {
    var n := |Levels(order)|;
    var h := n / 2;
    ProbesAreLevels(Demands(order, caps), supply, 0, n);
    var p, top := PriceAt(order, h), Levels(order)[0];
    LevelsSorted(order);
    assert top >= p;
    BookLevel(order, top, _ => 0);
    assert top in Levels(order);
    var x :| x in order && x.price == top;
    var first := Lookup(Book(order), top);
    assert x in first && first[0] in first;
    assert Visited(p, order)[0] == first[0];
    assert Visited(p, order)[..0] == [];
    assert LevelMeetsStranger(order, supply, caps, h);
  }

  /** The search has still to probe `rest`, and met no stranger so far. */
  ghost predicate NoneMetYet(order: seq<Bid>, supply: nat, caps: map<Text, nat>, rest: set<nat>) {
    var probes := Probes(Demands(order, caps), supply, 0, |Levels(order)|);
    && rest <= probes
    && forall h :: 0 <= h < |Levels(order)| && h in probes - rest ==> !LevelMeetsStranger(order, supply, caps, h)
  }

  /** The search is left with the levels [lo, hi); it has kept `res`, the match at level `kept`. */
  ghost predicate Searching(order: seq<Bid>, supply: nat, caps: map<Text, nat>, lo: nat, hi: nat, kept: Option<nat>,
                            res: MatchResult)
    requires lo <= hi <= |Levels(order)|
  {
    && LevelPrice(order, Kept(Demands(order, caps), supply, lo, hi, kept)) == KeptPrice(order, supply, caps)
    && NoneMetYet(order, supply, caps, Probes(Demands(order, caps), supply, lo, hi))
    && res == MatchFor(order, caps, LevelPrice(order, kept))
  }

  /** One probe ends the search with a panic, or narrows it and keeps the match if there is one. */
  lemma SearchStep(order: seq<Bid>, supply: nat, caps: map<Text, nat>, lo: nat, hi: nat, kept: Option<nat>,
                   res: MatchResult, h: nat, r: MatchResult)
    requires lo < hi <= |Levels(order)| && h == (lo + hi) / 2 && Searching(order, supply, caps, lo, hi, kept, res)
    ensures LevelMeetsStranger(order, supply, caps, h) ==> SearchMeetsStranger(order, supply, caps)
    ensures !LevelMeetsStranger(order, supply, caps, h) && Fits(Demands(order, caps), supply, h) ==>
              (r == MatchFor(order, caps, LevelPrice(order, Some(h))) ==>
                 Searching(order, supply, caps, lo, h, Some(h), r))
    ensures !LevelMeetsStranger(order, supply, caps, h) && !Fits(Demands(order, caps), supply, h) ==>
              Searching(order, supply, caps, h + 1, hi, kept, res)
  {
    SearchTurn(Demands(order, caps), supply, lo, hi, kept);
  }

  lemma SearchEnds(order: seq<Bid>, supply: nat, caps: map<Text, nat>, lo: nat, kept: Option<nat>, res: MatchResult)
    requires lo <= |Levels(order)| && Searching(order, supply, caps, lo, lo, kept, res)
    ensures !SearchMeetsStranger(order, supply, caps) && res == SearchResult(order, supply, caps)
  {
  }

  /** The search for the match price, with the match result kept by its closure. A probe's panic ends it. */
  method FindMatch(order: seq<Bid>, supply: nat, caps: map<Text, nat>, ghost payingDenom: Denom)
    returns (res: MatchResult, panicked: bool)
    requires BatchBook(order, payingDenom)
    ensures panicked <==> SearchMeetsStranger(order, supply, caps)
    ensures !panicked ==> res == SearchResult(order, supply, caps)
  {
    var prices, byPrice := BidsByPrice(order);
    ghost var kept: Option<nat> := None;
    res, panicked := NO_MATCH, false;
    var lo, hi := 0, |prices|;
    while lo < hi
      invariant 0 <= lo <= hi <= |prices| && !panicked
      invariant Searching(order, supply, caps, lo, hi, kept, res)
    {
      var h := (lo + hi) / 2;
      var r, matched;
      r, matched, panicked := Probe(order, prices, byPrice, supply, caps, h, payingDenom);
      SearchStep(order, supply, caps, lo, hi, kept, res, h, r);
      if panicked {
        return;
      }
      if matched {
        res, kept, hi := r, Some(h), h;
      } else {
        lo := h + 1;
      }
    }
    SearchEnds(order, supply, caps, lo, kept, res);
  }

  /** The function the search calls: a match at the `h`-th lowest price succeeds exactly when that level fits. */
  method Probe(ghost order: seq<Bid>, prices: seq<Dec>, byPrice: map<Dec, seq<Bid>>, supply: nat, caps: map<Text, nat>,
               h: nat, ghost payingDenom: Denom) returns (r: MatchResult, matched: bool, panicked: bool)
    requires BatchBook(order, payingDenom) && prices == Levels(order) && byPrice == Book(order) && h < |prices|
    ensures panicked <==> LevelMeetsStranger(order, supply, caps, h)
    ensures !panicked ==> (matched <==> Fits(Demands(order, caps), supply, h))
    ensures !panicked && matched ==> r == MatchFor(order, caps, LevelPrice(order, Some(h)))
  {
    var p := prices[|prices| - 1 - h];
    ProbeReady(order, caps, payingDenom, h, p);
    r, matched, panicked := Match(p, prices, byPrice, supply, caps);
  }

  lemma ProbeReady(order: seq<Bid>, caps: map<Text, nat>, payingDenom: Denom, h: nat, p: Dec)
    requires BatchBook(order, payingDenom) && h < |Levels(order)| && p == PriceAt(order, h)
    ensures 0 < p && LevelPrice(order, Some(h)) == Some(p)
    ensures NoFixedPrice(Visit(p, Levels(order), Book(order)))
    ensures Fill(p, Visit(p, Levels(order), Book(order)), caps).total == Demands(order, caps)[h]
  {
    LevelPositive(order, payingDenom);
    VisitedMembers(p, order);
    LevelTotal(order, caps, h, p);
  }

  lemma LevelTotal(order: seq<Bid>, caps: map<Text, nat>, h: nat, p: Dec)
    requires h < |Levels(order)| && p == PriceAt(order, h)
    ensures Demands(order, caps)[h] == TotalDemand(order, p, caps) == Fill(p, Visited(p, order), caps).total
  {
    DemandAtPrice(Levels(order), order, caps, h);
    MatchTotal(p, order, caps);
  }

  /** Sums a weight per bidder, as the reserve and allocation loops do. */
  method GroupByBidder(bids: seq<Bid>, f: Bid -> nat) returns (m: map<Text, nat>)
    ensures m == Group(bids, f)
  {
    m := map[];
    for i := 0 to |bids|
      invariant m == Group(bids[..i], f)
    {
      assert bids[..i + 1][..i] == bids[..i];
      m := m[bids[i].bidder := Get(m, bids[i].bidder) + f(bids[i])];
    }
    assert bids[..|bids|] == bids;
  }

  /** `CalculateBatchAllocation` up to the writes; also returns the matched bids it marks in the store. */
  method CalculateBatchAllocation(bids: seq<Bid>, hint: seq<Bid>, supply: nat, payingDenom: Denom, caps: map<Text, nat>)
    returns (info: MatchingInfo, matched: seq<Bid>, panicked: bool)
    requires BatchBook(bids, payingDenom)
    ensures panicked <==> SearchMeetsStranger(Arrange(bids, hint), supply, caps)
    ensures var res := SearchResult(Arrange(bids, hint), supply, caps);
            !panicked ==> info == InfoOf(Arrange(bids, hint), payingDenom, res) && matched == res.bids
  {
    var order := Arrange(bids, hint);
    BookPerm(bids, order, payingDenom);
    var res;
    res, panicked := FindMatch(order, supply, caps, payingDenom);
    if panicked {
      info, matched := InfoOf([], payingDenom, NO_MATCH), [];
      return;
    }
    var reserved := GroupByBidder(order, Paying(payingDenom));
    var allocation, charged, refund := FillMaps(reserved, res.byBidder);
    info := MatchingInfo(|res.bids|, res.price, res.amount, allocation, charged, refund);
    matched := res.bids;
  }

  /** Everyone who bid starts with nothing allocated and the whole reserve to be refunded. */
  method StartMaps(reserved: map<Text, nat>)
    returns (allocation: map<Text, nat>, charged: map<Text, nat>, refund: map<Text, int>)
    ensures allocation.Keys == charged.Keys == refund.Keys == reserved.Keys
    ensures forall a :: a in reserved ==> allocation[a] == charged[a] == 0 && refund[a] == reserved[a]
  {
    allocation, charged, refund := map[], map[], map[];
    var todo := reserved.Keys;
    while todo != {}
      invariant todo <= reserved.Keys
      invariant allocation.Keys == charged.Keys == refund.Keys == reserved.Keys - todo
      invariant forall a :: a in allocation ==> allocation[a] == charged[a] == 0 && refund[a] == reserved[a]
    {
      var a :| a in todo;
      allocation, charged, refund := allocation[a := 0], charged[a := 0], refund[a := reserved[a]];
      todo := todo - {a};
    }
  }

  /** The matched bidders then get their amounts; the order of a map's keys is arbitrary. */
  method FillMaps(reserved: map<Text, nat>, byBidder: map<Text, BidderMatch>)
    returns (allocation: map<Text, nat>, charged: map<Text, nat>, refund: map<Text, int>)
    ensures allocation == map a | a in reserved.Keys + byBidder.Keys :: MatchedOf(byBidder, a)
    ensures charged == map a | a in reserved.Keys + byBidder.Keys :: ChargeOf(byBidder, a)
    ensures refund == map a | a in reserved.Keys + byBidder.Keys :: Get(reserved, a) - ChargeOf(byBidder, a)
  {
    allocation, charged, refund := StartMaps(reserved);
    var todo := byBidder.Keys;
    while todo != {}
      invariant todo <= byBidder.Keys
      invariant MapsUpTo(reserved, byBidder, todo, allocation, charged, refund)
    {
      var a :| a in todo;
      MapsStep(reserved, byBidder, todo, allocation, charged, refund, a);
      allocation, charged := allocation[a := byBidder[a].matched], charged[a := byBidder[a].paying];
      refund := refund[a := Get(reserved, a) - byBidder[a].paying];
      todo := todo - {a};
    }
  }

  /** The maps when the bidders in `todo` have not had their turn. */
  ghost predicate MapsUpTo(reserved: map<Text, nat>, byBidder: map<Text, BidderMatch>, todo: set<Text>,
                           allocation: map<Text, nat>, charged: map<Text, nat>, refund: map<Text, int>)
  {
    && allocation.Keys == charged.Keys == refund.Keys == reserved.Keys + (byBidder.Keys - todo)
    && (forall a :: a in allocation ==> allocation[a] == if a in todo then 0 else MatchedOf(byBidder, a))
    && (forall a :: a in charged ==> charged[a] == if a in todo then 0 else ChargeOf(byBidder, a))
    && (forall a :: a in refund ==> refund[a] == Get(reserved, a) - if a in todo then 0 else ChargeOf(byBidder, a))
  }

  lemma MapsStep(reserved: map<Text, nat>, byBidder: map<Text, BidderMatch>, todo: set<Text>,
                 allocation: map<Text, nat>, charged: map<Text, nat>, refund: map<Text, int>, a: Text)
    requires MapsUpTo(reserved, byBidder, todo, allocation, charged, refund) && a in todo && todo <= byBidder.Keys
    ensures MapsUpTo(reserved, byBidder, todo - {a}, allocation[a := byBidder[a].matched],
                     charged[a := byBidder[a].paying], refund[a := Get(reserved, a) - byBidder[a].paying])
  {
  }

  /** `CalculateFixedPriceAllocation`: every bid was already accepted, so all are allocated. */
  method CalculateFixedPriceAllocation(bids: seq<Bid>, startPrice: Dec, payingDenom: Denom) returns (info: MatchingInfo)
    ensures info.allocation == Group(bids, Selling(payingDenom))
    ensures info.totalMatched == SumBy(bids, Selling(payingDenom))
    ensures info.matchedLen == |bids| && info.matchedPrice == Some(startPrice)
  {
    info := MatchingInfo(0, Some(startPrice), 0, map[], map[], map[]);
    for i := 0 to |bids|
      invariant info.allocation == Group(bids[..i], Selling(payingDenom))
      invariant info.totalMatched == SumBy(bids[..i], Selling(payingDenom))
      invariant info.matchedLen == i && info.matchedPrice == Some(startPrice)
    {
      var b := bids[i];
      assert bids[..i + 1][..i] == bids[..i];
      var amount := SellingAmount(b, payingDenom);
      var before := if b.bidder in info.allocation then info.allocation[b.bidder] else 0;
      info := info.(allocation := info.allocation[b.bidder := before + amount],
                    totalMatched := info.totalMatched + amount, matchedLen := info.matchedLen + 1);
    }
    assert bids[..|bids|] == bids;
  }

  // ----- What the allocation guarantees, whether or not the search met the lowest price

  function Clip(m: map<Text, int>): map<Text, nat> {
    map a | a in m :: if m[a] >= 0 then m[a] else 0
  }

  /** The kept result is a real match: it is empty, or the walk at a positive price whose demand fits the supply. */
  lemma SearchResultIsMatch(order: seq<Bid>, supply: nat, payingDenom: Denom, caps: map<Text, nat>)
    requires BatchBook(order, payingDenom)
    ensures var res := SearchResult(order, supply, caps);
            || res == NO_MATCH
            || (&& res.price.Some? && 0 < res.price.value && res == MatchFor(order, caps, res.price)
                && res.amount == TotalDemand(order, res.price.value, caps) && 0 < res.amount <= supply)
  {
    var demand := Demands(order, caps);
    KeptFits(demand, supply, 0, |demand|, None);
    var k := Kept(demand, supply, 0, |demand|, None);
    if k.Some? {
      var p := PriceAt(order, k.value);
      LevelPositive(order, payingDenom);
      LevelTotal(order, caps, k.value, p);
      assert SearchResult(order, supply, caps) == MatchFor(order, caps, Some(p));
    }
  }

  lemma MatchBidders(p: Dec, order: seq<Bid>, caps: map<Text, nat>, payingDenom: Denom, a: Text)
    requires a in Fill(p, Visited(p, order), caps).byBidder
    ensures a in Group(order, Paying(payingDenom)) && exists b :: b in order && b.bidder == a
  {
    FillKeys(p, Visited(p, order), caps);
    VisitedMembers(p, order);
    var b :| b in Visited(p, order) && b.bidder == a;
    assert b in order;
    GroupGet(order, Paying(payingDenom), a);
  }

  /** Every entry of the allocation is the bidder's capped demand; who is not listed asked for nothing. */
  lemma AllocationEntry(p: Dec, order: seq<Bid>, payingDenom: Denom, caps: map<Text, nat>, a: Text)
    ensures Get(InfoOf(order, payingDenom, MatchFor(order, caps, Some(p))).allocation, a)
         == Get(Capped(order, p, caps), a)
  {
    MatchedAmount(p, order, caps, a);
  }

  lemma AllocationSum(p: Dec, order: seq<Bid>, payingDenom: Denom, caps: map<Text, nat>, allocation: map<Text, nat>)
    requires allocation == InfoOf(order, payingDenom, MatchFor(order, caps, Some(p))).allocation
    ensures SumMap(allocation) == TotalDemand(order, p, caps)
    ensures forall a :: a in allocation ==> allocation[a] <= Get(caps, a)
  {
    var capped := Capped(order, p, caps);
    forall a ensures Get(allocation, a) == Get(capped, a) {
      AllocationEntry(p, order, payingDenom, caps, a);
    }
    SumMapSame(allocation, capped);
    forall a | a in allocation ensures allocation[a] <= Get(caps, a) {
      assert Get(allocation, a) == Get(capped, a);
    }
  }

  /** Allocations add up to the matched total, which fits the supply, and respect every bidder's cap. */
  lemma AllocationsFit(order: seq<Bid>, supply: nat, payingDenom: Denom, caps: map<Text, nat>)
    requires BatchBook(order, payingDenom)
    ensures var info := InfoOf(order, payingDenom, SearchResult(order, supply, caps));
            && SumMap(info.allocation) == info.totalMatched <= supply
            && forall a :: a in info.allocation ==> info.allocation[a] <= Get(caps, a)
  {
    var res := SearchResult(order, supply, caps);
    var allocation := InfoOf(order, payingDenom, res).allocation;
    SearchResultIsMatch(order, supply, payingDenom, caps);
    if res == NO_MATCH {
      SumMapZero(allocation);
    } else {
      AllocationSum(res.price.value, order, payingDenom, caps, allocation);
    }
  }

  /** No refund is negative, and refunds and charges together are exactly what the bids reserved. */
  lemma RefundsBalance(order: seq<Bid>, supply: nat, payingDenom: Denom, caps: map<Text, nat>)
    requires BatchBook(order, payingDenom)
    ensures var info := InfoOf(order, payingDenom, SearchResult(order, supply, caps));
            && (forall a :: a in info.refund ==> 0 <= info.refund[a])
            && SumMap(Clip(info.refund)) + SumMap(info.charged) == SumBy(order, Paying(payingDenom))
  {
    var res := SearchResult(order, supply, caps);
    var info, reserved := InfoOf(order, payingDenom, res), Group(order, Paying(payingDenom));
    SearchResultIsMatch(order, supply, payingDenom, caps);
    forall a | a in info.refund ensures 0 <= info.refund[a] && a in reserved {
      GroupGet(order, Paying(payingDenom), a);
      if a in res.byBidder {
        ChargesWithinReserves(res.price.value, order, caps, a, payingDenom);
        MatchBidders(res.price.value, order, caps, payingDenom, a);
      }
    }
    assert info.refund.Keys == reserved.Keys;
    SumMapAdd(Clip(info.refund), info.charged, reserved);
    GroupSum(order, Paying(payingDenom));
  }

  // ----- Bidder by bidder

  /** The matched bids at a price: those that get something. */
  function MatchedAt(order: seq<Bid>, caps: map<Text, nat>, price: Option<Dec>): seq<Bid> {
    if price.None? then [] else Winning(Visited(price.value, order), price.value, caps)
  }

  /** A bidder's coins at a price: the cap, or everything asked for at or above it. */
  function ShareAt(order: seq<Bid>, caps: map<Text, nat>, price: Option<Dec>, a: Text): nat {
    if price.None? then 0 else Min(Get(caps, a), Wanted(order, a, price.value))
  }

  /** What a bidder pays for them, bid by bid. */
  function ChargeAt(order: seq<Bid>, caps: map<Text, nat>, price: Option<Dec>, a: Text): nat {
    if price.None? then 0 else ChargeFor(Visited(price.value, order), price.value, caps, a)
  }

  /** The bids marked as matched are exactly those that get something at the price the search kept. */
  lemma SearchMatches(order: seq<Bid>, supply: nat, payingDenom: Denom, caps: map<Text, nat>)
    ensures var res, price := SearchResult(order, supply, caps), KeptPrice(order, supply, caps);
            && res.price == price && res.bids == MatchedAt(order, caps, price)
            && InfoOf(order, payingDenom, res).matchedLen == |MatchedAt(order, caps, price)|
  {
    var price := KeptPrice(order, supply, caps);
    if price.Some? {
      MatchedAre(price.value, Visited(price.value, order), caps, Text([], false));
    }
  }

  lemma InfoKeys(order: seq<Bid>, supply: nat, payingDenom: Denom, caps: map<Text, nat>, a: Text)
    ensures var info := InfoOf(order, payingDenom, SearchResult(order, supply, caps));
            && info.allocation.Keys == info.charged.Keys == info.refund.Keys
            && (a in info.refund <==> exists b :: b in order && b.bidder == a)
  {
    var res := SearchResult(order, supply, caps);
    GroupGet(order, Paying(payingDenom), a);
    if a in res.byBidder {
      MatchBidders(res.price.value, order, caps, payingDenom, a);
    }
  }

  /**
    * What every bidder gets, pays and gets back. Everyone who bid has an entry; a refund is exactly what the bidder's
    * own bids reserved less the bidder's own charge.
    */
  lemma BidderOutcome(order: seq<Bid>, supply: nat, payingDenom: Denom, caps: map<Text, nat>, a: Text)
    ensures var info := InfoOf(order, payingDenom, SearchResult(order, supply, caps));
            var price := KeptPrice(order, supply, caps);
            && info.allocation.Keys == info.charged.Keys == info.refund.Keys
            && (a in info.refund <==> exists b :: b in order && b.bidder == a)
            && Get(info.allocation, a) == ShareAt(order, caps, price, a)
            && Get(info.charged, a) == ChargeAt(order, caps, price, a)
            && (a in info.refund ==>
                  info.refund[a] == SumBy(order, Only(a, Paying(payingDenom))) - ChargeAt(order, caps, price, a))
  {
    var price := KeptPrice(order, supply, caps);
    InfoKeys(order, supply, payingDenom, caps, a);
    GroupGet(order, Paying(payingDenom), a);
    if price.Some? {
      MatchedAmount(price.value, order, caps, a);
      MatchedAre(price.value, Visited(price.value, order), caps, a);
      FillKeys(price.value, Visited(price.value, order), caps);
    }
  }

  /** A bidder pays the match price for the coins, and less than one coin more per matched bid of that bidder. */
  lemma BidderPaysPrice(order: seq<Bid>, caps: map<Text, nat>, p: Dec, a: Text)
    ensures var amount, charge := ShareAt(order, caps, Some(p), a), ChargeAt(order, caps, Some(p), a);
            var wins := SumBy(MatchedAt(order, caps, Some(p)), One(a));
            amount * p <= charge * ONE <= amount * p + wins * (ONE - 1)
  {
    ChargeNearPrice(p, Visited(p, order), caps, a);
    AskedIsWanted(order, a, p);
  }

  /** The charges are the proceeds at the match price, rounded up by less than one coin for each matched bid. */
  lemma ProceedsNearPrice(order: seq<Bid>, supply: nat, payingDenom: Denom, caps: map<Text, nat>)
    requires BatchBook(order, payingDenom)
    ensures var info := InfoOf(order, payingDenom, SearchResult(order, supply, caps));
            var value := info.totalMatched * if info.matchedPrice.Some? then info.matchedPrice.value else 0;
            value <= SumMap(info.charged) * ONE <= value + info.matchedLen * (ONE - 1)
  {
    var res := SearchResult(order, supply, caps);
    var charged := InfoOf(order, payingDenom, res).charged;
    SearchResultIsMatch(order, supply, payingDenom, caps);
    forall a ensures Get(charged, a) == Get(Charges(res.byBidder), a) {
    }
    SumMapSame(charged, Charges(res.byBidder));
    if res == NO_MATCH {
      SumMapZero(charged);
    } else {
      ChargesNearPrice(res.price.value, Visited(res.price.value, order), caps);
    }
  }

  lemma LevelsPerm(bids: seq<Bid>, order: seq<Bid>)
    requires multiset(bids) == multiset(order)
    ensures Levels(bids) == Levels(order)
  {
    PermMembers(bids, order);
    LevelsSorted(bids);
    LevelsSorted(order);
    DescendingUnique(Levels(bids), Levels(order));
  }

  lemma DemandsPerm(bids: seq<Bid>, order: seq<Bid>, caps: map<Text, nat>)
    requires multiset(bids) == multiset(order)
    ensures Levels(bids) == Levels(order) && Demands(bids, caps) == Demands(order, caps)
  {
    LevelsPerm(bids, order);
    DemandsAtPerm(Levels(bids), bids, order, caps);
  }

  lemma {:induction false} DemandsAtPerm(prices: seq<Dec>, bids: seq<Bid>, order: seq<Bid>, caps: map<Text, nat>)
    requires multiset(bids) == multiset(order)
    ensures DemandsAt(prices, bids, caps) == DemandsAt(prices, order, caps)
  {
    if prices != [] {
      DemandsAtPerm(prices[1..], bids, order, caps);
      DemandPerm(bids, order, prices[0], caps);
    }
  }

  lemma BiddersPerm(bids: seq<Bid>, order: seq<Bid>, payingDenom: Denom)
    requires multiset(bids) == multiset(order)
    ensures Group(bids, Paying(payingDenom)).Keys == Group(order, Paying(payingDenom)).Keys
  {
    PermMembers(bids, order);
    forall a ensures a in Group(bids, Paying(payingDenom)) <==> a in Group(order, Paying(payingDenom)) {
      GroupGet(bids, Paying(payingDenom), a);
      GroupGet(order, Paying(payingDenom), a);
    }
  }

  lemma AllocationOf(order: seq<Bid>, supply: nat, payingDenom: Denom, caps: map<Text, nat>)
    requires BatchBook(order, payingDenom)
    ensures var res := SearchResult(order, supply, caps);
            InfoOf(order, payingDenom, res).allocation
            == map a | a in Group(order, Paying(payingDenom)) :: MatchedOf(res.byBidder, a)
  {
    var res := SearchResult(order, supply, caps);
    SearchResultIsMatch(order, supply, payingDenom, caps);
    forall a | a in res.byBidder ensures a in Group(order, Paying(payingDenom)) {
      MatchBidders(res.price.value, order, caps, payingDenom, a);
    }
  }

  lemma KeptPricePerm(bids: seq<Bid>, order: seq<Bid>, supply: nat, caps: map<Text, nat>)
    requires multiset(bids) == multiset(order)
    ensures KeptPrice(bids, supply, caps) == KeptPrice(order, supply, caps)
  {
    DemandsPerm(bids, order, caps);
  }

  lemma MatchPerm(bids: seq<Bid>, order: seq<Bid>, caps: map<Text, nat>, price: Option<Dec>)
    requires multiset(bids) == multiset(order)
    ensures var res, res' := MatchFor(bids, caps, price), MatchFor(order, caps, price);
            && res.price == res'.price && res.amount == res'.amount
            && forall a :: MatchedOf(res.byBidder, a) == MatchedOf(res'.byBidder, a)
  {
    if price.Some? {
      OrderDoesNotMatter(price.value, bids, order, caps);
    }
  }

  /** However the sort arranges the bids, the auction sells at the same price, the same total, the same to everyone. */
  lemma SortDoesNotMatter(bids: seq<Bid>, order: seq<Bid>, supply: nat, payingDenom: Denom, caps: map<Text, nat>)
    requires BatchBook(bids, payingDenom) && multiset(bids) == multiset(order)
    ensures var info, info' := InfoOf(bids, payingDenom, SearchResult(bids, supply, caps)),
                               InfoOf(order, payingDenom, SearchResult(order, supply, caps));
            info.matchedPrice == info'.matchedPrice && info.totalMatched == info'.totalMatched
            && info.allocation == info'.allocation
  {
    BookPerm(bids, order, payingDenom);
    KeptPricePerm(bids, order, supply, caps);
    MatchPerm(bids, order, caps, KeptPrice(bids, supply, caps));
    BiddersPerm(bids, order, payingDenom);
    AllocationOf(bids, supply, payingDenom, caps);
    AllocationOf(order, supply, payingDenom, caps);
  }

  /**
    * The lowest price is missed by as few as two bids. A worth bid of 5 at price 10 asks for nothing at its own
    * price; the search probes that price first and turns away from price 5, where both bids could be served.
    */
  lemma SearchCanMiss(x: Bid, y: Bid, a: Text, caps: map<Text, nat>)
    requires x.bidder == y.bidder == a && caps.Keys == {a} && caps[a] == 2
    requires x.typ == BatchWorth && x.price == 10 * ONE && x.coin == Coin("pay", 5)
    requires y.typ == BatchMany && y.price == 5 * ONE && y.coin == Coin("sell", 1)
    ensures BatchBook([x, y], "pay") && CapsKnown([x, y], caps)
    ensures SearchResult([x, y], 2, caps) == NO_MATCH
    ensures LowestPrice([x, y], 2, caps) == Some(5 * ONE) && LowestResult([x, y], 2, caps).amount == 2
  {
    MissedDemands(x, y, a, caps);
    MissedSearch();
    MatchTotal(5 * ONE, [x, y], caps);
  }

  lemma MissedSearch()
    ensures Kept([2, 0], 2, 0, 2, None) == None && Lowest([2, 0], 2, 0, 2) == Some(0)
  {
    var demand: seq<nat> := [2, 0];
    assert Kept(demand, 2, 0, 2, None) == Kept(demand, 2, 2, 2, None);
  }

  lemma MissedDemands(x: Bid, y: Bid, a: Text, caps: map<Text, nat>)
    requires x.bidder == y.bidder == a && caps.Keys == {a} && caps[a] == 2
    requires x.typ == BatchWorth && x.price == 10 * ONE && x.coin == Coin("pay", 5)
    requires y.typ == BatchMany && y.price == 5 * ONE && y.coin == Coin("sell", 1)
    ensures Levels([x, y]) == [10 * ONE, 5 * ONE]
    ensures Demands([x, y], caps) == [2, 0] && TotalDemand([x, y], 5 * ONE, caps) == 2
  {
    var prices: seq<Dec> := [10 * ONE, 5 * ONE];
    var order := [x, y];
    TwoLevels(x, y);
    FiveCoins();
    DemandTwo(x, y, a, 10 * ONE, caps);
    DemandTwo(x, y, a, 5 * ONE, caps);
    DemandAtPrice(prices, order, caps, 0);
    DemandAtPrice(prices, order, caps, 1);
  }

  lemma FiveCoins()
    ensures ToSelling(5, 10 * ONE) == 0 && ToSelling(5, 5 * ONE) == 1
  {
  }

  lemma TwoLevels(x: Bid, y: Bid)
    requires x.price > y.price
    ensures Levels([x, y]) == [x.price, y.price]
  {
    assert [x, y][..1] == [x] && [x][..0] == [];
    assert Levels([x]) == InsertDescending(Levels([x][..0]), x.price) == [x.price];
    assert [x.price][1..] == [];
    assert InsertDescending([x.price], y.price) == [x.price] + InsertDescending([x.price][1..], y.price);
    assert Levels([x, y]) == InsertDescending(Levels([x, y][..1]), y.price);
  }

  lemma DemandTwo(x: Bid, y: Bid, a: Text, p: Dec, caps: map<Text, nat>)
    requires x.bidder == y.bidder == a && caps.Keys == {a}
    ensures TotalDemand([x, y], p, caps)
         == Min(caps[a], (if x.price >= p then AmountAt(x, p) else 0) + (if y.price >= p then AmountAt(y, p) else 0))
  {
    assert [x, y][..1] == [x] && [x][..0] == [];
    assert Wanted([x], a, p) == Wanted([x][..0], a, p) + if p <= x.price then AmountAt(x, p) else 0;
    assert Wanted([x, y], a, p) == Wanted([x, y][..1], a, p) + if p <= y.price then AmountAt(y, p) else 0;
    SumMapOne(Capped([x, y], p, caps), a);
  }
}

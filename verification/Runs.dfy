/** Releases, blocks and whole runs: exactly when a block panics, and that every reserve stays covered otherwise. */
module Runs {
  import opened Types
  import opened Sums
  import opened Rounding
  import opened Bank
  import opened Vesting
  import opened Auctions
  import opened Safety
  import opened Closing

  // ----- Releasing vested coins

  /** A queue after a block at `now`: released if its time has come, otherwise as it was. */
  function After(q: VestingQueue, now: Time): VestingQueue {
    if ShouldRelease(q, now) then q.(released := true) else q
  }

  function AfterUpTo(queues: seq<VestingQueue>, now: Time, k: nat): (r: seq<VestingQueue>)
    requires k <= |queues|
    ensures |r| == |queues|
    ensures forall i :: 0 <= i < |queues| ==> r[i] == if i < k then After(queues[i], now) else queues[i]
  {
    seq(|queues|, i requires 0 <= i < |queues| => if i < k then After(queues[i], now) else queues[i])
  }

  function PaidBy(queues: seq<VestingQueue>, queues': seq<VestingQueue>): int {
    QueueSum(queues', Released) - QueueSum(queues, Released)
  }

  ghost predicate Moved(b: Bank, b': Bank, src: Account, dst: Account, d: Denom, n: nat) {
    && Conserves(b, b')
    && forall x: Account, e {:trigger Bal(b', x, e)} ::
         Bal(b', x, e) == Bal(b, x, e) - At(x, e, src, d, n) + At(x, e, dst, d, n)
  }

  lemma MoveMore(b: Bank, b1: Bank, src: Account, dst: Account, d: Denom, n: nat, m: nat)
    requires src != dst && Moved(b, b1, src, dst, d, n) && n + m <= Bal(b, src, d)
    ensures Send(b1, src, dst, d, m).Ok? && Moved(b, Send(b1, src, dst, d, m).value, src, dst, d, n + m)
  {
    assert Bal(b1, src, d) == Bal(b, src, d) - n;
    SendConserves(b1, src, dst, d, m);
  }

  /** Each due queue is paid once, in full and to the auctioneer, and the vesting reserve covers them all. */
  ghost predicate ReleasedUpTo(b: Bank, l: Listing, now: Time, k: nat, b': Bank, l': Listing)
    requires k <= |l.queues|
  {
    var a, paid := l.auction, PaidBy(l.queues, l'.queues);
    && l'.queues == AfterUpTo(l.queues, now, k)
    && l' == l.(queues := l'.queues, auction := a.(status := l'.auction.status))
    && l'.auction.status == (if 0 < k == |l.queues| && ShouldRelease(l.queues[k - 1], now) then Finished else a.status)
    && 0 <= paid && Moved(b, b', Reserve(VestingReserve, a.id), User(a.auctioneer), a.payingDenom, paid)
  }

  lemma StoreRelease(queues: seq<VestingQueue>, now: Time, k: nat)
    requires Ordered(queues) && 0 < k <= |queues|
    ensures var before, q := AfterUpTo(queues, now, k - 1), queues[k - 1];
            && AfterUpTo(queues, now, k)
               == (if ShouldRelease(q, now) then PutQueue(before, q.(released := true)) else before)
            && QueueSum(AfterUpTo(queues, now, k), Released)
               == QueueSum(before, Released) + (if ShouldRelease(q, now) then q.amount else 0)
  {
    var before, q := AfterUpTo(queues, now, k - 1), queues[k - 1];
    assert before[k - 1] == q;
    PutInPlace(before, k - 1, q.(released := true));
    assert AfterUpTo(queues, now, k) == before[k - 1 := After(q, now)];
    QueueSumUpdate(before, k - 1, After(q, now), Released);
  }

  lemma {:induction false} PaidAtMostOwed(queues: seq<VestingQueue>, now: Time, k: nat)
    requires k <= |queues|
    ensures PaidBy(queues, AfterUpTo(queues, now, k)) + QueueSum(AfterUpTo(queues, now, k), Unreleased)
         == QueueSum(queues, Unreleased)
  {
    var queues' := AfterUpTo(queues, now, k);
    ReleasedPlusUnreleased(queues);
    ReleasedPlusUnreleased(queues');
    QueueSumSame(queues, queues', All, All);
  }

  lemma {:induction false} ReleaseEffect(b: Bank, l: Listing, now: Time, k: nat)
    requires Ordered(l.queues) && k <= |l.queues|
    requires QueueSum(l.queues, Unreleased) <= Bal(b, Reserve(VestingReserve, l.auction.id), l.auction.payingDenom)
    ensures var r := ReleaseUpTo(b, l, now, k);
            r.Ok? && ReleasedUpTo(b, l, now, k, r.value.0, r.value.1)
  {
    if k == 0 {
      assert AfterUpTo(l.queues, now, 0) == l.queues;
    } else {
      ReleaseEffect(b, l, now, k - 1);
      var (b1, m) := ReleaseUpTo(b, l, now, k - 1).value;
      StoreRelease(l.queues, now, k);
      if ShouldRelease(l.queues[k - 1], now) {
        ReleaseOne(b, b1, l, now, k, m);
        ReleaseNext(b, l, now, k, b1, m);
      }
    }
  }

  lemma ReleaseNext(b: Bank, l: Listing, now: Time, k: nat, b1: Bank, m: Listing)
    requires 0 < k <= |l.queues| && ShouldRelease(l.queues[k - 1], now)
    requires ReleaseUpTo(b, l, now, k - 1) == Ok((b1, m))
    requires var a, q := l.auction, l.queues[k - 1];
             Send(b1, Reserve(VestingReserve, a.id), User(a.auctioneer), a.payingDenom, q.amount).Ok?
    ensures var a, q := l.auction, l.queues[k - 1];
            var b2 := Send(b1, Reserve(VestingReserve, a.id), User(a.auctioneer), a.payingDenom, q.amount).value;
            var m' := m.(queues := PutQueue(m.queues, q.(released := true)));
            ReleaseUpTo(b, l, now, k)
            == Ok((b2, if k == |l.queues| then m'.(auction := m'.auction.(status := Finished)) else m'))
  {
  }

  lemma ReleaseOne(b: Bank, b1: Bank, l: Listing, now: Time, k: nat, m: Listing)
    requires Ordered(l.queues) && 0 < k <= |l.queues| && ShouldRelease(l.queues[k - 1], now)
    requires QueueSum(l.queues, Unreleased) <= Bal(b, Reserve(VestingReserve, l.auction.id), l.auction.payingDenom)
    requires ReleasedUpTo(b, l, now, k - 1, b1, m)
    ensures var a, n := l.auction, l.queues[k - 1].amount;
            var r := Send(b1, Reserve(VestingReserve, a.id), User(a.auctioneer), a.payingDenom, n);
            && r.Ok?
            && PaidBy(l.queues, AfterUpTo(l.queues, now, k)) == PaidBy(l.queues, m.queues) + n
            && Moved(b, r.value, Reserve(VestingReserve, a.id), User(a.auctioneer), a.payingDenom,
                     PaidBy(l.queues, AfterUpTo(l.queues, now, k)))
  {
    var a, n := l.auction, l.queues[k - 1].amount;
    StoreRelease(l.queues, now, k);
    PaidAtMostOwed(l.queues, now, k);
    MoveMore(b, b1, Reserve(VestingReserve, a.id), User(a.auctioneer), a.payingDenom, PaidBy(l.queues, m.queues), n);
  }

  /** After a release the listing is still in order; it is finished exactly when its last queue was paid. */
  lemma ReleaseShape(l: Listing, id: nat, now: Time, l': Listing)
    requires Shape(l, id) && l.auction.status == InVesting
    requires l'.queues == AfterUpTo(l.queues, now, |l.queues|)
    requires l' == l.(queues := l'.queues, auction := l.auction.(status := l'.auction.status))
    requires var n := |l.queues|;
             l'.auction.status == if 0 < n && ShouldRelease(l.queues[n - 1], now) then Finished else InVesting
    ensures Shape(l', id) && OwedVesting(l') == QueueSum(l'.queues, Unreleased)
  {
    var n := |l.queues|;
    assert !l.queues[n - 1].released;
    if ShouldRelease(l.queues[n - 1], now) {
      assert forall i :: 0 <= i < n ==> l'.queues[i].released;
      AllReleased(l'.queues);
    } else {
      assert !l'.queues[n - 1].released;
    }
  }

  lemma ReleaseBacked(b: Bank, l: Listing, id: nat, now: Time, b': Bank, l': Listing, exact: bool)
    requires l.auction.id == id && Backed(b, l, exact) && l.auction.status == InVesting
    requires ReleasedUpTo(b, l, now, |l.queues|, b', l') && OwedVesting(l') == QueueSum(l'.queues, Unreleased)
    ensures Backed(b', l', exact) && OthersKept(b, b', id)
  {
    PaidAtMostOwed(l.queues, now, |l.queues|);
  }

  lemma ReleaseSafe(b: Bank, l: Listing, id: nat, now: Time, exact: bool)
    requires Shape(l, id) && Backed(b, l, exact) && l.auction.status == InVesting
    ensures var r := ReleaseUpTo(b, l, now, |l.queues|);
            && r.Ok? && ReleasedUpTo(b, l, now, |l.queues|, r.value.0, r.value.1)
            && Shape(r.value.1, id) && Backed(r.value.0, r.value.1, exact) && OthersKept(b, r.value.0, id)
  {
    var n := |l.queues|;
    ReleaseEffect(b, l, now, n);
    var (b', l') := ReleaseUpTo(b, l, now, n).value;
    ReleaseShape(l, id, now, l');
    ReleaseBacked(b, l, id, now, b', l', exact);
  }

  // ----- Blocks

  /** A started auction whose last end time has come. */
  predicate DueToClose(a: Auction, now: Time) {
    a.status == Started && a.endTimes != [] && a.endTimes[|a.endTimes| - 1] <= now
  }

  /** A batch auction that is due, with a matching that comes to a bid under a text that was not allowed. */
  ghost predicate Trips(l: Listing, now: Time, hint: seq<Bid>) {
    DueToClose(l.auction, now) && l.auction.kind.BatchAuction? && Stranger(l, hint)
  }

  lemma StepListingSafe(b: Bank, period: nat, l: Listing, id: nat, now: Time, hint: seq<Bid>, exact: bool)
    requires Shape(l, id) && Backed(b, l, exact)
    ensures var r := StepListing(b, period, l, now, hint);
            && (r.Ok? <==> !Trips(l, now, hint))
            && (r.Ok? ==> && Conserves(b, r.value.0) && OthersKept(b, r.value.0, id)
                          && Shape(r.value.1, id) && Backed(r.value.0, r.value.1, exact))
  {
    match l.auction.status
    case StandBy =>
    case Started =>
      var ends := l.auction.endTimes;
      if ends[|ends| - 1] <= now {
        if l.auction.kind.FixedPriceAuction? {
          CloseFixedSettles(b, l, id, exact);
        } else {
          CloseBatchSafe(b, period, l, id, hint, exact);
        }
      }
    case InVesting => ReleaseSafe(b, l, id, now, exact);
    case Finished =>
    case Cancelled =>
  }

  /** Auctions whose turn has not come are untouched. */
  lemma {:induction false} BlockKeepsRest(s: State, time: Time, hints: seq<seq<Bid>>, k: nat)
    requires k <= |s.listings| && BlockUpTo(s, time, hints, k).Ok?
    ensures forall i :: k <= i < |s.listings| ==> BlockUpTo(s, time, hints, k).value.listings[i] == s.listings[i]
  {
    if k > 0 {
      BlockKeepsRest(s, time, hints, k - 1);
    }
  }

  /** An auction's turn, from its state before the block and the bank that its predecessors left. */
  lemma TurnSafe(s: State, period: nat, i: nat, time: Time, hint: seq<Bid>, exact: bool)
    requires Inv(s, exact) && i < |s.listings| && StepListing(s.bank, period, s.listings[i], time, hint).Ok?
    ensures var (b', l') := StepListing(s.bank, period, s.listings[i], time, hint).value;
            Conserves(s.bank, b') && Inv(s.(bank := b', listings := s.listings[i := l']), exact)
  {
    var l := s.listings[i];
    assert Shape(l, i + 1) && Backed(s.bank, l, exact);
    StepListingSafe(s.bank, period, l, i + 1, time, hint, exact);
    var (b', l') := StepListing(s.bank, period, l, time, hint).value;
    UpdateKeepsInv(s, b', i, l', exact);
  }

  lemma BlockPrefix(s: State, time: Time, hints: seq<seq<Bid>>, k: nat)
    requires 0 < k <= |s.listings| && BlockUpTo(s, time, hints, k).Ok?
    ensures BlockUpTo(s, time, hints, k - 1).Ok?
    ensures var s1 := BlockUpTo(s, time, hints, k - 1).value;
            var step := StepListing(s1.bank, s.params.extendedPeriod, s1.listings[k - 1], time, HintFor(hints, k - 1));
            && step.Ok?
            && BlockUpTo(s, time, hints, k)
               == Ok(s1.(bank := step.value.0, listings := s1.listings[k - 1 := step.value.1]))
  {
  }

  lemma BlockBegan(s: State, time: Time, hints: seq<seq<Bid>>, k: nat)
    requires 0 < k <= |s.listings| && BlockUpTo(s, time, hints, k).Ok?
    ensures BlockUpTo(s, time, hints, k - 1).Ok?
  {
  }

  lemma BlockTurnSafe(s: State, time: Time, hints: seq<seq<Bid>>, k: nat, s1: State, s2: State, exact: bool)
    requires 0 < k <= |s.listings| && Inv(s1, exact)
    requires BlockUpTo(s, time, hints, k - 1) == Ok(s1) && BlockUpTo(s, time, hints, k) == Ok(s2)
    ensures Inv(s2, exact) && Conserves(s1.bank, s2.bank)
  {
    BlockPrefix(s, time, hints, k);
    TurnSafe(s1, s.params.extendedPeriod, k - 1, time, HintFor(hints, k - 1), exact);
  }

  lemma {:induction false} BlockSafe(s: State, time: Time, hints: seq<seq<Bid>>, k: nat, exact: bool)
    requires Inv(s, exact) && k <= |s.listings| && BlockUpTo(s, time, hints, k).Ok?
    ensures Inv(BlockUpTo(s, time, hints, k).value, exact)
    ensures Conserves(s.bank, BlockUpTo(s, time, hints, k).value.bank)
  {
    if k > 0 {
      BlockBegan(s, time, hints, k);
      BlockSafe(s, time, hints, k - 1, exact);
      var s1, s2 := BlockUpTo(s, time, hints, k - 1).value, BlockUpTo(s, time, hints, k).value;
      BlockTurnSafe(s, time, hints, k, s1, s2, exact);
    }
  }

  /** A block sets the time that messages see, and leaves the parameters alone. */
  lemma {:induction false} BlockClock(s: State, time: Time, hints: seq<seq<Bid>>, k: nat)
    requires k <= |s.listings| && BlockUpTo(s, time, hints, k).Ok?
    ensures BlockUpTo(s, time, hints, k).value.now == time && BlockUpTo(s, time, hints, k).value.params == s.params
  {
    if k > 0 {
      BlockClock(s, time, hints, k - 1);
    }
  }

  // ----- Exactly when a block panics

  /** An auction's turn, after all before it went well, fails exactly when the auction trips. */
  lemma TurnOkIff(s: State, time: Time, hints: seq<seq<Bid>>, i: nat)
    requires Inv(s, false) && i < |s.listings| && BlockUpTo(s, time, hints, i).Ok?
    ensures BlockUpTo(s, time, hints, i + 1).Ok? <==> !Trips(s.listings[i], time, HintFor(hints, i))
  {
    BlockReady(s, time, hints, i);
    var s1 := BlockUpTo(s, time, hints, i).value;
    StepListingSafe(s1.bank, s.params.extendedPeriod, s.listings[i], i + 1, time, HintFor(hints, i), false);
    BlockNext(s, time, hints, i + 1, s1);
  }

  /** Some auction trips in this block. */
  ghost predicate BlockTrips(s: State, time: Time, hints: seq<seq<Bid>>) {
    exists i :: 0 <= i < |s.listings| && Trips(s.listings[i], time, HintFor(hints, i))
  }

  lemma {:induction false} FirstTrip(s: State, time: Time, hints: seq<seq<Bid>>, k: nat) returns (i: nat)
    requires Inv(s, false) && k <= |s.listings| && BlockUpTo(s, time, hints, k).Err?
    ensures i < k && Trips(s.listings[i], time, HintFor(hints, i))
  {
    if BlockUpTo(s, time, hints, k - 1).Err? {
      i := FirstTrip(s, time, hints, k - 1);
    } else {
      i := k - 1;
      TurnOkIff(s, time, hints, i);
    }
  }

  lemma {:induction false} NoTrip(s: State, time: Time, hints: seq<seq<Bid>>, k: nat, i: nat)
    requires Inv(s, false) && i < k <= |s.listings| && BlockUpTo(s, time, hints, k).Ok?
    ensures !Trips(s.listings[i], time, HintFor(hints, i))
  {
    BlockPrefix(s, time, hints, k);
    if i == k - 1 {
      TurnOkIff(s, time, hints, i);
    } else {
      NoTrip(s, time, hints, k - 1, i);
    }
  }

  lemma BlockOkIff(s: State, time: Time, hints: seq<seq<Bid>>)
    requires Inv(s, false)
    ensures BlockUpTo(s, time, hints, |s.listings|).Ok? <==> !BlockTrips(s, time, hints)
  {
    if BlockUpTo(s, time, hints, |s.listings|).Ok? {
      forall i | 0 <= i < |s.listings| ensures !Trips(s.listings[i], time, HintFor(hints, i)) {
        NoTrip(s, time, hints, |s.listings|, i);
      }
    } else {
      var i := FirstTrip(s, time, hints, |s.listings|);
    }
  }

  /** Whenever an auction's turn comes, it is as it was before the block, in order and backed. */
  lemma BlockReady(s: State, time: Time, hints: seq<seq<Bid>>, i: nat)
    requires Inv(s, false) && i < |s.listings| && BlockUpTo(s, time, hints, i).Ok?
    ensures var s1 := BlockUpTo(s, time, hints, i).value;
            s1.listings[i] == s.listings[i] && Shape(s.listings[i], i + 1) && Backed(s1.bank, s.listings[i], false)
  {
    BlockSafe(s, time, hints, i, false);
    BlockKeepsRest(s, time, hints, i);
  }

  lemma BlockNext(s: State, time: Time, hints: seq<seq<Bid>>, k: nat, s1: State)
    requires 0 < k <= |s.listings| && BlockUpTo(s, time, hints, k - 1) == Ok(s1)
    ensures var step := StepListing(s1.bank, s.params.extendedPeriod, s1.listings[k - 1], time, HintFor(hints, k - 1));
            var r := BlockUpTo(s, time, hints, k);
            if step.Err? then r == Err(step.error)
            else r == Ok(s1.(bank := step.value.0, listings := s1.listings[k - 1 := step.value.1]))
  {
  }

  // ----- Every run

  /** Sends coins to a reserve account from outside the module. */
  predicate Donates(a: Action) {
    a.Deposit? && a.dst.Reserve?
  }

  lemma StepSafe(s: State, a: Action, exact: bool)
    requires Inv(s, exact) && (exact ==> !Donates(a)) && Step(s, a).Ok?
    ensures Inv(Step(s, a).value, exact) && Conserves(s.bank, Step(s, a).value.bank)
  {
    if a.BeginBlock? {
      BlockSafe(s, a.time, a.hints, |s.listings|, exact);
    } else if Handle(s, a).Ok? {
      match a
      case Create(m) => CreateKeepsInv(s, m, exact);
      case Cancel(auctioneer, id) => CancelKeepsInv(s, auctioneer, id, exact);
      case AddAllowedBidders(id, bidders) => AddAllowedKeepsInv(s, id, bidders, exact);
      case UpdateAllowedBidder(id, bidder, amount) => UpdateAllowedKeepsInv(s, id, bidder, amount, exact);
      case PlaceBid(id, bidder, typ, price, coin) => PlaceKeepsInv(s, id, bidder, typ, price, coin, exact);
      case ModifyBid(id, bidder, bidId, price, coin) => ModifyKeepsInv(s, id, bidder, bidId, price, coin, exact);
      case Deposit(sender, dst, coin) => DepositKeepsInv(s, sender, dst, coin, exact);
      case SetParams(params) =>
    }
  }

  /** The action is a block, and an auction trips in it. */
  ghost predicate Panics(s: State, a: Action) {
    a.BeginBlock? && BlockTrips(s, a.time, a.hints)
  }

  /** Only a block can fail, and it fails exactly when an auction trips in it. */
  lemma StepOkIff(s: State, a: Action)
    requires Inv(s, false)
    ensures Step(s, a).Ok? <==> !Panics(s, a)
  {
    if a.BeginBlock? {
      BlockOkIff(s, a.time, a.hints);
    }
  }

  lemma RunNext(s: State, actions: seq<Action>)
    requires actions != []
    ensures var before, last := Run(s, actions[..|actions| - 1]), actions[|actions| - 1];
            Run(s, actions) == if before.Err? then before else Step(before.value, last)
  {
  }

  lemma {:induction false} RunSafe(s: State, actions: seq<Action>, exact: bool)
    requires Inv(s, exact) && Run(s, actions).Ok?
    requires exact ==> forall a :: a in actions ==> !Donates(a)
    ensures Inv(Run(s, actions).value, exact) && Conserves(s.bank, Run(s, actions).value.bank)
  {
    if actions != [] {
      var n := |actions| - 1;
      RunNext(s, actions);
      RunSafe(s, actions[..n], exact);
      StepSafe(Run(s, actions[..n]).value, actions[n], exact);
    }
  }

  lemma {:induction false} RunPrefix(s: State, actions: seq<Action>, k: nat)
    requires k <= |actions| && Run(s, actions).Ok?
    ensures Run(s, actions[..k]).Ok?
  {
    if k == |actions| {
      assert actions[..k] == actions;
    } else {
      RunNext(s, actions);
      assert actions[..|actions| - 1][..k] == actions[..k];
      RunPrefix(s, actions[..|actions| - 1], k);
    }
  }

  /** The run reaches its `k`-th action, which is a block that panics. */
  ghost predicate PanicsAt(s: State, actions: seq<Action>, k: nat)
    requires k < |actions|
  {
    Run(s, actions[..k]).Ok? && Panics(Run(s, actions[..k]).value, actions[k])
  }

  /** Where a run has come, its next action goes well exactly when it does not panic. */
  lemma NextOkIff(s: State, actions: seq<Action>, k: nat)
    requires Inv(s, false) && k < |actions| && Run(s, actions[..k]).Ok?
    ensures Run(s, actions[..k + 1]).Ok? <==> !PanicsAt(s, actions, k)
  {
    assert actions[..k + 1][..k] == actions[..k];
    RunNext(s, actions[..k + 1]);
    RunSafe(s, actions[..k], false);
    StepOkIff(Run(s, actions[..k]).value, actions[k]);
  }

  lemma {:induction false} FirstPanic(s: State, actions: seq<Action>, n: nat) returns (k: nat)
    requires Inv(s, false) && n <= |actions| && Run(s, actions[..n]).Err?
    ensures k < n && PanicsAt(s, actions, k)
  {
    if Run(s, actions[..n - 1]).Err? {
      k := FirstPanic(s, actions, n - 1);
    } else {
      k := n - 1;
      NextOkIff(s, actions, k);
    }
  }

  lemma NoPanic(s: State, actions: seq<Action>, k: nat)
    requires Inv(s, false) && k < |actions| && Run(s, actions).Ok?
    ensures !PanicsAt(s, actions, k)
  {
    RunPrefix(s, actions, k);
    RunPrefix(s, actions, k + 1);
    NextOkIff(s, actions, k);
  }

  /** `SellingPoolReserveAmountInvariant`, for one auction. */
  predicate SellingReserveOk(b: Bank, l: Listing) {
    l.auction.status == Started ==>
      Bal(b, SellingRes(l.auction), l.auction.sellingCoin.denom) >= l.auction.sellingCoin.amount
  }

  /** `PayingPoolReserveAmountInvariant`, for one auction. */
  predicate PayingReserveOk(b: Bank, l: Listing) {
    var d := l.auction.payingDenom;
    Bal(b, PayingRes(l.auction), d) >= if l.auction.status == Started then SumBy(l.bids, Paying(d)) else 0
  }

  /** `VestingPoolReserveAmountInvariant`, for one auction. */
  predicate VestingReserveOk(b: Bank, l: Listing) {
    Bal(b, Reserve(VestingReserve, l.auction.id), l.auction.payingDenom)
    >= if l.auction.status == InVesting then QueueSum(l.queues, Unreleased) else 0
  }

  ghost predicate ReservesOk(s: State) {
    forall i :: 0 <= i < |s.listings| ==>
      && SellingReserveOk(s.bank, s.listings[i]) && PayingReserveOk(s.bank, s.listings[i])
      && VestingReserveOk(s.bank, s.listings[i])
  }

  lemma InvReserves(s: State)
    requires Inv(s, false)
    ensures ReservesOk(s)
  {
    forall i | 0 <= i < |s.listings|
      ensures SellingReserveOk(s.bank, s.listings[i])
      ensures PayingReserveOk(s.bank, s.listings[i])
      ensures VestingReserveOk(s.bank, s.listings[i])
    {
      assert Backed(s.bank, s.listings[i], false);
    }
  }

  /**
    * From a chain without auctions, over every sequence of messages, deposits, parameter changes and blocks: a run
    * stops exactly at a block in which a matching comes to a bid under a text that was not allowed. No transfer of
    * a block ever fails. In the states reached all three registered invariants hold, and no coin is made or lost.
    */
  lemma PanicsIff(s: State, actions: seq<Action>)
    requires s.listings == []
    ensures var r := Run(s, actions);
            && (r.Ok? <==> forall k :: 0 <= k < |actions| ==> !PanicsAt(s, actions, k))
            && (r.Ok? ==> Conserves(s.bank, r.value.bank) && ReservesOk(r.value))
  {
    if Run(s, actions).Ok? {
      RunSafe(s, actions, false);
      InvReserves(Run(s, actions).value);
      forall k | 0 <= k < |actions| ensures !PanicsAt(s, actions, k) {
        NoPanic(s, actions, k);
      }
    } else {
      assert actions[..|actions|] == actions;
      var k := FirstPanic(s, actions, |actions|);
    }
  }

  /**
    * Without outside deposits the reserves are exact: a started auction's paying reserve is the sum of what its
    * bids reserve, its selling reserve the coins offered, and a closed auction's reserves are empty but for the
    * vesting coins not yet released.
    */
  lemma ReservesAreExact(s: State, actions: seq<Action>, i: nat)
    requires s.listings == [] && NothingAhead(s.bank, 0)
    requires forall a :: a in actions ==> !Donates(a)
    requires Run(s, actions).Ok? && i < |Run(s, actions).value.listings|
    ensures var b, l := Run(s, actions).value.bank, Run(s, actions).value.listings[i];
            var a := l.auction;
            && Bal(b, SellingRes(a), a.sellingCoin.denom)
               == (if a.status in {StandBy, Started} then a.sellingCoin.amount else 0)
            && Bal(b, PayingRes(a), a.payingDenom)
               == (if a.status == Started then SumBy(l.bids, Paying(a.payingDenom)) else 0)
            && Bal(b, Reserve(VestingReserve, a.id), a.payingDenom)
               == (if a.status == InVesting then QueueSum(l.queues, Unreleased) else 0)
  {
    RunSafe(s, actions, true);
    assert Backed(Run(s, actions).value.bank, Run(s, actions).value.listings[i], true);
  }

  /**
    * In every reachable state a fixed price auction's books balance: coins left and coins sold make up the offer,
    * the bids reserved at least the start price for what they bought, and everyone sold to is an allowed bidder.
    */
  lemma FixedPriceBooksBalance(s: State, actions: seq<Action>, i: nat)
    requires s.listings == []
    requires Run(s, actions).Ok? && i < |Run(s, actions).value.listings|
    requires Run(s, actions).value.listings[i].auction.kind.FixedPriceAuction?
    requires Run(s, actions).value.listings[i].auction.status != Cancelled
    ensures var l := Run(s, actions).value.listings[i];
            var a, sold := l.auction, SumBy(l.bids, Selling(l.auction.payingDenom));
            && a.kind.remaining + sold == a.sellingCoin.amount
            && sold * a.startPrice <= SumBy(l.bids, Paying(a.payingDenom)) * ONE
            && forall b :: b in l.bids ==> b.bidder.addr in l.allowed
  {
    RunSafe(s, actions, false);
    var l := Run(s, actions).value.listings[i];
    assert Shape(l, i + 1);
    forall b | b in l.bids ensures b.price == l.auction.startPrice && b.bidder.addr in l.allowed {
      var j :| 0 <= j < |l.bids| && l.bids[j] == b;
    }
    ReservesCoverPrice(l.bids, l.auction.payingDenom, l.auction.startPrice);
  }
}

# Fundraising auctions: a verified model

The `x/fundraising` module sells coins in escrowed auctions. An auctioneer offers selling coins, allowed bidders
reserve paying coins with their bids, and every block starts, closes, extends and pays out auctions. A fixed price
auction accepts bids at its start price until it is sold out; a batch auction matches all bids at one uniform price
when it closes. Coins wait in three reserve accounts per auction, and a block that cannot make a transfer panics, which
stops the chain.

The project models the matching, the auction state machine over a small bank, the vesting split and the bidder index,
and proves:

- **Exactly when a block panics.** From a chain without auctions, over every sequence of messages, parameter changes,
  outside deposits and blocks, every allocation, refund, vesting move and release is covered by its reserve. What can
  still stop a block is a name: bidders are allowed by address, but a match looks their caps up by the text that was
  stored, and bech32 text may be sent in lower or in upper case. A run stops exactly at a block in which a matching
  comes to a bid under a text that is on no allowed entry (`Runs.PanicsIff`). If every account is named by one text no
  block ever panics (`Names.NeverPanics`); one allowed bidder's bid under the other text is enough to make one panic
  (`Names.SecondTextPanics`). In every state reached the three registered invariants hold, and no coin is made or lost;
  without outside deposits the reserves hold exactly what they owe (`Runs.ReservesAreExact`). The class that updates
  its fields in place does the same (`FundraisingKeeper.Keeper.Execute`).
- **What the binary search over prices finds.** It is meant to find the lowest bid price whose capped demand fits the
  supply. It does not always: two bids are enough to make it sell nothing (`Batch.SearchCanMiss`). It does so exactly
  when no price fits, or the first price it probes whose demand does not exceed the supply has some demand
  (`Batch.SearchIsLowestIff`); positive demand at the highest price is enough (`Batch.SearchIsLowest`).
- **What a match means.** Capped demand is defined without any walk over bids, never rises with the price, and decides
  success, totals and each bidder's share (`Demand.MatchMeetsDemand`), whatever order the sort leaves
  (`Batch.SortDoesNotMatter`). The matched bids and every bidder's charge are given from what the bidder asked for
  earlier in the visit (`Winners.MatchedAre`). A refund is what the bidder's own bids reserved less the own charge
  (`Batch.BidderOutcome`), never negative, and refunds and charges add up to the reserves (`Batch.RefundsBalance`).
- **Messages.** Every message is accepted exactly under conditions on the state it meets, and an accepted one changes
  exactly one listing and the balances of the accounts that pay and are paid (module `Messages`). A bid is raised by its
  own bidder only, who alone pays for the growth of its reserve (`Messages.ModifyIff`).
- **Settlement.** The balance of every account after closing is given in closed form (`Closing.SettleEffect`), user by
  user in what was won, reserved and charged (`Payouts.BatchPaysUser`, `Payouts.FixedPaysUser`): a closed
  auction's reserves are empty, and its proceeds are the charges of the match (`Closing.BatchSettlement`) or all that
  was bid (`Closing.FixedSettlement`).
- **Vesting.** The proceeds are split exactly (`Vesting.SplitIsExact`). Over every run a queue is released exactly when
  some block reached its time (`Lifecycle.VestingRun`), and the reserve pays just those (`Lifecycle.VestingPaysOut`).
- **Progress.** Auctions only move forward (`Lifecycle.RunContinues`). Over every run an auction starts exactly when a
  block reaches its start time (`Lifecycle.StartRun`), and a fixed price auction closes exactly when one reaches its end
  time (`Lifecycle.FixedCloseRun`). A block ends every due round of a batch auction; which rounds leave it open is exact
  (`Lifecycle.RoundStaysOpenIff`), and there are never more than its extended rounds
  (`Lifecycle.EveryDueBlockUsesARound`).
- **Index.** Over every run store and bidder index agree (`Records.StoreOverRun`). A bidder's total found through the
  index is right, whatever the bids, exactly for addresses of at most 245 bytes (`BidIndex.IndexTotalIff`), because the
  offsets into an index key are computed in bytes (`Keys.ParseInvertsIff`).

## How it is modelled

- `sdk.Dec` is its raw integer, scaled by 10^18; integers are unbounded. With integer operands the SDK's conversions
  are exact: rounding down for coins bought, rounding up for coins charged.
- A bech32 text is an address and its case: decoding accepts a text in lower or in upper case, and the SDK writes
  lower case. The SDK is not part of the repository; that it accepts upper case, and that the minimum with a missing
  `sdk.Int` panics, is taken from its version 0.46. `UpdateAllowedBidder` takes an address and writes its entry's text
  in lower case, which counts as a text the account is named by.
- Reserve accounts are distinct per kind and auction and sign no messages. Balances are spendable in full.
- A message that fails is rolled back. `ValidateBasic` is part of each message, so malformed messages are rejected by
  the model rather than excluded.
- `State` with the functions of `Auctions` says what each message and block does; the class `Keeper` does it by
  updating its fields, and each of its methods is proved against the function. An auction's stored values are kept
  together in a `Listing`. Failed messages are rolled back, so ids have no gaps: auction `i + 1` is listing `i`, and bid
  `i + 1` of an auction is element `i` of its bids.
- `SortBids` passes `sort.Slice` a comparison that is not a strict weak order, so its outcome is any arrangement of the
  bids. Blocks carry a `hint` for each auction that may name any arrangement, and the theorems hold for all hints.
- A loop over a map's keys visits them in an arbitrary order; the contracts show that the order has no effect.
- The place-bid and creation fees go to the community pool, one more account. Block times need not increase.

Where the module's documents and code differ, the model follows the code: a bidder gets the *smaller* of cap and
demand (spec/05_end_block.md writes a maximum), a fixed price auction that is sold out stays open until its end time,
and the matched price is not stored in the auction.

## Model

| member | source | states |
|---|---|---|
| Rounding.ToSellingBounds | x/fundraising/types/bid.go:32-39 | the coins bought are the most whose price the payment covers |
| Rounding.ToPayingBounds | x/fundraising/types/bid.go:41-48 | the payment is the least that covers the price |
| Rounding.ToSellingMono | x/fundraising/types/match.go:36-42 | a lower price never buys fewer coins |
| Rounding.WorthCoversCharge | x/fundraising/types/match.go:38-51 | what a worth bid can afford, rounded down, costs no more than the bid, rounded up |
| Rounding.BidConverts | x/fundraising/types/bid.go:32-48 | paying coins buy the most that they cover at the bid's price, selling coins cost the least that covers them |
| Rounding.BidReservesItsPrice | x/fundraising/types/bid.go:32-48 | every bid reserves at least its price for what it converts to |
| Rounding.ReservesCoverPrice | x/fundraising/keeper/match.go:22-47 | bids at one price reserve together at least that price for all coins sold to them |
| Matching.BidsByPrice | x/fundraising/types/utils.go:46-67 | groups the bids by price and returns the distinct prices, highest first |
| Matching.SortDescending | x/fundraising/types/utils.go:56-65 | the prices in descending order, each once |
| Matching.DescendingUnique | x/fundraising/types/utils.go:56-65 | the set of prices determines the sorted list |
| Matching.VisitedSum | x/fundraising/types/match.go:30-35 | any sum over the bids a match visits is the sum over the bids at or above its price |
| Matching.Match | x/fundraising/types/match.go:17-74 | panics exactly when the walk meets a bid under an unknown text before the supply is exceeded; otherwise it succeeds exactly when the complete tally is positive and within supply, despite the early exit, and returns that tally |
| Matching.MatchLevel | x/fundraising/types/match.go:35-70 | the loop over one level gives up exactly when the tally exceeds the supply, and panics exactly on an unknown text before that |
| Matching.MatchBid | x/fundraising/types/match.go:36-69 | one bid takes the smaller of its amount and its bidder's remaining cap, unless that exceeds the supply; without a cap entry it panics |
| Demand.MatchMeetsDemand | x/fundraising/types/match.go:25-73 | success, total and each bidder's amount are given by capped demand, which is defined without walking the bids |
| Demand.MatchedBidsAbovePrice | x/fundraising/types/match.go:30-33 | no bid below the match price is part of a match |
| Demand.DemandMono | x/fundraising/types/match.go:25-73 | capped demand never rises with the price |
| Demand.OrderDoesNotMatter | x/fundraising/types/match.go:35-69 | total and every bidder's amount are the same for every arrangement of the bids |
| Demand.ChargesDependOnOrder | x/fundraising/types/match.go:51-66 | a bidder's charge and the number of matched bids can differ between two arrangements |
| Demand.BidCoversCharge | x/fundraising/types/match.go:36-51 | at a match price up to its own, a bid's charge is within its reserve |
| Demand.ChargesWithinReserves | x/fundraising/keeper/match.go:89-108 | no bidder is charged more than that bidder's bids reserved |
| Demand.ChargesNearPrice | x/fundraising/types/match.go:51-68 | total charges lie between price times total and that plus less than one coin per matched bid |
| Winners.AsksAtPrice | x/fundraising/types/match.go:36-42 | a worth bid asks for the most coins it pays for at the match price, a many bid for the coins it names |
| Winners.VisitOrder | x/fundraising/types/match.go:30-35 | bids are visited from the highest price down to the match price, each price in the order of the bids |
| Winners.MatchedAre | x/fundraising/types/match.go:35-69 | the matched bids are, in order, those that get something after their bidder's earlier asks; a charge is rounded up bid by bid for just those |
| Winners.WinningIff | x/fundraising/types/match.go:43-69 | a bid is matched exactly when it asks for something and finds some of its bidder's cap unused |
| Winners.ChargeNearPrice | x/fundraising/types/match.go:51-62 | a bidder pays the match price for the coins, and less than one coin more per matched bid of that bidder |
| Search.SearchFindsLowestIff | x/fundraising/keeper/match.go:68-83 | the search agrees with a linear scan exactly when nothing fits or the first probe within supply has demand |
| Search.PositiveDemand | x/fundraising/keeper/match.go:68-83 | with positive demands the search finds the lowest level that fits |
| Search.KeptFits | x/fundraising/keeper/match.go:68-83 | a kept level is always one at which the match succeeded |
| Batch.FindMatch | x/fundraising/keeper/match.go:56-83 | the search loop keeps the result the specification names, or panics exactly when a probed price meets an unknown text |
| Batch.Probe | x/fundraising/keeper/match.go:73-82 | a probe succeeds exactly when the level's demand is positive and fits the supply, unless it meets an unknown text |
| Batch.KnownBookIsFine | x/fundraising/types/match.go:25-44 | with every bid under an allowed text no probe meets an unknown one |
| Batch.StrangersOnTop | x/fundraising/types/match.go:25-44 | if all bids at the highest price are under unknown texts, every search meets one, however the bids are arranged |
| Batch.SearchIsLowestIff | x/fundraising/keeper/match.go:62-83 | exact condition for selling at the lowest price whose demand fits |
| Batch.SearchIsLowest | x/fundraising/keeper/match.go:62-83 | positive demand at the highest price makes the search find the lowest price that fits |
| Batch.SearchCanMiss | x/fundraising/keeper/match.go:62-83 | two bids for which the search sells nothing although a price fits |
| Batch.SearchResultIsMatch | x/fundraising/keeper/match.go:62-87 | whatever the search keeps is empty or a match whose demand fits the supply |
| Batch.CalculateBatchAllocation | x/fundraising/keeper/match.go:49-108 | the allocation, charge and refund maps are those of the kept match |
| Batch.FillMaps | x/fundraising/keeper/match.go:98-108 | the three maps cover everyone who bid; refunds are reserve less charge |
| Batch.StartMaps | x/fundraising/keeper/match.go:98-102 | before the matches are entered everyone is refunded in full |
| Batch.GroupByBidder | x/fundraising/keeper/match.go:89-96 | per-bidder totals of what the bids reserve |
| Batch.CalculateFixedPriceAllocation | x/fundraising/keeper/match.go:21-47 | every bidder is allocated the sum of the accepted bids |
| Batch.AllocationsFit | x/fundraising/keeper/match.go:85-108 | allocations add up to the matched total, fit the supply and respect every cap, also when the search missed |
| Batch.RefundsBalance | x/fundraising/keeper/match.go:89-108 | no refund is negative; refunds and charges are exactly the reserves |
| Batch.SearchMatches | x/fundraising/keeper/match.go:85-114 | the match price, the marked bids and their number are those of the price the search kept |
| Batch.BidderOutcome | x/fundraising/keeper/match.go:89-108 | everyone who bid has an entry; each is allocated the capped demand, charged bid by bid, and refunded the own reserves less the own charge |
| Batch.ProceedsNearPrice | x/fundraising/keeper/match.go:85-108 | the charges are the matched total at the match price, and less than one coin more per matched bid |
| Batch.SortDoesNotMatter | x/fundraising/types/utils.go:35-67 | match price, total and allocations are the same for every arrangement the sort may leave |
| Bank.Send | x/fundraising/keeper/keeper.go:122-136 | a transfer succeeds exactly when covered, and what it does to every balance |
| Bank.PayOut | x/fundraising/keeper/auction.go:340-376 | a pay-out to many succeeds exactly when the total is covered, and what it does to every balance |
| Bank.SendAllIff | x/fundraising/keeper/keeper.go:102-120 | a fee is paid exactly when the payer has it in every denom, and what it does to every balance |
| Bank.SendConserves | x/fundraising/keeper/keeper.go:122-136 | a transfer changes no denom's supply |
| Bank.PayOutConserves | x/fundraising/keeper/auction.go:370-373 | a pay-out changes no denom's supply |
| Vesting.ValidateVestingSchedules | x/fundraising/types/vesting.go:10-48 | accepts exactly the schedules with positive weights summing to one and increasing times after the end |
| Vesting.PutAtEnd | x/fundraising/keeper/store.go:282-287 | a queue with a later time overwrites none |
| Vesting.PutInPlace | x/fundraising/keeper/store.go:282-287 | storing a queue with an existing time replaces just that one |
| Vesting.LastQueue | x/fundraising/keeper/vesting.go:38-41 | the last queue gets its weight or more, by at most the others' roundings |
| Vesting.SplitIsExact | x/fundraising/keeper/vesting.go:34-52 | one queue per schedule, shares rounded down but for the last, the sum exactly the proceeds |
| Vesting.FillQueues | x/fundraising/keeper/vesting.go:34-52 | the loop with a running remainder computes that split |
| Auctions.RoundHalfEven | x/fundraising/keeper/auction.go:525-527 | the quotient of match counts is rounded to the nearest, ties to even |
| Auctions.SendRest | x/fundraising/keeper/auction.go:408-418 | sends an account's whole balance of a denom, and what that does to every balance |
| Safety.ValidCreateIff | x/fundraising/types/msgs.go:55-166 | a create message passes its checks exactly when the auction it would open has sound terms and ends after it starts |
| Safety.CreateKeepsInv | x/fundraising/keeper/auction.go:25-113 | creating an auction keeps every reserve covered |
| Safety.CancelKeepsInv | x/fundraising/keeper/auction.go:229-273 | cancelling an auction keeps every reserve covered |
| Safety.AddAllowedKeepsInv | x/fundraising/keeper/auction.go:281-306 | adding allowed bidders keeps the invariant |
| Safety.UpdateAllowedKeepsInv | x/fundraising/keeper/auction.go:313-336 | changing a cap keeps the invariant |
| Safety.AcceptedBidWithinCap | x/fundraising/keeper/bid.go:170-217 | an accepted batch bid asks at its own price, as a match computes it, for no more than the bidder's cap |
| Safety.PlaceKeepsInv | x/fundraising/keeper/bid.go:20-119 | placing a bid keeps every reserve covered and, in a fixed price auction, left plus sold equal to the offer |
| Safety.ModifiedBid | x/fundraising/keeper/bid.go:261-280 | raising a bid needs a non-negative extra reserve, exactly the growth of what the bid reserves |
| Safety.ModifyKeepsInv | x/fundraising/keeper/bid.go:222-291 | modifying a bid keeps every reserve covered |
| Safety.DepositKeepsInv | x/fundraising/keeper/invariants.go:38-137 | outside deposits keep every reserve covered |
| Messages.CreateIff | x/fundraising/keeper/auction.go:25-225 | exactly which offers open an auction, its terms and status, and who pays fee and coins |
| Messages.CancelIff | x/fundraising/keeper/auction.go:229-273 | only the auctioneer cancels, only in stand-by, and gets the whole reserve back |
| Messages.AddAllowedIff | x/fundraising/keeper/auction.go:281-306 | exactly which lists are accepted; an address has the cap and text of its last entry |
| Messages.UpdateAllowedIff | x/fundraising/keeper/auction.go:313-336 | exactly which updates are accepted, and the entry stored |
| Messages.PlaceIff | x/fundraising/keeper/bid.go:20-119 | exactly which bids are accepted, the bid stored, the coins left, and who pays fee and reserve |
| Messages.ModifyIff | x/fundraising/keeper/bid.go:222-291 | exactly which raises are accepted, only the bid's own bidder's among them; the bidder alone pays the growth of its reserve |
| Closing.SettleEffect | x/fundraising/keeper/auction.go:500-518 | a settlement cannot fail, and the balance of every account afterwards |
| Closing.BatchSettlement | x/fundraising/keeper/auction.go:488-552 | a closed batch auction's reserves are empty; without deposits the auctioneer gets back the offer less the matched total, and the proceeds, all queued if they vest, are the charges |
| Closing.FixedSettlement | x/fundraising/keeper/auction.go:471-485 | a closed fixed price auction's reserves are empty; without deposits the auctioneer gets back what is left, and the proceeds are all that was bid |
| Payouts.CapUnderText | x/fundraising/types/match.go:25-28 | a match sees a bidder's cap under the text of the allowed entry only |
| Payouts.BatchPaysUser | x/fundraising/keeper/auction.go:500-552 | what every user has after a batch auction closed, from the user's own bids, cap and charge |
| Payouts.ChargedNearPrice | x/fundraising/keeper/match.go:104-108 | a user's charge is the match price for the coins won and less than one coin more per matched bid |
| Payouts.FixedPaysUser | x/fundraising/keeper/auction.go:471-485 | what every user has after a fixed price auction closed, from the user's own bids |
| Payouts.BatchSplit | x/fundraising/keeper/vesting.go:34-52 | the queues of a closed batch auction hold its proceeds by the weights of the schedules |
| Payouts.FixedSplit | x/fundraising/keeper/vesting.go:34-52 | so do those of a closed fixed price auction |
| Closing.ApplyVestingEffect | x/fundraising/keeper/vesting.go:11-59 | the whole paying reserve goes to the auctioneer or into vesting queues that add up to it |
| Closing.CloseFixedSettles | x/fundraising/keeper/auction.go:471-485 | a fixed price auction settles without fail and sells the offer less what is left |
| Closing.BatchInfoFits | x/fundraising/keeper/match.go:49-117 | a round's matching never overdraws supply or reserves, for any arrangement of the bids |
| Closing.SettleBatchSettles | x/fundraising/keeper/auction.go:500-552 | a batch auction whose matching fits its reserves settles without fail |
| Closing.CloseBatchSafe | x/fundraising/keeper/auction.go:488-552 | the end of a round fails exactly when its matching meets an unknown text; extended or settled, it keeps every reserve covered |
| Closing.ExtendShape | x/fundraising/keeper/auction.go:460-468 | an extension keeps end times in order and within the allowed rounds |
| Closing.MarkSetsFlags | x/fundraising/keeper/match.go:110-113 | afterwards just the matched bids, and those marked before, carry the flag; nothing else about a bid changes |
| Runs.ReleaseEffect | x/fundraising/keeper/auction.go:379-405 | every due queue is paid once, in full, to the auctioneer; no payment fails |
| Runs.ReleaseSafe | x/fundraising/keeper/auction.go:379-405 | a release keeps every reserve covered and finishes the auction with its last queue |
| Runs.StepListingSafe | x/fundraising/keeper/execution.go:9-40 | an auction's turn in a block fails exactly when a due matching meets an unknown text |
| Runs.BlockSafe | x/fundraising/abci.go:13-29 | a block keeps every reserve covered and every supply |
| Runs.BlockClock | x/fundraising/abci.go:13-29 | a block sets the time that messages see and leaves the parameters alone |
| Runs.BlockOkIff | x/fundraising/abci.go:13-29 | a block panics exactly when in one of its auctions a due matching meets an unknown text |
| Runs.StepSafe | x/fundraising/abci.go:13-29 | every message and block keeps the invariant |
| Runs.RunSafe | x/fundraising/keeper/invariants.go:21-36 | so does every run |
| Runs.PanicsIff | x/fundraising/abci.go:13-29 | over every run: a block panics exactly when a matching meets an unknown text; in all states reached the registered invariants hold and supplies are unchanged |
| Names.NeverPanics | x/fundraising/abci.go:13-29 | over every run in which every account is named by one text no block panics |
| Names.StrangersPanic | x/fundraising/types/match.go:25-44 | a due auction whose highest bids are all under texts that were not allowed makes the block panic |
| Names.SecondTextPanics | x/fundraising/keeper/bid.go:36-54 | a run in which an allowed account bids under its other text: the closing block panics, and under the allowed text it does not |
| Runs.ReservesAreExact | x/fundraising/keeper/bid.go:57-106 | without deposits to reserves, every reserve is exactly what its auction owes, over every run |
| Runs.FixedPriceBooksBalance | x/fundraising/keeper/bid.go:59-79 | over every run coins left and sold make up the offer, paid for at the start price or more |
| Lifecycle.StepContinues | x/fundraising/keeper/execution.go:9-40 | one action takes an auction along at most one status edge and undoes nothing |
| Lifecycle.RunContinues | x/fundraising/keeper/auction.go:229-273 | over every run statuses move forward, end times and bids only grow, released queues stay released |
| Lifecycle.NoLossNoRound | x/fundraising/keeper/auction.go:525-535 | a matched count that did not fall never extends the auction |
| Lifecycle.LossNearRate | x/fundraising/keeper/auction.go:525-535 | losing the rate or more of the matched bids always counts as too much, losing less by 10^-18 or more never does |
| Lifecycle.RoundStaysOpenIff | x/fundraising/keeper/auction.go:488-552 | exactly when the end of a round leaves an auction open, without a last count among them; it gains one end time, the given days after the last, and no coin moves |
| Lifecycle.RoundMarks | x/fundraising/keeper/match.go:110-114 | the end of a round marks the bids it matched and changes nothing else about the bids |
| Lifecycle.DueBlockIff | x/fundraising/keeper/execution.go:20-32 | a block does this for every batch auction that is due, with the period of the parameters |
| Lifecycle.QuietTurn | x/fundraising/keeper/execution.go:9-40 | a turn starts a waiting auction exactly from its start time on, and leaves one that is not due, finished or cancelled as it is |
| Lifecycle.StartStep | x/fundraising/keeper/execution.go:11-18 | an action starts a waiting auction exactly if it is a block at or after the start time; only a cancel message cancels it |
| Lifecycle.StartRun | x/fundraising/keeper/execution.go:11-18 | over every run an auction that was not cancelled has left stand-by exactly when a block reached its start time |
| Lifecycle.FixedCloseRun | x/fundraising/keeper/execution.go:20-32 | over every run a fixed price auction has closed exactly when a block reached its end time |
| Lifecycle.DueBatchStep | x/fundraising/keeper/auction.go:488-552 | a due batch auction closes or gains exactly one round; the last round closes it |
| Lifecycle.EveryDueBlockUsesARound | x/fundraising/keeper/auction.go:460-535 | over every run that leaves a batch auction open, end times grow by exactly the blocks that found it due, of which there are at most its extended rounds |
| Lifecycle.VestingRun | x/fundraising/keeper/auction.go:379-405 | over every run a queue is released exactly when a block reached its time, and the auction is finished exactly when all were |
| Lifecycle.VestingTurn | x/fundraising/keeper/auction.go:379-405 | in each block just the newly released amounts go from the vesting reserve to the auctioneer |
| Lifecycle.VestingPaysOut | x/fundraising/types/vesting.go:61-70 | over every run without deposits the reserve falls by just what was released; a finished auction has paid all that was vested |
| FundraisingKeeper.Keeper.SendCoins | x/fundraising/keeper/keeper.go:130-136 | the transfer of the specification, or its error and no change |
| FundraisingKeeper.Keeper.FundCommunityPool | x/fundraising/keeper/keeper.go:102-120 | pays all coins of a fee or fails |
| FundraisingKeeper.Keeper.InputOutputCoins | x/fundraising/keeper/auction.go:350-373 | debits and credits in any order of the texts give the same bank, also when two texts name one account |
| FundraisingKeeper.Keeper.DebitInputs | x/fundraising/keeper/auction.go:359-368 | the debits succeed exactly when the total is covered |
| FundraisingKeeper.Keeper.CreditOutputs | x/fundraising/keeper/auction.go:359-368 | every bidder is credited the allotted amount |
| FundraisingKeeper.Keeper.CreateAuction | x/fundraising/keeper/auction.go:117-225 | both create functions, including the fee, the reserve and the initial status |
| FundraisingKeeper.Keeper.CancelAuction | x/fundraising/keeper/auction.go:229-273 | returns the reserved coins and cancels |
| FundraisingKeeper.Keeper.AddAllowedBidders | x/fundraising/keeper/auction.go:281-306 | stores the entries in order; on an invalid one, exactly the entries before it are stored |
| FundraisingKeeper.Keeper.UpdateAllowedBidder | x/fundraising/keeper/auction.go:313-336 | replaces an existing bidder's cap |
| FundraisingKeeper.Keeper.TotalBidAmount | x/fundraising/keeper/bid.go:145-152 | the loop over the bidder's index entries computes the total that the index gives, for addresses of any length |
| FundraisingKeeper.Keeper.ValidateFixedPriceBid | x/fundraising/keeper/bid.go:122-167 | the checks on a fixed price bid, with the bidder's total so far as the index gives it |
| FundraisingKeeper.Keeper.PlaceBid | x/fundraising/keeper/bid.go:20-119 | the whole new state after an accepted bid, or the error |
| FundraisingKeeper.Keeper.ReserveBid | x/fundraising/keeper/bid.go:57-106 | validation, reserve and storage by bid type |
| FundraisingKeeper.Keeper.ModifyBid | x/fundraising/keeper/bid.go:222-291 | the whole new state after a raised bid, or the error |
| FundraisingKeeper.Keeper.AllocateSellingCoin | x/fundraising/keeper/auction.go:340-376 | pays the allocations out of the selling reserve |
| FundraisingKeeper.Keeper.RefundRemainingSellingCoin | x/fundraising/keeper/auction.go:408-418 | returns the rest of the selling reserve and cannot fail |
| FundraisingKeeper.Keeper.RefundPayingCoin | x/fundraising/keeper/auction.go:421-457 | pays the refunds; a negative refund panics |
| FundraisingKeeper.Keeper.ApplyVestingSchedules | x/fundraising/keeper/vesting.go:11-59 | moves the proceeds and stores the queues |
| FundraisingKeeper.Keeper.CloseFixedPriceAuction | x/fundraising/keeper/auction.go:471-485 | allocation, return of unsold coins and vesting in this order |
| FundraisingKeeper.Keeper.RecordMatch | x/fundraising/keeper/match.go:110-114 | stores the matched bids and their number, unless the matching panics |
| FundraisingKeeper.Keeper.StoreMatched | x/fundraising/keeper/match.go:110-113 | sets the flag of just the matched bids |
| FundraisingKeeper.Keeper.CloseBatchAuction | x/fundraising/keeper/auction.go:488-552 | matches, then extends or settles |
| FundraisingKeeper.Keeper.CloseOrExtend | x/fundraising/keeper/auction.go:498-552 | one more end time, or a settlement |
| FundraisingKeeper.Keeper.FinishBatchAuction | x/fundraising/keeper/auction.go:537-551 | allocation, return of unsold coins, refunds and vesting in this order |
| FundraisingKeeper.Keeper.ReleaseVestingPayingCoin | x/fundraising/keeper/auction.go:379-405 | pays the due queues from a list read once |
| FundraisingKeeper.Keeper.ExecuteStatus | x/fundraising/keeper/execution.go:9-40 | an auction's turn in a block |
| FundraisingKeeper.Keeper.BeginBlocker | x/fundraising/abci.go:13-29 | panics exactly when a due matching meets an unknown text; otherwise the whole new state, with the invariant kept |
| FundraisingKeeper.Keeper.Execute | x/fundraising/abci.go:13-29 | any sequence of messages and blocks, with rollback of failed messages, up to a block that panics |
| FundraisingKeeper.Keeper.SellingPoolReserveAmountInvariant | x/fundraising/keeper/invariants.go:38-66 | reports broken exactly when a started auction's selling reserve is short |
| FundraisingKeeper.Keeper.PayingPoolReserveAmountInvariant | x/fundraising/keeper/invariants.go:68-101 | reports broken exactly when a paying reserve is less than the bids reserve |
| FundraisingKeeper.Keeper.VestingPoolReserveAmountInvariant | x/fundraising/keeper/invariants.go:103-137 | reports broken exactly when a vesting reserve is less than the unreleased queues |
| Keys.BidKeyInjective | x/fundraising/types/keys.go:62-65 | different bids never share a primary key |
| Keys.KeyLayout | x/fundraising/types/keys.go:62-75 | the bytes of both keys: prefixes 0x31 and 0x32, length and address, and the two ids |
| Keys.AuctionPrefixSelects | x/fundraising/types/keys.go:67-70 | an auction's prefix matches that auction's bid keys only |
| Keys.IndexPrefixSelects | x/fundraising/types/keys.go:72-80 | a bidder's prefix matches that bidder's index keys only |
| Keys.ParseInverts | x/fundraising/types/keys.go:96-107 | parsing an index key returns its ids for addresses up to 245 bytes |
| Keys.ParseInvertsIff | x/fundraising/types/keys.go:96-107 | and for all ids only for those, since the offsets are computed in bytes |
| Keys.ParseLong | x/fundraising/types/keys.go:96-107 | what is read instead for longer addresses: bytes of the address as bid id, from 254 bytes on also as auction id |
| BidIndex.SetKeepsAgreementIff | x/fundraising/keeper/store.go:162-168 | writing a bid keeps store and index in agreement exactly when it does not take over another bidder's bid |
| BidIndex.SetThenGet | x/fundraising/keeper/store.go:150-168 | a stored bid is found under its ids, and every other lookup is unchanged |
| BidIndex.SetKeepsBooks | x/fundraising/keeper/store.go:162-168 | a write takes the store of some bids, index included, to the store of the bids with that one written |
| BidIndex.BidStore.GetBidsByBidder | x/fundraising/keeper/store.go:190-245 | one result for each of the bidder's bids: the bid itself up to 245 address bytes, above that the bid under the wrapped ids or none |
| BidIndex.BidStore.TotalBidAmount | x/fundraising/keeper/bid.go:145-152 | the total collected from a store that holds the bids is the total the keeper uses |
| BidIndex.ShortTotal | x/fundraising/keeper/bid.go:145-152 | up to 245 address bytes it is the sum over the bidder's bids in the auction |
| BidIndex.LongTotalMisses | x/fundraising/keeper/bid.go:145-152 | above that it is zero in an auction without a bid under the wrapped id |
| BidIndex.IndexTotalIff | x/fundraising/keeper/bid.go:145-152 | it is the bidder's total whatever the bids exactly up to 245 address bytes |
| Records.StoreOverRun | x/fundraising/keeper/store.go:162-168 | over every run the store, written by the keeper's three callers of `SetBid`, holds exactly the auctions' bids and its index agrees |
| Records.FixedPriceCap | x/fundraising/keeper/bid.go:145-164 | up to 245 address bytes an accepted fixed price bid keeps the bidder's total within the cap |
| Records.FixedBidFitsIff | x/fundraising/keeper/bid.go:122-167 | up to 245 address bytes, exactly which fixed price bids pass the checks, with the bidder's total in the auction |
| Records.LongAddressCap | x/fundraising/keeper/bid.go:145-164 | above that, without a bid under the wrapped id, the cap is compared with each bid alone |

## Left out

- Hooks and events: they have no effect on the module's state here.
- Genesis import and export, queries, the command line and the wiring of the application.
- Overflow panics of `sdk.Int` and `sdk.Dec`: integers are unbounded. Times are too, so an extended period that takes an end time past what a stored timestamp can hold does not fail here. Ids are counted without end; the statements on the store are for states whose counts fit 64 bits.
- Derivation of reserve addresses, and the encoding of bech32 beyond the case of a text: accounts are distinct by construction.
- Denom syntax: every denom is taken as valid.
- Coins locked in vesting accounts of the SDK: a balance is spendable in full.
- FundraisingKeeper.Keeper.TotalBidAmount: looks bids up in the listings; that a byte-keyed store and index hold the same bids over every run is `Records.StoreOverRun`, and the two are not one object.
- Matching.SortDescending: stands for a library sort; only its result is modelled.
- BidIndex.BidStore.GetBidsByBidder: does not state the order of the result, which no caller uses.
- Lifecycle.VestingPaysOut: states what the vesting reserve pays over a run; that each payment goes to the auctioneer is stated per block in `Lifecycle.VestingTurn`, since the auctioneer's balance also moves otherwise.
- The matched flag of a bid is set in every round and never cleared, so a flag says that a bid was matched in some round, not in the last one.
- The message that adds an allowed bidder, which is disabled outside test builds; the keeper function it calls is modelled.

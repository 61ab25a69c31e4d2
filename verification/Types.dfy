/** Values of the fundraising module: amounts, coins, bids, schedules and the errors its keeper returns. */
module Types {

  newtype byte = x: int | 0 <= x < 256

  /** The bytes of an account address. */
  type Addr = seq<byte>

  /**
    * The bech32 text of an address. Decoding takes it in lower or in upper case; the SDK writes it in lower case.
    * Texts are stored as they were sent, so one account can be named by two texts.
    */
  datatype Text = Text(addr: Addr, upper: bool)

  function Canonical(a: Addr): Text {
    Text(a, false)
  }

  type Denom = string

  /** Nanoseconds; block times and release times are compared, never formatted. */
  type Time = int

  /** A non-negative `sdk.Dec`, as its raw integer scaled by 10^18. */
  type Dec = nat

  const ONE: nat := 1_000_000_000_000_000_000

  datatype Coin = Coin(denom: Denom, amount: nat)

  datatype BidType = FixedPrice | BatchWorth | BatchMany

  datatype Bid = Bid(auctionId: nat, id: nat, bidder: Text, typ: BidType, price: Dec, coin: Coin, isMatched: bool)

  datatype AllowedBidder = AllowedBidder(bidder: Text, maxBidAmount: int)

  datatype VestingSchedule = VestingSchedule(releaseTime: Time, weight: int)

  datatype VestingQueue = VestingQueue(amount: nat, releaseTime: Time, released: bool)

  datatype Error =
    | NotFound
    | Unauthorized
    | InvalidRequest
    | InvalidAddress
    | InsufficientFunds
    | InvalidAuctionStatus
    | InvalidStartPrice
    | InvalidVestingSchedules
    | InvalidMaxBidAmount
    | IncorrectAuctionType
    | IncorrectCoinDenom
    | EmptyAllowedBidders
    | NotAllowedBidder
    | OverMaxBidAmountLimit
    | InsufficientRemainingAmount
    | InsufficientMinBidPrice
    | Panic

  datatype Option<+T> = None | Some(value: T)

  datatype Result<+T> = Ok(value: T) | Err(error: Error) {
    predicate IsFailure() {
      Err?
    }

    function PropagateFailure<U>(): Result<U>
      requires Err?
    {
      Err(error)
    }

    function Extract(): T
      requires Ok?
    {
      value
    }
  }

  /** The outcome of one check; `:- Need(...)` gives up with the error. */
  datatype Check = Pass | Fail(error: Error) {
    predicate IsFailure() {
      Fail?
    }

    function PropagateFailure<U>(): Result<U>
      requires Fail?
    {
      Err(error)
    }
  }

  function Need(condition: bool, error: Error): Check {
    if condition then Pass else Fail(error)
  }

  /** Address lengths the SDK accepts. */
  predicate ValidAddr(a: Addr) {
    0 < |a| <= 255
  }

  function Min(a: nat, b: nat): nat {
    if a <= b then a else b
  }

  function Get<K>(m: map<K, nat>, k: K): nat {
    if k in m then m[k] else 0
  }
}

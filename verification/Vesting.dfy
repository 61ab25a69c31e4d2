/** Vesting schedules and queues (types/vesting.go, keeper/vesting.go). */
module Vesting {
  import opened Types
  import opened Rounding

  /** 0001-01-01T00:00:00Z, in nanoseconds from 1970. */
  const ZERO_TIME: Time := -62_135_596_800_000_000_000

  function WeightOf(s: VestingSchedule): nat {
    if s.weight > 0 then s.weight else 0
  }

  function TotalWeight(schedules: seq<VestingSchedule>): nat {
    if schedules == [] then 0 else TotalWeight(schedules[..|schedules| - 1]) + WeightOf(schedules[|schedules| - 1])
  }

  /** No schedules, or positive weights that add up to one and release times that increase after the end time. */
  predicate SchedulesValid(schedules: seq<VestingSchedule>, endTime: Time) {
    schedules != [] ==>
      && (forall i :: 0 <= i < |schedules| ==> 0 < schedules[i].weight)
      && (forall i :: 0 <= i < |schedules| ==>
            schedules[i].releaseTime > endTime && schedules[i].releaseTime > ZERO_TIME)
      && (forall i, j :: 0 <= i < j < |schedules| ==> schedules[i].releaseTime < schedules[j].releaseTime)
      && TotalWeight(schedules) == ONE
  }

  lemma {:induction false} WeightAtMostTotal(schedules: seq<VestingSchedule>, i: nat)
    requires i < |schedules|
    ensures WeightOf(schedules[i]) <= TotalWeight(schedules)
  {
    if i < |schedules| - 1 {
      WeightAtMostTotal(schedules[..|schedules| - 1], i);
    }
  }

  /** `ValidateVestingSchedules`: one pass that compares each release time only with the one before. */
  method ValidateVestingSchedules(schedules: seq<VestingSchedule>, endTime: Time) returns (r: Result<()>)
    ensures r == if SchedulesValid(schedules, endTime) then Ok(()) else Err(InvalidVestingSchedules)
  {
    if |schedules| == 0 {
      return Ok(());
    }
    var totalWeight := 0;
    var prev := ZERO_TIME;
    for i := 0 to |schedules|
      invariant totalWeight == TotalWeight(schedules[..i])
      invariant prev >= ZERO_TIME && forall j :: 0 <= j < i ==> schedules[j].releaseTime <= prev
      invariant prev == if i == 0 then ZERO_TIME else schedules[i - 1].releaseTime
      invariant forall j :: 0 <= j < i ==> 0 < schedules[j].weight
      invariant forall j :: 0 <= j < i ==> schedules[j].releaseTime > endTime && schedules[j].releaseTime > ZERO_TIME
      invariant forall j, k :: 0 <= j < k < i ==> schedules[j].releaseTime < schedules[k].releaseTime
    {
      var s := schedules[i];
      WeightAtMostTotal(schedules, i);
      if s.weight <= 0 || s.releaseTime <= endTime || s.releaseTime <= prev || s.weight > ONE {
        return Err(InvalidVestingSchedules);
      }
      assert schedules[..i + 1][..i] == schedules[..i];
      totalWeight := totalWeight + s.weight;
      prev := s.releaseTime;
    }
    assert schedules[..|schedules|] == schedules;
    r := if totalWeight == ONE then Ok(()) else Err(InvalidVestingSchedules);
  }

  // ----- The queue store of one auction, ordered by release time

  predicate Ordered(queues: seq<VestingQueue>) {
    forall i, j :: 0 <= i < j < |queues| ==> queues[i].releaseTime < queues[j].releaseTime
  }

  /** `SetVestingQueue`: the store key ends in the release time, so an equal time overwrites. */
  function PutQueue(queues: seq<VestingQueue>, q: VestingQueue): seq<VestingQueue> {
    if queues == [] || q.releaseTime < queues[0].releaseTime then [q] + queues
    else if q.releaseTime == queues[0].releaseTime then [q] + queues[1..]
    else [queues[0]] + PutQueue(queues[1..], q)
  }

  lemma {:induction false} PutAtEnd(queues: seq<VestingQueue>, q: VestingQueue)
    requires forall i :: 0 <= i < |queues| ==> queues[i].releaseTime < q.releaseTime
    ensures PutQueue(queues, q) == queues + [q]
  {
    if queues != [] {
      PutAtEnd(queues[1..], q);
    }
  }

  lemma {:induction false} PutInPlace(queues: seq<VestingQueue>, i: nat, q: VestingQueue)
    requires Ordered(queues) && i < |queues| && queues[i].releaseTime == q.releaseTime
    ensures PutQueue(queues, q) == queues[i := q]
  {
    if i > 0 {
      PutInPlace(queues[1..], i - 1, q);
    }
  }

  // ----- Splitting the proceeds

  /** The part of the reserve that a weight stands for, rounded down. */
  function Portion(reserve: nat, weight: nat): (amount: nat)
    ensures amount * ONE <= reserve * weight < amount * ONE + ONE
  {
    assert 0 <= reserve * weight;
    reserve * weight / ONE
  }

  function Shares(reserve: nat, schedules: seq<VestingSchedule>): nat {
    if schedules == [] then 0 else
      Shares(reserve, schedules[..|schedules| - 1]) + Portion(reserve, WeightOf(schedules[|schedules| - 1]))
  }

  /** The amount of queue `i`: its weight rounded down, and for the last whatever the others left. */
  function QueueAmount(reserve: nat, schedules: seq<VestingSchedule>, i: nat): int
    requires i < |schedules|
  {
    if i == |schedules| - 1 then reserve - Shares(reserve, schedules[..i]) else Portion(reserve, WeightOf(schedules[i]))
  }

  /** The queue store after the first `k` schedules were written; a negative amount makes the SDK panic. */
  function Enqueue(queues: seq<VestingQueue>, reserve: nat, schedules: seq<VestingSchedule>, k: nat)
    : Result<seq<VestingQueue>>
    requires k <= |schedules|
  {
    if k == 0 then Ok(queues) else
      var before :- Enqueue(queues, reserve, schedules, k - 1);
      var amount := QueueAmount(reserve, schedules, k - 1);
      if amount < 0 then Err(Panic)
      else Ok(PutQueue(before, VestingQueue(amount, schedules[k - 1].releaseTime, false)))
  }

  /** Which coins of the queues to add up: all, those paid out or those still owed to the auctioneer. */
  datatype Part = All | Released | Unreleased

  function PartOf(q: VestingQueue, part: Part): nat {
    if part == All || (part == Released) == q.released then q.amount else 0
  }

  function QueueSum(queues: seq<VestingQueue>, part: Part): nat {
    if queues == [] then 0 else QueueSum(queues[..|queues| - 1], part) + PartOf(queues[|queues| - 1], part)
  }

  lemma {:induction false} QueueSumUpdate(queues: seq<VestingQueue>, i: nat, q: VestingQueue, part: Part)
    requires i < |queues|
    ensures QueueSum(queues[i := q], part) == QueueSum(queues, part) - PartOf(queues[i], part) + PartOf(q, part)
  {
    var n := |queues| - 1;
    if i == n {
      assert queues[i := q][..n] == queues[..n];
    } else {
      QueueSumUpdate(queues[..n], i, q, part);
      assert queues[i := q][..n] == queues[..n][i := q];
    }
  }

  lemma {:induction false} QueueSumSame(queues: seq<VestingQueue>, queues': seq<VestingQueue>, part: Part, part': Part)
    requires |queues| == |queues'|
    requires forall i :: 0 <= i < |queues| ==> PartOf(queues[i], part) == PartOf(queues'[i], part')
    ensures QueueSum(queues, part) == QueueSum(queues', part')
  {
    if queues != [] {
      var n := |queues| - 1;
      assert forall i :: 0 <= i < n ==> queues[..n][i] == queues[i] && queues'[..n][i] == queues'[i];
      QueueSumSame(queues[..n], queues'[..n], part, part');
    }
  }

  lemma {:induction false} ReleasedPlusUnreleased(queues: seq<VestingQueue>)
    ensures QueueSum(queues, Released) + QueueSum(queues, Unreleased) == QueueSum(queues, All)
  {
    if queues != [] {
      ReleasedPlusUnreleased(queues[..|queues| - 1]);
    }
  }

  lemma {:induction false} AllReleased(queues: seq<VestingQueue>)
    requires forall i :: 0 <= i < |queues| ==> queues[i].released
    ensures QueueSum(queues, Unreleased) == 0
  {
    if queues != [] {
      AllReleased(queues[..|queues| - 1]);
    }
  }

  lemma {:induction false} SharesNearWeights(reserve: nat, s: seq<VestingSchedule>)
    ensures Shares(reserve, s) * ONE <= reserve * TotalWeight(s)
            <= Shares(reserve, s) * ONE + |s| * (ONE - 1)
  {
    if s != [] {
      var n := |s| - 1;
      SharesNearWeights(reserve, s[..n]);
      ShareStep(reserve, Shares(reserve, s[..n]), TotalWeight(s[..n]), WeightOf(s[n]), n);
    }
  }

  lemma ShareStep(reserve: nat, shares: nat, weights: nat, weight: nat, n: nat)
    requires shares * ONE <= reserve * weights <= shares * ONE + n * (ONE - 1)
    ensures (shares + Portion(reserve, weight)) * ONE <= reserve * (weights + weight)
            <= (shares + Portion(reserve, weight)) * ONE + (n + 1) * (ONE - 1)
  {
    Distribute(weights, weight, reserve);
  }

  /** How the last queue relates to its weight: it never gets less, and at most the others' roundings more. */
  lemma LastQueue(reserve: nat, schedules: seq<VestingSchedule>)
    requires schedules != [] && TotalWeight(schedules) == ONE
    ensures var n := |schedules| - 1;
            var amount, weight := QueueAmount(reserve, schedules, n), WeightOf(schedules[n]);
            reserve * weight <= amount * ONE <= reserve * weight + n * (ONE - 1)
  {
    var n := |schedules| - 1;
    SharesNearWeights(reserve, schedules[..n]);
    LastStep(reserve, Shares(reserve, schedules[..n]), TotalWeight(schedules[..n]), WeightOf(schedules[n]), n);
  }

  lemma LastStep(reserve: nat, shares: nat, weights: nat, weight: nat, n: nat)
    requires shares * ONE <= reserve * weights <= shares * ONE + n * (ONE - 1)
    requires weights + weight == ONE
    ensures reserve * weight <= (reserve - shares) * ONE <= reserve * weight + n * (ONE - 1)
  {
    Distribute(weights, weight, reserve);
  }

  lemma AmountNonNegative(reserve: nat, schedules: seq<VestingSchedule>, i: nat)
    requires i < |schedules| && TotalWeight(schedules) == ONE
    ensures 0 <= QueueAmount(reserve, schedules, i)
  {
    LastQueue(reserve, schedules);
    assert 0 <= reserve * WeightOf(schedules[|schedules| - 1]);
  }

  ghost predicate SplitUpTo(reserve: nat, schedules: seq<VestingSchedule>, queues: seq<VestingQueue>)
    requires |queues| <= |schedules|
  {
    forall i :: 0 <= i < |queues| ==>
      queues[i] == VestingQueue(queues[i].amount, schedules[i].releaseTime, false)
      && queues[i].amount == QueueAmount(reserve, schedules, i)
  }

  lemma {:induction false} EnqueueInOrder(reserve: nat, schedules: seq<VestingSchedule>, endTime: Time, k: nat)
    requires SchedulesValid(schedules, endTime) && k <= |schedules|
    ensures var r := Enqueue([], reserve, schedules, k);
            r.Ok? && |r.value| == k && SplitUpTo(reserve, schedules, r.value)
  {
    if k > 0 {
      EnqueueInOrder(reserve, schedules, endTime, k - 1);
      AmountNonNegative(reserve, schedules, k - 1);
      var before := Enqueue([], reserve, schedules, k - 1).value;
      var q := VestingQueue(QueueAmount(reserve, schedules, k - 1), schedules[k - 1].releaseTime, false);
      PutAtEnd(before, q);
      assert Enqueue([], reserve, schedules, k) == Ok(before + [q]);
    }
  }

  lemma {:induction false} SplitSum(reserve: nat, schedules: seq<VestingSchedule>, queues: seq<VestingQueue>, k: nat)
    requires |queues| == |schedules| && k < |schedules| && SplitUpTo(reserve, schedules, queues)
    ensures QueueSum(queues[..k], All) == Shares(reserve, schedules[..k])
  {
    if k > 0 {
      SplitSum(reserve, schedules, queues, k - 1);
      assert queues[..k][..k - 1] == queues[..k - 1] && schedules[..k][..k - 1] == schedules[..k - 1];
    }
  }

  /**
    * The proceeds are split exactly: one unreleased queue per schedule, none overwriting another, each but the
    * last its rounded-down share, the last within the others' rounding of its own, all together the reserve.
    */
  lemma SplitIsExact(reserve: nat, schedules: seq<VestingSchedule>, endTime: Time)
    requires SchedulesValid(schedules, endTime) && schedules != []
    ensures var r, n := Enqueue([], reserve, schedules, |schedules|), |schedules| - 1;
            && r.Ok? && |r.value| == |schedules|
            && (forall i :: 0 <= i < |schedules| ==>
                  r.value[i].releaseTime == schedules[i].releaseTime && !r.value[i].released)
            && (forall i :: 0 <= i < n ==> r.value[i].amount == reserve * schedules[i].weight / ONE)
            && reserve * schedules[n].weight <= r.value[n].amount * ONE <= reserve * schedules[n].weight + n * (ONE - 1)
            && QueueSum(r.value, All) == reserve
  {
    var n := |schedules| - 1;
    EnqueueInOrder(reserve, schedules, endTime, |schedules|);
    LastQueue(reserve, schedules);
    var queues := Enqueue([], reserve, schedules, |schedules|).value;
    SplitSum(reserve, schedules, queues, n);
  }

  /** The loop of `ApplyVestingSchedules`: `remaining` goes to the last queue. */
  method FillQueues(queues: seq<VestingQueue>, reserve: nat, schedules: seq<VestingSchedule>)
    returns (r: Result<seq<VestingQueue>>)
    ensures r == Enqueue(queues, reserve, schedules, |schedules|)
  {
    var remaining: int := reserve;
    var qs := queues;
    for i := 0 to |schedules|
      invariant Enqueue(queues, reserve, schedules, i) == Ok(qs)
      invariant i < |schedules| ==> remaining == reserve - Shares(reserve, schedules[..i])
    {
      var amount: int := Portion(reserve, WeightOf(schedules[i]));
      if i == |schedules| - 1 {
        amount := remaining;
      }
      if amount < 0 {
        EnqueueStuck(queues, reserve, schedules, i + 1, |schedules|);
        return Err(Panic);
      }
      qs := PutQueue(qs, VestingQueue(amount, schedules[i].releaseTime, false));
      assert schedules[..i + 1][..i] == schedules[..i];
      remaining := remaining - amount;
    }
    r := Ok(qs);
  }

  lemma {:induction false} EnqueueStuck(queues: seq<VestingQueue>, reserve: nat, schedules: seq<VestingSchedule>,
                                        k: nat, n: nat)
    requires k <= n <= |schedules| && Enqueue(queues, reserve, schedules, k) == Err(Panic)
    ensures Enqueue(queues, reserve, schedules, n) == Err(Panic)
  {
    if k < n {
      EnqueueStuck(queues, reserve, schedules, k, n - 1);
    }
  }

  // ----- Releasing

  /** `VestingQueue.ShouldRelease`. */
  predicate ShouldRelease(q: VestingQueue, now: Time) {
    q.releaseTime <= now && !q.released
  }
}

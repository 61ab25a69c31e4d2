/**
  * The binary search over the price levels, and exactly when it finds what a linear scan finds.
  * Levels are numbered from the lowest price, so demand never rises with the number.
  */
module Search {
  import opened Types

  predicate NonIncreasing(demand: seq<nat>) {
    forall i, j :: 0 <= i <= j < |demand| ==> demand[i] >= demand[j]
  }

  /** A match at a level succeeds when it sells something and no more than the supply. */
  predicate Fits(demand: seq<nat>, supply: nat, i: nat)
    requires i < |demand|
  {
    0 < demand[i] <= supply
  }

  /** `sort.Search` on [lo, hi), keeping the last level at which the match succeeded. */
  function Kept(demand: seq<nat>, supply: nat, lo: nat, hi: nat, kept: Option<nat>): Option<nat>
    requires lo <= hi <= |demand|
    decreases hi - lo
  {
    if lo == hi then kept else
      var h := (lo + hi) / 2;
      if Fits(demand, supply, h) then Kept(demand, supply, lo, h, Some(h)) else Kept(demand, supply, h + 1, hi, kept)
  }

  /** The levels that search probes. */
  function Probes(demand: seq<nat>, supply: nat, lo: nat, hi: nat): set<nat>
    requires lo <= hi <= |demand|
    decreases hi - lo
  {
    if lo == hi then {} else
      var h := (lo + hi) / 2;
      {h} + if Fits(demand, supply, h) then Probes(demand, supply, lo, h) else Probes(demand, supply, h + 1, hi)
  }

  /** One turn of the search loop. */
  lemma SearchTurn(demand: seq<nat>, supply: nat, lo: nat, hi: nat, kept: Option<nat>)
    requires lo < hi <= |demand|
    ensures var h := (lo + hi) / 2;
            if Fits(demand, supply, h) then
              && Kept(demand, supply, lo, hi, kept) == Kept(demand, supply, lo, h, Some(h))
              && Probes(demand, supply, lo, hi) == {h} + Probes(demand, supply, lo, h)
            else
              && Kept(demand, supply, lo, hi, kept) == Kept(demand, supply, h + 1, hi, kept)
              && Probes(demand, supply, lo, hi) == {h} + Probes(demand, supply, h + 1, hi)
  {
  }

  lemma {:induction false} ProbesAreLevels(demand: seq<nat>, supply: nat, lo: nat, hi: nat)
    requires lo <= hi <= |demand|
    ensures forall h :: h in Probes(demand, supply, lo, hi) ==> lo <= h < hi
    ensures lo < hi ==> (lo + hi) / 2 in Probes(demand, supply, lo, hi)
    decreases hi - lo
  {
    if lo < hi {
      var h := (lo + hi) / 2;
      if Fits(demand, supply, h) {
        ProbesAreLevels(demand, supply, lo, h);
      } else {
        ProbesAreLevels(demand, supply, h + 1, hi);
      }
    }
  }

  /** The linear scan: the lowest price in [lo, hi) at which a match succeeds. */
  function Lowest(demand: seq<nat>, supply: nat, lo: nat, hi: nat): Option<nat>
    requires lo <= hi <= |demand|
    decreases hi - lo
  {
    if lo == hi then None
    else if Fits(demand, supply, lo) then Some(lo)
    else Lowest(demand, supply, lo + 1, hi)
  }

  /** The first level the search probes whose demand does not exceed the supply. */
  function FirstProbeWithin(demand: seq<nat>, supply: nat, lo: nat): (probe: Option<nat>)
    requires lo <= |demand|
    ensures probe.Some? ==> lo <= probe.value < |demand| && demand[probe.value] <= supply
    decreases |demand| - lo
  {
    if lo == |demand| then None else
      var h := (lo + |demand|) / 2;
      if demand[h] <= supply then Some(h) else FirstProbeWithin(demand, supply, h + 1)
  }

  lemma {:induction false} LowestSkips(demand: seq<nat>, supply: nat, lo: nat, mid: nat, hi: nat)
    requires lo <= mid <= hi <= |demand|
    requires forall i :: lo <= i < mid ==> !Fits(demand, supply, i)
    ensures Lowest(demand, supply, lo, hi) == Lowest(demand, supply, mid, hi)
    decreases mid - lo
  {
    if lo < mid {
      LowestSkips(demand, supply, lo + 1, mid, hi);
    }
  }

  lemma {:induction false} LowestWithin(demand: seq<nat>, supply: nat, lo: nat, h: nat, hi: nat)
    requires lo <= h < hi <= |demand| && Fits(demand, supply, h)
    ensures Lowest(demand, supply, lo, hi)
         == if Lowest(demand, supply, lo, h).Some? then Lowest(demand, supply, lo, h) else Some(h)
    decreases h - lo
  {
    if lo < h {
      LowestWithin(demand, supply, lo + 1, h, hi);
    }
  }

  /** Where every demand is positive, success is monotone and the search finds the lowest fitting level. */
  lemma {:induction false} PositiveDemand(demand: seq<nat>, supply: nat, lo: nat, hi: nat, kept: Option<nat>)
    requires NonIncreasing(demand) && lo <= hi <= |demand|
    requires forall i :: lo <= i < hi ==> demand[i] > 0
    ensures Kept(demand, supply, lo, hi, kept)
         == if Lowest(demand, supply, lo, hi).Some? then Lowest(demand, supply, lo, hi) else kept
    decreases hi - lo
  {
    if lo < hi {
      var h := (lo + hi) / 2;
      if Fits(demand, supply, h) {
        PositiveDemand(demand, supply, lo, h, Some(h));
        LowestWithin(demand, supply, lo, h, hi);
      } else {
        PositiveDemand(demand, supply, h + 1, hi, kept);
        LowestSkips(demand, supply, lo, h + 1, hi);
      }
    }
  }

  lemma {:induction false} NoDemand(demand: seq<nat>, supply: nat, lo: nat, hi: nat, kept: Option<nat>)
    requires lo <= hi <= |demand|
    requires forall i :: lo <= i < hi ==> demand[i] == 0
    ensures Kept(demand, supply, lo, hi, kept) == kept
    decreases hi - lo
  {
    if lo < hi {
      NoDemand(demand, supply, (lo + hi) / 2 + 1, hi, kept);
    }
  }

  /**
    * The search agrees with the linear scan exactly when no level fits at all, or the first probed level
    * whose demand does not exceed the supply has some demand.
    */
  lemma {:induction false} SearchFindsLowestIff(demand: seq<nat>, supply: nat, lo: nat)
    requires NonIncreasing(demand) && lo <= |demand|
    ensures Kept(demand, supply, lo, |demand|, None) == Lowest(demand, supply, lo, |demand|)
       <==> || Lowest(demand, supply, lo, |demand|).None?
            || var probe := FirstProbeWithin(demand, supply, lo); probe.Some? && demand[probe.value] > 0
    decreases |demand| - lo
  {
    var n := |demand|;
    if lo < n {
      var h := (lo + n) / 2;
      if demand[h] > supply {
        SearchFindsLowestIff(demand, supply, h + 1);
        LowestSkips(demand, supply, lo, h + 1, n);
      } else if demand[h] > 0 {
        PositiveDemand(demand, supply, lo, h, Some(h));
        LowestWithin(demand, supply, lo, h, n);
      } else {
        NoDemand(demand, supply, h + 1, n, None);
      }
    }
  }

  /** Whatever the demands, the level the search keeps is one at which the match succeeded. */
  lemma {:induction false} KeptFits(demand: seq<nat>, supply: nat, lo: nat, hi: nat, kept: Option<nat>)
    requires lo <= hi <= |demand|
    requires kept.Some? ==> kept.value < |demand| && Fits(demand, supply, kept.value)
    ensures var k := Kept(demand, supply, lo, hi, kept);
            k.Some? ==> k.value < |demand| && Fits(demand, supply, k.value)
    decreases hi - lo
  {
    if lo < hi {
      var h := (lo + hi) / 2;
      if Fits(demand, supply, h) {
        KeptFits(demand, supply, lo, h, Some(h));
      } else {
        KeptFits(demand, supply, h + 1, hi, kept);
      }
    }
  }

  lemma {:induction false} LowestIsLowest(demand: seq<nat>, supply: nat, lo: nat, hi: nat)
    requires lo <= hi <= |demand|
    ensures var k := Lowest(demand, supply, lo, hi);
            && (k.Some? ==> lo <= k.value < hi && Fits(demand, supply, k.value))
            && (forall i :: lo <= i < (if k.Some? then k.value else hi) ==> !Fits(demand, supply, i))
    decreases hi - lo
  {
    if lo < hi && !Fits(demand, supply, lo) {
      LowestIsLowest(demand, supply, lo + 1, hi);
    }
  }
}

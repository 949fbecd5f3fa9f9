/** Weighted picks, and the odds a reward group has. */
module WeightedPicks {
  function Weight(w: int): nat { if w > 0 then w else 0 }

  // The weights before index i, negative ones counting as nothing.
  function Before(weights: seq<int>, i: nat): nat
    requires i <= |weights|
  {
    if i == 0 then 0 else Before(weights, i - 1) + Weight(weights[i - 1])
  }

  function Total(weights: seq<int>): nat { Before(weights, |weights|) }

  // `roll` is what the uniform distribution over 1..total gives; -1 when there is nothing to pick.
  method WeightedIndex(weights: seq<int>, roll: int) returns (index: int)
    requires Total(weights) > 0 ==> 1 <= roll <= Total(weights)
    ensures Total(weights) == 0 <==> index == -1
    ensures index != -1 ==> 0 <= index < |weights| && Wins(weights, roll, index)
  {
    var total := 0;
    for i := 0 to |weights|
      invariant total == Before(weights, i)
    {
      total := total + if weights[i] > 0 then weights[i] else 0;
    }
    if total <= 0 {
      return -1;
    }
    var rest := roll;
    for i := 0 to |weights|
      invariant rest == roll - Before(weights, i) && rest > 0
    {
      if weights[i] <= 0 {
        continue;
      }
      rest := rest - weights[i];
      if rest <= 0 {
        return i;
      }
    }
    assert false;
    return -1;
  }

  // The rolls of index i are those after all earlier weights and up to its own.
  ghost predicate Wins(weights: seq<int>, roll: int, i: int)
    requires 0 <= i < |weights|
  {
    Before(weights, i) < roll <= Before(weights, i + 1)
  }

  lemma {:induction false} BeforeGrows(weights: seq<int>, i: nat, j: nat)
    requires i <= j <= |weights|
    ensures Before(weights, i) <= Before(weights, j)
    decreases j
  {
    if i < j {
      BeforeGrows(weights, i, j - 1);
    }
  }

  // Exactly one index wins each roll.
  lemma {:induction false} SomeoneWins(weights: seq<int>, roll: int, n: nat) returns (i: nat)
    requires n <= |weights| && 1 <= roll <= Before(weights, n)
    ensures i < n && Wins(weights, roll, i)
    decreases n
  {
    if roll > Before(weights, n - 1) {
      i := n - 1;
    } else {
      i := SomeoneWins(weights, roll, n - 1);
    }
  }

  lemma OnlyOneWins(weights: seq<int>, roll: int, i: nat, j: nat)
    requires i < |weights| && j < |weights| && Wins(weights, roll, i) && Wins(weights, roll, j)
    ensures i == j
  {
    if i < j {
      BeforeGrows(weights, i + 1, j);
    } else if j < i {
      BeforeGrows(weights, j + 1, i);
    }
  }

  ghost function RollsOf(weights: seq<int>, i: nat): set<int>
    requires i < |weights|
  {
    set roll | 1 <= roll <= Total(weights) && Wins(weights, roll, i)
  }

  predicate IsBetween(lo: int, n: int, hi: int) { lo < n <= hi }

  function Range(lo: int, hi: int): set<int> {
    set n | lo < n <= hi && IsBetween(lo, n, hi)
  }

  lemma {:induction false} RangeSize(lo: int, hi: int)
    requires lo <= hi
    ensures |Range(lo, hi)| == hi - lo
    decreases hi - lo
  {
    if lo < hi {
      RangeSize(lo, hi - 1);
      assert Range(lo, hi) == Range(lo, hi - 1) + {hi};
    } else {
      assert Range(lo, hi) == {};
    }
  }

  // Index i wins exactly its weight's number of rolls out of the total.
  lemma ExactOdds(weights: seq<int>, i: nat)
    requires i < |weights|
    ensures |RollsOf(weights, i)| == Weight(weights[i])
  {
    BeforeGrows(weights, i + 1, |weights|);
    var lo, hi := Before(weights, i), Before(weights, i + 1);
    forall roll ensures roll in RollsOf(weights, i) <==> roll in Range(lo, hi) {
      assert IsBetween(lo, roll, hi) <==> Wins(weights, roll, i);
    }
    assert RollsOf(weights, i) == Range(lo, hi);
    RangeSize(Before(weights, i), Before(weights, i + 1));
  }
}

/** Item groups of rewards: built row by row while the table loads, rolled afterwards. */
module RewardGroups {
  import opened Options
  import opened WeightedPicks

  const MAX_RATE := 1_000_000

  type Rate = n: nat | n <= MAX_RATE

  function RateSum(rates: seq<Rate>): nat {
    if rates == [] then 0 else RateSum(rates[..|rates| - 1]) + rates[|rates| - 1]
  }

  // The items' rates, and behind them a slot for what is missing to the full rate.
  function RandomWeights(rates: seq<Rate>): seq<int> {
    seq(|rates|, i requires 0 <= i < |rates| => rates[i] as int)
    + [if RateSum(rates) < MAX_RATE then MAX_RATE - RateSum(rates) else 0]
  }

  // What a roll gives: an item, or nothing when the last slot wins.
  ghost predicate Gives(rates: seq<Rate>, roll: int, item: Option<nat>) {
    match item
    case Some(i) => i < |rates| && Wins(RandomWeights(rates), roll, i)
    case None => Wins(RandomWeights(rates), roll, |rates|)
  }

  lemma {:induction false} SumsAgree(rates: seq<Rate>, n: nat)
    requires n <= |rates|
    ensures Before(RandomWeights(rates), n) == RateSum(rates[..n])
  {
    if n > 0 {
      SumsAgree(rates, n - 1);
      assert rates[..n][..n - 1] == rates[..n - 1];
    }
  }

  lemma TotalRate(rates: seq<Rate>)
    ensures Total(RandomWeights(rates)) == if RateSum(rates) < MAX_RATE then MAX_RATE else RateSum(rates)
  {
    SumsAgree(rates, |rates|);
    assert rates[..|rates|] == rates;
  }

  // In a group whose rates add up to at most the full rate, item i wins exactly rates[i] of a million rolls and nothing
  // is won by exactly the rest.
  lemma GroupOdds(rates: seq<Rate>, i: nat)
    requires i < |rates| && RateSum(rates) <= MAX_RATE
    ensures Total(RandomWeights(rates)) == MAX_RATE
    ensures |RollsOf(RandomWeights(rates), i)| == rates[i]
    ensures |RollsOf(RandomWeights(rates), |rates|)| == MAX_RATE - RateSum(rates)
  {
    TotalRate(rates);
    ExactOdds(RandomWeights(rates), i);
    ExactOdds(RandomWeights(rates), |rates|);
  }

  // Otherwise the loader's validation refuses the group; rolled all the same, nothing would never be won.
  lemma OverfullGroupAlwaysGives(rates: seq<Rate>)
    requires RateSum(rates) >= MAX_RATE
    ensures |RollsOf(RandomWeights(rates), |rates|)| == 0 && Total(RandomWeights(rates)) == RateSum(rates)
  {
    TotalRate(rates);
    ExactOdds(RandomWeights(rates), |rates|);
  }

  class RewardItemGroup {
    var pickWeights: seq<Rate>
    var randomWeights: seq<int>
    var rateSum: nat

    ghost predicate Loading()
      reads this
    {
      rateSum == RateSum(pickWeights)
    }

    ghost predicate Loaded()
      reads this
    {
      Loading() && randomWeights == RandomWeights(pickWeights)
    }

    constructor ()
      ensures Loading() && pickWeights == []
    {
      pickWeights, randomWeights, rateSum := [], [], 0;
    }

    method AddItem(rate: Rate)
      requires Loading()
      modifies this
      ensures Loading() && pickWeights == old(pickWeights) + [rate]
    {
      assert (pickWeights + [rate])[..|pickWeights|] == pickWeights;
      pickWeights := pickWeights + [rate];
      rateSum := rateSum + rate;
    }

    method Finish()
      requires Loading()
      modifies this`randomWeights
      ensures Loaded()
    {
      randomWeights := [];
      for i := 0 to |pickWeights|
        invariant |randomWeights| == i && forall k | 0 <= k < i :: randomWeights[k] == pickWeights[k]
      {
        randomWeights := randomWeights + [pickWeights[i] as int];
      }
      randomWeights := randomWeights + [if rateSum < MAX_RATE then MAX_RATE - rateSum else 0];
    }

    // Rolls a Random reward; the item is one of the group's, by its place.
    method RollRandom(roll: int) returns (item: Option<nat>)
      requires Loaded() && 1 <= roll <= Total(randomWeights)
      ensures Gives(pickWeights, roll, item)
    {
      TotalRate(pickWeights);
      var index := WeightedIndex(randomWeights, roll);
      if 0 <= index < |pickWeights| {
        return Some(index);
      }
      return None;
    }
  }

  // The rows of one group, as the table is read, and then its miss slot.
  method LoadGroup(rates: seq<Rate>) returns (group: RewardItemGroup)
    ensures fresh(group) && group.Loaded() && group.pickWeights == rates
  {
    group := new RewardItemGroup();
    for i := 0 to |rates|
      invariant fresh(group) && group.Loading() && group.pickWeights == rates[..i]
    {
      assert rates[..i + 1] == rates[..i] + [rates[i]];
      group.AddItem(rates[i]);
    }
    assert rates[..|rates|] == rates;
    group.Finish();
  }
}

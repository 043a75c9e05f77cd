/**
 * The server-side weighted prize draw: the fixed prize table and
 * `weightedRandom`, with the uniform draw `Math.random() * totalWeight`
 * replaced by an injected integer `r`. Because every weight is an integer,
 * the entry chosen for a real draw is the one chosen for its floor, so an
 * integer `r` in [0, total) covers every outcome.
 */
module PrizeDraw {

  /** One entry of the prize table: an amount in VND and its integer weight. */
  datatype Prize = Prize(amount: int, weight: int)

  /** LUCKY_CONFIG, in table order. */
  const LuckyConfig: seq<Prize> := [
    Prize(20000, 15),
    Prize(40000, 15),
    Prize(50000, 25),
    Prize(100000, 10),
    Prize(150000, 10),
    Prize(200000, 15),
    Prize(300000, 7),
    Prize(400000, 2),
    Prize(500000, 1)
  ]

  /** The chance, in percent, that the comment beside each entry announces. */
  const AnnouncedPercent: seq<int> := [15, 15, 25, 10, 10, 15, 7, 2, 1]

  predicate PositiveWeights(t: seq<Prize>) {
    forall i :: 0 <= i < |t| ==> t[i].weight > 0
  }

  /** The sum of the first n weights, accumulated left to right as `reduce` does. */
  function Prefix(t: seq<Prize>, n: nat): int
    requires n <= |t|
  {
    if n == 0 then 0 else Prefix(t, n - 1) + t[n - 1].weight
  }

  /** `totalWeight`. */
  function TotalWeight(t: seq<Prize>): int {
    Prefix(t, |t|)
  }

  /** Entry i owns the draws in [Prefix(t, i), Prefix(t, i + 1)). */
  predicate InBucket(t: seq<Prize>, r: int, i: nat) {
    i < |t| && Prefix(t, i) <= r < Prefix(t, i + 1)
  }

  /** Dropping the first entry shifts every prefix sum down by its weight. */
  lemma {:induction false} PrefixTail(t: seq<Prize>, n: nat)
    requires 0 < |t| && n < |t|
    ensures Prefix(t, n + 1) == t[0].weight + Prefix(t[1..], n)
  {
    if n > 0 {
      PrefixTail(t, n - 1);
    }
  }

  /** With positive weights the prefix sums strictly increase. */
  lemma {:induction false} PrefixIncreasing(t: seq<Prize>, i: nat, j: nat)
    requires PositiveWeights(t) && i < j <= |t|
    ensures Prefix(t, i) < Prefix(t, j)
  {
    if i < j - 1 {
      PrefixIncreasing(t, i, j - 1);
    }
  }

  /** The index of the entry whose weight interval contains r. */
  function Bucket(t: seq<Prize>, r: int): (i: nat)
    requires 0 <= r < TotalWeight(t)
    ensures InBucket(t, r, i)
    decreases |t|
  {
    PrefixTail(t, |t| - 1);
    if r < t[0].weight then
      0
    else
      var i := Bucket(t[1..], r - t[0].weight);
      PrefixTail(t, i);
      assert i + 1 < |t|;
      PrefixTail(t, i + 1);
      i + 1
  }

  /** The weight intervals partition [0, total): each draw lies in exactly one of them. */
  lemma BucketUnique(t: seq<Prize>, r: int, i: nat)
    requires PositiveWeights(t) && InBucket(t, r, i)
    ensures 0 <= r < TotalWeight(t) && Bucket(t, r) == i
  {
    if 0 < i { PrefixIncreasing(t, 0, i); }
    if i + 1 < |t| { PrefixIncreasing(t, i + 1, |t|); }
    var b := Bucket(t, r);
    if b < i {
      PrefixIncreasing(t, b + 1, i + 1);
      if b + 1 < i { PrefixIncreasing(t, b + 1, i); }
    } else if i < b {
      if i + 1 < b { PrefixIncreasing(t, i + 1, b); }
    }
  }

  /** The integers in [lo, hi). */
  function Interval(lo: int, hi: int): (s: set<int>)
    ensures forall r :: r in s <==> lo <= r < hi
    ensures lo <= hi ==> |s| == hi - lo
    decreases hi - lo
  {
    if hi <= lo then {} else {lo} + Interval(lo + 1, hi)
  }

  /** The draws in [0, total) that select entry i. */
  function Selecting(t: seq<Prize>, i: nat): set<int> {
    set r | r in Interval(0, TotalWeight(t)) && Bucket(t, r) == i
  }

  /** The draws selecting entry i are exactly its weight interval. */
  lemma SelectingInterval(t: seq<Prize>, i: nat)
    requires PositiveWeights(t) && i < |t|
    ensures Selecting(t, i) == Interval(Prefix(t, i), Prefix(t, i + 1))
  {
    if 0 < i { PrefixIncreasing(t, 0, i); }
    if i + 1 < |t| { PrefixIncreasing(t, i + 1, |t|); }
    forall r | r in Interval(Prefix(t, i), Prefix(t, i + 1))
      ensures r in Selecting(t, i)
    {
      BucketUnique(t, r, i);
    }
  }

  /** Exactly weight_i of the TotalWeight equally likely draws select entry i. */
  lemma BucketCount(t: seq<Prize>, i: nat)
    requires PositiveWeights(t) && i < |t|
    ensures |Selecting(t, i)| == t[i].weight
  {
    PrefixIncreasing(t, i, i + 1);
    SelectingInterval(t, i);
  }

  /** The configured weights: all positive, as the comments announce, and summing to 100. */
  lemma LuckyConfigWeights()
    ensures PositiveWeights(LuckyConfig) && TotalWeight(LuckyConfig) == 100
    ensures forall i :: 0 <= i < |LuckyConfig| ==> LuckyConfig[i].weight == AnnouncedPercent[i]
  {
    assert Prefix(LuckyConfig, 1) == 15;
    assert Prefix(LuckyConfig, 2) == 30;
    assert Prefix(LuckyConfig, 3) == 55;
    assert Prefix(LuckyConfig, 4) == 65;
    assert Prefix(LuckyConfig, 5) == 75;
    assert Prefix(LuckyConfig, 6) == 90;
    assert Prefix(LuckyConfig, 7) == 97;
    assert Prefix(LuckyConfig, 8) == 99;
  }

  /** Each entry of the configured table is drawn with the percentage its comment announces. */
  lemma LuckyConfigOdds()
    ensures forall i :: 0 <= i < |LuckyConfig| ==> |Selecting(LuckyConfig, i)| == AnnouncedPercent[i]
  {
    LuckyConfigWeights();
    forall i | 0 <= i < |LuckyConfig|
      ensures |Selecting(LuckyConfig, i)| == AnnouncedPercent[i]
    {
      BucketCount(LuckyConfig, i);
    }
  }

  /** The amount drawn for r: the owner of r's interval, or the first entry when r is outside [0, total). */
  function Drawn(r: int): (amount: int) {
    if 0 <= r < TotalWeight(LuckyConfig) then LuckyConfig[Bucket(LuckyConfig, r)].amount
    else LuckyConfig[0].amount
  }

  /** Every draw is an amount of the table. */
  lemma DrawnFromTable(r: int)
    ensures exists i :: 0 <= i < |LuckyConfig| && Drawn(r) == LuckyConfig[i].amount
  {
    if 0 <= r < TotalWeight(LuckyConfig) {
      var i := Bucket(LuckyConfig, r);
      assert Drawn(r) == LuckyConfig[i].amount;
    } else {
      assert Drawn(r) == LuckyConfig[0].amount;
    }
  }

  /** `weightedRandom`: walks the table, subtracting each weight from the draw until it falls inside one. */
  method WeightedRandom(r: int) returns (amount: int)
    ensures 0 <= r < TotalWeight(LuckyConfig) ==> amount == LuckyConfig[Bucket(LuckyConfig, r)].amount
    ensures r < 0 || TotalWeight(LuckyConfig) <= r ==> amount == LuckyConfig[0].amount
    ensures amount == Drawn(r)
  {
    LuckyConfigWeights();
    var random := r;
    for k := 0 to |LuckyConfig|
      invariant random == r - Prefix(LuckyConfig, k)
      invariant 0 < k ==> 0 <= random
    {
      var item := LuckyConfig[k];
      if random < item.weight {
        if 0 < k {
          BucketUnique(LuckyConfig, r, k);
        } else if 0 <= r {
          BucketUnique(LuckyConfig, r, 0);
        }
        return item.amount;
      }
      random := random - item.weight;
    }
    return LuckyConfig[0].amount;
  }
}

/** Portfolio composition: percentage shares that add up to exactly 100%, and a symbol's
    estimated tax split over its lots and credited to platforms. */
module Reports {
  import opened Basics
  import opened Rounding
  import opened Keys
  import opened Apportion

  const WHOLE_PPM: int := 1_000_000

  // --- Ranking by remainder, ties by ascending index. ---

  /** Keys of the indices `from..` that `ranked` admits. */
  function IndexKeys(rems: seq<int>, ranked: seq<bool>, from: nat): (r: seq<Key>)
    requires |rems| == |ranked| && from <= |rems|
    ensures forall i ::
      0 <= i < |r| ==> from <= r[i].idx < |rems| && ranked[r[i].idx] && r[i] == Key(-rems[r[i].idx], 0, 0, r[i].idx)
    decreases |rems| - from
  {
    if from == |rems| then []
    else (if ranked[from] then [Key(-rems[from], 0, 0, from)] else []) + IndexKeys(rems, ranked, from + 1)
  }

  lemma {:induction false} IndexKeysAscend(rems: seq<int>, ranked: seq<bool>, from: nat)
    requires |rems| == |ranked| && from <= |rems|
    ensures forall i, j :: 0 <= i < j < |IndexKeys(rems, ranked, from)| ==>
              IndexKeys(rems, ranked, from)[i].idx < IndexKeys(rems, ranked, from)[j].idx
    decreases |rems| - from
  {
    if from < |rems| { IndexKeysAscend(rems, ranked, from + 1); }
  }

  lemma {:induction false} IndexKeysComplete(rems: seq<int>, ranked: seq<bool>, from: nat, p: nat)
    requires |rems| == |ranked| && from <= p < |rems| && ranked[p]
    ensures exists i :: 0 <= i < |IndexKeys(rems, ranked, from)| && IndexKeys(rems, ranked, from)[i].idx == p
    decreases |rems| - from
  {
    var keys := IndexKeys(rems, ranked, from);
    var rest := IndexKeys(rems, ranked, from + 1);
    if from == p {
      assert keys[0].idx == p;
    } else {
      IndexKeysComplete(rems, ranked, from + 1, p);
      var i :| 0 <= i < |rest| && rest[i].idx == p;
      assert keys[|keys| - |rest| + i] == rest[i];
    }
  }

  function RankedOrder(rems: seq<int>, ranked: seq<bool>): (r: seq<nat>)
    requires |rems| == |ranked|
    ensures InRange(r, |rems|)
  {
    var ks := IndexKeys(rems, ranked, 0);
    SortMembers(ks);
    assert forall i :: 0 <= i < |ks| ==> Sort(ks)[i] in ks;
    Positions(Sort(ks))
  }

  /** Collects the admitted indices and sorts them by descending remainder, then index. */
  method RankIndices(rems: seq<int>, ranked: seq<bool>) returns (order: seq<nat>)
    requires |rems| == |ranked|
    ensures order == RankedOrder(rems, ranked)
  {
    var keys: seq<Key> := [];
    for i := 0 to |rems|
      invariant keys + IndexKeys(rems, ranked, i) == IndexKeys(rems, ranked, 0)
    {
      ghost var rest := IndexKeys(rems, ranked, i + 1);
      if ranked[i] {
        assert keys + ([Key(-rems[i], 0, 0, i)] + rest) == (keys + [Key(-rems[i], 0, 0, i)]) + rest;
        keys := keys + [Key(-rems[i], 0, 0, i)];
      } else {
        assert [] + rest == rest;
      }
    }
    assert keys + [] == keys;
    SortMembers(keys);
    var sorted := Sort(keys);
    assert forall i :: 0 <= i < |sorted| ==> sorted[i] in keys;
    order := Positions(sorted);
  }

  lemma RankedOrderRanks(rems: seq<int>, ranked: seq<bool>)
    requires |rems| == |ranked|
    requires forall p :: 0 <= p < |rems| && rems[p] != 0 ==> ranked[p]
    ensures RanksRemainders(RankedOrder(rems, ranked), rems)
    ensures forall p :: p in RankedOrder(rems, ranked) ==> p < |rems| && ranked[p]
  {
    var ks := IndexKeys(rems, ranked, 0);
    IndexKeysAscend(rems, ranked, 0);
    forall p | 0 <= p < |rems| && rems[p] != 0 ensures exists i :: 0 <= i < |ks| && ks[i].idx == p {
      IndexKeysComplete(rems, ranked, 0, p);
    }
    SortedKeysRank(ks, rems);
    SortMembers(ks);
    forall p | p in RankedOrder(rems, ranked) ensures p < |rems| && ranked[p] {
      var i :| 0 <= i < |Sort(ks)| && Sort(ks)[i].idx == p;
      assert Sort(ks)[i] in ks;
    }
  }

  /** An exact quota `num / den` kept, or rounded down or up. */
  predicate QuotaRounded(num: int, den: int, share: int)
    requires den > 0
  {
    (share == num / den || share == num / den + 1) && (num % den == 0 ==> share == num / den)
  }

  lemma {:induction false} RankedShares(nums: seq<int>, den: int, total: int, ranked: seq<bool>)
    requires den > 0 && |nums| == |ranked| && Sum(nums) == total * den
    requires forall i :: 0 <= i < |nums| && nums[i] % den != 0 ==> ranked[i]
    ensures
      var shares := Shares(nums, den, total, RankedOrder(Remainders(nums, den), ranked));
      && Sum(shares) == total
      && forall i :: 0 <= i < |nums| ==> QuotaRounded(nums[i], den, shares[i])
  {
    var order := RankedOrder(Remainders(nums, den), ranked);
    RankedOrderRanks(Remainders(nums, den), ranked);
    LargestRemainder(nums, den, total, order);
  }

  // --- Splitting an amount by weight. ---

  function Clamp(w: int): (r: nat) {
    if w > 0 then w else 0
  }

  function Clamped(weights: seq<int>): (r: seq<int>)
    ensures |r| == |weights|
    ensures forall i :: 0 <= i < |weights| ==> r[i] == Clamp(weights[i])
  {
    seq(|weights|, i requires 0 <= i < |weights| => Clamp(weights[i]))
  }

  function Quotas(total: int, weights: seq<int>): (r: seq<int>)
    ensures |r| == |weights|
    ensures forall i :: 0 <= i < |weights| ==> r[i] == total * Clamp(weights[i])
  {
    seq(|weights|, i requires 0 <= i < |weights| => total * Clamp(weights[i]))
  }

  function All(n: nat): (r: seq<bool>)
    ensures |r| == n && forall i :: 0 <= i < n ==> r[i]
  {
    seq(n, i => true)
  }

  /** `total` over the rows in proportion to their positive weights. */
  function Distribute(total: int, weights: seq<int>): (r: seq<int>)
    ensures |r| == |weights|
  {
    var sumW := Sum(Clamped(weights));
    if sumW <= 0 then seq(|weights|, i => 0)
    else
      var nums := Quotas(total, weights);
      Shares(nums, sumW, total, RankedOrder(Remainders(nums, sumW), All(|weights|)))
  }

  lemma {:induction false} QuotasSum(total: int, weights: seq<int>)
    ensures Sum(Quotas(total, weights)) == total * Sum(Clamped(weights))
  {
    if weights != [] {
      QuotasSum(total, weights[1..]);
      assert Quotas(total, weights)[1..] == Quotas(total, weights[1..]);
      assert Clamped(weights)[1..] == Clamped(weights[1..]);
      Distribute3(total, Clamp(weights[0]), Sum(Clamped(weights[1..])));
    }
  }

  lemma Distribute3(t: int, x: int, y: int)
    ensures t * (x + y) == t * x + t * y
  {
  }

  lemma {:induction false} SumZeros(n: nat)
    ensures Sum(seq(n, i => 0)) == 0
  {
    if n > 0 {
      SumZeros(n - 1);
      assert seq(n, i => 0)[1..] == seq(n - 1, i => 0);
    }
  }

  lemma {:induction false} ClampedPositive(weights: seq<int>)
    ensures 0 <= Sum(Clamped(weights))
    ensures Sum(Clamped(weights)) > 0 <==> exists i :: 0 <= i < |weights| && weights[i] > 0
  {
    if weights != [] {
      ClampedPositive(weights[1..]);
      assert Clamped(weights)[1..] == Clamped(weights[1..]);
      if i :| 0 <= i < |weights[1..]| && weights[1..][i] > 0 { assert weights[i + 1] > 0; }
      if weights[0] <= 0 {
        forall i | 0 <= i < |weights| && weights[i] > 0 ensures weights[1..][i - 1] > 0 {}
      }
    }
  }

  /** The shares add up to the whole amount exactly when some weight is positive (or there
      is nothing to split); otherwise the amount is dropped whole. */
  lemma {:induction false} DistributeExact(total: int, weights: seq<int>)
    ensures Sum(Distribute(total, weights)) == total <==>
      (total == 0 || exists i :: 0 <= i < |weights| && weights[i] > 0)
    ensures Sum(Distribute(total, weights)) == total || Sum(Distribute(total, weights)) == 0
  {
    var sumW := Sum(Clamped(weights));
    ClampedPositive(weights);
    if sumW > 0 {
      DistributeRounds(total, weights);
    } else {
      SumZeros(|weights|);
    }
  }

  lemma DistributeRounds(total: int, weights: seq<int>)
    requires Sum(Clamped(weights)) > 0
    ensures Sum(Distribute(total, weights)) == total
    ensures forall i ::
      0 <= i < |weights| ==>
        QuotaRounded(Quotas(total, weights)[i], Sum(Clamped(weights)), Distribute(total, weights)[i])
  {
    QuotasSum(total, weights);
    RankedShares(Quotas(total, weights), Sum(Clamped(weights)), total, All(|weights|));
  }

  /** Each share is its exact quota rounded down or up, and a row without positive weight
      bears nothing. */
  lemma {:induction false} DistributeShares(total: int, weights: seq<int>, i: nat)
    requires Sum(Clamped(weights)) > 0 && i < |weights|
    ensures
      var s := Distribute(total, weights)[i];
      var quota := total * Clamp(weights[i]) / Sum(Clamped(weights));
      && (s == quota || s == quota + 1)
      && (weights[i] <= 0 ==> s == 0)
  {
    DistributeRounds(total, weights);
    assert QuotaRounded(Quotas(total, weights)[i], Sum(Clamped(weights)), Distribute(total, weights)[i]);
    if weights[i] <= 0 { ZeroQuota(Sum(Clamped(weights))); }
  }

  /** Row `i` has the larger remainder of its exact quota, or the same one and comes first. */
  predicate QuotaFirst(nums: seq<int>, den: int, i: nat, j: nat)
    requires den > 0 && i < |nums| && j < |nums|
  {
    nums[i] % den > nums[j] % den || (nums[i] % den == nums[j] % den && i < j)
  }

  /** Of the ranked rows one whose share is rounded up is behind none whose share is not. */
  lemma {:induction false} RankedInOrder(nums: seq<int>, den: int, total: int, ranked: seq<bool>, i: nat, j: nat)
    requires den > 0 && |nums| == |ranked| && Sum(nums) == total * den
    requires forall p :: 0 <= p < |nums| && nums[p] % den != 0 ==> ranked[p]
    requires i < |nums| && j < |nums| && ranked[i] && ranked[j] && QuotaFirst(nums, den, i, j)
    ensures
      var shares := Shares(nums, den, total, RankedOrder(Remainders(nums, den), ranked));
      shares[j] > nums[j] / den ==> shares[i] > nums[i] / den
  {
    var rems := Remainders(nums, den);
    var order, units := RankedOrder(rems, ranked), Residual(nums, den, total);
    assert 0 <= units <= |order| && Distinct(order) by {
      RankedOrderRanks(rems, ranked);
      ResidualBounds(nums, den, total, order);
    }
    AwardEffect(Floors(nums, den), order, units);
    RankedFirst(rems, ranked, units, i, j);
  }

  lemma RankedDistinct(rems: seq<int>, ranked: seq<bool>)
    requires |rems| == |ranked|
    ensures DistinctKeys(IndexKeys(rems, ranked, 0))
  {
    IndexKeysAscend(rems, ranked, 0);
  }

  lemma RankedFirst(rems: seq<int>, ranked: seq<bool>, units: nat, i: nat, j: nat)
    requires |rems| == |ranked| && units <= |RankedOrder(rems, ranked)|
    requires i < |rems| && j < |rems| && ranked[i] && ranked[j]
    requires rems[i] > rems[j] || (rems[i] == rems[j] && i < j)
    ensures j in RankedOrder(rems, ranked)[..units] ==> i in RankedOrder(rems, ranked)[..units]
  {
    var keys := IndexKeys(rems, ranked, 0);
    IndexKeysComplete(rems, ranked, 0, i);
    IndexKeysComplete(rems, ranked, 0, j);
    var x :| 0 <= x < |keys| && keys[x].idx == i;
    var y :| 0 <= y < |keys| && keys[y].idx == j;
    RankedDistinct(rems, ranked);
    SortedFirst(keys, units, x, y);
  }

  /** A row whose share is rounded up is behind none whose share is not. */
  lemma {:induction false} DistributeInOrder(total: int, weights: seq<int>, i: nat, j: nat)
    requires Sum(Clamped(weights)) > 0 && i < |weights| && j < |weights|
    requires QuotaFirst(Quotas(total, weights), Sum(Clamped(weights)), i, j)
    ensures
      var den, nums, shares := Sum(Clamped(weights)), Quotas(total, weights), Distribute(total, weights);
      shares[j] > nums[j] / den ==> shares[i] > nums[i] / den
  {
    QuotasSum(total, weights);
    RankedInOrder(Quotas(total, weights), Sum(Clamped(weights)), total, All(|weights|), i, j);
  }

  lemma ZeroQuota(den: int)
    requires den > 0
    ensures 0 / den == 0 && 0 % den == 0
  {
  }

  /** One more quota floored. */
  lemma FloorStep(nums: seq<int>, den: int, i: nat)
    requires den > 0 && i < |nums|
    ensures Floors(nums[..i + 1], den) == Floors(nums[..i], den) + [nums[i] / den]
    ensures Remainders(nums[..i + 1], den) == Remainders(nums[..i], den) + [nums[i] % den]
    ensures Sum(Floors(nums[..i + 1], den)) == Sum(Floors(nums[..i], den)) + nums[i] / den
  {
    var f := Floors(nums[..i], den) + [nums[i] / den];
    assert f[..i] == Floors(nums[..i], den);
    SumLast(f);
  }

  method FloorQuotas(total: int, weights: seq<int>, sumW: int) returns (floors: seq<int>, rems: seq<int>, sumFloor: int)
    requires sumW > 0
    ensures floors == Floors(Quotas(total, weights), sumW) && rems == Remainders(Quotas(total, weights), sumW)
    ensures sumFloor == Sum(floors)
  {
    floors, rems, sumFloor := [], [], 0;
    ghost var nums := Quotas(total, weights);
    var i := 0;
    while i < |weights|
      invariant 0 <= i <= |weights|
      invariant floors == Floors(nums[..i], sumW) && rems == Remainders(nums[..i], sumW)
      invariant sumFloor == Sum(floors)
    {
      var num := total * Clamp(weights[i]);
      FloorStep(nums, sumW, i);
      floors, rems, sumFloor := floors + [num / sumW], rems + [num % sumW], sumFloor + num / sumW;
      i := i + 1;
    }
    assert nums[..i] == nums;
  }

  method DistributeLargestRemainder(total: int, weights: seq<int>) returns (shares: seq<int>)
    ensures shares == Distribute(total, weights)
  {
    var sumW := SumOfPositive(weights);
    if sumW <= 0 || |weights| == 0 { return seq(|weights|, i => 0); }
    var floors, rems, sumFloor := FloorQuotas(total, weights, sumW);
    var residual := Clamp(total - sumFloor);
    var order := RankIndices(rems, All(|weights|));
    AwardNothing(floors, order, total - sumFloor);
    shares := AwardFirst(floors, order, residual);
  }

  lemma AwardNothing(shares: seq<int>, order: seq<nat>, units: int)
    requires InRange(order, |shares|)
    ensures Award(shares, order, units) == Award(shares, order, Clamp(units))
  {
  }

  method SumOfPositive(weights: seq<int>) returns (sum: int)
    ensures sum == Sum(Clamped(weights))
  {
    sum := 0;
    var i := 0;
    assert Clamped(weights)[..0] == [];
    while i < |weights|
      invariant 0 <= i <= |weights|
      invariant sum == Sum(Clamped(weights)[..i])
    {
      SumLast(Clamped(weights)[..i + 1]);
      assert Clamped(weights)[..i + 1][..i] == Clamped(weights)[..i];
      sum := sum + Clamp(weights[i]);
      i := i + 1;
    }
    assert Clamped(weights)[..i] == Clamped(weights);
  }

  method AwardFirst(floors: seq<int>, order: seq<nat>, residual: nat) returns (shares: seq<int>)
    requires InRange(order, |floors|)
    ensures shares == Award(floors, order, residual)
  {
    shares := floors;
    var k := 0;
    assert order[0..] == order;
    while k < |order| && k < residual
      invariant 0 <= k <= |order| && k <= residual
      invariant |shares| == |floors|
      invariant Award(shares, order[k..], residual - k) == Award(floors, order, residual)
    {
      assert order[k..][0] == order[k] && order[k..][1..] == order[k + 1..];
      shares := shares[order[k] := shares[order[k]] + 1];
      k := k + 1;
    }
  }

  // --- Percentage shares of the priced rows. ---

  function Priced(values: seq<Option<int>>): (r: seq<bool>)
    ensures |r| == |values| && forall i :: 0 <= i < |values| ==> r[i] == values[i].Some?
  {
    seq(|values|, i requires 0 <= i < |values| => values[i].Some?)
  }

  function ValueOr0(v: Option<int>): int {
    match v case None => 0 case Some(x) => x
  }

  function PricedValues(values: seq<Option<int>>): (r: seq<int>)
    ensures |r| == |values| && forall i :: 0 <= i < |values| ==> r[i] == ValueOr0(values[i])
  {
    seq(|values|, i requires 0 <= i < |values| => ValueOr0(values[i]))
  }

  /** Market value over the priced rows. */
  function PricedTotal(values: seq<Option<int>>): int {
    Sum(PricedValues(values))
  }

  function PpmQuotas(values: seq<Option<int>>): (r: seq<int>)
    ensures |r| == |values| && forall i :: 0 <= i < |values| ==> r[i] == ValueOr0(values[i]) * WHOLE_PPM
  {
    seq(|values|, i requires 0 <= i < |values| => ValueOr0(values[i]) * WHOLE_PPM)
  }

  /** Each row's units, an unpriced row's being meaningless. */
  function PpmUnits(values: seq<Option<int>>, total: int): (r: seq<int>)
    requires total > 0
    ensures |r| == |values|
  {
    var nums := PpmQuotas(values);
    Shares(nums, total, WHOLE_PPM, RankedOrder(Remainders(nums, total), Priced(values)))
  }

  function SharesPpm(values: seq<Option<int>>, total: int): (r: seq<Option<int>>)
    ensures |r| == |values|
  {
    if total <= 0 then seq(|values|, i => None)
    else
      var units := PpmUnits(values, total);
      seq(|values|, i requires 0 <= i < |values| => if values[i].Some? then Some(units[i]) else None)
  }

  lemma {:induction false} PpmQuotasSum(values: seq<Option<int>>)
    ensures Sum(PpmQuotas(values)) == WHOLE_PPM * PricedTotal(values)
  {
    if values != [] {
      PpmQuotasSum(values[1..]);
      assert PpmQuotas(values)[1..] == PpmQuotas(values[1..]);
      assert PricedValues(values)[1..] == PricedValues(values[1..]);
    }
  }

  lemma PpmUnitsExact(values: seq<Option<int>>, total: int)
    requires total == PricedTotal(values) && total > 0
    ensures Sum(PpmUnits(values, total)) == WHOLE_PPM
    ensures forall i :: 0 <= i < |values| ==> QuotaRounded(PpmQuotas(values)[i], total, PpmUnits(values, total)[i])
  {
    PpmQuotasSum(values);
    RankedShares(PpmQuotas(values), total, WHOLE_PPM, Priced(values));
  }

  lemma RowUnits(quota: int, den: int, share: int)
    requires den > 0 && QuotaRounded(quota, den, share)
    ensures share == quota / den || share == quota / den + 1
    ensures quota == 0 ==> share == 0
  {
    ZeroQuota(den);
  }

  lemma {:induction false} SharesByRow(values: seq<Option<int>>, total: int, i: nat)
    requires total == PricedTotal(values) && total > 0 && i < |values|
    ensures ValueOr0(SharesPpm(values, total)[i]) == PpmUnits(values, total)[i]
    ensures values[i].Some? ==> SharesPpm(values, total)[i].Some?
    ensures
      var quota := PpmQuotas(values)[i] / total;
      PpmUnits(values, total)[i] == quota || PpmUnits(values, total)[i] == quota + 1
  {
    PpmUnitsExact(values, total);
    RowUnits(PpmQuotas(values)[i], total, PpmUnits(values, total)[i]);
  }

  /** With a positive priced total, the priced rows and no others get a share, the shares
      add up to exactly 100%, and each is its exact share rounded down or up. */
  lemma {:induction false} SharesSumToWhole(values: seq<Option<int>>, total: int)
    requires total == PricedTotal(values) && total > 0
    ensures Sum(PricedValues(SharesPpm(values, total))) == WHOLE_PPM
    ensures forall i :: 0 <= i < |values| && values[i].Some? ==>
              var s := SharesPpm(values, total)[i];
              var quota := values[i].value * WHOLE_PPM / total;
              s.Some? && (s.value == quota || s.value == quota + 1)
  {
    assert Sum(PpmUnits(values, total)) == WHOLE_PPM by { PpmUnitsExact(values, total); }
    assert PricedValues(SharesPpm(values, total)) == PpmUnits(values, total) by {
      forall i | 0 <= i < |values|
        ensures ValueOr0(SharesPpm(values, total)[i]) == PpmUnits(values, total)[i]
      {
        SharesByRow(values, total, i);
      }
    }
    forall i | 0 <= i < |values| && values[i].Some?
      ensures
        var s := SharesPpm(values, total)[i];
        s.Some?
          && (s.value == values[i].value * WHOLE_PPM / total || s.value == values[i].value * WHOLE_PPM / total + 1)
    {
      SharesByRow(values, total, i);
    }
  }

  lemma UnitsInOrder(values: seq<Option<int>>, total: int, i: nat, j: nat)
    requires total == PricedTotal(values) && total > 0 && i < |values| && j < |values|
    requires values[i].Some? && values[j].Some? && QuotaFirst(PpmQuotas(values), total, i, j)
    ensures PpmUnits(values, total)[j] > PpmQuotas(values)[j] / total ==>
      PpmUnits(values, total)[i] > PpmQuotas(values)[i] / total
  {
    PpmQuotasSum(values);
    RankedInOrder(PpmQuotas(values), total, WHOLE_PPM, Priced(values), i, j);
  }

  /** Of the priced rows one rounded up is behind none that is not: the larger remainder of the
      exact share comes first, and of equal ones the earlier row. */
  lemma {:induction false} SharesInOrder(values: seq<Option<int>>, total: int, i: nat, j: nat)
    requires total == PricedTotal(values) && total > 0 && i < |values| && j < |values|
    requires values[i].Some? && values[j].Some? && QuotaFirst(PpmQuotas(values), total, i, j)
    ensures SharesPpm(values, total)[i].Some? && SharesPpm(values, total)[j].Some?
    ensures SharesPpm(values, total)[j].value > PpmQuotas(values)[j] / total ==>
      SharesPpm(values, total)[i].value > PpmQuotas(values)[i] / total
  {
    UnitsInOrder(values, total, i, j);
  }

  lemma {:induction false} NothingShared(values: seq<Option<int>>, n: nat)
    requires values == seq(n, i => None)
    ensures Sum(PricedValues(values)) == 0
    decreases n
  {
    if n > 0 {
      assert values[1..] == seq(n - 1, i => None);
      NothingShared(values[1..], n - 1);
      assert PricedValues(values)[1..] == PricedValues(values[1..]);
    }
  }

  /** The rows a composition shares out, against the total it adds up over them: all of the
      portfolio is shared, and by the priced rows only, if and only if that total is positive;
      otherwise nothing is, by anyone. */
  lemma {:induction false} SharesApplicable(values: seq<Option<int>>)
    ensures
      var shares := SharesPpm(values, PricedTotal(values));
      && Sum(PricedValues(shares)) == (if PricedTotal(values) > 0 then WHOLE_PPM else 0)
      && forall i :: 0 <= i < |values| ==> (shares[i].Some? <==> PricedTotal(values) > 0 && values[i].Some?)
  {
    if PricedTotal(values) > 0 {
      SharesSumToWhole(values, PricedTotal(values));
    } else {
      NothingShared(SharesPpm(values, PricedTotal(values)), |values|);
    }
  }

  /** A priced row's remainder; a sentinel that is never ranked for any other. */
  function PpmRemainder(v: Option<int>, total: int): int
    requires total > 0
  {
    match v case None => -1 case Some(mv) => mv * WHOLE_PPM % total
  }

  method FloorRow(v: Option<int>, total: int) returns (floor: int, rem: int)
    requires total > 0
    ensures floor == ValueOr0(v) * WHOLE_PPM / total && rem == PpmRemainder(v, total)
  {
    match v
    case None =>
      ZeroQuota(total);
      floor, rem := 0, -1;
    case Some(mv) =>
      floor, rem := mv * WHOLE_PPM / total, mv * WHOLE_PPM % total;
  }

  /** Every row's remainder or sentinel. */
  function PpmRemainders(values: seq<Option<int>>, total: int): (r: seq<int>)
    requires total > 0
    ensures |r| == |values| && forall j :: 0 <= j < |values| ==> r[j] == PpmRemainder(values[j], total)
  {
    seq(|values|, j requires 0 <= j < |values| => PpmRemainder(values[j], total))
  }

  method FloorPriced(values: seq<Option<int>>, total: int) returns (floors: seq<int>, rems: seq<int>, sumFloor: int)
    requires total > 0
    ensures floors == Floors(PpmQuotas(values), total) && rems == PpmRemainders(values, total)
    ensures sumFloor == Sum(floors)
  {
    floors, rems, sumFloor := [], [], 0;
    ghost var nums, sentinels := PpmQuotas(values), PpmRemainders(values, total);
    for i := 0 to |values|
      invariant floors == Floors(nums[..i], total) && rems == sentinels[..i]
      invariant sumFloor == Sum(floors)
    {
      FloorStep(nums, total, i);
      var f, m := FloorRow(values[i], total);
      floors, rems, sumFloor := floors + [f], rems + [m], sumFloor + f;
    }
    assert nums[..|values|] == nums && sentinels[..|values|] == sentinels;
  }

  method ShareRows(values: seq<Option<int>>, total: int) returns (shares: seq<Option<int>>)
    ensures shares == SharesPpm(values, total)
  {
    if total <= 0 { return seq(|values|, i => None); }
    var floors, rems, sumFloor := FloorPriced(values, total);
    var residual := Clamp(WHOLE_PPM - sumFloor);
    var order := RankIndices(rems, Priced(values));
    PricedOrder(values, total, rems);
    AwardNothing(floors, order, WHOLE_PPM - sumFloor);
    var awarded := AwardFirst(floors, order, residual);
    assert awarded == PpmUnits(values, total);
    shares := seq(|values|, i requires 0 <= i < |values| => if values[i].Some? then Some(awarded[i]) else None);
  }

  lemma PricedOrder(values: seq<Option<int>>, total: int, rems: seq<int>)
    requires total > 0 && rems == PpmRemainders(values, total)
    ensures RankedOrder(rems, Priced(values)) == RankedOrder(Remainders(PpmQuotas(values), total), Priced(values))
  {
    SentinelNeverRanked(rems, Remainders(PpmQuotas(values), total), Priced(values), 0);
  }

  /** What stands in for an unpriced row's remainder does not matter. */
  lemma {:induction false} SentinelNeverRanked(a: seq<int>, b: seq<int>, ranked: seq<bool>, from: nat)
    requires |a| == |b| == |ranked| && from <= |a|
    requires forall i :: 0 <= i < |a| && ranked[i] ==> a[i] == b[i]
    ensures IndexKeys(a, ranked, from) == IndexKeys(b, ranked, from)
    decreases |a| - from
  {
    if from < |a| { SentinelNeverRanked(a, b, ranked, from + 1); }
  }

  // --- Net of tax, lot by lot and platform by platform. ---

  datatype LotShare = LotShare(platform: string, pretax: int)

  /** A priced symbol: its exact estimated tax and its open lots. */
  datatype SymbolLots = SymbolLots(estimatedTax: int, lots: seq<LotShare>)

  function Pretaxes(lots: seq<LotShare>): (r: seq<int>)
    ensures |r| == |lots| && forall i :: 0 <= i < |lots| ==> r[i] == lots[i].pretax
  {
    seq(|lots|, i requires 0 <= i < |lots| => lots[i].pretax)
  }

  function TaxShares(g: SymbolLots): (r: seq<int>)
    ensures |r| == |g.lots|
  {
    Distribute(g.estimatedTax, Clamped(Pretaxes(g.lots)))
  }

  /** What the winning lots gained. */
  function Gained(lots: seq<LotShare>): int {
    if lots == [] then 0 else (if lots[0].pretax > 0 then lots[0].pretax else 0) + Gained(lots[1..])
  }

  /** The lot's exact share of the tax, in parts of a cent of which `Gained` make one. */
  function ExactCharge(g: SymbolLots, i: nat): int
    requires i < |g.lots|
  {
    g.estimatedTax * if g.lots[i].pretax > 0 then g.lots[i].pretax else 0
  }

  /** Each lot of a symbol bears its exact share of the tax, rounded down or up: in all the whole
      tax, losing lots nothing, and the odd cents go to the largest remainders, earlier lots first
      on a tie. Without a winning lot nobody bears anything. */
  ghost predicate FairlyCharged(g: SymbolLots, charges: seq<int>) {
    && |charges| == |g.lots|
    && (forall i :: 0 <= i < |g.lots| && g.lots[i].pretax <= 0 ==> charges[i] == 0)
    && (Gained(g.lots) > 0 ==>
          && Sum(charges) == g.estimatedTax
          && (forall i :: 0 <= i < |g.lots| ==> FloorOrNext(charges[i], ExactCharge(g, i), Gained(g.lots)))
          && (forall i, j :: 0 <= i < |g.lots| && 0 <= j < |g.lots| ==> OddCentEarned(g, charges, i, j)))
  }

  predicate FloorOrNext(charge: int, parts: int, whole: int)
    requires whole > 0
  {
    charge == parts / whole || (charge == parts / whole + 1 && parts % whole > 0)
  }

  /** If `j` bears an odd cent then so does `i`, unless its remainder is smaller or it is later. */
  predicate OddCentEarned(g: SymbolLots, charges: seq<int>, i: nat, j: nat)
    requires |charges| == |g.lots| && i < |g.lots| && j < |g.lots| && Gained(g.lots) > 0
  {
    var x, y, whole := ExactCharge(g, i), ExactCharge(g, j), Gained(g.lots);
    charges[j] > y / whole && (x % whole > y % whole || (x % whole == y % whole && i < j)) ==> charges[i] > x / whole
  }

  /** Of two lots the one with the larger gain bears at least as much, give or take a cent. */
  lemma {:induction false} LargerGainBearsMore(g: SymbolLots, charges: seq<int>, i: nat, j: nat)
    requires FairlyCharged(g, charges) && g.estimatedTax >= 0
    requires i < |g.lots| && j < |g.lots| && g.lots[i].pretax >= g.lots[j].pretax
    ensures charges[i] >= charges[j] - 1
  {
    if g.lots[j].pretax > 0 {
      GainedAtLeast(g.lots, j);
      ProductOrder(g.estimatedTax, g.lots[j].pretax, g.lots[i].pretax);
      QuotientOrder(ExactCharge(g, j), ExactCharge(g, i), Gained(g.lots));
    } else if g.lots[i].pretax > 0 {
      GainedAtLeast(g.lots, i);
      ProductOrder(g.estimatedTax, 0, g.lots[i].pretax);
      QuotientOrder(0, ExactCharge(g, i), Gained(g.lots));
    }
  }

  lemma ProductOrder(t: nat, x: int, y: int)
    requires x <= y
    ensures t * x <= t * y
  {
    Distribute3(t, x, y - x);
    NonNegativeProduct(t, y - x);
  }

  lemma QuotientOrder(x: int, y: int, den: int)
    requires den > 0 && x <= y
    ensures x / den <= y / den
  {
    DivMod(x, den);
    DivMod(y, den);
    if y / den < x / den { MulOrder(y / den, x / den, den); }
  }

  lemma {:induction false} GainedAtLeast(lots: seq<LotShare>, i: nat)
    requires i < |lots|
    ensures 0 <= Gained(lots) && lots[i].pretax <= Gained(lots)
    decreases |lots|
  {
    GainedNonNegative(lots[1..]);
    if i > 0 { GainedAtLeast(lots[1..], i - 1); }
  }

  lemma {:induction false} GainedNonNegative(lots: seq<LotShare>)
    ensures 0 <= Gained(lots)
  {
    if lots != [] { GainedNonNegative(lots[1..]); }
  }

  lemma {:induction false} GainedIsWeight(lots: seq<LotShare>)
    ensures Sum(Clamped(Pretaxes(lots))) == Gained(lots)
  {
    if lots != [] {
      GainedIsWeight(lots[1..]);
      assert Pretaxes(lots)[1..] == Pretaxes(lots[1..]);
      assert Clamped(Pretaxes(lots))[1..] == Clamped(Pretaxes(lots[1..]));
    }
  }

  lemma TaxQuotas(g: SymbolLots)
    ensures
      var w := Clamped(Pretaxes(g.lots));
      && Sum(Clamped(w)) == Gained(g.lots)
      && forall i :: 0 <= i < |g.lots| ==> Quotas(g.estimatedTax, w)[i] == ExactCharge(g, i)
  {
    var w := Clamped(Pretaxes(g.lots));
    assert Clamped(w) == w;
    GainedIsWeight(g.lots);
  }

  lemma TaxRounds(g: SymbolLots, i: nat)
    requires i < |g.lots| && Gained(g.lots) > 0
    ensures Sum(TaxShares(g)) == g.estimatedTax
    ensures FloorOrNext(TaxShares(g)[i], ExactCharge(g, i), Gained(g.lots))
    ensures g.lots[i].pretax <= 0 ==> TaxShares(g)[i] == 0
  {
    var w := Clamped(Pretaxes(g.lots));
    TaxQuotas(g);
    DistributeRounds(g.estimatedTax, w);
    assert QuotaRounded(Quotas(g.estimatedTax, w)[i], Gained(g.lots), Distribute(g.estimatedTax, w)[i]);
    ZeroQuota(Gained(g.lots));
  }

  lemma TaxInOrder(g: SymbolLots, i: nat, j: nat)
    requires i < |g.lots| && j < |g.lots| && Gained(g.lots) > 0
    ensures OddCentEarned(g, TaxShares(g), i, j)
  {
    var w := Clamped(Pretaxes(g.lots));
    TaxQuotas(g);
    if QuotaFirst(Quotas(g.estimatedTax, w), Gained(g.lots), i, j) { DistributeInOrder(g.estimatedTax, w, i, j); }
  }

  lemma TaxFairlyCharged(g: SymbolLots)
    ensures FairlyCharged(g, TaxShares(g))
  {
    TaxQuotas(g);
    GainedNonNegative(g.lots);
    if Gained(g.lots) > 0 {
      forall i | 0 <= i < |g.lots| ensures
        Sum(TaxShares(g)) == g.estimatedTax && FloorOrNext(TaxShares(g)[i], ExactCharge(g, i), Gained(g.lots))
        && (g.lots[i].pretax <= 0 ==> TaxShares(g)[i] == 0)
      {
        TaxRounds(g, i);
      }
      forall i, j | 0 <= i < |g.lots| && 0 <= j < |g.lots| ensures OddCentEarned(g, TaxShares(g), i, j) {
        TaxInOrder(g, i, j);
      }
      assert g.lots != [];
    }
  }

  /** Net of tax the lots contribute to platform `p`. */
  function NetFrom(lots: seq<LotShare>, shares: seq<int>, p: string): int
    requires |shares| == |lots|
  {
    if lots == [] then 0
    else (if lots[0].platform == p then lots[0].pretax - shares[0] else 0) + NetFrom(lots[1..], shares[1..], p)
  }

  function NetOn(groups: seq<SymbolLots>, p: string): int {
    if groups == [] then 0 else NetFrom(groups[0].lots, TaxShares(groups[0]), p) + NetOn(groups[1..], p)
  }

  method CreditLots(plat: map<string, int>, lots: seq<LotShare>, shares: seq<int>) returns (net: map<string, int>)
    requires |shares| == |lots|
    ensures net.Keys == plat.Keys
    ensures forall p :: p in plat ==> net[p] == plat[p] + NetFrom(lots, shares, p)
  {
    net := plat;
    var i := 0;
    while i < |lots|
      invariant 0 <= i <= |lots|
      invariant net.Keys == plat.Keys
      invariant forall p ::
        p in plat ==> net[p] + NetFrom(lots[i..], shares[i..], p) == plat[p] + NetFrom(lots, shares, p)
    {
      assert lots[i..][1..] == lots[i + 1..] && shares[i..][1..] == shares[i + 1..];
      if lots[i].platform in net {
        net := net[lots[i].platform := net[lots[i].platform] + lots[i].pretax - shares[i]];
      }
      i := i + 1;
    }
  }

  /** What each lot of the symbol leaves after its charge, if it is on the platform. */
  function LeftOn(lots: seq<LotShare>, charges: seq<int>, p: string): (r: seq<int>)
    requires |charges| == |lots|
    ensures |r| == |lots|
    ensures forall i :: 0 <= i < |r| ==> r[i] == if lots[i].platform == p then lots[i].pretax - charges[i] else 0
  {
    seq(|lots|, i requires 0 <= i < |lots| => if lots[i].platform == p then lots[i].pretax - charges[i] else 0)
  }

  /** Charges for the lots of every group, each group's fair. */
  ghost predicate AllFairlyCharged(groups: seq<SymbolLots>, charges: seq<seq<int>>) {
    |charges| == |groups| && forall i :: 0 <= i < |groups| ==> FairlyCharged(groups[i], charges[i])
  }

  /** What the platform's lots leave over all symbols. */
  function AllLeftOn(groups: seq<SymbolLots>, charges: seq<seq<int>>, p: string): int
    requires |charges| == |groups| && forall i :: 0 <= i < |groups| ==> |charges[i]| == |groups[i].lots|
  {
    if groups == [] then 0
    else Sum(LeftOn(groups[0].lots, charges[0], p)) + AllLeftOn(groups[1..], charges[1..], p)
  }

  lemma {:induction false} NetIsLeft(lots: seq<LotShare>, charges: seq<int>, p: string)
    requires |charges| == |lots|
    ensures NetFrom(lots, charges, p) == Sum(LeftOn(lots, charges, p))
  {
    if lots != [] {
      NetIsLeft(lots[1..], charges[1..], p);
      assert LeftOn(lots, charges, p)[1..] == LeftOn(lots[1..], charges[1..], p);
    }
  }

  function TaxCharges(groups: seq<SymbolLots>): (r: seq<seq<int>>)
    ensures |r| == |groups| && forall i :: 0 <= i < |groups| ==> r[i] == TaxShares(groups[i])
  {
    seq(|groups|, i requires 0 <= i < |groups| => TaxShares(groups[i]))
  }

  lemma {:induction false} NetIsAllLeft(groups: seq<SymbolLots>, p: string)
    ensures AllLeftOn(groups, TaxCharges(groups), p) == NetOn(groups, p)
  {
    if groups != [] {
      NetIsAllLeft(groups[1..], p);
      assert TaxCharges(groups)[1..] == TaxCharges(groups[1..]);
      NetIsLeft(groups[0].lots, TaxShares(groups[0]), p);
    }
  }

  /** The second pass of the composition: every symbol's tax is charged fairly to its lots, and
      each platform is credited with what its lots leave. */
  method CreditPlatforms(plat: map<string, int>, groups: seq<SymbolLots>)
    returns (net: map<string, int>, ghost charges: seq<seq<int>>)
    ensures net.Keys == plat.Keys
    ensures forall p :: p in plat ==> net[p] == plat[p] + NetOn(groups, p)
    ensures AllFairlyCharged(groups, charges)
    ensures forall p :: p in plat ==> net[p] == plat[p] + AllLeftOn(groups, charges, p)
  {
    net := plat;
    var i := 0;
    while i < |groups|
      invariant 0 <= i <= |groups|
      invariant net.Keys == plat.Keys
      invariant forall p :: p in plat ==> net[p] + NetOn(groups[i..], p) == plat[p] + NetOn(groups, p)
    {
      assert groups[i..][1..] == groups[i + 1..];
      var g := groups[i];
      var shares := DistributeLargestRemainder(g.estimatedTax, Clamped(Pretaxes(g.lots)));
      net := CreditLots(net, g.lots, shares);
      i := i + 1;
    }
    charges := TaxCharges(groups);
    forall k | 0 <= k < |groups| ensures FairlyCharged(groups[k], charges[k]) { TaxFairlyCharged(groups[k]); }
    forall p | p in plat ensures AllLeftOn(groups, charges, p) == NetOn(groups, p) { NetIsAllLeft(groups, p); }
  }

  // --- Platforms together against symbols together. ---

  function OverPlatforms(ps: seq<string>, f: string -> int): int {
    if ps == [] then 0 else f(ps[0]) + OverPlatforms(ps[1..], f)
  }

  ghost predicate DistinctNames(ps: seq<string>) {
    forall i, j :: 0 <= i < j < |ps| ==> ps[i] != ps[j]
  }

  function NetFromOn(lots: seq<LotShare>, shares: seq<int>): string -> int
    requires |shares| == |lots|
  {
    (p: string) => NetFrom(lots, shares, p)
  }

  function NetOnOf(groups: seq<SymbolLots>): string -> int {
    (p: string) => NetOn(groups, p)
  }

  function OneLotOn(l: LotShare, share: int): string -> int {
    (p: string) => if l.platform == p then l.pretax - share else 0
  }

  lemma {:induction false} OverSplits(ps: seq<string>, f: string -> int, g: string -> int, h: string -> int)
    requires forall p :: f(p) == g(p) + h(p)
    ensures OverPlatforms(ps, f) == OverPlatforms(ps, g) + OverPlatforms(ps, h)
  {
    if ps != [] { OverSplits(ps[1..], f, g, h); }
  }

  lemma {:induction false} OverNothing(ps: seq<string>, f: string -> int)
    requires forall i :: 0 <= i < |ps| ==> f(ps[i]) == 0
    ensures OverPlatforms(ps, f) == 0
  {
    if ps != [] {
      assert forall i :: 0 <= i < |ps[1..]| ==> ps[1..][i] == ps[i + 1];
      OverNothing(ps[1..], f);
    }
  }

  lemma {:induction false} OneLotOnce(ps: seq<string>, l: LotShare, share: int)
    requires DistinctNames(ps) && l.platform in ps
    ensures OverPlatforms(ps, OneLotOn(l, share)) == l.pretax - share
  {
    var rest := ps[1..];
    assert forall i :: 0 <= i < |rest| ==> rest[i] == ps[i + 1];
    if ps[0] == l.platform {
      OverNothing(rest, OneLotOn(l, share));
    } else {
      assert l.platform in rest;
      OneLotOnce(rest, l, share);
    }
  }

  ghost predicate CoversLots(ps: seq<string>, lots: seq<LotShare>) {
    forall i :: 0 <= i < |lots| ==> lots[i].platform in ps
  }

  lemma {:induction false} LotsOverPlatforms(ps: seq<string>, lots: seq<LotShare>, shares: seq<int>)
    requires DistinctNames(ps) && |shares| == |lots| && CoversLots(ps, lots)
    ensures OverPlatforms(ps, NetFromOn(lots, shares)) == Sum(Pretaxes(lots)) - Sum(shares)
  {
    if lots == [] {
      OverNothing(ps, NetFromOn(lots, shares));
    } else {
      LotsOverPlatforms(ps, lots[1..], shares[1..]);
      OneLotOnce(ps, lots[0], shares[0]);
      OverSplits(ps, NetFromOn(lots, shares), OneLotOn(lots[0], shares[0]), NetFromOn(lots[1..], shares[1..]));
      assert Pretaxes(lots)[1..] == Pretaxes(lots[1..]);
    }
  }

  predicate HasWinner(lots: seq<LotShare>) {
    exists i :: 0 <= i < |lots| && lots[i].pretax > 0
  }

  /** Pre-tax less estimated tax over all symbols. */
  function SymbolsNet(groups: seq<SymbolLots>): int {
    if groups == [] then 0 else Sum(Pretaxes(groups[0].lots)) - groups[0].estimatedTax + SymbolsNet(groups[1..])
  }

  /** Tax estimated for symbols none of whose lots is above water. */
  function UndistributedTax(groups: seq<SymbolLots>): int {
    if groups == [] then 0
    else (if HasWinner(groups[0].lots) then 0 else groups[0].estimatedTax) + UndistributedTax(groups[1..])
  }

  /** The platforms' net of tax adds up to the symbols' lots less their exact estimated tax,
      to the cent, except for tax estimated on a symbol with no winning lot, which the
      split drops. */
  lemma {:induction false} PlatformsReconcile(ps: seq<string>, groups: seq<SymbolLots>)
    requires DistinctNames(ps)
    requires forall i :: 0 <= i < |groups| ==> CoversLots(ps, groups[i].lots)
    ensures OverPlatforms(ps, NetOnOf(groups)) == SymbolsNet(groups) + UndistributedTax(groups)
  {
    if groups == [] {
      OverNothing(ps, NetOnOf(groups));
    } else {
      var g, rest := groups[0], groups[1..];
      PlatformsReconcile(ps, rest);
      LotsOverPlatforms(ps, g.lots, TaxShares(g));
      OverSplits(ps, NetOnOf(groups), NetFromOn(g.lots, TaxShares(g)), NetOnOf(rest));
      TaxSharesSum(g);
    }
  }

  lemma {:induction false} TaxSharesSum(g: SymbolLots)
    ensures Sum(TaxShares(g)) == if HasWinner(g.lots) then g.estimatedTax else 0
  {
    var w := Clamped(Pretaxes(g.lots));
    DistributeExact(g.estimatedTax, w);
    if i :| 0 <= i < |g.lots| && g.lots[i].pretax > 0 { assert w[i] > 0; }
    if i :| 0 <= i < |w| && w[i] > 0 { assert g.lots[i].pretax > 0; }
  }

  /** How the program bounds an estimate: by nothing below and by the symbol's net unrealized
      gain above, if that is positive. */
  function BoundedEstimate(combined: int, lots: seq<LotShare>): (r: int)
    ensures 0 <= r <= Clamp(Sum(Pretaxes(lots)))
    ensures r < combined ==> r == Clamp(Sum(Pretaxes(lots)))
    ensures combined < r ==> r == 0
  {
    if combined < 0 then 0 else if combined > Clamp(Sum(Pretaxes(lots))) then Clamp(Sum(Pretaxes(lots))) else combined
  }

  lemma {:induction false} NoWinnerNoGain(lots: seq<LotShare>)
    requires !HasWinner(lots)
    ensures Sum(Pretaxes(lots)) <= 0
  {
    if lots != [] {
      assert Pretaxes(lots)[1..] == Pretaxes(lots[1..]);
      assert forall i :: 0 <= i < |lots[1..]| ==> lots[1..][i] == lots[i + 1];
      NoWinnerNoGain(lots[1..]);
    }
  }

  lemma {:induction false} NothingDropped(groups: seq<SymbolLots>, combined: seq<int>)
    requires |combined| == |groups|
    requires forall i :: 0 <= i < |groups| ==> groups[i].estimatedTax == BoundedEstimate(combined[i], groups[i].lots)
    ensures UndistributedTax(groups) == 0
  {
    if groups != [] {
      NothingDropped(groups[1..], combined[1..]);
      if !HasWinner(groups[0].lots) { NoWinnerNoGain(groups[0].lots); }
    }
  }

  /** With the program's own estimates, whatever they were before they were bounded, the
      platforms' net of tax adds up to the symbols' exactly. */
  lemma {:induction false} BoundedEstimatesReconcile(ps: seq<string>, groups: seq<SymbolLots>, combined: seq<int>)
    requires DistinctNames(ps) && |combined| == |groups|
    requires forall i :: 0 <= i < |groups| ==> CoversLots(ps, groups[i].lots)
    requires forall i :: 0 <= i < |groups| ==> groups[i].estimatedTax == BoundedEstimate(combined[i], groups[i].lots)
    ensures OverPlatforms(ps, NetOnOf(groups)) == SymbolsNet(groups)
  {
    NothingDropped(groups, combined);
    PlatformsReconcile(ps, groups);
  }

  /** Not so for an estimate that is not bounded: three cents of tax on a lot five cents under
      water are on the symbol and on no platform. */
  lemma {:induction false} UnboundedEstimateDropped()
    ensures
      var groups := [SymbolLots(3, [LotShare("P", -5)])];
      OverPlatforms(["P"], NetOnOf(groups)) == -5 && SymbolsNet(groups) == -8
  {
    var g := SymbolLots(3, [LotShare("P", -5)]);
    assert !HasWinner(g.lots) && CoversLots(["P"], g.lots);
    assert Pretaxes(g.lots) == [-5] && [-5][1..] == [];
    assert [g][1..] == [];
    assert SymbolsNet([g]) == -8;
    assert UndistributedTax([g]) == 3;
    PlatformsReconcile(["P"], [g]);
  }

  // --- Lots are valued one by one, symbols in one go. ---

  function LotValues(price: int, qtys: seq<int>): (r: seq<int>)
    ensures |r| == |qtys| && forall i :: 0 <= i < |qtys| ==> r[i] == Scale(price * qtys[i])
  {
    seq(|qtys|, i requires 0 <= i < |qtys| => Scale(price * qtys[i]))
  }

  lemma {:induction false} LotValuesError(price: int, qtys: seq<int>)
    ensures 2 * (Sum(LotValues(price, qtys)) * SHARE_SCALE - price * Sum(qtys)) <= |qtys| * SHARE_SCALE
    ensures 2 * (price * Sum(qtys) - Sum(LotValues(price, qtys)) * SHARE_SCALE) <= |qtys| * SHARE_SCALE
  {
    if qtys != [] {
      LotValuesError(price, qtys[1..]);
      assert LotValues(price, qtys)[1..] == LotValues(price, qtys[1..]);
      Distribute3(price, qtys[0], Sum(qtys[1..]));
    }
  }

  /** So the lots' values add up to the symbol's within half a cent per lot and half a cent
      more, which is all the platform and symbol views can disagree by. */
  lemma {:induction false} LotValuesNearSymbolValue(price: int, qtys: seq<int>)
    ensures 2 * (Sum(LotValues(price, qtys)) - Scale(price * Sum(qtys))) <= |qtys| + 1
    ensures 2 * (Scale(price * Sum(qtys)) - Sum(LotValues(price, qtys))) <= |qtys| + 1
  {
    LotValuesError(price, qtys);
  }

  /** They do disagree: two half-cent lots round down to nothing but are worth a cent together. */
  lemma LotValuesCanDiffer()
    ensures Sum(LotValues(1, [500_000, 500_000])) == 0 && Scale(1 * Sum([500_000, 500_000])) == 1
  {
    var v := LotValues(1, [500_000, 500_000]);
    assert v == [0, 0] && v[1..] == [0] && v[1..][1..] == [];
    assert [500_000, 500_000][1..] == [500_000] && [500_000][1..] == [];
    assert Sum([500_000, 500_000]) == 1_000_000;
  }
}

/** Largest-remainder apportionment. Proceeds across lots, percentage shares across
    rows and tax across lots are all split this way: floor every exact quota, then hand
    the leftover units out one each, largest remainder first. */
module Apportion {
  import opened Keys

  function Sum(s: seq<int>): int {
    if s == [] then 0 else s[0] + Sum(s[1..])
  }

  function Floors(nums: seq<int>, den: int): (r: seq<int>)
    requires den > 0
    ensures |r| == |nums|
    ensures forall i :: 0 <= i < |nums| ==> r[i] == nums[i] / den
  {
    seq(|nums|, i requires 0 <= i < |nums| => nums[i] / den)
  }

  function Remainders(nums: seq<int>, den: int): (r: seq<int>)
    requires den > 0
    ensures |r| == |nums|
    ensures forall i :: 0 <= i < |nums| ==> r[i] == nums[i] % den && 0 <= r[i] < den
  {
    seq(|nums|, i requires 0 <= i < |nums| => nums[i] % den)
  }

  ghost predicate InRange(order: seq<nat>, n: nat) {
    forall i :: 0 <= i < |order| ==> order[i] < n
  }

  ghost predicate Distinct(order: seq<nat>) {
    forall i, j :: 0 <= i < j < |order| ==> order[i] != order[j]
  }

  ghost predicate Descending(order: seq<nat>, rems: seq<int>)
    requires InRange(order, |rems|)
  {
    forall i, j :: 0 <= i < j < |order| ==> rems[order[i]] >= rems[order[j]]
  }

  /** One unit to each of the first `units` positions of `order`. */
  function Award(shares: seq<int>, order: seq<nat>, units: int): (r: seq<int>)
    requires InRange(order, |shares|)
    ensures |r| == |shares|
    decreases |order|
  {
    if units <= 0 || order == [] then shares
    else Award(shares[order[0] := shares[order[0]] + 1], order[1..], units - 1)
  }

  /** `order` names positions of `rems` at most once each, largest remainder first, and
      leaves out only positions with no remainder. */
  ghost predicate RanksRemainders(order: seq<nat>, rems: seq<int>) {
    && InRange(order, |rems|)
    && Distinct(order)
    && Descending(order, rems)
    && (forall p :: 0 <= p < |rems| && rems[p] != 0 ==> p in order)
  }

  /** Units left over once every quota is floored. */
  function Residual(nums: seq<int>, den: int, total: int): int
    requires den > 0
  {
    total - Sum(Floors(nums, den))
  }

  function Shares(nums: seq<int>, den: int, total: int, order: seq<nat>): (r: seq<int>)
    requires den > 0
    requires InRange(order, |nums|)
    ensures |r| == |nums|
  {
    Award(Floors(nums, den), order, Residual(nums, den, total))
  }

  lemma {:induction false} SumUpdate(s: seq<int>, i: nat, v: int)
    requires i < |s|
    ensures Sum(s[i := v]) == Sum(s) + v - s[i]
  {
    if i > 0 {
      SumUpdate(s[1..], i - 1, v);
      assert s[i := v][1..] == s[1..][i - 1 := v];
    } else {
      assert s[0 := v][1..] == s[1..];
    }
  }

  lemma {:induction false} AwardEffect(shares: seq<int>, order: seq<nat>, units: nat)
    requires InRange(order, |shares|)
    requires Distinct(order)
    requires units <= |order|
    ensures Sum(Award(shares, order, units)) == Sum(shares) + units
    ensures forall p :: 0 <= p < |shares| ==>
              Award(shares, order, units)[p] == shares[p] + if p in order[..units] then 1 else 0
    decreases |order|
  {
    if units > 0 {
      var p0, rest := order[0], order[1..];
      var bumped := shares[p0 := shares[p0] + 1];
      SumUpdate(shares, p0, shares[p0] + 1);
      AwardEffect(bumped, rest, units - 1);
      assert order[..units] == [p0] + rest[..units - 1];
      assert p0 !in rest[..units - 1] by {
        forall i | 0 <= i < units - 1 ensures rest[i] != p0 { assert order[i + 1] == rest[i]; }
      }
    }
  }

  /** `Sum(nums)` splits into whole units and remainders. */
  lemma {:induction false} SumDivMod(nums: seq<int>, den: int)
    requires den > 0
    ensures Sum(nums) == Sum(Floors(nums, den)) * den + Sum(Remainders(nums, den))
  {
    if nums != [] {
      SumDivMod(nums[1..], den);
      assert Floors(nums, den)[1..] == Floors(nums[1..], den);
      assert Remainders(nums, den)[1..] == Remainders(nums[1..], den);
      Distribute(nums[0] / den, Sum(Floors(nums[1..], den)), den);
    }
  }

  lemma Distribute(x: int, y: int, d: int)
    ensures (x + y) * d == x * d + y * d
  {
  }

  /** A sum of non-negative terms is at most `bound` per term of its support. */
  lemma {:induction false} SumSupport(rems: seq<int>, support: set<nat>, bound: nat)
    requires forall i :: 0 <= i < |rems| ==> 0 <= rems[i] <= bound
    requires forall i :: 0 <= i < |rems| && rems[i] != 0 ==> i in support
    ensures 0 <= Sum(rems) <= |support| * bound
  {
    if rems == [] {
    } else {
      var n := |rems| - 1;
      SumLast(rems);
      SumSupport(rems[..n], support - {n}, bound);
      if n in support {
        assert |support - {n}| == |support| - 1;
        Distribute(|support| - 1, 1, bound);
      } else {
        assert support - {n} == support;
      }
    }
  }

  lemma {:induction false} SumLast(s: seq<int>)
    requires s != []
    ensures Sum(s) == Sum(s[..|s| - 1]) + s[|s| - 1]
  {
    if |s| > 1 {
      SumLast(s[1..]);
      assert s[1..][..|s| - 2] == s[..|s| - 1][1..];
    }
  }

  function Members(s: seq<nat>): (r: set<nat>)
    ensures forall p :: p in r <==> p in s
    ensures |r| <= |s|
  {
    if s == [] then {} else {s[0]} + Members(s[1..])
  }

  lemma Leftover(total: int, floors: int, residual: int, rems: int, den: int)
    requires total * den == floors * den + rems && total == residual + floors
    ensures residual * den == rems
  {
    Distribute(residual, floors, den);
  }

  lemma OneLess(x: int, d: int)
    ensures x * (d - 1) == x * d - x
  {
  }

  lemma SumWithin(rems: seq<int>, bound: nat, order: seq<nat>, units: nat)
    requires RanksRemainders(order, rems)
    requires forall i :: 0 <= i < |rems| ==> 0 <= rems[i] <= bound
    requires units <= |order| && (units < |order| ==> rems[order[units]] == 0)
    ensures 0 <= Sum(rems) <= units * bound
  {
    var support := Members(order[..units]);
    SupportIsPrefix(order, rems, units);
    SumSupport(rems, support, bound);
    Scaled(|support|, units, bound);
  }

  lemma LeftoverReaches(rems: seq<int>, den: int, residual: int, order: seq<nat>, units: nat)
    requires den > 0 && residual * den == Sum(rems) && RanksRemainders(order, rems)
    requires forall i :: 0 <= i < |rems| ==> 0 <= rems[i] <= den - 1
    requires units <= |order| && (units < |order| ==> rems[order[units]] == 0)
    ensures 0 <= residual
    ensures units > 0 ==> residual < units
    ensures units == 0 ==> residual == 0
  {
    SumWithin(rems, den - 1, order, units);
    OneLess(units, den);
    Compare(residual, units, den);
  }

  /** The leftover is the sum of the remainders in whole units, so it is smaller than the
      number of positions that have one: positions without a remainder never gain. */
  lemma ResidualReachesOnlyRemainders(nums: seq<int>, den: int, total: int, order: seq<nat>, units: nat)
    requires den > 0
    requires Sum(nums) == total * den
    requires RanksRemainders(order, Remainders(nums, den))
    requires units <= |order|
    requires units < |order| ==> order[units] < |nums| && nums[order[units]] % den == 0
    ensures 0 <= Residual(nums, den, total)
    ensures units > 0 ==> Residual(nums, den, total) < units
    ensures units == 0 ==> Residual(nums, den, total) == 0
  {
    var rems := Remainders(nums, den);
    var residual := Residual(nums, den, total);
    assert residual * den == Sum(rems) by {
      SumDivMod(nums, den);
      Leftover(total, Sum(Floors(nums, den)), residual, Sum(rems), den);
    }
    assert units < |order| ==> rems[order[units]] == 0;
    LeftoverReaches(rems, den, residual, order, units);
  }

  lemma Scaled(x: int, y: int, d: nat)
    requires x <= y
    ensures x * d <= y * d
  {
    Distribute(x, y - x, d);
    assert (y - x) * d >= 0;
  }

  lemma SupportIsPrefix(order: seq<nat>, rems: seq<int>, units: nat)
    requires RanksRemainders(order, rems)
    requires forall p :: 0 <= p < |rems| ==> rems[p] >= 0
    requires units <= |order|
    requires units < |order| ==> rems[order[units]] == 0
    ensures forall p :: 0 <= p < |rems| && rems[p] != 0 ==> p in Members(order[..units])
  {
    forall i | units <= i < |order| ensures rems[order[i]] == 0 {
      assert i > units ==> rems[order[units]] >= rems[order[i]];
    }
    forall p | 0 <= p < |rems| && rems[p] != 0 ensures p in Members(order[..units]) {
      var i :| 0 <= i < |order| && order[i] == p;
      assert order[..units][i] == p;
    }
  }

  lemma Compare(residual: int, units: nat, den: int)
    requires den > 0
    requires 0 <= residual * den <= units * den - units
    ensures 0 <= residual
    ensures units > 0 ==> residual < units
    ensures units == 0 ==> residual == 0
  {
    if residual < 0 { Scaled(residual, -1, den); }
    if residual >= units { Scaled(units, residual, den); }
  }

  /** Positions with a remainder come first in `order`. */
  function NonzeroPrefix(order: seq<nat>, rems: seq<int>): (units: nat)
    requires InRange(order, |rems|)
    ensures units <= |order|
    ensures units < |order| ==> rems[order[units]] == 0
    ensures forall i :: 0 <= i < units ==> rems[order[i]] != 0
  {
    if order == [] || rems[order[0]] == 0 then 0 else 1 + NonzeroPrefix(order[1..], rems)
  }

  /** How many positions gain a unit, and that each of them has a remainder. */
  lemma {:induction false} ResidualBounds(nums: seq<int>, den: int, total: int, order: seq<nat>)
    requires den > 0
    requires Sum(nums) == total * den
    requires RanksRemainders(order, Remainders(nums, den))
    ensures 0 <= Residual(nums, den, total) <= |order| <= |nums|
    ensures nums != [] ==> Residual(nums, den, total) < |nums|
    ensures forall p :: p in order[..Residual(nums, den, total)] ==> p < |nums| && nums[p] % den != 0
  {
    var rems := Remainders(nums, den);
    var units := NonzeroPrefix(order, rems);
    ResidualReachesOnlyRemainders(nums, den, total, order, units);
    var residual := Residual(nums, den, total);
    forall p | p in order[..residual] ensures p < |nums| && rems[p] != 0 {
      var i :| 0 <= i < residual && order[..residual][i] == p;
      assert order[i] == p;
    }
    DistinctBound(order, |nums|);
  }

  /** The apportionment: shares add up to the total exactly, each is its quota rounded
      down or up, and an exact quota is kept. */
  lemma {:induction false} LargestRemainder(nums: seq<int>, den: int, total: int, order: seq<nat>)
    requires den > 0
    requires Sum(nums) == total * den
    requires RanksRemainders(order, Remainders(nums, den))
    ensures 0 <= Residual(nums, den, total)
    ensures nums != [] ==> Residual(nums, den, total) < |nums|
    ensures Sum(Shares(nums, den, total, order)) == total
    ensures forall p :: 0 <= p < |nums| ==>
              var s := Shares(nums, den, total, order)[p];
              && (s == nums[p] / den || s == nums[p] / den + 1)
              && (nums[p] % den == 0 ==> s == nums[p] / den)
  {
    ResidualBounds(nums, den, total, order);
    AwardEffect(Floors(nums, den), order, Residual(nums, den, total));
  }

  /** No unit goes to a smaller remainder while a larger one goes without. */
  lemma {:induction false} LargerRemaindersFirst(nums: seq<int>, den: int, total: int, order: seq<nat>, p: nat, q: nat)
    requires den > 0
    requires Sum(nums) == total * den
    requires RanksRemainders(order, Remainders(nums, den))
    requires p < |nums| && q < |nums|
    requires Shares(nums, den, total, order)[p] == nums[p] / den + 1
    requires Shares(nums, den, total, order)[q] == nums[q] / den
    ensures nums[p] % den >= nums[q] % den
  {
    var rems := Remainders(nums, den);
    var residual := Residual(nums, den, total);
    ResidualBounds(nums, den, total, order);
    AwardEffect(Floors(nums, den), order, residual);
    var i :| 0 <= i < residual && order[..residual][i] == p;
    assert order[i] == p;
    forall j | 0 <= j < residual ensures order[j] != q {
      assert order[j] == order[..residual][j];
    }
    if rems[q] != 0 {
      var j :| 0 <= j < |order| && order[j] == q;
      assert i < j;
    }
  }

  lemma DistinctBound(order: seq<nat>, n: nat)
    requires InRange(order, n)
    requires Distinct(order)
    ensures |order| <= n
  {
    DistinctMembers(order);
    SubsetCount(Members(order), UpTo(n));
  }

  ghost function UpTo(n: nat): (r: set<nat>)
    ensures forall p: nat :: p in r <==> p < n
    ensures |r| == n
  {
    if n == 0 then {} else UpTo(n - 1) + {n - 1}
  }

  lemma {:induction false} DistinctMembers(order: seq<nat>)
    requires Distinct(order)
    ensures |Members(order)| == |order|
  {
    if order != [] {
      var rest := order[1..];
      assert order[0] !in rest;
      DistinctMembers(rest);
      assert {order[0]} !! Members(rest);
    }
  }

  lemma {:induction false} SubsetCount(s: set<nat>, t: set<nat>)
    requires s <= t
    ensures |s| <= |t|
  {
    if s != {} {
      var x :| x in s;
      SubsetCount(s - {x}, t - {x});
    }
  }

  // --- Ranking by sort keys: the order the implementations sort out. ---

  function Positions(ks: seq<Key>): (r: seq<nat>)
    ensures |r| == |ks|
    ensures forall i :: 0 <= i < |ks| ==> r[i] == ks[i].idx
  {
    seq(|ks|, i requires 0 <= i < |ks| => ks[i].idx)
  }

  /** Keys of distinct ascending positions, each ordered by its negated remainder first. */
  ghost predicate RemainderKeys(ks: seq<Key>, rems: seq<int>) {
    && (forall i :: 0 <= i < |ks| ==> ks[i].idx < |rems| && ks[i].a == -rems[ks[i].idx])
    && (forall i, j :: 0 <= i < j < |ks| ==> ks[i].idx < ks[j].idx)
  }

  ghost predicate DistinctKeys(ks: seq<Key>) {
    forall i, j :: 0 <= i < j < |ks| ==> ks[i].idx != ks[j].idx
  }

  lemma {:induction false} InsertDistinct(k: Key, s: seq<Key>)
    requires DistinctKeys(s)
    requires forall x :: x in s ==> x.idx != k.idx
    ensures DistinctKeys(Insert(k, s))
  {
    if s != [] && Less(s[0], k) {
      var rest := s[1..];
      assert forall i :: 0 <= i < |rest| ==> rest[i] == s[i + 1];
      InsertDistinct(k, rest);
      InsertMembers(k, rest);
      var r := Insert(k, rest);
      forall j | 0 <= j < |r| ensures r[j].idx != s[0].idx {
        assert r[j] in r;
        if r[j] != k {
          var m :| 0 <= m < |rest| && rest[m] == r[j];
          assert s[m + 1].idx != s[0].idx;
        }
      }
      assert Insert(k, s) == [s[0]] + r;
    }
  }

  lemma {:induction false} SortDistinct(s: seq<Key>)
    requires DistinctKeys(s)
    ensures DistinctKeys(Sort(s))
  {
    if s != [] {
      var rest := s[1..];
      assert forall i :: 0 <= i < |rest| ==> rest[i] == s[i + 1];
      SortDistinct(rest);
      SortMembers(rest);
      forall x | x in Sort(rest) ensures x.idx != s[0].idx {
        var m :| 0 <= m < |rest| && rest[m] == x;
        assert s[m + 1].idx != s[0].idx;
      }
      InsertDistinct(s[0], Sort(rest));
    }
  }

  lemma {:induction false} AscendingAt(s: seq<Key>, i: nat, j: nat)
    requires Ascending(s) && i < j < |s|
    ensures !Less(s[j], s[i])
  {
    if i == 0 {
      assert s[j] == s[1..][j - 1];
    } else {
      AscendingAt(s[1..], i - 1, j - 1);
    }
  }

  lemma SortedKeysDescend(ks: seq<Key>, rems: seq<int>)
    requires RemainderKeys(ks, rems)
    ensures InRange(Positions(Sort(ks)), |rems|) && Distinct(Positions(Sort(ks)))
    ensures Descending(Positions(Sort(ks)), rems)
  {
    var sorted := Sort(ks);
    var order := Positions(sorted);
    SortMembers(ks);
    SortAscending(ks);
    SortDistinct(ks);
    forall i | 0 <= i < |order| ensures order[i] < |rems| && sorted[i].a == -rems[order[i]] {
      assert sorted[i] in ks;
    }
    forall i, j | 0 <= i < j < |order| ensures rems[order[i]] >= rems[order[j]] {
      AscendingAt(sorted, i, j);
    }
  }

  lemma SortedKeysKeep(ks: seq<Key>, p: nat)
    requires exists i :: 0 <= i < |ks| && ks[i].idx == p
    ensures p in Positions(Sort(ks))
  {
    var i :| 0 <= i < |ks| && ks[i].idx == p;
    SortMembers(ks);
    assert ks[i] in Sort(ks);
    var j :| 0 <= j < |Sort(ks)| && Sort(ks)[j] == ks[i];
    assert Positions(Sort(ks))[j] == p;
  }

  /** Sorting such keys ranks the remainders, ties broken by the rest of the key. */
  lemma {:induction false} SortedKeysRank(ks: seq<Key>, rems: seq<int>)
    requires RemainderKeys(ks, rems)
    requires forall p :: 0 <= p < |rems| && rems[p] != 0 ==> exists i :: 0 <= i < |ks| && ks[i].idx == p
    ensures RanksRemainders(Positions(Sort(ks)), rems)
  {
    SortedKeysDescend(ks, rems);
    forall p | 0 <= p < |rems| && rems[p] != 0 ensures p in Positions(Sort(ks)) {
      SortedKeysKeep(ks, p);
    }
  }

  lemma KeyPlace(ks: seq<Key>, i: nat) returns (p: nat)
    requires i < |ks|
    ensures p < |Sort(ks)| && Sort(ks)[p] == ks[i]
  {
    SortMembers(ks);
    assert ks[i] in Sort(ks);
    p :| 0 <= p < |Sort(ks)| && Sort(ks)[p] == ks[i];
  }

  lemma SmallerKeyFirst(sorted: seq<Key>, p: nat, q: nat)
    requires Ascending(sorted) && p < |sorted| && q < |sorted| && Less(sorted[p], sorted[q])
    ensures p < q
  {
    if q < p {
      AscendingAt(sorted, q, p);
    }
  }

  lemma PlaceOfIdx(sorted: seq<Key>, units: nat, q: nat)
    requires DistinctKeys(sorted) && units <= |sorted| && q < |sorted|
    ensures sorted[q].idx in Positions(sorted)[..units] <==> q < units
  {
    var order := Positions(sorted);
    if q < units {
      assert order[..units][q] == sorted[q].idx;
    } else {
      forall u | 0 <= u < units ensures order[..units][u] != sorted[q].idx {
        assert order[u] == sorted[u].idx;
      }
    }
  }

  /** Whoever is sorted later gets nothing that one sorted earlier does not. */
  lemma {:induction false} SortedFirst(ks: seq<Key>, units: nat, i: nat, j: nat)
    requires DistinctKeys(ks) && units <= |ks| && i < |ks| && j < |ks| && Less(ks[i], ks[j])
    ensures ks[j].idx in Positions(Sort(ks))[..units] ==> ks[i].idx in Positions(Sort(ks))[..units]
  {
    SortAscending(ks);
    SortDistinct(ks);
    var p := KeyPlace(ks, i);
    var q := KeyPlace(ks, j);
    SmallerKeyFirst(Sort(ks), p, q);
    PlaceOfIdx(Sort(ks), units, p);
    PlaceOfIdx(Sort(ks), units, q);
  }
}

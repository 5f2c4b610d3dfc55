/** The nearest-rank 95th percentile and the small folds over a cohort's numbers. */
module NearestRank {

  function Insert(x: int, sorted: seq<int>): (r: seq<int>)
    ensures |r| == |sorted| + 1
  {
    if sorted == [] || x <= sorted[0] then [x] + sorted else [sorted[0]] + Insert(x, sorted[1..])
  }

  function Sort(values: seq<int>): (r: seq<int>)
    ensures |r| == |values|
  {
    if values == [] then [] else Insert(values[0], Sort(values[1..]))
  }

  function Rank(n: nat): nat { (95 * n + 99) / 100 }

  /** The value at rank ceil(0.95 n) of the sorted values. */
  function P95(values: seq<int>): int
    requires values != []
  {
    Sort(values)[Rank(|values|) - 1]
  }

  function CountAtMost(values: seq<int>, limit: int): nat {
    if values == [] then 0
    else (if values[0] <= limit then 1 else 0) + CountAtMost(values[1..], limit)
  }

  ghost predicate Ascending(s: seq<int>) { forall i, j :: 0 <= i < j < |s| ==> s[i] <= s[j] }

  lemma {:induction false} InsertKeeps(x: int, s: seq<int>, limit: int)
    requires Ascending(s)
    ensures Ascending(Insert(x, s))
    ensures CountAtMost(Insert(x, s), limit) == CountAtMost(s, limit) + if x <= limit then 1 else 0
    ensures forall v :: v in Insert(x, s) <==> v in s || v == x
  {
    if s == [] || x <= s[0] {
      assert ([x] + s)[1..] == s;
    } else {
      InsertKeeps(x, s[1..], limit);
      var r := Insert(x, s[1..]);
      assert s == [s[0]] + s[1..];
      assert ([s[0]] + r)[1..] == r;
      forall k | 0 <= k < |r| ensures s[0] <= r[k] { assert r[k] in r; }
    }
  }

  lemma {:induction false} SortKeeps(values: seq<int>, limit: int)
    ensures Ascending(Sort(values)) && CountAtMost(Sort(values), limit) == CountAtMost(values, limit)
    ensures forall v :: v in Sort(values) <==> v in values
  {
    if values != [] {
      SortKeeps(values[1..], limit);
      InsertKeeps(values[0], Sort(values[1..]), limit);
      assert values == [values[0]] + values[1..];
    }
  }

  lemma {:induction false} NoneAtMost(s: seq<int>, limit: int)
    requires forall i :: 0 <= i < |s| ==> s[i] > limit
    ensures CountAtMost(s, limit) == 0
  {
    if s != [] { NoneAtMost(s[1..], limit); }
  }

  lemma {:induction false} RankedExactlyWhen(s: seq<int>, r: nat, limit: int)
    requires Ascending(s) && 1 <= r <= |s|
    ensures s[r - 1] <= limit <==> CountAtMost(s, limit) >= r
  {
    if s[0] > limit {
      NoneAtMost(s, limit);
    } else if r > 1 {
      RankedExactlyWhen(s[1..], r - 1, limit);
    }
  }

  /** The percentile meets a limit exactly when at least 95 in 100 of the values do. */
  lemma P95MeetsLimitExactlyWhen(values: seq<int>, limit: int)
    requires values != []
    ensures P95(values) <= limit <==> 100 * CountAtMost(values, limit) >= 95 * |values|
    ensures P95(values) in values
  {
    SortKeeps(values, limit);
    RankedExactlyWhen(Sort(values), Rank(|values|), limit);
    assert Sort(values)[Rank(|values|) - 1] in Sort(values);
  }

  // Folds

  function Sum(values: seq<nat>): nat {
    if values == [] then 0 else values[0] + Sum(values[1..])
  }

  lemma {:induction false} SumIsZeroExactlyWhen(values: seq<nat>)
    ensures Sum(values) == 0 <==> forall i :: 0 <= i < |values| ==> values[i] == 0
  {
    if values != [] {
      SumIsZeroExactlyWhen(values[1..]);
      forall i | 0 < i < |values| ensures values[i] == values[1..][i - 1] {}
    }
  }

  function Least(values: seq<int>): int
    requires values != []
  {
    if |values| == 1 then values[0]
    else var rest := Least(values[1..]); if rest < values[0] then rest else values[0]
  }

  function Greatest(values: seq<int>): int
    requires values != []
  {
    if |values| == 1 then values[0]
    else var rest := Greatest(values[1..]); if rest > values[0] then rest else values[0]
  }

  lemma {:induction false} LeastAndGreatest(values: seq<int>)
    requires values != []
    ensures Least(values) in values && Greatest(values) in values
    ensures forall v :: v in values ==> Least(values) <= v <= Greatest(values)
  {
    assert values == [values[0]] + values[1..];
    if |values| > 1 { LeastAndGreatest(values[1..]); }
  }

  function CountTrue(flags: seq<bool>): nat {
    if flags == [] then 0 else (if flags[0] then 1 else 0) + CountTrue(flags[1..])
  }

  lemma {:induction false} CountTrueBounds(flags: seq<bool>)
    ensures CountTrue(flags) <= |flags|
    ensures CountTrue(flags) == |flags| <==> forall i :: 0 <= i < |flags| ==> flags[i]
  {
    if flags != [] {
      CountTrueBounds(flags[1..]);
      forall i | 0 < i < |flags| ensures flags[i] == flags[1..][i - 1] {}
    }
  }

  /** Of two flag lists, one implying the other: the counts agree exactly when the lists do. */
  lemma {:induction false} CountImplied(strong: seq<bool>, weak: seq<bool>)
    requires |strong| == |weak| && forall i :: 0 <= i < |strong| ==> strong[i] ==> weak[i]
    ensures CountTrue(strong) <= CountTrue(weak)
    ensures CountTrue(strong) == CountTrue(weak) <==> strong == weak
  {
    if strong != [] {
      CountImplied(strong[1..], weak[1..]);
      assert strong == [strong[0]] + strong[1..] && weak == [weak[0]] + weak[1..];
    }
  }
}

/** What the estimated rates mean in terms of the intervals measured. */
module CongestionRates {
  import opened CongestionSpec
  import opened CongestionTheorems

  /** The intervals are those between one arrival and the next. */
  lemma {:induction false} IntervalsExact(times: seq<int>, i: nat)
    requires i + 1 < |times|
    ensures Intervals(times)[i] == MachineWords.Low64(times[i + 1] - times[i])
  {
    hide MachineWords.Low64;
    if i + 2 < |times| {
      IntervalsExact(times[..|times| - 1], i);
    }
  }

  /** How many entries satisfy `p`. */
  function Count(s: seq<int>, p: int -> bool): (n: nat)
    ensures n <= |s|
  {
    if s == [] then 0 else (if p(s[0]) then 1 else 0) + Count(s[1..], p)
  }

  lemma {:induction false} CountInsert(x: int, s: seq<int>, p: int -> bool)
    ensures Count(Insert(x, s), p) == (if p(x) then 1 else 0) + Count(s, p)
  {
    if s == [] || x <= s[0] {
      assert Insert(x, s)[1..] == s;
    } else {
      CountInsert(x, s[1..], p);
      assert Insert(x, s)[1..] == Insert(x, s[1..]);
    }
  }

  /** Sorting changes no count. */
  lemma {:induction false} CountSort(s: seq<int>, p: int -> bool)
    ensures Count(Sort(s), p) == Count(s, p)
  {
    if s != [] {
      CountSort(s[1..], p);
      CountInsert(s[0], Sort(s[1..]), p);
    }
  }

  /** If only the first `k` can satisfy `p`, at most `k` do. */
  lemma {:induction false} CountFront(s: seq<int>, p: int -> bool, k: nat)
    requires k <= |s| && forall i :: k <= i < |s| ==> !p(s[i])
    ensures Count(s, p) <= k
  {
    if s != [] {
      forall i | (if k > 0 then k - 1 else 0) <= i < |s[1..]| ensures !p(s[1..][i]) {
        assert s[1..][i] == s[i + 1];
      }
      CountFront(s[1..], p, if k > 0 then k - 1 else 0);
    }
  }

  lemma {:induction false} CountBack(s: seq<int>, p: int -> bool, k: nat)
    requires k <= |s| && forall i :: 0 <= i < k ==> !p(s[i])
    ensures Count(s, p) <= |s| - k
  {
    if k > 0 {
      forall i | 0 <= i < k - 1 ensures !p(s[1..][i]) {
        assert s[1..][i] == s[i + 1];
      }
      CountBack(s[1..], p, k - 1);
    }
  }

  /** The median is one of the intervals; at most half of them are below it, and fewer than half above. */
  lemma MedianDivides(gaps: seq<int>)
    requires gaps != []
    ensures var m := Median(gaps);
            && m in gaps
            && 2 * Count(gaps, x => x < m) <= |gaps|
            && 2 * Count(gaps, x => x > m) < |gaps|
  {
    SortSorts(gaps);
    hide Sort, Count;
    var sorted, k := Sort(gaps), |gaps| / 2;
    var m := sorted[k];
    assert m in multiset(sorted);
    CountSort(gaps, x => x < m);
    CountSort(gaps, x => x > m);
    CountFront(sorted, x => x < m, k);
    CountBack(sorted, x => x > m, k + 1);
  }

  /** The link capacity is how many median intervals fit into a second. */
  lemma CapacityExact(gaps: seq<int>)
    requires gaps != []
    ensures var m, c := Median(gaps), Capacity(gaps);
            if m > 0 then 0 <= c && c * m <= 1000000 < (c + 1) * m else c == 0
  {
    hide Median;
    if Median(gaps) > 0 {
      Quotient(1000000, Median(gaps));
    }
  }

  /** Whether an interval is within a factor of eight of the median `m`. */
  function NearTo(m: int): int -> bool {
    x => InBand(x, m)
  }

  lemma {:induction false} BandCount(s: seq<int>, m: int)
    ensures |Band(s, m)| == Count(s, NearTo(m))
  {
    hide InBand;
    if s != [] {
      var front, last := s[..|s| - 1], s[|s| - 1];
      BandCount(front, m);
      CountSnoc(front, last, NearTo(m));
      assert s == front + [last];
    }
  }

  lemma {:induction false} CountSnoc(s: seq<int>, x: int, p: int -> bool)
    ensures Count(s + [x], p) == Count(s, p) + if p(x) then 1 else 0
  {
    if s != [] {
      CountSnoc(s[1..], x, p);
      assert (s + [x])[1..] == s[1..] + [x];
    }
  }

  /**
   There is a receiving rate only if more than eight of the intervals lie within a factor
   of eight of their median; it is then how many of those fit into a second on average.
   */
  lemma RateExact(gaps: seq<int>)
    requires gaps != []
    ensures var m, r := Median(gaps), Rate(gaps);
            var n := Count(gaps, NearTo(m));
            var total := MachineWords.Low64(Sum(Band(Sort(gaps), m)));
            if n > 8 && total > 0 then r * total <= 1000000 * n < (r + 1) * total else r == 0
  {
    hide Sort, Count, NearTo, Band, Sum, MachineWords.Low64, Median;
    var m := Median(gaps);
    BandCount(Sort(gaps), m);
    CountSort(gaps, NearTo(m));
    var total := MachineWords.Low64(Sum(Band(Sort(gaps), m)));
    if total > 0 {
      Quotient(1000000 * Count(gaps, NearTo(m)), total);
    }
  }
}

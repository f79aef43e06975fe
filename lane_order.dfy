/** Lane ordering in `renderSwimlane`: the lane labels are copied from the
    reducer's order and then either reversed (lanes are drawn bottom up) or
    sorted with the locale comparison, and reversed again for ascending. */
module LaneOrder {

  /** The comparator `leq(a, b)` stands for `a.localeCompare(b, undefined,
      {numeric: true}) <= 0`; collation itself is not modelled. A consistent
      comparator makes it total and transitive. */
  ghost predicate TotalPreorder(leq: (string, string) -> bool) {
    && (forall a, b :: leq(a, b) || leq(b, a))
    && (forall a, b, c :: leq(a, b) && leq(b, c) ==> leq(a, c))
  }

  predicate SortedBy(s: seq<string>, leq: (string, string) -> bool) {
    forall i, j :: 0 <= i < j < |s| ==> leq(s[i], s[j])
  }

  /** Places `x` before the first element it does not exceed. */
  function Insert(x: string, s: seq<string>, leq: (string, string) -> bool): (r: seq<string>)
    ensures |r| == |s| + 1
    ensures forall y :: y in r <==> y == x || y in s
  {
    if s == [] then [x]
    else if leq(x, s[0]) then [x] + s
    else [s[0]] + Insert(x, s[1..], leq)
  }

  /** `Array.prototype.sort` with the comparator: a stable sort, here an
      insertion sort (an earlier element goes before the equal ones after it). */
  function SortBy(s: seq<string>, leq: (string, string) -> bool): (r: seq<string>)
    ensures |r| == |s|
    ensures forall y :: y in r <==> y in s
  {
    if s == [] then [] else Insert(s[0], SortBy(s[1..], leq), leq)
  }

  /** `Array.prototype.reverse`. */
  function Reverse(s: seq<string>): (r: seq<string>)
    ensures |r| == |s|
    ensures forall y :: y in r <==> y in s
    ensures s != [] ==> r[0] == s[|s| - 1] && r[|s| - 1] == s[0]
  {
    if s == [] then [] else Reverse(s[1..]) + [s[0]]
  }

  lemma {:induction false} InsertPermutation(x: string, s: seq<string>, leq: (string, string) -> bool)
    ensures multiset(Insert(x, s, leq)) == multiset(s) + multiset{x}
  {
    if s != [] && !leq(x, s[0]) {
      InsertPermutation(x, s[1..], leq);
      assert s == [s[0]] + s[1..];
    }
  }

  /** Sorting only rearranges the labels. */
  lemma {:induction false} SortByPermutation(s: seq<string>, leq: (string, string) -> bool)
    ensures multiset(SortBy(s, leq)) == multiset(s)
  {
    if s != [] {
      SortByPermutation(s[1..], leq);
      InsertPermutation(s[0], SortBy(s[1..], leq), leq);
      assert s == [s[0]] + s[1..];
    }
  }

  /** Every element of `s` is at least `b`. */
  predicate LowerBound(b: string, s: seq<string>, leq: (string, string) -> bool) {
    forall i :: 0 <= i < |s| ==> leq(b, s[i])
  }

  lemma {:induction false} InsertLowerBound(b: string, x: string, s: seq<string>, leq: (string, string) -> bool)
    requires leq(b, x) && LowerBound(b, s, leq)
    ensures LowerBound(b, Insert(x, s, leq), leq)
  {
    if s != [] && !leq(x, s[0]) {
      var rest := Insert(x, s[1..], leq);
      assert LowerBound(b, s[1..], leq) by {
        forall i | 0 <= i < |s| - 1
          ensures leq(b, s[1..][i])
        {
          assert s[1..][i] == s[i + 1];
        }
      }
      InsertLowerBound(b, x, s[1..], leq);
      var r := [s[0]] + rest;
      forall i | 0 <= i < |r|
        ensures leq(b, r[i])
      {
        if i > 0 {
          assert r[i] == rest[i - 1];
        }
      }
    }
  }

  lemma {:induction false} InsertSorted(x: string, s: seq<string>, leq: (string, string) -> bool)
    requires TotalPreorder(leq) && SortedBy(s, leq)
    ensures SortedBy(Insert(x, s, leq), leq)
  {
    if s == [] {
    } else if leq(x, s[0]) {
      var r := [x] + s;
      forall i, j | 0 <= i < j < |r|
        ensures leq(r[i], r[j])
      {
        if i == 0 {
          if j > 1 {
            assert leq(s[0], s[j - 1]);
            assert leq(x, s[0]) && leq(s[0], s[j - 1]) ==> leq(x, s[j - 1]);
          }
        } else {
          assert r[i] == s[i - 1] && r[j] == s[j - 1];
        }
      }
    } else {
      var tail := s[1..];
      assert leq(s[0], x);
      assert SortedBy(tail, leq) by {
        forall i, j | 0 <= i < j < |tail|
          ensures leq(tail[i], tail[j])
        {
          assert tail[i] == s[i + 1] && tail[j] == s[j + 1];
        }
      }
      assert LowerBound(s[0], tail, leq) by {
        forall i | 0 <= i < |tail|
          ensures leq(s[0], tail[i])
        {
          assert tail[i] == s[i + 1];
        }
      }
      var rest := Insert(x, tail, leq);
      InsertSorted(x, tail, leq);
      InsertLowerBound(s[0], x, tail, leq);
      var r := [s[0]] + rest;
      forall i, j | 0 <= i < j < |r|
        ensures leq(r[i], r[j])
      {
        if i == 0 {
          assert r[j] == rest[j - 1];
        } else {
          assert r[i] == rest[i - 1] && r[j] == rest[j - 1];
        }
      }
    }
  }

  /** With a consistent comparator the sorted labels are in order. */
  lemma {:induction false} SortBySorted(s: seq<string>, leq: (string, string) -> bool)
    requires TotalPreorder(leq)
    ensures SortedBy(SortBy(s, leq), leq)
  {
    if s != [] {
      SortBySorted(s[1..], leq);
      InsertSorted(s[0], SortBy(s[1..], leq), leq);
    }
  }

  /** Reversal puts element `k` at position `|s| - 1 - k`. */
  lemma {:induction false} ReverseAt(s: seq<string>)
    ensures |Reverse(s)| == |s|
    ensures forall k :: 0 <= k < |s| ==> Reverse(s)[k] == s[|s| - 1 - k]
  {
    if s != [] {
      ReverseAt(s[1..]);
    }
  }

  lemma ReversePermutation(s: seq<string>)
    ensures multiset(Reverse(s)) == multiset(s)
  {
    ReverseAt(s);
    var r := Reverse(s);
    var n := |s|;
    assert r == seq(n, k requires 0 <= k < n => s[n - 1 - k]);
    if s != [] {
      ReversePermutation(s[1..]);
      assert s == [s[0]] + s[1..];
    }
  }

  /** Lines 265-282: copy the reducer's order, then sort and reverse it as
      the `alphabetSortLaneLabels` parameter says; any value other than
      `'asc'` and `'desc'` behaves as `'off'`. */
  method OrderLanes(aggViewByOrder: seq<string>, alphabetSortLaneLabels: string, leq: (string, string) -> bool)
      returns (laneIds: seq<string>)
    ensures multiset(laneIds) == multiset(aggViewByOrder)
    ensures alphabetSortLaneLabels != "asc" && alphabetSortLaneLabels != "desc" ==>
      |laneIds| == |aggViewByOrder| &&
      forall i :: 0 <= i < |laneIds| ==> laneIds[i] == aggViewByOrder[|aggViewByOrder| - 1 - i]
    ensures alphabetSortLaneLabels == "desc" ==>
      laneIds == SortBy(aggViewByOrder, leq) && (TotalPreorder(leq) ==> SortedBy(laneIds, leq))
    ensures alphabetSortLaneLabels == "asc" ==>
      && laneIds == Reverse(SortBy(aggViewByOrder, leq))
      && (TotalPreorder(leq) ==> forall i, j :: 0 <= i < j < |laneIds| ==> leq(laneIds[j], laneIds[i]))
  {
    laneIds := aggViewByOrder;
    if alphabetSortLaneLabels == "asc" || alphabetSortLaneLabels == "desc" {
      laneIds := SortBy(laneIds, leq);
      SortByPermutation(aggViewByOrder, leq);
      if TotalPreorder(leq) {
        SortBySorted(aggViewByOrder, leq);
      }
      if alphabetSortLaneLabels == "asc" {
        // Ascending: flot draws row 0 at the bottom, so the sorted list is flipped.
        ghost var sorted := laneIds;
        laneIds := Reverse(laneIds);
        ReversePermutation(sorted);
        ReverseAt(sorted);
      }
    } else {
      // Unsorted: flipped so that the first key returned is drawn at the top.
      laneIds := Reverse(laneIds);
      ReversePermutation(aggViewByOrder);
      ReverseAt(aggViewByOrder);
    }
  }
}

/** What each title of a film disc is for, when nobody has said. */
module Roles {
  import opened Text
  import opened Sorting
  import opened Naming

  const MIN_FEATURE_SECONDS := 45 * 60

  datatype Timed = Timed(index: int, secs: int, role: Role)

  function IntLeq(): (int, int) -> bool { (a: int, b: int) => a <= b }

  function Durations(ts: seq<Timed>): seq<int> {
    seq(|ts|, i requires 0 <= i < |ts| => ts[i].secs)
  }

  /** Half a sum, rounded half away from zero. */
  function HalfRounded(n: int): int {
    if n >= 0 then (n + 1) / 2 else -((1 - n) / 2)
  }

  lemma SortLength(s: seq<int>)
    ensures |Sort(s, IntLeq())| == |s| && SortedBy(Sort(s, IntLeq()), IntLeq())
    ensures multiset(Sort(s, IntLeq())) == multiset(s)
  {
    SortSorts(s, IntLeq());
    assert |multiset(Sort(s, IntLeq()))| == |multiset(s)|;
  }

  function Median(s: seq<int>): int
    requires s != []
  {
    SortLength(s);
    var sorted, mid := Sort(s, IntLeq()), |s| / 2;
    if |s| % 2 == 1 then sorted[mid] else HalfRounded(sorted[mid - 1] + sorted[mid])
  }

  /** Where the first of the longest titles is. */
  function Longest(ts: seq<Timed>): (k: nat)
    requires ts != []
    ensures k < |ts| && forall i :: 0 <= i < |ts| ==> ts[i].secs <= ts[k].secs
    ensures forall i :: 0 <= i < k ==> ts[i].secs < ts[k].secs
  {
    if |ts| == 1 then 0
    else
      var k := Longest(ts[..|ts| - 1]);
      assert forall i :: 0 <= i < |ts| - 1 ==> ts[..|ts| - 1][i] == ts[i];
      if ts[|ts| - 1].secs > ts[k].secs then |ts| - 1 else k
  }

  function FeatureIndex(ts: seq<Timed>): Option<int> {
    if ts == [] then None
    else
      var top := ts[Longest(ts)];
      if top.secs < MIN_FEATURE_SECONDS then None
      else if |ts| == 1 then Some(top.index)
      else
        var mid := Median(Durations(ts));
        if mid == 0 || top.secs >= 2 * mid then Some(top.index) else None
  }

  /** A person already chose the feature. */
  predicate Picked(ts: seq<Timed>) { exists k :: 0 <= k < |ts| && ts[k].role == Feature }

  /** The role a title ends up with. */
  function Resolved(film: bool, ts: seq<Timed>, t: Timed): Role {
    if !film || Picked(ts) || t.role != Unset then t.role
    else if FeatureIndex(ts) == Some(t.index) then Feature
    else Extra
  }

  ghost predicate DistinctIndices(ts: seq<Timed>) {
    forall i, j :: 0 <= i < j < |ts| ==> ts[i].index != ts[j].index
  }

  method Given(ts: seq<Timed>) returns (roles: map<int, Role>, picked: bool)
    requires DistinctIndices(ts)
    ensures roles.Keys == set k | 0 <= k < |ts| :: ts[k].index
    ensures forall k :: 0 <= k < |ts| ==> roles[ts[k].index] == ts[k].role
    ensures picked == Picked(ts)
  {
    roles, picked := map[], false;
    for i := 0 to |ts|
      invariant roles.Keys == set k | 0 <= k < i :: ts[k].index
      invariant forall k :: 0 <= k < i ==> roles[ts[k].index] == ts[k].role
      invariant picked <==> exists k :: 0 <= k < i && ts[k].role == Feature
    {
      roles := roles[ts[i].index := ts[i].role];
      picked := picked || ts[i].role == Feature;
    }
  }

  method For(film: bool, ts: seq<Timed>) returns (roles: map<int, Role>)
    requires DistinctIndices(ts)
    ensures roles.Keys == set k | 0 <= k < |ts| :: ts[k].index
    ensures forall k :: 0 <= k < |ts| ==> roles[ts[k].index] == Resolved(film, ts, ts[k])
  {
    var picked;
    roles, picked := Given(ts);
    if !film || picked {
      return;
    }
    var feature := FeatureIndex(ts);
    ghost var keys := roles.Keys;
    for i := 0 to |ts|
      invariant roles.Keys == keys
      invariant forall k :: 0 <= k < i ==> roles[ts[k].index] == Resolved(film, ts, ts[k])
      invariant forall k :: i <= k < |ts| ==> roles[ts[k].index] == ts[k].role
    {
      var index := ts[i].index;
      if roles[index] == Unset {
        roles := roles[index := if feature == Some(index) then Feature else Extra];
      }
    }
  }

  // ---------- what that promises ----------

  /** Nobody's choice is second-guessed, a television disc is left alone, and a film disc
      gets at most one feature it did not already have. */
  lemma OneFeature(film: bool, ts: seq<Timed>, i: nat, j: nat)
    requires DistinctIndices(ts) && i < |ts| && j < |ts|
    ensures ts[i].role != Unset || !film ==> Resolved(film, ts, ts[i]) == ts[i].role
    ensures Resolved(film, ts, ts[i]) == Feature && Resolved(film, ts, ts[j]) == Feature && i != j ==>
      ts[i].role == Feature && ts[j].role == Feature
  {
    if i != j {
      assert ts[i].index != ts[j].index;
    }
  }

  /** A film disc nobody chose a feature on has none left unset; it gets a feature exactly
      when the disc is shaped like a film and its longest title is still unset. */
  lemma FeatureChosenIff(ts: seq<Timed>)
    requires DistinctIndices(ts) && forall t :: t in ts ==> t.role != Feature
    ensures (exists t :: t in ts && Resolved(true, ts, t) == Feature) <==>
      (FeatureIndex(ts).Some? && ts[Longest(ts)].role == Unset)
    ensures forall t :: t in ts ==> Resolved(true, ts, t) != Unset
    ensures forall t :: t in ts && t.role == Unset ==> Resolved(true, ts, t) in {Feature, Extra}
  {
    if FeatureIndex(ts).Some? {
      var top := ts[Longest(ts)];
      assert top in ts;
      forall t | t in ts && t.index == top.index ensures t == top {
        var k :| 0 <= k < |ts| && ts[k] == t;
        assert k == Longest(ts);
      }
    }
  }

  function AtMost(s: seq<int>, x: int): nat {
    if s == [] then 0 else AtMost(s[..|s| - 1], x) + if s[|s| - 1] <= x then 1 else 0
  }

  lemma {:induction false} AtMostWithout(s: seq<int>, x: int, k: nat)
    requires k < |s|
    ensures AtMost(s, x) == AtMost(s[..k] + s[k + 1..], x) + if s[k] <= x then 1 else 0
  {
    var n := |s|;
    if k == n - 1 {
      assert s[..k] + s[k + 1..] == s[..n - 1];
    } else {
      AtMostWithout(s[..n - 1], x, k);
      var rest := s[..k] + s[k + 1..];
      assert s[k + 1..] == s[..n - 1][k + 1..] + [s[n - 1]];
      assert rest == (s[..n - 1][..k] + s[..n - 1][k + 1..]) + [s[n - 1]];
      assert rest[..|rest| - 1] == s[..n - 1][..k] + s[..n - 1][k + 1..];
    }
  }

  lemma MultisetWithout(s: seq<int>, k: nat)
    requires k < |s|
    ensures multiset(s[..k] + s[k + 1..]) == multiset(s) - multiset{s[k]}
  {
    var a, b := s[..k], s[k + 1..];
    assert s == (a + [s[k]]) + b;
    assert multiset(s) == multiset(a) + multiset{s[k]} + multiset(b);
    assert multiset(a + b) == multiset(a) + multiset(b);
  }

  lemma {:induction false} AtMostPermutes(a: seq<int>, b: seq<int>, x: int)
    requires multiset(a) == multiset(b)
    ensures AtMost(a, x) == AtMost(b, x)
    decreases |a|
  {
    assert |a| == |multiset(a)| == |multiset(b)| == |b|;
    if a != [] {
      var n := |a|;
      assert a[n - 1] in multiset(b);
      var k :| 0 <= k < |b| && b[k] == a[n - 1];
      AtMostWithout(b, x, k);
      AtMostWithout(a, x, n - 1);
      MultisetWithout(a, n - 1);
      MultisetWithout(b, k);
      AtMostPermutes(a[..n - 1] + a[n..], b[..k] + b[k + 1..], x);
    }
  }

  lemma {:induction false} AtMostPrefix(s: seq<int>, x: int, m: nat)
    requires m <= |s| && forall i :: 0 <= i < m ==> s[i] <= x
    ensures AtMost(s, x) >= m
  {
    if m > 0 {
      var n := |s|;
      if m < n {
        AtMostPrefix(s[..n - 1], x, m);
      } else {
        AtMostPrefix(s[..n - 1], x, m - 1);
      }
    }
  }

  /** At least half of any list is no longer than its median. */
  lemma MedianHalves(s: seq<int>)
    requires s != []
    ensures AtMost(s, Median(s)) >= (|s| + 1) / 2
  {
    var sorted, med := Sort(s, IntLeq()), Median(s);
    SortLength(s);
    LowerHalf(s);
    AtMostPrefix(sorted, med, (|s| + 1) / 2);
    AtMostPermutes(sorted, s, med);
  }

  lemma LowerHalf(s: seq<int>)
    requires s != []
    ensures var sorted := Sort(s, IntLeq());
      |sorted| == |s| && forall i :: 0 <= i < (|s| + 1) / 2 ==> sorted[i] <= Median(s)
  {
    var sorted, mid, m := Sort(s, IntLeq()), |s| / 2, (|s| + 1) / 2;
    SortLength(s);
    assert |s| % 2 == 0 ==> IntLeq()(sorted[mid - 1], sorted[mid]);
    assert sorted[m - 1] <= Median(s);
    forall i | 0 <= i < m ensures sorted[i] <= Median(s) {
      assert i < m - 1 ==> IntLeq()(sorted[i], sorted[m - 1]);
    }
  }

  /** The median is the middle of the list in order or, between two middles, half their sum, rounded
      half away from zero. */
  lemma MedianIs(s: seq<int>) returns (sorted: seq<int>)
    requires s != []
    ensures multiset(sorted) == multiset(s) && |sorted| == |s|
    ensures forall i, j :: 0 <= i < j < |s| ==> sorted[i] <= sorted[j]
    ensures var mid, med := |s| / 2, Median(s);
      if |s| % 2 == 1 then med == sorted[mid]
      else
        var sum := sorted[mid - 1] + sorted[mid];
        if sum % 2 == 0 then 2 * med == sum else if sum > 0 then 2 * med == sum + 1 else 2 * med == sum - 1
  {
    sorted := Sort(s, IntLeq());
    SortLength(s);
    assert forall i, j :: 0 <= i < j < |s| ==> IntLeq()(sorted[i], sorted[j]);
  }

  lemma {:induction false} AtMostMonotone(s: seq<int>, x: int, y: int)
    requires x <= y
    ensures AtMost(s, x) <= AtMost(s, y)
  {
    if s != [] {
      AtMostMonotone(s[..|s| - 1], x, y);
    }
  }

  /** A title promoted to feature runs at least 45 minutes, is the longest, and, unless it is
      alone, at least half the titles run half as long as it or less. */
  lemma FeatureIsLopsided(ts: seq<Timed>)
    requires FeatureIndex(ts).Some?
    ensures var top := ts[Longest(ts)];
      && FeatureIndex(ts) == Some(top.index) && top.secs >= MIN_FEATURE_SECONDS
      && (|ts| > 1 ==> AtMost(Durations(ts), top.secs / 2) >= (|ts| + 1) / 2)
  {
    var top, med := ts[Longest(ts)], Median(Durations(ts));
    if |ts| > 1 {
      MedianHalves(Durations(ts));
      AtMostMonotone(Durations(ts), med, top.secs / 2);
    }
  }

  lemma {:induction false} AtMostBelow(s: seq<int>, x: int, m: nat)
    requires m <= |s| && forall i :: m <= i < |s| ==> s[i] > x
    ensures AtMost(s, x) <= m
  {
    if s != [] {
      AtMostBelow(s[..|s| - 1], x, if m == |s| then m - 1 else m);
    }
  }

  /** The median is at most what more than half the list is at most. */
  lemma MedianBounded(s: seq<int>, x: int)
    requires s != [] && AtMost(s, x) >= |s| / 2 + 1
    ensures Median(s) <= x
  {
    var sorted, mid := Sort(s, IntLeq()), |s| / 2;
    SortLength(s);
    AtMostPermutes(sorted, s, x);
    if sorted[mid] > x {
      forall i | mid <= i < |sorted| ensures sorted[i] > x {
        assert i > mid ==> IntLeq()(sorted[mid], sorted[i]);
      }
      AtMostBelow(sorted, x, mid);
    }
    assert |s| % 2 == 0 ==> IntLeq()(sorted[mid - 1], sorted[mid]);
  }

  /** And a title is promoted when it can be: alone, by running 45 minutes; among others, if more
      than half of them run half as long or less.  With an odd number of titles that is exactly
      what `FeatureIsLopsided` demands; with an even number the median may lie between the two. */
  lemma LopsidedIsFeature(ts: seq<Timed>)
    requires ts != []
    ensures var top := ts[Longest(ts)];
      && (top.secs >= 45 * 60 && (|ts| == 1 || AtMost(Durations(ts), top.secs / 2) >= |ts| / 2 + 1) ==>
            FeatureIndex(ts) == Some(top.index))
      && (|ts| % 2 == 1 ==>
            (FeatureIndex(ts).Some? <==>
             top.secs >= 45 * 60 && (|ts| == 1 || AtMost(Durations(ts), top.secs / 2) >= (|ts| + 1) / 2)))
  {
    var top := ts[Longest(ts)];
    if |ts| > 1 && AtMost(Durations(ts), top.secs / 2) >= |ts| / 2 + 1 {
      MedianBounded(Durations(ts), top.secs / 2);
    }
    if FeatureIndex(ts).Some? {
      FeatureIsLopsided(ts);
    }
  }
}

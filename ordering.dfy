/**
 * The two orders the graph printer visits things in: methods of a thread from
 * the largest total time to the smallest (`methods.sort.reverse`), and threads
 * by ascending id (`threads.sort`).
 */
module Ordering {
  import opened ProfileModel

  ghost predicate DescendingByTotal(s: seq<MethodInfo>) {
    forall i, j :: 0 <= i < j < |s| ==> s[i].totalTime >= s[j].totalTime
  }

  /** Inserts `m` before the first record whose total time is not larger. */
  function InsertByTotal(m: MethodInfo, s: seq<MethodInfo>): (r: seq<MethodInfo>)
    requires DescendingByTotal(s)
    ensures DescendingByTotal(r)
    ensures multiset(r) == multiset(s) + multiset{m}
    ensures |r| == |s| + 1
  {
    if s == [] || m.totalTime >= s[0].totalTime then
      InsertAtFront(m, s);
      [m] + s
    else
      var rest := InsertByTotal(m, s[1..]);
      assert s == [s[0]] + s[1..];
      HeadBoundsInsert(m, s, rest);
      [s[0]] + rest
  }

  lemma {:induction false} InsertAtFront(m: MethodInfo, s: seq<MethodInfo>)
    requires DescendingByTotal(s)
    requires s == [] || m.totalTime >= s[0].totalTime
    ensures DescendingByTotal([m] + s)
  {
    var r := [m] + s;
    forall i, j | 0 <= i < j < |r| ensures r[i].totalTime >= r[j].totalTime {
      if i > 0 {
        assert r[i] == s[i - 1] && r[j] == s[j - 1];
      } else {
        assert r[j] == s[j - 1];
      }
    }
  }

  lemma {:induction false} HeadBoundsInsert(m: MethodInfo, s: seq<MethodInfo>, rest: seq<MethodInfo>)
    requires s != [] && m.totalTime < s[0].totalTime
    requires DescendingByTotal(s) && DescendingByTotal(rest)
    requires multiset(rest) == multiset(s[1..]) + multiset{m}
    ensures DescendingByTotal([s[0]] + rest)
  {
    var r := [s[0]] + rest;
    forall j | 0 < j < |r| ensures s[0].totalTime >= r[j].totalTime {
      var x := rest[j - 1];
      assert x in multiset(rest);
      if x != m {
        assert x in multiset(s[1..]);
        var k :| 0 <= k < |s[1..]| && s[1..][k] == x;
        assert s[k + 1] == x;
      }
    }
    forall i, j | 0 <= i < j < |r| ensures r[i].totalTime >= r[j].totalTime {
      if i > 0 {
        assert r[i] == rest[i - 1] && r[j] == rest[j - 1];
      }
    }
  }

  /**
   * The thread's methods from the largest total time to the smallest. How the
   * profiler's own comparison orders records with equal total times is not
   * modelled; this order keeps them as insertion places them.
   */
  function SortByTotalDescending(s: seq<MethodInfo>): (r: seq<MethodInfo>)
    ensures DescendingByTotal(r)
    ensures multiset(r) == multiset(s)
    ensures |r| == |s|
  {
    if s == [] then []
    else
      assert s == [s[0]] + s[1..];
      InsertByTotal(s[0], SortByTotalDescending(s[1..]))
  }

  /** The largest total time among the records: an independent reference for the sort's head. */
  function MaxTotal(s: seq<MethodInfo>): int
    requires s != []
  {
    if |s| == 1 then s[0].totalTime
    else
      var rest := MaxTotal(s[1..]);
      if s[0].totalTime >= rest then s[0].totalTime else rest
  }

  lemma {:induction false} MaxTotalBounds(s: seq<MethodInfo>)
    requires s != []
    ensures forall m :: m in s ==> m.totalTime <= MaxTotal(s)
    ensures exists m :: m in s && m.totalTime == MaxTotal(s)
  {
    if |s| > 1 {
      MaxTotalBounds(s[1..]);
      assert s == [s[0]] + s[1..];
      if s[0].totalTime < MaxTotal(s[1..]) {
        var w :| w in s[1..] && w.totalTime == MaxTotal(s[1..]);
        assert w in s;
      }
    } else {
      assert s[0] in s;
    }
  }

  /** The first record after sorting has the largest total time of the thread. */
  lemma {:induction false} TopIsLargest(s: seq<MethodInfo>)
    requires s != []
    ensures SortByTotalDescending(s)[0].totalTime == MaxTotal(s)
  {
    var r := SortByTotalDescending(s);
    MaxTotalBounds(s);
    var w :| w in s && w.totalTime == MaxTotal(s);
    assert w in multiset(r);
    var k :| 0 <= k < |r| && r[k] == w;
    assert r[0].totalTime >= w.totalTime;
    assert r[0] in multiset(s);
  }

  lemma {:induction false} NonEmptyHasMember(ids: set<int>)
    requires ids != {}
    ensures exists y :: y in ids
  {
    if forall y :: y !in ids {
      assert false;
    }
  }

  lemma {:induction false} SetHasMinimum(ids: set<int>)
    requires ids != {}
    ensures exists k :: k in ids && forall j :: j in ids ==> k <= j
    decreases |ids|
  {
    NonEmptyHasMember(ids);
    var x :| x in ids;
    var others := ids - {x};
    assert forall j :: j in ids ==> j == x || j in others;
    if others == {} {
      assert forall j :: j in ids ==> x <= j;
    } else {
      SetHasMinimum(others);
      var m :| m in others && forall j :: j in others ==> m <= j;
      var k := if x < m then x else m;
      assert k in ids && forall j :: j in ids ==> k <= j;
    }
  }

  /** The smallest thread id of a non-empty set. */
  function MinOf(ids: set<int>): (k: int)
    requires ids != {}
    ensures k in ids && forall j :: j in ids ==> k <= j
  {
    SetHasMinimum(ids);
    var k :| k in ids && forall j :: j in ids ==> k <= j;
    k
  }

  /** The thread ids in ascending order, each once. */
  function SortedIds(ids: set<int>): (r: seq<int>)
    ensures forall i, j :: 0 <= i < j < |r| ==> r[i] < r[j]
    ensures forall id :: id in r <==> id in ids
    ensures |r| == |ids|
    decreases ids
  {
    if ids == {} then []
    else
      var k := MinOf(ids);
      var rest := SortedIds(ids - {k});
      assert |ids - {k}| == |ids| - 1;
      [k] + rest
  }
}

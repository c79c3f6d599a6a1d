/**
 * What the thread loop of the printer promises: printing fails exactly when a
 * printed thread has no methods, and a failed print leaves the text of the
 * threads before the first such thread, each written whole.
 */
module RenderProperties {
  import opened ProfileModel
  import opened Ordering
  import opened GraphReport

  /** The thread loop fails exactly when one of the threads it visits has no methods. */
  lemma {:induction false} RenderThreadsFailsIff(ids: seq<int>, result: ProfileResult, minPercent: int)
    requires WellFormed(result)
    requires ThreadsKnown(ids, result)
    ensures RenderThreads(ids, result, minPercent).failed <==>
      exists k :: 0 <= k < |ids| && result.threads[ids[k]] == []
  {
    if ids != [] {
      RenderFailedStep(ids, result, minPercent);
      RenderThreadsFailsIff(ids[..|ids| - 1], result, minPercent);
      SomeEmptyStep(ids, result);
    }
  }

  /** Some thread of `ids` has no methods. */
  predicate SomeEmpty(ids: seq<int>, result: ProfileResult)
    requires ThreadsKnown(ids, result)
  {
    exists k :: 0 <= k < |ids| && result.threads[ids[k]] == []
  }

  /** A thread without methods among `ids`: among all but the last, or the last. */
  lemma {:induction false} SomeEmptyStep(ids: seq<int>, result: ProfileResult)
    requires ThreadsKnown(ids, result) && ids != []
    ensures ThreadsKnown(ids[..|ids| - 1], result)
    ensures SomeEmpty(ids, result) <==>
      SomeEmpty(ids[..|ids| - 1], result) || result.threads[ids[|ids| - 1]] == []
  {
    var front := ids[..|ids| - 1];
    ThreadsKnownPrefix(ids, result, |ids| - 1);
    if SomeEmpty(ids, result) {
      var k :| 0 <= k < |ids| && result.threads[ids[k]] == [];
      if k < |front| {
        assert front[k] == ids[k];
      }
    }
    if SomeEmpty(front, result) {
      var k :| 0 <= k < |front| && result.threads[front[k]] == [];
      assert front[k] == ids[k];
    }
  }

  /** The whole report fails exactly when some thread of the result has no methods. */
  lemma RenderFailsIff(result: ProfileResult, minPercent: int)
    requires WellFormed(result)
    ensures Render(result, minPercent).failed <==>
      exists id :: id in result.threads && result.threads[id] == []
  {
    var ids := SortedIds(result.threads.Keys);
    SortedIdsKnown(result);
    RenderThreadsFailsIff(ids, result, minPercent);
    if exists id :: id in result.threads && result.threads[id] == [] {
      var id :| id in result.threads && result.threads[id] == [];
      assert id in ids;
      var k :| 0 <= k < |ids| && ids[k] == id;
      assert result.threads[ids[k]] == [];
    }
  }

  /** `ids[k]` is the first thread of `ids` without methods. */
  predicate FirstEmptyAt(ids: seq<int>, result: ProfileResult, k: int)
    requires ThreadsKnown(ids, result)
  {
    0 <= k < |ids| && result.threads[ids[k]] == [] &&
    forall j :: 0 <= j < k ==> result.threads[ids[j]] != []
  }

  /** The first empty thread of all but the last id is the first empty thread of all of them. */
  lemma {:induction false} FirstEmptyExtends(ids: seq<int>, result: ProfileResult, k: int)
    requires ThreadsKnown(ids, result) && ids != []
    requires ThreadsKnown(ids[..|ids| - 1], result) && FirstEmptyAt(ids[..|ids| - 1], result, k)
    ensures FirstEmptyAt(ids, result, k) && ids[..|ids| - 1][..k] == ids[..k]
  {
    var front := ids[..|ids| - 1];
    assert forall j :: 0 <= j <= k ==> front[j] == ids[j];
  }

  /** When all but the last thread have methods and the last has none, the last is the first empty one. */
  lemma {:induction false} FirstEmptyIsLast(ids: seq<int>, result: ProfileResult)
    requires ThreadsKnown(ids, result) && ids != []
    requires ThreadsKnown(ids[..|ids| - 1], result) && !SomeEmpty(ids[..|ids| - 1], result)
    requires result.threads[ids[|ids| - 1]] == []
    ensures FirstEmptyAt(ids, result, |ids| - 1)
  {
    var front := ids[..|ids| - 1];
    forall j | 0 <= j < |ids| - 1 ensures result.threads[ids[j]] != [] {
      assert front[j] == ids[j];
    }
  }

  /**
   * When the thread loop fails, its text is that of the threads before the
   * first thread without methods, and every one of those threads was written.
   */
  lemma {:induction false} FailedRenderStopsAtFirstEmpty(ids: seq<int>, result: ProfileResult, minPercent: int)
    requires WellFormed(result)
    requires ThreadsKnown(ids, result)
    requires RenderThreads(ids, result, minPercent).failed
    ensures exists k :: (FirstEmptyAt(ids, result, k) &&
      !RenderThreads(ids[..k], result, minPercent).failed &&
      RenderThreads(ids, result, minPercent).text == RenderThreads(ids[..k], result, minPercent).text)
  {
    var front := ids[..|ids| - 1];
    RenderFailedStep(ids, result, minPercent);
    if RenderThreads(front, result, minPercent).failed {
      FailedRenderStopsAtFirstEmpty(front, result, minPercent);
      var k :| FirstEmptyAt(front, result, k) &&
        !RenderThreads(front[..k], result, minPercent).failed &&
        RenderThreads(front, result, minPercent).text == RenderThreads(front[..k], result, minPercent).text;
      FirstEmptyExtends(ids, result, k);
    } else {
      RenderThreadsFailsIff(front, result, minPercent);
      FirstEmptyIsLast(ids, result);
    }
  }

  /** A profile without threads prints nothing and does not fail. */
  lemma EmptyResultRendersNothing(minPercent: int)
    ensures Render(ProfileResult(map[]), minPercent) == Rendered([], false)
  {
    var none: map<int, seq<MethodInfo>> := map[];
    assert SortedIds(none.Keys) == [];
  }
}

/**
 * The profile result the graph printer reads: for each thread id, the
 * records of the methods observed on that thread. The profiling engine that
 * builds these records is not part of this model; the printer only reads them.
 *
 * Times are counts of hundredths of a second (the printer shows them with two
 * decimals). A call edge names the method at its other end by its index in
 * the thread's sequence of method records, which stands for the object
 * reference the engine stores.
 */
module ProfileModel {

  /** One caller-to-callee relationship, with the cost attributed to it. */
  datatype CallInfo = CallInfo(
    target: nat,
    totalTime: int,
    selfTime: int,
    childrenTime: int,
    called: int)

  /** The statistics of one method on one thread, with its callers and callees. */
  datatype MethodInfo = MethodInfo(
    name: string,
    totalTime: int,
    selfTime: int,
    childrenTime: int,
    called: int,
    parents: seq<CallInfo>,
    children: seq<CallInfo>)

  /** The result of a profiling run: thread id to that thread's methods. */
  datatype ProfileResult = ProfileResult(threads: map<int, seq<MethodInfo>>)

  predicate EdgesWithin(edges: seq<CallInfo>, n: nat) {
    forall i :: 0 <= i < |edges| ==> edges[i].target < n
  }

  /** The edges of a prefix of an edge list stay within bounds. */
  lemma {:induction false} EdgesPrefix(edges: seq<CallInfo>, n: nat, k: nat)
    requires EdgesWithin(edges, n) && k <= |edges|
    ensures EdgesWithin(edges[..k], n)
  {
  }

  /** Every edge of every record in `ms` points at one of `n` method records. */
  predicate AllEdgesWithin(ms: seq<MethodInfo>, n: nat) {
    forall i :: 0 <= i < |ms| ==> EdgesWithin(ms[i].parents, n) && EdgesWithin(ms[i].children, n)
  }

  /** The records of a prefix keep their edges within bounds. */
  lemma {:induction false} AllEdgesPrefix(ms: seq<MethodInfo>, n: nat, k: nat)
    requires AllEdgesWithin(ms, n) && k <= |ms|
    ensures AllEdgesWithin(ms[..k], n)
  {
  }

  /** Every edge of every method of the thread points at a method of the thread. */
  predicate ThreadWellFormed(methods: seq<MethodInfo>) {
    AllEdgesWithin(methods, |methods|)
  }

  /** Every id of `ids` names a thread of the result. */
  predicate ThreadsKnown(ids: seq<int>, result: ProfileResult) {
    forall k :: 0 <= k < |ids| ==> ids[k] in result.threads
  }

  lemma {:induction false} ThreadsKnownPrefix(ids: seq<int>, result: ProfileResult, k: nat)
    requires ThreadsKnown(ids, result) && k <= |ids|
    ensures ThreadsKnown(ids[..k], result)
  {
  }

  predicate WellFormed(result: ProfileResult) {
    forall id :: id in result.threads ==> ThreadWellFormed(result.threads[id])
  }
}

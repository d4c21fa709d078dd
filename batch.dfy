/** What the sequential request loop of `postToApi` makes of the per-request
    outcomes: `None` is a request that threw (network error, error status,
    unreadable body), `Some(rs)` the result array of a request that succeeded. */
module Batch {
  import opened Wrappers

  /** The accumulated results when every request succeeds, nothing otherwise;
      written as the loop builds it, one request after another. */
  function Accumulate<T>(outcomes: seq<Option<seq<T>>>): Option<seq<T>>
    decreases |outcomes|
  {
    if |outcomes| == 0 then Some([])
    else
      match (Accumulate(outcomes[..|outcomes| - 1]), outcomes[|outcomes| - 1])
      case (Some(acc), Some(rs)) => Some(acc + rs)
      case _ => None
  }

  /** The number of results all the successful requests return together. */
  function TotalLength<T>(outcomes: seq<Option<seq<T>>>): nat
    decreases |outcomes|
  {
    if |outcomes| == 0 then 0
    else
      var last := outcomes[|outcomes| - 1];
      TotalLength(outcomes[..|outcomes| - 1]) + (if last.Some? then |last.value| else 0)
  }

  /** The index of the first request that fails, if any. */
  function FirstFailure<T>(outcomes: seq<Option<seq<T>>>): (r: Option<nat>)
    ensures r.Some? ==> r.value < |outcomes| && outcomes[r.value].None?
    ensures r.Some? ==> forall j :: 0 <= j < r.value ==> outcomes[j].Some?
    ensures r.None? <==> forall j :: 0 <= j < |outcomes| ==> outcomes[j].Some?
    decreases |outcomes|
  {
    if |outcomes| == 0 then None
    else if outcomes[0].None? then Some(0)
    else
      match FirstFailure(outcomes[1..])
      case Some(k) => Some(k + 1)
      case None => None
  }

  /** The loop's result is present exactly when no request fails. */
  lemma {:induction false} AccumulateSucceeds<T>(outcomes: seq<Option<seq<T>>>)
    ensures Accumulate(outcomes).Some? <==> forall j :: 0 <= j < |outcomes| ==> outcomes[j].Some?
    ensures Accumulate(outcomes).Some? <==> FirstFailure(outcomes).None?
    decreases |outcomes|
  {
    if |outcomes| > 0 {
      var init := outcomes[..|outcomes| - 1];
      AccumulateSucceeds(init);
      assert forall j :: 0 <= j < |init| ==> init[j] == outcomes[j];
    }
  }

  /** A single failing request, wherever it stands, discards every result. */
  lemma AccumulateFails<T>(outcomes: seq<Option<seq<T>>>, k: nat)
    requires k < |outcomes| && outcomes[k].None?
    ensures Accumulate(outcomes) == None
  {
  }

  /** When every request succeeds, the result count is the sum of the per-request counts. */
  lemma {:induction false} AccumulateLength<T>(outcomes: seq<Option<seq<T>>>)
    requires Accumulate(outcomes).Some?
    ensures |Accumulate(outcomes).value| == TotalLength(outcomes)
    decreases |outcomes|
  {
    if |outcomes| > 0 {
      AccumulateLength(outcomes[..|outcomes| - 1]);
    }
  }

  /** When every request succeeds, request `k`'s results sit, in the order the
      service returned them, right after those of requests 0 .. k-1. */
  lemma {:induction false} AccumulateOrder<T>(outcomes: seq<Option<seq<T>>>, k: nat)
    requires Accumulate(outcomes).Some?
    requires k < |outcomes|
    ensures outcomes[k].Some?
    ensures TotalLength(outcomes[..k]) + |outcomes[k].value| <= |Accumulate(outcomes).value|
    ensures Accumulate(outcomes).value[TotalLength(outcomes[..k])..TotalLength(outcomes[..k]) + |outcomes[k].value|]
         == outcomes[k].value
    decreases |outcomes|
  {
    var n := |outcomes|;
    var init := outcomes[..n - 1];
    AccumulateLength(init);
    var acc := Accumulate(init).value;
    var all := Accumulate(outcomes).value;
    assert all == acc + outcomes[n - 1].value;
    if k == n - 1 {
      assert outcomes[..k] == init;
    } else {
      AccumulateOrder(init, k);
      assert init[..k] == outcomes[..k];
      assert init[k] == outcomes[k];
      var lo := TotalLength(outcomes[..k]);
      var hi := lo + |outcomes[k].value|;
      assert all[lo..hi] == acc[lo..hi];
    }
  }

  /** Accumulating one more successful request appends its results. */
  lemma AccumulateStep<T>(outcomes: seq<Option<seq<T>>>, i: nat)
    requires i < |outcomes|
    ensures Accumulate(outcomes[..i + 1]) ==
            match (Accumulate(outcomes[..i]), outcomes[i])
            case (Some(acc), Some(rs)) => Some(acc + rs)
            case _ => None
  {
    assert outcomes[..i + 1][..i] == outcomes[..i];
  }

  /** The three requests of a 450-descriptor upload: the third fails after two succeed,
      and nothing of the first two is kept. */
  lemma AccumulateExample<T>(r0: seq<T>, r1: seq<T>)
    ensures Accumulate([Some(r0), Some(r1), None]) == None
    ensures FirstFailure([Some(r0), Some(r1), None]) == Some(2)
  {
  }
}

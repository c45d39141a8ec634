/** Helpers shared by both versions of the cluster: optional values, results,
    and the least-loaded server selection done by Python's `min(..., key=...)`. */
module Common {

  datatype Option<+T> = None | Some(value: T)

  datatype Result<+R, +E> = Success(value: R) | Failure(error: E)

  /** Index chosen by `min(servers, key=lambda server: server.time_left)`.
      Python's `min` scans left to right and replaces its candidate only on a
      strictly smaller key, so the result is the FIRST index whose load is
      minimal. */
  function QuickestIndex(loads: seq<int>): (k: nat)
    requires |loads| > 0
    ensures k < |loads|
    ensures forall j :: 0 <= j < |loads| ==> loads[k] <= loads[j]
    ensures forall j :: 0 <= j < k ==> loads[k] < loads[j]
  {
    if |loads| == 1 then 0
    else
      var k := QuickestIndex(loads[..|loads| - 1]);
      if loads[|loads| - 1] < loads[k] then |loads| - 1 else k
  }

  /** The two properties of QuickestIndex single out one index: any index that
      is minimal and strictly below every earlier load is the chosen one. */
  lemma QuickestIndexIsUnique(loads: seq<int>, i: nat)
    requires i < |loads|
    requires forall j :: 0 <= j < |loads| ==> loads[i] <= loads[j]
    requires forall j :: 0 <= j < i ==> loads[i] < loads[j]
    ensures i == QuickestIndex(loads)
  {
  }
}

/**
 * The per-task scan in `split`: walk a dataset's target array from index 0
 * upward and append every index whose label is in the task's scope.
 */
module IndexFilter {

  /** The indices `j < n` whose target lies in `scope`, in the order the scan appends them. */
  function MatchingPrefix(targets: seq<int>, scope: seq<int>, n: nat): seq<nat>
    requires n <= |targets|
  {
    if n == 0 then []
    else MatchingPrefix(targets, scope, n - 1) + (if targets[n - 1] in scope then [n - 1] else [])
  }

  /** The indices of the whole target array whose target lies in `scope`. */
  function Matching(targets: seq<int>, scope: seq<int>): seq<nat>
  {
    MatchingPrefix(targets, scope, |targets|)
  }

  /** `s` is strictly increasing. */
  predicate StrictlyIncreasing(s: seq<nat>)
  {
    forall i, j :: 0 <= i < j < |s| ==> s[i] < s[j]
  }

  /**
   * The scan of the first `n` samples keeps exactly the indices below `n`
   * whose label is in the scope, each once, in ascending order.
   */
  lemma {:induction false} MatchingPrefixExact(targets: seq<int>, scope: seq<int>, n: nat)
    requires n <= |targets|
    ensures forall j: int :: j in MatchingPrefix(targets, scope, n) <==> 0 <= j < n && targets[j] in scope
    ensures forall i :: 0 <= i < |MatchingPrefix(targets, scope, n)| ==> MatchingPrefix(targets, scope, n)[i] < n
    ensures StrictlyIncreasing(MatchingPrefix(targets, scope, n))
  {
    if n > 0 {
      MatchingPrefixExact(targets, scope, n - 1);
    }
  }

  /**
   * The index list of a task: every index of `targets` whose label is in the
   * scope, and nothing else, in the dataset's own order.
   */
  lemma MatchingExact(targets: seq<int>, scope: seq<int>)
    ensures forall j: int :: j in Matching(targets, scope) <==> 0 <= j < |targets| && targets[j] in scope
    ensures forall i :: 0 <= i < |Matching(targets, scope)| ==> Matching(targets, scope)[i] < |targets|
    ensures StrictlyIncreasing(Matching(targets, scope))
  {
    MatchingPrefixExact(targets, scope, |targets|);
  }

  /** An empty scope selects no sample. */
  lemma {:induction false} MatchingEmptyScope(targets: seq<int>, n: nat)
    requires n <= |targets|
    ensures MatchingPrefix(targets, [], n) == []
  {
    if n > 0 {
      MatchingEmptyScope(targets, n - 1);
    }
  }

  /** Scopes that share no label select no common sample. */
  lemma MatchingDisjoint(targets: seq<int>, s1: seq<int>, s2: seq<int>, j: int)
    requires forall x :: x in s1 ==> x !in s2
    ensures !(j in Matching(targets, s1) && j in Matching(targets, s2))
  {
    if 0 <= j < |targets| {
      var x := targets[j];
      assert x in s1 ==> x !in s2;
    }
    MatchingExact(targets, s1);
    MatchingExact(targets, s2);
  }

  /**
   * The scan itself: one pass over `targets`, appending each index whose
   * label is in `scope`.
   */
  method CollectIndices(targets: seq<int>, scope: seq<int>) returns (indices: seq<nat>)
    ensures indices == Matching(targets, scope)
    ensures forall j: int :: j in indices <==> 0 <= j < |targets| && targets[j] in scope
    ensures StrictlyIncreasing(indices)
  {
    indices := [];
    for k := 0 to |targets|
      invariant indices == MatchingPrefix(targets, scope, k)
    {
      if targets[k] in scope {
        indices := indices + [k];
      }
    }
    MatchingExact(targets, scope);
  }
}

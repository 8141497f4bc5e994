/**
 * The class labels of a dataset and how `split` cuts them into task scopes:
 * the label list `0 .. nb_classes-1` (possibly shuffled) loses its first
 * `classes_per_task` labels once per task, and what it loses is that task's scope.
 */
module TaskPlan {

  function Min(a: int, b: int): int { if a <= b then a else b }

  /** The label list `[0, 1, ..., n-1]` built before any shuffle. */
  function LabelSpace(n: nat): seq<int>
  {
    seq(n, i => i)
  }

  /** No label occurs twice in `s`. */
  predicate Distinct(s: seq<int>)
  {
    forall i, j :: 0 <= i < j < |s| ==> s[i] != s[j]
  }

  /** `p` is an ordering of the labels `0 .. n-1`: every result `random.shuffle` can leave. */
  predicate IsLabelPermutation(p: seq<int>, n: nat)
  {
    |p| == n && (forall i :: 0 <= i < |p| ==> 0 <= p[i] < n) && Distinct(p)
  }

  /** The unshuffled label list is itself an ordering of the label space. */
  lemma LabelSpaceIsPermutation(n: nat)
    ensures IsLabelPermutation(LabelSpace(n), n)
  {
  }

  /** Python's `s[:k]` for `k >= 0`: the first `k` labels, or all of them when fewer remain. */
  function Head(s: seq<int>, k: nat): (r: seq<int>)
    ensures |r| == Min(k, |s|)
    ensures forall i :: 0 <= i < |r| ==> r[i] == s[i]
  {
    s[..Min(k, |s|)]
  }

  /** Python's `s[k:]` for `k >= 0`: what is left once `Head(s, k)` is cut off. */
  function Tail(s: seq<int>, k: nat): (r: seq<int>)
    ensures Head(s, k) + r == s
  {
    s[Min(k, |s|)..]
  }

  /**
   * Where task `t`'s scope starts in the label list: `t * k` (see
   * `OffsetIsProduct`), written as `k` added `t` times, one per loop iteration.
   */
  function Offset(t: nat, k: nat): nat
  {
    if t == 0 then 0 else Offset(t - 1, k) + k
  }

  lemma {:induction false} OffsetIsProduct(t: nat, k: nat)
    ensures Offset(t, k) == t * k
  {
    if t > 0 {
      OffsetIsProduct(t - 1, k);
      assert (t - 1) * k + k == t * k;
    }
  }

  lemma {:induction false} OffsetMonotone(t1: nat, t2: nat, k: nat)
    requires t1 < t2
    ensures Offset(t1, k) + k <= Offset(t2, k)
  {
    if t1 < t2 - 1 {
      OffsetMonotone(t1, t2 - 1, k);
    }
  }

  /** The labels still in the list once `t` tasks have each cut off `k` of them. */
  function Remaining(labels: seq<int>, k: nat, t: nat): seq<int>
  {
    labels[Min(Offset(t, k), |labels|)..]
  }

  /** The scope of task `t`: positions `t*k .. (t+1)*k` of the label list, clipped to its end. */
  function Scope(labels: seq<int>, k: nat, t: nat): seq<int>
  {
    labels[Min(Offset(t, k), |labels|)..Min(Offset(t, k) + k, |labels|)]
  }

  /** The scopes of the first `n` tasks, in task order. */
  function Scopes(labels: seq<int>, k: nat, n: nat): seq<seq<int>>
  {
    seq(n, t requires 0 <= t => Scope(labels, k, t))
  }

  /** Recording one more task's scope extends the list of scopes by that task. */
  lemma ScopesSnoc(labels: seq<int>, k: nat, n: nat)
    ensures Scopes(labels, k, n) + [Scope(labels, k, n)] == Scopes(labels, k, n + 1)
  {
  }

  /** The scopes laid end to end. */
  function Flatten(ss: seq<seq<int>>): seq<int>
  {
    if ss == [] then [] else Flatten(ss[..|ss| - 1]) + ss[|ss| - 1]
  }

  /**
   * One iteration of the loop in `split`: cutting `k` labels off the list that
   * `t` tasks have left gives scope `t`, and leaves the list for task `t + 1`.
   */
  lemma ScopeStep(labels: seq<int>, k: nat, t: nat)
    ensures Head(Remaining(labels, k, t), k) == Scope(labels, k, t)
    ensures Tail(Remaining(labels, k, t), k) == Remaining(labels, k, t + 1)
  {
  }

  /** Before any task, the whole label list remains. */
  lemma RemainingInitially(labels: seq<int>, k: nat)
    ensures Remaining(labels, k, 0) == labels
  {
  }

  /** Growing the prefix of the label list by one task adds exactly that task's scope. */
  lemma PrefixStep(labels: seq<int>, k: nat, n: nat)
    ensures labels[..Min(Offset(n + 1, k), |labels|)] == labels[..Min(Offset(n, k), |labels|)] + Scope(labels, k, n)
  {
    assert Offset(n + 1, k) == Offset(n, k) + k;
  }

  /**
   * The scopes of the first `n` tasks, laid end to end, are exactly the first
   * `n * k` labels of the list (all of it when it is shorter): scopes are
   * consecutive and do not overlap, and the labels past `n * k` belong to no task.
   */
  lemma {:induction false} ScopesCover(labels: seq<int>, k: nat, n: nat)
    ensures Flatten(Scopes(labels, k, n)) == labels[..Min(Offset(n, k), |labels|)]
    ensures |Flatten(Scopes(labels, k, n))| == Min(Offset(n, k), |labels|)
  {
    if n > 0 {
      var ss := Scopes(labels, k, n);
      assert ss[..n - 1] == Scopes(labels, k, n - 1);
      ScopesCover(labels, k, n - 1);
      PrefixStep(labels, k, n - 1);
    }
  }

  /** A label belongs to one of the first `n` scopes iff it is among the first `n * k` labels. */
  lemma {:induction false} InSomeScope(labels: seq<int>, k: nat, n: nat, x: int)
    ensures x in labels[..Min(Offset(n, k), |labels|)] <==> exists t :: 0 <= t < n && x in Scope(labels, k, t)
  {
    if n > 0 {
      InSomeScope(labels, k, n - 1, x);
      PrefixStep(labels, k, n - 1);
      if x in Scope(labels, k, n - 1) {
        assert x in labels[..Min(Offset(n, k), |labels|)];
      }
    }
  }

  /** A scope holds `k` labels as long as the list has them, and none once it has run out. */
  lemma ScopeSize(labels: seq<int>, k: nat, t: nat)
    ensures Offset(t, k) + k <= |labels| ==> |Scope(labels, k, t)| == k
    ensures |labels| <= Offset(t, k) ==> Scope(labels, k, t) == []
  {
  }

  /** Once the labels have run out, every later scope is empty. */
  lemma ScopesEmptyAfter(labels: seq<int>, k: nat, t: nat, u: nat)
    requires |labels| <= Offset(t, k)
    requires t <= u
    ensures Scope(labels, k, u) == []
  {
    if t < u {
      OffsetMonotone(t, u, k);
    }
  }

  /** Scope `t` holds the labels at positions `t*k ..` of the list, in list order. */
  lemma ScopeAt(labels: seq<int>, k: nat, t: nat, i: nat)
    requires Offset(t, k) + i < |labels| && i < k
    ensures i < |Scope(labels, k, t)| && Scope(labels, k, t)[i] == labels[Offset(t, k) + i]
  {
  }

  /** With distinct labels, two slices at non-overlapping positions share no label. */
  lemma SlicesDisjoint(labels: seq<int>, a1: nat, b1: nat, a2: nat, b2: nat, x: int)
    requires Distinct(labels)
    requires a1 <= b1 <= a2 <= b2 <= |labels|
    ensures !(x in labels[a1..b1] && x in labels[a2..b2])
  {
  }

  /** With distinct labels, no label lies in the scopes of two different tasks. */
  lemma ScopesDisjoint(labels: seq<int>, k: nat, t1: nat, t2: nat, x: int)
    requires Distinct(labels)
    requires t1 != t2
    ensures !(x in Scope(labels, k, t1) && x in Scope(labels, k, t2))
  {
    var lo, hi := if t1 < t2 then t1 else t2, if t1 < t2 then t2 else t1;
    OffsetMonotone(lo, hi, k);
    var n := |labels|;
    var a1, a2 := Offset(lo, k), Offset(hi, k);
    SlicesDisjoint(labels, Min(a1, n), Min(a1 + k, n), Min(a2, n), Min(a2 + k, n), x);
  }

  /** Every scope cut from an ordering of the label space holds labels of that space only. */
  lemma ScopeInLabelSpace(p: seq<int>, n: nat, k: nat, t: nat, x: int)
    requires IsLabelPermutation(p, n)
    requires x in Scope(p, k, t)
    ensures 0 <= x < n
  {
  }

  /**
   * Without shuffling, each scope is the ascending block of labels
   * `t*k, t*k+1, ..`, up to `n` (a full block `t*k .. t*k+k-1` when `(t+1)*k <= n`).
   */
  lemma UnshuffledScope(n: nat, k: nat, t: nat)
    ensures var s := Scope(LabelSpace(n), k, t);
      |s| == Min(Offset(t, k) + k, n) - Min(Offset(t, k), n) &&
      forall i :: 0 <= i < |s| ==> s[i] == Offset(t, k) + i
  {
  }
}

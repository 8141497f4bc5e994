/**
 * `ContinualDataLoader.split`: cut the class labels into one scope per task,
 * and build for each task a train and a val loader over the samples whose
 * label lies in its scope, plus the optional class mask.
 *
 * A dataset is reduced to its `targets` array; a loader to the index list it
 * wraps and the parameters it is built with.
 */
module ContinualDataLoader {
  import opened Wrappers
  import opened TaskPlan
  import opened IndexFilter

  /** The run's configuration fields that `split` reads. */
  datatype Args = Args(
    nbClasses: nat,
    numTasks: nat,
    classesPerTask: nat,
    shuffle: bool,
    taskInc: bool,
    trainMask: bool,
    batchSize: int,
    numWorkers: int,
    pinMem: bool)

  /** A batched loader over the samples at `indices` of one dataset. */
  datatype Loader = Loader(
    indices: seq<nat>,
    batchSize: int,
    numWorkers: int,
    pinMemory: bool,
    dropLast: bool)

  /** The record `{'train': ..., 'val': ...}` that `split` appends per task. */
  datatype TaskLoaders = TaskLoaders(train: Loader, val: Loader)

  /** `int(1.5 * b)`: one and a half times `b`, truncated toward zero. */
  function ValBatchSize(b: int): (r: int)
    ensures b >= 0 ==> 0 <= 2 * r <= 3 * b < 2 * r + 2
    ensures b < 0 ==> 2 * r - 2 < 3 * b <= 2 * r <= 0
  {
    if b >= 0 then 3 * b / 2 else -(-3 * b / 2)
  }

  /**
   * `x - 10*(x//10)`, with Python's floor division (Dafny's `/` by a positive
   * divisor floors as well): the last decimal digit of `x`, so labels
   * `10*t .. 10*t+9` all map to `0 .. 9`.
   */
  function TargetTransform(x: int): (r: int)
    ensures 0 <= r < 10
    ensures (x - r) % 10 == 0
  {
    x - 10 * (x / 10)
  }

  /** The label list once the optional shuffle has run; `shuffled` is what `random.shuffle` produced. */
  function InitialLabels(args: Args, shuffled: seq<int>): seq<int>
  {
    if args.shuffle then shuffled else LabelSpace(args.nbClasses)
  }

  /** The scope of task `t` in a run with these arguments. */
  function TaskScope(args: Args, shuffled: seq<int>, t: nat): seq<int>
  {
    Scope(InitialLabels(args, shuffled), args.classesPerTask, t)
  }

  /** The two loaders `split` builds for a task with this scope. */
  function TaskLoadersFor(args: Args, scope: seq<int>, trainTargets: seq<int>, valTargets: seq<int>): TaskLoaders
  {
    TaskLoaders(
      Loader(Matching(trainTargets, scope), args.batchSize, args.numWorkers, args.pinMem, true),
      Loader(Matching(valTargets, scope), ValBatchSize(args.batchSize), args.numWorkers, args.pinMem, false))
  }

  /** The task records of the first `n` tasks cut from `labels`, in task order. */
  function TaskLoadersUpTo(args: Args, labels: seq<int>, trainTargets: seq<int>, valTargets: seq<int>, n: nat): seq<TaskLoaders>
  {
    seq(n, t requires 0 <= t => TaskLoadersFor(args, Scope(labels, args.classesPerTask, t), trainTargets, valTargets))
  }

  /** Appending task `n`'s record to the first `n` records gives the first `n + 1`. */
  lemma TaskLoadersSnoc(args: Args, labels: seq<int>, trainTargets: seq<int>, valTargets: seq<int>, n: nat)
    ensures TaskLoadersUpTo(args, labels, trainTargets, valTargets, n)
      + [TaskLoadersFor(args, Scope(labels, args.classesPerTask, n), trainTargets, valTargets)]
      == TaskLoadersUpTo(args, labels, trainTargets, valTargets, n + 1)
  {
  }

  /** What the lemmas below assume of `shuffled`: a shuffle yields an ordering of the label space. */
  predicate ShuffleValid(args: Args, shuffled: seq<int>)
  {
    args.shuffle ==> IsLabelPermutation(shuffled, args.nbClasses)
  }

  /**
   * The loop of `split`: `num_tasks` times, cut `classes_per_task` labels off
   * the front of the list as the task's scope, record it in the class mask if
   * there is one, scan both target arrays for the samples in scope, and append
   * the task's train and val loaders.
   */
  method Split(args: Args, shuffled: seq<int>, trainTargets: seq<int>, valTargets: seq<int>)
    returns (dataloader: seq<TaskLoaders>, classMask: Option<seq<seq<int>>>)
    ensures |dataloader| == args.numTasks
    ensures forall t :: 0 <= t < args.numTasks ==>
      dataloader[t] == TaskLoadersFor(args, TaskScope(args, shuffled, t), trainTargets, valTargets)
    ensures classMask.None? <==> !args.taskInc && !args.trainMask
    ensures classMask.Some? ==>
      |classMask.value| == args.numTasks &&
      forall t :: 0 <= t < args.numTasks ==> classMask.value[t] == TaskScope(args, shuffled, t)
  {
    dataloader := [];
    var labels := LabelSpace(args.nbClasses);
    if args.shuffle {
      labels := shuffled;
    }
    ghost var initial := labels;
    assert initial == InitialLabels(args, shuffled);
    RemainingInitially(initial, args.classesPerTask);

    classMask := if args.taskInc || args.trainMask then Some([]) else None;

    for t := 0 to args.numTasks
      invariant labels == Remaining(initial, args.classesPerTask, t)
      invariant dataloader == TaskLoadersUpTo(args, initial, trainTargets, valTargets, t)
      invariant classMask.None? <==> !args.taskInc && !args.trainMask
      invariant classMask.Some? ==> classMask.value == Scopes(initial, args.classesPerTask, t)
    {
      ScopeStep(initial, args.classesPerTask, t);
      var scope := Head(labels, args.classesPerTask);
      labels := Tail(labels, args.classesPerTask);
      assert scope == Scope(initial, args.classesPerTask, t);

      if classMask.Some? {
        ScopesSnoc(initial, args.classesPerTask, t);
        classMask := Some(classMask.value + [scope]);
      }

      var trainSplitIndices := CollectIndices(trainTargets, scope);
      var testSplitIndices := CollectIndices(valTargets, scope);

      var dataLoaderTrain := Loader(trainSplitIndices, args.batchSize, args.numWorkers, args.pinMem, true);
      var dataLoaderVal := Loader(testSplitIndices, ValBatchSize(args.batchSize), args.numWorkers, args.pinMem, false);

      assert TaskLoaders(dataLoaderTrain, dataLoaderVal) == TaskLoadersFor(args, scope, trainTargets, valTargets);
      TaskLoadersSnoc(args, initial, trainTargets, valTargets, t);
      dataloader := dataloader + [TaskLoaders(dataLoaderTrain, dataLoaderVal)];
    }
  }

  /**
   * Each task's train (val) loader wraps exactly the indices of the train (val)
   * targets whose label is in the task's scope, in ascending dataset order.
   */
  lemma TaskSubsetsExact(args: Args, shuffled: seq<int>, trainTargets: seq<int>, valTargets: seq<int>, t: nat)
    ensures var tl := TaskLoadersFor(args, TaskScope(args, shuffled, t), trainTargets, valTargets);
      var scope := TaskScope(args, shuffled, t);
      (forall j: int :: j in tl.train.indices <==> 0 <= j < |trainTargets| && trainTargets[j] in scope) &&
      (forall j: int :: j in tl.val.indices <==> 0 <= j < |valTargets| && valTargets[j] in scope) &&
      StrictlyIncreasing(tl.train.indices) && StrictlyIncreasing(tl.val.indices)
  {
    var scope := TaskScope(args, shuffled, t);
    MatchingExact(trainTargets, scope);
    MatchingExact(valTargets, scope);
  }

  /** The train loader keeps batches of `batch_size` and drops the last partial one; the val loader keeps all. */
  lemma TaskLoaderParameters(args: Args, scope: seq<int>, trainTargets: seq<int>, valTargets: seq<int>)
    ensures var tl := TaskLoadersFor(args, scope, trainTargets, valTargets);
      tl.train.batchSize == args.batchSize && tl.train.dropLast &&
      (args.batchSize >= 0 ==> 2 * tl.val.batchSize <= 3 * args.batchSize < 2 * tl.val.batchSize + 2) &&
      !tl.val.dropLast &&
      tl.train.numWorkers == tl.val.numWorkers == args.numWorkers &&
      tl.train.pinMemory == tl.val.pinMemory == args.pinMem
  {
  }

  /** When the label list is an ordering of the label space, no label is in two tasks' scopes. */
  lemma TaskScopesDisjoint(args: Args, shuffled: seq<int>, t1: nat, t2: nat, x: int)
    requires ShuffleValid(args, shuffled)
    requires t1 != t2
    ensures !(x in TaskScope(args, shuffled, t1) && x in TaskScope(args, shuffled, t2))
  {
    LabelSpaceIsPermutation(args.nbClasses);
    ScopesDisjoint(InitialLabels(args, shuffled), args.classesPerTask, t1, t2, x);
  }

  /** Different tasks never share a train sample, nor a val sample. */
  lemma TaskSubsetsDisjoint(args: Args, shuffled: seq<int>, trainTargets: seq<int>, valTargets: seq<int>, t1: nat, t2: nat, j: int)
    requires ShuffleValid(args, shuffled)
    requires t1 != t2
    ensures var a := TaskLoadersFor(args, TaskScope(args, shuffled, t1), trainTargets, valTargets);
      var b := TaskLoadersFor(args, TaskScope(args, shuffled, t2), trainTargets, valTargets);
      !(j in a.train.indices && j in b.train.indices) && !(j in a.val.indices && j in b.val.indices)
  {
    var s1, s2 := TaskScope(args, shuffled, t1), TaskScope(args, shuffled, t2);
    forall x | x in s1
      ensures x !in s2
    {
      TaskScopesDisjoint(args, shuffled, t1, t2, x);
    }
    MatchingDisjoint(trainTargets, s1, s2, j);
    MatchingDisjoint(valTargets, s1, s2, j);
  }

  /** Every scope holds labels of `0 .. nb_classes-1` only. */
  lemma TaskScopeInLabelSpace(args: Args, shuffled: seq<int>, t: nat, x: int)
    requires ShuffleValid(args, shuffled)
    requires x in TaskScope(args, shuffled, t)
    ensures 0 <= x < args.nbClasses
  {
  }

  /**
   * No error is raised when `num_tasks * classes_per_task` exceeds `nb_classes`:
   * a task that starts past the end of the label list gets an empty scope and
   * empty train and val subsets.
   */
  lemma TrailingTasksEmpty(args: Args, shuffled: seq<int>, trainTargets: seq<int>, valTargets: seq<int>, t: nat)
    requires ShuffleValid(args, shuffled)
    requires args.nbClasses <= t * args.classesPerTask
    ensures TaskScope(args, shuffled, t) == []
    ensures var tl := TaskLoadersFor(args, TaskScope(args, shuffled, t), trainTargets, valTargets);
      tl.train.indices == [] && tl.val.indices == []
  {
    OffsetIsProduct(t, args.classesPerTask);
    ScopeSize(InitialLabels(args, shuffled), args.classesPerTask, t);
    MatchingEmptyScope(trainTargets, |trainTargets|);
    MatchingEmptyScope(valTargets, |valTargets|);
  }

  /**
   * A train sample belongs to some task iff its label is among the first
   * `num_tasks * classes_per_task` labels of the list; labels left over past
   * that point are silently dropped.
   */
  lemma SampleCovered(args: Args, shuffled: seq<int>, trainTargets: seq<int>, valTargets: seq<int>, j: nat)
    requires j < |trainTargets|
    ensures var labels := InitialLabels(args, shuffled);
      (exists t :: 0 <= t < args.numTasks &&
        j in TaskLoadersFor(args, TaskScope(args, shuffled, t), trainTargets, valTargets).train.indices)
      <==> trainTargets[j] in labels[..Min(args.numTasks * args.classesPerTask, |labels|)]
  {
    var labels := InitialLabels(args, shuffled);
    var x := trainTargets[j];
    OffsetIsProduct(args.numTasks, args.classesPerTask);
    InSomeScope(labels, args.classesPerTask, args.numTasks, x);
    if x in labels[..Min(args.numTasks * args.classesPerTask, |labels|)] {
      var t :| 0 <= t < args.numTasks && x in Scope(labels, args.classesPerTask, t);
      MatchingExact(trainTargets, TaskScope(args, shuffled, t));
      assert j in TaskLoadersFor(args, TaskScope(args, shuffled, t), trainTargets, valTargets).train.indices;
    }
    if exists t :: 0 <= t < args.numTasks &&
        j in TaskLoadersFor(args, TaskScope(args, shuffled, t), trainTargets, valTargets).train.indices
    {
      var t :| 0 <= t < args.numTasks &&
        j in TaskLoadersFor(args, TaskScope(args, shuffled, t), trainTargets, valTargets).train.indices;
      MatchingExact(trainTargets, TaskScope(args, shuffled, t));
      assert x in Scope(labels, args.classesPerTask, t);
    }
  }

  /**
   * Without shuffling, task `t` gets the ascending labels `t*K, t*K+1, ..`:
   * the block `t*K .. t*K+K-1` whenever `(t+1)*K <= nb_classes`.
   */
  lemma UnshuffledTaskScope(args: Args, shuffled: seq<int>, t: nat)
    requires !args.shuffle
    requires (t + 1) * args.classesPerTask <= args.nbClasses
    ensures var s := TaskScope(args, shuffled, t);
      |s| == args.classesPerTask &&
      forall i :: 0 <= i < |s| ==> s[i] == t * args.classesPerTask + i
  {
    OffsetIsProduct(t, args.classesPerTask);
    OffsetIsProduct(t + 1, args.classesPerTask);
    UnshuffledScope(args.nbClasses, args.classesPerTask, t);
  }

  /**
   * With ten classes per task and no shuffle, `target_transform` maps the
   * `i`-th label of every full scope to `i`, as its comment intends.
   */
  lemma TargetTransformDense(args: Args, shuffled: seq<int>, t: nat, i: nat)
    requires !args.shuffle && args.classesPerTask == 10
    requires (t + 1) * 10 <= args.nbClasses
    requires i < 10
    ensures i < |TaskScope(args, shuffled, t)| && TargetTransform(TaskScope(args, shuffled, t)[i]) == i
  {
    UnshuffledTaskScope(args, shuffled, t);
    assert TaskScope(args, shuffled, t)[i] == 10 * t + i;
  }

  /**
   * The remap is dense only for ten classes per task: for any other positive
   * scope size, without shuffle and with at least two tasks' worth of labels,
   * some label of some scope is not remapped to its position in that scope.
   * Below ten, task 1's first label `K` stays `K`; above ten, label 10 of
   * task 0 becomes 0.
   */
  lemma TargetTransformNotDense(args: Args, shuffled: seq<int>)
    requires !args.shuffle && 0 < args.classesPerTask != 10
    requires 2 * args.classesPerTask <= args.nbClasses
    ensures exists t: nat, i: nat :: i < |TaskScope(args, shuffled, t)| && TargetTransform(TaskScope(args, shuffled, t)[i]) != i
  {
    if args.classesPerTask < 10 {
      UnshuffledTaskScope(args, shuffled, 1);
      assert 0 < |TaskScope(args, shuffled, 1)| && TargetTransform(TaskScope(args, shuffled, 1)[0]) != 0;
    } else {
      UnshuffledTaskScope(args, shuffled, 0);
      assert 10 < |TaskScope(args, shuffled, 0)| && TargetTransform(TaskScope(args, shuffled, 0)[10]) != 10;
    }
  }

  /**
   * CIFAR-100 with ten tasks of ten classes and no shuffle: task 0 gets labels
   * 0..9, task 9 gets 90..99, and a train sample labelled 0..9 lies in task 0's
   * train subset and in no other task's.
   */
  lemma Cifar100TenTasks(args: Args, shuffled: seq<int>, trainTargets: seq<int>, valTargets: seq<int>, j: nat, h: nat, t: nat)
    requires args.nbClasses == 100 && args.numTasks == 10 && args.classesPerTask == 10 && !args.shuffle
    requires j < |trainTargets| && 0 <= trainTargets[j] < 10
    requires h < |valTargets| && 0 <= valTargets[h] < 10
    requires 0 < t < args.numTasks
    ensures TaskScope(args, shuffled, 0) == LabelSpace(10)
    ensures TaskScope(args, shuffled, 9) == seq(10, i => 90 + i)
    ensures j in TaskLoadersFor(args, TaskScope(args, shuffled, 0), trainTargets, valTargets).train.indices
    ensures j !in TaskLoadersFor(args, TaskScope(args, shuffled, t), trainTargets, valTargets).train.indices
    ensures h in TaskLoadersFor(args, TaskScope(args, shuffled, 0), trainTargets, valTargets).val.indices
    ensures h !in TaskLoadersFor(args, TaskScope(args, shuffled, t), trainTargets, valTargets).val.indices
  {
    UnshuffledTaskScope(args, shuffled, 0);
    UnshuffledTaskScope(args, shuffled, 9);
    var s0 := TaskScope(args, shuffled, 0);
    assert s0[trainTargets[j]] == trainTargets[j];
    assert s0[valTargets[h]] == valTargets[h];
    MatchingExact(trainTargets, s0);
    MatchingExact(valTargets, s0);
    TaskSubsetsDisjoint(args, shuffled, trainTargets, valTargets, 0, t, j);
    TaskSubsetsDisjoint(args, shuffled, trainTargets, valTargets, 0, t, h);
  }

  /**
   * CIFAR-100 with twenty tasks of ten classes: no error is raised; tasks
   * 10..19 get empty scopes and empty subsets.
   */
  lemma Cifar100TwentyTasks(args: Args, shuffled: seq<int>, trainTargets: seq<int>, valTargets: seq<int>, t: nat)
    requires args.nbClasses == 100 && args.numTasks == 20 && args.classesPerTask == 10
    requires ShuffleValid(args, shuffled)
    requires 10 <= t < args.numTasks
    ensures TaskScope(args, shuffled, t) == []
    ensures TaskLoadersFor(args, TaskScope(args, shuffled, t), trainTargets, valTargets).train.indices == []
    ensures TaskLoadersFor(args, TaskScope(args, shuffled, t), trainTargets, valTargets).val.indices == []
  {
    TrailingTasksEmpty(args, shuffled, trainTargets, valTargets, t);
  }
}

# Class-incremental task splitting, modelled in Dafny

This project models `ContinualDataLoader.split` from `continual_dataloader.py`.
It is the part of a continual-learning data loader that splits the classes of a
dataset into tasks. It builds the label list `0 .. nb_classes-1`. When
`shuffle` is set, that list is first shuffled. Then, `num_tasks` times, it cuts
the first `classes_per_task` labels off the list as the next task's *scope*.
It records each scope in a class mask, but only when `task_inc` or `train_mask`
is set. For each task it scans the train and val target arrays and collects
every sample index whose label is in the scope. It wraps the two index lists in
a train loader and a val loader. The label-remap helper `target_transform` is
modelled too.

Layout:

- `wrappers.dfy`: module `Wrappers`, the `Option` type. `None` stands for the
  absent class mask.
- `task_plan.dfy`: module `TaskPlan`. It holds the label list, Python's `s[:k]`
  and `s[k:]` (`Head`, `Tail`), the scope of task `t` (`Scope`), and the
  lemmas about scopes.
- `index_filter.dfy`: module `IndexFilter`. It holds the scan of one target
  array: the specification function `Matching`, the loop `CollectIndices`, and
  lemmas that the scan is an exact, ordered filter.
- `continual_dataloader.dfy`: module `ContinualDataLoader`. It holds the
  configuration record `Args`, the `Loader` and `TaskLoaders` records,
  `ValBatchSize`, `TargetTransform`, the method `Split`, and lemmas about the
  result of a run.

How the model stands in for the Python:

- A dataset is reduced to its integer `targets` array.
- A `DataLoader` over a `Subset` becomes a `Loader` value. It holds the index
  list and the parameters the loader is built with: batch size, worker count,
  pin-memory flag and `drop_last`.
- `random.shuffle` becomes the parameter `shuffled`. It is the list the shuffle
  left behind. `Split` uses it only when `args.shuffle` is set. The lemmas that
  need distinct labels in `0 .. nb_classes-1` assume `ShuffleValid`: a shuffle
  yields an ordering of the label space (`IsLabelPermutation`).

`Split` keeps the source's shape. It is a `for` loop that rebinds the
shrinking label list, appends to the mask and to the result, and calls the
scanning loop `CollectIndices` once for each target array. Its postcondition
ties each task's loaders and mask entry to the specification functions
`TaskScope` and `Matching`. The lemmas prove what those functions mean.
Inside `TaskPlan`, the start of scope `t` is written `Offset(t, K)`, the
`K` added once per iteration; `OffsetIsProduct` proves it equals `t*K`, and
the lemmas about a whole run state their bounds with `t*K` directly.

Behaviour of the code that a stricter design might change, modelled as the code has it:

- No configuration error is raised, whatever the counts; a stricter design
  would reject `num_tasks * classes_per_task > nb_classes`, the code does not. When
  `num_tasks * classes_per_task > nb_classes`, the later tasks get empty scopes
  and empty subsets (`TrailingTasksEmpty`, `Cifar100TwentyTasks`). When
  `num_tasks * classes_per_task < nb_classes`, the labels left over belong to no
  task (`ScopesCover`, `SampleCovered`).
- The class mask is present exactly when `task_inc` or `train_mask` is set.
- `target_transform` uses the constant 10, not `classes_per_task`. Its use in
  `split` is commented out, so `Split` does not apply it. `TargetTransformDense`
  proves it gives the dense range `0..9` for unshuffled scopes of ten classes.
  `TargetTransformNotDense` shows that for any other scope size some scope is
  not remapped densely: with five classes per task, for example, task 1's
  first label 5 stays 5, outside `0..4`.
- Each task scans the target arrays again; there is no bucketing by label.

## Model

| member | source | states |
|---|---|---|
| `ContinualDataLoader.Split` | continual_dataloader.py:50-100 | returns exactly `num_tasks` task records, in task order; record `t` holds a train loader and a val loader over `Matching(targets, scope t)`, with `scope t = TaskScope(t)`; the mask is `None` iff neither `task_inc` nor `train_mask` is set, and otherwise has one entry per task, entry `t` being scope `t` |
| `IndexFilter.CollectIndices` | continual_dataloader.py:69-75 | the scan returns exactly the indices `j` of `targets` with `targets[j]` in the scope, strictly increasing, and equals `Matching(targets, scope)` |
| `IndexFilter.MatchingPrefixExact` | continual_dataloader.py:69-71 | after scanning the first `n` samples, the list holds exactly the indices below `n` whose label is in the scope, each below `n`, strictly increasing |
| `IndexFilter.MatchingExact` | continual_dataloader.py:69-75 | the full scan keeps `j` iff `0 <= j < |targets|` and `targets[j]` is in the scope; its entries are in bounds and strictly increasing |
| `IndexFilter.MatchingEmptyScope` | continual_dataloader.py:69-75 | an empty scope selects no sample |
| `IndexFilter.MatchingDisjoint` | continual_dataloader.py:69-75 | scopes that share no label select no common index |
| `TaskPlan.LabelSpaceIsPermutation` | continual_dataloader.py:52 | the unshuffled list `[0, .., n-1]` is an ordering of the label space: length `n`, values in `0..n-1`, no repeats |
| `TaskPlan.Head` | continual_dataloader.py:63 | `labels[:k]` has `min(k, len)` elements and agrees with `labels` on them |
| `TaskPlan.Tail` | continual_dataloader.py:64 | `labels[k:]` is what remains: `labels[:k] + labels[k:] == labels` |
| `TaskPlan.ScopeStep` | continual_dataloader.py:59-64 | after `t` iterations, `labels[:K]` is scope `t` (positions `t*K .. min((t+1)*K, len)` of the initial list) and `labels[K:]` is the list for iteration `t+1` |
| `TaskPlan.OffsetIsProduct` | continual_dataloader.py:59-64 | scope `t` starts at position `Offset(t, K)` of the initial list, `K` added once per earlier iteration, which equals `t*K` |
| `TaskPlan.ScopesSnoc` | continual_dataloader.py:66-67 | appending scope `n` to the mask of the first `n` scopes gives the mask of the first `n+1` |
| `TaskPlan.ScopesCover` | continual_dataloader.py:59-64 | the first `n` scopes, concatenated in task order, are exactly the first `min(n*K, len)` labels: consecutive, non-overlapping, total size `min(n*K, len)`, leftovers dropped |
| `TaskPlan.InSomeScope` | continual_dataloader.py:59-64 | a label lies in one of the first `n` scopes iff it is among the first `n*K` labels |
| `TaskPlan.ScopeSize` | continual_dataloader.py:63 | a scope has `K` labels while the list has them, and is empty once `t*K >= len` |
| `TaskPlan.ScopesEmptyAfter` | continual_dataloader.py:59-64 | once the labels have run out at task `t`, every later scope is empty |
| `TaskPlan.ScopeAt` | continual_dataloader.py:63 | label `i` of scope `t` is label `t*K + i` of the initial list |
| `TaskPlan.ScopesDisjoint` | continual_dataloader.py:59-64 | with distinct labels, no label lies in the scopes of two different tasks |
| `TaskPlan.ScopeInLabelSpace` | continual_dataloader.py:52-63 | every scope cut from an ordering of `0..n-1` holds labels in `0..n-1` only |
| `TaskPlan.UnshuffledScope` | continual_dataloader.py:52-63 | without shuffle, scope `t` is the ascending run `t*K, t*K+1, ..` clipped at `n` |
| `ContinualDataLoader.ValBatchSize` | continual_dataloader.py:92 | `int(1.5*b)`: for `b >= 0` the largest `r` with `2r <= 3b`; for `b < 0` truncated toward zero |
| `ContinualDataLoader.TargetTransform` | continual_dataloader.py:46-48 | `x - 10*(x//10)` lies in `0..9` and is congruent to `x` modulo 10, for every integer `x` |
| `ContinualDataLoader.TaskSubsetsExact` | continual_dataloader.py:69-80 | a task's train (val) subset holds index `j` iff `j` is in bounds of the train (val) targets and its label is in the task's scope, in ascending order |
| `ContinualDataLoader.TaskLoaderParameters` | continual_dataloader.py:82-96 | the train loader uses `batch_size` with `drop_last=True`; the val loader uses `floor(1.5*batch_size)` with `drop_last=False`; both share `num_workers` and `pin_mem` |
| `ContinualDataLoader.TaskScopesDisjoint` | continual_dataloader.py:52-64 | with the labels an ordering of the label space, no label is in two tasks' scopes |
| `ContinualDataLoader.TaskSubsetsDisjoint` | continual_dataloader.py:59-80 | no train index and no val index belongs to two different tasks |
| `ContinualDataLoader.TaskScopeInLabelSpace` | continual_dataloader.py:52-63 | every label of every scope lies in `0..nb_classes-1` |
| `ContinualDataLoader.TrailingTasksEmpty` | continual_dataloader.py:59-75 | a task starting at or past `nb_classes` labels gets an empty scope and empty train and val subsets, with no error |
| `ContinualDataLoader.SampleCovered` | continual_dataloader.py:59-75 | a train sample is in some task's subset iff its label is among the first `num_tasks*classes_per_task` labels of the list |
| `ContinualDataLoader.UnshuffledTaskScope` | continual_dataloader.py:52-64 | without shuffle and with `(t+1)*K <= nb_classes`, scope `t` is exactly `[t*K, .., t*K+K-1]` |
| `ContinualDataLoader.TargetTransformDense` | continual_dataloader.py:46-48 | with ten classes per task and no shuffle, the `i`-th label of a full scope is remapped to `i` |
| `ContinualDataLoader.TargetTransformNotDense` | continual_dataloader.py:46-48 | for any positive scope size other than 10, without shuffle and with at least `2*K` labels, some label of some scope is not remapped to its position in that scope (below ten: task 1's first label `K` stays `K`; above ten: label 10 of task 0 becomes 0) |
| `ContinualDataLoader.Cifar100TenTasks` | continual_dataloader.py:52-75 | 100 classes, 10 tasks of 10, no shuffle: scope 0 is `0..9`, scope 9 is `90..99`; a train sample labelled `0..9` is in task 0's train subset and in no other task's, and a val sample labelled `0..9` is in task 0's val subset and in no other task's |
| `ContinualDataLoader.Cifar100TwentyTasks` | continual_dataloader.py:59-75 | 100 classes, 20 tasks of 10: tasks 10..19 get empty scopes and empty subsets |

## Left out

- Creating the data directory in `__init__` (continual_dataloader.py:25-26): filesystem I/O.
- `_get_dataset` (continual_dataloader.py:31-39): it downloads and loads CIFAR-100 through torchvision. The model takes the train and val target arrays as parameters; only the class count 100 it sets appears, in the CIFAR-100 example lemmas. Its `NotImplementedError` branch for other names is not modelled.
- `create_dataloader` (continual_dataloader.py:41-44): it only returns what `split` returns.
- `build_transform` and the mean/std constants (continual_dataloader.py:17-20, 103-136): image pipelines and floating-point constants, unused by the splitting.
- `random.shuffle` (continual_dataloader.py:55): ambient randomness. Its result is the parameter `shuffled`. The lemmas assume it is an ordering of `0..nb_classes-1`, stated as distinct values in range with the right length, not as a multiset equation.
- `torch.utils.data.DataLoader` and `Subset` internals: batching, worker pools, pinned memory. A loader is its index list plus its parameters.
- `ContinualDataLoader.Split`: does not model the loader's argument checks. `torch.utils.data.DataLoader` raises `ValueError` for a batch size that is not positive or a negative worker count (continual_dataloader.py:82-96, whenever `num_tasks > 0`). `Split` returns loaders with those values instead of failing, and `ValBatchSize`'s negative branch describes a value no loader is ever built with.
- `Args`: `nb_classes`, `num_tasks` and `classes_per_task` are natural numbers. Python would accept negative values, and `labels[:k]` with a negative `k` counts from the end; that case is not modelled.
- `ContinualDataLoader.ValBatchSize`: computes `int(1.5*b)` exactly. Python computes `1.5*b` in 64-bit floating point; once `|1.5*b|` reaches 2^52 (`|b|` above about 3·10^15), an odd `b` gives a value ending in `.5` that is rounded half to even, so `int(1.5*b)` can exceed the floor by one. That rounding is not modelled.
- `int(...)` around each target (continual_dataloader.py:70, 74): targets are already integers in the model.

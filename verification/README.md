# ESSArch core: a verified model

This project models four parts of ESSArch and proves properties of them.

**The workflow engine** (`ESSArch_Core/WorkflowEngine`). A workflow is a tree of steps holding tasks.
`create_workflow` builds the tree from a nested specification and removes the steps that hold no task.
`run`, `resume` and `retry` turn the tree into a canvas of chains and groups, giving tasks fresh task ids on the
way. Results come back by task id. `status` and `progress` are recursive, cached per step and cleared up the
ancestor path at every save.

- `Rows` holds the task rows, the step tree and the order of the children of a step; `Tables` the step table and the
  tree that its parent references form.
- `Canvas` says which canvas a tree compiles to, `Ordering` what runs before what in it, `Columns` how that is read off the
  columns of the rows, `Executor` when a signature may start. `Attempts` covers resets and results, `History`, `Repeats`,
  `Errors`, `InOrder`, `Once` and `Sequential` whole histories, `ErrorRuns` one in which error tasks run. `Retries` covers
  the replacement of live tasks.
- `Status`, `Progress` and `Caching` cover what is observed; `Locking` the per-step locks.
- `Specs`, `Pruning` and `Compilation` cover creation.
- `Engine` is the class whose methods update the rows in place as the source does. Each method is proved against the
  functions of the modules above. `Resuming`, `Retrying`, `Creating` and `Growing` hold the lemmas its methods rely on.

**Schema closure** (`getSchemas` in `ESSArch_Core/util.py`): `Schemas`, a depth-first walk with a shared visited
set over a possibly cyclic graph of imports and includes (sections 4.2.1 and 4.2.3 of XML Schema Part 1: Structures).

**Role permissions over the group tree** (`ESSArch_Core/auth`): `Groups` and `Permissions`, the check of one
object, the prefetch for many and the filter of a list.

**Tape mounting** (`ESSArch_Core/tasks_util.py`): `Tapes`, a state machine whose runs interleave any number of
mounts and unmounts, and the same operations as methods. `TapeRuns` holds runs that go wrong.

## Conventions

A table is a sequence and a row number is a primary key. Task ids are drawn from a counter, which stands for the
uniqueness of `uuid4`. Time of creation is a counter too. A signature in a canvas also names the row and the work it was
made from; only its task id is used to report results. The executor is abstract: a chain starts a part when all
earlier parts have succeeded, a group starts all its parts. `celery`'s empty `group()` is `Group([])`. A history has any
number of canvases out at once, and any step may be run or resumed at any time (`workflow/tasks.py:670-691` starts
several parts of one tree, `WorkflowEngine/views.py:166-172` resumes a part whose other tasks may still run). A task that
begins is STARTED until it ends, as `CELERY_TASK_TRACK_STARTED` (`config/settings.py:596`) has it.

Each step may have error tasks (`on_error`). A dispatch links to a signature the error signatures of its step and those of
the step that is dispatched, as their rows are at that moment (`WorkflowEngine/models.py:221-249`). When the signature fails
they are called, once for each failure; they begin and end at any time after that, and report by task id like all others.
Error tasks of a created step are rows of that step (`Specs.WorkflowErrors`), so the canvas may hold them too while they are
unfinished. A task has error tasks of its own as well; they are linked only when the task is run alone.

The child steps of a step are read by position, then creation. `child_steps` is a relation of an MPTT model, whose default
manager reads tree order: for a created workflow that is the same; for a step added out of order afterwards, `status` may
read PENDING where the model reads STARTED, or the other way round, and nothing else (`Status.OrderOnlyBlursStart`).

Saving a task and the cache clear of its save handler are one step, and so is one top-level read of `status` or
`progress`. The result backend updates rows without a save, so between that update and the clear in `after_return` a
cached value may be old. `unseen` is the set of steps in that window.

## Where the code differs from what it says

- A step with no child steps and no live task is PENDING (`WorkflowEngine/models.py:490-493`), not SUCCESS as the docstring
  of `status` says. The model follows the code.
- A REVOKED child step counts for nothing in its parent's loop (`models.py:516-528`), and whether a half-done parent reads
  PENDING or STARTED depends on the order of its child steps: `Status.OrderDoesMatter`.
- `ProcessStep.retry` retries every live task, not only the failed ones (`models.py:301-318`). Its new tasks are PREPARED,
  which `status` does not know, so the step reads SUCCESS at once: `Retries.RetriedReadsSuccess`. A `resume` after it emits
  replaced tasks again and never the prepared ones: `Retries.ResumeAfterRetry`.
- Nothing stops a step from being run or resumed while a canvas that holds its tasks is still at work. A dispatch is quiet
  when no signature of its subtree may still start, that is, has neither started nor waits for one that failed; those of error
  tasks do not count. Histories with quiet dispatches never begin a succeeded task again that is no error task
  (`History.NeverAgain`), and any other dispatch can be followed by executions that do (`Repeats.QuietIff`, `Repeats.RunTwice`).
- Error tasks are under no such rule. `create_workflow` stores those of the workflow itself as SUCCESS (`util.py:198-201`), and
  a failure makes them begin all the same, again and again, and before tasks that stand in front of them
  (`ErrorRuns.FailingRun`). `Errors.AgainIff` says exactly when a task that says SUCCESS can begin again after quiet dispatches:
  it is an error task that was called for, or is linked to something that runs or may start, or may start in a canvas.
- A quiet `resume` does not wait for tasks that run: under parallel steps, what comes after them in a chain may begin before
  they end. `InOrder.InSequenceIff` says exactly when the order is kept. In a part without parallel steps it always is, but for
  a `run` that passes over a failed task of the step itself (`Sequential.SequentialIff`).
- A signature that failed holds back what comes after it in its canvas for good, also when a later `resume` of an inner step
  executes its task again: `Once.OnceIff`.
- `run` resumes its child steps but takes only the pending tasks of the step itself: `Attempts.RunEmits` says exactly when
  that covers all unfinished work.
- Error tasks of nested entries are stored PENDING in the same step (`util.py:96-101`, `133-137`) and so enter the normal
  canvas: `Compilation.CompilesFaithfully` is an equivalence for that reason.
- `getSchemas` raises when a schema imports an unvisited location without a namespace. Whether it comes to that depends on
  the order of the locations: `Schemas.OrderDecides`. It succeeds whenever no reached schema has such an import, and when it
  succeeds every reached location was reachable without one.
- `has_perm` unpacks a permission name into exactly two parts, `get_objects_for_user` splits at the first dot:
  `Permissions.FilterAgrees` and `Permissions.DottedName`.
- The level filter in `get_user_groups` compares each group with its own level, so it keeps every membership.
- A mount whose label fails unlocks its drive twice (`tasks_util.py:166` and `171`). `Tapes.ExclusiveIff` says that the locks
  stay exclusive exactly when no second unlock hits a drive that was locked again in between; `TapeRuns.TwoInside` is a run
  where one does. `TapeRuns.FalseRecord` goes on to an unlocked drive with a false record, `TapeRuns.MountClashes` to a
  mount that is refused its record and leaves the mount counters apart. `Tapes.TruthfulIff` and `Tapes.RecordsTrueIff` name the
  steps that make records false or lay false ones open, and `Tapes.MountsConserved` says what every run keeps.

## Model

| member | source | states |
|---|---|---|
| Canvas.BuildLeaves | ESSArch_Core/WorkflowEngine/models.py:208-236 | the signatures of a built canvas, left to right, are one per selected row in tree order; dropping empty parts loses none |
| Canvas.LeafOrderMembers | ESSArch_Core/WorkflowEngine/models.py:350-366 | that order lists a row exactly when it is selected and lies in the subtree |
| Canvas.LeafOrderDistinct | ESSArch_Core/WorkflowEngine/models.py:218-219 | and lists no row twice |
| Canvas.BuildFrame | ESSArch_Core/WorkflowEngine/models.py:208-236 | the canvas depends only on the selected rows of its own subtree |
| Ordering.BuildOrder | ESSArch_Core/WorkflowEngine/models.py:218-236 | one task precedes another in the canvas exactly when the tree orders them at their lowest common ancestor: not at all if that is parallel, else by position, then creation time |
| Columns.SortKey | ESSArch_Core/WorkflowEngine/models.py:218-219 | in a canvas of `resume` or `run` a pending task waits for another exactly when the step where they part is not parallel and the other, or the child step that holds it, stands there at a smaller position, or at the same one and created earlier |
| Columns.StepFirst | ESSArch_Core/WorkflowEngine/models.py:219 | at the same position and creation time a child step comes before a task |
| Columns.RetrySortKey | ESSArch_Core/WorkflowEngine/models.py:311-318 | the new tasks of a retry wait for each other by the same columns of the tasks they replace |
| Columns.ChildStepsOrder | ESSArch_Core/WorkflowEngine/models.py:218-219 | child steps are read by position, then creation time |
| Executor.ReadyIff | ESSArch_Core/WorkflowEngine/models.py:218-236 | a chain-and-group executor may start a task exactly when it has not reported and all that precedes it succeeded |
| Executor.SomeReady | ESSArch_Core/WorkflowEngine/models.py:218-236 | without a failure something can start until everything has succeeded |
| Attempts.PlanCurrent | ESSArch_Core/WorkflowEngine/models.py:328-366 | a canvas of `resume` or `run` signs each pending task of the subtree once, under its current task id, and nothing else |
| Attempts.ResumeEmits | ESSArch_Core/WorkflowEngine/models.py:343-366 | `resume` emits exactly the pending, failed and revoked tasks of the subtree, each once under a fresh id, and leaves every other row alone |
| Attempts.RunEmits | ESSArch_Core/WorkflowEngine/models.py:253-282 | `run` emits all unfinished tasks exactly when no task of the step itself failed or was revoked |
| Attempts.ResetRetires | ESSArch_Core/WorkflowEngine/models.py:720-731 | in any interleaving of resets, creations and results a reset retires the old task id for good |
| Attempts.LateResult | ESSArch_Core/WorkflowEngine/dbtask.py:247-252 | a late result changes exactly its own row, or nothing at all if that row was reset since |
| Attempts.ResultsLand | ESSArch_Core/celery/backends/database.py:27-57 | each result of a signature ends in the row the signature was made from, and no other row changes |
| Attempts.AnyOrder | ESSArch_Core/celery/backends/database.py:27-57 | tasks that run side by side may report in any order: the rows come out the same |
| Retries.RetryRow | ESSArch_Core/WorkflowEngine/models.py:805-821 | the new task has the step, work and position of the old one, is PREPARED and has made no progress; the old row only gets its link |
| History.DispatchSafe | ESSArch_Core/WorkflowEngine/models.py:328-366 | a quiet run or resume of any step, with other canvases and error tasks at work, keeps the history safe for tasks that are no error tasks: what may start or runs carries its row's id, no two canvases have a task in hand, a task begins again only after it failed |
| History.ExecuteSafe | ESSArch_Core/WorkflowEngine/dbtask.py:222-260 | starting or finishing a signature, or an error task that a failure called for, changes at most the row it was made from, and keeps the history safe |
| History.AlwaysFits | ESSArch_Core/WorkflowEngine/models.py:208-366 | in every history, quiet or not, a task id belongs to one row for good, and what a failure calls for signs an error task |
| History.AlwaysSafe | ESSArch_Core/WorkflowEngine/models.py:208-366 | every state of every history with quiet dispatches is safe, whatever fails and whenever error tasks run |
| History.NeverAgain | ESSArch_Core/WorkflowEngine/models.py:208-366 | in every such history a task that is no error task and has reached SUCCESS keeps it and never begins again |
| Repeats.LoudRepeats | ESSArch_Core/WorkflowEngine/models.py:343-366 | after the first dispatch that is not quiet the executor can bring a task to begin whose row says SUCCESS and which is no error task |
| Repeats.QuietIff | ESSArch_Core/WorkflowEngine/models.py:208-366 | all dispatches of a history are quiet exactly when no state of it can be continued, by the executor alone, through failures and error tasks, to such a beginning |
| Repeats.RunTwice | ESSArch_Core/WorkflowEngine/models.py:253-282 | a history in which a succeeded task begins again: a step is run twice in a row |
| Errors.BeginIff | ESSArch_Core/WorkflowEngine/models.py:221-249 | in any history the executor alone can bring a task to begin exactly when a failure has called for it, a signature that runs or may start is linked to it, or it may start itself |
| Errors.AgainIff | ESSArch_Core/WorkflowEngine/models.py:221-249 | after quiet dispatches a task that says SUCCESS can begin again exactly when it is an error task of which one of these holds |
| Errors.HandedOut | ESSArch_Core/WorkflowEngine/models.py:221-223 | a canvas goes out with the step it was made for and with what signs each row then |
| Errors.ResultStored | ESSArch_Core/celery/backends/database.py:27-57 | what begins or ends is told to the row with that task id, if there still is one, and no other row changes |
| Errors.CallsStep | ESSArch_Core/WorkflowEngine/models.py:232-249 | a failure calls once for each error task of the step of the signature and of the step that was dispatched, under the id it had then; nothing else does |
| Errors.CallsConserved | ESSArch_Core/WorkflowEngine/models.py:232-249 | in every history each call is waiting or has begun, and each beginning is at work or has ended |
| ErrorRuns.SampleCreated | ESSArch_Core/WorkflowEngine/util.py:192-207 | the rows and error tasks that `create_workflow` makes of one task and two error tasks of the workflow |
| ErrorRuns.FailingRun | ESSArch_Core/WorkflowEngine/util.py:197-201 | that workflow is run and resumed quietly: an error task begins while its row says SUCCESS, ends well, and begins again |
| ErrorRuns.SecondComesLater | ESSArch_Core/WorkflowEngine/models.py:218-219 | although the tree puts it after the task that has failed |
| Executor.ReadyBefore | ESSArch_Core/WorkflowEngine/models.py:218-236 | while nothing before a signature has failed, it or something before it can start |
| InOrder.CreatedStarts | ESSArch_Core/WorkflowEngine/util.py:197-224 | what `create_workflow` leaves behind is the start of a history; error tasks are rows of their step, and only those of the workflow itself are stored as done |
| InOrder.AlwaysOrdered | ESSArch_Core/WorkflowEngine/models.py:208-366 | in every state of a history of a part, tasks that are no error tasks have begun in tree order, and what may start waits for all of them before it that have not succeeded |
| InOrder.ExecutedInOrder | ESSArch_Core/WorkflowEngine/models.py:208-366 | across failures and resumes such a task begins only after every such task that the tree orders before it has succeeded, in the history or at its start |
| InOrder.DisorderFollows | ESSArch_Core/WorkflowEngine/models.py:343-366 | a dispatch that leaves out an unfinished task before one it signs can be followed by the later one beginning first |
| InOrder.InSequenceIff | ESSArch_Core/WorkflowEngine/models.py:208-366 | quiet dispatches keep the order exactly when none leaves out such a task |
| Once.OnceIff | ESSArch_Core/WorkflowEngine/models.py:208-366 | however steps were run and resumed quietly, at rest a task that was pending and covered, and is no error task, has been executed to success exactly once if and only if it has not failed and no canvas holds it back behind a failed signature |
| Once.AllExactlyOnce | ESSArch_Core/WorkflowEngine/models.py:208-366 | a part run and resumed as a whole, at rest without a failed task, has executed each of its pending tasks to success exactly once and left alone those that had succeeded |
| Sequential.StraightInSequence | ESSArch_Core/WorkflowEngine/models.py:343-366 | in a part without parallel steps a quiet dispatch leaves out nothing before what it signs, but for a run that passes over a failed task of the step itself |
| Sequential.SequentialInOrder | ESSArch_Core/WorkflowEngine/models.py:218-236 | so such a part executes in order, however it is resumed, as long as no run does that |
| Sequential.SequentialIff | ESSArch_Core/WorkflowEngine/models.py:208-366 | and that condition is exact |
| Sequential.SequentialTotal | ESSArch_Core/WorkflowEngine/models.py:218-219 | without parallel steps any two tasks are ordered one way |
| Status.ScanClosed | ESSArch_Core/WorkflowEngine/models.py:514-531 | closed form of the loop over the child statuses |
| Status.StatusClosed | ESSArch_Core/WorkflowEngine/models.py:479-531 | the status of a step from those of its live tasks and child steps |
| Status.StartedIff | ESSArch_Core/WorkflowEngine/models.py:495-531 | STARTED exactly when nothing makes the step FAILURE or REVOKED and a live task or child step is STARTED, or there is a pending and a finished live task, or a finished child step before a pending one |
| Status.PendingIff | ESSArch_Core/WorkflowEngine/models.py:485-531 | PENDING exactly when the step is empty, or otherwise nothing of that holds and a live task or child step is pending |
| Status.HasLiveIff | ESSArch_Core/WorkflowEngine/models.py:485-501 | which rows count: those of the step that no retry has replaced |
| Status.FailureIff | ESSArch_Core/WorkflowEngine/models.py:485-531 | FAILURE exactly when some step of the subtree has a failed live task and no step strictly above it in the subtree has a revoked live task |
| Status.RevokedIff | ESSArch_Core/WorkflowEngine/models.py:495-501 | REVOKED exactly when the step itself has a revoked and no failed live task |
| Status.SuccessIff | ESSArch_Core/WorkflowEngine/models.py:485-531 | SUCCESS exactly when the step is not revoked and each step seen from it is revoked or has nothing left to do |
| Status.SuccessMeansAllDone | ESSArch_Core/WorkflowEngine/models.py:485-531 | with ordinary task statuses and no empty leaf, SUCCESS exactly when every live task below succeeded |
| Status.StatusRange | ESSArch_Core/WorkflowEngine/models.py:459-531 | the five statuses a step can have |
| Status.OrderOnlyBlursStart | ESSArch_Core/WorkflowEngine/models.py:515-528 | reordering child steps changes the status at most between PENDING and STARTED |
| Status.OrderDoesMatter | ESSArch_Core/WorkflowEngine/models.py:515-528 | and it does make that difference |
| Progress.LiveSuccessor | ESSArch_Core/WorkflowEngine/models.py:805-821 | with forward links, which every operation of the engine keeps, a retried task has a live successor in the same step |
| Progress.TotalNeverZero | ESSArch_Core/WorkflowEngine/models.py:425-439 | so a step that is not empty has a child step or a live task |
| Engine.Engine.MeanProgress | ESSArch_Core/WorkflowEngine/models.py:425-456 | the mean over child steps and live tasks; in every valid state the branch for a zero total is dead |
| Progress.ProgressIsMean | ESSArch_Core/WorkflowEngine/models.py:425-456 | the progress of a step that is not empty is the sum over its child steps and live tasks divided by their number |
| Progress.RaiseTask | ESSArch_Core/WorkflowEngine/models.py:441-451 | raising one live task by some amount raises its step by that amount divided by the number of its child steps and live tasks |
| Progress.ChangeBelow | ESSArch_Core/WorkflowEngine/models.py:433-451 | a change of one child step changes the step by that change divided by the same number |
| Progress.NoProgress | ESSArch_Core/WorkflowEngine/models.py:425-431 | where no task has made progress, or there is none, progress is 0 |
| Progress.ProgressIsPercentage | ESSArch_Core/WorkflowEngine/models.py:406-456 | progress is within 0..100, and 100 exactly when every live task below is at 100 and no leaf step is empty |
| Progress.ProgressMonotone | ESSArch_Core/WorkflowEngine/models.py:406-456 | it never falls when the progress of tasks rises |
| Tables.OnPathIff | ESSArch_Core/WorkflowEngine/models.py:181-190 | a step is on the path from the root to another exactly when its subtree holds that one |
| Tables.PathIsChain | ESSArch_Core/WorkflowEngine/models.py:181-190 | that path is the chain of parent references that a clear follows |
| Caching.StatusFrame | ESSArch_Core/WorkflowEngine/models.py:479-531 | status depends only on the task rows of the subtree |
| Caching.ProgressFrame | ESSArch_Core/WorkflowEngine/models.py:419-456 | so does progress |
| Caching.ClearKeepsCoherent | ESSArch_Core/WorkflowEngine/signals.py:17-30 | changing tasks of one step and clearing up its path keeps every cached value equal to the value from scratch |
| Caching.WriteUnseen | ESSArch_Core/WorkflowEngine/dbtask.py:232-252 | an update without a clear can leave old only what holds the updated step |
| Caching.StoreCoherent | ESSArch_Core/WorkflowEngine/models.py:419-456 | caching a computed value keeps the caches right |
| Caching.StaleUntilReturn | ESSArch_Core/WorkflowEngine/dbtask.py:233-237 | and such an update does leave an old status behind |
| Locking.AlwaysInv | ESSArch_Core/WorkflowEngine/models.py:419-443 | every reader holds step locks along one downward path and waits only for a child of its end, a returning task holds or awaits one lock at most, and no lock is held twice |
| Locking.WaitsDeeper | ESSArch_Core/WorkflowEngine/models.py:479-528 | whoever holds the lock that a lock holder waits for is deeper in the tree |
| Locking.NoWaitCycle | ESSArch_Core/WorkflowEngine/models.py:479-528 | no reachable state has a cycle of waiting processes |
| Locking.NeverStuck | ESSArch_Core/WorkflowEngine/dbtask.py:268-281 | in every reachable state with a busy process some busy process can get a lock or give one back |
| Locking.DrainEnds | ESSArch_Core/WorkflowEngine/models.py:419-443 | once nobody asks for more, any schedule ends within a bound |
| Locking.AlwaysFinishes | ESSArch_Core/WorkflowEngine/models.py:479-528 | every reachable state can be brought to where all are idle |
| Retries.RetryKeepsChains | ESSArch_Core/WorkflowEngine/models.py:805-821 | a retry keeps the `retried` links as forward chains within a step |
| Retries.ChainsDisjoint | ESSArch_Core/WorkflowEngine/models.py:805-821 | two tasks share a live end exactly when one is a retry of the other |
| Retries.RetryEmits | ESSArch_Core/WorkflowEngine/models.py:301-318 | the canvas of a retry holds the new tasks in the old order, each with the old work |
| Retries.RetryEmitsAll | ESSArch_Core/WorkflowEngine/models.py:313-318 | and all of them |
| Retries.RetryOrder | ESSArch_Core/WorkflowEngine/models.py:311-318 | the new tasks wait for each other as the tree orders those they replace |
| Retries.RetriedReadsSuccess | ESSArch_Core/WorkflowEngine/models.py:808-813 | after a retry a step without empty leaves reads SUCCESS before anything ran |
| Retries.ResumeAfterRetry | ESSArch_Core/WorkflowEngine/models.py:343-364 | a resume after a retry never emits a new task and emits the replaced ones that had not succeeded |
| Resuming.ResetAgain | ESSArch_Core/WorkflowEngine/models.py:343-347 | the repeated resets of nested resumes amount to one |
| Resuming.OthersKept | ESSArch_Core/WorkflowEngine/models.py:232-235 | resuming one child step leaves what was already built for its siblings right |
| Pruning.PrunedOfSwept | ESSArch_Core/WorkflowEngine/util.py:217-224 | one pass of the clean-up does not change what the clean-up ends with |
| Pruning.SweptClean | ESSArch_Core/WorkflowEngine/util.py:222-224 | when no empty leaf is left every step has a task below it |
| Pruning.PrunedKeeps | ESSArch_Core/WorkflowEngine/util.py:214-224 | the clean-up keeps exactly the steps with a task somewhere in their subtree |
| Pruning.EmptyLeavesHaveNoTask | ESSArch_Core/WorkflowEngine/util.py:218-221 | a pass deletes no task |
| Specs.FlowMade | ESSArch_Core/WorkflowEngine/util.py:67-137 | creation makes a well-formed subtree with fresh ids and as many tasks as the created entries name |
| Specs.FlowPositions | ESSArch_Core/WorkflowEngine/util.py:70-94 | child steps stand at increasing positions, each at the index of its entry, one for every enabled entry with children |
| Specs.TaskRow | ESSArch_Core/WorkflowEngine/util.py:111-131 | an enabled task entry becomes a pending row of the step at the index of the entry, made after all rows before it |
| Specs.TaskErrors | ESSArch_Core/WorkflowEngine/util.py:133-137 | the error tasks of a task entry follow as pending rows of the same step, from position 0, and nothing else does |
| Specs.StepRowMade | ESSArch_Core/WorkflowEngine/util.py:84-101 | a step entry becomes a child step at its index whose error tasks come first |
| Specs.StepHolds | ESSArch_Core/WorkflowEngine/util.py:96-109 | in the child step its pending error tasks come first, then what its children make |
| Specs.EntrySkipped | ESSArch_Core/WorkflowEngine/util.py:70-82 | an entry leaves no trace exactly when it is disabled or a step without children |
| Specs.ErrorRow | ESSArch_Core/WorkflowEngine/util.py:40-64 | error tasks are rows at positions from 0 with the given status, at 100 if that is SUCCESS |
| Specs.NestedErrors | ESSArch_Core/WorkflowEngine/util.py:96-103 | the error tasks of steps further down are recorded too |
| Compilation.FlowWork | ESSArch_Core/WorkflowEngine/util.py:67-137 | without nested error tasks the rows created are the enabled entries, left to right |
| Compilation.PrunedOrder | ESSArch_Core/WorkflowEngine/util.py:214-224 | removing steps without tasks does not change what is executed, or in which order |
| Compilation.WorkflowOrder | ESSArch_Core/WorkflowEngine/util.py:147-224 | without nested error tasks a new workflow executes its rows in creation order |
| Compilation.CompilesFaithfully | ESSArch_Core/WorkflowEngine/util.py:67-224 | the canvas of `run` on a new workflow runs the enabled entries of the specification, left to right, exactly when no created entry has error tasks of its own |
| Creating.PassCleans | ESSArch_Core/WorkflowEngine/util.py:217-224 | one pass on the step table does to the rows what a sweep does to the tree |
| Creating.WorkflowTasks | ESSArch_Core/WorkflowEngine/util.py:147-224 | task ids are unique and every task keeps its step |
| Growing.GrowRepresents | ESSArch_Core/WorkflowEngine/util.py:84-94 | a step row added anywhere makes the tree with one leaf more, in its place by position and creation time |
| Growing.GrowCoherent | ESSArch_Core/WorkflowEngine/signals.py:25-30 | adding a step and clearing from its parent up keeps every cached value right |
| Engine.Engine.constructor | ESSArch_Core/WorkflowEngine/util.py:192-195 | a root step, alone |
| Engine.Engine.ClearCache | ESSArch_Core/WorkflowEngine/models.py:181-190 | removes the cached values of a step and all its ancestors, and no others |
| Engine.Engine.Save | ESSArch_Core/WorkflowEngine/signals.py:17-22 | saves a row and keeps the caches right |
| Engine.Engine.CreateTask | ESSArch_Core/WorkflowEngine/signals.py:17-22 | appends a row with a fresh task id and keeps the caches right |
| Engine.Engine.AddTasks | ESSArch_Core/WorkflowEngine/models.py:148-150 | attaches tasks to a step; only the caches above the steps they come from may be old afterwards |
| Engine.Engine.AddStep | ESSArch_Core/WorkflowEngine/signals.py:25-30 | adds a child step row and keeps the tree and the caches right |
| Engine.Engine.StoreResult | ESSArch_Core/celery/backends/database.py:27-57 | sets the status of the row with that task id, and its progress to 100 on SUCCESS, without a clear |
| Engine.Engine.AfterReturn | ESSArch_Core/WorkflowEngine/dbtask.py:268-281 | the clear at a return leaves nothing on the path unseen |
| Engine.Engine.GetStatus | ESSArch_Core/WorkflowEngine/models.py:479-531 | the cached, recursive status is the status from scratch |
| Engine.Engine.ReadOwn | ESSArch_Core/WorkflowEngine/models.py:503-513 | the status of a step before its child steps are looked at |
| Engine.Engine.ScanChildren | ESSArch_Core/WorkflowEngine/models.py:514-531 | the loop over the child steps computes the scan |
| Engine.Engine.ReadChild | ESSArch_Core/WorkflowEngine/models.py:516-528 | one round of that loop, which reads the status of the child for every comparison |
| Engine.Engine.GetProgress | ESSArch_Core/WorkflowEngine/models.py:419-456 | the cached, recursive progress is the progress from scratch |
| Engine.Engine.StepStatus | ESSArch_Core/WorkflowEngine/models.py:458-531 | reading the status of any step in any state keeps the caches right and gives the value from scratch |
| Engine.Engine.StepProgress | ESSArch_Core/WorkflowEngine/models.py:406-456 | so does reading its progress |
| Engine.Engine.ResetTask | ESSArch_Core/WorkflowEngine/models.py:720-731 | puts a task back to pending under a fresh id and without progress, and changes nothing else of it |
| Engine.Engine.Descendants | ESSArch_Core/WorkflowEngine/models.py:343-350 | the query over the step table finds exactly the subtree |
| Engine.Engine.Resume | ESSArch_Core/WorkflowEngine/models.py:328-366 | resets exactly the unfinished tasks of the subtree and returns the plan of the final rows, although nested resumes reset again |
| Engine.Engine.ResetUnfinished | ESSArch_Core/WorkflowEngine/models.py:343-347 | the loop resets exactly the pending, failed and revoked tasks of the given steps |
| Engine.Engine.Run | ESSArch_Core/WorkflowEngine/models.py:253-282 | resets below the child steps only and returns the plan of the final rows |
| Engine.Engine.RunChildren | ESSArch_Core/WorkflowEngine/models.py:208-251 | builds the canvas from tasks loaded before the child steps were resumed, and it is that of the final rows |
| Engine.Engine.ChildPart | ESSArch_Core/WorkflowEngine/models.py:232-235 | one element of the canvas |
| Engine.Engine.CreateRetryObj | ESSArch_Core/WorkflowEngine/models.py:805-821 | appends a prepared copy and links the old task to it, also when it was linked before |
| Engine.Engine.Retry | ESSArch_Core/WorkflowEngine/models.py:284-326 | replaces the live tasks of the subtree one for one and returns the canvas of the new ones |
| Engine.Engine.CreateErrors | ESSArch_Core/WorkflowEngine/util.py:40-64 | error tasks, in order, with the given status |
| Engine.Engine.CreateSteps | ESSArch_Core/WorkflowEngine/util.py:67-137 | the recursive loop creates the rows of the specified flow |
| Engine.Engine.CreateOne | ESSArch_Core/WorkflowEngine/util.py:70-137 | one entry: nothing if disabled or an empty step |
| Engine.Engine.CreateStep | ESSArch_Core/WorkflowEngine/util.py:84-103 | a child step, its error tasks and what it holds |
| Engine.Engine.CleanUp | ESSArch_Core/WorkflowEngine/util.py:214-224 | the loop ends and leaves the pruned tree, or nothing if there is no task at all |
| Engine.Engine.CreateWorkflow | ESSArch_Core/WorkflowEngine/util.py:147-240 | a new workflow is its specified rows, pruned, in a state from which all of the above hold |
| Schemas.PairsAt | ESSArch_Core/util.py:280-281 | namespace and location tokens pair up, an odd last token is dropped |
| Schemas.AttributePairs | ESSArch_Core/util.py:277-282 | every attribute of the document gives its pairs, attribute by attribute |
| Schemas.RequestSteps | ESSArch_Core/util.py:259-274 | what a loaded schema asks for are steps of the schema graph |
| Schemas.StepRequested | ESSArch_Core/util.py:259-274 | and every such step is asked for |
| Schemas.SoundVisit | ESSArch_Core/util.py:223-240 | a visit emits once per newly visited location, each for a request of the document or of an earlier schema |
| Schemas.ClosedVisit | ESSArch_Core/util.py:257-274 | a successful visit leaves no new location with an unvisited link |
| Schemas.EntryReached | ESSArch_Core/util.py:223-274 | what is emitted is reached from the document by links with a namespace or includes |
| Schemas.ClosureIsReach | ESSArch_Core/util.py:195-284 | on success the visited set grows by exactly the locations reachable from the document through schemas that load |
| Schemas.PairVisited | ESSArch_Core/util.py:225-233 | on success each location of the document is visited, joined to the base unless it begins with a scheme or a slash |
| Schemas.PairVisitedBare | ESSArch_Core/util.py:225-233 | without a base it is visited as it is |
| Schemas.LinkVisited | ESSArch_Core/util.py:257-274 | so is each location that a newly visited schema links to, against the base of that schema |
| Schemas.VisitedFrom | ESSArch_Core/util.py:223-274 | and nothing else |
| Schemas.ImportsFirst | ESSArch_Core/util.py:263-274 | a location that a schema both imports and includes is emitted under the namespace of the import |
| Schemas.IncludeInherits | ESSArch_Core/util.py:269-274 | what is included is emitted under the namespace of the schema that includes it |
| Schemas.OneImportEach | ESSArch_Core/util.py:234-240 | each newly visited location has exactly one import element, under the namespace of what asked for it |
| Schemas.ElementFrom | ESSArch_Core/util.py:223-274 | it is a pair of the document, or stands for a link of the schema of an earlier element, with the location as written there |
| Schemas.FailureIsNameless | ESSArch_Core/util.py:237-240 | a failure comes from a reached schema that imports an unvisited location without a namespace |
| Schemas.OrderDecides | ESSArch_Core/util.py:263-267 | with such an import the order of the locations decides between failure and success |
| Schemas.Walk.constructor | ESSArch_Core/util.py:201-221 | the shared state at the start |
| Schemas.Walk.ProcessSchemaLocation | ESSArch_Core/util.py:223-274 | the recursive visit, in place, computes the specified state |
| Schemas.Walk.Follow | ESSArch_Core/util.py:263-274 | the loop over the links of one schema |
| Schemas.Walk.ProcessPairs | ESSArch_Core/util.py:280-282 | the loop over one schemaLocation attribute |
| Schemas.GetSchemas | ESSArch_Core/util.py:195-284 | ends on any finite graph; the outcome, the elements and the visited set as the call leaves it |
| Groups.AncestorsKnown | ESSArch_Core/auth/util.py:61-64 | every known group has ancestors, itself among them |
| Groups.AncestorsTransitive | ESSArch_Core/auth/util.py:61-64 | ancestors of ancestors are ancestors |
| Groups.AncestorsOfSub | ESSArch_Core/auth/util.py:61-64 | the line above a sub-group is the line of its group, and itself |
| Groups.Duality | ESSArch_Core/auth/util.py:46-66 | one group is an ancestor of another exactly when that one is its descendant |
| Permissions.HoldsBelow | ESSArch_Core/auth/util.py:60-66 | what a member holds in a group it holds in every group under it |
| Permissions.RolesHold | ESSArch_Core/auth/backends.py:12-24 | the role lookup finds a codename exactly when a role at or above the group has it |
| Permissions.HasPermIff | ESSArch_Core/auth/backends.py:33-75 | in rows: two dots in the name raise, then two groups of the object do; else a current organization and a role at or above the group with that codename are needed |
| Permissions.GetUserGroups | ESSArch_Core/auth/util.py:46-52 | exactly the groups of the memberships of the user and all groups under them |
| Permissions.NothingOutside | ESSArch_Core/auth/permission_checker.py:60-62 | outside the groups of the user nothing is held |
| Permissions.AddedHolds | ESSArch_Core/auth/permission_checker.py:87-109 | the prefetch adds a codename exactly when it is held in the group of one of the object's rows |
| Permissions.PrefetchAgrees | ESSArch_Core/auth/permission_checker.py:44-109 | the prefetch and the check of one object agree exactly when the object has at most one group and, without a current organization, nothing is held there |
| Permissions.Checker.Grant | ESSArch_Core/auth/permission_checker.py:88-109 | appends what the memberships of the user in one group give |
| Permissions.Checker.GrantRow | ESSArch_Core/auth/permission_checker.py:87-109 | appends what the groups above give, then the group itself |
| Permissions.Checker.Prepare | ESSArch_Core/auth/permission_checker.py:82-85 | an empty entry for every object without one |
| Permissions.Checker.PrefetchPerms | ESSArch_Core/auth/permission_checker.py:16-109 | every entry keeps what it had and gets exactly what its rows give; in rows: a codename is added to a listed object exactly when a role of the user at or above a group of it has it |
| Permissions.SplitParts | ESSArch_Core/auth/backends.py:72-75 | what unpacking a permission name yields, against the part after its first dot |
| Permissions.AfterFirstDot | ESSArch_Core/auth/util.py:141-146 | what the filter takes for the codename of a name with a dot, and of one without |
| Permissions.OrganizationGroups | ESSArch_Core/auth/util.py:177-185 | the groups under the organization in which all listed codenames are held |
| Permissions.GetObjectsForUser | ESSArch_Core/auth/util.py:140-200 | selects exactly the objects with a row in such a group |
| Permissions.SelectedIff | ESSArch_Core/auth/util.py:140-200 | in rows: which groups count in each scope, and that each codename must come from a role of the user at or above the group |
| Permissions.FilterAgrees | ESSArch_Core/auth/util.py:167-200 | for an object with one group at or under the current organization: every listed permission checks out exactly when the filter selects it and no name has two dots |
| Permissions.DottedName | ESSArch_Core/auth/backends.py:72-75 | an object that the filter selects and on which the check fails |
| Tapes.StepKeeps | ESSArch_Core/tasks_util.py:40-171 | every step keeps locks exclusive, records true and places consistent, but for a second unlock of a drive that is locked again, which always breaks exclusion |
| Tapes.NoClash | ESSArch_Core/tasks_util.py:122-126 | while locks are exclusive, recording a mount meets no other medium recorded in the drive |
| Tapes.OnTimeNoClash | ESSArch_Core/tasks_util.py:118-126 | so no mount clashes in a run without late unlocks |
| Tapes.ExclusiveIff | ESSArch_Core/tasks_util.py:162-171 | a run keeps a drive locked exactly while one operation, and only one, is inside, if and only if no such second unlock happens |
| Tapes.StrayBreaks | ESSArch_Core/tasks_util.py:64-80 | a step keeps every record true, or about to be cleared, exactly when it neither takes out another recorded tape than its own nor records a tape that is gone |
| Tapes.TruthfulIff | ESSArch_Core/tasks_util.py:40-171 | a run keeps that throughout exactly when no step strays |
| Tapes.ExposeBreaks | ESSArch_Core/tasks_util.py:40-171 | a step keeps the records on unlocked drives true exactly when it neither unlocks a drive with a false record, nor takes the recorded tape out of an unlocked drive, nor records a tape that is not in an unlocked drive |
| Tapes.RecordsTrueIff | ESSArch_Core/tasks_util.py:64-80 | in any run those records are true throughout exactly when no step is of these kinds |
| Tapes.UnlockBesideUnmount | ESSArch_Core/tasks_util.py:64-80 | without stray steps an unlock is of the first kind exactly when an unmount beside it has emptied the drive of a medium still recorded there |
| Tapes.RecordsTrue | ESSArch_Core/tasks_util.py:74-80 | that holds without late unlocks; in every run at most one medium is recorded in a drive and at most one is in a place |
| Tapes.MountsConserved | ESSArch_Core/tasks_util.py:118-126 | in every run, mounts counted on drives less those on media grow by the mounts between the two counts and those refused there |
| TapeRuns.TwoInside | ESSArch_Core/tasks_util.py:162-171 | a run in which the second unlock lets two operations into one drive |
| TapeRuns.FalseRecord | ESSArch_Core/tasks_util.py:64-80 | one that ends with a false record on an unlocked drive, without a stray step |
| TapeRuns.MountClashes | ESSArch_Core/tasks_util.py:118-126 | one in which a mount is counted on the drive and refused its record |
| Tapes.Library.Mount | ESSArch_Core/tasks_util.py:87-128 | a mount on its own is a run of the steps; when it ends in which way, where the tape is then, what is counted and recorded, and which lock stays |
| Tapes.Library.MountLocked | ESSArch_Core/tasks_util.py:109-128 | the rest of a mount that has the lock, ending by ending |
| Tapes.Library.PutIn | ESSArch_Core/tasks_util.py:109-118 | the robot moves the tape of the slot into the drive exactly when it works, there is one and the drive is empty; unless the drive then comes online the mount unlocks and ends |
| Tapes.Library.Count | ESSArch_Core/tasks_util.py:118-128 | the counts and the record of a mount |
| Tapes.Library.Label | ESSArch_Core/tasks_util.py:131-171 | both ends of the label unlock, the failed one twice |
| Tapes.Library.Unmount | ESSArch_Core/tasks_util.py:42-82 | an unmount on its own is a run of the steps and restores the lock; it ends well exactly when the robot can move what is in the drive to the free slot, and then only that tape moves and only that record is cleared |
| Tapes.Library.TakeOut | ESSArch_Core/tasks_util.py:64-80 | the robot, the record and the unlock of an unmount that has the lock |
| Tapes.RewrittenRows | ESSArch_Core/tasks_util.py:64-80 | in rows: what a finished mount or unmount has moved, recorded and counted, and that nothing else changed |

## Left out

- History.NeverAgain: holds for tasks that stand in `on_error` of no step; `Errors.AgainIff` is about the others. A task that is lost while STARTED, and the revoking of tasks, are not part of a history.
- Repeats.LoudRepeats: lets a signature whose row was reset run its task, as `_run_task` (`dbtask.py:222-260`) does for a task without information package; with one, `_run` looks its row up first (`dbtask.py:190-204`) and such a signature fails. The signature of `Repeats.RunTwice` keeps its row.
- InOrder.ExecutedInOrder: orders tasks that stand in `on_error` of no step; error tasks begin whenever a failure calls for them.
- Once.AllExactlyOnce: is about a part that is run and resumed as a whole; `Once.OnceIff` is about any dispatches.
- Compilation.FlowWork: leaves out nested error tasks, whose rows come between the entries; `Compilation.CompilesFaithfully` says what they do.
- Engine.Engine.GetStatus: promises the value from scratch only when nothing below the step is in the window between an update by the result backend and the clear that follows it.
- Engine.Engine.GetProgress: the same.
- Engine.Engine.StepStatus: the same; `Caching.StaleUntilReturn` shows that the window is real.
- Engine.Engine.StepProgress: the same.
- Engine.Engine.RunChildren: returns the canvas without the error group that is linked to its signatures; `History.Linked` says which that is.
- Engine.Engine.CreateStep: does not store which error tasks the step has; `Specs.WorkflowErrors` says which.
- Engine.Engine.AddTasks: the tasks may not be linked by a retry to tasks that stay outside.
- Engine.Engine.CreateWorkflow: is for a new engine with nothing cached; `top_root_step`, `workflow_steps` and `from` entries are not modelled.
- Locking.NeverStuck: locks neither expire nor are they re-entrant.
- Schemas.GetSchemas: how paths join and what loads are parameters; `rootdir` is part of what loads.
- Tapes.Library.Mount: what the robot, the device and the label do are parameters; status fields and the retries after a locked drive are not modelled.
- Celery, the broker and redis, and how a canvas is sent to them; `direct` only decides whether the canvas is applied at once, which is the executor's part.
- Error tasks of a single task, which are linked when it is run alone; how celery hands the link of a canvas on to its parts; queues, headers, and the result, traceback and time fields of a task.
- The poller branch of `ProcessStep.run`, which reads an attribute that is not declared.
- `run_if`, `allow_failure` and the lock of the information package in `DBTask`.
- Deleting steps and tasks outside the clean-up, and moving steps: no clear of the old ancestors follows.
- Interleavings inside one top-level read or between a save and its clear: a clear does not take the locks of the ancestors.
- Guardian's own permissions, superusers, inactive and anonymous users, `include_no_auth_objs`, and the check without an object.
- Remote task copies, XML, archive and format tools, serializers, filters, views and settings.

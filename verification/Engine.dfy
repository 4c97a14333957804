/** The workflow engine: the rows of one workflow and the operations that update
    them in place. */
module Engine {
  import opened Rows
  import opened Canvas
  import opened Attempts
  import opened Status
  import opened Progress
  import opened Pruning
  import opened Tables
  import opened Caching
  import opened Resuming
  import opened Retries
  import opened Retrying
  import opened Specs
  import opened Creating
  import opened Growing

  /** Every task with a step has one in the tree. */
  ghost predicate Placed(t: Tree, tasks: seq<Task>) {
    forall i :: 0 <= i < |tasks| && tasks[i].step.Some? ==> tasks[i].step.value in Ids(t)
  }

  /** Give the tasks `rows` the step `id`. */
  function Attached(tasks: seq<Task>, rows: seq<TaskId>, id: StepId): seq<Task> {
    seq(|tasks|, i requires 0 <= i < |tasks| => if i in rows then tasks[i].(step := Some(id)) else tasks[i])
  }

  /** The steps that the tasks `rows` stand in. */
  ghost function StepsOf(tasks: seq<Task>, rows: seq<TaskId>): set<StepId> {
    set i | 0 <= i < |tasks| && i in rows && tasks[i].step.Some? :: tasks[i].step.value
  }

  class Engine {
    var steps: seq<StepRow>
    var tasks: seq<Task>
    var statusCache: Cached<State>
    var progressCache: Cached<real>
    var clock: nat
    var nextId: Uuid
    // The tree the step rows form, and the steps the result backend has written
    // to since their caches were last cleared.
    ghost var tree: Tree
    ghost var unseen: set<StepId>

    ghost predicate Valid()
      reads this
    {
      && WellFormed(tree) && Represents(tree, steps) && steps[tree.id].parent == None && ParentsFirst(steps)
      && Placed(tree, tasks) && UniqueIds(tasks, nextId) && Chains(tasks)
      && Coherent(tree, tasks, statusCache, progressCache, unseen)
    }

    /** Clear the caches of a step and all its ancestors. */
    method ClearCache(id: StepId, ghost path: seq<StepId>)
      requires ParentChain(path, steps) && path[|path| - 1] == id && steps[path[0]].parent == None
      modifies this`statusCache, this`progressCache
      ensures statusCache == old(statusCache) - set x | x in path
      ensures progressCache == old(progressCache) - set x | x in path
      decreases |path|
    {
      ChainTop(path, steps);
      statusCache := statusCache - {id};
      progressCache := progressCache - {id};
      ghost var rest := path[..|path| - 1];
      assert path == rest + [id];
      if steps[id].parent.Some? { ClearCache(steps[id].parent.value, rest); }
    }

    /** Clear the caches on the path to a step that was there with the rows `rows`. */
    method ClearPath(id: StepId, ghost rows: seq<StepRow>)
      requires id in Ids(tree) && Represents(tree, rows) && rows[tree.id].parent == None && rows <= steps
      modifies this`statusCache, this`progressCache
      ensures statusCache == old(statusCache) - OnPath(tree, id)
      ensures progressCache == old(progressCache) - OnPath(tree, id)
    {
      PathIsChain(tree, rows, id);
      ChainKept(PathTo(tree, id), rows, steps);
      ClearCache(id, PathTo(tree, id));
    }

    /** The clear that comes with a change of the tasks of step `id`, before it or after. */
    method Cleared(id: StepId, ghost before: seq<Task>, ghost after: seq<Task>)
      requires WellFormed(tree) && Represents(tree, steps) && steps[tree.id].parent == None && id in Ids(tree)
      requires Coherent(tree, before, statusCache, progressCache, unseen) && SameExcept(before, after, id)
      modifies this`statusCache, this`progressCache, this`unseen
      ensures Coherent(tree, after, statusCache, progressCache, unseen)
      ensures unseen == old(unseen) - OnPath(tree, id)
      ensures forall x :: x in OnPath(tree, id) ==> x !in statusCache && x !in progressCache
    {
      ClearKeepsCoherent(tree, before, after, statusCache, progressCache, unseen, id);
      ClearPath(id, steps);
      unseen := unseen - OnPath(tree, id);
    }

    /** Save a task row: the save handler clears the caches above it. */
    method Save(i: TaskId, row: Task)
      requires Valid() && i < |tasks| && row.step == tasks[i].step
      requires UniqueIds(tasks[i := row], nextId) && Chains(tasks[i := row])
      modifies this`tasks, this`statusCache, this`progressCache, this`unseen
      ensures Valid() && tasks == old(tasks)[i := row] && unseen <= old(unseen)
    {
      ghost var before := tasks;
      SaveKeeps(tree, tasks, i, row);
      tasks := tasks[i := row];
      if row.step.Some? {
        Cleared(row.step.value, before, tasks);
      } else {
        StepFree(tree, before, tasks, statusCache, progressCache, unseen);
      }
    }

    /** Create a task row; saving it clears the caches above it. */
    method CreateTask(row: Task) returns (i: TaskId)
      requires Valid() && row.celeryId == nextId && row.retried.None? && (row.step.Some? ==> row.step.value in Ids(tree))
      modifies this`tasks, this`nextId, this`statusCache, this`progressCache, this`unseen
      ensures Valid() && i == |old(tasks)| && tasks == old(tasks) + [row]
      ensures nextId == old(nextId) + 1 && unseen <= old(unseen)
    {
      ghost var before := tasks;
      i := |tasks|;
      AppendKeeps(tree, tasks, nextId, row);
      tasks := tasks + [row];
      nextId := nextId + 1;
      if row.step.Some? {
        Cleared(row.step.value, before, tasks);
      } else {
        StepFree(tree, before, tasks, statusCache, progressCache, unseen);
      }
    }

    /** Attach tasks to a step: its clear comes first, then one update of all of them.
        The steps that the tasks stood in before are not cleared. */
    method AddTasks(id: StepId, rows: seq<TaskId>)
      requires Valid() && id in Ids(tree) && forall i: nat :: i in rows ==> i < |tasks|
      requires Chains(Attached(tasks, rows, id))
      modifies this`tasks, this`statusCache, this`progressCache, this`unseen
      ensures Valid() && tasks == Attached(old(tasks), rows, id)
      ensures unseen == old(unseen) + StepsOf(old(tasks), rows) + {id} - OnPath(tree, id)
    {
      var attached := Attached(tasks, rows, id);
      AttachKeeps(tree, tasks, nextId, rows, id);
      AttachUnseen(tree, tasks, rows, id, statusCache, progressCache, unseen);
      Attach(id, attached, StepsOf(tasks, rows) + {id});
    }

    method Attach(id: StepId, attached: seq<Task>, ghost touched: set<StepId>)
      requires WellFormed(tree) && Represents(tree, steps) && steps[tree.id].parent == None && id in Ids(tree)
      requires Coherent(tree, attached, statusCache, progressCache, unseen + touched)
      modifies this`tasks, this`statusCache, this`progressCache, this`unseen
      ensures tasks == attached && Coherent(tree, tasks, statusCache, progressCache, unseen)
      ensures unseen == old(unseen) + touched - OnPath(tree, id)
    {
      unseen := unseen + touched;
      Cleared(id, attached, attached);
      tasks := attached;
    }

    /** Create a child step; saving it clears the caches from its parent up. */
    method AddStep(parent: StepId, pos: int, parallel: bool) returns (id: StepId)
      requires Valid() && parent in Ids(tree)
      modifies this`steps, this`clock, this`statusCache, this`progressCache, this`tree, this`unseen
      ensures Valid() && id == |old(steps)| && clock == old(clock) + 1
      ensures steps == old(steps) + [StepRow(Some(parent), pos, old(clock), parallel)]
      ensures tree.id == old(tree.id) && Ids(tree) == old(Ids(tree)) + {id}
    {
      ghost var t, rows, now, ids := tree, steps, tasks, nextId;
      ghost var status, progress, stale := statusCache, progressCache, unseen;
      var row := StepRow(Some(parent), pos, clock, parallel);
      id := |steps|;
      steps := steps + [row];
      clock := clock + 1;
      ClearPath(parent, rows);
      Regrow(t, parent, rows, row, now, ids, status, progress, stale);
    }

    /** The tree and the unseen steps after a step was added and the caches cleared. */
    ghost method Regrow(t: Tree, parent: StepId, rows: seq<StepRow>, row: StepRow, now: seq<Task>, ids: Uuid,
                        status: Cached<State>, progress: Cached<real>, stale: set<StepId>)
      requires WellFormed(t) && Represents(t, rows) && rows[t.id].parent == None && ParentsFirst(rows)
      requires Placed(t, now) && UniqueIds(now, ids) && Chains(now) && Coherent(t, now, status, progress, stale)
      requires tasks == now && nextId == ids && parent in Ids(t) && ChildOf(row, parent) && steps == rows + [row]
      requires statusCache == status - OnPath(t, parent) && progressCache == progress - OnPath(t, parent)
      modifies this`tree, this`unseen
      ensures Valid() && tree.id == t.id && Ids(tree) == Ids(t) + {|rows|}
    {
      ghost var grown := GrowKeeps(t, parent, rows, row, now, status, progress, stale);
      Replant(grown, now, stale - OnPath(t, parent));
    }

    ghost method Replant(g: Tree, now: seq<Task>, kept: set<StepId>)
      requires WellFormed(g) && Represents(g, steps) && steps[g.id].parent == None && ParentsFirst(steps)
      requires Placed(g, now) && UniqueIds(now, nextId) && Chains(now)
      requires Coherent(g, now, statusCache, progressCache, kept) && tasks == now
      modifies this`tree, this`unseen
      ensures Valid() && tree == g
    {
      tree, unseen := g, kept;
    }

    /** The result backend writes to the row with this task id, without a save. */
    method StoreResult(id: Uuid, s: State)
      requires Valid()
      modifies this`tasks, this`unseen
      ensures Valid() && tasks == Report(old(tasks), id, s)
      ensures forall i :: 0 <= i < |tasks| ==>
                tasks[i] == if old(tasks)[i].celeryId != id then old(tasks)[i]
                            else if s == SUCCESS then old(tasks)[i].(status := SUCCESS, progress := 100)
                            else old(tasks)[i].(status := s)
      ensures unseen == old(unseen) + TouchedSteps(old(tasks), id)
    {
      ghost var before := tasks;
      ReportKeeps(tree, tasks, nextId, id, s);
      ReportLinks(tasks, Report(tasks, id, s));
      tasks := Report(tasks, id, s);
      ghost var touched := TouchedSteps(before, id);
      unseen := unseen + touched;
      WriteTouched(tree, before, id, s, statusCache, progressCache, old(unseen));
    }

    /** A task of step `id` has returned: the caches above it are cleared. */
    method AfterReturn(id: StepId)
      requires Valid() && id in Ids(tree)
      modifies this`statusCache, this`progressCache, this`unseen
      ensures Valid() && unseen == old(unseen) - OnPath(tree, id)
    {
      Cleared(id, tasks, tasks);
    }

    /** The caches are right and the rows of `s` can be read. */
    ghost predicate Readable(s: Tree)
      reads this
    {
      && WellFormed(tree) && Sub(s, tree) && Represents(s, steps) && Chains(tasks)
      && Coherent(tree, tasks, statusCache, progressCache, unseen)
    }

    lemma {:induction false} ValidReadable(s: Tree)
      requires Valid() && Sub(s, tree)
      ensures Readable(s)
    {
      RepresentsSub(s, tree, steps);
    }

    /** The cached, recursive status of a step: what computing it from scratch
        gives, unless a result below it was written and not yet followed by a clear. */
    method GetStatus(id: StepId, ghost s: Tree) returns (r: State)
      requires Readable(s) && s.id == id
      modifies this`statusCache
      ensures Readable(s) && (Ids(s) !! unseen ==> r == StatusOf(s, tasks))
      decreases s, 2
    {
      if id in statusCache { return statusCache[id]; }
      var kids := ChildSteps(steps, id);
      assert |kids| == |s.steps|;
      if kids == [] && !AnyLive(tasks, id) {
        r := PENDING;
      } else if HasLive(tasks, id, FAILURE) {
        r := FAILURE;
      } else if HasLive(tasks, id, REVOKED) {
        r := REVOKED;
      } else {
        r := ScanChildren(id, kids, s);
      }
      StoreCoherent(tree, tasks, statusCache, progressCache, unseen, s, r, 0.0);
      statusCache := statusCache[id := r];
    }

    /** The part of the status that loops over the child steps. */
    method ScanChildren(id: StepId, kids: seq<Child>, ghost s: Tree) returns (r: State)
      requires Readable(s) && s.id == id && kids == ChildSteps(steps, id)
      modifies this`statusCache
      ensures Readable(s)
      ensures Ids(s) !! unseen ==> r == Scan(ChildStatuses(s, tasks), OwnStatus(tasks, id), false)
      decreases s, 1
    {
      var status := ReadOwn(id);
      var partiallyDone := false;
      ghost var cs := ChildStatuses(s, tasks);
      assert cs[0..] == cs;
      for i := 0 to |kids|
        invariant Readable(s) && |kids| == |cs| == |s.steps|
        invariant Ids(s) !! unseen ==> Scan(cs[i..], status, partiallyDone) == Scan(cs, OwnStatus(tasks, id), false)
      {
        assert cs[i..][0] == cs[i] && cs[i..][1..] == cs[i + 1..];
        KidRow(s, steps, i);
        var failed;
        status, partiallyDone, failed := ReadKid(kids[i].row, s, i, status, partiallyDone);
        if failed { return FAILURE; }
      }
      r := status;
    }

    /** The round for the child step at index `i`. */
    method ReadKid(kid: StepId, ghost s: Tree, ghost i: nat, status: State, partiallyDone: bool)
      returns (next: State, done: bool, failed: bool)
      requires Readable(s) && i < |s.steps| && kid == s.steps[i].id
      modifies this`statusCache
      ensures Readable(s)
      ensures Ids(s) !! unseen ==> failed == (ChildStatuses(s, tasks)[i] == FAILURE)
      ensures Ids(s) !! unseen ==> !failed ==> (next, done) == AfterChild(ChildStatuses(s, tasks)[i], status, partiallyDone)
      decreases s, 0
    {
      KidRow(s, steps, i);
      KidSeen(s, i, tree);
      next, done, failed := ReadChild(kid, s.steps[i], status, partiallyDone);
    }

    /** The status of a step from its own live tasks, before its child steps. */
    method ReadOwn(id: StepId) returns (status: State)
      ensures status == OwnStatus(tasks, id)
    {
      var partiallyDone := HasLive(tasks, id, SUCCESS);
      status := SUCCESS;
      if HasLive(tasks, id, PENDING) {
        if partiallyDone { status := STARTED; } else { status := PENDING; }
      }
      if HasLive(tasks, id, STARTED) { status := STARTED; }
    }

    /** One round of the loop over the child steps; it reads the child's status
        again for every comparison. */
    method ReadChild(id: StepId, ghost k: Tree, status: State, partiallyDone: bool)
      returns (next: State, done: bool, failed: bool)
      requires Readable(k) && k.id == id
      modifies this`statusCache
      ensures Readable(k)
      ensures Ids(k) !! unseen ==> failed == (StatusOf(k, tasks) == FAILURE)
      ensures Ids(k) !! unseen ==> !failed ==> (next, done) == AfterChild(StatusOf(k, tasks), status, partiallyDone)
      decreases k, 5
    {
      ghost var now, seen := StatusOf(k, tasks), Ids(k) !! unseen;
      next, done := ReadDone(id, k, status, partiallyDone, now, seen);
      next := ReadPending(id, k, next, done, now, seen);
      var c := ReadStatus(id, k, now, seen);
      failed := c == FAILURE;
    }

    /** Its third comparison. */
    method ReadPending(id: StepId, ghost k: Tree, status: State, done: bool, ghost now: State, ghost seen: bool)
      returns (next: State)
      requires Readable(k) && k.id == id && now == StatusOf(k, tasks) && (seen ==> Ids(k) !! unseen)
      modifies this`statusCache
      ensures Readable(k) && now == StatusOf(k, tasks)
      ensures seen ==> next == if now == PENDING && status != STARTED then (if done then STARTED else PENDING) else status
      decreases k, 4
    {
      next := status;
      var c := ReadStatus(id, k, now, seen);
      if c == PENDING && next != STARTED {
        if done { next := STARTED; } else { next := c; }
      }
    }

    /** Its first two comparisons. */
    method ReadDone(id: StepId, ghost k: Tree, status: State, partiallyDone: bool, ghost now: State, ghost seen: bool)
      returns (next: State, done: bool)
      requires Readable(k) && k.id == id && now == StatusOf(k, tasks) && (seen ==> Ids(k) !! unseen)
      modifies this`statusCache
      ensures Readable(k) && now == StatusOf(k, tasks)
      ensures seen ==> next == (if now == STARTED then STARTED else status) && done == (partiallyDone || now == SUCCESS)
      decreases k, 4
    {
      next, done := status, partiallyDone;
      var c := ReadStatus(id, k, now, seen);
      if c == STARTED { next := c; }
      c := ReadStatus(id, k, now, seen);
      if c == SUCCESS { done := true; }
    }

    method ReadStatus(id: StepId, ghost k: Tree, ghost now: State, ghost seen: bool) returns (c: State)
      requires Readable(k) && k.id == id && now == StatusOf(k, tasks) && (seen ==> Ids(k) !! unseen)
      modifies this`statusCache
      ensures Readable(k) && now == StatusOf(k, tasks)
      ensures seen ==> c == now
      decreases k, 3
    {
      c := GetStatus(id, k);
    }

    /** The cached, recursive progress of a step. */
    method GetProgress(id: StepId, ghost s: Tree) returns (r: real)
      requires Readable(s) && s.id == id
      modifies this`progressCache
      ensures Readable(s) && (Ids(s) !! unseen ==> r == ProgressOf(s, tasks))
      decreases s, 1
    {
      if id in progressCache { return progressCache[id]; }
      ProgressClosed(s, tasks);
      var kids := ChildSteps(steps, id);
      assert |kids| == |s.steps|;
      if kids == [] && !AnyTask(tasks, id) {
        r := 0.0;
      } else {
        r := MeanProgress(id, kids, s);
      }
      StoreCoherent(tree, tasks, statusCache, progressCache, unseen, s, PENDING, r);
      progressCache := progressCache[id := r];
    }

    method MeanProgress(id: StepId, kids: seq<Child>, ghost s: Tree) returns (r: real)
      requires Readable(s) && s.id == id && kids == ChildSteps(steps, id) && (kids != [] || AnyTask(tasks, id))
      modifies this`progressCache
      ensures Readable(s) && (Ids(s) !! unseen ==> r == Mean(ChildProgress(s, tasks), LiveProgress(tasks, id)))
      decreases s, 0, 1
    {
      var live := LiveProgress(tasks, id);
      var total := |kids| + |live|;
      TotalNeverZero(s, tasks);
      if total == 0 { assert false; }
      var sum := SumChildren(id, kids, s);
      r := MeanOf(sum, Sum(live), total);
      if Ids(s) !! unseen { MeanFromSum(s, tasks, sum, live, total); }
    }

    method SumChildren(id: StepId, kids: seq<Child>, ghost s: Tree) returns (sum: real)
      requires Readable(s) && s.id == id && kids == ChildSteps(steps, id)
      modifies this`progressCache
      ensures Readable(s) && (Ids(s) !! unseen ==> sum == SumFirst(s, tasks, |s.steps|))
      decreases s, 0, 0
    {
      sum := 0.0;
      assert |kids| == |s.steps|;
      forall i | 0 <= i < |kids| ensures kids[i].row == s.steps[i].id { KidRow(s, steps, i); }
      for i := 0 to |kids|
        invariant Readable(s)
        invariant Ids(s) !! unseen ==> sum == SumFirst(s, tasks, i)
      {
        sum := AddChild(kids[i].row, sum, s, i);
      }
    }

    method AddChild(id: StepId, before: real, ghost s: Tree, ghost i: nat) returns (sum: real)
      requires Readable(s) && i < |s.steps| && s.steps[i].id == id
      requires Ids(s) !! unseen ==> before == SumFirst(s, tasks, i)
      modifies this`progressCache
      ensures Readable(s)
      ensures Ids(s) !! unseen ==> sum == SumFirst(s, tasks, i + 1)
      decreases s.steps[i], 2
    {
      KidSeen(s, i, tree);
      var p := GetProgress(id, s.steps[i]);
      sum := before + p;
    }

    /** A read of the status of any step from outside. */
    method StepStatus(id: StepId, ghost s: Tree) returns (r: State)
      requires Valid() && Sub(s, tree) && s.id == id
      modifies this`statusCache
      ensures Valid() && (Ids(s) !! unseen ==> r == StatusOf(s, tasks))
    {
      ValidReadable(s);
      r := GetStatus(id, s);
    }

    /** A read of the progress of any step from outside. */
    method StepProgress(id: StepId, ghost s: Tree) returns (r: real)
      requires Valid() && Sub(s, tree) && s.id == id
      modifies this`progressCache
      ensures Valid() && (Ids(s) !! unseen ==> r == ProgressOf(s, tasks))
    {
      ValidReadable(s);
      r := GetProgress(id, s);
    }

    /******* Dispatching *******/

    /** Put a task back to pending, under a fresh task id. */
    method ResetTask(i: TaskId)
      requires Valid() && i < |tasks|
      modifies this`tasks, this`nextId, this`statusCache, this`progressCache, this`unseen
      ensures Valid() && tasks == old(tasks)[i := Reset(old(tasks)[i], old(nextId))]
      ensures var row := old(tasks)[i];
              tasks[i] == Task(row.step, row.work, row.pos, row.created, PENDING, old(nextId), 0, row.retried)
      ensures nextId == old(nextId) + 1 && unseen <= old(unseen)
    {
      var row := Reset(tasks[i], nextId);
      ResetKeeps(tasks, nextId, i);
      nextId := nextId + 1;
      Save(i, row);
    }

    /** The ids of a step and its descendants. */
    method Descendants(id: StepId, ghost s: Tree) returns (ids: set<StepId>)
      requires Represents(s, steps) && s.id == id
      ensures ids == Ids(s)
      decreases s
    {
      var kids := ChildSteps(steps, id);
      var rest: set<StepId> := {};
      assert IdsOf(s.steps[..0]) == {};
      for i := 0 to |kids|
        invariant |kids| == |s.steps| && rest == IdsOf(s.steps[..i])
      {
        KidRow(s, steps, i);
        var below := Descendants(kids[i].row, s.steps[i]);
        IdsOfPrefix(s.steps, i);
        rest := rest + below;
      }
      IdsOfAll(s);
      ids := rest + {id};
    }

    /** The signature of a task object as it was loaded. */
    method CreateSubTask(loaded: seq<Task>, i: TaskId) returns (sig: Sig)
      requires i < |loaded|
      ensures sig == SigOf(loaded, i) && sig.taskId == loaded[i].celeryId && sig.task == i
    {
      sig := SigOf(loaded, i);
    }

    /** Resume a step: every unfinished task below it is reset, and again by each
        step on the way down, and signed once. */
    method Resume(id: StepId, ghost s: Tree) returns (c: Canvas)
      requires Valid() && Sub(s, tree) && s.id == id
      modifies this`tasks, this`nextId, this`statusCache, this`progressCache, this`unseen
      ensures Valid() && nextId >= old(nextId)
      ensures ResetIn(Ids(s), old(nextId), old(tasks), tasks)
      ensures c == Plan(s, tasks)
      decreases s, 1
    {
      ghost var before, floor := tasks, nextId;
      RepresentsSub(s, tree, steps);
      var ids := Descendants(id, s);
      ResetUnfinished(ids);
      ghost var reset, later := tasks, nextId;
      if !PendingIn(tasks, ids) {
        NothingPending(s, tasks);
        return Group([]);
      }
      var own := Own(tasks, id, Pending(tasks));
      c := RunChildren(id, own, s);
      ResumeDone(s, floor, later, before, reset, tasks);
    }

    method ResetUnfinished(ids: set<StepId>)
      requires Valid()
      modifies this`tasks, this`nextId, this`statusCache, this`progressCache, this`unseen
      ensures Valid() && nextId >= old(nextId)
      ensures ResetIn(ids, old(nextId), old(tasks), tasks)
    {
      var rows := ToReset(tasks, ids);
      ghost var before, floor := tasks, nextId;
      for k := 0 to |rows|
        invariant Valid() && nextId >= floor && ResetRows(rows[..k], floor, before, tasks)
      {
        assert rows[k] in rows;
        ResetNext(rows, k, floor, before, tasks, nextId);
        ResetTask(rows[k]);
      }
      assert rows[..|rows|] == rows;
      ResetAll(ids, floor, before, tasks);
    }

    /** Run a step: its own pending tasks, and its child steps resumed. */
    method Run(id: StepId, ghost s: Tree) returns (c: Canvas)
      requires Valid() && Sub(s, tree) && s.id == id
      modifies this`tasks, this`nextId, this`statusCache, this`progressCache, this`unseen
      ensures Valid() && nextId >= old(nextId)
      ensures ResetIn(Ids(s) - {s.id}, old(nextId), old(tasks), tasks)
      ensures c == RunPlan(s, tasks)
    {
      RepresentsSub(s, tree, steps);
      var own := Own(tasks, id, Pending(tasks));
      c := RunChildren(id, own, s);
    }

    /** Build the canvas of a step from its pending tasks, as loaded at the start,
        and its child steps, resumed one after the other in execution order. */
    method RunChildren(id: StepId, own: seq<TaskId>, ghost s: Tree) returns (c: Canvas)
      requires Valid() && Sub(s, tree) && Represents(s, steps) && s.id == id && own == Own(tasks, id, Pending(tasks))
      modifies this`tasks, this`nextId, this`statusCache, this`progressCache, this`unseen
      ensures Valid() && nextId >= old(nextId)
      ensures ResetIn(Ids(s) - {s.id}, old(nextId), old(tasks), tasks)
      ensures c == RunPlan(s, tasks)
      decreases s, 0, 1
    {
      var kids := ChildSteps(steps, id);
      if own == [] && kids == [] { return Group([]); }
      var loaded := tasks;
      var items := Sort(kids + TaskItems(loaded, own));
      assert items == ResultList(s, loaded, Pending(loaded));
      var parts := [];
      SubIds(s, tree);
      ghost var floor := nextId;
      BuildStart(s, floor, loaded, items);
      for k := 0 to |items|
        invariant Valid() && nextId >= floor
        invariant BuiltSoFar(s, floor, loaded, tasks, items, k, parts)
      {
        ghost var now, later := tasks, nextId;
        BuiltItem(s, floor, loaded, tasks, items, k, parts);
        var y := ChildPart(items[k], loaded, s);
        BuildStep(s, floor, later, loaded, now, tasks, items, k, parts, y);
        if !Empty(y) { parts := parts + [y]; }
      }
      c := if steps[id].parallel then Group(parts) else Chain(parts);
      BuildDone(s, floor, loaded, tasks, parts);
    }

    /** One element of the canvas: a signature, or a child step resumed. */
    method ChildPart(c: Child, loaded: seq<Task>, ghost s: Tree) returns (y: Canvas)
      requires Valid() && Sub(s, tree) && IsItem(s, tasks, Pending(tasks), c)
      requires SameOwn(s, loaded, tasks)
      modifies this`tasks, this`nextId, this`statusCache, this`progressCache, this`unseen
      ensures Valid() && nextId >= old(nextId)
      ensures ResetIn(KidIds(s, c), old(nextId), old(tasks), tasks)
      ensures IsItem(s, tasks, Pending(tasks), c) && y == Part(s, tasks, Pending(tasks), Sigs(tasks), false, c)
      decreases s, 0, 0
    {
      if c.isTask {
        var sig := CreateSubTask(loaded, c.row);
        y := Leaf(sig);
        PartIs(s, tasks, c);
      } else {
        ghost var j := IndexOf(s.steps, c.row);
        ghost var now, later := tasks, nextId;
        KidSeen(s, j, tree);
        y := Resume(c.row, s.steps[j]);
        ChildResumed(s, tree, later, now, tasks, c);
      }
    }

    /******* Retrying *******/

    /** Create the task that retries task `i` and link task `i` to it. */
    method CreateRetryObj(i: TaskId) returns (j: TaskId)
      requires Valid() && i < |tasks|
      modifies this`tasks, this`nextId, this`clock, this`statusCache, this`progressCache, this`unseen
      ensures Valid() && j == |old(tasks)| && tasks == WithRetry(old(tasks), i, old(clock), old(nextId))
    {
      ghost var before := tasks;
      j := CreateTask(RetryOf(tasks[i], clock, nextId));
      clock := clock + 1;
      assert tasks[i] == before[i];
      LinkKeeps(before, tasks, nextId, i);
      Save(i, tasks[i].(retried := Some(j)));
    }

    /** Retry a step: a new task for every live task below it, and the canvas of those. */
    method Retry(id: StepId, ghost s: Tree) returns (c: Canvas)
      requires Valid() && Sub(s, tree) && s.id == id
      modifies this`tasks, this`nextId, this`clock, this`statusCache, this`progressCache, this`unseen
      ensures Valid()
      ensures RetriedIn(s, old(tasks), tasks) && c == RetryPlan(s, old(tasks), tasks)
      decreases s, 1
    {
      RepresentsSub(s, tree, steps);
      SubIds(s, tree);
      var kids := ChildSteps(steps, id);
      ghost var a := tasks;
      var own := Own(tasks, id, Live(tasks));
      if own == [] && kids == [] {
        RetryNothing(s, tasks);
        return Group([]);
      }
      var items := Sort(kids + TaskItems(tasks, own));
      assert items == ResultList(s, a, Live(a));
      var parts := RetryItems(items, s, a);
      c := if steps[id].parallel then Group(parts) else Chain(parts);
      RetryDone(s, a, tasks, parts);
    }

    /** The elements of the canvas of a retry, one after the other. */
    method RetryItems(items: seq<Child>, ghost s: Tree, ghost a: seq<Task>) returns (parts: seq<Canvas>)
      requires Valid() && Sub(s, tree) && WellFormed(s) && tasks == a && items == ResultList(s, a, Live(a))
      modifies this`tasks, this`nextId, this`clock, this`statusCache, this`progressCache, this`unseen
      ensures Valid() && RetriedSoFar(s, a, tasks, items, |items|, parts)
      decreases s, 0, 1
    {
      parts := [];
      RetryStart(s, a, items);
      for k := 0 to |items|
        invariant Valid() && RetriedSoFar(s, a, tasks, items, k, parts)
      {
        ghost var b := tasks;
        RetryItem(s, a, b, items, k, parts);
        var y := RetryPart(items[k], s, a, RowsOf(s, a, items[..k]));
        RetryStep(s, a, b, tasks, items, k, parts, y);
        parts := parts + [y];
      }
    }

    /** One element of the canvas of a retry, when the rows `sel` were retried since `a`. */
    method RetryPart(c: Child, ghost s: Tree, ghost a: seq<Task>, ghost sel: set<TaskId>) returns (y: Canvas)
      requires Valid() && Sub(s, tree) && WellFormed(s) && IsItem(s, a, Live(a), c) && RetriedRows(sel, a, tasks)
      requires c.isTask ==> c.row < |tasks| && tasks[c.row] == a[c.row]
      requires !c.isTask ==> forall i :: i in sel ==> !InTree(a[i], s.steps[IndexOf(s.steps, c.row)])
      modifies this`tasks, this`nextId, this`clock, this`statusCache, this`progressCache, this`unseen
      ensures Valid() && |a| <= |tasks|
      ensures RetriedRows(ItemRows(s, a, c), old(tasks), tasks)
      ensures y == Part(s, a, Live(a), RetrySigs(a, tasks), true, c)
      decreases s, 0, 0
    {
      ghost var b := tasks;
      if c.isTask {
        RetryOne(tasks, c.row, clock, nextId);
        var j := CreateRetryObj(c.row);
        var sig := CreateSubTask(tasks, j);
        y := Leaf(sig);
      } else {
        ghost var k := s.steps[IndexOf(s.steps, c.row)];
        KidSeen(s, IndexOf(s.steps, c.row), tree);
        y := Retry(c.row, k);
        RetriedElsewhere(k, sel, a, b);
        RowsOfTree(k, b, tasks);
        RetryPlanLater(k, sel, a, b, tasks);
      }
    }

    /******* Creating *******/

    /** Nothing is cached while a workflow is created: no step of it was read yet. */
    ghost predicate NothingCached()
      reads this
    {
      statusCache == map[] && progressCache == map[]
    }

    ghost function Now(): Db
      reads this
    {
      Db(|steps|, tasks, clock, nextId)
    }

    /** The root step, alone. */
    constructor ()
      ensures Valid() && tree == Node(0, 0, 0, false, []) && steps == [StepRow(None, 0, 0, false)]
      ensures NothingCached() && Now() == Db(1, [], 1, 0)
    {
      steps := [StepRow(None, 0, 0, false)];
      tasks := [];
      statusCache, progressCache := map[], map[];
      clock, nextId := 1, 0;
      tree, unseen := Node(0, 0, 0, false, []), {};
      RootRepresented();
      RootCoherent(Node(0, 0, 0, false, []));
    }

    /** The error tasks of a step, created in bulk: no save, so no clear. */
    method CreateErrors(errors: seq<Work>, step: StepId, status: State)
      modifies this`tasks, this`clock, this`nextId
      ensures Now() == AddErrors(errors, step, status, old(Now()))
    {
      ghost var db := Now();
      assert errors[..0] == [];
      for k := 0 to |errors|
        invariant Now() == AddErrors(errors[..k], step, status, db)
      {
        assert errors[..k + 1][..k] == errors[..k];
        var progress := if status == SUCCESS then 100 else 0;
        tasks := tasks + [Task(Some(step), errors[k], k, clock, status, nextId, progress, None)];
        clock := clock + 1;
        nextId := nextId + 1;
      }
      assert errors[..|errors|] == errors;
    }

    /** Create the child steps and tasks of `parent` from `flow`. */
    method CreateSteps(parent: StepId, flow: seq<Entry>, ghost path: seq<StepId>) returns (ghost kids: seq<Tree>)
      requires NothingCached() && OnChain(path, parent, steps) && ParentsFirst(steps) && ChildSteps(steps, parent) == []
      modifies this`steps, this`tasks, this`clock, this`nextId, this`statusCache, this`progressCache
      ensures NothingCached() && ParentsFirst(steps)
      ensures Built(kids, Now()) == CreateFlow(flow, parent, old(Now()))
      ensures RowsMade(parent, old(steps), steps, kids)
      decreases flow, 0
    {
      kids := [];
      ghost var db, before := Now(), steps;
      assert flow[..0] == [];
      for e := 0 to |flow|
        invariant NothingCached() && OnChain(path, parent, steps) && ParentsFirst(steps)
        invariant Built(kids, Now()) == CreateFlow(flow[..e], parent, db)
        invariant RowsMade(parent, before, steps, kids)
      {
        assert flow[..e + 1][..e] == flow[..e] && flow[..e + 1][e] == flow[e];
        ghost var rows := steps;
        FlowMade(flow[..e], parent, db);
        ghost var made := CreateOne(parent, flow[e], e, path, kids);
        kids := kids + made;
        RowsMadeThen(parent, before, rows, steps);
      }
      assert flow[..|flow|] == flow;
    }

    /** Create the step or task of one entry, unless it is disabled or an empty step. */
    method CreateOne(parent: StepId, entry: Entry, index: nat, ghost path: seq<StepId>, ghost kids: seq<Tree>)
      returns (ghost made: seq<Tree>)
      requires NothingCached() && OnChain(path, parent, steps) && ParentsFirst(steps)
      requires ChildSteps(steps, parent) == StepItems(kids) && AllRepresented(kids, steps)
      requires forall k :: 0 <= k < |kids| ==> kids[k].pos < index
      requires parent !in IdsOf(kids) && forall x :: x in IdsOf(kids) ==> x < |steps|
      modifies this`steps, this`tasks, this`clock, this`nextId, this`statusCache, this`progressCache
      ensures NothingCached() && OnChain(path, parent, steps) && ParentsFirst(steps)
      ensures Built(made, Now()) == CreateEntry(entry, index, parent, old(Now()))
      ensures old(steps) <= steps && ParentsFrom(parent, |old(steps)|, steps)
      ensures ChildSteps(steps, parent) == StepItems(kids + made) && AllRepresented(kids + made, steps)
      decreases entry, 2
    {
      made := [];
      assert kids + [] == kids;
      if !entry.enabled { return; }
      match entry
      case TaskEntry(_, work, onError) =>
        CreateLoose(parent, work, onError, index, path);
        assert kids + made == kids;
      case StepEntry(_, parallel, children, onError) =>
        if children == [] { return; }
        ghost var kid := CreateStep(parent, parallel, children, onError, index, path, kids);
        made := [kid];
    }

    /** Create a task of a step and the task's error tasks. */
    method CreateLoose(parent: StepId, work: Work, onError: seq<Work>, index: nat, ghost path: seq<StepId>)
      requires NothingCached() && OnChain(path, parent, steps)
      modifies this`tasks, this`clock, this`nextId, this`statusCache, this`progressCache
      ensures NothingCached()
      ensures Built([], Now()) == CreateEntry(TaskEntry(true, work, onError), index, parent, old(Now()))
    {
      tasks := tasks + [Task(Some(parent), work, index, clock, PENDING, nextId, 0, None)];
      clock := clock + 1;
      nextId := nextId + 1;
      ClearCache(parent, path);
      CreateErrors(onError, parent, PENDING);
    }

    /** Create a child step, its error tasks, and what it holds. */
    method CreateStep(parent: StepId, parallel: bool, children: seq<Entry>, onError: seq<Work>, index: nat,
                      ghost path: seq<StepId>, ghost kids: seq<Tree>)
      returns (ghost kid: Tree)
      requires NothingCached() && OnChain(path, parent, steps) && ParentsFirst(steps) && children != []
      requires ChildSteps(steps, parent) == StepItems(kids) && AllRepresented(kids, steps)
      requires forall k :: 0 <= k < |kids| ==> kids[k].pos < index
      requires parent !in IdsOf(kids) && forall x :: x in IdsOf(kids) ==> x < |steps|
      modifies this`steps, this`tasks, this`clock, this`nextId, this`statusCache, this`progressCache
      ensures NothingCached() && OnChain(path, parent, steps) && ParentsFirst(steps)
      ensures Built([kid], Now()) == CreateEntry(StepEntry(true, parallel, children, onError), index, parent, old(Now()))
      ensures old(steps) <= steps && ParentsFrom(parent, |old(steps)|, steps)
      ensures ChildSteps(steps, parent) == StepItems(kids + [kid]) && AllRepresented(kids + [kid], steps)
      decreases children, 1
    {
      ghost var before, db := steps, Now();
      var id := |steps|;
      var row := StepRow(Some(parent), index, clock, parallel);
      StepAppended(path, parent, steps, row);
      steps := steps + [row];
      clock := clock + 1;
      ClearCache(parent, path);
      assert Now() == db.(steps := db.steps + 1, clock := db.clock + 1);
      CreateErrors(onError, id, PENDING);
      ghost var below := CreateSteps(id, children, path + [id]);
      kid := Node(id, row.pos, row.created, row.parallel, below);
      StepBuilt(parallel, children, onError, index, parent, db, below, Now());
      assert StepFollows(parent, before, row, steps, kid);
      StepFinished(path, parent, before, row, steps, kids, kid);
    }

    /** Remove the steps without tasks, pass by pass, until no empty leaf is left.
        The first test asks for any step without tasks, so the first pass may
        find nothing to remove. */
    method CleanUp(ghost root: Tree) returns (kept: bool)
      requires WellFormed(root) && Represents(root, steps) && LiveSteps(steps) == Ids(root)
      requires steps[root.id].parent == None && ParentsFirst(steps)
      modifies this`steps
      ensures kept <==> HasTask(root, tasks)
      ensures ParentsFirst(steps)
      ensures kept ==>
                Represents(Pruned(root, tasks), steps) && LiveSteps(steps) == Ids(Pruned(root, tasks))
                && steps[Pruned(root, tasks).id].parent == None
      ensures !kept ==> LiveSteps(steps) == {}
    {
      ghost var now := Some(root);
      var empty := exists i :: i in LiveSteps(steps) && !AnyTask(tasks, i);
      if !empty { NoTaskless(root, steps, tasks); }
      while empty
        invariant Cleaning(root, now, steps, tasks)
        invariant !empty ==> LeavesLeft(now, tasks) == {}
        decreases |LiveSteps(steps)|, if empty then 1 else 0
      {
        ghost var before := steps;
        PassCleans(root, now, steps, tasks);
        steps := Delete(steps, Childless(steps, tasks));
        now := AfterPass(now, tasks);
        LeavesAre(root, now, steps, tasks);
        empty := Childless(steps, tasks) != {};
        PassShrinks(before, steps, tasks);
      }
      CleanDone(root, now, steps, tasks);
      kept := LiveSteps(steps) != {};
    }

    /** The rows of a new workflow before the clean-up. */
    method CreateRows(spec: seq<Entry>, onError: seq<Work>) returns (ghost root: Tree)
      requires steps == [StepRow(None, 0, 0, false)] && NothingCached() && Now() == Db(1, [], 1, 0)
      modifies this`steps, this`tasks, this`clock, this`nextId, this`statusCache, this`progressCache
      ensures NothingCached()
      ensures root == Specs.CreateWorkflow(spec, onError, Db(0, [], 0, 0)).root && root.id == 0
      ensures tasks == Specs.CreateWorkflow(spec, onError, Db(0, [], 0, 0)).db.tasks
      ensures WellFormed(root) && Represents(root, steps) && LiveSteps(steps) == Ids(root) && steps[0].parent == None
      ensures ParentsFirst(steps)
      ensures WellFormed(Pruned(root, tasks)) && Placed(Pruned(root, tasks), tasks) && UniqueIds(tasks, nextId)
      ensures Chains(tasks)
    {
      RootRepresented();
      CreateErrors(onError, 0, SUCCESS);
      ghost var kids := CreateSteps(0, spec, [0]);
      root := Node(0, 0, 0, false, kids);
      WorkflowMade(spec, onError, root, steps, tasks, nextId);
    }

    /** Create the whole workflow on a new engine: error tasks of the root, the
        steps and tasks of the specification, and the clean-up. */
    method CreateWorkflow(spec: seq<Entry>, onError: seq<Work>) returns (kept: bool, ghost root: Tree)
      requires steps == [StepRow(None, 0, 0, false)] && NothingCached() && Now() == Db(1, [], 1, 0)
      modifies this
      ensures root == Specs.CreateWorkflow(spec, onError, Db(0, [], 0, 0)).root
      ensures tasks == Specs.CreateWorkflow(spec, onError, Db(0, [], 0, 0)).db.tasks
      ensures kept <==> HasTask(root, tasks)
      ensures kept ==> Valid() && tree == Pruned(root, tasks)
      ensures !kept ==> LiveSteps(steps) == {}
    {
      root := CreateRows(spec, onError);
      kept := CleanUp(root);
      Adopt(Pruned(root, tasks), kept);
    }

    /** The tree the rows now form becomes the tree of the engine. */
    ghost method Adopt(t: Tree, kept: bool)
      requires NothingCached() && WellFormed(t) && Placed(t, tasks) && UniqueIds(tasks, nextId) && Chains(tasks)
      requires kept ==> Represents(t, steps) && steps[t.id].parent == None && ParentsFirst(steps)
      modifies this`tree, this`unseen
      ensures tree == t && (kept ==> Valid())
    {
      tree, unseen := t, {};
      NothingIncoherent(tree, tasks);
    }
  }

  /******* What the methods rely on *******/

  lemma {:induction false} AppendKeeps(t: Tree, tasks: seq<Task>, next: Uuid, row: Task)
    requires Placed(t, tasks) && UniqueIds(tasks, next)
    requires row.celeryId == next && (row.step.Some? ==> row.step.value in Ids(t))
    requires Chains(tasks) && row.retried.None?
    ensures Placed(t, tasks + [row]) && UniqueIds(tasks + [row], next + 1) && Chains(tasks + [row])
    ensures forall id :: row.step == Some(id) ==> SameExcept(tasks, tasks + [row], id)
  {
  }

  lemma {:induction false} AttachKeeps(t: Tree, tasks: seq<Task>, next: Uuid, rows: seq<TaskId>, id: StepId)
    requires Placed(t, tasks) && UniqueIds(tasks, next) && id in Ids(t)
    ensures var after := Attached(tasks, rows, id); Placed(t, after) && UniqueIds(after, next)
  {
  }

  /** Moving tasks leaves right every cache of a subtree that neither had nor gets one of them. */
  lemma {:induction false} AttachUnseen(t: Tree, tasks: seq<Task>, rows: seq<TaskId>, id: StepId,
                                        status: Cached<State>, progress: Cached<real>, unseen: set<StepId>)
    requires Coherent(t, tasks, status, progress, unseen)
    ensures Coherent(t, Attached(tasks, rows, id), status, progress, unseen + StepsOf(tasks, rows) + {id})
  {
    var after, touched := Attached(tasks, rows, id), StepsOf(tasks, rows) + {id};
    assert forall i :: 0 <= i < |tasks| && tasks[i].step.Some? && i in rows ==> tasks[i].step.value in touched;
    forall r | Sub(r, t) && Ids(r) !! unseen + touched
      ensures r.id in status ==> status[r.id] == StatusOf(r, after)
      ensures r.id in progress ==> progress[r.id] == ProgressOf(r, after)
    {
      StatusFrame(r, tasks, after);
      ProgressFrame(r, tasks, after);
    }
  }

  lemma {:induction false} GrowKeeps(t: Tree, parent: StepId, rows: seq<StepRow>, row: StepRow, tasks: seq<Task>,
                                     status: Cached<State>, progress: Cached<real>, unseen: set<StepId>)
    returns (g: Tree)
    requires WellFormed(t) && Represents(t, rows) && rows[t.id].parent == None && ParentsFirst(rows)
    requires Placed(t, tasks) && Coherent(t, tasks, status, progress, unseen)
    requires parent in Ids(t) && ChildOf(row, parent)
    ensures WellFormed(g) && Represents(g, rows + [row]) && ParentsFirst(rows + [row])
    ensures g.id == t.id && g.id < |rows| && Ids(g) == Ids(t) + {|rows|} && Placed(g, tasks)
    ensures var path := OnPath(t, parent); Coherent(g, tasks, status - path, progress - path, unseen - path)
  {
    StepAdded(t, parent, rows, row);
    GrowCoherent(t, tasks, status, progress, unseen, parent, Node(|rows|, row.pos, row.created, row.parallel, []));
    g := Grow(t, parent, Node(|rows|, row.pos, row.created, row.parallel, []));
  }

  lemma {:induction false} SaveKeeps(t: Tree, tasks: seq<Task>, i: TaskId, row: Task)
    requires Placed(t, tasks) && i < |tasks| && row.step == tasks[i].step
    ensures Placed(t, tasks[i := row])
    ensures row.step.Some? ==> row.step.value in Ids(t) && SameExcept(tasks, tasks[i := row], row.step.value)
  {
  }

  lemma {:induction false} RootCoherent(t: Tree)
    ensures Coherent(t, [], map[], map[], {}) && Placed(t, []) && UniqueIds([], 0) && Chains([])
  {
  }

  lemma {:induction false} LinkKeeps(before: seq<Task>, tasks: seq<Task>, next: Uuid, i: TaskId)
    requires i < |before| && UniqueIds(tasks, next) && Chains(before)
    requires exists created, id :: tasks == before + [RetryOf(before[i], created, id)]
    ensures var after := tasks[i := tasks[i].(retried := Some(|before|))];
            UniqueIds(after, next) && Chains(after)
  {
    var created, id :| tasks == before + [RetryOf(before[i], created, id)];
    LinkChains(before, i, created, id);
  }

  lemma {:induction false} LinkChains(before: seq<Task>, i: TaskId, created: nat, id: Uuid)
    requires i < |before| && Chains(before)
    ensures Chains(WithRetry(before, i, created, id))
  {
    var after := WithRetry(before, i, created, id);
    assert forall k :: 0 <= k < |before| && k != i ==> after[k] == before[k];
  }

  lemma {:induction false} ResetKeeps(tasks: seq<Task>, next: Uuid, i: TaskId)
    requires i < |tasks| && UniqueIds(tasks, next) && Chains(tasks)
    ensures var after := tasks[i := Reset(tasks[i], next)]; UniqueIds(after, next + 1) && Chains(after)
    ensures UniqueIds(tasks, next + 1)
  {
    ReportLinks(tasks, tasks[i := Reset(tasks[i], next)]);
  }

  /** The steps the backend touches when it writes to task id `id`. */
  ghost function TouchedSteps(tasks: seq<Task>, id: Uuid): set<StepId> {
    set i | 0 <= i < |tasks| && tasks[i].celeryId == id && tasks[i].step.Some? :: tasks[i].step.value
  }

  lemma {:induction false} ReportKeeps(t: Tree, tasks: seq<Task>, next: Uuid, id: Uuid, s: State)
    requires Placed(t, tasks) && UniqueIds(tasks, next)
    ensures Placed(t, Report(tasks, id, s)) && UniqueIds(Report(tasks, id, s), next)
  {
  }

  /** Chains are a matter of step, work, position and link. */
  lemma {:induction false} ReportLinks(a: seq<Task>, b: seq<Task>)
    requires |a| == |b| && Chains(a)
    requires forall i :: 0 <= i < |a| ==>
               b[i].step == a[i].step && b[i].work == a[i].work && b[i].pos == a[i].pos && b[i].retried == a[i].retried
    ensures Chains(b)
  {
  }

  lemma {:induction false} WriteTouched(t: Tree, tasks: seq<Task>, id: Uuid, s: State,
                                        status: Cached<State>, progress: Cached<real>, unseen: set<StepId>)
    requires Coherent(t, tasks, status, progress, unseen)
    ensures Coherent(t, Report(tasks, id, s), status, progress, unseen + TouchedSteps(tasks, id))
  {
    var after, touched := Report(tasks, id, s), TouchedSteps(tasks, id);
    forall r | Sub(r, t) && Ids(r) !! unseen + touched
      ensures r.id in status ==> status[r.id] == StatusOf(r, after)
      ensures r.id in progress ==> progress[r.id] == ProgressOf(r, after)
    {
      forall i | 0 <= i < |tasks| && (InTree(tasks[i], r) || InTree(after[i], r)) ensures after[i] == tasks[i] {
        assert tasks[i].step.value !in touched;
      }
      StatusFrame(r, tasks, after);
      ProgressFrame(r, tasks, after);
    }
  }

  /** Rows of no step do not show in any step. */
  lemma {:induction false} StepFree(t: Tree, a: seq<Task>, b: seq<Task>, status: Cached<State>, progress: Cached<real>,
                                    unseen: set<StepId>)
    requires Coherent(t, a, status, progress, unseen)
    requires |a| <= |b|
    requires forall i :: 0 <= i < |b| ==> (i < |a| && b[i] == a[i]) || (b[i].step == None && (i < |a| ==> a[i].step == None))
    ensures Coherent(t, b, status, progress, unseen)
  {
    forall s | Sub(s, t) ensures StatusOf(s, a) == StatusOf(s, b) && ProgressOf(s, a) == ProgressOf(s, b) {
      StatusFrame(s, a, b);
      ProgressFrame(s, a, b);
    }
  }

  predicate PendingIn(tasks: seq<Task>, ids: set<StepId>) {
    exists i :: 0 <= i < |tasks| && tasks[i].step.Some? && tasks[i].step.value in ids && tasks[i].status == PENDING
  }

  lemma {:induction false} NothingPending(s: Tree, tasks: seq<Task>)
    requires !PendingIn(tasks, Ids(s))
    ensures Plan(s, tasks) == Group([])
  {
    assert !AnyIn(tasks, s, Pending(tasks));
  }

  lemma {:induction false} ResumeDone(s: Tree, floor: Uuid, later: Uuid, a: seq<Task>, b: seq<Task>, c: seq<Task>)
    requires ResetIn(Ids(s), floor, a, b) && PendingIn(b, Ids(s))
    requires ResetIn(Ids(s) - {s.id}, later, b, c) && floor <= later
    ensures ResetIn(Ids(s), floor, a, c) && Plan(s, c) == RunPlan(s, c)
  {
    ResetAgain(Ids(s), Ids(s) - {s.id}, floor, later, a, b, c);
    var i :| 0 <= i < |b| && b[i].step.Some? && b[i].step.value in Ids(s) && b[i].status == PENDING;
    assert InTree(c[i], s) && i in Pending(c);
  }

  lemma {:induction false} PartIs(s: Tree, tasks: seq<Task>, c: Child)
    requires IsItem(s, tasks, Pending(tasks), c)
    ensures Part(s, tasks, Pending(tasks), Sigs(tasks), false, c) ==
            if c.isTask then Leaf(SigOf(tasks, c.row)) else Plan(s.steps[IndexOf(s.steps, c.row)], tasks)
  {
  }

  lemma {:induction false} SameKid(s: Tree, c: Child, j: nat)
    requires WellFormed(s) && j < |s.steps| && s.steps[j].id == c.row
    requires exists i :: 0 <= i < |s.steps| && c == StepItem(s.steps[i])
    ensures c == StepItem(s.steps[j])
  {
    var i :| 0 <= i < |s.steps| && c == StepItem(s.steps[i]);
    assert s.steps[i].id in Ids(s.steps[i]) && s.steps[j].id in Ids(s.steps[j]);
  }

  /** The steps below one child of `s`. */
  ghost function KidIds(s: Tree, c: Child): set<StepId> {
    if !c.isTask && exists i :: 0 <= i < |s.steps| && s.steps[i].id == c.row
    then Ids(s.steps[IndexOf(s.steps, c.row)]) else {}
  }

  ghost function Covered(s: Tree, items: seq<Child>): set<StepId> {
    if items == [] then {} else Covered(s, items[..|items| - 1]) + KidIds(s, items[|items| - 1])
  }

  lemma {:induction false} CoveredNext(s: Tree, items: seq<Child>, k: nat)
    requires k < |items|
    ensures Covered(s, items[..k + 1]) == Covered(s, items[..k]) + KidIds(s, items[k])
    ensures WellFormed(s) ==> s.id !in KidIds(s, items[k])
    ensures Distinct(items) ==> items[k] !in items[..k]
  {
    assert items[..k + 1][..k] == items[..k] && items[..k + 1][k] == items[k];
  }

  lemma {:induction false} NotCovered(s: Tree, items: seq<Child>)
    requires WellFormed(s)
    ensures s.id !in Covered(s, items) && Covered(s, items) <= Ids(s)
    ensures forall c :: c in items ==> KidIds(s, c) <= Covered(s, items)
  {
    if items != [] { NotCovered(s, items[..|items| - 1]); }
  }

  /** The child steps among the children of `s` cover everything below it. */
  lemma {:induction false} CoveredAll(s: Tree, tasks: seq<Task>, sel: set<TaskId>)
    requires WellFormed(s)
    ensures Covered(s, ResultList(s, tasks, sel)) == Ids(s) - {s.id}
  {
    var items := ResultList(s, tasks, sel);
    NotCovered(s, items);
    forall x | x in Ids(s) && x != s.id ensures x in Covered(s, items) {
      var i :| 0 <= i < |s.steps| && x in Ids(s.steps[i]);
      KidUnique(s, i, x);
      assert IsItem(s, tasks, sel, StepItem(s.steps[i]));
      assert KidIds(s, StepItem(s.steps[i])) == Ids(s.steps[i]);
    }
  }

  /** The tasks of step `s` itself are the same rows. */
  ghost predicate SameOwn(s: Tree, a: seq<Task>, b: seq<Task>) {
    |a| == |b| && forall i :: 0 <= i < |b| && b[i].step == Some(s.id) ==> a[i] == b[i]
  }

  lemma {:induction false} OwnUntouched(s: Tree, items: seq<Child>, floor: Uuid, a: seq<Task>, b: seq<Task>)
    requires WellFormed(s) && ResetIn(Covered(s, items), floor, a, b)
    ensures SameOwn(s, a, b)
  {
    NotCovered(s, items);
  }

  lemma {:induction false} ResetBoth(x: set<StepId>, y: set<StepId>, floor: Uuid, later: Uuid, a: seq<Task>,
                                     b: seq<Task>, c: seq<Task>)
    requires ResetIn(x, floor, a, b) && ResetIn(y, later, b, c) && floor <= later
    ensures ResetIn(x + y, floor, a, c)
  {
  }

  lemma {:induction false} AllItemsKept(s: Tree, ids: set<StepId>, floor: Uuid, a: seq<Task>, b: seq<Task>,
                                        items: seq<Child>)
    requires ResetIn(ids, floor, a, b) && s.id !in ids
    requires forall d :: d in items ==> IsItem(s, a, Pending(a), d)
    ensures forall d :: d in items ==> IsItem(s, b, Pending(b), d)
  {
    forall d | d in items ensures IsItem(s, b, Pending(b), d) { ItemsKept(s, ids, floor, a, b, d); }
  }

  lemma {:induction false} PartsNext(s: Tree, tasks: seq<Task>, items: seq<Child>, k: nat)
    requires k < |items| && forall d :: d in items ==> IsItem(s, tasks, Pending(tasks), d)
    ensures var mk := Sigs(tasks);
            var y := Part(s, tasks, Pending(tasks), mk, false, items[k]);
            var rest := Parts(s, tasks, Pending(tasks), mk, false, items[..k]);
            Parts(s, tasks, Pending(tasks), mk, false, items[..k + 1]) == if Empty(y) then rest else rest + [y]
  {
    assert items[..k + 1][..k] == items[..k] && items[..k + 1][k] == items[k];
  }

  lemma {:induction false} IdsOfPrefix(ts: seq<Tree>, i: nat)
    requires i < |ts|
    ensures IdsOf(ts[..i + 1]) == IdsOf(ts[..i]) + Ids(ts[i])
  {
    assert ts[..i + 1] == ts[..i] + [ts[i]];
    IdsOfSnoc(ts[..i], ts[i]);
  }

  lemma {:induction false} IdsOfAll(s: Tree)
    ensures IdsOf(s.steps[..|s.steps|]) + {s.id} == Ids(s)
  {
    assert s.steps[..|s.steps|] == s.steps;
    IdsSplit(s);
  }

  lemma {:induction false} ChildResumed(s: Tree, t: Tree, floor: Uuid, a: seq<Task>, b: seq<Task>, c: Child)
    requires WellFormed(t) && Sub(s, t) && IsItem(s, a, Pending(a), c) && !c.isTask && ResetIn(KidIds(s, c), floor, a, b)
    ensures IsItem(s, b, Pending(b), c)
    ensures Part(s, b, Pending(b), Sigs(b), false, c) == Plan(s.steps[IndexOf(s.steps, c.row)], b)
  {
    SubIds(s, t);
    ItemsKept(s, KidIds(s, c), floor, a, b, c);
    PartIs(s, b, c);
  }

  /** What the loop over the children has built once `k` of them are done: the
      canvas parts of those children, as the rows now are. */
  ghost predicate BuiltSoFar(s: Tree, floor: Uuid, loaded: seq<Task>, tasks: seq<Task>, items: seq<Child>, k: nat,
                             parts: seq<Canvas>) {
    && k <= |items|
    && ResetIn(Covered(s, items[..k]), floor, loaded, tasks)
    && (forall d :: d in items ==> IsItem(s, tasks, Pending(tasks), d))
    && parts == Parts(s, tasks, Pending(tasks), Sigs(tasks), false, items[..k])
  }

  lemma {:induction false} BuildStart(s: Tree, floor: Uuid, loaded: seq<Task>, items: seq<Child>)
    requires items == ResultList(s, loaded, Pending(loaded))
    ensures BuiltSoFar(s, floor, loaded, loaded, items, 0, [])
  {
    assert items[..0] == [];
  }

  lemma {:induction false} BuiltItem(s: Tree, floor: Uuid, loaded: seq<Task>, tasks: seq<Task>, items: seq<Child>,
                                     k: nat, parts: seq<Canvas>)
    requires WellFormed(s) && k < |items| && BuiltSoFar(s, floor, loaded, tasks, items, k, parts)
    ensures IsItem(s, tasks, Pending(tasks), items[k]) && SameOwn(s, loaded, tasks)
  {
    assert items[k] in items;
    OwnUntouched(s, items[..k], floor, loaded, tasks);
  }

  lemma {:induction false} BuildStep(s: Tree, floor: Uuid, later: Uuid, loaded: seq<Task>, a: seq<Task>, b: seq<Task>,
                                     items: seq<Child>, k: nat, parts: seq<Canvas>, y: Canvas)
    requires WellFormed(s) && Sorted(items) && k < |items| && floor <= later
    requires BuiltSoFar(s, floor, loaded, a, items, k, parts)
    requires ResetIn(KidIds(s, items[k]), later, a, b)
    requires IsItem(s, b, Pending(b), items[k]) && y == Part(s, b, Pending(b), Sigs(b), false, items[k])
    ensures BuiltSoFar(s, floor, loaded, b, items, k + 1, if Empty(y) then parts else parts + [y])
  {
    assert items[k] in items;
    CoveredNext(s, items, k);
    ResetBoth(Covered(s, items[..k]), KidIds(s, items[k]), floor, later, loaded, a, b);
    AllItemsKept(s, KidIds(s, items[k]), later, a, b, items);
    EarlierKept(s, later, a, b, items, k);
    PartsNext(s, b, items, k);
  }

  lemma {:induction false} EarlierKept(s: Tree, floor: Uuid, a: seq<Task>, b: seq<Task>, items: seq<Child>, k: nat)
    requires WellFormed(s) && Sorted(items) && k < |items| && ResetIn(KidIds(s, items[k]), floor, a, b)
    requires forall d :: d in items ==> IsItem(s, a, Pending(a), d) && IsItem(s, b, Pending(b), d)
    ensures Parts(s, a, Pending(a), Sigs(a), false, items[..k]) == Parts(s, b, Pending(b), Sigs(b), false, items[..k])
  {
    assert items[k] in items && items[k] !in items[..k];
    if items[k].isTask {
      assert a == b;
    } else {
      var j := IndexOf(s.steps, items[k].row);
      SameKid(s, items[k], j);
      OthersKept(s, j, floor, a, b, items[..k]);
    }
  }

  lemma {:induction false} BuildDone(s: Tree, floor: Uuid, loaded: seq<Task>, tasks: seq<Task>, parts: seq<Canvas>)
    requires WellFormed(s) && (Own(loaded, s.id, Pending(loaded)) != [] || s.steps != [])
    requires var items := ResultList(s, loaded, Pending(loaded)); BuiltSoFar(s, floor, loaded, tasks, items, |items|, parts)
    ensures ResetIn(Ids(s) - {s.id}, floor, loaded, tasks)
    ensures RunPlan(s, tasks) == if s.parallel then Group(parts) else Chain(parts)
  {
    var items := ResultList(s, loaded, Pending(loaded));
    assert items[..|items|] == items;
    CoveredAll(s, loaded, Pending(loaded));
    RunChildrenDone(s, Ids(s) - {s.id}, floor, loaded, tasks);
  }

  lemma {:induction false} RunChildrenDone(s: Tree, ids: set<StepId>, floor: Uuid, loaded: seq<Task>, tasks: seq<Task>)
    requires WellFormed(s) && ResetIn(ids, floor, loaded, tasks) && s.id !in ids
    ensures ResultList(s, tasks, Pending(tasks)) == ResultList(s, loaded, Pending(loaded))
    ensures Own(tasks, s.id, Pending(tasks)) == [] <==> Own(loaded, s.id, Pending(loaded)) == []
  {
    forall c ensures IsItem(s, loaded, Pending(loaded), c) <==> IsItem(s, tasks, Pending(tasks), c) {
      ItemsKept(s, ids, floor, loaded, tasks, c);
    }
    SortedUnique(ResultList(s, tasks, Pending(tasks)), ResultList(s, loaded, Pending(loaded)));
    var a, b := Own(loaded, s.id, Pending(loaded)), Own(tasks, s.id, Pending(tasks));
    assert forall i: nat :: i in a <==> i in b;
    if a != [] { assert a[0] in a && a[0] in b; }
    if b != [] { assert b[0] in b && b[0] in a; }
  }

  lemma {:induction false} StepBuilt(parallel: bool, children: seq<Entry>, onError: seq<Work>, index: nat, parent: StepId,
                                     db: Db, below: seq<Tree>, hi: Db)
    requires children != []
    requires var started := db.(steps := db.steps + 1, clock := db.clock + 1);
             Built(below, hi) == CreateFlow(children, db.steps, AddErrors(onError, db.steps, PENDING, started))
    ensures CreateEntry(StepEntry(true, parallel, children, onError), index, parent, db)
            == Built([Node(db.steps, index, db.clock, parallel, below)], hi)
  {
  }

  lemma {:induction false} NothingIncoherent(t: Tree, tasks: seq<Task>)
    ensures Coherent(t, tasks, map[], map[], {})
  {
  }

  lemma {:induction false} StepsBelow(spec: seq<Entry>, onError: seq<Work>)
    ensures var b := CreateFlow(spec, 0, AddErrors(onError, 0, SUCCESS, Db(1, [], 1, 0)));
            forall x :: x in IdsOf(b.kids) ==> x < b.db.steps
  {
    AddErrorsMade(onError, 0, SUCCESS, Db(1, [], 1, 0));
    FlowMade(spec, 0, AddErrors(onError, 0, SUCCESS, Db(1, [], 1, 0)));
  }

  lemma {:induction false} RowsOfWorkflow(spec: seq<Entry>, onError: seq<Work>, root: Tree, steps: seq<StepRow>)
    requires var b := CreateFlow(spec, 0, AddErrors(onError, 0, SUCCESS, Db(1, [], 1, 0)));
             root == Node(0, 0, 0, false, b.kids) && |steps| == b.db.steps
    requires RowsMade(0, [StepRow(None, 0, 0, false)], steps, root.steps) && ParentsFirst(steps)
    ensures Represents(root, steps) && LiveSteps(steps) == Ids(root) && steps[0].parent == None
  {
    StepsBelow(spec, onError);
    WorkflowRows(root, steps);
  }

  lemma {:induction false} TasksOfWorkflow(spec: seq<Entry>, onError: seq<Work>)
    ensures var w := Specs.CreateWorkflow(spec, onError, Db(0, [], 0, 0));
            var t := Pruned(w.root, w.db.tasks);
            && WellFormed(w.root) && WellFormed(t) && Placed(t, w.db.tasks) && UniqueIds(w.db.tasks, w.db.ids)
            && Chains(w.db.tasks)
  {
    var w := Specs.CreateWorkflow(spec, onError, Db(0, [], 0, 0));
    WorkflowTasks(spec, onError);
    PrunedWellFormed(w.root, w.db.tasks);
  }

  /** What creation leaves is a workflow whose clean-up is valid. */
  lemma {:induction false} WorkflowMade(spec: seq<Entry>, onError: seq<Work>, root: Tree, steps: seq<StepRow>,
                                        tasks: seq<Task>, next: Uuid)
    requires var b := CreateFlow(spec, 0, AddErrors(onError, 0, SUCCESS, Db(1, [], 1, 0)));
             root == Node(0, 0, 0, false, b.kids) && tasks == b.db.tasks && next == b.db.ids && |steps| == b.db.steps
    requires RowsMade(0, [StepRow(None, 0, 0, false)], steps, root.steps) && ParentsFirst(steps)
    ensures var w := Specs.CreateWorkflow(spec, onError, Db(0, [], 0, 0)); w.root == root && w.db.tasks == tasks
    ensures WellFormed(root) && Represents(root, steps) && LiveSteps(steps) == Ids(root) && steps[0].parent == None
    ensures WellFormed(Pruned(root, tasks)) && Placed(Pruned(root, tasks), tasks) && UniqueIds(tasks, next)
    ensures Chains(tasks)
  {
    RowsOfWorkflow(spec, onError, root, steps);
    TasksOfWorkflow(spec, onError);
  }

  lemma {:induction false} PassShrinks(a: seq<StepRow>, b: seq<StepRow>, tasks: seq<Task>)
    requires b == Delete(a, Childless(a, tasks))
    ensures |LiveSteps(b)| <= |LiveSteps(a)|
    ensures |LiveSteps(b)| == |LiveSteps(a)| ==> Childless(b, tasks) == {}
  {
    DeleteLive(a, Childless(a, tasks));
    if Childless(a, tasks) == {} {
      assert b == a;
    } else {
      var x :| x in Childless(a, tasks);
      assert LiveSteps(b) <= LiveSteps(a) - {x};
      Smaller(LiveSteps(b), LiveSteps(a) - {x});
    }
    Smaller(LiveSteps(b), LiveSteps(a));
  }

  /** What is seen below a step is seen below its child steps. */
  lemma {:induction false} KidSeen(s: Tree, i: nat, t: Tree)
    requires Sub(s, t) && i < |s.steps|
    ensures Sub(s.steps[i], t) && Ids(s.steps[i]) <= Ids(s)
  {
    assert Sub(s.steps[i], s.steps[i]);
    assert Sub(s.steps[i], s);
    SubTransitive(s.steps[i], s, t);
    SubIds(s.steps[i], s);
  }
}

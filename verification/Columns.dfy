/** The order of execution read off the columns of the tables: at the step where two
    tasks part, by position, then by creation time. */
module Columns {
  import opened Rows
  import opened Tables
  import opened Canvas
  import opened Ordering
  import opened Retries

  /** Row `x` stands under step `d` at this position and creation time: its own if it is a
      task of `d`, else those of the child step that holds it. */
  ghost predicate StandsAt(d: Tree, tasks: seq<Task>, x: TaskId, pos: int, created: nat) {
    && x < |tasks| && tasks[x].step.Some?
    && if tasks[x].step.value == d.id then pos == tasks[x].pos && created == tasks[x].created
       else exists i :: 0 <= i < |d.steps| && tasks[x].step.value in Ids(d.steps[i])
                        && pos == d.steps[i].pos && created == d.steps[i].created
  }

  lemma {:induction false} HolderColumns(d: Tree, tasks: seq<Task>, x: TaskId, pos: int, created: nat)
    requires WellFormed(d) && StandsAt(d, tasks, x, pos, created)
    ensures InTree(tasks[x], d)
    ensures Holder(d, tasks, x).pos == pos && Holder(d, tasks, x).created == created
    ensures Holder(d, tasks, x).isTask <==> tasks[x].step.value == d.id
  {
    if tasks[x].step.value != d.id {
      var i :| 0 <= i < |d.steps| && tasks[x].step.value in Ids(d.steps[i])
               && pos == d.steps[i].pos && created == d.steps[i].created;
      KidUnique(d, i, tasks[x].step.value);
    }
  }

  /** Where two tasks of a step part is decided within that step. */
  lemma {:induction false} OrderWithin(t: Tree, d: Tree, tasks: seq<Task>, x: TaskId, y: TaskId)
    requires WellFormed(t) && Sub(d, t) && x < |tasks| && y < |tasks| && InTree(tasks[x], d) && InTree(tasks[y], d)
    ensures InTree(tasks[x], t) && InTree(tasks[y], t)
    ensures HappensBefore(t, tasks, x, y) <==> HappensBefore(d, tasks, x, y)
  {
    SubIds(d, t);
    if d != t {
      var i :| 0 <= i < |t.steps| && Sub(d, t.steps[i]);
      SubIds(d, t.steps[i]);
      KidUnique(t, i, tasks[x].step.value);
      KidUnique(t, i, tasks[y].step.value);
      OrderWithin(t.steps[i], d, tasks, x, y);
    }
  }

  lemma {:induction false} OrderByColumns(t: Tree, d: Tree, tasks: seq<Task>, x: TaskId, pos: int, created: nat,
                                          y: TaskId, pos': int, created': nat)
    requires WellFormed(t) && Sub(d, t)
    requires StandsAt(d, tasks, x, pos, created) && StandsAt(d, tasks, y, pos', created')
    ensures InTree(tasks[x], t) && InTree(tasks[y], t)
    ensures (pos, created) != (pos', created') ==>
              (HappensBefore(t, tasks, x, y) <==> !d.parallel && (pos < pos' || (pos == pos' && created < created')))
    ensures (pos, created) == (pos', created') && tasks[x].step.value != d.id == tasks[y].step.value ==>
              (HappensBefore(t, tasks, x, y) <==> !d.parallel)
  {
    SubIds(d, t);
    HolderColumns(d, tasks, x, pos, created);
    HolderColumns(d, tasks, y, pos', created');
    OrderWithin(t, d, tasks, x, y);
  }

  /** In a canvas of `resume` or `run`, one pending task waits for another exactly when the step
      where they part is not parallel and the other stands earlier there: at a smaller
      position, or at the same one and created earlier. */
  lemma {:induction false} SortKey(t: Tree, d: Tree, tasks: seq<Task>, x: TaskId, pos: int, created: nat,
                                   y: TaskId, pos': int, created': nat)
    requires WellFormed(t) && Sub(d, t)
    requires StandsAt(d, tasks, x, pos, created) && StandsAt(d, tasks, y, pos', created')
    requires tasks[x].status == PENDING && tasks[y].status == PENDING && (pos, created) != (pos', created')
    ensures Precedes(Plan(t, tasks), SigOf(tasks, x), SigOf(tasks, y))
            <==> !d.parallel && (pos < pos' || (pos == pos' && created < created'))
    ensures Precedes(RunPlan(t, tasks), SigOf(tasks, x), SigOf(tasks, y))
            <==> !d.parallel && (pos < pos' || (pos == pos' && created < created'))
  {
    OrderByColumns(t, d, tasks, x, pos, created, y, pos', created');
    SigsInjective(tasks, Pending(tasks));
    BuildOrder(t, tasks, Pending(tasks), Sigs(tasks), false, x, y);
  }

  /** With the same position and creation time a child step comes before a task. */
  lemma {:induction false} StepFirst(t: Tree, d: Tree, tasks: seq<Task>, x: TaskId, y: TaskId, pos: int, created: nat)
    requires WellFormed(t) && Sub(d, t)
    requires StandsAt(d, tasks, x, pos, created) && StandsAt(d, tasks, y, pos, created)
    requires tasks[x].step.value != d.id == tasks[y].step.value
    requires tasks[x].status == PENDING && tasks[y].status == PENDING
    ensures Precedes(Plan(t, tasks), SigOf(tasks, x), SigOf(tasks, y)) <==> !d.parallel
  {
    OrderByColumns(t, d, tasks, x, pos, created, y, pos, created);
    SigsInjective(tasks, Pending(tasks));
    BuildOrder(t, tasks, Pending(tasks), Sigs(tasks), false, x, y);
  }

  /** The new tasks of a retry wait for each other in the same way. */
  lemma {:induction false} RetrySortKey(t: Tree, d: Tree, a: seq<Task>, b: seq<Task>, x: TaskId, pos: int, created: nat,
                                        y: TaskId, pos': int, created': nat)
    requires WellFormed(t) && Sub(d, t) && RetriedIn(t, a, b)
    requires StandsAt(d, a, x, pos, created) && StandsAt(d, a, y, pos', created')
    requires a[x].retried.None? && a[y].retried.None? && (pos, created) != (pos', created')
    ensures b[x].retried.Some? && b[x].retried.value < |b| && b[y].retried.Some? && b[y].retried.value < |b|
    ensures Precedes(RetryPlan(t, a, b), SigOf(b, b[x].retried.value), SigOf(b, b[y].retried.value))
            <==> !d.parallel && (pos < pos' || (pos == pos' && created < created'))
  {
    OrderByColumns(t, d, a, x, pos, created, y, pos', created');
    RetryOrder(t, a, b, x, y);
  }

  /** The child steps of a step are read by position, then by creation time. */
  lemma {:induction false} ChildStepsOrder(steps: seq<StepRow>, id: StepId, i: nat, j: nat)
    requires i < j < |ChildSteps(steps, id)|
    ensures var a, b := ChildSteps(steps, id)[i].row, ChildSteps(steps, id)[j].row;
            && a < |steps| && b < |steps| && steps[a].StepRow? && steps[b].StepRow?
            && steps[a].parent == Some(id) && steps[b].parent == Some(id)
            && (steps[a].pos < steps[b].pos || (steps[a].pos == steps[b].pos && steps[a].created <= steps[b].created))
  {
    var items := ChildSteps(steps, id);
    assert items[i] in items && items[j] in items;
  }
}

/** Resets, results, and attempts: a task's results are reported to whatever row
    currently carries the task id they were issued under. */
module Attempts {
  import opened Rows
  import opened Canvas

  /** The statuses `resume` picks up. */
  predicate Resumable(s: State) { s in {PENDING, FAILURE, REVOKED} }

  function Reset(r: Task, id: Uuid): Task {
    r.(status := PENDING, celeryId := id, progress := 0)
  }

  /** A result reported under task id `id`: success also completes the progress. */
  function Outcome(r: Task, s: State): Task {
    if s == SUCCESS then r.(status := s, progress := 100) else r.(status := s)
  }

  function Report(tasks: seq<Task>, id: Uuid, s: State): seq<Task> {
    seq(|tasks|, i requires 0 <= i < |tasks| => if tasks[i].celeryId == id then Outcome(tasks[i], s) else tasks[i])
  }

  /** Task ids are unique and all below `next`, from where fresh ones are drawn. */
  ghost predicate UniqueIds(tasks: seq<Task>, next: Uuid) {
    && (forall i :: 0 <= i < |tasks| ==> tasks[i].celeryId < next)
    && (forall i, j :: 0 <= i < j < |tasks| ==> tasks[i].celeryId != tasks[j].celeryId)
  }

  /** From `a` to `b` exactly the resumable tasks of the steps `ids` were reset,
      to task ids not below `floor`. */
  ghost predicate ResetIn(ids: set<StepId>, floor: Uuid, a: seq<Task>, b: seq<Task>) {
    && |a| == |b|
    && forall i :: 0 <= i < |a| ==>
         if a[i].step.Some? && a[i].step.value in ids && Resumable(a[i].status)
         then b[i] == Reset(a[i], b[i].celeryId) && b[i].celeryId >= floor
         else b[i] == a[i]
  }

  /** `x` is the current signature of a pending task of the subtree. */
  ghost predicate SignsPending(t: Tree, tasks: seq<Task>, x: Sig) {
    && x.task < |tasks| && x == SigOf(tasks, x.task)
    && InTree(tasks[x.task], t) && tasks[x.task].status == PENDING
  }

  lemma {:induction false} PickSigs(tasks: seq<Task>, rows: seq<TaskId>)
    requires Distinct(rows) && forall i: nat :: i in rows ==> i < |tasks|
    ensures Distinct(Pick(Sigs(tasks), rows))
    ensures forall x :: x in Pick(Sigs(tasks), rows) <==> x.task in rows && x == SigOf(tasks, x.task)
  {
    var sigs := Pick(Sigs(tasks), rows);
    forall k | 0 <= k < |rows| ensures rows[k] < |tasks| && sigs[k] == SigOf(tasks, rows[k]) {
      assert rows[k] in rows;
    }
    assert forall k :: 0 <= k < |rows| ==> rows[k] in rows;
    forall x | x in sigs ensures x.task in rows && x == SigOf(tasks, x.task) {
      var k :| 0 <= k < |sigs| && sigs[k] == x;
    }
    forall x: Sig | x.task in rows && x == SigOf(tasks, x.task) ensures x in sigs {
      var k :| 0 <= k < |rows| && rows[k] == x.task;
      assert sigs[k] == x;
    }
  }

  /** A dispatched canvas holds the current signature of every pending task of
      the subtree, once, and nothing else. */
  lemma {:induction false} PlanCurrent(t: Tree, tasks: seq<Task>)
    requires WellFormed(t)
    ensures Distinct(Leaves(Plan(t, tasks))) && Leaves(RunPlan(t, tasks)) == Leaves(Plan(t, tasks))
    ensures forall x :: x in Leaves(Plan(t, tasks)) <==> SignsPending(t, tasks, x)
  {
    var order := LeafOrder(t, tasks, Pending(tasks));
    forall x ensures x in order <==> Selected(t, tasks, Pending(tasks), x) {
      LeafOrderMembers(t, tasks, Pending(tasks), x);
    }
    LeafOrderDistinct(t, tasks, Pending(tasks));
    BuildLeaves(t, tasks, Pending(tasks), Sigs(tasks), false);
    PickSigs(tasks, order);
  }

  /** `resume` emits every pending, failed or revoked task of the subtree exactly
      once, under its new task id, and nothing else; all other rows are unchanged. */
  lemma {:induction false} ResumeEmits(t: Tree, a: seq<Task>, b: seq<Task>, floor: Uuid)
    requires WellFormed(t) && ResetIn(Ids(t), floor, a, b)
    ensures Distinct(Leaves(Plan(t, b)))
    ensures forall x :: x in Leaves(Plan(t, b)) ==> x.task < |b| && x == SigOf(b, x.task) && x.taskId >= floor
    ensures forall i: nat | i < |a| ::
              if InTree(a[i], t) && a[i].status in {PENDING, FAILURE, REVOKED}
              then && SigOf(b, i) in Leaves(Plan(t, b)) && b[i].celeryId >= floor
                   && b[i] == Task(a[i].step, a[i].work, a[i].pos, a[i].created, PENDING, b[i].celeryId, 0, a[i].retried)
              else b[i] == a[i] && SigOf(b, i) !in Leaves(Plan(t, b))
  {
    PlanCurrent(t, b);
    forall x | SignsPending(t, b, x) ensures x.taskId >= floor {
      assert InTree(a[x.task], t) && Resumable(a[x.task].status);
    }
    forall i: nat | i < |a| ensures SignsPending(t, b, SigOf(b, i)) <==> InTree(a[i], t) && Resumable(a[i].status) {
    }
  }

  /** No task of the step itself, as opposed to its child steps, failed or was revoked. */
  ghost predicate NoOwnFailure(t: Tree, tasks: seq<Task>) {
    forall i :: 0 <= i < |tasks| && tasks[i].step == Some(t.id) ==> tasks[i].status !in {FAILURE, REVOKED}
  }

  /** `run` resumes the child steps but takes only the pending tasks of the step
      itself: it emits all unfinished work iff none of those failed. */
  lemma {:induction false} RunEmits(t: Tree, a: seq<Task>, b: seq<Task>, floor: Uuid)
    requires WellFormed(t) && ResetIn(Ids(t) - {t.id}, floor, a, b)
    ensures (forall i: nat | i < |a| && InTree(a[i], t) && a[i].status in {PENDING, FAILURE, REVOKED} ::
               SigOf(b, i) in Leaves(RunPlan(t, b)))
            <==> NoOwnFailure(t, a)
  {
    PlanCurrent(t, b);
    forall i: nat | i < |a| && InTree(a[i], t) && Resumable(a[i].status)
      ensures SigOf(b, i) in Leaves(RunPlan(t, b)) <==> !(a[i].step == Some(t.id) && a[i].status != PENDING)
    {
      assert SignsPending(t, b, SigOf(b, i)) <==> b[i].status == PENDING;
    }
    if !NoOwnFailure(t, a) {
      var i: nat :| i < |a| && a[i].step == Some(t.id) && a[i].status in {FAILURE, REVOKED};
      assert InTree(a[i], t) && Resumable(a[i].status);
    }
  }

  /******* Late results *******/

  /** What can happen to the rows between issuing a task and hearing from it. */
  datatype Change = ResetTask(i: TaskId) | Deliver(id: Uuid, s: State) | Create(r: Task)

  datatype Table = Table(tasks: seq<Task>, next: Uuid)

  function Apply(t: Table, a: Change): Table {
    match a
    case ResetTask(i) =>
      if i < |t.tasks| then Table(t.tasks[i := Reset(t.tasks[i], t.next)], t.next + 1) else t
    case Deliver(id, s) => Table(Report(t.tasks, id, s), t.next)
    case Create(r) => Table(t.tasks + [r.(celeryId := t.next)], t.next + 1)
  }

  function ApplyAll(t: Table, acts: seq<Change>): Table {
    if acts == [] then t else Apply(ApplyAll(t, acts[..|acts| - 1]), acts[|acts| - 1])
  }

  ghost predicate Retired(tasks: seq<Task>, id: Uuid) {
    forall j :: 0 <= j < |tasks| ==> tasks[j].celeryId != id
  }

  lemma {:induction false} ResetRetires(t: Table, acts: seq<Change>, i: TaskId)
    requires UniqueIds(t.tasks, t.next) && i < |t.tasks|
    ensures var u := ApplyAll(t, acts);
            && UniqueIds(u.tasks, u.next) && t.next <= u.next && |t.tasks| <= |u.tasks|
            && if ResetTask(i) in acts then Retired(u.tasks, t.tasks[i].celeryId)
               else u.tasks[i].celeryId == t.tasks[i].celeryId
  {
    if acts != [] {
      var n := |acts| - 1;
      ResetRetires(t, acts[..n], i);
      assert forall a :: a in acts <==> a in acts[..n] || a == acts[n];
    }
  }

  function ReportAll(tasks: seq<Task>, rs: seq<(Sig, State)>): seq<Task> {
    if rs == [] then tasks
    else Report(ReportAll(tasks, rs[..|rs| - 1]), rs[|rs| - 1].0.taskId, rs[|rs| - 1].1)
  }

  /** Results of signatures made from these rows, at most one for each. */
  ghost predicate OneEach(tasks: seq<Task>, rs: seq<(Sig, State)>) {
    && (forall k :: 0 <= k < |rs| ==> rs[k].0.task < |tasks| && rs[k].0 == SigOf(tasks, rs[k].0.task))
    && (forall k, l :: 0 <= k < l < |rs| ==> rs[k].0 != rs[l].0)
  }

  /** Each result is in the end found in the row its signature was made from; rows
      without a result are as they were. */
  lemma {:induction false} ResultsLand(tasks: seq<Task>, next: Uuid, rs: seq<(Sig, State)>)
    requires UniqueIds(tasks, next) && OneEach(tasks, rs)
    ensures var after := ReportAll(tasks, rs);
            && |after| == |tasks|
            && (forall i :: 0 <= i < |tasks| ==> after[i].celeryId == tasks[i].celeryId)
            && (forall k :: 0 <= k < |rs| ==> after[rs[k].0.task] == Outcome(tasks[rs[k].0.task], rs[k].1))
            && (forall i :: 0 <= i < |tasks| && (forall k :: 0 <= k < |rs| ==> rs[k].0.task != i) ==> after[i] == tasks[i])
  {
    if rs != [] {
      var n := |rs| - 1;
      ResultsLand(tasks, next, rs[..n]);
      assert forall k :: 0 <= k < n ==> rs[..n][k] == rs[k];
    }
  }

  /** Tasks that run side by side may report in any order. */
  lemma {:induction false} AnyOrder(tasks: seq<Task>, next: Uuid, rs: seq<(Sig, State)>, rs': seq<(Sig, State)>)
    requires UniqueIds(tasks, next) && OneEach(tasks, rs) && OneEach(tasks, rs')
    requires forall r :: r in rs <==> r in rs'
    ensures ReportAll(tasks, rs) == ReportAll(tasks, rs')
  {
    ResultsLand(tasks, next, rs);
    ResultsLand(tasks, next, rs');
    assert forall l :: 0 <= l < |rs'| ==> rs'[l] in rs;
    forall i | 0 <= i < |tasks| ensures ReportAll(tasks, rs)[i] == ReportAll(tasks, rs')[i] {
      if k :| 0 <= k < |rs| && rs[k].0.task == i {
        assert rs[k] in rs';
      }
    }
  }

  /** A result issued for row `i` is delivered after anything else has happened.
      It reaches exactly row `i` if the row was not reset since; otherwise it
      changes nothing at all. */
  lemma {:induction false} LateResult(t: Table, acts: seq<Change>, i: TaskId, s: State)
    requires UniqueIds(t.tasks, t.next) && i < |t.tasks|
    ensures var u := ApplyAll(t, acts);
            var late := Report(u.tasks, t.tasks[i].celeryId, s);
            && i < |u.tasks|
            && late == if ResetTask(i) in acts then u.tasks else u.tasks[i := Outcome(u.tasks[i], s)]
  {
    ResetRetires(t, acts, i);
  }
}

/** Retrying a step: every live task of the subtree is replaced by a new one. */
module Retries {
  import opened Rows
  import opened Canvas
  import opened Ordering
  import opened Attempts
  import opened Status
  import opened Progress

  /** The task that retries `r`: same step, work and position, and nothing else of it. */
  function RetryOf(r: Task, created: nat, id: Uuid): Task {
    Task(r.step, r.work, r.pos, created, PREPARED, id, 0, None)
  }

  predicate Replaced(r: Task, t: Tree) { InTree(r, t) && r.retried.None? }

  /** From `a` to `b`, with new rows from number |a| on: each live task of the
      subtree got its own new retry, every new row is such a retry, and no other
      row changed. */
  ghost predicate RetriedIn(t: Tree, a: seq<Task>, b: seq<Task>) {
    && |a| <= |b|
    && (forall i :: 0 <= i < |a| ==>
          if Replaced(a[i], t) then
            && b[i].retried.Some? && |a| <= b[i].retried.value < |b|
            && b[i] == a[i].(retried := b[i].retried)
            && var j := b[i].retried.value; b[j] == RetryOf(a[i], b[j].created, b[j].celeryId)
          else b[i] == a[i])
    && (forall i, k :: 0 <= i < k < |a| && Replaced(a[i], t) && Replaced(a[k], t) ==> b[i].retried != b[k].retried)
    && (forall j :: |a| <= j < |b| ==> b[j].retried.None? && IsRetry(t, a, b, j))
  }

  /** Row `j` retries a live task of the subtree. */
  ghost predicate IsRetry(t: Tree, a: seq<Task>, b: seq<Task>, j: TaskId)
    requires |a| <= |b|
  {
    exists i :: 0 <= i < |a| && Replaced(a[i], t) && b[i].retried == Some(j)
  }

  /** The signature `retry` emits for each old row: that of its retry. */
  function RetrySigs(a: seq<Task>, b: seq<Task>): seq<Sig>
    requires |a| <= |b|
  {
    seq(|a|, i requires 0 <= i < |a| =>
      if b[i].retried.Some? && b[i].retried.value < |b| then SigOf(b, b[i].retried.value) else SigOf(a, i))
  }

  function RetryPlan(t: Tree, a: seq<Task>, b: seq<Task>): Canvas
    requires |a| <= |b|
  {
    Build(t, a, Live(a), RetrySigs(a, b), true)
  }

  /******* Chains of retries *******/

  /** The retry links form chains: forward, within one step, and never joining. */
  ghost predicate Chains(tasks: seq<Task>) {
    && LinksForward(tasks)
    && (forall i :: 0 <= i < |tasks| && tasks[i].retried.Some? ==>
          var r := tasks[tasks[i].retried.value];
          r.work == tasks[i].work && r.pos == tasks[i].pos)
    && (forall i, k :: 0 <= i < k < |tasks| && tasks[i].retried.Some? ==> tasks[i].retried != tasks[k].retried)
  }

  lemma {:induction false} RetryKeepsChains(t: Tree, a: seq<Task>, b: seq<Task>)
    requires Chains(a) && RetriedIn(t, a, b)
    ensures Chains(b)
  {
  }

  ghost predicate Reaches(tasks: seq<Task>, i: TaskId, j: TaskId)
    requires LinksForward(tasks)
    decreases |tasks| - i
  {
    i < |tasks| && (i == j || (tasks[i].retried.Some? && Reaches(tasks, tasks[i].retried.value, j)))
  }

  /** The live end of a task's chain. */
  ghost function LiveEnd(tasks: seq<Task>, i: TaskId): (j: TaskId)
    requires LinksForward(tasks) && i < |tasks|
    ensures i <= j < |tasks| && tasks[j].retried.None? && tasks[j].step == tasks[i].step
    decreases |tasks| - i
  {
    if tasks[i].retried.None? then i else LiveEnd(tasks, tasks[i].retried.value)
  }

  lemma {:induction false} ReachesLast(tasks: seq<Task>, i: TaskId, p: TaskId)
    requires Chains(tasks) && p < |tasks| && tasks[p].retried.Some?
    requires Reaches(tasks, i, tasks[p].retried.value) && i != tasks[p].retried.value
    ensures Reaches(tasks, i, p)
    decreases |tasks| - i
  {
    var n := tasks[i].retried.value;
    if n != tasks[p].retried.value { ReachesLast(tasks, n, p); } else { assert i == p; }
  }

  lemma {:induction false} ReachesWithin(tasks: seq<Task>, i: TaskId, j: TaskId)
    requires LinksForward(tasks) && Reaches(tasks, i, j)
    ensures i <= j < |tasks| && LiveEnd(tasks, i) == LiveEnd(tasks, j)
    decreases |tasks| - i
  {
    if i != j { ReachesWithin(tasks, tasks[i].retried.value, j); }
  }

  /** Two tasks share a live end iff one is a retry, near or far, of the other:
      chains are disjoint and each has one live end. */
  lemma {:induction false} ChainsDisjoint(tasks: seq<Task>, i: TaskId, j: TaskId)
    requires Chains(tasks) && i < |tasks| && j < |tasks|
    ensures LiveEnd(tasks, i) == LiveEnd(tasks, j) <==> Reaches(tasks, i, j) || Reaches(tasks, j, i)
    decreases 2 * |tasks| - i - j
  {
    if Reaches(tasks, i, j) { ReachesWithin(tasks, i, j); }
    if Reaches(tasks, j, i) { ReachesWithin(tasks, j, i); }
    if LiveEnd(tasks, i) == LiveEnd(tasks, j) {
      EndReached(tasks, i);
      EndReached(tasks, j);
      if tasks[i].retried.Some? && tasks[j].retried.Some? {
        var m, n := tasks[i].retried.value, tasks[j].retried.value;
        ChainsDisjoint(tasks, m, n);
        if i != j {
          assert m != n;
          if Reaches(tasks, m, n) { ReachesLast(tasks, m, j); } else { ReachesLast(tasks, n, i); }
        }
      }
    }
  }

  lemma {:induction false} EndReached(tasks: seq<Task>, i: TaskId)
    requires LinksForward(tasks) && i < |tasks|
    ensures Reaches(tasks, i, LiveEnd(tasks, i))
    decreases |tasks| - i
  {
    if tasks[i].retried.Some? { EndReached(tasks, tasks[i].retried.value); }
  }

  /******* Retry replaces one for one *******/

  lemma {:induction false} RetrySigsInjective(t: Tree, a: seq<Task>, b: seq<Task>)
    requires RetriedIn(t, a, b)
    ensures Injective(RetrySigs(a, b), Live(a))
  {
    var mk := RetrySigs(a, b);
    forall i, k | 0 <= i < |mk| && 0 <= k < |mk| && i in Live(a) && k in Live(a) && mk[i] == mk[k]
      ensures i == k
    {
      assert mk[i].task == (if Replaced(a[i], t) then b[i].retried.value else i);
      assert mk[k].task == (if Replaced(a[k], t) then b[k].retried.value else k);
    }
  }

  lemma {:induction false} RetryLeaf(t: Tree, a: seq<Task>, b: seq<Task>, i: TaskId)
    requires RetriedIn(t, a, b) && i < |a| && Replaced(a[i], t)
    ensures |a| <= b[i].retried.value < |b|
    ensures RetrySigs(a, b)[i] == SigOf(b, b[i].retried.value)
    ensures RetrySigs(a, b)[i].work == a[i].work
  {
  }

  /** The row that replaces a live task has its step, work and position, is PREPARED and has made
      no progress; the old row is linked to it and otherwise as it was. */
  lemma {:induction false} RetryRow(t: Tree, a: seq<Task>, b: seq<Task>, i: TaskId)
    requires RetriedIn(t, a, b) && i < |a| && InTree(a[i], t) && a[i].retried == None
    ensures b[i].retried.Some? && |a| <= b[i].retried.value < |b|
    ensures b[i] == Task(a[i].step, a[i].work, a[i].pos, a[i].created, a[i].status, a[i].celeryId, a[i].progress, b[i].retried)
    ensures var r := b[b[i].retried.value];
            r == Task(a[i].step, a[i].work, a[i].pos, r.created, PREPARED, r.celeryId, 0, None)
  {
  }

  lemma {:induction false} RetryLeaves(t: Tree, a: seq<Task>, b: seq<Task>)
    requires WellFormed(t) && |a| <= |b|
    ensures var order, leaves := LeafOrder(t, a, Live(a)), Leaves(RetryPlan(t, a, b));
            && |leaves| == |order|
            && forall k :: 0 <= k < |leaves| ==>
                 order[k] < |a| && Replaced(a[order[k]], t) && leaves[k] == RetrySigs(a, b)[order[k]]
  {
    var order := LeafOrder(t, a, Live(a));
    BuildLeaves(t, a, Live(a), RetrySigs(a, b), true);
    forall k | 0 <= k < |order| ensures order[k] in order && Selected(t, a, Live(a), order[k]) {
      assert order[k] in order;
      LeafOrderMembers(t, a, Live(a), order[k]);
    }
  }

  /** The canvas holds the retries of the live tasks in the old order, each with
      the old work. */
  lemma {:induction false} RetryEmits(t: Tree, a: seq<Task>, b: seq<Task>)
    requires WellFormed(t) && RetriedIn(t, a, b)
    ensures var order, leaves := LeafOrder(t, a, Live(a)), Leaves(RetryPlan(t, a, b));
            && |leaves| == |order|
            && forall k :: 0 <= k < |leaves| ==>
                 && order[k] < |a| && Replaced(a[order[k]], t) && b[order[k]].retried.Some?
                 && |a| <= b[order[k]].retried.value < |b|
                 && leaves[k] == SigOf(b, b[order[k]].retried.value)
                 && leaves[k].work == a[order[k]].work
  {
    RetryLeaves(t, a, b);
    var order, leaves := LeafOrder(t, a, Live(a)), Leaves(RetryPlan(t, a, b));
    forall k | 0 <= k < |leaves|
      ensures b[order[k]].retried.Some? && |a| <= b[order[k]].retried.value < |b|
      ensures leaves[k] == SigOf(b, b[order[k]].retried.value) && leaves[k].work == a[order[k]].work
    {
      RetryLeaf(t, a, b, order[k]);
    }
  }

  /** No retry is left out of the canvas. */
  lemma {:induction false} RetryEmitsAll(t: Tree, a: seq<Task>, b: seq<Task>, j: TaskId)
    requires WellFormed(t) && RetriedIn(t, a, b) && |a| <= j < |b|
    ensures SigOf(b, j) in Leaves(RetryPlan(t, a, b))
  {
    var order := LeafOrder(t, a, Live(a));
    RetryLeaves(t, a, b);
    assert IsRetry(t, a, b, j);
    var i: nat :| i < |a| && Replaced(a[i], t) && b[i].retried == Some(j);
    LeafOrderMembers(t, a, Live(a), i);
    var k :| 0 <= k < |order| && order[k] == i;
    assert Leaves(RetryPlan(t, a, b))[k] == SigOf(b, j);
  }

  /** The retries wait for each other as the tree orders the tasks they replace. */
  lemma {:induction false} RetryOrder(t: Tree, a: seq<Task>, b: seq<Task>, x: TaskId, y: TaskId)
    requires WellFormed(t) && RetriedIn(t, a, b)
    requires x < |a| && y < |a| && Replaced(a[x], t) && Replaced(a[y], t)
    ensures Precedes(RetryPlan(t, a, b), SigOf(b, b[x].retried.value), SigOf(b, b[y].retried.value))
            <==> HappensBefore(t, a, x, y)
  {
    RetrySigsInjective(t, a, b);
    BuildOrder(t, a, Live(a), RetrySigs(a, b), true, x, y);
  }

  /******* What the code does besides *******/

  /** Right after a retry every live task is PREPARED, which the status scan does
      not know: a step without empty leaves reads SUCCESS before anything ran. */
  lemma {:induction false} RetriedReadsSuccess(t: Tree, a: seq<Task>, b: seq<Task>)
    requires RetriedIn(t, a, b) && Chains(b)
    requires forall d :: Sub(d, t) ==> d.steps != [] || AnyTask(a, d.id)
    ensures StatusOf(t, b) == SUCCESS
  {
    forall j | 0 <= j < |b| && InTree(b[j], t) && b[j].retried.None? ensures b[j].status == PREPARED {
      if j >= |a| {
        assert IsRetry(t, a, b, j);
        var i :| 0 <= i < |a| && Replaced(a[i], t) && b[i].retried == Some(j);
      }
    }
    forall d | Sub(d, t) ensures NothingLeft(d, b) {
      SubIdIn(d, t);
      if i: nat :| i < |a| && a[i].step == Some(d.id) {
        assert b[i].step == a[i].step;
        var j := LiveEnd(b, i);
        assert LiveIn(b[j], d.id);
      }
    }
    forall d | Exposed(d, t, b) ensures Sub(d, t) { ExposedIsSub(d, t, b); }
    assert Sub(t, t);
    SubIdIn(t, t);
    SuccessIff(t, b);
  }

  lemma {:induction false} ExposedIsSub(d: Tree, t: Tree, tasks: seq<Task>)
    requires Exposed(d, t, tasks)
    ensures Sub(d, t)
  {
    if d != t {
      var i :| 0 <= i < |t.steps| && Exposed(d, t.steps[i], tasks);
      ExposedIsSub(d, t.steps[i], tasks);
    }
  }

  /** `resume` never emits a prepared retry; it emits again the replaced tasks
      that had not succeeded. */
  lemma {:induction false} ResumeAfterRetry(t: Tree, a: seq<Task>, b: seq<Task>, c: seq<Task>, floor: Uuid)
    requires WellFormed(t) && RetriedIn(t, a, b) && ResetIn(Ids(t), floor, b, c)
    ensures forall j: nat | |a| <= j < |b| :: SigOf(c, j) !in Leaves(Plan(t, c))
    ensures forall i: nat | i < |a| && Replaced(a[i], t) :: SigOf(c, i) in Leaves(Plan(t, c)) <==> Resumable(a[i].status)
  {
    ResumeEmits(t, b, c, floor);
    forall j: nat | |a| <= j < |b| ensures b[j].status == PREPARED {
      assert IsRetry(t, a, b, j);
      var i :| 0 <= i < |a| && Replaced(a[i], t) && b[i].retried == Some(j);
    }
  }
}

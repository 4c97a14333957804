/** Facts about resuming step by step: what repeated resets of the same tasks
    add up to, and which parts of a canvas they leave alone. */
module Resuming {
  import opened Rows
  import opened Canvas
  import opened Attempts

  /** The resumable tasks of the steps `ids`, by row. */
  function ToReset(tasks: seq<Task>, ids: set<StepId>): (rows: seq<TaskId>)
    ensures forall i: nat :: i in rows <==>
              i < |tasks| && tasks[i].step.Some? && tasks[i].step.value in ids && Resumable(tasks[i].status)
    ensures Distinct(rows)
  {
    if tasks == [] then []
    else
      var n := |tasks| - 1;
      var rest := ToReset(tasks[..n], ids);
      assert forall k :: 0 <= k < |rest| ==> rest[k] in rest;
      if tasks[n].step.Some? && tasks[n].step.value in ids && Resumable(tasks[n].status) then rest + [n] else rest
  }

  /** From `a` to `b` exactly the rows `rows` were reset. */
  ghost predicate ResetRows(rows: seq<TaskId>, floor: Uuid, a: seq<Task>, b: seq<Task>) {
    && |a| == |b|
    && forall i: nat | i < |a| ::
         if i in rows then b[i] == Reset(a[i], b[i].celeryId) && b[i].celeryId >= floor else b[i] == a[i]
  }

  lemma {:induction false} ResetNext(rows: seq<TaskId>, k: nat, floor: Uuid, a: seq<Task>, b: seq<Task>, id: Uuid)
    requires k < |rows| && Distinct(rows) && ResetRows(rows[..k], floor, a, b) && rows[k] < |a| && floor <= id
    ensures ResetRows(rows[..k + 1], floor, a, b[rows[k] := Reset(b[rows[k]], id)])
  {
    assert rows[..k + 1] == rows[..k] + [rows[k]];
    assert rows[k] !in rows[..k];
  }

  lemma {:induction false} ResetAll(ids: set<StepId>, floor: Uuid, a: seq<Task>, b: seq<Task>)
    requires ResetRows(ToReset(a, ids), floor, a, b)
    ensures ResetIn(ids, floor, a, b)
  {
    forall i: nat | i < |a|
      ensures if a[i].step.Some? && a[i].step.value in ids && Resumable(a[i].status)
              then b[i] == Reset(a[i], b[i].celeryId) && b[i].celeryId >= floor
              else b[i] == a[i]
    {
      assert i in ToReset(a, ids) <==> a[i].step.Some? && a[i].step.value in ids && Resumable(a[i].status);
    }
  }

  /** Resetting again, within the same steps, is like resetting once, later. */
  lemma {:induction false} ResetAgain(ids: set<StepId>, more: set<StepId>, floor: Uuid, later: Uuid, a: seq<Task>,
                                      b: seq<Task>, c: seq<Task>)
    requires ResetIn(ids, floor, a, b) && ResetIn(more, later, b, c) && more <= ids && floor <= later
    ensures ResetIn(ids, floor, a, c)
  {
  }

  /** Parts are built alike if each of them is. */
  lemma {:induction false} PartsSame(t: Tree, a: seq<Task>, selA: set<TaskId>, mk: seq<Sig>,
                                     b: seq<Task>, selB: set<TaskId>, nk: seq<Sig>, keep: bool, items: seq<Child>)
    requires |mk| == |a| && |nk| == |b|
    requires forall c :: c in items ==> IsItem(t, a, selA, c) && IsItem(t, b, selB, c)
    requires forall c :: c in items && IsItem(t, a, selA, c) && IsItem(t, b, selB, c) ==>
               Part(t, a, selA, mk, keep, c) == Part(t, b, selB, nk, keep, c)
    ensures Parts(t, a, selA, mk, keep, items) == Parts(t, b, selB, nk, keep, items)
  {
    if items != [] {
      assert items[|items| - 1] in items;
      PartsSame(t, a, selA, mk, b, selB, nk, keep, items[..|items| - 1]);
    }
  }

  /** A reset elsewhere leaves the plan of a step as it was. */
  lemma {:induction false} PlanUntouched(t: Tree, ids: set<StepId>, floor: Uuid, a: seq<Task>, b: seq<Task>)
    requires WellFormed(t) && ResetIn(ids, floor, a, b) && Ids(t) !! ids
    ensures Plan(t, a) == Plan(t, b)
  {
    assert forall i: nat :: Selected(t, a, Pending(a), i) || Selected(t, b, Pending(b), i) ==> a[i] == b[i];
    BuildFrame(t, a, Pending(a), Sigs(a), b, Pending(b), Sigs(b), false);
  }

  /** A reset of the steps `ids`, away from the tasks of `t` itself, keeps its items. */
  lemma {:induction false} ItemsKept(t: Tree, ids: set<StepId>, floor: Uuid, a: seq<Task>, b: seq<Task>, c: Child)
    requires ResetIn(ids, floor, a, b) && t.id !in ids
    ensures IsItem(t, a, Pending(a), c) <==> IsItem(t, b, Pending(b), c)
  {
  }

  /** Resuming one child step keeps what was built for the other children. */
  lemma {:induction false} OthersKept(t: Tree, kid: nat, floor: Uuid, a: seq<Task>, b: seq<Task>, items: seq<Child>)
    requires WellFormed(t) && kid < |t.steps| && ResetIn(Ids(t.steps[kid]), floor, a, b)
    requires StepItem(t.steps[kid]) !in items
    requires forall c :: c in items ==> IsItem(t, a, Pending(a), c)
    ensures forall c :: c in items ==> IsItem(t, b, Pending(b), c)
    ensures Parts(t, a, Pending(a), Sigs(a), false, items) == Parts(t, b, Pending(b), Sigs(b), false, items)
  {
    forall c | c in items
      ensures IsItem(t, b, Pending(b), c)
      ensures Part(t, a, Pending(a), Sigs(a), false, c) == Part(t, b, Pending(b), Sigs(b), false, c)
    {
      ItemsKept(t, Ids(t.steps[kid]), floor, a, b, c);
      if !c.isTask {
        var j := IndexOf(t.steps, c.row);
        OtherKid(t, kid, c);
        PlanUntouched(t.steps[j], Ids(t.steps[kid]), floor, a, b);
      }
    }
    PartsSame(t, a, Pending(a), Sigs(a), b, Pending(b), Sigs(b), false, items);
  }

  lemma {:induction false} OtherKid(t: Tree, kid: nat, c: Child)
    requires WellFormed(t) && kid < |t.steps| && !c.isTask && c != StepItem(t.steps[kid])
    requires exists i :: 0 <= i < |t.steps| && c == StepItem(t.steps[i])
    ensures IndexOf(t.steps, c.row) != kid && Ids(t.steps[IndexOf(t.steps, c.row)]) !! Ids(t.steps[kid])
  {
    var i :| 0 <= i < |t.steps| && c == StepItem(t.steps[i]);
    assert t.steps[i].id in Ids(t.steps[i]);
    KidUnique(t, i, t.steps[i].id);
  }
}

/** The step table: rows that refer to their parent, and the tree they form. */
module Tables {
  import opened Rows

  datatype StepRow =
    | StepRow(parent: Option<StepId>, pos: int, created: nat, parallel: bool)
    | Deleted

  predicate ChildOf(r: StepRow, id: StepId) { r.StepRow? && r.parent == Some(id) }

  function RowItem(steps: seq<StepRow>, i: StepId): Child
    requires i < |steps| && steps[i].StepRow?
  {
    Child(steps[i].pos, steps[i].created, false, i)
  }

  function ChildRows(steps: seq<StepRow>, id: StepId): (items: seq<Child>)
    ensures forall c :: c in items <==>
              !c.isTask && c.row < |steps| && ChildOf(steps[c.row], id) && c == RowItem(steps, c.row)
    ensures Distinct(items)
  {
    if steps == [] then []
    else
      var n := |steps| - 1;
      var rest := ChildRows(steps[..n], id);
      assert forall k :: 0 <= k < |rest| ==> rest[k] in rest;
      if ChildOf(steps[n], id) then rest + [RowItem(steps, n)] else rest
  }

  /** The child steps of a step, ordered by position and creation time. */
  function ChildSteps(steps: seq<StepRow>, id: StepId): (items: seq<Child>)
    ensures forall c :: c in items <==>
              !c.isTask && c.row < |steps| && ChildOf(steps[c.row], id) && c == RowItem(steps, c.row)
    ensures Sorted(items)
  {
    Sort(ChildRows(steps, id))
  }

  /** The rows below `t.id` form the tree `t`. */
  ghost predicate Represents(t: Tree, steps: seq<StepRow>) {
    && t.id < |steps| && steps[t.id].StepRow?
    && t.pos == steps[t.id].pos && t.created == steps[t.id].created && t.parallel == steps[t.id].parallel
    && ChildSteps(steps, t.id) == StepItems(t.steps)
    && forall i :: 0 <= i < |t.steps| ==> Represents(t.steps[i], steps)
  }

  lemma {:induction false} RepresentsSub(s: Tree, t: Tree, steps: seq<StepRow>)
    requires Sub(s, t) && Represents(t, steps)
    ensures Represents(s, steps)
  {
    if s != t {
      var i :| 0 <= i < |t.steps| && Sub(s, t.steps[i]);
      RepresentsSub(s, t.steps[i], steps);
    }
  }

  /** A child of a represented step refers to it. */
  lemma {:induction false} KidRow(t: Tree, steps: seq<StepRow>, i: nat)
    requires Represents(t, steps) && i < |t.steps|
    ensures |ChildSteps(steps, t.id)| == |t.steps| && ChildSteps(steps, t.id)[i].row == t.steps[i].id
    ensures t.steps[i].id < |steps| && ChildOf(steps[t.steps[i].id], t.id)
  {
    assert StepItems(t.steps)[i] == StepItem(t.steps[i]);
    assert ChildSteps(steps, t.id)[i] in ChildSteps(steps, t.id);
  }

  /******* Root paths *******/

  /** The steps from the root down to `id`. */
  ghost function PathTo(t: Tree, id: StepId): (p: seq<StepId>)
    requires id in Ids(t)
    ensures p != [] && p[0] == t.id && p[|p| - 1] == id
  {
    if id == t.id then [id]
    else
      var i :| 0 <= i < |t.steps| && id in Ids(t.steps[i]);
      [t.id] + PathTo(t.steps[i], id)
  }

  ghost predicate ParentChain(p: seq<StepId>, steps: seq<StepRow>) {
    && p != []
    && (forall k :: 0 <= k < |p| ==> p[k] < |steps| && steps[p[k]].StepRow?)
    && (forall k :: 0 < k < |p| ==> steps[p[k]].parent == Some(p[k - 1]))
  }

  lemma {:induction false} ChainTop(p: seq<StepId>, steps: seq<StepRow>)
    requires ParentChain(p, steps) && steps[p[0]].parent == None
    ensures var last := steps[p[|p| - 1]];
            if |p| == 1 then last.parent == None
            else last.parent == Some(p[|p| - 2]) && ParentChain(p[..|p| - 1], steps)
  {
  }

  lemma {:induction false} ChainBelow(top: StepId, p: seq<StepId>, steps: seq<StepRow>)
    requires top < |steps| && steps[top].StepRow? && ParentChain(p, steps) && steps[p[0]].parent == Some(top)
    ensures ParentChain([top] + p, steps)
  {
    var q := [top] + p;
    assert forall k :: 0 < k < |q| ==> q[k] == p[k - 1];
    forall k | 0 < k < |q| ensures steps[q[k]].parent == Some(q[k - 1]) {
      if k > 1 { assert steps[p[k - 1]].parent == Some(p[k - 2]); }
    }
  }

  lemma {:induction false} PathIsChain(t: Tree, steps: seq<StepRow>, id: StepId)
    requires Represents(t, steps) && id in Ids(t)
    ensures ParentChain(PathTo(t, id), steps)
  {
    if id != t.id {
      var i :| 0 <= i < |t.steps| && id in Ids(t.steps[i]) && PathTo(t, id) == [t.id] + PathTo(t.steps[i], id);
      PathIsChain(t.steps[i], steps, id);
      KidRow(t, steps, i);
      ChainBelow(t.id, PathTo(t.steps[i], id), steps);
    }
  }

  lemma {:induction false} PathInTree(t: Tree, id: StepId)
    requires id in Ids(t)
    ensures forall k :: 0 <= k < |PathTo(t, id)| ==> PathTo(t, id)[k] in Ids(t)
  {
    if id != t.id {
      var i :| 0 <= i < |t.steps| && id in Ids(t.steps[i]) && PathTo(t, id) == [t.id] + PathTo(t.steps[i], id);
      PathInTree(t.steps[i], id);
    }
  }

  /** Ancestors and descendants are dual: a step's subtree holds `id` iff the step
      is on the path from the root to `id`. */
  lemma {:induction false} OnPathIff(s: Tree, t: Tree, id: StepId)
    requires WellFormed(t) && Sub(s, t) && id in Ids(t)
    ensures s.id in PathTo(t, id) <==> id in Ids(s)
  {
    if s == t {
      assert PathTo(t, id)[0] == t.id;
    } else {
      var j :| 0 <= j < |t.steps| && Sub(s, t.steps[j]);
      SubIdIn(s, t.steps[j]);
      SubIds(s, t.steps[j]);
      if id == t.id {
      } else {
        var i :| 0 <= i < |t.steps| && id in Ids(t.steps[i]) && PathTo(t, id) == [t.id] + PathTo(t.steps[i], id);
        if i == j {
          OnPathIff(s, t.steps[i], id);
        } else {
          PathInTree(t.steps[i], id);
          assert Ids(t.steps[i]) !! Ids(t.steps[j]);
        }
      }
    }
  }
}

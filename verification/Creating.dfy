/** Facts about the step table while a workflow is created and cleaned up. */
module Creating {
  import opened Rows
  import opened Progress
  import opened Pruning
  import opened Tables
  import opened Attempts
  import opened Specs

  /******* Appending rows *******/

  /** The later rows have no parent in the subtree. */
  ghost predicate NoneBelow(ids: set<StepId>, a: seq<StepRow>, b: seq<StepRow>) {
    a <= b && forall i :: |a| <= i < |b| && b[i].StepRow? && b[i].parent.Some? ==> b[i].parent.value !in ids
  }

  lemma {:induction false} ChildStepsKept(a: seq<StepRow>, b: seq<StepRow>, id: StepId)
    requires NoneBelow({id}, a, b)
    ensures ChildSteps(a, id) == ChildSteps(b, id)
  {
    forall c ensures c in ChildSteps(a, id) <==> c in ChildSteps(b, id) {
      assert c.row < |a| ==> b[c.row] == a[c.row];
    }
    SortedUnique(ChildSteps(a, id), ChildSteps(b, id));
  }

  lemma {:induction false} RepresentsKept(t: Tree, a: seq<StepRow>, b: seq<StepRow>)
    requires Represents(t, a) && NoneBelow(Ids(t), a, b)
    ensures Represents(t, b)
  {
    assert t.id in Ids(t);
    ChildStepsKept(a, b, t.id);
    forall i | 0 <= i < |t.steps| ensures Represents(t.steps[i], b) {
      assert Ids(t.steps[i]) <= Ids(t);
      RepresentsKept(t.steps[i], a, b);
    }
  }

  /** A row appended with a larger position is the last child step. */
  lemma {:induction false} ChildAppended(steps: seq<StepRow>, row: StepRow, id: StepId, kids: seq<Tree>, kid: Tree)
    requires ChildSteps(steps, id) == StepItems(kids) && ChildOf(row, id)
    requires forall k :: 0 <= k < |kids| ==> kids[k].pos < row.pos
    requires kid.id == |steps| && kid.pos == row.pos && kid.created == row.created
    ensures ChildSteps(steps + [row], id) == StepItems(kids + [kid])
  {
    var b := steps + [row];
    var xs := StepItems(kids);
    assert StepItems(kids + [kid]) == xs + [StepItem(kid)];
    assert forall k :: 0 <= k < |xs| ==> xs[k] in ChildSteps(steps, id);
    forall c ensures c in ChildSteps(b, id) <==> c in xs + [StepItem(kid)] {
      assert c.row < |steps| ==> b[c.row] == steps[c.row];
      assert c in xs <==> c in ChildSteps(steps, id);
    }
    assert Sorted(xs + [StepItem(kid)]);
    SortedUnique(ChildSteps(b, id), xs + [StepItem(kid)]);
  }

  lemma {:induction false} ChainKept(p: seq<StepId>, a: seq<StepRow>, b: seq<StepRow>)
    requires ParentChain(p, a) && a <= b
    ensures ParentChain(p, b)
  {
  }

  /******* Deleting the empty leaves *******/

  function LiveSteps(steps: seq<StepRow>): set<StepId> {
    set i | 0 <= i < |steps| && steps[i].StepRow?
  }

  predicate NoChild(steps: seq<StepRow>, id: StepId) {
    forall i :: 0 <= i < |steps| ==> !ChildOf(steps[i], id)
  }

  /** The rows without child steps and without tasks. */
  function Childless(steps: seq<StepRow>, tasks: seq<Task>): set<StepId> {
    set i | i in LiveSteps(steps) && NoChild(steps, i) && !AnyTask(tasks, i)
  }

  function Delete(steps: seq<StepRow>, ids: set<StepId>): seq<StepRow> {
    seq(|steps|, i requires 0 <= i < |steps| => if i in ids then Deleted else steps[i])
  }

  lemma {:induction false} EmptyLeavesAre(t: Tree, tasks: seq<Task>, x: StepId)
    ensures x in EmptyLeaves(t, tasks) <==> exists d :: Sub(d, t) && d.id == x && EmptyLeaf(d, tasks)
  {
    if EmptyLeaf(t, tasks) {
      assert Sub(t, t);
    } else {
      forall k | 0 <= k < |t.steps|
        ensures x in EmptyLeaves(t.steps[k], tasks) <==> exists d :: Sub(d, t.steps[k]) && d.id == x && EmptyLeaf(d, tasks)
      {
        EmptyLeavesAre(t.steps[k], tasks, x);
      }
      forall d, k | 0 <= k < |t.steps| && Sub(d, t.steps[k]) ensures Sub(d, t) {}
    }
  }

  lemma {:induction false} NoChildIff(t: Tree, steps: seq<StepRow>)
    requires Represents(t, steps)
    ensures NoChild(steps, t.id) <==> t.steps == []
  {
    var kids := ChildSteps(steps, t.id);
    if t.steps == [] {
      forall i | 0 <= i < |steps| ensures !ChildOf(steps[i], t.id) {
        assert ChildOf(steps[i], t.id) ==> RowItem(steps, i) in kids;
      }
    } else {
      KidRow(t, steps, 0);
    }
  }

  /** In a table that holds just this tree, they are its empty leaves. */
  lemma {:induction false} ChildlessAre(t: Tree, steps: seq<StepRow>, tasks: seq<Task>)
    requires Represents(t, steps) && LiveSteps(steps) == Ids(t)
    ensures Childless(steps, tasks) == EmptyLeaves(t, tasks)
  {
    forall x ensures x in Childless(steps, tasks) <==> x in EmptyLeaves(t, tasks) {
      EmptyLeavesAre(t, tasks, x);
      if x in Ids(t) {
        var e := StepWithId(t, x);
        RepresentsSub(e, t, steps);
        NoChildIff(e, steps);
      }
      if d :| Sub(d, t) && d.id == x && EmptyLeaf(d, tasks) {
        SubIdIn(d, t);
        RepresentsSub(d, t, steps);
        NoChildIff(d, steps);
      }
    }
  }

  lemma {:induction false} SweptItems(ts: seq<Tree>, tasks: seq<Task>)
    requires Sorted(StepItems(ts))
    ensures Sorted(StepItems(SweptAll(ts, tasks)))
    ensures forall c :: c in StepItems(SweptAll(ts, tasks)) <==>
              exists k :: 0 <= k < |ts| && !EmptyLeaf(ts[k], tasks) && c == StepItem(ts[k])
  {
    if ts != [] {
      var rest, last := ts[..|ts| - 1], ts[|ts| - 1];
      assert forall i :: 0 <= i < |rest| ==> StepItems(rest)[i] == StepItems(ts)[i];
      assert StepItems(ts)[|rest|] == StepItem(last);
      SweptItems(rest, tasks);
      var swept := SweptAll(rest, tasks);
      if !EmptyLeaf(last, tasks) {
        assert StepItems(swept + [Swept(last, tasks)]) == StepItems(swept) + [StepItem(last)];
        forall c | c in StepItems(swept) ensures Before(c, StepItem(last)) {
          var k :| 0 <= k < |rest| && !EmptyLeaf(rest[k], tasks) && c == StepItem(rest[k]);
          assert StepItems(ts)[k] == c;
        }
        assert forall i :: 0 <= i < |StepItems(swept)| ==> StepItems(swept)[i] in StepItems(swept);
      }
    }
  }

  /** Deleting the empty leaves leaves the rows of the swept tree. */
  lemma {:induction false} SweptRepresents(t: Tree, steps: seq<StepRow>, tasks: seq<Task>, ids: set<StepId>)
    requires WellFormed(t) && Represents(t, steps) && !EmptyLeaf(t, tasks) && ids * Ids(t) == EmptyLeaves(t, tasks)
    ensures Represents(Swept(t, tasks), Delete(steps, ids))
    decreases t, 1
  {
    var after := Delete(steps, ids);
    SweptIds(t, tasks);
    assert t.id !in ids;
    SweptChildren(t, steps, tasks, ids);
    WellFormedSplit(t);
    forall k | 0 <= k < |t.steps| ensures Sweepable(t.steps[k], steps, tasks, ids) {
      LeavesBelow(t, tasks, ids, k);
    }
    SweptAllRepresents(t.steps, steps, tasks, ids);
  }

  lemma {:induction false} EmptyLeavesIn(t: Tree, tasks: seq<Task>)
    ensures EmptyLeaves(t, tasks) <= Ids(t)
  {
    forall x | x in EmptyLeaves(t, tasks) ensures x in Ids(t) {
      EmptyLeavesAre(t, tasks, x);
      var d :| Sub(d, t) && d.id == x && EmptyLeaf(d, tasks);
      SubIdIn(d, t);
    }
  }

  lemma {:induction false} LeavesBelow(t: Tree, tasks: seq<Task>, ids: set<StepId>, k: nat)
    requires WellFormed(t) && !EmptyLeaf(t, tasks) && ids * Ids(t) == EmptyLeaves(t, tasks) && k < |t.steps|
    ensures ids * Ids(t.steps[k]) == EmptyLeaves(t.steps[k], tasks)
  {
    EmptyLeavesIn(t.steps[k], tasks);
    forall x | x in Ids(t.steps[k]) ensures x in ids <==> x in EmptyLeaves(t.steps[k], tasks) {
      assert x in Ids(t) && (x in ids <==> x in EmptyLeaves(t, tasks));
      if x in EmptyLeaves(t, tasks) {
        var i :| 0 <= i < |t.steps| && x in EmptyLeaves(t.steps[i], tasks);
        EmptyLeavesIn(t.steps[i], tasks);
        KidDisjoint(t, i, k, x);
      }
    }
  }

  lemma {:induction false} KidDisjoint(t: Tree, i: nat, k: nat, x: StepId)
    requires WellFormed(t) && i < |t.steps| && k < |t.steps| && x in Ids(t.steps[i]) && x in Ids(t.steps[k])
    ensures i == k
  {
  }

  lemma {:induction false} SweptChildren(t: Tree, steps: seq<StepRow>, tasks: seq<Task>, ids: set<StepId>)
    requires WellFormed(t) && Represents(t, steps) && !EmptyLeaf(t, tasks) && ids * Ids(t) == EmptyLeaves(t, tasks)
    ensures ChildSteps(Delete(steps, ids), t.id) == StepItems(Swept(t, tasks).steps)
  {
    SweptItems(t.steps, tasks);
    var xs, ys := ChildSteps(Delete(steps, ids), t.id), StepItems(SweptAll(t.steps, tasks));
    forall c ensures c in xs <==> c in ys { SweptChild(t, steps, tasks, ids, c); }
    SortedUnique(xs, ys);
  }

  lemma {:induction false} SweptChild(t: Tree, steps: seq<StepRow>, tasks: seq<Task>, ids: set<StepId>, c: Child)
    requires WellFormed(t) && Represents(t, steps) && !EmptyLeaf(t, tasks) && ids * Ids(t) == EmptyLeaves(t, tasks)
    ensures c in ChildSteps(Delete(steps, ids), t.id) <==>
              exists k :: 0 <= k < |t.steps| && !EmptyLeaf(t.steps[k], tasks) && c == StepItem(t.steps[k])
  {
    var xs := ChildSteps(steps, t.id);
    if c in xs {
      var k :| 0 <= k < |t.steps| && StepItems(t.steps)[k] == c;
      assert t.steps[k].id in Ids(t.steps[k]);
      LeavesBelow(t, tasks, ids, k);
      RootLeaf(t.steps[k], tasks);
      assert c.row in ids <==> EmptyLeaf(t.steps[k], tasks);
      forall i | 0 <= i < |t.steps| && c == StepItem(t.steps[i]) ensures i == k {
        assert t.steps[i].id in Ids(t.steps[i]);
        KidDisjoint(t, i, k, c.row);
      }
    }
    if k :| 0 <= k < |t.steps| && !EmptyLeaf(t.steps[k], tasks) && c == StepItem(t.steps[k]) {
      assert StepItems(t.steps)[k] == c;
    }
  }

  lemma {:induction false} RootLeaf(t: Tree, tasks: seq<Task>)
    requires WellFormed(t)
    ensures t.id in EmptyLeaves(t, tasks) <==> EmptyLeaf(t, tasks)
  {
    if !EmptyLeaf(t, tasks) { SweptIds(t, tasks); }
  }

  /** `ids` are the empty leaves of `t`, as far as `t` goes. */
  ghost predicate Sweepable(t: Tree, steps: seq<StepRow>, tasks: seq<Task>, ids: set<StepId>) {
    Represents(t, steps) && ids * Ids(t) == EmptyLeaves(t, tasks)
  }

  lemma {:induction false} SweptAllRepresents(ts: seq<Tree>, steps: seq<StepRow>, tasks: seq<Task>, ids: set<StepId>)
    requires AllWellFormed(ts) && forall k :: 0 <= k < |ts| ==> Sweepable(ts[k], steps, tasks, ids)
    ensures AllRepresented(SweptAll(ts, tasks), Delete(steps, ids))
    decreases ts, 0
  {
    if ts != [] {
      var n := |ts| - 1;
      forall k | 0 <= k < n ensures Sweepable(ts[..n][k], steps, tasks, ids) { assert ts[..n][k] == ts[k]; }
      SweptAllRepresents(ts[..n], steps, tasks, ids);
      assert Sweepable(ts[n], steps, tasks, ids);
      if !EmptyLeaf(ts[n], tasks) {
        SweptRepresents(ts[n], steps, tasks, ids);
        RepresentedNext(SweptAll(ts[..n], tasks), Swept(ts[n], tasks), Delete(steps, ids));
      }
    }
  }

  lemma {:induction false} RepresentedNext(ts: seq<Tree>, t: Tree, steps: seq<StepRow>)
    requires AllRepresented(ts, steps) && Represents(t, steps)
    ensures AllRepresented(ts + [t], steps)
  {
  }

  /******* Creating child steps *******/

  /** `path` leads from the root to `id`. */
  ghost predicate OnChain(path: seq<StepId>, id: StepId, steps: seq<StepRow>) {
    ParentChain(path, steps) && path[|path| - 1] == id && steps[path[0]].parent == None
  }

  ghost predicate AllRepresented(ts: seq<Tree>, steps: seq<StepRow>) {
    forall k :: 0 <= k < |ts| ==> Represents(ts[k], steps)
  }

  /** The rows from number `from` on are steps below `parent`, or below each other. */
  ghost predicate ParentsFrom(parent: StepId, from: nat, steps: seq<StepRow>) {
    forall i :: from <= i < |steps| ==>
      steps[i].StepRow? && steps[i].parent.Some? && (steps[i].parent.value == parent || steps[i].parent.value >= from)
  }

  /** From `a` to `b` the child steps `kids` of `parent` were created, with all below them. */
  ghost predicate RowsMade(parent: StepId, a: seq<StepRow>, b: seq<StepRow>, kids: seq<Tree>) {
    a <= b && ParentsFrom(parent, |a|, b) && ChildSteps(b, parent) == StepItems(kids) && AllRepresented(kids, b)
  }

  lemma {:induction false} RowsMadeThen(parent: StepId, a: seq<StepRow>, b: seq<StepRow>, c: seq<StepRow>)
    requires a <= b && ParentsFrom(parent, |a|, b) && b <= c && ParentsFrom(parent, |b|, c)
    ensures a <= c && ParentsFrom(parent, |a|, c)
  {
    forall i | |a| <= i < |c|
      ensures c[i].StepRow? && c[i].parent.Some? && (c[i].parent.value == parent || c[i].parent.value >= |a|)
    {
      if i < |b| { assert c[i] == b[i]; }
    }
  }

  /** A parent is created before its child steps. */
  ghost predicate ParentsFirst(steps: seq<StepRow>) {
    forall i :: 0 <= i < |steps| && steps[i].StepRow? && steps[i].parent.Some? ==> steps[i].parent.value < i
  }

  lemma {:induction false} StepAppended(path: seq<StepId>, parent: StepId, steps: seq<StepRow>, row: StepRow)
    requires OnChain(path, parent, steps) && ChildOf(row, parent)
    requires ParentsFirst(steps)
    ensures OnChain(path, parent, steps + [row]) && ParentsFirst(steps + [row])
    ensures OnChain(path + [|steps|], |steps|, steps + [row])
    ensures ChildSteps(steps + [row], |steps|) == []
  {
    var b, id := steps + [row], |steps|;
    var p := path + [id];
    forall k | 0 < k < |p| ensures b[p[k]].parent == Some(p[k - 1]) {
      if k < |path| { assert steps[path[k]].parent == Some(path[k - 1]); }
    }
    assert forall c :: c !in ChildSteps(b, id);
    SortedUnique(ChildSteps(b, id), []);
  }

  /** A child step `row` of `parent` and the child steps below it follow the rows `before`. */
  ghost predicate StepFollows(parent: StepId, before: seq<StepRow>, row: StepRow, after: seq<StepRow>, kid: Tree) {
    && parent < |before| && ChildOf(row, parent)
    && kid == Node(|before|, row.pos, row.created, row.parallel, kid.steps)
    && RowsMade(|before|, before + [row], after, kid.steps)
  }

  lemma {:induction false} NewParents(parent: StepId, before: seq<StepRow>, row: StepRow, after: seq<StepRow>, kid: Tree)
    requires StepFollows(parent, before, row, after, kid)
    ensures before <= after && before + [row] <= after && after[|before|] == row && ParentsFrom(parent, |before|, after)
    ensures NoneBelow({parent}, before + [row], after)
  {
    var mid := before + [row];
    assert after[|before|] == mid[|before|];
    assert forall i :: 0 <= i < |before| ==> after[i] == mid[i] == before[i];
  }

  lemma {:induction false} OldKidsKept(parent: StepId, before: seq<StepRow>, row: StepRow, after: seq<StepRow>,
                                       kid: Tree, kids: seq<Tree>)
    requires StepFollows(parent, before, row, after, kid) && AllRepresented(kids, before)
    requires parent !in IdsOf(kids) && forall x :: x in IdsOf(kids) ==> x < |before|
    ensures AllRepresented(kids, after)
  {
    NewParents(parent, before, row, after, kid);
    forall k | 0 <= k < |kids| ensures Represents(kids[k], after) {
      assert Ids(kids[k]) <= IdsOf(kids);
      RepresentsKept(kids[k], before, after);
    }
  }

  lemma {:induction false} OnChainKept(path: seq<StepId>, id: StepId, a: seq<StepRow>, b: seq<StepRow>)
    requires OnChain(path, id, a) && a <= b
    ensures OnChain(path, id, b)
  {
    ChainKept(path, a, b);
    assert b[path[0]] == a[path[0]];
  }

  lemma {:induction false} StepFinished(path: seq<StepId>, parent: StepId, before: seq<StepRow>, row: StepRow,
                                        after: seq<StepRow>, kids: seq<Tree>, kid: Tree)
    requires OnChain(path, parent, before) && StepFollows(parent, before, row, after, kid)
    requires ChildSteps(before, parent) == StepItems(kids) && AllRepresented(kids, before)
    requires forall k :: 0 <= k < |kids| ==> kids[k].pos < row.pos
    requires parent !in IdsOf(kids) && forall x :: x in IdsOf(kids) ==> x < |before|
    ensures OnChain(path, parent, after) && before <= after && ParentsFrom(parent, |before|, after)
    ensures ChildSteps(after, parent) == StepItems(kids + [kid]) && AllRepresented(kids + [kid], after)
  {
    NewParents(parent, before, row, after, kid);
    OnChainKept(path, parent, before, after);
    StepListed(parent, before, row, after, kids, kid);
    OldKidsKept(parent, before, row, after, kid, kids);
    assert Represents(kid, after);
  }

  lemma {:induction false} StepListed(parent: StepId, before: seq<StepRow>, row: StepRow, after: seq<StepRow>,
                                      kids: seq<Tree>, kid: Tree)
    requires StepFollows(parent, before, row, after, kid) && ChildSteps(before, parent) == StepItems(kids)
    requires forall k :: 0 <= k < |kids| ==> kids[k].pos < row.pos
    ensures ChildSteps(after, parent) == StepItems(kids + [kid])
  {
    NewParents(parent, before, row, after, kid);
    ChildAppended(before, row, parent, kids, kid);
    ChildStepsKept(before + [row], after, parent);
  }

  lemma {:induction false} RootRepresented()
    ensures var t := Node(0, 0, 0, false, []); var steps := [StepRow(None, 0, 0, false)];
            WellFormed(t) && Represents(t, steps) && ParentsFirst(steps) && ChildSteps(steps, 0) == [] && OnChain([0], 0, steps)
  {
    var steps := [StepRow(None, 0, 0, false)];
    assert forall c :: c !in ChildSteps(steps, 0);
    SortedUnique(ChildSteps(steps, 0), []);
  }

  /** A child row of a represented step is in its tree. */
  lemma {:induction false} ChildInTree(d: Tree, steps: seq<StepRow>, i: StepId)
    requires Represents(d, steps) && i < |steps| && ChildOf(steps[i], d.id)
    ensures i in Ids(d)
  {
    var xs := StepItems(d.steps);
    assert RowItem(steps, i) in ChildSteps(steps, d.id);
    var k :| 0 <= k < |xs| && xs[k] == RowItem(steps, i);
    assert d.steps[k].id == i && i in Ids(d.steps[k]);
  }

  lemma {:induction false} BelowInTree(root: Tree, steps: seq<StepRow>, p: StepId, i: StepId)
    requires Represents(root, steps) && p in Ids(root) && i < |steps| && ChildOf(steps[i], p)
    ensures i in Ids(root)
  {
    var d := StepWithId(root, p);
    RepresentsSub(d, root, steps);
    ChildInTree(d, steps, i);
    SubIds(d, root);
  }

  /** Every row created below the root is in its tree. */
  lemma {:induction false} RowInTree(root: Tree, steps: seq<StepRow>, i: StepId)
    requires Represents(root, steps) && root.id == 0 && ParentsFirst(steps) && ParentsFrom(0, 1, steps) && i < |steps|
    ensures i in Ids(root)
  {
    if i > 0 {
      assert steps[i].StepRow? && steps[i].parent.Some? && steps[i].parent.value < i;
      RowInTree(root, steps, steps[i].parent.value);
      BelowInTree(root, steps, steps[i].parent.value, i);
    }
  }

  lemma {:induction false} RootRow(root: Tree, steps: seq<StepRow>)
    requires root == Node(0, 0, 0, false, root.steps)
    requires RowsMade(0, [StepRow(None, 0, 0, false)], steps, root.steps)
    ensures Represents(root, steps) && steps[0].parent == None && ParentsFrom(0, 1, steps)
  {
    assert steps[0] == [StepRow(None, 0, 0, false)][0];
  }

  lemma {:induction false} RootIds(root: Tree, n: nat)
    requires root.id < n && forall x :: x in IdsOf(root.steps) ==> x < n
    ensures forall x :: x in Ids(root) ==> x < n
  {
    IdsSplit(root);
  }

  /** The table of a new workflow holds just its tree. */
  lemma {:induction false} WorkflowRows(root: Tree, steps: seq<StepRow>)
    requires root == Node(0, 0, 0, false, root.steps)
    requires RowsMade(0, [StepRow(None, 0, 0, false)], steps, root.steps) && ParentsFirst(steps)
    requires forall x :: x in IdsOf(root.steps) ==> x < |steps|
    ensures Represents(root, steps) && LiveSteps(steps) == Ids(root) && steps[0].parent == None
  {
    RootRow(root, steps);
    RootIds(root, |steps|);
    LiveAre(root, steps);
  }

  lemma {:induction false} LiveAre(root: Tree, steps: seq<StepRow>)
    requires Represents(root, steps) && root.id == 0 && ParentsFirst(steps) && ParentsFrom(0, 1, steps)
    requires forall x :: x in Ids(root) ==> x < |steps|
    ensures LiveSteps(steps) == Ids(root)
  {
    forall i | 0 <= i < |steps| ensures i in Ids(root) && steps[i].StepRow? { RowInTree(root, steps, i); }
  }

  /******* The clean-up *******/

  /** The tree still in the table, if any, prunes to what the whole tree prunes to. */
  ghost predicate Cleaning(root: Tree, now: Option<Tree>, steps: seq<StepRow>, tasks: seq<Task>) {
    ParentsFirst(steps) &&
    match now
    case Some(t) =>
      && WellFormed(t) && Represents(t, steps) && LiveSteps(steps) == Ids(t)
      && t.id == root.id && steps[t.id].parent == None
      && (HasTask(t, tasks) <==> HasTask(root, tasks)) && Pruned(t, tasks) == Pruned(root, tasks)
    case None => LiveSteps(steps) == {} && !HasTask(root, tasks)
  }

  ghost function AfterPass(now: Option<Tree>, tasks: seq<Task>): Option<Tree> {
    if now.None? || EmptyLeaf(now.value, tasks) then None else Some(Swept(now.value, tasks))
  }

  ghost function LeavesLeft(now: Option<Tree>, tasks: seq<Task>): set<StepId> {
    if now.None? then {} else EmptyLeaves(now.value, tasks)
  }

  lemma {:induction false} NoTaskless(t: Tree, steps: seq<StepRow>, tasks: seq<Task>)
    requires Represents(t, steps) && LiveSteps(steps) == Ids(t)
    requires forall i :: i in LiveSteps(steps) ==> AnyTask(tasks, i)
    ensures EmptyLeaves(t, tasks) == {}
  {
    ChildlessAre(t, steps, tasks);
  }

  lemma {:induction false} DeleteLive(steps: seq<StepRow>, ids: set<StepId>)
    ensures LiveSteps(Delete(steps, ids)) == LiveSteps(steps) - ids
    ensures ParentsFirst(steps) ==> ParentsFirst(Delete(steps, ids))
  {
  }

  /** One pass: what is left, and that something went unless nothing was left to do. */
  lemma {:induction false} PassCleans(root: Tree, now: Option<Tree>, steps: seq<StepRow>, tasks: seq<Task>)
    requires Cleaning(root, now, steps, tasks)
    ensures var after := Delete(steps, Childless(steps, tasks));
            && Cleaning(root, AfterPass(now, tasks), after, tasks)
            && Childless(steps, tasks) <= LiveSteps(steps)
            && Childless(steps, tasks) == LeavesLeft(now, tasks)
            && LiveSteps(after) == LiveSteps(steps) - Childless(steps, tasks)
  {
    var doomed := Childless(steps, tasks);
    var after := Delete(steps, doomed);
    DeleteLive(steps, doomed);
    if now.Some? {
      var t := now.value;
      ChildlessAre(t, steps, tasks);
      if EmptyLeaf(t, tasks) {
        assert Ids(t) == {t.id};
        EmptyLeafHasNoTask(t, tasks);
      } else {
        SweptIds(t, tasks);
        SweptRepresents(t, steps, tasks, doomed);
        PrunedOfSwept(t, tasks);
        SweepKeepsTasks(t, tasks);
      }
    }
  }

  lemma {:induction false} LeavesAre(root: Tree, now: Option<Tree>, steps: seq<StepRow>, tasks: seq<Task>)
    requires Cleaning(root, now, steps, tasks)
    ensures Childless(steps, tasks) == LeavesLeft(now, tasks)
  {
    if now.Some? { ChildlessAre(now.value, steps, tasks); }
  }

  lemma {:induction false} CleanDone(root: Tree, now: Option<Tree>, steps: seq<StepRow>, tasks: seq<Task>)
    requires Cleaning(root, now, steps, tasks) && LeavesLeft(now, tasks) == {}
    ensures LiveSteps(steps) != {} <==> HasTask(root, tasks)
    ensures HasTask(root, tasks) ==>
              Represents(Pruned(root, tasks), steps) && LiveSteps(steps) == Ids(Pruned(root, tasks)) && steps[root.id].parent == None
  {
    if now.Some? {
      SweptClean(now.value, tasks);
      assert now.value.id in LiveSteps(steps);
    }
  }

  /******* The new workflow *******/

  lemma {:induction false} ErrorsUnique(errors: seq<Work>, step: StepId, status: State, db: Db)
    requires UniqueIds(db.tasks, db.ids)
    ensures var hi := AddErrors(errors, step, status, db); UniqueIds(hi.tasks, hi.ids)
  {
    if errors != [] { ErrorsUnique(errors[..|errors| - 1], step, status, db); }
  }

  lemma {:induction false} FlowUnique(flow: seq<Entry>, parent: StepId, db: Db)
    requires UniqueIds(db.tasks, db.ids)
    ensures var hi := CreateFlow(flow, parent, db).db; UniqueIds(hi.tasks, hi.ids)
    decreases flow, 0
  {
    if flow != [] {
      var n := |flow| - 1;
      FlowUnique(flow[..n], parent, db);
      EntryUnique(flow[n], n, parent, CreateFlow(flow[..n], parent, db).db);
    }
  }

  lemma {:induction false} EntryUnique(e: Entry, index: nat, parent: StepId, db: Db)
    requires UniqueIds(db.tasks, db.ids)
    ensures var hi := CreateEntry(e, index, parent, db).db; UniqueIds(hi.tasks, hi.ids)
    decreases e, 1
  {
    if e.enabled {
      match e
      case TaskEntry(_, work, onError) =>
        ErrorsUnique(onError, parent, PENDING, AddTask(parent, work, index, PENDING, 0, db));
      case StepEntry(_, _, children, onError) =>
        if children != [] {
          var started := db.(steps := db.steps + 1, clock := db.clock + 1);
          ErrorsUnique(onError, db.steps, PENDING, started);
          FlowUnique(children, db.steps, AddErrors(onError, db.steps, PENDING, started));
        }
    }
  }

  ghost predicate NoneRetried(tasks: seq<Task>) { forall i :: 0 <= i < |tasks| ==> tasks[i].retried.None? }

  lemma {:induction false} ErrorsNew(errors: seq<Work>, step: StepId, status: State, db: Db)
    requires NoneRetried(db.tasks)
    ensures NoneRetried(AddErrors(errors, step, status, db).tasks)
  {
    if errors != [] { ErrorsNew(errors[..|errors| - 1], step, status, db); }
  }

  lemma {:induction false} FlowNew(flow: seq<Entry>, parent: StepId, db: Db)
    requires NoneRetried(db.tasks)
    ensures NoneRetried(CreateFlow(flow, parent, db).db.tasks)
    decreases flow, 0
  {
    if flow != [] {
      var n := |flow| - 1;
      FlowNew(flow[..n], parent, db);
      EntryNew(flow[n], n, parent, CreateFlow(flow[..n], parent, db).db);
    }
  }

  lemma {:induction false} EntryNew(e: Entry, index: nat, parent: StepId, db: Db)
    requires NoneRetried(db.tasks)
    ensures NoneRetried(CreateEntry(e, index, parent, db).db.tasks)
    decreases e, 1
  {
    if e.enabled {
      match e
      case TaskEntry(_, work, onError) =>
        ErrorsNew(onError, parent, PENDING, AddTask(parent, work, index, PENDING, 0, db));
      case StepEntry(_, _, children, onError) =>
        if children != [] {
          var started := db.(steps := db.steps + 1, clock := db.clock + 1);
          ErrorsNew(onError, db.steps, PENDING, started);
          FlowNew(children, db.steps, AddErrors(onError, db.steps, PENDING, started));
        }
    }
  }

  lemma {:induction false} WorkflowUnique(spec: seq<Entry>, onError: seq<Work>)
    ensures var db := CreateWorkflow(spec, onError, Db(0, [], 0, 0)).db; UniqueIds(db.tasks, db.ids) && NoneRetried(db.tasks)
  {
    var started := Db(1, [], 1, 0);
    var filled := AddErrors(onError, 0, SUCCESS, started);
    ErrorsUnique(onError, 0, SUCCESS, started);
    FlowUnique(spec, 0, filled);
    ErrorsNew(onError, 0, SUCCESS, started);
    FlowNew(spec, 0, filled);
  }

  lemma {:induction false} WorkflowPlaced(spec: seq<Entry>, onError: seq<Work>)
    ensures var w := CreateWorkflow(spec, onError, Db(0, [], 0, 0));
            WellFormed(w.root) && forall i :: 0 <= i < |w.db.tasks| ==> InTree(w.db.tasks[i], w.root)
  {
    var started := Db(1, [], 1, 0);
    var filled := AddErrors(onError, 0, SUCCESS, started);
    var w := CreateWorkflow(spec, onError, Db(0, [], 0, 0));
    AddErrorsMade(onError, 0, SUCCESS, started);
    FlowMade(spec, 0, filled);
    WellFormedSplit(w.root);
    IdsSplit(w.root);
    MadeInTree(w.root, filled, w.db, |spec|);
  }

  lemma {:induction false} MadeInTree(root: Tree, filled: Db, hi: Db, width: nat)
    requires Made(root.id, filled, root.steps, hi, width) && Ids(root) == {root.id} + IdsOf(root.steps)
    requires forall i :: 0 <= i < |filled.tasks| ==> filled.tasks[i].step == Some(root.id)
    ensures forall i :: 0 <= i < |hi.tasks| ==> InTree(hi.tasks[i], root)
  {
    forall i | 0 <= i < |hi.tasks| ensures InTree(hi.tasks[i], root) {
      if i < |filled.tasks| { assert hi.tasks[i] == filled.tasks[i]; }
    }
  }

  /** Task ids are unique, no task was retried, and every task has a step that the
      clean-up keeps. */
  lemma {:induction false} WorkflowTasks(spec: seq<Entry>, onError: seq<Work>)
    ensures var w := CreateWorkflow(spec, onError, Db(0, [], 0, 0));
            && WellFormed(w.root) && UniqueIds(w.db.tasks, w.db.ids) && NoneRetried(w.db.tasks)
            && forall i :: 0 <= i < |w.db.tasks| ==>
                 w.db.tasks[i].step.Some? && w.db.tasks[i].step.value in Ids(Pruned(w.root, w.db.tasks))
  {
    var w := CreateWorkflow(spec, onError, Db(0, [], 0, 0));
    WorkflowUnique(spec, onError);
    WorkflowPlaced(spec, onError);
    TasksKept(w.root, w.db.tasks);
  }

  lemma {:induction false} TasksKept(t: Tree, tasks: seq<Task>)
    requires WellFormed(t) && forall i :: 0 <= i < |tasks| ==> InTree(tasks[i], t)
    ensures forall i :: 0 <= i < |tasks| ==> tasks[i].step.Some? && tasks[i].step.value in Ids(Pruned(t, tasks))
  {
    forall i | 0 <= i < |tasks| ensures tasks[i].step.Some? && tasks[i].step.value in Ids(Pruned(t, tasks)) {
      TaskKept(t, tasks, i);
    }
  }

  lemma {:induction false} TaskKept(t: Tree, tasks: seq<Task>, i: TaskId)
    requires WellFormed(t) && i < |tasks| && InTree(tasks[i], t)
    ensures tasks[i].step.value in Ids(Pruned(t, tasks))
  {
    var d := StepWithId(t, tasks[i].step.value);
    assert d.id in Ids(d);
    assert InTree(tasks[i], d) && InTree(tasks[i], t);
    PrunedKeeps(t, tasks, d);
  }
}

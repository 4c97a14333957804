/** Cleaning up a new workflow: steps without any task below them are removed. */
module Pruning {
  import opened Rows
  import opened Progress

  ghost predicate HasTask(t: Tree, tasks: seq<Task>) {
    exists i :: 0 <= i < |tasks| && InTree(tasks[i], t)
  }

  lemma {:induction false} HasTaskAbove(d: Tree, t: Tree, tasks: seq<Task>)
    requires Sub(d, t)
    ensures HasTask(d, tasks) ==> HasTask(t, tasks)
  {
    SubIds(d, t);
    if i :| 0 <= i < |tasks| && InTree(tasks[i], d) { assert InTree(tasks[i], t); }
  }

  /** The tree without the descendants that have no task anywhere below them. */
  ghost function Pruned(t: Tree, tasks: seq<Task>): Tree
    decreases t, 1
  {
    t.(steps := PrunedAll(t.steps, tasks))
  }

  ghost function PrunedAll(ts: seq<Tree>, tasks: seq<Task>): seq<Tree>
    decreases ts, 0
  {
    if ts == [] then []
    else
      var n := |ts| - 1;
      var rest := PrunedAll(ts[..n], tasks);
      if HasTask(ts[n], tasks) then rest + [Pruned(ts[n], tasks)] else rest
  }

  predicate EmptyLeaf(t: Tree, tasks: seq<Task>) { t.steps == [] && !AnyTask(tasks, t.id) }

  /** One pass of the clean-up below `t`: every empty leaf goes. */
  function Swept(t: Tree, tasks: seq<Task>): Tree
    decreases t, 1
  {
    t.(steps := SweptAll(t.steps, tasks))
  }

  function SweptAll(ts: seq<Tree>, tasks: seq<Task>): seq<Tree>
    decreases ts, 0
  {
    if ts == [] then []
    else
      var n := |ts| - 1;
      var rest := SweptAll(ts[..n], tasks);
      if EmptyLeaf(ts[n], tasks) then rest else rest + [Swept(ts[n], tasks)]
  }

  function EmptyLeaves(t: Tree, tasks: seq<Task>): set<StepId>
    decreases t, 1
  {
    if EmptyLeaf(t, tasks) then {t.id}
    else set i, x | 0 <= i < |t.steps| && x in EmptyLeaves(t.steps[i], tasks) :: x
  }

  /** The ids of a list of trees. */
  function IdsOf(ts: seq<Tree>): set<StepId> {
    set i, x | 0 <= i < |ts| && x in Ids(ts[i]) :: x
  }

  lemma {:induction false} IdsSplit(t: Tree)
    ensures Ids(t) == {t.id} + IdsOf(t.steps)
  {
  }

  lemma {:induction false} IdsOfSnoc(ts: seq<Tree>, t: Tree)
    ensures IdsOf(ts + [t]) == IdsOf(ts) + Ids(t)
  {
    assert forall i :: 0 <= i < |ts| ==> (ts + [t])[i] == ts[i];
    assert (ts + [t])[|ts|] == t;
  }

  ghost predicate AllWellFormed(ts: seq<Tree>) {
    && (forall i :: 0 <= i < |ts| ==> WellFormed(ts[i]))
    && (forall i, j :: 0 <= i < |ts| && 0 <= j < |ts| && i != j ==> Ids(ts[i]) !! Ids(ts[j]))
  }

  lemma {:induction false} WellFormedSplit(t: Tree)
    ensures WellFormed(t) <==> AllWellFormed(t.steps) && t.id !in IdsOf(t.steps)
  {
  }

  lemma {:induction false} AllWellFormedSnoc(ts: seq<Tree>, t: Tree)
    ensures AllWellFormed(ts + [t]) <==> AllWellFormed(ts) && WellFormed(t) && IdsOf(ts) !! Ids(t)
  {
    var us := ts + [t];
    assert forall i :: 0 <= i < |ts| ==> us[i] == ts[i];
    assert us[|ts|] == t;
    if AllWellFormed(us) {
      forall i | 0 <= i < |ts| ensures Ids(ts[i]) !! Ids(t) {
        assert Ids(us[i]) !! Ids(us[|ts|]);
      }
    }
    if AllWellFormed(ts) && WellFormed(t) && IdsOf(ts) !! Ids(t) {
      forall i | 0 <= i < |ts| ensures Ids(ts[i]) <= IdsOf(ts) {}
    }
  }

  /******* A sweep removes exactly the empty leaves *******/

  lemma {:induction false} SweptIds(t: Tree, tasks: seq<Task>)
    requires WellFormed(t) && !EmptyLeaf(t, tasks)
    ensures Ids(Swept(t, tasks)) == Ids(t) - EmptyLeaves(t, tasks)
    ensures EmptyLeaves(t, tasks) <= Ids(t) - {t.id}
    ensures WellFormed(Swept(t, tasks))
    decreases t, 1
  {
    WellFormedSplit(t);
    WellFormedSplit(Swept(t, tasks));
    IdsSplit(t);
    IdsSplit(Swept(t, tasks));
    SweptAllIds(t.steps, tasks);
    assert EmptyLeaves(t, tasks) == EmptyLeavesOf(t.steps, tasks);
  }

  function EmptyLeavesOf(ts: seq<Tree>, tasks: seq<Task>): set<StepId> {
    set i, x | 0 <= i < |ts| && x in EmptyLeaves(ts[i], tasks) :: x
  }

  lemma {:induction false} DisjointDifference<T>(a: set<T>, b: set<T>, x: set<T>, y: set<T>)
    requires a !! b && x <= a && y <= b
    ensures (a - x) + (b - y) == (a + b) - (x + y)
    ensures (a - x) !! (b - y)
  {
  }

  lemma {:induction false} EmptyLeavesOfSnoc(ts: seq<Tree>, t: Tree, tasks: seq<Task>)
    ensures EmptyLeavesOf(ts + [t], tasks) == EmptyLeavesOf(ts, tasks) + EmptyLeaves(t, tasks)
  {
    assert forall i :: 0 <= i < |ts| ==> (ts + [t])[i] == ts[i];
    assert (ts + [t])[|ts|] == t;
  }

  lemma {:induction false} SweptAllIds(ts: seq<Tree>, tasks: seq<Task>)
    requires AllWellFormed(ts)
    ensures IdsOf(SweptAll(ts, tasks)) == IdsOf(ts) - EmptyLeavesOf(ts, tasks)
    ensures EmptyLeavesOf(ts, tasks) <= IdsOf(ts)
    ensures AllWellFormed(SweptAll(ts, tasks))
    decreases ts, 0
  {
    if ts != [] {
      var rest, last := ts[..|ts| - 1], ts[|ts| - 1];
      assert ts == rest + [last];
      IdsOfSnoc(rest, last);
      EmptyLeavesOfSnoc(rest, last, tasks);
      AllWellFormedSnoc(rest, last);
      SweptAllIds(rest, tasks);
      if EmptyLeaf(last, tasks) {
        assert Ids(last) == {last.id} == EmptyLeaves(last, tasks);
        DisjointDifference(IdsOf(rest), {last.id}, EmptyLeavesOf(rest, tasks), {last.id});
      } else {
        SweptIds(last, tasks);
        DisjointDifference(IdsOf(rest), Ids(last), EmptyLeavesOf(rest, tasks), EmptyLeaves(last, tasks));
        IdsOfSnoc(SweptAll(rest, tasks), Swept(last, tasks));
        AllWellFormedSnoc(SweptAll(rest, tasks), Swept(last, tasks));
      }
    }
  }

  /** Tasks are never in an empty leaf, so a sweep loses none. */
  lemma {:induction false} EmptyLeavesHaveNoTask(t: Tree, tasks: seq<Task>)
    ensures forall i :: 0 <= i < |tasks| && tasks[i].step.Some? ==> tasks[i].step.value !in EmptyLeaves(t, tasks)
  {
    if !EmptyLeaf(t, tasks) {
      forall k | 0 <= k < |t.steps| { EmptyLeavesHaveNoTask(t.steps[k], tasks); }
    }
  }

  lemma {:induction false} SweepKeepsTasks(t: Tree, tasks: seq<Task>)
    requires WellFormed(t) && !EmptyLeaf(t, tasks)
    ensures HasTask(Swept(t, tasks), tasks) <==> HasTask(t, tasks)
  {
    SweptIds(t, tasks);
    EmptyLeavesHaveNoTask(t, tasks);
    if i :| 0 <= i < |tasks| && InTree(tasks[i], t) { assert InTree(tasks[i], Swept(t, tasks)); }
    if i :| 0 <= i < |tasks| && InTree(tasks[i], Swept(t, tasks)) { assert InTree(tasks[i], t); }
  }

  lemma {:induction false} EmptyLeafHasNoTask(t: Tree, tasks: seq<Task>)
    requires EmptyLeaf(t, tasks)
    ensures !HasTask(t, tasks)
  {
    assert Ids(t) == {t.id};
  }

  /******* Sweeping leads to the pruned tree *******/

  lemma {:induction false} PrunedOfSwept(t: Tree, tasks: seq<Task>)
    requires WellFormed(t)
    ensures Pruned(Swept(t, tasks), tasks) == Pruned(t, tasks)
    decreases t, 1
  {
    WellFormedSplit(t);
    PrunedAllOfSwept(t.steps, tasks);
  }

  lemma {:induction false} PrunedAllOfSwept(ts: seq<Tree>, tasks: seq<Task>)
    requires AllWellFormed(ts)
    ensures PrunedAll(SweptAll(ts, tasks), tasks) == PrunedAll(ts, tasks)
    decreases ts, 0
  {
    if ts != [] {
      var n := |ts| - 1;
      var rest, last := ts[..n], ts[n];
      assert ts == rest + [last];
      AllWellFormedSnoc(rest, last);
      PrunedAllOfSwept(rest, tasks);
      if EmptyLeaf(last, tasks) {
        EmptyLeafHasNoTask(last, tasks);
      } else {
        PrunedOfSwept(last, tasks);
        SweepKeepsTasks(last, tasks);
        var swept := SweptAll(rest, tasks);
        assert (swept + [Swept(last, tasks)])[..|swept|] == swept;
      }
    }
  }

  /** With no empty leaf left, every step has a task below it: nothing more to prune. */
  lemma {:induction false} SweptClean(t: Tree, tasks: seq<Task>)
    requires EmptyLeaves(t, tasks) == {}
    ensures HasTask(t, tasks) && Pruned(t, tasks) == t
    decreases t, 1
  {
    assert EmptyLeaf(t, tasks) ==> t.id in EmptyLeaves(t, tasks);
    forall k | 0 <= k < |t.steps| ensures EmptyLeaves(t.steps[k], tasks) == {} {
      forall x | x in EmptyLeaves(t.steps[k], tasks) ensures x in EmptyLeaves(t, tasks) {}
    }
    SweptCleanAll(t.steps, tasks);
    if t.steps == [] {
      var i :| 0 <= i < |tasks| && tasks[i].step == Some(t.id);
      assert InTree(tasks[i], t);
    } else {
      SweptClean(t.steps[0], tasks);
      var i :| 0 <= i < |tasks| && InTree(tasks[i], t.steps[0]);
      assert InTree(tasks[i], t);
    }
  }

  lemma {:induction false} SweptCleanAll(ts: seq<Tree>, tasks: seq<Task>)
    requires forall k :: 0 <= k < |ts| ==> EmptyLeaves(ts[k], tasks) == {}
    ensures PrunedAll(ts, tasks) == ts
    decreases ts, 0
  {
    if ts != [] {
      SweptCleanAll(ts[..|ts| - 1], tasks);
      SweptClean(ts[|ts| - 1], tasks);
    }
  }

  /** The pruned tree keeps exactly the steps with a task somewhere below them. */
  lemma {:induction false} PrunedKeeps(t: Tree, tasks: seq<Task>, d: Tree)
    requires WellFormed(t) && Sub(d, t) && HasTask(t, tasks)
    ensures d.id in Ids(Pruned(t, tasks)) <==> HasTask(d, tasks)
    decreases t, 1
  {
    WellFormedSplit(t);
    IdsSplit(Pruned(t, tasks));
    if d != t {
      var k :| 0 <= k < |t.steps| && Sub(d, t.steps[k]);
      SubIdIn(d, t.steps[k]);
      PrunedAllKeeps(t.steps, tasks, k, d);
    }
  }

  lemma {:induction false} PrunedIds(t: Tree, tasks: seq<Task>)
    ensures Ids(Pruned(t, tasks)) <= Ids(t)
    decreases t, 1
  {
    PrunedAllIds(t.steps, tasks);
    IdsSplit(t);
    IdsSplit(Pruned(t, tasks));
  }

  lemma {:induction false} PrunedAllIds(ts: seq<Tree>, tasks: seq<Task>)
    ensures IdsOf(PrunedAll(ts, tasks)) <= IdsOf(ts)
    decreases ts, 0
  {
    if ts != [] {
      var n := |ts| - 1;
      assert ts == ts[..n] + [ts[n]];
      PrunedAllIds(ts[..n], tasks);
      PrunedIds(ts[n], tasks);
      IdsOfSnoc(ts[..n], ts[n]);
      IdsOfSnoc(PrunedAll(ts[..n], tasks), Pruned(ts[n], tasks));
    }
  }

  lemma {:induction false} PrunedAllKeeps(ts: seq<Tree>, tasks: seq<Task>, k: nat, d: Tree)
    requires AllWellFormed(ts) && k < |ts| && Sub(d, ts[k])
    ensures d.id in IdsOf(PrunedAll(ts, tasks)) <==> HasTask(d, tasks)
    decreases ts, 0
  {
    var n := |ts| - 1;
    var rest, last := ts[..n], ts[n];
    assert ts == rest + [last];
    AllWellFormedSnoc(rest, last);
    PrunedAllIds(rest, tasks);
    PrunedIds(last, tasks);
    IdsOfSnoc(PrunedAll(rest, tasks), Pruned(last, tasks));
    SubIdIn(d, ts[k]);
    if k < n {
      PrunedAllKeeps(rest, tasks, k, d);
      assert d.id in Ids(rest[k]) && d.id in IdsOf(rest);
    } else if HasTask(last, tasks) {
      PrunedKeeps(last, tasks, d);
    } else {
      HasTaskAbove(d, last, tasks);
    }
  }

  lemma {:induction false} PrunedWellFormed(t: Tree, tasks: seq<Task>)
    requires WellFormed(t)
    ensures WellFormed(Pruned(t, tasks))
    decreases t, 1
  {
    WellFormedSplit(t);
    PrunedAllWellFormed(t.steps, tasks);
    PrunedAllIds(t.steps, tasks);
    WellFormedSplit(Pruned(t, tasks));
  }

  lemma {:induction false} PrunedAllWellFormed(ts: seq<Tree>, tasks: seq<Task>)
    requires AllWellFormed(ts)
    ensures AllWellFormed(PrunedAll(ts, tasks))
    ensures forall k :: 0 <= k < |ts| && HasTask(ts[k], tasks) ==> Pruned(ts[k], tasks) in PrunedAll(ts, tasks)
    ensures forall p :: p in PrunedAll(ts, tasks) ==> exists k :: 0 <= k < |ts| && HasTask(ts[k], tasks) && p == Pruned(ts[k], tasks)
    decreases ts, 0
  {
    if ts != [] {
      var rest, last := ts[..|ts| - 1], ts[|ts| - 1];
      assert ts == rest + [last];
      AllWellFormedSnoc(rest, last);
      PrunedAllWellFormed(rest, tasks);
      PrunedWellFormed(last, tasks);
      PrunedIds(last, tasks);
      PrunedAllIds(rest, tasks);
      AllWellFormedSnoc(PrunedAll(rest, tasks), Pruned(last, tasks));
    }
  }
}

/** The progress of a step: the average over its child steps and live tasks. */
module Progress {
  import opened Rows
  import opened Status

  predicate AnyTask(tasks: seq<Task>, id: StepId) {
    exists i :: 0 <= i < |tasks| && tasks[i].step == Some(id)
  }

  /** The progress values of the live tasks of a step. */
  function LiveProgress(tasks: seq<Task>, id: StepId): seq<real> {
    if tasks == [] then []
    else
      var n := |tasks| - 1;
      LiveProgress(tasks[..n], id) + if LiveIn(tasks[n], id) then [tasks[n].progress as real] else []
  }

  function Sum(xs: seq<real>): real {
    if xs == [] then 0.0 else Sum(xs[..|xs| - 1]) + xs[|xs| - 1]
  }

  function Ratio(sum: real, total: nat): real
    requires total != 0
  {
    sum / total as real
  }

  /** The average of `total` values with these sums; 100 if there are none. */
  function MeanOf(kids: real, live: real, total: nat): real {
    if total == 0 then 100.0 else Ratio(kids + live, total)
  }

  function Mean(kids: seq<real>, live: seq<real>): real {
    MeanOf(Sum(kids), Sum(live), |kids| + |live|)
  }

  function ProgressOf(t: Tree, tasks: seq<Task>): real {
    if t.steps == [] && !AnyTask(tasks, t.id) then 0.0
    else
      Mean(seq(|t.steps|, i requires 0 <= i < |t.steps| => ProgressOf(t.steps[i], tasks)), LiveProgress(tasks, t.id))
  }

  function ChildProgress(t: Tree, tasks: seq<Task>): seq<real> {
    seq(|t.steps|, i requires 0 <= i < |t.steps| => ProgressOf(t.steps[i], tasks))
  }

  lemma {:induction false} ProgressClosed(t: Tree, tasks: seq<Task>)
    ensures ProgressOf(t, tasks) ==
            if t.steps == [] && !AnyTask(tasks, t.id) then 0.0
            else Mean(ChildProgress(t, tasks), LiveProgress(tasks, t.id))
  {
  }

  /******* Retry links *******/

  /** A retried task refers to a later task of the same step. */
  ghost predicate LinksForward(tasks: seq<Task>) {
    forall i :: 0 <= i < |tasks| && tasks[i].retried.Some? ==>
      i < tasks[i].retried.value < |tasks| && tasks[tasks[i].retried.value].step == tasks[i].step
  }

  /** Every chain of retries ends in a live task of its step. */
  lemma {:induction false} LiveSuccessor(tasks: seq<Task>, i: TaskId) returns (j: TaskId)
    requires LinksForward(tasks) && i < |tasks|
    ensures i <= j < |tasks| && tasks[j].retried.None? && tasks[j].step == tasks[i].step
    decreases |tasks| - i
  {
    if tasks[i].retried.None? { j := i; } else { j := LiveSuccessor(tasks, tasks[i].retried.value); }
  }

  /** So a step that ever had a task has a live one, and the total is never zero
      beyond the check for an empty step. */
  lemma {:induction false} TotalNeverZero(t: Tree, tasks: seq<Task>)
    requires LinksForward(tasks)
    ensures AnyTask(tasks, t.id) <==> AnyLive(tasks, t.id)
    ensures !(t.steps == [] && !AnyTask(tasks, t.id)) <==> |t.steps| + |LiveProgress(tasks, t.id)| != 0
  {
    if i: nat :| i < |tasks| && tasks[i].step == Some(t.id) {
      var j := LiveSuccessor(tasks, i);
      assert LiveIn(tasks[j], t.id);
    }
    LiveProgressMembers(tasks, t.id);
  }

  lemma {:induction false} LiveProgressMembers(tasks: seq<Task>, id: StepId)
    ensures LiveProgress(tasks, id) != [] <==> AnyLive(tasks, id)
    ensures forall p :: p in LiveProgress(tasks, id) <==>
              exists i :: 0 <= i < |tasks| && LiveIn(tasks[i], id) && p == tasks[i].progress as real
  {
    if tasks != [] {
      var n := |tasks| - 1;
      LiveProgressMembers(tasks[..n], id);
      assert forall i :: 0 <= i < n ==> tasks[i] == tasks[..n][i];
    }
  }

  /******* Sums *******/

  ghost predicate Percentages(xs: seq<real>) { forall i :: 0 <= i < |xs| ==> 0.0 <= xs[i] <= 100.0 }

  ghost predicate Hundreds(xs: seq<real>) { forall i :: 0 <= i < |xs| ==> xs[i] == 100.0 }

  lemma {:induction false} SumRange(xs: seq<real>)
    requires Percentages(xs)
    ensures 0.0 <= Sum(xs) <= 100.0 * |xs| as real
    ensures Sum(xs) == 100.0 * |xs| as real <==> Hundreds(xs)
  {
    if xs != [] {
      var n := |xs| - 1;
      SumRange(xs[..n]);
      assert Hundreds(xs) <==> Hundreds(xs[..n]) && xs[n] == 100.0;
    }
  }

  lemma {:induction false} SumMonotone(xs: seq<real>, ys: seq<real>)
    requires |xs| == |ys| && forall i :: 0 <= i < |xs| ==> xs[i] <= ys[i]
    ensures Sum(xs) <= Sum(ys)
  {
    if xs != [] { SumMonotone(xs[..|xs| - 1], ys[..|ys| - 1]); }
  }

  lemma {:induction false} Average(x: real, n: nat)
    requires n > 0 && 0.0 <= x <= 100.0 * n as real
    ensures 0.0 <= Ratio(x, n) <= 100.0
    ensures Ratio(x, n) == 100.0 <==> x == 100.0 * n as real
  {
    var m := n as real;
    var q := x / m;
    assert q * m == x;
    assert q > 100.0 ==> q * m > 100.0 * m;
    assert q < 100.0 ==> q * m < 100.0 * m;
    assert q == 100.0 ==> q * m == 100.0 * m;
    assert q < 0.0 ==> q * m < 0.0;
  }

  lemma {:induction false} Divide(x: real, y: real, n: nat)
    requires n > 0 && x <= y
    ensures Ratio(x, n) <= Ratio(y, n)
  {
    var m := n as real;
    var p, q := x / m, y / m;
    assert p * m == x && q * m == y;
    assert p > q ==> p * m > q * m;
  }

  /******* Summing child by child *******/

  /** The sum over the first `i` child steps. */
  ghost function SumFirst(t: Tree, tasks: seq<Task>, i: nat): real
    requires i <= |t.steps|
  {
    if i == 0 then 0.0 else SumFirst(t, tasks, i - 1) + ProgressOf(t.steps[i - 1], tasks)
  }

  lemma {:induction false} SumFirstIs(t: Tree, tasks: seq<Task>, i: nat)
    requires i <= |t.steps|
    ensures SumFirst(t, tasks, i) == Sum(ChildProgress(t, tasks)[..i])
  {
    if i > 0 {
      SumFirstIs(t, tasks, i - 1);
      SumUpTo(ChildProgress(t, tasks), i - 1);
    }
  }

  lemma {:induction false} MeanFromSum(t: Tree, tasks: seq<Task>, sum: real, live: seq<real>, total: nat)
    requires sum == SumFirst(t, tasks, |t.steps|) && live == LiveProgress(tasks, t.id) && total == |t.steps| + |live|
    ensures Mean(ChildProgress(t, tasks), live) == MeanOf(sum, Sum(live), total)
  {
    SumFirstIs(t, tasks, |t.steps|);
    SumAll(ChildProgress(t, tasks));
  }

  /******* Progress is a percentage *******/

  ghost predicate ProgressSane(tasks: seq<Task>) {
    forall i :: 0 <= i < |tasks| ==> 0 <= tasks[i].progress <= 100
  }

  /** No step without child steps is without live tasks. */
  ghost predicate NoEmptyLeaf(t: Tree, tasks: seq<Task>) {
    forall d :: Sub(d, t) && d.steps == [] ==> AnyLive(tasks, d.id)
  }

  ghost predicate AllLiveAt100(t: Tree, tasks: seq<Task>) {
    forall i :: 0 <= i < |tasks| && InTree(tasks[i], t) && tasks[i].retried.None? ==> tasks[i].progress == 100
  }

  lemma {:induction false} AverageRange(xs: seq<real>, ys: seq<real>)
    requires Percentages(xs) && Percentages(ys) && |xs| + |ys| > 0
    ensures 0.0 <= Ratio(Sum(xs) + Sum(ys), |xs| + |ys|) <= 100.0
    ensures Ratio(Sum(xs) + Sum(ys), |xs| + |ys|) == 100.0 <==> Hundreds(xs) && Hundreds(ys)
  {
    SumRange(xs);
    SumRange(ys);
    Average(Sum(xs) + Sum(ys), |xs| + |ys|);
  }

  /** Progress lies in 0..100, and is 100 exactly when every live task below is
      at 100 and no leaf step is empty. */
  lemma {:induction false} ProgressIsPercentage(t: Tree, tasks: seq<Task>)
    requires LinksForward(tasks) && ProgressSane(tasks)
    ensures 0.0 <= ProgressOf(t, tasks) <= 100.0
    ensures ProgressOf(t, tasks) == 100.0 <==> AllLiveAt100(t, tasks) && NoEmptyLeaf(t, tasks)
  {
    TotalNeverZero(t, tasks);
    var kids, live := ChildProgress(t, tasks), LiveProgress(tasks, t.id);
    forall i | 0 <= i < |t.steps|
      ensures 0.0 <= kids[i] <= 100.0
      ensures kids[i] == 100.0 <==> AllLiveAt100(t.steps[i], tasks) && NoEmptyLeaf(t.steps[i], tasks)
    {
      ProgressIsPercentage(t.steps[i], tasks);
    }
    LiveSane(tasks, t.id);
    HundredSplits(t, tasks);
    ProgressClosed(t, tasks);
    if t.steps != [] || AnyTask(tasks, t.id) { AverageRange(kids, live); }
  }

  lemma {:induction false} LiveSane(tasks: seq<Task>, id: StepId)
    requires ProgressSane(tasks)
    ensures Percentages(LiveProgress(tasks, id))
  {
    LiveProgressMembers(tasks, id);
    assert forall i :: 0 <= i < |LiveProgress(tasks, id)| ==> LiveProgress(tasks, id)[i] in LiveProgress(tasks, id);
  }

  /** Being complete splits into the step's own tasks and its child steps. */
  lemma {:induction false} HundredSplits(t: Tree, tasks: seq<Task>)
    ensures AllLiveAt100(t, tasks) && NoEmptyLeaf(t, tasks) <==>
            && (t.steps != [] || AnyLive(tasks, t.id))
            && Hundreds(LiveProgress(tasks, t.id))
            && forall i :: 0 <= i < |t.steps| ==> AllLiveAt100(t.steps[i], tasks) && NoEmptyLeaf(t.steps[i], tasks)
  {
    LiveProgressMembers(tasks, t.id);
    assert Sub(t, t);
    forall d, i | 0 <= i < |t.steps| && Sub(d, t.steps[i]) ensures Sub(d, t) {}
    if AllLiveAt100(t, tasks) {
      forall k | 0 <= k < |tasks| && LiveIn(tasks[k], t.id) ensures tasks[k].progress == 100 {
        assert InTree(tasks[k], t);
      }
      forall i | 0 <= i < |t.steps| ensures AllLiveAt100(t.steps[i], tasks) {
        forall k | 0 <= k < |tasks| && InTree(tasks[k], t.steps[i]) ensures InTree(tasks[k], t) {}
      }
    }
    assert forall i :: 0 <= i < |LiveProgress(tasks, t.id)| ==> LiveProgress(tasks, t.id)[i] in LiveProgress(tasks, t.id);
    if Hundreds(LiveProgress(tasks, t.id)) {
      forall k | 0 <= k < |tasks| && LiveIn(tasks[k], t.id) ensures tasks[k].progress == 100 {
        assert tasks[k].progress as real in LiveProgress(tasks, t.id);
      }
    }
  }

  /******* Progress never falls when a task's rises *******/

  ghost predicate Advanced(a: seq<Task>, b: seq<Task>) {
    |a| == |b| && forall i :: 0 <= i < |a| ==>
      a[i].step == b[i].step && a[i].retried == b[i].retried && a[i].progress <= b[i].progress
  }

  lemma {:induction false} LiveAdvances(a: seq<Task>, b: seq<Task>, id: StepId)
    requires Advanced(a, b)
    ensures |LiveProgress(a, id)| == |LiveProgress(b, id)|
    ensures Sum(LiveProgress(a, id)) <= Sum(LiveProgress(b, id))
  {
    if a != [] {
      var n := |a| - 1;
      LiveAdvances(a[..n], b[..n], id);
      SumSnoc(LiveProgress(a[..n], id), a[n].progress as real);
      SumSnoc(LiveProgress(b[..n], id), b[n].progress as real);
    }
  }

  lemma {:induction false} SumSnoc(xs: seq<real>, x: real)
    ensures Sum(xs + [x]) == Sum(xs) + x && xs + [] == xs
  {
    assert (xs + [x])[..|xs|] == xs;
  }

  lemma {:induction false} SumUpTo(xs: seq<real>, i: nat)
    requires i < |xs|
    ensures Sum(xs[..i + 1]) == Sum(xs[..i]) + xs[i]
  {
    assert xs[..i + 1] == xs[..i] + [xs[i]];
    SumSnoc(xs[..i], xs[i]);
  }

  lemma {:induction false} SumAll(xs: seq<real>)
    ensures Sum(xs[..|xs|]) == Sum(xs)
  {
    assert xs[..|xs|] == xs;
  }

  lemma {:induction false} ProgressMonotone(t: Tree, a: seq<Task>, b: seq<Task>)
    requires Advanced(a, b)
    ensures ProgressOf(t, a) <= ProgressOf(t, b)
  {
    LiveAdvances(a, b, t.id);
    var xs, ys := ChildProgress(t, a), ChildProgress(t, b);
    forall i | 0 <= i < |t.steps| ensures xs[i] <= ys[i] { ProgressMonotone(t.steps[i], a, b); }
    SumMonotone(xs, ys);
    assert AnyTask(a, t.id) <==> AnyTask(b, t.id) by {
      if i :| 0 <= i < |a| && a[i].step == Some(t.id) { assert b[i].step == Some(t.id); }
      if i :| 0 <= i < |b| && b[i].step == Some(t.id) { assert a[i].step == Some(t.id); }
    }
    ProgressClosed(t, a);
    ProgressClosed(t, b);
    var total := |t.steps| + |LiveProgress(a, t.id)|;
    if total != 0 {
      Divide(Sum(xs) + Sum(LiveProgress(a, t.id)), Sum(ys) + Sum(LiveProgress(b, t.id)), total);
    }
  }

  /******* The mean *******/

  /** The progress of a step that is not empty is what its child steps and live tasks make
      together, divided by their number. */
  lemma {:induction false} ProgressIsMean(t: Tree, tasks: seq<Task>)
    requires LinksForward(tasks) && (t.steps != [] || AnyTask(tasks, t.id))
    ensures |t.steps| + |LiveRows(tasks, t.id)| != 0
    ensures ProgressOf(t, tasks)
            == (Sum(ChildProgress(t, tasks)) + Sum(LiveProgress(tasks, t.id))) / (|t.steps| + |LiveRows(tasks, t.id)|) as real
  {
    TotalNeverZero(t, tasks);
    LiveCount(tasks, t.id);
    ProgressClosed(t, tasks);
  }

  /** The live rows of a step. */
  function LiveRows(tasks: seq<Task>, id: StepId): set<TaskId> {
    set i | 0 <= i < |tasks| && tasks[i].step == Some(id) && tasks[i].retried == None
  }

  lemma {:induction false} LiveCount(tasks: seq<Task>, id: StepId)
    ensures |LiveProgress(tasks, id)| == |LiveRows(tasks, id)|
  {
    if tasks != [] {
      var n := |tasks| - 1;
      LiveCount(tasks[..n], id);
      assert LiveRows(tasks, id) == LiveRows(tasks[..n], id) + if LiveIn(tasks[n], id) then {n} else {};
    } else {
      assert LiveRows(tasks, id) == {};
    }
  }

  lemma {:induction false} LiveLast(tasks: seq<Task>, r: Task, id: StepId)
    ensures LiveProgress(tasks + [r], id) == LiveProgress(tasks, id) + if LiveIn(r, id) then [r.progress as real] else []
    ensures Sum(LiveProgress(tasks + [r], id))
            == Sum(LiveProgress(tasks, id)) + if LiveIn(r, id) then r.progress as real else 0.0
  {
    assert (tasks + [r])[..|tasks|] == tasks;
    SumSnoc(LiveProgress(tasks, id), r.progress as real);
  }

  lemma {:induction false} RaisedSum(a: seq<Task>, i: TaskId, d: int, id: StepId)
    requires i < |a| && a[i].step == Some(id) && a[i].retried == None
    ensures var b := a[i := a[i].(progress := a[i].progress + d)];
            && |LiveProgress(b, id)| == |LiveProgress(a, id)|
            && Sum(LiveProgress(b, id)) == Sum(LiveProgress(a, id)) + d as real
  {
    var n, row := |a| - 1, a[i].(progress := a[i].progress + d);
    assert a == a[..n] + [a[n]];
    LiveLast(a[..n], a[n], id);
    if i == n {
      assert a[i := row] == a[..n] + [row];
      LiveLast(a[..n], row, id);
    } else {
      assert a[i := row] == a[..n][i := row] + [a[n]];
      RaisedSum(a[..n], i, d, id);
      LiveLast(a[..n][i := row], a[n], id);
    }
  }

  /** Rows outside the subtree do not count. */
  lemma {:induction false} SameBelow(t: Tree, a: seq<Task>, b: seq<Task>)
    requires |a| == |b| && forall i :: 0 <= i < |a| && (InTree(a[i], t) || InTree(b[i], t)) ==> b[i] == a[i]
    ensures ProgressOf(t, b) == ProgressOf(t, a)
  {
    forall i | 0 <= i < |t.steps| ensures ChildProgress(t, b)[i] == ChildProgress(t, a)[i] {
      SameBelow(t.steps[i], a, b);
    }
    assert ChildProgress(t, b) == ChildProgress(t, a);
    SameLive(a, b, t.id);
    assert AnyTask(a, t.id) <==> AnyTask(b, t.id) by {
      if i :| 0 <= i < |a| && a[i].step == Some(t.id) { assert InTree(a[i], t); }
      if i :| 0 <= i < |b| && b[i].step == Some(t.id) { assert InTree(b[i], t); }
    }
    ProgressClosed(t, a);
    ProgressClosed(t, b);
  }

  lemma {:induction false} SameLive(a: seq<Task>, b: seq<Task>, id: StepId)
    requires |a| == |b| && forall i :: 0 <= i < |a| && (a[i].step == Some(id) || b[i].step == Some(id)) ==> b[i] == a[i]
    ensures LiveProgress(b, id) == LiveProgress(a, id)
  {
    if a != [] { SameLive(a[..|a| - 1], b[..|a| - 1], id); }
  }

  lemma {:induction false} MeansApart(p: real, q: real, x: real, y: real, d: real, n: nat)
    requires n != 0 && p == x / n as real && q == y / n as real && y == x + d
    ensures q == p + d / n as real
  {
    assert (x + d) / n as real == x / n as real + d / n as real;
  }

  /** Raising one live task of a step by `d` raises the step by `d` divided by the number of
      its child steps and live tasks. */
  lemma {:induction false} RaiseTask(t: Tree, a: seq<Task>, b: seq<Task>, i: TaskId, d: int, n: nat)
    requires WellFormed(t) && LinksForward(a) && i < |a| && a[i].step == Some(t.id) && a[i].retried == None
    requires b == a[i := a[i].(progress := a[i].progress + d)] && n == |t.steps| + |LiveRows(a, t.id)|
    ensures n != 0 && ProgressOf(t, b) == ProgressOf(t, a) + d as real / n as real
  {
    RaisedParts(t, a, i, d);
    TwoMeans(t, a, b, d as real, n);
  }

  lemma {:induction false} TwoMeans(t: Tree, a: seq<Task>, b: seq<Task>, d: real, n: nat)
    requires LinksForward(a) && LinksForward(b) && n == |t.steps| + |LiveRows(a, t.id)| == |t.steps| + |LiveRows(b, t.id)|
    requires t.steps != [] || (AnyTask(a, t.id) && AnyTask(b, t.id))
    requires Sum(ChildProgress(t, b)) + Sum(LiveProgress(b, t.id))
             == Sum(ChildProgress(t, a)) + Sum(LiveProgress(a, t.id)) + d
    ensures n != 0 && ProgressOf(t, b) == ProgressOf(t, a) + d / n as real
  {
    ProgressIsMean(t, a);
    ProgressIsMean(t, b);
    MeansApart(ProgressOf(t, a), ProgressOf(t, b), Sum(ChildProgress(t, a)) + Sum(LiveProgress(a, t.id)),
               Sum(ChildProgress(t, b)) + Sum(LiveProgress(b, t.id)), d, n);
  }

  lemma {:induction false} RaisedParts(t: Tree, a: seq<Task>, i: TaskId, d: int)
    requires WellFormed(t) && LinksForward(a) && i < |a| && a[i].step == Some(t.id) && a[i].retried == None
    ensures var b := a[i := a[i].(progress := a[i].progress + d)];
            && ChildProgress(t, b) == ChildProgress(t, a) && LiveRows(b, t.id) == LiveRows(a, t.id)
            && Sum(LiveProgress(b, t.id)) == Sum(LiveProgress(a, t.id)) + d as real
            && LinksForward(b) && AnyTask(a, t.id) && AnyTask(b, t.id)
  {
    var b := a[i := a[i].(progress := a[i].progress + d)];
    forall k | 0 <= k < |t.steps| ensures ChildProgress(t, b)[k] == ChildProgress(t, a)[k] { SameBelow(t.steps[k], a, b); }
    assert ChildProgress(t, b) == ChildProgress(t, a);
    RaisedSum(a, i, d, t.id);
    assert b[i].step == Some(t.id) && LiveRows(b, t.id) == LiveRows(a, t.id);
  }

  lemma {:induction false} SumChange(xs: seq<real>, k: nat, y: real)
    requires k < |xs|
    ensures Sum(xs[k := y]) == Sum(xs) - xs[k] + y
  {
    var n := |xs| - 1;
    if k == n {
      assert xs[k := y][..n] == xs[..n];
    } else {
      assert xs[k := y][..n] == xs[..n][k := y];
      SumChange(xs[..n], k, y);
    }
  }

  lemma {:induction false} SameOwnRows(t: Tree, k: nat, a: seq<Task>, b: seq<Task>)
    requires WellFormed(t) && k < |t.steps| && |a| == |b|
    requires forall i :: 0 <= i < |a| && !(InTree(a[i], t.steps[k]) && InTree(b[i], t.steps[k])) ==> b[i] == a[i]
    ensures LiveProgress(b, t.id) == LiveProgress(a, t.id) && LiveRows(b, t.id) == LiveRows(a, t.id)
  {
    forall i | 0 <= i < |a| && (a[i].step == Some(t.id) || b[i].step == Some(t.id)) ensures b[i] == a[i] {
      assert t.id !in Ids(t.steps[k]);
    }
    SameLive(a, b, t.id);
  }

  /** A change below one child step changes the step by the change of that child step, divided
      by the same number. */
  lemma {:induction false} ChangeBelow(t: Tree, k: nat, a: seq<Task>, b: seq<Task>, d: real, n: nat)
    requires WellFormed(t) && LinksForward(a) && LinksForward(b) && k < |t.steps| && |a| == |b|
    requires forall i :: 0 <= i < |a| && !(InTree(a[i], t.steps[k]) && InTree(b[i], t.steps[k])) ==> b[i] == a[i]
    requires ProgressOf(t.steps[k], b) == ProgressOf(t.steps[k], a) + d && n == |t.steps| + |LiveRows(a, t.id)|
    ensures n != 0 && ProgressOf(t, b) == ProgressOf(t, a) + d / n as real
  {
    ChangedParts(t, k, a, b);
    TwoMeans(t, a, b, d, n);
  }

  lemma {:induction false} ChangedParts(t: Tree, k: nat, a: seq<Task>, b: seq<Task>)
    requires WellFormed(t) && k < |t.steps| && |a| == |b|
    requires forall i :: 0 <= i < |a| && !(InTree(a[i], t.steps[k]) && InTree(b[i], t.steps[k])) ==> b[i] == a[i]
    ensures LiveProgress(b, t.id) == LiveProgress(a, t.id) && LiveRows(b, t.id) == LiveRows(a, t.id)
    ensures Sum(ChildProgress(t, b))
            == Sum(ChildProgress(t, a)) + (ProgressOf(t.steps[k], b) - ProgressOf(t.steps[k], a))
  {
    var xs, y := ChildProgress(t, a), ProgressOf(t.steps[k], b);
    forall j | 0 <= j < |t.steps| && j != k ensures ChildProgress(t, b)[j] == xs[j] { SameBelow(t.steps[j], a, b); }
    assert ChildProgress(t, b) == xs[k := y];
    SumChange(xs, k, y);
    SameOwnRows(t, k, a, b);
  }

  /** Where no task has made progress, or there is none, there is no progress. */
  lemma {:induction false} NoProgress(t: Tree, tasks: seq<Task>)
    requires LinksForward(tasks) && forall i :: 0 <= i < |tasks| && InTree(tasks[i], t) ==> tasks[i].progress == 0
    ensures ProgressOf(t, tasks) == 0.0
  {
    forall i | 0 <= i < |t.steps| ensures ChildProgress(t, tasks)[i] == 0.0 { NoProgress(t.steps[i], tasks); }
    SumOfNothing(ChildProgress(t, tasks));
    forall k | 0 <= k < |LiveProgress(tasks, t.id)| ensures LiveProgress(tasks, t.id)[k] == 0.0 {
      LiveProgressMembers(tasks, t.id);
      assert LiveProgress(tasks, t.id)[k] in LiveProgress(tasks, t.id);
    }
    SumOfNothing(LiveProgress(tasks, t.id));
    ProgressClosed(t, tasks);
    if t.steps != [] || AnyTask(tasks, t.id) {
      ProgressIsMean(t, tasks);
    }
  }

  lemma {:induction false} SumOfNothing(xs: seq<real>)
    requires forall k :: 0 <= k < |xs| ==> xs[k] == 0.0
    ensures Sum(xs) == 0.0
  {
    if xs != [] { SumOfNothing(xs[..|xs| - 1]); }
  }
}

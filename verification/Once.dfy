/** What a history at rest has executed: which tasks exactly once, and which not at all. */
module Once {
  import opened Rows
  import opened Canvas
  import opened Ordering
  import opened Attempts
  import opened History
  import opened InOrder

  /******* Any dispatches *******/

  /** Canvas `f` holds the current signature of task `i` and has not started it. */
  ghost predicate Holds(s: Sys, f: nat, i: TaskId) {
    && f < |s.flights| && i < |s.tasks|
    && SigOf(s.tasks, i) in Leaves(s.flights[f].canvas) && s.tasks[i].celeryId !in s.flights[f].started
  }

  ghost predicate Runs(s: Sys, f: nat, i: TaskId) {
    f < |s.flights| && i < |s.tasks| && Running(s.flights[f], SigOf(s.tasks, i))
  }

  /** Task `i` succeeded, failed, runs, or is held by a canvas. */
  ghost predicate Accounted(s: Sys, i: TaskId)
    requires i < |s.tasks|
  {
    match s.tasks[i].status
    case PENDING => exists f: nat :: Holds(s, f, i)
    case STARTED => exists f: nat :: Runs(s, f, i)
    case SUCCESS => true
    case FAILURE => true
    case _ => false
  }

  /** Some dispatch among the first `n` acts was of a step that holds task `i`. */
  ghost predicate Covered(s: Sys, acts: seq<Act>, n: nat, i: TaskId)
    requires n <= |acts|
  {
    exists k :: 0 <= k < n && Covers(s, acts[k], i)
  }

  ghost predicate Covers(s: Sys, a: Act, i: TaskId) { Dispatches(a) && Within(a.at, s.tasks, i) }

  /** A task that was covered, or is no longer pending, is accounted for. */
  ghost predicate Minded(s: Sys, i: TaskId, covered: bool) {
    i < |s.tasks| && (covered || s.tasks[i].status != PENDING ==> Accounted(s, i))
  }

  lemma {:induction false} DispatchMinds(s: Sys, at: Tree, s': Sys, i: TaskId, covered: bool)
    requires Extended(s, at, s') && Minded(s, i, covered)
    ensures Minded(s', i, covered || Within(at, s.tasks, i))
  {
    var n := |s.flights|;
    assert forall f :: 0 <= f < n ==> s'.flights[f] == s'.flights[..n][f];
    if s'.tasks[i].status == PENDING && Within(at, s.tasks, i) {
      assert SignsPending(at, s'.tasks, SigOf(s'.tasks, i));
      assert Holds(s', n, i);
    } else if covered || s.tasks[i].status != PENDING {
      StillAccounted(s, s', i);
    }
  }

  lemma {:induction false} StillAccounted(s: Sys, s': Sys, i: TaskId)
    requires i < |s.tasks| && Accounted(s, i) && |s'.tasks| == |s.tasks| && s'.tasks[i] == s.tasks[i]
    requires |s.flights| <= |s'.flights| && forall f :: 0 <= f < |s.flights| ==> s'.flights[f] == s.flights[f]
    ensures Accounted(s', i)
  {
    if f: nat :| Holds(s, f, i) { assert Holds(s', f, i); }
    if f: nat :| Runs(s, f, i) { assert Runs(s', f, i); }
  }

  lemma {:induction false} ExecutedMinds(s: Sys, a: Act, s': Sys, i: TaskId, covered: bool)
    requires Fits(s) && Executed(s, a, s') && Minded(s, i, covered) && !ErrorTask(s, i)
    ensures Minded(s', i, covered)
  {
    ExecutedRows(s, a, s');
    if i == a.x.task {
      if a.Start? { assert Runs(s', a.f, i); }
    } else if covered || s.tasks[i].status != PENDING {
      if f: nat :| Holds(s, f, i) { HeldOn(s, a, s', f, i); }
      if f: nat :| Runs(s, f, i) { RunsOn(s, a, s', f, i); }
    }
  }

  lemma {:induction false} HeldOn(s: Sys, a: Act, s': Sys, f: nat, i: TaskId)
    requires Fits(s) && Executed(s, a, s') && Holds(s, f, i) && i != a.x.task
    ensures Holds(s', f, i)
  {
    assert a.x.taskId != s.tasks[i].celeryId;
    assert s'.flights[f].canvas == s.flights[f].canvas && s'.tasks[i] == s.tasks[i];
  }

  lemma {:induction false} RunsOn(s: Sys, a: Act, s': Sys, f: nat, i: TaskId)
    requires Fits(s) && Executed(s, a, s') && Runs(s, f, i) && i != a.x.task
    ensures Runs(s', f, i)
  {
    assert a.x.taskId != s.tasks[i].celeryId;
    assert s'.flights[f].canvas == s.flights[f].canvas && s'.tasks[i] == s.tasks[i];
  }

  lemma {:induction false} StepMinds(t: Tree, s: Sys, a: Act, s': Sys, i: TaskId, covered: bool)
    requires WellFormed(t) && Safe(s) && Step(t, s, a, s') && Minded(s, i, covered) && !ErrorTask(s, i)
    ensures Minded(s', i, covered || Covers(s, a, i))
  {
    if Dispatches(a) {
      DispatchExtends(t, s, a, s');
      DispatchMinds(s, a.at, s', i, covered);
    } else {
      StepExecutes(t, s, a, s');
      ExecutedMinds(s, a, s', i, covered);
    }
  }

  lemma {:induction false} AlwaysMinded(t: Tree, h: seq<Sys>, acts: seq<Act>, n: nat, i: TaskId)
    requires WellFormed(t) && Behaviour(t, h, acts) && AllQuiet(h, acts) && n <= |acts|
    requires i < |h[0].tasks| && !ErrorTask(h[0], i) && h[0].tasks[i].status in {PENDING, SUCCESS}
    ensures Minded(h[n], i, Covered(h[0], acts, n, i))
  {
    if n > 0 {
      AlwaysMinded(t, h, acts, n - 1, i);
      NextMinded(t, h, acts, n - 1, i);
    }
  }

  lemma {:induction false} MindsOn(t: Tree, h: seq<Sys>, acts: seq<Act>, n: nat, i: TaskId, covered: bool)
    requires WellFormed(t) && Behaviour(t, h, acts) && AllQuiet(h, acts) && n < |acts| && !ErrorTask(h[0], i)
    requires Minded(h[n], i, covered)
    ensures Minded(h[n + 1], i, covered || Covers(h[n], acts[n], i))
  {
    AlwaysSafe(t, h, acts, n);
    SameErrors(h[0], h[n]);
    assert Step(t, h[n], acts[n], h[n + 1]);
    StepMinds(t, h[n], acts[n], h[n + 1], i, covered);
  }

  lemma {:induction false} NextMinded(t: Tree, h: seq<Sys>, acts: seq<Act>, n: nat, i: TaskId)
    requires WellFormed(t) && Behaviour(t, h, acts) && AllQuiet(h, acts) && n < |acts| && !ErrorTask(h[0], i)
    requires Minded(h[n], i, Covered(h[0], acts, n, i))
    ensures Minded(h[n + 1], i, Covered(h[0], acts, n + 1, i))
  {
    PlacesKept(t, h, acts, n);
    MindsOn(t, h, acts, n, i, Covered(h[0], acts, n, i));
    CoveredNext(h[0], h[n], acts, n + 1, i);
  }

  lemma {:induction false} CoveredNext(base: Sys, s: Sys, acts: seq<Act>, n: nat, i: TaskId)
    requires 0 < n <= |acts| && SamePlaced(base, s)
    ensures Covered(base, acts, n, i) <==> Covered(base, acts, n - 1, i) || Covers(s, acts[n - 1], i)
  {
    assert Covers(s, acts[n - 1], i) <==> Covers(base, acts[n - 1], i);
  }

  /******* At rest *******/

  /** Nothing runs and nothing may start, but for error tasks. */
  ghost predicate AtRest(s: Sys) {
    forall f, x :: 0 <= f < |s.flights| && InHand(s.flights[f], x) ==> ErrorTask(s, x.task)
  }

  /** The pending task `i` waits in canvas `f` behind a signature that failed. */
  ghost predicate HeldBack(s: Sys, f: nat, i: TaskId) {
    && Holds(s, f, i) && s.tasks[i].status == PENDING
    && exists y :: Precedes(s.flights[f].canvas, y, SigOf(s.tasks, i))
                   && y.taskId in s.flights[f].done && !s.flights[f].done[y.taskId]
  }

  ghost predicate ExactlyOnce(log: seq<Event>, e: Event) {
    e in log && forall j, k :: 0 <= j < |log| && 0 <= k < |log| && log[j] == e && log[k] == e ==> j == k
  }

  lemma {:induction false} RunningIsNoRest(s: Sys, i: TaskId)
    requires i < |s.tasks| && !ErrorTask(s, i) && exists f: nat :: Runs(s, f, i)
    ensures !AtRest(s)
  {
    var f: nat :| Runs(s, f, i);
    assert InHand(s.flights[f], SigOf(s.tasks, i));
  }

  lemma {:induction false} RestHoldsBack(s: Sys, f: nat, i: TaskId)
    requires AtRest(s) && Holds(s, f, i) && s.tasks[i].status == PENDING && !ErrorTask(s, i)
    ensures HeldBack(s, f, i)
  {
    assert !MayStart(s.flights[f], SigOf(s.tasks, i));
  }

  lemma {:induction false} RestIsSuccess(s: Sys, i: TaskId)
    requires AtRest(s) && i < |s.tasks| && !ErrorTask(s, i) && Accounted(s, i)
    ensures s.tasks[i].status in {SUCCESS, FAILURE} || exists f: nat :: HeldBack(s, f, i)
  {
    if s.tasks[i].status == STARTED { RunningIsNoRest(s, i); }
    if s.tasks[i].status == PENDING {
      var f: nat :| Holds(s, f, i);
      RestHoldsBack(s, f, i);
    }
  }

  lemma {:induction false} SuccessOnce(base: Sys, s: Sys, i: TaskId)
    requires Safe(s) && Earned(base, s) && i < |s.tasks| && !ErrorTask(s, i)
    requires s.tasks[i].status == SUCCESS && base.tasks[i].status != SUCCESS
    ensures ExactlyOnce(s.log, Ended(i, true))
  {
    forall j, k | 0 <= j < |s.log| && 0 <= k < |s.log| && s.log[j] == Ended(i, true) && s.log[k] == Ended(i, true)
      ensures j == k
    {
      assert s.log[j].ok && !ErrorTask(s, s.log[j].task);
    }
  }

  lemma {:induction false} AlwaysEarned(t: Tree, h: seq<Sys>, acts: seq<Act>, n: nat)
    requires WellFormed(t) && Behaviour(t, h, acts) && AllQuiet(h, acts) && n <= |acts|
    ensures Earned(h[0], h[n])
  {
    if n > 0 {
      AlwaysEarned(t, h, acts, n - 1);
      NextEarned(t, h, acts, n - 1);
    }
  }

  lemma {:induction false} NextEarned(t: Tree, h: seq<Sys>, acts: seq<Act>, n: nat)
    requires WellFormed(t) && Behaviour(t, h, acts) && AllQuiet(h, acts) && n < |acts| && Earned(h[0], h[n])
    ensures Earned(h[0], h[n + 1])
  {
    AlwaysSafe(t, h, acts, n);
    assert Step(t, h[n], acts[n], h[n + 1]);
    StepEarned(t, h[0], h[n], acts[n], h[n + 1]);
  }

  lemma {:induction false} StepEarned(t: Tree, base: Sys, s: Sys, a: Act, s': Sys)
    requires WellFormed(t) && Safe(s) && Step(t, s, a, s') && Earned(base, s)
    ensures Earned(base, s')
  {
    if Dispatches(a) {
      DispatchKeeps(t, s, a, s');
    } else {
      StepExecutes(t, s, a, s');
      ExecutedEarned(base, s, a, s');
    }
  }

  /** However the steps around a pending task were run and resumed: when the history has come
      to rest, the task has been executed to success exactly once if and only if it has not
      failed and no canvas holds it back behind a failed signature. */
  lemma {:induction false} OnceIff(t: Tree, h: seq<Sys>, acts: seq<Act>, n: nat, i: TaskId)
    requires WellFormed(t) && Behaviour(t, h, acts) && AllQuiet(h, acts) && n <= |acts|
    requires i < |h[0].tasks| && !ErrorTask(h[0], i) && h[0].tasks[i].status == PENDING && Covered(h[0], acts, n, i)
    requires AtRest(h[n])
    ensures i < |h[n].tasks|
    ensures ExactlyOnce(h[n].log, Ended(i, true))
            <==> h[n].tasks[i].status != FAILURE && forall f: nat :: !HeldBack(h[n], f, i)
  {
    var s := h[n];
    AlwaysSafe(t, h, acts, n);
    AlwaysMinded(t, h, acts, n, i);
    AlwaysEarned(t, h, acts, n);
    SameErrors(h[0], s);
    if ExactlyOnce(s.log, Ended(i, true)) {
      var k :| 0 <= k < |s.log| && s.log[k] == Ended(i, true);
      assert s.tasks[i].status == SUCCESS;
    } else if s.tasks[i].status != FAILURE && forall f: nat :: !HeldBack(s, f, i) {
      RestIsSuccess(s, i);
      SuccessOnce(h[0], s, i);
    }
  }

  /******* One part, as a whole *******/

  /** Canvas `f` holds task `i` behind signatures of `r` that are current too. */
  ghost predicate Awaits(r: Tree, s: Sys, f: nat, i: TaskId) {
    && Holds(s, f, i)
    && forall y :: Precedes(s.flights[f].canvas, y, SigOf(s.tasks, i)) ==> Signs(s, y) && Within(r, s.tasks, y.task)
  }

  ghost predicate Awaited(r: Tree, s: Sys, i: TaskId, covered: bool) {
    covered && i < |s.tasks| && s.tasks[i].status == PENDING ==> exists f: nat :: Awaits(r, s, f, i)
  }

  lemma {:induction false} DispatchAwaits(r: Tree, s: Sys, s': Sys, i: TaskId)
    requires Extended(s, r, s') && Within(r, s'.tasks, i) && s'.tasks[i].status == PENDING
    ensures Awaits(r, s', |s.flights|, i)
  {
    var c, x := s'.flights[|s.flights|].canvas, SigOf(s'.tasks, i);
    assert SignsPending(r, s'.tasks, x);
    forall y | Precedes(c, y, x) ensures Signs(s', y) && Within(r, s'.tasks, y.task) {
      PrecedesLeaves(c, y, x);
      assert SignsPending(r, s'.tasks, y);
    }
  }

  lemma {:induction false} AsideAwaits(r: Tree, s: Sys, s': Sys, f: nat, i: TaskId)
    requires Awaits(r, s, f, i) && Within(r, s.tasks, i) && |s'.tasks| == |s.tasks|
    requires f < |s'.flights| && s'.flights[f] == s.flights[f]
    requires forall j :: Within(r, s.tasks, j) ==> s'.tasks[j] == s.tasks[j]
    ensures Awaits(r, s', f, i)
  {
  }

  lemma {:induction false} ExecutedAwaits(r: Tree, s: Sys, a: Act, s': Sys, f: nat, i: TaskId)
    requires Fits(s) && Executed(s, a, s') && Awaits(r, s, f, i) && i != a.x.task
    ensures Awaits(r, s', f, i)
  {
    ExecutedRows(s, a, s');
    HeldOn(s, a, s', f, i);
    assert s'.flights[f].canvas == s.flights[f].canvas;
  }

  lemma {:induction false} AsideAwaited(t: Tree, r: Tree, s: Sys, a: Act, s': Sys, i: TaskId, covered: bool)
    requires Step(t, s, a, s') && Dispatches(a) && Ids(a.at) !! Ids(r) && Extended(s, a.at, s')
    requires Within(r, s.tasks, i) && Awaited(r, s, i, covered)
    ensures Awaited(r, s', i, covered || Covers(s, a, i))
  {
    AsideRows(t, r, s, a, s');
    if f: nat :| Awaits(r, s, f, i) {
      assert s'.flights[f] == s'.flights[..|s.flights|][f];
      AsideAwaits(r, s, s', f, i);
    }
  }

  lemma {:induction false} HereAwaited(r: Tree, s: Sys, s': Sys, i: TaskId)
    requires Extended(s, r, s') && Within(r, s.tasks, i)
    ensures Awaited(r, s', i, true)
  {
    if s'.tasks[i].status == PENDING { DispatchAwaits(r, s, s', i); }
  }

  lemma {:induction false} ExecutedAwaited(r: Tree, s: Sys, a: Act, s': Sys, i: TaskId, covered: bool)
    requires Fits(s) && Executed(s, a, s') && Member(r, s, i) && Awaited(r, s, i, covered)
    ensures Awaited(r, s', i, covered)
  {
    if i != a.x.task {
      if f: nat :| Awaits(r, s, f, i) { ExecutedAwaits(r, s, a, s', f, i); }
    }
  }

  lemma {:induction false} StepAwaits(t: Tree, r: Tree, s: Sys, a: Act, s': Sys, i: TaskId, covered: bool)
    requires WellFormed(t) && Safe(s) && Step(t, s, a, s') && Aside(r, a) && Member(r, s, i) && Awaited(r, s, i, covered)
    ensures Awaited(r, s', i, covered || Covers(s, a, i))
  {
    if Dispatches(a) {
      DispatchExtends(t, s, a, s');
      if a.at == r { HereAwaited(r, s, s', i); } else { AsideAwaited(t, r, s, a, s', i, covered); }
    } else {
      StepExecutes(t, s, a, s');
      ExecutedAwaited(r, s, a, s', i, covered);
    }
  }

  lemma {:induction false} AlwaysAwaited(t: Tree, r: Tree, h: seq<Sys>, acts: seq<Act>, n: nat, i: TaskId)
    requires WellFormed(t) && PartBehaviour(t, r, h, acts) && n <= |acts| && Member(r, h[0], i)
    ensures Awaited(r, h[n], i, Covered(h[0], acts, n, i)) && Member(r, h[n], i)
  {
    PlacesKept(t, h, acts, n);
    SameErrors(h[0], h[n]);
    if n > 0 {
      AlwaysAwaited(t, r, h, acts, n - 1, i);
      NextAwaited(t, r, h, acts, n - 1, i);
    }
  }

  lemma {:induction false} NextAwaited(t: Tree, r: Tree, h: seq<Sys>, acts: seq<Act>, n: nat, i: TaskId)
    requires WellFormed(t) && PartBehaviour(t, r, h, acts) && n < |acts| && Member(r, h[n], i)
    requires Awaited(r, h[n], i, Covered(h[0], acts, n, i))
    ensures Awaited(r, h[n + 1], i, Covered(h[0], acts, n + 1, i))
  {
    AlwaysSafe(t, h, acts, n);
    assert Step(t, h[n], acts[n], h[n + 1]) && Aside(r, acts[n]);
    StepAwaits(t, r, h[n], acts[n], h[n + 1], i, Covered(h[0], acts, n, i));
    PlacesKept(t, h, acts, n);
    CoveredNext(h[0], h[n], acts, n + 1, i);
  }

  /** A canvas saw an error task of `r` fail under the task id it still has. */
  ghost predicate ErrorFailed(r: Tree, s: Sys) {
    exists f, y :: 0 <= f < |s.flights| && y in Leaves(s.flights[f].canvas) && Signs(s, y) && ErrorTask(s, y.task)
                   && Within(r, s.tasks, y.task) && y.taskId in s.flights[f].done && !s.flights[f].done[y.taskId]
  }

  lemma {:induction false} HeldUp(r: Tree, s: Sys, f: nat, i: TaskId)
    requires Safe(s) && AtRest(s) && Awaits(r, s, f, i) && s.tasks[i].status == PENDING && !ErrorTask(s, i)
    ensures ErrorFailed(r, s) || exists j: nat :: Member(r, s, j) && s.tasks[j].status == FAILURE
  {
    RestHoldsBack(s, f, i);
    var fl, x := s.flights[f], SigOf(s.tasks, i);
    var y :| Precedes(fl.canvas, y, x) && y.taskId in fl.done && !fl.done[y.taskId];
    PrecedesLeaves(fl.canvas, y, x);
    if !ErrorTask(s, y.task) { assert Member(r, s, y.task) && s.tasks[y.task].status == FAILURE; }
  }

  /** A history that has come to rest with no failed task in the part it ran has executed
      every pending task of the part to success exactly once, and has left alone those that
      had succeeded before. */
  lemma {:induction false} AllExactlyOnce(t: Tree, r: Tree, h: seq<Sys>, acts: seq<Act>, n: nat, i: TaskId)
    requires WellFormed(t) && PartBehaviour(t, r, h, acts) && n <= |acts| && Member(r, h[0], i)
    requires AtRest(h[n]) && Covered(h[0], acts, n, i) && !ErrorFailed(r, h[n])
    requires forall j :: Member(r, h[n], j) ==> h[n].tasks[j].status != FAILURE
    ensures h[0].tasks[i].status == PENDING ==> ExactlyOnce(h[n].log, Ended(i, true))
    ensures h[0].tasks[i].status == SUCCESS ==> Began(i) !in h[n].log
  {
    var s := h[n];
    AlwaysSafe(t, h, acts, n);
    AlwaysMinded(t, h, acts, n, i);
    AlwaysAwaited(t, r, h, acts, n, i);
    if s.tasks[i].status == PENDING {
      var f: nat :| Awaits(r, s, f, i);
      HeldUp(r, s, f, i);
    }
    NotPendingDone(s, i);
    AlwaysEarned(t, h, acts, n);
    if h[0].tasks[i].status == SUCCESS {
      NeverAgain(t, h, acts, 0, n, i);
      assert h[n].log[|h[0].log|..] == h[n].log;
    } else {
      SuccessOnce(h[0], s, i);
    }
  }

  lemma {:induction false} NotPendingDone(s: Sys, i: TaskId)
    requires AtRest(s) && i < |s.tasks| && !ErrorTask(s, i) && Accounted(s, i)
    requires s.tasks[i].status !in {PENDING, FAILURE}
    ensures s.tasks[i].status == SUCCESS
  {
    RestIsSuccess(s, i);
  }
}

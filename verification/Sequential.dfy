/** Parts without parallel steps: quiet dispatches keep their order by themselves. */
module Sequential {
  import opened Rows
  import opened Canvas
  import opened Ordering
  import opened Executor
  import opened Attempts
  import opened History
  import opened Repeats
  import opened InOrder
  import opened Once

  ghost predicate Straight(t: Tree) {
    !t.parallel && forall i :: 0 <= i < |t.steps| ==> Straight(t.steps[i])
  }

  /** Without parallel steps any two tasks are ordered, one way only. */
  lemma {:induction false} SequentialTotal(t: Tree, tasks: seq<Task>, x: TaskId, y: TaskId)
    requires WellFormed(t) && Straight(t) && Within(t, tasks, x) && Within(t, tasks, y) && x != y
    ensures HappensBefore(t, tasks, x, y) <==> !HappensBefore(t, tasks, y, x)
  {
    if Holder(t, tasks, x) == Holder(t, tasks, y) {
      var i, j := KidOf(t, tasks[x].step.value), KidOf(t, tasks[y].step.value);
      KidUnique(t, i, t.steps[i].id);
      KidUnique(t, j, t.steps[j].id);
      SequentialTotal(t.steps[i], tasks, x, y);
    }
  }

  /******* What a canvas of such a part keeps *******/

  /** What has started waited for all before it. */
  ghost predicate Chained(fl: Flight) {
    forall y, z :: Precedes(fl.canvas, z, y) && y.taskId in fl.started ==> z.taskId in fl.done && fl.done[z.taskId]
  }

  /** Any two signatures are ordered. */
  ghost predicate Linear(fl: Flight) {
    forall y, z :: y in Leaves(fl.canvas) && z in Leaves(fl.canvas) && y != z ==>
      Precedes(fl.canvas, y, z) || Precedes(fl.canvas, z, y)
  }

  /** Every canvas is chained, and those with a task of `r` are linear. */
  ghost predicate Lined(r: Tree, s: Sys) {
    && (forall f :: 0 <= f < |s.flights| ==> Chained(s.flights[f]))
    && (forall f, x :: 0 <= f < |s.flights| && x in Leaves(s.flights[f].canvas) && Within(r, s.tasks, x.task) ==>
          Linear(s.flights[f]))
  }

  /** Canvas `f` has task `x` of `r` in hand, and the unfinished task `c` comes later. */
  ghost predicate Leads(r: Tree, s: Sys, f: nat, x: Sig, c: TaskId) {
    && f < |s.flights| && InHand(s.flights[f], x) && Member(r, s, x.task) && Member(r, s, c)
    && HappensBefore(r, s.tasks, x.task, c) && s.tasks[c].status != SUCCESS
  }

  /** Then `c` is behind it in the same canvas, and may still start. */
  ghost predicate Ahead(r: Tree, s: Sys) {
    forall f: nat, x, c: TaskId :: Leads(r, s, f, x, c) ==>
      MayStart(s.flights[f], SigOf(s.tasks, c)) && Precedes(s.flights[f].canvas, x, SigOf(s.tasks, c))
  }

  /** Whatever comes before a task that runs or failed has succeeded. */
  ghost predicate Led(r: Tree, s: Sys) {
    forall w: nat, c: nat | Member(r, s, w) && Member(r, s, c) && HappensBefore(r, s.tasks, w, c)
      && s.tasks[c].status in {STARTED, FAILURE} :: s.tasks[w].status == SUCCESS
  }

  /** The tasks of `r` are pending, done, failed, or run in some canvas. */
  ghost predicate AllMinded(r: Tree, s: Sys) {
    forall i: nat :: Member(r, s, i) ==> Minded(s, i, false)
  }

  ghost predicate InLine(r: Tree, s: Sys) { Lined(r, s) && Ahead(r, s) && Led(r, s) }

  /******* Executing *******/

  lemma {:induction false} ChainedStays(s: Sys, a: Act, s': Sys, f: nat)
    requires Fits(s) && Flown(s, a, s') && f < |s.flights| && Chained(s.flights[f])
    requires a.Start? ==> Unblocked(s.flights[a.f].canvas, s.flights[a.f].done, a.x)
    ensures Chained(s'.flights[f])
  {
    if Flies(a) && f == a.f {
      var fl, fl' := s.flights[f], s'.flights[f];
      assert Fit(fl, s.next);
      forall y, z | Precedes(fl'.canvas, z, y) && y.taskId in fl'.started ensures z.taskId in fl'.done && fl'.done[z.taskId] {
        PrecedesLeaves(fl.canvas, z, y);
        if y.taskId !in fl.started { assert y == a.x; }
      }
    }
  }

  lemma {:induction false} ExecutedLined(r: Tree, s: Sys, a: Act, s': Sys)
    requires Fits(s) && Executed(s, a, s') && Lined(r, s)
    requires a.Start? ==> Unblocked(s.flights[a.f].canvas, s.flights[a.f].done, a.x)
    ensures Lined(r, s')
  {
    ExecutedRows(s, a, s');
    forall f | 0 <= f < |s'.flights| ensures Chained(s'.flights[f]) && s'.flights[f].canvas == s.flights[f].canvas {
      ChainedStays(s, a, s', f);
    }
    forall f, x | 0 <= f < |s'.flights| && x in Leaves(s'.flights[f].canvas) && Within(r, s'.tasks, x.task)
      ensures Linear(s'.flights[f])
    {
      assert Linear(s.flights[f]);
    }
  }

  lemma {:induction false} LedBefore(r: Tree, s: Sys, a: Act, s': Sys, f: nat, x: Sig, c: TaskId)
    requires Fits(s) && Executed(s, a, s') && Leads(r, s', f, x, c)
    ensures Leads(r, s, f, x, c)
  {
    ExecutedRows(s, a, s');
    SameErrors(s, s');
    LiveStays(s, a, s', f, x);
    OrderKept(r, s.tasks, s'.tasks, x.task, c);
  }

  /** `x` stays in hand, so what is behind it was not started. */
  lemma {:induction false} NotStarted(s: Sys, a: Act, s': Sys, x: Sig, y: Sig)
    requires Fits(s) && Flown(s, a, s') && a.Start? && Unblocked(s.flights[a.f].canvas, s.flights[a.f].done, a.x)
    requires InHand(s'.flights[a.f], x) && Precedes(s.flights[a.f].canvas, x, y) && y in Leaves(s.flights[a.f].canvas)
    ensures y.taskId != a.x.taskId
  {
    assert Fit(s.flights[a.f], s.next);
  }

  /** After a failure a linear canvas has nothing in hand. */
  lemma {:induction false} FailureEnds(s: Sys, a: Act, s': Sys, x: Sig)
    requires Fits(s) && Flown(s, a, s') && a.Finish? && !a.ok
    requires Chained(s.flights[a.f]) && Linear(s.flights[a.f])
    ensures !InHand(s'.flights[a.f], x)
  {
    if InHand(s'.flights[a.f], x) {
      LiveStays(s, a, s', a.f, x);
    }
  }

  lemma {:induction false} StaysAhead(r: Tree, s: Sys, a: Act, s': Sys, f: nat, x: Sig, c: TaskId)
    requires Fits(s) && Executed(s, a, s') && Lined(r, s) && Ahead(r, s) && Leads(r, s', f, x, c)
    requires a.Start? ==> Unblocked(s.flights[a.f].canvas, s.flights[a.f].done, a.x)
    ensures MayStart(s'.flights[f], SigOf(s'.tasks, c)) && Precedes(s'.flights[f].canvas, x, SigOf(s'.tasks, c))
  {
    LedBefore(r, s, a, s', f, x, c);
    ExecutedRows(s, a, s');
    var y := SigOf(s.tasks, c);
    if Flies(a) && f == a.f {
      if a.Finish? && !a.ok {
        FailureEnds(s, a, s', x);
      } else {
        if a.Start? { NotStarted(s, a, s', x, y); }
        FlightMayStart(s, a, s', y);
      }
    }
  }

  lemma {:induction false} FlightMayStart(s: Sys, a: Act, s': Sys, y: Sig)
    requires Fits(s) && Flown(s, a, s') && Flies(a) && MayStart(s.flights[a.f], y)
    requires a.Start? ==> y.taskId != a.x.taskId
    requires a.Finish? ==> a.ok
    ensures MayStart(s'.flights[a.f], y)
  {
    var fl, fl' := s.flights[a.f], s'.flights[a.f];
    forall z | Precedes(fl'.canvas, z, y) ensures !(z.taskId in fl'.done && !fl'.done[z.taskId]) {
      PrecedesLeaves(fl.canvas, z, y);
      assert Fit(fl, s.next);
    }
  }

  lemma {:induction false} ExecutedLed(t: Tree, r: Tree, base: Sys, s: Sys, a: Act, s': Sys)
    requires Safe(s) && Step(t, s, a, s') && Executed(s, a, s') && Waits(r, base, s) && SamePlaced(base, s) && Led(r, s)
    ensures Led(r, s')
  {
    ExecutedRows(s, a, s');
    SameErrors(s, s');
    forall w: nat, c: nat | Member(r, s', w) && Member(r, s', c) && HappensBefore(r, s'.tasks, w, c)
      && s'.tasks[c].status in {STARTED, FAILURE} ensures s'.tasks[w].status == SUCCESS
    {
      OrderKept(r, s.tasks, s'.tasks, w, c);
      if c == a.x.task && a.Start? { LedAtStart(t, r, base, s, a, s', w); }
    }
  }

  lemma {:induction false} LedAtStart(t: Tree, r: Tree, base: Sys, s: Sys, a: Act, s': Sys, w: TaskId)
    requires Safe(s) && Step(t, s, a, s') && Executed(s, a, s') && Waits(r, base, s) && SamePlaced(base, s)
    requires a.Start? && Member(r, s, w) && Member(r, s, a.x.task) && HappensBefore(r, s.tasks, w, a.x.task)
    ensures s.tasks[w].status == SUCCESS
  {
    SameErrors(base, s);
    OrderKept(r, base.tasks, s.tasks, w, a.x.task);
    BeginsInOrder(t, r, base, s, a, s', w);
  }

  lemma {:induction false} ExecutedInLine(t: Tree, r: Tree, base: Sys, s: Sys, a: Act, s': Sys)
    requires Safe(s) && Step(t, s, a, s') && Executed(s, a, s') && Ordered(r, base, s) && InLine(r, s)
    ensures InLine(r, s')
  {
    if a.Start? { ReadyIff(s.flights[a.f].canvas, s.flights[a.f].done, a.x); }
    ExecutedLined(r, s, a, s');
    ExecutedLed(t, r, base, s, a, s');
    forall f: nat, x, c: TaskId | Leads(r, s', f, x, c)
      ensures MayStart(s'.flights[f], SigOf(s'.tasks, c)) && Precedes(s'.flights[f].canvas, x, SigOf(s'.tasks, c))
    {
      StaysAhead(r, s, a, s', f, x, c);
    }
  }

  /******* Dispatching *******/

  /** A run of `r` leaves out a failed task of the step itself before one it signs. */
  ghost predicate PassesFailed(r: Tree, s: Sys, a: Act) {
    exists w: TaskId, c: TaskId :: LeavesOut(r, s, a, w, c) && a.Run?
      && s.tasks[w].step == Some(r.id) && s.tasks[w].status == FAILURE
  }

  /** To leave out a task that runs before one that is signed is not quiet. */
  lemma {:induction false} RunningIsLoud(r: Tree, s: Sys, a: Act, f: nat, w: TaskId, c: TaskId)
    requires Ahead(r, s) && LeavesOut(r, s, a, w, c) && Runs(s, f, w)
    ensures !Quiet(s, a)
  {
    assert Leads(r, s, f, SigOf(s.tasks, w), c);
    assert InTree(s.tasks[c], a.at) && MayStart(s.flights[f], SigOf(s.tasks, c));
  }

  /** In a straight part a quiet dispatch leaves out only failed tasks, and only when it runs. */
  lemma {:induction false} StraightInSequence(r: Tree, s: Sys, a: Act)
    requires Ahead(r, s) && Quiet(s, a) && AllMinded(r, s)
    ensures InSequence(r, s, a) <==> !PassesFailed(r, s, a)
  {
    if w: TaskId, c: TaskId :| LeavesOut(r, s, a, w, c) {
      if s.tasks[w].status == STARTED {
        var f: nat :| Runs(s, f, w);
        RunningIsLoud(r, s, a, f, w, c);
      }
    }
  }

  lemma {:induction false} NewLinear(r: Tree, tasks: seq<Task>, fl: Flight)
    requires WellFormed(r) && Straight(r) && (fl.canvas == Plan(r, tasks) || fl.canvas == RunPlan(r, tasks))
    ensures Linear(fl)
  {
    PlanCurrent(r, tasks);
    forall y, z | y in Leaves(fl.canvas) && z in Leaves(fl.canvas) && y != z
      ensures Precedes(fl.canvas, y, z) || Precedes(fl.canvas, z, y)
    {
      assert SignsPending(r, tasks, y) && SignsPending(r, tasks, z);
      SequentialTotal(r, tasks, y.task, z.task);
      if HappensBefore(r, tasks, y.task, z.task) {
        PlanCovers(r, tasks, y.task, z.task);
      } else {
        PlanCovers(r, tasks, z.task, y.task);
      }
    }
  }

  lemma {:induction false} DispatchLined(t: Tree, r: Tree, s: Sys, a: Act, s': Sys)
    requires WellFormed(t) && Straight(r) && Step(t, s, a, s') && Dispatches(a) && Aside(r, a) && Lined(r, s)
    ensures Lined(r, s')
  {
    DispatchExtends(t, s, a, s');
    var n := |s.flights|;
    assert forall f :: 0 <= f < n ==> s'.flights[f] == s'.flights[..n][f];
    if a.at == r { NewLinear(r, s'.tasks, s'.flights[n]); }
    forall f, x | 0 <= f < |s'.flights| && x in Leaves(s'.flights[f].canvas) && Within(r, s'.tasks, x.task)
      ensures Linear(s'.flights[f])
    {
      if f < n {
        assert Within(r, s.tasks, x.task);
      } else {
        assert SignsPending(a.at, s'.tasks, x);
      }
    }
  }

  /** Rows keep their place, and successes stay what they are. */
  lemma {:induction false} DispatchRows(t: Tree, s: Sys, a: Act, s': Sys)
    requires Step(t, s, a, s') && Dispatches(a)
    ensures SamePlaced(s, s') && |s'.tasks| == |s.tasks|
    ensures forall i: nat | i < |s.tasks| :: s'.tasks[i].status == SUCCESS <==> s.tasks[i].status == SUCCESS
    ensures forall i: nat | i < |s.tasks| && s'.tasks[i].status in {STARTED, FAILURE} :: s'.tasks[i] == s.tasks[i]
  {
  }

  lemma {:induction false} DispatchLed(t: Tree, r: Tree, s: Sys, a: Act, s': Sys)
    requires Step(t, s, a, s') && Dispatches(a) && Led(r, s)
    ensures Led(r, s')
  {
    DispatchRows(t, s, a, s');
    SameErrors(s, s');
    forall w: nat, c: nat | Member(r, s', w) && Member(r, s', c) && HappensBefore(r, s'.tasks, w, c)
      && s'.tasks[c].status in {STARTED, FAILURE} ensures s'.tasks[w].status == SUCCESS
    {
      OrderKept(r, s.tasks, s'.tasks, w, c);
    }
  }

  lemma {:induction false} LedBeforeDispatch(t: Tree, r: Tree, s: Sys, a: Act, s': Sys, f: nat, x: Sig, c: TaskId)
    requires Step(t, s, a, s') && Dispatches(a) && f < |s.flights| && Leads(r, s', f, x, c)
    ensures Leads(r, s, f, x, c)
  {
    DispatchRows(t, s, a, s');
    SameErrors(s, s');
    OrderKept(r, s.tasks, s'.tasks, x.task, c);
    assert s'.flights[f] == s.flights[f];
  }

  /** While a task of `r` is in hand with an unfinished one after it, no dispatch of `r` is quiet. */
  lemma {:induction false} LeadsIsLoud(r: Tree, s: Sys, f: nat, x: Sig, c: TaskId)
    requires Ahead(r, s) && Leads(r, s, f, x, c)
    ensures !Clear(s, r)
  {
    assert InTree(s.tasks[c], r) && MayStart(s.flights[f], SigOf(s.tasks, c));
  }

  lemma {:induction false} NewAhead(t: Tree, r: Tree, s: Sys, a: Act, s': Sys, x: Sig, c: TaskId)
    requires WellFormed(t) && Step(t, s, a, s') && Dispatches(a) && a.at == r && Led(r, s')
    requires Minded(s', c, false) && Leads(r, s', |s.flights|, x, c)
    ensures var fl := s'.flights[|s.flights|];
            MayStart(fl, SigOf(s'.tasks, c)) && Precedes(fl.canvas, x, SigOf(s'.tasks, c))
  {
    DispatchExtends(t, s, a, s');
    assert SignsPending(r, s'.tasks, x);
    assert s'.tasks[c].status == PENDING;
    assert SignsPending(r, s'.tasks, SigOf(s'.tasks, c));
    PlanCovers(r, s'.tasks, x.task, c);
  }

  lemma {:induction false} DispatchAhead(t: Tree, r: Tree, s: Sys, a: Act, s': Sys)
    requires WellFormed(t) && Step(t, s, a, s') && Dispatches(a) && Aside(r, a) && Quiet(s, a)
    requires Ahead(r, s) && Led(r, s') && AllMinded(r, s')
    ensures Ahead(r, s')
  {
    DispatchExtends(t, s, a, s');
    forall f: nat, x, c: TaskId | Leads(r, s', f, x, c)
      ensures MayStart(s'.flights[f], SigOf(s'.tasks, c)) && Precedes(s'.flights[f].canvas, x, SigOf(s'.tasks, c))
    {
      if f < |s.flights| {
        LedBeforeDispatch(t, r, s, a, s', f, x, c);
        OldAhead(t, r, s, a, s', f, x, c);
      } else {
        SignedIsHere(r, s, s, a.at, s', x);
        NewAhead(t, r, s, a, s', x, c);
      }
    }
  }

  lemma {:induction false} OldAhead(t: Tree, r: Tree, s: Sys, a: Act, s': Sys, f: nat, x: Sig, c: TaskId)
    requires Step(t, s, a, s') && Dispatches(a) && Aside(r, a) && Quiet(s, a) && Ahead(r, s)
    requires f < |s.flights| && Leads(r, s, f, x, c)
    ensures f < |s'.flights| && c < |s'.tasks|
    ensures MayStart(s'.flights[f], SigOf(s'.tasks, c)) && Precedes(s'.flights[f].canvas, x, SigOf(s'.tasks, c))
  {
    assert s'.flights[f] == s.flights[f];
    if a.at == r { LeadsIsLoud(r, s, f, x, c); } else { AsideRows(t, r, s, a, s'); }
  }

  /******* Whole histories *******/

  lemma {:induction false} AllAreMinded(t: Tree, r: Tree, h: seq<Sys>, acts: seq<Act>, n: nat)
    requires WellFormed(t) && PartBehaviour(t, r, h, acts) && n <= |acts|
    ensures AllMinded(r, h[n])
  {
    PlacesKept(t, h, acts, n);
    SameErrors(h[0], h[n]);
    forall i: nat | Member(r, h[n], i) ensures Minded(h[n], i, false) {
      assert Member(r, h[0], i);
      AlwaysMinded(t, h, acts, n, i);
    }
  }

  lemma {:induction false} StepInLine(t: Tree, r: Tree, base: Sys, s: Sys, a: Act, s': Sys)
    requires WellFormed(t) && Straight(r) && Safe(s) && Step(t, s, a, s') && Aside(r, a) && Quiet(s, a)
    requires Ordered(r, base, s) && InLine(r, s) && AllMinded(r, s')
    ensures InLine(r, s')
  {
    if Dispatches(a) {
      DispatchLined(t, r, s, a, s');
      DispatchLed(t, r, s, a, s');
      DispatchAhead(t, r, s, a, s');
    } else {
      StepExecutes(t, s, a, s');
      ExecutedInLine(t, r, base, s, a, s');
    }
  }

  lemma {:induction false} AlwaysInLine(t: Tree, r: Tree, h: seq<Sys>, acts: seq<Act>, n: nat)
    requires WellFormed(t) && PartBehaviour(t, r, h, acts) && Straight(r) && n <= |acts|
    requires forall k :: 0 <= k < n ==> !PassesFailed(r, h[k], acts[k])
    ensures InLine(r, h[n]) && forall k :: 0 <= k < n ==> InSequence(r, h[k], acts[k])
  {
    if n > 0 {
      AlwaysInLine(t, r, h, acts, n - 1);
      NextInSequence(t, r, h, acts, n - 1);
      NextInLine(t, r, h, acts, n - 1);
    }
  }

  lemma {:induction false} NextInSequence(t: Tree, r: Tree, h: seq<Sys>, acts: seq<Act>, n: nat)
    requires WellFormed(t) && PartBehaviour(t, r, h, acts) && n < |acts| && Ahead(r, h[n]) && !PassesFailed(r, h[n], acts[n])
    ensures InSequence(r, h[n], acts[n])
  {
    AllAreMinded(t, r, h, acts, n);
    StraightInSequence(r, h[n], acts[n]);
  }

  lemma {:induction false} NextInLine(t: Tree, r: Tree, h: seq<Sys>, acts: seq<Act>, n: nat)
    requires WellFormed(t) && PartBehaviour(t, r, h, acts) && Straight(r) && n < |acts| && InLine(r, h[n])
    requires forall k :: 0 <= k < n ==> InSequence(r, h[k], acts[k])
    ensures InLine(r, h[n + 1])
  {
    AlwaysOrdered(t, r, h, acts, n);
    AllAreMinded(t, r, h, acts, n + 1);
    assert Step(t, h[n], acts[n], h[n + 1]) && Aside(r, acts[n]) && Quiet(h[n], acts[n]);
    StepInLine(t, r, h[0], h[n], acts[n], h[n + 1]);
  }

  /** A part without parallel steps that is resumed, or run with no failed task of its own
      step before one that is signed, executes in order: no other condition is needed. */
  lemma {:induction false} SequentialInOrder(t: Tree, r: Tree, h: seq<Sys>, acts: seq<Act>, n: nat)
    requires WellFormed(t) && PartBehaviour(t, r, h, acts) && Straight(r) && n <= |acts|
    requires forall k :: 0 <= k < n ==> !PassesFailed(r, h[k], acts[k])
    ensures LogInOrder(r, h[0], h[n].log)
  {
    AlwaysInLine(t, r, h, acts, n);
    ExecutedInOrder(t, r, h, acts, n);
  }

  /** And that one condition is exact: otherwise the executor can break the order. */
  lemma {:induction false} SequentialIff(t: Tree, r: Tree, h: seq<Sys>, acts: seq<Act>)
    requires WellFormed(t) && PartBehaviour(t, r, h, acts) && Straight(r)
    ensures (forall k :: 0 <= k < |acts| ==> !PassesFailed(r, h[k], acts[k]))
            <==> forall n, h': seq<Sys>, acts': seq<Act> :: ContinuesFrom(t, h, acts, n, h', acts')
                   ==> LogInOrder(r, h[0], h'[|acts'|].log)
  {
    InSequenceIff(t, r, h, acts);
    if k :| 0 <= k < |acts| && PassesFailed(r, h[k], acts[k]) {
      assert !InSequence(r, h[k], acts[k]);
    } else {
      AlwaysInLine(t, r, h, acts, |acts|);
    }
  }
}

/** Histories in which one step, the whole workflow or a part of it that is started on
    its own, is run and resumed: execution respects the order of its tree.  Error tasks
    begin whenever a failure calls for them; the order is that of all other tasks. */
module InOrder {
  import opened Rows
  import opened Canvas
  import opened Ordering
  import opened Executor
  import opened Attempts
  import opened History
  import opened Repeats
  import opened Specs
  import opened Pruning
  import opened Creating

  predicate Within(r: Tree, tasks: seq<Task>, x: int) { 0 <= x < |tasks| && InTree(tasks[x], r) }

  /** A task of the subtree that is no error task. */
  ghost predicate Member(r: Tree, s: Sys, x: int) { Within(r, s.tasks, x) && !ErrorTask(s, x) }

  /** The same rows up to status, progress, task id and retry link. */
  ghost predicate SamePlaces(a: seq<Task>, b: seq<Task>) {
    |a| == |b| && forall i :: 0 <= i < |a| ==>
      a[i].step == b[i].step && a[i].pos == b[i].pos && a[i].created == b[i].created
  }

  ghost predicate SamePlaced(a: Sys, b: Sys) { SamePlaces(a.tasks, b.tasks) && b.onError == a.onError }

  lemma {:induction false} OrderKept(t: Tree, a: seq<Task>, b: seq<Task>, x: TaskId, y: TaskId)
    requires SamePlaces(a, b) && Within(t, a, x) && Within(t, a, y)
    ensures HappensBefore(t, a, x, y) <==> HappensBefore(t, b, x, y)
  {
    assert Holder(t, a, x) == Holder(t, b, x) && Holder(t, a, y) == Holder(t, b, y);
    if a[x].step.value != t.id && a[y].step.value != t.id {
      var k := KidOf(t, a[x].step.value);
      if InTree(a[y], t.steps[k]) { OrderKept(t.steps[k], a, b, x, y); }
    }
  }

  lemma {:induction false} PlanCovers(t: Tree, tasks: seq<Task>, x: TaskId, y: TaskId)
    requires WellFormed(t) && Within(t, tasks, x) && Within(t, tasks, y)
    requires tasks[x].status == PENDING && tasks[y].status == PENDING && HappensBefore(t, tasks, x, y)
    ensures Precedes(Plan(t, tasks), SigOf(tasks, x), SigOf(tasks, y))
    ensures Precedes(RunPlan(t, tasks), SigOf(tasks, x), SigOf(tasks, y))
  {
    SigsInjective(tasks, Pending(tasks));
    BuildOrder(t, tasks, Pending(tasks), Sigs(tasks), false, x, y);
  }

  /******* Starting *******/

  /** A new workflow: its tasks are pending, or stored as succeeded. */
  ghost predicate Unbegun(r: Tree, s: Sys) {
    forall i :: Member(r, s, i) ==> s.tasks[i].status in {PENDING, SUCCESS}
  }

  /** A dispatch is at `r` or has no step in common with it. */
  ghost predicate Aside(r: Tree, a: Act) {
    Dispatches(a) ==> a.at == r || Ids(a.at) !! Ids(r)
  }

  /** A history of a new workflow in which step `r` is run and resumed, quietly and as a
      whole, and other parts of the workflow in any way. */
  ghost predicate PartBehaviour(t: Tree, r: Tree, h: seq<Sys>, acts: seq<Act>) {
    && Behaviour(t, h, acts) && Sub(r, t) && Unbegun(r, h[0])
    && AllQuiet(h, acts) && forall k :: 0 <= k < |acts| ==> Aside(r, acts[k])
  }

  /** What `create_workflow` leaves behind is such a start, whatever error tasks it names:
      they are rows of their steps, and only those of the workflow itself are stored as done. */
  lemma {:induction false} CreatedStarts(spec: seq<Entry>, onError: seq<Work>)
    ensures var w := CreateWorkflow(spec, onError, Db(0, [], 0, 0));
            var r, s := Pruned(w.root, w.db.tasks), Fresh(w.db.tasks, w.db.ids, CreatedErrors(spec, onError));
            && WellFormed(r) && PartBehaviour(r, r, [s], []) && InTheirStep(s.onError, s.tasks)
            && forall i: nat | i < |s.tasks| && s.tasks[i].status != PENDING ::
                 s.tasks[i].status == SUCCESS && i in ErrorsOf(s.onError, Some(w.root.id))
  {
    var w := CreateWorkflow(spec, onError, Db(0, [], 0, 0));
    WorkflowTasks(spec, onError);
    PrunedWellFormed(w.root, w.db.tasks);
    CreatedStates(spec, onError);
    FilledTheirs(spec, onError, 0, SUCCESS, Db(1, [], 1, 0));
  }

  function CreatedErrors(spec: seq<Entry>, onError: seq<Work>): OnError {
    WorkflowErrors(spec, onError, Db(0, [], 0, 0))
  }

  lemma {:induction false} CreatedStates(spec: seq<Entry>, onError: seq<Work>)
    ensures var tasks := CreateWorkflow(spec, onError, Db(0, [], 0, 0)).db.tasks;
            forall i :: 0 <= i < |tasks| ==> tasks[i].status == if i < |onError| then SUCCESS else PENDING
  {
    var started := Db(1, [], 1, 0);
    var filled := AddErrors(onError, 0, SUCCESS, started);
    var tasks := CreateWorkflow(spec, onError, Db(0, [], 0, 0)).db.tasks;
    AddErrorsMade(onError, 0, SUCCESS, started);
    FlowMade(spec, 0, filled);
    assert forall i :: 0 <= i < |filled.tasks| ==> tasks[i] == filled.tasks[i];
  }

  /******* Order *******/

  /** A dispatch of `r` signs this row. */
  predicate Signed(r: Tree, a: Act, row: Task)
    requires Dispatches(a)
  {
    if a.Run? && row.step == Some(r.id) then row.status == PENDING else Resumable(row.status)
  }

  /** Task `w` comes before task `c`, which the dispatch signs, and is left out. */
  ghost predicate LeavesOut(r: Tree, s: Sys, a: Act, w: TaskId, c: TaskId) {
    && Dispatches(a) && a.at == r
    && Member(r, s, w) && Member(r, s, c) && HappensBefore(r, s.tasks, w, c)
    && Signed(r, a, s.tasks[c]) && !Signed(r, a, s.tasks[w]) && s.tasks[w].status != SUCCESS
  }

  /** Whatever comes before a task that the dispatch signs is signed too, or has succeeded. */
  ghost predicate InSequence(r: Tree, s: Sys, a: Act) {
    forall w: TaskId, c: TaskId :: !LeavesOut(r, s, a, w, c)
  }

  /** A task began only after all before it had succeeded, in the history or at its start. */
  ghost predicate LogInOrder(r: Tree, base: Sys, log: seq<Event>) {
    forall k, w | 0 <= k < |log| && log[k].Began? && Member(r, base, log[k].task) && Member(r, base, w)
      && HappensBefore(r, base.tasks, w, log[k].task) :: base.tasks[w].status == SUCCESS || Ended(w, true) in log[..k]
  }

  /** A signature that may start waits for all before it that have not succeeded. */
  ghost predicate Waits(r: Tree, base: Sys, s: Sys) {
    forall f, x, w | 0 <= f < |s.flights| && MayStart(s.flights[f], x) && Member(r, base, x.task) && Member(r, base, w)
      && HappensBefore(r, base.tasks, w, x.task) && w < |s.tasks| ::
      s.tasks[w].status == SUCCESS || Precedes(s.flights[f].canvas, SigOf(s.tasks, w), x)
  }

  /** A success is in the log or was there at the start. */
  ghost predicate Earned(base: Sys, s: Sys) {
    |base.tasks| == |s.tasks| && forall i: nat | i < |s.tasks| && s.tasks[i].status == SUCCESS ::
      base.tasks[i].status == SUCCESS || Ended(i, true) in s.log
  }

  ghost predicate Ordered(r: Tree, base: Sys, s: Sys) {
    SamePlaced(base, s) && Waits(r, base, s) && LogInOrder(r, base, s.log) && Earned(base, s)
  }

  /** The rows that a dispatch of `r` leaves pending are those it signs. */
  lemma {:induction false} SignedRows(t: Tree, r: Tree, s: Sys, a: Act, s': Sys)
    requires Step(t, s, a, s') && Dispatches(a) && a.at == r
    ensures |s'.tasks| == |s.tasks| && SamePlaces(s.tasks, s'.tasks)
    ensures forall i :: Within(r, s.tasks, i) ==>
              Within(r, s'.tasks, i) && (s'.tasks[i].status == PENDING <==> Signed(r, a, s.tasks[i]))
    ensures forall i: nat | i < |s.tasks| :: s'.tasks[i].status == SUCCESS <==> s.tasks[i].status == SUCCESS
  {
  }

  lemma {:induction false} NewWaits(t: Tree, r: Tree, base: Sys, s: Sys, a: Act, s': Sys, x: Sig, w: TaskId)
    requires WellFormed(t) && Step(t, s, a, s') && Dispatches(a) && a.at == r && InSequence(r, s, a)
    requires SamePlaced(base, s) && SignsPending(r, s'.tasks, x)
    requires Member(r, base, x.task) && Member(r, base, w) && HappensBefore(r, base.tasks, w, x.task)
    ensures w < |s'.tasks| && |s'.flights| == |s.flights| + 1
    ensures s'.tasks[w].status == SUCCESS || Precedes(s'.flights[|s.flights|].canvas, SigOf(s'.tasks, w), x)
  {
    SubIds(r, t);
    TakenAlong(t, r, base, s, a, s', x.task, w);
    if s'.tasks[w].status == PENDING { PlanCovers(r, s'.tasks, w, x.task); }
  }

  lemma {:induction false} TakenAlong(t: Tree, r: Tree, base: Sys, s: Sys, a: Act, s': Sys, c: TaskId, w: TaskId)
    requires Step(t, s, a, s') && Dispatches(a) && a.at == r && InSequence(r, s, a)
    requires SamePlaced(base, s) && Member(r, base, c) && Member(r, base, w) && HappensBefore(r, base.tasks, w, c)
    requires c < |s'.tasks| && s'.tasks[c].status == PENDING
    ensures w < |s'.tasks| && s'.tasks[w].status in {PENDING, SUCCESS}
    ensures Within(r, s'.tasks, w) && Within(r, s'.tasks, c) && HappensBefore(r, s'.tasks, w, c)
  {
    SignedRows(t, r, s, a, s');
    OrderKept(r, base.tasks, s.tasks, w, c);
    OrderKept(r, base.tasks, s'.tasks, w, c);
    SameErrors(base, s);
    assert !LeavesOut(r, s, a, w, c);
  }

  lemma {:induction false} AsideRows(t: Tree, r: Tree, s: Sys, a: Act, s': Sys)
    requires Step(t, s, a, s') && Dispatches(a) && Ids(a.at) !! Ids(r)
    ensures |s'.tasks| == |s.tasks| && SamePlaces(s.tasks, s'.tasks)
    ensures forall i :: Within(r, s.tasks, i) ==> s'.tasks[i] == s.tasks[i]
    ensures forall i: nat | i < |s.tasks| :: s'.tasks[i].status == SUCCESS <==> s.tasks[i].status == SUCCESS
  {
  }

  lemma {:induction false} NotHere(r: Tree, base: Sys, s: Sys, a: Act, f: nat, x: Sig)
    requires Dispatches(a) && Clear(s, a.at) && SamePlaced(base, s)
    requires f < |s.flights| && MayStart(s.flights[f], x) && Member(r, base, x.task)
    ensures a.at != r
  {
    assert Within(r, s.tasks, x.task);
  }

  /** What an old canvas may still start of `r` waits as before. */
  lemma {:induction false} OldWaits(r: Tree, base: Sys, s: Sys, a: Act, s': Sys, f: nat, x: Sig, w: TaskId)
    requires Dispatches(a) && Clear(s, a.at) && |s'.tasks| == |s.tasks|
    requires a.at != r ==> forall i :: Within(r, s.tasks, i) ==> s'.tasks[i] == s.tasks[i]
    requires SamePlaced(base, s) && Waits(r, base, s)
    requires f < |s.flights| && MayStart(s.flights[f], x)
    requires Member(r, base, x.task) && Member(r, base, w) && HappensBefore(r, base.tasks, w, x.task)
    ensures w < |s'.tasks|
    ensures s'.tasks[w].status == SUCCESS || Precedes(s.flights[f].canvas, SigOf(s'.tasks, w), x)
  {
    NotHere(r, base, s, a, f, x);
    assert Within(r, s.tasks, w);
  }

  lemma {:induction false} DispatchWaits(t: Tree, r: Tree, base: Sys, s: Sys, a: Act, s': Sys)
    requires WellFormed(t) && Safe(s) && Step(t, s, a, s') && Dispatches(a)
    requires Aside(r, a) && Quiet(s, a) && InSequence(r, s, a)
    requires SamePlaced(base, s) && Waits(r, base, s)
    ensures Waits(r, base, s')
  {
    DispatchExtends(t, s, a, s');
    if a.at != r { AsideRows(t, r, s, a, s'); }
    var n := |s.flights|;
    forall f, x, w | 0 <= f < |s'.flights| && MayStart(s'.flights[f], x) && Member(r, base, x.task) && Member(r, base, w)
      && HappensBefore(r, base.tasks, w, x.task) && w < |s'.tasks|
      ensures s'.tasks[w].status == SUCCESS || Precedes(s'.flights[f].canvas, SigOf(s'.tasks, w), x)
    {
      if f < n {
        assert s'.flights[f] == s'.flights[..n][f] == s.flights[f];
        OldWaits(r, base, s, a, s', f, x, w);
      } else {
        SignedIsHere(r, base, s, a.at, s', x);
        NewWaits(t, r, base, s, a, s', x, w);
      }
    }
  }

  lemma {:induction false} SignedIsHere(r: Tree, base: Sys, s: Sys, at: Tree, s': Sys, x: Sig)
    requires Extended(s, at, s') && SamePlaced(base, s) && Member(r, base, x.task)
    requires at == r || Ids(at) !! Ids(r)
    requires x in Leaves(s'.flights[|s.flights|].canvas)
    ensures at == r && SignsPending(r, s'.tasks, x)
  {
    assert SignsPending(at, s'.tasks, x);
  }

  lemma {:induction false} DispatchOrdered(t: Tree, r: Tree, base: Sys, s: Sys, a: Act, s': Sys)
    requires WellFormed(t) && Safe(s) && Step(t, s, a, s') && Dispatches(a)
    requires Aside(r, a) && Quiet(s, a) && InSequence(r, s, a) && Ordered(r, base, s)
    ensures Ordered(r, base, s')
  {
    DispatchWaits(t, r, base, s, a, s');
    if a.at == r { SignedRows(t, r, s, a, s'); } else { AsideRows(t, r, s, a, s'); }
  }

  lemma {:induction false} ExecutedRows(s: Sys, a: Act, s': Sys)
    requires Executed(s, a, s')
    ensures SamePlaced(s, s')
    ensures forall i: nat | i < |s.tasks| :: SigOf(s'.tasks, i) == SigOf(s.tasks, i)
    ensures forall i: nat | i < |s.tasks| && i != a.x.task :: s'.tasks[i] == s.tasks[i]
    ensures forall i: nat | i < |s.tasks| && s.tasks[i].status == SUCCESS && !ErrorTask(s, i) :: s'.tasks[i].status == SUCCESS
    ensures !ErrorTask(s, a.x.task) ==> s'.tasks[a.x.task].status == Reported(a)
  {
  }

  lemma {:induction false} ExecutedWaits(r: Tree, base: Sys, s: Sys, a: Act, s': Sys)
    requires Fits(s) && Executed(s, a, s') && SamePlaced(base, s) && Waits(r, base, s)
    ensures Waits(r, base, s')
  {
    ExecutedRows(s, a, s');
    forall f, x, w | 0 <= f < |s'.flights| && MayStart(s'.flights[f], x) && Member(r, base, x.task) && Member(r, base, w)
      && HappensBefore(r, base.tasks, w, x.task) && w < |s'.tasks|
      ensures s'.tasks[w].status == SUCCESS || Precedes(s'.flights[f].canvas, SigOf(s'.tasks, w), x)
    {
      LiveStays(s, a, s', f, x);
      SameErrors(base, s);
      assert MayStart(s.flights[f], x);
      assert s'.flights[f].canvas == s.flights[f].canvas;
    }
  }

  /** When a task begins, all that is ordered before it has succeeded. */
  lemma {:induction false} BeginsInOrder(t: Tree, r: Tree, base: Sys, s: Sys, a: Act, s': Sys, w: TaskId)
    requires Safe(s) && Step(t, s, a, s') && a.Start? && Executed(s, a, s') && Waits(r, base, s) && SamePlaced(base, s)
    requires Member(r, base, a.x.task) && Member(r, base, w) && HappensBefore(r, base.tasks, w, a.x.task)
    ensures s.tasks[w].status == SUCCESS
  {
    var fl := s.flights[a.f];
    assert Fit(fl, s.next);
    StartIsLive(fl, a.x);
    ReadyIff(fl.canvas, fl.done, a.x);
    SameErrors(base, s);
    if Precedes(fl.canvas, SigOf(s.tasks, w), a.x) { HasSucceeded(s, a.f, w, a.x); }
  }

  lemma {:induction false} HasSucceeded(s: Sys, f: nat, w: TaskId, x: Sig)
    requires Known(s) && f < |s.flights| && w < |s.tasks| && !ErrorTask(s, w)
    requires Unblocked(s.flights[f].canvas, s.flights[f].done, x)
    requires Precedes(s.flights[f].canvas, SigOf(s.tasks, w), x)
    ensures s.tasks[w].status == SUCCESS
  {
    var fl, v := s.flights[f], SigOf(s.tasks, w);
    PrecedesLeaves(fl.canvas, v, x);
    assert Signs(s, v) && v.taskId in fl.done && fl.done[v.taskId];
  }

  lemma {:induction false} ExecutedLogInOrder(t: Tree, r: Tree, base: Sys, s: Sys, a: Act, s': Sys)
    requires Safe(s) && Step(t, s, a, s') && Executed(s, a, s') && Ordered(r, base, s)
    ensures LogInOrder(r, base, s'.log)
  {
    var n := |s.log|;
    forall k, w | 0 <= k < |s'.log| && s'.log[k].Began? && Member(r, base, s'.log[k].task) && Member(r, base, w)
      && HappensBefore(r, base.tasks, w, s'.log[k].task)
      ensures base.tasks[w].status == SUCCESS || Ended(w, true) in s'.log[..k]
    {
      if k < n {
        assert s'.log[..k] == s.log[..k] && s'.log[k] == s.log[k];
      } else {
        BeginsInOrder(t, r, base, s, a, s', w);
        assert s'.log[..n] == s.log;
      }
    }
  }

  lemma {:induction false} ExecutedEarned(base: Sys, s: Sys, a: Act, s': Sys)
    requires Executed(s, a, s') && Earned(base, s)
    ensures Earned(base, s')
  {
    ExecutedRows(s, a, s');
    forall i: nat | i < |s'.tasks| && s'.tasks[i].status == SUCCESS
      ensures base.tasks[i].status == SUCCESS || Ended(i, true) in s'.log
    {
      if s.tasks[i].status != SUCCESS {
        assert i == a.x.task && s'.log[|s.log|] == Ended(i, true);
      }
    }
  }

  lemma {:induction false} ExecutedOrdered(t: Tree, r: Tree, base: Sys, s: Sys, a: Act, s': Sys)
    requires Safe(s) && Step(t, s, a, s') && Executed(s, a, s') && Ordered(r, base, s)
    ensures Ordered(r, base, s')
  {
    ExecutedRows(s, a, s');
    ExecutedWaits(r, base, s, a, s');
    ExecutedLogInOrder(t, r, base, s, a, s');
    ExecutedEarned(base, s, a, s');
  }

  lemma {:induction false} AlwaysOrdered(t: Tree, r: Tree, h: seq<Sys>, acts: seq<Act>, n: nat)
    requires WellFormed(t) && PartBehaviour(t, r, h, acts) && n <= |acts|
    requires forall k :: 0 <= k < n ==> InSequence(r, h[k], acts[k])
    ensures Safe(h[n]) && Ordered(r, h[0], h[n])
  {
    AlwaysSafe(t, h, acts, n);
    if n > 0 {
      AlwaysOrdered(t, r, h, acts, n - 1);
      NextOrdered(t, r, h, acts, n - 1);
    }
  }

  lemma {:induction false} NextOrdered(t: Tree, r: Tree, h: seq<Sys>, acts: seq<Act>, n: nat)
    requires WellFormed(t) && PartBehaviour(t, r, h, acts) && n < |acts| && InSequence(r, h[n], acts[n])
    requires Safe(h[n]) && Ordered(r, h[0], h[n])
    ensures Ordered(r, h[0], h[n + 1])
  {
    assert Step(t, h[n], acts[n], h[n + 1]) && Aside(r, acts[n]) && Quiet(h[n], acts[n]);
    StepOrdered(t, r, h[0], h[n], acts[n], h[n + 1]);
  }

  lemma {:induction false} StepOrdered(t: Tree, r: Tree, base: Sys, s: Sys, a: Act, s': Sys)
    requires WellFormed(t) && Safe(s) && Step(t, s, a, s') && Quiet(s, a) && Aside(r, a) && InSequence(r, s, a)
    requires Ordered(r, base, s)
    ensures Ordered(r, base, s')
  {
    if Dispatches(a) {
      DispatchOrdered(t, r, base, s, a, s');
    } else {
      StepExecutes(t, s, a, s');
      ExecutedOrdered(t, r, base, s, a, s');
    }
  }

  /** Across any number of failures and resumes, a task begins only after every task
      that the tree orders before it has succeeded, in the history or at its start. */
  lemma {:induction false} ExecutedInOrder(t: Tree, r: Tree, h: seq<Sys>, acts: seq<Act>, n: nat)
    requires WellFormed(t) && PartBehaviour(t, r, h, acts) && n <= |acts|
    requires forall k :: 0 <= k < n ==> InSequence(r, h[k], acts[k])
    ensures LogInOrder(r, h[0], h[n].log)
  {
    AlwaysOrdered(t, r, h, acts, n);
  }

  /******* Out of order *******/

  /** The new canvas may start the one and does not hold the other. */
  lemma {:induction false} LeftOut(t: Tree, r: Tree, s: Sys, a: Act, s': Sys, w: TaskId, c: TaskId)
    requires WellFormed(t) && Safe(s) && Step(t, s, a, s') && LeavesOut(r, s, a, w, c)
    ensures Fits(s') && |s'.flights| == |s.flights| + 1 && |s'.tasks| == |s.tasks| && s'.log == s.log
    ensures MayStart(s'.flights[|s.flights|], SigOf(s'.tasks, c)) && !Touches(s'.flights[|s.flights|].canvas, w)
    ensures Ended(w, true) !in s.log
  {
    DispatchExtends(t, s, a, s');
    ExtendedFits(s, a.at, s');
    SignedRows(t, r, s, a, s');
    assert SignsPending(r, s'.tasks, SigOf(s'.tasks, c));
  }

  /** A dispatch that leaves out a task before one it signs can be followed by
      executions in which the later one begins first. */
  lemma {:induction false} DisorderFollows(t: Tree, r: Tree, h: seq<Sys>, acts: seq<Act>) returns (h': seq<Sys>,
                                           acts': seq<Act>)
    requires WellFormed(t) && PartBehaviour(t, r, h, acts) && acts != []
    requires !InSequence(r, h[|acts| - 1], acts[|acts| - 1])
    ensures Continues(t, h, acts, h', acts') && !LogInOrder(r, h[0], h'[|acts'|].log)
  {
    var n := |acts| - 1;
    var s, a, s' := h[n], acts[n], h[n + 1];
    assert Step(t, s, a, s');
    AlwaysSafe(t, h, acts, n);
    var w: TaskId, c: TaskId :| LeavesOut(r, s, a, w, c);
    LeftOut(t, r, s, a, s', w, c);
    var y, g := SigOf(s'.tasks, c), |s.flights|;
    var s1;
    h', acts', s1 := Begin(t, h, acts, g, y);
    AtStart(t, r, h, acts, n, w, c);
    OutOfOrder(r, h[0], s', s1, g, y, w, c, h'[|acts'|].log);
  }

  /** A signature that may start is brought to begin. */
  lemma {:induction false} Begin(t: Tree, h: seq<Sys>, acts: seq<Act>, g: nat, y: Sig)
    returns (h': seq<Sys>, acts': seq<Act>, s1: Sys)
    requires Path(t, h, acts) && Fits(h[|acts|]) && g < |h[|acts|].flights| && MayStart(h[|acts|].flights[g], y)
    ensures Continues(t, h, acts, h', acts') && Frame(h[|acts|], s1, g, y)
    ensures h'[|acts'|].log == s1.log + [Began(y.task)]
  {
    var h1, acts1 := Proceed(t, h, acts, g, y);
    s1 := h1[|acts1|];
    h', acts' := GoOn(t, h1, acts1, Start(g, y));
    ContinuesThen(t, h, acts, h1, acts1, h', acts');
  }

  lemma {:induction false} AtStart(t: Tree, r: Tree, h: seq<Sys>, acts: seq<Act>, n: nat, w: TaskId, c: TaskId)
    requires WellFormed(t) && Behaviour(t, h, acts) && AllQuiet(h, acts) && n <= |acts|
    requires Member(r, h[n], w) && Member(r, h[n], c) && HappensBefore(r, h[n].tasks, w, c)
    requires h[n].tasks[w].status != SUCCESS
    ensures Member(r, h[0], w) && Member(r, h[0], c) && HappensBefore(r, h[0].tasks, w, c)
    ensures h[0].tasks[w].status != SUCCESS
  {
    PlacesKept(t, h, acts, n);
    SameErrors(h[0], h[n]);
    if h[0].tasks[w].status == SUCCESS { NeverAgain(t, h, acts, 0, n, w); }
    OrderKept(r, h[0].tasks, h[n].tasks, w, c);
  }

  lemma {:induction false} OutOfOrder(r: Tree, base: Sys, s: Sys, s1: Sys, g: nat, y: Sig, w: TaskId, c: TaskId,
                                      log: seq<Event>)
    requires Frame(s, s1, g, y) && !Touches(s.flights[g].canvas, w) && Ended(w, true) !in s.log
    requires Member(r, base, w) && Member(r, base, c) && HappensBefore(r, base.tasks, w, c) && base.tasks[w].status != SUCCESS
    requires log == s1.log + [Began(c)]
    ensures !LogInOrder(r, base, log)
  {
    forall k | 0 <= k < |s1.log| ensures s1.log[k] != Ended(w, true) {
      if k < |s.log| {
        assert s.log[k] == s1.log[k];
      } else {
        assert Touches(s.flights[g].canvas, s1.log[k].task);
      }
    }
    assert log[|s1.log|] == Began(c) && log[..|s1.log|] == s1.log;
  }

  lemma {:induction false} StepPlaces(t: Tree, s: Sys, a: Act, s': Sys)
    requires Step(t, s, a, s')
    ensures SamePlaced(s, s')
  {
    if Dispatches(a) { DispatchPlaces(t, s, a, s'); } else { ReportPlaces(s.tasks, a.x.taskId, Reported(a)); }
  }

  lemma {:induction false} DispatchPlaces(t: Tree, s: Sys, a: Act, s': Sys)
    requires Step(t, s, a, s') && Dispatches(a)
    ensures SamePlaced(s, s')
  {
  }

  lemma {:induction false} ReportPlaces(tasks: seq<Task>, id: Uuid, st: State)
    ensures SamePlaces(tasks, Report(tasks, id, st))
  {
  }

  lemma {:induction false} PlacesKept(t: Tree, h: seq<Sys>, acts: seq<Act>, n: nat)
    requires Path(t, h, acts) && n <= |acts|
    ensures SamePlaced(h[0], h[n])
  {
    if n > 0 {
      PlacesKept(t, h, acts, n - 1);
      assert Step(t, h[n - 1], acts[n - 1], h[n - 1 + 1]);
      StepPlaces(t, h[n - 1], acts[n - 1], h[n]);
    }
  }

  /** Quiet dispatches keep the order exactly when each takes along all that comes
      before what it signs: a task before one it signs that still runs, or failed in
      the step itself when it is run and not resumed, is not waited for. */
  lemma {:induction false} InSequenceIff(t: Tree, r: Tree, h: seq<Sys>, acts: seq<Act>)
    requires WellFormed(t) && PartBehaviour(t, r, h, acts)
    ensures (forall k :: 0 <= k < |acts| ==> InSequence(r, h[k], acts[k]))
            <==> forall n, h': seq<Sys>, acts': seq<Act> :: ContinuesFrom(t, h, acts, n, h', acts')
                   ==> LogInOrder(r, h[0], h'[|acts'|].log)
  {
    if k :| 0 <= k < |acts| && !InSequence(r, h[k], acts[k]) {
      var h', acts' := DisorderAt(t, r, h, acts, k);
    } else {
      forall n: nat, h': seq<Sys>, acts': seq<Act> | ContinuesFrom(t, h, acts, n, h', acts')
        ensures LogInOrder(r, h[0], h'[|acts'|].log)
      {
        SequenceContinues(t, r, h, acts, n, h', acts');
      }
    }
  }

  lemma {:induction false} DisorderAt(t: Tree, r: Tree, h: seq<Sys>, acts: seq<Act>, k: nat)
    returns (h': seq<Sys>, acts': seq<Act>)
    requires WellFormed(t) && PartBehaviour(t, r, h, acts) && k < |acts| && !InSequence(r, h[k], acts[k])
    ensures ContinuesFrom(t, h, acts, k + 1, h', acts') && !LogInOrder(r, h[0], h'[|acts'|].log)
  {
    var n := k + 1;
    PrefixBehaves(t, r, h, acts, n);
    h', acts' := DisorderFollows(t, r, h[..n + 1], acts[..n]);
  }

  lemma {:induction false} PrefixBehaves(t: Tree, r: Tree, h: seq<Sys>, acts: seq<Act>, n: nat)
    requires PartBehaviour(t, r, h, acts) && n <= |acts|
    ensures PartBehaviour(t, r, h[..n + 1], acts[..n])
  {
    var h0, acts0 := h[..n + 1], acts[..n];
    forall i | 0 <= i < n ensures Step(t, h0[i], acts0[i], h0[i + 1]) && Quiet(h0[i], acts0[i]) && Aside(r, acts0[i]) {
      assert Step(t, h[i], acts[i], h[i + 1]) && Quiet(h[i], acts[i]) && Aside(r, acts[i]);
    }
  }

  lemma {:induction false} SequenceContinues(t: Tree, r: Tree, h: seq<Sys>, acts: seq<Act>, n: nat,
                                             h': seq<Sys>, acts': seq<Act>)
    requires WellFormed(t) && PartBehaviour(t, r, h, acts) && ContinuesFrom(t, h, acts, n, h', acts')
    requires forall k :: 0 <= k < |acts| ==> InSequence(r, h[k], acts[k])
    ensures LogInOrder(r, h[0], h'[|acts'|].log)
  {
    var h0, acts0 := h[..n + 1], acts[..n];
    forall k | 0 <= k < |acts'| ensures Quiet(h'[k], acts'[k]) && Aside(r, acts'[k]) && InSequence(r, h'[k], acts'[k]) {
      if k < n {
        assert h'[k] == h0[k] == h[k] && acts'[k] == acts0[k] == acts[k];
      } else {
        assert !Dispatches(acts'[k]);
      }
    }
    assert h'[0] == h0[0] == h[0];
    ExecutedInOrder(t, r, h', acts', |acts'|);
  }
}

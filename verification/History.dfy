/** Whole histories of running, failing and resuming a workflow.

    Any step may be run or resumed at any time, also while the executor is still at
    work on canvases it was given before.  When a signature fails, the error tasks
    linked to it are called; they run under their own task ids, beside the canvases. */
module History {
  import opened Rows
  import opened Canvas
  import opened Ordering
  import opened Executor
  import opened Attempts

  /** A task begins, or ends in success or failure. */
  datatype Event = Began(task: TaskId) | Ended(task: TaskId, ok: bool)

  /** A canvas handed to the executor for step `at`, the signatures of all rows as they were
      then, which signatures of the canvas it has started, and its results. */
  datatype Flight = Flight(at: StepId, sigs: seq<Sig>, canvas: Canvas, started: set<Uuid>, done: Results)

  /** The task rows, the next fresh task id, the canvases handed out, the error tasks of
      each step, the error signatures called for and at work, and what happened. */
  datatype Sys = Sys(tasks: seq<Task>, next: Uuid, flights: seq<Flight>, onError: OnError,
                     called: multiset<Sig>, handling: multiset<Sig>, log: seq<Event>)

  datatype Act =
    | Resume(at: Tree) | Run(at: Tree)
    | Start(f: nat, x: Sig) | Finish(f: nat, x: Sig, ok: bool)
    | StartError(x: Sig) | FinishError(x: Sig, ok: bool)

  predicate Dispatches(a: Act) { a.Resume? || a.Run? }

  /** The act concerns a signature of a canvas. */
  predicate Flies(a: Act) { a.Start? || a.Finish? }

  /******* Error tasks *******/

  function ErrorsOf(onError: OnError, d: Option<StepId>): set<TaskId> {
    if d.Some? && d.value in onError then onError[d.value] else {}
  }

  /** Task `i` stands in `on_error` of some step. */
  ghost predicate ErrorTask(s: Sys, i: TaskId) { exists d :: i in ErrorsOf(s.onError, Some(d)) }

  /** The error signatures linked to `x`: those of its step, and those of the step that the
      canvas was made for. */
  function Linked(onError: OnError, fl: Flight, x: Sig): set<Sig> {
    set e | e in ErrorsOf(onError, x.step) + ErrorsOf(onError, Some(fl.at)) && e < |fl.sigs| :: fl.sigs[e]
  }

  /******* Steps *******/

  ghost predicate CanStart(fl: Flight, x: Sig) {
    Ready(fl.canvas, fl.done, x) && x.taskId !in fl.started
  }

  ghost predicate Running(fl: Flight, x: Sig) {
    x in Leaves(fl.canvas) && x.taskId in fl.started && x.taskId !in fl.done
  }

  /** The tasks `ids` are reset and a new canvas is handed out. */
  ghost predicate Dispatched(at: StepId, ids: set<StepId>, c: Canvas, s: Sys, s': Sys) {
    && ResetIn(ids, s.next, s.tasks, s'.tasks)
    && s.next <= s'.next && UniqueIds(s'.tasks, s'.next)
    && s' == s.(tasks := s'.tasks, next := s'.next,
                flights := s.flights + [Flight(at, Sigs(s'.tasks), c, {}, map[])])
  }

  ghost predicate Enabled(s: Sys, a: Act) {
    match a
    case Start(f, x) => f < |s.flights| && CanStart(s.flights[f], x)
    case Finish(f, x, _) => f < |s.flights| && Running(s.flights[f], x)
    case StartError(x) => x in s.called
    case FinishError(x, _) => x in s.handling
    case _ => false
  }

  function Reported(a: Act): State
    requires !Dispatches(a)
  {
    if a.Start? || a.StartError? then STARTED else if a.ok then SUCCESS else FAILURE
  }

  function Logged(a: Act): Event
    requires !Dispatches(a)
  {
    if a.Start? || a.StartError? then Began(a.x.task) else Ended(a.x.task, a.ok)
  }

  /** Starting and finishing are reported by task id, to whatever row has it.  A failure in
      a canvas calls for what is linked to the signature. */
  function After(s: Sys, a: Act): Sys
    requires !Dispatches(a) && (Flies(a) ==> a.f < |s.flights|)
  {
    var told := s.(tasks := Report(s.tasks, a.x.taskId, Reported(a)), log := s.log + [Logged(a)]);
    match a
    case Start(f, x) =>
      told.(flights := s.flights[f := s.flights[f].(started := s.flights[f].started + {x.taskId})])
    case Finish(f, x, ok) =>
      told.(flights := s.flights[f := s.flights[f].(done := s.flights[f].done[x.taskId := ok])],
            called := if ok then s.called else s.called + multiset(Linked(s.onError, s.flights[f], x)))
    case StartError(x) => told.(called := s.called - multiset{x}, handling := s.handling + multiset{x})
    case FinishError(x, _) => told.(handling := s.handling - multiset{x})
  }

  ghost predicate Step(t: Tree, s: Sys, a: Act, s': Sys) {
    match a
    case Resume(at) => Sub(at, t) && Dispatched(at.id, Ids(at), Plan(at, s'.tasks), s, s')
    case Run(at) => Sub(at, t) && Dispatched(at.id, Ids(at) - {at.id}, RunPlan(at, s'.tasks), s, s')
    case _ => Enabled(s, a) && s' == After(s, a)
  }

  ghost predicate Path(t: Tree, h: seq<Sys>, acts: seq<Act>) {
    |h| == |acts| + 1 && forall k :: 0 <= k < |acts| ==> Step(t, h[k], acts[k], h[k + 1])
  }

  /** Nothing was handed out yet. */
  function Fresh(tasks: seq<Task>, next: Uuid, onError: OnError): Sys {
    Sys(tasks, next, [], onError, multiset{}, multiset{}, [])
  }

  ghost predicate Initial(s: Sys) { UniqueIds(s.tasks, s.next) && s == Fresh(s.tasks, s.next, s.onError) }

  ghost predicate Behaviour(t: Tree, h: seq<Sys>, acts: seq<Act>) { Path(t, h, acts) && Initial(h[0]) }

  /******* Quiet dispatches *******/

  /** The executor may still start `x`: it has not, and nothing before it failed. */
  ghost predicate MayStart(fl: Flight, x: Sig) {
    && x in Leaves(fl.canvas) && x.taskId !in fl.started
    && forall y :: Precedes(fl.canvas, y, x) ==> !(y.taskId in fl.done && !fl.done[y.taskId])
  }

  /** No signature of the subtree may still start, but for those of error tasks. */
  ghost predicate Clear(s: Sys, at: Tree) {
    forall f, x | 0 <= f < |s.flights| && MayStart(s.flights[f], x) && x.task < |s.tasks| && !ErrorTask(s, x.task) ::
      !InTree(s.tasks[x.task], at)
  }

  /** A dispatch finds no such signature of its subtree. */
  ghost predicate Quiet(s: Sys, a: Act) {
    Dispatches(a) ==> Clear(s, a.at)
  }

  ghost predicate AllQuiet(h: seq<Sys>, acts: seq<Act>)
    requires |h| == |acts| + 1
  {
    forall k :: 0 <= k < |acts| ==> Quiet(h[k], acts[k])
  }

  /******* What every history keeps *******/

  /** The results are those of started signatures of the canvas. */
  ghost predicate Fit(fl: Flight, next: Uuid) {
    && Distinct(Leaves(fl.canvas))
    && (forall x, y :: x in Leaves(fl.canvas) && y in Leaves(fl.canvas) && x.taskId == y.taskId ==> x == y)
    && (forall x :: x in Leaves(fl.canvas) ==> x.taskId < next)
    && fl.done.Keys <= fl.started
  }

  ghost predicate InHand(fl: Flight, x: Sig) { MayStart(fl, x) || Running(fl, x) }

  /** No other row has the task id of `x`. */
  ghost predicate Owned(s: Sys, x: Sig) {
    && x.task < |s.tasks| && x.taskId < s.next
    && forall i :: 0 <= i < |s.tasks| && s.tasks[i].celeryId == x.taskId ==> i == x.task
  }

  ghost predicate OwnsSigs(s: Sys, sigs: seq<Sig>) {
    |sigs| == |s.tasks| && forall i :: 0 <= i < |sigs| ==> sigs[i].task == i && Owned(s, sigs[i])
  }

  /** What was called for, or is at work, signs an error task. */
  ghost predicate CallsErrors(s: Sys) {
    forall x :: x in s.called || x in s.handling ==> Owned(s, x) && ErrorTask(s, x.task)
  }

  ghost predicate Fits(s: Sys) {
    && UniqueIds(s.tasks, s.next) && CallsErrors(s)
    && (forall f :: 0 <= f < |s.flights| ==> Fit(s.flights[f], s.next) && OwnsSigs(s, s.flights[f].sigs))
    && (forall f, x :: 0 <= f < |s.flights| && x in Leaves(s.flights[f].canvas) ==> Owned(s, x))
  }

  /** A row that a dispatch changes was resumable, lies in its subtree, and is now pending
      under a fresh id. */
  ghost predicate Kept(s: Sys, at: Tree, s': Sys) {
    && |s'.tasks| == |s.tasks| && s.next <= s'.next
    && forall i: nat | i < |s.tasks| ::
         && s'.tasks[i].step == s.tasks[i].step
         && (s'.tasks[i] == s.tasks[i]
             || (InTree(s.tasks[i], at) && Resumable(s.tasks[i].status)
                 && s'.tasks[i].status == PENDING && s'.tasks[i].celeryId >= s.next))
  }

  /** After a dispatch: what was handed out before, and a canvas with every pending task
      of the subtree, once. */
  ghost predicate Extended(s: Sys, at: Tree, s': Sys) {
    && Kept(s, at, s') && |s'.flights| == |s.flights| + 1 && s'.flights[..|s.flights|] == s.flights
    && s'.flights[|s.flights|].started == {} && s'.flights[|s.flights|].done == map[]
    && s'.flights[|s.flights|].sigs == Sigs(s'.tasks)
    && s'.log == s.log && s'.onError == s.onError && s'.called == s.called && s'.handling == s.handling
    && var c := s'.flights[|s.flights|].canvas;
       Distinct(Leaves(c)) && forall x :: x in Leaves(c) <==> SignsPending(at, s'.tasks, x)
  }

  lemma {:induction false} DispatchKeeps(t: Tree, s: Sys, a: Act, s': Sys)
    requires Step(t, s, a, s') && Dispatches(a)
    ensures Kept(s, a.at, s') && UniqueIds(s'.tasks, s'.next)
  {
  }

  lemma {:induction false} DispatchExtends(t: Tree, s: Sys, a: Act, s': Sys)
    requires WellFormed(t) && Step(t, s, a, s') && Dispatches(a)
    ensures WellFormed(a.at) && Extended(s, a.at, s') && UniqueIds(s'.tasks, s'.next)
  {
    DispatchKeeps(t, s, a, s');
    SubIds(a.at, t);
    PlanCurrent(a.at, s'.tasks);
  }

  lemma {:induction false} StillOwned(s: Sys, at: Tree, s': Sys, x: Sig)
    requires Kept(s, at, s') && Owned(s, x)
    ensures Owned(s', x)
  {
  }

  lemma {:induction false} ExtendedFits(s: Sys, at: Tree, s': Sys)
    requires Fits(s) && Extended(s, at, s') && UniqueIds(s'.tasks, s'.next)
    ensures Fits(s')
  {
    var n := |s.flights|;
    forall f | 0 <= f < |s'.flights| ensures Fit(s'.flights[f], s'.next) && OwnsSigs(s', s'.flights[f].sigs) {
      if f < n {
        assert s'.flights[f] == s.flights[f];
        forall i | 0 <= i < |s.tasks| ensures Owned(s', s.flights[f].sigs[i]) {
          StillOwned(s, at, s', s.flights[f].sigs[i]);
        }
      }
    }
    forall f, x | 0 <= f < |s'.flights| && x in Leaves(s'.flights[f].canvas) ensures Owned(s', x) {
      if f < n {
        assert s'.flights[f] == s.flights[f];
        StillOwned(s, at, s', x);
      } else {
        assert SignsPending(at, s'.tasks, x);
      }
    }
    forall x | x in s'.called || x in s'.handling ensures Owned(s', x) && ErrorTask(s', x.task) {
      StillOwned(s, at, s', x);
      assert ErrorTask(s, x.task);
    }
  }

  /** The rows after a report on `x`: only its own row may change, and keeps its id and place. */
  ghost predicate Told(s: Sys, a: Act, s': Sys)
    requires !Dispatches(a)
  {
    && |s'.tasks| == |s.tasks| && s'.next == s.next && s'.onError == s.onError && Owned(s, a.x)
    && (forall i: nat | i < |s.tasks| && i != a.x.task :: s'.tasks[i] == s.tasks[i])
    && s'.tasks[a.x.task] == (if s.tasks[a.x.task].celeryId == a.x.taskId
                              then Outcome(s.tasks[a.x.task], Reported(a)) else s.tasks[a.x.task])
    && s'.log == s.log + [Logged(a)]
  }

  /** The canvases after that. */
  ghost predicate Flown(s: Sys, a: Act, s': Sys) {
    && |s'.flights| == |s.flights|
    && (!Flies(a) ==> s'.flights == s.flights)
    && (Flies(a) ==>
          && a.f < |s.flights| && InHand(s.flights[a.f], a.x)
          && (forall g :: 0 <= g < |s.flights| && g != a.f ==> s'.flights[g] == s.flights[g])
          && s'.flights[a.f].canvas == s.flights[a.f].canvas
          && s'.flights[a.f].at == s.flights[a.f].at && s'.flights[a.f].sigs == s.flights[a.f].sigs
          && if a.Start? then
               && a.x.taskId !in s.flights[a.f].started && s'.flights[a.f].done == s.flights[a.f].done
               && s'.flights[a.f].started == s.flights[a.f].started + {a.x.taskId}
             else
               && a.x.taskId in s.flights[a.f].started && a.x.taskId !in s.flights[a.f].done
               && s'.flights[a.f].started == s.flights[a.f].started
               && s'.flights[a.f].done == s.flights[a.f].done[a.x.taskId := a.ok])
  }

  lemma {:induction false} StartIsLive(fl: Flight, x: Sig)
    requires Distinct(Leaves(fl.canvas)) && CanStart(fl, x)
    ensures MayStart(fl, x)
  {
    ReadyIff(fl.canvas, fl.done, x);
  }

  lemma {:induction false} StepTells(t: Tree, s: Sys, a: Act, s': Sys)
    requires Fits(s) && Step(t, s, a, s') && !Dispatches(a)
    ensures Told(s, a, s') && Flown(s, a, s') && (!Flies(a) ==> ErrorTask(s, a.x.task))
  {
    if a.Start? { StartIsLive(s.flights[a.f], a.x); }
    assert Owned(s, a.x);
  }

  lemma {:induction false} ToldOwned(s: Sys, a: Act, s': Sys, x: Sig)
    requires !Dispatches(a) && Told(s, a, s') && Owned(s, x)
    ensures Owned(s', x)
  {
    assert forall i: nat | i < |s.tasks| :: s'.tasks[i].celeryId == s.tasks[i].celeryId;
  }

  lemma {:induction false} ToldOwnsSigs(s: Sys, a: Act, s': Sys, sigs: seq<Sig>)
    requires !Dispatches(a) && Told(s, a, s') && OwnsSigs(s, sigs)
    ensures OwnsSigs(s', sigs)
  {
    forall i | 0 <= i < |sigs| ensures Owned(s', sigs[i]) { ToldOwned(s, a, s', sigs[i]); }
  }

  /** The act concerns a signature that is there. */
  ghost predicate Concerns(s: Sys, a: Act) {
    && !Dispatches(a)
    && (Flies(a) ==> a.f < |s.flights| && a.x in Leaves(s.flights[a.f].canvas))
    && (a.Finish? ==> a.x.taskId in s.flights[a.f].started)
    && (a.StartError? ==> a.x in s.called) && (a.FinishError? ==> a.x in s.handling)
  }

  lemma {:induction false} AfterTells(s: Sys, a: Act)
    requires Fits(s) && Concerns(s, a)
    ensures Told(s, a, After(s, a))
  {
    assert Owned(s, a.x);
  }

  lemma {:induction false} LinkedErrors(s: Sys, f: nat, y: Sig, x: Sig)
    requires Fits(s) && f < |s.flights| && x in Linked(s.onError, s.flights[f], y)
    ensures Owned(s, x) && ErrorTask(s, x.task)
  {
    assert OwnsSigs(s, s.flights[f].sigs);
  }

  lemma {:induction false} AfterCalls(s: Sys, a: Act)
    requires Fits(s) && Concerns(s, a)
    ensures CallsErrors(After(s, a))
  {
    var s' := After(s, a);
    AfterTells(s, a);
    forall x | x in s'.called || x in s'.handling ensures Owned(s', x) && ErrorTask(s', x.task) {
      if !(x in s.called || x in s.handling) { LinkedErrors(s, a.f, a.x, x); }
      assert ErrorTask(s, x.task);
      ToldOwned(s, a, s', x);
    }
  }

  lemma {:induction false} ToldUnique(s: Sys, a: Act, s': Sys)
    requires UniqueIds(s.tasks, s.next) && !Dispatches(a) && Told(s, a, s')
    ensures UniqueIds(s'.tasks, s'.next)
  {
    assert forall i: nat | i < |s.tasks| :: s'.tasks[i].celeryId == s.tasks[i].celeryId;
  }

  lemma {:induction false} AfterFlight(s: Sys, a: Act, f: nat)
    requires Fits(s) && Concerns(s, a) && f < |s.flights|
    ensures var fl := After(s, a).flights[f];
            && fl.canvas == s.flights[f].canvas && fl.sigs == s.flights[f].sigs && Fit(fl, s.next)
  {
    assert Fit(s.flights[f], s.next);
  }

  lemma {:induction false} AfterFits(s: Sys, a: Act)
    requires Fits(s) && Concerns(s, a)
    ensures Fits(After(s, a))
  {
    AfterCalls(s, a);
    AfterTells(s, a);
    var s' := After(s, a);
    ToldUnique(s, a, s');
    forall f | 0 <= f < |s'.flights| ensures Fit(s'.flights[f], s'.next) && OwnsSigs(s', s'.flights[f].sigs) {
      AfterFlight(s, a, f);
      ToldOwnsSigs(s, a, s', s.flights[f].sigs);
    }
    forall f, x | 0 <= f < |s'.flights| && x in Leaves(s'.flights[f].canvas) ensures Owned(s', x) {
      AfterFlight(s, a, f);
      ToldOwned(s, a, s', x);
    }
  }

  lemma {:induction false} StepFits(t: Tree, s: Sys, a: Act, s': Sys)
    requires WellFormed(t) && Fits(s) && Step(t, s, a, s')
    ensures Fits(s') && s'.onError == s.onError && |s'.tasks| == |s.tasks|
  {
    if Dispatches(a) {
      DispatchExtends(t, s, a, s');
      ExtendedFits(s, a.at, s');
    } else {
      if a.Start? { StartIsLive(s.flights[a.f], a.x); }
      AfterFits(s, a);
    }
  }

  /** Quiet or not, in every history a task id belongs to one row for good. */
  lemma {:induction false} AlwaysFits(t: Tree, h: seq<Sys>, acts: seq<Act>, n: nat)
    requires WellFormed(t) && Behaviour(t, h, acts) && n <= |acts|
    ensures Fits(h[n]) && h[n].onError == h[0].onError && |h[n].tasks| == |h[0].tasks|
  {
    if n > 0 {
      AlwaysFits(t, h, acts, n - 1);
      NextFits(t, h, acts, n - 1);
    }
  }

  lemma {:induction false} NextFits(t: Tree, h: seq<Sys>, acts: seq<Act>, n: nat)
    requires WellFormed(t) && Path(t, h, acts) && n < |acts| && Fits(h[n])
    ensures Fits(h[n + 1]) && h[n + 1].onError == h[n].onError && |h[n + 1].tasks| == |h[n].tasks|
  {
    assert Step(t, h[n], acts[n], h[n + 1]);
    StepFits(t, h[n], acts[n], h[n + 1]);
  }

  /******* Safety *******/

  /** `x` is the signature of its row as it is now. */
  ghost predicate Signs(s: Sys, x: Sig) { x.task < |s.tasks| && x == SigOf(s.tasks, x.task) }

  /** A signature that may start, or runs, and is of no error task, carries the task id
      of its row, and the row says which of the two. */
  ghost predicate Current(s: Sys) {
    forall f, x | 0 <= f < |s.flights| && InHand(s.flights[f], x) && !ErrorTask(s, x.task) ::
      Signs(s, x) && s.tasks[x.task].status == if x.taskId in s.flights[f].started then STARTED else PENDING
  }

  /** A result stays with its row until a reset. */
  ghost predicate Known(s: Sys) {
    forall f, x | 0 <= f < |s.flights| && x in Leaves(s.flights[f].canvas) && x.taskId in s.flights[f].done
      && Signs(s, x) && !ErrorTask(s, x.task) ::
      s.tasks[x.task].status == if s.flights[f].done[x.taskId] then SUCCESS else FAILURE
  }

  /** No two canvases have the same task in hand. */
  ghost predicate Apart(s: Sys) {
    forall f, g, x, y | 0 <= f < |s.flights| && 0 <= g < |s.flights| && f != g
      && InHand(s.flights[f], x) && InHand(s.flights[g], y) && !ErrorTask(s, x.task) :: x.task != y.task
  }

  /** What the rows remember of the log. */
  ghost predicate Remembered(s: Sys) {
    && (forall k :: 0 <= k < |s.log| ==> s.log[k].task < |s.tasks|)
    && (forall k :: 0 <= k < |s.log| && !ErrorTask(s, s.log[k].task) && s.log[k].Ended? && s.log[k].ok ==>
          s.tasks[s.log[k].task].status == SUCCESS)
    && (forall k :: 0 <= k < |s.log| && !ErrorTask(s, s.log[k].task) && s.log[k].Began? ==>
          s.tasks[s.log[k].task].status in {STARTED, SUCCESS} || Ended(s.log[k].task, false) in s.log[k..])
  }

  /** A task begins again only after it has failed; after a success nothing more happens to it. */
  ghost predicate NoRepeat(s: Sys) {
    && (forall j, k :: 0 <= j < k < |s.log| && s.log[j].Ended? && s.log[j].ok && !ErrorTask(s, s.log[j].task) ==>
          s.log[k].task != s.log[j].task)
    && (forall j, k :: 0 <= j < k < |s.log| && s.log[j].Began? && s.log[k] == s.log[j] && !ErrorTask(s, s.log[j].task) ==>
          Ended(s.log[j].task, false) in s.log[j..k])
  }

  /** All of this is about tasks that stand in `on_error` of no step. */
  ghost predicate Safe(s: Sys) {
    Fits(s) && Current(s) && Known(s) && Apart(s) && Remembered(s) && NoRepeat(s)
  }

  /******* A dispatch *******/

  lemma {:induction false} SameErrors(s: Sys, s': Sys)
    requires s'.onError == s.onError
    ensures forall i :: ErrorTask(s', i) <==> ErrorTask(s, i)
  {
  }

  /** What is live among the old canvases keeps its row. */
  lemma {:induction false} LiveKept(s: Sys, at: Tree, s': Sys, f: nat, x: Sig)
    requires Current(s) && Extended(s, at, s') && Clear(s, at)
    requires f < |s.flights| && InHand(s.flights[f], x) && !ErrorTask(s, x.task)
    ensures Signs(s, x) && Signs(s', x) && s'.tasks[x.task] == s.tasks[x.task]
    ensures s'.tasks[x.task].status == PENDING ==> !InTree(s.tasks[x.task], at)
  {
    assert !Resumable(STARTED);
  }

  lemma {:induction false} ExtendedCurrent(s: Sys, at: Tree, s': Sys)
    requires Fits(s) && Current(s) && Extended(s, at, s') && Clear(s, at)
    ensures Current(s')
  {
    SameErrors(s, s');
    forall f, x | 0 <= f < |s'.flights| && InHand(s'.flights[f], x) && !ErrorTask(s', x.task)
      ensures Signs(s', x) && s'.tasks[x.task].status == if x.taskId in s'.flights[f].started then STARTED else PENDING
    {
      if f < |s.flights| {
        assert s'.flights[f] == s.flights[f];
        LiveKept(s, at, s', f, x);
      } else {
        assert SignsPending(at, s'.tasks, x);
      }
    }
  }

  lemma {:induction false} ExtendedKnown(s: Sys, at: Tree, s': Sys)
    requires Fits(s) && Known(s) && Extended(s, at, s')
    ensures Known(s')
  {
    SameErrors(s, s');
    forall f, x | 0 <= f < |s'.flights| && x in Leaves(s'.flights[f].canvas) && x.taskId in s'.flights[f].done
      && Signs(s', x) && !ErrorTask(s', x.task)
      ensures s'.tasks[x.task].status == if s'.flights[f].done[x.taskId] then SUCCESS else FAILURE
    {
      assert f < |s.flights| && s'.flights[f] == s.flights[f];
      assert x.taskId < s.next && Signs(s, x);
    }
  }

  lemma {:induction false} NewApart(s: Sys, at: Tree, s': Sys, f: nat, x: Sig, y: Sig)
    requires Current(s) && Extended(s, at, s') && Clear(s, at) && f < |s.flights|
    requires InHand(s.flights[f], x) && !ErrorTask(s, x.task) && InHand(s'.flights[|s.flights|], y)
    ensures x.task != y.task
  {
    LiveKept(s, at, s', f, x);
    assert SignsPending(at, s'.tasks, y);
  }

  lemma {:induction false} ExtendedApart(s: Sys, at: Tree, s': Sys)
    requires Fits(s) && Current(s) && Apart(s) && Extended(s, at, s') && Clear(s, at)
    ensures Apart(s')
  {
    SameErrors(s, s');
    var n := |s.flights|;
    assert forall f :: 0 <= f < n ==> s'.flights[f] == s'.flights[..n][f];
    forall f, g, x, y | 0 <= f < g < |s'.flights| && InHand(s'.flights[f], x) && InHand(s'.flights[g], y)
      && !ErrorTask(s', x.task)
      ensures x.task != y.task
    {
      if g == n { NewApart(s, at, s', f, x, y); }
    }
  }

  lemma {:induction false} ExtendedRemembered(s: Sys, at: Tree, s': Sys)
    requires Remembered(s) && NoRepeat(s) && Extended(s, at, s')
    ensures Remembered(s') && NoRepeat(s')
  {
    SameErrors(s, s');
    assert forall i: nat | i < |s.tasks| && s.tasks[i].status in {STARTED, SUCCESS} :: s'.tasks[i] == s.tasks[i];
  }

  lemma {:induction false} DispatchSafe(t: Tree, s: Sys, a: Act, s': Sys)
    requires WellFormed(t) && Safe(s) && Step(t, s, a, s') && Dispatches(a) && Quiet(s, a)
    ensures Safe(s')
  {
    DispatchExtends(t, s, a, s');
    ExtendedFits(s, a.at, s');
    ExtendedCurrent(s, a.at, s');
    ExtendedKnown(s, a.at, s');
    ExtendedApart(s, a.at, s');
    ExtendedRemembered(s, a.at, s');
  }

  /******* An execution *******/

  /** What executing does to tasks that are no error tasks: at most one row changes, that
      of a signature in hand, which is the current one. */
  ghost predicate Executed(s: Sys, a: Act, s': Sys) {
    && !Dispatches(a) && Told(s, a, s') && Flown(s, a, s')
    && (!ErrorTask(s, a.x.task) ==>
          && Flies(a) && Signs(s, a.x) && s.tasks[a.x.task].status == (if a.Start? then PENDING else STARTED)
          && s'.tasks[a.x.task] == Outcome(s.tasks[a.x.task], Reported(a)))
  }

  lemma {:induction false} StepExecutes(t: Tree, s: Sys, a: Act, s': Sys)
    requires Fits(s) && Current(s) && Step(t, s, a, s') && !Dispatches(a)
    ensures Executed(s, a, s')
  {
    StepTells(t, s, a, s');
  }

  /** Executing makes nothing live that was not. */
  lemma {:induction false} LiveStays(s: Sys, a: Act, s': Sys, g: nat, y: Sig)
    requires Fits(s) && Flown(s, a, s') && g < |s.flights| && InHand(s'.flights[g], y)
    ensures InHand(s.flights[g], y)
    ensures y.taskId in s'.flights[g].started <==> y.taskId in s.flights[g].started || (a.Start? && g == a.f && y == a.x)
    ensures a.Finish? && g == a.f ==> y != a.x
  {
    if Flies(a) && g == a.f {
      var fl := s.flights[g];
      assert a.x in Leaves(fl.canvas) && y in Leaves(fl.canvas);
      forall z | Precedes(fl.canvas, z, y) && z.taskId in fl.done && !fl.done[z.taskId]
        ensures z.taskId in s'.flights[g].done && !s'.flights[g].done[z.taskId] { }
    }
  }

  lemma {:induction false} ExecutedCurrent(s: Sys, a: Act, s': Sys)
    requires Fits(s) && Current(s) && Apart(s) && Executed(s, a, s')
    ensures Current(s')
  {
    SameErrors(s, s');
    forall g, y | 0 <= g < |s'.flights| && InHand(s'.flights[g], y) && !ErrorTask(s', y.task)
      ensures Signs(s', y) && s'.tasks[y.task].status == if y.taskId in s'.flights[g].started then STARTED else PENDING
    {
      LiveStays(s, a, s', g, y);
      if y.task == a.x.task {
        assert g == a.f;
        assert y == a.x;
      } else {
        assert a.Start? && g == a.f ==> y != a.x;
      }
    }
  }

  lemma {:induction false} ExecutedKnown(s: Sys, a: Act, s': Sys)
    requires Fits(s) && Known(s) && Executed(s, a, s')
    ensures Known(s')
  {
    SameErrors(s, s');
    forall g, y | 0 <= g < |s'.flights| && y in Leaves(s'.flights[g].canvas) && y.taskId in s'.flights[g].done
      && Signs(s', y) && !ErrorTask(s', y.task)
      ensures s'.tasks[y.task].status == if s'.flights[g].done[y.taskId] then SUCCESS else FAILURE
    {
      assert s.tasks[y.task].celeryId == s'.tasks[y.task].celeryId;
      assert Signs(s, y);
      if y.task == a.x.task { assert y == a.x; }
    }
  }

  lemma {:induction false} ExecutedApart(s: Sys, a: Act, s': Sys)
    requires Fits(s) && Apart(s) && Executed(s, a, s')
    ensures Apart(s')
  {
    SameErrors(s, s');
    forall f, g, x, y | 0 <= f < |s'.flights| && 0 <= g < |s'.flights| && f != g
      && InHand(s'.flights[f], x) && InHand(s'.flights[g], y) && !ErrorTask(s', x.task) ensures x.task != y.task
    {
      LiveStays(s, a, s', f, x);
      LiveStays(s, a, s', g, y);
    }
  }

  /** The last event is of `x`, whose row says what was reported if it is no error task. */
  lemma {:induction false} LogNow(s: Sys, a: Act, s': Sys)
    requires Executed(s, a, s')
    ensures |s'.log| == |s.log| + 1 && s'.log[|s.log|] == Logged(a) && Logged(a).task == a.x.task < |s'.tasks|
    ensures forall k :: 0 <= k < |s.log| ==> s'.log[k] == s.log[k]
    ensures !ErrorTask(s, a.x.task) ==> s'.tasks[a.x.task].status == Reported(a)
    ensures forall i: nat | i < |s.tasks| && !ErrorTask(s, i) && s.tasks[i].status == SUCCESS :: s'.tasks[i] == s.tasks[i]
  {
  }

  lemma {:induction false} BeganRemembered(s: Sys, a: Act, s': Sys, k: nat)
    requires Remembered(s) && Executed(s, a, s')
    requires k < |s.log| && !ErrorTask(s, s.log[k].task) && s.log[k].Began?
    ensures s'.tasks[s.log[k].task].status in {STARTED, SUCCESS} || Ended(s.log[k].task, false) in s'.log[k..]
  {
    LogNow(s, a, s');
    var n := |s.log|;
    assert s'.log[k..] == s.log[k..] + [s'.log[n]];
    assert s'.log[n] in s'.log[k..];
  }

  lemma {:induction false} ExecutedRemembered(s: Sys, a: Act, s': Sys)
    requires Remembered(s) && Executed(s, a, s')
    ensures Remembered(s')
  {
    SameErrors(s, s');
    LogNow(s, a, s');
    forall k | 0 <= k < |s'.log| && !ErrorTask(s', s'.log[k].task) && s'.log[k].Began?
      ensures s'.tasks[s'.log[k].task].status in {STARTED, SUCCESS} || Ended(s'.log[k].task, false) in s'.log[k..]
    {
      if k < |s.log| { BeganRemembered(s, a, s', k); }
    }
  }

  lemma {:induction false} NextBegin(s: Sys, a: Act, s': Sys, j: nat)
    requires Remembered(s) && Executed(s, a, s') && j < |s.log|
    requires s.log[j].Began? && Logged(a) == s.log[j] && !ErrorTask(s, s.log[j].task)
    ensures Ended(s.log[j].task, false) in s.log[j..]
  {
    assert s.tasks[s.log[j].task].status == PENDING;
  }

  lemma {:induction false} ExecutedNoRepeat(s: Sys, a: Act, s': Sys)
    requires Remembered(s) && NoRepeat(s) && Executed(s, a, s')
    ensures NoRepeat(s')
  {
    SameErrors(s, s');
    LogNow(s, a, s');
    forall j, k | 0 <= j < k < |s'.log| && s'.log[j].Began? && s'.log[k] == s'.log[j] && !ErrorTask(s', s'.log[j].task)
      ensures Ended(s'.log[j].task, false) in s'.log[j..k]
    {
      if k < |s.log| {
        assert s'.log[j..k] == s.log[j..k];
      } else {
        NextBegin(s, a, s', j);
        assert s'.log[j..k] == s.log[j..];
      }
    }
  }

  lemma {:induction false} ExecuteSafe(t: Tree, s: Sys, a: Act, s': Sys)
    requires WellFormed(t) && Safe(s) && Step(t, s, a, s') && !Dispatches(a)
    ensures Safe(s') && Executed(s, a, s')
  {
    StepFits(t, s, a, s');
    StepExecutes(t, s, a, s');
    ExecutedCurrent(s, a, s');
    ExecutedKnown(s, a, s');
    ExecutedApart(s, a, s');
    ExecutedRemembered(s, a, s');
    ExecutedNoRepeat(s, a, s');
  }

  /******* Whole histories *******/

  lemma {:induction false} InitialSafe(s: Sys)
    requires Initial(s)
    ensures Safe(s)
  {
  }

  /** Every state of a history with quiet dispatches is safe. */
  lemma {:induction false} AlwaysSafe(t: Tree, h: seq<Sys>, acts: seq<Act>, n: nat)
    requires WellFormed(t) && Behaviour(t, h, acts) && n <= |acts|
    requires forall k :: 0 <= k < n ==> Quiet(h[k], acts[k])
    ensures Safe(h[n]) && h[n].onError == h[0].onError && |h[n].tasks| == |h[0].tasks|
  {
    AlwaysFits(t, h, acts, n);
    if n == 0 {
      InitialSafe(h[0]);
    } else {
      AlwaysSafe(t, h, acts, n - 1);
      NextSafe(t, h, acts, n - 1);
    }
  }

  lemma {:induction false} NextSafe(t: Tree, h: seq<Sys>, acts: seq<Act>, n: nat)
    requires WellFormed(t) && Path(t, h, acts) && n < |acts| && Safe(h[n]) && Quiet(h[n], acts[n])
    ensures Safe(h[n + 1])
  {
    assert Step(t, h[n], acts[n], h[n + 1]);
    if Dispatches(acts[n]) {
      DispatchSafe(t, h[n], acts[n], h[n + 1]);
    } else {
      ExecuteSafe(t, h[n], acts[n], h[n + 1]);
    }
  }

  lemma {:induction false} SuccessStays(t: Tree, s: Sys, a: Act, s': Sys, i: TaskId)
    requires Fits(s) && Current(s) && Step(t, s, a, s')
    requires i < |s.tasks| && s.tasks[i].status == SUCCESS && !ErrorTask(s, i)
    ensures i < |s'.tasks| && s'.tasks[i].status == SUCCESS
    ensures s'.log == s.log || (|s'.log| == |s.log| + 1 && s.log <= s'.log && s'.log[|s.log|] != Began(i))
  {
    if Dispatches(a) { DispatchKeeps(t, s, a, s'); } else { StepExecutes(t, s, a, s'); }
  }

  lemma {:induction false} NotThen(t: Tree, s: Sys, a: Act, s': Sys, i: TaskId, from: nat)
    requires Fits(s) && Current(s) && Step(t, s, a, s') && from <= |s.log| && Began(i) !in s.log[from..]
    requires i < |s.tasks| && s.tasks[i].status == SUCCESS && !ErrorTask(s, i)
    ensures i < |s'.tasks| && s'.tasks[i].status == SUCCESS && s.log <= s'.log && Began(i) !in s'.log[from..]
  {
    SuccessStays(t, s, a, s', i);
    if s'.log != s.log {
      assert s'.log[from..] == s.log[from..] + [s'.log[|s.log|]];
    }
  }

  lemma {:induction false} NotNext(t: Tree, h: seq<Sys>, acts: seq<Act>, n: nat, i: TaskId, from: nat)
    requires WellFormed(t) && Behaviour(t, h, acts) && AllQuiet(h, acts) && n < |acts|
    requires from <= |h[n].log| && Began(i) !in h[n].log[from..]
    requires i < |h[n].tasks| && h[n].tasks[i].status == SUCCESS && !ErrorTask(h[0], i)
    ensures i < |h[n + 1].tasks| && h[n + 1].tasks[i].status == SUCCESS
    ensures h[n].log <= h[n + 1].log && Began(i) !in h[n + 1].log[from..]
  {
    AlwaysSafe(t, h, acts, n);
    SameErrors(h[0], h[n]);
    assert Step(t, h[n], acts[n], h[n + 1]);
    NotThen(t, h[n], acts[n], h[n + 1], i, from);
  }

  /** A task that is no error task and has reached SUCCESS keeps it, and never begins again. */
  lemma {:induction false} NeverAgain(t: Tree, h: seq<Sys>, acts: seq<Act>, m: nat, n: nat, i: TaskId)
    requires WellFormed(t) && Behaviour(t, h, acts) && AllQuiet(h, acts) && m <= n <= |acts|
    requires i < |h[m].tasks| && h[m].tasks[i].status == SUCCESS && !ErrorTask(h[0], i)
    ensures i < |h[n].tasks| && h[n].tasks[i].status == SUCCESS && h[m].log <= h[n].log
    ensures Began(i) !in h[n].log[|h[m].log|..]
  {
    if m < n {
      NeverAgain(t, h, acts, m, n - 1, i);
      NotNext(t, h, acts, n - 1, i, |h[m].log|);
    }
  }
}
